/** The copy loop of a restore as repeated puts into one pod: what it leaves at each path, and what a
    repeated pass does after passes that were cut short. */
module RestoreLoop {
  import opened Basics
  import opened Paths
  import opened FileTree
  import Copy
  import opened Storage
  import opened Remote
  import opened Restore

  /** Where keys go: `dir` is restoreDir/id, `remoteFolder` is cut off the front of each key. */
  datatype Route = Route(remoteFolder: string, dir: string)

  function FileFor(route: Route, key: string): string {
    route.dir + TrimPrefix(key, route.remoteFolder)
  }

  /** The path a key's file is written at. */
  function Landing(route: Route, key: string): seq<string> {
    Resolve(FileFor(route, key))
  }

  function PlacedKey(t: Tree, bucket: Bucket, key: string, route: Route, fault: CopyFault): (Tree, bool) {
    if key !in bucket || fault.Unfetched? then (t, false)
    else if |bucket[key]| == 0 then (t, !fault.Unconfirmed?)
    else
      var (t', ok) := Received(t, FileFor(route, key), bucket[key], !fault.DirOnly?);
      (t', ok && !fault.Unconfirmed?)
  }

  function PlacedKeys(t: Tree, bucket: Bucket, keys: seq<string>, route: Route, faults: seq<CopyFault>): (Tree, nat)
    decreases |keys|
  {
    if keys == [] then (t, 0)
    else
      var (t', ok) := PlacedKey(t, bucket, keys[0], route, CopyFaultAt(faults, 0));
      if !ok then (t', 0)
      else
        var (t'', n) := PlacedKeys(t', bucket, keys[1..], route, NextFaults(faults));
        (t'', n + 1)
  }

  function NextFaults(faults: seq<CopyFault>): seq<CopyFault> {
    if faults == [] then [] else faults[1..]
  }

  // ---- The controller's loop is this loop ----------------------------------------------------------------

  lemma KeyPlaced(h: Host, bucket: Bucket, key: string, ns: string, podName: string, route: Route, fault: CopyFault)
    requires Copy.ValidName(ns) && Copy.ValidName(podName) && PodId(ns, podName) in h.pods
    ensures
      var (t, ok) := PlacedKey(h.pods[PodId(ns, podName)], bucket, key, route, fault);
      CopiedKey(h, bucket, key, route.remoteFolder, ns + "/" + podName + ":" + route.dir, fault)
      == (h.(pods := h.pods[PodId(ns, podName) := t]), ok)
  {
    hide Copy.ExtractFileSpec, Received, TrimPrefix;
    var tail := TrimPrefix(key, route.remoteFolder);
    Copy.FileSpecRoundTrip(ns, podName, route.dir + tail);
    assert ns + "/" + podName + ":" + route.dir + tail == ns + "/" + podName + ":" + (route.dir + tail);
    assert h.(pods := h.pods[PodId(ns, podName) := h.pods[PodId(ns, podName)]]) == h;
  }

  /** The faults from number i on. */
  function From(faults: seq<CopyFault>, i: nat): seq<CopyFault> {
    if i <= |faults| then faults[i..] else []
  }

  lemma FromShift(faults: seq<CopyFault>, i: nat)
    ensures CopyFaultAt(From(faults, i), 0) == CopyFaultAt(faults, i)
    ensures NextFaults(From(faults, i)) == From(faults, i + 1)
  {
  }

  lemma {:induction false} KeysPlaced(h: Host, bucket: Bucket, keys: seq<string>, i: nat, ns: string, podName: string,
                                      route: Route, faults: seq<CopyFault>)
    requires i <= |keys| && Copy.ValidName(ns) && Copy.ValidName(podName) && PodId(ns, podName) in h.pods
    ensures
      var (t, n) := PlacedKeys(h.pods[PodId(ns, podName)], bucket, keys[i..], route, From(faults, i));
      CopiedKeys(h, bucket, keys, i, route.remoteFolder, ns + "/" + podName + ":" + route.dir, faults)
      == (h.(pods := h.pods[PodId(ns, podName) := t]), i + n)
    decreases |keys| - i
  {
    hide CopiedKey, PlacedKey, CopyFaultAt, NextFaults, From;
    if i < |keys| {
      var pod := PodId(ns, podName);
      KeyPlaced(h, bucket, keys[i], ns, podName, route, CopyFaultAt(faults, i));
      FromShift(faults, i);
      assert keys[i..][1..] == keys[i + 1..];
      var h' := CopiedKey(h, bucket, keys[i], route.remoteFolder, ns + "/" + podName + ":" + route.dir,
                          CopyFaultAt(faults, i)).0;
      var t' := PlacedKeys(h'.pods[pod], bucket, keys[i + 1..], route, From(faults, i + 1)).0;
      assert h'.pods[pod := t'] == h.pods[pod := t'];
      KeysPlaced(h', bucket, keys, i + 1, ns, podName, route, faults);
    } else {
      assert h.(pods := h.pods[PodId(ns, podName) := h.pods[PodId(ns, podName)]]) == h;
    }
  }

  /** The directory a key's file is put in, as mkdir is asked for it. */
  function FolderFor(route: Route, key: string): seq<string> {
    Resolve(DirPart(FileFor(route, key)))
  }

  lemma PlacedShape(t: Tree, bucket: Bucket, key: string, route: Route, fault: CopyFault)
    ensures
      var (t', ok) := PlacedKey(t, bucket, key, route, fault);
      || (t' == t && (ok ==> key in bucket && |bucket[key]| == 0))
      || (key in bucket && |bucket[key]| > 0 && !ok && MkdirAll(t, FolderFor(route, key)) == Some(t'))
      || (key in bucket && |bucket[key]| > 0 && Good(FilePart(FileFor(route, key)))
          && DirPart(FileFor(route, key)) != "" && Put(t, Landing(route, key), bucket[key]) == Some(t'))
  {
    hide Put, FileFor, Good, FilePart, Received, DirPart, Resolve, MkdirAll;
    if key in bucket {
      ReceivedShape(t, FileFor(route, key), bucket[key], !fault.DirOnly?);
    }
  }

  // ---- What the loop leaves at one path --------------------------------------------------------------------

  /** The key writes a file at `q`. */
  predicate Hits(bucket: Bucket, route: Route, key: string, q: seq<string>) {
    key in bucket && |bucket[key]| > 0 && Landing(route, key) == q
  }

  lemma PlacedOneAt(t: Tree, bucket: Bucket, key: string, route: Route, fault: CopyFault, q: seq<string>)
    ensures
      var (t', ok) := PlacedKey(t, bucket, key, route, fault);
      && (Hits(bucket, route, key, q) ==>
            (ok ==> q in t' && t'[q] == File(bucket[key]))
            && (q in t && t[q] == File(bucket[key]) ==> q in t' && t'[q] == t[q]))
      && (!Hits(bucket, route, key, q) ==>
            (q in t ==> q in t' && t'[q] == t[q]) && (q in t' && q !in t ==> t'[q] == Dir))
  {
    hide Put, Landing, FileFor, Good, FilePart, DirPart, PlacedKey, MkdirAll, FolderFor;
    var (t', ok) := PlacedKey(t, bucket, key, route, fault);
    PlacedShape(t, bucket, key, route, fault);
    if key in bucket && Put(t, Landing(route, key), bucket[key]) == Some(t') {
      PutEffect(t, Landing(route, key), bucket[key], t');
    } else if MkdirAll(t, FolderFor(route, key)) == Some(t') {
      MkdirEffect(t, FolderFor(route, key), t');
    }
  }

  /** If all keys that write at `q` bring the same content c, then after a full pass q holds c when there is
      such a key, and otherwise no file has appeared or changed there. */
  lemma {:induction false} PlacedAt(t: Tree, bucket: Bucket, keys: seq<string>, route: Route, faults: seq<CopyFault>,
                                    q: seq<string>, c: Bytes)
    requires forall k | k in keys && Hits(bucket, route, k, q) :: bucket[k] == c
    ensures
      var (t', n) := PlacedKeys(t, bucket, keys, route, faults);
      && (n == |keys| && (exists k | k in keys :: Hits(bucket, route, k, q)) ==> q in t' && t'[q] == File(c))
      && (!(exists k | k in keys :: Hits(bucket, route, k, q)) ==>
            (q in t ==> q in t' && t'[q] == t[q]) && (q in t' && q !in t ==> t'[q] == Dir))
      && (q in t && t[q] == File(c) ==> q in t' && t'[q] == File(c))
    decreases |keys|
  {
    hide PlacedKey, Hits, CopyFaultAt;
    if keys != [] {
      assert keys[0] in keys && forall k | k in keys[1..] :: k in keys;
      assert forall k | k in keys :: k == keys[0] || k in keys[1..];
      PlacedOneAt(t, bucket, keys[0], route, CopyFaultAt(faults, 0), q);
      var (t', ok) := PlacedKey(t, bucket, keys[0], route, CopyFaultAt(faults, 0));
      HitsContent(bucket, route, keys[0], q);
      PlacedAt(t', bucket, keys[1..], route, NextFaults(faults), q, c);
    }
  }

  lemma HitsContent(bucket: Bucket, route: Route, key: string, q: seq<string>)
    ensures Hits(bucket, route, key, q) ==> key in bucket && |bucket[key]| > 0
  {
  }

  // ---- A pass lays its keys over the tree -------------------------------------------------------------------

  /** The directories on the way to `p`. */
  function Up(p: seq<string>): map<seq<string>, Node> {
    if p == [] then map[] else Up(p[..|p| - 1])[p[..|p| - 1] := Dir]
  }

  lemma {:induction false} UpHolds(p: seq<string>)
    ensures forall q :: q in Up(p) <==> Above(q, p)
    ensures forall q | q in Up(p) :: Up(p)[q] == Dir
    decreases |p|
  {
    if p != [] {
      var init := p[..|p| - 1];
      UpHolds(init);
      forall q ensures q in Up(p) <==> Above(q, p) {
        AboveInit(q, p);
      }
    }
  }

  /** What one key puts into the tree. */
  function LayerOf(bucket: Bucket, key: string, route: Route): map<seq<string>, Node> {
    var p := Landing(route, key);
    if key in bucket && |bucket[key]| > 0 then Up(p)[p := File(bucket[key])] else map[]
  }

  function Layer(bucket: Bucket, keys: seq<string>, route: Route): map<seq<string>, Node> {
    if keys == [] then map[] else LayerOf(bucket, keys[0], route) + Layer(bucket, keys[1..], route)
  }

  /** The directories that mkdir makes for one key. */
  function Opened(route: Route, key: string): map<seq<string>, Node> {
    Up(FolderFor(route, key))[FolderFor(route, key) := Dir]
  }

  lemma PutIsLayer(t: Tree, p: seq<string>, content: Bytes, t': Tree)
    requires Put(t, p, content) == Some(t')
    ensures t' == t + Up(p)[p := File(content)]
  {
    hide Put, Up;
    PutEffect(t, p, content, t');
    UpHolds(p);
    var over := t + Up(p)[p := File(content)];
    forall q ensures q in t' <==> q in over {
    }
    forall q | q in t' ensures t'[q] == over[q] {
    }
  }

  lemma MkdirIsLayer(t: Tree, d: seq<string>, t': Tree)
    requires MkdirAll(t, d) == Some(t')
    ensures t' == t + Up(d)[d := Dir]
  {
    hide MkdirAll, Up;
    MkdirEffect(t, d, t');
    UpHolds(d);
    var over := t + Up(d)[d := Dir];
    assert AtOrAbove(d, d);
    forall q ensures q in t' <==> q in over {
      assert AtOrAbove(q, d) <==> Above(q, d) || q == d;
    }
    forall q | q in t' ensures t'[q] == over[q] {
      assert AtOrAbove(q, d) <==> Above(q, d) || q == d;
    }
  }

  lemma PlacedIsLayer(t: Tree, bucket: Bucket, key: string, route: Route, fault: CopyFault)
    ensures
      var (t', ok) := PlacedKey(t, bucket, key, route, fault);
      || (!ok && t' == t)
      || (!ok && key in bucket && |bucket[key]| > 0 && t' == t + Opened(route, key))
      || (key in bucket && t' == t + LayerOf(bucket, key, route))
  {
    hide Put, Landing, FileFor, Up, Good, FilePart, PlacedKey, MkdirAll, FolderFor;
    var (t', ok) := PlacedKey(t, bucket, key, route, fault);
    PlacedShape(t, bucket, key, route, fault);
    assert t + map[] == t;
    if key in bucket && Put(t, Landing(route, key), bucket[key]) == Some(t') {
      PutIsLayer(t, Landing(route, key), bucket[key], t');
    } else if MkdirAll(t, FolderFor(route, key)) == Some(t') {
      MkdirIsLayer(t, FolderFor(route, key), t');
    }
  }

  /** What a pass that copied `m` keys leaves: these keys' layers, and possibly the next key's directory. */
  function Prefix(bucket: Bucket, keys: seq<string>, route: Route, m: nat, half: bool): map<seq<string>, Node>
    requires m <= |keys| && (half ==> m < |keys|)
  {
    Layer(bucket, keys[..m], route) + (if half then Opened(route, keys[m]) else map[])
  }

  /** A pass that stops has copied exactly a prefix of its list, and made at most the directory of the next
      file; a full pass has copied exactly all of it. */
  lemma {:induction false} CopiesPrefix(t: Tree, bucket: Bucket, keys: seq<string>, route: Route,
                                        faults: seq<CopyFault>)
    returns (m: nat, half: bool)
    ensures
      var (t', n) := PlacedKeys(t, bucket, keys, route, faults);
      && n <= m <= n + 1 && m <= |keys|
      && (half ==> m == n < |keys| && keys[m] in bucket && |bucket[keys[m]]| > 0)
      && t' == t + Prefix(bucket, keys, route, m, half)
    decreases |keys|
  {
    hide PlacedKey, LayerOf, CopyFaultAt, Opened, Prefix;
    if keys == [] {
      m, half := 0, false;
      EmptyPrefix(t, bucket, keys, route);
    } else {
      PlacedIsLayer(t, bucket, keys[0], route, CopyFaultAt(faults, 0));
      var (t', ok) := PlacedKey(t, bucket, keys[0], route, CopyFaultAt(faults, 0));
      if ok {
        m, half := CopiesPrefix(t', bucket, keys[1..], route, NextFaults(faults));
        PrefixGrows(t, bucket, keys, route, m, half);
        m := m + 1;
      } else {
        m, half := OneKey(t, t', bucket, keys, route);
      }
    }
  }

  lemma EmptyPrefix(t: Tree, bucket: Bucket, keys: seq<string>, route: Route)
    ensures t + Prefix(bucket, keys, route, 0, false) == t
  {
    assert t + (map[] + map[]) == t;
  }

  lemma PrefixGrows(t: Tree, bucket: Bucket, keys: seq<string>, route: Route, m: nat, half: bool)
    requires keys != [] && m < |keys| && (half ==> m + 1 < |keys|)
    ensures (t + LayerOf(bucket, keys[0], route)) + Prefix(bucket, keys[1..], route, m, half)
         == t + Prefix(bucket, keys, route, m + 1, half)
  {
    hide LayerOf, Opened;
    var first, rest := LayerOf(bucket, keys[0], route), Layer(bucket, keys[1..][..m], route);
    var extra := if half then Opened(route, keys[m + 1]) else map[];
    assert keys[..m + 1][1..] == keys[1..][..m] && keys[..m + 1][0] == keys[0];
    assert (t + first) + (rest + extra) == t + ((first + rest) + extra);
  }

  lemma OneKey(t: Tree, t': Tree, bucket: Bucket, keys: seq<string>, route: Route) returns (m: nat, half: bool)
    requires keys != []
    requires t' == t || (keys[0] in bucket && |bucket[keys[0]]| > 0 && t' == t + Opened(route, keys[0]))
             || (keys[0] in bucket && t' == t + LayerOf(bucket, keys[0], route))
    ensures m <= 1 && (half ==> m == 0 && keys[0] in bucket && |bucket[keys[0]]| > 0)
    ensures t' == t + Prefix(bucket, keys, route, m, half)
  {
    hide LayerOf, Opened;
    var layer, folder := LayerOf(bucket, keys[0], route), Opened(route, keys[0]);
    assert keys[..0] == [] && keys[..1] == [keys[0]] && keys[..1][1..] == [];
    if t' == t {
      m, half := 0, false;
      EmptyPrefix(t, bucket, keys, route);
    } else if keys[0] in bucket && t' == t + layer {
      m, half := 1, false;
      assert Layer(bucket, [], route) == map[];
      assert (layer + map[]) + map[] == layer;
      assert Prefix(bucket, keys, route, 1, false) == layer;
    } else {
      m, half := 0, true;
      assert map[] + folder == folder;
      assert Prefix(bucket, keys, route, 0, true) == folder;
    }
  }

  // ---- A pass that is repeated -------------------------------------------------------------------------------

  /** What is there stays what it is, a directory or a file. */
  ghost predicate KindsIn(t: Tree, goal: Tree) {
    forall q | q in t :: q in goal && (t[q].Dir? <==> goal[q].Dir?)
  }

  /** In `goal` a key's file is in its place. */
  ghost predicate HasRoom(goal: Tree, bucket: Bucket, key: string, route: Route) {
    key in bucket && (|bucket[key]| > 0 ==>
      && Good(FilePart(FileFor(route, key))) && DirPart(FileFor(route, key)) != ""
      && Landing(route, key) != [] && IsFile(goal, Landing(route, key))
      && forall q | Above(q, Landing(route, key)) :: IsDir(goal, q))
  }

  ghost predicate Admits(goal: Tree, bucket: Bucket, keys: seq<string>, route: Route) {
    forall k | k in keys :: HasRoom(goal, bucket, k, route)
  }

  lemma PlacedOneKinds(t: Tree, bucket: Bucket, key: string, route: Route, fault: CopyFault)
    ensures
      var (t', ok) := PlacedKey(t, bucket, key, route, fault);
      KindsIn(t, t') && (ok ==> HasRoom(t', bucket, key, route))
  {
    hide Put, Landing, FileFor, Good, FilePart, DirPart, PlacedKey, MkdirAll, FolderFor;
    var (t', ok) := PlacedKey(t, bucket, key, route, fault);
    PlacedShape(t, bucket, key, route, fault);
    if key in bucket && Put(t, Landing(route, key), bucket[key]) == Some(t') {
      PutEffect(t, Landing(route, key), bucket[key], t');
    } else if MkdirAll(t, FolderFor(route, key)) == Some(t') {
      MkdirEffect(t, FolderFor(route, key), t');
    }
  }

  lemma HasRoomStays(t: Tree, goal: Tree, bucket: Bucket, key: string, route: Route)
    requires KindsIn(t, goal) && HasRoom(t, bucket, key, route)
    ensures HasRoom(goal, bucket, key, route)
  {
    hide Landing, FileFor, DirPart, FilePart, Good;
  }

  /** After a full pass all keys have room. */
  lemma {:induction false} PassKinds(t: Tree, bucket: Bucket, keys: seq<string>, route: Route, faults: seq<CopyFault>)
    ensures
      var (t', n) := PlacedKeys(t, bucket, keys, route, faults);
      KindsIn(t, t') && (n == |keys| ==> Admits(t', bucket, keys, route))
    decreases |keys|
  {
    hide PlacedKey, HasRoom, CopyFaultAt;
    if keys != [] {
      PlacedOneKinds(t, bucket, keys[0], route, CopyFaultAt(faults, 0));
      var (t', ok) := PlacedKey(t, bucket, keys[0], route, CopyFaultAt(faults, 0));
      PassKinds(t', bucket, keys[1..], route, NextFaults(faults));
      var (t'', n) := PlacedKeys(t', bucket, keys[1..], route, NextFaults(faults));
      if ok && n == |keys| - 1 {
        HasRoomStays(t', t'', bucket, keys[0], route);
        assert forall k | k in keys :: k == keys[0] || k in keys[1..];
      }
    }
  }

  lemma PlacedTowards(t: Tree, goal: Tree, bucket: Bucket, key: string, route: Route, fault: CopyFault)
    requires KindsIn(t, goal) && HasRoom(goal, bucket, key, route)
    ensures
      var (t', ok) := PlacedKey(t, bucket, key, route, fault);
      KindsIn(t', goal) && (fault == Smooth ==> ok)
  {
    hide Put, FileFor, Good, FilePart, MkdirAll, DirPart, Resolve, Received;
    if |bucket[key]| > 0 {
      var file, p := FileFor(route, key), Landing(route, key);
      PutSucceeds(t, p, bucket[key]);
      PutEffect(t, p, bucket[key], Put(t, p, bucket[key]).value);
      ReceivedShape(t, file, bucket[key], !fault.DirOnly?);
      DirPartResolves(file);
      if fault == Smooth {
        ReceivedWhole(t, file, bucket[key]);
      }
      if MkdirAll(t, FolderFor(route, key)).Some? {
        MkdirEffect(t, FolderFor(route, key), MkdirAll(t, FolderFor(route, key)).value);
        assert p == FolderFor(route, key) + [FilePart(file)];
        forall q | AtOrAbove(q, FolderFor(route, key)) ensures Above(q, p) {
          assert p[..|q|] == FolderFor(route, key)[..|q|];
        }
      }
    }
  }

  /** Towards a tree with room for all keys a pass can only be stopped by faults. */
  lemma {:induction false} PassTowards(t: Tree, goal: Tree, bucket: Bucket, keys: seq<string>, route: Route,
                                       faults: seq<CopyFault>)
    requires KindsIn(t, goal) && Admits(goal, bucket, keys, route)
    ensures
      var (t', n) := PlacedKeys(t, bucket, keys, route, faults);
      KindsIn(t', goal) && (faults == [] ==> n == |keys|)
    decreases |keys|
  {
    hide PlacedKey, HasRoom, KindsIn;
    if keys != [] {
      assert keys[0] in keys && forall k | k in keys[1..] :: k in keys;
      PlacedTowards(t, goal, bucket, keys[0], route, CopyFaultAt(faults, 0));
      var (t', ok) := PlacedKey(t, bucket, keys[0], route, CopyFaultAt(faults, 0));
      PassTowards(t', goal, bucket, keys[1..], route, NextFaults(faults));
    }
  }

  lemma {:induction false} PrefixLayer(bucket: Bucket, keys: seq<string>, route: Route, m: nat)
    requires m <= |keys|
    ensures Layer(bucket, keys[..m], route).Keys <= Layer(bucket, keys, route).Keys
    decreases |keys|
  {
    hide LayerOf;
    if m > 0 {
      assert keys[..m][1..] == keys[1..][..m - 1] && keys[..m][0] == keys[0];
      PrefixLayer(bucket, keys[1..], route, m - 1);
    }
  }

  lemma Absorbed(t: Tree, part: Tree, whole: Tree)
    requires part.Keys <= whole.Keys
    ensures (t + part) + whole == t + whole
  {
  }

  /** A directory made for a key is one of those above its file. */
  lemma {:induction false} OpenedWithin(bucket: Bucket, keys: seq<string>, route: Route, key: string)
    requires key in keys && key in bucket && |bucket[key]| > 0 && Good(FilePart(FileFor(route, key)))
    ensures Opened(route, key).Keys <= Layer(bucket, keys, route).Keys
    decreases |keys|
  {
    hide Opened, FilePart, FileFor, LayerOf, Good;
    if key == keys[0] {
      OpenedAbove(bucket, route, key);
    } else {
      OpenedWithin(bucket, keys[1..], route, key);
    }
  }

  lemma OpenedAbove(bucket: Bucket, route: Route, key: string)
    requires key in bucket && |bucket[key]| > 0 && Good(FilePart(FileFor(route, key)))
    ensures Opened(route, key).Keys <= LayerOf(bucket, key, route).Keys
  {
    hide Up, FilePart, FileFor, Good, Resolve, DirPart;
    var d, p := FolderFor(route, key), Landing(route, key);
    DirPartResolves(FileFor(route, key));
    assert p == d + [FilePart(FileFor(route, key))];
    UpHolds(d);
    UpHolds(p);
    forall q | Above(q, d) || q == d ensures Above(q, p) {
      assert p[..|q|] == d[..|q|];
    }
  }

  lemma PrefixWithin(goal: Tree, bucket: Bucket, keys: seq<string>, route: Route, m: nat, half: bool)
    requires Admits(goal, bucket, keys, route) && m <= |keys|
    requires half ==> m < |keys| && keys[m] in bucket && |bucket[keys[m]]| > 0
    ensures Prefix(bucket, keys, route, m, half).Keys <= Layer(bucket, keys, route).Keys
  {
    hide Opened, Layer, FilePart, FileFor, Good, Landing;
    PrefixLayer(bucket, keys, route, m);
    if half {
      assert HasRoom(goal, bucket, keys[m], route);
      OpenedWithin(bucket, keys, route, keys[m]);
    }
  }

  /** A full pass lays all its keys over the tree. */
  lemma FullLayer(t: Tree, bucket: Bucket, keys: seq<string>, route: Route, faults: seq<CopyFault>)
    ensures
      var (t', n) := PlacedKeys(t, bucket, keys, route, faults);
      n == |keys| ==> t' == t + Layer(bucket, keys, route)
  {
    hide PlacedKeys, Layer;
    var m, half := CopiesPrefix(t, bucket, keys, route, faults);
    assert keys[..|keys|] == keys;
    assert Layer(bucket, keys, route) + map[] == Layer(bucket, keys, route);
  }

  /** A fault-free pass after one that was cut short anywhere succeeds exactly if one uninterrupted pass
      would have, and ends in the same tree. */
  lemma RetryConverges(t: Tree, bucket: Bucket, keys: seq<string>, route: Route, faults: seq<CopyFault>)
    ensures
      var cut := PlacedKeys(t, bucket, keys, route, faults).0;
      var (again, n) := PlacedKeys(cut, bucket, keys, route, []);
      var (once, n') := PlacedKeys(t, bucket, keys, route, []);
      (n == |keys| <==> n' == |keys|) && (n == |keys| ==> again == once)
  {
    hide PlacedKeys, Layer, Admits, Prefix, KindsIn;
    var cut := PlacedKeys(t, bucket, keys, route, faults).0;
    var (again, n) := PlacedKeys(cut, bucket, keys, route, []);
    var (once, n') := PlacedKeys(t, bucket, keys, route, []);
    PassKinds(t, bucket, keys, route, faults);
    PassKinds(cut, bucket, keys, route, []);
    PassKinds(t, bucket, keys, route, []);
    if n == |keys| {
      KindsInTransitive(t, cut, again);
      PassTowards(t, again, bucket, keys, route, []);
    }
    if n' == |keys| {
      PassTowards(t, once, bucket, keys, route, faults);
      PassTowards(cut, once, bucket, keys, route, []);
      var m, half := CopiesPrefix(t, bucket, keys, route, faults);
      FullLayer(t, bucket, keys, route, []);
      FullLayer(cut, bucket, keys, route, []);
      PrefixWithin(once, bucket, keys, route, m, half);
      Absorbed(t, Prefix(bucket, keys, route, m, half), Layer(bucket, keys, route));
    }
  }

  lemma KindsInTransitive(t: Tree, t': Tree, t'': Tree)
    requires KindsIn(t, t') && KindsIn(t', t'')
    ensures KindsIn(t, t'')
  {
  }
}
