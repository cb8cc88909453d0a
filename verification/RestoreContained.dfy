/** Where the files of a restore end up relative to RestoreDir: below it exactly if the cleaned rest of each key does
    not climb out of it. */
module RestoreContained {
  import opened Paths
  import opened FileTree
  import opened Storage
  import opened Remote
  import opened Backup
  import opened Restore
  import opened RestorePaths
  import RestoreLoop
  import opened RestoreRetry
  import opened Coupling
  import CouplingRuns
  import opened RoundTrip

  // ---- Relative paths ----------------------------------------------------------------------------------------

  /** How many ".." a cleaned relative path starts with. */
  function Ups(rel: seq<string>): (u: nat)
    ensures u <= |rel| && (forall i | 0 <= i < u :: rel[i] == "..") && (u < |rel| ==> rel[u] != "..")
  {
    if rel != [] && rel[0] == ".." then 1 + Ups(rel[1..]) else 0
  }

  predicate IsRelative(rel: seq<string>) {
    forall i | Ups(rel) <= i < |rel| :: rel[i] != ".."
  }

  /** Where a cleaned relative path leads from `base`: up first, as far as the root, and then down. */
  function Applied(base: seq<string>, rel: seq<string>): seq<string> {
    base[..Kept(base, rel)] + rel[Ups(rel)..]
  }

  function Kept(base: seq<string>, rel: seq<string>): (n: nat)
    ensures n <= |base|
  {
    if Ups(rel) <= |base| then |base| - Ups(rel) else 0
  }

  lemma UpsUnique(rel: seq<string>, u: nat)
    requires u <= |rel| && (forall i | 0 <= i < u :: rel[i] == "..") && (u < |rel| ==> rel[u] != "..")
    ensures Ups(rel) == u
  {
  }

  lemma UpsInit(rel: seq<string>)
    requires IsRelative(rel) && Ups(rel) < |rel|
    ensures IsRelative(rel[..|rel| - 1]) && Ups(rel[..|rel| - 1]) == Ups(rel)
  {
    hide Ups;
    UpsUnique(rel[..|rel| - 1], Ups(rel));
  }

  lemma UpsSnoc(rel: seq<string>, c: string)
    requires IsRelative(rel) && (c == ".." ==> Ups(rel) == |rel|)
    ensures IsRelative(rel + [c]) && Ups(rel + [c]) == if c == ".." then |rel| + 1 else Ups(rel)
  {
    hide Ups;
    UpsUnique(rel + [c], if c == ".." then |rel| + 1 else Ups(rel));
  }

  lemma PushUps(rel: seq<string>, c: string)
    requires IsRelative(rel)
    ensures IsRelative(PushRelative(rel, c))
    ensures Ups(PushRelative(rel, c)) == if c == ".." && Ups(rel) == |rel| then |rel| + 1 else Ups(rel)
    ensures PushRelative(rel, c) == if c == ".." && Ups(rel) == |rel| then rel + [c] else Push(rel, c)
  {
    hide Ups;
    LastUp(rel);
    if c == ".." && Ups(rel) < |rel| {
      UpsInit(rel);
    } else if c != "" && c != "." {
      UpsSnoc(rel, c);
    }
  }

  lemma LastUp(rel: seq<string>)
    requires IsRelative(rel)
    ensures rel == [] || rel[|rel| - 1] == ".." <==> Ups(rel) == |rel|
  {
    hide Ups;
  }

  lemma PushApplied(base: seq<string>, rel: seq<string>, c: string)
    requires IsRelative(rel)
    ensures Applied(base, PushRelative(rel, c)) == Push(Applied(base, rel), c)
  {
    hide Ups, PushRelative, IsRelative;
    PushUps(rel, c);
    var u, kept := Ups(rel), Kept(base, rel);
    var p := Applied(base, rel);
    if c == ".." && u == |rel| {
      assert p == base[..kept];
    } else if c == ".." {
      assert p[..|p| - 1] == base[..kept] + rel[u..][..|rel| - u - 1];
      assert rel[u..][..|rel| - u - 1] == rel[..|rel| - 1][u..];
    } else if c != "" && c != "." {
      assert (rel + [c])[u..] == rel[u..] + [c];
    }
  }

  /** Cleaning a relative path does not change where it leads. */
  lemma {:induction false} WalkApplied(base: seq<string>, rel: seq<string>, cs: seq<string>)
    requires IsRelative(rel)
    ensures IsRelative(WalkRelative(rel, cs))
    ensures Walk(Applied(base, rel), cs) == Applied(base, WalkRelative(rel, cs))
    decreases |cs|
  {
    hide Applied, IsRelative, Push, PushRelative, Ups;
    if cs != [] {
      PushUps(rel, cs[0]);
      PushApplied(base, rel, cs[0]);
      WalkApplied(base, PushRelative(rel, cs[0]), cs[1..]);
    }
  }

  /** The cleaned path does not lead out of `base`: what it goes up it comes down again, by the same names. */
  predicate StaysIn(base: seq<string>, rest: string) {
    var rel := WalkRelative([], Split(rest, '/'));
    base[Kept(base, rel)..] <= rel[Ups(rel)..]
  }

  lemma StaysInMeans(base: seq<string>, rest: string)
    ensures StaysIn(base, rest) <==> AtOrAbove(base, Walk(base, Split(rest, '/')))
  {
    hide Ups, Walk, WalkRelative;
    assert Applied(base, []) == base;
    WalkApplied(base, [], Split(rest, '/'));
    var rel := WalkRelative([], Split(rest, '/'));
    var kept, down := Kept(base, rel), rel[Ups(rel)..];
    var p := base[..kept] + down;
    assert base == base[..kept] + base[kept..];
    if base[kept..] <= down {
      assert p[..|base|] == base[..kept] + down[..|base| - kept];
    }
    if AtOrAbove(base, p) {
      assert down[..|base| - kept] == p[kept..|base|] == base[kept..];
    }
  }

  lemma {:induction false} NoUps(rel: seq<string>, cs: seq<string>)
    requires ".." !in rel && ".." !in cs
    ensures ".." !in WalkRelative(rel, cs)
    decreases |cs|
  {
    if cs != [] {
      assert cs[0] in cs;
      NoUps(PushRelative(rel, cs[0]), cs[1..]);
    }
  }

  lemma PlainStaysIn(base: seq<string>, rest: string)
    requires ".." !in Split(rest, '/')
    ensures StaysIn(base, rest)
  {
    hide WalkRelative, Split;
    NoUps([], Split(rest, '/'));
  }

  // ---- Restores ----------------------------------------------------------------------------------------------

  /** What follows RestoreDir in the destination of a listed key. */
  function RestOf(spec: RestoreSpec, key: string): string
    requires Target(spec.storage).Some?
  {
    RestorePaths.Rest(Target(spec.storage).value.1, spec.backupId, key)
  }

  /** The path at which the pass writes the file of a key. */
  function LandingOf(s: System, spec: RestoreSpec, key: string): seq<string>
    requires Target(spec.storage).Some?
  {
    RestoreLoop.Landing(RouteOf(s.restoreDir, Target(spec.storage).value.1, spec.backupId), key)
  }

  /** A key's file is below RestoreDir exactly if the rest of the key does not lead out of it. */
  lemma KeyContained(s: System, spec: RestoreSpec, key: string)
    requires Inv(s) && Target(spec.storage).Some?
    ensures LandingOf(s, spec, key) == Walk(PathOf(s.restoreDir), Split(RestOf(spec, key), '/'))
    ensures AtOrAbove(PathOf(s.restoreDir), LandingOf(s, spec, key))
            <==> StaysIn(PathOf(s.restoreDir), RestOf(spec, key))
  {
    hide Inv, Walk, Split, PathOf, IsRestoreDir, StaysIn;
    var folder := Target(spec.storage).value.1;
    CouplingRuns.InvDir(s);
    FileForSpelled(s.restoreDir, folder, spec.backupId, key);
    assert "" + s.restoreDir + "/" + RestOf(spec, key) == s.restoreDir + "/" + RestOf(spec, key);
    ResolveConcat(s.restoreDir, RestOf(spec, key));
    DirResolves(s.restoreDir);
    StaysInMeans(PathOf(s.restoreDir), RestOf(spec, key));
  }

  /** A pass copies the key, if nothing stops it. */
  predicate Copies(s: System, spec: RestoreSpec, order: seq<string>, key: string)
    requires Target(spec.storage).Some? && Target(spec.storage).value.0 in s.host.buckets
  {
    var bucket := s.host.buckets[Target(spec.storage).value.0];
    key in Listed(spec, order) && key in bucket && |bucket[key]| > 0
  }

  ghost predicate AllStayIn(s: System, spec: RestoreSpec, order: seq<string>)
    requires Target(spec.storage).Some? && Target(spec.storage).value.0 in s.host.buckets
  {
    forall key | Copies(s, spec, order, key) :: StaysIn(PathOf(s.restoreDir), RestOf(spec, key))
  }

  lemma HitIsCopied(s: System, spec: RestoreSpec, order: seq<string>, k: string, q: seq<string>)
    requires Target(spec.storage).Some? && Target(spec.storage).value.0 in s.host.buckets && k in Listed(spec, order)
    ensures
      var (id, folder) := Target(spec.storage).value;
      RestoreLoop.Hits(s.host.buckets[id], RouteOf(s.restoreDir, folder, spec.backupId), k, q)
      <==> Copies(s, spec, order, k) && LandingOf(s, spec, k) == q
  {
    hide Listed, RestoreLoop.Landing;
  }

  /** If no key leads out of RestoreDir, a pass of any id, stopped anywhere, changes no file outside it. */
  lemma RestoreIsContained(s: System, ns: string, spec: RestoreSpec, turn: RestoreTurn, q: seq<string>)
    requires Inv(s) && Reaches(s.host, ns, spec) && AllStayIn(s, spec, turn.order)
    requires !AtOrAbove(PathOf(s.restoreDir), q)
    ensures Spared(s.host.pods[PodId(ns, spec.podName)], RestoredTree(s, ns, spec, turn), q)
  {
    hide Inv, RestoredTree, PathOf, StaysIn, RouteOf, Listed, RestoreLoop.Landing;
    var (id, folder) := Target(spec.storage).value;
    forall k | k in Listed(spec, turn.order)
      ensures !RestoreLoop.Hits(s.host.buckets[id], RouteOf(s.restoreDir, folder, spec.backupId), k, q)
    {
      KeyContained(s, spec, k);
      HitIsCopied(s, spec, turn.order, k, q);
    }
    NoHitSpares(s, ns, spec, turn, q);
  }

  /** A pass that gets as far as its command has put the file of every key in its place; all these places are below
      RestoreDir exactly if no key leads out of it. */
  lemma ContainedExactly(s: System, ns: string, spec: RestoreSpec, turn: RestoreTurn)
    requires Inv(s) && Reaches(s.host, ns, spec) && RestorePass(s.host, s.restoreDir, ns, spec, turn).ran.Some?
    ensures forall key | Copies(s, spec, turn.order, key) ::
              IsFile(RestoredTree(s, ns, spec, turn), LandingOf(s, spec, key))
    ensures (forall key | Copies(s, spec, turn.order, key) :: AtOrAbove(PathOf(s.restoreDir), LandingOf(s, spec, key)))
            <==> AllStayIn(s, spec, turn.order)
  {
    hide Inv, PathOf, StaysIn, RouteOf, Listed, RestoreLoop.Landing, RestorePass, RestoreLoop.PlacedKeys, RestOf;
    var (id, folder) := Target(spec.storage).value;
    var route := RouteOf(s.restoreDir, folder, spec.backupId);
    PassShape(s.host, s.restoreDir, ns, spec, turn);
    RestoreLoop.PassKinds(s.host.pods[PodId(ns, spec.podName)], s.host.buckets[id], Listed(spec, turn.order), route,
                          turn.faults);
    forall key | Copies(s, spec, turn.order, key)
      ensures IsFile(RestoredTree(s, ns, spec, turn), LandingOf(s, spec, key))
      ensures AtOrAbove(PathOf(s.restoreDir), LandingOf(s, spec, key))
              <==> StaysIn(PathOf(s.restoreDir), RestOf(spec, key))
    {
      KeyContained(s, spec, key);
      assert RestoreLoop.HasRoom(RestoredTree(s, ns, spec, turn), s.host.buckets[id], key, route);
    }
  }

  /** Where no recorded folder of the bucket has a ".." in it, no key leads out, whatever the provider, the folder and
      the id of the Restore object. */
  lemma PlainFoldersContain(s: System, ns: string, spec: RestoreSpec, turn: RestoreTurn)
    requires Inv(s) && Reaches(s.host, ns, spec)
    requires forall t | t in s.records && s.records[t].target.Some?
                        && s.records[t].target.value.0 == Target(spec.storage).value.0 ::
               ".." !in Split(s.records[t].target.value.1, '/')
    ensures AllStayIn(s, spec, turn.order)
  {
    hide Inv, PathOf, StaysIn, Listed, Key, Split, Rest;
    var (id, folder) := Target(spec.storage).value;
    forall key | Copies(s, spec, turn.order, key) ensures StaysIn(PathOf(s.restoreDir), RestOf(spec, key)) {
      ListedHasPrefix(spec, turn.order, folder, spec.backupId, key);
      var t', n', folder' := OwnerOf(s, id, key);
      RestWithin(folder, spec.backupId, key, folder', t', n');
      PlainStaysIn(PathOf(s.restoreDir), RestOf(spec, key));
    }
  }

  lemma RestWithin(folder: string, id: string, key: string, folder': string, t': string, n': string)
    requires RemoteFolder(folder, id) <= key && key == Key(folder', t', n') && Good(t') && Good(n')
    ensures forall c | c in Split(RestorePaths.Rest(folder, id, key), '/') :: c in Split(folder', '/') + [t', n']
  {
    hide Split, Key, RestorePaths.Rest;
    RestCompletesKey(folder, id, key);
    SplitConcat(folder, RestorePaths.Rest(folder, id, key), '/');
    KeySplits(folder', t', n');
    forall c | c in Split(RestorePaths.Rest(folder, id, key), '/') ensures c in Split(folder', '/') + [t', n'] {
      assert c in Split(folder, '/') + Split(RestorePaths.Rest(folder, id, key), '/');
    }
  }

  /** On S3 a pass whose backup id is a proper name changes nothing but files directly in RestoreDir/id. */
  lemma S3RestoresInto(s: System, ns: string, spec: RestoreSpec, turn: RestoreTurn, q: seq<string>)
    requires Inv(s) && Reaches(s.host, ns, spec) && spec.storage.provider == "s3" && Good(spec.backupId)
    requires forall n | Good(n) :: q != PathOf(s.restoreDir) + [spec.backupId, n]
    ensures Spared(s.host.pods[PodId(ns, spec.podName)], RestoredTree(s, ns, spec, turn), q)
  {
    hide Inv, RestoredTree, PathOf, Good, Copies, LandingOf, Listed, RestoreLoop.Hits, RouteOf;
    var (id, folder) := Target(spec.storage).value;
    forall k | k in Listed(spec, turn.order)
      ensures !RestoreLoop.Hits(s.host.buckets[id], RouteOf(s.restoreDir, folder, spec.backupId), k, q)
    {
      HitIsCopied(s, spec, turn.order, k, q);
      if Copies(s, spec, turn.order, k) {
        var n := S3LandsIn(s, spec, turn.order, k);
      }
    }
    NoHitSpares(s, ns, spec, turn, q);
  }

  lemma S3LandsIn(s: System, spec: RestoreSpec, order: seq<string>, k: string) returns (n: string)
    requires Inv(s) && spec.storage.provider == "s3" && Good(spec.backupId)
    requires Target(spec.storage).value.0 in s.host.buckets && Copies(s, spec, order, k)
    ensures Good(n) && LandingOf(s, spec, k) == PathOf(s.restoreDir) + [spec.backupId, n]
  {
    hide Inv, PathOf, RouteOf, S3Listing, DirectlyBelow, Good, Key, IsRestoreDir;
    var (id, folder) := Target(spec.storage).value;
    ListedIsStored(order, RemoteFolder(folder, spec.backupId));
    n := NameOfKey(s, id, folder, spec.backupId, k);
    CouplingRuns.InvDir(s);
    OwnFile(s.restoreDir, folder, spec.backupId, n);
  }

  /** A key directly below a folder and an id ends in a proper name. */
  lemma NameOfKey(s: System, id: BucketId, folder: string, backupId: string, k: string) returns (n: string)
    requires Inv(s) && id in s.host.buckets && k in s.host.buckets[id] && Good(backupId)
    requires DirectlyBelow(k, RemoteFolder(folder, backupId))
    ensures Good(n) && k == Key(folder, backupId, n)
  {
    hide Inv;
    n := k[|RemoteFolder(folder, backupId)| + 1..];
    assert k == Key(folder, backupId, n);
    var t', n', folder' := OwnerOf(s, id, k);
    KeyInjective(folder, backupId, n, folder', t', n');
  }

  // ---- A key that leads out ------------------------------------------------------------------------------------

  lemma ResolveUp(a: string, init: seq<string>, c: string)
    requires Resolve(a) == init + [c]
    ensures Resolve(a + "/" + "..") == init
  {
    hide Resolve;
    ResolveConcat(a, "..");
    SplitPlain("..", '/');
    assert (init + [c])[..|init|] == init;
    assert Walk(init + [c], [".."]) == Push(init + [c], "..");
  }

  /** The input on which the files are not below RestoreDir: a folder that goes up, and an id that does. Both providers
      list such a backup's keys. */
  lemma Escapes(order: seq<string>, restoreDir: string, folder: string, t: string, n: string)
    requires IsRestoreDir(restoreDir) && Good(t) && Good(n)
    requires Key(folder + "/" + UP_TO_ETC, t, n) in order
    ensures
      var key, id := Key(folder + "/" + UP_TO_ETC, t, n), UP_TO_ETC + "/" + t;
      && key in GcsListing(order, RemoteFolder(folder, id)) && key in S3Contents(order, RemoteFolder(folder, id))
      && RestoreLoop.Landing(RouteOf(restoreDir, folder, id), key) == ["etc", t, n]
      && !AtOrAbove(PathOf(restoreDir), ["etc", t, n])
  {
    hide Resolve, Good, GcsListing, S3Contents, IsRestoreDir, PathOf, UP_TO_ETC, DirectlyBelow;
    var key, id := Key(folder + "/" + UP_TO_ETC, t, n), UP_TO_ETC + "/" + t;
    var remote := RemoteFolder(folder, id);
    assert key == remote + ("/" + n);
    assert key[..|remote|] == remote && key[|remote|..] == "/" + n;
    KeyDirectly(remote, n);
    GcsMembers(order, remote);
    S3Members(order, remote);
    DirResolves(restoreDir);
    UpFour(restoreDir);
    var up := restoreDir + "/" + UP_TO_ETC;
    ResolveChild(up, t);
    ResolveChild(up + "/" + t, n);
    assert RestoreLoop.FileFor(RouteOf(restoreDir, folder, id), key) == up + "/" + t + "/" + n;
    assert ["etc"] + [t] + [n] == ["etc", t, n];
  }

  const UP_TO_ETC := "../../../../etc"

  lemma KeyDirectly(remote: string, n: string)
    requires Good(n)
    ensures DirectlyBelow(remote + ("/" + n), remote)
  {
    assert (remote + ("/" + n))[..|remote| + 1] == remote + "/";
    assert (remote + ("/" + n))[|remote| + 1..] == n;
  }

  lemma UpFour(restoreDir: string)
    requires IsRestoreDir(restoreDir)
    ensures Resolve(restoreDir + "/" + UP_TO_ETC) == ["etc"]
  {
    hide Resolve, IsRestoreDir;
    DirResolves(restoreDir);
    var p, e := PathOf(restoreDir), "..";
    var a, b, c, d := p[0], p[1], p[2], p[3];
    assert p == [a, b, c] + [d];
    ResolveUp(restoreDir, [a, b, c], d);
    ResolveUp(restoreDir + "/" + e, [a, b], c);
    ResolveUp(restoreDir + "/" + e + "/" + e, [a], b);
    ResolveUp(restoreDir + "/" + e + "/" + e + "/" + e, [], a);
    ResolveChild(restoreDir + "/" + e + "/" + e + "/" + e + "/" + e, "etc");
    assert UP_TO_ETC == e + "/" + e + "/" + e + "/" + e + "/" + "etc";
    assert restoreDir + "/" + e + "/" + e + "/" + e + "/" + e + "/" + "etc" == restoreDir + "/" + UP_TO_ETC;
  }
}
