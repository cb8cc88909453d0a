/** A run that shows the S3 page limit: a successful backup of more files than a page holds, restored without any
    fault, does not come back whole. */
module PageOverflow {
  import opened Basics
  import opened Paths
  import opened FileTree
  import Copy
  import opened TreeCopy
  import opened Storage
  import opened Remote
  import opened Backup
  import opened Restore
  import opened RestorePaths
  import RestoreLoop
  import RestoreRetry
  import opened Coupling
  import CouplingBackup
  import BackupSuccess
  import CouplingRuns
  import opened RoundTrip

  // ---- The files ---------------------------------------------------------------------------------------

  /** "0", "1", ..., "9", "10", "11", ... */
  function FileName(i: nat): string {
    if i < 10 then [DIGITS[i]] else FileName(i / 10) + [DIGITS[i % 10]]
  }

  const DIGITS := "0123456789"

  /** The number that a name spells. */
  function NumberOf(n: string): int {
    if n == "" then 0 else 10 * NumberOf(n[..|n| - 1]) + (n[|n| - 1] as int - '0' as int)
  }

  lemma {:induction false} NamesAreGood(i: nat)
    ensures NumberOf(FileName(i)) == i && FileName(i) != "" && forall c | c in FileName(i) :: '0' <= c <= '9'
    ensures Good(FileName(i)) && ':' !in FileName(i)
    decreases i
  {
    assert forall j | 0 <= j < 10 :: DIGITS[j] as int == '0' as int + j;
    if i >= 10 {
      NamesAreGood(i / 10);
      assert FileName(i)[..|FileName(i)| - 1] == FileName(i / 10);
    } else {
      assert NumberOf("") == 0 && FileName(i)[..0] == "";
    }
    assert FileName(i)[0] in FileName(i);
  }

  /** Short names for many files. */
  lemma {:induction false} NamesAreShort(i: nat, digits: nat)
    requires digits > 0 && i < PowerOfTen(digits)
    ensures |FileName(i)| <= digits
    decreases digits
  {
    if i >= 10 {
      assert PowerOfTen(0) == 1 && PowerOfTen(1) == 10;
      NamesAreShort(i / 10, digits - 1);
    }
  }

  function PowerOfTen(k: nat): nat {
    if k == 0 then 1 else 10 * PowerOfTen(k - 1)
  }

  const ONE_BYTE: Bytes := [1]

  function Files(count: nat): map<string, Bytes> {
    if count == 0 then map[] else Files(count - 1)[FileName(count - 1) := ONE_BYTE]
  }

  function Names(count: nat): seq<string> {
    seq(count, i requires 0 <= i < count => FileName(i))
  }

  lemma {:induction false} FilesHold(count: nat)
    ensures |Files(count).Keys| == count
    ensures forall n :: n in Files(count) <==> n in Names(count)
    ensures forall n | n in Files(count) :: Good(n) && Files(count)[n] == ONE_BYTE
    decreases count
  {
    hide FileName, ONE_BYTE, NumberOf, Good, Names;
    NamesGrow(count);
    if count > 0 {
      FilesHold(count - 1);
      NamesAreGood(count - 1);
      NameIsNew(count - 1);
      NamesGrow(count - 1);
      assert Files(count).Keys == Files(count - 1).Keys + {FileName(count - 1)};
    }
  }

  lemma NameIsNew(count: nat)
    ensures FileName(count) !in Names(count)
  {
    hide FileName, NumberOf;
    NamesAreGood(count);
    if FileName(count) in Names(count) {
      var j :| 0 <= j < count && Names(count)[j] == FileName(count);
      NamesAreGood(j);
    }
  }

  lemma NamesGrow(count: nat)
    ensures Names(0) == [] && Names(count + 1) == Names(count) + [FileName(count)]
  {
    hide FileName;
  }

  lemma FilesAreShort(count: nat, digits: nat, n: string)
    requires digits > 0 && count <= PowerOfTen(digits) && n in Files(count)
    ensures |n| <= digits
  {
    hide FileName, PowerOfTen, Files;
    FilesHold(count);
    var i :| 0 <= i < count && Names(count)[i] == n;
    NamesAreShort(i, digits);
  }

  lemma NamesDistinct(count: nat)
    ensures Distinct(Names(count))
  {
    forall i, j | 0 <= i < j < count ensures Names(count)[i] != Names(count)[j] {
      NamesAreGood(i);
      NamesAreGood(j);
    }
  }

  // ---- The backup ----------------------------------------------------------------------------------------

  /** A start with nothing backed up, and a Backup object for an empty pod and an S3 bucket. */
  ghost predicate Ready(s: System, t: string, ns: string, spec: BackupSpec, id: BucketId, folder: string) {
    && CouplingRuns.Initial(s) && IsId(t)
    && Copy.ValidName(ns) && Copy.ValidName(spec.podName)
    && PodId(ns, spec.podName) in s.host.pods && s.host.pods[PodId(ns, spec.podName)] == map[]
    && BackupCommand(spec, t).Some?
    && spec.storage.provider == "s3" && Target(spec.storage) == Some((id, folder))
    && id in s.host.buckets
  }

  function TarItems(count: nat): seq<Item> {
    [Item([], true, [])] + seq(count, i requires 0 <= i < count => Item([FileName(i)], false, ONE_BYTE))
  }

  function TheBackup(t: string, count: nat): BackupTurn {
    BackupTurn(t, Files(count), true, true, TarRun(TarItems(count), true, true), Names(count), [])
  }

  lemma TarSize(count: nat)
    ensures |TarItems(count)| == count + 1 && TarItems(count)[0] == Item([], true, [])
    ensures forall i | 0 <= i < count :: TarItems(count)[i + 1] == Item([FileName(i)], false, ONE_BYTE)
    ensures |Names(count)| == count && forall i | 0 <= i < count :: Names(count)[i] == FileName(i)
  {
  }

  lemma TarIsListing(count: nat)
    ensures IsListing(TarItems(count))
  {
    hide FileName, NumberOf, Good, TarItems, Names;
    var items := TarItems(count);
    TarSize(count);
    NamesDistinct(count);
    forall i | 0 <= i < |items| ensures AllGood(items[i].rel) && (i > 0 ==> items[i].rel == [Names(count)[i - 1]]) {
      if i > 0 {
        assert items[(i - 1) + 1].rel == [FileName(i - 1)];
        NamesAreGood(i - 1);
      }
    }
    forall i, j | 0 <= i < j < |items| ensures items[i].rel != items[j].rel {
      if i > 0 {
        assert Names(count)[i - 1] != Names(count)[j - 1];
      }
    }
  }

  /** What the command leaves in an empty pod is what tar lists. */
  lemma EmptyPodAfter(count: nat, d: seq<string>, tree: Tree)
    requires WriteDir(map[], d, Files(count)) == Some(tree)
    ensures Faithful(tree, d, TarItems(count))
  {
    hide WriteDir, IsListing, Files, Names, TarItems, FileName;
    TarIsListing(count);
    var items := TarItems(count);
    BackupSuccess.NewDirIsFlat(map[], d, Files(count), tree);
    forall i | 0 <= i < |items|
      ensures d + items[i].rel in tree
      ensures tree[d + items[i].rel] == if items[i].isDir then Dir else File(items[i].content)
    {
      ItemStands(count, d, tree, i);
    }
    forall p | p in tree && AtOrAbove(d, p) ensures exists i :: 0 <= i < |items| && p == d + items[i].rel {
      var i := NodeListed(count, d, tree, p);
    }
  }

  lemma ItemStands(count: nat, d: seq<string>, tree: Tree, i: nat)
    requires WriteDir(map[], d, Files(count)) == Some(tree) && i < |TarItems(count)|
    ensures
      var item := TarItems(count)[i];
      d + item.rel in tree && tree[d + item.rel] == if item.isDir then Dir else File(item.content)
  {
    hide WriteDir, Files, Names, TarItems, FileName, ONE_BYTE;
    TarSize(count);
    FilesHold(count);
    CouplingBackup.WriteDirEffect(map[], d, Files(count), tree);
    if i == 0 {
      assert d + [] == d;
    } else {
      assert Names(count)[i - 1] in Names(count);
      assert TarItems(count)[(i - 1) + 1].rel == [FileName(i - 1)];
    }
  }

  lemma NodeListed(count: nat, d: seq<string>, tree: Tree, p: seq<string>) returns (i: nat)
    requires WriteDir(map[], d, Files(count)) == Some(tree) && p in tree && AtOrAbove(d, p)
    ensures i < |TarItems(count)| && p == d + TarItems(count)[i].rel
  {
    hide WriteDir, Files, Names, TarItems, FileName, ONE_BYTE;
    TarSize(count);
    FilesHold(count);
    BackupSuccess.NewDirIsFlat(map[], d, Files(count), tree);
    if p == d {
      i := 0;
      assert d + [] == d;
    } else {
      assert Above(d, p);
      var n := p[|d|];
      assert p == d + [n];
      BackupSuccess.NewDirHolds(map[], d, Files(count), tree, n);
      var j :| 0 <= j < count && Names(count)[j] == n;
      i := j + 1;
    }
  }

  lemma {:induction false} EmptyMkdir(d: seq<string>)
    ensures MkdirAll(map[], d).Some? && forall p | p in MkdirAll(map[], d).value :: |p| <= |d|
    decreases |d|
  {
    if d != [] {
      EmptyMkdir(d[..|d| - 1]);
      MkdirEffect(map[], d[..|d| - 1], MkdirAll(map[], d[..|d| - 1]).value);
    }
  }

  lemma EmptyPodTakes(files: map<string, Bytes>, d: seq<string>)
    ensures WriteDir(map[], d, files).Some?
  {
    hide MkdirAll, FilesAt;
    EmptyMkdir(d);
  }

  lemma BackupIsUnhindered(s: System, t: string, ns: string, spec: BackupSpec, id: BucketId, folder: string, count: nat)
    requires Ready(s, t, ns, spec, id, folder)
    ensures Inv(s) && BackupSuccess.Unhindered(s, ns, spec, TheBackup(t, count))
  {
    hide WriteDir, BackupCommand, Faithful, BackupPath, IsId, Files, Names, TarItems, Inv, Target;
    CouplingRuns.InitialInv(s);
    FilesHold(count);
    EmptyPodTakes(Files(count), BackupPath(t));
    EmptyPodAfter(count, BackupPath(t), WriteDir(map[], BackupPath(t), Files(count)).value);
  }

  lemma BackupIsAllowed(s: System, t: string, ns: string, spec: BackupSpec, id: BucketId, folder: string, count: nat)
    requires Ready(s, t, ns, spec, id, folder)
    ensures BackupAllowed(s, ns, spec, TheBackup(t, count))
    ensures BackupPass(s.host, ns, spec, TheBackup(t, count)).1 == Fine
  {
    hide BackupSuccess.Unhindered, Ready, LocalPath, BackupPass, Inv, Lists, BackupAllowed, LocalFolder, Uploaded,
         Files, Names, TarItems, Target;
    var turn := TheBackup(t, count);
    BackupIsUnhindered(s, t, ns, spec, id, folder, count);
    BackupSuccess.CopiesFlat(s, ns, spec, turn);
    FilesHold(count);
    ListsNames(BackupPass(s.host, ns, spec, turn).0.local, LocalPath(s.host) + [t], count);
    BackupSuccess.UnhinderedIsAllowed(s, ns, spec, turn);
    BackupSuccess.BackupSucceeds(s, ns, spec, turn);
  }

  lemma ListsNames(local: Tree, d: seq<string>, count: nat)
    requires forall n :: d + [n] in local <==> n in Names(count)
    ensures Lists(local, d, Names(count))
  {
    hide Names;
    forall i | 0 <= i < |Names(count)| ensures d + [Names(count)[i]] in local {
      assert Names(count)[i] in Names(count);
    }
    forall p | p in local && |p| == |d| + 1 && Above(d, p) ensures p[|d|] in Names(count) {
      assert p == d + [p[|d|]];
    }
  }

  // ---- The restore -----------------------------------------------------------------------------------------

  /** A Restore object for that backup and another, empty pod. */
  predicate RestoresElsewhere(s: System, t: string, ns: string, spec: BackupSpec, restore: RestoreSpec) {
    && restore.backupId == t && restore.storage == spec.storage
    && Copy.ValidName(restore.podName) && restore.podName != spec.podName
    && PodId(ns, restore.podName) in s.host.pods && s.host.pods[PodId(ns, restore.podName)] == map[]
  }

  function TheKeys(folder: string, t: string, count: nat): seq<string> {
    seq(count, i requires 0 <= i < count => Key(folder, t, FileName(i)))
  }

  function TheRestore(folder: string, t: string, count: nat): RestoreTurn {
    RestoreTurn(true, TheKeys(folder, t, count), true, [], true, true)
  }

  function Backed(s: System, t: string, ns: string, spec: BackupSpec, count: nat): System {
    Next(s, DoBackup(ns, spec, TheBackup(t, count)))
  }

  lemma OtherPodsStay(h: Host, ns: string, spec: BackupSpec, turn: BackupTurn, pod: PodId)
    requires pod in h.pods && pod != PodId(ns, spec.podName)
    ensures
      var h' := BackupPass(h, ns, spec, turn).0;
      pod in h'.pods && h'.pods[pod] == h.pods[pod] && h'.buckets.Keys == h.buckets.Keys
  {
    hide BackupCommand, WriteDir, Resolve, MkdirAll, Uploaded, Copy.ExtractFileSpec, LocalFolder, SourceSpec, Clean,
         ArchiveOf;
    OutLeavesPods(h, ns, spec, turn);
  }

  lemma OutLeavesPods(h: Host, ns: string, spec: BackupSpec, turn: BackupTurn)
    ensures forall h1: Host, src, dest :: CopiedFrom(h1, src, dest, turn.tar).0
                                          == h1.(local := CopiedFrom(h1, src, dest, turn.tar).0.local)
  {
    hide Copy.ExtractFileSpec, Clean, ArchiveOf, Resolve;
  }

  /** After the backup the bucket holds exactly its files' keys. */
  lemma BackedUp(s: System, t: string, ns: string, spec: BackupSpec, id: BucketId, folder: string, count: nat)
    requires Ready(s, t, ns, spec, id, folder)
    ensures
      var s' := Backed(s, t, ns, spec, count);
      && Inv(s') && CouplingRuns.AllAllowed(s, [DoBackup(ns, spec, TheBackup(t, count))])
      && s'.restoreDir == RESTORE_DIR && s'.host == BackupPass(s.host, ns, spec, TheBackup(t, count)).0
      && s'.records == map[t := Record(PodId(ns, spec.podName), Some((id, folder)), Files(count), true)]
  {
    hide Inv, BackupAllowed, BackupPass, Left, Files, TheBackup, BackupCommand;
    CouplingRuns.InitialInv(s);
    BackupIsAllowed(s, t, ns, spec, id, folder, count);
    CouplingBackup.BackupKeepsInv(s, ns, spec, TheBackup(t, count));
    SuccessLeavesWritten(s.host, ns, spec, TheBackup(t, count));
    TurnFields(t, count);
  }

  lemma TurnFields(t: string, count: nat)
    ensures TheBackup(t, count).time == t && TheBackup(t, count).written == Files(count)
  {
  }

  lemma KeysEnumerate(s': System, t: string, id: BucketId, folder: string, count: nat, pod: PodId)
    requires Inv(s') && id in s'.host.buckets
    requires s'.records == map[t := Record(pod, Some((id, folder)), Files(count), true)]
    ensures Enumerates(TheKeys(folder, t, count), s'.host.buckets[id].Keys)
  {
    hide Inv, Files, FileName, Key, ONE_BYTE;
    var keys := TheKeys(folder, t, count);
    FilesHold(count);
    RecordId(s', t);
    forall i | 0 <= i < count ensures keys[i] in s'.host.buckets[id] && Good(FileName(i)) {
      assert Names(count)[i] in Names(count);
      CompleteKey(s', t, id, folder, FileName(i));
    }
    forall k | k in s'.host.buckets[id] ensures k in keys {
      var t', n, folder' := OwnerOf(s', id, k);
      var i :| 0 <= i < count && Names(count)[i] == n;
      assert keys[i] == k;
    }
    NamesDistinct(count);
    forall i, j | 0 <= i < j < count ensures keys[i] != keys[j] {
      assert Names(count)[i] != Names(count)[j];
      if keys[i] == keys[j] {
        KeyInjective(folder, t, FileName(i), folder, t, FileName(j));
      }
    }
  }

  lemma NotNested(records: Records, t: string, id: BucketId, folder: string)
    requires records.Keys == {t} && records[t].target == Some((id, folder))
    ensures Unnested(records, id, folder, t)
  {
    assert |RemoteFolder(folder, t)| > |folder|;
  }

  /** A restore of that backup without faults succeeds into an empty pod, whatever RestoreDir is. */
  lemma CleanRestore(s': System, t: string, ns: string, spec: BackupSpec, id: BucketId, folder: string, count: nat,
                     restore: RestoreSpec)
    requires Inv(s') && RestoresElsewhere(s', t, ns, spec, restore) && Copy.ValidName(ns) && id in s'.host.buckets
    requires restore.storage.provider == "s3" && Target(restore.storage) == Some((id, folder))
    requires s'.records == map[t := Record(PodId(ns, spec.podName), Some((id, folder)), Files(count), true)]
    ensures
      var turn := TheRestore(folder, t, count);
      var r := RestorePass(s'.host, s'.restoreDir, ns, restore, turn);
      RestoresOwn(s', ns, restore, turn, t, id, folder) && r.status == Fine && r.ran.Some?
  {
    hide Inv, RestorePass, Place, Files, TheKeys, Enumerates, PathOf, RestoreRetry.Listed, Key, ListsOnlyOwn, IsId;
    var turn := TheRestore(folder, t, count);
    KeysEnumerate(s', t, id, folder, count, PodId(ns, spec.podName));
    S3ListsOnlyOwn(s', ns, restore, turn, t, id, folder);
    RestoreSucceeds(s', ns, restore, turn, t, id, folder);
    OkRan(s'.host, s'.restoreDir, ns, restore, turn);
  }

  /** For every start and every number of files beyond a page: the backup is allowed and succeeds, the restore that
      follows meets no fault and succeeds too, and yet a file of the backup is not restored. The names are numerals:
      1001 files need no more than four characters. */
  lemma FilesFallOffThePage(s: System, t: string, ns: string, spec: BackupSpec, id: BucketId, folder: string,
                            count: nat, restore: RestoreSpec) returns (n: string)
    requires Ready(s, t, ns, spec, id, folder) && RestoresElsewhere(s, t, ns, spec, restore) && count > PAGE_SIZE
    ensures CouplingRuns.AllAllowed(s, [DoBackup(ns, spec, TheBackup(t, count))])
    ensures
      var s', turn := Backed(s, t, ns, spec, count), TheRestore(folder, t, count);
      && t in s'.records && s'.records[t].complete && RestoreAllowed(s', restore, turn)
      && RestorePass(s'.host, s'.restoreDir, ns, restore, turn).status == Fine
      && n in s'.records[t].files && |s'.records[t].files[n]| > 0
      && !IsFile(RestoredTree(s', ns, restore, turn), Place(s', t, n))
    ensures forall digits: nat | digits > 0 && count <= PowerOfTen(digits) :: |n| <= digits
  {
    hide Inv, RestorePass, RestoredTree, Place, FitsOnePage, BackupPass, Files, TheKeys, Enumerates, Unnested,
         BackupCommand, PowerOfTen, CouplingRuns.Initial, CouplingRuns.AllAllowed, Left, PathOf, RestoreRetry.Listed,
         Key, ListsOnlyOwn;
    var s', turn, pod := Backed(s, t, ns, spec, count), TheRestore(folder, t, count), PodId(ns, restore.podName);
    BackedUp(s, t, ns, spec, id, folder, count);
    OtherPodsStay(s.host, ns, spec, TheBackup(t, count), pod);
    FilesHold(count);
    NotNested(s'.records, t, id, folder);
    CleanRestore(s', t, ns, spec, id, folder, count, restore);
    WholeIffOnePage(s', ns, restore, turn, t, id, folder);
    n :| n in s'.records[t].files && !IsFile(RestoredTree(s', ns, restore, turn), Place(s', t, n));
    forall digits: nat | digits > 0 && count <= PowerOfTen(digits) ensures |n| <= digits {
      FilesAreShort(count, digits, n);
    }
  }

  lemma OkRan(h: Host, restoreDir: string, ns: string, spec: RestoreSpec, turn: RestoreTurn)
    requires RestorePass(h, restoreDir, ns, spec, turn).status == Fine && RestoreRetry.Reaches(h, ns, spec)
    ensures RestorePass(h, restoreDir, ns, spec, turn).ran.Some?
  {
    hide RestorePass, RestoreLoop.PlacedKeys;
    RestoreRetry.PassShape(h, restoreDir, ns, spec, turn);
  }

  /** There is such a start: two empty pods and an empty bucket. */
  lemma AStart() returns (s: System, t: string, ns: string, spec: BackupSpec, id: BucketId, folder: string,
                          restore: RestoreSpec)
    ensures Ready(s, t, ns, spec, id, folder) && RestoresElsewhere(s, t, ns, spec, restore)
  {
    hide Resolve;
    t, ns, id, folder := "20200101120000", "n", BucketId("s3", "b"), "f";
    var storage := StorageSpec("s3", Location("b", "f"), Location("", ""));
    spec := BackupSpec(None, storage, "p", "", "", "", "", "");
    restore := RestoreSpec("", "", t, storage, "q", "", "", "");
    var pods: map<PodId, Tree> := map[PodId("n", "p") := map[], PodId("n", "q") := map[]];
    s := System(Host("/tmp", pods, map[], map[id := map[]]), RESTORE_DIR, map[], map[]);
    assert |t| == 14;
  }
}
