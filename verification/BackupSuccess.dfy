/** A backup that nothing stops succeeds. */
module BackupSuccess {
  import opened Basics
  import opened Paths
  import opened FileTree
  import Copy
  import opened TreeCopy
  import opened Storage
  import opened Remote
  import opened Backup
  import opened RestorePaths
  import opened Coupling
  import opened CouplingBackup

  /** The copy of a flat directory of files is one. */
  lemma FlatCopy(local: Tree, local': Tree, d: seq<string>, tree: Tree, base: seq<string>, items: seq<Item>, n: string)
    requires Clear(local, d) && IsCopy(local, local', d, items) && Faithful(tree, base, items)
    requires forall p | p in tree && Above(base, p) :: |p| == |base| + 1 && tree[p].File?
    ensures d + [n] in local' ==> IsFile(local', d + [n])
  {
    var p := d + [n];
    assert Above(d, p);
    if p in local' {
      assert Expected(local', d, items, p);
      var i :| 0 <= i < |items| && AtOrAbove(p, d + items[i].rel) && (IsDir(local', p) || p == d + items[i].rel);
      var q := base + items[i].rel;
      assert |items[i].rel| >= 1 && Above(base, q);
      assert |items[i].rel| == 1;
      assert (d + items[i].rel)[..|p|] == d + items[i].rel;
    }
  }

  lemma {:induction false} UploadSucceeds(bucket: Bucket, local: Tree, folder: string, storageKey: string,
                                          names: seq<string>, i: nat)
    requires i <= |names| && forall j | i <= j < |names| :: IsFile(local, Resolve(folder + "/" + names[j]))
    ensures Uploaded(bucket, local, folder, storageKey, names, i, []).1
    decreases |names| - i
  {
    hide Resolve;
    if i < |names| {
      UploadSucceeds(bucket[storageKey + "/" + names[i] := local[Resolve(folder + "/" + names[i])].content], local,
                     folder, storageKey, names, i + 1);
    }
  }

  /** The files that a command writes into a new directory are all that is below it. */
  lemma NewDirIsFlat(t: Tree, d: seq<string>, files: map<string, Bytes>, t': Tree)
    requires WriteDir(t, d, files) == Some(t') && forall p | p in t :: !Above(d, p)
    ensures forall p | p in t' && Above(d, p) :: |p| == |d| + 1 && t'[p].File?
  {
    hide MkdirAll, FilesAt;
    MkdirEffect(t, d, MkdirAll(t, d).value);
    FilesAtKeys(d, files);
    forall p | p in t' && Above(d, p) ensures |p| == |d| + 1 && t'[p].File? {
      if p in FilesAt(d, files) {
        assert p == d + [p[|d|]];
      }
    }
  }

  /** Nothing stands in the way of the operator's folder for a new backup. */
  lemma FolderCanBeMade(h: Host, records: Records, t: string)
    requires IsId(t) && Rooted(h.tmp) && ':' !in h.tmp && t !in records && LocalOk(h.local, LocalPath(h), records)
    ensures MkdirAll(h.local, Resolve(LocalFolder(h, t))).Some?
  {
    hide Resolve, IsId, LocalPath, LocalFolder;
    LocalFolderResolves(h, t);
    var d := LocalPath(h) + [t];
    forall p | AtOrAbove(p, d) ensures !IsFile(h.local, p) {
      AboveInit(p, d);
      if p == d {
        assert Above(LocalPath(h), d);
      }
    }
    MkdirSucceeds(h.local, d);
  }

  /** Nothing faults up to the uploads: the command leaves its files in a new directory of the pod, and tar lists
      it. */
  ghost predicate Unhindered(s: System, ns: string, spec: BackupSpec, turn: BackupTurn) {
    var pod := PodId(ns, spec.podName);
    && IsId(turn.time) && turn.time !in s.records
    && (forall n | n in turn.written :: Good(n))
    && Copy.ValidName(ns) && Copy.ValidName(spec.podName)
    && turn.setupOk && turn.execOk && turn.tar.ok
    && BackupCommand(spec, turn.time).Some?
    && Target(spec.storage).Some? && Target(spec.storage).value.0 in s.host.buckets
    && pod in s.host.pods
    && WriteDir(s.host.pods[pod], BackupPath(turn.time), turn.written).Some?
    && (forall p | p in s.host.pods[pod] :: !Above(BackupPath(turn.time), p))
    && Faithful(WriteDir(s.host.pods[pod], BackupPath(turn.time), turn.written).value, BackupPath(turn.time),
                turn.tar.items)
  }

  /** The operator's copy then has exactly the files that the command wrote, and all that is left is to upload
      them. */
  lemma CopiesFlat(s: System, ns: string, spec: BackupSpec, turn: BackupTurn)
    requires Inv(s) && Unhindered(s, ns, spec, turn)
    ensures
      var (h, status) := BackupPass(s.host, ns, spec, turn);
      var (id, folder) := Target(spec.storage).value;
      && (forall n :: LocalPath(s.host) + [turn.time] + [n] in h.local <==> n in turn.written)
      && (forall n | n in turn.written :: IsFile(h.local, LocalPath(s.host) + [turn.time] + [n]))
      && status == if Uploaded(s.host.buckets[id], h.local, LocalFolder(s.host, turn.time), folder + "/" + turn.time,
                               turn.listing, 0, turn.faults).1 then Fine else Erred
  {
    hide FilesAgree, FilesKept, BucketsAgree, CompleteStored, LocalOk, RecordsOk, WriteDir, BackupCommand, Resolve,
         BackupPath, LocalPath, LocalFolder, IsId, Faithful, MkdirAll, FolderReady, CopiedFrom, Uploaded, Clear, IsCopy,
         SourceSpec, BackupPass;
    var t, pod, d := turn.time, PodId(ns, spec.podName), LocalPath(s.host) + [turn.time];
    BackupPathResolves(t);
    RunShape(s.host, ns, spec, turn);
    var h1 := BackupRun(s.host, ns, spec, turn).0;
    var tree := h1.pods[pod];
    FolderCanBeMade(s.host, s.records, t);
    var h2 := h1.(local := MkdirAll(s.host.local, Resolve(LocalFolder(s.host, t))).value);
    MadeFolderReady(s.host, h2, s.records, t);
    SameLocalPath(s.host, h2);
    SameFolder(s.host, h2, t);
    assert BackupRun(s.host, ns, spec, turn).1 == Fine;
    PassShips(s.host, h2, ns, spec, turn);
    FolderIsClear(h2, s.records, t);
    FaithfulListing(tree, BackupPath(t), turn.tar.items);
    CopyOut(h2, ns, spec.podName, t, turn.tar);
    assert CopiedFrom(h2, SourceSpec(ns, spec.podName, t), LocalFolder(h2, t), turn.tar).1 == Fine;
    var h3 := CopiedFrom(h2, SourceSpec(ns, spec.podName, t), LocalFolder(h2, t), turn.tar).0;
    NewDirIsFlat(s.host.pods[pod], BackupPath(t), turn.written, tree);
    forall n
      ensures d + [n] in h3.local <==> n in turn.written
      ensures n in turn.written ==> IsFile(h3.local, d + [n])
    {
      FlatCopy(h2.local, h3.local, d, tree, BackupPath(t), turn.tar.items, n);
      CopyHolds(h2.local, h3.local, d, tree, BackupPath(t), turn.tar.items, n);
      NewDirHolds(s.host.pods[pod], BackupPath(t), turn.written, tree, n);
    }
  }

  /** A backup that is not hindered, and whose uploads do not fault, reports success. */
  lemma BackupSucceeds(s: System, ns: string, spec: BackupSpec, turn: BackupTurn)
    requires Inv(s) && Unhindered(s, ns, spec, turn) && turn.faults == []
    requires Lists(BackupPass(s.host, ns, spec, turn).0.local, LocalPath(s.host) + [turn.time], turn.listing)
    ensures BackupPass(s.host, ns, spec, turn).1 == Fine
  {
    hide FilesAgree, FilesKept, BucketsAgree, CompleteStored, LocalOk, RecordsOk, Resolve, LocalPath, LocalFolder, IsId,
         BackupPass, Uploaded, WriteDir, Faithful;
    CopiesFlat(s, ns, spec, turn);
    var local := BackupPass(s.host, ns, spec, turn).0.local;
    LocalFolderResolves(s.host, turn.time);
    forall j | 0 <= j < |turn.listing|
      ensures IsFile(local, Resolve(LocalFolder(s.host, turn.time) + "/" + turn.listing[j]))
    {
      var n := turn.listing[j];
      assert LocalPath(s.host) + [turn.time] + [n] in local;
      ResolveChild(LocalFolder(s.host, turn.time), n);
    }
    var (id, folder) := Target(spec.storage).value;
    UploadSucceeds(s.host.buckets[id], local, LocalFolder(s.host, turn.time), folder + "/" + turn.time, turn.listing,
                   0);
  }

  lemma UnhinderedIsAllowed(s: System, ns: string, spec: BackupSpec, turn: BackupTurn)
    requires Inv(s) && Unhindered(s, ns, spec, turn)
    requires Lists(BackupPass(s.host, ns, spec, turn).0.local, LocalPath(s.host) + [turn.time], turn.listing)
    ensures BackupAllowed(s, ns, spec, turn)
  {
    hide Inv, BackupPass, Lists, LocalPath, WriteDir, BackupCommand, Resolve, BackupPath, Faithful, IsId;
    BackupPathResolves(turn.time);
  }

  lemma NewDirHolds(t: Tree, d: seq<string>, files: map<string, Bytes>, t': Tree, n: string)
    requires WriteDir(t, d, files) == Some(t') && forall p | p in t :: !Above(d, p)
    ensures IsFile(t', d + [n]) ==> n in files
    ensures n in files ==> d + [n] in t'
  {
    hide WriteDir;
    WriteDirEffect(t, d, files, t');
    assert Above(d, d + [n]);
  }

  lemma PassShips(h: Host, h2: Host, ns: string, spec: BackupSpec, turn: BackupTurn)
    requires turn.setupOk && BackupRun(h, ns, spec, turn).1 == Fine && Target(spec.storage).Some?
    requires
      var h1 := BackupRun(h, ns, spec, turn).0;
      && MkdirAll(h1.local, Resolve(LocalFolder(h, turn.time))).Some?
      && h2 == h1.(local := MkdirAll(h1.local, Resolve(LocalFolder(h, turn.time))).value)
    ensures BackupPass(h, ns, spec, turn) == Shipped(h2, ns, spec, turn, Target(spec.storage).value)
  {
    hide BackupRun, MkdirAll, Resolve, LocalFolder, Shipped;
  }

  lemma SameFolder(h: Host, h': Host, t: string)
    requires h.tmp == h'.tmp
    ensures LocalFolder(h, t) == LocalFolder(h', t)
  {
  }

  lemma FolderIsClear(h: Host, records: Records, t: string)
    requires FolderReady(h, records, t)
    ensures Clear(h.local, LocalPath(h) + [t])
  {
    hide Clear, LocalPath;
  }

  lemma FaithfulListing(t: Tree, base: seq<string>, items: seq<Item>)
    requires Faithful(t, base, items)
    ensures IsListing(items)
  {
    hide IsListing;
  }
}
