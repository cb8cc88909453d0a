/** When a backup pass reports success, for every host, every spec and everything that may surround it. */
module BackupOutcome {
  import opened Basics
  import opened Paths
  import opened FileTree
  import Copy
  import opened TreeCopy
  import opened Storage
  import opened Remote
  import opened Backup
  import opened RestorePaths
  import opened Coupling
  import opened CouplingBackup
  import BackupSuccess

  /** The backup command was given, found its pod, could write its directory, and succeeded. */
  predicate CommandSucceeds(h: Host, ns: string, spec: BackupSpec, turn: BackupTurn) {
    && spec.databases != Some([])
    && PodId(ns, spec.podName) in h.pods
    && WriteDir(h.pods[PodId(ns, spec.podName)], Resolve(BACKUP_DIR + "/" + turn.time), turn.written).Some?
    && turn.execOk
  }

  lemma RunSucceeds(h: Host, ns: string, spec: BackupSpec, turn: BackupTurn)
    ensures
      var (h', ran) := BackupRun(h, ns, spec, turn);
      && (ran == Fine <==> CommandSucceeds(h, ns, spec, turn))
      && h' == h.(pods := h'.pods)
  {
    hide WriteDir, Resolve, WithFlag;
  }

  /** If the command does not succeed, whatever else holds, neither does the pass: nothing is copied and nothing
      uploaded. */
  lemma FailedCommand(h: Host, ns: string, spec: BackupSpec, turn: BackupTurn)
    requires !turn.setupOk || !CommandSucceeds(h, ns, spec, turn)
    ensures
      var (h', status) := BackupPass(h, ns, spec, turn);
      status != Fine && h'.local == h.local && h'.buckets == h.buckets
  {
    hide BackupRun, CommandSucceeds, Shipped, MkdirAll, Resolve;
    RunSucceeds(h, ns, spec, turn);
  }

  /** A backup that is not stored anywhere succeeds exactly if its command does and the local folder can be made. */
  lemma UnstoredBackup(h: Host, ns: string, spec: BackupSpec, turn: BackupTurn)
    requires spec.storage.provider != "s3" && spec.storage.provider != "gcs"
    ensures
      var (h', status) := BackupPass(h, ns, spec, turn);
      && (status == Fine <==> turn.setupOk && CommandSucceeds(h, ns, spec, turn)
                              && MkdirAll(h.local, Resolve(LocalFolder(h, turn.time))).Some?)
      && h'.buckets == h.buckets
  {
    hide BackupRun, CommandSucceeds, MkdirAll, Resolve, LocalFolder;
    RunSucceeds(h, ns, spec, turn);
  }

  lemma {:induction false} UploadedExactly(bucket: Bucket, local: Tree, folder: string, storageKey: string,
                                           names: seq<string>, i: nat, faults: seq<Fault>)
    requires i <= |names|
    ensures Uploaded(bucket, local, folder, storageKey, names, i, faults).1
            <==> forall j | i <= j < |names| ::
                   IsFile(local, Resolve(folder + "/" + names[j])) && FaultAt(faults, j).NoFault?
    decreases |names| - i
  {
    hide Resolve, FaultAt;
    if i < |names| && IsFile(local, Resolve(folder + "/" + names[i])) {
      UploadedExactly(bucket[storageKey + "/" + names[i] := local[Resolve(folder + "/" + names[i])].content], local,
                      folder, storageKey, names, i + 1, faults);
    }
  }

  /** Everything that is found in the operator's copy of the backup is a file, and is sent without a fault. */
  ghost predicate SendsAll(h: Host, local: Tree, turn: BackupTurn) {
    forall j | 0 <= j < |turn.listing| ::
      IsFile(local, LocalPath(h) + [turn.time] + [turn.listing[j]]) && FaultAt(turn.faults, j).NoFault?
  }

  /** In every state that satisfies the coupling invariant, a backup to s3 or gcs reports success exactly if its clients
      could be made, its command succeeded, its bucket is there, tar succeeded, and all files were sent. */
  lemma StoredBackup(s: System, ns: string, spec: BackupSpec, turn: BackupTurn)
    requires Inv(s) && BackupAllowed(s, ns, spec, turn) && Target(spec.storage).Some?
    ensures
      var (h', status) := BackupPass(s.host, ns, spec, turn);
      status == Fine <==>
        && turn.setupOk && CommandSucceeds(s.host, ns, spec, turn)
        && Target(spec.storage).value.0 in s.host.buckets && turn.tar.ok
        && SendsAll(s.host, h'.local, turn)
  {
    hide FilesAgree, FilesKept, BucketsAgree, CompleteStored, LocalOk, RecordsOk, WriteDir, Resolve, BackupPath,
         LocalPath, LocalFolder, IsId, Faithful, MkdirAll, FolderReady, CopiedFrom, Uploaded, Clear, IsCopy, SourceSpec,
         BackupPass, Lists, SendsAll, BackupRun, CommandSucceeds;
    var t := turn.time;
    RunSucceeds(s.host, ns, spec, turn);
    if turn.setupOk && CommandSucceeds(s.host, ns, spec, turn) {
      var h1 := BackupRun(s.host, ns, spec, turn).0;
      RunShape(s.host, ns, spec, turn);
      BackupSuccess.FolderCanBeMade(s.host, s.records, t);
      var h2 := h1.(local := MkdirAll(s.host.local, Resolve(LocalFolder(s.host, t))).value);
      MadeFolderReady(s.host, h2, s.records, t);
      SameLocalPath(s.host, h2);
      BackupSuccess.SameFolder(s.host, h2, t);
      BackupSuccess.PassShips(s.host, h2, ns, spec, turn);
      BackupSuccess.FolderIsClear(h2, s.records, t);
      BackupSuccess.FaithfulListing(h1.pods[PodId(ns, spec.podName)], BackupPath(t), turn.tar.items);
      ShippedSucceeds(s, h2, ns, spec, turn, Target(spec.storage).value);
    } else {
      FailedCommand(s.host, ns, spec, turn);
    }
  }

  /** What is left once the folder is there. */
  lemma ShippedSucceeds(s: System, h: Host, ns: string, spec: BackupSpec, turn: BackupTurn, target: (BucketId, string))
    requires IsId(turn.time) && Copy.ValidName(ns) && Copy.ValidName(spec.podName)
    requires h.tmp == s.host.tmp && Rooted(h.tmp) && ':' !in h.tmp
    requires PodId(ns, spec.podName) in h.pods
    requires IsListing(turn.tar.items) && Clear(h.local, LocalPath(h) + [turn.time])
    requires Lists(Shipped(h, ns, spec, turn, target).0.local, LocalPath(h) + [turn.time], turn.listing)
    ensures
      var (h', status) := Shipped(h, ns, spec, turn, target);
      status == Fine <==> target.0 in h.buckets && turn.tar.ok && SendsAll(s.host, h'.local, turn)
  {
    hide IsId, Copy.ValidName, IsListing, Clear, LocalPath, LocalFolder, CopiedFrom, Uploaded, SourceSpec, IsCopy,
         Resolve, Lists;
    if target.0 in h.buckets {
      CopyOut(h, ns, spec.podName, turn.time, turn.tar);
      var (h1, copied) := CopiedFrom(h, SourceSpec(ns, spec.podName, turn.time), LocalFolder(h, turn.time), turn.tar);
      if copied == Fine {
        UploadedExactly(h1.buckets[target.0], h1.local, LocalFolder(h, turn.time), target.1 + "/" + turn.time,
                        turn.listing, 0, turn.faults);
        SameLocalPath(h, s.host);
        LocalFolderResolves(h, turn.time);
        forall j | 0 <= j < |turn.listing|
          ensures Resolve(LocalFolder(h, turn.time) + "/" + turn.listing[j])
               == LocalPath(h) + [turn.time] + [turn.listing[j]]
        {
          ListedIsGood(h.local, h1.local, LocalPath(h) + [turn.time], turn.tar.items, turn.listing, j);
          ResolveChild(LocalFolder(h, turn.time), turn.listing[j]);
        }
      }
    }
  }

  lemma ListedIsGood(local: Tree, local': Tree, d: seq<string>, items: seq<Item>, names: seq<string>, j: nat)
    requires IsListing(items) && Clear(local, d) && IsCopy(local, local', d, items) && Lists(local', d, names)
    requires j < |names|
    ensures Good(names[j])
  {
    hide IsListing, IsCopy;
    var p := d + [names[j]];
    assert p in local' && Above(d, p);
    CopyStaysBelow(local, local', d, items, p);
  }
}
