/** Backups and restores as one transition system, and what couples its parts in every reachable state:
    the buckets, the backup directories and the restored files agree name by name. */
module Coupling {
  import opened Basics
  import opened Paths
  import opened FileTree
  import Copy
  import opened Storage
  import opened Remote
  import opened Backup
  import opened Restore
  import opened RestorePaths

  /** What is known of a backup that was started: the files its command left in the pod, where it was to be
      stored, and whether the whole pass, upload included, reported success. */
  datatype Record = Record(pod: PodId, target: Option<(BucketId, string)>, files: map<string, Bytes>, complete: bool)

  type Records = map<string, Record>

  /** `image` is the file system that the operator's container starts with. */
  datatype System = System(host: Host, restoreDir: string, records: Records, image: Tree)

  /** One Reconcile of a Backup or Restore object, or a restart of the operator for any reason. */
  datatype Step =
    | DoBackup(ns: string, backup: BackupSpec, backupTurn: BackupTurn)
    | DoRestore(ns: string, restore: RestoreSpec, restoreTurn: RestoreTurn)
    | DoRestart

  // ---- Steps ----------------------------------------------------------------------------------------

  /** The files a backup run left in its pod. */
  function Left(h: Host, ns: string, spec: BackupSpec, turn: BackupTurn): map<string, Bytes> {
    var pod := PodId(ns, spec.podName);
    if turn.setupOk && BackupCommand(spec, turn.time).Some? && pod in h.pods
       && WriteDir(h.pods[pod], Resolve(BACKUP_DIR + "/" + turn.time), turn.written).Some?
    then turn.written else map[]
  }

  /** A new process: the package variable has its initial value, and the container its own files. */
  function Restarted(s: System): System {
    s.(host := s.host.(local := s.image), restoreDir := RESTORE_DIR)
  }

  /** A panic ends the process, and the deployment starts another one. */
  function Survived(s: System, status: Status): System {
    if status.Panicked? then Restarted(s) else s
  }

  function AfterBackup(s: System, ns: string, spec: BackupSpec, turn: BackupTurn): System {
    var (h, status) := BackupPass(s.host, ns, spec, turn);
    var target := Target(spec.storage);
    var record := Record(PodId(ns, spec.podName), target, Left(s.host, ns, spec, turn), status.Fine? && target.Some?);
    s.(host := h, records := s.records[turn.time := record])
  }

  function AfterRestore(s: System, ns: string, spec: RestoreSpec, turn: RestoreTurn): System {
    var r := RestorePass(s.host, s.restoreDir, ns, spec, turn);
    s.(host := r.host, restoreDir := r.restoreDir)
  }

  function StatusOf(s: System, step: Step): Status {
    match step
    case DoBackup(ns, spec, turn) => BackupPass(s.host, ns, spec, turn).1
    case DoRestore(ns, spec, turn) => RestorePass(s.host, s.restoreDir, ns, spec, turn).status
    case DoRestart => Panicked
  }

  /** The process does not outlive the step. */
  predicate Restarts(s: System, step: Step) {
    StatusOf(s, step).Panicked?
  }

  function Next(s: System, step: Step): System {
    match step
    case DoBackup(ns, spec, turn) => Survived(AfterBackup(s, ns, spec, turn), StatusOf(s, step))
    case DoRestore(ns, spec, turn) => Survived(AfterRestore(s, ns, spec, turn), StatusOf(s, step))
    case DoRestart => Restarted(s)
  }

  function BackupPath(t: string): seq<string> {
    BACKUP_PATH + [t]
  }

  function LocalPath(h: Host): seq<string> {
    Resolve(h.tmp) + ["influxdb-backup"]
  }

  /** ReadDir: the names directly below a directory. */
  ghost predicate Lists(t: Tree, d: seq<string>, names: seq<string>) {
    && (forall i | 0 <= i < |names| :: d + [names[i]] in t)
    && (forall p | p in t && |p| == |d| + 1 && Above(d, p) :: p[|d|] in names)
  }

  /** What the environment promises of a backup: a fresh second, file names that are names, and that tar and
      ReadDir list what is there. */
  ghost predicate BackupAllowed(s: System, ns: string, spec: BackupSpec, turn: BackupTurn) {
    && IsId(turn.time) && turn.time !in s.records
    && (forall n | n in turn.written :: Good(n))
    && var h1 := BackupRun(s.host, ns, spec, turn).0;
    && Copy.ValidName(ns) && Copy.ValidName(spec.podName)
    && (PodId(ns, spec.podName) in h1.pods && BackupPath(turn.time) in h1.pods[PodId(ns, spec.podName)] ==>
          Faithful(h1.pods[PodId(ns, spec.podName)], BackupPath(turn.time), turn.tar.items))
    && Lists(BackupPass(s.host, ns, spec, turn).0.local, LocalPath(s.host) + [turn.time], turn.listing)
  }

  predicate RestoreAllowed(s: System, spec: RestoreSpec, turn: RestoreTurn) {
    var target := Target(spec.storage);
    target.Some? && target.value.0 in s.host.buckets ==> Enumerates(turn.order, s.host.buckets[target.value.0].Keys)
  }

  ghost predicate Allowed(s: System, step: Step) {
    match step
    case DoBackup(ns, spec, turn) => BackupAllowed(s, ns, spec, turn)
    case DoRestore(_, spec, turn) => RestoreAllowed(s, spec, turn)
    case DoRestart => true
  }

  // ---- The invariant --------------------------------------------------------------------------------

  /** File `n` of backup `t` has content `c`. */
  predicate IsBackupFile(records: Records, t: string, n: string, c: Bytes) {
    t in records && n in records[t].files && records[t].files[n] == c
  }

  ghost predicate RecordsOk(records: Records) {
    forall t | t in records :: IsId(t) && forall n | n in records[t].files :: Good(n)
  }

  /** A place where a file of a backup is kept or restored: below one of the two directories and an id. */
  predicate Watched(p: seq<string>) {
    |p| == 6 && (p[..4] == BACKUP_PATH || p[..4] == RESTORE_PATH) && IsId(p[4])
  }

  /** Every file at a watched place of any pod is that file of that backup. */
  ghost predicate FilesAgree(pods: map<PodId, Tree>, records: Records) {
    forall pod, p | pod in pods && IsFile(pods[pod], p) && Watched(p) ::
      IsBackupFile(records, p[4], p[5], pods[pod][p].content)
  }

  /** Every file of every backup is still in the pod's backup directory. */
  ghost predicate FilesKept(pods: map<PodId, Tree>, records: Records) {
    forall t, n | t in records && n in records[t].files :: FileKept(pods, records, t, n)
  }

  predicate FileKept(pods: map<PodId, Tree>, records: Records, t: string, n: string)
    requires t in records && n in records[t].files
  {
    && records[t].pod in pods
    && IsFile(pods[records[t].pod], BackupPath(t) + [n])
    && pods[records[t].pod][BackupPath(t) + [n]].content == records[t].files[n]
  }

  /** The object under `key` is a file of a backup that was to be stored in that bucket. */
  ghost predicate KeyAgrees(records: Records, id: BucketId, key: string, c: Bytes) {
    exists t, n :: IsBackupFile(records, t, n, c) && records[t].target.Some? && records[t].target.value.0 == id
                   && key == Key(records[t].target.value.1, t, n)
  }

  ghost predicate BucketsAgree(buckets: map<BucketId, Bucket>, records: Records) {
    forall id, key | id in buckets && key in buckets[id] :: KeyAgrees(records, id, key, buckets[id][key])
  }

  /** A complete backup is stored whole. */
  ghost predicate CompleteStored(buckets: map<BucketId, Bucket>, records: Records) {
    forall t, n | t in records && records[t].complete && n in records[t].files ::
      && records[t].target.Some?
      && records[t].target.value.0 in buckets
      && Key(records[t].target.value.1, t, n) in buckets[records[t].target.value.0]
  }

  /** The operator's own directory holds nothing of a backup not yet started. */
  ghost predicate LocalOk(local: Tree, base: seq<string>, records: Records) {
    && (forall p | AtOrAbove(p, base) :: !IsFile(local, p))
    && (forall p | p in local && Above(base, p) :: p[|base|] in records)
  }

  ghost predicate Inv(s: System) {
    && IsRestoreDir(s.restoreDir)
    && Rooted(s.host.tmp) && ':' !in s.host.tmp
    && RecordsOk(s.records)
    && FilesAgree(s.host.pods, s.records)
    && FilesKept(s.host.pods, s.records)
    && BucketsAgree(s.host.buckets, s.records)
    && CompleteStored(s.host.buckets, s.records)
    && LocalOk(s.host.local, LocalPath(s.host), s.records)
    && LocalOk(s.image, LocalPath(s.host), map[])
  }

  // ---- Restores -------------------------------------------------------------------------------------

  lemma PutKeepsAgreement(pods: map<PodId, Tree>, records: Records, pod: PodId, p: seq<string>, content: Bytes,
                          tree: Tree, t: string, n: string)
    requires FilesAgree(pods, records) && FilesKept(pods, records)
    requires pod in pods && Put(pods[pod], p, content) == Some(tree)
    requires |p| >= 2 && p[|p| - 1] == n && (p[|p| - 2] == t || !IsId(p[|p| - 2]))
    requires IsBackupFile(records, t, n, content)
    requires RecordsOk(records)
    ensures FilesAgree(pods[pod := tree], records) && FilesKept(pods[pod := tree], records)
  {
    hide IsId, Put;
    PutEffect(pods[pod], p, content, tree);
    var pods' := pods[pod := tree];
    forall t', n' | t' in records && n' in records[t'].files ensures FileKept(pods', records, t', n') {
      assert FileKept(pods, records, t', n');
      var q := BackupPath(t') + [n'];
      assert q[|q| - 2] == t' && q[|q| - 1] == n';
    }
  }

  lemma MkdirKeepsAgreement(pods: map<PodId, Tree>, records: Records, pod: PodId, d: seq<string>, tree: Tree)
    requires FilesAgree(pods, records) && FilesKept(pods, records)
    requires pod in pods && MkdirAll(pods[pod], d) == Some(tree)
    ensures FilesAgree(pods[pod := tree], records) && FilesKept(pods[pod := tree], records)
  {
    hide MkdirAll, Watched;
    MkdirEffect(pods[pod], d, tree);
    var pods' := pods[pod := tree];
    forall t, n | t in records && n in records[t].files ensures FileKept(pods', records, t, n) {
      assert FileKept(pods, records, t, n);
    }
  }

  lemma CopiedKeyKeepsAgreement(h: Host, records: Records, id: BucketId, ns: string, podName: string,
                                restoreDir: string,
                                folder: string, backupId: string, key: string, fault: CopyFault)
    requires id in h.buckets && IsRestoreDir(restoreDir) && RecordsOk(records)
    requires FilesAgree(h.pods, records) && FilesKept(h.pods, records) && BucketsAgree(h.buckets, records)
    requires RemoteFolder(folder, backupId) <= key
    ensures
      var h' := CopiedKey(h, h.buckets[id], key, RemoteFolder(folder, backupId),
                          DestinationBase(ns, podName, restoreDir, backupId), fault).0;
      && h' == h.(pods := h'.pods)
      && FilesAgree(h'.pods, records) && FilesKept(h'.pods, records)
  {
    hide FilesAgree, FilesKept, BucketsAgree, RecordsOk, Copy.ExtractFileSpec, Resolve, Put, Key, RemoteFolder,
         DestinationBase, CopiedTo, IsRestoreDir, MkdirAll, DirPart;
    var bucket := h.buckets[id];
    var dest := Destination(ns, podName, restoreDir, folder, backupId, key);
    if key in bucket && CopiedTo(h, dest, bucket[key], !fault.DirOnly?).0 != h {
      var tree := CopiedToShape(h, dest, bucket[key], !fault.DirOnly?);
      var spec := Copy.ExtractFileSpec(dest).value;
      var pod := PodId(spec.ns, spec.pod);
      if MkdirAll(h.pods[pod], Resolve(DirPart(spec.file))) == Some(tree) {
        MkdirKeepsAgreement(h.pods, records, pod, Resolve(DirPart(spec.file)), tree);
      } else {
        var t, n, folder' := KeyOwner(h.buckets, records, id, key);
        KeyLandsOn(ns, podName, restoreDir, folder, backupId, folder', t, n);
        NotAnId(restoreDir);
        PutKeepsAgreement(h.pods, records, pod, Resolve(spec.file), bucket[key], tree, t, n);
      }
    }
  }

  /** What copying a file changes is one pod's tree: by a mkdir or by a put. */
  lemma CopiedToShape(h: Host, dest: string, content: Bytes, tarOk: bool) returns (tree: Tree)
    requires CopiedTo(h, dest, content, tarOk).0 != h
    ensures
      && Copy.ExtractFileSpec(dest).Some?
      && var spec := Copy.ExtractFileSpec(dest).value;
      && var pod := PodId(spec.ns, spec.pod);
      && pod in h.pods && CopiedTo(h, dest, content, tarOk).0 == h.(pods := h.pods[pod := tree])
      && (MkdirAll(h.pods[pod], Resolve(DirPart(spec.file))) == Some(tree)
          || Put(h.pods[pod], Resolve(spec.file), content) == Some(tree))
  {
    hide Copy.ExtractFileSpec, Resolve, Put, Received, MkdirAll, DirPart;
    var spec := Copy.ExtractFileSpec(dest).value;
    var pod := PodId(spec.ns, spec.pod);
    tree := Received(h.pods[pod], spec.file, content, tarOk).0;
    ReceivedShape(h.pods[pod], spec.file, content, tarOk);
    assert h.pods[pod := h.pods[pod]] == h.pods;
  }

  lemma KeyOwner(buckets: map<BucketId, Bucket>, records: Records, id: BucketId, key: string)
    returns (t: string, n: string, folder: string)
    requires RecordsOk(records) && BucketsAgree(buckets, records) && id in buckets && key in buckets[id]
    ensures IsBackupFile(records, t, n, buckets[id][key]) && Good(t) && Good(n) && IsId(t)
    ensures records[t].target == Some((id, folder)) && key == Key(folder, t, n)
  {
    hide Key, IsId;
    assert KeyAgrees(records, id, key, buckets[id][key]);
    t, n :| IsBackupFile(records, t, n, buckets[id][key]) && records[t].target.Some?
            && records[t].target.value.0 == id && key == Key(records[t].target.value.1, t, n);
    folder := records[t].target.value.1;
    IdIsGood(t);
  }

  lemma NotAnId(restoreDir: string)
    ensures !IsId(LastOf(restoreDir)) && forall t | IsId(t) :: Good(t)
  {
    forall t | IsId(t) ensures Good(t) {
      IdIsGood(t);
    }
  }

  lemma {:induction false} CopiedKeysKeepAgreement(
      h: Host, records: Records, id: BucketId, ns: string, podName: string, restoreDir: string, folder: string,
      backupId: string, keys: seq<string>, i: nat, faults: seq<CopyFault>)
    requires i <= |keys| && id in h.buckets && IsRestoreDir(restoreDir) && RecordsOk(records)
    requires FilesAgree(h.pods, records) && FilesKept(h.pods, records) && BucketsAgree(h.buckets, records)
    requires forall k | k in keys :: RemoteFolder(folder, backupId) <= k
    ensures
      var h' := CopiedKeys(h, h.buckets[id], keys, i, RemoteFolder(folder, backupId),
                           DestinationBase(ns, podName, restoreDir, backupId), faults).0;
      && h' == h.(pods := h'.pods)
      && FilesAgree(h'.pods, records) && FilesKept(h'.pods, records)
    decreases |keys| - i
  {
    hide FilesAgree, FilesKept, BucketsAgree, CopiedKey, RecordsOk, RemoteFolder, DestinationBase;
    if i < |keys| {
      assert keys[i] in keys;
      CopiedKeyKeepsAgreement(h, records, id, ns, podName, restoreDir, folder, backupId, keys[i],
                              CopyFaultAt(faults, i));
      var h' := CopiedKey(h, h.buckets[id], keys[i], RemoteFolder(folder, backupId),
                          DestinationBase(ns, podName, restoreDir, backupId), CopyFaultAt(faults, i)).0;
      CopiedKeysKeepAgreement(h', records, id, ns, podName, restoreDir, folder, backupId, keys, i + 1, faults);
    }
  }

  lemma ListedKeysHavePrefix(provider: string, order: seq<string>, remoteFolder: string)
    ensures forall k | k in ListingOf(provider, order, remoteFolder) :: remoteFolder <= k && k in order
  {
    hide GcsListing, S3Listing;
    GcsMembers(order, remoteFolder);
    ListedIsStored(order, remoteFolder);
    forall k | k in ListingOf(provider, order, remoteFolder) ensures remoteFolder <= k && k in order {
      assert provider == "s3" ==> k[..|remoteFolder| + 1] == remoteFolder + "/";
      assert provider == "s3" ==> k[..|remoteFolder|] == (remoteFolder + "/")[..|remoteFolder|];
    }
  }

  /** A restart keeps the coupling invariant: pods and buckets outlive the process, and its own directory is as
      good as new. */
  lemma RestartKeepsInv(s: System)
    requires Inv(s)
    ensures Inv(Restarted(s))
  {
    hide FilesAgree, FilesKept, BucketsAgree, CompleteStored, RecordsOk;
    assert LocalPath(Restarted(s).host) == LocalPath(s.host);
  }

  lemma RestoreKeepsInv(s: System, ns: string, spec: RestoreSpec, turn: RestoreTurn)
    requires Inv(s)
    ensures Inv(Next(s, DoRestore(ns, spec, turn)))
  {
    hide Inv, RestorePass, AfterRestore;
    AfterRestoreInv(s, ns, spec, turn);
    RestartKeepsInv(AfterRestore(s, ns, spec, turn));
  }

  lemma AfterRestoreInv(s: System, ns: string, spec: RestoreSpec, turn: RestoreTurn)
    requires Inv(s)
    ensures
      var s' := AfterRestore(s, ns, spec, turn);
      && Inv(s') && s'.host == s.host.(pods := s'.host.pods)
      && s'.restoreDir == if turn.setupOk && spec.storage.provider == "pv" then BACKUP_DIR else s.restoreDir
  {
    hide FilesAgree, FilesKept, BucketsAgree, CompleteStored, LocalOk, RecordsOk, CopiedKeys, RemoteFolder,
         DestinationBase, ListingOf, RestoreCommand, Resolve, LoopStatus;
    var target := Target(spec.storage);
    if target.Some? && target.value.0 in s.host.buckets {
      var (id, folder) := target.value;
      var keys := ListingOf(id.provider, turn.order, RemoteFolder(folder, spec.backupId));
      ListedKeysHavePrefix(id.provider, turn.order, RemoteFolder(folder, spec.backupId));
      CopiedKeysKeepAgreement(s.host, s.records, id, ns, spec.podName, s.restoreDir, folder, spec.backupId, keys, 0,
                              turn.faults);
    }
    var s' := AfterRestore(s, ns, spec, turn);
    assert s'.host == s.host.(pods := s'.host.pods);
  }
}
