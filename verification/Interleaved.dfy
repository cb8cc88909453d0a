/** The two controllers side by side: a backup pass goes file by file and a restore pass key by key, and the moves of
    the one come between those of the other in any order. */
module Interleaved {
  import opened Basics
  import opened Paths
  import opened FileTree
  import Copy
  import opened TreeCopy
  import opened Storage
  import opened Remote
  import opened Backup
  import opened Restore
  import opened RestorePaths
  import opened Coupling
  import opened CouplingBackup
  import CouplingRuns

  /** Where the backup controller is: between passes, with the command run and the local folder made, or with
      `i` of the names in that folder uploaded. */
  datatype BackupPhase =
    | Idle
    | Running(ns: string, podName: string, t: string)
    | Uploading(t: string, names: seq<string>, i: nat)

  /** Where the restore controller is: between passes, or with `i` of the listed keys copied. */
  datatype RestorePhase =
    | Resting
    | Placing(ns: string, spec: RestoreSpec, keys: seq<string>, i: nat)

  datatype Machine = Machine(sys: System, backup: BackupPhase, restore: RestorePhase)

  /** What either controller does next, with what surrounds it. */
  datatype Move =
    | RunCommand(ns: string, backup: BackupSpec, backupTurn: BackupTurn)
    | FetchFolder(tar: TarRun, names: seq<string>)
    | SendFile(fault: Fault)
    | ListKeys(rns: string, restore: RestoreSpec, restoreTurn: RestoreTurn)
    | PlaceKey(copyFault: CopyFault)
    | Crash

  /** A new process, in which no pass is under way. */
  function Crashed(s: System): Machine {
    Machine(Restarted(s), Idle, Resting)
  }

  function Recorded(s: System, ns: string, spec: BackupSpec, turn: BackupTurn): Record {
    Record(PodId(ns, spec.podName), Target(spec.storage), Left(s.host, ns, spec, turn), false)
  }

  function Commanded(m: Machine, ns: string, spec: BackupSpec, turn: BackupTurn): Machine {
    var h := m.sys.host;
    var s1 := m.sys.(records := m.sys.records[turn.time := Recorded(m.sys, ns, spec, turn)]);
    if !turn.setupOk then m.(sys := s1)
    else
      var (h1, ran) := BackupRun(h, ns, spec, turn);
      var made := MkdirAll(h1.local, Resolve(LocalFolder(h, turn.time)));
      if ran.Panicked? then Crashed(s1.(host := h1))
      else if ran.Erred? || made.None? then m.(sys := s1.(host := h1))
      else
        var target := Target(spec.storage);
        var s2 := s1.(host := h1.(local := made.value));
        if target.None? || target.value.0 !in h1.buckets then m.(sys := s2)
        else m.(sys := s2, backup := Running(ns, spec.podName, turn.time))
  }

  function Fetched(m: Machine, tar: TarRun): (Host, Status)
    requires m.backup.Running?
  {
    var h, t := m.sys.host, m.backup.t;
    CopiedFrom(h, SourceSpec(m.backup.ns, m.backup.podName, t), LocalFolder(h, t), tar)
  }

  function Completed(s: System, t: string): System
    requires t in s.records
  {
    s.(records := s.records[t := s.records[t].(complete := true)])
  }

  /** One round of the upload loop, or its end. */
  function Sent(m: Machine, fault: Fault): Machine
    requires m.backup.Uploading? && m.backup.i <= |m.backup.names| && m.backup.t in m.sys.records
    requires m.sys.records[m.backup.t].target.Some?
    requires m.sys.records[m.backup.t].target.value.0 in m.sys.host.buckets
  {
    var h, t, i, names := m.sys.host, m.backup.t, m.backup.i, m.backup.names;
    var (id, folder) := m.sys.records[t].target.value;
    if i == |names| then m.(sys := Completed(m.sys, t), backup := Idle)
    else
      var p := Resolve(LocalFolder(h, t) + "/" + names[i]);
      if !IsFile(h.local, p) || fault.Lost? then m.(backup := Idle)
      else
        var key := folder + "/" + t + "/" + names[i];
        var h' := h.(buckets := h.buckets[id := h.buckets[id][key := h.local[p].content]]);
        m.(sys := m.sys.(host := h'), backup := if fault.Applied? then Idle else Uploading(t, names, i + 1))
  }

  function Listing(m: Machine, ns: string, spec: RestoreSpec, turn: RestoreTurn): Machine {
    var target := Target(spec.storage);
    if !turn.setupOk then m
    else if target.None? then
      if spec.storage.provider == "pv" then m.(sys := m.sys.(restoreDir := BACKUP_DIR)) else m
    else
      var (id, folder) := target.value;
      if id !in m.sys.host.buckets || !turn.listOk then m
      else
        var keys := ListingOf(id.provider, turn.order, RemoteFolder(folder, spec.backupId));
        m.(restore := Placing(ns, spec, keys, 0))
  }

  /** One round of the copy loop, or its end, after which the command is run. */
  function Placed(m: Machine, fault: CopyFault): Machine
    requires m.restore.Placing? && m.restore.i <= |m.restore.keys| && Target(m.restore.spec.storage).Some?
    requires Target(m.restore.spec.storage).value.0 in m.sys.host.buckets
  {
    var h, r := m.sys.host, m.restore;
    var (id, folder) := Target(r.spec.storage).value;
    if r.i == |r.keys| then m.(restore := Resting)
    else
      var key := r.keys[r.i];
      if id.provider == "s3" && (key !in h.buckets[id] || fault.Unfetched?) then Crashed(m.sys)
      else
        var (h', ok) := CopiedKey(h, h.buckets[id], key, RemoteFolder(folder, r.spec.backupId),
                                  DestinationBase(r.ns, r.spec.podName, m.sys.restoreDir, r.spec.backupId), fault);
        Machine(m.sys.(host := h'), m.backup, if ok then Placing(r.ns, r.spec, r.keys, r.i + 1) else Resting)
  }

  // ---- The invariant -----------------------------------------------------------------------------------------

  /** What a backup pass under way relies on. */
  ghost predicate BackupOk(s: System, b: BackupPhase) {
    match b
    case Idle => true
    case Running(ns, podName, t) =>
      && InProgress(s.host.buckets, s.records, t) && FolderReady(s.host, s.records, t)
      && Copy.ValidName(ns) && Copy.ValidName(podName) && s.records[t].pod == PodId(ns, podName)
      && PodId(ns, podName) in s.host.pods && BackupPath(t) in s.host.pods[PodId(ns, podName)]
    case Uploading(t, names, i) =>
      && InProgress(s.host.buckets, s.records, t) && i <= |names|
      && FolderHolds(s.host.local, LocalPath(s.host) + [t], names, s.records[t].files)
      && forall j | 0 <= j < i :: IsStored(s.host.buckets, s.records, t, names[j])
  }

  predicate InProgress(buckets: map<BucketId, Bucket>, records: Records, t: string) {
    t in records && records[t].target.Some? && records[t].target.value.0 in buckets
  }

  predicate IsStored(buckets: map<BucketId, Bucket>, records: Records, t: string, n: string) {
    && InProgress(buckets, records, t)
    && Key(records[t].target.value.1, t, n) in buckets[records[t].target.value.0]
  }

  /** What a restore pass under way relies on. */
  ghost predicate RestoreOk(s: System, r: RestorePhase) {
    r.Placing? ==>
      && r.i <= |r.keys| && Target(r.spec.storage).Some? && Target(r.spec.storage).value.0 in s.host.buckets
      && forall k | k in r.keys :: RemoteFolder(Target(r.spec.storage).value.1, r.spec.backupId) <= k
  }

  ghost predicate MachineInv(m: Machine) {
    Inv(m.sys) && BackupOk(m.sys, m.backup) && RestoreOk(m.sys, m.restore)
  }

  /** A controller makes a move only in its phase. */
  predicate Enabled(m: Machine, move: Move) {
    match move
    case RunCommand(_, _, _) => m.backup.Idle?
    case FetchFolder(_, _) => m.backup.Running?
    case SendFile(_) =>
      m.backup.Uploading? && m.backup.i <= |m.backup.names| && InProgress(m.sys.host.buckets, m.sys.records, m.backup.t)
    case ListKeys(_, _, _) => m.restore.Resting?
    case PlaceKey(_) =>
      && m.restore.Placing? && m.restore.i <= |m.restore.keys|
      && Target(m.restore.spec.storage).Some? && Target(m.restore.spec.storage).value.0 in m.sys.host.buckets
    case Crash => true
  }

  /** Under the invariant that is all it takes. */
  lemma AlwaysEnabled(m: Machine)
    requires MachineInv(m)
    ensures forall fault :: Enabled(m, SendFile(fault)) <==> m.backup.Uploading?
    ensures forall fault :: Enabled(m, PlaceKey(fault)) <==> m.restore.Placing?
  {
    hide Inv, FolderHolds, IsStored, RemoteFolder, LocalPath;
  }

  function Moved(m: Machine, move: Move): Machine {
    if !Enabled(m, move) then m
    else
      match move
      case RunCommand(ns, spec, turn) => Commanded(m, ns, spec, turn)
      case FetchFolder(tar, names) =>
        var (h, status) := Fetched(m, tar);
        if status.Panicked? then Crashed(m.sys.(host := h))
        else m.(sys := m.sys.(host := h), backup := if status.Fine? then Uploading(m.backup.t, names, 0) else Idle)
      case SendFile(fault) => Sent(m, fault)
      case ListKeys(ns, spec, turn) => Listing(m, ns, spec, turn)
      case PlaceKey(fault) => Placed(m, fault)
      case Crash => Crashed(m.sys)
  }

  /** What the environment promises at a move: fresh seconds, proper names, and that tar, ReadDir and listings say
      what is there when they are asked. */
  ghost predicate MoveAllowed(m: Machine, move: Move) {
    match move
    case RunCommand(ns, spec, turn) =>
      && IsId(turn.time) && turn.time !in m.sys.records && (forall n | n in turn.written :: Good(n))
      && Copy.ValidName(ns) && Copy.ValidName(spec.podName)
    case FetchFolder(tar, names) =>
      m.backup.Running? ==>
        var pod, t := PodId(m.backup.ns, m.backup.podName), m.backup.t;
        && (pod in m.sys.host.pods && BackupPath(t) in m.sys.host.pods[pod] ==>
              Faithful(m.sys.host.pods[pod], BackupPath(t), tar.items))
        && Lists(Fetched(m, tar).0.local, LocalPath(m.sys.host) + [t], names)
    case ListKeys(_, spec, turn) => RestoreAllowed(m.sys, spec, turn)
    case _ => true
  }

  /** Records only become complete, and every stored object stays. */
  ghost predicate Grows(s: System, s': System) {
    && (forall t | t in s.records ::
          t in s'.records && (s'.records[t] == s.records[t] || s'.records[t] == s.records[t].(complete := true)))
    && BucketsKept(s.host.buckets, s'.host.buckets)
  }

  // ---- Moves of the restore controller -------------------------------------------------------------------------

  lemma CrashKeepsInv(s: System)
    requires Inv(s)
    ensures MachineInv(Crashed(s)) && Grows(s, s) && Grows(s, Restarted(s))
  {
    hide Inv;
    RestartKeepsInv(s);
  }

  lemma ListingKeepsInv(m: Machine, ns: string, spec: RestoreSpec, turn: RestoreTurn)
    requires MachineInv(m)
    ensures MachineInv(Listing(m, ns, spec, turn)) && Grows(m.sys, Listing(m, ns, spec, turn).sys)
  {
    hide FilesAgree, FilesKept, BucketsAgree, CompleteStored, LocalOk, RecordsOk, RemoteFolder, ListingOf, FolderReady,
         FolderHolds, BackupPath, LocalPath, IsStored;
    var target := Target(spec.storage);
    if target.Some? {
      ListedKeysHavePrefix(target.value.0.provider, turn.order, RemoteFolder(target.value.1, spec.backupId));
    }
  }

  /** Copying a key only adds nodes to one pod, or changes files. */
  lemma CopiedKeyKeepsNodes(h: Host, bucket: Bucket, key: string, remoteFolder: string, base: string, fault: CopyFault,
                            pod: PodId, p: seq<string>)
    requires pod in h.pods && p in h.pods[pod]
    ensures
      var h' := CopiedKey(h, bucket, key, remoteFolder, base, fault).0;
      pod in h'.pods && p in h'.pods[pod]
  {
    hide Copy.ExtractFileSpec, Resolve, Put, CopiedTo, MkdirAll, DirPart;
    var dest := base + TrimPrefix(key, remoteFolder);
    if key in bucket && CopiedTo(h, dest, bucket[key], !fault.DirOnly?).0 != h {
      var tree := CopiedToShape(h, dest, bucket[key], !fault.DirOnly?);
      var spec := Copy.ExtractFileSpec(dest).value;
      var to := PodId(spec.ns, spec.pod);
      if MkdirAll(h.pods[to], Resolve(DirPart(spec.file))) == Some(tree) {
        MkdirEffect(h.pods[to], Resolve(DirPart(spec.file)), tree);
      } else {
        PutEffect(h.pods[to], Resolve(spec.file), bucket[key], tree);
      }
    }
  }

  /** Copying one key keeps what a backup pass under way relies on. */
  lemma PlacedKeepsInv(m: Machine, fault: CopyFault)
    requires MachineInv(m) && m.restore.Placing?
    ensures MachineInv(Placed(m, fault)) && Grows(m.sys, Placed(m, fault).sys)
  {
    hide FilesAgree, FilesKept, BucketsAgree, CompleteStored, LocalOk, RecordsOk, RemoteFolder, FolderReady,
         FolderHolds, BackupPath, LocalPath, IsStored, DestinationBase, CopiedKey;
    CrashKeepsInv(m.sys);
    var s, r := m.sys, m.restore;
    var (id, folder) := Target(r.spec.storage).value;
    if r.i < |r.keys| {
      var key, base := r.keys[r.i], DestinationBase(r.ns, r.spec.podName, s.restoreDir, r.spec.backupId);
      var remote := RemoteFolder(folder, r.spec.backupId);
      assert key in r.keys;
      CopiedKeyKeepsAgreement(s.host, s.records, id, r.ns, r.spec.podName, s.restoreDir, folder, r.spec.backupId, key,
                              fault);
      var h' := CopiedKey(s.host, s.host.buckets[id], key, remote, base, fault).0;
      SameLocalPath(s.host, h');
      SameFolderReady(s.host, h', s.records);
      if m.backup.Running? {
        CopiedKeyKeepsNodes(s.host, s.host.buckets[id], key, remote, base, fault,
                            PodId(m.backup.ns, m.backup.podName), BackupPath(m.backup.t));
      }
    }
  }

  lemma SameFolderReady(h: Host, h': Host, records: Records)
    requires h' == h.(pods := h'.pods)
    ensures forall t | FolderReady(h, records, t) :: FolderReady(h', records, t)
  {
    hide LocalPath;
    SameLocalPath(h, h');
  }

  // ---- Moves of the backup controller --------------------------------------------------------------------------

  /** The state after the command, before anything is done about the local folder. */
  function RunRecorded(s: System, ns: string, spec: BackupSpec, turn: BackupTurn): System {
    s.(host := if turn.setupOk then BackupRun(s.host, ns, spec, turn).0 else s.host,
       records := s.records[turn.time := Recorded(s, ns, spec, turn)])
  }

  lemma RunRecordedInv(m: Machine, ns: string, spec: BackupSpec, turn: BackupTurn)
    requires Inv(m.sys) && MoveAllowed(m, RunCommand(ns, spec, turn))
    ensures Inv(RunRecorded(m.sys, ns, spec, turn))
  {
    hide FilesAgree, FilesKept, BucketsAgree, CompleteStored, LocalOk, RecordsOk, BackupRun, Left, LocalPath, IsId;
    var s, t, record := m.sys, turn.time, Recorded(m.sys, ns, spec, turn);
    assert forall n | n in record.files :: Good(n) by {
      LeftWritten(s.host, ns, spec, turn);
    }
    RecordKeepsOk(s.records, t, record);
    BackupRunKeepsAgreement(s, ns, spec, turn, record);
    OlderLocalOk(s.host.local, LocalPath(s.host), s.records, t, record);
    FreshRecordKeepsBuckets(s.host.buckets, s.records, t, record);
    RunShape(s.host, ns, spec, turn);
    SameLocalPath(s.host, BackupRun(s.host, ns, spec, turn).0);
  }

  lemma MadeFolderInv(m: Machine, ns: string, spec: BackupSpec, turn: BackupTurn, s2: System)
    requires Inv(m.sys) && MoveAllowed(m, RunCommand(ns, spec, turn))
    requires
      var s1 := RunRecorded(m.sys, ns, spec, turn);
      var made := MkdirAll(s1.host.local, Resolve(LocalFolder(m.sys.host, turn.time)));
      made.Some? && s2 == s1.(host := s1.host.(local := made.value))
    ensures Inv(s2) && FolderReady(s2.host, s2.records, turn.time) && Grows(m.sys, s2)
  {
    hide FilesAgree, FilesKept, BucketsAgree, CompleteStored, LocalOk, RecordsOk, BackupRun, Left, LocalPath,
         LocalFolder, IsId, Resolve, MkdirAll, FolderReady;
    var s, t, record := m.sys, turn.time, Recorded(m.sys, ns, spec, turn);
    RunRecordedInv(m, ns, spec, turn);
    RunShape(s.host, ns, spec, turn);
    MadeFolderReady(s.host, s2.host, s.records, t);
    SameLocalPath(s.host, s2.host);
    ReadyLocalOk(s2.host, s.records, t, record);
    ReadyWith(s2.host, s.records, t, record);
  }

  lemma CommandedKeepsInv(m: Machine, ns: string, spec: BackupSpec, turn: BackupTurn)
    requires MachineInv(m) && m.backup.Idle? && MoveAllowed(m, RunCommand(ns, spec, turn))
    ensures MachineInv(Commanded(m, ns, spec, turn)) && Grows(m.sys, Commanded(m, ns, spec, turn).sys)
  {
    hide Inv, BackupRun, Left, LocalPath, LocalFolder, IsId, BackupPath, Resolve, MkdirAll, FolderReady, RemoteFolder;
    var s, t := m.sys, turn.time;
    var s1 := RunRecorded(s, ns, spec, turn);
    RunRecordedInv(m, ns, spec, turn);
    CrashKeepsInv(s1);
    RunShape(s.host, ns, spec, turn);
    var made := MkdirAll(s1.host.local, Resolve(LocalFolder(s.host, t)));
    if turn.setupOk && made.Some? {
      MadeFolderInv(m, ns, spec, turn, s1.(host := s1.host.(local := made.value)));
    }
  }

  lemma ReadyWith(h: Host, records: Records, t: string, record: Record)
    requires FolderReady(h, records, t)
    ensures FolderReady(h, records[t := record], t)
  {
    hide LocalPath, Clear;
  }

  lemma FetchedKeepsInv(m: Machine, tar: TarRun, names: seq<string>)
    requires MachineInv(m) && m.backup.Running? && MoveAllowed(m, FetchFolder(tar, names))
    ensures !Fetched(m, tar).1.Panicked?
    ensures MachineInv(Moved(m, FetchFolder(tar, names))) && Grows(m.sys, Moved(m, FetchFolder(tar, names)).sys)
  {
    hide FilesAgree, FilesKept, BucketsAgree, CompleteStored, LocalOk, RecordsOk, CopiedFrom, FolderHolds, Lists, Clear,
         IsCopy, LocalPath, LocalFolder, SourceSpec, IsId, BackupPath, IsListing, RemoteFolder;
    var s, t, b := m.sys, m.backup.t, m.backup;
    var pod, records := PodId(b.ns, b.podName), s.records;
    IdOf(records, t);
    CopyOut(s.host, b.ns, b.podName, t, tar);
    var (h, status) := Fetched(m, tar);
    if status.Fine? {
      assert records[t := records[t]] == records;
      CopyKeepsLocal(s.host.local, h.local, LocalPath(s.host), t, records, tar.items, records[t]);
      CopiedFolderHolds(s, records, s.host.pods, s.host.local, h.local, t, tar.items, names);
    }
    SameLocalPath(s.host, h);
  }

  lemma IdOf(records: Records, t: string)
    requires RecordsOk(records) && t in records
    ensures IsId(t)
  {
    hide IsId;
  }

  /** A file of a backup under way is stored: the objects still belong to backups, and nothing is overwritten. */
  lemma StoreKeepsBuckets(buckets: map<BucketId, Bucket>, records: Records, t: string, n: string)
    requires RecordsOk(records) && BucketsAgree(buckets, records) && CompleteStored(buckets, records)
    requires InProgress(buckets, records, t) && n in records[t].files
    ensures
      var (id, folder) := records[t].target.value;
      var buckets' := buckets[id := buckets[id][Key(folder, t, n) := records[t].files[n]]];
      && BucketsAgree(buckets', records) && CompleteStored(buckets', records) && BucketsKept(buckets, buckets')
      && IsStored(buckets', records, t, n)
  {
    hide Key, IsId;
    var (id, folder) := records[t].target.value;
    var key := Key(folder, t, n);
    var buckets' := buckets[id := buckets[id][key := records[t].files[n]]];
    assert IsBackupFile(records, t, n, records[t].files[n]);
    forall id', k | id' in buckets' && k in buckets'[id'] ensures KeyAgrees(records, id', k, buckets'[id'][k]) {
      if id' != id || k != key {
        assert KeyAgrees(records, id', k, buckets[id'][k]);
      }
    }
    if key in buckets[id] {
      var t', n', folder' := KeyOwner(buckets, records, id, key);
      assert Good(t) && Good(n) by {
        IdOf(records, t);
        IdIsGood(t);
      }
      KeyInjective(folder, t, n, folder', t', n');
    }
  }

  lemma SentKeepsInv(m: Machine, fault: Fault)
    requires MachineInv(m) && m.backup.Uploading?
    ensures MachineInv(Sent(m, fault)) && Grows(m.sys, Sent(m, fault).sys)
  {
    hide FilesAgree, FilesKept, BucketsAgree, CompleteStored, LocalOk, RecordsOk, LocalPath, LocalFolder, IsId, Key,
         BackupPath, Resolve, RemoteFolder, FolderHolds, IsStored;
    var s, t, names, i := m.sys, m.backup.t, m.backup.names, m.backup.i;
    var (id, folder) := s.records[t].target.value;
    if i == |names| {
      CompletedKeepsInv(s, t, names);
    } else {
      var p := Resolve(LocalFolder(s.host, t) + "/" + names[i]);
      if IsFile(s.host.local, p) && !fault.Lost? {
        SentIsOwn(s, t, names, i);
        StoreKeepsBuckets(s.host.buckets, s.records, t, names[i]);
        var s' := Sent(m, fault).sys;
        SameLocalPath(s.host, s'.host);
        forall n | IsStored(s.host.buckets, s.records, t, n) ensures IsStored(s'.host.buckets, s.records, t, n) {
          StoredStays(s.host.buckets, s'.host.buckets, s.records, t, n);
        }
      }
    }
  }

  lemma StoredStays(buckets: map<BucketId, Bucket>, buckets': map<BucketId, Bucket>, records: Records, t: string,
                    n: string)
    requires BucketsKept(buckets, buckets') && IsStored(buckets, records, t, n)
    ensures IsStored(buckets', records, t, n)
  {
    hide Key;
  }

  /** What the loop finds under a name is that file of the backup. */
  lemma SentIsOwn(s: System, t: string, names: seq<string>, i: nat)
    requires Inv(s) && t in s.records && i < |names|
    requires FolderHolds(s.host.local, LocalPath(s.host) + [t], names, s.records[t].files)
    ensures
      var p := Resolve(LocalFolder(s.host, t) + "/" + names[i]);
      IsFile(s.host.local, p) ==> names[i] in s.records[t].files
                                  && s.records[t].files[names[i]] == s.host.local[p].content
    ensures forall folder: string :: folder + "/" + t + "/" + names[i] == Key(folder, t, names[i])
  {
    hide FilesAgree, FilesKept, BucketsAgree, CompleteStored, LocalOk, LocalPath, LocalFolder, IsId, Resolve;
    IdOf(s.records, t);
    LocalFolderResolves(s.host, t);
    assert names[i] in names;
    ResolveChild(LocalFolder(s.host, t), names[i]);
  }

  lemma CompletedKeepsFiles(s: System, t: string)
    requires RecordsOk(s.records) && FilesAgree(s.host.pods, s.records) && FilesKept(s.host.pods, s.records)
    requires t in s.records
    ensures
      var records' := Completed(s, t).records;
      RecordsOk(records') && FilesAgree(s.host.pods, records') && FilesKept(s.host.pods, records')
  {
    hide IsId, BACKUP_PATH, Watched;
    var records' := Completed(s, t).records;
    forall t', n | t' in records' && n in records'[t'].files ensures FileKept(s.host.pods, records', t', n) {
      assert FileKept(s.host.pods, s.records, t', n);
    }
  }

  lemma CompletedKeepsKeys(s: System, t: string)
    requires BucketsAgree(s.host.buckets, s.records) && t in s.records
    ensures BucketsAgree(s.host.buckets, Completed(s, t).records)
  {
    hide Key;
    var records' := Completed(s, t).records;
    forall id, key | id in s.host.buckets && key in s.host.buckets[id]
      ensures KeyAgrees(records', id, key, s.host.buckets[id][key])
    {
      assert KeyAgrees(s.records, id, key, s.host.buckets[id][key]);
      var t', n :| IsBackupFile(s.records, t', n, s.host.buckets[id][key]) && s.records[t'].target.Some?
                   && s.records[t'].target.value.0 == id && key == Key(s.records[t'].target.value.1, t', n);
      assert IsBackupFile(records', t', n, s.host.buckets[id][key]);
    }
  }

  /** When all names are uploaded, the backup is complete. */
  lemma CompletedKeepsInv(s: System, t: string, names: seq<string>)
    requires Inv(s) && InProgress(s.host.buckets, s.records, t)
    requires FolderHolds(s.host.local, LocalPath(s.host) + [t], names, s.records[t].files)
    requires forall j | 0 <= j < |names| :: IsStored(s.host.buckets, s.records, t, names[j])
    ensures Inv(Completed(s, t)) && Grows(s, Completed(s, t))
  {
    hide LocalPath, Key, FilesAgree, FilesKept, BucketsAgree, RecordsOk;
    CompletedKeepsFiles(s, t);
    CompletedKeepsKeys(s, t);
    forall n | n in s.records[t].files ensures IsStored(s.host.buckets, s.records, t, n) {
      assert n in names;
    }
  }

  // ---- Runs ----------------------------------------------------------------------------------------------------

  lemma MovedKeepsInv(m: Machine, move: Move)
    requires MachineInv(m) && MoveAllowed(m, move)
    ensures MachineInv(Moved(m, move)) && Grows(m.sys, Moved(m, move).sys)
  {
    hide Inv, BackupOk, RestoreOk, Commanded, Fetched, Sent, Listing, Placed, MoveAllowed, Grows;
    CrashKeepsInv(m.sys);
    if Enabled(m, move) {
      match move {
        case RunCommand(ns, spec, turn) => CommandedKeepsInv(m, ns, spec, turn);
        case FetchFolder(tar, names) => FetchedKeepsInv(m, tar, names);
        case SendFile(fault) => SentKeepsInv(m, fault);
        case ListKeys(ns, spec, turn) => ListingKeepsInv(m, ns, spec, turn);
        case PlaceKey(fault) => PlacedKeepsInv(m, fault);
        case Crash =>
      }
    }
  }

  function Run(m: Machine, moves: seq<Move>): Machine
    decreases |moves|
  {
    if moves == [] then m else Run(Moved(m, moves[0]), moves[1..])
  }

  ghost predicate AllAllowed(m: Machine, moves: seq<Move>)
    decreases |moves|
  {
    moves == [] || (MoveAllowed(m, moves[0]) && AllAllowed(Moved(m, moves[0]), moves[1..]))
  }

  lemma GrowsTransitive(s: System, s': System, s'': System)
    requires Grows(s, s') && Grows(s', s'')
    ensures Grows(s, s'')
  {
  }

  /** However the moves of the two controllers and crashes are interleaved, the coupling invariant holds at every
      point, records stay and only become complete, and no stored object is lost or changed. */
  lemma {:induction false} InterleavedKeepsInv(m: Machine, moves: seq<Move>)
    requires MachineInv(m) && AllAllowed(m, moves)
    ensures MachineInv(Run(m, moves)) && Grows(m.sys, Run(m, moves).sys)
    decreases |moves|
  {
    hide MachineInv, Moved, MoveAllowed, Grows;
    if moves == [] {
      GrowsSelf(m.sys);
    } else {
      MovedKeepsInv(m, moves[0]);
      InterleavedKeepsInv(Moved(m, moves[0]), moves[1..]);
      GrowsTransitive(m.sys, Moved(m, moves[0]).sys, Run(m, moves).sys);
    }
  }

  lemma GrowsSelf(s: System)
    ensures Grows(s, s)
  {
  }

  /** From the start, with files and keys going by in any order: every complete backup agrees name by name, then and
      ever after. */
  lemma BackupsSurvive(s: System, before: seq<Move>, after: seq<Move>, t: string, id: BucketId, folder: string)
    requires CouplingRuns.Initial(s) && AllAllowed(Machine(s, Idle, Resting), before)
    requires AllAllowed(Run(Machine(s, Idle, Resting), before), after)
    requires
      var s1 := Run(Machine(s, Idle, Resting), before).sys;
      t in s1.records && s1.records[t].complete && s1.records[t].target == Some((id, folder))
    ensures
      var s1 := Run(Machine(s, Idle, Resting), before).sys;
      var s2 := Run(Run(Machine(s, Idle, Resting), before), after).sys;
      && t in s2.records && s2.records[t] == s1.records[t] && CouplingRuns.NameByName(s2, t, id, folder)
      && BucketsKept(s1.host.buckets, s2.host.buckets)
  {
    hide Inv, CouplingRuns.NameByName, AllAllowed, Run, BucketsKept, CouplingRuns.Initial, BackupOk, RestoreOk;
    var m := Machine(s, Idle, Resting);
    CouplingRuns.InitialInv(s);
    StartOk(s);
    InterleavedKeepsInv(m, before);
    InterleavedKeepsInv(Run(m, before), after);
    CouplingRuns.CompleteAgrees(Run(Run(m, before), after).sys, t, id, folder);
  }

  lemma StartOk(s: System)
    requires Inv(s)
    ensures MachineInv(Machine(s, Idle, Resting))
  {
    hide Inv;
  }
}
