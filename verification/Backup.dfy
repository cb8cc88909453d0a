/** pkg/controller/backup/backup_controller.go: run the backup command in the pod, copy its directory out,
    and upload it file by file. */
module Backup {
  import opened Basics
  import opened Paths
  import opened FileTree
  import Copy
  import Archive
  import TreeCopy
  import opened Storage
  import opened Remote

  const BACKUP_DIR := "/var/lib/influxdb/backup"

  datatype Location = Location(bucket: string, folder: string)

  datatype StorageSpec = StorageSpec(provider: string, s3: Location, gcs: Location)

  /** Where a spec stores its objects: nowhere unless the provider is s3 or gcs. */
  function Target(spec: StorageSpec): Option<(BucketId, string)> {
    if spec.provider == "s3" then Some((BucketId("s3", spec.s3.bucket), spec.s3.folder))
    else if spec.provider == "gcs" then Some((BucketId("gcs", spec.gcs.bucket), spec.gcs.folder))
    else None
  }

  datatype BackupSpec = BackupSpec(
    databases: Option<seq<string>>, storage: StorageSpec, podName: string, retention: string, shard: string,
    start: string, end: string, since: string)

  function WithFlag(command: seq<string>, cond: bool, flag: string, value: string): seq<string> {
    if cond then command + [flag, value] else command
  }

  /** The backup command; None is the panic on an empty, non-nil list of databases. */
  function BackupCommand(spec: BackupSpec, time: string): Option<seq<string>> {
    if spec.databases == Some([]) then None
    else
      var database := if spec.databases.Some? then spec.databases.value[0] else "";
      var c := WithFlag(["influxd", "backup", "-portable"], database != "", "-database", database);
      var c := WithFlag(c, spec.databases.Some? && spec.retention != "", "--retention", spec.retention);
      var c := WithFlag(c, spec.retention != "" && spec.shard != "", "-shard", spec.shard);
      var c := WithFlag(c, spec.start != "", "-start", spec.start);
      var c := WithFlag(c, spec.end != "", "-end", spec.end);
      var c := WithFlag(c, spec.start == "" && spec.end == "" && spec.since != "", "-since", spec.since);
      Some(c + [BACKUP_DIR + "/" + time])
  }

  /** What surrounds one backup run: the second it starts in, the files the command leaves and whether it
      succeeds, the tar run, the order of the directory listing, and the faults of the uploads. */
  datatype BackupTurn = BackupTurn(
    time: string, written: map<string, Bytes>, execOk: bool, setupOk: bool, tar: TarRun, listing: seq<string>,
    faults: seq<Fault>)

  function FaultAt(faults: seq<Fault>, i: nat): Fault {
    if i < |faults| then faults[i] else NoFault
  }

  /** Files by name, as nodes of a directory. */
  function FilesAt(d: seq<string>, files: map<string, Bytes>): map<seq<string>, Node> {
    map p | p in (set n | n in files :: d + [n]) :: File(files[p[|p| - 1]])
  }

  /** The files of a backup appear in its directory. */
  function WriteDir(t: Tree, d: seq<string>, files: map<string, Bytes>): Option<Tree> {
    var made := MkdirAll(t, d);
    if made.None? || exists n :: n in files && IsDir(made.value, d + [n]) then None
    else Some(made.value + FilesAt(d, files))
  }

  function BackupRun(h: Host, ns: string, spec: BackupSpec, turn: BackupTurn): (Host, Status) {
    var pod := PodId(ns, spec.podName);
    if BackupCommand(spec, turn.time).None? then (h, Panicked)
    else if pod !in h.pods then (h, Erred)
    else
      var done := WriteDir(h.pods[pod], Resolve(BACKUP_DIR + "/" + turn.time), turn.written);
      if done.None? then (h, Erred) else (h.(pods := h.pods[pod := done.value]), if turn.execOk then Fine else Erred)
  }

  /** The upload loop from file number i on; both providers run the same one. */
  function Uploaded(bucket: Bucket, local: Tree, folder: string, storageKey: string, names: seq<string>, i: nat,
                    faults: seq<Fault>): (Bucket, bool)
    requires i <= |names|
    decreases |names| - i
  {
    if i == |names| then (bucket, true)
    else
      var p := Resolve(folder + "/" + names[i]);
      if !IsFile(local, p) || FaultAt(faults, i).Lost? then (bucket, false)
      else
        var bucket' := bucket[storageKey + "/" + names[i] := local[p].content];
        if FaultAt(faults, i).Applied? then (bucket', false)
        else Uploaded(bucket', local, folder, storageKey, names, i + 1, faults)
  }

  function SourceSpec(ns: string, podName: string, time: string): string {
    ns + "/" + podName + ":" + BACKUP_DIR + "/" + time
  }

  function LocalFolder(h: Host, time: string): string {
    h.tmp + "/influxdb-backup/" + time
  }

  /** Copy out and upload, once the command has run and the local folder exists. */
  function Shipped(h: Host, ns: string, spec: BackupSpec, turn: BackupTurn, target: (BucketId, string)):
    (Host, Status)
  {
    if target.0 !in h.buckets then (h, Erred)
    else
      var (h1, copied) := CopiedFrom(h, SourceSpec(ns, spec.podName, turn.time), LocalFolder(h, turn.time), turn.tar);
      if copied != Fine then (h1, copied)
      else
        var (bucket, ok) := Uploaded(h1.buckets[target.0], h1.local, LocalFolder(h, turn.time),
                                     target.1 + "/" + turn.time, turn.listing, 0, turn.faults);
        (h1.(buckets := h1.buckets[target.0 := bucket]), if ok then Fine else Erred)
  }

  /** One Reconcile of a Backup object. */
  function BackupPass(h: Host, ns: string, spec: BackupSpec, turn: BackupTurn): (Host, Status) {
    if !turn.setupOk then (h, Erred)
    else
      var (h1, ran) := BackupRun(h, ns, spec, turn);
      if ran != Fine then (h1, ran)
      else
        var made := MkdirAll(h1.local, Resolve(LocalFolder(h, turn.time)));
        if made.None? then (h1, Erred)
        else
          var h2 := h1.(local := made.value);
          var target := Target(spec.storage);
          if target.None? then (h2, Fine) else Shipped(h2, ns, spec, turn, target.value)
  }

  class ReconcileBackup {
    const k8s: K8sClient

    constructor (k8s: K8sClient)
      ensures this.k8s == k8s
    {
      this.k8s := k8s;
    }

    method BuildCommand(spec: BackupSpec, time: string) returns (cmd: Option<seq<string>>)
      ensures cmd == BackupCommand(spec, time)
    {
      if spec.databases == Some([]) {
        return None;
      }
      var cmdOpts := ["influxd", "backup", "-portable"];
      if spec.databases.Some? && spec.databases.value[0] != "" {
        cmdOpts := cmdOpts + ["-database", spec.databases.value[0]];
      }
      if spec.databases.Some? && spec.retention != "" {
        cmdOpts := cmdOpts + ["--retention", spec.retention];
      }
      if spec.retention != "" && spec.shard != "" {
        cmdOpts := cmdOpts + ["-shard", spec.shard];
      }
      if spec.start != "" {
        cmdOpts := cmdOpts + ["-start", spec.start];
      }
      if spec.end != "" {
        cmdOpts := cmdOpts + ["-end", spec.end];
      }
      if spec.start == "" && spec.end == "" && spec.since != "" {
        cmdOpts := cmdOpts + ["-since", spec.since];
      }
      return Some(cmdOpts + [BACKUP_DIR + "/" + time]);
    }

    method RunBackup(ns: string, spec: BackupSpec, turn: BackupTurn) returns (status: Status)
      modifies k8s
      ensures (k8s.host, status) == BackupRun(old(k8s.host), ns, spec, turn)
    {
      hide BackupCommand, WriteDir, Resolve;
      var cmdOpts := BuildCommand(spec, turn.time);
      if cmdOpts.None? {
        return Panicked;
      }
      var pod := PodId(ns, spec.podName);
      if pod !in k8s.host.pods {
        return Erred;
      }
      var done := WriteDir(k8s.host.pods[pod], Resolve(BACKUP_DIR + "/" + turn.time), turn.written);
      if done.None? {
        return Erred;
      }
      k8s.host := k8s.host.(pods := k8s.host.pods[pod := done.value]);
      return if turn.execOk then Fine else Erred;
    }

    /** storeInS3 and CopyToGCS. */
    method StoreFolder(id: BucketId, storageKey: string, srcFolder: string, listing: seq<string>, faults: seq<Fault>)
      returns (ok: bool)
      requires id in k8s.host.buckets
      modifies k8s
      ensures
        var (bucket, done) := Uploaded(old(k8s.host).buckets[id], old(k8s.host).local, srcFolder, storageKey, listing,
                                       0, faults);
        k8s.host == old(k8s.host).(buckets := old(k8s.host).buckets[id := bucket]) && ok == done
    {
      hide Resolve;
      ghost var h0 := k8s.host;
      var bucket := k8s.host.buckets[id];
      for i := 0 to |listing|
        invariant k8s.host == h0.(buckets := h0.buckets[id := bucket])
        invariant Uploaded(h0.buckets[id], h0.local, srcFolder, storageKey, listing, 0, faults)
               == Uploaded(bucket, h0.local, srcFolder, storageKey, listing, i, faults)
      {
        var localFile := srcFolder + "/" + listing[i];
        var p := Resolve(localFile);
        if !IsFile(k8s.host.local, p) || FaultAt(faults, i).Lost? {
          return false;
        }
        bucket := bucket[storageKey + "/" + listing[i] := k8s.host.local[p].content];
        k8s.host := k8s.host.(buckets := k8s.host.buckets[id := bucket]);
        if FaultAt(faults, i).Applied? {
          return false;
        }
      }
      return true;
    }

    method Reconcile(ns: string, spec: BackupSpec, turn: BackupTurn) returns (status: Status)
      modifies k8s
      ensures (k8s.host, status) == BackupPass(old(k8s.host), ns, spec, turn)
    {
      hide BackupCommand, WriteDir, Copy.ExtractFileSpec, Archive.Untarred, TreeCopy.ArchiveOf, Uploaded, Resolve;
      if !turn.setupOk {
        return Erred;
      }
      status := RunBackup(ns, spec, turn);
      if status != Fine {
        return;
      }
      var sourceFile := SourceSpec(ns, spec.podName, turn.time);
      var destFile := LocalFolder(k8s.host, turn.time);
      var made := MkdirAll(k8s.host.local, Resolve(destFile));
      if made.None? {
        return Erred;
      }
      k8s.host := k8s.host.(local := made.value);
      var target := Target(spec.storage);
      if target.None? {
        return Fine;
      }
      if target.value.0 !in k8s.host.buckets {
        return Erred;
      }
      status := k8s.CopyFromK8s(sourceFile, destFile, turn.tar);
      if status != Fine {
        return;
      }
      var ok := StoreFolder(target.value.0, target.value.1 + "/" + turn.time, destFile, turn.listing, turn.faults);
      return if ok then Fine else Erred;
    }
  }
}
