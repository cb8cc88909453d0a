/** pkg/controller/restore/restore_controller.go and CopyFromGCS: list a backup's keys, copy each into the
    pod, and run the restore command. */
module Restore {
  import opened Basics
  import opened Storage
  import opened Remote
  import opened Backup

  /** The initial value of the package variable RestoreDir. */
  const RESTORE_DIR := "/var/lib/influxdb/restore"

  datatype RestoreSpec = RestoreSpec(
    database: string, restoreTo: string, backupId: string, storage: StorageSpec, podName: string, rp: string,
    newRp: string, shard: string)

  /** What surrounds one restore run: whether clients can be made, the order in which the bucket's keys are
      listed and whether listing works, the fault of each key's copy, whether the pod is found running when the
      command is due, and whether the command succeeds. */
  datatype RestoreTurn = RestoreTurn(setupOk: bool, order: seq<string>, listOk: bool, faults: seq<CopyFault>,
                                     podOk: bool, execOk: bool)

  function RestoreCommand(spec: RestoreSpec, restoreDir: string): seq<string> {
    var c := WithFlag(["influxd", "restore", "-portable"], spec.database != "", "-db", spec.database);
    var c := WithFlag(c, spec.restoreTo != "", "-newdb", spec.restoreTo);
    var c := WithFlag(c, spec.rp != "" && spec.database != "", "-rp", spec.rp);
    var c := WithFlag(c, spec.newRp != "" && spec.rp != "", "-newrp", spec.newRp);
    var c := WithFlag(c, spec.shard != "" && spec.database != "" && spec.rp != "", "-shard", spec.shard);
    c + [restoreDir + "/" + spec.backupId]
  }

  function RemoteFolder(folder: string, id: string): string {
    folder + "/" + id
  }

  function DestinationBase(ns: string, podName: string, restoreDir: string, id: string): string {
    ns + "/" + podName + ":" + restoreDir + "/" + id
  }

  /** The keys a provider lists for a remote folder. */
  function ListingOf(provider: string, order: seq<string>, remoteFolder: string): seq<string> {
    if provider == "s3" then S3Listing(order, remoteFolder) else GcsListing(order, remoteFolder)
  }

  function CopyFaultAt(faults: seq<CopyFault>, i: nat): CopyFault {
    if i < |faults| then faults[i] else Smooth
  }

  /** Copying one key into the pod. */
  function CopiedKey(h: Host, bucket: Bucket, key: string, remoteFolder: string, base: string, fault: CopyFault):
    (Host, bool)
  {
    if key !in bucket || fault.Unfetched? then (h, false)
    else
      var (h', ok) := CopiedTo(h, base + TrimPrefix(key, remoteFolder), bucket[key], !fault.DirOnly?);
      (h', ok && !fault.Unconfirmed?)
  }

  /** The copy loop from key number i on; both providers run the same one. The count is how many keys
      were copied without an error. */
  function CopiedKeys(h: Host, bucket: Bucket, keys: seq<string>, i: nat, remoteFolder: string, base: string,
                      faults: seq<CopyFault>): (Host, nat)
    requires i <= |keys|
    decreases |keys| - i
  {
    if i == |keys| then (h, i)
    else
      var (h', ok) := CopiedKey(h, bucket, keys[i], remoteFolder, base, CopyFaultAt(faults, i));
      if !ok then (h', i) else CopiedKeys(h', bucket, keys, i + 1, remoteFolder, base, faults)
  }

  /** The result of one Reconcile of a Restore object; `ran` is the command it ran in the pod. */
  datatype Restored = Restored(host: Host, restoreDir: string, ran: Option<seq<string>>, status: Status)

  function Finish(h: Host, restoreDir: string, ns: string, spec: RestoreSpec, turn: RestoreTurn): Restored {
    if PodId(ns, spec.podName) !in h.pods || !turn.podOk then Restored(h, restoreDir, None, Erred)
    else Restored(h, restoreDir, Some(RestoreCommand(spec, restoreDir)), if turn.execOk then Fine else Erred)
  }

  /** Fetching the object of key number n fails. */
  predicate FetchFails(bucket: Bucket, keys: seq<string>, n: nat, faults: seq<CopyFault>) {
    n < |keys| && (keys[n] !in bucket || CopyFaultAt(faults, n).Unfetched?)
  }

  /** How a loop that stopped at key number n ends: on S3 the code reads the size before it looks at the error, so
      a failed fetch is a nil dereference. */
  function LoopStatus(provider: string, bucket: Bucket, keys: seq<string>, n: nat, faults: seq<CopyFault>): Status {
    if n >= |keys| then Fine else if provider == "s3" && FetchFails(bucket, keys, n, faults) then Panicked else Erred
  }

  function RestorePass(h: Host, restoreDir: string, ns: string, spec: RestoreSpec, turn: RestoreTurn): Restored {
    var target := Target(spec.storage);
    if !turn.setupOk then Restored(h, restoreDir, None, Erred)
    else if target.None? then
      Finish(h, if spec.storage.provider == "pv" then BACKUP_DIR else restoreDir, ns, spec, turn)
    else
      var (id, folder) := target.value;
      if id !in h.buckets || !turn.listOk then Restored(h, restoreDir, None, Erred)
      else
        var keys := ListingOf(id.provider, turn.order, RemoteFolder(folder, spec.backupId));
        var (h', n) := CopiedKeys(h, h.buckets[id], keys, 0, RemoteFolder(folder, spec.backupId),
                                  DestinationBase(ns, spec.podName, restoreDir, spec.backupId), turn.faults);
        var status := LoopStatus(id.provider, h.buckets[id], keys, n, turn.faults);
        if status != Fine then Restored(h', restoreDir, None, status) else Finish(h', restoreDir, ns, spec, turn)
  }

  class ReconcileRestore {
    const k8s: K8sClient
    var restoreDir: string
    ghost var ran: Option<seq<string>>

    constructor (k8s: K8sClient)
      ensures this.k8s == k8s && restoreDir == RESTORE_DIR && ran == None
    {
      this.k8s, restoreDir, ran := k8s, RESTORE_DIR, None;
    }

    method BuildCommand(spec: RestoreSpec) returns (command: seq<string>)
      ensures command == RestoreCommand(spec, restoreDir)
    {
      command := ["influxd", "restore", "-portable"];
      if spec.database != "" {
        command := command + ["-db", spec.database];
      }
      if spec.restoreTo != "" {
        command := command + ["-newdb", spec.restoreTo];
      }
      if spec.rp != "" && spec.database != "" {
        command := command + ["-rp", spec.rp];
      }
      if spec.newRp != "" && spec.rp != "" {
        command := command + ["-newrp", spec.newRp];
      }
      if spec.shard != "" && spec.database != "" && spec.rp != "" {
        command := command + ["-shard", spec.shard];
      }
      command := command + [restoreDir + "/" + spec.backupId];
    }

    /** The loop over the listed keys. */
    method CopyKeys(id: BucketId, keys: seq<string>, remoteFolder: string, base: string, faults: seq<CopyFault>)
      returns (status: Status)
      requires id in k8s.host.buckets
      modifies k8s
      ensures
        var bucket := old(k8s.host).buckets[id];
        var (h, n) := CopiedKeys(old(k8s.host), bucket, keys, 0, remoteFolder, base, faults);
        k8s.host == h && n <= |keys| && status == LoopStatus(id.provider, bucket, keys, n, faults)
    {
      hide CopiedTo;
      ghost var h0 := k8s.host;
      var bucket := k8s.host.buckets[id];
      for i := 0 to |keys|
        invariant CopiedKeys(h0, bucket, keys, 0, remoteFolder, base, faults)
               == CopiedKeys(k8s.host, bucket, keys, i, remoteFolder, base, faults)
      {
        var localFileName := TrimPrefix(keys[i], remoteFolder);
        if keys[i] !in bucket || CopyFaultAt(faults, i).Unfetched? {
          return if id.provider == "s3" then Panicked else Erred;
        }
        var destination := base + localFileName;
        var ok := k8s.CopyToK8s(destination, bucket[keys[i]], !CopyFaultAt(faults, i).DirOnly?);
        if !ok || CopyFaultAt(faults, i).Unconfirmed? {
          return Erred;
        }
      }
      return Fine;
    }

    method Reconcile(ns: string, spec: RestoreSpec, turn: RestoreTurn) returns (status: Status)
      modifies this, k8s
      ensures Restored(k8s.host, restoreDir, ran, status) == RestorePass(old(k8s.host), old(restoreDir), ns, spec, turn)
    {
      hide CopiedKeys, RestoreCommand, LoopStatus;
      ran := None;
      if !turn.setupOk {
        return Erred;
      }
      var target := Target(spec.storage);
      if target.Some? {
        var (id, folder) := target.value;
        if id !in k8s.host.buckets || !turn.listOk {
          return Erred;
        }
        var remoteFolder := RemoteFolder(folder, spec.backupId);
        var keys;
        if id.provider == "s3" {
          keys := ListS3(S3Page(turn.order, remoteFolder));
        } else {
          keys := ListGcs(turn.order, remoteFolder);
        }
        status := CopyKeys(id, keys, remoteFolder, DestinationBase(ns, spec.podName, restoreDir, spec.backupId),
                           turn.faults);
        if status != Fine {
          return;
        }
      } else if spec.storage.provider == "pv" {
        restoreDir := BACKUP_DIR;
      }
      if PodId(ns, spec.podName) !in k8s.host.pods || !turn.podOk {
        return Erred;
      }
      var command := BuildCommand(spec);
      ran := Some(command);
      return if turn.execOk then Fine else Erred;
    }
  }

  lemma {:induction false} CountBounded(h: Host, bucket: Bucket, keys: seq<string>, i: nat, remoteFolder: string,
                                        base: string, faults: seq<CopyFault>)
    requires i <= |keys|
    ensures i <= CopiedKeys(h, bucket, keys, i, remoteFolder, base, faults).1 <= |keys|
    decreases |keys| - i
  {
    hide CopiedKey;
    if i < |keys| {
      CountBounded(CopiedKey(h, bucket, keys[i], remoteFolder, base, CopyFaultAt(faults, i)).0, bucket, keys, i + 1,
                   remoteFolder, base, faults);
    }
  }
}
