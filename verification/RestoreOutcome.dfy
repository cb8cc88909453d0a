/** When a restore pass runs its command, and when it reports success. */
module RestoreOutcome {
  import opened Basics
  import Copy
  import opened Storage
  import opened Remote
  import opened Backup
  import opened Restore

  /** A restore that copies nothing, of pv or any other provider, runs its command exactly if the clients can be made
      and the pod is there and running, however often it was run before; it succeeds exactly if the command does, and
      changes no file. */
  lemma UntargetedPass(h: Host, restoreDir: string, ns: string, spec: RestoreSpec, turn: RestoreTurn)
    requires spec.storage.provider != "s3" && spec.storage.provider != "gcs"
    ensures
      var r := RestorePass(h, restoreDir, ns, spec, turn);
      && r.host == h
      && (r.ran.Some? <==> turn.setupOk && PodId(ns, spec.podName) in h.pods && turn.podOk)
      && (r.status == Fine <==> r.ran.Some? && turn.execOk)
      && !r.status.Panicked?
      && r.restoreDir == (if turn.setupOk && spec.storage.provider == "pv" then BACKUP_DIR else restoreDir)
      && (r.ran.Some? ==> r.ran.value == RestoreCommand(spec, r.restoreDir))
  {
    hide RestoreCommand;
  }

  lemma CopiedKeyPodNames(h: Host, bucket: Bucket, key: string, remoteFolder: string, base: string, fault: CopyFault)
    ensures CopiedKey(h, bucket, key, remoteFolder, base, fault).0.pods.Keys == h.pods.Keys
  {
    hide Copy.ExtractFileSpec, Received;
  }

  lemma {:induction false} LoopPodNames(h: Host, bucket: Bucket, keys: seq<string>, i: nat, remoteFolder: string,
                                        base: string, faults: seq<CopyFault>)
    requires i <= |keys|
    ensures CopiedKeys(h, bucket, keys, i, remoteFolder, base, faults).0.pods.Keys == h.pods.Keys
    decreases |keys| - i
  {
    hide CopiedKey;
    if i < |keys| {
      CopiedKeyPodNames(h, bucket, keys[i], remoteFolder, base, CopyFaultAt(faults, i));
      LoopPodNames(CopiedKey(h, bucket, keys[i], remoteFolder, base, CopyFaultAt(faults, i)).0, bucket, keys, i + 1,
                   remoteFolder, base, faults);
    }
  }

  /** No restore runs its command without its clients, its bucket and listing, and its pod running; and none succeeds
      unless the command was run and succeeded. */
  lemma CommandNeeds(h: Host, restoreDir: string, ns: string, spec: RestoreSpec, turn: RestoreTurn)
    ensures
      var r := RestorePass(h, restoreDir, ns, spec, turn);
      && (r.ran.Some? ==> turn.setupOk && turn.podOk && PodId(ns, spec.podName) in h.pods)
      && (r.ran.Some? && Target(spec.storage).Some? ==> turn.listOk && Target(spec.storage).value.0 in h.buckets)
      && (r.status == Fine <==> r.ran.Some? && turn.execOk)
      && (r.ran.Some? ==> r.ran.value == RestoreCommand(spec, r.restoreDir))
  {
    hide RestoreCommand, CopiedKeys, ListingOf, RemoteFolder, DestinationBase, LoopStatus;
    if Target(spec.storage).Some? && Target(spec.storage).value.0 in h.buckets {
      var (id, folder) := Target(spec.storage).value;
      LoopPodNames(h, h.buckets[id], ListingOf(id.provider, turn.order, RemoteFolder(folder, spec.backupId)), 0,
                   RemoteFolder(folder, spec.backupId), DestinationBase(ns, spec.podName, restoreDir, spec.backupId),
                   turn.faults);
    }
  }
}
