/** Each provider goes by its own section of the storage spec: which objects a backup writes, and which a restore can
    be affected by. */
module ProviderSections {
  import opened Basics
  import opened FileTree
  import Copy
  import opened Paths
  import opened Storage
  import opened Remote
  import opened Backup
  import opened Restore
  import opened Coupling
  import CouplingBackup

  /** `id` is the bucket that the spec names for its provider, and `folder` the folder. */
  predicate Names(spec: StorageSpec, id: BucketId, folder: string) {
    || (spec.provider == "s3" && id.provider == "s3" && id.name == spec.s3.bucket && folder == spec.s3.folder)
    || (spec.provider == "gcs" && id.provider == "gcs" && id.name == spec.gcs.bucket && folder == spec.gcs.folder)
  }

  predicate SameObject(before: Bucket, after: Bucket, key: string) {
    (key in before <==> key in after) && (key in before ==> after[key] == before[key])
  }

  // ---- Backups -----------------------------------------------------------------------------------------------

  lemma CopyLeavesBuckets(h: Host, src: string, dest: string, run: TarRun)
    ensures CopiedFrom(h, src, dest, run).0.buckets == h.buckets
  {
    hide Copy.ExtractFileSpec, Resolve, Clean;
  }

  lemma RunLeavesBuckets(h: Host, ns: string, spec: BackupSpec, turn: BackupTurn)
    ensures BackupRun(h, ns, spec, turn).0.buckets == h.buckets
  {
    hide BackupCommand, WriteDir, Resolve;
  }

  lemma ShippedWhere(h: Host, ns: string, spec: BackupSpec, turn: BackupTurn, target: (BucketId, string), id: BucketId,
                     key: string)
    requires id in h.buckets
    ensures
      var h' := Shipped(h, ns, spec, turn, target).0;
      && h'.buckets.Keys == h.buckets.Keys
      && (!SameObject(h.buckets[id], h'.buckets[id], key) ==>
            id == target.0 && exists n :: n in turn.listing && key == target.1 + "/" + turn.time + "/" + n)
  {
    hide CopiedFrom, Uploaded, LocalFolder, SourceSpec, Resolve;
    CopyLeavesBuckets(h, SourceSpec(ns, spec.podName, turn.time), LocalFolder(h, turn.time), turn.tar);
    if target.0 in h.buckets {
      var h1 := CopiedFrom(h, SourceSpec(ns, spec.podName, turn.time), LocalFolder(h, turn.time), turn.tar).0;
      CouplingBackup.UploadedEffect(h.buckets[target.0], h1.local, LocalFolder(h, turn.time),
                                    target.1 + "/" + turn.time, turn.listing, 0, turn.faults);
    }
  }

  /** A backup changes objects of its own provider's bucket only, and there only under that section's folder, its own id
      and the name of a file that it found; to a provider that is neither s3 nor gcs it changes none. */
  lemma BackupWritesWhere(h: Host, ns: string, spec: BackupSpec, turn: BackupTurn, id: BucketId, key: string)
    requires id in h.buckets
    ensures
      var h' := BackupPass(h, ns, spec, turn).0;
      && h'.buckets.Keys == h.buckets.Keys
      && (!SameObject(h.buckets[id], h'.buckets[id], key) ==>
            exists folder, n :: n in turn.listing && Names(spec.storage, id, folder)
                                && key == folder + "/" + turn.time + "/" + n)
  {
    hide BackupRun, MkdirAll, Resolve, LocalFolder, Shipped, SameObject;
    RunLeavesBuckets(h, ns, spec, turn);
    Same(h.buckets[id], key);
    var (h1, ran) := BackupRun(h, ns, spec, turn);
    var made := MkdirAll(h1.local, Resolve(LocalFolder(h, turn.time)));
    if turn.setupOk && ran == Fine && made.Some? && Target(spec.storage).Some? {
      var h2 := h1.(local := made.value);
      var target := Target(spec.storage).value;
      ShippedWhere(h2, ns, spec, turn, target, id, key);
      assert Names(spec.storage, target.0, target.1);
    }
  }

  lemma Same(bucket: Bucket, key: string)
    ensures SameObject(bucket, bucket, key)
  {
  }

  // ---- Restores ------------------------------------------------------------------------------------------------

  /** Two hosts that a restore of this spec cannot tell apart: the same pods, and in its provider's bucket the same
      objects under that section's folder and the id that it asks for. */
  ghost predicate AlikeFor(h: Host, h': Host, spec: RestoreSpec) {
    && h.pods == h'.pods
    && forall id, folder | Names(spec.storage, id, folder) ::
         && (id in h.buckets <==> id in h'.buckets)
         && (id in h.buckets ==>
               forall key: string | folder + "/" + spec.backupId <= key ::
                 SameObject(h.buckets[id], h'.buckets[id], key))
  }

  lemma KeySame(h: Host, h': Host, bucket: Bucket, bucket': Bucket, key: string, remoteFolder: string, base: string,
                fault: CopyFault)
    requires h.pods == h'.pods && SameObject(bucket, bucket', key)
    ensures CopiedKey(h, bucket, key, remoteFolder, base, fault).0.pods
         == CopiedKey(h', bucket', key, remoteFolder, base, fault).0.pods
    ensures CopiedKey(h, bucket, key, remoteFolder, base, fault).1
         == CopiedKey(h', bucket', key, remoteFolder, base, fault).1
  {
    hide Copy.ExtractFileSpec, Received;
  }

  lemma {:induction false} LoopSame(h: Host, h': Host, bucket: Bucket, bucket': Bucket, keys: seq<string>, i: nat,
                                    remoteFolder: string, base: string, faults: seq<CopyFault>)
    requires i <= |keys| && h.pods == h'.pods && forall k | k in keys :: SameObject(bucket, bucket', k)
    ensures CopiedKeys(h, bucket, keys, i, remoteFolder, base, faults).0.pods
         == CopiedKeys(h', bucket', keys, i, remoteFolder, base, faults).0.pods
    ensures CopiedKeys(h, bucket, keys, i, remoteFolder, base, faults).1
         == CopiedKeys(h', bucket', keys, i, remoteFolder, base, faults).1
    decreases |keys| - i
  {
    hide CopiedKey, SameObject;
    if i < |keys| {
      assert keys[i] in keys;
      var fault := CopyFaultAt(faults, i);
      KeySame(h, h', bucket, bucket', keys[i], remoteFolder, base, fault);
      LoopSame(CopiedKey(h, bucket, keys[i], remoteFolder, base, fault).0,
               CopiedKey(h', bucket', keys[i], remoteFolder, base, fault).0, bucket, bucket', keys, i + 1, remoteFolder,
               base, faults);
    }
  }

  /** What a restore does to the pods, which command it runs and how it ends depends on nothing in the buckets but the
      objects under its own provider's folder and its id. */
  lemma RestoreReadsWhere(h: Host, h': Host, restoreDir: string, ns: string, spec: RestoreSpec, turn: RestoreTurn)
    requires AlikeFor(h, h', spec)
    ensures
      var r, r' := RestorePass(h, restoreDir, ns, spec, turn), RestorePass(h', restoreDir, ns, spec, turn);
      && r.host.pods == r'.host.pods && r.ran == r'.ran && r.status == r'.status && r.restoreDir == r'.restoreDir
  {
    hide CopiedKeys, ListingOf, RestoreCommand, DestinationBase, SameObject;
    var target := Target(spec.storage);
    if target.Some? {
      var (id, folder) := target.value;
      assert Names(spec.storage, id, folder);
      if id in h.buckets {
        var keys := ListingOf(id.provider, turn.order, RemoteFolder(folder, spec.backupId));
        ListedKeysHavePrefix(id.provider, turn.order, RemoteFolder(folder, spec.backupId));
        LoopSame(h, h', h.buckets[id], h'.buckets[id], keys, 0, RemoteFolder(folder, spec.backupId),
                 DestinationBase(ns, spec.podName, restoreDir, spec.backupId), turn.faults);
        FetchSame(h.buckets[id], h'.buckets[id], keys, turn.faults);
      }
    }
  }

  lemma FetchSame(bucket: Bucket, bucket': Bucket, keys: seq<string>, faults: seq<CopyFault>)
    requires forall k | k in keys :: SameObject(bucket, bucket', k)
    ensures forall n: nat :: FetchFails(bucket, keys, n, faults) <==> FetchFails(bucket', keys, n, faults)
  {
    forall n: nat | n < |keys| ensures SameObject(bucket, bucket', keys[n]) {
      assert keys[n] in keys;
    }
  }
}
