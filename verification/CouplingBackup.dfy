/** A backup pass, successful or aborted anywhere, keeps the coupling invariant. */
module CouplingBackup {
  import opened Basics
  import opened Paths
  import opened FileTree
  import Copy
  import Archive
  import opened TreeCopy
  import opened Storage
  import opened Remote
  import opened Backup
  import opened RestorePaths
  import opened Coupling

  // ---- The command's files in the pod ------------------------------------------------------------------

  /** `p` names an entry of directory `d`. */
  predicate EntryOf(p: seq<string>, d: seq<string>) {
    |p| == |d| + 1 && p[..|d|] == d
  }

  lemma FilesAtKeys(d: seq<string>, files: map<string, Bytes>)
    ensures forall n | n in files :: d + [n] in FilesAt(d, files) && FilesAt(d, files)[d + [n]] == File(files[n])
    ensures forall p :: p in FilesAt(d, files) <==> EntryOf(p, d) && p[|d|] in files
  {
    forall p | EntryOf(p, d) && p[|d|] in files ensures p in FilesAt(d, files) {
      assert p == d + [p[|d|]];
    }
  }

  lemma WriteDirEffect(t: Tree, d: seq<string>, files: map<string, Bytes>, t': Tree)
    requires WriteDir(t, d, files) == Some(t')
    ensures forall n | n in files :: d + [n] in t' && t'[d + [n]] == File(files[n])
    ensures forall p | p in t && !(EntryOf(p, d) && p[|d|] in files) :: p in t' && t'[p] == t[p]
    ensures forall p | IsFile(t', p) && !(EntryOf(p, d) && p[|d|] in files) :: p in t && t'[p] == t[p]
    ensures IsDir(t', d)
  {
    hide MkdirAll, FilesAt;
    MkdirEffect(t, d, MkdirAll(t, d).value);
    assert AtOrAbove(d, d);
    FilesAtKeys(d, files);
  }

  lemma FreshRecordKeepsAgreement(pods: map<PodId, Tree>, records: Records, t: string, record: Record)
    requires FilesAgree(pods, records) && FilesKept(pods, records) && t !in records && record.files == map[]
    ensures FilesAgree(pods, records[t := record]) && FilesKept(pods, records[t := record])
  {
    var records' := records[t := record];
    forall t', n | t' in records' && n in records'[t'].files ensures FileKept(pods, records', t', n) {
      assert FileKept(pods, records, t', n);
    }
  }

  lemma PathLengths()
    ensures |BACKUP_PATH| == 4 && |RESTORE_PATH| == 4
  {
  }

  lemma WriteDirKeepsFiles(pods: map<PodId, Tree>, records: Records, pod: PodId, tree: Tree, t: string, record: Record)
    requires FilesKept(pods, records) && t !in records && pod in pods
    requires WriteDir(pods[pod], BackupPath(t), record.files) == Some(tree) && record.pod == pod
    ensures FilesKept(pods[pod := tree], records[t := record])
  {
    hide WriteDir, BACKUP_PATH;
    WriteDirEffect(pods[pod], BackupPath(t), record.files, tree);
    var pods', records' := pods[pod := tree], records[t := record];
    forall t', n | t' in records' && n in records'[t'].files ensures FileKept(pods', records', t', n) {
      if t' != t {
        assert FileKept(pods, records, t', n);
        var p := BackupPath(t') + [n];
        assert p[..|BackupPath(t)|] == BackupPath(t');
        assert BackupPath(t')[|BACKUP_PATH|] == t' && BackupPath(t)[|BACKUP_PATH|] == t;
      }
    }
  }

  lemma WriteDirKeepsAgreement(pods: map<PodId, Tree>, records: Records, pod: PodId, tree: Tree, t: string,
                               record: Record)
    requires FilesAgree(pods, records) && t !in records && pod in pods
    requires WriteDir(pods[pod], BackupPath(t), record.files) == Some(tree)
    ensures FilesAgree(pods[pod := tree], records[t := record])
  {
    hide WriteDir, IsId, BACKUP_PATH, RESTORE_PATH;
    WriteDirEffect(pods[pod], BackupPath(t), record.files, tree);
    PathLengths();
    var pods', records' := pods[pod := tree], records[t := record];
    forall p | IsFile(tree, p) && Watched(p) ensures IsBackupFile(records', p[4], p[5], tree[p].content) {
      if EntryOf(p, BackupPath(t)) && p[5] in record.files {
        assert p == BackupPath(t) + [p[5]];
        assert p[4] == BackupPath(t)[4] == t;
      } else {
        assert IsFile(pods[pod], p);
      }
    }
  }

  /** After the command has run, whatever came of it, the pods agree with the records. */
  lemma BackupRunKeepsAgreement(s: System, ns: string, spec: BackupSpec, turn: BackupTurn, record: Record)
    requires Inv(s) && IsId(turn.time) && turn.time !in s.records
    requires record.files == Left(s.host, ns, spec, turn) && record.pod == PodId(ns, spec.podName)
    ensures
      var pods := if turn.setupOk then BackupRun(s.host, ns, spec, turn).0.pods else s.host.pods;
      FilesAgree(pods, s.records[turn.time := record]) && FilesKept(pods, s.records[turn.time := record])
  {
    hide FilesAgree, FilesKept, BucketsAgree, CompleteStored, LocalOk, RecordsOk, Resolve, WriteDir, BackupCommand,
         BackupPath;
    IdIsGood(turn.time);
    BackupPathResolves(turn.time);
    if record.files == map[] && (!turn.setupOk || BackupRun(s.host, ns, spec, turn).0 == s.host) {
      FreshRecordKeepsAgreement(s.host.pods, s.records, turn.time, record);
    } else {
      var pod := PodId(ns, spec.podName);
      var tree := WriteDir(s.host.pods[pod], BackupPath(turn.time), turn.written).value;
      WriteDirKeepsAgreement(s.host.pods, s.records, pod, tree, turn.time, record);
      WriteDirKeepsFiles(s.host.pods, s.records, pod, tree, turn.time, record);
    }
  }

  lemma BackupPathResolves(t: string)
    requires IsId(t)
    ensures Resolve(BACKUP_DIR + "/" + t) == BackupPath(t) && AllGood(BackupPath(t)) && |BackupPath(t)| == 5
    ensures Clean(BACKUP_DIR + "/" + t) == Render(BackupPath(t))
  {
    hide Resolve, IsId;
    IdIsGood(t);
    DirResolves(BACKUP_DIR);
    ResolveChild(BACKUP_DIR, t);
    assert Rooted(BACKUP_DIR + "/" + t);
  }

  // ---- The copy in the operator's own directory ----------------------------------------------------------

  lemma LocalFolderResolves(h: Host, t: string)
    requires IsId(t) && Rooted(h.tmp) && ':' !in h.tmp
    ensures Resolve(LocalFolder(h, t)) == LocalPath(h) + [t] && Rooted(LocalFolder(h, t))
    ensures Copy.ExtractFileSpec(LocalFolder(h, t)) == Some(Copy.FileSpec("", "", LocalFolder(h, t)))
  {
    hide Resolve, IsId;
    IdIsGood(t);
    assert Good("influxdb-backup");
    ResolveChild(h.tmp, "influxdb-backup");
    ResolveChild(h.tmp + "/" + "influxdb-backup", t);
    assert LocalFolder(h, t) == h.tmp + "/" + "influxdb-backup" + "/" + t;
    assert ':' !in "/influxdb-backup/";
    assert ':' !in LocalFolder(h, t);
  }

  lemma SourceResolves(ns: string, podName: string, t: string)
    requires IsId(t) && Copy.ValidName(ns) && Copy.ValidName(podName)
    ensures Copy.ExtractFileSpec(SourceSpec(ns, podName, t)) == Some(Copy.FileSpec(ns, podName, BACKUP_DIR + "/" + t))
  {
    hide Copy.ExtractFileSpec;
    Copy.FileSpecRoundTrip(ns, podName, BACKUP_DIR + "/" + t);
    assert SourceSpec(ns, podName, t) == ns + "/" + podName + ":" + (BACKUP_DIR + "/" + t);
  }

  lemma BelowChild(base: seq<string>, t: string, p: seq<string>)
    requires AtOrAbove(base + [t], p)
    ensures Above(base, p) && p[|base|] == t
  {
    var d := base + [t];
    assert p[..|base|] == p[..|d|][..|base|] == base;
    assert p[|base|] == p[..|d|][|base|];
  }

  lemma MadeFolder(h: Host, records: Records, t: string, local: Tree)
    requires LocalOk(h.local, LocalPath(h), records) && t !in records
    requires MkdirAll(h.local, LocalPath(h) + [t]) == Some(local)
    ensures Clear(local, LocalPath(h) + [t])
    ensures forall p | AtOrAbove(p, LocalPath(h)) :: !IsFile(local, p)
    ensures forall p | p in local && Above(LocalPath(h), p) :: p[|LocalPath(h)|] in records || p[|LocalPath(h)|] == t
  {
    hide LocalPath, MkdirAll;
    var base := LocalPath(h);
    var d := base + [t];
    MkdirEffect(h.local, d, local);
    forall p | Above(d, p) ensures Above(base, p) && p[|base|] == t {
      BelowChild(base, t, p);
    }
    forall p | AtOrAbove(p, d) && Above(base, p) ensures p[|base|] == t {
      assert p == d[..|p|];
    }
    forall p | AtOrAbove(p, d) ensures AtOrAbove(p, base) || p == d {
      if |p| <= |base| {
        assert d[..|p|] == base[..|p|];
      }
    }
  }

  /** The operator's copy of a backup is below its own folder. */
  lemma CopyStaysBelow(local: Tree, local': Tree, d: seq<string>, items: seq<Item>, p: seq<string>)
    requires IsListing(items) && IsCopy(local, local', d, items) && Clear(local, d)
    requires p in local' && p !in local
    ensures AtOrAbove(p, d) || (Above(d, p) && Good(p[|d|]))
    ensures AtOrAbove(p, d) ==> IsDir(local', p)
  {
    assert Expected(local', d, items, p);
    var i :| 0 <= i < |items| && AtOrAbove(p, d + items[i].rel) && (IsDir(local', p) || p == d + items[i].rel);
    BelowD(d, items[i].rel);
    AboveChain(p, d, d + items[i].rel);
    if Above(d, p) {
      assert p[|d|] == (d + items[i].rel)[..|p|][|d|] == items[i].rel[0];
    } else if p == d + items[i].rel {
      assert items[i].rel == [];
      assert items[0].rel == [];
    }
  }

  lemma CopyKeepsLocal(local: Tree, local': Tree, base: seq<string>, t: string, records: Records, items: seq<Item>,
                       record: Record)
    requires IsListing(items) && IsCopy(local, local', base + [t], items) && Clear(local, base + [t])
    requires forall p | AtOrAbove(p, base) :: !IsFile(local, p)
    requires forall p | p in local && Above(base, p) :: p[|base|] in records || p[|base|] == t
    ensures LocalOk(local', base, records[t := record])
  {
    var d := base + [t];
    forall p | p in local' ensures (AtOrAbove(p, base) ==> !IsFile(local', p))
                                && (Above(base, p) ==> p[|base|] in records || p[|base|] == t) {
      if p !in local {
        CopyStaysBelow(local, local', d, items, p);
        if Above(d, p) {
          assert p[|base|] == p[..|d|][|base|] == t;
        } else if |p| > |base| {
          assert p == d;
        } else {
          assert AtOrAbove(p, base) ==> AtOrAbove(p, d);
        }
      }
    }
  }

  /** Copying out either does nothing or leaves a copy of the pod's directory. */
  lemma CopyOut(h: Host, ns: string, podName: string, t: string, run: TarRun)
    requires IsId(t) && Copy.ValidName(ns) && Copy.ValidName(podName) && Rooted(h.tmp) && ':' !in h.tmp
    requires IsListing(run.items) && Clear(h.local, LocalPath(h) + [t])
    ensures
      var (h', status) := CopiedFrom(h, SourceSpec(ns, podName, t), LocalFolder(h, t), run);
      && h' == h.(local := h'.local)
      && !status.Panicked?
      && (!status.Fine? ==> h' == h)
      && (status.Fine? <==> run.ok && PodId(ns, podName) in h.pods)
      && (status.Fine? ==> IsCopy(h.local, h'.local, LocalPath(h) + [t], run.items))
  {
    hide Resolve, Copy.ExtractFileSpec, IsListing, IsCopy, Clear, IsId, LocalFolder, SourceSpec, Archive.Untarred,
         ArchiveOf, Clean, Render;
    SourceResolves(ns, podName, t);
    LocalFolderResolves(h, t);
    BackupPathResolves(t);
    ExtractionCopiesTree(h.local, LocalFolder(h, t), BackupPath(t), run.stripped, run.items);
  }

  /** The copy holds the files directly below the directory: those, all of those, and their contents. */
  lemma CopyHolds(local: Tree, local': Tree, d: seq<string>, tree: Tree, base: seq<string>, items: seq<Item>, n: string)
    requires Clear(local, d) && IsCopy(local, local', d, items) && Faithful(tree, base, items)
    ensures IsFile(local', d + [n]) ==> IsFile(tree, base + [n]) && tree[base + [n]] == local'[d + [n]]
    ensures base + [n] in tree ==> d + [n] in local'
    ensures d + [n] in local' ==> Good(n)
  {
    var p := d + [n];
    assert Above(d, p);
    if p in local' {
      assert Expected(local', d, items, p);
      var i :| 0 <= i < |items| && AtOrAbove(p, d + items[i].rel) && (IsDir(local', p) || p == d + items[i].rel);
      assert items[i].rel[0] == (d + items[i].rel)[..|p|][|d|] == n;
      if p == d + items[i].rel {
        JoinedAbove(d, [n], items[i].rel);
      }
    }
    if base + [n] in tree {
      BelowD(base, [n]);
      var i :| 0 <= i < |items| && base + [n] == base + items[i].rel;
      JoinedAbove(base, [n], items[i].rel);
    }
  }

  // ---- The uploads ---------------------------------------------------------------------------------------

  /** The object `c` under `key` is the local file `name`. */
  predicate StoredFrom(local: Tree, folder: string, storageKey: string, name: string, key: string, c: Bytes) {
    && key == storageKey + "/" + name
    && IsFile(local, Resolve(folder + "/" + name))
    && c == local[Resolve(folder + "/" + name)].content
  }

  lemma {:induction false} UploadedEffect(bucket: Bucket, local: Tree, folder: string, storageKey: string,
                                          names: seq<string>, i: nat, faults: seq<Fault>)
    requires i <= |names|
    ensures
      var (bucket', ok) := Uploaded(bucket, local, folder, storageKey, names, i, faults);
      && (forall k | k in bucket' ::
            (k in bucket && bucket'[k] == bucket[k])
            || exists n :: n in names && StoredFrom(local, folder, storageKey, n, k, bucket'[k]))
      && (forall k | k in bucket :: k in bucket')
      && (ok ==> forall j | i <= j < |names| :: storageKey + "/" + names[j] in bucket')
    decreases |names| - i
  {
    hide Resolve, FaultAt;
    if i < |names| {
      var p := Resolve(folder + "/" + names[i]);
      if IsFile(local, p) && !FaultAt(faults, i).Lost? {
        var bucket' := bucket[storageKey + "/" + names[i] := local[p].content];
        assert names[i] in names;
        assert StoredFrom(local, folder, storageKey, names[i], storageKey + "/" + names[i], local[p].content);
        if !FaultAt(faults, i).Applied? {
          UploadedEffect(bucket', local, folder, storageKey, names, i + 1, faults);
        }
      }
    }
  }

  /** Nothing stored is lost or changed. */
  ghost predicate BucketsKept(buckets: map<BucketId, Bucket>, buckets': map<BucketId, Bucket>) {
    forall id, key | id in buckets && key in buckets[id] ::
      id in buckets' && key in buckets'[id] && buckets'[id][key] == buckets[id][key]
  }

  /** What the upload finds in the operator's folder: names that are names, and the backup's own contents. */
  ghost predicate FolderHolds(local: Tree, d: seq<string>, names: seq<string>, files: map<string, Bytes>) {
    && (forall n | n in names :: Good(n))
    && (forall n | n in names && IsFile(local, d + [n]) :: n in files && files[n] == local[d + [n]].content)
    && (forall n | n in files :: n in names)
  }

  lemma CopiedFolderHolds(s: System, records: Records, pods: map<PodId, Tree>, local: Tree, local': Tree, t: string,
                          items: seq<Item>, names: seq<string>)
    requires RecordsOk(records) && t in records && records[t].pod in pods
    requires FilesAgree(pods, records) && FilesKept(pods, records)
    requires Faithful(pods[records[t].pod], BackupPath(t), items)
    requires Clear(local, LocalPath(s.host) + [t]) && IsCopy(local, local', LocalPath(s.host) + [t], items)
    requires Lists(local', LocalPath(s.host) + [t], names)
    ensures FolderHolds(local', LocalPath(s.host) + [t], names, records[t].files)
  {
    hide Faithful, Clear, IsCopy, FilesAgree, FilesKept, LocalPath, BACKUP_PATH;
    var d := LocalPath(s.host) + [t];
    var tree := pods[records[t].pod];
    forall n | n in names ensures Good(n) {
      CopyHolds(local, local', d, tree, BackupPath(t), items, n);
    }
    forall n | n in names && IsFile(local', d + [n])
      ensures n in records[t].files && records[t].files[n] == local'[d + [n]].content
    {
      CopyHolds(local, local', d, tree, BackupPath(t), items, n);
      AgreesAt(pods, records, records[t].pod, t, n);
    }
    forall n | n in records[t].files ensures n in names {
      CopyHolds(local, local', d, tree, BackupPath(t), items, n);
      assert FileKept(pods, records, t, n) by {
        KeptAt(pods, records, t, n);
      }
      assert Above(d, d + [n]);
    }
  }

  lemma AgreesAt(pods: map<PodId, Tree>, records: Records, pod: PodId, t: string, n: string)
    requires FilesAgree(pods, records) && RecordsOk(records) && t in records
    requires pod in pods && IsFile(pods[pod], BackupPath(t) + [n])
    ensures IsBackupFile(records, t, n, pods[pod][BackupPath(t) + [n]].content)
  {
    hide IsId;
    PathLengths();
    assert Watched(BackupPath(t) + [n]);
  }

  lemma KeptAt(pods: map<PodId, Tree>, records: Records, t: string, n: string)
    requires FilesKept(pods, records) && t in records && n in records[t].files
    ensures FileKept(pods, records, t, n)
  {
  }

  lemma FreshRecordKeepsBuckets(buckets: map<BucketId, Bucket>, records: Records, t: string, record: Record)
    requires BucketsAgree(buckets, records) && CompleteStored(buckets, records) && t !in records && !record.complete
    ensures BucketsAgree(buckets, records[t := record]) && CompleteStored(buckets, records[t := record])
  {
    hide Key;
    forall id, key | id in buckets && key in buckets[id]
      ensures KeyAgrees(records[t := record], id, key, buckets[id][key])
    {
      OldKeyGrows(buckets, records, id, key, t, record);
    }
  }

  /** One stored object, traced back to the backup it came from. */
  lemma StoredAgrees(h: Host, local: Tree, records: Records, t: string, id: BucketId, folder: string,
                     names: seq<string>, n: string, key: string, c: Bytes)
    requires IsId(t) && Rooted(h.tmp) && ':' !in h.tmp && t in records && records[t].target == Some((id, folder))
    requires FolderHolds(local, LocalPath(h) + [t], names, records[t].files) && n in names
    requires StoredFrom(local, LocalFolder(h, t), folder + "/" + t, n, key, c)
    ensures key == Key(folder, t, n) && KeyAgrees(records, id, key, c)
  {
    hide Resolve, IsId, LocalPath, LocalFolder;
    LocalFolderResolves(h, t);
    ResolveChild(LocalFolder(h, t), n);
    assert IsBackupFile(records, t, n, c);
  }

  lemma UploadKeepsBuckets(h: Host, buckets: map<BucketId, Bucket>, local: Tree, records: Records, t: string,
                           record: Record, id: BucketId, folder: string, names: seq<string>, faults: seq<Fault>)
    requires IsId(t) && Rooted(h.tmp) && ':' !in h.tmp && t !in records && record.target == Some((id, folder))
    requires RecordsOk(records) && BucketsAgree(buckets, records) && CompleteStored(buckets, records) && id in buckets
    requires FolderHolds(local, LocalPath(h) + [t], names, record.files)
    requires
      var up := Uploaded(buckets[id], local, LocalFolder(h, t), folder + "/" + t, names, 0, faults);
      record.complete == up.1
    ensures
      var up := Uploaded(buckets[id], local, LocalFolder(h, t), folder + "/" + t, names, 0, faults);
      var buckets' := buckets[id := up.0];
      && BucketsAgree(buckets', records[t := record]) && CompleteStored(buckets', records[t := record])
      && BucketsKept(buckets, buckets')
  {
    hide Uploaded, IsId, LocalPath, LocalFolder, FolderHolds, RecordsOk, StoredFrom;
    var up := Uploaded(buckets[id], local, LocalFolder(h, t), folder + "/" + t, names, 0, faults);
    var buckets', records' := buckets[id := up.0], records[t := record];
    UploadedEffect(buckets[id], local, LocalFolder(h, t), folder + "/" + t, names, 0, faults);
    forall id', key | id' in buckets' && key in buckets'[id']
      ensures KeyAgrees(records', id', key, buckets'[id'][key])
      ensures id' in buckets && key in buckets[id'] ==> buckets'[id'][key] == buckets[id'][key]
    {
      if id' in buckets && key in buckets[id'] {
        OldKeyGrows(buckets, records, id', key, t, record);
      }
      if !(id' in buckets && key in buckets[id'] && buckets'[id'][key] == buckets[id'][key]) {
        assert id' == id;
        var n :| n in names && StoredFrom(local, LocalFolder(h, t), folder + "/" + t, n, key, up.0[key]);
        StoredAgrees(h, local, records', t, id, folder, names, n, key, up.0[key]);
        if key in buckets[id] {
          NamesCover(local, LocalPath(h) + [t], names, record.files, n);
          FreshKey(buckets, records, id, key, t, folder, n);
        }
      }
    }
    forall t', n | t' in records' && records'[t'].complete && n in records'[t'].files
      ensures records'[t'].target.Some? && records'[t'].target.value.0 in buckets'
      ensures Key(records'[t'].target.value.1, t', n) in buckets'[records'[t'].target.value.0]
    {
      if t' == t {
        NamesCover(local, LocalPath(h) + [t], names, record.files, n);
        var j :| 0 <= j < |names| && names[j] == n;
      }
    }
  }

  lemma NamesCover(local: Tree, d: seq<string>, names: seq<string>, files: map<string, Bytes>, n: string)
    requires FolderHolds(local, d, names, files)
    ensures n in files ==> n in names
    ensures n in names ==> Good(n)
  {
  }

  lemma OldKeyGrows(buckets: map<BucketId, Bucket>, records: Records, id: BucketId, key: string, t: string,
                    record: Record)
    requires BucketsAgree(buckets, records) && t !in records && id in buckets && key in buckets[id]
    ensures KeyAgrees(records[t := record], id, key, buckets[id][key])
  {
    hide Key;
    assert KeyAgrees(records, id, key, buckets[id][key]);
    var t', n :| IsBackupFile(records, t', n, buckets[id][key]) && records[t'].target.Some?
                 && records[t'].target.value.0 == id && key == Key(records[t'].target.value.1, t', n);
    assert IsBackupFile(records[t := record], t', n, buckets[id][key]);
  }

  /** The keys of a fresh backup are new. */
  lemma FreshKey(buckets: map<BucketId, Bucket>, records: Records, id: BucketId, key: string, t: string, folder: string,
                 n: string)
    requires RecordsOk(records) && BucketsAgree(buckets, records) && id in buckets && key in buckets[id]
    requires t !in records && IsId(t) && Good(n)
    ensures key != Key(folder, t, n)
  {
    hide RecordsOk, BucketsAgree, IsId, Key;
    var t', n', folder' := KeyOwner(buckets, records, id, key);
    IdIsGood(t);
    if key == Key(folder, t, n) {
      KeyInjective(folder, t, n, folder', t', n');
    }
  }

  // ---- The pass ------------------------------------------------------------------------------------------

  /** The operator's folder for backup `t` is made, and empty. */
  ghost predicate FolderReady(h: Host, records: Records, t: string) {
    && Clear(h.local, LocalPath(h) + [t])
    && (forall p | AtOrAbove(p, LocalPath(h)) :: !IsFile(h.local, p))
    && (forall p | p in h.local && Above(LocalPath(h), p) :: p[|LocalPath(h)|] in records || p[|LocalPath(h)|] == t)
  }

  lemma ReadyLocalOk(h: Host, records: Records, t: string, record: Record)
    requires FolderReady(h, records, t)
    ensures LocalOk(h.local, LocalPath(h), records[t := record])
  {
    hide LocalPath;
  }

  lemma ShippedKeepsInv(s: System, h: Host, ns: string, spec: BackupSpec, turn: BackupTurn, record: Record,
                        target: (BucketId, string))
    requires Inv(s) && IsId(turn.time) && turn.time !in s.records && RecordsOk(s.records[turn.time := record])
    requires Copy.ValidName(ns) && Copy.ValidName(spec.podName)
    requires h.tmp == s.host.tmp && h.buckets == s.host.buckets && FolderReady(h, s.records, turn.time)
    requires FilesAgree(h.pods, s.records[turn.time := record]) && FilesKept(h.pods, s.records[turn.time := record])
    requires record.pod == PodId(ns, spec.podName) && record.target == Some(target)
    requires record.pod in h.pods && Faithful(h.pods[record.pod], BackupPath(turn.time), turn.tar.items)
    requires
      var (h', status) := Shipped(h, ns, spec, turn, target);
      record.complete == status.Fine? && Lists(h'.local, LocalPath(s.host) + [turn.time], turn.listing)
    ensures
      var (h', status) := Shipped(h, ns, spec, turn, target);
      var records' := s.records[turn.time := record];
      && h' == h.(local := h'.local, buckets := h'.buckets)
      && LocalOk(h'.local, LocalPath(h), records')
      && BucketsAgree(h'.buckets, records') && CompleteStored(h'.buckets, records')
      && BucketsKept(h.buckets, h'.buckets) && !status.Panicked?
  {
    hide FilesAgree, FilesKept, BucketsAgree, CompleteStored, LocalOk, RecordsOk, CopiedFrom, Uploaded, FolderHolds,
         Lists, Clear, IsCopy, LocalPath, LocalFolder, SourceSpec, IsId, BackupPath, IsListing;
    var (id, folder) := target;
    var t, records' := turn.time, s.records[turn.time := record];
    ReadyLocalOk(h, s.records, t, record);
    if id !in h.buckets {
      FreshRecordKeepsBuckets(h.buckets, s.records, t, record);
    } else {
      CopyOut(h, ns, spec.podName, t, turn.tar);
      var (h1, copied) := CopiedFrom(h, SourceSpec(ns, spec.podName, t), LocalFolder(h, t), turn.tar);
      if copied != Fine {
        FreshRecordKeepsBuckets(h.buckets, s.records, t, record);
      } else {
        SameLocalPath(s.host, h);
        CopyKeepsLocal(h.local, h1.local, LocalPath(h), t, s.records, turn.tar.items, record);
        CopiedFolderHolds(s, records', h.pods, h.local, h1.local, t, turn.tar.items, turn.listing);
        UploadKeepsBuckets(h, h.buckets, h1.local, s.records, t, record, id, folder, turn.listing, turn.faults);
      }
    }
  }

  lemma SameLocalPath(h: Host, h': Host)
    requires h.tmp == h'.tmp
    ensures LocalPath(h) == LocalPath(h')
  {
  }

  lemma RunShape(h: Host, ns: string, spec: BackupSpec, turn: BackupTurn)
    requires IsId(turn.time)
    ensures
      var (h', ran) := BackupRun(h, ns, spec, turn);
      && h' == h.(pods := h'.pods)
      && (ran.Fine? ==> PodId(ns, spec.podName) in h'.pods
                        && BackupPath(turn.time) in h'.pods[PodId(ns, spec.podName)])
  {
    hide BackupCommand, WriteDir, Resolve, BackupPath, IsId;
    BackupPathResolves(turn.time);
    var pod := PodId(ns, spec.podName);
    if pod in h.pods {
      var done := WriteDir(h.pods[pod], BackupPath(turn.time), turn.written);
      if done.Some? {
        WriteDirEffect(h.pods[pod], BackupPath(turn.time), turn.written, done.value);
      }
    }
  }

  lemma MadeFolderReady(h: Host, h2: Host, records: Records, t: string)
    requires IsId(t) && Rooted(h.tmp) && ':' !in h.tmp && t !in records && LocalOk(h.local, LocalPath(h), records)
    requires MkdirAll(h.local, Resolve(LocalFolder(h, t))) == Some(h2.local) && h2.tmp == h.tmp
    ensures FolderReady(h2, records, t)
  {
    hide Resolve, MkdirAll, IsId, LocalPath, LocalOk;
    LocalFolderResolves(h, t);
    MadeFolder(h, records, t, h2.local);
    SameLocalPath(h, h2);
  }

  lemma OlderLocalOk(local: Tree, base: seq<string>, records: Records, t: string, record: Record)
    requires LocalOk(local, base, records)
    ensures LocalOk(local, base, records[t := record])
  {
  }

  /** What a backup run records keeps the records well-formed. */
  lemma RecordKeepsOk(records: Records, t: string, record: Record)
    requires RecordsOk(records) && IsId(t) && forall n | n in record.files :: Good(n)
    ensures RecordsOk(records[t := record])
  {
    hide IsId;
  }

  /** However a backup pass ends, also in a panic, the coupling invariant holds after it and nothing stored before
      is lost or changed. */
  lemma BackupKeepsInv(s: System, ns: string, spec: BackupSpec, turn: BackupTurn)
    requires Inv(s) && BackupAllowed(s, ns, spec, turn)
    ensures Inv(Next(s, DoBackup(ns, spec, turn)))
    ensures BucketsKept(s.host.buckets, Next(s, DoBackup(ns, spec, turn)).host.buckets)
  {
    hide Inv, BackupAllowed, BackupPass, AfterBackup, BucketsKept;
    AfterBackupInv(s, ns, spec, turn);
    RestartKeepsInv(AfterBackup(s, ns, spec, turn));
  }

  /** The pass itself; it panics exactly on an empty list of databases that is not nil. */
  lemma AfterBackupInv(s: System, ns: string, spec: BackupSpec, turn: BackupTurn)
    requires Inv(s) && BackupAllowed(s, ns, spec, turn)
    ensures Inv(AfterBackup(s, ns, spec, turn))
    ensures BucketsKept(s.host.buckets, AfterBackup(s, ns, spec, turn).host.buckets)
    ensures BackupPass(s.host, ns, spec, turn).1.Panicked? <==> turn.setupOk && spec.databases == Some([])
  {
    hide FilesAgree, FilesKept, BucketsAgree, CompleteStored, LocalOk, RecordsOk, BackupRun, Shipped, Left, Lists,
         LocalPath, LocalFolder, IsId, BackupPath, Faithful, Resolve, MkdirAll, FolderReady;
    var s' := AfterBackup(s, ns, spec, turn);
    var t := turn.time;
    var record := s'.records[t];
    assert forall n | n in record.files :: Good(n) by {
      LeftWritten(s.host, ns, spec, turn);
    }
    RecordKeepsOk(s.records, t, record);
    BackupRunKeepsAgreement(s, ns, spec, turn, record);
    OlderLocalOk(s.host.local, LocalPath(s.host), s.records, t, record);
    var (h1, ran) := BackupRun(s.host, ns, spec, turn);
    RunShape(s.host, ns, spec, turn);
    RunPanics(s.host, ns, spec, turn);
    var made := MkdirAll(h1.local, Resolve(LocalFolder(s.host, t)));
    if turn.setupOk && ran.Fine? && made.Some? {
      var h2 := h1.(local := made.value);
      MadeFolderReady(s.host, h2, s.records, t);
      SameLocalPath(s.host, h2);
      ReadyLocalOk(h2, s.records, t, record);
      if record.target.Some? {
        ShippedKeepsInv(s, h2, ns, spec, turn, record, record.target.value);
        var h3 := Shipped(h2, ns, spec, turn, record.target.value).0;
        SameLocalPath(s.host, h3);
      } else {
        FreshRecordKeepsBuckets(s.host.buckets, s.records, t, record);
      }
    } else {
      FreshRecordKeepsBuckets(s.host.buckets, s.records, t, record);
      SameLocalPath(s.host, h1);
    }
  }

  lemma RunPanics(h: Host, ns: string, spec: BackupSpec, turn: BackupTurn)
    ensures BackupRun(h, ns, spec, turn).1.Panicked? <==> spec.databases == Some([])
  {
    hide WriteDir, Resolve, WithFlag;
  }

  lemma LeftWritten(h: Host, ns: string, spec: BackupSpec, turn: BackupTurn)
    ensures Left(h, ns, spec, turn) == turn.written || Left(h, ns, spec, turn) == map[]
  {
    hide BackupCommand, WriteDir, Resolve;
  }
}
