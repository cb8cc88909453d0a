/** Restoring a complete backup by its own folder and id. */
module RoundTrip {
  import opened Basics
  import opened Paths
  import opened FileTree
  import Copy
  import opened Storage
  import opened Remote
  import opened Backup
  import opened Restore
  import opened RestorePaths
  import RestoreLoop
  import RestoreRetry
  import opened Coupling
  import CouplingRuns

  // ---- What is listed --------------------------------------------------------------------------------------

  /** Where file n of backup t is restored. */
  function Place(s: System, t: string, n: string): seq<string> {
    PathOf(s.restoreDir) + [t, n]
  }

  /** Listed keys that write at a place of backup t are keys of t. */
  lemma HitIsOwn(s: System, id: BucketId, folder: string, t: string, key: string, n: string)
    requires Inv(s) && t in s.records && s.records[t].target == Some((id, folder)) && id in s.host.buckets
    requires RemoteFolder(folder, t) <= key
    requires RestoreLoop.Hits(s.host.buckets[id], RestoreRetry.RouteOf(s.restoreDir, folder, t), key, Place(s, t, n))
    ensures key == Key(folder, t, n) && n in s.records[t].files && s.records[t].files[n] == s.host.buckets[id][key]
  {
    hide Key, IsId, FilesKept, BucketsAgree, CompleteStored, LocalOk, FilesAgree, Resolve, RestorePaths.Rest, LastOf;
    var t', n', folder' := KeyOwner(s.host.buckets, s.records, id, key);
    var rest := RestorePaths.Rest(folder, t, key);
    RestPieces(folder, t, folder', t', n');
    BelowRestoreDir("", s.restoreDir, rest, t', n');
    assert RestoreLoop.FileFor(RestoreRetry.RouteOf(s.restoreDir, folder, t),
                               key) == "" + s.restoreDir + "/" + rest by {
      FileForSpelled(s.restoreDir, folder, t, key);
    }
    NotAnId(s.restoreDir);
    var p := Place(s, t, n);
    assert p[|p| - 1] == n && p[|p| - 2] == t;
  }

  lemma FileForSpelled(restoreDir: string, folder: string, t: string, key: string)
    ensures RestoreLoop.FileFor(RestoreRetry.RouteOf(restoreDir, folder, t), key)
         == "" + restoreDir + "/" + RestorePaths.Rest(folder, t, key)
  {
    var tail := TrimPrefix(key, RemoteFolder(folder, t));
    assert restoreDir + "/" + t + tail == "" + restoreDir + "/" + (t + tail);
  }

  lemma OwnHits(s: System, id: BucketId, folder: string, t: string, n: string)
    requires Inv(s) && IsId(t) && Good(n) && id in s.host.buckets
    requires Key(folder, t, n) in s.host.buckets[id] && |s.host.buckets[id][Key(folder, t, n)]| > 0
    ensures RestoreLoop.Hits(s.host.buckets[id], RestoreRetry.RouteOf(s.restoreDir, folder, t), Key(folder, t, n),
                             Place(s, t, n))
  {
    hide IsId, FilesKept, BucketsAgree, CompleteStored, LocalOk, FilesAgree, Resolve, RecordsOk;
    IdIsGood(t);
    OwnFile(s.restoreDir, folder, t, n);
  }

  /** The file that a backup's own key is copied to. */
  lemma OwnFile(restoreDir: string, folder: string, t: string, n: string)
    requires IsRestoreDir(restoreDir) && Good(t) && Good(n)
    ensures RestoreLoop.FileFor(RestoreRetry.RouteOf(restoreDir, folder, t), Key(folder, t, n))
         == restoreDir + "/" + t + "/" + n
    ensures RestoreLoop.Landing(RestoreRetry.RouteOf(restoreDir, folder, t), Key(folder, t, n))
         == PathOf(restoreDir) + [t, n]
    ensures FilePart(restoreDir + "/" + t + "/" + n) == n && DirPart(restoreDir + "/" + t + "/" + n) != ""
  {
    hide Copy.ExtractFileSpec, Resolve, IsRestoreDir;
    OwnKeyLandsOn("n", "p", restoreDir, folder, t, n);
    assert Key(folder, t, n) == RemoteFolder(folder, t) + ("/" + n);
    assert TrimPrefix(Key(folder, t, n), RemoteFolder(folder, t)) == "/" + n;
    assert restoreDir + "/" + t + ("/" + n) == restoreDir + "/" + t + "/" + n;
  }

  // ---- One restore -------------------------------------------------------------------------------------------

  predicate RestoresOwn(s: System, ns: string, spec: RestoreSpec, turn: RestoreTurn, t: string, id: BucketId,
                        folder: string) {
    && RestoreRetry.Reaches(s.host, ns, spec) && RestoreAllowed(s, spec, turn)
    && spec.backupId == t && Target(spec.storage) == Some((id, folder))
    && t in s.records && s.records[t].complete && s.records[t].target == Some((id, folder))
  }

  /** File n of backup t is copied by this pass: it is not empty and its key is listed. */
  predicate IsCopied(s: System, spec: RestoreSpec, turn: RestoreTurn, t: string, folder: string, n: string)
    requires t in s.records && Target(spec.storage).Some?
  {
    n in s.records[t].files && |s.records[t].files[n]| > 0 && Key(folder, t, n) in RestoreRetry.Listed(spec, turn.order)
  }

  /** The file system of the restored pod after the pass. */
  function RestoredTree(s: System, ns: string, spec: RestoreSpec, turn: RestoreTurn): Tree {
    var pods := RestorePass(s.host, s.restoreDir, ns, spec, turn).host.pods;
    if PodId(ns, spec.podName) in pods then pods[PodId(ns, spec.podName)] else map[]
  }

  /** What a pass does at one place below RestoreDir/t. */
  ghost predicate PlaceRestored(tree: Tree, tree': Tree, q: seq<string>, copied: bool, c: Bytes) {
    && (copied ==> q in tree' && tree'[q] == File(c))
    && (!copied ==> (q in tree ==> q in tree' && tree'[q] == tree[q]) && (q in tree' && q !in tree ==> tree'[q] == Dir))
  }

  /** A restore of a complete backup by its own folder and id that gets as far as its command has put every
      listed non-empty file of the backup at RestoreDir/id/name, byte for byte, and has neither written nor
      changed a file at any other name there; of the other pods it changes nothing. */
  lemma RestoredPlaces(s: System, ns: string, spec: RestoreSpec, turn: RestoreTurn, t: string, id: BucketId,
                       folder: string, n: string)
    requires Inv(s) && RestoresOwn(s, ns, spec, turn, t, id, folder)
    requires RestorePass(s.host, s.restoreDir, ns, spec, turn).ran.Some?
    ensures
      var host := RestorePass(s.host, s.restoreDir, ns, spec, turn).host;
      var pod := PodId(ns, spec.podName);
      && host == s.host.(pods := s.host.pods[pod := RestoredTree(s, ns, spec, turn)])
      && PlaceRestored(s.host.pods[pod], RestoredTree(s, ns, spec, turn), Place(s, t, n),
                       IsCopied(s, spec, turn, t, folder, n),
                       if n in s.records[t].files then s.records[t].files[n] else [])
  {
    hide RestorePass, RestoreLoop.PlacedKeys, RestoreLoop.Hits, Inv, Key, RestoreRetry.RouteOf, RestoreAllowed,
         RemoteFolder, RestoreRetry.Listed, Place;
    var keys, q := RestoreRetry.Listed(spec, turn.order), Place(s, t, n);
    var route := RestoreRetry.RouteOf(s.restoreDir, folder, t);
    var bucket, pod := s.host.buckets[id], PodId(ns, spec.podName);
    var c := if n in s.records[t].files then s.records[t].files[n] else [];
    RestoreRetry.PassShape(s.host, s.restoreDir, ns, spec, turn);
    forall k | k in keys && RestoreLoop.Hits(bucket, route, k, q)
      ensures k in bucket && bucket[k] == c && k == Key(folder, t, n) && n in s.records[t].files && |c| > 0
    {
      ListedHasPrefix(spec, turn.order, folder, t, k);
      HitIsOwn(s, id, folder, t, k, n);
      RestoreLoop.HitsContent(bucket, route, k, q);
    }
    if IsCopied(s, spec, turn, t, folder, n) {
      CompleteKey(s, t, id, folder, n);
      OwnHits(s, id, folder, t, n);
      assert RestoreLoop.Hits(bucket, route, Key(folder, t, n), q);
    }
    RestoreLoop.PlacedAt(s.host.pods[pod], bucket, keys, route, turn.faults, q, c);
  }

  /** A path that a key of some recorded backup can land on: its file's name below its id, or right below a
      restore directory. */
  ghost predicate IsTouched(s: System, q: seq<string>) {
    exists t, n :: t in s.records && n in s.records[t].files && |q| >= 2 && q[|q| - 1] == n
                   && (q[|q| - 2] == t || q[|q| - 2] == LastOf(s.restoreDir))
  }

  /** What a pass, finished or not, does at a path that it may not write. */
  ghost predicate Spared(tree: Tree, tree': Tree, q: seq<string>) {
    (q in tree ==> q in tree' && tree'[q] == tree[q]) && (q in tree' && q !in tree ==> tree'[q] == Dir)
  }

  lemma NoHitSpares(s: System, ns: string, spec: RestoreSpec, turn: RestoreTurn, q: seq<string>)
    requires RestoreRetry.Reaches(s.host, ns, spec)
    requires
      var (id, folder) := Target(spec.storage).value;
      forall k | k in RestoreRetry.Listed(spec, turn.order) ::
        !RestoreLoop.Hits(s.host.buckets[id], RestoreRetry.RouteOf(s.restoreDir, folder, spec.backupId), k, q)
    ensures Spared(s.host.pods[PodId(ns, spec.podName)], RestoredTree(s, ns, spec, turn), q)
  {
    hide RestorePass, RestoreLoop.PlacedKeys, RestoreLoop.Hits, RestoreRetry.RouteOf, RestoreRetry.Listed;
    var (id, folder) := Target(spec.storage).value;
    RestoreRetry.PassShape(s.host, s.restoreDir, ns, spec, turn);
    RestoreLoop.PlacedAt(s.host.pods[PodId(ns, spec.podName)], s.host.buckets[id],
                         RestoreRetry.Listed(spec, turn.order),
                         RestoreRetry.RouteOf(s.restoreDir, folder, spec.backupId), turn.faults, q, []);
  }

  lemma HitIsTouched(s: System, id: BucketId, folder: string, backupId: string, key: string, q: seq<string>)
    requires Inv(s) && id in s.host.buckets && RemoteFolder(folder, backupId) <= key
    requires RestoreLoop.Hits(s.host.buckets[id], RestoreRetry.RouteOf(s.restoreDir, folder, backupId), key, q)
    ensures IsTouched(s, q)
  {
    hide Key, IsId, FilesKept, BucketsAgree, CompleteStored, LocalOk, FilesAgree, Resolve, RestorePaths.Rest, LastOf;
    var t', n', folder' := KeyOwner(s.host.buckets, s.records, id, key);
    var rest := RestorePaths.Rest(folder, backupId, key);
    RestPieces(folder, backupId, folder', t', n');
    BelowRestoreDir("", s.restoreDir, rest, t', n');
    assert RestoreLoop.FileFor(RestoreRetry.RouteOf(s.restoreDir, folder, backupId),
                               key) == "" + s.restoreDir + "/" + rest by {
      FileForSpelled(s.restoreDir, folder, backupId, key);
    }
  }

  /** A restore pass of any backup id, finished or stopped anywhere, changes no file of the pod except at places
      named after a recorded backup's id and file; besides that it only makes directories. */
  lemma RestoredElsewhere(s: System, ns: string, spec: RestoreSpec, turn: RestoreTurn, q: seq<string>)
    requires Inv(s) && RestoreRetry.Reaches(s.host, ns, spec) && !IsTouched(s, q)
    ensures Spared(s.host.pods[PodId(ns, spec.podName)], RestoredTree(s, ns, spec, turn), q)
  {
    hide Inv, RestoreLoop.Hits, RestoreRetry.RouteOf, RestoreRetry.Listed, RemoteFolder, IsTouched, RestoredTree;
    var (id, folder) := Target(spec.storage).value;
    forall k | k in RestoreRetry.Listed(spec, turn.order)
      ensures !RestoreLoop.Hits(s.host.buckets[id], RestoreRetry.RouteOf(s.restoreDir, folder, spec.backupId), k, q)
    {
      ListedHasPrefix(spec, turn.order, folder, spec.backupId, k);
      if RestoreLoop.Hits(s.host.buckets[id], RestoreRetry.RouteOf(s.restoreDir, folder, spec.backupId), k, q) {
        HitIsTouched(s, id, folder, spec.backupId, k, q);
      }
    }
    NoHitSpares(s, ns, spec, turn, q);
  }

  /** The listed keys are all keys of the requested backup. */
  ghost predicate ListsOnlyOwn(s: System, spec: RestoreSpec, turn: RestoreTurn, t: string, folder: string)
    requires t in s.records && Target(spec.storage).Some?
  {
    forall k | k in RestoreRetry.Listed(spec, turn.order) ::
      exists n :: n in s.records[t].files && k == Key(folder, t, n)
  }

  lemma S3ListsOnlyOwn(s: System, ns: string, spec: RestoreSpec, turn: RestoreTurn, t: string, id: BucketId,
                       folder: string)
    requires Inv(s) && RestoresOwn(s, ns, spec, turn, t, id, folder) && spec.storage.provider == "s3"
    ensures ListsOnlyOwn(s, spec, turn, t, folder)
  {
    hide Inv, Key, RemoteFolder, S3Listing, DirectlyBelow;
    forall k | k in RestoreRetry.Listed(spec, turn.order)
      ensures exists n :: n in s.records[t].files && k == Key(folder, t, n)
    {
      ListedIsStored(turn.order, RemoteFolder(folder, t));
      var n := DirectlyBelowIsOwn(s, t, id, folder, k);
    }
  }

  /** A restore of backup t that lists only keys of t, as on S3, changes no file outside RestoreDir/t, whatever
      stops it. */
  lemma RestoresOnlyOwn(s: System, ns: string, spec: RestoreSpec, turn: RestoreTurn, t: string, id: BucketId,
                        folder: string, q: seq<string>)
    requires Inv(s) && RestoresOwn(s, ns, spec, turn, t, id, folder) && ListsOnlyOwn(s, spec, turn, t, folder)
    requires forall n | n in s.records[t].files :: q != Place(s, t, n)
    ensures Spared(s.host.pods[PodId(ns, spec.podName)], RestoredTree(s, ns, spec, turn), q)
  {
    hide Inv, RestoreLoop.Hits, RestoreRetry.RouteOf, Key, RestoredTree, Place, RestoreRetry.Listed;
    forall k | k in RestoreRetry.Listed(spec, turn.order)
      ensures !RestoreLoop.Hits(s.host.buckets[id], RestoreRetry.RouteOf(s.restoreDir, folder, t), k, q)
    {
      var n :| n in s.records[t].files && k == Key(folder, t, n);
      OwnLanding(s, t, folder, n);
      if RestoreLoop.Hits(s.host.buckets[id], RestoreRetry.RouteOf(s.restoreDir, folder, t), k, q) {
        HitLands(s.host.buckets[id], RestoreRetry.RouteOf(s.restoreDir, folder, t), k, q);
      }
    }
    NoHitSpares(s, ns, spec, turn, q);
  }

  lemma HitLands(bucket: Bucket, route: RestoreLoop.Route, k: string, q: seq<string>)
    requires RestoreLoop.Hits(bucket, route, k, q)
    ensures RestoreLoop.Landing(route, k) == q
  {
  }

  lemma OwnLanding(s: System, t: string, folder: string, n: string)
    requires Inv(s) && t in s.records && n in s.records[t].files
    ensures RestoreLoop.Landing(RestoreRetry.RouteOf(s.restoreDir, folder, t), Key(folder, t, n)) == Place(s, t, n)
  {
    hide Key, IsId, FilesKept, BucketsAgree, CompleteStored, LocalOk, FilesAgree, Resolve, PathOf;
    IdIsGood(t);
    OwnFile(s.restoreDir, folder, t, n);
  }

  lemma ListedHasPrefix(spec: RestoreSpec, order: seq<string>, folder: string, t: string, k: string)
    requires Target(spec.storage).Some? && Target(spec.storage).value.1 == folder && spec.backupId == t
    requires k in RestoreRetry.Listed(spec, order)
    ensures RemoteFolder(folder, t) <= k && k in order
  {
    hide ListingOf, RemoteFolder;
    ListedKeysHavePrefix(Target(spec.storage).value.0.provider, order, RemoteFolder(folder, t));
  }

  lemma CompleteKey(s: System, t: string, id: BucketId, folder: string, n: string)
    requires Inv(s) && t in s.records && s.records[t].complete && s.records[t].target == Some((id, folder))
    requires n in s.records[t].files
    ensures IsId(t) && Good(n)
    ensures id in s.host.buckets && Key(folder, t, n) in s.host.buckets[id]
    ensures s.host.buckets[id][Key(folder, t, n)] == s.records[t].files[n]
  {
    hide Key, IsId, BucketsAgree, LocalOk, FilesAgree, FilesKept, CompleteStored;
    CouplingRuns.FileOfComplete(s, t, id, folder, n);
  }

  // ---- What the providers list of a backup ---------------------------------------------------------------------

  /** GCS lists every key of the backup. */
  lemma GcsListsAll(s: System, spec: RestoreSpec, turn: RestoreTurn, t: string, id: BucketId, folder: string, n: string)
    requires Inv(s) && RestoreAllowed(s, spec, turn) && spec.backupId == t && Target(spec.storage) == Some((id, folder))
    requires t in s.records && s.records[t].complete && s.records[t].target == Some((id, folder))
    requires n in s.records[t].files
    requires id.provider == "gcs"
    ensures Key(folder, t, n) in RestoreRetry.Listed(spec, turn.order)
  {
    hide Inv, GcsListing, IsId;
    CompleteKey(s, t, id, folder, n);
    KeyBelow(folder, t, n);
    GcsMembers(turn.order, RemoteFolder(folder, t));
  }

  lemma KeyBelow(folder: string, t: string, n: string)
    ensures RemoteFolder(folder, t) <= Key(folder, t, n)
    ensures '/' !in n ==> DirectlyBelow(Key(folder, t, n), RemoteFolder(folder, t))
  {
    var remote := RemoteFolder(folder, t);
    assert Key(folder, t, n) == (remote + "/") + n;
    assert Key(folder, t, n)[|remote| + 1..] == n;
    assert Key(folder, t, n)[..|remote|] == remote;
  }

  /** A key directly below the backup's folder is one of its files. */
  lemma DirectlyBelowIsOwn(s: System, t: string, id: BucketId, folder: string, key: string) returns (n: string)
    requires Inv(s) && t in s.records && s.records[t].target == Some((id, folder))
    requires id in s.host.buckets && key in s.host.buckets[id] && DirectlyBelow(key, RemoteFolder(folder, t))
    ensures n in s.records[t].files && key == Key(folder, t, n)
  {
    hide Inv, IsId;
    n := key[|RemoteFolder(folder, t)| + 1..];
    assert key == RemoteFolder(folder, t) + "/" + n;
    CouplingRuns.KeyIsOwn(s, t, id, folder, n);
  }

  lemma {:induction false} S3Distinct(order: seq<string>, key: string)
    requires Distinct(order)
    ensures Distinct(S3Contents(order, key))
    decreases |order|
  {
    hide DirectlyBelow;
    if order != [] {
      var n := |order| - 1;
      S3Distinct(order[..n], key);
      S3Members(order[..n], key);
      assert order[n] !in order[..n];
      assert order[n] !in S3Contents(order[..n], key);
    }
  }

  /** Distinct keys, one for each file: as many keys as files. */
  lemma {:induction false} AsManyKeys(keys: seq<string>, folder: string, t: string, names: set<string>)
    requires Distinct(keys)
    requires forall k | k in keys :: exists n :: n in names && k == Key(folder, t, n)
    requires forall n | n in names :: Key(folder, t, n) in keys
    requires forall n | n in names :: '/' !in n
    requires '/' !in t
    ensures |keys| == |names|
    decreases |keys|
  {
    hide Key;
    if keys == [] {
      assert names == {} by {
        assert forall n | n in names :: Key(folder, t, n) in keys;
      }
    } else {
      assert keys[0] in keys;
      var n0 :| n0 in names && keys[0] == Key(folder, t, n0);
      var rest := names - {n0};
      forall k | k in keys[1..] ensures exists n :: n in rest && k == Key(folder, t, n) {
        assert k in keys && k != keys[0];
      }
      forall n | n in rest ensures Key(folder, t, n) in keys[1..] {
        if Key(folder, t, n) == keys[0] {
          KeyInjective(folder, t, n, folder, t, n0);
        }
      }
      AsManyKeys(keys[1..], folder, t, rest);
    }
  }

  /** S3 finds as many objects as the backup has files. */
  lemma S3ListsAsMany(s: System, spec: RestoreSpec, turn: RestoreTurn, t: string, id: BucketId, folder: string)
    requires Inv(s) && RestoreAllowed(s, spec, turn) && spec.backupId == t && Target(spec.storage) == Some((id, folder))
    requires t in s.records && s.records[t].complete && s.records[t].target == Some((id, folder))
    requires id in s.host.buckets
    ensures
      var contents := S3Contents(turn.order, RemoteFolder(folder, t));
      && |contents| == |s.records[t].files.Keys|
      && Distinct(contents)
      && (forall n | n in s.records[t].files :: Key(folder, t, n) in contents)
      && (forall k | k in contents :: exists n :: n in s.records[t].files && k == Key(folder, t, n))
  {
    hide Inv, S3Contents, IsId, Key, RemoteFolder, DirectlyBelow;
    var contents := S3Contents(turn.order, RemoteFolder(folder, t));
    S3Members(turn.order, RemoteFolder(folder, t));
    S3Distinct(turn.order, RemoteFolder(folder, t));
    forall n | n in s.records[t].files ensures Key(folder, t, n) in contents && '/' !in n && '/' !in t {
      CompleteKey(s, t, id, folder, n);
      KeyBelow(folder, t, n);
      IdIsGood(t);
    }
    forall k | k in contents ensures exists n :: n in s.records[t].files && k == Key(folder, t, n) {
      var n := DirectlyBelowIsOwn(s, t, id, folder, k);
    }
    var names := s.records[t].files.Keys;
    forall k | k in contents ensures exists n :: n in names && k == Key(folder, t, n) {
      var n :| n in s.records[t].files && k == Key(folder, t, n);
      assert n in names;
    }
    RecordId(s, t);
    AsManyKeys(contents, folder, t, names);
  }

  lemma RecordId(s: System, t: string)
    requires Inv(s) && t in s.records
    ensures IsId(t) && Good(t)
  {
    hide IsId, BucketsAgree, LocalOk, FilesAgree, FilesKept, CompleteStored;
    IdIsGood(t);
  }

  // ---- The whole directory --------------------------------------------------------------------------------------

  /** The whole backup is listed: always by GCS, and by S3 if its files and the common prefixes listed before the
      last of them fit on one page. */
  predicate WhollyListed(spec: RestoreSpec, turn: RestoreTurn, folder: string, t: string) {
    spec.storage.provider == "gcs" || FitsOnePage(turn.order, RemoteFolder(folder, t))
  }

  lemma ListsAll(s: System, ns: string, spec: RestoreSpec, turn: RestoreTurn, t: string, id: BucketId, folder: string)
    requires Inv(s) && RestoresOwn(s, ns, spec, turn, t, id, folder)
    ensures (forall n | n in s.records[t].files :: Key(folder, t, n) in RestoreRetry.Listed(spec, turn.order))
            <==> WhollyListed(spec, turn, folder, t)
  {
    hide Inv, S3Contents, S3Listing, GcsListing, Key, RemoteFolder, FitsOnePage, Distinct;
    if spec.storage.provider == "gcs" {
      forall n | n in s.records[t].files ensures Key(folder, t, n) in RestoreRetry.Listed(spec, turn.order) {
        GcsListsAll(s, spec, turn, t, id, folder, n);
      }
    } else {
      S3ListsAsMany(s, spec, turn, t, id, folder);
      var contents := S3Contents(turn.order, RemoteFolder(folder, t));
      var listing := S3Listing(turn.order, RemoteFolder(folder, t));
      FirstPage(turn.order, RemoteFolder(folder, t));
      if listing != contents {
        var k := contents[|listing|];
        assert k in contents;
        var n :| n in s.records[t].files && k == Key(folder, t, n);
        NotBefore(contents, listing);
      }
    }
  }

  lemma NotBefore(keys: seq<string>, some: seq<string>)
    requires Distinct(keys) && some < keys
    ensures keys[|some|] !in some
  {
  }

  /** No backup in the bucket uses a folder at or below the one that backup t is stored in. */
  ghost predicate Unnested(records: Records, id: BucketId, folder: string, t: string) {
    forall t' | t' in records && records[t'].target.Some? && records[t'].target.value.0 == id ::
      && records[t'].target.value.1 != RemoteFolder(folder, t)
      && !(RemoteFolder(folder, t) + "/" <= records[t'].target.value.1)
  }

  /** A deeper key belongs to a backup whose folder is at or below. */
  lemma DeeperKey(remote: string, folder': string, t': string, n': string)
    requires '/' !in t' && '/' !in n'
    requires remote + "/" <= Key(folder', t', n') && !DirectlyBelow(Key(folder', t', n'), remote)
    ensures folder' == remote || remote + "/" <= folder'
  {
    var key := Key(folder', t', n');
    var last := |folder'| + 1 + |t'|;
    assert key[|remote|] == (remote + "/")[|remote|] == '/';
    assert forall j | |folder'| < j < |key| && j != last :: key[j] != '/' by {
      forall j | |folder'| < j < |key| && j != last ensures key[j] != '/' {
        if j < last {
          assert key[j] == t'[j - |folder'| - 1];
          assert key[j] in t';
        } else {
          assert key[j] == n'[j - last - 1];
          assert key[j] in n';
        }
      }
    }
    assert key[last + 1..] == n';
    assert |remote| <= |folder'|;
    assert key[..|folder'|] == folder';
    if |remote| == |folder'| {
      assert remote == (remote + "/")[..|remote|] == key[..|remote|];
    } else {
      assert (remote + "/") == key[..|remote| + 1] == folder'[..|remote| + 1];
    }
  }

  /** Where no folder is nested, a backup fits on one S3 page exactly if it has at most PAGE_SIZE files. */
  lemma UnnestedPage(s: System, spec: RestoreSpec, turn: RestoreTurn, t: string, id: BucketId, folder: string)
    requires Inv(s) && RestoreAllowed(s, spec, turn) && spec.backupId == t && Target(spec.storage) == Some((id, folder))
    requires t in s.records && s.records[t].complete && s.records[t].target == Some((id, folder))
    requires id in s.host.buckets && Unnested(s.records, id, folder, t)
    ensures FitsOnePage(turn.order, RemoteFolder(folder, t)) <==> |s.records[t].files.Keys| <= PAGE_SIZE
  {
    hide Inv, S3Contents, S3Listing, Key, RemoteFolder, FitsOnePage, Distinct, DirectlyBelow;
    var remote := RemoteFolder(folder, t);
    forall k | k in turn.order && remote + "/" <= k ensures DirectlyBelow(k, remote) {
      if !DirectlyBelow(k, remote) {
        var t', n', folder' := OwnerOf(s, id, k);
        DeeperKey(remote, folder', t', n');
      }
    }
    FlatPage(turn.order, remote);
    S3ListsAsMany(s, spec, turn, t, id, folder);
  }

  lemma OwnerOf(s: System, id: BucketId, key: string) returns (t: string, n: string, folder: string)
    requires Inv(s) && id in s.host.buckets && key in s.host.buckets[id]
    ensures t in s.records && s.records[t].target == Some((id, folder)) && n in s.records[t].files
    ensures Good(t) && Good(n) && key == Key(folder, t, n)
  {
    hide Key, IsId, LocalOk, FilesAgree, FilesKept, CompleteStored;
    t, n, folder := KeyOwner(s.host.buckets, s.records, id, key);
  }

  /** File n of backup t is at its place in the pod. */
  predicate HasFile(s: System, ns: string, spec: RestoreSpec, t: string, n: string)
    requires PodId(ns, spec.podName) in s.host.pods
  {
    IsFile(s.host.pods[PodId(ns, spec.podName)], Place(s, t, n))
  }

  /** RestoreDir/t holds exactly these files, except that a zero-length one is there only if it was before. */
  ghost predicate HoldsExactly(s: System, ns: string, spec: RestoreSpec, tree': Tree, t: string,
                               files: map<string, Bytes>)
    requires PodId(ns, spec.podName) in s.host.pods
  {
    forall n ::
      && (IsFile(tree', Place(s, t, n)) <==> n in files && (|files[n]| > 0 || HasFile(s, ns, spec, t, n)))
      && (IsFile(tree', Place(s, t, n)) ==> tree'[Place(s, t, n)] == File(files[n]))
  }

  /** The command of the pass is run on RestoreDir/t: every place of backup t lies directly in that directory. */
  ghost predicate RunsOn(s: System, r: Restored, t: string) {
    && r.ran.Some? && Resolve(CouplingRuns.Last(r.ran.value)) == PathOf(s.restoreDir) + [t]
    && forall n :: Place(s, t, n) == Resolve(CouplingRuns.Last(r.ran.value)) + [n]
  }

  lemma CommandRunsOn(s: System, ns: string, spec: RestoreSpec, turn: RestoreTurn, t: string)
    requires Inv(s) && RestoreRetry.Reaches(s.host, ns, spec) && spec.backupId == t && t in s.records
    requires RestorePass(s.host, s.restoreDir, ns, spec, turn).ran.Some?
    ensures RunsOn(s, RestorePass(s.host, s.restoreDir, ns, spec, turn), t)
  {
    hide Inv, RestorePass, RestoreRetry.Listed, PathOf, Resolve, CouplingRuns.Last, RestoreCommand, IsRestoreDir, Good;
    RestoreRetry.PassShape(s.host, s.restoreDir, ns, spec, turn);
    CouplingRuns.LastOfCommand(spec, s.restoreDir);
    RecordId(s, t);
    CouplingRuns.InvDir(s);
    DirResolves(s.restoreDir);
    ResolveChild(s.restoreDir, t);
    forall n ensures Place(s, t, n) == PathOf(s.restoreDir) + [t] + [n] {
      assert PathOf(s.restoreDir) + [t] + [n] == PathOf(s.restoreDir) + [t, n];
    }
  }

  /** The round trip: after the restore, RestoreDir/t holds exactly the files of the backup with their
      contents, for every backup on GCS and for those that fit on one page on S3; zero-length files are exactly
      the ones skipped. RestoreDir/t is the directory that the restore command is run on. */
  lemma RestoredExactly(s: System, ns: string, spec: RestoreSpec, turn: RestoreTurn, t: string, id: BucketId,
                        folder: string)
    requires Inv(s) && RestoresOwn(s, ns, spec, turn, t, id, folder)
    requires RestorePass(s.host, s.restoreDir, ns, spec, turn).ran.Some?
    requires WhollyListed(spec, turn, folder, t)
    ensures HoldsExactly(s, ns, spec, RestoredTree(s, ns, spec, turn), t, s.records[t].files)
    ensures RunsOn(s, RestorePass(s.host, s.restoreDir, ns, spec, turn), t)
  {
    hide Inv, RestorePass, RestoredTree, RestoreRetry.Listed, Key, RestoreAllowed, Place;
    var tree' := RestoredTree(s, ns, spec, turn);
    CommandRunsOn(s, ns, spec, turn, t);
    ListsAll(s, ns, spec, turn, t, id, folder);
    forall n
      ensures IsFile(tree', Place(s, t, n)) <==>
                n in s.records[t].files && (|s.records[t].files[n]| > 0 || HasFile(s, ns, spec, t, n))
      ensures IsFile(tree', Place(s, t, n)) ==> tree'[Place(s, t, n)] == File(s.records[t].files[n])
    {
      RestoredPlaces(s, ns, spec, turn, t, id, folder, n);
      if HasFile(s, ns, spec, t, n) {
        HadFile(s, ns, spec, t, n);
      }
    }
  }

  lemma HadFile(s: System, ns: string, spec: RestoreSpec, t: string, n: string)
    requires Inv(s) && t in s.records && PodId(ns, spec.podName) in s.host.pods && HasFile(s, ns, spec, t, n)
    ensures n in s.records[t].files
    ensures s.host.pods[PodId(ns, spec.podName)][Place(s, t, n)] == File(s.records[t].files[n])
  {
    hide Inv, PathOf;
    CouplingRuns.InvDir(s);
    CouplingRuns.PlaceAgrees(s, PodId(ns, spec.podName), s.restoreDir, t, n);
  }

  /** Every file of backup t is at its place. */
  ghost predicate CameBack(s: System, tree: Tree, t: string)
    requires t in s.records
  {
    forall n | n in s.records[t].files :: IsFile(tree, Place(s, t, n))
  }

  /** On S3 a backup of non-empty files of which the pod has none comes back whole exactly if it fits on one
      page; where no backup's folder is nested below it, exactly if it has at most PAGE_SIZE files. */
  lemma WholeIffOnePage(s: System, ns: string, spec: RestoreSpec, turn: RestoreTurn, t: string, id: BucketId,
                        folder: string)
    requires Inv(s) && RestoresOwn(s, ns, spec, turn, t, id, folder) && forall n :: !HasFile(s, ns, spec, t, n)
    requires RestorePass(s.host, s.restoreDir, ns, spec, turn).ran.Some?
    requires spec.storage.provider == "s3" && forall n | n in s.records[t].files :: |s.records[t].files[n]| > 0
    ensures
      var tree' := RestoredTree(s, ns, spec, turn);
      && (CameBack(s, tree', t) <==> FitsOnePage(turn.order, RemoteFolder(folder, t)))
      && (Unnested(s.records, id, folder, t) ==>
            (CameBack(s, tree', t) <==> |s.records[t].files.Keys| <= 1000))
  {
    hide Inv, RestorePass, RestoredTree, RestoreRetry.Listed, Key, Place, FitsOnePage, Unnested;
    var tree' := RestoredTree(s, ns, spec, turn);
    ListsAll(s, ns, spec, turn, t, id, folder);
    if Unnested(s.records, id, folder, t) {
      UnnestedPage(s, spec, turn, t, id, folder);
    }
    forall n | n in s.records[t].files
      ensures IsFile(tree', Place(s, t, n)) <==> Key(folder, t, n) in RestoreRetry.Listed(spec, turn.order)
    {
      RestoredPlaces(s, ns, spec, turn, t, id, folder, n);
      assert !HasFile(s, ns, spec, t, n);
    }
  }

  /** From a backup that reports success to a restore by its id, with any backups and restores in between,
      successful or not: what the command wrote is what the restored directory holds. */
  lemma EndToEnd(s: System, bns: string, backup: BackupSpec, backupTurn: BackupTurn, steps: seq<Step>, ns: string,
                 spec: RestoreSpec, turn: RestoreTurn, id: BucketId, folder: string)
    requires Inv(s) && BackupAllowed(s, bns, backup, backupTurn)
    requires BackupPass(s.host, bns, backup, backupTurn).1 == Fine
    requires Target(backup.storage) == Target(spec.storage) == Some((id, folder)) && spec.backupId == backupTurn.time
    requires CouplingRuns.AllAllowed(Next(s, DoBackup(bns, backup, backupTurn)), steps)
    requires
      var s' := CouplingRuns.Run(Next(s, DoBackup(bns, backup, backupTurn)), steps);
      && RestoreRetry.Reaches(s'.host, ns, spec) && RestoreAllowed(s', spec, turn)
      && RestorePass(s'.host, s'.restoreDir, ns, spec, turn).ran.Some?
    requires WhollyListed(spec, turn, folder, backupTurn.time)
    ensures
      var s' := CouplingRuns.Run(Next(s, DoBackup(bns, backup, backupTurn)), steps);
      && HoldsExactly(s', ns, spec, RestoredTree(s', ns, spec, turn), backupTurn.time, backupTurn.written)
      && RunsOn(s', RestorePass(s'.host, s'.restoreDir, ns, spec, turn), backupTurn.time)
  {
    hide Inv, RestorePass, BackupPass, RestoreRetry.Reaches, RestoreAllowed, BackupAllowed, CouplingRuns.AllAllowed,
         CouplingRuns.Run, HoldsExactly, Left, FitsOnePage, RunsOn;
    var s1 := Next(s, DoBackup(bns, backup, backupTurn));
    CouplingRuns.NextKeepsInv(s, DoBackup(bns, backup, backupTurn));
    CouplingRuns.RunKeepsInv(s1, steps);
    SuccessLeavesWritten(s.host, bns, backup, backupTurn);
    RestoredExactly(CouplingRuns.Run(s1, steps), ns, spec, turn, backupTurn.time, id, folder);
  }

  lemma SuccessLeavesWritten(h: Host, ns: string, spec: BackupSpec, turn: BackupTurn)
    requires BackupPass(h, ns, spec, turn).1 == Fine
    ensures Left(h, ns, spec, turn) == turn.written
  {
    hide BackupCommand, WriteDir, Resolve, Shipped, MkdirAll;
  }

  // ---- A restore that nothing stops --------------------------------------------------------------------------------

  /** No file is in the way of the directory, and no directory in the way of the files. */
  ghost predicate Open(tree: Tree, d: seq<string>, bucket: Bucket, keys: seq<string>, route: RestoreLoop.Route) {
    && (forall q | AtOrAbove(q, d) :: !IsFile(tree, q))
    && (forall k | k in keys :: Fits(tree, d, bucket, k, route))
  }

  predicate Fits(tree: Tree, d: seq<string>, bucket: Bucket, k: string, route: RestoreLoop.Route) {
    && k in bucket && Good(FilePart(RestoreLoop.FileFor(route, k))) && DirPart(RestoreLoop.FileFor(route, k)) != ""
    && |RestoreLoop.Landing(route, k)| == |d| + 1 && Above(d, RestoreLoop.Landing(route, k))
    && !IsDir(tree, RestoreLoop.Landing(route, k))
  }

  lemma OpenStays(tree: Tree, d: seq<string>, bucket: Bucket, keys: seq<string>, route: RestoreLoop.Route)
    requires Open(tree, d, bucket, keys, route) && keys != []
    ensures
      var (tree', ok) := RestoreLoop.PlacedKey(tree, bucket, keys[0], route, Smooth);
      ok && Open(tree', d, bucket, keys[1..], route)
  {
    hide Put, RestoreLoop.FileFor, Good, FilePart, DirPart, Received, Resolve;
    var p := RestoreLoop.Landing(route, keys[0]);
    assert keys[0] in keys;
    assert Fits(tree, d, bucket, keys[0], route);
    forall q | Above(q, p) ensures AtOrAbove(q, d) {
      assert p[..|d|][..|q|] == p[..|q|];
    }
    if |bucket[keys[0]]| > 0 {
      PutSucceeds(tree, p, bucket[keys[0]]);
      PutEffect(tree, p, bucket[keys[0]], Put(tree, p, bucket[keys[0]]).value);
      ReceivedWhole(tree, RestoreLoop.FileFor(route, keys[0]), bucket[keys[0]]);
    }
    var tree' := RestoreLoop.PlacedKey(tree, bucket, keys[0], route, Smooth).0;
    forall k | k in keys[1..] ensures Fits(tree', d, bucket, k, route) {
      assert Fits(tree, d, bucket, k, route);
    }
  }

  lemma {:induction false} OpenPass(tree: Tree, d: seq<string>, bucket: Bucket, keys: seq<string>,
                                    route: RestoreLoop.Route)
    requires Open(tree, d, bucket, keys, route)
    ensures RestoreLoop.PlacedKeys(tree, bucket, keys, route, []).1 == |keys|
    decreases |keys|
  {
    hide RestoreLoop.PlacedKey, Open;
    if keys != [] {
      OpenStays(tree, d, bucket, keys, route);
      OpenPass(RestoreLoop.PlacedKey(tree, bucket, keys[0], route, Smooth).0, d, bucket, keys[1..], route);
    }
  }

  /** A restore of a complete backup by its own folder and id succeeds, if nothing faults, only keys of that
      backup are listed and nothing in the pod is in the way. */
  lemma RestoreSucceeds(s: System, ns: string, spec: RestoreSpec, turn: RestoreTurn, t: string, id: BucketId,
                        folder: string)
    requires Inv(s) && RestoresOwn(s, ns, spec, turn, t, id, folder)
    requires turn.setupOk && turn.listOk && turn.podOk && turn.execOk && turn.faults == []
    requires ListsOnlyOwn(s, spec, turn, t, folder)
    requires
      var tree := s.host.pods[PodId(ns, spec.podName)];
      && (forall q | AtOrAbove(q, PathOf(s.restoreDir) + [t]) :: !IsFile(tree, q))
      && (forall n | n in s.records[t].files :: !IsDir(tree, Place(s, t, n)))
    ensures RestorePass(s.host, s.restoreDir, ns, spec, turn).status == Fine
  {
    hide Inv, RestorePass, RestoreRetry.Listed, Key, RestoreRetry.RouteOf, RestoreLoop.PlacedKeys, PathOf, FilePart,
         DirPart, RestoreLoop.FileFor, RestoreLoop.Landing, Good, RestoreAllowed;
    var tree, keys := s.host.pods[PodId(ns, spec.podName)], RestoreRetry.Listed(spec, turn.order);
    var d, route := PathOf(s.restoreDir) + [t], RestoreRetry.RouteOf(s.restoreDir, folder, t);
    forall k | k in keys ensures Fits(tree, d, s.host.buckets[id], k, route) {
      var n :| n in s.records[t].files && k == Key(folder, t, n);
      CompleteKey(s, t, id, folder, n);
      RecordId(s, t);
      CouplingRuns.InvDir(s);
      OwnFile(s.restoreDir, folder, t, n);
      assert Place(s, t, n) == d + [n];
    }
    OpenPass(tree, d, s.host.buckets[id], keys, route);
    RestoreRetry.PassShape(s.host, s.restoreDir, ns, spec, turn);
  }
}
