/** The two providers' listings compared: GCS matches a string prefix, S3 one level below a slash. */
module Providers {
  import opened Paths
  import opened Storage
  import opened Remote
  import opened Restore
  import opened RestorePaths
  import RestoreLoop
  import RestoreRetry
  import RoundTrip
  import opened Coupling

  /** All backups that go to bucket `id` use the same folder. */
  ghost predicate OneFolder(records: Records, id: BucketId, folder: string) {
    forall t | t in records && records[t].target.Some? && records[t].target.value.0 == id ::
      records[t].target.value.1 == folder
  }

  lemma {:induction false} SameFilter(order: seq<string>, key: string)
    requires forall k | k in order :: key <= k <==> DirectlyBelow(k, key)
    ensures GcsListing(order, key) == S3Contents(order, key)
    decreases |order|
  {
    hide DirectlyBelow;
    if order != [] {
      var n := |order| - 1;
      assert order[n] in order && forall k | k in order[..n] :: k in order;
      SameFilter(order[..n], key);
    }
  }

  lemma PrefixIsId(folder: string, t: string, t': string, n: string)
    requires |t| == |t'|
    ensures RemoteFolder(folder, t) <= Key(folder, t', n) <==> t == t'
  {
    var key := Key(folder, t', n);
    assert key == RemoteFolder(folder, t') + ("/" + n);
    assert key[..|RemoteFolder(folder, t')|] == RemoteFolder(folder, t');
    if RemoteFolder(folder, t) == RemoteFolder(folder, t') {
      assert (folder + "/" + t)[|folder| + 1..] == t && (folder + "/" + t')[|folder| + 1..] == t';
    }
  }

  /** On a bucket filled by backups under one folder, both providers find the same keys for every id, in the
      same order; S3 then lists the first page of them. */
  lemma ProvidersAgree(s: System, id: BucketId, folder: string, order: seq<string>, t: string)
    requires Inv(s) && id in s.host.buckets && OneFolder(s.records, id, folder) && IsId(t)
    requires Enumerates(order, s.host.buckets[id].Keys)
    ensures
      var found := GcsListing(order, RemoteFolder(folder, t));
      && found == S3Contents(order, RemoteFolder(folder, t))
      && S3Listing(order, RemoteFolder(folder, t)) == (if |found| <= PAGE_SIZE then found else found[..PAGE_SIZE])
      && forall k | k in found :: exists n :: k == Key(folder, t, n)
  {
    hide Key, RemoteFolder, DirectlyBelow, GcsListing, S3Contents, S3Listing, FitsOnePage, Inv, Distinct;
    forall k | k in order
      ensures RemoteFolder(folder, t) <= k <==> DirectlyBelow(k, RemoteFolder(folder, t))
      ensures RemoteFolder(folder, t) <= k ==> exists n :: k == Key(folder, t, n)
    {
      KeyUnderFolder(s, id, folder, k, t);
    }
    SameFilter(order, RemoteFolder(folder, t));
    forall k | k in order && RemoteFolder(folder, t) + "/" <= k ensures DirectlyBelow(k, RemoteFolder(folder, t)) {
      SlashCut(k, RemoteFolder(folder, t));
    }
    FlatPage(order, RemoteFolder(folder, t));
    GcsMembers(order, RemoteFolder(folder, t));
  }

  lemma SlashCut(k: string, folder: string)
    requires folder + "/" <= k
    ensures folder <= k
  {
    assert k[..|folder|] == (folder + "/")[..|folder|];
  }

  /** There GCS too lists only keys of the requested backup. */
  lemma GcsListsOnlyOwn(s: System, ns: string, spec: RestoreSpec, turn: RestoreTurn, t: string, id: BucketId,
                        folder: string)
    requires Inv(s) && RoundTrip.RestoresOwn(s, ns, spec, turn, t, id, folder) && spec.storage.provider == "gcs"
    requires OneFolder(s.records, id, folder)
    ensures RoundTrip.ListsOnlyOwn(s, spec, turn, t, folder)
  {
    hide Inv, Key, RemoteFolder, GcsListing, S3Contents, DirectlyBelow, IsId;
    RoundTrip.RecordId(s, t);
    ProvidersAgree(s, id, folder, turn.order, t);
    S3Members(turn.order, RemoteFolder(folder, t));
    forall k | k in RestoreRetry.Listed(spec, turn.order)
      ensures exists n :: n in s.records[t].files && k == Key(folder, t, n)
    {
      var n := RoundTrip.DirectlyBelowIsOwn(s, t, id, folder, k);
    }
  }

  lemma KeyUnderFolder(s: System, id: BucketId, folder: string, k: string, t: string)
    requires Inv(s) && id in s.host.buckets && k in s.host.buckets[id] && OneFolder(s.records, id, folder) && IsId(t)
    ensures RemoteFolder(folder, t) <= k <==> DirectlyBelow(k, RemoteFolder(folder, t))
    ensures RemoteFolder(folder, t) <= k ==> exists n :: k == Key(folder, t, n)
  {
    hide Key, RemoteFolder, DirectlyBelow, BucketsAgree, LocalOk, FilesAgree, FilesKept, CompleteStored, RecordsOk;
    var t', n, folder' := KeyOwner(s.host.buckets, s.records, id, k);
    assert folder' == folder;
    assert |t| == |t'| by {
      SameLength(t, t');
    }
    PrefixIsId(folder, t, t', n);
    RoundTrip.KeyBelow(folder, t, n);
    BelowHasPrefix(k, RemoteFolder(folder, t));
  }

  lemma SameLength(t: string, t': string)
    requires IsId(t) && IsId(t')
    ensures |t| == |t'|
  {
  }

  lemma BelowHasPrefix(k: string, folder: string)
    ensures DirectlyBelow(k, folder) ==> folder <= k
  {
    if DirectlyBelow(k, folder) {
      assert k[..|folder|] == (folder + "/")[..|folder|];
    }
  }

  /** In general GCS also lists the keys of a sibling whose id starts with the requested one, and S3 does
      not; restored, the sibling's files land in its own directory and never in the requested one. */
  lemma SiblingsLandApart(order: seq<string>, restoreDir: string, folder: string, id: string, more: string, n: string)
    requires IsRestoreDir(restoreDir) && Good(id) && Good(id + more) && Good(n) && more != ""
    requires Key(folder, id + more, n) in order
    ensures Key(folder, id + more, n) in GcsListing(order, RemoteFolder(folder, id))
    ensures Key(folder, id + more, n) !in S3Contents(order, RemoteFolder(folder, id))
    ensures
      var p := RestoreLoop.Landing(RestoreRetry.RouteOf(restoreDir, folder, id), Key(folder, id + more, n));
      p == PathOf(restoreDir) + [id + more, n] && p[..5] != PathOf(restoreDir) + [id]
  {
    hide Resolve, Good, IsRestoreDir, PathOf, Rest, RestoreRetry.RouteOf;
    var key := Key(folder, id + more, n);
    var remote := RemoteFolder(folder, id);
    assert key == remote + (more + "/" + n);
    assert key[|remote|..] == more + "/" + n;
    assert key[..|remote|] == remote;
    GcsMembers(order, remote);
    S3Members(order, remote);
    NotDirectlyBelow(folder, id, more, n);
    assert TrimPrefix(key, remote) == more + "/" + n;
    assert restoreDir + "/" + id + (more + "/" + n) == restoreDir + "/" + (id + more) + "/" + n;
    DirResolves(restoreDir);
    ResolveChild(restoreDir, id + more);
    ResolveChild(restoreDir + "/" + (id + more), n);
    RouteFields(restoreDir, folder, id);
    var p := PathOf(restoreDir) + [id + more, n];
    assert PathOf(restoreDir) + [id + more] + [n] == p;
    assert p[..5][4] == id + more;
    assert |id + more| > |id|;
  }

  lemma RouteFields(restoreDir: string, folder: string, id: string)
    ensures RestoreRetry.RouteOf(restoreDir, folder, id)
         == RestoreLoop.Route(RemoteFolder(folder, id), restoreDir + "/" + id)
  {
  }

  lemma NotDirectlyBelow(folder: string, id: string, more: string, n: string)
    requires more != "" && Good(id + more)
    ensures !DirectlyBelow(Key(folder, id + more, n), RemoteFolder(folder, id))
  {
    var key, remote := Key(folder, id + more, n), RemoteFolder(folder, id);
    assert key == remote + (more + "/" + n);
    assert key[|remote|] == more[0];
    assert (id + more)[|id|] == more[0];
    assert more[0] != '/' by {
      assert more[0] in id + more;
    }
    assert (remote + "/")[|remote|] == '/';
  }
}
