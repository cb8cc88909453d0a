/** pkg/storage: object keys, the two providers' listings, and uploading and copying back by key. */
module Storage {
  import opened Paths
  import opened FileTree

  type Bucket = map<string, Bytes>

  predicate Distinct(keys: seq<string>) {
    forall i, j | 0 <= i < j < |keys| :: keys[i] != keys[j]
  }

  /** `order` is the order in which the provider lists the keys of a bucket. */
  predicate Enumerates(order: seq<string>, keys: set<string>) {
    && (forall k | k in order :: k in keys)
    && (forall k | k in keys :: k in order)
    && Distinct(order)
  }

  const PAGE_SIZE := 1000

  /** The key under which a backup's file is stored. */
  function Key(folder: string, time: string, file: string): string {
    folder + "/" + time + "/" + file
  }

  /** strings.TrimPrefix. */
  function TrimPrefix(s: string, prefix: string): (r: string)
    ensures if prefix <= s then prefix + r == s else r == s
  {
    if prefix <= s then s[|prefix|..] else s
  }

  // ---- Listings -------------------------------------------------------------------------------------

  /** GCS lists every key that starts with the given string. */
  function GcsListing(order: seq<string>, key: string): seq<string> {
    if order == [] then []
    else
      var before, k := GcsListing(order[..|order| - 1], key), order[|order| - 1];
      if key <= k then before + [k] else before
  }

  /** With the delimiter, S3 finds the keys directly below the given folder. */
  predicate DirectlyBelow(key: string, folder: string) {
    folder + "/" <= key && '/' !in key[|folder| + 1..]
  }

  function S3Contents(order: seq<string>, key: string): seq<string> {
    if order == [] then []
    else
      var before, k := S3Contents(order[..|order| - 1], key), order[|order| - 1];
      if DirectlyBelow(k, key) then before + [k] else before
  }

  /** An entry of S3's answer: an object directly below the folder, or what deeper keys share up to their next
      slash. */
  datatype S3Entry = ObjectEntry(key: string) | CommonPrefix(prefix: string)

  function EntryFor(key: string, folder: string): S3Entry
    requires folder + "/" <= key
  {
    var rest := key[|folder| + 1..];
    if '/' !in rest then ObjectEntry(key) else CommonPrefix(folder + "/" + Split(rest, '/')[0] + "/")
  }

  /** The answer over all pages: each common prefix once, where its first key is. */
  function S3Entries(order: seq<string>, key: string): seq<S3Entry> {
    if order == [] then []
    else
      var before, k := S3Entries(order[..|order| - 1], key), order[|order| - 1];
      if !(key + "/" <= k) || EntryFor(k, key) in before then before else before + [EntryFor(k, key)]
  }

  /** Only the first page is asked for; common prefixes take up room on it. */
  function S3Page(order: seq<string>, key: string): seq<S3Entry> {
    var entries := S3Entries(order, key);
    if |entries| <= PAGE_SIZE then entries else entries[..PAGE_SIZE]
  }

  function ObjectsOf(entries: seq<S3Entry>): seq<string> {
    if entries == [] then []
    else
      var before, e := ObjectsOf(entries[..|entries| - 1]), entries[|entries| - 1];
      if e.ObjectEntry? then before + [e.key] else before
  }

  function S3Listing(order: seq<string>, key: string): seq<string> {
    ObjectsOf(S3Page(order, key))
  }

  /** How many entries there are up to the last object. */
  function UpToLastObject(entries: seq<S3Entry>): (n: nat)
    ensures n <= |entries|
  {
    if entries == [] then 0
    else if entries[|entries| - 1].ObjectEntry? then |entries|
    else UpToLastObject(entries[..|entries| - 1])
  }

  /** The folder's objects, and the common prefixes listed before the last of them, fit on one page. */
  predicate FitsOnePage(order: seq<string>, key: string) {
    UpToLastObject(S3Entries(order, key)) <= PAGE_SIZE
  }

  method ListGcs(order: seq<string>, key: string) returns (res: seq<string>)
    ensures res == GcsListing(order, key)
  {
    res := [];
    for i := 0 to |order|
      invariant res == GcsListing(order[..i], key)
    {
      assert order[..i + 1][..i] == order[..i];
      if key <= order[i] {
        res := res + [order[i]];
      }
    }
    assert order[..|order|] == order;
  }

  /** The answer's objects; its common prefixes are dropped. */
  method ListS3(page: seq<S3Entry>) returns (results: seq<string>)
    ensures results == ObjectsOf(page)
    ensures forall k :: k in results <==> ObjectEntry(k) in page
  {
    results := [];
    for i := 0 to |page|
      invariant results == ObjectsOf(page[..i])
      invariant forall k :: k in results <==> ObjectEntry(k) in page[..i]
    {
      assert page[..i + 1] == page[..i] + [page[i]];
      if page[i].ObjectEntry? {
        results := results + [page[i].key];
      }
    }
    assert page[..|page|] == page;
  }

  lemma {:induction false} GcsMembers(order: seq<string>, key: string)
    ensures forall k :: k in GcsListing(order, key) <==> k in order && key <= k
    decreases |order|
  {
    if order != [] {
      var n := |order| - 1;
      GcsMembers(order[..n], key);
      assert order == order[..n] + [order[n]];
    }
  }

  lemma {:induction false} S3Members(order: seq<string>, key: string)
    ensures forall k :: k in S3Contents(order, key) <==> k in order && DirectlyBelow(k, key)
    decreases |order|
  {
    hide DirectlyBelow;
    if order != [] {
      var n := |order| - 1;
      S3Members(order[..n], key);
      assert order == order[..n] + [order[n]];
    }
  }

  lemma {:induction false} ObjectsMembers(entries: seq<S3Entry>)
    ensures forall k :: k in ObjectsOf(entries) <==> ObjectEntry(k) in entries
    decreases |entries|
  {
    if entries != [] {
      var n := |entries| - 1;
      ObjectsMembers(entries[..n]);
      assert entries == entries[..n] + [entries[n]];
    }
  }

  lemma EntryShape(k: string, folder: string)
    requires folder + "/" <= k
    ensures EntryFor(k, folder).ObjectEntry? <==> DirectlyBelow(k, folder)
    ensures EntryFor(k, folder).ObjectEntry? ==> EntryFor(k, folder).key == k
  {
  }

  lemma BelowStarts(k: string, folder: string)
    requires DirectlyBelow(k, folder)
    ensures folder + "/" <= k
  {
  }

  lemma {:induction false} EntriesStored(order: seq<string>, key: string)
    ensures forall k | ObjectEntry(k) in S3Entries(order, key) :: k in order && DirectlyBelow(k, key)
    decreases |order|
  {
    hide DirectlyBelow, EntryFor;
    if order != [] {
      var n := |order| - 1;
      EntriesStored(order[..n], key);
      assert order == order[..n] + [order[n]];
      if key + "/" <= order[n] {
        EntryShape(order[n], key);
      }
    }
  }

  /** A key is listed by S3 only if it is stored directly below the folder. */
  lemma ListedIsStored(order: seq<string>, key: string)
    ensures forall k | k in S3Listing(order, key) :: k in order && DirectlyBelow(k, key)
  {
    hide S3Entries, ObjectsOf, DirectlyBelow;
    ObjectsMembers(S3Page(order, key));
    EntriesStored(order, key);
  }

  /** Over all pages S3's objects are the keys directly below the folder, each once. */
  lemma {:induction false} EntriesHoldContents(order: seq<string>, key: string)
    requires Distinct(order)
    ensures ObjectsOf(S3Entries(order, key)) == S3Contents(order, key)
    decreases |order|
  {
    hide DirectlyBelow, EntryFor;
    if order != [] {
      var n := |order| - 1;
      var init, k := order[..n], order[n];
      EntriesHoldContents(init, key);
      if key + "/" <= k {
        EntryShape(k, key);
        ObjectsMembers(S3Entries(init, key));
        S3Members(init, key);
        assert k !in init;
      } else if DirectlyBelow(k, key) {
        BelowStarts(k, key);
      }
    }
  }

  lemma {:induction false} ObjectsCut(entries: seq<S3Entry>, n: nat)
    requires n <= |entries|
    ensures ObjectsOf(entries[..n]) <= ObjectsOf(entries)
    ensures ObjectsOf(entries[..n]) == ObjectsOf(entries) <==> UpToLastObject(entries) <= n
    decreases |entries|
  {
    if n == |entries| {
      assert entries[..n] == entries;
    } else {
      var init := entries[..|entries| - 1];
      assert init[..n] == entries[..n];
      ObjectsCut(init, n);
    }
  }

  /** S3 lists the keys directly below the folder in order, up to some point; and all of them if and only if
      they and the common prefixes before the last of them fit on one page. */
  lemma FirstPage(order: seq<string>, key: string)
    requires Distinct(order)
    ensures S3Listing(order, key) <= S3Contents(order, key)
    ensures S3Listing(order, key) == S3Contents(order, key) <==> FitsOnePage(order, key)
  {
    hide S3Entries, S3Contents, ObjectsOf, UpToLastObject, Distinct;
    var entries := S3Entries(order, key);
    EntriesHoldContents(order, key);
    ObjectsCut(entries, if |entries| <= PAGE_SIZE then |entries| else PAGE_SIZE);
    assert entries[..|entries|] == entries;
  }

  /** Without deeper keys a page is full of objects. */
  lemma {:induction false} AllObjects(entries: seq<S3Entry>)
    requires forall e | e in entries :: e.ObjectEntry?
    ensures |ObjectsOf(entries)| == |entries| == UpToLastObject(entries)
    decreases |entries|
  {
    if entries != [] {
      var n := |entries| - 1;
      assert entries[n] in entries && forall e | e in entries[..n] :: e in entries;
      AllObjects(entries[..n]);
    }
  }

  lemma {:induction false} EntriesOfKeys(order: seq<string>, key: string)
    requires forall k | k in order && key + "/" <= k :: DirectlyBelow(k, key)
    ensures forall e | e in S3Entries(order, key) :: e.ObjectEntry?
    decreases |order|
  {
    hide DirectlyBelow, EntryFor;
    if order != [] {
      var n := |order| - 1;
      assert order[n] in order && forall k | k in order[..n] :: k in order;
      EntriesOfKeys(order[..n], key);
      if key + "/" <= order[n] {
        EntryShape(order[n], key);
      }
    }
  }

  /** If no key lies deeper below the folder, a page holds PAGE_SIZE objects. */
  lemma FlatPage(order: seq<string>, key: string)
    requires Distinct(order) && forall k | k in order && key + "/" <= k :: DirectlyBelow(k, key)
    ensures FitsOnePage(order, key) <==> |S3Contents(order, key)| <= PAGE_SIZE
    ensures
      var contents := S3Contents(order, key);
      S3Listing(order, key) == if |contents| <= PAGE_SIZE then contents else contents[..PAGE_SIZE]
  {
    hide S3Entries, S3Contents, ObjectsOf, UpToLastObject, Distinct, DirectlyBelow;
    EntriesHoldContents(order, key);
    EntriesOfKeys(order, key);
    AllObjects(S3Entries(order, key));
    FirstPage(order, key);
    AllObjects(S3Page(order, key));
  }

  // ---- Common prefixes --------------------------------------------------------------------------------

  /** `p` is what `k` has up to its first slash below the folder. */
  predicate IsPrefixOf(p: string, k: string, folder: string) {
    && folder + "/" <= p <= k && |p| > |folder| + 1 && p[|p| - 1] == '/'
    && '/' !in p[|folder| + 1..|p| - 1]
  }

  lemma {:induction false} FirstPiece(s: string)
    ensures '/' !in Split(s, '/')[0]
    ensures '/' in s ==> Split(s, '/')[0] + "/" <= s
    decreases |s|
  {
    if s != "" && s[0] != '/' {
      FirstPiece(s[1..]);
      if '/' in s {
        var piece := Split(s[1..], '/')[0];
        assert s == [s[0]] + s[1..];
        assert [s[0]] + piece + "/" == [s[0]] + (piece + "/");
      }
    }
  }

  lemma PrefixOfKey(k: string, folder: string)
    requires folder + "/" <= k && '/' in k[|folder| + 1..]
    ensures EntryFor(k, folder).CommonPrefix? && IsPrefixOf(EntryFor(k, folder).prefix, k, folder)
    ensures forall p :: IsPrefixOf(p, k, folder) <==> p == EntryFor(k, folder).prefix
  {
    var rest := k[|folder| + 1..];
    FirstPiece(rest);
    var piece := Split(rest, '/')[0];
    var prefix := folder + "/" + piece + "/";
    assert k == folder + "/" + rest;
    assert prefix == folder + "/" + (piece + "/");
    assert k[..|prefix|] == prefix;
    assert prefix[|folder| + 1..|prefix| - 1] == piece;
    forall p | IsPrefixOf(p, k, folder) ensures p == prefix {
      SameFirstSlash(p, prefix, k, |folder| + 1);
    }
  }

  /** Two beginnings that end at the first slash from `n` on are the same. */
  lemma SameFirstSlash(p: string, q: string, k: string, n: nat)
    requires n < |p| && n < |q| && p <= k && q <= k && p[|p| - 1] == '/' == q[|q| - 1]
    requires '/' !in p[n..|p| - 1] && '/' !in q[n..|q| - 1]
    ensures p == q
  {
    NotWithin(p, n, |p| - 1, '/');
    NotWithin(q, n, |q| - 1, '/');
  }

  lemma NotWithin(s: string, n: nat, m: nat, c: char)
    requires n <= m <= |s| && c !in s[n..m]
    ensures forall i | n <= i < m :: s[i] != c
  {
    forall i | n <= i < m ensures s[i] != c {
      assert s[i] == s[n..m][i - n];
    }
  }

  lemma PrefixOfPrefix(a: string, p: string, k: string)
    requires a <= p && p <= k
    ensures a <= k
  {
    assert k[..|a|] == p[..|a|];
  }

  /** The answer holds each common prefix of the deeper keys once, and no entry twice. */
  lemma {:induction false} PrefixesListed(order: seq<string>, folder: string)
    ensures forall p ::
              CommonPrefix(p) in S3Entries(order, folder) <==> exists k :: k in order && IsPrefixOf(p, k, folder)
    ensures forall i, j | 0 <= i < j < |S3Entries(order, folder)| ::
              S3Entries(order, folder)[i] != S3Entries(order, folder)[j]
    decreases |order|
  {
    hide IsPrefixOf, EntryFor;
    if order != [] {
      var n := |order| - 1;
      var k := order[n];
      PrefixesListed(order[..n], folder);
      assert order == order[..n] + [k];
      OneKeysPrefix(k, folder);
    }
  }

  lemma OneKeysPrefix(k: string, folder: string)
    ensures forall p :: IsPrefixOf(p, k, folder) <==> folder + "/" <= k && EntryFor(k, folder) == CommonPrefix(p)
  {
    forall p | IsPrefixOf(p, k, folder) ensures folder + "/" <= k {
      PrefixOfPrefix(folder + "/", p, k);
    }
    if folder + "/" <= k {
      if '/' in k[|folder| + 1..] {
        PrefixOfKey(k, folder);
      } else {
        NotWithin(k, |folder| + 1, |k|, '/');
      }
    }
  }

  // ---- Keys -----------------------------------------------------------------------------------------

  lemma KeySplits(folder: string, time: string, file: string)
    requires '/' !in time && '/' !in file
    ensures Split(Key(folder, time, file), '/') == Split(folder, '/') + [time, file]
  {
    SplitConcat(folder + "/" + time, file, '/');
    SplitConcat(folder, time, '/');
    SplitPlain(time, '/');
    SplitPlain(file, '/');
  }

  /** A key determines folder, time and file. */
  lemma KeyInjective(folder: string, time: string, file: string, folder': string, time': string, file': string)
    requires '/' !in time && '/' !in file && '/' !in time' && '/' !in file'
    requires Key(folder, time, file) == Key(folder', time', file')
    ensures folder == folder' && time == time' && file == file'
  {
    KeySplits(folder, time, file);
    KeySplits(folder', time', file');
    var n, n' := |Split(folder, '/')|, |Split(folder', '/')|;
    var pieces := Split(folder, '/') + [time, file];
    var pieces' := Split(folder', '/') + [time', file'];
    assert pieces == pieces';
    assert pieces[n] == time && pieces[n + 1] == file && pieces'[n'] == time' && pieces'[n' + 1] == file';
    assert pieces[..n] == Split(folder, '/') && pieces'[..n'] == Split(folder', '/');
    UnsplitSplit(folder, '/');
    UnsplitSplit(folder', '/');
  }
}
