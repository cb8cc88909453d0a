/** Unpacking the archive of a directory re-roots its tree at the destination. */
module TreeCopy {
  import opened Basics
  import opened Paths
  import opened FileTree
  import opened Archive

  /** A node of the archived directory, by its components below that directory. */
  datatype Item = Item(rel: seq<string>, isDir: bool, content: Bytes)

  /** The name tar gives a member of the archive of `base`: directories end in a slash, and the leading
      slash is either kept or stripped; the stripped root is "./". */
  function MemberName(base: seq<string>, stripped: bool, item: Item): string {
    var name := Slashed(base + item.rel) + (if item.isDir then "/" else "");
    if !stripped then name else if name == "/" then "./" else Tail(name)
  }

  function Tail(s: string): string {
    if s == "" then "" else s[1..]
  }

  function ArchiveOf(base: seq<string>, stripped: bool, items: seq<Item>): seq<Entry> {
    seq(|items|, i requires 0 <= i < |items| =>
      Entry(MemberName(base, stripped, items[i]), items[i].isDir, items[i].content))
  }

  /** The listing of a directory: itself first, no path twice, nothing below a file. */
  ghost predicate IsListing(items: seq<Item>) {
    && |items| > 0 && items[0].rel == [] && items[0].isDir
    && (forall i | 0 <= i < |items| :: AllGood(items[i].rel))
    && (forall i, j | 0 <= i < j < |items| :: items[i].rel != items[j].rel)
    && (forall i, j | 0 <= i < |items| && 0 <= j < |items| && Above(items[i].rel, items[j].rel) :: items[i].isDir)
  }

  // ---- Names -----------------------------------------------------------------------------------------

  lemma LeadingSlash(s: string)
    ensures Resolve("/" + s) == Resolve(s)
  {
    assert "" + "/" + s == "/" + s;
    ResolveConcat("", s);
    assert Resolve("") == [];
  }

  /** What is below the archived directory, as the member name spells it. */
  lemma BelowSpelled(item: Item)
    requires AllGood(item.rel)
    ensures
      var below := Slashed(item.rel) + (if item.isDir then "/" else "");
      && Resolve(below) == item.rel
      && (below == "" <==> item.rel == [] && !item.isDir)
      && (below != "" ==> below[0] == '/')
  {
    ResolveSlashed(item.rel);
    ResolveTrailingSlash(Slashed(item.rel));
    SlashedRooted(item.rel);
    assert Slashed(item.rel) + "" == Slashed(item.rel);
  }

  lemma CutPrefix(prefix: string, below: string)
    requires prefix != "" && (below != "" ==> below[0] == '/')
    ensures (prefix + below)[|prefix|..] == below
    ensures below != "" ==> |prefix| <= |Tail(prefix + below)| && "/" + Tail(prefix + below)[|prefix|..] == below
  {
    if below != "" {
      assert Tail(prefix + below)[|prefix|..] == below[1..];
    }
  }

  lemma LongerThanRoot(base: seq<string>)
    requires base != [] && AllGood(base)
    ensures |Slashed(base)| > 1
  {
    assert Good(base[|base| - 1]);
  }

  /** Both naming conventions leave the same relative path once the prefix is cut off, and cutting is out
      of bounds exactly for a lone file whose leading slash was stripped. */
  lemma MemberNameCut(base: seq<string>, stripped: bool, item: Item)
    requires base != [] && AllGood(base) && AllGood(item.rel)
    ensures |Render(base)| <= |MemberName(base, stripped, item)| <==> !(stripped && item.rel == [] && !item.isDir)
    ensures |Render(base)| <= |MemberName(base, stripped, item)| ==>
              Resolve("/" + MemberName(base, stripped, item)[|Render(base)|..]) == item.rel
  {
    var below := Slashed(item.rel) + (if item.isDir then "/" else "");
    SlashedConcat(base, item.rel);
    SlashedRooted(base);
    LongerThanRoot(base);
    assert Slashed(base + item.rel) + (if item.isDir then "/" else "") == Slashed(base) + below;
    BelowSpelled(item);
    CutPrefix(Slashed(base), below);
    LeadingSlash(below);
  }

  // ---- Trees -----------------------------------------------------------------------------------------

  /** Nothing is in the way of a new directory `d`: no file on the path to it, nothing below it. */
  ghost predicate Clear(t: Tree, d: seq<string>) {
    && (forall p | AtOrAbove(p, d) :: !IsFile(t, p))
    && (forall p | p in t :: !Above(d, p))
  }

  /** The result: the items are there under `d`, what was there before is unchanged, and the only other
      nodes are directories on the way. */
  ghost predicate IsCopy(t: Tree, t': Tree, d: seq<string>, items: seq<Item>) {
    && (forall i | 0 <= i < |items| ::
          d + items[i].rel in t' &&
          t'[d + items[i].rel] == (if items[i].isDir then Dir else File(items[i].content)))
    && (forall p | p in t :: p in t' && t'[p] == t[p])
    && (forall p | p in t' && p !in t :: Expected(t', d, items, p))
  }

  /** The result where something may have been before: the items are there under `d`, a file may have been
      written over, and else as for IsCopy. */
  ghost predicate IsOverlay(t: Tree, t': Tree, d: seq<string>, items: seq<Item>) {
    && (forall i | 0 <= i < |items| ::
          d + items[i].rel in t' &&
          t'[d + items[i].rel] == (if items[i].isDir then Dir else File(items[i].content)))
    && (forall p | p in t :: p in t' && (t'[p] == t[p] || Overwrites(d, items, p)))
    && (forall p | p in t' && p !in t :: Expected(t', d, items, p))
  }

  ghost predicate Overwrites(d: seq<string>, items: seq<Item>, p: seq<string>) {
    exists i :: 0 <= i < |items| && p == d + items[i].rel && !items[i].isDir
  }

  /** The item can be put at `q`: no file above it, and at `q` itself nothing of the other kind. */
  ghost predicate Room(t: Tree, q: seq<string>, item: Item) {
    && (forall p | Above(p, q) :: !IsFile(t, p))
    && (if item.isDir then !IsFile(t, q) else q != [] && !IsDir(t, q))
  }

  ghost predicate Compatible(t: Tree, d: seq<string>, items: seq<Item>) {
    forall i | 0 <= i < |items| :: Room(t, d + items[i].rel, items[i])
  }

  ghost predicate Expected(t': Tree, d: seq<string>, items: seq<Item>, p: seq<string>) {
    exists i :: 0 <= i < |items| && AtOrAbove(p, d + items[i].rel) && (IsDir(t', p) || p == d + items[i].rel)
  }

  lemma JoinedAbove(d: seq<string>, a: seq<string>, b: seq<string>)
    ensures Above(d + a, d + b) <==> Above(a, b)
    ensures d + a == d + b <==> a == b
  {
    if |a| < |b| {
      assert (d + b)[..|d + a|] == d + b[..|a|];
      assert (d + a)[|d|..] == a && (d + b[..|a|])[|d|..] == b[..|a|];
    }
    assert (d + a)[|d|..] == a && (d + b)[|d|..] == b;
  }

  /** Two nodes on the way to the same place lie one above the other. */
  lemma AboveChain(p: seq<string>, d: seq<string>, q: seq<string>)
    requires AtOrAbove(p, q) && AtOrAbove(d, q)
    ensures AtOrAbove(p, d) || Above(d, p)
  {
    if |p| <= |d| {
      assert p == q[..|p|] == q[..|d|][..|p|];
    } else {
      assert d == q[..|d|] == q[..|p|][..|d|];
    }
  }

  lemma BelowD(d: seq<string>, rel: seq<string>)
    ensures AtOrAbove(d, d + rel)
  {
  }

  lemma RelAbove(d: seq<string>, a: seq<string>, b: seq<string>)
    requires AtOrAbove(d + a, d + b)
    ensures a == b || Above(a, b)
  {
    JoinedAbove(d, a, b);
    if |a| == |b| {
      assert (d + b)[..|d + a|] == d + b;
    }
  }

  /** `item` may follow the items `pre` in a listing. */
  ghost predicate Follows(pre: seq<Item>, item: Item) {
    && AllGood(item.rel)
    && (item.rel == [] ==> item.isDir)
    && (forall i | 0 <= i < |pre| :: pre[i].rel != item.rel)
    && (forall i | 0 <= i < |pre| && Above(pre[i].rel, item.rel) :: pre[i].isDir)
    && (forall i | 0 <= i < |pre| && Above(item.rel, pre[i].rel) :: item.isDir)
  }

  lemma ListingFollows(items: seq<Item>, n: nat)
    requires IsListing(items) && n < |items|
    ensures Follows(items[..n], items[n])
  {
    if n > 0 {
      assert items[0].rel != items[n].rel;
    }
  }

  /** While the items before it are unpacked, the room for the next item stays. */
  lemma RoomStays(t: Tree, t': Tree, d: seq<string>, pre: seq<Item>, item: Item)
    requires Follows(pre, item) && Room(t, d + item.rel, item) && IsOverlay(t, t', d, pre)
    ensures Room(t', d + item.rel, item)
  {
    var q := d + item.rel;
    forall p | Above(p, q) || (p == q && item.isDir) ensures !IsFile(t', p) {
      if IsFile(t', p) {
        NoFileOnTheWay(t, t', d, pre, item, p);
      }
    }
    if !item.isDir && IsDir(t', q) {
      NoDirInPlace(t, t', d, pre, item);
    }
  }

  lemma NoFileOnTheWay(t: Tree, t': Tree, d: seq<string>, pre: seq<Item>, item: Item, p: seq<string>)
    requires Follows(pre, item) && Room(t, d + item.rel, item) && IsOverlay(t, t', d, pre)
    requires Above(p, d + item.rel) || (p == d + item.rel && item.isDir)
    ensures !IsFile(t', p)
  {
    if IsFile(t', p) && !IsFile(t, p) {
      assert p !in t ==> Expected(t', d, pre, p);
      var i :| 0 <= i < |pre| && p == d + pre[i].rel;
      RelAbove(d, pre[i].rel, item.rel);
    }
  }

  lemma NoDirInPlace(t: Tree, t': Tree, d: seq<string>, pre: seq<Item>, item: Item)
    requires Follows(pre, item) && Room(t, d + item.rel, item) && IsOverlay(t, t', d, pre) && !item.isDir
    ensures !IsDir(t', d + item.rel)
  {
    var q := d + item.rel;
    if IsDir(t', q) && q !in t {
      assert Expected(t', d, pre, q);
      var i :| 0 <= i < |pre| && AtOrAbove(q, d + pre[i].rel);
      RelAbove(d, item.rel, pre[i].rel);
    }
  }

  // ---- The loop ----------------------------------------------------------------------------------------

  lemma ExpectedGrows(t': Tree, t'': Tree, d: seq<string>, pre: seq<Item>, item: Item, p: seq<string>)
    requires Expected(t', d, pre, p) && p in t' && p in t'' && (t''[p] == t'[p] || p == d + item.rel)
    ensures Expected(t'', d, pre + [item], p)
  {
    if p == d + item.rel {
      assert (pre + [item])[|pre|] == item;
    } else {
      var i :| 0 <= i < |pre| && AtOrAbove(p, d + pre[i].rel) && (IsDir(t', p) || p == d + pre[i].rel);
      assert (pre + [item])[i] == pre[i];
    }
  }

  lemma OverwritesGrows(d: seq<string>, pre: seq<Item>, item: Item, p: seq<string>)
    requires Overwrites(d, pre, p) || (p == d + item.rel && !item.isDir)
    ensures Overwrites(d, pre + [item], p)
  {
    if Overwrites(d, pre, p) {
      var i :| 0 <= i < |pre| && p == d + pre[i].rel && !pre[i].isDir;
      assert (pre + [item])[i] == pre[i];
    } else {
      assert (pre + [item])[|pre|] == item;
    }
  }

  /** Unpacking one more item, whatever way it gets there, extends the overlay by that item. */
  lemma OverlayExtends(t: Tree, t': Tree, t'': Tree, d: seq<string>, pre: seq<Item>, item: Item)
    requires IsOverlay(t, t', d, pre) && Follows(pre, item)
    requires d + item.rel in t'' && t''[d + item.rel] == if item.isDir then Dir else File(item.content)
    requires forall p | p in t' :: p in t'' && (t''[p] == t'[p] || (p == d + item.rel && !item.isDir))
    requires forall p | p in t'' && p !in t' && p != d + item.rel :: AtOrAbove(p, d + item.rel) && t''[p] == Dir
    ensures IsOverlay(t, t'', d, pre + [item])
  {
    var now := pre + [item];
    assert now[|pre|] == item && forall i | 0 <= i < |pre| :: now[i] == pre[i];
    forall i | 0 <= i < |pre| ensures d + pre[i].rel in t'' && t''[d + pre[i].rel] == t'[d + pre[i].rel] {
      JoinedAbove(d, pre[i].rel, item.rel);
    }
    forall p | p in t'' && p !in t ensures Expected(t'', d, now, p) {
      if p in t' {
        ExpectedGrows(t', t'', d, pre, item, p);
      } else {
        assert AtOrAbove(p, d + now[|pre|].rel);
      }
    }
    forall p | p in t ensures p in t'' && (t''[p] == t[p] || Overwrites(d, now, p)) {
      if t''[p] != t[p] {
        OverwritesGrows(d, pre, item, p);
      }
    }
  }

  /** What unpacking does to one place, once the names are resolved. */
  function PlaceOne(t: Tree, q: seq<string>, item: Item): (Tree, Status) {
    var based := MkdirAll(t, if q == [] then [] else q[..|q| - 1]);
    if based.None? then (t, Erred)
    else
      var made := if item.isDir then MkdirAll(based.value, q) else WriteFile(based.value, q, item.content);
      if made.None? then (based.value, Erred) else (made.value, Fine)
  }

  lemma PlaceEffect(t: Tree, q: seq<string>, item: Item)
    requires Room(t, q, item)
    ensures
      var (t', status) := PlaceOne(t, q, item);
      && status == Fine
      && q in t' && t'[q] == (if item.isDir then Dir else File(item.content))
      && (forall p | p in t :: p in t' && (t'[p] == t[p] || (p == q && !item.isDir)))
      && (forall p | p in t' && p !in t && p != q :: AtOrAbove(p, q) && t'[p] == Dir)
  {
    var parent := if q == [] then [] else q[..|q| - 1];
    forall p | AtOrAbove(p, parent) ensures AtOrAbove(p, q) && (q != [] ==> Above(p, q)) && (q == [] ==> p == q) {
      if q != [] {
        AboveInit(p, q);
      }
    }
    MkdirSucceeds(t, parent);
    var based := MkdirAll(t, parent).value;
    MkdirEffect(t, parent, based);
    assert AtOrAbove(parent, parent) && AtOrAbove(q, q);
    if item.isDir {
      forall p | AtOrAbove(p, q) ensures !IsFile(based, p) {
        assert p == q || Above(p, q);
      }
      MkdirSucceeds(based, q);
      MkdirEffect(based, q, MkdirAll(based, q).value);
    }
  }

  /** An item is placed only where there is room, and what was there stays a file or a directory. */
  lemma PlaceNeeds(t: Tree, q: seq<string>, item: Item)
    requires PlaceOne(t, q, item).1 == Fine
    ensures Room(t, q, item)
    ensures forall p | IsFile(t, p) :: IsFile(PlaceOne(t, q, item).0, p)
    ensures forall p | IsDir(t, p) :: IsDir(PlaceOne(t, q, item).0, p)
  {
    hide MkdirAll;
    var parent := if q == [] then [] else q[..|q| - 1];
    var based := MkdirAll(t, parent).value;
    MkdirEffect(t, parent, based);
    forall p | Above(p, q) ensures AtOrAbove(p, parent) {
      AboveInit(p, q);
    }
    assert AtOrAbove(q, q);
    if item.isDir {
      MkdirEffect(based, q, MkdirAll(based, q).value);
    }
  }

  /** The names that unpacking an item uses, resolved. */
  lemma OutResolves(dest: string, base: seq<string>, stripped: bool, item: Item)
    requires base != [] && AllGood(base) && AllGood(item.rel) && Rooted(dest)
    requires item.rel == [] ==> item.isDir
    ensures |Render(base)| <= |MemberName(base, stripped, item)|
    ensures
      var out := Join(dest, CleanName(MemberName(base, stripped, item)[|Render(base)|..]));
      var q := Resolve(dest) + item.rel;
      Resolve(out) == q && Resolve(ParentDir(out)) == if q == [] then [] else q[..|q| - 1]
  {
    MemberNameCut(base, stripped, item);
    JoinRooted(dest, MemberName(base, stripped, item)[|Render(base)|..]);
    DirOfRender(Resolve(dest) + item.rel);
  }

  lemma ExtractIsPlace(t: Tree, dest: string, base: seq<string>, stripped: bool, item: Item, first: bool)
    requires base != [] && AllGood(base) && AllGood(item.rel) && Rooted(dest)
    requires item.rel == [] ==> item.isDir
    requires first ==> item.isDir
    ensures ExtractOne(t, dest, Render(base), Entry(MemberName(base, stripped, item), item.isDir, item.content), first)
         == PlaceOne(t, Resolve(dest) + item.rel, item)
  {
    OutResolves(dest, base, stripped, item);
  }

  function PlaceAll(t: Tree, d: seq<string>, items: seq<Item>, n: nat): (Tree, Status)
    requires n <= |items|
    decreases |items| - n
  {
    if n == |items| then (t, Fine)
    else
      var (t', status) := PlaceOne(t, d + items[n].rel, items[n]);
      if status != Fine then (t', status) else PlaceAll(t', d, items, n + 1)
  }

  lemma {:induction false} ExtractIsPlaceAll(t: Tree, dest: string, base: seq<string>, stripped: bool, items: seq<Item>,
                                             n: nat)
    requires base != [] && AllGood(base) && Rooted(dest) && IsListing(items) && n <= |items|
    ensures Extract(t, dest, Render(base), ArchiveOf(base, stripped, items), n) == PlaceAll(t, Resolve(dest), items, n)
    decreases |items| - n
  {
    hide ExtractOne, PlaceOne;
    if n < |items| {
      ListingFollows(items, n);
      ExtractIsPlace(t, dest, base, stripped, items[n], n == 0);
      ExtractIsPlaceAll(PlaceOne(t, Resolve(dest) + items[n].rel, items[n]).0, dest, base, stripped, items, n + 1);
    }
  }

  lemma {:induction false} PlaceAllOverlays(t: Tree, t': Tree, d: seq<string>, items: seq<Item>, n: nat)
    requires IsListing(items) && n <= |items| && Compatible(t, d, items) && IsOverlay(t, t', d, items[..n])
    ensures
      var (t'', status) := PlaceAll(t', d, items, n);
      status == Fine && IsOverlay(t, t'', d, items)
    decreases |items| - n
  {
    hide PlaceOne, IsOverlay, Room, IsListing;
    if n == |items| {
      assert items[..n] == items;
    } else {
      ListingFollows(items, n);
      RoomStays(t, t', d, items[..n], items[n]);
      PlaceEffect(t', d + items[n].rel, items[n]);
      OverlayExtends(t, t', PlaceOne(t', d + items[n].rel, items[n]).0, d, items[..n], items[n]);
      assert items[..n] + [items[n]] == items[..n + 1];
      PlaceAllOverlays(t, PlaceOne(t', d + items[n].rel, items[n]).0, d, items, n + 1);
    }
  }

  lemma {:induction false} PlaceAllNeeds(t: Tree, d: seq<string>, items: seq<Item>, n: nat)
    requires n <= |items| && PlaceAll(t, d, items, n).1 == Fine
    ensures forall i | n <= i < |items| :: Room(t, d + items[i].rel, items[i])
    decreases |items| - n
  {
    hide PlaceOne;
    if n < |items| {
      PlaceNeeds(t, d + items[n].rel, items[n]);
      PlaceAllNeeds(PlaceOne(t, d + items[n].rel, items[n]).0, d, items, n + 1);
    }
  }

  lemma NothingYet(t: Tree, d: seq<string>)
    ensures IsOverlay(t, t, d, [])
  {
  }

  /** Unpacking the archive of a directory with a clean rooted path other than the root, under either naming
      convention and over whatever the destination holds, succeeds if and only if no name is a directory on one
      side and a file on the other; it then lays the directory's tree over the destination, writes over the files
      of the same names, and changes nothing else. */
  lemma ExtractionOverlays(t: Tree, dest: string, base: seq<string>, stripped: bool, items: seq<Item>)
    requires base != [] && AllGood(base) && Rooted(dest) && IsListing(items)
    ensures
      var (t', status) := Untarred(t, dest, Render(base), ArchiveOf(base, stripped, items));
      && (status == Fine <==> Compatible(t, Resolve(dest), items))
      && (status == Fine ==> IsOverlay(t, t', Resolve(dest), items))
  {
    hide PlaceAll, IsOverlay, Compatible, Extract;
    ExtractIsPlaceAll(t, dest, base, stripped, items, 0);
    if PlaceAll(t, Resolve(dest), items, 0).1 == Fine {
      PlaceAllNeeds(t, Resolve(dest), items, 0);
      AllRoom(t, Resolve(dest), items);
    }
    if Compatible(t, Resolve(dest), items) {
      NothingYet(t, Resolve(dest));
      assert items[..0] == [];
      PlaceAllOverlays(t, t, Resolve(dest), items, 0);
    }
  }

  lemma AllRoom(t: Tree, d: seq<string>, items: seq<Item>)
    requires forall i | 0 <= i < |items| :: Room(t, d + items[i].rel, items[i])
    ensures Compatible(t, d, items)
  {
  }

  lemma ClearIsCompatible(t: Tree, d: seq<string>, items: seq<Item>)
    requires Clear(t, d) && IsListing(items)
    ensures Compatible(t, d, items)
  {
    forall i | 0 <= i < |items| ensures Room(t, d + items[i].rel, items[i]) {
      var q := d + items[i].rel;
      forall p | AtOrAbove(p, q) ensures !IsFile(t, p) {
        BelowD(d, items[i].rel);
        AboveChain(p, d, q);
      }
      if !items[i].isDir {
        FilesLieBelow(items, i);
        assert Above(d, q);
      }
    }
  }

  lemma FilesLieBelow(items: seq<Item>, i: nat)
    requires IsListing(items) && i < |items| && !items[i].isDir
    ensures items[i].rel != []
  {
    if i > 0 {
      assert items[0].rel != items[i].rel;
    }
  }

  lemma ClearOverlayIsCopy(t: Tree, t': Tree, d: seq<string>, items: seq<Item>)
    requires Clear(t, d) && IsListing(items) && IsOverlay(t, t', d, items)
    ensures IsCopy(t, t', d, items)
  {
    forall i | 0 <= i < |items| && !items[i].isDir ensures d + items[i].rel !in t {
      FilesLieBelow(items, i);
      assert Above(d, d + items[i].rel);
    }
  }

  /** Into a destination that holds nothing yet it always succeeds, and leaves a copy of the tree. */
  lemma ExtractionCopiesTree(t: Tree, dest: string, base: seq<string>, stripped: bool, items: seq<Item>)
    requires base != [] && AllGood(base) && Rooted(dest)
    requires IsListing(items) && Clear(t, Resolve(dest))
    ensures
      var (t', status) := Untarred(t, dest, Render(base), ArchiveOf(base, stripped, items));
      status == Fine && IsCopy(t, t', Resolve(dest), items)
  {
    hide IsListing, Clear, Untarred, ArchiveOf, Compatible, IsOverlay, IsCopy, Resolve;
    ExtractionOverlays(t, dest, base, stripped, items);
    ClearIsCompatible(t, Resolve(dest), items);
    ClearOverlayIsCopy(t, Untarred(t, dest, Render(base), ArchiveOf(base, stripped, items)).0, Resolve(dest), items);
  }
}
