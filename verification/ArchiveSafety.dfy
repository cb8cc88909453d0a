/** What unpacking may touch, whatever the archive holds; and the archive of one file. */
module ArchiveSafety {
  import opened Basics
  import opened Paths
  import opened FileTree
  import opened Archive
  import opened TreeCopy

  // ---- Containment -------------------------------------------------------------------------------------------

  /** Outside `d` only directories on the way to it are new, and nothing anywhere goes or changes its kind. */
  ghost predicate Contained(t: Tree, t': Tree, d: seq<string>) {
    && (forall p | p in t :: p in t' && (t'[p].Dir? <==> t[p].Dir?))
    && (forall p | p in t && !AtOrAbove(d, p) :: t'[p] == t[p])
    && (forall p | p in t' && p !in t && !AtOrAbove(d, p) :: Above(p, d) && t'[p] == Dir)
  }

  lemma ContainedTwice(t: Tree, t': Tree, t'': Tree, d: seq<string>)
    requires Contained(t, t', d) && Contained(t', t'', d)
    ensures Contained(t, t'', d)
  {
  }

  lemma MkdirContained(t: Tree, p: seq<string>, d: seq<string>, t': Tree)
    requires MkdirAll(t, p) == Some(t') && (AtOrAbove(d, p) || AtOrAbove(p, d))
    ensures Contained(t, t', d)
  {
    hide MkdirAll;
    MkdirEffect(t, p, t');
    forall q | AtOrAbove(q, p) ensures AtOrAbove(d, q) || Above(q, d) {
      if AtOrAbove(d, p) {
        AboveChain(q, d, p);
      } else {
        assert q == p[..|q|] == d[..|p|][..|q|];
      }
    }
  }

  lemma WriteContained(t: Tree, p: seq<string>, content: Bytes, d: seq<string>, t': Tree)
    requires WriteFile(t, p, content) == Some(t') && AtOrAbove(d, p)
    ensures Contained(t, t', d)
  {
  }

  /** The names that one member uses. */
  lemma MemberPlaces(dest: string, prefix: string, e: Entry)
    requires Rooted(dest) && |prefix| <= |e.name|
    ensures
      var out := Join(dest, CleanName(e.name[|prefix|..]));
      var d, parent := Resolve(dest), Resolve(ParentDir(out));
      && AtOrAbove(d, Resolve(out))
      && parent == (if Resolve(out) == [] then [] else Resolve(out)[..|Resolve(out)| - 1])
      && (AtOrAbove(d, parent) || AtOrAbove(parent, d))
  {
    hide Resolve, Slashed;
    var rel := e.name[|prefix|..];
    JoinRooted(dest, rel);
    var q, d := Resolve(dest) + Resolve("/" + rel), Resolve(dest);
    DirOfRender(q);
    if q != [] {
      AboveChain(q[..|q| - 1], d, q);
    }
  }

  lemma OneContained(t: Tree, dest: string, prefix: string, e: Entry, first: bool)
    requires Rooted(dest)
    ensures Contained(t, ExtractOne(t, dest, prefix, e, first).0, Resolve(dest))
    ensures ExtractOne(t, dest, prefix, e, first).1.Panicked? <==> |e.name| < |prefix|
  {
    hide Resolve, MkdirAll, WriteFile, OutName, Join, ParentDir;
    if |e.name| >= |prefix| {
      var d, out := Resolve(dest), Join(dest, CleanName(e.name[|prefix|..]));
      MemberPlaces(dest, prefix, e);
      var based := MkdirAll(t, Resolve(ParentDir(out)));
      if based.Some? {
        MkdirContained(t, Resolve(ParentDir(out)), d, based.value);
        var t' := ExtractOne(t, dest, prefix, e, first).0;
        if e.isDir && MkdirAll(based.value, Resolve(out)).Some? {
          MkdirContained(based.value, Resolve(out), d, t');
        }
        LexicalPlacement(based.value, dest, prefix, e, first);
        var file := Resolve(OutName(based.value, dest, prefix, e, first));
        if !e.isDir && WriteFile(based.value, file, e.content).Some? {
          WriteContained(based.value, file, e.content, d, t');
        }
      }
    }
  }

  /** Whatever an archive holds and wherever unpacking stops, nothing outside the destination changes, except that
      directories on the way to it are made; and nothing anywhere is removed or turned from a file into a directory or
      back. */
  lemma {:induction false} UnpackingIsContained(t: Tree, dest: string, prefix: string, entries: seq<Entry>, n: nat)
    requires Rooted(dest) && n <= |entries|
    ensures Contained(t, Extract(t, dest, prefix, entries, n).0, Resolve(dest))
    decreases |entries| - n
  {
    hide ExtractOne, Resolve, Contained;
    if n == |entries| {
      Untouched(t, Resolve(dest));
    } else {
      OneContained(t, dest, prefix, entries[n], n == 0);
      var (t', status) := ExtractOne(t, dest, prefix, entries[n], n == 0);
      if status == Fine {
        UnpackingIsContained(t', dest, prefix, entries, n + 1);
        ContainedTwice(t, t', Extract(t', dest, prefix, entries, n + 1).0, Resolve(dest));
      }
    }
  }

  lemma Untouched(t: Tree, d: seq<string>)
    ensures Contained(t, t, d)
  {
  }

  lemma UntarIsContained(t: Tree, dest: string, prefix: string, entries: seq<Entry>)
    requires Rooted(dest)
    ensures
      var (t', status) := Untarred(t, dest, prefix, entries);
      && Contained(t, t', Resolve(dest))
      && (entries == [] ==> t' == t && status == Erred)
      && (status == Panicked ==> exists i :: 0 <= i < |entries| && |entries[i].name| < |prefix|)
  {
    hide Extract, Contained, Resolve;
    Untouched(t, Resolve(dest));
    UnpackingIsContained(t, dest, prefix, entries, 0);
    PanicsOnShortName(t, dest, prefix, entries, 0);
  }

  lemma {:induction false} PanicsOnShortName(t: Tree, dest: string, prefix: string, entries: seq<Entry>, n: nat)
    requires Rooted(dest) && n <= |entries|
    ensures Extract(t, dest, prefix, entries, n).1.Panicked? ==>
              exists i :: n <= i < |entries| && |entries[i].name| < |prefix|
    decreases |entries| - n
  {
    hide ExtractOne, Resolve, Contained;
    if n < |entries| {
      OneContained(t, dest, prefix, entries[n], n == 0);
      PanicsOnShortName(ExtractOne(t, dest, prefix, entries[n], n == 0).0, dest, prefix, entries, n + 1);
    }
  }

  // ---- A lone file -----------------------------------------------------------------------------------------------

  /** The archive of one file, with the leading slash kept. */
  function LoneFile(base: seq<string>, content: Bytes): seq<Entry> {
    ArchiveOf(base, false, [Item([], false, content)])
  }

  /** Where it goes: into the destination if that is a directory, and else to the destination itself. */
  function LonePlace(t: Tree, d: seq<string>, base: seq<string>): seq<string>
    requires base != []
  {
    if d == [] || IsDir(t, d) then d + [base[|base| - 1]] else d
  }

  lemma LoneName(dest: string, base: seq<string>, content: Bytes)
    requires Rooted(dest) && base != [] && AllGood(base)
    ensures
      var e := LoneFile(base, content)[0];
      && |LoneFile(base, content)| == 1 && e.name == Render(base) && !e.isDir && e.content == content
      && Resolve(Join(dest, CleanName(e.name[|Render(base)|..]))) == Resolve(dest)
      && Base(CleanName(e.name)) == base[|base| - 1]
  {
    hide Resolve;
    var e := LoneFile(base, content)[0];
    assert base + [] == base;
    assert Slashed(base) + "" == Slashed(base);
    assert e.name[|Render(base)|..] == "";
    JoinRooted(dest, "");
    LeadingSlash("");
    LeadingSlash(Render(base));
    ResolveRender(base);
    CleanRooted("/" + Render(base));
    EmptyPath();
    assert Resolve(dest) + [] == Resolve(dest);
  }

  lemma EmptyPath()
    ensures Resolve("") == []
  {
  }

  lemma ChildOf(d: seq<string>, name: string, p: seq<string>)
    ensures Above(p, d + [name]) <==> AtOrAbove(p, d)
  {
    assert (d + [name])[..|d|] == d;
    AboveInit(p, d + [name]);
  }

  /** What the code does at one place, once the names are resolved. */
  function LonePut(t: Tree, d: seq<string>, base: seq<string>, content: Bytes): Option<Tree>
    requires base != []
  {
    var based := MkdirAll(t, if d == [] then [] else d[..|d| - 1]);
    if based.None? then None
    else WriteFile(based.value, if IsDir(based.value, d) then d + [base[|base| - 1]] else d, content)
  }

  /** There is room for a file at `q`. */
  ghost predicate HasPlace(t: Tree, q: seq<string>) {
    !IsDir(t, q) && forall p | Above(p, q) :: !IsFile(t, p)
  }

  ghost predicate OnlyAt(t: Tree, t': Tree, q: seq<string>, content: Bytes) {
    q in t' && t'[q] == File(content) && forall p | p in t && p != q :: p in t' && t'[p] == t[p]
  }

  lemma LoneBeside(t: Tree, d: seq<string>, base: seq<string>, content: Bytes)
    requires base != [] && d != [] && !IsDir(t, d)
    ensures LonePut(t, d, base, content) == Put(t, d, content)
    ensures Put(t, d, content).Some? <==> HasPlace(t, d)
    ensures Put(t, d, content).Some? ==> OnlyAt(t, Put(t, d, content).value, d, content)
  {
    hide MkdirAll;
    var parent := d[..|d| - 1];
    AboveInit(d, d);
    if MkdirAll(t, parent).Some? {
      MkdirEffect(t, parent, MkdirAll(t, parent).value);
    }
    if Put(t, d, content).Some? {
      PutEffect(t, d, content, Put(t, d, content).value);
    }
    if HasPlace(t, d) {
      PutSucceeds(t, d, content);
    }
  }

  lemma LoneWithin(t: Tree, d: seq<string>, base: seq<string>, content: Bytes)
    requires base != [] && (d == [] || IsDir(t, d))
    ensures
      var q := d + [base[|base| - 1]];
      && (LonePut(t, d, base, content).Some? <==> HasPlace(t, q))
      && (LonePut(t, d, base, content).Some? ==> OnlyAt(t, LonePut(t, d, base, content).value, q, content))
  {
    hide MkdirAll, AtOrAbove, Above;
    var parent := if d == [] then [] else d[..|d| - 1];
    var q := d + [base[|base| - 1]];
    forall p ensures Above(p, q) <==> AtOrAbove(p, parent) || p == d {
      OnTheWay(p, parent, d);
      ChildOf(d, base[|base| - 1], p);
    }
    if HasPlace(t, q) {
      MkdirSucceeds(t, parent);
    }
    if MkdirAll(t, parent).Some? {
      MkdirEffect(t, parent, MkdirAll(t, parent).value);
      OnTheWay(q, parent, d);
      ChildOf(d, base[|base| - 1], q);
      NotAboveItself(q);
      OnTheWay(d, parent, d);
      assert q[..|q| - 1] == d;
    }
  }

  lemma NotAboveItself(q: seq<string>)
    ensures !Above(q, q)
  {
  }

  lemma OnTheWay(p: seq<string>, parent: seq<string>, d: seq<string>)
    requires parent == if d == [] then [] else d[..|d| - 1]
    ensures AtOrAbove(p, d) <==> AtOrAbove(p, parent) || p == d
    ensures d == [] ==> (AtOrAbove(p, parent) <==> p == d)
  {
    if d != [] {
      AboveInit(p, d);
    }
  }

  /** Unpacking the archive of one file succeeds exactly if no file is on the way to its place and no directory at it;
      it then writes the file there, and changes no other file. */
  lemma LoneFileUnpacks(t: Tree, dest: string, base: seq<string>, content: Bytes)
    requires Rooted(dest) && base != [] && AllGood(base)
    ensures
      var (t', status) := Untarred(t, dest, Render(base), LoneFile(base, content));
      var q := LonePlace(t, Resolve(dest), base);
      && (status == Fine <==> HasPlace(t, q))
      && (status == Fine ==> OnlyAt(t, t', q, content))
  {
    hide Resolve, Join, CleanName, Base, Render, ArchiveOf, ParentDir, MkdirAll, Untarred, WriteFile, HasPlace, OnlyAt;
    LoneName(dest, base, content);
    var e := LoneFile(base, content)[0];
    MemberPlaces(dest, Render(base), e);
    if Resolve(dest) == [] || IsDir(t, Resolve(dest)) {
      LoneWithin(t, Resolve(dest), base, content);
    } else {
      LoneBeside(t, Resolve(dest), base, content);
    }
    OneMember(t, dest, Render(base), LoneFile(base, content));
    LoneOut(t, dest, base, e);
  }

  lemma LoneOut(t: Tree, dest: string, base: seq<string>, e: Entry)
    requires Rooted(dest) && base != [] && AllGood(base) && |Render(base)| <= |e.name| && !e.isDir
    requires Resolve(Join(dest, CleanName(e.name[|Render(base)|..]))) == Resolve(dest)
    requires Base(CleanName(e.name)) == base[|base| - 1]
    ensures forall u: Tree :: Resolve(OutName(u, dest, Render(base), e, true))
                              == if IsDir(u, Resolve(dest)) then Resolve(dest) + [base[|base| - 1]] else Resolve(dest)
  {
    hide Resolve, CleanName, Base, Render;
    var out := Join(dest, CleanName(e.name[|Render(base)|..]));
    JoinRooted(dest, e.name[|Render(base)|..]);
    assert Rooted(out) by {
      RenderedRooted(Resolve(dest) + Resolve("/" + e.name[|Render(base)|..]));
    }
    assert Good(base[|base| - 1]);
    ResolveChild(out, base[|base| - 1]);
    CleanRooted(out + "/" + base[|base| - 1]);
  }

  lemma RenderedRooted(cs: seq<string>)
    ensures Rooted(Render(cs))
  {
    SlashedRooted(cs);
  }

  lemma OneMember(t: Tree, dest: string, prefix: string, entries: seq<Entry>)
    requires |entries| == 1
    ensures Untarred(t, dest, prefix, entries) == ExtractOne(t, dest, prefix, entries[0], true)
  {
    hide ExtractOne;
    var (t', status) := ExtractOne(t, dest, prefix, entries[0], true);
    assert Extract(t', dest, prefix, entries, 1) == (t', Fine);
  }
}
