/** pkg/remote/copy.go, untarAll: unpacking an archive below a destination, and the tree it leaves. */
module Archive {
  import opened Basics
  import opened Paths
  import opened FileTree

  /** One archive member: a directory or a regular file. */
  datatype Entry = Entry(name: string, isDir: bool, content: Bytes)

  /** clean: member names are cleaned as if they started at the root. */
  function CleanName(fileName: string): string {
    Clean("/" + fileName)
  }

  /** Where a member is unpacked; `first` is the case entrySeq == 0. */
  function OutName(t: Tree, dest: string, prefix: string, e: Entry, first: bool): string
    requires |prefix| <= |e.name|
  {
    var out := Join(dest, CleanName(e.name[|prefix|..]));
    if first && !e.isDir && IsDir(t, Resolve(out)) then Join(out, Base(CleanName(e.name))) else out
  }

  /** The panic is Go's slice-bounds panic. */
  function ExtractOne(t: Tree, dest: string, prefix: string, e: Entry, first: bool): (Tree, Status) {
    if |e.name| < |prefix| then (t, Panicked)
    else
      var out := Join(dest, CleanName(e.name[|prefix|..]));
      var based := MkdirAll(t, Resolve(ParentDir(out)));
      if based.None? then (t, Erred)
      else
        var made := if e.isDir then MkdirAll(based.value, Resolve(out))
                    else WriteFile(based.value, Resolve(OutName(based.value, dest, prefix, e, first)), e.content);
        if made.None? then (based.value, Erred) else (made.value, Fine)
  }

  /** The members from number `seqNo` on. */
  function Extract(t: Tree, dest: string, prefix: string, entries: seq<Entry>, seqNo: nat): (Tree, Status)
    requires seqNo <= |entries|
    decreases |entries| - seqNo
  {
    if seqNo == |entries| then (t, Fine)
    else
      var (t', status) := ExtractOne(t, dest, prefix, entries[seqNo], seqNo == 0);
      if status != Fine then (t', status) else Extract(t', dest, prefix, entries, seqNo + 1)
  }

  /** An archive without members is reported as a missing file. */
  function Untarred(t: Tree, dest: string, prefix: string, entries: seq<Entry>): (Tree, Status) {
    if entries == [] then (t, Erred) else Extract(t, dest, prefix, entries, 0)
  }

  class FileSystem {
    var tree: Tree

    constructor (tree: Tree)
      ensures this.tree == tree
    {
      this.tree := tree;
    }

    method Mkdir(p: string) returns (ok: bool)
      modifies this
      ensures ok == MkdirAll(old(tree), Resolve(p)).Some?
      ensures tree == if ok then MkdirAll(old(tree), Resolve(p)).value else old(tree)
    {
      var made := MkdirAll(tree, Resolve(p));
      ok := made.Some?;
      if ok {
        tree := made.value;
      }
    }

    method Create(p: string, content: Bytes) returns (ok: bool)
      modifies this
      ensures ok == WriteFile(old(tree), Resolve(p), content).Some?
      ensures tree == if ok then WriteFile(old(tree), Resolve(p), content).value else old(tree)
    {
      var made := WriteFile(tree, Resolve(p), content);
      ok := made.Some?;
      if ok {
        tree := made.value;
      }
    }

    /** The body of the extraction loop. */
    method UntarOne(header: Entry, entrySeq: nat, destFile: string, prefix: string) returns (status: Status)
      modifies this
      ensures (tree, status) == ExtractOne(old(tree), destFile, prefix, header, entrySeq == 0)
    {
      if |header.name| < |prefix| {
        return Panicked;
      }
      var outFileName := Join(destFile, CleanName(header.name[|prefix|..]));
      var baseName := ParentDir(outFileName);
      var ok := Mkdir(baseName);
      if !ok {
        return Erred;
      }
      if header.isDir {
        ok := Mkdir(outFileName);
        return if ok then Fine else Erred;
      }
      if entrySeq == 0 && IsDir(tree, Resolve(outFileName)) {
        outFileName := Join(outFileName, Base(CleanName(header.name)));
      }
      ok := Create(outFileName, header.content);
      return if ok then Fine else Erred;
    }

    method UntarAll(entries: seq<Entry>, destFile: string, prefix: string) returns (status: Status)
      modifies this
      ensures (tree, status) == Untarred(old(tree), destFile, prefix, entries)
    {
      hide ExtractOne;
      var entrySeq := -1;
      while entrySeq + 1 < |entries|
        invariant -1 <= entrySeq < |entries|
        invariant Extract(old(tree), destFile, prefix, entries, 0)
               == Extract(tree, destFile, prefix, entries, entrySeq + 1)
      {
        entrySeq := entrySeq + 1;
        status := UntarOne(entries[entrySeq], entrySeq, destFile, prefix);
        if status != Fine {
          return;
        }
      }
      return if entrySeq == -1 then Erred else Fine;
    }
  }

  // ---- Lexical placement -----------------------------------------------------------------------------

  lemma JoinRooted(dest: string, name: string)
    requires Rooted(dest)
    ensures Resolve(Join(dest, CleanName(name))) == Resolve(dest) + Resolve("/" + name)
    ensures Join(dest, CleanName(name)) == Render(Resolve(dest) + Resolve("/" + name))
    ensures AllGood(Resolve(dest) + Resolve("/" + name))
  {
    var inner := Resolve("/" + name);
    var cleaned := CleanName(name);
    assert Rooted("/" + name);
    ResolveGood("/" + name);
    ResolveGood(dest);
    assert cleaned == Render(inner);
    RenderBelow(dest, inner);
    CleanRooted(dest + "/" + cleaned);
  }

  lemma RenderBelow(dest: string, inner: seq<string>)
    requires AllGood(inner)
    ensures Resolve(dest + "/" + Render(inner)) == Resolve(dest) + inner
  {
    ResolveConcat(dest, Render(inner));
    SplitRender(inner);
    if inner == [] {
      assert Walk(Resolve(dest), ["", ""]) == Resolve(dest);
    } else {
      assert Walk(Resolve(dest), [""] + inner) == Walk(Resolve(dest), inner);
      WalkGood(Resolve(dest), inner);
    }
  }

  lemma {:induction false} SplitRender(cs: seq<string>)
    requires AllGood(cs)
    ensures Split(Render(cs), '/') == if cs == [] then ["", ""] else [""] + cs
    decreases |cs|
  {
    if cs != [] {
      var init, last := cs[..|cs| - 1], cs[|cs| - 1];
      SplitRender(init);
      SplitConcat(Slashed(init), last, '/');
      SplitPlain(last, '/');
      assert init + [last] == cs;
      if init == [] {
        assert Split("", '/') == [""];
      }
    }
  }

  /** Whatever dots and slashes a member name holds, it is unpacked at or below the cleaned destination,
      and its path has no dot components. */
  lemma LexicalPlacement(t: Tree, dest: string, prefix: string, e: Entry, first: bool)
    requires Rooted(dest) && |prefix| <= |e.name|
    ensures
      var out := OutName(t, dest, prefix, e, first);
      && AtOrAbove(Resolve(dest), Resolve(out))
      && AllGood(Resolve(out))
      && out == Render(Resolve(out))
  {
    hide Resolve, Split, Walk, Slashed;
    var rel := e.name[|prefix|..];
    JoinRooted(dest, rel);
    var plain := Join(dest, CleanName(rel));
    SlashedRooted(Resolve(plain));
    if first && !e.isDir && IsDir(t, Resolve(plain)) {
      var whole := Resolve(CleanName(e.name));
      CleanRooted("/" + e.name);
      ResolveGood("/" + e.name);
      var base := Base(CleanName(e.name));
      if whole == [] {
        assert base == "/" && plain + "/" + "/" == plain + "/" + Render([]);
        RenderBelow(plain, []);
      } else {
        ResolveChild(plain, base);
      }
      CleanRooted(plain + "/" + base);
      ResolveGood(plain + "/" + base);
    }
  }
}
