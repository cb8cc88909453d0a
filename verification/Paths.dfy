/** Slash-separated path strings: splitting them, cleaning them on a stack of components, and printing
    clean rooted paths back. */
module Paths {
  /** Go's strings.Split for a one-character separator. */
  function Split(s: string, sep: char): (r: seq<string>)
    ensures |r| >= 1
  {
    if s == "" then [""]
    else
      var rest := Split(s[1..], sep);
      if s[0] == sep then [""] + rest else [[s[0]] + rest[0]] + rest[1..]
  }

  lemma {:induction false} SplitPlain(s: string, sep: char)
    requires sep !in s
    ensures Split(s, sep) == [s]
  {
    if s != "" {
      SplitPlain(s[1..], sep);
      assert s == [s[0]] + s[1..];
    }
  }

  lemma {:induction false} SplitPieces(s: string, sep: char)
    ensures forall c | c in Split(s, sep) :: sep !in c
  {
    if s != "" {
      SplitPieces(s[1..], sep);
      var rest := Split(s[1..], sep);
      if s[0] != sep {
        assert rest[0] in rest;
      }
    }
  }

  lemma SplitStep(s: string, rest: string, head: seq<string>, tail: seq<string>, sep: char)
    requires s != "" && s[1..] == rest && Split(rest, sep) == head + tail && head != []
    ensures Split(s, sep) == (if s[0] == sep then [""] + head else [[s[0]] + head[0]] + head[1..]) + tail
  {
    if s[0] == sep {
      assert [""] + (head + tail) == [""] + head + tail;
    } else {
      assert (head + tail)[1..] == head[1..] + tail;
      assert [[s[0]] + head[0]] + (head[1..] + tail) == [[s[0]] + head[0]] + head[1..] + tail;
    }
  }

  lemma {:induction false} SplitConcat(a: string, b: string, sep: char)
    ensures Split(a + [sep] + b, sep) == Split(a, sep) + Split(b, sep)
  {
    var s := a + [sep] + b;
    if a == "" {
      assert s[1..] == b;
    } else {
      SplitConcat(a[1..], b, sep);
      assert s[1..] == a[1..] + [sep] + b;
      SplitStep(s, s[1..], Split(a[1..], sep), Split(b, sep), sep);
    }
  }

  /** Joins the pieces back with the separator. */
  function Unsplit(pieces: seq<string>, sep: char): string
    requires pieces != []
  {
    if |pieces| == 1 then pieces[0] else pieces[0] + [sep] + Unsplit(pieces[1..], sep)
  }

  lemma {:induction false} UnsplitSplit(s: string, sep: char)
    ensures Unsplit(Split(s, sep), sep) == s
  {
    if s != "" {
      UnsplitSplit(s[1..], sep);
      var rest := Split(s[1..], sep);
      if s[0] == sep {
        assert ([""] + rest)[1..] == rest;
      } else {
        var whole := [[s[0]] + rest[0]] + rest[1..];
        assert whole[1..] == rest[1..];
        assert s == [s[0]] + Unsplit(rest, sep);
      }
    }
  }

  // ---- Components on a stack ----------------------------------------------------------------------

  /** One step of rooted cleaning: "." and empty components vanish, ".." pops and stops at the root. */
  function Push(stack: seq<string>, c: string): seq<string> {
    if c == "" || c == "." then stack
    else if c == ".." then if stack == [] then [] else stack[..|stack| - 1]
    else stack + [c]
  }

  function Walk(stack: seq<string>, cs: seq<string>): seq<string>
    decreases |cs|
  {
    if cs == [] then stack else Walk(Push(stack, cs[0]), cs[1..])
  }

  /** The components a path leads to, from the root. */
  function Resolve(s: string): seq<string> {
    Walk([], Split(s, '/'))
  }

  /** A component that names something. */
  predicate Good(c: string) {
    c != "" && c != "." && c != ".." && '/' !in c
  }

  predicate AllGood(cs: seq<string>) {
    forall i | 0 <= i < |cs| :: Good(cs[i])
  }

  lemma {:induction false} WalkConcat(stack: seq<string>, a: seq<string>, b: seq<string>)
    ensures Walk(stack, a + b) == Walk(Walk(stack, a), b)
    decreases |a|
  {
    if a == [] {
      assert a + b == b;
    } else {
      WalkConcat(Push(stack, a[0]), a[1..], b);
      assert (a + b)[1..] == a[1..] + b;
    }
  }

  lemma {:induction false} WalkGood(stack: seq<string>, cs: seq<string>)
    requires AllGood(cs)
    ensures Walk(stack, cs) == stack + cs
    decreases |cs|
  {
    if cs != [] {
      WalkGood(stack + [cs[0]], cs[1..]);
      assert stack + [cs[0]] + cs[1..] == stack + cs;
    }
  }

  lemma {:induction false} WalkStaysGood(stack: seq<string>, cs: seq<string>)
    requires AllGood(stack) && forall c | c in cs :: '/' !in c
    ensures AllGood(Walk(stack, cs))
    decreases |cs|
  {
    if cs != [] {
      assert cs[0] in cs;
      WalkStaysGood(Push(stack, cs[0]), cs[1..]);
    }
  }

  /** Cleaning leaves no empty and no dot component. */
  lemma ResolveGood(s: string)
    ensures AllGood(Resolve(s))
  {
    SplitPieces(s, '/');
    WalkStaysGood([], Split(s, '/'));
  }

  lemma ResolveConcat(a: string, b: string)
    ensures Resolve(a + "/" + b) == Walk(Resolve(a), Split(b, '/'))
  {
    SplitConcat(a, b, '/');
    WalkConcat([], Split(a, '/'), Split(b, '/'));
  }

  lemma ResolveChild(a: string, c: string)
    requires Good(c)
    ensures Resolve(a + "/" + c) == Resolve(a) + [c]
  {
    ResolveConcat(a, c);
    SplitPlain(c, '/');
    WalkGood(Resolve(a), [c]);
  }

  // ---- Printing -----------------------------------------------------------------------------------

  /** "/a/b/c", and the empty string for no components. */
  function Slashed(cs: seq<string>): string {
    if cs == [] then "" else Slashed(cs[..|cs| - 1]) + "/" + cs[|cs| - 1]
  }

  /** The clean rooted path that leads to `cs`. */
  function Render(cs: seq<string>): string {
    if cs == [] then "/" else Slashed(cs)
  }

  lemma {:induction false} ResolveSlashed(cs: seq<string>)
    requires AllGood(cs)
    ensures Resolve(Slashed(cs)) == cs
    decreases |cs|
  {
    if cs != [] {
      var init, last := cs[..|cs| - 1], cs[|cs| - 1];
      ResolveSlashed(init);
      ResolveChild(Slashed(init), last);
      assert init + [last] == cs;
    }
  }

  lemma ResolveTrailingSlash(s: string)
    ensures Resolve(s + "/") == Resolve(s)
  {
    assert s + "/" == s + "/" + "";
    ResolveConcat(s, "");
  }

  lemma ResolveRender(cs: seq<string>)
    requires AllGood(cs)
    ensures Resolve(Render(cs)) == cs
  {
    if cs == [] {
      ResolveTrailingSlash("");
      assert "" + "/" == "/";
    } else {
      ResolveSlashed(cs);
    }
  }

  lemma {:induction false} SlashedConcat(a: seq<string>, b: seq<string>)
    ensures Slashed(a + b) == Slashed(a) + Slashed(b)
    decreases |b|
  {
    if b == [] {
      assert a + b == a;
    } else {
      var init, last := b[..|b| - 1], b[|b| - 1];
      SlashedConcat(a, init);
      assert (a + b)[..|a + b| - 1] == a + init && (a + b)[|a + b| - 1] == last;
      assert Slashed(a) + Slashed(init) + "/" + last == Slashed(a) + (Slashed(init) + "/" + last);
    }
  }

  // ---- Go's path package ----------------------------------------------------------------------------

  predicate Rooted(s: string) {
    s != "" && s[0] == '/'
  }

  /** One step of cleaning a relative path: a ".." with nothing to pop is kept. */
  function PushRelative(stack: seq<string>, c: string): seq<string> {
    if c == ".." && (stack == [] || stack[|stack| - 1] == "..") then stack + [c] else Push(stack, c)
  }

  function WalkRelative(stack: seq<string>, cs: seq<string>): seq<string>
    decreases |cs|
  {
    if cs == [] then stack else WalkRelative(PushRelative(stack, cs[0]), cs[1..])
  }

  /** path.Clean. */
  function Clean(s: string): string {
    if Rooted(s) then Render(Resolve(s))
    else
      var cs := WalkRelative([], Split(s, '/'));
      if cs == [] then "." else Slashed(cs)[1..]
  }

  /** path.Join of two elements; empty elements are ignored. */
  function Join(a: string, b: string): string {
    if a == "" then if b == "" then "" else Clean(b) else Clean(a + "/" + b)
  }

  function LastSlash(s: string): (i: int)
    ensures -1 <= i < |s|
    ensures i >= 0 ==> s[i] == '/'
    ensures forall j | i < j < |s| :: s[j] != '/'
  {
    if s == "" then -1 else if s[|s| - 1] == '/' then |s| - 1 else LastSlash(s[..|s| - 1])
  }

  /** path.Split: everything up to the last slash, and the rest. */
  function DirPart(s: string): string {
    s[..LastSlash(s) + 1]
  }

  function FilePart(s: string): string {
    s[LastSlash(s) + 1..]
  }

  /** path.Dir. */
  function ParentDir(s: string): string {
    Clean(DirPart(s))
  }

  /** path.Base of a clean rooted path. */
  function Base(s: string): string {
    var cs := Resolve(s);
    if cs == [] then "/" else cs[|cs| - 1]
  }

  /** Cleaning a rooted path is idempotent and keeps where the path leads. */
  lemma CleanRooted(s: string)
    requires Rooted(s)
    ensures Resolve(Clean(s)) == Resolve(s) && Rooted(Clean(s)) && Clean(Clean(s)) == Clean(s)
  {
    ResolveGood(s);
    ResolveRender(Resolve(s));
    SlashedRooted(Resolve(s));
  }

  lemma {:induction false} SlashedRooted(cs: seq<string>)
    ensures cs != [] ==> Rooted(Slashed(cs))
  {
    if cs != [] {
      SlashedRooted(cs[..|cs| - 1]);
      if |cs| > 1 {
        assert Slashed(cs)[0] == Slashed(cs[..|cs| - 1])[0];
      }
    }
  }

  lemma LastSlashUnique(s: string, i: int)
    requires -1 <= i < |s| && (i >= 0 ==> s[i] == '/') && forall j | i < j < |s| :: s[j] != '/'
    ensures LastSlash(s) == i
  {
  }

  lemma NoSlashAfter(a: string, c: string)
    requires '/' !in c
    ensures (a + "/" + c)[|a|] == '/' && forall j | |a| < j < |a + "/" + c| :: (a + "/" + c)[j] != '/'
  {
    var s := a + "/" + c;
    forall j | |a| < j < |s| ensures s[j] != '/' {
      assert s[j] == c[j - |a| - 1];
      assert s[j] in c;
    }
  }

  lemma LastSlashAt(a: string, c: string)
    requires '/' !in c
    ensures LastSlash(a + "/" + c) == |a|
  {
    NoSlashAfter(a, c);
    LastSlashUnique(a + "/" + c, |a|);
  }

  /** Splitting off the last component of a path. */
  lemma DirAndFile(a: string, c: string)
    requires '/' !in c
    ensures DirPart(a + "/" + c) == a + "/" && FilePart(a + "/" + c) == c
    ensures Resolve(DirPart(a + "/" + c)) == Resolve(a)
  {
    LastSlashAt(a, c);
    ResolveTrailingSlash(a);
  }

  lemma DirOfRender(cs: seq<string>)
    requires AllGood(cs)
    ensures Resolve(ParentDir(Render(cs))) == if cs == [] then [] else cs[..|cs| - 1]
  {
    if cs == [] {
      LastSlashAt("", "");
      ResolveRender([]);
      assert "/" == "" + "/" + "";
      CleanRooted("/");
    } else {
      var init, last := cs[..|cs| - 1], cs[|cs| - 1];
      DirAndFile(Slashed(init), last);
      ResolveSlashed(init);
      SlashedRooted(init);
      CleanRooted(Slashed(init) + "/");
    }
  }

  lemma DirPartResolves(s: string)
    requires Good(FilePart(s))
    ensures Resolve(s) == Resolve(DirPart(s)) + [FilePart(s)]
  {
    var i := LastSlash(s);
    if i == -1 {
      SplitPlain(s, '/');
      assert FilePart(s) == s && DirPart(s) == "";
      WalkGood([], [s]);
    } else {
      assert s == s[..i] + "/" + FilePart(s) && DirPart(s) == s[..i] + "/";
      ResolveChild(s[..i], FilePart(s));
      ResolveTrailingSlash(s[..i]);
    }
  }
}
