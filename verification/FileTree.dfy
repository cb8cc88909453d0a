/** A file system as the operator and the pods use it: nodes by the components of their path. */
module FileTree {
  import opened Basics

  type Bytes = seq<bv8>

  datatype Node = Dir | File(content: Bytes)

  type Tree = map<seq<string>, Node>

  predicate IsFile(t: Tree, p: seq<string>) {
    p in t && t[p].File?
  }

  predicate IsDir(t: Tree, p: seq<string>) {
    p in t && t[p].Dir?
  }

  /** os.MkdirAll, and `mkdir -p`: the parent first; it fails if a file is in the way. */
  function MkdirAll(t: Tree, p: seq<string>): Option<Tree>
    decreases |p|
  {
    var above := if p == [] then Some(t) else MkdirAll(t, p[..|p| - 1]);
    if above.None? || IsFile(above.value, p) then None
    else Some(if p in above.value then above.value else above.value[p := Dir])
  }

  /** os.Create and a complete write: the parent must be a directory and the name must not be one. */
  function WriteFile(t: Tree, p: seq<string>, content: Bytes): Option<Tree> {
    if p == [] || !IsDir(t, p[..|p| - 1]) || IsDir(t, p) then None else Some(t[p := File(content)])
  }

  /** Make the parent, then write the file. */
  function Put(t: Tree, p: seq<string>, content: Bytes): Option<Tree> {
    if p == [] then None
    else
      var made := MkdirAll(t, p[..|p| - 1]);
      if made.None? then None else WriteFile(made.value, p, content)
  }

  /** `q` is a directory on the way to `p`. */
  predicate Above(q: seq<string>, p: seq<string>) {
    |q| < |p| && q == p[..|q|]
  }

  predicate AtOrAbove(q: seq<string>, p: seq<string>) {
    |q| <= |p| && q == p[..|q|]
  }

  lemma AboveInit(q: seq<string>, p: seq<string>)
    requires p != []
    ensures AtOrAbove(q, p[..|p| - 1]) <==> Above(q, p)
  {
    if |q| < |p| {
      assert p[..|p| - 1][..|q|] == p[..|q|];
    }
  }

  lemma {:induction false} MkdirEffect(t: Tree, p: seq<string>, t': Tree)
    requires MkdirAll(t, p) == Some(t')
    ensures forall q | q in t :: q in t' && t'[q] == t[q]
    ensures forall q | q in t' && q !in t :: AtOrAbove(q, p) && t'[q] == Dir
    ensures forall q | AtOrAbove(q, p) :: IsDir(t', q) && !IsFile(t, q)
    decreases |p|
  {
    if p != [] {
      var init := p[..|p| - 1];
      MkdirEffect(t, init, MkdirAll(t, init).value);
      forall q | AtOrAbove(q, init) || (AtOrAbove(q, p) && q != p) ensures AtOrAbove(q, init) && AtOrAbove(q, p) {
        AboveInit(q, p);
      }
    }
  }

  lemma {:induction false} MkdirSucceeds(t: Tree, p: seq<string>)
    requires forall q | AtOrAbove(q, p) :: !IsFile(t, q)
    ensures MkdirAll(t, p).Some?
    decreases |p|
  {
    assert AtOrAbove(p, p);
    if p != [] {
      var init := p[..|p| - 1];
      forall q | AtOrAbove(q, init) ensures !IsFile(t, q) {
        AboveInit(q, p);
      }
      MkdirSucceeds(t, init);
      MkdirEffect(t, init, MkdirAll(t, init).value);
    }
  }

  lemma PutEffect(t: Tree, p: seq<string>, content: Bytes, t': Tree)
    requires Put(t, p, content) == Some(t')
    ensures p != [] && p in t' && t'[p] == File(content) && !IsDir(t, p)
    ensures forall q | q in t && q != p :: q in t' && t'[q] == t[q]
    ensures forall q | q in t' && q !in t && q != p :: Above(q, p) && t'[q] == Dir
    ensures forall q | Above(q, p) :: IsDir(t', q) && !IsFile(t, q)
  {
    var init := p[..|p| - 1];
    var made := MkdirAll(t, init).value;
    MkdirEffect(t, init, made);
    forall q | Above(q, p) ensures AtOrAbove(q, init) {
      AboveInit(q, p);
    }
    forall q | AtOrAbove(q, init) ensures Above(q, p) {
      AboveInit(q, p);
    }
  }

  /** Put succeeds if no ancestor is a file and the place itself is not a directory. */
  lemma PutSucceeds(t: Tree, p: seq<string>, content: Bytes)
    requires p != [] && !IsDir(t, p) && forall q | Above(q, p) :: !IsFile(t, q)
    ensures Put(t, p, content).Some?
  {
    var init := p[..|p| - 1];
    forall q | AtOrAbove(q, init) ensures !IsFile(t, q) {
      AboveInit(q, p);
    }
    MkdirSucceeds(t, init);
    MkdirEffect(t, init, MkdirAll(t, init).value);
    assert AtOrAbove(init, init);
    AboveInit(p, p);
  }
}
