/** pkg/remote/copy.go: file specs, and unpacking an archive below a destination directory. */
module Copy {
  import opened Basics
  import opened Paths

  // ---- File specs -----------------------------------------------------------------------------------

  datatype FileSpec = FileSpec(ns: string, pod: string, file: string)

  function IndexOf(s: string, c: char): (i: int)
    ensures -1 <= i < |s| && (i == -1 <==> c !in s)
    ensures i != -1 ==> s[i] == c && forall j | 0 <= j < i :: s[j] != c
  {
    if s == "" then -1 else if s[0] == c then 0
    else
      var i := IndexOf(s[1..], c);
      if i == -1 then -1 else i + 1
  }

  /** None is the error "must match the canonical format". */
  function ExtractFileSpec(arg: string): Option<FileSpec> {
    var i := IndexOf(arg, ':');
    if i == -1 then Some(FileSpec("", "", arg))
    else if i > 0 then
      var file, pieces := arg[i + 1..], Split(arg[..i], '/');
      if |pieces| == 1 then Some(FileSpec("", pieces[0], file))
      else if |pieces| == 2 then Some(FileSpec(pieces[0], pieces[1], file))
      else None
    else None
  }

  lemma SpecFile(arg: string)
    requires ExtractFileSpec(arg).Some? && IndexOf(arg, ':') != -1
    ensures ExtractFileSpec(arg).value.file == arg[IndexOf(arg, ':') + 1..]
  {
  }

  /** The canonical form [[namespace/]pod:]file/path. */
  function PrintFileSpec(spec: FileSpec): string {
    if spec.ns != "" then spec.ns + "/" + spec.pod + ":" + spec.file
    else if spec.pod != "" then spec.pod + ":" + spec.file
    else spec.file
  }

  /** How often a character occurs. */
  function Count(s: string, c: char): nat {
    if s == "" then 0 else (if s[0] == c then 1 else 0) + Count(s[1..], c)
  }

  lemma {:induction false} PiecesCounted(s: string, sep: char)
    ensures |Split(s, sep)| == Count(s, sep) + 1
  {
    if s != "" {
      PiecesCounted(s[1..], sep);
    }
  }

  /** An argument is accepted exactly if it has no colon, or does not start with one and has at most one slash before
      the first. */
  lemma AcceptedExactly(arg: string)
    ensures ExtractFileSpec(arg).Some? <==>
              ':' !in arg || (arg[0] != ':' && Count(arg[..IndexOf(arg, ':')], '/') <= 1)
  {
    if ':' in arg {
      PiecesCounted(arg[..IndexOf(arg, ':')], '/');
    }
  }

  /** What Kubernetes guarantees of namespace and pod names. */
  predicate ValidName(name: string) {
    name != "" && ':' !in name && '/' !in name
  }

  lemma IndexUnique(s: string, c: char, i: nat)
    requires i < |s| && s[i] == c && forall j | 0 <= j < i :: s[j] != c
    ensures IndexOf(s, c) == i
  {
    assert c in s;
  }

  lemma FirstColon(head: string, tail: string)
    requires ':' !in head
    ensures IndexOf(head + ":" + tail, ':') == |head|
    ensures (head + ":" + tail)[..|head|] == head && (head + ":" + tail)[|head| + 1..] == tail
  {
    IndexUnique(head + ":" + tail, ':', |head|);
  }

  lemma ParseInPod(pod: string, file: string)
    requires ValidName(pod)
    ensures ExtractFileSpec(pod + ":" + file) == Some(FileSpec("", pod, file))
  {
    FirstColon(pod, file);
    SplitPlain(pod, '/');
  }

  lemma ParseInNamespace(ns: string, pod: string, file: string)
    requires ':' !in ns && '/' !in ns && ':' !in pod && '/' !in pod
    ensures ExtractFileSpec(ns + "/" + pod + ":" + file) == Some(FileSpec(ns, pod, file))
  {
    FirstColon(ns + "/" + pod, file);
    SplitConcat(ns, pod, '/');
    SplitPlain(ns, '/');
    SplitPlain(pod, '/');
  }

  /** Parsing `ns/pod:file` gives back the three parts, whatever the file string holds. */
  lemma FileSpecRoundTrip(ns: string, pod: string, file: string)
    requires ValidName(ns) && ValidName(pod)
    ensures ExtractFileSpec(ns + "/" + pod + ":" + file) == Some(FileSpec(ns, pod, file))
    ensures PrintFileSpec(FileSpec(ns, pod, file)) == ns + "/" + pod + ":" + file
  {
    ParseInNamespace(ns, pod, file);
  }

  /** The three shapes of an accepted argument. */
  lemma AcceptedShapes(arg: string) returns (ns: string, pod: string)
    requires ExtractFileSpec(arg).Some? && ':' in arg
    ensures
      var file := ExtractFileSpec(arg).value.file;
      && ':' !in ns && '/' !in ns && ':' !in pod && '/' !in pod
      && (arg == ns + "/" + pod + ":" + file || (ns == "" && pod != "" && arg == pod + ":" + file))
  {
    var i := IndexOf(arg, ':');
    var head := arg[..i];
    assert ':' !in head;
    var pieces := Split(head, '/');
    UnsplitSplit(head, '/');
    SplitPieces(head, '/');
    assert pieces[0] in pieces && pieces[|pieces| - 1] in pieces;
    assert arg == head + ":" + arg[i + 1..];
    if |pieces| == 1 {
      ns, pod := "", pieces[0];
    } else {
      ns, pod := pieces[0], pieces[1];
      assert pieces[1..] == [pod];
      assert head == ns + "/" + pod;
    }
    assert forall c | c in ns :: c in head;
    assert forall c | c in pod :: c in head;
  }

  lemma NamedReprints(ns: string, pod: string, file: string)
    requires ':' !in ns && '/' !in ns && ':' !in pod && '/' !in pod
    ensures
      var arg := ns + "/" + pod + ":" + file;
      && ExtractFileSpec(arg) == Some(FileSpec(ns, pod, file))
      && (PrintFileSpec(FileSpec(ns, pod, file)) == arg <==> arg[0] != '/')
      && (arg[0] == '/' && arg[1] != ':' ==> ExtractFileSpec(arg[1..]) == Some(FileSpec(ns, pod, file)))
  {
    hide ExtractFileSpec;
    var arg := ns + "/" + pod + ":" + file;
    ParseInNamespace(ns, pod, file);
    if ns == "" {
      assert |PrintFileSpec(FileSpec(ns, pod, file))| < |arg|;
      assert arg[1..] == pod + ":" + file;
      if pod != "" {
        ParseInPod(pod, file);
      }
    } else {
      assert arg[0] == ns[0];
    }
  }

  /** An accepted argument prints back to itself, except exactly those with a pod part that starts with a
      slash; these mean the same as without that slash. */
  lemma FileSpecReprints(arg: string)
    requires ExtractFileSpec(arg).Some?
    ensures PrintFileSpec(ExtractFileSpec(arg).value) == arg <==> !(':' in arg && arg[0] == '/')
    ensures ':' in arg && arg[0] == '/' && arg[1] != ':' ==> ExtractFileSpec(arg[1..]) == ExtractFileSpec(arg)
  {
    if ':' in arg {
      var ns, pod := AcceptedShapes(arg);
      var file := ExtractFileSpec(arg).value.file;
      hide ExtractFileSpec, IndexOf, PrintFileSpec;
      if arg == ns + "/" + pod + ":" + file {
        NamedReprints(ns, pod, file);
      } else {
        PodReprints(pod, file);
      }
    } else {
      PlainReprints(arg);
    }
  }

  lemma PodReprints(pod: string, file: string)
    requires ValidName(pod)
    ensures ExtractFileSpec(pod + ":" + file) == Some(FileSpec("", pod, file))
    ensures PrintFileSpec(FileSpec("", pod, file)) == pod + ":" + file && (pod + ":" + file)[0] != '/'
  {
    ParseInPod(pod, file);
    assert (pod + ":" + file)[0] == pod[0];
  }

  lemma PlainReprints(arg: string)
    requires ':' !in arg
    ensures ExtractFileSpec(arg).Some? && PrintFileSpec(ExtractFileSpec(arg).value) == arg
  {
  }
}
