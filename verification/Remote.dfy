/** pkg/remote: what the operator reaches — the pods' file systems, its own, and the buckets — and the
    state effect of copying a directory out of a pod and a file into one. */
module Remote {
  import opened Basics
  import opened Paths
  import opened FileTree
  import opened Copy
  import opened Archive
  import opened TreeCopy
  import opened Storage

  datatype PodId = PodId(ns: string, name: string)

  datatype BucketId = BucketId(provider: string, name: string)

  /** `tmp` is the operator's os.TempDir(). */
  datatype Host = Host(tmp: string, pods: map<PodId, Tree>, local: Tree, buckets: map<BucketId, Bucket>)

  /** What tar prints: the listing of the directory, with the leading slash kept or stripped; `ok` is
      whether the pod is running and the command succeeds. */
  datatype TarRun = TarRun(items: seq<Item>, stripped: bool, ok: bool)

  /** The listing names exactly the nodes at and below `base`, with their contents. */
  ghost predicate Faithful(t: Tree, base: seq<string>, items: seq<Item>) {
    && IsListing(items)
    && (forall i | 0 <= i < |items| ::
          base + items[i].rel in t &&
          t[base + items[i].rel] == (if items[i].isDir then Dir else File(items[i].content)))
    && (forall p | p in t && AtOrAbove(base, p) :: exists i :: 0 <= i < |items| && p == base + items[i].rel)
  }

  function CopiedFrom(h: Host, src: string, dest: string, run: TarRun): (Host, Status) {
    var srcSpec, destSpec := ExtractFileSpec(src), ExtractFileSpec(dest);
    if srcSpec.None? || destSpec.None? then (h, Erred)
    else
      var base := Resolve(srcSpec.value.file);
      if PodId(srcSpec.value.ns, srcSpec.value.pod) !in h.pods || !run.ok then (h, Erred)
      else
        var (local, status) := Untarred(h.local, destSpec.value.file, Clean(srcSpec.value.file),
                                        ArchiveOf(base, run.stripped, run.items));
        (h.(local := local), status)
  }

  /** What may go wrong while one key is copied: the object is not fetched; the directory is made but the file
      is not written; the file is written and an error is reported all the same. */
  datatype CopyFault = Smooth | Unfetched | DirOnly | Unconfirmed

  /** `mkdir -p`, then tar, which writes the file whole or not at all; an empty file is skipped. */
  function CopiedTo(h: Host, dest: string, content: Bytes, tarOk: bool): (Host, bool) {
    var spec := ExtractFileSpec(dest);
    if spec.None? then (h, false)
    else
      var pod := PodId(spec.value.ns, spec.value.pod);
      if pod !in h.pods then (h, false)
      else if |content| == 0 then (h, true)
      else
        var (t, ok) := Received(h.pods[pod], spec.value.file, content, tarOk);
        (h.(pods := h.pods[pod := t]), ok)
  }

  /** The pod's side: mkdir refuses the empty path, and tar a name that is not one. */
  function Received(t: Tree, file: string, content: Bytes, tarOk: bool): (Tree, bool) {
    var made := if DirPart(file) == "" then None else MkdirAll(t, Resolve(DirPart(file)));
    if made.None? then (t, false)
    else
      var written := if tarOk && Good(FilePart(file)) then WriteFile(made.value, Resolve(file), content) else None;
      if written.None? then (made.value, false) else (written.value, true)
  }

  /** What a pod may be left with: as it was, with the file's directory, or with the file; the latter exactly if tar
      succeeds, the file has a name and a directory, and there is room for it. */
  lemma ReceivedShape(t: Tree, file: string, content: Bytes, tarOk: bool)
    ensures
      var (t', ok) := Received(t, file, content, tarOk);
      || (t' == t && !ok)
      || (MkdirAll(t, Resolve(DirPart(file))) == Some(t') && !ok)
      || (Good(FilePart(file)) && DirPart(file) != "" && Put(t, Resolve(file), content) == Some(t') && ok)
    ensures
      Received(t, file, content, tarOk).1
      <==> tarOk && Good(FilePart(file)) && DirPart(file) != "" && Put(t, Resolve(file), content).Some?
    ensures DirPart(file) != "" && MkdirAll(t, Resolve(DirPart(file))).Some? ==>
              forall q | AtOrAbove(q, Resolve(DirPart(file))) :: IsDir(Received(t, file, content, tarOk).0, q)
  {
    hide Resolve, MkdirAll, WriteFile, Good, FilePart, DirPart;
    if Good(FilePart(file)) {
      DirPartResolves(file);
    }
    if DirPart(file) != "" && MkdirAll(t, Resolve(DirPart(file))).Some? {
      MkdirEffect(t, Resolve(DirPart(file)), MkdirAll(t, Resolve(DirPart(file))).value);
      StillDirs(MkdirAll(t, Resolve(DirPart(file))).value, Resolve(file), content);
    }
  }

  /** Writing a file takes no directory's place. */
  lemma StillDirs(t: Tree, p: seq<string>, content: Bytes)
    ensures WriteFile(t, p, content).Some? ==> forall q | IsDir(t, q) :: IsDir(WriteFile(t, p, content).value, q)
  {
  }

  /** Without a fault the file is written if it can be put there. */
  lemma ReceivedWhole(t: Tree, file: string, content: Bytes)
    requires Good(FilePart(file)) && DirPart(file) != "" && Put(t, Resolve(file), content).Some?
    ensures Received(t, file, content, true) == (Put(t, Resolve(file), content).value, true)
  {
    hide Resolve, MkdirAll, WriteFile, Good, FilePart, DirPart;
    DirPartResolves(file);
  }

  class K8sClient {
    var host: Host

    constructor (host: Host)
      ensures this.host == host
    {
      this.host := host;
    }

    method CopyFromK8s(src: string, dest: string, run: TarRun) returns (status: Status)
      modifies this
      ensures (host, status) == CopiedFrom(old(host), src, dest, run)
    {
      hide Untarred, Resolve, ArchiveOf;
      var srcSpec := ExtractFileSpec(src);
      if srcSpec.None? {
        return Erred;
      }
      var destSpec := ExtractFileSpec(dest);
      if destSpec.None? {
        return Erred;
      }
      var base := Resolve(srcSpec.value.file);
      if PodId(srcSpec.value.ns, srcSpec.value.pod) !in host.pods || !run.ok {
        return Erred;
      }
      var prefix := Clean(srcSpec.value.file);
      var fs := new FileSystem(host.local);
      status := fs.UntarAll(ArchiveOf(base, run.stripped, run.items), destSpec.value.file, prefix);
      host := host.(local := fs.tree);
    }

    method CopyToK8s(dest: string, content: Bytes, tarOk: bool) returns (ok: bool)
      modifies this
      ensures (host, ok) == CopiedTo(old(host), dest, content, tarOk)
    {
      hide Resolve, MkdirAll, Good, FilePart, DirPart;
      var spec := ExtractFileSpec(dest);
      if spec.None? {
        return false;
      }
      var pod := PodId(spec.value.ns, spec.value.pod);
      if pod !in host.pods {
        return false;
      }
      if |content| == 0 {
        return true;
      }
      var file, t := spec.value.file, host.pods[pod];
      var dir := DirPart(file);
      var made := if dir == "" then None else MkdirAll(t, Resolve(dir));
      if made.None? {
        assert host.pods[pod := t] == host.pods;
        return false;
      }
      host := host.(pods := host.pods[pod := made.value]);
      if !tarOk || !Good(FilePart(file)) {
        return false;
      }
      var written := WriteFile(made.value, Resolve(file), content);
      if written.None? {
        return false;
      }
      assert host.pods[pod := written.value] == old(host).pods[pod := written.value];
      host := host.(pods := host.pods[pod := written.value]);
      return true;
    }
  }
}
