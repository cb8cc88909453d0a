/** Whole passes are runs of the interleaved machine, and a restore among other moves brings back what one alone
    brings back. */
module InterleavedPasses {
  import opened Basics
  import opened Paths
  import opened FileTree
  import Copy
  import opened Storage
  import opened Remote
  import opened Backup
  import opened Restore
  import opened RestorePaths
  import opened Coupling
  import CouplingBackup
  import CouplingRuns
  import opened Interleaved

  // ---- A whole pass is a sequence of moves -------------------------------------------------------------------

  lemma {:induction false} RunConcat(m: Machine, a: seq<Move>, b: seq<Move>)
    ensures Run(m, a + b) == Run(Run(m, a), b)
    ensures AllAllowed(m, a + b) <==> AllAllowed(m, a) && AllAllowed(Run(m, a), b)
    decreases |a|
  {
    hide Moved, MoveAllowed;
    if a == [] {
      assert a + b == b;
    } else {
      assert (a + b)[1..] == a[1..] + b && (a + b)[0] == a[0];
      RunConcat(Moved(m, a[0]), a[1..], b);
    }
  }

  lemma RunOne(m: Machine, move: Move)
    ensures Run(m, [move]) == Moved(m, move)
    ensures AllAllowed(m, [move]) <==> MoveAllowed(m, move)
  {
    hide Moved, MoveAllowed;
    assert [move][1..] == [];
    assert Run(Moved(m, move), []) == Moved(m, move);
  }

  lemma RunMore(m: Machine, move: Move, moves: seq<Move>)
    requires MoveAllowed(m, move) && AllAllowed(Moved(m, move), moves)
    ensures Run(m, [move] + moves) == Run(Moved(m, move), moves) && AllAllowed(m, [move] + moves)
  {
    hide Moved, MoveAllowed;
    RunOne(m, move);
    RunConcat(m, [move], moves);
  }

  lemma CopiedKeyPods(h: Host, bucket: Bucket, key: string, remoteFolder: string, base: string, fault: CopyFault)
    ensures CopiedKey(h, bucket, key, remoteFolder, base, fault).0
         == h.(pods := CopiedKey(h, bucket, key, remoteFolder, base, fault).0.pods)
  {
    hide Copy.ExtractFileSpec, Received;
  }

  /** The state that the copy loop of a restore leads to. */
  function AfterLoop(s: System, ns: string, spec: RestoreSpec, keys: seq<string>, i: nat,
                     faults: seq<CopyFault>): Machine
    requires i <= |keys| && Target(spec.storage).Some? && Target(spec.storage).value.0 in s.host.buckets
  {
    var (id, folder) := Target(spec.storage).value;
    var (h, n) := CopiedKeys(s.host, s.host.buckets[id], keys, i, RemoteFolder(folder, spec.backupId),
                             DestinationBase(ns, spec.podName, s.restoreDir, spec.backupId), faults);
    if LoopStatus(id.provider, s.host.buckets[id], keys, n, faults).Panicked? then Crashed(s.(host := h))
    else Machine(s.(host := h), Idle, Resting)
  }

  lemma {:induction false} LoopAsMoves(s: System, ns: string, spec: RestoreSpec, keys: seq<string>, i: nat,
                                       faults: seq<CopyFault>)
    returns (moves: seq<Move>)
    requires i <= |keys| && Target(spec.storage).Some? && Target(spec.storage).value.0 in s.host.buckets
    ensures
      var m := Machine(s, Idle, Placing(ns, spec, keys, i));
      AllAllowed(m, moves) && Run(m, moves) == AfterLoop(s, ns, spec, keys, i, faults)
    decreases |keys| - i
  {
    hide CopiedKey, RemoteFolder, DestinationBase, Restarted, AllAllowed, Run;
    var m := Machine(s, Idle, Placing(ns, spec, keys, i));
    var (id, folder) := Target(spec.storage).value;
    var move := PlaceKey(CopyFaultAt(faults, i));
    RunOne(m, move);
    if i == |keys| {
      return [move];
    }
    var remote := RemoteFolder(folder, spec.backupId);
    var base := DestinationBase(ns, spec.podName, s.restoreDir, spec.backupId);
    var (h', ok) := CopiedKey(s.host, s.host.buckets[id], keys[i], remote, base, CopyFaultAt(faults, i));
    CopiedKeyPods(s.host, s.host.buckets[id], keys[i], remote, base, CopyFaultAt(faults, i));
    FailedFetch(s.host, s.host.buckets[id], keys[i], remote, base, CopyFaultAt(faults, i));
    if ok {
      var more := LoopAsMoves(s.(host := h'), ns, spec, keys, i + 1, faults);
      moves := [move] + more;
      RunMore(m, move, more);
    } else {
      moves := [move];
    }
  }

  lemma FailedFetch(h: Host, bucket: Bucket, key: string, remoteFolder: string, base: string, fault: CopyFault)
    ensures key !in bucket || fault.Unfetched? ==> CopiedKey(h, bucket, key, remoteFolder, base, fault) == (h, false)
  {
  }

  /** A whole restore pass. */
  lemma RestoreAsMoves(s: System, ns: string, spec: RestoreSpec, turn: RestoreTurn) returns (moves: seq<Move>)
    requires RestoreAllowed(s, spec, turn)
    ensures
      var m := Machine(s, Idle, Resting);
      AllAllowed(m, moves) && Run(m, moves) == Machine(Next(s, DoRestore(ns, spec, turn)), Idle, Resting)
  {
    hide CopiedKeys, RemoteFolder, DestinationBase, AllAllowed, Run, ListingOf, RestoreCommand, LoopStatus;
    var m := Machine(s, Idle, Resting);
    var move := ListKeys(ns, spec, turn);
    var target := Target(spec.storage);
    RunOne(m, move);
    if turn.setupOk && target.Some? && target.value.0 in s.host.buckets && turn.listOk {
      var (id, folder) := target.value;
      var keys := ListingOf(id.provider, turn.order, RemoteFolder(folder, spec.backupId));
      var more := LoopAsMoves(s, ns, spec, keys, 0, turn.faults);
      moves := [move] + more;
      RunMore(m, move, more);
    } else {
      moves := [move];
    }
  }

  // ---- Backups -------------------------------------------------------------------------------------------------

  /** The state that the upload loop leads to. */
  function AfterUpload(s: System, t: string, names: seq<string>, i: nat, faults: seq<Fault>): System
    requires i <= |names| && InProgress(s.host.buckets, s.records, t)
  {
    var (id, folder) := s.records[t].target.value;
    var (bucket, ok) := Uploaded(s.host.buckets[id], s.host.local, LocalFolder(s.host, t), folder + "/" + t, names, i,
                                 faults);
    var s' := s.(host := s.host.(buckets := s.host.buckets[id := bucket]));
    if ok then Completed(s', t) else s'
  }

  lemma {:induction false} UploadAsMoves(s: System, t: string, names: seq<string>, i: nat, faults: seq<Fault>)
    returns (moves: seq<Move>)
    requires i <= |names| && InProgress(s.host.buckets, s.records, t)
    ensures
      var m := Machine(s, Uploading(t, names, i), Resting);
      AllAllowed(m, moves) && Run(m, moves) == Machine(AfterUpload(s, t, names, i, faults), Idle, Resting)
    decreases |names| - i
  {
    hide Resolve, LocalFolder, AllAllowed, Run;
    var m := Machine(s, Uploading(t, names, i), Resting);
    var (id, folder) := s.records[t].target.value;
    var move := SendFile(FaultAt(faults, i));
    RunOne(m, move);
    assert s.host.buckets[id := s.host.buckets[id]] == s.host.buckets;
    moves := [move];
    if i < |names| {
      var s' := Moved(m, move).sys;
      SameFolder(s.host, s'.host, t);
      if Moved(m, move).backup.Uploading? {
        var more := UploadAsMoves(s', t, names, i + 1, faults);
        moves := [move] + more;
        RunMore(m, move, more);
        var rest := Uploaded(s'.host.buckets[id], s'.host.local, LocalFolder(s'.host, t), folder + "/" + t, names,
                             i + 1, faults).0;
        assert s'.host.buckets[id := rest] == s.host.buckets[id := rest];
      }
    }
  }

  lemma SameFolder(h: Host, h': Host, t: string)
    requires h.tmp == h'.tmp
    ensures LocalFolder(h, t) == LocalFolder(h', t)
  {
  }

  /** What is left of a pass once its folder is there. */
  lemma ShippedAsMoves(s: System, ns: string, spec: BackupSpec, turn: BackupTurn, target: (BucketId, string))
    returns (moves: seq<Move>)
    requires turn.time in s.records && s.records[turn.time].target == Some(target) && target.0 in s.host.buckets
    requires MoveAllowed(Machine(s, Running(ns, spec.podName, turn.time), Resting), FetchFolder(turn.tar, turn.listing))
    ensures
      var m := Machine(s, Running(ns, spec.podName, turn.time), Resting);
      var (h, status) := Shipped(s.host, ns, spec, turn, target);
      var s' := s.(host := h);
      && AllAllowed(m, moves)
      && Run(m, moves) == if status.Panicked? then Crashed(s')
                          else Machine(if status.Fine? then Completed(s', turn.time) else s', Idle, Resting)
  {
    hide Resolve, LocalFolder, SourceSpec, AllAllowed, Run, MoveAllowed, Uploaded;
    var m := Machine(s, Running(ns, spec.podName, turn.time), Resting);
    var move := FetchFolder(turn.tar, turn.listing);
    CopiedFromLocal(s.host, SourceSpec(ns, spec.podName, turn.time), LocalFolder(s.host, turn.time), turn.tar);
    RunOne(m, move);
    moves := [move];
    var m' := Moved(m, move);
    if m'.backup.Uploading? {
      SameFolder(s.host, m'.sys.host, turn.time);
      var more := UploadAsMoves(m'.sys, turn.time, turn.listing, 0, turn.faults);
      moves := [move] + more;
      RunMore(m, move, more);
    }
  }

  lemma CopiedFromLocal(h: Host, src: string, dest: string, run: TarRun)
    ensures CopiedFrom(h, src, dest, run).0 == h.(local := CopiedFrom(h, src, dest, run).0.local)
  {
    hide Copy.ExtractFileSpec, Resolve, Clean;
  }

  /** A pass ends with its first move, or else is shipped from there. */
  lemma CommandedCases(s: System, ns: string, spec: BackupSpec, turn: BackupTurn)
    ensures
      var m := Commanded(Machine(s, Idle, Resting), ns, spec, turn);
      if m.backup.Running? then
        && m == Machine(m.sys, Running(ns, spec.podName, turn.time), Resting)
        && m.sys == s.(host := m.sys.host, records := s.records[turn.time := Recorded(s, ns, spec, turn)])
        && m.sys.host == BackupRun(s.host, ns, spec, turn).0.(local := m.sys.host.local)
        && Target(spec.storage).Some? && Target(spec.storage).value.0 in m.sys.host.buckets
        && BackupPass(s.host, ns, spec, turn) == Shipped(m.sys.host, ns, spec, turn, Target(spec.storage).value)
      else m == Machine(Next(s, DoBackup(ns, spec, turn)), Idle, Resting)
  {
    hide Resolve, LocalFolder, BackupRun, MkdirAll, Left, CopiedFrom, Uploaded;
  }

  lemma ShippedLocal(h: Host, ns: string, spec: BackupSpec, turn: BackupTurn, target: (BucketId, string))
    requires target.0 in h.buckets
    ensures Shipped(h, ns, spec, turn, target).0.local
         == CopiedFrom(h, SourceSpec(ns, spec.podName, turn.time), LocalFolder(h, turn.time), turn.tar).0.local
  {
    hide CopiedFrom, Uploaded, LocalFolder, SourceSpec;
    CopiedFromLocal(h, SourceSpec(ns, spec.podName, turn.time), LocalFolder(h, turn.time), turn.tar);
  }

  /** A whole backup pass. */
  lemma BackupAsMoves(s: System, ns: string, spec: BackupSpec, turn: BackupTurn) returns (moves: seq<Move>)
    requires BackupAllowed(s, ns, spec, turn)
    ensures
      var m := Machine(s, Idle, Resting);
      AllAllowed(m, moves) && Run(m, moves) == Machine(Next(s, DoBackup(ns, spec, turn)), Idle, Resting)
  {
    hide AllAllowed, Run, Shipped, BackupPass, Left, Restarted, MoveAllowed, Commanded, BackupAllowed, Target;
    var m := Machine(s, Idle, Resting);
    var move := RunCommand(ns, spec, turn);
    CommandAllowed(m, ns, spec, turn);
    CommandedCases(s, ns, spec, turn);
    RunOne(m, move);
    moves := [move];
    var m' := Moved(m, move);
    if m'.backup.Running? {
      FetchAllowed(s, m', ns, spec, turn);
      var more := ShippedAsMoves(m'.sys, ns, spec, turn, Target(spec.storage).value);
      moves := [move] + more;
      RunMore(m, move, more);
      RecordTwice(s.records, turn.time, Recorded(s, ns, spec, turn));
    }
  }

  lemma RecordTwice(records: Records, t: string, record: Record)
    ensures records[t := record][t := records[t := record][t].(complete := true)]
         == records[t := record.(complete := true)]
  {
  }

  lemma CommandAllowed(m: Machine, ns: string, spec: BackupSpec, turn: BackupTurn)
    requires BackupAllowed(m.sys, ns, spec, turn)
    ensures MoveAllowed(m, RunCommand(ns, spec, turn))
  {
    hide BackupRun, BackupPass, IsId;
  }

  lemma FetchAllowed(s: System, m: Machine, ns: string, spec: BackupSpec, turn: BackupTurn)
    requires BackupAllowed(s, ns, spec, turn)
    requires m == Commanded(Machine(s, Idle, Resting), ns, spec, turn) && m.backup.Running?
    ensures MoveAllowed(m, FetchFolder(turn.tar, turn.listing))
  {
    hide BackupRun, BackupPass, IsId, LocalFolder, SourceSpec, Lists, Faithful, CopiedFrom, BackupPath, Commanded,
         Shipped, LocalPath, Target;
    CommandedCases(s, ns, spec, turn);
    ShippedLocal(m.sys.host, ns, spec, turn, Target(spec.storage).value);
    CouplingBackup.SameLocalPath(s.host, m.sys.host) by {
      RunKeepsTmp(s.host, ns, spec, turn);
    }
  }

  lemma RunKeepsTmp(h: Host, ns: string, spec: BackupSpec, turn: BackupTurn)
    ensures BackupRun(h, ns, spec, turn).0.tmp == h.tmp
  {
    hide BackupCommand, WriteDir, Resolve;
  }

  /** Every run of whole passes is a run of the machine. */
  lemma {:induction false} AtomicIsInterleaved(s: System, steps: seq<Step>) returns (moves: seq<Move>)
    requires CouplingRuns.AllAllowed(s, steps)
    ensures
      var m := Machine(s, Idle, Resting);
      AllAllowed(m, moves) && Run(m, moves) == Machine(CouplingRuns.Run(s, steps), Idle, Resting)
    decreases |steps|
  {
    hide AllAllowed, Run, Next;
    var m := Machine(s, Idle, Resting);
    if steps == [] {
      moves := [];
      RunEmpty(m);
    } else {
      var first := StepAsMoves(s, steps[0]);
      var rest := AtomicIsInterleaved(Next(s, steps[0]), steps[1..]);
      moves := first + rest;
      RunConcat(m, first, rest);
    }
  }

  lemma RunEmpty(m: Machine)
    ensures Run(m, []) == m && AllAllowed(m, [])
  {
  }

  lemma StepAsMoves(s: System, step: Step) returns (moves: seq<Move>)
    requires Allowed(s, step)
    ensures
      var m := Machine(s, Idle, Resting);
      AllAllowed(m, moves) && Run(m, moves) == Machine(Next(s, step), Idle, Resting)
  {
    hide AllAllowed, Run, BackupAllowed, RestoreAllowed, AfterBackup, AfterRestore;
    match step {
      case DoBackup(ns, spec, turn) => moves := BackupAsMoves(s, ns, spec, turn);
      case DoRestore(ns, spec, turn) => moves := RestoreAsMoves(s, ns, spec, turn);
      case DoRestart =>
        moves := [Crash];
        RunOne(Machine(s, Idle, Resting), Crash);
    }
  }
}
