/** A restore whose keys are copied among the moves of backups brings back what a restore alone brings back. */
module InterleavedRestore {
  import opened Basics
  import opened Paths
  import opened FileTree
  import Copy
  import opened Storage
  import opened Remote
  import opened Backup
  import opened Restore
  import RestoreLoop
  import opened RestoreRetry
  import opened Coupling
  import CouplingBackup
  import opened RoundTrip
  import opened Interleaved

  // ---- Files stay files ----------------------------------------------------------------------------------------

  /** No pod goes, and no file of a pod. */
  ghost predicate FilesStay(pods: map<PodId, Tree>, pods': map<PodId, Tree>) {
    && pods'.Keys == pods.Keys
    && forall pod, p | pod in pods && IsFile(pods[pod], p) :: IsFile(pods'[pod], p)
  }

  lemma CopiedKeyKeepsFiles(h: Host, bucket: Bucket, key: string, remoteFolder: string, base: string, fault: CopyFault)
    ensures FilesStay(h.pods, CopiedKey(h, bucket, key, remoteFolder, base, fault).0.pods)
  {
    hide Copy.ExtractFileSpec, Resolve, Put, CopiedTo, MkdirAll, DirPart;
    var dest := base + TrimPrefix(key, remoteFolder);
    if key in bucket && CopiedTo(h, dest, bucket[key], !fault.DirOnly?).0 != h {
      var tree := CopiedToShape(h, dest, bucket[key], !fault.DirOnly?);
      var spec := Copy.ExtractFileSpec(dest).value;
      var to := PodId(spec.ns, spec.pod);
      if MkdirAll(h.pods[to], Resolve(DirPart(spec.file))) == Some(tree) {
        MkdirEffect(h.pods[to], Resolve(DirPart(spec.file)), tree);
      } else {
        PutEffect(h.pods[to], Resolve(spec.file), bucket[key], tree);
      }
    }
  }

  lemma RunKeepsFiles(h: Host, ns: string, spec: BackupSpec, turn: BackupTurn)
    ensures FilesStay(h.pods, BackupRun(h, ns, spec, turn).0.pods)
  {
    hide BackupCommand, WriteDir, Resolve;
    var pod, d := PodId(ns, spec.podName), Resolve(BACKUP_DIR + "/" + turn.time);
    if pod in h.pods && WriteDir(h.pods[pod], d, turn.written).Some? {
      var tree := WriteDir(h.pods[pod], d, turn.written).value;
      CouplingBackup.WriteDirEffect(h.pods[pod], d, turn.written, tree);
      forall p | IsFile(h.pods[pod], p) ensures IsFile(tree, p) {
        if CouplingBackup.EntryOf(p, d) && p[|d|] in turn.written {
          assert p == d + [p[|d|]];
        }
      }
    }
  }

  lemma FetchedPods(m: Machine, tar: TarRun)
    requires m.backup.Running?
    ensures Fetched(m, tar).0.pods == m.sys.host.pods
  {
    hide Copy.ExtractFileSpec, Resolve, Clean;
  }

  lemma MovedKeepsFiles(m: Machine, move: Move)
    ensures FilesStay(m.sys.host.pods, Moved(m, move).sys.host.pods)
  {
    hide BackupRun, CopiedKey, Fetched, Resolve, LocalFolder, MkdirAll, Left, ListingOf, RemoteFolder, DestinationBase;
    if Enabled(m, move) {
      match move {
        case RunCommand(ns, spec, turn) => RunKeepsFiles(m.sys.host, ns, spec, turn);
        case FetchFolder(tar, names) => FetchedPods(m, tar);
        case PlaceKey(fault) =>
          var h, r := m.sys.host, m.restore;
          var (id, folder) := Target(r.spec.storage).value;
          if r.i < |r.keys| {
            CopiedKeyKeepsFiles(h, h.buckets[id], r.keys[r.i], RemoteFolder(folder, r.spec.backupId),
                                DestinationBase(r.ns, r.spec.podName, m.sys.restoreDir, r.spec.backupId), fault);
          }
        case _ =>
      }
    }
  }

  // ---- What the loop has placed ----------------------------------------------------------------------------------

  /** The file of a key, unless it is empty, is in the pod. */
  predicate IsPlaced(s: System, ns: string, spec: RestoreSpec, key: string)
    requires Reaches(s.host, ns, spec)
  {
    var (id, folder) := Target(spec.storage).value;
    var bucket, route := s.host.buckets[id], RouteOf(s.restoreDir, folder, spec.backupId);
    key in bucket
    && (|bucket[key]| > 0 ==> IsFile(s.host.pods[PodId(ns, spec.podName)], RestoreLoop.Landing(route, key)))
  }

  /** A restore pass under way has placed the keys it has counted. */
  ghost predicate LoopOk(s: System, r: RestorePhase) {
    r.Placing? && r.i <= |r.keys| && Reaches(s.host, r.ns, r.spec) ==>
      forall j | 0 <= j < r.i :: IsPlaced(s, r.ns, r.spec, r.keys[j])
  }

  lemma PlacedStays(s: System, s': System, ns: string, spec: RestoreSpec, key: string)
    requires Reaches(s.host, ns, spec) && Reaches(s'.host, ns, spec) && IsPlaced(s, ns, spec, key)
    requires FilesStay(s.host.pods, s'.host.pods) && Grows(s, s') && s'.restoreDir == s.restoreDir
    ensures IsPlaced(s', ns, spec, key)
  {
    hide RestoreLoop.Landing, RouteOf;
  }

  /** The key that the loop copies next is then placed. */
  lemma NextIsPlaced(s: System, ns: string, spec: RestoreSpec, key: string, fault: CopyFault)
    requires Reaches(s.host, ns, spec)
    ensures
      var (id, folder) := Target(spec.storage).value;
      var (h, ok) := CopiedKey(s.host, s.host.buckets[id], key, RemoteFolder(folder, spec.backupId),
                               DestinationBase(ns, spec.podName, s.restoreDir, spec.backupId), fault);
      ok ==> Reaches(h, ns, spec) && IsPlaced(s.(host := h), ns, spec, key)
  {
    hide RestoreLoop.Landing, CopiedKey, RestoreLoop.PlacedKey, RemoteFolder, Copy.ValidName;
    var (id, folder) := Target(spec.storage).value;
    var route, pod := RouteOf(s.restoreDir, folder, spec.backupId), PodId(ns, spec.podName);
    assert ns + "/" + spec.podName + ":" + route.dir == DestinationBase(ns, spec.podName, s.restoreDir, spec.backupId);
    RestoreLoop.KeyPlaced(s.host, s.host.buckets[id], key, ns, spec.podName, route, fault);
    RestoreLoop.PlacedOneKinds(s.host.pods[pod], s.host.buckets[id], key, route, fault);
  }

  lemma MovedKeepsLoop(m: Machine, move: Move)
    requires MachineInv(m) && MoveAllowed(m, move) && LoopOk(m.sys, m.restore)
    ensures LoopOk(Moved(m, move).sys, Moved(m, move).restore)
  {
    hide MachineInv, MoveAllowed, IsPlaced, FilesStay, Grows, Reaches, Commanded, Fetched, Sent, CopiedKey,
         RemoteFolder, DestinationBase, ListingOf, Target;
    var m' := Moved(m, move);
    var r, r' := m.restore, m'.restore;
    MovedKeepsInv(m, move);
    MovedKeepsFiles(m, move);
    MoveKeepsPhase(m, move);
    if r'.Placing? && r'.i > 0 && r'.i <= |r'.keys| && Reaches(m'.sys.host, r'.ns, r'.spec) {
      MoveKeepsBuckets(m, move);
      ReachedBefore(m.sys, m'.sys, r'.ns, r'.spec);
      forall j | 0 <= j < r'.i && j < r.i ensures IsPlaced(m'.sys, r'.ns, r'.spec, r'.keys[j]) {
        PlacedStays(m.sys, m'.sys, r'.ns, r'.spec, r'.keys[j]);
      }
      if r'.i > r.i {
        NextIsPlaced(m.sys, r.ns, r.spec, r.keys[r.i], move.copyFault);
      }
    }
  }

  /** What a move does to a loop under way: nothing, or one key, or it ends it. */
  lemma MoveKeepsPhase(m: Machine, move: Move)
    ensures
      var m' := Moved(m, move);
      m'.restore.Placing? && m'.restore.i > 0 ==>
        && m.restore.Placing? && m'.sys.restoreDir == m.sys.restoreDir
        && (m'.restore == m.restore || (move.PlaceKey? && m'.restore == m.restore.(i := m.restore.i + 1)))
  {
    hide BackupRun, CopiedKey, Fetched, Resolve, LocalFolder, MkdirAll, Left, ListingOf, RemoteFolder, DestinationBase;
  }

  lemma ReachedBefore(s: System, s': System, ns: string, spec: RestoreSpec)
    requires Reaches(s'.host, ns, spec) && FilesStay(s.host.pods, s'.host.pods)
    requires s'.host.buckets.Keys == s.host.buckets.Keys
    ensures Reaches(s.host, ns, spec)
  {
  }

  lemma MoveKeepsBuckets(m: Machine, move: Move)
    ensures Moved(m, move).sys.host.buckets.Keys == m.sys.host.buckets.Keys
  {
    hide BackupCommand, WriteDir, Copy.ExtractFileSpec, Received, Resolve, Clean, LocalFolder, MkdirAll, Left,
         ListingOf, RemoteFolder, DestinationBase;
  }

  // ---- The round trip ----------------------------------------------------------------------------------------------

  lemma {:induction false} RunKeepsLoop(m: Machine, moves: seq<Move>)
    requires MachineInv(m) && AllAllowed(m, moves) && LoopOk(m.sys, m.restore)
    ensures MachineInv(Run(m, moves)) && LoopOk(Run(m, moves).sys, Run(m, moves).restore)
    ensures Grows(m.sys, Run(m, moves).sys)
    decreases |moves|
  {
    hide MachineInv, LoopOk, Moved, MoveAllowed, Grows;
    InterleavedKeepsInv(m, moves);
    if moves != [] {
      MovedKeepsInv(m, moves[0]);
      MovedKeepsLoop(m, moves[0]);
      RunKeepsLoop(Moved(m, moves[0]), moves[1..]);
    }
  }

  /** RestoreDir/t holds the files of the backup: every file there is one of them, with its content, and every file
      that is not empty is there. */
  ghost predicate HoldsBackup(s: System, pod: PodId, t: string)
    requires t in s.records && pod in s.host.pods
  {
    forall n ::
      && (IsFile(s.host.pods[pod], Place(s, t, n)) ==>
            n in s.records[t].files && s.host.pods[pod][Place(s, t, n)] == File(s.records[t].files[n]))
      && (n in s.records[t].files && |s.records[t].files[n]| > 0 ==> IsFile(s.host.pods[pod], Place(s, t, n)))
  }

  /** A restore pass is begun for a complete backup that its listing holds whole; whatever backups do between its
      keys, when its loop is through, and the command is due, RestoreDir/t holds the files of the backup. */
  lemma InterleavedRoundTrip(m: Machine, ns: string, spec: RestoreSpec, turn: RestoreTurn, moves: seq<Move>, t: string,
                             id: BucketId, folder: string)
    requires MachineInv(m) && m.restore.Resting? && RestoresOwn(m.sys, ns, spec, turn, t, id, folder)
    requires turn.setupOk && turn.listOk && WhollyListed(spec, turn, folder, t)
    requires AllAllowed(m, [ListKeys(ns, spec, turn)] + moves)
    requires
      var keys := Listed(spec, turn.order);
      Run(m, [ListKeys(ns, spec, turn)] + moves).restore == Placing(ns, spec, keys, |keys|)
    ensures
      var s' := Run(m, [ListKeys(ns, spec, turn)] + moves).sys;
      && t in s'.records && s'.records[t] == m.sys.records[t]
      && PodId(ns, spec.podName) in s'.host.pods && HoldsBackup(s', PodId(ns, spec.podName), t)
  {
    hide MachineInv, AllAllowed, Run, WhollyListed, Listed, Grows, LoopOk, RestoreAllowed, Key;
    var m', pod := Run(m, [ListKeys(ns, spec, turn)] + moves), PodId(ns, spec.podName);
    NotBegun(m);
    RunKeepsLoop(m, [ListKeys(ns, spec, turn)] + moves);
    SameRecord(m.sys, m'.sys, t);
    InvHolds(m);
    InvHolds(m');
    ListsAll(m.sys, ns, spec, turn, t, id, folder);
    PodsStay(m, [ListKeys(ns, spec, turn)] + moves);
    forall n
      ensures IsFile(m'.sys.host.pods[pod], Place(m'.sys, t, n)) ==>
                n in m'.sys.records[t].files
                && m'.sys.host.pods[pod][Place(m'.sys, t, n)] == File(m'.sys.records[t].files[n])
      ensures n in m'.sys.records[t].files && |m'.sys.records[t].files[n]| > 0 ==>
                IsFile(m'.sys.host.pods[pod], Place(m'.sys, t, n))
    {
      FileComesBack(m'.sys, ns, spec, Listed(spec, turn.order), t, id, folder, n);
    }
  }

  lemma NotBegun(m: Machine)
    requires m.restore.Resting?
    ensures LoopOk(m.sys, m.restore)
  {
  }

  lemma InvHolds(m: Machine)
    requires MachineInv(m)
    ensures Inv(m.sys)
  {
    hide Inv;
  }

  lemma SameRecord(s: System, s': System, t: string)
    requires Grows(s, s') && t in s.records && s.records[t].complete
    ensures t in s'.records && s'.records[t] == s.records[t]
  {
  }

  lemma {:induction false} PodsStay(m: Machine, moves: seq<Move>)
    ensures Run(m, moves).sys.host.pods.Keys == m.sys.host.pods.Keys
    ensures Run(m, moves).sys.host.buckets.Keys == m.sys.host.buckets.Keys
    decreases |moves|
  {
    hide Moved;
    if moves != [] {
      MovedKeepsFiles(m, moves[0]);
      MoveKeepsBuckets(m, moves[0]);
      PodsStay(Moved(m, moves[0]), moves[1..]);
    }
  }

  lemma FileComesBack(s: System, ns: string, spec: RestoreSpec, keys: seq<string>, t: string, id: BucketId,
                      folder: string, n: string)
    requires Inv(s) && Reaches(s.host, ns, spec) && LoopOk(s, Placing(ns, spec, keys, |keys|))
    requires t in s.records && s.records[t].complete && s.records[t].target == Some((id, folder))
    requires spec.backupId == t && Target(spec.storage) == Some((id, folder))
    requires forall n | n in s.records[t].files :: Key(folder, t, n) in keys
    ensures
      var tree := s.host.pods[PodId(ns, spec.podName)];
      && (IsFile(tree, Place(s, t, n)) ==>
            n in s.records[t].files && tree[Place(s, t, n)] == File(s.records[t].files[n]))
      && (n in s.records[t].files && |s.records[t].files[n]| > 0 ==> IsFile(tree, Place(s, t, n)))
  {
    hide Inv, Key, RouteOf, RestoreLoop.Landing, Place;
    if HasFile(s, ns, spec, t, n) {
      HadFile(s, ns, spec, t, n);
    }
    if n in s.records[t].files {
      CompleteKey(s, t, id, folder, n);
      OwnLanding(s, t, folder, n);
      var j :| 0 <= j < |keys| && keys[j] == Key(folder, t, n);
      assert IsPlaced(s, ns, spec, keys[j]);
    }
  }
}
