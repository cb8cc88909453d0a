/** Every run of backups and restores, in any order and however each of them ends. */
module CouplingRuns {
  import opened Basics
  import opened Paths
  import opened FileTree
  import opened Storage
  import opened Remote
  import opened Backup
  import opened Restore
  import opened RestorePaths
  import opened Coupling
  import CouplingBackup
  import RestoreOutcome

  /** Before the first backup: buckets and watched directories hold no file, and nothing is in the way of the
      operator's own folder. */
  ghost predicate Initial(s: System) {
    && s.restoreDir == RESTORE_DIR && s.records == map[]
    && Rooted(s.host.tmp) && ':' !in s.host.tmp
    && (forall id | id in s.host.buckets :: s.host.buckets[id] == map[])
    && (forall pod, p | pod in s.host.pods && IsFile(s.host.pods[pod], p) :: !Watched(p))
    && s.host.local == s.image
    && (forall p | AtOrAbove(p, LocalPath(s.host)) :: !IsFile(s.image, p))
    && (forall p | p in s.image :: !Above(LocalPath(s.host), p))
  }

  function Run(s: System, steps: seq<Step>): System
    decreases |steps|
  {
    if steps == [] then s else Run(Next(s, steps[0]), steps[1..])
  }

  ghost predicate AllAllowed(s: System, steps: seq<Step>)
    decreases |steps|
  {
    steps == [] || (Allowed(s, steps[0]) && AllAllowed(Next(s, steps[0]), steps[1..]))
  }

  lemma InitialInv(s: System)
    requires Initial(s)
    ensures Inv(s)
  {
    hide LocalPath, Watched, IsId;
  }

  // ---- What no step undoes ------------------------------------------------------------------------------

  /** A later state remembers every record and keeps every stored object. */
  ghost predicate Later(s: System, s': System) {
    && (forall t | t in s.records :: t in s'.records && s'.records[t] == s.records[t])
    && CouplingBackup.BucketsKept(s.host.buckets, s'.host.buckets)
  }

  lemma NextKeepsInv(s: System, step: Step)
    requires Inv(s) && Allowed(s, step)
    ensures Inv(Next(s, step)) && Later(s, Next(s, step))
  {
    hide Inv, BackupAllowed, BackupPass, RestorePass, Left;
    match step {
      case DoBackup(ns, spec, turn) =>
        CouplingBackup.BackupKeepsInv(s, ns, spec, turn);
        assert turn.time !in s.records by {
          FreshSecond(s, ns, spec, turn);
        }
      case DoRestore(ns, spec, turn) =>
        RestoreKeepsInv(s, ns, spec, turn);
        AfterRestoreInv(s, ns, spec, turn);
      case DoRestart =>
        RestartKeepsInv(s);
    }
  }

  lemma FreshSecond(s: System, ns: string, spec: BackupSpec, turn: BackupTurn)
    requires BackupAllowed(s, ns, spec, turn)
    ensures turn.time !in s.records
  {
    hide BackupRun, BackupPass;
  }

  /** The coupling invariant holds after every run, through panics and restarts, and the run only adds: earlier
      records and stored objects all stay. */
  lemma {:induction false} RunKeepsInv(s: System, steps: seq<Step>)
    requires Inv(s) && AllAllowed(s, steps)
    ensures Inv(Run(s, steps)) && Later(s, Run(s, steps))
    decreases |steps|
  {
    hide Inv, Next, Allowed;
    if steps != [] {
      NextKeepsInv(s, steps[0]);
      RunKeepsInv(Next(s, steps[0]), steps[1..]);
    }
  }

  lemma ReachableInv(s: System, steps: seq<Step>)
    requires Initial(s) && AllAllowed(s, steps)
    ensures Inv(Run(s, steps))
  {
    hide Inv, Next, Allowed;
    InitialInv(s);
    RunKeepsInv(s, steps);
  }

  // ---- What the invariant says of one backup --------------------------------------------------------------

  /** `n` is a file of backup t exactly if it is stored under t's key, and exactly if it is in t's directory
      in t's pod; the contents are the same. */
  predicate NameAgrees(s: System, t: string, id: BucketId, folder: string, n: string)
    requires t in s.records
  {
    var files, pod, p := s.records[t].files, s.records[t].pod, BACKUP_PATH + [t, n];
    && (n in files <==> id in s.host.buckets && Key(folder, t, n) in s.host.buckets[id])
    && (n in files <==> pod in s.host.pods && IsFile(s.host.pods[pod], p))
    && (n in files ==> s.host.buckets[id][Key(folder, t, n)] == files[n] && s.host.pods[pod][p] == File(files[n]))
  }

  /** Every file below BackupDir/t or RestoreDir/t of any pod is that file of backup t. */
  ghost predicate PlacesAgree(s: System, t: string)
    requires t in s.records
  {
    forall pod, dir, n | pod in s.host.pods && IsRestoreDir(dir) && IsFile(s.host.pods[pod], PathOf(dir) + [t, n]) ::
      n in s.records[t].files && s.host.pods[pod][PathOf(dir) + [t, n]] == File(s.records[t].files[n])
  }

  ghost predicate NameByName(s: System, t: string, id: BucketId, folder: string)
    requires t in s.records
  {
    (forall n | Good(n) :: NameAgrees(s, t, id, folder, n)) && PlacesAgree(s, t)
  }

  lemma PlaceAgrees(s: System, pod: PodId, dir: string, t: string, n: string)
    requires Inv(s) && t in s.records && IsRestoreDir(dir)
    requires pod in s.host.pods && IsFile(s.host.pods[pod], PathOf(dir) + [t, n])
    ensures n in s.records[t].files && s.host.pods[pod][PathOf(dir) + [t, n]] == File(s.records[t].files[n])
  {
    hide IsId, FilesKept, BucketsAgree, CompleteStored, LocalOk, PathOf;
    DirResolves(dir);
    DirSpelled(dir);
    PathOfCases(dir);
    var p := PathOf(dir) + [t, n];
    assert p[..4] == PathOf(dir) && p[4] == t && p[5] == n;
    assert Watched(p);
    assert IsBackupFile(s.records, p[4], p[5], s.host.pods[pod][p].content);
  }

  lemma PathOfCases(dir: string)
    ensures PathOf(dir) == BACKUP_PATH || PathOf(dir) == RESTORE_PATH
  {
  }

  /** An object of the bucket under the backup's own folder and id is that file of the backup. */
  lemma KeyIsOwn(s: System, t: string, id: BucketId, folder: string, n: string)
    requires Inv(s) && t in s.records && '/' !in n
    requires id in s.host.buckets && Key(folder, t, n) in s.host.buckets[id]
    ensures n in s.records[t].files && s.records[t].files[n] == s.host.buckets[id][Key(folder, t, n)]
    ensures s.records[t].target == Some((id, folder))
  {
    hide Key, IsId, FilesKept, BucketsAgree, CompleteStored, LocalOk, FilesAgree;
    var t', n', folder' := KeyOwner(s.host.buckets, s.records, id, Key(folder, t, n));
    IdIsGood(t);
    KeyInjective(folder, t, n, folder', t', n');
  }

  lemma NameOfCompleteAgrees(s: System, t: string, id: BucketId, folder: string, n: string)
    requires Inv(s) && t in s.records && s.records[t].complete && s.records[t].target == Some((id, folder)) && Good(n)
    ensures NameAgrees(s, t, id, folder, n)
  {
    hide Key, IsId, PathOf, IsRestoreDir, Inv, BACKUP_PATH;
    if n in s.records[t].files {
      FileOfComplete(s, t, id, folder, n);
    }
    if id in s.host.buckets && Key(folder, t, n) in s.host.buckets[id] {
      KeyIsOwn(s, t, id, folder, n);
    }
    var pod := s.records[t].pod;
    DirResolves(BACKUP_DIR) by {
      TheTwoDirs();
    }
    TheTwoDirs();
    if pod in s.host.pods && IsFile(s.host.pods[pod], BACKUP_PATH + [t, n]) {
      PlaceAgrees(s, pod, BACKUP_DIR, t, n);
    }
  }

  /** In a state that satisfies the invariant every complete backup agrees name by name. */
  lemma CompleteAgrees(s: System, t: string, id: BucketId, folder: string)
    requires Inv(s) && t in s.records && s.records[t].complete && s.records[t].target == Some((id, folder))
    ensures NameByName(s, t, id, folder)
  {
    hide Inv, NameAgrees, PathOf, IsRestoreDir;
    forall n | Good(n) ensures NameAgrees(s, t, id, folder, n) {
      NameOfCompleteAgrees(s, t, id, folder, n);
    }
    forall pod, dir, n | pod in s.host.pods && IsRestoreDir(dir) && IsFile(s.host.pods[pod], PathOf(dir) + [t, n])
      ensures n in s.records[t].files && s.host.pods[pod][PathOf(dir) + [t, n]] == File(s.records[t].files[n])
    {
      PlaceAgrees(s, pod, dir, t, n);
    }
  }

  lemma TheTwoDirs()
    ensures IsRestoreDir(BACKUP_DIR) && IsRestoreDir(RESTORE_DIR)
  {
  }

  lemma FileOfComplete(s: System, t: string, id: BucketId, folder: string, n: string)
    requires Inv(s) && t in s.records && s.records[t].complete && s.records[t].target == Some((id, folder))
    requires n in s.records[t].files
    ensures Good(n) && id in s.host.buckets && Key(folder, t, n) in s.host.buckets[id]
    ensures s.records[t].pod in s.host.pods && IsFile(s.host.pods[s.records[t].pod], BACKUP_PATH + [t, n])
    ensures s.host.pods[s.records[t].pod][BACKUP_PATH + [t, n]] == File(s.records[t].files[n])
    ensures s.host.buckets[id][Key(folder, t, n)] == s.records[t].files[n]
  {
    hide Key, IsId, BucketsAgree, LocalOk, FilesAgree;
    assert BackupPath(t) + [n] == BACKUP_PATH + [t, n];
    assert FileKept(s.host.pods, s.records, t, n);
    KeyIsOwn(s, t, id, folder, n);
  }

  /** Every complete backup of any earlier state agrees name by name in every later state, whatever backups
      and restores, successful or aborted, came in between. */
  lemma OldBackupsSurvive(s: System, steps: seq<Step>, t: string, id: BucketId, folder: string)
    requires Inv(s) && AllAllowed(s, steps)
    requires t in s.records && s.records[t].complete && s.records[t].target == Some((id, folder))
    ensures
      var s' := Run(s, steps);
      && t in s'.records && s'.records[t] == s.records[t]
      && NameByName(s', t, id, folder)
      && CouplingBackup.BucketsKept(s.host.buckets, s'.host.buckets)
  {
    hide Inv, NameByName, Next, Allowed, AllAllowed, Run;
    RunKeepsInv(s, steps);
    CompleteAgrees(Run(s, steps), t, id, folder);
  }

  // ---- RestoreDir -----------------------------------------------------------------------------------------

  lemma {:induction false} RunSplits(s: System, steps: seq<Step>)
    requires steps != [] && AllAllowed(s, steps)
    ensures
      var n := |steps| - 1;
      AllAllowed(s, steps[..n]) && Allowed(Run(s, steps[..n]), steps[n])
      && Run(s, steps) == Next(Run(s, steps[..n]), steps[n])
    decreases |steps|
  {
    hide Next, Allowed;
    var n := |steps| - 1;
    if n > 0 {
      RunSplits(Next(s, steps[0]), steps[1..]);
      assert steps[1..][..n - 1] == steps[..n][1..] && steps[1..][n - 1] == steps[n];
    }
  }

  /** No step from number `from` on restarts the operator. */
  ghost predicate Uninterrupted(s: System, steps: seq<Step>, from: nat) {
    forall k | from <= k < |steps| :: !Restarts(Run(s, steps[..k]), steps[k])
  }

  /** RestoreDir was BACKUP_DIR to begin with, or a pv restore got past its setup, and the operator has not been
      restarted since. */
  ghost predicate SwitchedSinceRestart(s: System, steps: seq<Step>) {
    || (s.restoreDir == BACKUP_DIR && Uninterrupted(s, steps, 0))
    || exists i | 0 <= i < |steps| :: Switches(steps[i]) && Uninterrupted(s, steps, i + 1)
  }

  lemma UninterruptedInit(s: System, steps: seq<Step>, from: nat)
    requires steps != [] && from < |steps|
    ensures
      var n := |steps| - 1;
      Uninterrupted(s, steps, from) <==> Uninterrupted(s, steps[..n], from) && !Restarts(Run(s, steps[..n]), steps[n])
  {
    hide Restarts, Run;
    var n := |steps| - 1;
    assert forall k | 0 <= k <= n :: steps[..n][..k] == steps[..k];
    if Uninterrupted(s, steps, from) {
      forall k | from <= k < n ensures !Restarts(Run(s, steps[..n][..k]), steps[..n][k]) {
        assert !Restarts(Run(s, steps[..k]), steps[k]);
      }
    }
    if Uninterrupted(s, steps[..n], from) && !Restarts(Run(s, steps[..n]), steps[n]) {
      forall k | from <= k < |steps| ensures !Restarts(Run(s, steps[..k]), steps[k]) {
        if k < n {
          assert !Restarts(Run(s, steps[..n][..k]), steps[..n][k]);
        }
      }
    }
  }

  lemma UninterruptedTail(s: System, steps: seq<Step>)
    requires steps != []
    ensures Uninterrupted(s, steps, 0) <==>
              !Restarts(s, steps[0]) && Uninterrupted(Next(s, steps[0]), steps[1..], 0)
  {
    hide Restarts, Next;
    forall k | 1 <= k < |steps| ensures Run(s, steps[..k]) == Run(Next(s, steps[0]), steps[1..][..k - 1]) {
      assert steps[..k][1..] == steps[1..][..k - 1] && steps[..k][0] == steps[0];
    }
    var s1, rest := Next(s, steps[0]), steps[1..];
    assert steps[..0] == [];
    if Uninterrupted(s, steps, 0) {
      assert !Restarts(Run(s, steps[..0]), steps[0]);
      forall k | 0 <= k < |rest| ensures !Restarts(Run(s1, rest[..k]), rest[k]) {
        assert !Restarts(Run(s, steps[..k + 1]), steps[k + 1]);
      }
    }
    if !Restarts(s, steps[0]) && Uninterrupted(s1, rest, 0) {
      forall k | 0 <= k < |steps| ensures !Restarts(Run(s, steps[..k]), steps[k]) {
        if k > 0 {
          assert !Restarts(Run(s1, rest[..k - 1]), rest[k - 1]);
        }
      }
    }
  }

  lemma SwitchedInit(s: System, steps: seq<Step>)
    requires steps != []
    ensures
      var n := |steps| - 1;
      SwitchedSinceRestart(s, steps) <==>
        Switches(steps[n]) || (SwitchedSinceRestart(s, steps[..n]) && !Restarts(Run(s, steps[..n]), steps[n]))
  {
    hide Restarts, Run, Switches, Uninterrupted;
    var n := |steps| - 1;
    UninterruptedInit(s, steps, 0);
    forall i | 0 <= i < n
      ensures Uninterrupted(s, steps, i + 1) <==>
                Uninterrupted(s, steps[..n], i + 1) && !Restarts(Run(s, steps[..n]), steps[n])
      ensures steps[..n][i] == steps[i]
    {
      UninterruptedInit(s, steps, i + 1);
    }
    assert Uninterrupted(s, steps, n + 1) by {
      NothingLeft(s, steps);
    }
    if Switches(steps[n]) {
      assert SwitchedSinceRestart(s, steps);
    }
  }

  lemma NothingLeft(s: System, steps: seq<Step>)
    ensures Uninterrupted(s, steps, |steps|)
  {
  }

  /** In every run RestoreDir has one of its two values; it is BACKUP_DIR exactly if, since the operator was last
      restarted, it was so from the start or a pv restore got past its setup. */
  lemma {:induction false} RestoreDirSwitches(s: System, steps: seq<Step>)
    requires Inv(s) && AllAllowed(s, steps)
    ensures IsRestoreDir(Run(s, steps).restoreDir)
    ensures Run(s, steps).restoreDir == BACKUP_DIR <==> SwitchedSinceRestart(s, steps)
    decreases |steps|
  {
    hide Inv, Next, Allowed, Switches, Restarts, SwitchedSinceRestart;
    if steps == [] {
      InvDir(s);
      EmptySwitched(s);
    } else {
      var n := |steps| - 1;
      RunSplits(s, steps);
      RestoreDirSwitches(s, steps[..n]);
      RunKeepsInv(s, steps[..n]);
      SwitchStep(Run(s, steps[..n]), steps[n]);
      SwitchedInit(s, steps);
    }
  }

  lemma EmptySwitched(s: System)
    ensures SwitchedSinceRestart(s, []) <==> s.restoreDir == BACKUP_DIR
  {
  }

  predicate Switches(step: Step) {
    step.DoRestore? && step.restoreTurn.setupOk && step.restore.storage.provider == "pv"
  }

  lemma InvDir(s: System)
    requires Inv(s)
    ensures IsRestoreDir(s.restoreDir)
  {
  }

  lemma SwitchStep(s: System, step: Step)
    requires Inv(s)
    ensures Switches(step) ==> !Restarts(s, step)
    ensures Next(s, step).restoreDir
         == if Restarts(s, step) then RESTORE_DIR else if Switches(step) then BACKUP_DIR else s.restoreDir
    ensures BACKUP_DIR != RESTORE_DIR
  {
    hide Inv, BackupPass, RestorePass, Left;
    assert |BACKUP_DIR| != |RESTORE_DIR|;
    match step {
      case DoBackup(ns, spec, turn) =>
      case DoRestore(ns, spec, turn) =>
        AfterRestoreInv(s, ns, spec, turn);
        RestorePanics(s, ns, spec, turn);
      case DoRestart =>
    }
  }

  /** The number of the key at which the loop of a restore pass stops. */
  function StopsAt(s: System, ns: string, spec: RestoreSpec, turn: RestoreTurn): nat
    requires Target(spec.storage).Some? && Target(spec.storage).value.0 in s.host.buckets
  {
    var (id, folder) := Target(spec.storage).value;
    CopiedKeys(s.host, s.host.buckets[id], ListingOf(id.provider, turn.order, RemoteFolder(folder, spec.backupId)), 0,
               RemoteFolder(folder, spec.backupId), DestinationBase(ns, spec.podName, s.restoreDir, spec.backupId),
               turn.faults).1
  }

  /** A restore pass panics exactly if it is on S3 and the fetch of the key that its loop has got to fails. */
  lemma RestorePanics(s: System, ns: string, spec: RestoreSpec, turn: RestoreTurn)
    ensures
      Restarts(s, DoRestore(ns, spec, turn)) <==>
        && spec.storage.provider == "s3" && turn.setupOk && turn.listOk
        && var (id, folder) := Target(spec.storage).value;
        && id in s.host.buckets
        && var keys := ListingOf("s3", turn.order, RemoteFolder(folder, spec.backupId));
        && var n := StopsAt(s, ns, spec, turn);
        && n < |keys| && (keys[n] !in s.host.buckets[id] || (n < |turn.faults| && turn.faults[n] == Unfetched))
  {
    hide CopiedKeys, RestoreCommand, RemoteFolder, DestinationBase, ListingOf;
  }

  function Last(command: seq<string>): string {
    if command == [] then "" else command[|command| - 1]
  }

  lemma LastOfCommand(spec: RestoreSpec, restoreDir: string)
    ensures Last(RestoreCommand(spec, restoreDir)) == restoreDir + "/" + spec.backupId
  {
    hide WithFlag;
  }

  lemma LastOfBackup(spec: BackupSpec, time: string)
    ensures BackupCommand(spec, time).Some? ==> Last(BackupCommand(spec, time).value) == BACKUP_DIR + "/" + time
  {
    hide WithFlag;
  }

  /** After any run, a pv restore by id t into the pod of backup t, if that is running, runs its command on the
      directory that the backup command of t wrote, and that directory holds exactly the files of t, byte for byte. */
  lemma PvRunsOnBackup(s: System, steps: seq<Step>, ns: string, spec: RestoreSpec, turn: RestoreTurn,
                       backup: BackupSpec)
    requires Inv(s) && AllAllowed(s, steps) && spec.storage.provider == "pv"
    requires
      var s' := Run(s, steps);
      && spec.backupId in s'.records && s'.records[spec.backupId].pod == PodId(ns, spec.podName)
      && turn.setupOk && turn.podOk && PodId(ns, spec.podName) in s'.host.pods
    ensures
      var s' := Run(s, steps);
      var r := RestorePass(s'.host, s'.restoreDir, ns, spec, turn);
      && r.ran.Some? && r.status == (if turn.execOk then Fine else Erred)
      && var t, pod, d := spec.backupId, PodId(ns, spec.podName), Resolve(Last(r.ran.value));
      && d == BackupPath(t) && r.host == s'.host && pod in r.host.pods
      && (BackupCommand(backup, t).Some? ==> Last(r.ran.value) == Last(BackupCommand(backup, t).value))
      && forall n :: && (IsFile(r.host.pods[pod], d + [n]) <==> n in s'.records[t].files)
                     && (n in s'.records[t].files ==> r.host.pods[pod][d + [n]] == File(s'.records[t].files[n]))
  {
    hide Inv, Run, AllAllowed, RestoreCommand, BackupCommand, Last, Resolve, BackupPath;
    RunKeepsInv(s, steps);
    var s', t := Run(s, steps), spec.backupId;
    RestoreOutcome.UntargetedPass(s'.host, s'.restoreDir, ns, spec, turn);
    LastOfCommand(spec, BACKUP_DIR);
    LastOfBackup(backup, t);
    DirectoryOfBackup(s', t);
  }

  /** The directory of a backup in its pod holds exactly its files. */
  lemma DirectoryOfBackup(s: System, t: string)
    requires Inv(s) && t in s.records
    ensures Resolve(BACKUP_DIR + "/" + t) == BackupPath(t)
    ensures forall n | s.records[t].pod in s.host.pods ::
              && (IsFile(s.host.pods[s.records[t].pod], BackupPath(t) + [n]) <==> n in s.records[t].files)
              && (n in s.records[t].files ==>
                    s.host.pods[s.records[t].pod][BackupPath(t) + [n]] == File(s.records[t].files[n]))
  {
    hide FilesAgree, BucketsAgree, CompleteStored, LocalOk, IsId, Resolve, BACKUP_PATH;
    CouplingBackup.BackupPathResolves(t);
    var pod := s.records[t].pod;
    forall n | pod in s.host.pods
      ensures IsFile(s.host.pods[pod], BackupPath(t) + [n]) <==> n in s.records[t].files
      ensures n in s.records[t].files ==> s.host.pods[pod][BackupPath(t) + [n]] == File(s.records[t].files[n])
    {
      if n in s.records[t].files {
        assert FileKept(s.host.pods, s.records, t, n);
      }
      if IsFile(s.host.pods[pod], BackupPath(t) + [n]) {
        CouplingBackup.AgreesAt(s.host.pods, s.records, pod, t, n);
      }
    }
  }
}
