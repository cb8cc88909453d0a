/** Runs in which a panic restarts the operator after a pv restore: the switch of RestoreDir is lost, and the retry of
    an S3 restore runs another command than an uninterrupted pass would have. */
module RestartRun {
  import opened Basics
  import opened Storage
  import opened FileTree
  import Copy
  import opened Remote
  import opened Backup
  import opened Restore
  import opened RestorePaths
  import opened RestoreRetry
  import opened Coupling
  import CouplingBackup
  import CouplingRuns
  import opened RoundTrip
  import opened PageOverflow

  /** A pv restore that finds no pod running. */
  const PV_TURN := RestoreTurn(true, [], true, [], false, true)

  /** The backup, and a pv restore. */
  function Switching(t: string, ns: string, spec: BackupSpec, count: nat, pv: RestoreSpec): seq<Step> {
    [DoBackup(ns, spec, TheBackup(t, count)), DoRestore(ns, pv, PV_TURN)]
  }

  function Switched(s: System, t: string, ns: string, spec: BackupSpec, count: nat): System {
    Backed(s, t, ns, spec, count).(restoreDir := BACKUP_DIR)
  }

  lemma RunTwo(s: System, first: Step, second: Step)
    requires CouplingRuns.AllAllowed(s, [first]) && Allowed(Next(s, first), second)
    ensures CouplingRuns.AllAllowed(s, [first, second])
    ensures CouplingRuns.Run(s, [first, second]) == Next(Next(s, first), second)
  {
    hide Next, Allowed;
    var both, rest := [first, second], [second];
    assert rest[1..] == [] && rest[0] == second && both[1..] == rest && both[0] == first;
    assert [first][0] == first;
    assert CouplingRuns.AllAllowed(Next(s, first), rest);
    assert CouplingRuns.Run(Next(s, first), rest) == Next(Next(s, first), second);
  }

  lemma PvSwitches(s: System, ns: string, pv: RestoreSpec)
    requires pv.storage.provider == "pv"
    ensures RestoreAllowed(s, pv, PV_TURN) && Next(s, DoRestore(ns, pv, PV_TURN)) == s.(restoreDir := BACKUP_DIR)
  {
    hide RestoreCommand;
  }

  lemma SwitchingRun(s: System, t: string, ns: string, spec: BackupSpec, id: BucketId, folder: string, count: nat,
                     pv: RestoreSpec)
    requires Ready(s, t, ns, spec, id, folder) && pv.storage.provider == "pv"
    ensures CouplingRuns.AllAllowed(s, Switching(t, ns, spec, count, pv))
    ensures CouplingRuns.Run(s, Switching(t, ns, spec, count, pv)) == Switched(s, t, ns, spec, count)
    ensures Inv(Switched(s, t, ns, spec, count))
  {
    hide Inv, TheBackup, Ready, Next, Allowed, CouplingRuns.AllAllowed, CouplingRuns.Run;
    BackedUp(s, t, ns, spec, id, folder, count);
    var s' := Backed(s, t, ns, spec, count);
    PvSwitches(s', ns, pv);
    PvAllowed(s', ns, pv);
    RunTwo(s, DoBackup(ns, spec, TheBackup(t, count)), DoRestore(ns, pv, PV_TURN));
    RestoreKeepsInv(s', ns, pv, PV_TURN);
  }

  lemma PvAllowed(s: System, ns: string, pv: RestoreSpec)
    requires RestoreAllowed(s, pv, PV_TURN)
    ensures Allowed(s, DoRestore(ns, pv, PV_TURN))
  {
  }

  /** The first fetch fails. */
  function Cut(folder: string, t: string, count: nat): RestoreTurn {
    TheRestore(folder, t, count).(faults := [Unfetched])
  }

  /** The input on which a retry ends otherwise: backup, pv restore, S3 restore whose first fetch fails. Before and
      after the failed fetch a restore succeeds, with different commands. */
  lemma RetryAfterPanic(s: System, t: string, ns: string, spec: BackupSpec, id: BucketId, folder: string, count: nat,
                        pv: RestoreSpec, restore: RestoreSpec)
    requires Ready(s, t, ns, spec, id, folder) && RestoresElsewhere(s, t, ns, spec, restore)
    requires pv.storage.provider == "pv" && 0 < count <= PAGE_SIZE
    ensures
      var steps := Switching(t, ns, spec, count, pv);
      var cut := DoRestore(ns, restore, Cut(folder, t, count));
      var before := CouplingRuns.Run(s, steps);
      var after, last := Next(before, cut), TheRestore(folder, t, count);
      && CouplingRuns.AllAllowed(s, steps) && Allowed(before, cut) && IsCut(cut, ns, restore, last.order)
      && before.restoreDir == BACKUP_DIR && after.restoreDir == RESTORE_DIR
      && RestorePass(before.host, before.restoreDir, ns, restore, last).status == Fine
      && RestorePass(after.host, after.restoreDir, ns, restore, last).status == Fine
      && !EndsTheSame(before, after, ns, restore, last)
  {
    hide Inv, TheBackup, BackupAllowed, BackupPass, CouplingRuns.Initial, RestorePass, CouplingRuns.AllAllowed, Files,
         CouplingRuns.Run, Restarts, Backed, BackupCommand, IsId, EndsTheSame, TheKeys, Enumerates, Next;
    var before, last := Switched(s, t, ns, spec, count), TheRestore(folder, t, count);
    SwitchingRun(s, t, ns, spec, id, folder, count, pv);
    BackedUp(s, t, ns, spec, id, folder, count);
    FilesHold(count);
    OtherPodsStay(s.host, ns, spec, TheBackup(t, count), PodId(ns, restore.podName));
    CleanRestore(before, t, ns, spec, id, folder, count, restore);
    FirstFetchFails(before, ns, restore, t, id, folder, count);
    var after := Restarted(before);
    RestartKeepsInv(before);
    CleanRestore(after, t, ns, spec, id, folder, count, restore);
    MovedRetry(before, after, ns, restore, last);
  }

  lemma FirstFetchFails(s: System, ns: string, restore: RestoreSpec, t: string, id: BucketId, folder: string,
                        count: nat)
    requires Inv(s) && RestoresOwn(s, ns, restore, TheRestore(folder, t, count), t, id, folder)
    requires restore.storage.provider == "s3" && s.records.Keys == {t}
    requires 0 < |s.records[t].files.Keys| <= PAGE_SIZE
    ensures
      var cut := DoRestore(ns, restore, Cut(folder, t, count));
      Restarts(s, cut) && Next(s, cut) == Restarted(s)
  {
    hide Inv, TheKeys, Enumerates, Key, RemoteFolder, Listed, Restarts, Next;
    var turn := Cut(folder, t, count);
    NotNested(s.records, t, id, folder);
    UnnestedPage(s, restore, turn, t, id, folder);
    ListsAll(s, ns, restore, turn, t, id, folder);
    var n :| n in s.records[t].files;
    assert Listed(restore, turn.order) != [];
    PanicsAtOnce(s, ns, restore, turn);
  }

  lemma PanicsAtOnce(s: System, ns: string, restore: RestoreSpec, turn: RestoreTurn)
    requires restore.storage.provider == "s3" && Target(restore.storage).value.0 in s.host.buckets
    requires turn.setupOk && turn.listOk && turn.faults == [Unfetched] && Listed(restore, turn.order) != []
    ensures
      var step := DoRestore(ns, restore, turn);
      Restarts(s, step) && Next(s, step) == Restarted(s)
  {
    hide Inv, ListingOf, RemoteFolder, DestinationBase, RestoreCommand;
    var (id, folder) := Target(restore.storage).value;
    assert CopiedKeys(s.host, s.host.buckets[id], Listed(restore, turn.order), 0,
                      RemoteFolder(folder, restore.backupId),
                      DestinationBase(ns, restore.podName, s.restoreDir, restore.backupId), turn.faults) == (s.host, 0);
  }

  // ---- A backup with an empty list of databases --------------------------------------------------------------

  /** Nothing is written and nothing found. */
  function NothingDone(t: string): BackupTurn {
    BackupTurn(t, map[], true, true, TarRun([], true, true), [], [])
  }

  /** Such a Backup, of an empty pod. */
  predicate HasNoDatabases(s: System, t: string, ns: string, spec: BackupSpec) {
    && spec.databases == Some([]) && Copy.ValidName(ns) && Copy.ValidName(spec.podName)
    && PodId(ns, spec.podName) in s.host.pods && s.host.pods[PodId(ns, spec.podName)] == map[]
    && IsId(t) && t !in s.records
  }

  lemma NoDatabasesAllowed(s: System, t: string, ns: string, spec: BackupSpec)
    requires Inv(s) && HasNoDatabases(s, t, ns, spec)
    ensures BackupAllowed(s, ns, spec, NothingDone(t))
  {
    hide IsId, FilesAgree, FilesKept, BucketsAgree, CompleteStored, RecordsOk, LocalPath, BackupPath;
    var base, turn := LocalPath(s.host), NothingDone(t);
    assert BackupRun(s.host, ns, spec, turn) == (s.host, Panicked);
    forall p | p in s.host.local && Above(base + [t], p) ensures false {
    }
  }

  /** The input on which the switch does not last: backup, pv restore, Backup with an empty list of databases. */
  lemma SwitchLost(s: System, t: string, ns: string, spec: BackupSpec, id: BucketId, folder: string, count: nat,
                   pv: RestoreSpec, t': string, spec': BackupSpec)
    requires Ready(s, t, ns, spec, id, folder) && pv.storage.provider == "pv"
    requires HasNoDatabases(Backed(s, t, ns, spec, count), t', ns, spec')
    ensures
      var steps := Switching(t, ns, spec, count, pv);
      var last := DoBackup(ns, spec', NothingDone(t'));
      var before := CouplingRuns.Run(s, steps);
      && CouplingRuns.AllAllowed(s, steps) && Allowed(before, last)
      && before.restoreDir == BACKUP_DIR && Next(before, last).restoreDir == RESTORE_DIR
  {
    hide Inv, TheBackup, BackupAllowed, CouplingRuns.AllAllowed, CouplingRuns.Run, IsId, Ready, Backed, BackupPass;
    SwitchingRun(s, t, ns, spec, id, folder, count, pv);
    var before := Switched(s, t, ns, spec, count);
    NoDatabasesAllowed(before, t', ns, spec');
    CouplingBackup.AfterBackupInv(before, ns, spec', NothingDone(t'));
  }
}
