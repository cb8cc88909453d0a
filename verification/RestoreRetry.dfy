/** A restore pass of the controller: its command runs only after the whole list was copied, and repeating a
    pass that was cut short ends where one uninterrupted pass ends, unless a restart moved RestoreDir. */
module RestoreRetry {
  import opened Basics
  import opened FileTree
  import Copy
  import opened Remote
  import opened Backup
  import opened Restore
  import opened RestoreLoop
  import opened Coupling
  import CouplingRuns

  function RouteOf(restoreDir: string, folder: string, id: string): Route {
    Route(RemoteFolder(folder, id), restoreDir + "/" + id)
  }

  /** The keys a pass lists. */
  function Listed(spec: RestoreSpec, order: seq<string>): seq<string>
    requires Target(spec.storage).Some?
  {
    var (id, folder) := Target(spec.storage).value;
    ListingOf(id.provider, order, RemoteFolder(folder, spec.backupId))
  }

  predicate Reaches(h: Host, ns: string, spec: RestoreSpec) {
    && Copy.ValidName(ns) && Copy.ValidName(spec.podName)
    && Target(spec.storage).Some? && Target(spec.storage).value.0 in h.buckets
    && PodId(ns, spec.podName) in h.pods
  }

  /** The loop of a pass over one pod. */
  function Loop(h: Host, restoreDir: string, ns: string, spec: RestoreSpec, turn: RestoreTurn): (Tree, nat)
    requires Reaches(h, ns, spec)
  {
    var (id, folder) := Target(spec.storage).value;
    PlacedKeys(h.pods[PodId(ns, spec.podName)], h.buckets[id], Listed(spec, turn.order),
               RouteOf(restoreDir, folder, spec.backupId), turn.faults)
  }

  lemma PassShape(h: Host, restoreDir: string, ns: string, spec: RestoreSpec, turn: RestoreTurn)
    requires Reaches(h, ns, spec)
    ensures
      var r := RestorePass(h, restoreDir, ns, spec, turn);
      var (t, n) := Loop(h, restoreDir, ns, spec, turn);
      var full := turn.setupOk && turn.listOk && n == |Listed(spec, turn.order)|;
      && r.restoreDir == restoreDir
      && r.host == (if turn.setupOk && turn.listOk then h.(pods := h.pods[PodId(ns, spec.podName) := t]) else h)
      && r.ran == (if full && turn.podOk then Some(RestoreCommand(spec, restoreDir)) else None)
      && (full && turn.podOk ==> r.status == if turn.execOk then Fine else Erred)
      && (r.status == Fine ==> full && turn.podOk)
  {
    hide PlacedKeys, ListingOf, RestoreCommand, CopiedKeys, RemoteFolder, FetchFails;
    var (id, folder) := Target(spec.storage).value;
    var keys := Listed(spec, turn.order);
    var route := RouteOf(restoreDir, folder, spec.backupId);
    KeysPlaced(h, h.buckets[id], keys, 0, ns, spec.podName, route, turn.faults);
    assert keys[0..] == keys && From(turn.faults, 0) == turn.faults;
    assert ns + "/" + spec.podName + ":" + route.dir == DestinationBase(ns, spec.podName, restoreDir, spec.backupId);
    CountBounded(h, h.buckets[id], keys, 0, route.remoteFolder, ns + "/" + spec.podName + ":" + route.dir, turn.faults);
  }

  /** The restore command runs only after every listed key was copied; a pass that does not get that far has
      copied exactly a prefix of the list, and made at most the directory of the next file. */
  lemma CommandAfterWholeList(h: Host, restoreDir: string, ns: string, spec: RestoreSpec, turn: RestoreTurn)
    returns (m: nat, half: bool)
    requires Reaches(h, ns, spec)
    ensures m <= |Listed(spec, turn.order)| && (half ==> m < |Listed(spec, turn.order)|)
    ensures
      var r := RestorePass(h, restoreDir, ns, spec, turn);
      var (id, folder) := Target(spec.storage).value;
      var pod := PodId(ns, spec.podName);
      && r.host == h.(pods := h.pods[pod := h.pods[pod] + Prefix(h.buckets[id], Listed(spec, turn.order),
                                                                 RouteOf(restoreDir, folder, spec.backupId), m, half)])
      && (r.ran.Some? ==> m == |Listed(spec, turn.order)|)
  {
    hide RestorePass, PlacedKeys, Listed, RouteOf, Prefix;
    PassShape(h, restoreDir, ns, spec, turn);
    var (id, folder) := Target(spec.storage).value;
    var pod := PodId(ns, spec.podName);
    if turn.setupOk && turn.listOk {
      m, half := CopiesPrefix(h.pods[pod], h.buckets[id], Listed(spec, turn.order),
                              RouteOf(restoreDir, folder, spec.backupId), turn.faults);
    } else {
      m, half := 0, false;
      EmptyPrefix(h.pods[pod], h.buckets[id], Listed(spec, turn.order), RouteOf(restoreDir, folder, spec.backupId));
      assert h.pods[pod := h.pods[pod]] == h.pods;
    }
  }

  // ---- Repeated passes -----------------------------------------------------------------------------------

  /** What may come before the last pass: other passes of the same Restore object over the same store, however they
      end, and restarts of the operator. */
  predicate IsCut(step: Step, ns: string, spec: RestoreSpec, order: seq<string>) {
    step.DoRestart? || (step.DoRestore? && step.ns == ns && step.restore == spec && step.restoreTurn.order == order)
  }

  /** A fault-free pass from `s'` runs its command exactly if one from `s` does, and then it is the same command and
      leaves the same files in every pod. */
  ghost predicate EndsTheSame(s: System, s': System, ns: string, spec: RestoreSpec, last: RestoreTurn) {
    var once := RestorePass(s.host, s.restoreDir, ns, spec, last);
    var again := RestorePass(s'.host, s'.restoreDir, ns, spec, last);
    && again.ran == once.ran
    && (once.ran.Some? ==> again.status == once.status && again.host.pods == once.host.pods)
  }

  lemma CutReaches(s: System, step: Step, ns: string, spec: RestoreSpec, last: RestoreTurn)
    requires Reaches(s.host, ns, spec) && IsCut(step, ns, spec, last.order)
    ensures Reaches(Next(s, step).host, ns, spec)
    ensures Next(s, step).restoreDir == if Restarts(s, step) then RESTORE_DIR else s.restoreDir
    ensures Next(s, step).host.buckets == s.host.buckets
    ensures
      var pod := PodId(ns, spec.podName);
      Next(s, step).host.pods == s.host.pods[pod := Next(s, step).host.pods[pod]]
  {
    hide RestorePass, Loop, Listed, Target, Copy.ValidName;
    if step.DoRestore? {
      PassShape(s.host, s.restoreDir, ns, spec, step.restoreTurn);
    }
  }

  lemma CutStep(s: System, step: Step, ns: string, spec: RestoreSpec, last: RestoreTurn)
    requires Reaches(s.host, ns, spec) && IsCut(step, ns, spec, last.order) && last.faults == []
    requires Next(s, step).restoreDir == s.restoreDir
    ensures EndsTheSame(s, Next(s, step), ns, spec, last)
  {
    hide RestorePass, Loop, Listed, RestoreCommand, Reaches, Next, IsCut;
    var s' := Next(s, step);
    CutReaches(s, step, ns, spec, last);
    PassShape(s.host, s.restoreDir, ns, spec, last);
    PassShape(s'.host, s'.restoreDir, ns, spec, last);
    CutTree(s, step, ns, spec, last);
  }

  /** The trees behind a cut: the last loop gets as far and leaves the same. */
  lemma CutTree(s: System, step: Step, ns: string, spec: RestoreSpec, last: RestoreTurn)
    requires Reaches(s.host, ns, spec) && IsCut(step, ns, spec, last.order) && last.faults == []
    requires Reaches(Next(s, step).host, ns, spec) && Next(s, step).restoreDir == s.restoreDir
    ensures
      var s' := Next(s, step);
      var (again, n) := Loop(s'.host, s'.restoreDir, ns, spec, last);
      var (once, n') := Loop(s.host, s.restoreDir, ns, spec, last);
      var full := |Listed(spec, last.order)|;
      (n == full <==> n' == full) && (n == full ==> again == once)
  {
    hide RestorePass, PlacedKeys, Listed, RouteOf, RestoreCommand;
    var (id, folder) := Target(spec.storage).value;
    if step.DoRestore? {
      PassShape(s.host, s.restoreDir, ns, spec, step.restoreTurn);
      RetryConverges(s.host.pods[PodId(ns, spec.podName)], s.host.buckets[id], Listed(spec, last.order),
                     RouteOf(s.restoreDir, folder, spec.backupId), step.restoreTurn.faults);
    }
  }

  /** RestoreDir is what it was, unless it had been switched and the operator was restarted. */
  predicate Steady(s: System, cuts: seq<Step>)
    decreases |cuts|
  {
    s.restoreDir == RESTORE_DIR || cuts == [] || (!Restarts(s, cuts[0]) && Steady(Next(s, cuts[0]), cuts[1..]))
  }

  lemma {:induction false} CutsDir(s: System, cuts: seq<Step>, ns: string, spec: RestoreSpec, last: RestoreTurn)
    requires Reaches(s.host, ns, spec) && forall c | c in cuts :: IsCut(c, ns, spec, last.order)
    ensures CouplingRuns.Run(s, cuts).restoreDir == if Steady(s, cuts) then s.restoreDir else RESTORE_DIR
    ensures Reaches(CouplingRuns.Run(s, cuts).host, ns, spec)
    decreases |cuts|
  {
    hide Reaches, Next, Restarts;
    if cuts != [] {
      assert cuts[0] in cuts;
      CutReaches(s, cuts[0], ns, spec, last);
      CutsDir(Next(s, cuts[0]), cuts[1..], ns, spec, last);
    }
  }

  lemma {:induction false} SteadyRetries(s: System, cuts: seq<Step>, ns: string, spec: RestoreSpec, last: RestoreTurn)
    requires Reaches(s.host, ns, spec) && last.faults == [] && forall c | c in cuts :: IsCut(c, ns, spec, last.order)
    requires Steady(s, cuts)
    ensures EndsTheSame(s, CouplingRuns.Run(s, cuts), ns, spec, last)
    decreases |cuts|
  {
    hide Reaches, Next, Restarts, RestorePass;
    if cuts != [] {
      assert cuts[0] in cuts;
      CutReaches(s, cuts[0], ns, spec, last);
      CutStep(s, cuts[0], ns, spec, last);
      SteadyRetries(Next(s, cuts[0]), cuts[1..], ns, spec, last);
    }
  }

  /** Where a restart is no matter: no step restarts the operator, or RestoreDir had not been switched. */
  lemma {:induction false} SteadyMeans(s: System, cuts: seq<Step>, ns: string, spec: RestoreSpec, last: RestoreTurn)
    requires Reaches(s.host, ns, spec) && forall c | c in cuts :: IsCut(c, ns, spec, last.order)
    requires s.restoreDir != RESTORE_DIR
    ensures Steady(s, cuts) <==> CouplingRuns.Uninterrupted(s, cuts, 0)
    decreases |cuts|
  {
    hide Reaches, Next, Restarts;
    if cuts != [] {
      assert cuts[0] in cuts;
      CutReaches(s, cuts[0], ns, spec, last);
      CouplingRuns.UninterruptedTail(s, cuts);
      if !Restarts(s, cuts[0]) {
        SteadyMeans(Next(s, cuts[0]), cuts[1..], ns, spec, last);
      }
    }
  }

  /** After any number of passes that end anywhere, panics and restarts included, a pass without faults runs the
      command that one uninterrupted pass would have run, and then leaves the same files in every pod: exactly if
      RestoreDir had not been switched, or the operator was not restarted meanwhile. */
  lemma RetriesEndTheSame(s: System, cuts: seq<Step>, ns: string, spec: RestoreSpec, last: RestoreTurn)
    requires Reaches(s.host, ns, spec) && last.faults == [] && forall c | c in cuts :: IsCut(c, ns, spec, last.order)
    requires s.restoreDir == RESTORE_DIR || s.restoreDir == BACKUP_DIR
    ensures
      var unmoved := s.restoreDir == RESTORE_DIR || CouplingRuns.Uninterrupted(s, cuts, 0);
      && (unmoved ==> EndsTheSame(s, CouplingRuns.Run(s, cuts), ns, spec, last))
      && (RestorePass(s.host, s.restoreDir, ns, spec, last).ran.Some? ==>
            (EndsTheSame(s, CouplingRuns.Run(s, cuts), ns, spec, last) <==> unmoved))
  {
    hide Reaches, RestorePass, EndsTheSame, Next, Restarts, CouplingRuns.Run, CouplingRuns.Uninterrupted, Steady;
    CutsDir(s, cuts, ns, spec, last);
    assert s.restoreDir == RESTORE_DIR ==> Steady(s, cuts) by {
      SteadyStart(s, cuts);
    }
    if s.restoreDir != RESTORE_DIR {
      SteadyMeans(s, cuts, ns, spec, last);
    }
    if Steady(s, cuts) {
      SteadyRetries(s, cuts, ns, spec, last);
    } else if RestorePass(s.host, s.restoreDir, ns, spec, last).ran.Some? {
      MovedRetry(s, CouplingRuns.Run(s, cuts), ns, spec, last);
    }
  }

  lemma SteadyStart(s: System, cuts: seq<Step>)
    ensures s.restoreDir == RESTORE_DIR ==> Steady(s, cuts)
  {
  }

  /** From another RestoreDir a pass runs another command. */
  lemma MovedRetry(s: System, s': System, ns: string, spec: RestoreSpec, last: RestoreTurn)
    requires Reaches(s.host, ns, spec) && Reaches(s'.host, ns, spec)
    requires s.restoreDir == BACKUP_DIR && s'.restoreDir == RESTORE_DIR
    requires RestorePass(s.host, s.restoreDir, ns, spec, last).ran.Some?
    ensures !EndsTheSame(s, s', ns, spec, last)
  {
    hide RestorePass, RestoreCommand, Loop, Listed;
    PassShape(s.host, s.restoreDir, ns, spec, last);
    PassShape(s'.host, s'.restoreDir, ns, spec, last);
    CouplingRuns.LastOfCommand(spec, BACKUP_DIR);
    CouplingRuns.LastOfCommand(spec, RESTORE_DIR);
    assert |BACKUP_DIR + "/" + spec.backupId| != |RESTORE_DIR + "/" + spec.backupId|;
  }
}
