/** The watches lose no wake-up: while others write as they like, also in the middle of a pass, every CR whose stateful
    set has not the right size is in the queue; and so outside edits are repaired. */
module InfluxdbWatch {
  import opened Basics
  import opened Kube
  import opened InfluxdbController
  import InfluxdbSafety
  import opened InfluxdbConvergence
  import opened InfluxdbQueue

  /** Somebody else moves the cluster to other contents, or the controller takes a request off its queue. */
  datatype Event = Edited(st: Store) | Visited(v: Visit)

  function WorldAfter(w: World, e: Event): (r: World)
    requires w.NonEmpty()
    ensures r.NonEmpty()
  {
    match e
    case Edited(st) => Adopt(w, st)
    case Visited(v) => OnePass(w, v).0
  }

  function QueueNow(queue: set<Name>, w: World, e: Event): set<Name>
    requires w.NonEmpty()
  {
    match e
    case Edited(st) => queue + WokenSince(Adopt(w, st).log, |w.log| - 1)
    case Visited(v) => Requeued(queue, w, v, true)
  }

  /** Every read of the rest of the pass is answered from state number `from` or a later one. */
  predicate Fresh(from: nat, w: World, turns: seq<Turn>, p: Pass)
    requires w.NonEmpty()
    decreases CallsLeft(p)
  {
    p.Ended? ||
    var turn := if turns == [] then QUIET_TURN else turns[0];
    var w1 := if turn.env.Some? then Adopt(w, turn.env.value) else w;
    var (w', rest, reply) := Serve(w, turns, CallOf(p));
    && (CallOf(p).IsRead() ==> from + turn.lag < |w1.log|)
    && Fresh(from, w', rest, Resume(p, reply))
  }

  /** A pass deals with a request of the queue, and its cache has seen what made the request. */
  predicate Possible(queue: set<Name>, w: World, e: Event)
    requires w.NonEmpty()
  {
    e.Visited? ==> e.v.key in queue && Fresh(|w.log| - 1, w, e.v.turns, Fetching(e.v.key))
  }

  /** The stateful set named like a CR is that CR's. */
  predicate OwnsSets(st: Store) {
    forall k | k in st.crs && k in st.sets :: st.sets[k].owner.Some? && st.sets[k].owner.value.name == k.name
  }

  /** No CR that needs the controller has been forgotten. */
  predicate NoneLost(st: Store, queue: set<Name>) {
    forall k | k in st.crs && !Ready(st, k) :: k in queue
  }

  // ---- What is not woken has not changed -----------------------------------------------------------------------

  lemma ChangeWakes(before: Store, after: Store, k: Name)
    requires OwnsSets(before) && OwnsSets(after)
    requires Differs(before.crs, after.crs, k) || (k in after.crs && Differs(before.sets, after.sets, k))
    ensures k in Woken(before, after)
  {
  }

  /** Without that rule nobody is woken: an edit of a stateful set without owner reaches no queue. */
  lemma UnownedWakesNobody(st: Store, k: Name, o: StatefulSet)
    requires k in st.sets && st.sets[k].owner.None? && o.owner.None?
    ensures Woken(st, st.(sets := st.sets[k := o])) == {}
  {
  }

  /** The CR and its stateful set are what they were. */
  predicate Unmoved(before: Store, after: Store, k: Name) {
    InfluxdbSafety.SameAt(before.crs, after.crs, k)
    && (k in before.crs ==> InfluxdbSafety.SameAt(before.sets, after.sets, k))
  }

  lemma {:induction false} NotWoken(log: seq<Store>, from: nat, k: Name, i: nat)
    requires from <= i < |log| && k !in WokenSince(log, from)
    requires forall j | from <= j < |log| :: OwnsSets(log[j])
    ensures Unmoved(log[from], log[i], k)
    decreases |log|
  {
    hide OwnsSets, Woken;
    var n := |log| - 1;
    if i > from {
      var init := log[..n];
      if i < n {
        NotWoken(init, from, k, i);
      } else {
        NotWoken(init, from, k, n - 1);
        if !Unmoved(log[n - 1], log[n], k) {
          ChangeWakes(log[n - 1], log[n], k);
        }
      }
    }
  }

  // ---- What a pass that is done has seen -------------------------------------------------------------------------

  /** Since state number `from` the CR was away, or there were a CR and a stateful set of the size it asks for. */
  ghost predicate SawReady(log: seq<Store>, from: nat, k: Name) {
    || (exists i :: from <= i < |log| && k !in log[i].crs)
    || (exists i, j :: from <= i < |log| && from <= j < |log| && k in log[i].crs && k in log[j].sets
                       && log[j].sets[k].replicas == log[i].crs[k].spec.size)
  }

  ghost predicate SawSpec(log: seq<Store>, from: nat, k: Name, spec: InfluxdbSpec) {
    exists i :: from <= i < |log| && k in log[i].crs && log[i].crs[k].spec == spec
  }

  /** What a pass has read since it began at state number `from`. */
  ghost predicate Saw(log: seq<Store>, from: nat, p: Pass) {
    match p
    case Fetching(_) => true
    case Ended(k, outcome) => outcome.Done? ==> SawReady(log, from, k)
    case ListingPods(k, _) => SawReady(log, from, k)
    case SavingNodes(k, _) => SawReady(log, from, k)
    case _ => SawSpec(log, from, p.key, p.cr.spec)
  }

  lemma SawMore(log: seq<Store>, log': seq<Store>, from: nat, p: Pass)
    requires Saw(log, from, p) && log <= log'
    ensures Saw(log', from, p)
  {
    assert forall i | 0 <= i < |log| :: log'[i] == log[i];
  }

  lemma ReadSaw(log: seq<Store>, from: nat, i: nat, p: Pass)
    requires Saw(log, from, p) && !p.Ended? && CallOf(p).IsRead() && from <= i < |log|
    ensures Saw(log, from, Resume(p, Read(log[i], CallOf(p))))
  {
    hide Listing, PodNames, LabelsFor, ServiceKey, ClaimKey;
  }

  lemma OtherSaw(log: seq<Store>, from: nat, p: Pass, reply: Reply)
    requires Saw(log, from, p) && !p.Ended? && (reply.Failed? || !CallOf(p).IsRead())
    ensures Saw(log, from, Resume(p, reply))
  {
    hide SawReady, SawSpec, ServiceKey, NewService, NewClaim, StatefulSetFor;
  }

  lemma CallSaw(w: World, from: nat, p: Pass, lag: nat, fault: Fault)
    requires w.NonEmpty() && Saw(w.log, from, p) && !p.Ended? && (CallOf(p).IsRead() ==> from + lag < |w.log|)
    ensures
      var (w', reply) := Exec(w, CallOf(p), lag, fault);
      w.log <= w'.log && Saw(w'.log, from, Resume(p, reply))
  {
    hide Saw, Resume, CallOf, Read, Write;
    var (w', reply) := Exec(w, CallOf(p), lag, fault);
    SawMore(w.log, w'.log, from, p);
    if reply.Failed? || !CallOf(p).IsRead() {
      OtherSaw(w'.log, from, p, reply);
    } else {
      ReadSaw(w.log, from, |w.log| - 1 - lag, p);
    }
  }

  lemma {:induction false} PassSaw(w: World, from: nat, turns: seq<Turn>, p: Pass)
    requires w.NonEmpty() && Saw(w.log, from, p) && Fresh(from, w, turns, p)
    ensures
      var (w', _, outcome) := RunPass(w, turns, p);
      w.log <= w'.log && Saw(w'.log, from, Ended(p.key, outcome))
    decreases CallsLeft(p)
  {
    hide Saw, Exec, Resume, CallOf;
    if !p.Ended? {
      var turn := if turns == [] then QUIET_TURN else turns[0];
      var w1 := if turn.env.Some? then Adopt(w, turn.env.value) else w;
      var (w', rest, reply) := Serve(w, turns, CallOf(p));
      SawMore(w.log, w1.log, from, p);
      CallSaw(w1, from, p, turn.lag, turn.fault);
      ResumedKey(p, reply);
      PassSaw(w', from, rest, Resume(p, reply));
    } else {
      assert p == Ended(p.key, p.outcome);
    }
  }

  lemma SawUnmoved(log: seq<Store>, from: nat, k: Name)
    requires from < |log| && SawReady(log, from, k)
    requires forall i | from <= i < |log| :: Unmoved(log[from], log[i], k)
    ensures Ready(log[from], k)
  {
  }

  /** A pass that is done, and during which nobody touched its CR or stateful set, leaves the set ready. */
  lemma DoneIsReady(w: World, v: Visit)
    requires w.NonEmpty() && Fresh(|w.log| - 1, w, v.turns, Fetching(v.key)) && OnePass(w, v).2.Done?
    requires
      var log := OnePass(w, v).0.log;
      forall i | |w.log| - 1 <= i < |log| :: Unmoved(w.Current(), log[i], v.key)
    ensures Ready(w.Current(), v.key)
  {
    hide SawReady, Unmoved, Fresh, RunPass, Ready;
    PassSaw(w, |w.log| - 1, v.turns, Fetching(v.key));
    SawUnmoved(OnePass(w, v).0.log, |w.log| - 1, v.key);
  }

  // ---- Runs --------------------------------------------------------------------------------------------------------

  /** All states from number `from` on keep to the rule on owners. */
  predicate OwnsSince(log: seq<Store>, from: nat) {
    forall i | from <= i < |log| :: OwnsSets(log[i])
  }

  lemma PassExtends(w: World, turns: seq<Turn>, p: Pass)
    requires w.NonEmpty()
    ensures w.log <= RunPass(w, turns, p).0.log
    decreases CallsLeft(p)
  {
    hide Resume, CallOf, Read, Write;
    if !p.Ended? {
      var (w', rest, reply) := Serve(w, turns, CallOf(p));
      PassExtends(w', rest, Resume(p, reply));
    }
  }

  lemma EventExtends(w: World, e: Event)
    requires w.NonEmpty()
    ensures w.log <= WorldAfter(w, e).log
  {
    if e.Visited? {
      PassExtends(w, e.v.turns, Fetching(e.v.key));
    }
  }

  /** One event forgets no CR. */
  lemma EventLosesNone(queue: set<Name>, w: World, e: Event)
    requires w.NonEmpty() && Possible(queue, w, e) && NoneLost(w.Current(), queue)
    requires OwnsSince(WorldAfter(w, e).log, |w.log| - 1)
    ensures NoneLost(WorldAfter(w, e).Current(), QueueNow(queue, w, e))
  {
    hide OwnsSets, WokenSince, Fresh, Adopt, RunPass;
    var w', from := WorldAfter(w, e), |w.log| - 1;
    EventExtends(w, e);
    assert w'.log[from] == w.Current() && w'.log[|w'.log| - 1] == w'.Current();
    forall k | k in w'.Current().crs && !Ready(w'.Current(), k) && k !in WokenSince(w'.log, from)
      ensures k in QueueNow(queue, w, e)
    {
      forall i | from <= i < |w'.log| ensures Unmoved(w.Current(), w'.log[i], k) {
        NotWoken(w'.log, from, k, i);
      }
      assert !Ready(w.Current(), k);
      if e.Visited? && e.v.key == k && OnePass(w, e.v).2.Done? {
        DoneIsReady(w, e.v);
      }
    }
  }

  function WorldAtEnd(w: World, events: seq<Event>): (r: World)
    requires w.NonEmpty()
    ensures r.NonEmpty()
    decreases |events|
  {
    if events == [] then w else WorldAtEnd(WorldAfter(w, events[0]), events[1..])
  }

  function QueueAtEnd(queue: set<Name>, w: World, events: seq<Event>): set<Name>
    requires w.NonEmpty()
    decreases |events|
  {
    if events == [] then queue else QueueAtEnd(QueueNow(queue, w, events[0]), WorldAfter(w, events[0]), events[1..])
  }

  predicate AllPossible(queue: set<Name>, w: World, events: seq<Event>)
    requires w.NonEmpty()
    decreases |events|
  {
    events == [] ||
    (Possible(queue, w, events[0])
     && AllPossible(QueueNow(queue, w, events[0]), WorldAfter(w, events[0]), events[1..]))
  }

  lemma {:induction false} EventsExtend(w: World, events: seq<Event>)
    requires w.NonEmpty()
    ensures w.log <= WorldAtEnd(w, events).log
    decreases |events|
  {
    hide WorldAfter;
    if events != [] {
      EventExtends(w, events[0]);
      EventsExtend(WorldAfter(w, events[0]), events[1..]);
    }
  }

  /** Over any run of passes and of other writers' changes, before passes and within them, every CR whose stateful set
      is missing or has the wrong size is in the queue, if it was so to begin with. */
  lemma {:induction false} NoWakeUpLost(queue: set<Name>, w: World, events: seq<Event>)
    requires w.NonEmpty() && AllPossible(queue, w, events) && NoneLost(w.Current(), queue)
    requires OwnsSince(WorldAtEnd(w, events).log, |w.log| - 1)
    ensures NoneLost(WorldAtEnd(w, events).Current(), QueueAtEnd(queue, w, events))
    decreases |events|
  {
    hide WorldAfter, QueueNow, Possible, NoneLost, OwnsSets;
    if events != [] {
      var w' := WorldAfter(w, events[0]);
      EventExtends(w, events[0]);
      EventsExtend(w', events[1..]);
      var log := WorldAtEnd(w, events).log;
      assert forall i | 0 <= i < |w'.log| :: w'.log[i] == log[i];
      EventLosesNone(queue, w, events[0]);
      NoWakeUpLost(QueueNow(queue, w, events[0]), w', events[1..]);
    }
  }

  // ---- Repair ------------------------------------------------------------------------------------------------------

  lemma EventKeepsVersions(w: World, e: Event)
    requires InfluxdbSafety.WorldOk(w)
    ensures InfluxdbSafety.WorldOk(WorldAfter(w, e))
  {
    hide InfluxdbSafety.CrVersions, InfluxdbSafety.SetVersions, RunPass, Adopt;
    var s := InfluxdbSafety.System(w, map[]);
    match e
    case Edited(st) => InfluxdbSafety.EnvKeepsInv(s, st);
    case Visited(v) =>
      var acts := InfluxdbSafety.PassIsARun(w, v.turns, v.key);
      InfluxdbSafety.RunKeepsInvFrom(s, acts);
  }

  lemma {:induction false} EventsKeepVersions(w: World, events: seq<Event>)
    requires InfluxdbSafety.WorldOk(w)
    ensures InfluxdbSafety.WorldOk(WorldAtEnd(w, events))
    decreases |events|
  {
    hide InfluxdbSafety.CrVersions, InfluxdbSafety.SetVersions, WorldAfter;
    if events != [] {
      EventKeepsVersions(w, events[0]);
      EventsKeepVersions(WorldAfter(w, events[0]), events[1..]);
    }
  }

  /** The cluster from now on: its past is no longer read. */
  function Settled(w: World): (r: World)
    requires w.NonEmpty()
    ensures r.NonEmpty() && r.Current() == w.Current()
  {
    World([w.Current()], w.next)
  }

  lemma SettledIsSound(w: World)
    requires InfluxdbSafety.WorldOk(w)
    ensures Sound(Settled(w))
  {
    assert w.log[|w.log| - 1] == w.Current();
    StartIsSound(Settled(w));
  }

  /** The part of QuietPass that says what may change. */
  lemma QuietVisit(w: World, v: Visit)
    requires Sound(w) && Alone(v.turns)
    ensures Progress(v.key, w.Current(), OnePass(w, v).0.Current())
  {
    hide Progress, Ready, Converged;
    QuietPass(w, v.turns, v.key);
  }

  lemma {:induction false} VisitsKeepReady(queue: set<Name>, w: World, visits: seq<Visit>)
    requires Sound(w) && Legal(queue, w, visits, true)
    ensures forall k | k in After(w, visits).Current().crs :: k in w.Current().crs
    ensures forall k | Ready(w.Current(), k) :: Ready(After(w, visits).Current(), k)
    decreases |visits|
  {
    hide InfluxdbSafety.WorldOk, Monotone, Ready, Requeued;
    if visits != [] {
      var v := visits[0];
      var w' := OnePass(w, v).0;
      VisitKeepsSound(w, v);
      QuietVisit(w, v);
      forall k | Ready(w.Current(), k) ensures Ready(w'.Current(), k) {
        ProgressKeepsReady(v.key, w.Current(), w'.Current(), k);
      }
      VisitsKeepReady(Requeued(queue, w, v, true), w', visits[1..]);
    }
  }

  /** Outside edits are repaired: after any run of passes and edits, once the others leave the cluster alone, at most
      F + 5K passes are made, and when the queue is empty every stateful set has the size that its CR asks for, and
      every CR that was queued has converged. */
  lemma EditsAreRepaired(queue: set<Name>, w: World, events: seq<Event>, all: set<Name>, visits: seq<Visit>)
    requires InfluxdbSafety.WorldOk(w) && AllPossible(queue, w, events) && NoneLost(w.Current(), queue)
    requires OwnsSince(WorldAtEnd(w, events).log, |w.log| - 1)
    requires
      var now, left := Settled(WorldAtEnd(w, events)), QueueAtEnd(queue, w, events);
      left <= all && OwnersIn(now.Current(), all) && Legal(left, now, visits, true)
    ensures
      var now, left := Settled(WorldAtEnd(w, events)), QueueAtEnd(queue, w, events);
      var end := After(now, visits).Current();
      && |visits| <= TotalTroubles(visits) + 5 * |all|
      && (QueueAfter(left, now, visits, true) == {} ==>
            (forall k | k in end.crs :: Ready(end, k)) && forall k | k in left :: Converged(end, k))
  {
    hide InfluxdbSafety.CrVersions, InfluxdbSafety.SetVersions, WorldAtEnd, QueueAtEnd, AllPossible, OwnsSince, Legal,
         OwnersIn, Ready, NodesRight, QueueAfter, Monotone;
    var last, left := WorldAtEnd(w, events), QueueAtEnd(queue, w, events);
    EventsKeepVersions(w, events);
    NoWakeUpLost(queue, w, events);
    SettledIsSound(last);
    FeedbackLoopEnds(all, left, Settled(last), visits);
    VisitsKeepReady(left, Settled(last), visits);
  }
}
