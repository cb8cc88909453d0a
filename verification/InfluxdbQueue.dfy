/** The controller's work queue: how many passes it takes until every queued CR has converged, first
    with requeues on errors and on Requeue only, then with the watches feeding writes back as well. */
module InfluxdbQueue {
  import opened Basics
  import opened Kube
  import opened InfluxdbController
  import InfluxdbSafety
  import opened InfluxdbConvergence

  /** One pass, taken from the queue in any order, under the given faults and stale reads. */
  datatype Visit = Visit(key: Name, turns: seq<Turn>)

  function OnePass(w: World, v: Visit): (r: (World, seq<Turn>, Outcome))
    requires w.NonEmpty()
    ensures r.0.NonEmpty()
  {
    RunPass(w, v.turns, Fetching(v.key))
  }

  /** The owner of the stateful set under `n`. */
  function OwnerName(sets: map<Name, StatefulSet>, n: Name): Name
    requires n in sets && sets[n].owner.Some?
  {
    Name(n.ns, sets[n].owner.value.name)
  }

  predicate Differs<V(==)>(before: map<Name, V>, after: map<Name, V>, n: Name) {
    (n in before || n in after) && !InfluxdbSafety.SameAt(before, after, n)
  }

  /** The requests that the watches on Influxdb and StatefulSet objects enqueue when the cluster goes from one state to
      the next: for each CR made, changed or deleted, and for the old and the new owner of each such stateful set. */
  function Woken(before: Store, after: Store): set<Name> {
    (set n | n in before.crs.Keys + after.crs.Keys && Differs(before.crs, after.crs, n))
    + (set n | n in before.sets && Differs(before.sets, after.sets, n) && before.sets[n].owner.Some? ::
         OwnerName(before.sets, n))
    + (set n | n in after.sets && Differs(before.sets, after.sets, n) && after.sets[n].owner.Some? ::
         OwnerName(after.sets, n))
  }

  /** What they enqueue for all changes after state number `from`. */
  function WokenSince(log: seq<Store>, from: nat): set<Name>
    decreases |log|
  {
    if |log| <= from + 1 then {}
    else WokenSince(log[..|log| - 1], from) + Woken(log[|log| - 2], log[|log| - 1])
  }

  /** The queue after a visit: an error or Requeue keeps the request, and the watches may add some, also the one that
      was just dealt with. */
  function Requeued(queue: set<Name>, w: World, v: Visit, watch: bool): set<Name>
    requires w.NonEmpty()
  {
    var (w', _, outcome) := OnePass(w, v);
    (if outcome.Done? then queue - {v.key} else queue)
    + (if watch then WokenSince(w'.log, |w.log| - 1) else {})
  }

  function After(w: World, visits: seq<Visit>): (r: World)
    requires w.NonEmpty()
    ensures r.NonEmpty()
    decreases |visits|
  {
    if visits == [] then w else After(OnePass(w, visits[0]).0, visits[1..])
  }

  function QueueAfter(queue: set<Name>, w: World, visits: seq<Visit>, watch: bool): set<Name>
    requires w.NonEmpty()
    decreases |visits|
  {
    if visits == [] then queue
    else QueueAfter(Requeued(queue, w, visits[0], watch), OnePass(w, visits[0]).0, visits[1..], watch)
  }

  /** Every visit takes a request off the queue, and nobody else writes. */
  predicate Legal(queue: set<Name>, w: World, visits: seq<Visit>, watch: bool)
    requires w.NonEmpty()
    decreases |visits|
  {
    visits == [] ||
    (visits[0].key in queue && Alone(visits[0].turns) &&
     Legal(Requeued(queue, w, visits[0], watch), OnePass(w, visits[0]).0, visits[1..], watch))
  }

  function TotalTroubles(visits: seq<Visit>): nat {
    if visits == [] then 0 else Troubles(visits[0].turns) + TotalTroubles(visits[1..])
  }

  function NotReady(st: Store, ks: set<Name>): set<Name> {
    set k | k in ks && !Ready(st, k)
  }

  function NotConverged(st: Store, ks: set<Name>): set<Name> {
    set k | k in ks && !Converged(st, k)
  }

  lemma {:induction false} SubsetSize<T>(a: set<T>, b: set<T>)
    requires a <= b
    ensures |a| <= |b|
  {
    if a != {} {
      var x :| x in a;
      SubsetSize(a - {x}, b - {x});
    }
  }

  // ---- What a pass for one CR leaves of the others ------------------------------------------------

  lemma ProgressKeepsReady(key: Name, before: Store, after: Store, n: Name)
    requires Progress(key, before, after)
    ensures Ready(before, n) ==> Ready(after, n)
    ensures n != key ==> (Ready(before, n) <==> Ready(after, n))
    ensures n != key && Converged(before, n) ==> Converged(after, n)
  {
  }

  lemma VisitKeepsSound(w: World, v: Visit)
    requires Sound(w) && Alone(v.turns)
    ensures Sound(OnePass(w, v).0)
  {
    hide InfluxdbSafety.WorldOk, Monotone, Progress, Ready, Converged;
    QuietPass(w, v.turns, v.key);
  }

  lemma {:induction false} VisitsKeepSound(queue: set<Name>, w: World, visits: seq<Visit>, watch: bool)
    requires Sound(w) && Legal(queue, w, visits, watch)
    ensures Sound(After(w, visits))
    decreases |visits|
  {
    hide InfluxdbSafety.WorldOk, Monotone, OnePass, Requeued;
    if visits != [] {
      VisitKeepsSound(w, visits[0]);
      VisitsKeepSound(Requeued(queue, w, visits[0], watch), OnePass(w, visits[0]).0, visits[1..], watch);
    }
  }

  lemma VisitKeepsConverged(w: World, v: Visit, n: Name)
    requires Sound(w) && Alone(v.turns) && Converged(w.Current(), n)
    ensures Converged(OnePass(w, v).0.Current(), n)
  {
    QuietPass(w, v.turns, v.key);
    ProgressKeepsReady(v.key, w.Current(), OnePass(w, v).0.Current(), n);
  }

  lemma FewerNotReady(w: World, v: Visit, ks: set<Name>)
    requires Sound(w) && Alone(v.turns)
    ensures NotReady(OnePass(w, v).0.Current(), ks) <= NotReady(w.Current(), ks)
    ensures NotConverged(OnePass(w, v).0.Current(), ks) <= NotConverged(w.Current(), ks)
  {
    var after := OnePass(w, v).0.Current();
    forall n | n in ks && !Ready(after, n) ensures !Ready(w.Current(), n) {
      QuietPass(w, v.turns, v.key);
      ProgressKeepsReady(v.key, w.Current(), after, n);
    }
    forall n | n in ks && !Converged(after, n) ensures !Converged(w.Current(), n) {
      if Converged(w.Current(), n) {
        VisitKeepsConverged(w, v, n);
      }
    }
  }

  // ---- Requeues on errors and Requeue -----------------------------------------------------------

  function Work(st: Store, queue: set<Name>): nat {
    |queue| + |NotReady(st, queue)|
  }

  lemma VisitReducesWork(queue: set<Name>, w: World, v: Visit)
    requires Sound(w) && v.key in queue && Alone(v.turns)
    ensures
      var work' := Work(OnePass(w, v).0.Current(), Requeued(queue, w, v, false));
      work' <= Work(w.Current(), queue) && (Troubles(v.turns) == 0 ==> work' < Work(w.Current(), queue))
  {
    var (w', _, outcome) := OnePass(w, v);
    var before, after, queue' := w.Current(), w'.Current(), Requeued(queue, w, v, false);
    QuietPass(w, v.turns, v.key);
    FewerNotReady(w, v, queue');
    assert NotReady(before, queue') <= NotReady(before, queue);
    SubsetSize(NotReady(after, queue'), NotReady(before, queue));
    if outcome.Requeue? {
      assert v.key in NotReady(before, queue) && v.key !in NotReady(after, queue');
      SubsetSize(NotReady(after, queue'), NotReady(before, queue) - {v.key});
    }
  }

  lemma {:induction false} BoundedByWork(queue: set<Name>, w: World, visits: seq<Visit>)
    requires Sound(w) && Legal(queue, w, visits, false)
    ensures |visits| <= TotalTroubles(visits) + Work(w.Current(), queue)
    decreases |visits|
  {
    hide InfluxdbSafety.WorldOk, Monotone, OnePass, Work, Requeued;
    if visits != [] {
      VisitKeepsSound(w, visits[0]);
      VisitReducesWork(queue, w, visits[0]);
      BoundedByWork(Requeued(queue, w, visits[0], false), OnePass(w, visits[0]).0, visits[1..]);
    }
  }

  lemma {:induction false} DequeuedConverged(all: set<Name>, queue: set<Name>, w: World, visits: seq<Visit>,
                                             watch: bool)
    requires Sound(w) && Legal(queue, w, visits, watch)
    requires forall k | k in all - queue :: Converged(w.Current(), k)
    ensures forall k | k in all - QueueAfter(queue, w, visits, watch) :: Converged(After(w, visits).Current(), k)
    decreases |visits|
  {
    hide InfluxdbSafety.WorldOk, Monotone, Converged;
    if visits != [] {
      VisitKeepsSound(w, visits[0]);
      var v := visits[0];
      var (w', _, outcome) := OnePass(w, v);
      var queue' := Requeued(queue, w, v, watch);
      forall k | k in all - queue' ensures Converged(w'.Current(), k) {
        QuietPass(w, v.turns, v.key);
        if k in queue {
          assert k == v.key;
        } else {
          VisitKeepsConverged(w, v, k);
        }
      }
      DequeuedConverged(all, queue', w', visits[1..], watch);
    }
  }

  /** For N queued CRs, any initial cluster, any order of visits and F calls in total that fail or are answered
      from a stale cache, at most F + 2N passes are made, and once the queue is empty every CR has converged. */
  lemma ConvergesUnderFaults(queue: set<Name>, w: World, visits: seq<Visit>)
    requires Sound(w) && Legal(queue, w, visits, false)
    ensures |visits| <= TotalTroubles(visits) + 2 * |queue|
    ensures QueueAfter(queue, w, visits, false) == {} ==>
              forall k | k in queue :: Converged(After(w, visits).Current(), k)
  {
    hide InfluxdbSafety.WorldOk, Monotone, OnePass, Legal, Ready, Converged;
    BoundedByWork(queue, w, visits);
    SubsetSize(NotReady(w.Current(), queue), queue);
    DequeuedConverged(queue, queue, w, visits, false);
  }

  // ---- Watches feed the controller's own writes back ---------------------------------------------

  /** Closed under the owners of the cluster's stateful sets. */
  predicate OwnersIn(st: Store, all: set<Name>) {
    forall n | n in st.sets && st.sets[n].owner.Some? :: Name(n.ns, st.sets[n].owner.value.name) in all
  }

  function Debt(st: Store, all: set<Name>, queue: set<Name>): nat {
    |queue| + 2 * |NotReady(st, all)| + 2 * |NotConverged(st, all)|
  }

  /** The states that a pass that began in `w0` has brought about: each is progress, and only the last may have other
      stateful sets. */
  ghost predicate Trail(w0: World, w: World, p: Pass) {
    && w0.NonEmpty() && w0.log <= w.log
    && (forall i | |w0.log| - 1 <= i < |w.log| :: Progress(p.key, w0.Current(), w.log[i]))
    && (forall i | |w0.log| - 1 <= i < |w.log| - 1 :: w.log[i].sets == w0.Current().sets)
  }

  lemma TrailGoesOn(w0: World, w: World, p: Pass, lag: nat, fault: Fault)
    requires PassInv(w0, w, p) && Trail(w0, w, p) && !p.Ended?
    ensures
      var (w', reply) := Exec(w, CallOf(p), lag, fault);
      PassInv(w0, w', Resume(p, reply)) && Trail(w0, w', Resume(p, reply))
  {
    hide Progress, Sound, InfluxdbSafety.PassOk, Found, Converged, Resume, CallOf, Write, Read;
    CallKeepsInv(w0, w, p, lag, fault);
    var (w', reply) := Exec(w, CallOf(p), lag, fault);
    ResumedKey(p, reply);
    assert w.log <= w'.log <= w.log + [w'.Current()];
    assert w'.log[|w'.log| - 1] == w'.Current();
  }

  lemma TrailKept(w0: World)
    ensures Kept((w: World, p: Pass) => PassInv(w0, w, p) && Trail(w0, w, p), false)
  {
    hide PassInv, Exec, Trail;
    forall w: World, p: Pass, lag: nat, fault: Fault
      | w.NonEmpty() && !p.Ended? && PassInv(w0, w, p) && Trail(w0, w, p)
      ensures
        var (w', reply) := Exec(w, CallOf(p), lag, fault);
        PassInv(w0, w', Resume(p, reply)) && Trail(w0, w', Resume(p, reply))
    {
      TrailGoesOn(w0, w, p, lag, fault);
    }
  }

  lemma TrailStarts(w: World, k: Name)
    requires w.NonEmpty()
    ensures Trail(w, w, Fetching(k))
  {
    assert w.log[|w.log| - 1] == w.Current();
  }

  lemma VisitTrail(w: World, v: Visit)
    requires Sound(w) && Alone(v.turns)
    ensures Trail(w, OnePass(w, v).0, Fetching(v.key))
  {
    hide Sound, PassInv, Trail, Exact;
    PassStarts(w, v.key);
    TrailStarts(w, v.key);
    TrailKept(w);
    KeptToTheEnd((w', p) => PassInv(w, w', p) && Trail(w, w', p), false, w, v.turns, Fetching(v.key));
    SameTrail(w, OnePass(w, v).0, Ended(v.key, OnePass(w, v).2), Fetching(v.key));
  }

  lemma SameTrail(w0: World, w: World, p: Pass, p': Pass)
    requires Trail(w0, w, p) && p'.key == p.key
    ensures Trail(w0, w, p')
  {
    hide Progress;
  }

  /** The owner of the stateful set of `k`, or `k` itself. */
  function OwnerOr(st: Store, k: Name): Name {
    if k in st.sets && st.sets[k].owner.Some? then OwnerName(st.sets, k) else k
  }

  /** Whom the change from one state to the next wakes, when both have come about by progress for `k`. */
  lemma ProgressWakes(k: Name, st0: Store, before: Store, after: Store)
    requires Progress(k, st0, before) && Progress(k, st0, after) && before.sets == st0.sets
    ensures Woken(before, after) <= {k, OwnerOr(st0, k)}
    ensures after.sets == st0.sets ==> Woken(before, after) <= {k}
  {
    hide Progress, OwnerOr, OwnerName;
    OnlyOne(k, st0, before, after);
  }

  lemma OnlyOne(k: Name, st0: Store, before: Store, after: Store)
    requires Progress(k, st0, before) && Progress(k, st0, after) && before.sets == st0.sets
    ensures forall n | Differs(before.crs, after.crs, n) :: n == k
    ensures forall n | Differs(before.sets, after.sets, n) :: n == k
    ensures k in before.sets && before.sets[k].owner.Some? ==> OwnerName(before.sets, k) == OwnerOr(st0, k)
    ensures k in after.sets && after.sets[k].owner.Some? ==> OwnerName(after.sets, k) in {k, OwnerOr(st0, k)}
  {
    hide InfluxdbSafety.ServiceFits, InfluxdbSafety.ClaimFits, Ready;
  }

  lemma {:induction false} TrailWakes(w0: World, w: World, k: Name, n: nat)
    requires Trail(w0, w, Fetching(k)) && |w0.log| <= n <= |w.log|
    ensures WokenSince(w.log[..n], |w0.log| - 1) <= {k, OwnerOr(w0.Current(), k)}
    ensures n < |w.log| || w.Current().sets == w0.Current().sets ==> WokenSince(w.log[..n], |w0.log| - 1) <= {k}
    decreases n
  {
    hide Progress, Woken, OwnerOr;
    if n > |w0.log| {
      TrailWakes(w0, w, k, n - 1);
      assert w.log[..n][..n - 1] == w.log[..n - 1];
      ProgressWakes(k, w0.Current(), w.log[n - 2], w.log[n - 1]);
    }
  }

  lemma WokenBy(w: World, v: Visit, all: set<Name>)
    requires Sound(w) && Alone(v.turns) && v.key in all && OwnersIn(w.Current(), all)
    ensures
      var before, after := w.Current(), OnePass(w, v).0.Current();
      var woken := WokenSince(OnePass(w, v).0.log, |w.log| - 1);
      && OwnersIn(after, all)
      && (after.sets == before.sets ==> woken <= {v.key})
      && (exists o | o in all :: woken <= {v.key, o})
  {
    hide Ready, Converged, WokenSince, Monotone, InfluxdbSafety.WorldOk, Progress, OwnersIn, OwnerOr;
    var w' := OnePass(w, v).0;
    VisitTrail(w, v);
    TrailWakes(w, w', v.key, |w'.log|);
    assert w'.log[..|w'.log|] == w'.log;
    assert w'.log[|w'.log| - 1] == w'.Current();
    ProgressKeepsOwners(v.key, w.Current(), w'.Current(), all);
  }

  lemma ProgressKeepsOwners(k: Name, before: Store, after: Store, all: set<Name>)
    requires Progress(k, before, after) && OwnersIn(before, all) && k in all
    ensures OwnersIn(after, all) && OwnerOr(before, k) in all
  {
    hide InfluxdbSafety.ServiceFits, InfluxdbSafety.ClaimFits, Ready;
  }

  /** What a visit does to the two backlogs, whose key it was on when they shrink, and whom it wakes. */
  ghost predicate VisitShape(all: set<Name>, w: World, v: Visit)
    requires w.NonEmpty()
  {
    var (w', _, outcome) := OnePass(w, v);
    var before, after := w.Current(), w'.Current();
    && NotReady(after, all) <= NotReady(before, all)
    && NotConverged(after, all) <= NotConverged(before, all)
    && (outcome.Error? ==> Troubles(v.turns) > 0)
    && (outcome.Requeue? ==> after.sets != before.sets)
    && (after.sets != before.sets ==> v.key in NotReady(before, all) && v.key !in NotReady(after, all))
    && (outcome.Done? && w' != w ==> v.key in NotConverged(before, all) && v.key !in NotConverged(after, all))
  }

  lemma VisitHasShape(all: set<Name>, w: World, v: Visit)
    requires Sound(w) && v.key in all && Alone(v.turns)
    ensures VisitShape(all, w, v)
  {
    QuietPass(w, v.turns, v.key);
    FewerNotReady(w, v, all);
  }

  lemma DebtFalls(queue: set<Name>, queue': set<Name>, nr: set<Name>, nr': set<Name>, nc: set<Name>, nc': set<Name>,
                  key: Name, woken: Name, scaled: bool, clean: bool)
    requires nr' <= nr && nc' <= nc && key in queue
    requires scaled ==> key in nr - nr' && queue' <= queue + {woken}
    requires !scaled ==> queue' <= queue && (clean ==> key !in queue' || key in nc - nc')
    ensures |queue'| + 2 * |nr'| + 2 * |nc'| + (if clean then 1 else 0) <= |queue| + 2 * |nr| + 2 * |nc|
  {
    SubsetSize(nr', nr);
    SubsetSize(nc', nc);
    if scaled {
      SubsetSize(queue', queue + {woken});
      SubsetSize(nr', nr - {key});
    } else {
      SubsetSize(queue', queue);
      if clean && key in nc - nc' {
        SubsetSize(nc', nc - {key});
      } else if clean {
        SubsetSize(queue', queue - {key});
      }
    }
  }

  lemma QueueShape(all: set<Name>, queue: set<Name>, w: World, v: Visit) returns (woken: Name)
    requires Sound(w) && v.key in queue && queue <= all && OwnersIn(w.Current(), all) && Alone(v.turns)
    ensures
      var (w', _, outcome) := OnePass(w, v);
      var before, after, queue' := w.Current(), w'.Current(), Requeued(queue, w, v, true);
      && queue' <= all && OwnersIn(after, all)
      && (after.sets != before.sets ==> queue' <= queue + {woken})
      && (after.sets == before.sets ==> queue' <= queue)
      && (outcome.Done? && w' == w ==> v.key !in queue')
  {
    WokenBy(w, v, all);
    woken :| woken in all && WokenSince(OnePass(w, v).0.log, |w.log| - 1) <= {v.key, woken};
  }

  lemma VisitReducesDebt(all: set<Name>, queue: set<Name>, w: World, v: Visit)
    requires Sound(w) && v.key in queue && queue <= all && OwnersIn(w.Current(), all) && Alone(v.turns)
    ensures
      var after, queue' := OnePass(w, v).0.Current(), Requeued(queue, w, v, true);
      && queue' <= all && OwnersIn(after, all)
      && Debt(after, all, queue') <= Debt(w.Current(), all, queue)
      && (Troubles(v.turns) == 0 ==> Debt(after, all, queue') < Debt(w.Current(), all, queue))
  {
    var before, after, queue' := w.Current(), OnePass(w, v).0.Current(), Requeued(queue, w, v, true);
    VisitHasShape(all, w, v);
    var woken := QueueShape(all, queue, w, v);
    DebtFalls(queue, queue', NotReady(before, all), NotReady(after, all), NotConverged(before, all),
              NotConverged(after, all), v.key, woken, after.sets != before.sets, Troubles(v.turns) == 0);
  }

  lemma {:induction false} BoundedByDebt(all: set<Name>, queue: set<Name>, w: World, visits: seq<Visit>)
    requires Sound(w) && queue <= all && OwnersIn(w.Current(), all) && Legal(queue, w, visits, true)
    ensures |visits| <= TotalTroubles(visits) + Debt(w.Current(), all, queue)
    decreases |visits|
  {
    hide InfluxdbSafety.WorldOk, Monotone, OnePass, Debt, Requeued, OwnersIn;
    if visits != [] {
      VisitKeepsSound(w, visits[0]);
      VisitReducesDebt(all, queue, w, visits[0]);
      BoundedByDebt(all, Requeued(queue, w, visits[0], true), OnePass(w, visits[0]).0, visits[1..]);
    }
  }

  /** A pass for a converged CR writes nothing, whatever fails and however stale the answers are. */
  lemma ConvergedIsQuiet(w: World, v: Visit)
    requires Sound(w) && Alone(v.turns) && Converged(w.Current(), v.key)
    ensures OnePass(w, v).0 == w
  {
    hide InfluxdbSafety.WorldOk, Monotone, Progress, Ready, Converged;
    QuietPass(w, v.turns, v.key);
  }

  /** With the watches re-enqueueing a request on every write to its CR or stateful set, the loop still
      ends: at most F + 5K passes over any K requests that include the queued ones and the owners of the
      stateful sets, where F counts the calls that fail and the reads that are stale; and when the queue is empty
      every CR has converged and no further pass writes anything. */
  lemma FeedbackLoopEnds(all: set<Name>, queue: set<Name>, w: World, visits: seq<Visit>)
    requires Sound(w) && queue <= all && OwnersIn(w.Current(), all) && Legal(queue, w, visits, true)
    ensures |visits| <= TotalTroubles(visits) + 5 * |all|
    ensures QueueAfter(queue, w, visits, true) == {} ==>
              forall k | k in queue :: Converged(After(w, visits).Current(), k)
    ensures QueueAfter(queue, w, visits, true) == {} ==>
              forall v: Visit | v.key in queue && Alone(v.turns) :: OnePass(After(w, visits), v).0 == After(w, visits)
  {
    hide InfluxdbSafety.WorldOk, Monotone, OnePass, OwnersIn, Legal, Ready, Converged;
    BoundedByDebt(all, queue, w, visits);
    SubsetSize(queue, all);
    SubsetSize(NotReady(w.Current(), all), all);
    SubsetSize(NotConverged(w.Current(), all), all);
    DequeuedConverged(queue, queue, w, visits, true);
    VisitsKeepSound(queue, w, visits, true);
    if QueueAfter(queue, w, visits, true) == {} {
      forall v: Visit | v.key in queue && Alone(v.turns) ensures OnePass(After(w, visits), v).0 == After(w, visits) {
        ConvergedIsQuiet(After(w, visits), v);
      }
    }
  }
}
