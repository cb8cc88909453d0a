/** What one pass does to the cluster, field by field, when no call fails, no answer is stale and nobody else writes. */
module InfluxdbCalm {
  import opened Basics
  import opened Kube
  import opened InfluxdbController
  import opened InfluxdbSafety
  import opened InfluxdbConvergence

  // ---- What is done, and what is not done yet ------------------------------------------------------------

  /** Old entries stay; the one under `n` is there. */
  predicate Added<V(==)>(before: map<Name, V>, after: map<Name, V>, n: Name) {
    && after.Keys == before.Keys + {n}
    && forall m | m in before :: after[m] == before[m]
  }

  /** Of the CRs only the status of `k` may have changed. */
  ghost predicate CrKept(k: Name, before: Store, after: Store) {
    && k in before.crs && after.crs.Keys == before.crs.Keys
    && (forall m | m in before.crs && m != k :: after.crs[m] == before.crs[m])
    && after.crs[k].spec == before.crs[k].spec && after.crs[k].uid == before.crs[k].uid
  }

  function ServiceName(k: Name): Name {
    Name(k.ns, k.name + "-svc")
  }

  function ClaimName(k: Name, cr: Influxdb): Name {
    Name(k.ns, cr.spec.claimName)
  }

  predicate ServiceMade(k: Name, cr: Influxdb, before: map<Name, Service>, after: map<Name, Service>) {
    && Added(before, after, ServiceName(k))
    && (ServiceName(k) !in before ==> ServiceFits(k, cr, ServiceName(k), after[ServiceName(k)]))
  }

  predicate ClaimMade(k: Name, cr: Influxdb, before: map<Name, Claim>, after: map<Name, Claim>) {
    && Added(before, after, ClaimName(k, cr))
    && (ClaimName(k, cr) !in before ==> ClaimFits(k, cr, ClaimName(k, cr), after[ClaimName(k, cr)]))
  }

  /** The Service is there, and its name is in the status if the pass made it. */
  ghost predicate ServiceDone(k: Name, before: Store, after: Store) {
    && k in before.crs && k in after.crs && ServiceMade(k, before.crs[k], before.services, after.services)
    && after.crs[k].status.serviceName
       == if ServiceName(k) in before.services then before.crs[k].status.serviceName else k.name + "-svc"
  }

  ghost predicate ClaimDone(k: Name, before: Store, after: Store) {
    && k in before.crs && k in after.crs && ClaimMade(k, before.crs[k], before.claims, after.claims)
    && after.crs[k].status.claimName
       == if ClaimName(k, before.crs[k]) in before.claims then before.crs[k].status.claimName
          else before.crs[k].spec.claimName
  }

  ghost predicate ServiceNotYet(k: Name, before: Store, after: Store) {
    && k in before.crs && k in after.crs && after.services == before.services
    && after.crs[k].status.serviceName == before.crs[k].status.serviceName
  }

  ghost predicate ClaimNotYet(k: Name, before: Store, after: Store) {
    && k in before.crs && k in after.crs && after.claims == before.claims
    && after.crs[k].status.claimName == before.crs[k].status.claimName
  }

  ghost predicate SetsNotYet(k: Name, before: Store, after: Store) {
    && k in before.crs && k in after.crs && after.sets == before.sets
    && after.crs[k].status.nodes == before.crs[k].status.nodes
  }

  /** The stateful set has the right size: it was so, or its Replicas were set, or it is new. */
  ghost predicate SetDone(k: Name, before: Store, after: Store) {
    && k in before.crs && after.sets.Keys == before.sets.Keys + {k}
    && (forall m | m in before.sets && m != k :: after.sets[m] == before.sets[m])
    && if k !in before.sets then SetFits(k, before.crs[k], after.sets[k])
       else if before.sets[k].replicas == before.crs[k].spec.size then after.sets[k] == before.sets[k]
       else after.sets[k] == before.sets[k].(rv := after.sets[k].rv, replicas := before.crs[k].spec.size)
  }

  /** All that a calm pass for `k` does. */
  ghost predicate CalmResult(k: Name, before: Store, after: Store, outcome: Outcome) {
    && after.templates == before.templates
    && if k !in before.crs then after == before && outcome == Done
       else
         && CrKept(k, before, after) && ServiceDone(k, before, after) && ClaimDone(k, before, after)
         && SetDone(k, before, after)
         && outcome == (if Ready(before, k) then Done else Requeue)
         && after.crs[k].status.nodes == (if Ready(before, k) then NodesFor(before.templates, k)
                                          else before.crs[k].status.nodes)
  }

  // ---- The names of the nodes ------------------------------------------------------------------------------

  /** The template carries the labels of the CR `k`. */
  predicate BelongsTo(t: PodTemplate, k: Name) {
    && t.ns == k.ns
    && "app" in t.labels && t.labels["app"] == "influxdb"
    && "influxdb_cr" in t.labels && t.labels["influxdb_cr"] == k.name
  }

  /** The names of its templates, in the order in which the cluster lists them. */
  function OwnNames(templates: seq<PodTemplate>, k: Name): seq<string> {
    if templates == [] then []
    else
      var n := |templates| - 1;
      OwnNames(templates[..n], k) + if BelongsTo(templates[n], k) then [templates[n].name] else []
  }

  /** These names; none at all is nil. */
  function NodesFor(templates: seq<PodTemplate>, k: Name): Option<seq<string>> {
    if OwnNames(templates, k) == [] then None else Some(OwnNames(templates, k))
  }

  lemma {:induction false} ListingOfInit(templates: seq<PodTemplate>, ns: string, selector: Labels)
    requires templates != []
    ensures
      var n := |templates| - 1;
      var last := templates[n];
      Listing(templates, ns, selector)
      == Listing(templates[..n], ns, selector)
         + if last.ns == ns && Selects(selector, last.labels) then [last] else []
    decreases |templates|
  {
    hide Selects;
    var n := |templates| - 1;
    if n > 0 {
      assert templates[..n][1..] == templates[1..][..n - 1] && templates[1..][n - 1] == templates[n];
      ListingOfInit(templates[1..], ns, selector);
    } else {
      assert templates[1..] == [] && templates[..0] == [];
    }
  }

  lemma SelectedBelongs(t: PodTemplate, k: Name)
    ensures t.ns == k.ns && Selects(LabelsFor(k.name), t.labels) <==> BelongsTo(t, k)
  {
    var selector := LabelsFor(k.name);
    assert "app" in selector && "influxdb_cr" in selector;
  }

  lemma {:induction false} ListedNames(templates: seq<PodTemplate>, k: Name)
    ensures
      var listed := Listing(templates, k.ns, LabelsFor(k.name));
      && |listed| == |OwnNames(templates, k)|
      && forall i | 0 <= i < |listed| :: listed[i].name == OwnNames(templates, k)[i]
    decreases |templates|
  {
    hide Selects, LabelsFor, BelongsTo;
    if templates != [] {
      ListingOfInit(templates, k.ns, LabelsFor(k.name));
      SelectedBelongs(templates[|templates| - 1], k);
      ListedNames(templates[..|templates| - 1], k);
    }
  }

  /** The names that the controller stores are those of the CR's own templates. */
  lemma NodeNamesAre(st: Store, k: Name)
    ensures NodeNames(st, k) == NodesFor(st.templates, k)
  {
    hide Listing, LabelsFor, OwnNames;
    ListedNames(st.templates, k);
    if NodeNames(st, k).Some? {
      assert NodeNames(st, k).value == OwnNames(st.templates, k);
    }
  }

  // ---- The pass on its way ---------------------------------------------------------------------------------

  /** Where a calm pass that began in `st0` stands. */
  ghost predicate Calm(st0: Store, w: World, p: Pass) {
    && w.NonEmpty() && Exact(w, p)
    && var st, k := w.Current(), p.key;
    && st.templates == st0.templates
    && match p
       case Fetching(_) => st == st0
       case Ended(_, outcome) => CalmResult(k, st0, st, outcome)
       case _ => CrKept(k, st0, st) && SetsNotYet(k, st0, st) && StageOk(st0, st, p)
  }

  ghost predicate StageOk(st0: Store, st: Store, p: Pass) {
    match p
    case ReadingService(k, _) => ServiceNotYet(k, st0, st) && ClaimNotYet(k, st0, st)
    case CreatingService(k, _) => ServiceNotYet(k, st0, st) && ClaimNotYet(k, st0, st)
    case SavingService(k, _) =>
      && k in st0.crs && ServiceMade(k, st0.crs[k], st0.services, st.services) && ServiceName(k) !in st0.services
      && ClaimNotYet(k, st0, st)
    case ReadingClaim(k, _) => ServiceDone(k, st0, st) && ClaimNotYet(k, st0, st)
    case CreatingClaim(k, _) => ServiceDone(k, st0, st) && ClaimNotYet(k, st0, st)
    case SavingClaim(k, cr) =>
      && ServiceDone(k, st0, st) && ClaimMade(k, st0.crs[k], st0.claims, st.claims)
      && ClaimName(k, st0.crs[k]) !in st0.claims
    case ReadingSet(k, _) => ServiceDone(k, st0, st) && ClaimDone(k, st0, st)
    case CreatingSet(k, _) => ServiceDone(k, st0, st) && ClaimDone(k, st0, st)
    case ScalingSet(k, cr, found) =>
      && ServiceDone(k, st0, st) && ClaimDone(k, st0, st)
      && k in st.sets && st.sets[k].replicas != cr.spec.size && found == st.sets[k].(replicas := cr.spec.size)
    case ListingPods(k, _) => ServiceDone(k, st0, st) && ClaimDone(k, st0, st) && Ready(st0, k)
    case SavingNodes(k, cr) =>
      && ServiceDone(k, st0, st) && ClaimDone(k, st0, st) && Ready(st0, k)
      && cr.status.nodes == NodeNames(st0, k)
    case _ => true
  }

  lemma CalmFind(st0: Store, w: World, p: Pass)
    requires Calm(st0, w, p) && (p.Fetching? || p.ReadingService? || p.ReadingClaim?)
    ensures Calm(st0, w, Resume(p, Read(w.Current(), CallOf(p))))
  {
    hide Listing, Selects, PodNames, LabelsFor, ServiceFits, ClaimFits, SetFits, NewService, NewClaim, StatefulSetFor,
         NodeNames, NodesFor, Ready;
    ExactRead(w, p);
  }

  lemma CalmFindSet(st0: Store, w: World, p: Pass)
    requires Calm(st0, w, p) && p.ReadingSet?
    ensures Calm(st0, w, Resume(p, Read(w.Current(), CallOf(p))))
  {
    hide Listing, Selects, PodNames, LabelsFor, ServiceFits, ClaimFits, SetFits, NewService, NewClaim, StatefulSetFor,
         NodeNames, ServiceMade, ClaimMade, CalmResult;
    ExactRead(w, p);
  }

  lemma CalmList(st0: Store, w: World, p: Pass)
    requires Calm(st0, w, p) && p.ListingPods?
    ensures Calm(st0, w, Resume(p, Read(w.Current(), CallOf(p))))
  {
    hide Listing, Selects, PodNames, LabelsFor, ServiceFits, ClaimFits, SetFits, NewService, NewClaim, StatefulSetFor,
         ServiceMade, ClaimMade, OwnNames;
    ExactRead(w, p);
    NodeNamesAre(st0, p.key);
  }

  /** The write is accepted, and the pass goes on from there. */
  ghost predicate CalmAfter(st0: Store, w: World, p: Pass)
    requires w.NonEmpty() && !p.Ended? && !CallOf(p).IsRead()
  {
    var (st, reply) := Write(w.Current(), CallOf(p), w.next);
    reply.Written? && Calm(st0, w.Append(st), Resume(p, reply))
  }

  lemma CalmCreateService(st0: Store, w: World, p: Pass)
    requires Calm(st0, w, p) && p.CreatingService?
    ensures CalmAfter(st0, w, p)
  {
    hide Listing, Selects, PodNames, LabelsFor, ServiceFits, ClaimFits, NewService, NewClaim, StatefulSetFor, NodeNames,
         SetFits, ClaimMade, Ready, CalmResult;
    ExactWrite(w, p);
    BuiltFits(p.key, p.cr, st0.crs[p.key], w.next);
    var st := Write(w.Current(), CallOf(p), w.next).0;
    assert w.Append(st).Current() == st;
  }

  lemma CalmSaveService(st0: Store, w: World, p: Pass)
    requires Calm(st0, w, p) && p.SavingService?
    ensures CalmAfter(st0, w, p)
  {
    hide Listing, Selects, PodNames, LabelsFor, ServiceFits, ClaimFits, NewService, NewClaim, StatefulSetFor, NodeNames,
         SetFits, ServiceMade, ClaimMade, Ready, CalmResult;
    ExactWrite(w, p);
    var st := Write(w.Current(), CallOf(p), w.next).0;
    assert w.Append(st).Current() == st;
  }

  lemma CalmCreateClaim(st0: Store, w: World, p: Pass)
    requires Calm(st0, w, p) && p.CreatingClaim?
    ensures CalmAfter(st0, w, p)
  {
    hide Listing, Selects, PodNames, LabelsFor, ServiceFits, ClaimFits, NewService, NewClaim, StatefulSetFor, NodeNames,
         SetFits, ServiceMade, Ready, CalmResult;
    ExactWrite(w, p);
    BuiltFits(p.key, p.cr, st0.crs[p.key], w.next);
    var st := Write(w.Current(), CallOf(p), w.next).0;
    assert w.Append(st).Current() == st;
  }

  lemma CalmSaveClaim(st0: Store, w: World, p: Pass)
    requires Calm(st0, w, p) && p.SavingClaim?
    ensures CalmAfter(st0, w, p)
  {
    hide Listing, Selects, PodNames, LabelsFor, ServiceFits, ClaimFits, NewService, NewClaim, StatefulSetFor, NodeNames,
         SetFits, ServiceMade, ClaimMade, Ready, CalmResult;
    ExactWrite(w, p);
    var st := Write(w.Current(), CallOf(p), w.next).0;
    assert w.Append(st).Current() == st;
  }

  lemma CalmCreateSet(st0: Store, w: World, p: Pass)
    requires Calm(st0, w, p) && p.CreatingSet?
    ensures CalmAfter(st0, w, p)
  {
    hide Listing, Selects, PodNames, LabelsFor, ServiceFits, ClaimFits, NewService, NewClaim, StatefulSetFor, NodeNames,
         SetFits, ServiceMade, ClaimMade, OwnNames;
    ExactWrite(w, p);
    BuiltFits(p.key, p.cr, st0.crs[p.key], w.next);
    var st := Write(w.Current(), CallOf(p), w.next).0;
    assert w.Append(st).Current() == st;
  }

  lemma CalmScaleSet(st0: Store, w: World, p: Pass)
    requires Calm(st0, w, p) && p.ScalingSet?
    ensures CalmAfter(st0, w, p)
  {
    hide Listing, Selects, PodNames, LabelsFor, ServiceFits, ClaimFits, NewService, NewClaim, StatefulSetFor, NodeNames,
         SetFits, ServiceMade, ClaimMade, OwnNames;
    ExactWrite(w, p);
    var st := Write(w.Current(), CallOf(p), w.next).0;
    assert w.Append(st).Current() == st;
  }

  lemma CalmSaveNodes(st0: Store, w: World, p: Pass)
    requires Calm(st0, w, p) && p.SavingNodes?
    ensures CalmAfter(st0, w, p)
  {
    hide Listing, Selects, PodNames, LabelsFor, ServiceFits, ClaimFits, NewService, NewClaim, StatefulSetFor, NodeNames,
         SetFits, ServiceMade, ClaimMade, OwnNames;
    NodeNamesAre(st0, p.key);
    ExactWrite(w, p);
    var st := Write(w.Current(), CallOf(p), w.next).0;
    assert w.Append(st).Current() == st;
  }

  lemma CalmCall(st0: Store, w: World, p: Pass)
    requires w.NonEmpty() && Calm(st0, w, p) && !p.Ended?
    ensures
      var (w', reply) := Exec(w, CallOf(p), 0, NoFault);
      Calm(st0, w', Resume(p, reply))
  {
    hide Calm, Resume, Read, Write;
    match p
    case CreatingService(_, _) => CalmCreateService(st0, w, p);
    case SavingService(_, _) => CalmSaveService(st0, w, p);
    case CreatingClaim(_, _) => CalmCreateClaim(st0, w, p);
    case SavingClaim(_, _) => CalmSaveClaim(st0, w, p);
    case CreatingSet(_, _) => CalmCreateSet(st0, w, p);
    case ScalingSet(_, _, _) => CalmScaleSet(st0, w, p);
    case SavingNodes(_, _) => CalmSaveNodes(st0, w, p);
    case ReadingSet(_, _) => CalmFindSet(st0, w, p);
    case ListingPods(_, _) => CalmList(st0, w, p);
    case _ => CalmFind(st0, w, p);
  }

  lemma CalmKept(st0: Store)
    ensures Kept((w: World, p: Pass) => Calm(st0, w, p), true)
  {
    hide Calm, Exec;
    forall w: World, p: Pass, lag: nat, fault: Fault
      | w.NonEmpty() && !p.Ended? && Calm(st0, w, p) && lag == 0 && fault.NoFault?
      ensures
        var (w', reply) := Exec(w, CallOf(p), lag, fault);
        Calm(st0, w', Resume(p, reply))
    {
      CalmCall(st0, w, p);
    }
  }

  /** A pass without trouble, field by field: it makes the Service, the claim and the stateful set that are missing, as
      the CR asks for them; puts the names of those that it made into the status, and leaves the others as they were;
      sets the Replicas if they were wrong; and writes the node names, if the set was right to begin with. It is done
      exactly in that case, and otherwise asks to be run again. */
  lemma CalmPass(w: World, turns: seq<Turn>, k: Name)
    requires w.NonEmpty() && Alone(turns) && Troubles(turns) == 0
    ensures
      var (w', _, outcome) := RunPass(w, turns, Fetching(k));
      CalmResult(k, w.Current(), w'.Current(), outcome)
  {
    hide Exact, CalmResult;
    var st0 := w.Current();
    NoTroubles(turns);
    StartsExact(w, k);
    CalmKept(st0);
    KeptToTheEnd((w', p) => Calm(st0, w', p), true, w, turns, Fetching(k));
  }

  lemma StartsExact(w: World, k: Name)
    requires w.NonEmpty()
    ensures Exact(w, Fetching(k))
  {
  }
}
