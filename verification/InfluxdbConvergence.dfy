/** Convergence of the Influxdb controller while nobody else writes: how far one pass gets when any of its
    calls may fail and any of its reads may be answered from a stale cache. */
module InfluxdbConvergence {
  import opened Basics
  import opened Kube
  import opened InfluxdbController
  import InfluxdbSafety

  /** The stateful set of `k` has the size its CR asks for. */
  predicate Ready(st: Store, k: Name) {
    k in st.crs ==> k in st.sets && st.sets[k].replicas == st.crs[k].spec.size
  }

  /** The names of the templates that belong to `k`. */
  function NodeNames(st: Store, k: Name): Option<seq<string>> {
    PodNames(Listing(st.templates, k.ns, LabelsFor(k.name)))
  }

  predicate NodesRight(st: Store, k: Name) {
    k in st.crs && st.crs[k].status.nodes == NodeNames(st, k)
  }

  /** Everything the controller is there for is in place for `k`. */
  predicate Converged(st: Store, k: Name) {
    k in st.crs ==>
      && ServiceKey(k) in st.services
      && ClaimKey(k, st.crs[k].spec) in st.claims
      && Ready(st, k)
      && NodesRight(st, k)
  }

  /** All that a pass for `key` does to the cluster it started from: it creates what its CR asks for, sets the
      Replicas of its stateful set if they were wrong, and writes the status of its CR. */
  ghost predicate Progress(key: Name, before: Store, after: Store) {
    && after.templates == before.templates
    && CrsProgress(key, before, after)
    && (forall n | n in before.services :: n in after.services && after.services[n] == before.services[n])
    && (forall n | n in after.services && n !in before.services ::
          key in before.crs && InfluxdbSafety.ServiceFits(key, before.crs[key], n, after.services[n]))
    && (forall n | n in before.claims :: n in after.claims && after.claims[n] == before.claims[n])
    && (forall n | n in after.claims && n !in before.claims ::
          key in before.crs && InfluxdbSafety.ClaimFits(key, before.crs[key], n, after.claims[n]))
    && SetsProgress(key, before, after)
  }

  ghost predicate CrsProgress(key: Name, before: Store, after: Store) {
    && after.crs.Keys == before.crs.Keys
    && (forall n | n in before.crs && n != key :: after.crs[n] == before.crs[n])
    && (key in before.crs ==> after.crs[key].spec == before.crs[key].spec && after.crs[key].uid == before.crs[key].uid)
  }

  ghost predicate SetsProgress(key: Name, before: Store, after: Store) {
    && (forall n | n in before.sets ::
          n in after.sets && (n != key || Ready(before, key) ==> after.sets[n] == before.sets[n]))
    && (forall n | n in after.sets && n !in before.sets ::
          key in before.crs && n == key && InfluxdbSafety.SetFits(key, before.crs[key], after.sets[n]))
    && (key in before.sets ==>
          after.sets[key] == before.sets[key].(rv := after.sets[key].rv, replicas := after.sets[key].replicas))
  }

  lemma ProgressLeavesOthers(key: Name, before: Store, after: Store, b: Name)
    requires Progress(key, before, after) && b != key
    ensures LeavesOther(before, after, b)
  {
    hide InfluxdbSafety.ClaimFits, InfluxdbSafety.SetFits;
    if ServiceKey(b) == ServiceKey(key) {
      InfluxdbSafety.ServiceKeyInjective(b, key);
    }
  }

  /** The CR, the Service and the StatefulSet of `b`, and every claim that was there, are as they were. */
  ghost predicate LeavesOther(before: Store, after: Store, b: Name) {
    && InfluxdbSafety.SameAt(before.crs, after.crs, b) && InfluxdbSafety.SameAt(before.sets, after.sets, b)
    && InfluxdbSafety.SameAt(before.services, after.services, ServiceKey(b))
    && forall k | k in before.claims :: InfluxdbSafety.SameAt(before.claims, after.claims, k)
  }

  // ---- The past of the cluster ---------------------------------------------------------------------

  /** What the controller has put in place by `past` is still in place in `now`, and nobody else has written. */
  ghost predicate Under(past: Store, now: Store) {
    && now.templates == past.templates
    && now.crs.Keys == past.crs.Keys
    && (forall n | n in past.crs :: now.crs[n].spec == past.crs[n].spec && now.crs[n].uid == past.crs[n].uid)
    && past.services.Keys <= now.services.Keys
    && past.claims.Keys <= now.claims.Keys
    && past.sets.Keys <= now.sets.Keys
    && (forall n | Ready(past, n) :: Ready(now, n))
    && (forall n | NodesRight(past, n) :: NodesRight(now, n))
  }

  ghost predicate Monotone(w: World) {
    w.NonEmpty() && forall i | 0 <= i < |w.log| :: Under(w.log[i], w.Current())
  }

  /** A cluster since the others stopped writing: any contents to begin with, and then the controller's own
      writes. */
  ghost predicate Sound(w: World) {
    w.NonEmpty() && InfluxdbSafety.WorldOk(w) && Monotone(w)
  }

  /** Any contents will do to begin with. */
  lemma StartIsSound(w: World)
    requires InfluxdbSafety.Initial(InfluxdbSafety.System(w, map[]))
    ensures Sound(w)
  {
    InfluxdbSafety.InitialInv(InfluxdbSafety.System(w, map[]));
    assert w.log[0] == w.Current();
  }

  lemma UnderTransitive(a: Store, b: Store, c: Store)
    requires Under(a, b) && Under(b, c)
    ensures Under(a, c)
  {
    hide Ready, NodesRight;
  }

  lemma AppendMonotone(w: World, st: Store)
    requires Monotone(w) && Under(w.Current(), st)
    ensures Monotone(w.Append(st))
  {
    hide Under;
    var w' := w.Append(st);
    forall i | 0 <= i < |w'.log| ensures Under(w'.log[i], w'.Current()) {
      if i < |w.log| {
        assert w'.log[i] == w.log[i];
        UnderTransitive(w.log[i], w.Current(), st);
      } else {
        UnderSelf(st);
      }
    }
  }

  lemma UnderSelf(st: Store)
    ensures Under(st, st)
  {
  }

  // ---- One pass ---------------------------------------------------------------------------------

  /** If the nodes the pass has read are right, so are the stored ones. */
  predicate KeepsNodes(st: Store, p: Pass)
    requires !p.Fetching? && !p.Ended?
  {
    p.cr.status.nodes == NodeNames(st, p.key) ==> NodesRight(st, p.key)
  }

  /** What the calls up to this point have established, however old the answers were, and why a write that is
      still accepted is needed. */
  ghost predicate Found(w: World, st0: Store, p: Pass)
    requires w.NonEmpty() && !p.Fetching? && !p.Ended?
  {
    var st := w.Current();
    var svc, claim := ServiceKey(p.key) in st.services, ClaimKey(p.key, p.cr.spec) in st.claims;
    match p
    case ReadingService(_, _) => KeepsNodes(st, p)
    case CreatingService(_, _) => KeepsNodes(st, p)
    case SavingService(_, _) => svc && !Converged(st0, p.key)
    case ReadingClaim(_, _) => KeepsNodes(st, p) && svc
    case CreatingClaim(_, _) => KeepsNodes(st, p) && svc
    case SavingClaim(_, _) => svc && claim && !Converged(st0, p.key)
    case ReadingSet(_, _) => KeepsNodes(st, p) && svc && claim
    case CreatingSet(_, _) => true
    case ScalingSet(key, cr, found) =>
      && found.replicas == cr.spec.size
      && forall i | 0 <= i < |w.log| && key in w.log[i].sets ::
           w.log[i].sets[key].rv == found.rv ==> w.log[i].sets[key].replicas != cr.spec.size
    case ListingPods(_, _) => KeepsNodes(st, p) && svc && claim && Ready(st, p.key)
    case SavingNodes(key, cr) =>
      && svc && claim && Ready(st, key) && cr.status.nodes == NodeNames(st, key)
      && forall i | 0 <= i < |w.log| && key in w.log[i].crs ::
           w.log[i].crs[key].rv == cr.rv ==> w.log[i].crs[key].status.nodes != cr.status.nodes
    case _ => true
  }

  /** Where a pass that began in `w0` stands, when only this pass writes. */
  ghost predicate Went(w0: World, w: World, p: Pass) {
    && w0.NonEmpty() && w.NonEmpty()
    && var st0, st, k := w0.Current(), w.Current(), p.key;
    && Progress(k, st0, st)
    && (Converged(st0, k) ==> w == w0)
    && (!p.Ended? ==> st.sets == st0.sets)
    && match p
       case Fetching(_) => true
       case Ended(_, outcome) =>
         && (outcome.Done? ==> st.sets == st0.sets && Converged(st, k))
         && (outcome.Requeue? ==> !Ready(st0, k) && Ready(st, k))
         && (st.sets != st0.sets ==> !Ready(st0, k) && Ready(st, k))
       case _ =>
         && k in st.crs && p.cr.spec == st.crs[k].spec && p.cr.uid == st.crs[k].uid
         && Found(w, st0, p)
  }

  ghost predicate PassInv(w0: World, w: World, p: Pass) {
    Sound(w) && InfluxdbSafety.PassOk(w, p) && Went(w0, w, p)
  }

  /** What Progress keeps of the pass's own CR. */
  lemma SameSpec(k: Name, st0: Store, st: Store)
    requires Progress(k, st0, st)
    ensures st.templates == st0.templates && (k in st.crs <==> k in st0.crs)
    ensures k in st.crs ==> st.crs[k].spec == st0.crs[k].spec && st.crs[k].uid == st0.crs[k].uid
    ensures ServiceKey(k) in st0.services ==> ServiceKey(k) in st.services
    ensures forall n | n in st0.claims :: n in st.claims
  {
    hide SetsProgress;
  }

  /** What an old state says of one key and of one name, said of the current one. */
  lemma UnderAt(past: Store, now: Store, k: Name, n: Name)
    requires Under(past, now)
    ensures now.templates == past.templates && (k in past.crs <==> k in now.crs)
    ensures k in past.crs ==>
              && now.crs[k].spec == past.crs[k].spec && now.crs[k].uid == past.crs[k].uid
              && (past.crs[k].status.nodes == NodeNames(now, k) ==> NodesRight(now, k))
    ensures n in past.services ==> n in now.services
    ensures n in past.claims ==> n in now.claims
    ensures k in past.sets ==> k in now.sets
    ensures k in past.sets && k in past.crs && past.sets[k].replicas == past.crs[k].spec.size ==> Ready(now, k)
  {
    hide Listing, PodNames, LabelsFor;
    assert Ready(past, k) ==> Ready(now, k);
    assert NodesRight(past, k) ==> NodesRight(now, k);
  }

  lemma FetchWent(w0: World, w: World, p: Pass, past: Store)
    requires PassInv(w0, w, p) && p.Fetching? && Under(past, w.Current())
    ensures Went(w0, w, Resume(p, Read(past, CallOf(p))))
  {
    hide Progress, Under, Sound, InfluxdbSafety.PassOk, ServiceKey, ClaimKey, PodNames, Listing, LabelsFor;
    UnderAt(past, w.Current(), p.key, p.key);
    SameSpec(p.key, w0.Current(), w.Current());
  }

  lemma ReadServiceWent(w0: World, w: World, p: Pass, past: Store)
    requires PassInv(w0, w, p) && p.ReadingService? && Under(past, w.Current())
    ensures Went(w0, w, Resume(p, Read(past, CallOf(p))))
  {
    hide Progress, Under, Sound, InfluxdbSafety.PassOk, ServiceKey, ClaimKey, PodNames, Listing, LabelsFor;
    UnderAt(past, w.Current(), p.key, ServiceKey(p.key));
  }

  lemma ReadClaimWent(w0: World, w: World, p: Pass, past: Store)
    requires PassInv(w0, w, p) && p.ReadingClaim? && Under(past, w.Current())
    ensures Went(w0, w, Resume(p, Read(past, CallOf(p))))
  {
    hide Progress, Under, Sound, InfluxdbSafety.PassOk, ServiceKey, ClaimKey, PodNames, Listing, LabelsFor;
    UnderAt(past, w.Current(), p.key, ClaimKey(p.key, p.cr.spec));
  }

  lemma ReadSetWent(w0: World, w: World, p: Pass, i: nat)
    requires PassInv(w0, w, p) && p.ReadingSet? && i < |w.log| && Under(w.log[i], w.Current())
    ensures Went(w0, w, Resume(p, Read(w.log[i], CallOf(p))))
  {
    hide Progress, Under, Monotone, InfluxdbSafety.PassOk, ServiceKey, ClaimKey, PodNames, Listing, LabelsFor,
         InfluxdbSafety.CrVersions;
    UnderAt(w.log[i], w.Current(), p.key, p.key);
  }

  lemma ListWent(w0: World, w: World, p: Pass, past: Store)
    requires PassInv(w0, w, p) && p.ListingPods? && Under(past, w.Current())
    ensures Went(w0, w, Resume(p, Read(past, CallOf(p))))
  {
    hide Progress, Under, Monotone, ServiceKey, ClaimKey, PodNames, Listing, LabelsFor, InfluxdbSafety.CrVersions,
         InfluxdbSafety.SetVersions;
    UnderAt(past, w.Current(), p.key, p.key);
  }

  lemma ReadWent(w0: World, w: World, p: Pass, lag: nat)
    requires PassInv(w0, w, p) && !p.Ended? && CallOf(p).IsRead()
    ensures Went(w0, w, Resume(p, Read(w.Cached(lag), CallOf(p))))
  {
    hide Went, Under, InfluxdbSafety.PassOk, InfluxdbSafety.WorldOk, Resume, Read;
    var i := if lag < |w.log| then |w.log| - 1 - lag else 0;
    assert w.Cached(lag) == w.log[i];
    match p
    case Fetching(_) => FetchWent(w0, w, p, w.log[i]);
    case ReadingService(_, _) => ReadServiceWent(w0, w, p, w.log[i]);
    case ReadingClaim(_, _) => ReadClaimWent(w0, w, p, w.log[i]);
    case ReadingSet(_, _) => ReadSetWent(w0, w, p, i);
    case ListingPods(_, _) => ListWent(w0, w, p, w.log[i]);
  }

  // ---- The writes ---------------------------------------------------------------------------------

  /** Progress goes on through one more object. */
  lemma ServiceGoesOn(k: Name, st0: Store, st: Store, o: Service)
    requires Progress(k, st0, st) && k in st0.crs && ServiceKey(k) !in st.services
    requires InfluxdbSafety.ServiceFits(k, st0.crs[k], ServiceKey(k), o)
    ensures Progress(k, st0, st.(services := st.services[ServiceKey(k) := o]))
  {
    hide InfluxdbSafety.ServiceFits, InfluxdbSafety.ClaimFits, InfluxdbSafety.SetFits, NodeNames;
  }

  lemma ClaimGoesOn(k: Name, st0: Store, st: Store, o: Claim)
    requires Progress(k, st0, st) && k in st0.crs && ClaimKey(k, st0.crs[k].spec) !in st.claims
    requires InfluxdbSafety.ClaimFits(k, st0.crs[k], ClaimKey(k, st0.crs[k].spec), o)
    ensures Progress(k, st0, st.(claims := st.claims[ClaimKey(k, st0.crs[k].spec) := o]))
  {
    hide InfluxdbSafety.ServiceFits, InfluxdbSafety.ClaimFits, InfluxdbSafety.SetFits, NodeNames;
  }

  lemma SetGoesOn(k: Name, st0: Store, st: Store, o: StatefulSet)
    requires Progress(k, st0, st) && k in st0.crs && st.sets == st0.sets && !Ready(st0, k)
    requires if k in st.sets then o == st.sets[k].(rv := o.rv, replicas := o.replicas)
             else InfluxdbSafety.SetFits(k, st0.crs[k], o)
    ensures Progress(k, st0, st.(sets := st.sets[k := o]))
  {
    hide InfluxdbSafety.ServiceFits, InfluxdbSafety.ClaimFits, InfluxdbSafety.SetFits, NodeNames;
  }

  lemma CrGoesOn(k: Name, st0: Store, st: Store, cr: Influxdb)
    requires Progress(k, st0, st) && k in st.crs && cr.spec == st.crs[k].spec && cr.uid == st.crs[k].uid
    ensures Progress(k, st0, st.(crs := st.crs[k := cr]))
  {
    hide InfluxdbSafety.ServiceFits, InfluxdbSafety.ClaimFits, InfluxdbSafety.SetFits, NodeNames;
    assert st.crs[k := cr].Keys == st.crs.Keys;
  }

  /** What was in place stays in place. */
  lemma UnderCreated(st: Store, services: map<Name, Service>, claims: map<Name, Claim>)
    requires st.services.Keys <= services.Keys && st.claims.Keys <= claims.Keys
    ensures Under(st, st.(services := services, claims := claims))
  {
    hide PodNames, Listing, LabelsFor;
  }

  lemma UnderSet(st: Store, k: Name, o: StatefulSet)
    requires k in st.crs && o.replicas == st.crs[k].spec.size
    ensures Under(st, st.(sets := st.sets[k := o]))
  {
    hide PodNames, Listing, LabelsFor;
  }

  lemma UnderCr(st: Store, k: Name, cr: Influxdb)
    requires k in st.crs && cr.spec == st.crs[k].spec && cr.uid == st.crs[k].uid
    requires cr.status.nodes == st.crs[k].status.nodes || cr.status.nodes == NodeNames(st, k)
    ensures Under(st, st.(crs := st.crs[k := cr]))
  {
    hide PodNames, Listing, LabelsFor;
    assert st.crs[k := cr].Keys == st.crs.Keys;
  }

  /** If the write is accepted, the pass goes on from the state it leaves. */
  ghost predicate Accepted(w0: World, w: World, p: Pass)
    requires w.NonEmpty() && !p.Ended? && !CallOf(p).IsRead()
  {
    var (st, reply) := Write(w.Current(), CallOf(p), w.next);
    reply.Written? ==> Under(w.Current(), st) && Went(w0, w.Append(st), Resume(p, reply))
  }

  lemma CreateServiceAccepted(w0: World, w: World, p: Pass)
    requires PassInv(w0, w, p) && p.CreatingService?
    ensures Accepted(w0, w, p)
  {
    hide Progress, Under, Sound, InfluxdbSafety.PassOk, ServiceKey, ClaimKey, PodNames, Listing, LabelsFor, NewService,
         InfluxdbSafety.ServiceFits;
    var st0, st := w0.Current(), w.Current();
    SameSpec(p.key, st0, st);
    if ServiceKey(p.key) !in st.services {
      InfluxdbSafety.BuiltFits(p.key, p.cr, st0.crs[p.key], w.next);
      ServiceGoesOn(p.key, st0, st, NewService(p.key, p.cr).(rv := w.next));
      UnderCreated(st, Write(st, CallOf(p), w.next).0.services, st.claims);
      assert w.Append(Write(st, CallOf(p), w.next).0).Current() == Write(st, CallOf(p), w.next).0;
    }
  }

  lemma CreateClaimAccepted(w0: World, w: World, p: Pass)
    requires PassInv(w0, w, p) && p.CreatingClaim?
    ensures Accepted(w0, w, p)
  {
    hide Progress, Under, Sound, InfluxdbSafety.PassOk, ServiceKey, ClaimKey, PodNames, Listing, LabelsFor, NewClaim,
         InfluxdbSafety.ClaimFits, InfluxdbSafety.ServiceFits, InfluxdbSafety.SetFits;
    var st0, st := w0.Current(), w.Current();
    SameSpec(p.key, st0, st);
    if ClaimKey(p.key, p.cr.spec) !in st.claims {
      InfluxdbSafety.BuiltFits(p.key, p.cr, st0.crs[p.key], w.next);
      ClaimGoesOn(p.key, st0, st, NewClaim(p.key, p.cr).(rv := w.next));
      UnderCreated(st, st.services, Write(st, CallOf(p), w.next).0.claims);
      assert w.Append(Write(st, CallOf(p), w.next).0).Current() == Write(st, CallOf(p), w.next).0;
    }
  }

  lemma CreateSetAccepted(w0: World, w: World, p: Pass)
    requires PassInv(w0, w, p) && p.CreatingSet?
    ensures Accepted(w0, w, p)
  {
    hide Progress, Under, Sound, InfluxdbSafety.PassOk, ServiceKey, ClaimKey, PodNames, Listing, LabelsFor,
         StatefulSetFor, InfluxdbSafety.ShapeFits, InfluxdbSafety.ServiceFits, InfluxdbSafety.ClaimFits;
    var st0, st := w0.Current(), w.Current();
    SameSpec(p.key, st0, st);
    if p.key !in st.sets {
      InfluxdbSafety.BuiltFits(p.key, p.cr, st0.crs[p.key], w.next);
      SetGoesOn(p.key, st0, st, StatefulSetFor(p.key, p.cr).(rv := w.next));
      UnderSet(st, p.key, StatefulSetFor(p.key, p.cr).(rv := w.next));
      assert w.Append(Write(st, CallOf(p), w.next).0).Current() == Write(st, CallOf(p), w.next).0;
    }
  }

  lemma ScaleSetAccepted(w0: World, w: World, p: Pass)
    requires PassInv(w0, w, p) && p.ScalingSet?
    ensures Accepted(w0, w, p)
  {
    hide Progress, Under, Monotone, InfluxdbSafety.PassOk, InfluxdbSafety.WorldOk, ServiceKey, ClaimKey, PodNames,
         Listing, LabelsFor;
    var st0, st := w0.Current(), w.Current();
    SameSpec(p.key, st0, st);
    if p.key in st.sets && st.sets[p.key].rv == p.found.rv {
      InfluxdbSafety.StoredSet(w, p);
      assert w.log[|w.log| - 1] == st;
      SetGoesOn(p.key, st0, st, p.found.(rv := w.next));
      UnderSet(st, p.key, p.found.(rv := w.next));
      assert w.Append(Write(st, CallOf(p), w.next).0).Current() == Write(st, CallOf(p), w.next).0;
    }
  }

  lemma SaveStatusAccepted(w0: World, w: World, p: Pass)
    requires PassInv(w0, w, p) && (p.SavingService? || p.SavingClaim?)
    ensures Accepted(w0, w, p)
  {
    hide Progress, Under, Monotone, InfluxdbSafety.PassOk, InfluxdbSafety.WorldOk, ServiceKey, ClaimKey, PodNames,
         Listing, LabelsFor;
    var st0, st := w0.Current(), w.Current();
    SameSpec(p.key, st0, st);
    if st.crs[p.key].rv == p.cr.rv {
      InfluxdbSafety.StoredEdit(w, p);
      CrGoesOn(p.key, st0, st, p.cr.(rv := w.next));
      UnderCr(st, p.key, p.cr.(rv := w.next));
      assert w.Append(Write(st, CallOf(p), w.next).0).Current() == Write(st, CallOf(p), w.next).0;
    }
  }

  lemma SaveNodesAccepted(w0: World, w: World, p: Pass)
    requires PassInv(w0, w, p) && p.SavingNodes?
    ensures Accepted(w0, w, p)
  {
    hide Progress, Under, Monotone, InfluxdbSafety.PassOk, InfluxdbSafety.WorldOk, ServiceKey, ClaimKey, PodNames,
         Listing, LabelsFor;
    var st0, st := w0.Current(), w.Current();
    SameSpec(p.key, st0, st);
    if st.crs[p.key].rv == p.cr.rv {
      InfluxdbSafety.StoredEdit(w, p);
      assert w.log[|w.log| - 1] == st;
      CrGoesOn(p.key, st0, st, p.cr.(rv := w.next));
      UnderCr(st, p.key, p.cr.(rv := w.next));
      assert w.Append(Write(st, CallOf(p), w.next).0).Current() == Write(st, CallOf(p), w.next).0;
    }
  }

  lemma WriteAccepted(w0: World, w: World, p: Pass)
    requires PassInv(w0, w, p) && !p.Ended? && !CallOf(p).IsRead()
    ensures Accepted(w0, w, p)
  {
    hide PassInv, Accepted;
    match p
    case CreatingService(_, _) => CreateServiceAccepted(w0, w, p);
    case SavingService(_, _) => SaveStatusAccepted(w0, w, p);
    case CreatingClaim(_, _) => CreateClaimAccepted(w0, w, p);
    case SavingClaim(_, _) => SaveStatusAccepted(w0, w, p);
    case CreatingSet(_, _) => CreateSetAccepted(w0, w, p);
    case ScalingSet(_, _, _) => ScaleSetAccepted(w0, w, p);
    case SavingNodes(_, _) => SaveNodesAccepted(w0, w, p);
  }

  // ---- Any call ------------------------------------------------------------------------------------

  lemma AbortWent(w0: World, w: World, p: Pass)
    requires Went(w0, w, p)
    ensures Went(w0, w, Ended(p.key, Error))
  {
    hide Progress, Found;
  }

  lemma RefusedEnds(p: Pass, reply: Reply)
    requires !p.Ended? && (reply.Failed? || (!CallOf(p).IsRead() && !reply.Written?))
    ensures Resume(p, reply) == Ended(p.key, Error)
  {
  }

  lemma ResumedKey(p: Pass, reply: Reply)
    requires !p.Ended?
    ensures Resume(p, reply).key == p.key
  {
  }

  lemma CallWent(w0: World, w: World, p: Pass, lag: nat, fault: Fault)
    requires PassInv(w0, w, p) && !p.Ended?
    ensures
      var (w', reply) := Exec(w, CallOf(p), lag, fault);
      Monotone(w') && Went(w0, w', Resume(p, reply))
  {
    hide Went, Monotone, Under, Read, Write, Resume, CallOf, InfluxdbSafety.PassOk, InfluxdbSafety.CrVersions,
         InfluxdbSafety.SetVersions;
    AbortWent(w0, w, p);
    RefusedEnds(p, Failed);
    if CallOf(p).IsRead() {
      ReadWent(w0, w, p, lag);
    } else {
      WriteAccepted(w0, w, p);
      var (st, reply) := Write(w.Current(), CallOf(p), w.next);
      if reply.Written? {
        AppendMonotone(w, st);
        ResumedKey(p, reply);
        AbortWent(w0, w.Append(st), Resume(p, reply));
      } else {
        RefusedEnds(p, reply);
      }
    }
  }

  lemma CallKeepsInv(w0: World, w: World, p: Pass, lag: nat, fault: Fault)
    requires PassInv(w0, w, p) && !p.Ended?
    ensures
      var (w', reply) := Exec(w, CallOf(p), lag, fault);
      PassInv(w0, w', Resume(p, reply))
  {
    hide Went, Monotone, Exec, Resume, CallOf, InfluxdbSafety.PassOk, InfluxdbSafety.CrVersions,
         InfluxdbSafety.SetVersions;
    CallWent(w0, w, p, lag, fault);
    CallKeepsWorld(w, p, lag, fault);
    InfluxdbSafety.StepKeepsOwnPass(w, p, lag, fault);
  }

  lemma CallKeepsWorld(w: World, p: Pass, lag: nat, fault: Fault)
    requires InfluxdbSafety.WorldOk(w) && InfluxdbSafety.PassOk(w, p) && !p.Ended?
    ensures InfluxdbSafety.WorldOk(Exec(w, CallOf(p), lag, fault).0)
  {
    hide InfluxdbSafety.CrVersions, InfluxdbSafety.SetVersions, InfluxdbSafety.PassOk, Exec, Write, CallOf;
    InfluxdbSafety.ExecShape(w, p, lag, fault);
    if Exec(w, CallOf(p), lag, fault).0 != w {
      InfluxdbSafety.AppendOk(w, Write(w.Current(), CallOf(p), w.next).0);
    }
  }

  // ---- A call without trouble ------------------------------------------------------------------------

  /** While no call has failed and no answer was stale, what the pass holds is what is stored. */
  ghost predicate Exact(w: World, p: Pass) {
    && w.NonEmpty()
    && var st, k := w.Current(), p.key;
    && (p.Ended? ==> !p.outcome.Error?)
    && (!p.Fetching? && !p.Ended? ==> k in st.crs && InfluxdbSafety.PendingEdit(p, st.crs[k]))
    && (p.CreatingService? ==> ServiceKey(k) !in st.services)
    && (p.CreatingClaim? ==> ClaimKey(k, p.cr.spec) !in st.claims)
    && (p.CreatingSet? ==> k !in st.sets)
    && (p.ScalingSet? ==> k in st.sets && p.found.rv == st.sets[k].rv)
  }

  lemma ExactRead(w: World, p: Pass)
    requires Exact(w, p) && !p.Ended? && CallOf(p).IsRead()
    ensures Exact(w, Resume(p, Read(w.Current(), CallOf(p))))
  {
    hide Listing, Selects, PodNames, LabelsFor, ServiceKey, ClaimKey, NewService, NewClaim, StatefulSetFor;
  }

  lemma ExactWrite(w: World, p: Pass)
    requires Exact(w, p) && !p.Ended? && !CallOf(p).IsRead()
    ensures
      var (st, reply) := Write(w.Current(), CallOf(p), w.next);
      reply.Written? && Exact(w.Append(st), Resume(p, reply))
  {
    hide LabelsFor, ServiceKey, ClaimKey, NewService, NewClaim, StatefulSetFor;
    var (st, reply) := Write(w.Current(), CallOf(p), w.next);
    assert w.Append(st).Current() == st;
  }

  lemma CallKeepsExact(w: World, p: Pass)
    requires w.NonEmpty() && Exact(w, p) && !p.Ended?
    ensures
      var (w', reply) := Exec(w, CallOf(p), 0, NoFault);
      Exact(w', Resume(p, reply))
  {
    hide Exact, Read, Write, Resume, CallOf;
    if CallOf(p).IsRead() {
      ExactRead(w, p);
    } else {
      ExactWrite(w, p);
    }
  }

  // ---- A whole pass -----------------------------------------------------------------------------------

  /** Nobody else writes; calls may fail and reads may be stale. */
  predicate Alone(turns: seq<Turn>) {
    forall t | t in turns :: t.env.None?
  }

  predicate Trouble(t: Turn) {
    !t.fault.NoFault? || t.lag > 0
  }

  /** How many calls fail or are answered from a stale cache. */
  function Troubles(turns: seq<Turn>): nat {
    if turns == [] then 0 else (if Trouble(turns[0]) then 1 else 0) + Troubles(turns[1..])
  }

  lemma {:induction false} NoTroubles(turns: seq<Turn>)
    requires Troubles(turns) == 0
    ensures forall t | t in turns :: !Trouble(t)
  {
    hide Trouble;
    if turns != [] {
      NoTroubles(turns[1..]);
    }
  }

  /** A property of (cluster, pass) that every call keeps; if `calm`, every call without trouble. */
  ghost predicate Kept(inv: (World, Pass) -> bool, calm: bool) {
    forall w: World, p: Pass, lag: nat, fault: Fault {:trigger Exec(w, CallOf(p), lag, fault)} |
      w.NonEmpty() && !p.Ended? && inv(w, p) && (calm ==> lag == 0 && fault.NoFault?) ::
        var (w', reply) := Exec(w, CallOf(p), lag, fault);
        inv(w', Resume(p, reply))
  }

  lemma {:induction false} KeptToTheEnd(inv: (World, Pass) -> bool, calm: bool, w: World, turns: seq<Turn>, p: Pass)
    requires Kept(inv, calm) && w.NonEmpty() && inv(w, p) && Alone(turns)
    requires calm ==> forall t | t in turns :: !Trouble(t)
    ensures
      var (w', rest, outcome) := RunPass(w, turns, p);
      inv(w', Ended(p.key, outcome))
    decreases CallsLeft(p)
  {
    if !p.Ended? {
      var turn := if turns == [] then QUIET_TURN else turns[0];
      var rest := if turns == [] then [] else turns[1..];
      var (w', reply) := Exec(w, CallOf(p), turn.lag, turn.fault);
      assert turns != [] ==> turn in turns;
      assert calm ==> turn.lag == 0 && turn.fault.NoFault?;
      assert Serve(w, turns, CallOf(p)) == (w', rest, reply);
      ResumedKey(p, reply);
      KeptToTheEnd(inv, calm, w', rest, Resume(p, reply));
    }
  }

  lemma PassInvKept(w0: World)
    ensures Kept((w: World, p: Pass) => PassInv(w0, w, p), false)
  {
    hide PassInv, Exec;
    forall w: World, p: Pass, lag: nat, fault: Fault | w.NonEmpty() && !p.Ended? && PassInv(w0, w, p)
      ensures
        var (w', reply) := Exec(w, CallOf(p), lag, fault);
        PassInv(w0, w', Resume(p, reply))
    {
      CallKeepsInv(w0, w, p, lag, fault);
    }
  }

  lemma ExactKept()
    ensures Kept((w: World, p: Pass) => Exact(w, p), true)
  {
    hide Exact, Exec;
    forall w: World, p: Pass, lag: nat, fault: Fault
      | w.NonEmpty() && !p.Ended? && Exact(w, p) && lag == 0 && fault.NoFault?
      ensures
        var (w', reply) := Exec(w, CallOf(p), lag, fault);
        Exact(w', Resume(p, reply))
    {
      CallKeepsExact(w, p);
    }
  }

  lemma PassStarts(w: World, k: Name)
    requires Sound(w)
    ensures PassInv(w, w, Fetching(k)) && Exact(w, Fetching(k))
  {
    InfluxdbSafety.NewPassOk(w, k);
  }

  /** One pass while nobody else writes: it fails only if a call fails or an answer is stale, requeues only after
      making the stateful set ready, is done only when everything has converged, and writes nothing exactly when
      there was nothing left to do. */
  lemma QuietPass(w: World, turns: seq<Turn>, k: Name)
    requires Sound(w) && Alone(turns)
    ensures
      var (w', _, outcome) := RunPass(w, turns, Fetching(k));
      var before, after := w.Current(), w'.Current();
      && Sound(w')
      && Progress(k, before, after)
      && (outcome.Error? ==> Troubles(turns) > 0)
      && (outcome.Done? ==> Converged(after, k) && after.sets == before.sets)
      && (outcome.Requeue? ==> !Ready(before, k) && Ready(after, k))
      && (after.sets != before.sets ==> !Ready(before, k) && Ready(after, k))
      && (Converged(before, k) ==> w' == w)
      && (!outcome.Error? && w' == w ==> Converged(before, k))
  {
    hide Monotone, InfluxdbSafety.CrVersions, InfluxdbSafety.SetVersions, InfluxdbSafety.PassOk, Exact, Progress, Ready,
         Converged;
    PassStarts(w, k);
    PassInvKept(w);
    KeptToTheEnd((w', p) => PassInv(w, w', p), false, w, turns, Fetching(k));
    if Troubles(turns) == 0 {
      NoTroubles(turns);
      ExactKept();
      KeptToTheEnd((w', p) => Exact(w', p), true, w, turns, Fetching(k));
      NoErrorAtTheEnd(RunPass(w, turns, Fetching(k)).0, k, RunPass(w, turns, Fetching(k)).2);
    }
  }

  /** A whole pass for one CR, whatever stops it, leaves the CR, the Service and the StatefulSet of every other CR, and
      every claim that was there, as they were. */
  lemma PassLeavesOthers(w: World, turns: seq<Turn>, k: Name, b: Name)
    requires Sound(w) && Alone(turns) && b != k
    ensures LeavesOther(w.Current(), RunPass(w, turns, Fetching(k)).0.Current(), b)
  {
    hide Sound, Progress, LeavesOther, Converged, Ready;
    QuietPass(w, turns, k);
    ProgressLeavesOthers(k, w.Current(), RunPass(w, turns, Fetching(k)).0.Current(), b);
  }

  lemma NoErrorAtTheEnd(w: World, k: Name, outcome: Outcome)
    requires Exact(w, Ended(k, outcome))
    ensures !outcome.Error?
  {
  }
}
