/** Safety of the Influxdb controller in every run: any number of passes in flight, each call
    answered from a cache of any age and hit by any fault, other writers and crashes in between. */
module InfluxdbSafety {
  import opened Basics
  import opened Kube
  import opened InfluxdbController

  datatype System = System(world: World, passes: map<nat, Pass>)

  datatype Action =
    | EnvWrites(st: Store)
    | Begin(worker: nat, key: Name)
    | Step(worker: nat, lag: nat, fault: Fault)
    | Crash(worker: nat)

  predicate Active(s: System, worker: nat) {
    worker in s.passes && !s.passes[worker].Ended?
  }

  function Next(s: System, a: Action): (r: System)
    requires s.world.NonEmpty()
    ensures r.world.NonEmpty()
  {
    match a
    case EnvWrites(st) => s.(world := Adopt(s.world, st))
    case Begin(worker, key) => if Active(s, worker) then s else s.(passes := s.passes[worker := Fetching(key)])
    case Step(worker, lag, fault) =>
      if !Active(s, worker) then s
      else
        var p := s.passes[worker];
        var (w', reply) := Exec(s.world, CallOf(p), lag, fault);
        System(w', s.passes[worker := Resume(p, reply)])
    case Crash(worker) => s.(passes := s.passes - {worker})
  }

  function Run(s: System, acts: seq<Action>): (r: System)
    requires s.world.NonEmpty()
    ensures r.world.NonEmpty()
    decreases |acts|
  {
    if acts == [] then s else Next(Run(s, acts[..|acts| - 1]), acts[|acts| - 1])
  }

  /** Any cluster contents whose versions lie below the next one, and no pass under way. */
  predicate Initial(s: System) {
    && |s.world.log| == 1
    && s.passes == map[]
    && (forall k | k in s.world.Current().crs :: s.world.Current().crs[k].rv < s.world.next)
    && (forall k | k in s.world.Current().sets :: s.world.Current().sets[k].rv < s.world.next)
  }

  // ---- The invariant ------------------------------------------------------------------------

  ghost predicate CrVersions(w: World) {
    && (forall i, k | 0 <= i < |w.log| && k in w.log[i].crs :: w.log[i].crs[k].rv < w.next)
    && (forall i, j, k | 0 <= i < |w.log| && 0 <= j < |w.log| && k in w.log[i].crs && k in w.log[j].crs ::
          w.log[i].crs[k].rv == w.log[j].crs[k].rv ==> w.log[i].crs[k] == w.log[j].crs[k])
  }

  ghost predicate SetVersions(w: World) {
    && (forall i, k | 0 <= i < |w.log| && k in w.log[i].sets :: w.log[i].sets[k].rv < w.next)
    && (forall i, j, k | 0 <= i < |w.log| && 0 <= j < |w.log| && k in w.log[i].sets && k in w.log[j].sets ::
          w.log[i].sets[k].rv == w.log[j].sets[k].rv ==> w.log[i].sets[k] == w.log[j].sets[k])
  }

  /** At most one version of an object ever carries a given resource version. */
  ghost predicate WorldOk(w: World) {
    w.NonEmpty() && CrVersions(w) && SetVersions(w)
  }

  /** The in-memory object differs from the stored object of its version by the pending edit only. */
  predicate PendingEdit(p: Pass, stored: Influxdb)
    requires !p.Fetching? && !p.Ended?
  {
    match p
    case SavingService(key, cr) => cr == stored.(status := stored.status.(serviceName := ServiceKey(key).name))
    case SavingClaim(_, cr) => cr == stored.(status := stored.status.(claimName := stored.spec.claimName))
    case SavingNodes(_, cr) => cr == stored.(status := stored.status.(nodes := cr.status.nodes))
    case _ => p.cr == stored
  }

  ghost predicate PassOk(w: World, p: Pass) {
    && (!p.Fetching? && !p.Ended? ==>
          && p.cr.rv < w.next
          && forall i | 0 <= i < |w.log| && p.key in w.log[i].crs ::
               w.log[i].crs[p.key].rv == p.cr.rv ==> PendingEdit(p, w.log[i].crs[p.key]))
    && (p.ScalingSet? ==>
          && p.found.rv < w.next
          && forall i | 0 <= i < |w.log| && p.key in w.log[i].sets ::
               w.log[i].sets[p.key].rv == p.found.rv ==>
                 p.found == w.log[i].sets[p.key].(replicas := p.found.replicas))
  }

  // ---- What the objects of a CR look like --------------------------------------------------------

  /** The labels of everything that belongs to the CR called `name`, and no others. */
  predicate IsLabelled(labels: Labels, name: string) {
    labels.Keys == {"app", "influxdb_cr"} && labels["app"] == "influxdb" && labels["influxdb_cr"] == name
  }

  predicate IsOwned(owner: Option<OwnerRef>, key: Name, cr: Influxdb) {
    owner.Some? && owner.value.name == key.name && owner.value.uid == cr.uid
  }

  /** `o`, stored under `k`, is the Service that the CR asks for: reachable in the cluster only, on the six ports of
      InfluxDB, in front of the pods that carry the CR's labels. */
  predicate ServiceFits(key: Name, cr: Influxdb, k: Name, o: Service) {
    && k.ns == key.ns && k.name == key.name + "-svc"
    && IsOwned(o.owner, key, cr) && IsLabelled(o.labels, key.name) && IsLabelled(o.selector, key.name)
    && o.kind == "ClusterIP" && |o.ports| == 6
    && (8086, "api") in o.ports && (2003, "graphite") in o.ports && (25826, "collectd") in o.ports
    && (8089, "udp") in o.ports && (4242, "opentsdb") in o.ports && (8088, "backup-restore") in o.ports
  }

  /** `o`, stored under `k`, is the claim that the CR's spec names and describes. */
  predicate ClaimFits(key: Name, cr: Influxdb, k: Name, o: Claim) {
    && k.ns == key.ns && k.name == cr.spec.claimName
    && IsOwned(o.owner, key, cr) && IsLabelled(o.labels, key.name) && o.spec == cr.spec.claimSpec
  }

  /** `o` is the stateful set that the CR asks for, but for the number of its replicas: governed by the CR's Service,
      with pods that run the CR's image and mount its claim. */
  predicate ShapeFits(key: Name, cr: Influxdb, o: StatefulSet) {
    && IsOwned(o.owner, key, cr) && IsLabelled(o.selector, key.name)
    && o.serviceName == key.name + "-svc"
    && IsLabelled(o.template.labels, key.name) && o.template.ns == key.ns
    && o.template.image == cr.spec.baseImage && o.template.pullPolicy == cr.spec.pullPolicy
    && o.template.placement == cr.spec.placement && o.template.podPolicy == cr.spec.podPolicy
    && o.template.claimName == cr.spec.claimName
  }

  predicate SetFits(key: Name, cr: Influxdb, o: StatefulSet) {
    ShapeFits(key, cr, o) && o.replicas == cr.spec.size
  }

  /** What the controller builds for a CR fits any CR object with that spec and uid. */
  lemma BuiltFits(key: Name, cr: Influxdb, held: Influxdb, rv: nat)
    requires held.spec == cr.spec && held.uid == cr.uid
    ensures ServiceFits(key, held, ServiceKey(key), NewService(key, cr).(rv := rv))
    ensures ClaimFits(key, held, ClaimKey(key, cr.spec), NewClaim(key, cr).(rv := rv))
    ensures SetFits(key, held, StatefulSetFor(key, cr).(rv := rv))
  {
  }

  // ---- Where the values that the controller writes come from -----------------------------------

  /** The cluster has held a version of the CR with this spec and uid. */
  ghost predicate Held(log: seq<Store>, key: Name, spec: InfluxdbSpec, uid: nat) {
    exists i :: 0 <= i < |log| && key in log[i].crs && log[i].crs[key].spec == spec && log[i].crs[key].uid == uid
  }

  ghost predicate ServiceOf(log: seq<Store>, key: Name, k: Name, o: Service) {
    exists i :: 0 <= i < |log| && key in log[i].crs && ServiceFits(key, log[i].crs[key], k, o)
  }

  ghost predicate ClaimOf(log: seq<Store>, key: Name, k: Name, o: Claim) {
    exists i :: 0 <= i < |log| && key in log[i].crs && ClaimFits(key, log[i].crs[key], k, o)
  }

  ghost predicate SetOf(log: seq<Store>, key: Name, o: StatefulSet) {
    exists i :: 0 <= i < |log| && key in log[i].crs && SetFits(key, log[i].crs[key], o)
  }

  ghost predicate SizeHeld(log: seq<Store>, key: Name, size: int) {
    exists i :: 0 <= i < |log| && key in log[i].crs && log[i].crs[key].spec.size == size
  }

  /** The cluster has been in a state in which these were the names of the CR's templates. */
  ghost predicate NamesListed(log: seq<Store>, key: Name, nodes: Option<seq<string>>) {
    exists i :: 0 <= i < |log| && nodes == PodNames(Listing(log[i].templates, key.ns, LabelsFor(key.name)))
  }

  /** What a pass holds in memory, and is about to write, comes from states the cluster has been in. */
  ghost predicate PassSourced(log: seq<Store>, p: Pass) {
    && (!p.Fetching? && !p.Ended? ==> Held(log, p.key, p.cr.spec, p.cr.uid))
    && (p.ScalingSet? ==> p.found.replicas == p.cr.spec.size)
    && (p.SavingNodes? ==> NamesListed(log, p.key, p.cr.status.nodes))
  }

  ghost predicate Inv(s: System) {
    && WorldOk(s.world)
    && (forall worker | worker in s.passes :: PassOk(s.world, s.passes[worker]))
    && (forall worker | worker in s.passes :: PassSourced(s.world.log, s.passes[worker]))
  }

  // ---- What one controller step may do to the cluster ------------------------------------------

  predicate UntouchedBut<V(==)>(before: map<Name, V>, after: map<Name, V>, key: Name) {
    && (forall k | k in before :: k in after && (k != key ==> after[k] == before[k]))
    && (forall k | k in after :: k in before || k == key)
  }

  predicate CreatedOnly<V(==)>(before: map<Name, V>, after: map<Name, V>, key: Name) {
    UntouchedBut(before, after, key) && (key in before ==> after[key] == before[key])
  }

  /** A status write keeps the object but for its version and one status field: the name of the CR's own
      Service, the name of the claim in its spec, or the names of its templates in some state. */
  ghost predicate StatusWrite(log: seq<Store>, key: Name, before: Influxdb, after: Influxdb) {
    var b := before.(rv := after.rv);
    || after == b.(status := b.status.(serviceName := key.name + "-svc"))
    || after == b.(status := b.status.(claimName := b.spec.claimName))
    || (after == b.(status := b.status.(nodes := after.status.nodes)) && NamesListed(log, key, after.status.nodes))
  }

  ghost predicate ServicesWrite(log: seq<Store>, key: Name, before: map<Name, Service>, after: map<Name, Service>) {
    && CreatedOnly(before, after, ServiceKey(key))
    && (forall k | k in after && k !in before :: ServiceOf(log, key, k, after[k]))
  }

  ghost predicate ClaimsWrite(log: seq<Store>, key: Name, before: map<Name, Claim>, after: map<Name, Claim>) {
    && (forall k | k in before :: k in after && after[k] == before[k])
    && (forall k | k in after && k !in before :: ClaimOf(log, key, k, after[k]))
    && (forall k, k' | k in after && k !in before && k' in after && k' !in before :: k == k')
  }

  ghost predicate SetsWrite(log: seq<Store>, key: Name, before: map<Name, StatefulSet>, after: map<Name, StatefulSet>) {
    && UntouchedBut(before, after, key)
    && (key in before ==> after[key] == before[key].(rv := after[key].rv, replicas := after[key].replicas))
    && (key in before && after[key] != before[key] ==> SizeHeld(log, key, after[key].replicas))
    && (forall k | k in after && k !in before :: SetOf(log, key, after[k]))
  }

  ghost predicate CrsWrite(log: seq<Store>, key: Name, before: map<Name, Influxdb>, after: map<Name, Influxdb>) {
    && after.Keys == before.Keys
    && UntouchedBut(before, after, key)
    && (key in before && after[key] != before[key] ==> StatusWrite(log, key, before[key], after[key]))
  }

  /** All that a step of a pass for `key` may change: it creates an object that is missing, as a version of the
      CR that the cluster has held asks for it; it sets the Replicas of its stateful set to the size in such a
      version, and nothing else of it; and it fills in one status field of its CR. */
  ghost predicate ControllerWrite(log: seq<Store>, key: Name, before: Store, after: Store) {
    && after.templates == before.templates
    && ServicesWrite(log, key, before.services, after.services)
    && ClaimsWrite(log, key, before.claims, after.claims)
    && SetsWrite(log, key, before.sets, after.sets)
    && CrsWrite(log, key, before.crs, after.crs)
  }

  lemma NoWrite(log: seq<Store>, key: Name, st: Store)
    ensures ControllerWrite(log, key, st, st)
  {
  }

  lemma ServiceCreated(log: seq<Store>, key: Name, cr: Influxdb, m: map<Name, Service>, rv: nat)
    requires ServiceKey(key) !in m && Held(log, key, cr.spec, cr.uid)
    ensures ServicesWrite(log, key, m, m[ServiceKey(key) := NewService(key, cr).(rv := rv)])
  {
    var i :| 0 <= i < |log| && key in log[i].crs && log[i].crs[key].spec == cr.spec && log[i].crs[key].uid == cr.uid;
    BuiltFits(key, cr, log[i].crs[key], rv);
  }

  lemma ClaimCreated(log: seq<Store>, key: Name, cr: Influxdb, m: map<Name, Claim>, rv: nat)
    requires ClaimKey(key, cr.spec) !in m && Held(log, key, cr.spec, cr.uid)
    ensures ClaimsWrite(log, key, m, m[ClaimKey(key, cr.spec) := NewClaim(key, cr).(rv := rv)])
  {
    var i :| 0 <= i < |log| && key in log[i].crs && log[i].crs[key].spec == cr.spec && log[i].crs[key].uid == cr.uid;
    BuiltFits(key, cr, log[i].crs[key], rv);
  }

  lemma SetCreated(log: seq<Store>, key: Name, cr: Influxdb, m: map<Name, StatefulSet>, rv: nat)
    requires key !in m && Held(log, key, cr.spec, cr.uid)
    ensures SetsWrite(log, key, m, m[key := StatefulSetFor(key, cr).(rv := rv)])
  {
    var i :| 0 <= i < |log| && key in log[i].crs && log[i].crs[key].spec == cr.spec && log[i].crs[key].uid == cr.uid;
    BuiltFits(key, cr, log[i].crs[key], rv);
  }

  lemma SetScaled(log: seq<Store>, key: Name, cr: Influxdb, found: StatefulSet, m: map<Name, StatefulSet>, rv: nat)
    requires key in m && found == m[key].(replicas := found.replicas)
    requires Held(log, key, cr.spec, cr.uid) && found.replicas == cr.spec.size
    ensures SetsWrite(log, key, m, m[key := found.(rv := rv)])
  {
    var i :| 0 <= i < |log| && key in log[i].crs && log[i].crs[key].spec == cr.spec && log[i].crs[key].uid == cr.uid;
    assert SizeHeld(log, key, found.replicas);
  }

  lemma CrSaved(log: seq<Store>, p: Pass, m: map<Name, Influxdb>, rv: nat)
    requires p.SavingService? || p.SavingClaim? || p.SavingNodes?
    requires p.key in m && PendingEdit(p, m[p.key]) && PassSourced(log, p)
    ensures CrsWrite(log, p.key, m, m[p.key := p.cr.(rv := rv)])
  {
    hide Held, NamesListed;
    assert m[p.key := p.cr.(rv := rv)].Keys == m.Keys;
  }

  /** The pending edit of a pass is against the stored object, if that still has the version it read. */
  lemma StoredEdit(w: World, p: Pass)
    requires WorldOk(w) && PassOk(w, p) && !p.Fetching? && !p.Ended? && p.key in w.Current().crs
    ensures w.Current().crs[p.key].rv == p.cr.rv ==> PendingEdit(p, w.Current().crs[p.key])
  {
    hide CrVersions, SetVersions, PendingEdit;
    assert w.log[|w.log| - 1] == w.Current();
  }

  lemma StoredSet(w: World, p: Pass)
    requires WorldOk(w) && PassOk(w, p) && p.ScalingSet? && p.key in w.Current().sets
    ensures w.Current().sets[p.key].rv == p.found.rv ==>
              p.found == w.Current().sets[p.key].(replicas := p.found.replicas)
  {
    hide CrVersions, SetVersions, PendingEdit;
    assert w.log[|w.log| - 1] == w.Current();
  }

  lemma WriteEffect(w: World, p: Pass)
    requires WorldOk(w) && PassOk(w, p) && PassSourced(w.log, p) && !p.Ended? && !CallOf(p).IsRead()
    ensures ControllerWrite(w.log, p.key, w.Current(), Write(w.Current(), CallOf(p), w.next).0)
  {
    hide CrVersions, SetVersions, PassOk, ServicesWrite, ClaimsWrite, SetsWrite, CrsWrite, PendingEdit, NewService,
         NewClaim, StatefulSetFor, LabelsFor, ServiceKey, ClaimKey, Held, NamesListed;
    var now := w.Current();
    NoWrite(w.log, p.key, now);
    if p.CreatingService? {
      if ServiceKey(p.key) !in now.services {
        ServiceCreated(w.log, p.key, p.cr, now.services, w.next);
      }
    } else if p.CreatingClaim? {
      if ClaimKey(p.key, p.cr.spec) !in now.claims {
        ClaimCreated(w.log, p.key, p.cr, now.claims, w.next);
      }
    } else if p.CreatingSet? {
      if p.key !in now.sets {
        SetCreated(w.log, p.key, p.cr, now.sets, w.next);
      }
    } else if p.ScalingSet? {
      if p.key in now.sets && now.sets[p.key].rv == p.found.rv {
        StoredSet(w, p);
        SetScaled(w.log, p.key, p.cr, p.found, now.sets, w.next);
      }
    } else if p.key in now.crs && now.crs[p.key].rv == p.cr.rv {
      StoredEdit(w, p);
      CrSaved(w.log, p, now.crs, w.next);
    }
  }

  lemma ExecCurrent(w: World, call: Call, lag: nat, fault: Fault)
    requires w.NonEmpty()
    ensures
      var after := Exec(w, call, lag, fault).0.Current();
      after == w.Current() || (!call.IsRead() && after == Write(w.Current(), call, w.next).0)
  {
  }

  lemma StepEffect(s: System, a: Action)
    requires Inv(s) && a.Step? && Active(s, a.worker)
    ensures ControllerWrite(s.world.log, s.passes[a.worker].key, s.world.Current(), Next(s, a).world.Current())
  {
    hide CrVersions, SetVersions, PassOk, PassSourced, ControllerWrite, Write;
    var p := s.passes[a.worker];
    ExecCurrent(s.world, CallOf(p), a.lag, a.fault);
    if Next(s, a).world.Current() == s.world.Current() {
      NoWrite(s.world.log, p.key, s.world.Current());
    } else {
      WriteEffect(s.world, p);
    }
  }

  // ---- The invariant holds in every run ---------------------------------------------------------

  lemma AppendCrVersions(w: World, st: Store)
    requires w.NonEmpty() && CrVersions(w)
    requires forall k | k in st.crs ::
               st.crs[k].rv == w.next || (k in w.Current().crs && st.crs[k] == w.Current().crs[k])
    ensures CrVersions(w.Append(st))
  {
    var w', last := w.Append(st), |w.log| - 1;
    assert w'.log[last + 1] == st && w.log[last] == w.Current();
    forall i, k | 0 <= i <= last && k in w.log[i].crs && k in st.crs && w.log[i].crs[k].rv == st.crs[k].rv
      ensures w.log[i].crs[k] == st.crs[k]
    {
      assert st.crs[k] == w.log[last].crs[k];
    }
    assert forall i | 0 <= i < |w.log| :: w'.log[i] == w.log[i];
  }

  lemma AppendSetVersions(w: World, st: Store)
    requires w.NonEmpty() && SetVersions(w)
    requires forall k | k in st.sets ::
               st.sets[k].rv == w.next || (k in w.Current().sets && st.sets[k] == w.Current().sets[k])
    ensures SetVersions(w.Append(st))
  {
    var w', last := w.Append(st), |w.log| - 1;
    assert w'.log[last + 1] == st && w.log[last] == w.Current();
    forall i, k | 0 <= i <= last && k in w.log[i].sets && k in st.sets && w.log[i].sets[k].rv == st.sets[k].rv
      ensures w.log[i].sets[k] == st.sets[k]
    {
      assert st.sets[k] == w.log[last].sets[k];
    }
    assert forall i | 0 <= i < |w.log| :: w'.log[i] == w.log[i];
  }

  lemma AppendOk(w: World, st: Store)
    requires WorldOk(w)
    requires forall k | k in st.crs ::
               st.crs[k].rv == w.next || (k in w.Current().crs && st.crs[k] == w.Current().crs[k])
    requires forall k | k in st.sets ::
               st.sets[k].rv == w.next || (k in w.Current().sets && st.sets[k] == w.Current().sets[k])
    ensures WorldOk(w.Append(st))
  {
    hide CrVersions, SetVersions;
    AppendCrVersions(w, st);
    AppendSetVersions(w, st);
  }

  lemma AppendKeepsPass(w: World, st: Store, p: Pass)
    requires WorldOk(w) && PassOk(w, p)
    requires forall k | k in st.crs ::
               st.crs[k].rv == w.next || (k in w.Current().crs && st.crs[k] == w.Current().crs[k])
    requires forall k | k in st.sets ::
               st.sets[k].rv == w.next || (k in w.Current().sets && st.sets[k] == w.Current().sets[k])
    ensures PassOk(w.Append(st), p)
  {
    var w', last := w.Append(st), |w.log| - 1;
    assert forall i | 0 <= i < |w.log| :: w'.log[i] == w.log[i];
    assert w'.log[last + 1] == st && w.log[last] == w.Current();
  }

  /** What a call does to the log: nothing, or one more state in which every changed object is new. */
  lemma ExecShape(w: World, p: Pass, lag: nat, fault: Fault)
    requires WorldOk(w) && PassOk(w, p) && !p.Ended?
    ensures
      var w' := Exec(w, CallOf(p), lag, fault).0;
      || w' == w
      || (var st := Write(w.Current(), CallOf(p), w.next).0;
          && w' == w.Append(st) && !CallOf(p).IsRead()
          && (forall k | k in st.crs ::
                st.crs[k].rv == w.next || (k in w.Current().crs && st.crs[k] == w.Current().crs[k]))
          && (forall k | k in st.sets ::
                st.sets[k].rv == w.next || (k in w.Current().sets && st.sets[k] == w.Current().sets[k])))
  {
  }

  lemma ReadKeepsPass(w: World, p: Pass, lag: nat)
    requires WorldOk(w) && PassOk(w, p) && !p.Ended? && CallOf(p).IsRead()
    ensures PassOk(w, Resume(p, Read(w.Cached(lag), CallOf(p))))
  {
    hide Listing, Selects, PodNames, NewService, NewClaim, StatefulSetFor, LabelsFor;
    var i := if lag < |w.log| then |w.log| - 1 - lag else 0;
    assert w.Cached(lag) == w.log[i];
  }

  lemma WriteKeepsPass(w: World, p: Pass)
    requires WorldOk(w) && PassOk(w, p) && !p.Ended? && !CallOf(p).IsRead()
    ensures
      var (st, reply) := Write(w.Current(), CallOf(p), w.next);
      reply.Written? ==> PassOk(w.Append(st), Resume(p, reply))
  {
    hide NewService, NewClaim, StatefulSetFor, LabelsFor;
    var (st, reply) := Write(w.Current(), CallOf(p), w.next);
    if reply.Written? {
      var w' := w.Append(st);
      assert forall i | 0 <= i < |w.log| :: w'.log[i] == w.log[i];
      assert w'.log[|w.log|] == st;
      assert w.log[|w.log| - 1] == w.Current();
    }
  }

  lemma StepKeepsOwnPass(w: World, p: Pass, lag: nat, fault: Fault)
    requires WorldOk(w) && PassOk(w, p) && !p.Ended?
    ensures
      var (w', reply) := Exec(w, CallOf(p), lag, fault);
      PassOk(w', Resume(p, reply))
  {
    var (w', reply) := Exec(w, CallOf(p), lag, fault);
    if Resume(p, reply).Ended? {
    } else if CallOf(p).IsRead() {
      ReadKeepsPass(w, p, lag);
    } else {
      WriteKeepsPass(w, p);
    }
  }

  lemma SourcedStays(log: seq<Store>, log': seq<Store>, p: Pass)
    requires PassSourced(log, p) && log <= log'
    ensures PassSourced(log', p)
  {
    assert forall i | 0 <= i < |log| :: log'[i] == log[i];
  }

  lemma ReadIsSourced(w: World, p: Pass, lag: nat)
    requires w.NonEmpty() && PassSourced(w.log, p) && !p.Ended? && CallOf(p).IsRead()
    ensures PassSourced(w.log, Resume(p, Read(w.Cached(lag), CallOf(p))))
  {
    hide Listing, Selects, PodNames, LabelsFor, Held;
    var i := if lag < |w.log| then |w.log| - 1 - lag else 0;
    assert w.Cached(lag) == w.log[i];
    if p.Fetching? && p.key in w.log[i].crs {
      HeldAt(w.log, p.key, i);
    }
  }

  lemma HeldAt(log: seq<Store>, key: Name, i: nat)
    requires i < |log| && key in log[i].crs
    ensures Held(log, key, log[i].crs[key].spec, log[i].crs[key].uid)
  {
  }

  lemma StepIsSourced(w: World, p: Pass, lag: nat, fault: Fault)
    requires w.NonEmpty() && PassSourced(w.log, p) && !p.Ended?
    ensures
      var (w', reply) := Exec(w, CallOf(p), lag, fault);
      w.log <= w'.log && PassSourced(w'.log, Resume(p, reply))
  {
    hide Held, NamesListed;
    var (w', reply) := Exec(w, CallOf(p), lag, fault);
    if CallOf(p).IsRead() {
      ReadIsSourced(w, p, lag);
    } else {
      SourcedStays(w.log, w'.log, p);
    }
  }

  lemma NextKeepsInv(s: System, a: Action)
    requires Inv(s)
    ensures Inv(Next(s, a))
  {
    hide WorldOk, PassOk, PassSourced, CallOf, Resume, Exec;
    match a
    case EnvWrites(st) =>
      EnvKeepsInv(s, st);
    case Begin(worker, key) =>
      NewPassOk(s.world, key);
    case Step(worker, lag, fault) =>
      if Active(s, worker) {
        StepKeepsInv(s, worker, lag, fault);
      }
    case Crash(worker) =>
  }

  lemma NewPassOk(w: World, key: Name)
    ensures PassOk(w, Fetching(key)) && PassSourced(w.log, Fetching(key))
  {
  }

  lemma EnvKeepsInv(s: System, st: Store)
    requires Inv(s)
    ensures Inv(s.(world := Adopt(s.world, st)))
  {
    hide PassOk, PassSourced, CrVersions, SetVersions;
    var w' := Adopt(s.world, st);
    var st' := w'.Current();
    assert w' == s.world.Append(st');
    AppendOk(s.world, st');
    forall worker | worker in s.passes ensures PassOk(w', s.passes[worker]) && PassSourced(w'.log, s.passes[worker]) {
      AppendKeepsPass(s.world, st', s.passes[worker]);
      SourcedStays(s.world.log, w'.log, s.passes[worker]);
    }
  }

  lemma StepKeepsInv(s: System, worker: nat, lag: nat, fault: Fault)
    requires Inv(s) && Active(s, worker)
    ensures Inv(Next(s, Step(worker, lag, fault)))
  {
    hide PassOk, PassSourced, CrVersions, SetVersions, Exec, Write, CallOf, Resume;
    var p := s.passes[worker];
    var (w', reply) := Exec(s.world, CallOf(p), lag, fault);
    StepKeepsOwnPass(s.world, p, lag, fault);
    StepIsSourced(s.world, p, lag, fault);
    ExecShape(s.world, p, lag, fault);
    if w' != s.world {
      AppendOk(s.world, Write(s.world.Current(), CallOf(p), s.world.next).0);
    }
    forall other | other in s.passes ensures PassOk(w', s.passes[other]) && PassSourced(w'.log, s.passes[other]) {
      SourcedStays(s.world.log, w'.log, s.passes[other]);
      if w' != s.world {
        AppendKeepsPass(s.world, Write(s.world.Current(), CallOf(p), s.world.next).0, s.passes[other]);
      }
    }
  }

  lemma InitialInv(s: System)
    requires Initial(s)
    ensures Inv(s)
  {
    hide PassOk;
    assert s.world.log[0] == s.world.Current();
  }

  lemma {:induction false} RunKeepsInvFrom(s: System, acts: seq<Action>)
    requires Inv(s)
    ensures Inv(Run(s, acts))
    decreases |acts|
  {
    hide PassOk, Next;
    if acts != [] {
      RunKeepsInvFrom(s, acts[..|acts| - 1]);
      NextKeepsInv(Run(s, acts[..|acts| - 1]), acts[|acts| - 1]);
    }
  }

  lemma RunKeepsInv(s: System, acts: seq<Action>)
    requires Initial(s)
    ensures Inv(Run(s, acts))
  {
    hide Inv, Run;
    InitialInv(s);
    RunKeepsInvFrom(s, acts);
  }

  // ---- No lost updates --------------------------------------------------------------------------

  function Specs(st: Store): map<Name, InfluxdbSpec> {
    map k | k in st.crs :: st.crs[k].spec
  }

  /** The specs that users wrote last: it looks at the users' writes alone. */
  function LastUserSpecs(initial: map<Name, InfluxdbSpec>, acts: seq<Action>): map<Name, InfluxdbSpec>
    decreases |acts|
  {
    if acts == [] then initial
    else
      var last := acts[|acts| - 1];
      if last.EnvWrites? then Specs(last.st) else LastUserSpecs(initial, acts[..|acts| - 1])
  }

  lemma WriteKeepsSpecs(log: seq<Store>, key: Name, before: Store, after: Store)
    requires ControllerWrite(log, key, before, after)
    ensures Specs(after) == Specs(before)
  {
    assert Specs(after).Keys == Specs(before).Keys;
  }

  lemma AdoptSpecs(w: World, st: Store)
    requires w.NonEmpty()
    ensures Specs(Adopt(w, st).Current()) == Specs(st)
  {
    assert Specs(Adopt(w, st).Current()).Keys == Specs(st).Keys;
  }

  /** In every reachable state the CR specs are the ones users wrote last. */
  lemma {:induction false} NoLostUpdates(s: System, acts: seq<Action>)
    requires Initial(s)
    ensures Specs(Run(s, acts).world.Current()) == LastUserSpecs(Specs(s.world.Current()), acts)
    decreases |acts|
  {
    if acts != [] {
      var before, a := acts[..|acts| - 1], acts[|acts| - 1];
      NoLostUpdates(s, before);
      RunKeepsInv(s, before);
      var mid := Run(s, before);
      if a.EnvWrites? {
        AdoptSpecs(mid.world, a.st);
      } else if a.Step? && Active(mid, a.worker) {
        StepEffect(mid, a);
        WriteKeepsSpecs(mid.world.log, mid.passes[a.worker].key, mid.world.Current(), Next(mid, a).world.Current());
      }
    }
  }

  /** In every run each controller step makes one permitted change, and writes only values that it took from
      states the cluster has been in. */
  lemma StepsArePermitted(s: System, acts: seq<Action>, i: nat)
    requires Initial(s) && i < |acts|
    ensures
      var mid := Run(s, acts[..i]);
      acts[i].Step? && Active(mid, acts[i].worker) ==>
        ControllerWrite(mid.world.log, mid.passes[acts[i].worker].key, mid.world.Current(),
                        Run(s, acts[..i + 1]).world.Current())
  {
    hide Inv, ControllerWrite, Next;
    RunKeepsInv(s, acts[..i]);
    RunNext(s, acts, i);
    if acts[i].Step? && Active(Run(s, acts[..i]), acts[i].worker) {
      StepEffect(Run(s, acts[..i]), acts[i]);
    }
  }

  lemma RunNext(s: System, acts: seq<Action>, i: nat)
    requires s.world.NonEmpty() && i < |acts|
    ensures Run(s, acts[..i]).world.NonEmpty()
    ensures Run(s, acts[..i + 1]) == Next(Run(s, acts[..i]), acts[i])
  {
    hide Next;
    assert acts[..i + 1][..i] == acts[..i] && acts[..i + 1][i] == acts[i];
  }

  // ---- Non-interference -------------------------------------------------------------------------

  lemma ServiceKeyInjective(a: Name, b: Name)
    requires ServiceKey(a) == ServiceKey(b)
    ensures a == b
  {
    var n := |a.name|;
    assert |a.name + "-svc"| == n + 4 && |b.name + "-svc"| == |b.name| + 4;
    assert (a.name + "-svc")[..n] == a.name && (b.name + "-svc")[..n] == b.name;
  }

  predicate SameAt<V(==)>(before: map<Name, V>, after: map<Name, V>, k: Name) {
    (k in before <==> k in after) && (k in before ==> after[k] == before[k])
  }

  lemma WriteLeavesOthers(log: seq<Store>, a: Name, b: Name, before: Store, after: Store)
    requires ControllerWrite(log, a, before, after) && a != b
    ensures SameAt(before.crs, after.crs, b) && SameAt(before.sets, after.sets, b)
    ensures SameAt(before.services, after.services, ServiceKey(b))
  {
    hide ServiceKey, ServiceOf, SetOf, ClaimOf, StatusWrite;
    if ServiceKey(a) == ServiceKey(b) {
      ServiceKeyInjective(a, b);
    }
  }

  /** In every run a step of a pass for one CR leaves the CR, the Service and the StatefulSet of every other CR
      as they were. */
  lemma OthersUntouched(s: System, acts: seq<Action>, i: nat, b: Name)
    requires Initial(s) && i < |acts| && acts[i].Step?
    requires
      var mid := Run(s, acts[..i]);
      Active(mid, acts[i].worker) && mid.passes[acts[i].worker].key != b
    ensures
      var before, after := Run(s, acts[..i]).world.Current(), Run(s, acts[..i + 1]).world.Current();
      && SameAt(before.crs, after.crs, b) && SameAt(before.sets, after.sets, b)
      && SameAt(before.services, after.services, ServiceKey(b))
  {
    hide Inv, ControllerWrite, Next, SameAt, ServiceKey;
    StepsArePermitted(s, acts, i);
    var mid := Run(s, acts[..i]);
    WriteLeavesOthers(mid.world.log, mid.passes[acts[i].worker].key, b, mid.world.Current(),
                      Run(s, acts[..i + 1]).world.Current());
  }

  /** The Service of `a` selects the pods of `b`'s stateful set exactly if they are the same CR name. */
  lemma SelectorSeparates(a: Name, crA: Influxdb, b: Name, crB: Influxdb)
    ensures Selects(NewService(a, crA).selector, StatefulSetFor(b, crB).template.labels) <==> a.name == b.name
    ensures Selects(StatefulSetFor(a, crA).selector, StatefulSetFor(b, crB).template.labels) <==> a.name == b.name
  {
    assert LabelsFor(a.name)["influxdb_cr"] == a.name && LabelsFor(b.name)["influxdb_cr"] == b.name;
    assert "influxdb_cr" in LabelsFor(a.name);
  }

  /** An action that leaves claim `k` alone, if it is another writer's. */
  predicate Spares(a: Action, k: Name, c: Claim) {
    a.EnvWrites? ==> k in a.st.claims && a.st.claims[k].(rv := c.rv) == c
  }

  lemma ActionKeepsClaim(s: System, a: Action, k: Name)
    requires Inv(s) && k in s.world.Current().claims && Spares(a, k, s.world.Current().claims[k])
    ensures
      var after := Next(s, a).world.Current().claims;
      k in after && after[k] == s.world.Current().claims[k]
  {
    hide Inv, Exec, CallOf, Resume, CrsWrite, SetsWrite, ServicesWrite, ClaimOf;
    if a.Step? && Active(s, a.worker) {
      StepEffect(s, a);
    }
  }

  /** A claim that is there at some point of a run, whoever made it and whatever passes are under way, keeps its
      spec and owner to the end of the run, if other writers leave it alone; however many CRs name it. */
  lemma {:induction false} ClaimKeptForever(s: System, acts: seq<Action>, i: nat, k: Name)
    requires Initial(s) && i <= |acts| && k in Run(s, acts[..i]).world.Current().claims
    requires forall j | i <= j < |acts| :: Spares(acts[j], k, Run(s, acts[..i]).world.Current().claims[k])
    ensures k in Run(s, acts).world.Current().claims
    ensures Run(s, acts).world.Current().claims[k] == Run(s, acts[..i]).world.Current().claims[k]
    decreases |acts|
  {
    hide Inv, Next, Spares;
    if i == |acts| {
      assert acts[..i] == acts;
    } else {
      var before := acts[..|acts| - 1];
      assert before[..i] == acts[..i];
      ClaimKeptForever(s, before, i, k);
      RunKeepsInv(s, before);
      ActionKeepsClaim(Run(s, before), acts[|acts| - 1], k);
    }
  }

  lemma WriteCreatesClaim(st: Store, p: Pass, rv: nat, k: Name)
    requires !p.Ended? && !CallOf(p).IsRead() && k !in st.claims && k in Write(st, CallOf(p), rv).0.claims
    ensures p.CreatingClaim? && ClaimFits(p.key, p.cr, k, Write(st, CallOf(p), rv).0.claims[k])
  {
    hide ClaimFits, NewClaim, NewService, StatefulSetFor, ClaimKey, ServiceKey;
    if p.CreatingClaim? {
      BuiltFits(p.key, p.cr, p.cr, rv);
    }
  }

  lemma StepCreatesClaim(s: System, a: Action, k: Name)
    requires Inv(s) && a.Step? && Active(s, a.worker)
    requires k !in s.world.Current().claims && k in Next(s, a).world.Current().claims
    ensures
      var p := s.passes[a.worker];
      && p.CreatingClaim? && ClaimFits(p.key, p.cr, k, Next(s, a).world.Current().claims[k])
      && Held(s.world.log, p.key, p.cr.spec, p.cr.uid)
  {
    hide CrVersions, SetVersions, PassOk, Held, ClaimFits, CallOf, Resume, Exec, Write, NamesListed;
    var p := s.passes[a.worker];
    ExecCurrent(s.world, CallOf(p), a.lag, a.fault);
    WriteCreatesClaim(s.world.Current(), p, s.world.next, k);
  }

  /** The step that creates a claim stores what its CR asks for, with that CR as the owner; this stays so to the
      end of the run, also against passes for other CRs that found the claim missing before. */
  lemma FirstCreatorKept(s: System, acts: seq<Action>, i: nat, k: Name)
    requires Initial(s) && i < |acts| && acts[i].Step? && Active(Run(s, acts[..i]), acts[i].worker)
    requires k !in Run(s, acts[..i]).world.Current().claims && k in Run(s, acts[..i + 1]).world.Current().claims
    requires forall j | i < j < |acts| :: Spares(acts[j], k, Run(s, acts[..i + 1]).world.Current().claims[k])
    ensures
      var mid := Run(s, acts[..i]);
      var p := mid.passes[acts[i].worker];
      && p.CreatingClaim? && Held(mid.world.log, p.key, p.cr.spec, p.cr.uid)
      && k in Run(s, acts).world.Current().claims
      && ClaimFits(p.key, p.cr, k, Run(s, acts).world.Current().claims[k])
  {
    hide Inv, Next, Spares, Held, ClaimFits;
    RunKeepsInv(s, acts[..i]);
    RunNext(s, acts, i);
    StepCreatesClaim(Run(s, acts[..i]), acts[i], k);
    ClaimKeptForever(s, acts, i + 1, k);
  }

  // ---- The imperative pass is one of these runs --------------------------------------------------

  lemma {:induction false} RunCons(s: System, a: Action, acts: seq<Action>)
    requires s.world.NonEmpty()
    ensures Run(s, [a] + acts) == Run(Next(s, a), acts)
    decreases |acts|
  {
    hide Next;
    var whole := [a] + acts;
    if acts == [] {
      assert whole[..0] == [] && whole[0] == a;
    } else {
      RunCons(s, a, acts[..|acts| - 1]);
      assert whole[..|whole| - 1] == [a] + acts[..|acts| - 1];
    }
  }

  lemma StepAlone(w: World, p: Pass, lag: nat, fault: Fault)
    requires w.NonEmpty() && !p.Ended?
    ensures
      var (w', reply) := Exec(w, CallOf(p), lag, fault);
      Next(System(w, map[0 := p]), Step(0, lag, fault)) == System(w', map[0 := Resume(p, reply)])
  {
    var (w', reply) := Exec(w, CallOf(p), lag, fault);
    assert map[0 := p][0 := Resume(p, reply)] == map[0 := Resume(p, reply)];
  }

  lemma {:induction false} PassSteps(w: World, turns: seq<Turn>, p: Pass) returns (acts: seq<Action>)
    requires w.NonEmpty()
    ensures Run(System(w, map[0 := p]), acts).world == RunPass(w, turns, p).0
    decreases CallsLeft(p)
  {
    if p.Ended? {
      return [];
    }
    var turn := if turns == [] then QUIET_TURN else turns[0];
    var rest := if turns == [] then [] else turns[1..];
    var w1 := if turn.env.Some? then Adopt(w, turn.env.value) else w;
    var (w2, reply) := Exec(w1, CallOf(p), turn.lag, turn.fault);
    var more := PassSteps(w2, rest, Resume(p, reply));
    acts := [Step(0, turn.lag, turn.fault)] + more;
    StepAlone(w1, p, turn.lag, turn.fault);
    RunCons(System(w1, map[0 := p]), acts[0], more);
    assert Run(System(w1, map[0 := p]), acts).world == RunPass(w2, rest, Resume(p, reply)).0;
    if turn.env.Some? {
      var env := EnvWrites(turn.env.value);
      RunCons(System(w, map[0 := p]), env, acts);
      acts := [env] + acts;
    }
  }

  /** What RunPass does to the cluster, and hence what Reconcile does, is a run of this system from a state without
      passes: the pass begins and makes its calls. */
  lemma PassIsARun(w: World, turns: seq<Turn>, k: Name) returns (acts: seq<Action>)
    requires w.NonEmpty()
    ensures acts != [] && acts[0] == Begin(0, k)
    ensures Run(System(w, map[]), acts).world == RunPass(w, turns, Fetching(k)).0
  {
    hide Exec, Resume, CallOf;
    var steps := PassSteps(w, turns, Fetching(k));
    acts := [Begin(0, k)] + steps;
    RunCons(System(w, map[]), Begin(0, k), steps);
    assert Next(System(w, map[]), Begin(0, k)) == System(w, map[0 := Fetching(k)]);
  }

  // ---- When a pass fails ------------------------------------------------------------------------

  /** The call did not get what it asked for; that a Get finds nothing is an answer. */
  predicate Refused(call: Call, reply: Reply) {
    || reply.Failed? || reply.AlreadyExists? || reply.Conflict?
    || (reply.NotFound? && (call.UpdateInfluxdb? || call.UpdateSet?))
  }

  /** One of the calls that the rest of the pass makes is refused. */
  predicate SomeRefused(w: World, turns: seq<Turn>, p: Pass)
    requires w.NonEmpty()
    decreases CallsLeft(p)
  {
    !p.Ended? &&
    var (w', rest, reply) := Serve(w, turns, CallOf(p));
    Refused(CallOf(p), reply) || SomeRefused(w', rest, Resume(p, reply))
  }

  lemma RefusalEnds(w: World, p: Pass, lag: nat, fault: Fault)
    requires w.NonEmpty() && !p.Ended?
    ensures
      var reply := Exec(w, CallOf(p), lag, fault).1;
      Resume(p, reply) == Ended(p.key, Error) <==> Refused(CallOf(p), reply)
  {
    hide Listing, PodNames, LabelsFor, ServiceKey, ClaimKey, NewService, NewClaim, StatefulSetFor;
  }

  /** Whatever goes on around it, a pass reports an error exactly if one of its calls was refused: a refused call ends
      the pass at once, and nothing else does so with an error. */
  lemma {:induction false} ErrorsAreRefusals(w: World, turns: seq<Turn>, p: Pass)
    requires w.NonEmpty() && !(p.Ended? && p.outcome.Error?)
    ensures RunPass(w, turns, p).2.Error? <==> SomeRefused(w, turns, p)
    decreases CallsLeft(p)
  {
    hide Exec, Resume, CallOf, Refused;
    if !p.Ended? {
      var turn := if turns == [] then QUIET_TURN else turns[0];
      var w1 := if turn.env.Some? then Adopt(w, turn.env.value) else w;
      var (w', rest, reply) := Serve(w, turns, CallOf(p));
      RefusalEnds(w1, p, turn.lag, turn.fault);
      var p' := Resume(p, reply);
      if Refused(CallOf(p), reply) {
        assert RunPass(w', rest, p').2 == Error;
      } else {
        SameKeyResumed(p, reply);
        assert !(p'.Ended? && p'.outcome.Error?) by {
          OnlyEnd(p');
        }
        ErrorsAreRefusals(w', rest, p');
      }
    }
  }

  lemma SameKeyResumed(p: Pass, reply: Reply)
    requires !p.Ended?
    ensures Resume(p, reply).key == p.key
  {
  }

  lemma OnlyEnd(p: Pass)
    ensures p.Ended? && p.outcome.Error? ==> p == Ended(p.key, Error)
  {
  }
}
