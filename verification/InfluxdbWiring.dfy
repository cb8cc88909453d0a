/** How the objects of a CR hang together once the controller has made them. */
module InfluxdbWiring {
  import opened Kube
  import opened InfluxdbController
  import InfluxdbSafety
  import opened InfluxdbConvergence
  import opened InfluxdbQueue

  /** What has been made since `st0` is what the CRs ask for. */
  ghost predicate MadeFit(st0: Store, st: Store) {
    && (forall k | k in st.sets && k !in st0.sets ::
          k in st.crs && InfluxdbSafety.ShapeFits(k, st.crs[k], st.sets[k]))
    && (forall n | n in st.services && n !in st0.services ::
          exists k :: k in st.crs && InfluxdbSafety.ServiceFits(k, st.crs[k], n, st.services[n]))
    && (forall n | n in st.claims && n !in st0.claims ::
          exists k :: k in st.crs && InfluxdbSafety.ClaimFits(k, st.crs[k], n, st.claims[n]))
  }

  /** The same objects fit both. */
  ghost predicate FitAlike(k: Name, a: Influxdb, b: Influxdb) {
    && (forall o :: InfluxdbSafety.ShapeFits(k, a, o) <==> InfluxdbSafety.ShapeFits(k, b, o))
    && (forall n, o :: InfluxdbSafety.ServiceFits(k, a, n, o) <==> InfluxdbSafety.ServiceFits(k, b, n, o))
    && (forall n, o :: InfluxdbSafety.ClaimFits(k, a, n, o) <==> InfluxdbSafety.ClaimFits(k, b, n, o))
  }

  lemma SameFit(k: Name, a: Influxdb, b: Influxdb)
    requires a.spec == b.spec && a.uid == b.uid
    ensures FitAlike(k, a, b)
  {
  }

  lemma ProgressKeepsShapes(key: Name, before: Store, after: Store)
    requires Progress(key, before, after)
    ensures forall k | k in before.crs ::
              after.crs[k].spec == before.crs[k].spec && after.crs[k].uid == before.crs[k].uid
    ensures forall k, cr | k in before.sets && InfluxdbSafety.ShapeFits(k, cr, before.sets[k]) ::
              InfluxdbSafety.ShapeFits(k, cr, after.sets[k])
  {
    hide InfluxdbSafety.ServiceFits, InfluxdbSafety.ClaimFits, Ready, InfluxdbSafety.IsOwned, InfluxdbSafety.IsLabelled;
  }

  lemma ProgressKeepsFit(key: Name, st0: Store, before: Store, after: Store)
    requires MadeFit(st0, before) && Progress(key, before, after)
    ensures MadeFit(st0, after)
  {
    hide InfluxdbSafety.ServiceFits, InfluxdbSafety.ClaimFits, InfluxdbSafety.ShapeFits, Ready;
    ProgressKeepsShapes(key, before, after);
    forall k | k in before.crs ensures FitAlike(k, before.crs[k], after.crs[k]) {
      SameFit(k, before.crs[k], after.crs[k]);
    }
  }

  lemma {:induction false} VisitsMakeFit(st0: Store, queue: set<Name>, w: World, visits: seq<Visit>, watch: bool)
    requires Sound(w) && Legal(queue, w, visits, watch) && MadeFit(st0, w.Current())
    ensures MadeFit(st0, After(w, visits).Current())
    decreases |visits|
  {
    hide InfluxdbSafety.WorldOk, Monotone, Requeued, MadeFit, Progress, Converged, Ready;
    if visits != [] {
      var v := visits[0];
      VisitKeepsSound(w, v);
      QuietPass(w, v.turns, v.key);
      ProgressKeepsFit(v.key, st0, w.Current(), OnePass(w, v).0.Current());
      VisitsMakeFit(st0, Requeued(queue, w, v, watch), OnePass(w, v).0, visits[1..], watch);
    }
  }

  /** The stateful set of `k` is governed by a Service that is there, the CR's own; its pods run the CR's image and
      mount a claim that is there, the one that the CR names; and it manages the pods it makes. A Service that the
      controller made sends traffic to them, and is the CR's. */
  ghost predicate Wired(st0: Store, st: Store, k: Name)
    requires k in st.crs && k in st.sets
  {
    var o, spec := st.sets[k], st.crs[k].spec;
    var svc, claim := Name(k.ns, o.serviceName), Name(k.ns, o.template.claimName);
    && svc in st.services && svc == ServiceKey(k)
    && claim in st.claims && claim == Name(k.ns, spec.claimName)
    && o.replicas == spec.size && o.template.image == spec.baseImage && o.template.ns == k.ns
    && o.template.pullPolicy == spec.pullPolicy && o.template.placement == spec.placement
    && o.template.podPolicy == spec.podPolicy
    && Selects(o.selector, o.template.labels)
    && (svc !in st0.services ==>
          Selects(st.services[svc].selector, o.template.labels) && st.services[svc].owner == o.owner)
  }

  lemma MadeNothing(st: Store)
    ensures MadeFit(st, st)
  {
  }

  lemma ServiceIsOwn(st0: Store, st: Store, k: Name)
    requires MadeFit(st0, st) && ServiceKey(k) in st.services && ServiceKey(k) !in st0.services
    ensures k in st.crs && InfluxdbSafety.ServiceFits(k, st.crs[k], ServiceKey(k), st.services[ServiceKey(k)])
  {
    hide InfluxdbSafety.ClaimFits, InfluxdbSafety.ShapeFits, InfluxdbSafety.IsOwned, InfluxdbSafety.IsLabelled;
    var svc := ServiceKey(k);
    var k' :| k' in st.crs && InfluxdbSafety.ServiceFits(k', st.crs[k'], svc, st.services[svc]);
    assert svc == ServiceKey(k');
    InfluxdbSafety.ServiceKeyInjective(k, k');
  }

  lemma FitIsWired(st0: Store, st: Store, k: Name)
    requires k in st.crs && k in st.sets && InfluxdbSafety.ShapeFits(k, st.crs[k], st.sets[k]) && Converged(st, k)
    requires ServiceKey(k) !in st0.services ==>
               InfluxdbSafety.ServiceFits(k, st.crs[k], ServiceKey(k), st.services[ServiceKey(k)])
    ensures Wired(st0, st, k)
  {
    hide NodesRight;
  }

  /** After any run of passes under faults and stale reads, with or without the watches: every stateful set that the
      controller has made for a CR that has converged is wired up. */
  lemma MadeSetsAreWired(queue: set<Name>, w: World, visits: seq<Visit>, watch: bool, k: Name)
    requires Sound(w) && Legal(queue, w, visits, watch)
    requires
      var end := After(w, visits).Current();
      k in end.sets && k !in w.Current().sets && Converged(end, k)
    ensures
      var end := After(w, visits).Current();
      k in end.crs && Wired(w.Current(), end, k)
  {
    hide InfluxdbSafety.WorldOk, Monotone, After, Legal, NodesRight, InfluxdbSafety.ShapeFits,
         InfluxdbSafety.ServiceFits, InfluxdbSafety.ClaimFits, Wired, ServiceKey, ClaimKey, Ready;
    MadeNothing(w.Current());
    VisitsMakeFit(w.Current(), queue, w, visits, watch);
    var end := After(w, visits).Current();
    if ServiceKey(k) !in w.Current().services {
      ServiceIsOwn(w.Current(), end, k);
    }
    FitIsWired(w.Current(), end, k);
  }
}
