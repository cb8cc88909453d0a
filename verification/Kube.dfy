/** The slice of the Kubernetes API that the Influxdb controller sees: versioned objects, the
    calls it makes on them, and a cluster whose past states stay readable through a stale cache. */
module Kube {
  import opened Basics

  datatype Name = Name(ns: string, name: string)

  type Labels = map<string, string>

  /** The controller owner reference; its kind is always Influxdb. */
  datatype OwnerRef = OwnerRef(name: string, uid: nat)

  datatype InfluxdbSpec = InfluxdbSpec(
    size: int, baseImage: string, pullPolicy: string, placement: string, podPolicy: string,
    claimName: string, claimSpec: string)

  /** `nodes == None` is Go's nil slice, which differs from the empty slice `Some([])`. */
  datatype InfluxdbStatus = InfluxdbStatus(nodes: Option<seq<string>>, serviceName: string, claimName: string)

  datatype Influxdb = Influxdb(rv: nat, uid: nat, spec: InfluxdbSpec, status: InfluxdbStatus)

  datatype Service = Service(rv: nat, owner: Option<OwnerRef>, labels: Labels, selector: Labels, kind: string,
                             ports: seq<(int, string)>)

  datatype Claim = Claim(rv: nat, owner: Option<OwnerRef>, labels: Labels, spec: string)

  datatype PodShape = PodShape(labels: Labels, ns: string, image: string, pullPolicy: string, placement: string,
                               podPolicy: string, claimName: string)

  datatype StatefulSet = StatefulSet(rv: nat, owner: Option<OwnerRef>, serviceName: string, replicas: int,
                                     selector: Labels, template: PodShape)

  /** The PodTemplate objects that the controller lists. */
  datatype PodTemplate = PodTemplate(ns: string, name: string, labels: Labels)

  datatype Store = Store(
    crs: map<Name, Influxdb>, services: map<Name, Service>, claims: map<Name, Claim>,
    sets: map<Name, StatefulSet>, templates: seq<PodTemplate>)

  datatype Call =
    | GetInfluxdb(key: Name)
    | GetService(key: Name)
    | GetClaim(key: Name)
    | GetSet(key: Name)
    | ListTemplates(ns: string, selector: Labels)
    | CreateService(key: Name, service: Service)
    | CreateClaim(key: Name, claim: Claim)
    | CreateSet(key: Name, statefulSet: StatefulSet)
    | UpdateInfluxdb(key: Name, cr: Influxdb)
    | UpdateSet(key: Name, statefulSet: StatefulSet)
  {
    predicate IsRead() {
      GetInfluxdb? || GetService? || GetClaim? || GetSet? || ListTemplates?
    }
  }

  datatype Reply =
    | NotFound
    | AlreadyExists
    | Conflict
    | Failed
    | GotInfluxdb(cr: Influxdb)
    | GotService(service: Service)
    | GotClaim(claim: Claim)
    | GotSet(statefulSet: StatefulSet)
    | Listed(templates: seq<PodTemplate>)
    | Written(rv: nat)

  /** A selector matches an object that carries all of its labels. */
  predicate Selects(selector: Labels, labels: Labels) {
    forall l | l in selector :: l in labels && labels[l] == selector[l]
  }

  function Listing(templates: seq<PodTemplate>, ns: string, selector: Labels): seq<PodTemplate> {
    if templates == [] then []
    else
      var rest := Listing(templates[1..], ns, selector);
      if templates[0].ns == ns && Selects(selector, templates[0].labels) then [templates[0]] + rest else rest
  }

  function Read(st: Store, call: Call): Reply
    requires call.IsRead()
  {
    match call
    case GetInfluxdb(key) => if key in st.crs then GotInfluxdb(st.crs[key]) else NotFound
    case GetService(key) => if key in st.services then GotService(st.services[key]) else NotFound
    case GetClaim(key) => if key in st.claims then GotClaim(st.claims[key]) else NotFound
    case GetSet(key) => if key in st.sets then GotSet(st.sets[key]) else NotFound
    case ListTemplates(ns, selector) => Listed(Listing(st.templates, ns, selector))
  }

  /** A write either succeeds and stamps version `rv` on the object, or leaves the store alone. */
  function Write(st: Store, call: Call, rv: nat): (Store, Reply)
    requires !call.IsRead()
  {
    match call
    case CreateService(key, o) =>
      if key in st.services then (st, AlreadyExists)
      else (st.(services := st.services[key := o.(rv := rv)]), Written(rv))
    case CreateClaim(key, o) =>
      if key in st.claims then (st, AlreadyExists)
      else (st.(claims := st.claims[key := o.(rv := rv)]), Written(rv))
    case CreateSet(key, o) =>
      if key in st.sets then (st, AlreadyExists)
      else (st.(sets := st.sets[key := o.(rv := rv)]), Written(rv))
    case UpdateInfluxdb(key, o) =>
      if key !in st.crs then (st, NotFound)
      else if st.crs[key].rv != o.rv then (st, Conflict)
      else (st.(crs := st.crs[key := o.(rv := rv)]), Written(rv))
    case UpdateSet(key, o) =>
      if key !in st.sets then (st, NotFound)
      else if st.sets[key].rv != o.rv then (st, Conflict)
      else (st.(sets := st.sets[key := o.(rv := rv)]), Written(rv))
  }

  /** Every state the cluster has been in, the current one last, and the next unused version. */
  datatype World = World(log: seq<Store>, next: nat) {
    predicate NonEmpty() {
      |log| > 0
    }

    function Current(): Store
      requires NonEmpty()
    {
      log[|log| - 1]
    }

    /** What a cache that lags `lag` states behind answers from. */
    function Cached(lag: nat): Store
      requires NonEmpty()
    {
      if lag < |log| then log[|log| - 1 - lag] else log[0]
    }

    function Append(st: Store): World {
      World(log + [st], next + 1)
    }
  }

  function Exec(w: World, call: Call, lag: nat, fault: Fault): (r: (World, Reply))
    requires w.NonEmpty()
    ensures r.0.NonEmpty()
  {
    if call.IsRead() then
      (w, if fault.NoFault? then Read(w.Cached(lag), call) else Failed)
    else
      var (st, reply) := Write(w.Current(), call, w.next);
      var w' := if reply.Written? then w.Append(st) else w;
      match fault
      case NoFault => (w', reply)
      case Lost => (w, Failed)
      case Applied => (w', Failed)
  }

  /** Reads and lost writes change nothing; a write whose reply is lost does what it would have done; either fault is
      reported as a failure. */
  lemma FaultsMean(w: World, call: Call, lag: nat)
    requires w.NonEmpty()
    ensures call.IsRead() ==> forall fault :: Exec(w, call, lag, fault).0 == w
    ensures Exec(w, call, lag, Lost) == (w, Failed) && Exec(w, call, lag, Applied).1 == Failed
    ensures Exec(w, call, lag, Applied).0 == Exec(w, call, lag, NoFault).0
  {
  }

  /** Another writer moves the cluster to contents `st`; whatever it changed gets a new version. */
  function Adopt(w: World, st: Store): (r: World)
    requires w.NonEmpty()
    ensures r.NonEmpty()
  {
    var now := w.Current();
    w.Append(st.(
      crs := map k | k in st.crs ::
        if k in now.crs && now.crs[k] == st.crs[k].(rv := now.crs[k].rv) then now.crs[k]
        else st.crs[k].(rv := w.next),
      services := map k | k in st.services ::
        if k in now.services && now.services[k] == st.services[k].(rv := now.services[k].rv) then now.services[k]
        else st.services[k].(rv := w.next),
      claims := map k | k in st.claims ::
        if k in now.claims && now.claims[k] == st.claims[k].(rv := now.claims[k].rv) then now.claims[k]
        else st.claims[k].(rv := w.next),
      sets := map k | k in st.sets ::
        if k in now.sets && now.sets[k] == st.sets[k].(rv := now.sets[k].rv) then now.sets[k]
        else st.sets[k].(rv := w.next)))
  }

  /** What surrounds one API call: a write by somebody else just before it, the age of the cache,
      and the call's own fault. */
  datatype Turn = Turn(env: Option<Store>, lag: nat, fault: Fault)

  const QUIET_TURN := Turn(None, 0, NoFault)

  /** Serves one call under the next scripted turn; an exhausted script is a quiet, healthy cluster. */
  function Serve(w: World, turns: seq<Turn>, call: Call): (r: (World, seq<Turn>, Reply))
    requires w.NonEmpty()
    ensures r.0.NonEmpty()
  {
    var turn := if turns == [] then QUIET_TURN else turns[0];
    var w1 := if turn.env.Some? then Adopt(w, turn.env.value) else w;
    var (w2, reply) := Exec(w1, call, turn.lag, turn.fault);
    (w2, if turns == [] then [] else turns[1..], reply)
  }

  /** The controller-runtime client: it serves calls against the cluster. */
  class Client {
    var world: World
    var turns: seq<Turn>

    constructor (world: World, turns: seq<Turn>)
      requires world.NonEmpty()
      ensures this.world == world && this.turns == turns
    {
      this.world, this.turns := world, turns;
    }

    method Send(call: Call) returns (reply: Reply)
      requires world.NonEmpty()
      modifies this
      ensures (world, turns, reply) == Serve(old(world), old(turns), call)
    {
      var turn := QUIET_TURN;
      if turns != [] {
        turn, turns := turns[0], turns[1..];
      }
      if turn.env.Some? {
        world := Adopt(world, turn.env.value);
      }
      var served := Exec(world, call, turn.lag, turn.fault);
      world, reply := served.0, served.1;
    }
  }
}
