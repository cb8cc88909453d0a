/** pkg/controller/influxdb/influxdb_controller.go: the objects the controller builds, one Reconcile
    pass as a machine that makes one API call per step, and the imperative code that refines it. */
module InfluxdbController {
  import opened Basics
  import opened Kube

  function LabelsFor(name: string): Labels {
    map["app" := "influxdb", "influxdb_cr" := name]
  }

  function ServiceKey(key: Name): Name {
    Name(key.ns, key.name + "-svc")
  }

  function ClaimKey(key: Name, spec: InfluxdbSpec): Name {
    Name(key.ns, spec.claimName)
  }

  function OwnedBy(key: Name, cr: Influxdb): Option<OwnerRef> {
    Some(OwnerRef(key.name, cr.uid))
  }

  const SERVICE_PORTS := [(8086, "api"), (2003, "graphite"), (25826, "collectd"), (8089, "udp"), (4242, "opentsdb"),
                          (8088, "backup-restore")]

  function NewService(key: Name, cr: Influxdb): Service {
    Service(0, OwnedBy(key, cr), LabelsFor(key.name), LabelsFor(key.name), "ClusterIP", SERVICE_PORTS)
  }

  function NewClaim(key: Name, cr: Influxdb): Claim {
    Claim(0, OwnedBy(key, cr), LabelsFor(key.name), cr.spec.claimSpec)
  }

  function StatefulSetFor(key: Name, cr: Influxdb): StatefulSet {
    StatefulSet(0, OwnedBy(key, cr), ServiceKey(key).name, cr.spec.size, LabelsFor(key.name),
                PodShape(LabelsFor(key.name), key.ns, cr.spec.baseImage, cr.spec.pullPolicy, cr.spec.placement,
                         cr.spec.podPolicy, cr.spec.claimName))
  }

  /** Go's append to a nil slice: no names at all is nil, not the empty slice. */
  function PodNames(templates: seq<PodTemplate>): Option<seq<string>> {
    if templates == [] then None else Some(seq(|templates|, i requires 0 <= i < |templates| => templates[i].name))
  }

  datatype Outcome = Done | Requeue | Error

  /** A pass between two API calls, with the objects it holds in memory. */
  datatype Pass =
    | Fetching(key: Name)
    | ReadingService(key: Name, cr: Influxdb)
    | CreatingService(key: Name, cr: Influxdb)
    | SavingService(key: Name, cr: Influxdb)
    | ReadingClaim(key: Name, cr: Influxdb)
    | CreatingClaim(key: Name, cr: Influxdb)
    | SavingClaim(key: Name, cr: Influxdb)
    | ReadingSet(key: Name, cr: Influxdb)
    | CreatingSet(key: Name, cr: Influxdb)
    | ScalingSet(key: Name, cr: Influxdb, found: StatefulSet)
    | ListingPods(key: Name, cr: Influxdb)
    | SavingNodes(key: Name, cr: Influxdb)
    | Ended(key: Name, outcome: Outcome)

  /** The API call a pass makes next. */
  function CallOf(p: Pass): Call
    requires !p.Ended?
  {
    match p
    case Fetching(key) => GetInfluxdb(key)
    case ReadingService(key, _) => GetService(ServiceKey(key))
    case CreatingService(key, cr) => CreateService(ServiceKey(key), NewService(key, cr))
    case SavingService(key, cr) => UpdateInfluxdb(key, cr)
    case ReadingClaim(key, cr) => GetClaim(ClaimKey(key, cr.spec))
    case CreatingClaim(key, cr) => CreateClaim(ClaimKey(key, cr.spec), NewClaim(key, cr))
    case SavingClaim(key, cr) => UpdateInfluxdb(key, cr)
    case ReadingSet(key, _) => GetSet(key)
    case CreatingSet(key, cr) => CreateSet(key, StatefulSetFor(key, cr))
    case ScalingSet(key, _, found) => UpdateSet(key, found)
    case ListingPods(key, _) => ListTemplates(key.ns, LabelsFor(key.name))
    case SavingNodes(key, cr) => UpdateInfluxdb(key, cr)
  }

  /** What the pass does with the reply. */
  function Resume(p: Pass, reply: Reply): (r: Pass)
    requires !p.Ended?
    ensures r.key == p.key && CallsLeft(r) < CallsLeft(p)
  {
    match (p, reply)
    case (Fetching(key), GotInfluxdb(cr)) => ReadingService(key, cr)
    case (Fetching(key), NotFound) => Ended(key, Done)
    case (ReadingService(key, cr), GotService(_)) => ReadingClaim(key, cr)
    case (ReadingService(key, cr), NotFound) => CreatingService(key, cr)
    case (CreatingService(key, cr), Written(_)) =>
      SavingService(key, cr.(status := cr.status.(serviceName := ServiceKey(key).name)))
    case (SavingService(key, cr), Written(rv)) => ReadingClaim(key, cr.(rv := rv))
    case (ReadingClaim(key, cr), GotClaim(_)) => ReadingSet(key, cr)
    case (ReadingClaim(key, cr), NotFound) => CreatingClaim(key, cr)
    case (CreatingClaim(key, cr), Written(_)) =>
      SavingClaim(key, cr.(status := cr.status.(claimName := cr.spec.claimName)))
    case (SavingClaim(key, cr), Written(rv)) => ReadingSet(key, cr.(rv := rv))
    case (ReadingSet(key, cr), GotSet(found)) =>
      if found.replicas != cr.spec.size then ScalingSet(key, cr, found.(replicas := cr.spec.size))
      else ListingPods(key, cr)
    case (ReadingSet(key, cr), NotFound) => CreatingSet(key, cr)
    case (CreatingSet(key, _), Written(_)) => Ended(key, Requeue)
    case (ScalingSet(key, _, _), Written(_)) => Ended(key, Requeue)
    case (ListingPods(key, cr), Listed(templates)) =>
      if PodNames(templates) == cr.status.nodes then Ended(key, Done)
      else SavingNodes(key, cr.(status := cr.status.(nodes := PodNames(templates))))
    case (SavingNodes(key, _), Written(_)) => Ended(key, Done)
    case _ => Ended(p.key, Error)
  }

  /** Bounds the calls a pass can still make. */
  function CallsLeft(p: Pass): nat {
    match p
    case Fetching(_) => 12
    case ReadingService(_, _) => 11
    case CreatingService(_, _) => 10
    case SavingService(_, _) => 9
    case ReadingClaim(_, _) => 8
    case CreatingClaim(_, _) => 7
    case SavingClaim(_, _) => 6
    case ReadingSet(_, _) => 5
    case CreatingSet(_, _) => 4
    case ScalingSet(_, _, _) => 3
    case ListingPods(_, _) => 2
    case SavingNodes(_, _) => 1
    case Ended(_, _) => 0
  }

  /** The rest of a pass under a script of interference, staleness and faults. */
  function RunPass(w: World, turns: seq<Turn>, p: Pass): (r: (World, seq<Turn>, Outcome))
    requires w.NonEmpty()
    ensures r.0.NonEmpty()
    decreases CallsLeft(p)
  {
    if p.Ended? then (w, turns, p.outcome)
    else
      hide Serve, CallOf;
      var (w', rest, reply) := Serve(w, turns, CallOf(p));
      RunPass(w', rest, Resume(p, reply))
  }

  /** The Influxdb object a pass holds a pointer to. */
  class InfluxdbRef {
    var value: Influxdb

    constructor (value: Influxdb)
      ensures this.value == value
    {
      this.value := value;
    }
  }

  method GetPodNames(pods: seq<PodTemplate>) returns (names: Option<seq<string>>)
    ensures names == PodNames(pods)
    ensures names.None? <==> pods == []
    ensures names.Some? ==> |names.value| == |pods| && forall i | 0 <= i < |pods| :: names.value[i] == pods[i].name
  {
    names := None;
    for i := 0 to |pods|
      invariant names.Some? <==> i > 0
      invariant names.Some? ==> |names.value| == i && forall j :: 0 <= j < i ==> names.value[j] == pods[j].name
    {
      names := Some((if names.Some? then names.value else []) + [pods[i].name]);
    }
    if pods != [] {
      assert names.value == PodNames(pods).value;
    }
  }

  class ReconcileInfluxdb {
    const client: Client

    constructor (client: Client)
      ensures this.client == client
    {
      this.client := client;
    }

    /** Makes the call of pass `at`, which the run then continues with the reply. */
    method Send(ghost at: Pass, call: Call) returns (reply: Reply)
      requires client.world.NonEmpty()
      requires !at.Ended? && call == CallOf(at)
      modifies client
      ensures client.world.NonEmpty()
      ensures RunPass(old(client.world), old(client.turns), at)
           == RunPass(client.world, client.turns, Resume(at, reply))
    {
      reply := client.Send(call);
    }

    /** One whole pass: it drives the cluster exactly as the machine does. */
    method Reconcile(request: Name) returns (outcome: Outcome)
      requires client.world.NonEmpty()
      modifies client
      ensures client.world.NonEmpty()
      ensures (client.world, client.turns, outcome) == RunPass(old(client.world), old(client.turns), Fetching(request))
    {
      hide Serve;
      var reply := Send(Fetching(request), GetInfluxdb(request));
      if !reply.GotInfluxdb? {
        return if reply.NotFound? then Done else Error;
      }
      var cr := new InfluxdbRef(reply.cr);

      var ok := ReconcileService(request, cr);
      if !ok {
        return Error;
      }
      ok := ReconcileClaim(request, cr);
      if !ok {
        return Error;
      }
      outcome := ReconcileSet(request, cr);
    }

    method ReconcileService(key: Name, cr: InfluxdbRef) returns (ok: bool)
      requires client.world.NonEmpty()
      modifies client, cr
      ensures client.world.NonEmpty()
      ensures RunPass(old(client.world), old(client.turns), ReadingService(key, old(cr.value)))
           == if ok then RunPass(client.world, client.turns, ReadingClaim(key, cr.value))
              else (client.world, client.turns, Error)
    {
      hide Serve;
      var reply := Send(ReadingService(key, cr.value), GetService(ServiceKey(key)));
      if reply.NotFound? {
        var svc := NewService(key, cr.value);
        reply := Send(CreatingService(key, cr.value), CreateService(ServiceKey(key), svc));
        if !reply.Written? {
          return false;
        }
        cr.value := cr.value.(status := cr.value.status.(serviceName := ServiceKey(key).name));
        reply := Send(SavingService(key, cr.value), UpdateInfluxdb(key, cr.value));
        if !reply.Written? {
          return false;
        }
        cr.value := cr.value.(rv := reply.rv);
        return true;
      }
      ok := reply.GotService?;
    }

    method ReconcileClaim(key: Name, cr: InfluxdbRef) returns (ok: bool)
      requires client.world.NonEmpty()
      modifies client, cr
      ensures client.world.NonEmpty()
      ensures RunPass(old(client.world), old(client.turns), ReadingClaim(key, old(cr.value)))
           == if ok then RunPass(client.world, client.turns, ReadingSet(key, cr.value))
              else (client.world, client.turns, Error)
    {
      hide Serve;
      var reply := Send(ReadingClaim(key, cr.value), GetClaim(ClaimKey(key, cr.value.spec)));
      if reply.NotFound? {
        var pvc := NewClaim(key, cr.value);
        reply := Send(CreatingClaim(key, cr.value), CreateClaim(ClaimKey(key, cr.value.spec), pvc));
        if !reply.Written? {
          return false;
        }
        cr.value := cr.value.(status := cr.value.status.(claimName := cr.value.spec.claimName));
        reply := Send(SavingClaim(key, cr.value), UpdateInfluxdb(key, cr.value));
        if !reply.Written? {
          return false;
        }
        cr.value := cr.value.(rv := reply.rv);
        return true;
      }
      ok := reply.GotClaim?;
    }

    /** The stateful set part of Reconcile: create it, or match its size, or go on to the node names. */
    method ReconcileSet(key: Name, cr: InfluxdbRef) returns (outcome: Outcome)
      requires client.world.NonEmpty()
      modifies client, cr
      ensures client.world.NonEmpty()
      ensures (client.world, client.turns, outcome)
           == RunPass(old(client.world), old(client.turns), ReadingSet(key, old(cr.value)))
    {
      hide Serve;
      var reply := Send(ReadingSet(key, cr.value), GetSet(key));
      if reply.NotFound? {
        var dep := StatefulSetFor(key, cr.value);
        reply := Send(CreatingSet(key, cr.value), CreateSet(key, dep));
        return if reply.Written? then Requeue else Error;
      } else if !reply.GotSet? {
        return Error;
      }

      var found := reply.statefulSet;
      var size := cr.value.spec.size;
      if found.replicas != size {
        found := found.(replicas := size);
        reply := Send(ScalingSet(key, cr.value, found), UpdateSet(key, found));
        return if reply.Written? then Requeue else Error;
      }
      outcome := ReconcileNodes(key, cr);
    }

    /** The tail of Reconcile: list the templates and store their names if they changed. */
    method ReconcileNodes(key: Name, cr: InfluxdbRef) returns (outcome: Outcome)
      requires client.world.NonEmpty()
      modifies client, cr
      ensures client.world.NonEmpty()
      ensures (client.world, client.turns, outcome)
           == RunPass(old(client.world), old(client.turns), ListingPods(key, old(cr.value)))
    {
      hide Serve;
      var reply := Send(ListingPods(key, cr.value), ListTemplates(key.ns, LabelsFor(key.name)));
      if !reply.Listed? {
        return Error;
      }
      var podNames := GetPodNames(reply.templates);
      if podNames != cr.value.status.nodes {
        cr.value := cr.value.(status := cr.value.status.(nodes := podNames));
        reply := Send(SavingNodes(key, cr.value), UpdateInfluxdb(key, cr.value));
        if !reply.Written? {
          return Error;
        }
      }
      return Done;
    }
  }
}
