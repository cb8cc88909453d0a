/** pkg/apis/influxdata/v1alpha1/zz_generated.deepcopy.go: a Go struct is a datatype that holds references, so
    `out := source` is the shallow copy; pointers and maps are references to cells, slices are arrays or null.

    For every type, `XIn(x, r)` says that everything mutable reachable from x is in r, and `XView(x, r)` is
    the value a reader sees through x. */
module DeepCopy {
  import opened Basics

  /** What a pointer points to, or the contents of a map. */
  class Ref<T> {
    var v: T

    constructor (v: T)
      ensures this.v == v
    {
      this.v := v;
    }
  }

  // ---- Types of other packages -------------------------------------------------------------------------

  /** Stands for the structs of other packages (ObjectMeta, Affinity, Toleration, EnvVar, EnvFromSource,
      ResourceRequirements, PersistentVolumeClaim): plain fields and something shared. */
  datatype Foreign = Foreign(plain: string, shared: Ref?<string>)

  datatype ForeignValue = ForeignValue(plain: string, shared: Option<string>)

  ghost predicate ForeignIn(x: Foreign, r: set<object>) {
    x.shared != null ==> x.shared in r
  }

  ghost function ForeignView(x: Foreign, r: set<object>): ForeignValue
    requires ForeignIn(x, r)
    reads r
  {
    ForeignValue(x.plain, if x.shared == null then None else Some(x.shared.v))
  }

  method CopyForeign(source: Foreign, ghost r: set<object>) returns (out: Foreign, ghost r': set<object>)
    requires ForeignIn(source, r)
    ensures fresh(r') && ForeignIn(out, r')
    ensures ForeignView(out, r') == ForeignView(source, r)
  {
    out := source;
    r' := {};
    if source.shared != null {
      var cell := new Ref(source.shared.v);
      out := out.(shared := cell);
      r' := {cell};
    }
  }

  ghost predicate PointerIn(x: Ref?<Foreign>, r: set<object>)
    reads r
  {
    x != null ==> x in r && ForeignIn(x.v, r)
  }

  ghost function PointerView(x: Ref?<Foreign>, r: set<object>): Option<ForeignValue>
    requires PointerIn(x, r)
    reads r
  {
    if x == null then None else Some(ForeignView(x.v, r))
  }

  method CopyPointer(source: Ref?<Foreign>, ghost r: set<object>) returns (out: Ref?<Foreign>, ghost r': set<object>)
    requires PointerIn(source, r)
    ensures fresh(r') && PointerIn(out, r')
    ensures PointerView(out, r') == PointerView(source, r)
  {
    out, r' := null, {};
    if source != null {
      var copy, rc := CopyForeign(source.v, r);
      var cell := new Ref(copy);
      out, r' := cell, {cell} + rc;
    }
  }

  ghost predicate SliceIn(x: array?<Foreign>, r: set<object>)
    reads r
  {
    x != null ==> x in r && forall i | 0 <= i < x.Length :: ForeignIn(x[i], r)
  }

  ghost function SliceView(x: array?<Foreign>, r: set<object>): Option<seq<ForeignValue>>
    requires SliceIn(x, r)
    reads r
  {
    if x == null then None
    else Some(seq(x.Length,
                  i requires 0 <= i < x.Length && x in r && ForeignIn(x[i], r) reads r => ForeignView(x[i], r)))
  }

  method CopySlice(source: array?<Foreign>, ghost r: set<object>) returns (out: array?<Foreign>, ghost r': set<object>)
    requires SliceIn(source, r)
    ensures fresh(r') && SliceIn(out, r')
    ensures SliceView(out, r') == SliceView(source, r)
  {
    out, r' := null, {};
    if source != null {
      var made := new Foreign[source.Length](_ => Foreign("", null));
      out, r' := made, {made};
      for i := 0 to source.Length
        invariant fresh(r') && made in r'
        invariant forall k | 0 <= k < i ::
                    ForeignIn(made[k], r') && ForeignView(made[k], r') == ForeignView(source[k], r)
      {
        var copy, rc := CopyForeign(source[i], r);
        made[i] := copy;
        r' := r' + rc;
      }
      assert SliceView(out, r').value == SliceView(source, r).value;
    }
  }

  // ---- Maps and slices of strings ------------------------------------------------------------------------

  ghost predicate StringsIn(x: array?<string>, r: set<object>) {
    x != null ==> x in r
  }

  ghost function StringsView(x: array?<string>, r: set<object>): Option<seq<string>>
    requires StringsIn(x, r)
    reads r
  {
    if x == null then None else Some(x[..])
  }

  method CopyStrings(source: array?<string>, ghost r: set<object>) returns (out: array?<string>, ghost r': set<object>)
    requires StringsIn(source, r)
    ensures fresh(r') && StringsIn(out, r')
    ensures StringsView(out, r') == StringsView(source, r)
  {
    out, r' := null, {};
    if source != null {
      var made := new string[source.Length](_ => "");
      forall i | 0 <= i < source.Length {
        made[i] := source[i];
      }
      assert made[..] == source[..];
      out, r' := made, {made};
    }
  }

  type Selector = map<string, string>

  ghost predicate MapIn(x: Ref?<Selector>, r: set<object>) {
    x != null ==> x in r
  }

  ghost function MapView(x: Ref?<Selector>, r: set<object>): Option<Selector>
    requires MapIn(x, r)
    reads r
  {
    if x == null then None else Some(x.v)
  }

  /** The entries are copied one by one, in any order. */
  method CopyMap(source: Ref?<Selector>, ghost r: set<object>) returns (out: Ref?<Selector>, ghost r': set<object>)
    requires MapIn(source, r)
    ensures fresh(r') && MapIn(out, r')
    ensures MapView(out, r') == MapView(source, r)
  {
    out, r' := null, {};
    if source != null {
      var made: Ref<Selector> := new Ref(map[]);
      out, r' := made, {made};
      var left := source.v.Keys;
      while left != {}
        invariant left <= source.v.Keys
        invariant made.v.Keys == source.v.Keys - left
        invariant forall k | k in made.v :: made.v[k] == source.v[k]
        decreases |left|
      {
        var key :| key in left;
        made.v := made.v[key := source.v[key]];
        left := left - {key};
      }
      assert made.v == source.v;
    }
  }

  // ---- PodPolicy, InfluxdbSpec, InfluxdbStatus -------------------------------------------------------------

  datatype PodPolicy = PodPolicy(resources: Foreign, env: array?<Foreign>, envFrom: array?<Foreign>,
                                 claim: Ref?<Foreign>)

  datatype PodPolicyValue = PodPolicyValue(
    resources: ForeignValue, env: Option<seq<ForeignValue>>, envFrom: Option<seq<ForeignValue>>,
    claim: Option<ForeignValue>)

  ghost predicate PodPolicyIn(x: PodPolicy, r: set<object>)
    reads r
  {
    ForeignIn(x.resources, r) && SliceIn(x.env, r) && SliceIn(x.envFrom, r) && PointerIn(x.claim, r)
  }

  ghost function PodPolicyView(x: PodPolicy, r: set<object>): PodPolicyValue
    requires PodPolicyIn(x, r)
    reads r
  {
    PodPolicyValue(ForeignView(x.resources, r), SliceView(x.env, r), SliceView(x.envFrom, r), PointerView(x.claim, r))
  }

  /** Views through a larger set are the same. */
  lemma ForeignGrows(x: Foreign, r: set<object>, r': set<object>)
    requires ForeignIn(x, r) && r <= r'
    ensures ForeignIn(x, r') && ForeignView(x, r') == ForeignView(x, r)
  {
  }

  lemma PointerGrows(x: Ref?<Foreign>, r: set<object>, r': set<object>)
    requires PointerIn(x, r) && r <= r'
    ensures PointerIn(x, r') && PointerView(x, r') == PointerView(x, r)
  {
  }

  lemma SliceGrows(x: array?<Foreign>, r: set<object>, r': set<object>)
    requires SliceIn(x, r) && r <= r'
    ensures SliceIn(x, r') && SliceView(x, r') == SliceView(x, r)
  {
    if x != null {
      assert SliceView(x, r').value == SliceView(x, r).value;
    }
  }

  lemma PodPolicyGrows(x: PodPolicy, r: set<object>, r': set<object>)
    requires PodPolicyIn(x, r) && r <= r'
    ensures PodPolicyIn(x, r') && PodPolicyView(x, r') == PodPolicyView(x, r)
  {
    ForeignGrows(x.resources, r, r');
    SliceGrows(x.env, r, r');
    SliceGrows(x.envFrom, r, r');
    PointerGrows(x.claim, r, r');
  }

  method CopyPodPolicy(source: PodPolicy, ghost r: set<object>) returns (out: PodPolicy, ghost r': set<object>)
    requires PodPolicyIn(source, r)
    ensures fresh(r') && PodPolicyIn(out, r')
    ensures PodPolicyView(out, r') == PodPolicyView(source, r)
  {
    hide ForeignIn, ForeignView, SliceIn, SliceView, PointerIn, PointerView;
    out := source;
    var resources, r0 := CopyForeign(source.resources, r);
    out := out.(resources := resources);
    var env, r1 := CopySlice(source.env, r);
    out := out.(env := env);
    var envFrom, r2 := CopySlice(source.envFrom, r);
    out := out.(envFrom := envFrom);
    var claim, r3 := CopyPointer(source.claim, r);
    out := out.(claim := claim);
    r' := r0 + r1 + r2 + r3;
    ForeignGrows(resources, r0, r');
    SliceGrows(env, r1, r');
    SliceGrows(envFrom, r2, r');
    PointerGrows(claim, r3, r');
  }

  ghost predicate PodIn(x: Ref?<PodPolicy>, r: set<object>)
    reads r
  {
    x != null ==> x in r && PodPolicyIn(x.v, r)
  }

  ghost function PodView(x: Ref?<PodPolicy>, r: set<object>): Option<PodPolicyValue>
    requires PodIn(x, r)
    reads r
  {
    if x == null then None else Some(PodPolicyView(x.v, r))
  }

  lemma PodGrows(x: Ref?<PodPolicy>, r: set<object>, r': set<object>)
    requires PodIn(x, r) && r <= r'
    ensures PodIn(x, r') && PodView(x, r') == PodView(x, r)
  {
    if x != null {
      PodPolicyGrows(x.v, r, r');
    }
  }

  method CopyPod(source: Ref?<PodPolicy>, ghost r: set<object>) returns (out: Ref?<PodPolicy>, ghost r': set<object>)
    requires PodIn(source, r)
    ensures fresh(r') && PodIn(out, r')
    ensures PodView(out, r') == PodView(source, r)
  {
    hide PodPolicyIn, PodPolicyView;
    out, r' := null, {};
    if source != null {
      var copy, rc := CopyPodPolicy(source.v, r);
      var cell := new Ref(copy);
      out, r' := cell, {cell} + rc;
      PodPolicyGrows(copy, rc, r');
    }
  }

  datatype InfluxdbSpec = InfluxdbSpec(
    size: int, baseImage: string, imagePullPolicy: string, nodeSelector: Ref?<Selector>, affinity: Ref?<Foreign>,
    tolerations: array?<Foreign>, pod: Ref?<PodPolicy>)

  datatype InfluxdbSpecValue = InfluxdbSpecValue(
    size: int, baseImage: string, imagePullPolicy: string, nodeSelector: Option<Selector>,
    affinity: Option<ForeignValue>, tolerations: Option<seq<ForeignValue>>, pod: Option<PodPolicyValue>)

  ghost predicate InfluxdbSpecIn(x: InfluxdbSpec, r: set<object>)
    reads r
  {
    MapIn(x.nodeSelector, r) && PointerIn(x.affinity, r) && SliceIn(x.tolerations, r) && PodIn(x.pod, r)
  }

  ghost function InfluxdbSpecView(x: InfluxdbSpec, r: set<object>): InfluxdbSpecValue
    requires InfluxdbSpecIn(x, r)
    reads r
  {
    InfluxdbSpecValue(x.size, x.baseImage, x.imagePullPolicy, MapView(x.nodeSelector, r), PointerView(x.affinity, r),
                      SliceView(x.tolerations, r), PodView(x.pod, r))
  }

  lemma MapGrows(x: Ref?<Selector>, r: set<object>, r': set<object>)
    requires MapIn(x, r) && r <= r'
    ensures MapIn(x, r') && MapView(x, r') == MapView(x, r)
  {
  }

  lemma InfluxdbSpecGrows(x: InfluxdbSpec, r: set<object>, r': set<object>)
    requires InfluxdbSpecIn(x, r) && r <= r'
    ensures InfluxdbSpecIn(x, r') && InfluxdbSpecView(x, r') == InfluxdbSpecView(x, r)
  {
    hide MapIn, MapView, PointerIn, PointerView, SliceIn, SliceView, PodIn, PodView;
    MapGrows(x.nodeSelector, r, r');
    PointerGrows(x.affinity, r, r');
    SliceGrows(x.tolerations, r, r');
    PodGrows(x.pod, r, r');
  }

  method CopyInfluxdbSpec(source: InfluxdbSpec, ghost r: set<object>) returns (out: InfluxdbSpec, ghost r': set<object>)
    requires InfluxdbSpecIn(source, r)
    ensures fresh(r') && InfluxdbSpecIn(out, r')
    ensures InfluxdbSpecView(out, r') == InfluxdbSpecView(source, r)
  {
    hide MapIn, MapView, PointerIn, PointerView, SliceIn, SliceView, PodIn, PodView;
    out := source;
    var nodeSelector, r0 := CopyMap(source.nodeSelector, r);
    out := out.(nodeSelector := nodeSelector);
    var affinity, r1 := CopyPointer(source.affinity, r);
    out := out.(affinity := affinity);
    var tolerations, r2 := CopySlice(source.tolerations, r);
    out := out.(tolerations := tolerations);
    var pod, r3 := CopyPod(source.pod, r);
    out := out.(pod := pod);
    r' := r0 + r1 + r2 + r3;
    MapGrows(nodeSelector, r0, r');
    PointerGrows(affinity, r1, r');
    SliceGrows(tolerations, r2, r');
    PodGrows(pod, r3, r');
  }

  datatype InfluxdbStatus = InfluxdbStatus(nodes: array?<string>, serviceName: string, claimName: string)

  datatype InfluxdbStatusValue = InfluxdbStatusValue(nodes: Option<seq<string>>, serviceName: string, claimName: string)

  ghost function StatusView(x: InfluxdbStatus, r: set<object>): InfluxdbStatusValue
    requires StringsIn(x.nodes, r)
    reads r
  {
    InfluxdbStatusValue(StringsView(x.nodes, r), x.serviceName, x.claimName)
  }

  method CopyInfluxdbStatus(source: InfluxdbStatus, ghost r: set<object>)
    returns (out: InfluxdbStatus, ghost r': set<object>)
    requires StringsIn(source.nodes, r)
    ensures fresh(r') && StringsIn(out.nodes, r')
    ensures StatusView(out, r') == StatusView(source, r)
  {
    out := source;
    var nodes, r0 := CopyStrings(source.nodes, r);
    out, r' := out.(nodes := nodes), r0;
  }

  // ---- Influxdb and InfluxdbList ------------------------------------------------------------------------------

  datatype Influxdb = Influxdb(typeMeta: string, meta: Foreign, spec: InfluxdbSpec, status: InfluxdbStatus)

  datatype InfluxdbValue = InfluxdbValue(
    typeMeta: string, meta: ForeignValue, spec: InfluxdbSpecValue, status: InfluxdbStatusValue)

  const NO_SPEC := InfluxdbSpec(0, "", "", null, null, null, null)

  /** The zero value that make() fills a slice with. */
  const NO_INFLUXDB := Influxdb("", Foreign("", null), NO_SPEC, InfluxdbStatus(null, "", ""))

  ghost predicate InfluxdbIn(x: Influxdb, r: set<object>)
    reads r
  {
    ForeignIn(x.meta, r) && InfluxdbSpecIn(x.spec, r) && StringsIn(x.status.nodes, r)
  }

  ghost function InfluxdbView(x: Influxdb, r: set<object>): InfluxdbValue
    requires InfluxdbIn(x, r)
    reads r
  {
    InfluxdbValue(x.typeMeta, ForeignView(x.meta, r), InfluxdbSpecView(x.spec, r), StatusView(x.status, r))
  }

  lemma StatusGrows(x: InfluxdbStatus, r: set<object>, r': set<object>)
    requires StringsIn(x.nodes, r) && r <= r'
    ensures StringsIn(x.nodes, r') && StatusView(x, r') == StatusView(x, r)
  {
  }

  lemma InfluxdbGrows(x: Influxdb, r: set<object>, r': set<object>)
    requires InfluxdbIn(x, r) && r <= r'
    ensures InfluxdbIn(x, r') && InfluxdbView(x, r') == InfluxdbView(x, r)
  {
    hide ForeignIn, ForeignView, InfluxdbSpecIn, InfluxdbSpecView, StringsIn, StatusView;
    ForeignGrows(x.meta, r, r');
    InfluxdbSpecGrows(x.spec, r, r');
    StatusGrows(x.status, r, r');
  }

  method CopyInfluxdb(source: Influxdb, ghost r: set<object>) returns (out: Influxdb, ghost r': set<object>)
    requires InfluxdbIn(source, r)
    ensures fresh(r') && InfluxdbIn(out, r')
    ensures InfluxdbView(out, r') == InfluxdbView(source, r)
  {
    hide ForeignIn, ForeignView, InfluxdbSpecIn, InfluxdbSpecView, StringsIn, StatusView;
    out := source;
    var meta, r0 := CopyForeign(source.meta, r);
    out := out.(meta := meta);
    var spec, r1 := CopyInfluxdbSpec(source.spec, r);
    out := out.(spec := spec);
    var status, r2 := CopyInfluxdbStatus(source.status, r);
    out := out.(status := status);
    r' := r0 + r1 + r2;
    ForeignGrows(meta, r0, r');
    InfluxdbSpecGrows(spec, r1, r');
    StatusGrows(status, r2, r');
  }

  datatype InfluxdbList = InfluxdbList(typeMeta: string, listMeta: string, items: array?<Influxdb>)

  datatype InfluxdbListValue = InfluxdbListValue(typeMeta: string, listMeta: string, items: Option<seq<InfluxdbValue>>)

  ghost predicate InfluxdbListIn(x: InfluxdbList, r: set<object>)
    reads r
  {
    x.items != null ==> x.items in r && forall i | 0 <= i < x.items.Length :: InfluxdbIn(x.items[i], r)
  }

  ghost function InfluxdbListView(x: InfluxdbList, r: set<object>): InfluxdbListValue
    requires InfluxdbListIn(x, r)
    reads r
  {
    InfluxdbListValue(x.typeMeta, x.listMeta,
      if x.items == null then None
      else Some(seq(x.items.Length,
                    i requires 0 <= i < x.items.Length && x.items in r && InfluxdbIn(x.items[i], r) reads r =>
                      InfluxdbView(x.items[i], r))))
  }

  /** Disjoint sets of objects, all within `all`: one for each item of a list. */
  ghost predicate Apart(parts: seq<set<object>>, all: set<object>) {
    (forall i | 0 <= i < |parts| :: parts[i] <= all) && forall i, j | 0 <= i < j < |parts| :: parts[i] !! parts[j]
  }

  lemma ApartGrows(parts: seq<set<object>>, all: set<object>, part: set<object>)
    requires Apart(parts, all) && part !! all
    ensures Apart(parts + [part], all + part)
  {
  }

  lemma ApartWithin(parts: seq<set<object>>, all: set<object>, all': set<object>)
    requires Apart(parts, all) && all <= all'
    ensures Apart(parts, all')
  {
  }

  lemma ApartEmpty()
    ensures Apart([], {})
  {
  }

  lemma PartWithin(parts: seq<set<object>>, all: set<object>, i: nat)
    requires Apart(parts, all) && i < |parts|
    ensures parts[i] <= all
  {
  }

  /** What item number i of the copy reaches is within part number i. */
  ghost predicate EachIn(x: array<Influxdb>, parts: seq<set<object>>, n: nat)
    requires n <= x.Length
    reads x, set i, o | 0 <= i < |parts| && o in parts[i] :: o
  {
    |parts| == n && forall i | 0 <= i < n :: x !in parts[i] && InfluxdbIn(x[i], parts[i])
  }

  /** The copy shows the same value; all it reaches is new, and no two of its items share anything, even
      where the items of the source do. */
  method CopyInfluxdbList(source: InfluxdbList, ghost r: set<object>)
    returns (out: InfluxdbList, ghost r': set<object>, ghost parts: seq<set<object>>)
    requires InfluxdbListIn(source, r)
    ensures fresh(r') && InfluxdbListIn(out, r')
    ensures InfluxdbListView(out, r') == InfluxdbListView(source, r)
    ensures Apart(parts, r')
    ensures out.items != null ==> EachIn(out.items, parts, out.items.Length)
  {
    hide InfluxdbIn, InfluxdbView, Apart;
    out, r', parts := source, {}, [];
    ApartEmpty();
    if source.items != null {
      var made := new Influxdb[source.items.Length](_ => NO_INFLUXDB);
      out := out.(items := made);
      ghost var all: set<object> := {};
      for i := 0 to source.items.Length
        invariant fresh(all) && made !in all && Apart(parts, all) && EachIn(made, parts, i)
        invariant forall k | 0 <= k < i :: InfluxdbView(made[k], parts[k]) == InfluxdbView(source.items[k], r)
      {
        var copy, rc := CopyInfluxdb(source.items[i], r);
        made[i] := copy;
        ApartGrows(parts, all, rc);
        parts, all := parts + [rc], all + rc;
      }
      r' := {made} + all;
      ApartWithin(parts, all, r');
      forall k | 0 <= k < made.Length
        ensures InfluxdbIn(made[k], r') && InfluxdbView(made[k], r') == InfluxdbView(source.items[k], r)
      {
        PartWithin(parts, r', k);
        InfluxdbGrows(made[k], parts[k], r');
      }
      assert InfluxdbListView(out, r').items.value == InfluxdbListView(source, r).items.value;
    }
  }

  /** DeepCopy of a list pointer: nil stays nil. */
  method DeepCopyInfluxdbList(source: Ref?<InfluxdbList>, ghost r: set<object>)
    returns (out: Ref?<InfluxdbList>, ghost r': set<object>)
    requires source != null ==> source in r && InfluxdbListIn(source.v, r)
    ensures fresh(r') && (out == null <==> source == null)
    ensures out != null ==> out in r' && InfluxdbListIn(out.v, r')
    ensures out != null ==> InfluxdbListView(out.v, r') == InfluxdbListView(source.v, r)
  {
    hide InfluxdbListView, InfluxdbIn, EachIn, Apart;
    out, r' := null, {};
    if source != null {
      var copy, rc, parts := CopyInfluxdbList(source.v, r);
      var cell := new Ref(copy);
      out, r' := cell, {cell} + rc;
      InfluxdbListGrows(copy, rc, r');
    }
  }

  lemma InfluxdbListGrows(x: InfluxdbList, r: set<object>, r': set<object>)
    requires InfluxdbListIn(x, r) && r <= r'
    ensures InfluxdbListIn(x, r') && InfluxdbListView(x, r') == InfluxdbListView(x, r)
  {
    hide InfluxdbIn, InfluxdbView;
    if x.items != null {
      forall i | 0 <= i < x.items.Length
        ensures InfluxdbIn(x.items[i], r') && InfluxdbView(x.items[i], r') == InfluxdbView(x.items[i], r)
      {
        InfluxdbGrows(x.items[i], r, r');
      }
      assert InfluxdbListView(x, r').items.value == InfluxdbListView(x, r).items.value;
    }
  }

  /** Whatever is written outside the objects of a list is not seen through it. With the contract above, this
      is both directions: writes to the source's objects through the copy, and the other way round. */
  twostate lemma Unseen(x: InfluxdbList, r: set<object>)
    requires old(InfluxdbListIn(x, r)) && forall o | o in r :: unchanged(o)
    ensures InfluxdbListIn(x, r) && InfluxdbListView(x, r) == old(InfluxdbListView(x, r))
  {
  }

  // ---- Backup and BackupList -------------------------------------------------------------------------------------

  /** `fields` are the fields of BackupSpec, its storage included, that hold no reference. */
  datatype BackupSpec = BackupSpec(databases: array?<string>, fields: seq<string>)

  datatype Backup = Backup(typeMeta: string, meta: Foreign, spec: BackupSpec, location: string)

  datatype BackupValue = BackupValue(
    typeMeta: string, meta: ForeignValue, databases: Option<seq<string>>, fields: seq<string>, location: string)

  const NO_BACKUP := Backup("", Foreign("", null), BackupSpec(null, []), "")

  ghost predicate BackupIn(x: Backup, r: set<object>) {
    ForeignIn(x.meta, r) && StringsIn(x.spec.databases, r)
  }

  ghost function BackupView(x: Backup, r: set<object>): BackupValue
    requires BackupIn(x, r)
    reads r
  {
    BackupValue(x.typeMeta, ForeignView(x.meta, r), StringsView(x.spec.databases, r), x.spec.fields, x.location)
  }

  method CopyBackupSpec(source: BackupSpec, ghost r: set<object>) returns (out: BackupSpec, ghost r': set<object>)
    requires StringsIn(source.databases, r)
    ensures fresh(r') && StringsIn(out.databases, r') && out.fields == source.fields
    ensures StringsView(out.databases, r') == StringsView(source.databases, r)
  {
    out := source;
    var databases, r0 := CopyStrings(source.databases, r);
    out, r' := out.(databases := databases), r0;
  }

  method CopyBackup(source: Backup, ghost r: set<object>) returns (out: Backup, ghost r': set<object>)
    requires BackupIn(source, r)
    ensures fresh(r') && BackupIn(out, r')
    ensures BackupView(out, r') == BackupView(source, r)
  {
    out := source;
    var meta, r0 := CopyForeign(source.meta, r);
    out := out.(meta := meta);
    var spec, r1 := CopyBackupSpec(source.spec, r);
    out := out.(spec := spec);
    r' := r0 + r1;
  }

  datatype BackupList = BackupList(typeMeta: string, listMeta: string, items: array?<Backup>)

  datatype BackupListValue = BackupListValue(typeMeta: string, listMeta: string, items: Option<seq<BackupValue>>)

  ghost predicate BackupListIn(x: BackupList, r: set<object>)
    reads r
  {
    x.items != null ==> x.items in r && forall i | 0 <= i < x.items.Length :: BackupIn(x.items[i], r)
  }

  ghost function BackupListView(x: BackupList, r: set<object>): BackupListValue
    requires BackupListIn(x, r)
    reads r
  {
    BackupListValue(x.typeMeta, x.listMeta,
      if x.items == null then None
      else Some(seq(x.items.Length,
                    i requires 0 <= i < x.items.Length && x.items in r && BackupIn(x.items[i], r) reads r =>
                      BackupView(x.items[i], r))))
  }

  lemma BackupGrows(x: Backup, r: set<object>, r': set<object>)
    requires BackupIn(x, r) && r <= r'
    ensures BackupIn(x, r') && BackupView(x, r') == BackupView(x, r)
  {
  }

  method CopyBackupList(source: BackupList, ghost r: set<object>)
    returns (out: BackupList, ghost r': set<object>, ghost parts: seq<set<object>>)
    requires BackupListIn(source, r)
    ensures fresh(r') && BackupListIn(out, r')
    ensures BackupListView(out, r') == BackupListView(source, r)
    ensures Apart(parts, r')
    ensures out.items != null ==>
              |parts| == out.items.Length && forall i | 0 <= i < |parts| :: BackupIn(out.items[i], parts[i])
  {
    hide BackupIn, BackupView, Apart;
    out, r', parts := source, {}, [];
    ApartEmpty();
    if source.items != null {
      var made := new Backup[source.items.Length](_ => NO_BACKUP);
      out := out.(items := made);
      ghost var all: set<object> := {};
      for i := 0 to source.items.Length
        invariant fresh(all) && made !in all && Apart(parts, all) && |parts| == i
        invariant forall k | 0 <= k < i :: made !in parts[k] && BackupIn(made[k], parts[k])
        invariant forall k | 0 <= k < i :: BackupView(made[k], parts[k]) == BackupView(source.items[k], r)
      {
        var copy, rc := CopyBackup(source.items[i], r);
        made[i] := copy;
        ApartGrows(parts, all, rc);
        parts, all := parts + [rc], all + rc;
      }
      r' := {made} + all;
      ApartWithin(parts, all, r');
      forall k | 0 <= k < made.Length
        ensures BackupIn(made[k], r') && BackupView(made[k], r') == BackupView(source.items[k], r)
      {
        PartWithin(parts, r', k);
        BackupGrows(made[k], parts[k], r');
      }
      assert BackupListView(out, r').items.value == BackupListView(source, r).items.value;
    }
  }
}
