/** pkg/generated/informers/externalversions/factory.go: one shared informer per type, each run once. Every
    operation holds the factory's lock, so whatever the goroutines do, what happens is a sequence of whole
    critical sections. */
module Informers {

  type Kind = string

  // ---- The factory as a value ----------------------------------------------------------------------------

  /** Informers are numbered in the order in which newFunc makes them; `launched` lists the informers that
      were run, one entry for each goroutine. */
  datatype Factory = Factory(informers: map<Kind, nat>, started: set<Kind>, made: nat, launched: seq<nat>)

  const EMPTY := Factory(map[], {}, 0, [])

  /** The critical sections; `order` is the order in which Go's range visits the map: any. */
  datatype Section = InformerFor(kind: Kind) | Start(order: seq<Kind>) | Snapshot

  /** What a section hands out: an informer, or the informers that are then waited for. */
  datatype Answer = Informer(informer: nat) | Started | Waiting(informers: map<Kind, nat>)

  function StartOne(f: Factory, kind: Kind): Factory
    requires kind in f.informers
  {
    if kind in f.started then f
    else f.(started := f.started + {kind}, launched := f.launched + [f.informers[kind]])
  }

  predicate Within(order: seq<Kind>, f: Factory) {
    forall i | 0 <= i < |order| :: order[i] in f.informers
  }

  function StartAll(f: Factory, order: seq<Kind>): Factory
    requires Within(order, f)
    decreases |order|
  {
    if order == [] then f else StartAll(StartOne(f, order[0]), order[1..])
  }

  /** What is waited for: the informers of the started types. */
  function Running(f: Factory): map<Kind, nat> {
    map k | k in f.informers && k in f.started :: f.informers[k]
  }

  predicate Allowed(f: Factory, section: Section) {
    section.Start? ==> Within(section.order, f) && forall k | k in f.informers :: k in section.order
  }

  function Apply(f: Factory, section: Section): (Factory, Answer)
    requires Allowed(f, section)
  {
    match section
    case InformerFor(kind) =>
      if kind in f.informers then (f, Informer(f.informers[kind]))
      else (f.(informers := f.informers[kind := f.made], made := f.made + 1), Informer(f.made))
    case Start(order) => (StartAll(f, order), Started)
    case Snapshot => (f, Waiting(Running(f)))
  }

  predicate AllAllowed(f: Factory, sections: seq<Section>)
    decreases |sections|
  {
    sections == [] || (Allowed(f, sections[0]) && AllAllowed(Apply(f, sections[0]).0, sections[1..]))
  }

  function Run(f: Factory, sections: seq<Section>): Factory
    requires AllAllowed(f, sections)
    decreases |sections|
  {
    if sections == [] then f else Run(Apply(f, sections[0]).0, sections[1..])
  }

  // ---- The code --------------------------------------------------------------------------------------------

  class SharedInformerFactory {
    var informers: map<Kind, nat>
    var startedInformers: map<Kind, bool>
    var made: nat
    var launched: seq<nat>

    constructor ()
      ensures View() == EMPTY
    {
      informers, startedInformers, made, launched := map[], map[], 0, [];
    }

    function View(): Factory
      reads this
    {
      Factory(informers, (set k | k in startedInformers && startedInformers[k]), made, launched)
    }

    method NewInformer() returns (informer: nat)
      modifies this
      ensures informer == old(made)
      ensures View() == old(View()).(made := old(made) + 1)
    {
      informer := made;
      made := made + 1;
    }

    method InformerFor(kind: Kind) returns (informer: nat)
      modifies this
      ensures (View(), Answer.Informer(informer)) == Apply(old(View()), Section.InformerFor(kind))
    {
      if kind in informers {
        return informers[kind];
      }
      informer := NewInformer();
      informers := informers[kind := informer];
    }

    method Start(order: seq<Kind>)
      requires Allowed(View(), Section.Start(order))
      modifies this
      ensures View() == Apply(old(View()), Section.Start(order)).0
    {
      for i := 0 to |order|
        invariant informers == old(informers) && Within(order[i..], View())
        invariant StartAll(View(), order[i..]) == StartAll(old(View()), order)
      {
        ghost var before := View();
        var informerType := order[i];
        assert order[i..][0] == informerType && order[i..][1..] == order[i + 1..];
        if !(informerType in startedInformers && startedInformers[informerType]) {
          launched := launched + [informers[informerType]];
          startedInformers := startedInformers[informerType := true];
          assert View().started == before.started + {informerType};
        }
        assert View() == StartOne(before, informerType);
      }
    }

    /** The part of WaitForCacheSync that holds the lock. */
    method TakeSnapshot(order: seq<Kind>) returns (running: map<Kind, nat>)
      requires Within(order, View()) && forall k | k in informers :: k in order
      ensures Waiting(running) == Apply(View(), Snapshot).1
    {
      running := map[];
      for i := 0 to |order|
        invariant running == map k | k in informers && k in View().started && k in order[..i] :: informers[k]
      {
        assert order[..i + 1] == order[..i] + [order[i]];
        if order[i] in startedInformers && startedInformers[order[i]] {
          running := running[order[i] := informers[order[i]]];
        }
      }
    }

    /** `synced` is what waiting for an informer comes to; other sections may run meanwhile, so nothing of the
        factory is read after the snapshot. */
    method WaitForCacheSync(order: seq<Kind>, synced: nat -> bool) returns (res: map<Kind, bool>)
      requires Within(order, View()) && forall k | k in informers :: k in order
      ensures res == map k | k in Running(View()) :: synced(Running(View())[k])
    {
      var running := TakeSnapshot(order);
      res := map[];
      var left := running.Keys;
      while left != {}
        invariant left <= running.Keys
        invariant res == map k | k in running && k !in left :: synced(running[k])
        decreases |left|
      {
        var kind :| kind in left;
        res := res[kind := synced(running[kind])];
        left := left - {kind};
      }
    }
  }

  // ---- Every sequence of sections -------------------------------------------------------------------------------

  /** Types have informers of their own, the launched informers are those of the started types, each launched
      once. */
  ghost predicate Inv(f: Factory) {
    && (forall k | k in f.informers :: f.informers[k] < f.made)
    && (forall k, k' | k in f.informers && k' in f.informers && k != k' :: f.informers[k] != f.informers[k'])
    && f.started <= f.informers.Keys
    && (forall n :: n in f.launched <==> exists k :: k in f.started && f.informers[k] == n)
    && (forall i, j | 0 <= i < j < |f.launched| :: f.launched[i] != f.launched[j])
  }

  /** Informers and starts are never taken back. */
  ghost predicate Extends(f: Factory, f': Factory) {
    && (forall k | k in f.informers :: k in f'.informers && f'.informers[k] == f.informers[k])
    && f.started <= f'.started
  }

  lemma StartOneKeeps(f: Factory, kind: Kind)
    requires Inv(f) && kind in f.informers
    ensures Inv(StartOne(f, kind)) && StartOne(f, kind).informers == f.informers
  {
    var f' := StartOne(f, kind);
    if kind !in f.started {
      forall n ensures n in f'.launched <==> exists k :: k in f'.started && f'.informers[k] == n {
        if n == f.informers[kind] {
          assert kind in f'.started;
          assert f'.launched[|f.launched|] == n;
        } else if k :| k in f'.started && f'.informers[k] == n {
          assert k in f.started;
        }
      }
      assert f.informers[kind] !in f.launched;
    }
  }

  lemma {:induction false} StartAllKeeps(f: Factory, order: seq<Kind>)
    requires Inv(f) && Within(order, f)
    ensures
      var f' := StartAll(f, order);
      && Inv(f') && f'.informers == f.informers && f'.made == f.made
      && f'.started == f.started + (set k | k in order)
    decreases |order|
  {
    hide Inv;
    if order != [] {
      StartOneKeeps(f, order[0]);
      StartAllKeeps(StartOne(f, order[0]), order[1..]);
      assert (set k | k in order) == {order[0]} + set k | k in order[1..];
    }
  }

  lemma ApplyKeeps(f: Factory, section: Section)
    requires Inv(f) && Allowed(f, section)
    ensures Inv(Apply(f, section).0) && Extends(f, Apply(f, section).0)
  {
    match section {
      case InformerFor(kind) =>
      case Start(order) =>
        StartAllKeeps(f, order);
      case Snapshot =>
    }
  }

  lemma {:induction false} RunKeeps(f: Factory, sections: seq<Section>)
    requires Inv(f) && AllAllowed(f, sections)
    ensures Inv(Run(f, sections)) && Extends(f, Run(f, sections))
    decreases |sections|
  {
    hide Inv, Allowed, Apply;
    if sections != [] {
      ApplyKeeps(f, sections[0]);
      RunKeeps(Apply(f, sections[0]).0, sections[1..]);
    }
  }

  lemma EmptyInv()
    ensures Inv(EMPTY)
  {
  }

  /** All callers that ask for a type get the same informer, and callers that ask for different types get
      different ones, whatever runs in between. */
  lemma OneInformerPerType(sections: seq<Section>, kind: Kind, more: seq<Section>, kind': Kind)
    requires AllAllowed(EMPTY, sections)
    requires AllAllowed(Apply(Run(EMPTY, sections), InformerFor(kind)).0, more)
    ensures
      var (f, a) := Apply(Run(EMPTY, sections), InformerFor(kind));
      var b := Apply(Run(f, more), InformerFor(kind')).1;
      a == b <==> kind == kind'
  {
    hide Run, AllAllowed, Inv;
    EmptyInv();
    RunKeeps(EMPTY, sections);
    var f := Run(EMPTY, sections);
    ApplyKeeps(f, InformerFor(kind));
    var f' := Apply(f, InformerFor(kind)).0;
    RunKeeps(f', more);
    AskedFor(Run(f', more), kind, kind');
  }

  lemma AskedFor(f: Factory, kind: Kind, kind': Kind)
    requires Inv(f) && kind in f.informers
    ensures Apply(f, InformerFor(kind')).1 == Informer(f.informers[kind]) <==> kind == kind'
  {
  }

  function Times(s: seq<nat>, n: nat): nat {
    multiset(s)[n]
  }

  /** In every reachable state each informer was run at most once, and exactly the started types' ones. */
  lemma LaunchedOnce(sections: seq<Section>, kind: Kind)
    requires AllAllowed(EMPTY, sections) && kind in Run(EMPTY, sections).informers
    ensures
      var f := Run(EMPTY, sections);
      Times(f.launched, f.informers[kind]) == if kind in f.started then 1 else 0
  {
    hide Run, AllAllowed;
    EmptyInv();
    RunKeeps(EMPTY, sections);
    var f := Run(EMPTY, sections);
    CountedOnce(f.launched, f.informers[kind]);
  }

  lemma {:induction false} CountedOnce(s: seq<nat>, n: nat)
    requires forall i, j | 0 <= i < j < |s| :: s[i] != s[j]
    ensures Times(s, n) == if n in s then 1 else 0
  {
    if s != [] {
      CountedOnce(s[1..], n);
      assert s == [s[0]] + s[1..];
      assert s[0] !in s[1..];
    }
  }

  /** Whatever was registered before a Start runs after it and stays running, and the order in which the map
      was visited makes no difference to what runs. */
  lemma StartRunsAll(sections: seq<Section>, order: seq<Kind>, order': seq<Kind>, more: seq<Section>)
    requires AllAllowed(EMPTY, sections)
    requires Allowed(Run(EMPTY, sections), Start(order)) && Allowed(Run(EMPTY, sections), Start(order'))
    requires AllAllowed(Apply(Run(EMPTY, sections), Start(order)).0, more)
    ensures
      var f := Run(EMPTY, sections);
      var later := Run(Apply(f, Start(order)).0, more);
      && (forall kind | kind in f.informers :: kind in later.started && f.informers[kind] in later.launched)
      && Apply(f, Start(order)).0.started == Apply(f, Start(order')).0.started == f.informers.Keys
      && forall n :: n in Apply(f, Start(order)).0.launched <==> n in Apply(f, Start(order')).0.launched
  {
    hide Run, AllAllowed, StartAll;
    EmptyInv();
    RunKeeps(EMPTY, sections);
    var f := Run(EMPTY, sections);
    StartAllKeeps(f, order);
    StartAllKeeps(f, order');
    RunKeeps(StartAll(f, order), more);
  }

  /** What a snapshot waits for are exactly the types started by then, each with the informer that callers of
      that type got and get. */
  lemma SnapshotIsStarted(sections: seq<Section>, kind: Kind)
    requires AllAllowed(EMPTY, sections)
    ensures
      var f := Run(EMPTY, sections);
      && Running(f).Keys == f.started
      && (kind in f.started ==> Apply(f, InformerFor(kind)).1 == Informer(Running(f)[kind]))
  {
    hide Run, AllAllowed;
    EmptyInv();
    RunKeeps(EMPTY, sections);
  }
}
