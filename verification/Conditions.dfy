/** pkg/api/backup/util.go: the list of a backup's conditions, searched by type and updated in place. The
    condition types are read off their use there. */
module Conditions {
  import opened Basics

  datatype Entry = Entry(kind: string, status: string, reason: string, message: string, lastTransitionTime: int)

  const BACKUP_COMPLETE := "Complete"
  const CONDITION_TRUE := "True"

  // ---- The list as a value -------------------------------------------------------------------------------

  /** The first entry of a type. */
  function Find(es: seq<Entry>, kind: string): (i: int)
    ensures -1 <= i < |es|
    ensures i == -1 ==> forall j | 0 <= j < |es| :: es[j].kind != kind
    ensures i != -1 ==> es[i].kind == kind && forall j | 0 <= j < i :: es[j].kind != kind
  {
    if es == [] then -1 else if es[0].kind == kind then 0
    else
      var i := Find(es[1..], kind);
      if i == -1 then -1 else i + 1
  }

  /** An update that arrives at time `now`. */
  datatype Update = Update(entry: Entry, now: int)

  /** What is stored for an update, given the entry of its type before it. */
  function Stored(u: Update, before: Option<Entry>): Entry {
    u.entry.(lastTransitionTime :=
      if before.Some? && before.value.status == u.entry.status then before.value.lastTransitionTime else u.now)
  }

  function Lookup(es: seq<Entry>, kind: string): Option<Entry> {
    var i := Find(es, kind);
    if i == -1 then None else Some(es[i])
  }

  function Updated(es: seq<Entry>, u: Update): seq<Entry> {
    var i := Find(es, u.entry.kind);
    if i == -1 then es + [Stored(u, None)] else es[i := Stored(u, Some(es[i]))]
  }

  // ---- The code --------------------------------------------------------------------------------------------

  /** A struct with an address: an element of the list, or a caller's own variable. */
  class Condition {
    var entry: Entry

    constructor (entry: Entry)
      ensures this.entry == entry
    {
      this.entry := entry;
    }
  }

  class BackupStatus {
    var conditions: seq<Condition>

    constructor ()
      ensures conditions == []
    {
      conditions := [];
    }

    /** The elements of the slice are different places. */
    ghost predicate Valid()
      reads this
    {
      forall i, j | 0 <= i < j < |conditions| :: conditions[i] != conditions[j]
    }

    ghost function Entries(): seq<Entry>
      reads this, conditions
    {
      seq(|conditions|, i requires 0 <= i < |conditions| reads this, conditions => conditions[i].entry)
    }
  }

  lemma FindUnique(es: seq<Entry>, kind: string, i: nat)
    requires i < |es| && es[i].kind == kind && forall j | 0 <= j < i :: es[j].kind != kind
    ensures Find(es, kind) == i
  {
  }

  /** A missing status has no conditions. */
  method GetBackupCondition(status: BackupStatus?, conditionType: string) returns (index: int, condition: Condition?)
    ensures status == null ==> index == -1
    ensures status != null ==> index == Find(status.Entries(), conditionType)
    ensures condition == null <==> index == -1
    ensures condition != null ==> 0 <= index < |status.conditions| && condition.entry.kind == conditionType
    ensures condition != null ==> condition == status.conditions[index]
  {
    if status == null {
      return -1, null;
    }
    for i := 0 to |status.conditions|
      invariant forall j | 0 <= j < i :: status.conditions[j].entry.kind != conditionType
    {
      if status.conditions[i].entry.kind == conditionType {
        FindUnique(status.Entries(), conditionType, i);
        return i, status.conditions[i];
      }
    }
    return -1, null;
  }

  /** The argument is an element of the list, at this place; or the caller's own variable. */
  ghost predicate IsAt(status: BackupStatus, condition: Condition, place: Option<nat>)
    reads status
  {
    if place.None? then condition !in status.conditions
    else place.value < |status.conditions| && status.conditions[place.value] == condition
  }

  function Put(es: seq<Entry>, place: Option<nat>, e: Entry): seq<Entry>
    requires place.Some? ==> place.value < |es|
  {
    if place.None? then es else es[place.value := e]
  }

  /** The list after an update with an argument that may be the element at `place`: its time is set first, also in
      the list, so the entry that is found may be the argument itself. */
  function UpdatedAt(es: seq<Entry>, place: Option<nat>, u: Update): (seq<Entry>, bool)
    requires place.Some? ==> place.value < |es| && es[place.value] == u.entry
  {
    var stamped := Put(es, place, u.entry.(lastTransitionTime := u.now));
    var i := Find(stamped, u.entry.kind);
    if i == -1 then (es + [Stored(u, None)], true)
    else
      var e := Stored(u, Some(stamped[i]));
      (Put(stamped, place, e)[i := e], e != stamped[i])
  }

  lemma OwnArgument(es: seq<Entry>, u: Update)
    ensures UpdatedAt(es, None, u) == (Updated(es, u), Updated(es, u) != es)
  {
    var j := Find(es, u.entry.kind);
    if j == -1 {
      assert |Updated(es, u)| == |es| + 1;
    } else {
      assert Updated(es, u)[j] == Stored(u, Some(es[j]));
      assert Stored(u, Some(es[j])) == es[j] ==> Updated(es, u) == es;
    }
  }

  lemma FirstElement(es: seq<Entry>, u: Update, i: nat)
    requires i < |es| && es[i] == u.entry && Find(es, u.entry.kind) == i
    ensures UpdatedAt(es, Some(i), u) == (es[i := u.entry.(lastTransitionTime := u.now)], false)
  {
    var stamped := es[i := u.entry.(lastTransitionTime := u.now)];
    FindUnique(stamped, u.entry.kind, i);
    assert stamped[i := stamped[i]][i := stamped[i]] == stamped;
  }

  /** The argument is the element at `i`, but not the first of its type. */
  ghost predicate UpdatesBoth(es: seq<Entry>, u: Update, i: nat)
    requires i < |es| && es[i] == u.entry
  {
    var (es', changed) := UpdatedAt(es, Some(i), u);
    var j := Find(es, u.entry.kind);
    && 0 <= j < i && |es'| == |es| && es'[j] == es'[i] == Stored(u, Some(es[j]))
    && (forall k | 0 <= k < |es| && k != i && k != j :: es'[k] == es[k])
    && (changed <==> es'[j] != es[j])
  }

  lemma LaterElement(es: seq<Entry>, u: Update, i: nat)
    requires i < |es| && es[i] == u.entry && Find(es, u.entry.kind) != i
    ensures UpdatesBoth(es, u, i)
  {
    var stamped := es[i := u.entry.(lastTransitionTime := u.now)];
    FindUnique(stamped, u.entry.kind, Find(es, u.entry.kind));
  }

  /** With an argument of the caller's own, the update is the map-like one, and the result is true exactly if the
      list changed. With an element of the list that is the entry of its type, the element's time moves on and the
      result is false. With an element that is not the first of its type, both become what is stored, nothing else
      changes, and the result is true exactly if the first one changed. */
  lemma UpdateResult(es: seq<Entry>, u: Update, i: nat)
    ensures UpdatedAt(es, None, u) == (Updated(es, u), Updated(es, u) != es)
    ensures i < |es| && es[i] == u.entry && Find(es, u.entry.kind) == i ==>
              UpdatedAt(es, Some(i), u) == (es[i := u.entry.(lastTransitionTime := u.now)], false)
    ensures i < |es| && es[i] == u.entry && Find(es, u.entry.kind) != i ==> UpdatesBoth(es, u, i)
  {
    hide UpdatedAt, Updated, UpdatesBoth, Stored;
    OwnArgument(es, u);
    if i < |es| && es[i] == u.entry {
      if Find(es, u.entry.kind) == i {
        FirstElement(es, u, i);
      } else {
        LaterElement(es, u, i);
      }
    }
  }

  method SetEntry(status: BackupStatus, condition: Condition, e: Entry, ghost place: Option<nat>)
    requires status.Valid() && IsAt(status, condition, place)
    modifies condition
    ensures condition.entry == e
    ensures status.Entries() == Put(old(status.Entries()), place, e)
  {
    ghost var before := status.Entries();
    condition.entry := e;
    assert status.Entries() == Put(before, place, e);
  }

  method Append(status: BackupStatus, e: Entry) returns (added: Condition)
    requires status.Valid()
    modifies status
    ensures status.Valid() && status.Entries() == old(status.Entries()) + [e]
    ensures fresh(added) && status.conditions == old(status.conditions) + [added]
  {
    added := new Condition(e);
    status.conditions := status.conditions + [added];
    assert status.Entries() == old(status.Entries()) + [e];
  }

  /** `now` is the time that is read from the clock. An argument of the caller's own stores a copy of itself. */
  method UpdateBackupCondition(status: BackupStatus, condition: Condition, now: int, ghost place: Option<nat>)
    returns (changed: bool)
    requires status.Valid() && IsAt(status, condition, place)
    modifies status, status.conditions, condition
    ensures status.Valid() && IsAt(status, condition, place)
    ensures (status.Entries(), changed) == UpdatedAt(old(status.Entries()), place, Update(old(condition.entry), now))
    ensures place.None? ==> condition.entry == Stored(Update(old(condition.entry), now),
                                                      Lookup(old(status.Entries()), old(condition.entry.kind)))
  {
    ghost var u := Update(condition.entry, now);
    SetEntry(status, condition, condition.entry.(lastTransitionTime := now), place);
    ghost var stamped := status.Entries();
    assert place.Some? ==> stamped[place.value].kind == condition.entry.kind;
    var conditionIndex, oldCondition := GetBackupCondition(status, condition.entry.kind);
    if oldCondition == null {
      var _ := Append(status, condition.entry);
      return true;
    }
    if condition.entry.status == oldCondition.entry.status {
      SetEntry(status, condition, condition.entry.(lastTransitionTime := oldCondition.entry.lastTransitionTime), place);
    }
    assert condition.entry == Stored(u, Some(stamped[conditionIndex]));
    assert status.Entries() == Put(stamped, place, condition.entry);
    var isEqual := && condition.entry.status == oldCondition.entry.status
                   && condition.entry.reason == oldCondition.entry.reason
                   && condition.entry.message == oldCondition.entry.message
                   && condition.entry.lastTransitionTime == oldCondition.entry.lastTransitionTime;
    SetEntry(status, oldCondition, condition.entry, Some(conditionIndex));
    return !isEqual;
  }

  method IsBackupCompleteConditionTrue(status: BackupStatus) returns (complete: bool)
    ensures complete <==> Lookup(status.Entries(), BACKUP_COMPLETE).Some?
                          && Lookup(status.Entries(), BACKUP_COMPLETE).value.status == CONDITION_TRUE
  {
    var _, condition := GetBackupCondition(status, BACKUP_COMPLETE);
    return condition != null && condition.entry.status == CONDITION_TRUE;
  }

  // ---- A history of updates ----------------------------------------------------------------------------------

  /** The list after a history of updates, the latest last. */
  function After(us: seq<Update>): seq<Entry> {
    if us == [] then [] else Updated(After(us[..|us| - 1]), us[|us| - 1])
  }

  /** The types updated, each where it was first updated. */
  function FirstSeen(us: seq<Update>): seq<string> {
    if us == [] then []
    else
      var before, kind := FirstSeen(us[..|us| - 1]), us[|us| - 1].entry.kind;
      if kind in before then before else before + [kind]
  }

  /** What a map from types to entries would hold. */
  function Current(us: seq<Update>, kind: string): Option<Entry> {
    if us == [] then None
    else
      var before, u := Current(us[..|us| - 1], kind), us[|us| - 1];
      if u.entry.kind == kind then Some(Stored(u, before)) else before
  }

  predicate OfKinds(es: seq<Entry>, kinds: seq<string>) {
    |es| == |kinds| && forall i | 0 <= i < |es| :: es[i].kind == kinds[i]
  }

  predicate NoTwice(kinds: seq<string>) {
    forall i, j | 0 <= i < j < |kinds| :: kinds[i] != kinds[j]
  }

  /** The list has one entry for each type updated so far, in the order in which the types first came. */
  lemma {:induction false} FirstOrderKept(us: seq<Update>)
    ensures OfKinds(After(us), FirstSeen(us)) && NoTwice(FirstSeen(us))
    decreases |us|
  {
    if us != [] {
      FirstOrderKept(us[..|us| - 1]);
      var kinds, kind := FirstSeen(us[..|us| - 1]), us[|us| - 1].entry.kind;
      var i := Find(After(us[..|us| - 1]), kind);
      assert i == -1 <==> kind !in kinds by {
        if kind in kinds {
          var j :| 0 <= j < |kinds| && kinds[j] == kind;
          assert After(us[..|us| - 1])[j].kind == kind;
        }
        if i != -1 {
          assert kinds[i] == kind;
        }
      }
    }
  }

  lemma LookupUpdated(es: seq<Entry>, u: Update, kind: string)
    requires forall i, j | 0 <= i < j < |es| :: es[i].kind != es[j].kind
    ensures Lookup(Updated(es, u), kind)
         == if u.entry.kind == kind then Some(Stored(u, Lookup(es, kind))) else Lookup(es, kind)
  {
    hide Stored;
    assert forall b :: Stored(u, b).kind == u.entry.kind by {
      StoredKind(u);
    }
    var es', i, k := Updated(es, u), Find(es, u.entry.kind), Find(es, kind);
    if u.entry.kind == kind {
      FindUnique(es', kind, if i == -1 then |es| else i);
    } else if k != -1 {
      FindUnique(es', kind, k);
    }
  }

  lemma StoredKind(u: Update)
    ensures forall b :: Stored(u, b).kind == u.entry.kind
  {
  }

  /** The list is a map from types to entries with its history: looking a type up gives its current entry. */
  lemma {:induction false} ListIsMap(us: seq<Update>, kind: string)
    ensures Lookup(After(us), kind) == Current(us, kind)
    decreases |us|
  {
    hide Updated, Stored;
    if us != [] {
      var init := us[..|us| - 1];
      ListIsMap(init, kind);
      FirstOrderKept(init);
      var es, kinds := After(init), FirstSeen(init);
      assert forall i, j | 0 <= i < j < |es| :: es[i].kind != es[j].kind by {
        assert forall i | 0 <= i < |es| :: es[i].kind == kinds[i];
      }
      LookupUpdated(es, us[|us| - 1], kind);
    }
  }

  /** Update number j changed the status of its type, or was the first of its type. */
  predicate Transition(us: seq<Update>, j: nat, kind: string)
    requires j < |us|
  {
    us[j].entry.kind == kind
    && var before := Current(us[..j], kind); before.None? || before.value.status != us[j].entry.status
  }

  /** The entry carries the last update's contents, and its LastTransitionTime is the time of the latest
      update that changed the status. */
  lemma {:induction false} LastTransition(us: seq<Update>, kind: string) returns (i: nat, j: nat)
    requires Current(us, kind).Some?
    ensures j <= i < |us| && us[i].entry.kind == kind && forall k | i < k < |us| :: us[k].entry.kind != kind
    ensures Current(us, kind).value == us[i].entry.(lastTransitionTime := us[j].now)
    ensures Transition(us, j, kind) && forall k | j < k < |us| :: !Transition(us, k, kind)
    decreases |us|
  {
    var n := |us| - 1;
    var init := us[..n];
    forall k | 0 <= k < n ensures Transition(us, k, kind) <==> Transition(init, k, kind) {
      assert init[..k] == us[..k];
    }
    if us[n].entry.kind != kind {
      i, j := LastTransition(init, kind);
    } else if Transition(us, n, kind) {
      i, j := n, n;
    } else {
      i, j := LastTransition(init, kind);
      i := n;
    }
  }

  predicate ClockForward(us: seq<Update>) {
    forall i, j | 0 <= i < j < |us| :: us[i].now <= us[j].now
  }

  /** While the clock does not go back, neither does any LastTransitionTime. */
  lemma {:induction false} NeverBack(us: seq<Update>, n: nat, kind: string)
    requires ClockForward(us) && n <= |us| && Current(us[..n], kind).Some?
    ensures Current(us, kind).Some?
    ensures Current(us[..n], kind).value.lastTransitionTime <= Current(us, kind).value.lastTransitionTime
    decreases |us|
  {
    if n == |us| {
      assert us[..n] == us;
    } else {
      var init := us[..|us| - 1];
      assert init[..n] == us[..n];
      NeverBack(init, n, kind);
      var i, j := LastTransition(init, kind);
      assert us[j].now <= us[|us| - 1].now;
    }
  }
}
