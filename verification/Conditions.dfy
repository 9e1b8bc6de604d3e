/**
 The Engine's status conditions: the two helpers of internal/controller/conditions.go, the four outcomes of an Engine
 reconcile that write them, and the runs of reconciles, spec changes and failed writes they go through. Setting and
 removing a condition follow `SetStatusCondition` and `RemoveStatusCondition` of k8s.io/apimachinery/pkg/api/meta.
 */
module Conditions {
  import opened Wrappers
  import opened Numerals

  datatype Kind = Ready | Progressing | Degraded

  datatype Condition = Condition(
    kind: Kind, holds: bool, reason: string, message: string, generation: int, lastTransition: int)

  // ----- One condition -----

  /** What a caller passes in; the transition time is the library's. */
  datatype Setting = Setting(kind: Kind, holds: bool, reason: string, message: string, generation: int)

  function Fresh(c: Setting, now: int): Condition { Condition(c.kind, c.holds, c.reason, c.message, c.generation, now) }

  function Updated(old_: Condition, c: Setting, now: int): Condition {
    Fresh(c, if old_.holds == c.holds then old_.lastTransition else now)
  }

  function Lookup(cs: seq<Condition>, kind: Kind): Option<Condition> {
    if cs == [] then None else if cs[0].kind == kind then Some(cs[0]) else Lookup(cs[1..], kind)
  }

  /** The list with the condition set: in place if its kind is present, else appended. */
  function WithSet(cs: seq<Condition>, c: Setting, now: int): seq<Condition> {
    if cs == [] then [Fresh(c, now)]
    else if cs[0].kind == c.kind then [Updated(cs[0], c, now)] + cs[1..]
    else [cs[0]] + WithSet(cs[1..], c, now)
  }

  function Without(cs: seq<Condition>, kind: Kind): seq<Condition> {
    if cs == [] then []
    else if cs[0].kind == kind then Without(cs[1..], kind)
    else [cs[0]] + Without(cs[1..], kind)
  }

  /** The condition says what the setting says. */
  predicate Says(x: Option<Condition>, c: Setting) {
    x.Some? && x.value.kind == c.kind && x.value.holds == c.holds && x.value.reason == c.reason
    && x.value.message == c.message && x.value.generation == c.generation
  }

  /** `i` is the place of the kind, or the end of the list without it. */
  lemma {:induction false} SetAtFirst(cs: seq<Condition>, c: Setting, now: int, i: nat)
    requires i <= |cs| && (forall j :: 0 <= j < i ==> cs[j].kind != c.kind) && (i < |cs| ==> cs[i].kind == c.kind)
    ensures WithSet(cs, c, now) == if i < |cs| then cs[i := Updated(cs[i], c, now)] else cs + [Fresh(c, now)]
    decreases i
  {
    hide Fresh, Updated;
    if i > 0 {
      SetAtFirst(cs[1..], c, now, i - 1);
    }
  }

  /** A caller's condition list, changed in place. */
  class ConditionList {
    var items: seq<Condition>

    constructor (cs: seq<Condition>)
      ensures items == cs
    {
      items := cs;
    }

    method Set(c: Setting, now: int)
      modifies this
      ensures items == WithSet(old(items), c, now)
    {
      var i := 0;
      while i < |items| && items[i].kind != c.kind
        invariant i <= |items| && items == old(items)
        invariant forall j :: 0 <= j < i ==> items[j].kind != c.kind
      {
        i := i + 1;
      }
      SetAtFirst(items, c, now, i);
      if i < |items| {
        items := items[i := Updated(items[i], c, now)];
      } else {
        items := items + [Fresh(c, now)];
      }
    }

    method Clear(kind: Kind)
      modifies this
      ensures items == Without(old(items), kind)
    {
      var kept: seq<Condition> := [];
      for i := 0 to |items|
        invariant items == old(items)
        invariant Without(items, kind) == kept + Without(items[i..], kind)
      {
        assert items[i..][1..] == items[i + 1..];
        if items[i].kind != kind {
          kept := kept + [items[i]];
        }
      }
      items := kept;
    }

    method SetDegraded(generation: int, reason: string, message: string, now: int)
      modifies this
      ensures items == WithSet(old(items), Setting(Degraded, true, reason, message, generation), now)
    {
      Set(Setting(Degraded, true, reason, message, generation), now);
    }
  }

  // ----- Lookups after a change -----

  /** The condition says what was set, its transition time moves iff it is new or its status changes, and the other kinds
      are as before. */
  lemma {:induction false} LookupAfterSet(cs: seq<Condition>, c: Setting, now: int)
    ensures Says(Lookup(WithSet(cs, c, now), c.kind), c)
    ensures var before := Lookup(cs, c.kind);
            Lookup(WithSet(cs, c, now), c.kind).value.lastTransition ==
            if before.Some? && before.value.holds == c.holds then before.value.lastTransition else now
    ensures forall k :: k != c.kind ==> Lookup(WithSet(cs, c, now), k) == Lookup(cs, k)
  {
    if cs != [] && cs[0].kind != c.kind {
      LookupAfterSet(cs[1..], c, now);
    }
  }

  lemma {:induction false} LookupAfterRemove(cs: seq<Condition>, kind: Kind)
    ensures Lookup(Without(cs, kind), kind) == None
    ensures forall k :: k != kind ==> Lookup(Without(cs, kind), k) == Lookup(cs, k)
  {
    if cs != [] {
      LookupAfterRemove(cs[1..], kind);
    }
  }

  /** Removal takes out the conditions of the kind and keeps the others in their order. */
  lemma {:induction false} RemovalIsFilter(a: seq<Condition>, c: Condition, b: seq<Condition>, kind: Kind)
    ensures Without([], kind) == []
    ensures Without(a + [c] + b, kind) == Without(a, kind) + (if c.kind == kind then [] else [c]) + Without(b, kind)
    decreases |a|
  {
    var all := a + [c] + b;
    if a == [] {
      assert all[0] == c && all[1..] == b;
    } else {
      assert all[0] == a[0] && all[1..] == a[1..] + [c] + b;
      RemovalIsFilter(a[1..], c, b, kind);
    }
  }

  /** Setting what is said already changes nothing, not even the transition time. */
  lemma {:induction false} SetAgain(cs: seq<Condition>, c: Setting, now: int)
    requires Says(Lookup(cs, c.kind), c)
    ensures WithSet(cs, c, now) == cs
  {
    if cs[0].kind == c.kind {
      assert [cs[0]] + cs[1..] == cs;
    } else {
      SetAgain(cs[1..], c, now);
    }
  }

  lemma {:induction false} RemoveAgain(cs: seq<Condition>, kind: Kind)
    requires Lookup(cs, kind) == None
    ensures Without(cs, kind) == cs
  {
    if cs != [] {
      RemoveAgain(cs[1..], kind);
    }
  }

  // ----- The outcomes of a reconcile -----

  datatype EngineStatus = EngineStatus(
    conditions: seq<Condition>, observedGeneration: int, appliedHash: string, readyReplicas: int)

  /** What an Engine reconcile found. */
  datatype Finding =
    | RuleSetMissing(message: string)
    | AwaitingCompilation(message: string)
    | CompileFailed(message: string)
    | Applied(hash: string, ready: int, desired: int)

  const DEPENDENCY_MISSING := "DependencyMissing"
  const WAITING := "WaitingForRuleSetCompilation"
  const RECONCILED := "Reconciled"
  const ROLLING_OUT := "DeploymentRollingOut"

  function ReadySetting(g: int, ready: int, desired: int): Setting {
    if ready == desired then Setting(Ready, true, RECONCILED, "engine deployment is ready", g)
    else Setting(Ready, false, ROLLING_OUT, Progress(ready, desired), g)
  }

  function ProgressingSetting(g: int, ready: int, desired: int): Setting {
    if ready == desired then Setting(Progressing, false, RECONCILED, "", g)
    else Setting(Progressing, true, ROLLING_OUT, Progress(ready, desired), g)
  }

  function DegradedSetting(g: int, ready: int, desired: int): Setting {
    Setting(Degraded, false, if ready == desired then RECONCILED else ROLLING_OUT, "", g)
  }

  function Progress(ready: int, desired: int): string { Itoa(ready) + "/" + Itoa(desired) + " replicas ready" }

  function FailedConditions(cs: seq<Condition>, g: int, message: string, now: int): seq<Condition> {
    Without(Without(WithSet(cs, Setting(Degraded, true, DEPENDENCY_MISSING, message, g), now), Ready), Progressing)
  }

  function WaitingConditions(cs: seq<Condition>, g: int, message: string, now: int): seq<Condition> {
    Without(WithSet(cs, Setting(Progressing, true, WAITING, message, g), now), Ready)
  }

  function RolloutConditions(cs: seq<Condition>, g: int, ready: int, desired: int, now: int): seq<Condition> {
    WithSet(WithSet(WithSet(cs, ReadySetting(g, ready, desired), now), ProgressingSetting(g, ready, desired), now),
            DegradedSetting(g, ready, desired), now)
  }

  /** The status a reconcile wants persisted. */
  function Wanted(s: EngineStatus, g: int, f: Finding, now: int): EngineStatus {
    match f
    case RuleSetMissing(m) => s.(conditions := FailedConditions(s.conditions, g, m, now))
    case AwaitingCompilation(m) => s.(conditions := WaitingConditions(s.conditions, g, m, now))
    case CompileFailed(m) => s.(conditions := FailedConditions(s.conditions, g, m, now))
    case Applied(hash, ready, desired) =>
      EngineStatus(RolloutConditions(s.conditions, g, ready, desired, now), g, hash, ready)
  }

  predicate SaysThis(x: Option<Condition>, holds: bool, reason: string, message: string, generation: int) {
    x.Some? && x.value.holds == holds && x.value.reason == reason && x.value.message == message
    && x.value.generation == generation
  }

  /** What a status says once the finding is persisted over `before`, in the words of the API. */
  ghost predicate Reports(after: EngineStatus, before: EngineStatus, g: int, f: Finding) {
    var (ready, progressing, degraded) :=
      (Lookup(after.conditions, Ready), Lookup(after.conditions, Progressing), Lookup(after.conditions, Degraded));
    match f
    case RuleSetMissing(m) =>
      && SaysThis(degraded, true, "DependencyMissing", m, g) && ready.None? && progressing.None?
      && after == before.(conditions := after.conditions)
    case CompileFailed(m) =>
      && SaysThis(degraded, true, "DependencyMissing", m, g) && ready.None? && progressing.None?
      && after == before.(conditions := after.conditions)
    case AwaitingCompilation(m) =>
      && SaysThis(progressing, true, "WaitingForRuleSetCompilation", m, g) && ready.None?
      && degraded == Lookup(before.conditions, Degraded)
      && after == before.(conditions := after.conditions)
    case Applied(hash, r, d) =>
      && after.appliedHash == hash && after.readyReplicas == r && after.observedGeneration == g
      && (r == d ==>
            && SaysThis(ready, true, "Reconciled", "engine deployment is ready", g)
            && SaysThis(progressing, false, "Reconciled", "", g)
            && SaysThis(degraded, false, "Reconciled", "", g))
      && (r != d ==>
            && SaysThis(ready, false, "DeploymentRollingOut", Itoa(r) + "/" + Itoa(d) + " replicas ready", g)
            && SaysThis(progressing, true, "DeploymentRollingOut", Itoa(r) + "/" + Itoa(d) + " replicas ready", g)
            && SaysThis(degraded, false, "DeploymentRollingOut", "", g))
  }

  lemma WantedReports(s: EngineStatus, g: int, f: Finding, now: int)
    ensures Reports(Wanted(s, g, f, now), s, g, f)
  {
    hide WithSet, Without, Lookup, RolloutConditions, FailedConditions, WaitingConditions, Itoa;
    match f
    case RuleSetMissing(m) => FailedSaysDegraded(s.conditions, g, m, now);
    case AwaitingCompilation(m) => WaitingSaysProgressing(s.conditions, g, m, now);
    case CompileFailed(m) => FailedSaysDegraded(s.conditions, g, m, now);
    case Applied(_, ready, desired) => RolloutSaysAll(s.conditions, g, ready, desired, now);
  }

  /** The Engine as the API server holds it. */
  class EngineObject {
    var generation: int
    var status: EngineStatus
    var writes: nat

    constructor ()
      ensures generation == 1 && status == EngineStatus([], 0, "", 0) && writes == 0
    {
      generation, status, writes := 1, EngineStatus([], 0, "", 0), 0;
    }

    /** A reconcile: work on a copy, then update unless nothing differs. `accepted` is the API server's answer. */
    method Reconcile(f: Finding, now: int, accepted: bool) returns (ok: bool)
      modifies this
      ensures generation == old(generation)
      ensures var wanted := Wanted(old(status), old(generation), f, now);
              && (writes == if wanted == old(status) then old(writes) else old(writes) + 1)
              && (ok <==> accepted || wanted == old(status))
              && (status == if accepted then wanted else old(status))
      ensures accepted ==> Reports(status, old(status), generation, f)
    {
      hide Reports;
      WantedReports(status, generation, f, now);
      var patch := status;
      var list := new ConditionList(patch.conditions);
      match f {
        case RuleSetMissing(m) =>
          list.SetDegraded(generation, DEPENDENCY_MISSING, m, now);
          list.Clear(Ready);
          list.Clear(Progressing);
        case AwaitingCompilation(m) =>
          list.Set(Setting(Progressing, true, WAITING, m, generation), now);
          list.Clear(Ready);
        case CompileFailed(m) =>
          list.SetDegraded(generation, DEPENDENCY_MISSING, m, now);
          list.Clear(Ready);
          list.Clear(Progressing);
        case Applied(hash, ready, desired) =>
          patch := EngineStatus(patch.conditions, generation, hash, ready);
          SetRollout(list, generation, ready, desired, now);
      }
      patch := patch.(conditions := list.items);
      if patch == status {
        return true;
      }
      writes := writes + 1;
      if accepted {
        status := patch;
      }
      return accepted;
    }
  }

  method SetRollout(list: ConditionList, g: int, ready: int, desired: int, now: int)
    modifies list
    ensures list.items == RolloutConditions(old(list.items), g, ready, desired, now)
  {
    if ready == desired {
      list.Set(Setting(Ready, true, RECONCILED, "engine deployment is ready", g), now);
      list.Set(Setting(Progressing, false, RECONCILED, "", g), now);
      list.Set(Setting(Degraded, false, RECONCILED, "", g), now);
      return;
    }
    var msg := Itoa(ready) + "/" + Itoa(desired) + " replicas ready";
    list.Set(Setting(Ready, false, ROLLING_OUT, msg, g), now);
    list.Set(Setting(Progressing, true, ROLLING_OUT, msg, g), now);
    list.Set(Setting(Degraded, false, ROLLING_OUT, "", g), now);
  }

  // ----- What every run keeps -----

  /** A Ready condition comes with a Progressing one that says the opposite and a Degraded one that is False, all of
      one generation. */
  predicate Coherent(cs: seq<Condition>) {
    var (r, p, d) := (Lookup(cs, Ready), Lookup(cs, Progressing), Lookup(cs, Degraded));
    r.Some? ==>
      && p.Some? && p.value.holds == !r.value.holds
      && d.Some? && !d.value.holds
      && r.value.generation == p.value.generation == d.value.generation
  }

  lemma RolloutSaysAll(cs: seq<Condition>, g: int, ready: int, desired: int, now: int)
    ensures var after := RolloutConditions(cs, g, ready, desired, now);
            && Says(Lookup(after, Ready), ReadySetting(g, ready, desired))
            && Says(Lookup(after, Progressing), ProgressingSetting(g, ready, desired))
            && Says(Lookup(after, Degraded), DegradedSetting(g, ready, desired))
  {
    hide WithSet, Lookup, Progress;
    var (r, p, d) := (ReadySetting(g, ready, desired), ProgressingSetting(g, ready, desired), DegradedSetting(g, ready, desired));
    LookupAfterSet(cs, r, now);
    LookupAfterSet(WithSet(cs, r, now), p, now);
    LookupAfterSet(WithSet(WithSet(cs, r, now), p, now), d, now);
  }

  lemma FailedSaysDegraded(cs: seq<Condition>, g: int, message: string, now: int)
    ensures var after := FailedConditions(cs, g, message, now);
            && Says(Lookup(after, Degraded), Setting(Degraded, true, DEPENDENCY_MISSING, message, g))
            && Lookup(after, Ready) == None && Lookup(after, Progressing) == None
  {
    hide WithSet, Without, Lookup;
    var c := Setting(Degraded, true, DEPENDENCY_MISSING, message, g);
    LookupAfterSet(cs, c, now);
    LookupAfterRemove(WithSet(cs, c, now), Ready);
    LookupAfterRemove(Without(WithSet(cs, c, now), Ready), Progressing);
  }

  lemma WaitingSaysProgressing(cs: seq<Condition>, g: int, message: string, now: int)
    ensures var after := WaitingConditions(cs, g, message, now);
            && Says(Lookup(after, Progressing), Setting(Progressing, true, WAITING, message, g))
            && Lookup(after, Ready) == None && Lookup(after, Degraded) == Lookup(cs, Degraded)
  {
    hide WithSet, Without, Lookup;
    var c := Setting(Progressing, true, WAITING, message, g);
    LookupAfterSet(cs, c, now);
    LookupAfterRemove(WithSet(cs, c, now), Ready);
  }

  lemma WantedIsCoherent(s: EngineStatus, g: int, f: Finding, now: int)
    ensures Coherent(Wanted(s, g, f, now).conditions)
  {
    hide WithSet, Without, Lookup, RolloutConditions, FailedConditions, WaitingConditions, Progress;
    match f
    case RuleSetMissing(m) => FailedSaysDegraded(s.conditions, g, m, now);
    case AwaitingCompilation(m) => WaitingSaysProgressing(s.conditions, g, m, now);
    case CompileFailed(m) => FailedSaysDegraded(s.conditions, g, m, now);
    case Applied(_, ready, desired) => RolloutSaysAll(s.conditions, g, ready, desired, now);
  }

  /** One reconcile of a run: the generation it sees, what it finds, and whether its write is accepted. */
  datatype Round = Round(generation: int, finding: Finding, now: int, accepted: bool)

  function AfterRounds(s: EngineStatus, rounds: seq<Round>): EngineStatus {
    if rounds == [] then s
    else
      var r := rounds[|rounds| - 1];
      var before := AfterRounds(s, rounds[..|rounds| - 1]);
      if r.accepted then Wanted(before, r.generation, r.finding, r.now) else before
  }

  /** Over every run of reconciles, with spec changes and failed writes in between, what is persisted is coherent. */
  lemma {:induction false} PersistedConditionsAreCoherent(rounds: seq<Round>)
    ensures Coherent(AfterRounds(EngineStatus([], 0, "", 0), rounds).conditions)
  {
    hide Wanted;
    if rounds != [] {
      var r := rounds[|rounds| - 1];
      PersistedConditionsAreCoherent(rounds[..|rounds| - 1]);
      WantedIsCoherent(AfterRounds(EngineStatus([], 0, "", 0), rounds[..|rounds| - 1]), r.generation, r.finding, r.now);
    }
  }

  /** A second reconcile that finds the same wants nothing new, at whatever time: it makes no status write. */
  lemma SecondReconcileWritesNothing(s: EngineStatus, g: int, f: Finding, now: int, later: int)
    ensures Wanted(Wanted(s, g, f, now), g, f, later) == Wanted(s, g, f, now)
  {
    hide WithSet, Without, Lookup, Progress;
    var cs := Wanted(s, g, f, now).conditions;
    match f
    case RuleSetMissing(m) => FailedAgain(s.conditions, g, m, now, later);
    case AwaitingCompilation(m) =>
      WaitingSaysProgressing(s.conditions, g, m, now);
      SetAgain(cs, Setting(Progressing, true, WAITING, m, g), later);
      RemoveAgain(cs, Ready);
    case CompileFailed(m) => FailedAgain(s.conditions, g, m, now, later);
    case Applied(_, ready, desired) =>
      RolloutSaysAll(s.conditions, g, ready, desired, now);
      SetAgain(cs, ReadySetting(g, ready, desired), later);
      SetAgain(cs, ProgressingSetting(g, ready, desired), later);
      SetAgain(cs, DegradedSetting(g, ready, desired), later);
  }

  lemma FailedAgain(cs: seq<Condition>, g: int, message: string, now: int, later: int)
    ensures var after := FailedConditions(cs, g, message, now);
            FailedConditions(after, g, message, later) == after
  {
    hide WithSet, Without, Lookup;
    var after := FailedConditions(cs, g, message, now);
    FailedSaysDegraded(cs, g, message, now);
    SetAgain(after, Setting(Degraded, true, DEPENDENCY_MISSING, message, g), later);
    RemoveAgain(after, Ready);
    RemoveAgain(after, Progressing);
  }
}
