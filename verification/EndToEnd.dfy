/**
 The whole pipeline for one engine: reconcilers, store, stream and engine move in any interleaving. A publication of
 either reconciler is the step in which the store accepts or drops it.
 */
module EndToEnd {
  import opened Wrappers
  import Ctl = Controllers
  import Store
  import StoreProperties
  import Del = Delivery
  import opened BundleHandler
  import opened Compiler
  import opened Text

  datatype Pipeline = Pipeline(ctrl: Ctl.Ctrl, net: Del.System)

  datatype Tick =
    | Control(action: Ctl.Action)
    | Network(move: Del.Move)

  predicate Publishes(a: Ctl.Action) { a.RsPublish? || a.EngPublish? }

  /** Nobody but the two reconcilers publishes to the engine's key. */
  predicate OthersPublish(k: Store.EngineKey, m: Del.Move) {
    m.StoreMove? && (m.event.BeginPublish? || m.event.BeginPublishIfChanged?) ==> m.event.key != k
  }

  /** The bundle a publishing reconciler passes to the store. */
  function Offered(x: Ctl.Ctrl, a: Ctl.Action): Store.Bundle
    requires a.RsPublish? ==> x.rs.RsAnnounced?
    requires a.EngPublish? ==> x.eng.EngCompiled?
    requires Publishes(a)
  {
    if a.RsPublish? then Ctl.ToPublish(x, x.rs.bundle, a.at) else Ctl.ToPublish(x, x.eng.bundle, a.at)
  }

  ghost function OfferMove(x: Ctl.Ctrl, k: Store.EngineKey, a: Ctl.Action): Del.Move
    requires Ctl.Possible(x, a) && Publishes(a)
  {
    Del.StoreMove(Store.BeginPublishIfChanged(k, Offered(x, a)))
  }

  ghost predicate CanTick(p: Pipeline, k: Store.EngineKey, t: Tick) {
    match t
    case Control(a) =>
      Ctl.Possible(p.ctrl, a) && (Publishes(a) ==> Del.CanMove(p.net, k, OfferMove(p.ctrl, k, a)))
    case Network(m) => Del.CanMove(p.net, k, m) && OthersPublish(k, m)
  }

  ghost function TickOf(
    p: Pipeline, k: Store.EngineKey, t: Tick, sha: string -> string, parses: string -> bool): Pipeline
    requires CanTick(p, k, t)
  {
    match t
    case Control(a) =>
      Pipeline(Ctl.Act(p.ctrl, a, sha),
               if Publishes(a) then Del.MoveOf(p.net, k, OfferMove(p.ctrl, k, a), parses) else p.net)
    case Network(m) => p.(net := Del.MoveOf(p.net, k, m, parses))
  }

  ghost predicate CanTickAll(
    p: Pipeline, k: Store.EngineKey, ts: seq<Tick>, sha: string -> string, parses: string -> bool)
    decreases |ts|
  {
    ts == [] || (CanTick(p, k, ts[0]) && CanTickAll(TickOf(p, k, ts[0], sha, parses), k, ts[1..], sha, parses))
  }

  ghost function TickAll(
    p: Pipeline, k: Store.EngineKey, ts: seq<Tick>, sha: string -> string, parses: string -> bool): Pipeline
    requires CanTickAll(p, k, ts, sha, parses)
    decreases |ts|
  {
    if ts == [] then p else TickAll(TickOf(p, k, ts[0], sha, parses), k, ts[1..], sha, parses)
  }

  ghost predicate Heeded(p: Pipeline, t: Tick, sha: string -> string) {
    t.Control? ==> Ctl.Heeded(p.ctrl, t.action, sha)
  }

  /** Every change of the run wakes the reconciler it concerns, or need not. */
  ghost predicate AllHeeded(
    p: Pipeline, k: Store.EngineKey, ts: seq<Tick>, sha: string -> string, parses: string -> bool)
    requires CanTickAll(p, k, ts, sha, parses)
    decreases |ts|
  {
    ts == [] || (Heeded(p, ts[0], sha) && AllHeeded(TickOf(p, k, ts[0], sha, parses), k, ts[1..], sha, parses))
  }

  /** The reconcilers' view of the store entry is the entry. */
  ghost predicate Linked(p: Pipeline, k: Store.EngineKey) {
    p.ctrl.stored == if k in p.net.store.bundles then Some(p.net.store.bundles[k]) else None
  }

  ghost predicate PipelineInv(p: Pipeline, k: Store.EngineKey, sha: string -> string, parses: string -> bool) {
    Ctl.CtrlInv(p.ctrl, sha) && Del.SystemInv(p.net, k, parses) && Linked(p, k)
  }

  lemma NetworkMoveKeepsEntry(y: Del.System, k: Store.EngineKey, m: Del.Move, parses: string -> bool)
    requires Del.CanMove(y, k, m) && OthersPublish(k, m)
    ensures var z := Del.MoveOf(y, k, m, parses);
            && (k in z.store.bundles <==> k in y.store.bundles)
            && (k in y.store.bundles ==> z.store.bundles[k] == y.store.bundles[k])
  {
    hide Store.Published, Store.Subscribers, Store.Unchanged, Del.Swapped;
  }

  lemma OtherActionsKeepEntry(x: Ctl.Ctrl, a: Ctl.Action, sha: string -> string)
    requires Ctl.Possible(x, a) && !Publishes(a)
    ensures Ctl.Act(x, a, sha).stored == x.stored
  {
  }

  lemma PublicationMeetsGate(
    p: Pipeline, k: Store.EngineKey, a: Ctl.Action, sha: string -> string, parses: string -> bool)
    requires CanTick(p, k, Control(a)) && Publishes(a) && Linked(p, k)
    ensures Linked(TickOf(p, k, Control(a), sha, parses), k)
  {
  }

  lemma TickKeepsInv(p: Pipeline, k: Store.EngineKey, t: Tick, sha: string -> string, parses: string -> bool)
    requires PipelineInv(p, k, sha, parses) && CanTick(p, k, t) && Heeded(p, t, sha) && Ctl.GoodDigest(sha)
    ensures PipelineInv(TickOf(p, k, t, sha, parses), k, sha, parses)
  {
    hide Ctl.CtrlInv, Del.SystemInv, Ctl.Possible, Ctl.Act, Ctl.Heeded, Ctl.GoodDigest, Del.CanMove, Del.MoveOf, Offered;
    match t {
      case Control(a) =>
        Ctl.ActKeepsInv(p.ctrl, a, sha);
        if Publishes(a) {
          Del.MoveKeepsInv(p.net, k, OfferMove(p.ctrl, k, a), parses);
          PublicationMeetsGate(p, k, a, sha, parses);
        } else {
          OtherActionsKeepEntry(p.ctrl, a, sha);
        }
      case Network(m) =>
        Del.MoveKeepsInv(p.net, k, m, parses);
        NetworkMoveKeepsEntry(p.net, k, m, parses);
    }
  }

  lemma {:induction false} TickAllKeepsInv(
    p: Pipeline, k: Store.EngineKey, ts: seq<Tick>, sha: string -> string, parses: string -> bool)
    requires PipelineInv(p, k, sha, parses) && CanTickAll(p, k, ts, sha, parses)
    requires AllHeeded(p, k, ts, sha, parses) && Ctl.GoodDigest(sha)
    ensures PipelineInv(TickAll(p, k, ts, sha, parses), k, sha, parses)
    decreases |ts|
  {
    hide PipelineInv, CanTick, TickOf, Heeded, Ctl.GoodDigest;
    if ts != [] {
      TickKeepsInv(p, k, ts[0], sha, parses);
      TickAllKeepsInv(TickOf(p, k, ts[0], sha, parses), k, ts[1..], sha, parses);
    }
  }

  lemma FreshPipeline(x: Ctl.Ctrl, k: Store.EngineKey, sha: string -> string, parses: string -> bool)
    requires Ctl.Fresh(x)
    ensures PipelineInv(Pipeline(x, Del.DISCONNECTED), k, sha, parses)
  {
    Ctl.FreshIsOnCourse(x, sha);
    hide Ctl.CtrlInv;
  }

  // ----- What the engine's handler makes of the applied bundles -----

  function AsReceived(ms: seq<Store.Message>): seq<Received> {
    if ms == [] then []
    else
      var b := ms[|ms| - 1].bundle;
      AsReceived(ms[..|ms| - 1]) + [Received(b.ruleSetName, b.sha256, b.compiled)]
  }

  /** The handler's fold over the applied bundles runs the one that Delivery calls active; with none it is as it was,
      but for the failure counter. */
  lemma {:induction false} HandlerRunsActive(v: View, ms: seq<Store.Message>, parses: string -> bool)
    ensures var w := HandledAll(v, AsReceived(ms), parses);
            match Del.LastParsing(ms, parses)
            case Some(m) =>
              && w.seclang == m.bundle.compiled && w.sha256 == m.bundle.sha256
              && w.ruleSetName == m.bundle.ruleSetName && w.ruleCount == DirectiveCount(Lines(m.bundle.compiled))
            case None => w == v.(failures := v.failures + |ms|)
  {
    hide DirectiveCount, Lines;
    if ms != [] {
      var n := |ms| - 1;
      HandlerRunsActive(v, ms[..n], parses);
      assert AsReceived(ms)[..|AsReceived(ms)| - 1] == AsReceived(ms[..n]);
    }
  }

  // ----- The main theorem -----

  /** The text that the RuleSet's sources compile to, as they are now. */
  ghost function Wanted(p: Pipeline, sha: string -> string): Option<string> {
    match Ctl.Desired(p.ctrl, sha)
    case Some(b) => Some(b.compiled)
    case None => None
  }

  /** The engine runs this text: it is active, and any handler that was given the applied bundles has swapped it in. */
  ghost predicate Runs(p: Pipeline, text: string, parses: string -> bool) {
    && p.net.active.Some? && p.net.active.value.bundle.compiled == text
    && forall v: View :: HandledAll(v, AsReceived(p.net.applied), parses).seclang == text
  }

  /** Whatever happened before, provided changes were heeded: once no reconcile is queued or in flight and the connected
      engine is at rest, the store serves the compiled form of the sources as they are now. The engine has been handed
      the newest publication exactly when its subscription is not starved, and then runs that form, if it parses. */
  lemma EngineRunsItsRuleSet(
    x: Ctl.Ctrl, k: Store.EngineKey, ts: seq<Tick>, sha: string -> string, parses: string -> bool)
    requires Ctl.Fresh(x) && Ctl.GoodDigest(sha)
    requires CanTickAll(Pipeline(x, Del.DISCONNECTED), k, ts, sha, parses)
    requires AllHeeded(Pipeline(x, Del.DISCONNECTED), k, ts, sha, parses)
    requires var p := TickAll(Pipeline(x, Del.DISCONNECTED), k, ts, sha, parses);
             Ctl.Quiet(p.ctrl) && Del.AtRest(p.net) && Wanted(p, sha).Some?
    ensures var p := TickAll(Pipeline(x, Del.DISCONNECTED), k, ts, sha, parses);
            && k in p.net.store.bundles && p.net.store.bundles[k].compiled == Wanted(p, sha).value
            && p.net.store.bundles[k].ruleSetName == p.ctrl.ruleSet
            && p.net.store.bundles[k].sha256 == sha(Wanted(p, sha).value)
            && (!Del.Starved(p.net) <==> Del.HasLatest(p.net, k))
            && (!Del.Starved(p.net) && parses(Wanted(p, sha).value) ==> Runs(p, Wanted(p, sha).value, parses))
  {
    FreshPipeline(x, k, sha, parses);
    TickAllKeepsInv(Pipeline(x, Del.DISCONNECTED), k, ts, sha, parses);
    AtRestRuns(TickAll(Pipeline(x, Del.DISCONNECTED), k, ts, sha, parses), k, sha, parses);
  }

  lemma AtRestRuns(p: Pipeline, k: Store.EngineKey, sha: string -> string, parses: string -> bool)
    requires PipelineInv(p, k, sha, parses) && Ctl.Quiet(p.ctrl) && Del.AtRest(p.net) && Wanted(p, sha).Some?
    ensures k in p.net.store.bundles && p.net.store.bundles[k].compiled == Wanted(p, sha).value
    ensures p.net.store.bundles[k].ruleSetName == p.ctrl.ruleSet
    ensures p.net.store.bundles[k].sha256 == sha(Wanted(p, sha).value)
    ensures !Del.Starved(p.net) <==> Del.HasLatest(p.net, k)
    ensures !Del.Starved(p.net) && parses(Wanted(p, sha).value) ==> Runs(p, Wanted(p, sha).value, parses)
  {
    hide Ctl.Desired, Ctl.OnCourse, Del.SystemInv, Del.HasLatest, Del.AtRest, Del.Starved, Runs;
    Ctl.QuietServes(p.ctrl, sha);
    Del.RestLatestIffNotStarved(p.net, k, parses);
    if !Del.Starved(p.net) && parses(Wanted(p, sha).value) {
      Del.SettledOrStarved(p.net, k, parses);
      SettledRuns(p, k, parses);
    }
  }

  lemma SettledRuns(p: Pipeline, k: Store.EngineKey, parses: string -> bool)
    requires Del.SystemInv(p.net, k, parses) && Del.Settled(p.net)
    requires k in p.net.store.bundles && parses(p.net.store.bundles[k].compiled)
    ensures Runs(p, p.net.store.bundles[k].compiled, parses)
  {
    Del.SettledHasCurrent(p.net, k, parses);
    forall v: View ensures HandledAll(v, AsReceived(p.net.applied), parses).seclang == p.net.store.bundles[k].compiled {
      HandlerRunsActive(v, p.net.applied, parses);
    }
  }

  // ----- What every run keeps, heeded or not -----

  ghost predicate Sound(p: Pipeline, k: Store.EngineKey, parses: string -> bool) {
    Del.SystemInv(p.net, k, parses) && Ctl.ReadsInBounds(p.ctrl)
  }

  lemma TickKeepsSound(p: Pipeline, k: Store.EngineKey, t: Tick, sha: string -> string, parses: string -> bool)
    requires Sound(p, k, parses) && CanTick(p, k, t)
    ensures Sound(TickOf(p, k, t, sha, parses), k, parses)
  {
    hide Del.SystemInv, Ctl.ReadsInBounds, Ctl.Possible, Ctl.Act, Del.CanMove, Del.MoveOf, Offered;
    match t {
      case Control(a) =>
        Ctl.StepReadsInBounds(p.ctrl, a, sha);
        if Publishes(a) {
          Del.MoveKeepsInv(p.net, k, OfferMove(p.ctrl, k, a), parses);
        }
      case Network(m) => Del.MoveKeepsInv(p.net, k, m, parses);
    }
  }

  lemma {:induction false} TickAllKeepsSound(
    p: Pipeline, k: Store.EngineKey, ts: seq<Tick>, sha: string -> string, parses: string -> bool)
    requires Sound(p, k, parses) && CanTickAll(p, k, ts, sha, parses)
    ensures Sound(TickAll(p, k, ts, sha, parses), k, parses)
    decreases |ts|
  {
    hide Sound, CanTick, TickOf;
    if ts != [] {
      TickKeepsSound(p, k, ts[0], sha, parses);
      TickAllKeepsSound(TickOf(p, k, ts[0], sha, parses), k, ts[1..], sha, parses);
    }
  }

  lemma AnyRunIsSound(
    x: Ctl.Ctrl, k: Store.EngineKey, ts: seq<Tick>, sha: string -> string, parses: string -> bool)
    requires Ctl.Fresh(x) && CanTickAll(Pipeline(x, Del.DISCONNECTED), k, ts, sha, parses)
    ensures Sound(TickAll(Pipeline(x, Del.DISCONNECTED), k, ts, sha, parses), k, parses)
  {
    FreshPipeline(x, k, sha, parses);
    hide CanTickAll, TickAll;
    TickAllKeepsSound(Pipeline(x, Del.DISCONNECTED), k, ts, sha, parses);
  }

  function PublishedTo(p: Pipeline, k: Store.EngineKey): seq<Store.Bundle> { Store.Published(p.net.store, k) }

  /** Only a reconciler's publication adds to what was published to the key, and it starts a fan-out. */
  lemma TickPublishes(p: Pipeline, k: Store.EngineKey, t: Tick, sha: string -> string, parses: string -> bool)
    requires CanTick(p, k, t)
    ensures var q := TickOf(p, k, t, sha, parses);
            && PublishedTo(p, k) <= PublishedTo(q, k)
            && (PublishedTo(q, k) != PublishedTo(p, k) ==>
                  && t.Control? && Publishes(t.action)
                  && q.net == p.net.(store := q.net.store) && q.net.store.subs == p.net.store.subs
                  && q.net.store.mu.FanOut? && q.net.store.mu.rest == Store.Subscribers(p.net.store, k))
  {
    hide Ctl.Act, Ctl.Possible, Offered, Store.Subscribers, Store.Apply, Store.Enabled, Store.Published, Del.Swapped;
    var moved := t.Network? || Publishes(t.action);
    if moved {
      MovePublishes(p.net, k, if t.Network? then t.move else OfferMove(p.ctrl, k, t.action), parses);
    }
  }

  lemma MovePublishes(y: Del.System, k: Store.EngineKey, m: Del.Move, parses: string -> bool)
    requires Del.CanMove(y, k, m)
    ensures var z := Del.MoveOf(y, k, m, parses);
            && Store.Published(y.store, k) <= Store.Published(z.store, k)
            && (Store.Published(z.store, k) != Store.Published(y.store, k) ==>
                  && m.StoreMove? && (m.event.BeginPublish? || m.event.BeginPublishIfChanged?) && m.event.key == k
                  && z == y.(store := z.store) && z.store.subs == y.store.subs
                  && z.store.mu.FanOut? && z.store.mu.rest == Store.Subscribers(y.store, k))
  {
    hide Store.Subscribers, Store.Apply, Store.Enabled, Store.Published, Del.Swapped;
    if m.StoreMove? || m.Connect? || m.Forward? {
      var e := if m.StoreMove? then m.event else if m.Connect? then Store.Register(m.id, k) else Store.Receive(y.conn.value);
      StoreProperties.PublicationOfStep(y.store, e, k);
      if Store.Published(Store.Apply(y.store, e), k) != Store.Published(y.store, k) {
        StoreProperties.OnlyAcceptancePublishes(y.store, e, k);
      }
    }
  }

  lemma {:induction false} PublishedOnlyGrows(
    p: Pipeline, k: Store.EngineKey, ts: seq<Tick>, sha: string -> string, parses: string -> bool)
    requires CanTickAll(p, k, ts, sha, parses)
    ensures PublishedTo(p, k) <= PublishedTo(TickAll(p, k, ts, sha, parses), k)
    decreases |ts|
  {
    hide CanTick, TickOf, PublishedTo;
    if ts != [] {
      TickPublishes(p, k, ts[0], sha, parses);
      PublishedOnlyGrows(TickOf(p, k, ts[0], sha, parses), k, ts[1..], sha, parses);
    }
  }

  // ----- Runs in which nothing goes wrong -----

  /** A step in which nobody edits, no API call fails and no stream breaks. */
  predicate Helps(t: Tick) { if t.Control? then Ctl.Works(t.action) else !t.move.Break? }

  ghost predicate LeadsTo(p: Pipeline, q: Pipeline, k: Store.EngineKey, sha: string -> string, parses: string -> bool) {
    exists ts :: CanTickAll(p, k, ts, sha, parses) && AllHeeded(p, k, ts, sha, parses)
                 && TickAll(p, k, ts, sha, parses) == q && forall i :: 0 <= i < |ts| ==> Helps(ts[i])
  }

  lemma LeadsToItself(p: Pipeline, k: Store.EngineKey, sha: string -> string, parses: string -> bool)
    ensures LeadsTo(p, p, k, sha, parses)
  {
    assert CanTickAll(p, k, [], sha, parses) && AllHeeded(p, k, [], sha, parses) && TickAll(p, k, [], sha, parses) == p;
  }

  lemma LeadsByOne(p: Pipeline, t: Tick, q: Pipeline, k: Store.EngineKey, sha: string -> string, parses: string -> bool)
    requires CanTick(p, k, t) && Heeded(p, t, sha) && Helps(t)
    requires LeadsTo(TickOf(p, k, t, sha, parses), q, k, sha, parses)
    ensures LeadsTo(p, q, k, sha, parses)
  {
    hide CanTick, TickOf, Heeded, Helps;
    var next := TickOf(p, k, t, sha, parses);
    var rest :| CanTickAll(next, k, rest, sha, parses) && AllHeeded(next, k, rest, sha, parses)
                && TickAll(next, k, rest, sha, parses) == q && forall i :: 0 <= i < |rest| ==> Helps(rest[i]);
    var ts := [t] + rest;
    assert ts[1..] == rest;
    assert CanTickAll(p, k, ts, sha, parses) && AllHeeded(p, k, ts, sha, parses) && TickAll(p, k, ts, sha, parses) == q;
    assert forall i :: 0 <= i < |ts| ==> Helps(ts[i]);
  }

  lemma LeadsByMove(
    p: Pipeline, m: Del.Move, q: Pipeline, k: Store.EngineKey, sha: string -> string, parses: string -> bool)
    requires Del.CanMove(p.net, k, m) && OthersPublish(k, m) && !m.Break?
    requires LeadsTo(p.(net := Del.MoveOf(p.net, k, m, parses)), q, k, sha, parses)
    ensures LeadsTo(p, q, k, sha, parses)
  {
    hide LeadsTo, Del.CanMove, Del.MoveOf;
    LeadsByOne(p, Network(m), q, k, sha, parses);
  }

  lemma {:induction false} LeadsOn(
    p: Pipeline, ts: seq<Tick>, q: Pipeline, k: Store.EngineKey, sha: string -> string, parses: string -> bool)
    requires CanTickAll(p, k, ts, sha, parses) && AllHeeded(p, k, ts, sha, parses)
    requires forall i :: 0 <= i < |ts| ==> Helps(ts[i])
    requires LeadsTo(TickAll(p, k, ts, sha, parses), q, k, sha, parses)
    ensures LeadsTo(p, q, k, sha, parses)
    decreases |ts|
  {
    hide LeadsTo, CanTick, TickOf, Heeded, Helps;
    if ts != [] {
      LeadsOn(TickOf(p, k, ts[0], sha, parses), ts[1..], q, k, sha, parses);
      LeadsByOne(p, ts[0], q, k, sha, parses);
    }
  }

  lemma LeadsVia(
    p: Pipeline, mid: Pipeline, q: Pipeline, k: Store.EngineKey, sha: string -> string, parses: string -> bool)
    requires LeadsTo(p, mid, k, sha, parses) && LeadsTo(mid, q, k, sha, parses)
    ensures LeadsTo(p, q, k, sha, parses)
  {
    hide CanTick, TickOf, Heeded, Helps;
    var ts :| CanTickAll(p, k, ts, sha, parses) && AllHeeded(p, k, ts, sha, parses)
              && TickAll(p, k, ts, sha, parses) == mid && forall i :: 0 <= i < |ts| ==> Helps(ts[i]);
    LeadsOn(p, ts, q, k, sha, parses);
  }

  lemma LeadsKeepsInv(p: Pipeline, q: Pipeline, k: Store.EngineKey, sha: string -> string, parses: string -> bool)
    requires PipelineInv(p, k, sha, parses) && LeadsTo(p, q, k, sha, parses) && Ctl.GoodDigest(sha)
    ensures PipelineInv(q, k, sha, parses) && PublishedTo(p, k) <= PublishedTo(q, k)
  {
    hide CanTick, TickOf, Heeded, Helps, PipelineInv, PublishedTo, Ctl.GoodDigest;
    var ts :| CanTickAll(p, k, ts, sha, parses) && AllHeeded(p, k, ts, sha, parses) && TickAll(p, k, ts, sha, parses) == q;
    TickAllKeepsInv(p, k, ts, sha, parses);
    PublishedOnlyGrows(p, k, ts, sha, parses);
  }

  // ----- Finishing all work, with or without an open stream -----

  /** The next step towards a free mutex; what the open stream's handler receives goes on the wire. */
  ghost function ReleaseMove(y: Del.System): Del.Move
    requires !y.store.mu.Free?
  {
    var e := StoreProperties.Releasing(y.store);
    if e.Receive? && y.conn == Some(e.id) then Del.Forward else Del.StoreMove(e)
  }

  lemma ReleaseMoveStep(y: Del.System, k: Store.EngineKey, parses: string -> bool)
    requires Store.Inv(y.store) && !y.store.mu.Free? && !StoreProperties.Deadlocked(y.store)
    ensures var m := ReleaseMove(y);
            && Del.CanMove(y, k, m) && OthersPublish(k, m) && !m.Break?
            && var z := Del.MoveOf(y, k, m, parses);
            && Store.Enabled(y.store, StoreProperties.Releasing(y.store))
            && z.store == Store.Apply(y.store, StoreProperties.Releasing(y.store))
            && z.conn == y.conn && StoreProperties.Nearer(y.store, z.store)
  {
    hide Store.Inv, Store.Apply, StoreProperties.Deadlocked, StoreProperties.Nearer, StoreProperties.Releasing;
    StoreProperties.ReleasingStep(y.store);
  }

  /** The stream's `Subscribe`, if one is open, has sent its initial bundle. */
  predicate Sent(y: Del.System) {
    y.conn.Some? ==> y.conn.value in y.store.subs && y.store.subs[y.conn.value].initial.None?
  }

  /** The reconcilers and the store can finish all their work, short of a deadlock. */
  lemma {:induction false} Drains(
    p: Pipeline, k: Store.EngineKey, sha: string -> string, parses: string -> bool) returns (q: Pipeline)
    requires Sound(p, k, parses) && !StoreProperties.Deadlocked(p.net.store)
    ensures LeadsTo(p, q, k, sha, parses) && Sound(q, k, parses) && Ctl.Quiet(q.ctrl)
    ensures q.net.store.mu.Free? && q.net.conn == p.net.conn && (Sent(p.net) ==> Sent(q.net))
    ensures q.ctrl.ns == p.ctrl.ns && q.ctrl.rules == p.ctrl.rules && q.ctrl.refs == p.ctrl.refs
    decreases Ctl.RuleSetLeft(p.ctrl), Ctl.EngineLeft(p.ctrl), StoreProperties.ToGo(p.net.store)
  {
    hide LeadsTo, Sound, CanTick, TickOf, Sent, Ctl.Quiet, Ctl.RuleSetLeft, Ctl.EngineLeft, Ctl.Scheduled, Heeded, Helps,
         StoreProperties.ToGo, StoreProperties.Deadlocked;
    if !p.net.store.mu.Free? {
      ReleaseTick(p, k, sha, parses);
      var t := Network(ReleaseMove(p.net));
      q := Drains(TickOf(p, k, t, sha, parses), k, sha, parses);
      LeadsByOne(p, t, q, k, sha, parses);
    } else if Ctl.Quiet(p.ctrl) {
      q := p;
      LeadsToItself(p, k, sha, parses);
    } else {
      var t := Control(Ctl.Scheduled(p.ctrl));
      ScheduledTick(p, k, sha, parses);
      q := Drains(TickOf(p, k, t, sha, parses), k, sha, parses);
      LeadsByOne(p, t, q, k, sha, parses);
    }
  }

  lemma ReleaseTick(p: Pipeline, k: Store.EngineKey, sha: string -> string, parses: string -> bool)
    requires Sound(p, k, parses) && !p.net.store.mu.Free? && !StoreProperties.Deadlocked(p.net.store)
    ensures var t := Network(ReleaseMove(p.net));
            && CanTick(p, k, t) && Heeded(p, t, sha) && Helps(t)
            && var q := TickOf(p, k, t, sha, parses);
            && Sound(q, k, parses) && !StoreProperties.Deadlocked(q.net.store)
            && q.net.conn == p.net.conn && (Sent(p.net) ==> Sent(q.net)) && q.ctrl == p.ctrl
            && StoreProperties.ToGo(q.net.store) < StoreProperties.ToGo(p.net.store)
  {
    assert Store.Inv(p.net.store);
    hide Sound, Store.Inv, Store.Apply, Store.Enabled, Del.CanMove, Del.MoveOf, ReleaseMove, StoreProperties.Deadlocked,
         StoreProperties.Releasing, StoreProperties.ToGo;
    ReleaseMoveStep(p.net, k, parses);
    TickKeepsSound(p, k, Network(ReleaseMove(p.net)), sha, parses);
    if p.net.conn.Some? && Sent(p.net) {
      StoreProperties.InitialStaysSent(p.net.store, StoreProperties.Releasing(p.net.store), p.net.conn.value);
    }
  }

  lemma ScheduledTick(p: Pipeline, k: Store.EngineKey, sha: string -> string, parses: string -> bool)
    requires Sound(p, k, parses) && p.net.store.mu.Free? && !Ctl.Quiet(p.ctrl)
    ensures var t := Control(Ctl.Scheduled(p.ctrl));
            && CanTick(p, k, t) && Heeded(p, t, sha) && Helps(t) && Ctl.Wakes(p.ctrl, t.action)
            && var q := TickOf(p, k, t, sha, parses);
            && Sound(q, k, parses) && !StoreProperties.Deadlocked(q.net.store)
            && q.net.conn == p.net.conn && (Sent(p.net) ==> Sent(q.net))
            && q.ctrl.ns == p.ctrl.ns && q.ctrl.rules == p.ctrl.rules && q.ctrl.refs == p.ctrl.refs
            && (|| Ctl.RuleSetLeft(q.ctrl) < Ctl.RuleSetLeft(p.ctrl)
                || (&& Ctl.RuleSetLeft(q.ctrl) == Ctl.RuleSetLeft(p.ctrl)
                    && Ctl.EngineLeft(q.ctrl) < Ctl.EngineLeft(p.ctrl)))
  {
    assert Ctl.ReadsInBounds(p.ctrl);
    hide Sound, Sent, Ctl.ReadsInBounds, Ctl.RuleSetLeft, Ctl.EngineLeft, Ctl.Quiet, Ctl.Act, Ctl.Possible, Ctl.Heeded,
         Ctl.Works, Ctl.Scheduled, OfferMove, Del.CanMove, Del.MoveOf, StoreProperties.Deadlocked;
    var a := Ctl.Scheduled(p.ctrl);
    Ctl.ScheduledWorks(p.ctrl, sha);
    Ctl.ScheduledLeavesLess(p.ctrl, sha);
    Ctl.WorkingKeepsObjects(p.ctrl, a, sha);
    NotDeadlockedWhenFree(p.net.store);
    if Publishes(a) {
      OfferedToFreeStore(p, k, a, parses);
    }
    TickKeepsSound(p, k, Control(a), sha, parses);
  }

  lemma NotDeadlockedWhenFree(s: Store.State)
    requires s.mu.Free?
    ensures !StoreProperties.Deadlocked(s)
  {
  }

  lemma OfferedToFreeStore(p: Pipeline, k: Store.EngineKey, a: Ctl.Action, parses: string -> bool)
    requires Ctl.Possible(p.ctrl, a) && Publishes(a) && p.net.store.mu.Free?
    ensures Del.CanMove(p.net, k, OfferMove(p.ctrl, k, a))
    ensures var y := Del.MoveOf(p.net, k, OfferMove(p.ctrl, k, a), parses);
            y.conn == p.net.conn && (Sent(p.net) ==> Sent(y)) && !StoreProperties.Deadlocked(y.store)
  {
    hide Ctl.Possible, Offered, Store.Subscribers, Store.Published;
  }

  /** The initial bundle of an open stream can go out first: now, or once the fan-out under way has made room for it. */
  lemma {:induction false} SendsFirst(
    p: Pipeline, k: Store.EngineKey, sha: string -> string, parses: string -> bool) returns (q: Pipeline)
    requires Sound(p, k, parses) && !StoreProperties.Deadlocked(p.net.store) && p.net.conn.Some?
    requires Del.Starved(p.net) ==> Store.Awaits(p.net.store, p.net.conn.value)
    ensures LeadsTo(p, q, k, sha, parses) && Sound(q, k, parses) && !StoreProperties.Deadlocked(q.net.store)
    ensures q.ctrl == p.ctrl && q.net.conn == p.net.conn && Sent(q.net)
    decreases StoreProperties.ToGo(p.net.store)
  {
    hide LeadsTo, Sound, CanTick, TickOf, Heeded, Helps, Store.Awaits, StoreProperties.ToGo, StoreProperties.Deadlocked,
         ReleaseMove;
    var id := p.net.conn.value;
    StreamIsServed(p, k, parses);
    if p.net.store.subs[id].initial.None? {
      q := p;
      LeadsToItself(p, k, sha, parses);
    } else if p.net.store.subs[id].slot.None? {
      q := SendsNow(p, k, id, sha, parses);
    } else {
      ReleaseReaches(p, k, id, sha, parses);
      var t := Network(ReleaseMove(p.net));
      q := SendsFirst(TickOf(p, k, t, sha, parses), k, sha, parses);
      LeadsByOne(p, t, q, k, sha, parses);
    }
  }

  lemma StreamIsServed(p: Pipeline, k: Store.EngineKey, parses: string -> bool)
    requires Sound(p, k, parses) && p.net.conn.Some?
    ensures p.net.conn.value in p.net.store.subs && !p.net.store.subs[p.net.conn.value].left
  {
  }

  lemma SendsNow(
    p: Pipeline, k: Store.EngineKey, id: nat, sha: string -> string, parses: string -> bool) returns (q: Pipeline)
    requires Sound(p, k, parses) && !StoreProperties.Deadlocked(p.net.store) && p.net.conn == Some(id)
    requires Store.Enabled(p.net.store, Store.SendInitial(id)) && !p.net.store.subs[id].left
    ensures LeadsTo(p, q, k, sha, parses) && Sound(q, k, parses) && !StoreProperties.Deadlocked(q.net.store)
    ensures q.ctrl == p.ctrl && q.net.conn == p.net.conn && Sent(q.net)
  {
    hide LeadsTo, Sound, Store.Apply, StoreProperties.Deadlocked;
    var m := Del.StoreMove(Store.SendInitial(id));
    q := p.(net := Del.MoveOf(p.net, k, m, parses));
    StoreProperties.SendInitialIsSafe(p.net.store, id);
    TickKeepsSound(p, k, Network(m), sha, parses);
    SentBySending(p.net.store, id);
    LeadsToItself(q, k, sha, parses);
    LeadsByMove(p, m, q, k, sha, parses);
  }

  lemma ReleaseReaches(p: Pipeline, k: Store.EngineKey, id: nat, sha: string -> string, parses: string -> bool)
    requires Sound(p, k, parses) && !StoreProperties.Deadlocked(p.net.store) && p.net.conn == Some(id)
    requires Del.Starved(p.net) && Store.Awaits(p.net.store, id)
    ensures !p.net.store.mu.Free?
    ensures var t := Network(ReleaseMove(p.net));
            && CanTick(p, k, t) && Heeded(p, t, sha) && Helps(t)
            && var q := TickOf(p, k, t, sha, parses);
            && Sound(q, k, parses) && !StoreProperties.Deadlocked(q.net.store)
            && q.net.conn == p.net.conn && q.ctrl == p.ctrl && (Del.Starved(q.net) ==> Store.Awaits(q.net.store, id))
            && StoreProperties.ToGo(q.net.store) < StoreProperties.ToGo(p.net.store)
  {
    assert Store.Inv(p.net.store);
    AwaitsWhileHeld(p.net.store, id);
    hide Sound, Store.Inv, Store.Apply, Store.Enabled, Store.Awaits, Del.CanMove, Del.MoveOf, ReleaseMove, Heeded,
         StoreProperties.Deadlocked, StoreProperties.Releasing, StoreProperties.ToGo, StoreProperties.Nearer;
    StoreProperties.ReleasingReaches(p.net.store, id);
    ReleaseMoveStep(p.net, k, parses);
    ReleaseTick(p, k, sha, parses);
  }

  lemma AwaitsWhileHeld(s: Store.State, id: nat)
    requires Store.Awaits(s, id)
    ensures !s.mu.Free?
  {
  }

  lemma SentBySending(s: Store.State, id: nat)
    requires Store.Enabled(s, Store.SendInitial(id))
    ensures var t := Store.Apply(s, Store.SendInitial(id));
            id in t.subs && t.subs[id].initial.None?
  {
  }

  /** Everything on the wire can be delivered. */
  lemma {:induction false} Delivers(
    p: Pipeline, k: Store.EngineKey, sha: string -> string, parses: string -> bool) returns (q: Pipeline)
    requires p.net.store.mu.Free? && p.net.conn.Some? && Sent(p.net) && p.net.store.subs[p.net.conn.value].slot.None?
    ensures LeadsTo(p, q, k, sha, parses) && q.ctrl == p.ctrl && Del.Settled(q.net) && q.net.conn == p.net.conn
    decreases |p.net.wire|
  {
    hide LeadsTo, Del.Swapped;
    if p.net.wire == [] {
      q := p;
      LeadsToItself(p, k, sha, parses);
    } else {
      q := Delivers(p.(net := Del.MoveOf(p.net, k, Del.Deliver, parses)), k, sha, parses);
      LeadsByMove(p, Del.Deliver, q, k, sha, parses);
    }
  }

  /** With the mutex free, an open stream whose initial bundle is out can settle. */
  lemma StreamSettles(
    p: Pipeline, k: Store.EngineKey, sha: string -> string, parses: string -> bool) returns (q: Pipeline)
    requires Sound(p, k, parses) && p.net.store.mu.Free? && p.net.conn.Some? && Sent(p.net)
    ensures LeadsTo(p, q, k, sha, parses) && q.ctrl == p.ctrl && Del.Settled(q.net) && q.net.conn == p.net.conn
  {
    hide LeadsTo, Del.Settled, Store.Inv, Del.AllPublished, Del.NeverBack, Del.LastParsing, Store.Published;
    if p.net.store.subs[p.net.conn.value].slot.None? {
      q := Delivers(p, k, sha, parses);
    } else {
      q := Delivers(p.(net := Del.MoveOf(p.net, k, Del.Forward, parses)), k, sha, parses);
      LeadsByMove(p, Del.Forward, q, k, sha, parses);
    }
  }

  lemma {:induction false} UnusedId(ids: set<nat>) returns (n: nat)
    ensures forall id :: id in ids ==> id < n
    decreases |ids|
  {
    n := 0;
    if ids != {} {
      var id :| id in ids;
      var m := UnusedId(ids - {id});
      n := if m <= id then id + 1 else m;
      assert forall i :: i in ids ==> i == id || i in ids - {id};
    }
  }

  // ----- Who can settle -----

  /** An open stream settles by itself, unless it is starved and no fan-out is about to reach it. */
  lemma OpenStreamSettles(
    p: Pipeline, k: Store.EngineKey, sha: string -> string, parses: string -> bool) returns (q: Pipeline)
    requires Sound(p, k, parses) && !StoreProperties.Deadlocked(p.net.store) && p.net.conn.Some?
    requires Del.Starved(p.net) ==> Store.Awaits(p.net.store, p.net.conn.value)
    ensures LeadsTo(p, q, k, sha, parses) && Ctl.Quiet(q.ctrl) && Del.Settled(q.net) && q.net.conn == p.net.conn
    ensures q.ctrl.ns == p.ctrl.ns && q.ctrl.rules == p.ctrl.rules && q.ctrl.refs == p.ctrl.refs
  {
    hide LeadsTo, Sound, Sent, Ctl.Quiet, Del.Settled, Del.Starved, Store.Awaits, StoreProperties.Deadlocked;
    var sent := SendsFirst(p, k, sha, parses);
    var idle := Drains(sent, k, sha, parses);
    q := StreamSettles(idle, k, sha, parses);
    LeadsVia(sent, idle, q, k, sha, parses);
    LeadsVia(p, sent, q, k, sha, parses);
  }

  /** With no stream open, a new one can be opened and settle. */
  lemma NewStreamSettles(
    p: Pipeline, k: Store.EngineKey, sha: string -> string, parses: string -> bool) returns (q: Pipeline)
    requires Sound(p, k, parses) && !StoreProperties.Deadlocked(p.net.store) && p.net.conn.None?
    ensures LeadsTo(p, q, k, sha, parses) && Ctl.Quiet(q.ctrl) && Del.Settled(q.net)
    ensures q.ctrl.ns == p.ctrl.ns && q.ctrl.rules == p.ctrl.rules && q.ctrl.refs == p.ctrl.refs
  {
    hide LeadsTo, Sound, Sent, Ctl.Quiet, Del.Settled, Store.Subscribers, Store.Published;
    var idle := Drains(p, k, sha, parses);
    var id := UnusedId(idle.net.store.subs.Keys);
    var m := Del.Connect(id);
    var open := idle.(net := Del.MoveOf(idle.net, k, m, parses));
    TickKeepsSound(idle, k, Network(m), sha, parses);
    q := OpenStreamSettles(open, k, sha, parses);
    LeadsByMove(idle, m, q, k, sha, parses);
    LeadsVia(p, idle, q, k, sha, parses);
  }

  /** No stream is open, or the open one is not starved, or a fan-out is about to reach it. */
  predicate Unhindered(y: Del.System) {
    y.conn.Some? && Del.Starved(y) ==> Store.Awaits(y.store, y.conn.value)
  }

  lemma UnhinderedSettles(
    p: Pipeline, k: Store.EngineKey, sha: string -> string, parses: string -> bool) returns (q: Pipeline)
    requires Sound(p, k, parses) && !StoreProperties.Deadlocked(p.net.store) && Unhindered(p.net)
    ensures LeadsTo(p, q, k, sha, parses) && Ctl.Quiet(q.ctrl) && Del.Settled(q.net)
    ensures p.net.conn.Some? ==> q.net.conn == p.net.conn
    ensures Wanted(q, sha) == Wanted(p, sha)
  {
    hide LeadsTo, Sound, Ctl.Quiet, Ctl.Desired, Del.Settled, Del.Starved, Store.Awaits, StoreProperties.Deadlocked;
    if p.net.conn.Some? {
      q := OpenStreamSettles(p, k, sha, parses);
    } else {
      q := NewStreamSettles(p, k, sha, parses);
    }
    Ctl.SameObjects(p.ctrl, q.ctrl, sha);
  }

  ghost predicate CanSettle(p: Pipeline, k: Store.EngineKey, sha: string -> string, parses: string -> bool) {
    exists q :: LeadsTo(p, q, k, sha, parses) && Ctl.Quiet(q.ctrl) && Del.Settled(q.net)
  }

  /** A starved stream stays so through every step that neither publishes to its key nor breaks it. */
  lemma StarvedTick(p: Pipeline, k: Store.EngineKey, t: Tick, sha: string -> string, parses: string -> bool)
    requires Sound(p, k, parses) && !Unhindered(p.net) && CanTick(p, k, t) && Helps(t)
    requires PublishedTo(TickOf(p, k, t, sha, parses), k) == PublishedTo(p, k)
    ensures !Unhindered(TickOf(p, k, t, sha, parses).net)
  {
    hide Sound, Del.CanMove, Del.MoveOf, Store.Published, Store.Awaits, Del.Starved, Ctl.Act, Ctl.Possible, Ctl.Works,
         Offered;
    assert Del.SystemInv(p.net, k, parses) by { SoundNet(p, k, parses); }
    hide Del.SystemInv;
    Del.StarvedGotNothing(p.net, k, parses);
    match t {
      case Control(a) =>
        if Publishes(a) {
          Del.StarvedStep(p.net, k, OfferMove(p.ctrl, k, a), parses);
        }
      case Network(m) => Del.StarvedStep(p.net, k, m, parses);
    }
  }

  lemma SoundNet(p: Pipeline, k: Store.EngineKey, parses: string -> bool)
    requires Sound(p, k, parses)
    ensures Del.SystemInv(p.net, k, parses)
  {
  }

  /** A publication to the key is about to reach the open stream. */
  lemma PublicationFreesStream(p: Pipeline, k: Store.EngineKey, t: Tick, sha: string -> string, parses: string -> bool)
    requires Sound(p, k, parses) && CanTick(p, k, t)
    requires PublishedTo(TickOf(p, k, t, sha, parses), k) != PublishedTo(p, k)
    ensures var q := TickOf(p, k, t, sha, parses);
            Unhindered(q.net) && !StoreProperties.Deadlocked(q.net.store)
  {
    hide PublishedTo, TickOf, CanTick;
    TickPublishes(p, k, t, sha, parses);
    hide Store.Inv, Del.AllPublished, Del.NeverBack, Del.LastParsing;
  }

  lemma {:induction false} StarvedRun(
    p: Pipeline, k: Store.EngineKey, ts: seq<Tick>, sha: string -> string, parses: string -> bool)
    requires Sound(p, k, parses) && !Unhindered(p.net) && CanTickAll(p, k, ts, sha, parses)
    requires forall i :: 0 <= i < |ts| ==> Helps(ts[i])
    requires PublishedTo(TickAll(p, k, ts, sha, parses), k) == PublishedTo(p, k)
    ensures !Unhindered(TickAll(p, k, ts, sha, parses).net)
    decreases |ts|
  {
    hide Sound, Unhindered, CanTick, TickOf, Helps, PublishedTo;
    if ts != [] {
      var next := TickOf(p, k, ts[0], sha, parses);
      TickPublishes(p, k, ts[0], sha, parses);
      PublishedOnlyGrows(next, k, ts[1..], sha, parses);
      StarvedTick(p, k, ts[0], sha, parses);
      TickKeepsSound(p, k, ts[0], sha, parses);
      StarvedRun(next, k, ts[1..], sha, parses);
    }
  }

  // ----- What is still to be published -----

  /** Also kept by every run: the reconcilers' view of the entry, and the order of their state. */
  ghost predicate Tidy(p: Pipeline, k: Store.EngineKey, sha: string -> string) {
    Linked(p, k) && Ctl.InOrder(p.ctrl, sha)
  }

  lemma TickKeepsTidy(p: Pipeline, k: Store.EngineKey, t: Tick, sha: string -> string, parses: string -> bool)
    requires Tidy(p, k, sha) && CanTick(p, k, t) && Ctl.GoodDigest(sha)
    ensures Tidy(TickOf(p, k, t, sha, parses), k, sha)
  {
    hide Ctl.InOrder, Ctl.Possible, Ctl.Act, Del.CanMove, Del.MoveOf, Offered;
    match t {
      case Control(a) =>
        Ctl.ActKeepsOrder(p.ctrl, a, sha);
        if Publishes(a) {
          PublicationMeetsGate(p, k, a, sha, parses);
        } else {
          OtherActionsKeepEntry(p.ctrl, a, sha);
        }
      case Network(m) => NetworkMoveKeepsEntry(p.net, k, m, parses);
    }
  }

  lemma {:induction false} TickAllKeepsTidy(
    p: Pipeline, k: Store.EngineKey, ts: seq<Tick>, sha: string -> string, parses: string -> bool)
    requires Tidy(p, k, sha) && CanTickAll(p, k, ts, sha, parses) && Ctl.GoodDigest(sha)
    ensures Tidy(TickAll(p, k, ts, sha, parses), k, sha)
    decreases |ts|
  {
    hide Tidy, CanTick, TickOf, Ctl.GoodDigest;
    if ts != [] {
      TickKeepsTidy(p, k, ts[0], sha, parses);
      TickAllKeepsTidy(TickOf(p, k, ts[0], sha, parses), k, ts[1..], sha, parses);
    }
  }

  /** The reconcilers' view of the entry changes exactly with a publication to the key. */
  lemma StoredChangesWhenPublished(
    p: Pipeline, k: Store.EngineKey, t: Tick, sha: string -> string, parses: string -> bool)
    requires Linked(p, k) && CanTick(p, k, t)
    ensures var q := TickOf(p, k, t, sha, parses);
            PublishedTo(q, k) != PublishedTo(p, k) <==> q.ctrl.stored != p.ctrl.stored
  {
    hide Ctl.Possible;
    if t.Control? && Publishes(t.action) {
      OfferIsTakenOrNot(p, k, t.action, sha, parses);
    } else {
      hide Ctl.Act, TickOf, CanTick;
      TickPublishes(p, k, t, sha, parses);
      assert TickOf(p, k, t, sha, parses).ctrl.stored == p.ctrl.stored by { OthersKeepStored(p, k, t, sha, parses); }
    }
  }

  lemma OthersKeepStored(p: Pipeline, k: Store.EngineKey, t: Tick, sha: string -> string, parses: string -> bool)
    requires CanTick(p, k, t) && (t.Control? ==> !Publishes(t.action))
    ensures TickOf(p, k, t, sha, parses).ctrl.stored == p.ctrl.stored
  {
    hide Ctl.Act, Ctl.Possible, Del.CanMove, Del.MoveOf;
    if t.Control? {
      OtherActionsKeepEntry(p.ctrl, t.action, sha);
    }
  }

  lemma OfferIsTakenOrNot(p: Pipeline, k: Store.EngineKey, a: Ctl.Action, sha: string -> string, parses: string -> bool)
    requires Linked(p, k) && CanTick(p, k, Control(a)) && Publishes(a)
    ensures var q := TickOf(p, k, Control(a), sha, parses);
            PublishedTo(q, k) != PublishedTo(p, k) <==> q.ctrl.stored != p.ctrl.stored
  {
    hide Store.Subscribers, Ctl.RsReadStep, Ctl.EngReadStep, Ctl.EditStep, Ctl.CompileOf;
  }

  /** A working step without a publication leaves what is owed as it was. */
  lemma OwedTick(p: Pipeline, k: Store.EngineKey, t: Tick, sha: string -> string, parses: string -> bool)
    requires Tidy(p, k, sha) && CanTick(p, k, t) && Helps(t) && Ctl.GoodDigest(sha)
    requires PublishedTo(TickOf(p, k, t, sha, parses), k) == PublishedTo(p, k)
    ensures var q := TickOf(p, k, t, sha, parses);
            && (Ctl.Owes(q.ctrl, sha) ==> Ctl.Owes(p.ctrl, sha))
            && (Ctl.Owes(p.ctrl, sha) && (t.Control? ==> Ctl.Wakes(p.ctrl, t.action)) ==> Ctl.Owes(q.ctrl, sha))
  {
    StoredChangesWhenPublished(p, k, t, sha, parses);
    hide Ctl.Owes, Ctl.InOrder, Ctl.Possible, Ctl.Act, Ctl.Wakes, Ctl.Works, Linked, PublishedTo, Del.CanMove, Del.MoveOf;
    if t.Control? {
      Ctl.WorkKeepsOwed(p.ctrl, t.action, sha);
    }
  }

  /** Whatever a run without edits publishes to the key was owed at its start. */
  lemma {:induction false} PublishedWasOwed(
    p: Pipeline, k: Store.EngineKey, ts: seq<Tick>, sha: string -> string, parses: string -> bool)
    requires Tidy(p, k, sha) && CanTickAll(p, k, ts, sha, parses) && Ctl.GoodDigest(sha)
    requires forall i :: 0 <= i < |ts| ==> Helps(ts[i])
    requires PublishedTo(TickAll(p, k, ts, sha, parses), k) != PublishedTo(p, k)
    ensures Ctl.Owes(p.ctrl, sha)
    decreases |ts|
  {
    hide Tidy, CanTick, TickOf, Helps, PublishedTo, Ctl.Owes, Ctl.GoodDigest;
    var next := TickOf(p, k, ts[0], sha, parses);
    if PublishedTo(next, k) == PublishedTo(p, k) {
      TickKeepsTidy(p, k, ts[0], sha, parses);
      PublishedWasOwed(next, k, ts[1..], sha, parses);
      OwedTick(p, k, ts[0], sha, parses);
    } else {
      PublicationWasOwed(p, k, ts[0], sha, parses);
    }
  }

  lemma PublicationWasOwed(p: Pipeline, k: Store.EngineKey, t: Tick, sha: string -> string, parses: string -> bool)
    requires Tidy(p, k, sha) && CanTick(p, k, t) && PublishedTo(TickOf(p, k, t, sha, parses), k) != PublishedTo(p, k)
    ensures Ctl.Owes(p.ctrl, sha)
  {
    StoredChangesWhenPublished(p, k, t, sha, parses);
    hide Ctl.Owes, Ctl.InOrder, Ctl.Possible, Ctl.Act, Linked, PublishedTo, Del.CanMove, Del.MoveOf;
    if t.Control? {
      Ctl.OnlyOwedIsPublished(p.ctrl, t.action, sha);
    }
  }

  /** And what is owed can be published, which frees the stream, and then it can settle. */
  lemma {:induction false} OwedSettles(
    p: Pipeline, k: Store.EngineKey, sha: string -> string, parses: string -> bool) returns (q: Pipeline)
    requires Sound(p, k, parses) && Tidy(p, k, sha) && !StoreProperties.Deadlocked(p.net.store)
    requires Ctl.Owes(p.ctrl, sha) && Ctl.GoodDigest(sha)
    ensures LeadsTo(p, q, k, sha, parses) && Ctl.Quiet(q.ctrl) && Del.Settled(q.net)
    decreases Ctl.RuleSetLeft(p.ctrl), Ctl.EngineLeft(p.ctrl), StoreProperties.ToGo(p.net.store)
  {
    hide LeadsTo, Sound, Tidy, CanTick, TickOf, Sent, PublishedTo, Unhindered, Ctl.Quiet, Ctl.RuleSetLeft, Ctl.EngineLeft,
         Ctl.Owes, Ctl.GoodDigest, Heeded, Helps, Del.Settled, StoreProperties.ToGo, StoreProperties.Deadlocked;
    var t;
    if !p.net.store.mu.Free? {
      t := Network(ReleaseMove(p.net));
      ReleaseTick(p, k, sha, parses);
    } else {
      if Ctl.Quiet(p.ctrl) {
        Ctl.QuietOwesNothing(p.ctrl, sha);
      }
      t := Control(Ctl.Scheduled(p.ctrl));
      ScheduledTick(p, k, sha, parses);
    }
    TickKeepsTidy(p, k, t, sha, parses);
    var next := TickOf(p, k, t, sha, parses);
    if PublishedTo(next, k) == PublishedTo(p, k) {
      OwedTick(p, k, t, sha, parses);
      q := OwedSettles(next, k, sha, parses);
    } else {
      q := UnhinderedSettlesAfter(p, k, t, sha, parses);
    }
    LeadsByOne(p, t, q, k, sha, parses);
  }

  lemma UnhinderedSettlesAfter(
    p: Pipeline, k: Store.EngineKey, t: Tick, sha: string -> string, parses: string -> bool) returns (q: Pipeline)
    requires Sound(p, k, parses) && CanTick(p, k, t)
    requires PublishedTo(TickOf(p, k, t, sha, parses), k) != PublishedTo(p, k)
    ensures LeadsTo(TickOf(p, k, t, sha, parses), q, k, sha, parses) && Ctl.Quiet(q.ctrl) && Del.Settled(q.net)
  {
    hide LeadsTo, Sound, CanTick, TickOf, PublishedTo, Unhindered, Ctl.Quiet, Del.Settled, StoreProperties.Deadlocked;
    TickKeepsSound(p, k, t, sha, parses);
    PublicationFreesStream(p, k, t, sha, parses);
    q := UnhinderedSettles(TickOf(p, k, t, sha, parses), k, sha, parses);
  }

  /** After a heeded run, something is owed for as long as the store does not serve what the sources compile to. */
  lemma UnservedIsOwed(p: Pipeline, k: Store.EngineKey, sha: string -> string, parses: string -> bool)
    requires PipelineInv(p, k, sha, parses) && Sound(p, k, parses) && !StoreProperties.Deadlocked(p.net.store)
    requires Ctl.GoodDigest(sha) && Wanted(p, sha).Some?
    requires k in p.net.store.bundles ==> p.net.store.bundles[k].compiled != Wanted(p, sha).value
    ensures Ctl.Owes(p.ctrl, sha)
  {
    hide LeadsTo, Sound, Sent, Ctl.OnCourse, Ctl.InOrder, Ctl.Desired, Ctl.GoodDigest, Ctl.Owes, Del.SystemInv,
         StoreProperties.Deadlocked;
    var q := Drains(p, k, sha, parses);
    LeadsKeepsInv(p, q, k, sha, parses);
    Ctl.SameObjects(p.ctrl, q.ctrl, sha);
    Ctl.QuietServes(q.ctrl, sha);
    LastPublishedIsServed(p.net, k, parses);
    LastPublishedIsServed(q.net, k, parses);
    LeadingWasOwed(p, q, k, sha, parses);
  }

  lemma LeadingWasOwed(p: Pipeline, q: Pipeline, k: Store.EngineKey, sha: string -> string, parses: string -> bool)
    requires Tidy(p, k, sha) && Ctl.GoodDigest(sha) && LeadsTo(p, q, k, sha, parses) && PublishedTo(q, k) != PublishedTo(p, k)
    ensures Ctl.Owes(p.ctrl, sha)
  {
    hide Tidy, CanTick, TickOf, Heeded, Helps, PublishedTo, Ctl.Owes, Ctl.GoodDigest;
    var ts :| CanTickAll(p, k, ts, sha, parses) && AllHeeded(p, k, ts, sha, parses)
              && TickAll(p, k, ts, sha, parses) == q && forall i :: 0 <= i < |ts| ==> Helps(ts[i]);
    PublishedWasOwed(p, k, ts, sha, parses);
  }

  lemma LastPublishedIsServed(y: Del.System, k: Store.EngineKey, parses: string -> bool)
    requires Del.SystemInv(y, k, parses)
    ensures Store.HoldsLast(y.store, k)
  {
  }

  lemma StarvedNeedsPublication(
    p: Pipeline, q: Pipeline, k: Store.EngineKey, sha: string -> string, parses: string -> bool)
    requires Sound(p, k, parses) && !Unhindered(p.net) && LeadsTo(p, q, k, sha, parses) && Del.Settled(q.net)
    ensures PublishedTo(q, k) != PublishedTo(p, k)
  {
    hide Sound, CanTick, TickOf, Heeded, Helps, PublishedTo;
    var ts :| CanTickAll(p, k, ts, sha, parses) && AllHeeded(p, k, ts, sha, parses)
              && TickAll(p, k, ts, sha, parses) == q && forall i :: 0 <= i < |ts| ==> Helps(ts[i]);
    if PublishedTo(q, k) == PublishedTo(p, k) {
      StarvedRun(p, k, ts, sha, parses);
    }
  }

  lemma DeadlockedTick(p: Pipeline, k: Store.EngineKey, t: Tick, sha: string -> string, parses: string -> bool)
    requires StoreProperties.Deadlocked(p.net.store) && CanTick(p, k, t)
    ensures var q := TickOf(p, k, t, sha, parses);
            StoreProperties.Deadlocked(q.net.store) && q.net.store.bundles == p.net.store.bundles
  {
    hide Store.Apply, Ctl.Act, Ctl.Possible, Offered;
    match t {
      case Control(_) =>
      case Network(m) =>
        if m.StoreMove? {
          StoreProperties.DeadlockedStep(p.net.store, m.event);
        } else if m.Forward? {
          StoreProperties.DeadlockedStep(p.net.store, Store.Receive(p.net.conn.value));
        }
    }
  }

  /** A deadlocked store stays so through every run of the whole system, and serves what it served. */
  lemma {:induction false} DeadlockStopsPipeline(
    p: Pipeline, k: Store.EngineKey, ts: seq<Tick>, sha: string -> string, parses: string -> bool)
    requires StoreProperties.Deadlocked(p.net.store) && CanTickAll(p, k, ts, sha, parses)
    ensures var q := TickAll(p, k, ts, sha, parses);
            StoreProperties.Deadlocked(q.net.store) && q.net.store.bundles == p.net.store.bundles
    decreases |ts|
  {
    hide CanTick, TickOf, StoreProperties.Deadlocked;
    if ts != [] {
      DeadlockedTick(p, k, ts[0], sha, parses);
      DeadlockStopsPipeline(TickOf(p, k, ts[0], sha, parses), k, ts[1..], sha, parses);
    }
  }

  lemma DeadlockedNeverSettles(
    p: Pipeline, q: Pipeline, k: Store.EngineKey, sha: string -> string, parses: string -> bool)
    requires StoreProperties.Deadlocked(p.net.store) && LeadsTo(p, q, k, sha, parses)
    ensures !Del.Settled(q.net)
  {
    hide CanTick, TickOf, Heeded, Helps;
    var ts :| CanTickAll(p, k, ts, sha, parses) && AllHeeded(p, k, ts, sha, parses) && TickAll(p, k, ts, sha, parses) == q;
    DeadlockStopsPipeline(p, k, ts, sha, parses);
  }

  lemma SettlesExactlyWhen(p: Pipeline, k: Store.EngineKey, sha: string -> string, parses: string -> bool)
    requires Sound(p, k, parses) && Tidy(p, k, sha) && Ctl.GoodDigest(sha)
    ensures CanSettle(p, k, sha, parses) <==>
            !StoreProperties.Deadlocked(p.net.store) && (Unhindered(p.net) || Ctl.Owes(p.ctrl, sha))
  {
    hide LeadsTo, Sound, Tidy, Unhindered, PublishedTo, Ctl.Quiet, Ctl.Owes, Ctl.GoodDigest, Del.Settled,
         StoreProperties.Deadlocked;
    if CanSettle(p, k, sha, parses) {
      var q :| LeadsTo(p, q, k, sha, parses) && Ctl.Quiet(q.ctrl) && Del.Settled(q.net);
      if StoreProperties.Deadlocked(p.net.store) {
        DeadlockedNeverSettles(p, q, k, sha, parses);
      } else if !Unhindered(p.net) {
        StarvedNeedsPublication(p, q, k, sha, parses);
        LeadingWasOwed(p, q, k, sha, parses);
      }
    } else if !StoreProperties.Deadlocked(p.net.store) {
      if Unhindered(p.net) {
        var q := UnhinderedSettles(p, k, sha, parses);
      } else if Ctl.Owes(p.ctrl, sha) {
        var q := OwedSettles(p, k, sha, parses);
      }
    }
  }

  // ----- After any run -----

  /** After any run, the system can settle with no edit, no failure and no break of the stream exactly when the store is
      not deadlocked and the open stream, if any, is not starved, or is about to be reached by a fan-out, or the
      reconcilers still owe the store a bundle that is new to it. Idle reconcilers owe nothing; after a heeded run,
      others do for as long as the store does not serve what the sources compile to. */
  lemma SettlesIff(x: Ctl.Ctrl, k: Store.EngineKey, ts: seq<Tick>, sha: string -> string, parses: string -> bool)
    requires Ctl.Fresh(x) && Ctl.GoodDigest(sha) && CanTickAll(Pipeline(x, Del.DISCONNECTED), k, ts, sha, parses)
    ensures var p := TickAll(Pipeline(x, Del.DISCONNECTED), k, ts, sha, parses);
            && (CanSettle(p, k, sha, parses) <==>
                !StoreProperties.Deadlocked(p.net.store) && (Unhindered(p.net) || Ctl.Owes(p.ctrl, sha)))
            && (Ctl.Quiet(p.ctrl) ==> !Ctl.Owes(p.ctrl, sha))
            && (AllHeeded(Pipeline(x, Del.DISCONNECTED), k, ts, sha, parses)
                && !StoreProperties.Deadlocked(p.net.store) && Wanted(p, sha).Some?
                && (k in p.net.store.bundles ==> p.net.store.bundles[k].compiled != Wanted(p, sha).value) ==>
                  Ctl.Owes(p.ctrl, sha))
  {
    var start := Pipeline(x, Del.DISCONNECTED);
    FreshPipeline(x, k, sha, parses);
    assert Tidy(start, k, sha);
    hide CanSettle, Unhindered, Wanted, PipelineInv, Sound, Tidy, Ctl.Quiet, Ctl.Fresh, Ctl.Owes, Ctl.GoodDigest,
         StoreProperties.Deadlocked;
    AnyRunIsSound(x, k, ts, sha, parses);
    TickAllKeepsTidy(start, k, ts, sha, parses);
    var p := TickAll(start, k, ts, sha, parses);
    SettlesExactlyWhen(p, k, sha, parses);
    if Ctl.Quiet(p.ctrl) {
      Ctl.QuietOwesNothing(p.ctrl, sha);
    }
    if AllHeeded(start, k, ts, sha, parses) && !StoreProperties.Deadlocked(p.net.store) && Wanted(p, sha).Some?
       && (k in p.net.store.bundles ==> p.net.store.bundles[k].compiled != Wanted(p, sha).value) {
      TickAllKeepsInv(start, k, ts, sha, parses);
      UnservedIsOwed(p, k, sha, parses);
    }
  }

  /** What a settled engine runs. */
  lemma SettledAfterHeeded(p: Pipeline, q: Pipeline, k: Store.EngineKey, sha: string -> string, parses: string -> bool)
    requires PipelineInv(p, k, sha, parses) && Ctl.GoodDigest(sha) && LeadsTo(p, q, k, sha, parses)
    requires Ctl.Quiet(q.ctrl) && Del.Settled(q.net) && Wanted(q, sha).Some? && parses(Wanted(q, sha).value)
    ensures Runs(q, Wanted(q, sha).value, parses)
  {
    hide LeadsTo, Runs, Wanted, Ctl.Quiet, Ctl.GoodDigest, Ctl.CtrlInv, Del.SystemInv;
    LeadsKeepsInv(p, q, k, sha, parses);
    Del.SettledOrStarved(q.net, k, parses);
    hide Del.AtRest, Del.Starved, Del.Settled;
    AtRestRuns(q, k, sha, parses);
  }

  /** In those cases the system settles on its own stream, if one is open; and after a heeded run the engine then runs
      what its RuleSet's sources compile to, if that parses. */
  lemma SettlesOnItsStream(
    x: Ctl.Ctrl, k: Store.EngineKey, ts: seq<Tick>, sha: string -> string, parses: string -> bool) returns (q: Pipeline)
    requires Ctl.Fresh(x) && Ctl.GoodDigest(sha) && CanTickAll(Pipeline(x, Del.DISCONNECTED), k, ts, sha, parses)
    requires var p := TickAll(Pipeline(x, Del.DISCONNECTED), k, ts, sha, parses);
             !StoreProperties.Deadlocked(p.net.store) && Unhindered(p.net)
    ensures var p := TickAll(Pipeline(x, Del.DISCONNECTED), k, ts, sha, parses);
            && LeadsTo(p, q, k, sha, parses) && Ctl.Quiet(q.ctrl) && Del.Settled(q.net)
            && (p.net.conn.Some? ==> q.net.conn == p.net.conn) && Wanted(q, sha) == Wanted(p, sha)
            && (AllHeeded(Pipeline(x, Del.DISCONNECTED), k, ts, sha, parses)
                && Wanted(p, sha).Some? && parses(Wanted(p, sha).value) ==>
                  Runs(q, Wanted(p, sha).value, parses))
  {
    var start := Pipeline(x, Del.DISCONNECTED);
    hide LeadsTo, Runs, Wanted, PipelineInv, Sound, Unhindered, Ctl.Quiet, Ctl.Fresh, Ctl.GoodDigest, Del.Settled,
         StoreProperties.Deadlocked;
    AnyRunIsSound(x, k, ts, sha, parses);
    var p := TickAll(start, k, ts, sha, parses);
    q := UnhinderedSettles(p, k, sha, parses);
    if AllHeeded(start, k, ts, sha, parses) && Wanted(p, sha).Some? && parses(Wanted(p, sha).value) {
      FreshPipeline(x, k, sha, parses);
      TickAllKeepsInv(start, k, ts, sha, parses);
      SettledAfterHeeded(p, q, k, sha, parses);
    }
  }

  /** The system after the open stream, if any, has broken. */
  ghost function Dropped(p: Pipeline, k: Store.EngineKey, sha: string -> string, parses: string -> bool): Pipeline {
    if p.net.conn.Some? then TickOf(p, k, Network(Del.Break), sha, parses) else p
  }

  lemma DroppedIsUnhindered(p: Pipeline, k: Store.EngineKey, sha: string -> string, parses: string -> bool)
    requires Sound(p, k, parses)
    ensures var d := Dropped(p, k, sha, parses);
            Sound(d, k, parses) && Unhindered(d.net) && d.net.store == p.net.store && d.ctrl == p.ctrl && d.net.conn.None?
  {
    hide Sound, Del.Starved, Store.Awaits;
    if p.net.conn.Some? {
      TickKeepsSound(p, k, Network(Del.Break), sha, parses);
    }
  }

  /** With one break of the stream allowed, only a deadlock of the store is a dead end: from every other state, blocked
      publishers and starved engines included, the reconcilers can finish and a new stream settle, with no edit, no
      failing call and no further break. After a heeded run the engine then runs what its sources compile to, if that
      parses. */
  lemma EveryRunCanRecover(
    x: Ctl.Ctrl, k: Store.EngineKey, ts: seq<Tick>, sha: string -> string, parses: string -> bool) returns (q: Pipeline)
    requires Ctl.Fresh(x) && Ctl.GoodDigest(sha) && CanTickAll(Pipeline(x, Del.DISCONNECTED), k, ts, sha, parses)
    requires !StoreProperties.Deadlocked(TickAll(Pipeline(x, Del.DISCONNECTED), k, ts, sha, parses).net.store)
    ensures var p := TickAll(Pipeline(x, Del.DISCONNECTED), k, ts, sha, parses);
            && LeadsTo(Dropped(p, k, sha, parses), q, k, sha, parses) && Ctl.Quiet(q.ctrl) && Del.Settled(q.net)
            && Wanted(q, sha) == Wanted(p, sha)
            && (AllHeeded(Pipeline(x, Del.DISCONNECTED), k, ts, sha, parses)
                && Wanted(p, sha).Some? && parses(Wanted(p, sha).value) ==>
                  Runs(q, Wanted(p, sha).value, parses))
  {
    var start := Pipeline(x, Del.DISCONNECTED);
    hide LeadsTo, Runs, PipelineInv, Sound, Unhindered, Dropped, Ctl.Quiet, Ctl.Fresh, Ctl.GoodDigest, Ctl.Desired,
         Del.Settled, StoreProperties.Deadlocked;
    AnyRunIsSound(x, k, ts, sha, parses);
    var p := TickAll(start, k, ts, sha, parses);
    DroppedIsUnhindered(p, k, sha, parses);
    q := UnhinderedSettles(Dropped(p, k, sha, parses), k, sha, parses);
    if AllHeeded(start, k, ts, sha, parses) && Wanted(p, sha).Some? && parses(Wanted(p, sha).value) {
      FreshPipeline(x, k, sha, parses);
      TickAllKeepsInv(start, k, ts, sha, parses);
      DroppedKeepsInv(p, k, sha, parses);
      SettledAfterHeeded(Dropped(p, k, sha, parses), q, k, sha, parses);
    }
  }

  lemma DroppedKeepsInv(p: Pipeline, k: Store.EngineKey, sha: string -> string, parses: string -> bool)
    requires PipelineInv(p, k, sha, parses) && Ctl.GoodDigest(sha)
    ensures PipelineInv(Dropped(p, k, sha, parses), k, sha, parses)
  {
    hide PipelineInv, Ctl.GoodDigest;
    if p.net.conn.Some? {
      TickKeepsInv(p, k, Network(Del.Break), sha, parses);
    }
  }

  /** After any run, the system can settle with one break of the stream, no edit and no failing call exactly when the
      store is not deadlocked. */
  lemma RecoversIffNotDeadlocked(
    x: Ctl.Ctrl, k: Store.EngineKey, ts: seq<Tick>, sha: string -> string, parses: string -> bool)
    requires Ctl.Fresh(x) && CanTickAll(Pipeline(x, Del.DISCONNECTED), k, ts, sha, parses)
    ensures var p := TickAll(Pipeline(x, Del.DISCONNECTED), k, ts, sha, parses);
            CanSettle(Dropped(p, k, sha, parses), k, sha, parses) <==> !StoreProperties.Deadlocked(p.net.store)
  {
    hide LeadsTo, Unhindered, Sound, Dropped, Ctl.Fresh, Ctl.Quiet, Del.Settled, StoreProperties.Deadlocked;
    AnyRunIsSound(x, k, ts, sha, parses);
    var p := TickAll(Pipeline(x, Del.DISCONNECTED), k, ts, sha, parses);
    var d := Dropped(p, k, sha, parses);
    DroppedIsUnhindered(p, k, sha, parses);
    if StoreProperties.Deadlocked(p.net.store) {
      forall q | LeadsTo(d, q, k, sha, parses) ensures !Del.Settled(q.net) {
        DeadlockedNeverSettles(d, q, k, sha, parses);
      }
    } else {
      var q := UnhinderedSettles(d, k, sha, parses);
    }
  }
}
