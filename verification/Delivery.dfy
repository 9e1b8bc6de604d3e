/**
 One engine at the far end of a stream: the gRPC handler moves bundles from its subscription's channel to the wire,
 the client applies what arrives and reconnects after any failure. A new connection is a new subscription; the handler
 and the subscription of a broken one may linger. All other users of the store move freely in between.
 */
module Delivery {
  import opened Wrappers
  import opened Store
  import opened StoreProperties

  /**
   `conn` is the subscription behind the client's current stream, `wire` what is in flight on it. `applied` lists
   every bundle handed to the engine so far, `base` of them on earlier streams; `active` is the one whose rules run.
   */
  datatype System = System(
    store: State,
    conn: Option<nat>,
    wire: seq<Message>,
    base: nat,
    applied: seq<Message>,
    active: Option<Message>)

  datatype Move =
    | StoreMove(event: Event)
    | Connect(id: nat)
    | Forward
    | Deliver
    | Break

  const DISCONNECTED := System(EMPTY, None, [], 0, [], None)

  /** Steps of other goroutines; only its own handler receives from the channel of the current stream, and it leaves and
      unsubscribes only once the stream is broken. */
  predicate CanMove(y: System, k: EngineKey, m: Move) {
    match m
    case StoreMove(e) => Enabled(y.store, e) && (e.Receive? || e.Leave? || e.Unsubscribe? ==> y.conn != Some(e.id))
    case Connect(id) => y.conn.None? && Enabled(y.store, Register(id, k))
    case Forward => y.conn.Some? && Enabled(y.store, Receive(y.conn.value))
    case Deliver => y.conn.Some? && y.wire != []
    case Break => y.conn.Some?
  }

  /** The swap keeps the rules it has when the text does not parse. */
  function Swapped(active: Option<Message>, m: Message, parses: string -> bool): Option<Message> {
    if parses(m.bundle.compiled) then Some(m) else active
  }

  function MoveOf(y: System, k: EngineKey, m: Move, parses: string -> bool): System
    requires CanMove(y, k, m)
  {
    match m
    case StoreMove(e) => y.(store := Apply(y.store, e))
    case Connect(id) => y.(store := Apply(y.store, Register(id, k)), conn := Some(id), wire := [], base := |y.applied|)
    case Forward =>
      y.(store := Apply(y.store, Receive(y.conn.value)), wire := y.wire + [y.store.subs[y.conn.value].slot.value])
    case Deliver =>
      y.(wire := y.wire[1..], applied := y.applied + [y.wire[0]], active := Swapped(y.active, y.wire[0], parses))
    case Break => y.(conn := None, wire := [])
  }

  ghost predicate CanRunAll(y: System, k: EngineKey, ms: seq<Move>, parses: string -> bool)
    decreases |ms|
  {
    ms == [] || (CanMove(y, k, ms[0]) && CanRunAll(MoveOf(y, k, ms[0], parses), k, ms[1..], parses))
  }

  ghost function RunAll(y: System, k: EngineKey, ms: seq<Move>, parses: string -> bool): System
    requires CanRunAll(y, k, ms, parses)
    decreases |ms|
  {
    if ms == [] then y else RunAll(MoveOf(y, k, ms[0], parses), k, ms[1..], parses)
  }

  // ----- What a fold over the applied bundles leaves active -----

  /** The last parseable bundle of a sequence, if any. */
  function LastParsing(ms: seq<Message>, parses: string -> bool): Option<Message> {
    if ms == [] then None else Swapped(LastParsing(ms[..|ms| - 1], parses), ms[|ms| - 1], parses)
  }

  ghost predicate NeverBack(ms: seq<Message>) {
    forall i, j :: 0 <= i <= j < |ms| ==> ms[i].pos <= ms[j].pos
  }

  predicate IsPublication(s: State, k: EngineKey, m: Message) {
    m.pos < |Published(s, k)| && m.bundle == Published(s, k)[m.pos]
  }

  /** Each is a publication to the key. */
  ghost predicate AllPublished(s: State, k: EngineKey, ms: seq<Message>) {
    forall i :: 0 <= i < |ms| ==> IsPublication(s, k, ms[i])
  }

  /** What the current stream's subscription received is what was applied on this stream plus what is on the wire. */
  ghost predicate ConnInv(y: System, k: EngineKey) {
    y.conn.Some? ==>
      && y.conn.value in y.store.subs
      && y.base <= |y.applied|
      && var sub := y.store.subs[y.conn.value];
      && sub.key == k && Registered(sub) && !sub.left
      && sub.received == y.applied[y.base..] + y.wire
      && (forall i :: 0 <= i < y.base ==> y.applied[i].pos < sub.from)
  }

  ghost predicate SystemInv(y: System, k: EngineKey, parses: string -> bool) {
    && Inv(y.store)
    && ConnInv(y, k)
    && AllPublished(y.store, k, y.applied)
    && NeverBack(y.applied)
    && y.active == LastParsing(y.applied, parses)
  }

  // ----- Every move keeps it -----

  lemma StoreMoveKeeps(y: System, k: EngineKey, e: Event, parses: string -> bool)
    requires SystemInv(y, k, parses) && CanMove(y, k, StoreMove(e))
    ensures SystemInv(MoveOf(y, k, StoreMove(e), parses), k, parses)
  {
    hide Inv, Published, LastParsing, NeverBack;
    StepKeepsInv(y.store, e);
    PublicationOfStep(y.store, e, k);
    if y.conn.Some? {
      SubscriptionKeepsItsPlace(y.store, e, y.conn.value);
    }
    hide Apply, Enabled;
  }

  lemma ConnectKeeps(y: System, k: EngineKey, id: nat, parses: string -> bool)
    requires SystemInv(y, k, parses) && CanMove(y, k, Connect(id))
    ensures SystemInv(MoveOf(y, k, Connect(id), parses), k, parses)
  {
    hide Inv, LastParsing, NeverBack;
    StepKeepsInv(y.store, Register(id, k));
    PublicationOfStep(y.store, Register(id, k), k);
    var z := MoveOf(y, k, Connect(id), parses);
    assert z.store.subs[id].from == |Published(y.store, k)|;
  }

  lemma ForwardKeeps(y: System, k: EngineKey, parses: string -> bool)
    requires SystemInv(y, k, parses) && CanMove(y, k, Forward)
    ensures SystemInv(MoveOf(y, k, Forward, parses), k, parses)
  {
    hide Inv, LastParsing, NeverBack;
    var e := Receive(y.conn.value);
    StepKeepsInv(y.store, e);
    PublicationOfStep(y.store, e, k);
    var z := MoveOf(y, k, Forward, parses);
    var m := y.store.subs[y.conn.value].slot.value;
    assert y.applied[y.base..] + (y.wire + [m]) == (y.applied[y.base..] + y.wire) + [m];
  }

  /** What arrives is a publication no older than anything applied before. */
  lemma ArrivalIsNewer(y: System, k: EngineKey, parses: string -> bool)
    requires SystemInv(y, k, parses) && CanMove(y, k, Deliver)
    ensures IsPublication(y.store, k, y.wire[0])
    ensures forall i :: 0 <= i < |y.applied| ==> y.applied[i].pos <= y.wire[0].pos
  {
    hide LastParsing, NeverBack, AllPublished, MutexInv, BundlesInv, Coherent, Behind;
    var id := y.conn.value;
    var sub := y.store.subs[id];
    assert SubInv(y.store, id);
    var here := |y.applied| - y.base;
    assert sub.received[here] == y.wire[0];
    assert MessageIn(y.store, sub, sub.received[here]);
    forall i | 0 <= i < |y.applied| ensures y.applied[i].pos <= y.wire[0].pos {
      if y.base <= i {
        assert sub.received[i - y.base] == y.applied[i];
      }
    }
  }

  lemma HeadMovesOver(applied: seq<Message>, wire: seq<Message>, base: nat)
    requires wire != [] && base <= |applied|
    ensures (applied + [wire[0]])[base..] + wire[1..] == applied[base..] + wire
    ensures forall i :: 0 <= i < base ==> (applied + [wire[0]])[i] == applied[i]
  {
  }

  lemma LastParsingOfMore(ms: seq<Message>, m: Message, parses: string -> bool)
    ensures LastParsing(ms + [m], parses) == Swapped(LastParsing(ms, parses), m, parses)
  {
    assert (ms + [m])[..|ms|] == ms;
  }

  /** One more publication, no older than the rest. */
  lemma OneMoreApplied(s: State, k: EngineKey, ms: seq<Message>, m: Message)
    requires NeverBack(ms) && AllPublished(s, k, ms)
    requires IsPublication(s, k, m)
    requires forall i :: 0 <= i < |ms| ==> ms[i].pos <= m.pos
    ensures NeverBack(ms + [m]) && AllPublished(s, k, ms + [m])
  {
    hide IsPublication;
  }

  lemma DeliverKeeps(y: System, k: EngineKey, parses: string -> bool)
    requires SystemInv(y, k, parses) && CanMove(y, k, Deliver)
    ensures SystemInv(MoveOf(y, k, Deliver, parses), k, parses)
  {
    hide Inv, LastParsing, NeverBack, AllPublished, IsPublication, Swapped;
    ArrivalIsNewer(y, k, parses);
    HeadMovesOver(y.applied, y.wire, y.base);
    OneMoreApplied(y.store, k, y.applied, y.wire[0]);
    LastParsingOfMore(y.applied, y.wire[0], parses);
  }

  lemma MoveKeepsInv(y: System, k: EngineKey, m: Move, parses: string -> bool)
    requires SystemInv(y, k, parses) && CanMove(y, k, m)
    ensures SystemInv(MoveOf(y, k, m, parses), k, parses)
  {
    hide Inv, LastParsing, NeverBack, AllPublished;
    match m
    case StoreMove(e) => StoreMoveKeeps(y, k, e, parses);
    case Connect(id) => ConnectKeeps(y, k, id, parses);
    case Forward => ForwardKeeps(y, k, parses);
    case Deliver => DeliverKeeps(y, k, parses);
    case Break =>
  }

  lemma {:induction false} RunKeepsSystemInv(y: System, k: EngineKey, ms: seq<Move>, parses: string -> bool)
    requires SystemInv(y, k, parses) && CanRunAll(y, k, ms, parses)
    ensures SystemInv(RunAll(y, k, ms, parses), k, parses)
    decreases |ms|
  {
    hide SystemInv, CanMove, MoveOf;
    if ms != [] {
      MoveKeepsInv(y, k, ms[0], parses);
      RunKeepsSystemInv(MoveOf(y, k, ms[0], parses), k, ms[1..], parses);
    }
  }

  lemma AnyRunInv(k: EngineKey, ms: seq<Move>, parses: string -> bool)
    requires CanRunAll(DISCONNECTED, k, ms, parses)
    ensures SystemInv(RunAll(DISCONNECTED, k, ms, parses), k, parses)
  {
    assert Inv(EMPTY);
    assert SystemInv(DISCONNECTED, k, parses);
    RunKeepsSystemInv(DISCONNECTED, k, ms, parses);
  }

  // ----- The engine's view -----

  /** For any pattern of stream failures, the bundles an engine applies never go back in publication order. */
  lemma EngineNeverGoesBack(k: EngineKey, ms: seq<Move>, parses: string -> bool)
    requires CanRunAll(DISCONNECTED, k, ms, parses)
    ensures var y := RunAll(DISCONNECTED, k, ms, parses);
            NeverBack(y.applied) && AllPublished(y.store, k, y.applied)
  {
    hide CanRunAll, RunAll;
    AnyRunInv(k, ms, parses);
  }

  /** Connected, nothing in the channel or on the wire, and no store method mid-step. */
  predicate Settled(y: System) {
    && y.store.mu.Free?
    && y.conn.Some?
    && y.conn.value in y.store.subs
    && var sub := y.store.subs[y.conn.value];
    && sub.initial.None? && sub.slot.None?
    && y.wire == []
  }

  lemma SettledHasCurrent(y: System, k: EngineKey, parses: string -> bool)
    requires SystemInv(y, k, parses) && Settled(y)
    ensures k in y.store.bundles ==>
              && y.applied != []
              && y.applied[|y.applied| - 1].bundle == y.store.bundles[k]
              && (parses(y.store.bundles[k].compiled) ==>
                    y.active.Some? && y.active.value.bundle == y.store.bundles[k])
    ensures k !in y.store.bundles ==> y.applied == [] && y.active.None?
  {
    hide NeverBack, AllPublished, MutexInv, Increasing, Behind;
    assert SubInv(y.store, y.conn.value) && HoldsLast(y.store, k);
  }

  /** Whenever it is connected and drained and the store at rest, the engine runs the store's current bundle, if that
      parses; before any publication it still has the rules it started with. */
  lemma EngineAgreement(k: EngineKey, ms: seq<Move>, parses: string -> bool)
    requires CanRunAll(DISCONNECTED, k, ms, parses) && Settled(RunAll(DISCONNECTED, k, ms, parses))
    ensures var y := RunAll(DISCONNECTED, k, ms, parses);
            && (k !in y.store.bundles ==> y.active.None?)
            && (k in y.store.bundles && parses(y.store.bundles[k].compiled) ==>
                  y.active.Some? && y.active.value.bundle == y.store.bundles[k])
  {
    hide CanRunAll, RunAll;
    AnyRunInv(k, ms, parses);
    SettledHasCurrent(RunAll(DISCONNECTED, k, ms, parses), k, parses);
  }

  // ----- An engine at rest -----

  /** Connected, nothing on the wire, no store method mid-step, and nothing left to do on its subscription: neither the
      initial send nor a receive can proceed. */
  predicate AtRest(y: System) {
    && y.store.mu.Free?
    && y.conn.Some?
    && y.conn.value in y.store.subs
    && y.wire == []
    && !Enabled(y.store, SendInitial(y.conn.value))
    && !Enabled(y.store, Receive(y.conn.value))
  }

  /** The stream's `Subscribe` lost the race with a publication and waits on its own full channel. */
  predicate Starved(y: System) { y.conn.Some? && SubscribeBlocked(y.store, y.conn.value) }

  lemma SettledOrStarved(y: System, k: EngineKey, parses: string -> bool)
    requires SystemInv(y, k, parses)
    ensures AtRest(y) && !Starved(y) <==> Settled(y)
  {
    hide Inv, LastParsing, NeverBack, AllPublished;
  }

  /** The newest publication is among the applied bundles. */
  ghost predicate HasLatest(y: System, k: EngineKey) {
    exists i :: 0 <= i < |y.applied| && y.applied[i].pos + 1 == |Published(y.store, k)|
  }

  lemma StarvedLacksLatest(y: System, k: EngineKey, parses: string -> bool)
    requires SystemInv(y, k, parses) && y.store.mu.Free? && Starved(y) && y.wire == []
    ensures !HasLatest(y, k)
    ensures y.active.Some? ==> y.active.value.pos + 1 < |Published(y.store, k)|
  {
    hide NeverBack, MutexInv, BundlesInv;
    assert SubInv(y.store, y.conn.value);
    assert y.applied[y.base..] == [];
    LastParsingIsApplied(y.applied, parses);
  }

  lemma {:induction false} LastParsingIsApplied(ms: seq<Message>, parses: string -> bool)
    ensures LastParsing(ms, parses).Some? ==> LastParsing(ms, parses).value in ms
  {
    if ms != [] {
      LastParsingIsApplied(ms[..|ms| - 1], parses);
    }
  }

  lemma SettledHasLatest(y: System, k: EngineKey, parses: string -> bool)
    requires SystemInv(y, k, parses) && Settled(y) && k in y.store.bundles
    ensures HasLatest(y, k)
  {
    hide LastParsing, NeverBack, AllPublished, MutexInv;
    assert SubInv(y.store, y.conn.value) && HoldsLast(y.store, k);
    var sub := y.store.subs[y.conn.value];
    assert sub.received == y.applied[y.base..];
    assert y.applied[|y.applied| - 1].pos + 1 == |Published(y.store, k)|;
  }

  /** At rest an engine has been handed the newest publication exactly when its subscription is not starved. */
  lemma LatestIffNotStarved(k: EngineKey, ms: seq<Move>, parses: string -> bool)
    requires CanRunAll(DISCONNECTED, k, ms, parses)
    requires AtRest(RunAll(DISCONNECTED, k, ms, parses)) && k in RunAll(DISCONNECTED, k, ms, parses).store.bundles
    ensures var y := RunAll(DISCONNECTED, k, ms, parses);
            !Starved(y) <==> HasLatest(y, k)
  {
    hide CanRunAll, RunAll;
    AnyRunInv(k, ms, parses);
    RestLatestIffNotStarved(RunAll(DISCONNECTED, k, ms, parses), k, parses);
  }

  lemma RestLatestIffNotStarved(y: System, k: EngineKey, parses: string -> bool)
    requires SystemInv(y, k, parses) && AtRest(y) && k in y.store.bundles
    ensures !Starved(y) <==> HasLatest(y, k)
  {
    hide SystemInv, Settled, HasLatest;
    SettledOrStarved(y, k, parses);
    if Starved(y) {
      StarvedLacksLatest(y, k, parses);
    } else {
      SettledHasLatest(y, k, parses);
    }
  }

  /** Nothing has gone through a starved stream. */
  lemma StarvedGotNothing(y: System, k: EngineKey, parses: string -> bool)
    requires SystemInv(y, k, parses) && Starved(y)
    ensures y.wire == [] && y.store.subs[y.conn.value].key == k
  {
    hide NeverBack, AllPublished, LastParsing, MutexInv, BundlesInv;
    assert SubInv(y.store, y.conn.value);
  }

  lemma StarvedStep(y: System, k: EngineKey, m: Move, parses: string -> bool)
    requires CanMove(y, k, m) && m != Break && Starved(y) && y.store.subs[y.conn.value].key == k
    requires !Awaits(y.store, y.conn.value) && y.wire == []
    requires |Published(MoveOf(y, k, m, parses).store, k)| == |Published(y.store, k)|
    ensures var z := MoveOf(y, k, m, parses);
            && z == y.(store := z.store) && Starved(z) && !Awaits(z.store, z.conn.value)
            && z.store.subs[z.conn.value] == y.store.subs[y.conn.value]
  {
    hide Apply, Published, Awaits;
    BlockedStep(y.store, m.event, y.conn.value);
  }

  lemma {:induction false} PublishedOnlyGrowsInRuns(y: System, k: EngineKey, ms: seq<Move>, parses: string -> bool)
    requires CanRunAll(y, k, ms, parses)
    ensures |Published(y.store, k)| <= |Published(RunAll(y, k, ms, parses).store, k)|
    decreases |ms|
  {
    if ms != [] {
      MovePublishes(y, k, ms[0], parses);
      PublishedOnlyGrowsInRuns(MoveOf(y, k, ms[0], parses), k, ms[1..], parses);
    }
  }

  lemma MovePublishes(y: System, k: EngineKey, m: Move, parses: string -> bool)
    requires CanMove(y, k, m)
    ensures |Published(y.store, k)| <= |Published(MoveOf(y, k, m, parses).store, k)|
  {
    hide Apply, Published, Enabled;
    match m
    case StoreMove(e) => PublicationOfStep(y.store, e, k);
    case Connect(id) => PublicationOfStep(y.store, Register(id, k), k);
    case Forward => PublicationOfStep(y.store, Receive(y.conn.value), k);
    case Deliver =>
    case Break =>
  }

  /** A starved engine keeps the rules it has, through every run with no further publication to its key and no break of
      its stream: nothing else in the system can bring it the newest bundle. */
  lemma {:induction false} StarvedStaysStarved(y: System, k: EngineKey, ms: seq<Move>, parses: string -> bool)
    requires CanRunAll(y, k, ms, parses) && Break !in ms
    requires Starved(y) && y.store.subs[y.conn.value].key == k && !Awaits(y.store, y.conn.value) && y.wire == []
    requires |Published(RunAll(y, k, ms, parses).store, k)| == |Published(y.store, k)|
    ensures var z := RunAll(y, k, ms, parses);
            z.active == y.active && z.applied == y.applied && z.conn == y.conn && Starved(z)
    decreases |ms|
  {
    hide CanMove, MoveOf, Published, Awaits;
    if ms != [] {
      var z := MoveOf(y, k, ms[0], parses);
      MovePublishes(y, k, ms[0], parses);
      PublishedOnlyGrowsInRuns(z, k, ms[1..], parses);
      StarvedStep(y, k, ms[0], parses);
      StarvedStaysStarved(z, k, ms[1..], parses);
    }
  }

  /** A run of the store with no stream open, as moves. */
  function StoreMoves(es: seq<Event>): seq<Move> {
    if es == [] then [] else [StoreMove(es[0])] + StoreMoves(es[1..])
  }

  lemma {:induction false} StoreRunLifts(y: System, k: EngineKey, es: seq<Event>, parses: string -> bool)
    requires y.conn.None? && CanRun(y.store, es)
    ensures CanRunAll(y, k, StoreMoves(es), parses)
    ensures RunAll(y, k, StoreMoves(es), parses) == y.(store := Run(y.store, es))
    decreases |es|
  {
    hide Enabled, Apply;
    if es != [] {
      var z := MoveOf(y, k, StoreMove(es[0]), parses);
      StoreRunLifts(z, k, es[1..], parses);
      assert StoreMoves(es)[1..] == StoreMoves(es[1..]);
    }
  }

  /** The disconnect of any starved engine and the next publication to its key can deadlock the store for good. */
  lemma StarvedDisconnectCanDeadlock(y: System, k: EngineKey, b: Bundle, parses: string -> bool) returns (ms: seq<Move>)
    requires SystemInv(y, k, parses) && y.store.mu.Free? && Starved(y)
    ensures CanRunAll(y, k, ms, parses) && ms != [] && ms[0] == Break
    ensures var s := RunAll(y, k, ms, parses).store;
            && Deadlocked(s) && s.mu.id == y.conn.value
            && s.published == y.store.published[k := Published(y.store, k) + [b]]
  {
    hide SystemInv, Inv, Deadlocked;
    assert Inv(y.store) by { StoreIsSound(y, k, parses); }
    StarvedGotNothing(y, k, parses);
    var es := BlockedSubscribeCanDeadlock(y.store, y.conn.value, b);
    var z := MoveOf(y, k, Break, parses);
    StoreRunLifts(z, k, es, parses);
    ms := [Break] + StoreMoves(es);
    assert ms[1..] == StoreMoves(es);
  }

  lemma StoreIsSound(y: System, k: EngineKey, parses: string -> bool)
    requires SystemInv(y, k, parses)
    ensures Inv(y.store)
  {
  }

  /** The engine can get into such a state. */
  ghost predicate Reached(y: System, k: EngineKey, parses: string -> bool) {
    exists ms :: CanRunAll(DISCONNECTED, k, ms, parses) && RunAll(DISCONNECTED, k, ms, parses) == y
  }

  lemma {:induction false} RunAllAppend(y: System, k: EngineKey, ms: seq<Move>, m: Move, parses: string -> bool)
    requires CanRunAll(y, k, ms, parses) && CanMove(RunAll(y, k, ms, parses), k, m)
    ensures CanRunAll(y, k, ms + [m], parses)
    ensures RunAll(y, k, ms + [m], parses) == MoveOf(RunAll(y, k, ms, parses), k, m, parses)
    decreases |ms|
  {
    hide CanMove, MoveOf;
    if ms == [] {
      assert ms + [m] == [m] && [m][1..] == [];
    } else {
      assert (ms + [m])[0] == ms[0] && (ms + [m])[1..] == ms[1..] + [m];
      RunAllAppend(MoveOf(y, k, ms[0], parses), k, ms[1..], m, parses);
    }
  }

  lemma Go(y: System, k: EngineKey, m: Move, parses: string -> bool) returns (z: System)
    requires Reached(y, k, parses) && CanMove(y, k, m)
    ensures z == MoveOf(y, k, m, parses) && Reached(z, k, parses)
  {
    hide CanMove, MoveOf;
    var ms :| CanRunAll(DISCONNECTED, k, ms, parses) && RunAll(DISCONNECTED, k, ms, parses) == y;
    RunAllAppend(DISCONNECTED, k, ms, m, parses);
    z := MoveOf(y, k, m, parses);
  }

  /** One whole publication, to nobody or to the stream's subscription with its empty channel. */
  lemma Broadcast(y: System, k: EngineKey, b: Bundle, parses: string -> bool) returns (z: System)
    requires Reached(y, k, parses) && y.store.mu.Free? && y.store.subs.Keys == (if y.conn.Some? then {y.conn.value} else {})
    requires forall id :: id in y.store.subs ==> var sub := y.store.subs[id]; sub.key == k && Registered(sub) && sub.slot.None?
    ensures Reached(z, k, parses) && z == y.(store := z.store) && z.store.mu.Free?
    ensures z.store.bundles == y.store.bundles[k := b]
    ensures z.store.published == y.store.published[k := Published(y.store, k) + [b]]
    ensures z.store.subs == WithSlots(y.store.subs, y.store.subs.Keys, Message(b, |Published(y.store, k)|))
  {
    hide Reached, Published;
    z := Go(y, k, StoreMove(BeginPublish(k, b)), parses);
    assert z.store.mu.rest == y.store.subs.Keys;
    if y.conn.Some? {
      z := Go(z, k, StoreMove(Visit(y.conn.value)), parses);
      assert z.store.mu.rest == {};
      z := Go(z, k, StoreMove(SendStep), parses);
    }
    z := Go(z, k, StoreMove(EndPublish), parses);
  }

  /** A connection after one publication. */
  lemma ConnectAfterOne(k: EngineKey, b: Bundle, parses: string -> bool) returns (y: System)
    ensures Reached(y, k, parses) && y.store.mu.Free? && y.conn == Some(0) && y.wire == y.applied == [] && y.active.None?
    ensures y.store.subs == map[0 := Subscription(k, None, Some(Message(b, 0)), 1, None, None, [], false)]
    ensures Published(y.store, k) == [b]
  {
    assert CanRunAll(DISCONNECTED, k, [], parses);
    hide Reached;
    y := Broadcast(DISCONNECTED, k, b, parses);
    assert y.store.subs == map[] && Published(y.store, k) == [b];
    y := Go(y, k, Connect(0), parses);
  }

  /** Two publications with a connection in between leave the engine at rest and starved, with neither applied. */
  lemma StarvedEngineIsReachable(k: EngineKey, b1: Bundle, b2: Bundle, parses: string -> bool) returns (y: System)
    ensures Reached(y, k, parses) && AtRest(y) && Starved(y)
    ensures Published(y.store, k) == [b1, b2] && y.applied == [] && y.active.None?
  {
    hide Reached;
    y := ConnectAfterOne(k, b1, parses);
    y := Broadcast(y, k, b2, parses);
    assert y.store.subs[0] == Subscription(k, Some(Message(b2, 1)), Some(Message(b1, 0)), 1, None, None, [], false);
  }
}
