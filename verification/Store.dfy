/**
 internal/rulestore as a transition system over the steps its goroutines really take.

 A publisher holds the mutex across the map update and the whole fan-out, so at most one fan-out is under way; each of
 its sends is the code's try-send, try-drain, blocking send. `Subscribe` registers and reads the current bundle under
 the mutex, releases it, and only then sends the initial bundle. A subscription's channel holds one value and cannot be
 received from before `Subscribe` has returned it; its consumer may leave, as a stream's handler does when the stream
 is over, and then receives no more but has still to unsubscribe. Which goroutine moves next, and in which order a
 fan-out visits its subscribers, is free.
 */
module Store {
  import opened Wrappers

  datatype Bundle = Bundle(ruleSetName: string, sha256: string, compiled: string, generatedAt: int)

  datatype EngineKey = EngineKey(ns: string, name: string)

  /** A bundle in a channel, with the position of its publication among those to its key (history only). */
  datatype Message = Message(bundle: Bundle, pos: nat)

  /**
   One subscription. `slot` is the channel buffer, `initial` the value `Subscribe` has still to send, and `left` says
   that the consumer receives no more. The rest records history: the number of publications to the key at registration,
   when the initial send went through and at unsubscription, and what the consumer received.
   */
  datatype Subscription = Subscription(
    key: EngineKey,
    slot: Option<Message>,
    initial: Option<Message>,
    from: nat,
    sentAt: Option<nat>,
    until: Option<nat>,
    received: seq<Message>,
    left: bool)

  /** Where a fan-out stands with one subscriber's channel. */
  datatype SendStage = TrySend | TryDrain | BlockingSend

  /** The holder of the mutex between steps, if any: a publisher in its fan-out loop. */
  datatype Mutex =
    | Free
    | FanOut(key: EngineKey, message: Message, rest: set<nat>)
    | Sending(key: EngineKey, message: Message, rest: set<nat>, id: nat, stage: SendStage)

  datatype State = State(
    mu: Mutex,
    bundles: map<EngineKey, Bundle>,
    subs: map<nat, Subscription>,
    published: map<EngineKey, seq<Bundle>>)

  datatype Event =
    | BeginPublish(key: EngineKey, bundle: Bundle)
    | BeginPublishIfChanged(key: EngineKey, bundle: Bundle)
    | Visit(id: nat)
    | SendStep
    | EndPublish
    | Register(id: nat, key: EngineKey)
    | SendInitial(id: nat)
    | Receive(id: nat)
    | Leave(id: nat)
    | Unsubscribe(id: nat)

  const EMPTY := State(Free, map[], map[], map[])

  /** All bundles accepted for a key so far, in order. */
  function Published(s: State, k: EngineKey): seq<Bundle> {
    if k in s.published then s.published[k] else []
  }

  predicate Registered(sub: Subscription) { sub.until.None? }

  function Subscribers(s: State, k: EngineKey): set<nat> {
    set id | id in s.subs && s.subs[id].key == k && Registered(s.subs[id])
  }

  // ----- Steps -----

  /** Whether the step can be taken; a send on a full channel and a receive on an empty one wait. */
  predicate Enabled(s: State, e: Event) {
    match e
    case BeginPublish(_, _) => s.mu.Free?
    case BeginPublishIfChanged(_, _) => s.mu.Free?
    case Visit(id) => s.mu.FanOut? && id in s.mu.rest
    case SendStep => s.mu.Sending? && s.mu.id in s.subs && (s.mu.stage.BlockingSend? ==> s.subs[s.mu.id].slot.None?)
    case EndPublish => s.mu.FanOut? && s.mu.rest == {}
    case Register(id, _) => s.mu.Free? && id !in s.subs
    case SendInitial(id) => id in s.subs && s.subs[id].initial.Some? && s.subs[id].slot.None?
    case Receive(id) => id in s.subs && s.subs[id].initial.None? && s.subs[id].slot.Some? && !s.subs[id].left
    case Leave(id) => id in s.subs && s.subs[id].initial.None?
    case Unsubscribe(id) => s.mu.Free? && id in s.subs && s.subs[id].initial.None?
  }

  /** `Publish` from taking the mutex to the start of its fan-out. */
  function Accept(s: State, k: EngineKey, b: Bundle): State {
    s.(mu := FanOut(k, Message(b, |Published(s, k)|), Subscribers(s, k)),
       bundles := s.bundles[k := b],
       published := s.published[k := Published(s, k) + [b]])
  }

  /** The gate of `PublishIfChanged`: the digest alone decides. */
  predicate Unchanged(s: State, k: EngineKey, b: Bundle) {
    k in s.bundles && s.bundles[k].sha256 == b.sha256
  }

  function Put(s: State, id: nat, sub: Subscription): State {
    s.(subs := s.subs[id := sub])
  }

  /** One step of `sendLatest`: a completed send moves the fan-out on, a full channel is drained before the second. */
  function SendLatestStep(s: State): State
    requires Enabled(s, SendStep)
  {
    var Sending(k, m, rest, id, stage) := s.mu;
    var sub := s.subs[id];
    match stage
    case TrySend =>
      if sub.slot.None? then Put(s, id, sub.(slot := Some(m))).(mu := FanOut(k, m, rest))
      else s.(mu := Sending(k, m, rest, id, TryDrain))
    case TryDrain =>
      Put(s, id, sub.(slot := None)).(mu := Sending(k, m, rest, id, BlockingSend))
    case BlockingSend =>
      Put(s, id, sub.(slot := Some(m))).(mu := FanOut(k, m, rest))
  }

  /** `Subscribe` up to the release of the mutex. */
  function RegisterStep(s: State, id: nat, k: EngineKey): State {
    var n := |Published(s, k)|;
    var initial := if k in s.bundles && n > 0 then Some(Message(s.bundles[k], n - 1)) else None;
    Put(s, id, Subscription(k, None, initial, n, None, None, [], false))
  }

  function Apply(s: State, e: Event): State
    requires Enabled(s, e)
  {
    match e
    case BeginPublish(k, b) => Accept(s, k, b)
    case BeginPublishIfChanged(k, b) => if Unchanged(s, k, b) then s else Accept(s, k, b)
    case Visit(id) => s.(mu := Sending(s.mu.key, s.mu.message, s.mu.rest - {id}, id, TrySend))
    case SendStep => SendLatestStep(s)
    case EndPublish => s.(mu := Free)
    case Register(id, k) => RegisterStep(s, id, k)
    case SendInitial(id) =>
      var sub := s.subs[id];
      Put(s, id, sub.(slot := sub.initial, initial := None, sentAt := Some(|Published(s, sub.key)|)))
    case Receive(id) =>
      var sub := s.subs[id];
      Put(s, id, sub.(slot := None, received := sub.received + [sub.slot.value]))
    case Leave(id) => Put(s, id, s.subs[id].(left := true))
    case Unsubscribe(id) =>
      var sub := s.subs[id];
      if Registered(sub) then Put(s, id, sub.(until := Some(|Published(s, sub.key)|))) else s
  }

  /** Every event of the run can be taken where it comes. */
  ghost predicate CanRun(s: State, es: seq<Event>)
    decreases |es|
  {
    es == [] || (Enabled(s, es[0]) && CanRun(Apply(s, es[0]), es[1..]))
  }

  ghost function Run(s: State, es: seq<Event>): State
    requires CanRun(s, es)
    decreases |es|
  {
    if es == [] then s else Run(Apply(s, es[0]), es[1..])
  }

  ghost predicate Reachable(s: State) {
    exists es :: CanRun(EMPTY, es) && Run(EMPTY, es) == s
  }

  // ----- The invariant -----

  /** The fan-out under way has still to bring its bundle to this subscription. */
  predicate Awaits(s: State, id: nat) {
    match s.mu
    case Free => false
    case FanOut(_, _, rest) => id in rest
    case Sending(_, _, rest, cur, _) => id in rest || id == cur
  }

  /** The publications that count for the subscription end here. */
  function End(s: State, sub: Subscription): nat {
    if sub.until.Some? then sub.until.value else |Published(s, sub.key)|
  }

  /** The first position the subscription may see: the bundle current at registration. */
  function Start(sub: Subscription): nat { if sub.from == 0 then 0 else sub.from - 1 }

  ghost predicate MessageIn(s: State, sub: Subscription, m: Message) {
    && Start(sub) <= m.pos < End(s, sub) <= |Published(s, sub.key)|
    && m.bundle == Published(s, sub.key)[m.pos]
  }

  ghost predicate Increasing(ms: seq<Message>) {
    forall i, j :: 0 <= i < j < |ms| ==> ms[i].pos < ms[j].pos
  }

  /** One past the last position received, or the start. */
  function Next(sub: Subscription): nat {
    if sub.received == [] then Start(sub) else sub.received[|sub.received| - 1].pos + 1
  }

  /** What a subscription holds and has received is a set of publications in increasing order. */
  ghost predicate Ordered(s: State, sub: Subscription) {
    && sub.from <= End(s, sub) <= |Published(s, sub.key)|
    && (forall i :: 0 <= i < |sub.received| ==> MessageIn(s, sub, sub.received[i]))
    && Increasing(sub.received)
    && (sub.slot.Some? ==> MessageIn(s, sub, sub.slot.value) && Next(sub) <= sub.slot.value.pos)
    && (sub.initial.Some? ==>
          && Registered(sub) && sub.from > 0 && sub.received == [] && sub.sentAt.None?
          && MessageIn(s, sub, sub.initial.value) && sub.initial.value.pos == sub.from - 1
          && (sub.slot.Some? ==> sub.from <= sub.slot.value.pos))
    && (sub.sentAt.Some? ==> sub.initial.None? && sub.from > 0)
    && (sub.initial.None? && sub.from > 0 ==> sub.sentAt.Some?)
  }

  /** The newest relevant publication is in the slot, or it was the last one received. */
  ghost predicate Coherent(s: State, sub: Subscription) {
    var n := End(s, sub);
    && (sub.initial.None? ==>
          if sub.slot.Some? then sub.slot.value.pos + 1 == n else Next(sub) == n)
    && (sub.initial.Some? ==>
          if sub.slot.Some? then sub.slot.value.pos + 1 == n else n == sub.from)
  }

  /** The newest publication has not reached the subscription yet. */
  ghost predicate Behind(s: State, sub: Subscription) {
    && Registered(sub)
    && sub.from < End(s, sub)
    && (sub.slot.Some? ==> sub.slot.value.pos + 1 < End(s, sub))
    && Next(sub) < End(s, sub)
  }

  /** A publication was accepted between the registration and the initial send. */
  predicate Raced(s: State, sub: Subscription) {
    || (sub.initial.Some? && sub.from < |Published(s, sub.key)|)
    || (sub.sentAt.Some? && sub.from < sub.sentAt.value)
  }

  ghost predicate SubInv(s: State, id: nat)
    requires id in s.subs
  {
    var sub := s.subs[id];
    && Ordered(s, sub)
    && (if Awaits(s, id) then Behind(s, sub) && s.mu.key == sub.key else Coherent(s, sub))
    && (s.mu.Sending? && s.mu.id == id && s.mu.stage.BlockingSend? && sub.slot.Some? ==>
          Raced(s, sub) && sub.initial.None?)
  }

  ghost predicate MutexInv(s: State) {
    !s.mu.Free? ==>
      && s.mu.message.pos + 1 == |Published(s, s.mu.key)|
      && s.mu.message.bundle == Published(s, s.mu.key)[s.mu.message.pos]
      && (s.mu.rest <= s.subs.Keys)
      && (s.mu.Sending? ==> s.mu.id in s.subs && s.mu.id !in s.mu.rest)
  }

  /** The map holds the last publication of every key that has one. */
  ghost predicate BundlesInv(s: State) { forall k :: HoldsLast(s, k) }

  predicate HoldsLast(s: State, k: EngineKey) {
    && (k in s.bundles <==> |Published(s, k)| > 0)
    && (k in s.bundles ==> s.bundles[k] == Published(s, k)[|Published(s, k)| - 1])
  }

  ghost predicate Inv(s: State) {
    && MutexInv(s)
    && BundlesInv(s)
    && forall id :: id in s.subs ==> SubInv(s, id)
  }

  // ----- Every step keeps it -----

  lemma AcceptKeepsInv(s: State, k: EngineKey, b: Bundle)
    requires Inv(s) && s.mu.Free?
    ensures Inv(Accept(s, k, b))
  {
    hide SubInv, Awaits, BundlesInv;
    var t := Accept(s, k, b);
    AcceptKeepsBundles(s, k, b);
    forall id | id in t.subs ensures SubInv(t, id) {
      assert SubInv(s, id);
      AcceptKeepsSub(s, k, b, id);
    }
  }

  lemma AcceptKeepsBundles(s: State, k: EngineKey, b: Bundle)
    requires BundlesInv(s)
    ensures BundlesInv(Accept(s, k, b))
  {
    hide HoldsLast, Accept;
    forall j ensures HoldsLast(Accept(s, k, b), j) {
      AcceptKeepsBundle(s, k, b, j);
    }
  }

  lemma AcceptKeepsBundle(s: State, k: EngineKey, b: Bundle, j: EngineKey)
    requires HoldsLast(s, j)
    ensures HoldsLast(Accept(s, k, b), j)
  {
    hide Subscribers;
  }

  lemma AcceptKeepsOrdered(s: State, k: EngineKey, b: Bundle, sub: Subscription)
    requires Ordered(s, sub)
    ensures Ordered(Accept(s, k, b), sub)
  {
    hide Increasing, Subscribers;
  }

  lemma AcceptKeepsSub(s: State, k: EngineKey, b: Bundle, id: nat)
    requires s.mu.Free? && id in s.subs && SubInv(s, id)
    ensures SubInv(Accept(s, k, b), id)
  {
    AcceptKeepsOrdered(s, k, b, s.subs[id]);
    hide Increasing;
  }

  /** A step that replaces one subscription touches no other. */
  lemma PutKeepsOthers(s: State, t: State, id: nat)
    requires Inv(s) && t.published == s.published && id in s.subs && id in t.subs
    requires t.subs == s.subs[id := t.subs[id]]
    requires forall i :: i != id && i in s.subs ==> Awaits(s, i) == Awaits(t, i)
    requires t.mu.Free? == s.mu.Free? && (!s.mu.Free? ==> t.mu.key == s.mu.key)
    requires t.mu.Sending? && t.mu.stage.BlockingSend? ==> t.mu.id == id || t.mu == s.mu
    ensures forall i :: i != id && i in t.subs ==> SubInv(t, i)
  {
    forall i | i != id && i in t.subs ensures SubInv(t, i) {
      assert SubInv(s, i);
      SameSub(s, t, i);
    }
  }

  lemma SameSub(s: State, t: State, i: nat)
    requires i in s.subs && i in t.subs && t.subs[i] == s.subs[i] && t.published == s.published && SubInv(s, i)
    requires Awaits(s, i) == Awaits(t, i)
    requires t.mu.Free? == s.mu.Free? && (!s.mu.Free? ==> t.mu.key == s.mu.key)
    requires t.mu.Sending? && t.mu.stage.BlockingSend? && t.mu.id == i ==> t.mu == s.mu
    ensures SubInv(t, i)
  {
  }

  lemma SamePublications(s: State, t: State)
    requires t.published == s.published && t.bundles == s.bundles
    ensures BundlesInv(s) ==> BundlesInv(t)
    ensures forall k :: Published(t, k) == Published(s, k)
  {
    forall k | BundlesInv(s) ensures HoldsLast(t, k) {
      assert HoldsLast(s, k);
    }
  }

  /** A subscription's order does not depend on the mutex or on other subscriptions. */
  lemma SlotKeepsOrdered(s: State, t: State, sub: Subscription, slot: Option<Message>)
    requires Ordered(s, sub) && t.published == s.published
    requires slot.Some? ==> MessageIn(s, sub, slot.value) && Next(sub) <= slot.value.pos
    requires slot.Some? && sub.initial.Some? ==> sub.from <= slot.value.pos
    ensures Ordered(t, sub.(slot := slot))
  {
    hide Increasing;
  }

  lemma SendArrives(s: State)
    requires Enabled(s, SendStep) && MutexInv(s) && SubInv(s, s.mu.id) && s.subs[s.mu.id].slot.None?
    requires !s.mu.stage.TryDrain?
    ensures SubInv(Apply(s, SendStep), s.mu.id)
  {
    SlotKeepsOrdered(s, Apply(s, SendStep), s.subs[s.mu.id], Some(s.mu.message));
    hide Ordered, MessageIn;
  }

  lemma SendFindsFull(s: State)
    requires Enabled(s, SendStep) && SubInv(s, s.mu.id) && s.mu.stage.TrySend? && s.subs[s.mu.id].slot.Some?
    ensures SubInv(Apply(s, SendStep), s.mu.id)
  {
    hide Increasing;
  }

  lemma SendDrains(s: State)
    requires Enabled(s, SendStep) && SubInv(s, s.mu.id) && s.mu.stage.TryDrain?
    ensures SubInv(Apply(s, SendStep), s.mu.id)
  {
    SlotKeepsOrdered(s, Apply(s, SendStep), s.subs[s.mu.id], None);
    hide Ordered, MessageIn;
  }

  lemma SendStepKeepsSub(s: State)
    requires Enabled(s, SendStep) && MutexInv(s) && SubInv(s, s.mu.id)
    ensures SubInv(Apply(s, SendStep), s.mu.id)
  {
    hide SubInv, MutexInv, SendLatestStep;
    if s.mu.stage.TryDrain? {
      SendDrains(s);
    } else if s.mu.stage.TrySend? && s.subs[s.mu.id].slot.Some? {
      SendFindsFull(s);
    } else {
      SendArrives(s);
    }
  }

  lemma SendStepKeepsInv(s: State)
    requires Inv(s) && Enabled(s, SendStep)
    ensures Inv(Apply(s, SendStep))
  {
    hide SubInv, BundlesInv, Published;
    var t := Apply(s, SendStep);
    var id := s.mu.id;
    SendStepKeepsSub(s);
    SamePublications(s, t);
    PutKeepsOthers(s, t, id);
  }

  lemma SendInitialKeepsSub(s: State, id: nat)
    requires Enabled(s, SendInitial(id)) && SubInv(s, id)
    ensures SubInv(Apply(s, SendInitial(id)), id)
  {
    hide Increasing;
  }

  lemma ReceiveKeepsSub(s: State, id: nat)
    requires Enabled(s, Receive(id)) && SubInv(s, id)
    ensures SubInv(Apply(s, Receive(id)), id)
  {
    ReceiveKeepsOrdered(s, Apply(s, Receive(id)), s.subs[id]);
    hide Ordered, Increasing;
  }

  lemma ReceiveKeepsOrdered(s: State, t: State, sub: Subscription)
    requires Ordered(s, sub) && t.published == s.published && sub.slot.Some? && sub.initial.None?
    ensures Ordered(t, sub.(slot := None, received := sub.received + [sub.slot.value]))
  {
    assert sub.received != [] ==> MessageIn(s, sub, sub.received[|sub.received| - 1]);
  }

  lemma LeaveKeepsSub(s: State, id: nat)
    requires Enabled(s, Leave(id)) && SubInv(s, id)
    ensures SubInv(Apply(s, Leave(id)), id)
  {
    LeaveKeepsOrdered(s, Apply(s, Leave(id)), s.subs[id]);
    hide Ordered;
  }

  lemma LeaveKeepsOrdered(s: State, t: State, sub: Subscription)
    requires Ordered(s, sub) && t.published == s.published
    ensures Ordered(t, sub.(left := true))
  {
    hide Increasing;
  }

  lemma UnsubscribeKeepsSub(s: State, id: nat)
    requires Enabled(s, Unsubscribe(id)) && SubInv(s, id)
    ensures SubInv(Apply(s, Unsubscribe(id)), id)
  {
    hide Increasing;
  }

  lemma ConsumerStepKeepsInv(s: State, e: Event)
    requires Inv(s) && Enabled(s, e) && (e.SendInitial? || e.Receive? || e.Leave? || e.Unsubscribe?)
    ensures Inv(Apply(s, e))
  {
    hide SubInv, BundlesInv, Published;
    var t := Apply(s, e);
    match e {
      case SendInitial(id) => SendInitialKeepsSub(s, id);
      case Receive(id) => ReceiveKeepsSub(s, id);
      case Leave(id) => LeaveKeepsSub(s, id);
      case Unsubscribe(id) => UnsubscribeKeepsSub(s, id);
    }
    assert t.subs == s.subs[e.id := t.subs[e.id]] && t.subs.Keys == s.subs.Keys;
    SamePublications(s, t);
    hide Apply, Enabled;
    PutKeepsOthers(s, t, e.id);
  }

  lemma RegisterKeepsInv(s: State, id: nat, k: EngineKey)
    requires Inv(s) && Enabled(s, Register(id, k))
    ensures Inv(RegisterStep(s, id, k))
  {
    hide SubInv, BundlesInv;
    var t := RegisterStep(s, id, k);
    SamePublications(s, t);
    NewSubInv(s, id, k);
    forall i | i != id && i in t.subs ensures SubInv(t, i) {
      assert SubInv(s, i);
      SameSub(s, t, i);
    }
  }

  lemma NewSubInv(s: State, id: nat, k: EngineKey)
    requires BundlesInv(s) && Enabled(s, Register(id, k))
    ensures SubInv(RegisterStep(s, id, k), id)
  {
    assert HoldsLast(s, k);
  }

  lemma VisitKeepsInv(s: State, e: Event)
    requires Inv(s) && Enabled(s, e) && (e.Visit? || e.EndPublish?)
    ensures Inv(Apply(s, e))
  {
    hide SubInv, BundlesInv, Published;
    var t := Apply(s, e);
    SamePublications(s, t);
    forall i | i in t.subs ensures SubInv(t, i) {
      assert SubInv(s, i);
      VisitKeepsSub(s, e, i);
    }
  }

  lemma VisitKeepsSub(s: State, e: Event, i: nat)
    requires Enabled(s, e) && (e.Visit? || e.EndPublish?) && i in s.subs && SubInv(s, i)
    ensures SubInv(Apply(s, e), i)
  {
    hide Increasing;
  }

  lemma StepKeepsInv(s: State, e: Event)
    requires Inv(s) && Enabled(s, e)
    ensures Inv(Apply(s, e))
  {
    hide Inv;
    match e
    case BeginPublish(k, b) => AcceptKeepsInv(s, k, b);
    case BeginPublishIfChanged(k, b) => if !Unchanged(s, k, b) { AcceptKeepsInv(s, k, b); }
    case Visit(_) => VisitKeepsInv(s, e);
    case SendStep => SendStepKeepsInv(s);
    case EndPublish => VisitKeepsInv(s, e);
    case Register(id, k) => RegisterKeepsInv(s, id, k);
    case SendInitial(_) => ConsumerStepKeepsInv(s, e);
    case Receive(_) => ConsumerStepKeepsInv(s, e);
    case Leave(_) => ConsumerStepKeepsInv(s, e);
    case Unsubscribe(_) => ConsumerStepKeepsInv(s, e);
  }

  lemma {:induction false} RunKeepsInv(s: State, es: seq<Event>)
    requires Inv(s) && CanRun(s, es)
    ensures Inv(Run(s, es))
    decreases |es|
  {
    hide Inv, Enabled, Apply;
    if es != [] {
      StepKeepsInv(s, es[0]);
      RunKeepsInv(Apply(s, es[0]), es[1..]);
    }
  }

  lemma ReachableInv(s: State)
    requires Reachable(s)
    ensures Inv(s)
  {
    var es :| CanRun(EMPTY, es) && Run(EMPTY, es) == s;
    assert Inv(EMPTY);
    RunKeepsInv(EMPTY, es);
  }
}
