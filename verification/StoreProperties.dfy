/** What the steps of the store add up to, over every interleaving. */
module StoreProperties {
  import opened Wrappers
  import opened Store

  // ----- Runs -----

  lemma {:induction false} RunAppend(s: State, es: seq<Event>, e: Event)
    requires CanRun(s, es) && Enabled(Run(s, es), e)
    ensures CanRun(s, es + [e]) && Run(s, es + [e]) == Apply(Run(s, es), e)
    decreases |es|
  {
    hide Enabled, Apply;
    if es == [] {
      assert es + [e] == [e] && [e][1..] == [];
    } else {
      assert (es + [e])[0] == es[0] && (es + [e])[1..] == es[1..] + [e];
      RunAppend(Apply(s, es[0]), es[1..], e);
    }
  }

  lemma ReachableStep(s: State, e: Event)
    requires Reachable(s) && Enabled(s, e)
    ensures Reachable(Apply(s, e))
  {
    hide Enabled, Apply;
    var es :| CanRun(EMPTY, es) && Run(EMPTY, es) == s;
    RunAppend(EMPTY, es, e);
  }

  // ----- Delivery order -----

  /** `xs` is `ys` with some entries left out: `at` gives the place of each, strictly increasing. */
  ghost predicate SubsequenceAt(xs: seq<Bundle>, ys: seq<Bundle>, at: seq<nat>) {
    && |at| == |xs|
    && (forall i, j :: 0 <= i < j < |at| ==> at[i] < at[j])
    && (forall i :: 0 <= i < |at| ==> at[i] < |ys| && xs[i] == ys[at[i]])
  }

  ghost predicate IsSubsequence(xs: seq<Bundle>, ys: seq<Bundle>) {
    exists at :: SubsequenceAt(xs, ys, at)
  }

  function Contents(ms: seq<Message>): (bs: seq<Bundle>)
    ensures |bs| == |ms| && forall i :: 0 <= i < |ms| ==> bs[i] == ms[i].bundle
  {
    if ms == [] then [] else Contents(ms[..|ms| - 1]) + [ms[|ms| - 1].bundle]
  }

  /** The bundle current at registration, if any, followed by those accepted while registered. */
  ghost function Window(s: State, id: nat): seq<Bundle>
    requires id in s.subs && Start(s.subs[id]) <= End(s, s.subs[id]) <= |Published(s, s.subs[id].key)|
  {
    Published(s, s.subs[id].key)[Start(s.subs[id])..End(s, s.subs[id])]
  }

  /** The bundle a step adds to the window of a subscription: only an acceptance for its key while registered does. */
  function Accepted(s: State, e: Event, sub: Subscription): seq<Bundle> {
    match e
    case BeginPublish(k, b) => if k == sub.key && Registered(sub) then [b] else []
    case BeginPublishIfChanged(k, b) => if k == sub.key && Registered(sub) && !Unchanged(s, k, b) then [b] else []
    case _ => []
  }

  lemma WindowIsBounded(s: State, id: nat)
    requires Inv(s) && id in s.subs
    ensures Start(s.subs[id]) <= End(s, s.subs[id]) <= |Published(s, s.subs[id].key)|
  {
  }

  /** The window starts as the current bundle at registration, if there is one. */
  lemma WindowAtRegistration(s: State, id: nat, k: EngineKey)
    requires Inv(s) && Enabled(s, Register(id, k))
    ensures var t := Apply(s, Register(id, k));
            && Start(t.subs[id]) <= End(t, t.subs[id]) <= |Published(t, t.subs[id].key)|
            && Window(t, id) == if k in s.bundles then [s.bundles[k]] else []
  {
    assert HoldsLast(s, k);
  }

  /** And it grows by exactly the bundles accepted for its key while it is registered. */
  lemma WindowGrowsByAcceptance(s: State, e: Event, id: nat)
    requires Inv(s) && Enabled(s, e) && id in s.subs
    ensures Start(s.subs[id]) <= End(s, s.subs[id]) <= |Published(s, s.subs[id].key)|
    ensures var t := Apply(s, e);
            && id in t.subs
            && Start(t.subs[id]) <= End(t, t.subs[id]) <= |Published(t, t.subs[id].key)|
            && Window(t, id) == Window(s, id) + Accepted(s, e, s.subs[id])
  {
    hide Inv;
    var t := Apply(s, e);
    var k := s.subs[id].key;
    SubscriptionKeepsItsPlace(s, e, id);
    StepKeepsInv(s, e);
    WindowIsBounded(t, id);
    WindowIsBounded(s, id);
    hide Apply, Enabled, Published, Accepted;
    PublicationOfStep(s, e, k);
    NothingAccepted(s, e, s.subs[id]);
    SliceOfAppend(Published(s, k), Accepted(s, e, s.subs[id]), Start(s.subs[id]), End(s, s.subs[id]));
    SliceOfPrefix(Published(s, k), Published(t, k), Start(s.subs[id]), End(s, s.subs[id]));
  }

  lemma NothingAccepted(s: State, e: Event, sub: Subscription)
    ensures !Registered(sub) || e.Unsubscribe? ==> Accepted(s, e, sub) == []
  {
  }

  lemma SliceOfPrefix(all: seq<Bundle>, longer: seq<Bundle>, lo: nat, hi: nat)
    requires lo <= hi <= |all| && all <= longer
    ensures longer[lo..hi] == all[lo..hi]
  {
  }

  /** A step keeps a subscription's key and start, its receipts unless it is a receive from it, and its end unless it
      unsubscribes. */
  lemma SubscriptionKeepsItsPlace(s: State, e: Event, id: nat)
    requires Enabled(s, e) && id in s.subs
    ensures id in Apply(s, e).subs
    ensures var (sub, sub') := (s.subs[id], Apply(s, e).subs[id]);
            && sub'.key == sub.key && sub'.from == sub.from
            && (e != Receive(id) ==> sub'.received == sub.received)
            && (e != Leave(id) ==> sub'.left == sub.left)
            && sub'.until == (if e == Unsubscribe(id) && sub.until.None? then Some(|Published(s, sub.key)|) else sub.until)
  {
    hide Published, Subscribers, Unchanged, SendLatestStep;
    if e.SendStep? {
      SendChangesSlots(s, id);
    }
  }

  lemma SendChangesSlots(s: State, id: nat)
    requires Enabled(s, SendStep) && id in s.subs
    ensures var t := SendLatestStep(s);
            id in t.subs && t.subs[id] == s.subs[id].(slot := t.subs[id].slot)
  {
  }

  /** A step appends at most one publication to a key. */
  lemma PublicationOfStep(s: State, e: Event, k: EngineKey)
    requires Enabled(s, e)
    ensures forall sub: Subscription :: sub.key == k && Registered(sub) ==>
              Published(Apply(s, e), k) == Published(s, k) + Accepted(s, e, sub)
    ensures Published(s, k) <= Published(Apply(s, e), k)
    ensures e.Unsubscribe? ==> Published(s, k) == Published(Apply(s, e), k)
  {
  }

  /** Whoever adds to what was published to a key has just been accepted for it. */
  lemma OnlyAcceptancePublishes(s: State, e: Event, k: EngineKey)
    requires Enabled(s, e) && Published(Apply(s, e), k) != Published(s, k)
    ensures (e.BeginPublish? || e.BeginPublishIfChanged?) && e.key == k && Apply(s, e) == Accept(s, k, e.bundle)
  {
    hide Subscribers;
  }

  lemma SliceOfAppend(all: seq<Bundle>, more: seq<Bundle>, lo: nat, hi: nat)
    requires lo <= hi <= |all|
    ensures (all + more)[lo..hi] == all[lo..hi]
    ensures (all + more)[lo..|all| + |more|] == all[lo..] + more
    ensures all[lo..hi] + [] == all[lo..hi]
  {
  }

  lemma IncreasingMessagesAreSubsequence(ms: seq<Message>, all: seq<Bundle>, lo: nat, hi: nat)
    requires lo <= hi <= |all| && Increasing(ms)
    requires forall i :: 0 <= i < |ms| ==> lo <= ms[i].pos < hi && ms[i].bundle == all[ms[i].pos]
    ensures IsSubsequence(Contents(ms), all[lo..hi])
  {
    hide Contents, IsSubsequence;
    var at := seq(|ms|, i requires 0 <= i < |ms| && lo <= ms[i].pos => ms[i].pos - lo);
    assert forall i :: 0 <= i < |ms| ==> at[i] == ms[i].pos - lo;
    AtPositions(Contents(ms), all[lo..hi], at);
  }

  lemma AtPositions(xs: seq<Bundle>, ys: seq<Bundle>, at: seq<nat>)
    requires SubsequenceAt(xs, ys, at)
    ensures IsSubsequence(xs, ys)
  {
  }

  // ----- The end of a subscription -----

  /** Unsubscribing takes the subscription, and no other, out of every fan-out to come. */
  lemma UnsubscribeRemoves(s: State, id: nat)
    requires Enabled(s, Unsubscribe(id))
    ensures var t := Apply(s, Unsubscribe(id));
            && (forall k :: Subscribers(t, k) == Subscribers(s, k) - {id})
            && (forall i :: i != id && i in s.subs ==> i in t.subs && t.subs[i] == s.subs[i])
            && Ended(t, id) && t.subs[id].slot == s.subs[id].slot && t.subs[id].received == s.subs[id].received
  {
  }

  /** The subscription is over: it is not registered, and no fan-out has it on its way. */
  predicate Ended(s: State, id: nat) {
    id in s.subs && !Registered(s.subs[id]) && s.subs[id].initial.None? && !Awaits(s, id)
  }

  /** It gets nothing more: at most the bundle already in its channel is received. */
  predicate GotNoMore(sub: Subscription, sub': Subscription) {
    || (sub'.slot == sub.slot && sub'.received == sub.received)
    || (sub.slot.Some? && sub'.slot.None? && sub'.received == sub.received + [sub.slot.value])
  }

  lemma EndedStep(s: State, e: Event, id: nat)
    requires Enabled(s, e) && Ended(s, id)
    ensures Ended(Apply(s, e), id) && GotNoMore(s.subs[id], Apply(s, e).subs[id])
    ensures End(Apply(s, e), Apply(s, e).subs[id]) == End(s, s.subs[id])
    ensures forall k :: id !in Subscribers(Apply(s, e), k)
  {
    hide Published, Unchanged, SendLatestStep;
    if e.SendStep? {
      SendElsewhere(s, id);
    }
  }

  /** After the end, whatever is published: nothing reaches the channel, and the window is closed. */
  lemma {:induction false} UnsubscribedGetsNothing(s: State, es: seq<Event>, id: nat)
    requires CanRun(s, es) && Ended(s, id)
    ensures Ended(Run(s, es), id) && GotNoMore(s.subs[id], Run(s, es).subs[id])
    ensures End(Run(s, es), Run(s, es).subs[id]) == End(s, s.subs[id])
    ensures es != [] ==> forall k :: id !in Subscribers(Run(s, es), k)
    decreases |es|
  {
    hide Enabled, Apply, Ended, End, Subscribers;
    if es != [] {
      EndedStep(s, es[0], id);
      UnsubscribedGetsNothing(Apply(s, es[0]), es[1..], id);
      assert es[1..] == [] ==> Run(s, es) == Apply(s, es[0]);
    }
  }

  /** In every interleaving, what a subscription receives is a subsequence of its window: never reordered, never repeated. */
  lemma DeliveryOrder(s: State, id: nat)
    requires Reachable(s) && id in s.subs
    ensures Start(s.subs[id]) <= End(s, s.subs[id]) <= |Published(s, s.subs[id].key)|
    ensures IsSubsequence(Contents(s.subs[id].received), Window(s, id))
  {
    hide IsSubsequence, Reachable;
    ReachableInv(s);
    WindowIsBounded(s, id);
    var sub := s.subs[id];
    assert SubInv(s, id);
    assert forall i :: 0 <= i < |sub.received| ==> MessageIn(s, sub, sub.received[i]);
    IncreasingMessagesAreSubsequence(sub.received, Published(s, sub.key), Start(sub), End(s, sub));
  }

  // ----- Latest-value coherence -----

  /** With no store method mid-step, a subscriber has the current bundle in its slot or received it last. */
  lemma LatestValueCoherence(s: State, id: nat)
    requires Reachable(s) && id in s.subs
    requires s.mu.Free? && Registered(s.subs[id]) && s.subs[id].initial.None?
    ensures var sub := s.subs[id];
            && (sub.key !in s.bundles ==> sub.slot.None? && sub.received == [])
            && (sub.key in s.bundles ==>
                  if sub.slot.Some? then sub.slot.value.bundle == s.bundles[sub.key]
                  else sub.received != [] && sub.received[|sub.received| - 1].bundle == s.bundles[sub.key])
  {
    hide Reachable, MutexInv, Increasing, Behind;
    ReachableInv(s);
    var sub := s.subs[id];
    assert SubInv(s, id) && HoldsLast(s, sub.key);
    if sub.received != [] {
      assert MessageIn(s, sub, sub.received[|sub.received| - 1]);
    }
  }

  // ----- Blocking -----

  /** `Subscribe` waits to send the initial bundle on a full channel. */
  predicate SubscribeBlocked(s: State, id: nat) {
    id in s.subs && s.subs[id].initial.Some? && s.subs[id].slot.Some?
  }

  /** A publisher waits in the last send of `sendLatest`, with the mutex held. */
  predicate PublisherBlocked(s: State, id: nat) {
    s.mu.Sending? && s.mu.id == id && s.mu.stage.BlockingSend? && id in s.subs && s.subs[id].slot.Some?
  }

  /** A channel operation of the store blocks only on a subscription that was published to before its initial send. */
  lemma BlockingNeedsARace(s: State, id: nat)
    requires Reachable(s) && (SubscribeBlocked(s, id) || PublisherBlocked(s, id))
    ensures Raced(s, s.subs[id])
  {
    ReachableInv(s);
    assert SubInv(s, id);
  }

  /** Without such a race the publisher holding the mutex can always move, and so can every `Subscribe`. */
  lemma NoRaceNoBlocking(s: State)
    requires Reachable(s) && forall id :: id in s.subs ==> !Raced(s, s.subs[id])
    ensures s.mu.FanOut? ==> Enabled(s, EndPublish) || exists id :: Enabled(s, Visit(id))
    ensures s.mu.Sending? ==> Enabled(s, SendStep)
    ensures forall id :: id in s.subs && s.subs[id].initial.Some? ==> Enabled(s, SendInitial(id))
  {
    ReachableInv(s);
    if s.mu.FanOut? && s.mu.rest != {} {
      var id :| id in s.mu.rest;
      assert Enabled(s, Visit(id));
    }
    if s.mu.Sending? {
      assert SubInv(s, s.mu.id);
    }
    forall id | id in s.subs && s.subs[id].initial.Some? ensures Enabled(s, SendInitial(id)) {
      assert SubInv(s, id);
    }
  }

  /** Once a publication has reached a subscription before its initial send, `Subscribe` is blocked. */
  lemma RaceBlocksSubscribe(s: State, id: nat)
    requires Reachable(s) && id in s.subs
    requires s.subs[id].initial.Some? && Raced(s, s.subs[id]) && !Awaits(s, id)
    ensures SubscribeBlocked(s, id)
  {
    ReachableInv(s);
    assert SubInv(s, id);
  }

  lemma {:induction false} PublishedOnlyGrows(s: State, es: seq<Event>, k: EngineKey)
    requires CanRun(s, es)
    ensures |Published(s, k)| <= |Published(Run(s, es), k)|
    decreases |es|
  {
    hide Enabled, Apply, Published;
    if es != [] {
      PublicationOfStep(s, es[0], k);
      PublishedOnlyGrows(Apply(s, es[0]), es[1..], k);
    }
  }

  lemma BlockedStep(s: State, e: Event, id: nat)
    requires Enabled(s, e) && SubscribeBlocked(s, id) && !Awaits(s, id)
    requires |Published(Apply(s, e), s.subs[id].key)| == |Published(s, s.subs[id].key)|
    ensures id in Apply(s, e).subs && Apply(s, e).subs[id] == s.subs[id] && !Awaits(Apply(s, e), id)
  {
    hide Unchanged, Registered, SendLatestStep, Accept;
    if e.BeginPublish? || e.BeginPublishIfChanged? {
      AcceptElsewhere(s, e.key, e.bundle, id);
    } else if e.SendStep? {
      SendElsewhere(s, id);
    }
  }

  lemma AcceptElsewhere(s: State, k: EngineKey, b: Bundle, id: nat)
    requires id in s.subs
    ensures Accept(s, k, b).subs == s.subs
    ensures |Published(Accept(s, k, b), s.subs[id].key)| == |Published(s, s.subs[id].key)| ==> !Awaits(Accept(s, k, b), id)
  {
    hide Registered;
  }

  lemma SendElsewhere(s: State, id: nat)
    requires Enabled(s, SendStep) && id in s.subs && !Awaits(s, id)
    ensures var t := SendLatestStep(s);
            id in t.subs && t.subs[id] == s.subs[id] && !Awaits(t, id)
  {
  }

  /** And it stays blocked, with the same full slot, until a further publication to its key. */
  lemma {:induction false} BlockedUntilNextPublication(s: State, es: seq<Event>, id: nat)
    requires CanRun(s, es) && SubscribeBlocked(s, id) && !Awaits(s, id)
    requires |Published(Run(s, es), s.subs[id].key)| == |Published(s, s.subs[id].key)|
    ensures id in Run(s, es).subs && Run(s, es).subs[id] == s.subs[id]
    decreases |es|
  {
    hide Enabled, Apply, Published, Awaits;
    if es != [] {
      var t := Apply(s, es[0]);
      var k := s.subs[id].key;
      PublicationOfStep(s, es[0], k);
      PublishedOnlyGrows(t, es[1..], k);
      BlockedStep(s, es[0], id);
      BlockedUntilNextPublication(t, es[1..], id);
    }
  }

  lemma StuckStep(s: State, e: Event, id: nat)
    requires Enabled(s, e) && PublisherBlocked(s, id) && s.subs[id].initial.None? && e != Receive(id)
    ensures var t := Apply(s, e);
            && t.mu == s.mu && t.bundles == s.bundles && PublisherBlocked(t, id)
            && t.subs[id].initial.None? && (s.subs[id].left ==> t.subs[id].left)
  {
  }

  /** Nobody can publish, subscribe or unsubscribe. */
  ghost predicate Locked(s: State) {
    && (forall k, b :: !Enabled(s, BeginPublish(k, b)) && !Enabled(s, BeginPublishIfChanged(k, b)))
    && (forall id, k :: !Enabled(s, Register(id, k)))
    && (forall id :: !Enabled(s, Unsubscribe(id)))
  }

  lemma HeldIsLocked(s: State)
    ensures Locked(s) <==> !s.mu.Free?
  {
    if s.mu.Free? {
      assert Enabled(s, BeginPublish(EngineKey("", ""), Bundle("", "", "", 0)));
    }
  }

  /** A blocked publisher keeps the mutex, and with it every publish, subscribe and unsubscribe, until that very
      subscription is received from. */
  lemma {:induction false} MutexHeldUntilReceive(s: State, es: seq<Event>, id: nat)
    requires CanRun(s, es) && PublisherBlocked(s, id) && s.subs[id].initial.None? && Receive(id) !in es
    ensures Run(s, es).mu == s.mu && PublisherBlocked(Run(s, es), id)
    ensures Run(s, es).bundles == s.bundles && Locked(Run(s, es))
    decreases |es|
  {
    hide Locked;
    HeldIsLocked(Run(s, es));
    if es != [] {
      StuckStep(s, es[0], id);
      MutexHeldUntilReceive(Apply(s, es[0]), es[1..], id);
    }
  }

  /** A step of a publisher, or of a consumer that makes room for it. */
  predicate Releases(e: Event) { e.Visit? || e.SendStep? || e.EndPublish? || e.Receive? }

  /** The next step towards a free mutex. */
  ghost function Releasing(s: State): Event
    requires !s.mu.Free?
  {
    if s.mu.FanOut? then
      if s.mu.rest == {} then EndPublish else var id :| id in s.mu.rest; Visit(id)
    else if s.mu.stage.BlockingSend? && s.mu.id in s.subs && s.subs[s.mu.id].slot.Some? then Receive(s.mu.id)
    else SendStep
  }

  /** How far the fan-out is from its end. */
  function ToGo(s: State): nat {
    match s.mu
    case Free => 0
    case FanOut(_, _, rest) => 1 + 5 * |rest|
    case Sending(_, _, rest, id, stage) =>
      1 + 5 * |rest| +
      (match stage
       case TrySend => 4
       case TryDrain => 3
       case BlockingSend => if id in s.subs && s.subs[id].slot.Some? then 2 else 1)
  }

  /** A blocked publisher waits for a subscription that its consumer already has, so a receive can make room unless the
      consumer has left. */
  lemma BlockedPublisherHasReceiver(s: State, id: nat)
    requires Inv(s) && PublisherBlocked(s, id)
    ensures s.subs[id].initial.None? && (Enabled(s, Receive(id)) <==> !s.subs[id].left)
  {
    assert SubInv(s, id);
  }

  /** The publisher waits for room in a channel that nobody will receive from again. The consumer that left needs the
      mutex to unsubscribe, and the publisher holds it. */
  predicate Deadlocked(s: State) {
    s.mu.Sending? && PublisherBlocked(s, s.mu.id) && s.subs[s.mu.id].initial.None? && s.subs[s.mu.id].left
  }

  /** One step nearer to a free mutex. */
  ghost predicate Nearer(s: State, t: State) {
    ToGo(t) < ToGo(s) && t.bundles == s.bundles && t.published == s.published && !Deadlocked(t)
  }

  lemma ReleasingFanOut(s: State)
    requires s.mu.FanOut?
    ensures Enabled(s, Releasing(s)) && Releases(Releasing(s)) && Nearer(s, Apply(s, Releasing(s)))
  {
  }

  lemma ReleasingReceive(s: State, id: nat)
    requires Inv(s) && PublisherBlocked(s, id) && !s.subs[id].left
    ensures Enabled(s, Receive(id)) && Nearer(s, Apply(s, Receive(id)))
  {
    BlockedPublisherHasReceiver(s, id);
    hide Inv, Published;
  }

  lemma ReleasingSend(s: State)
    requires Enabled(s, SendStep)
    ensures Nearer(s, Apply(s, SendStep))
  {
  }

  lemma ReleasingStep(s: State)
    requires Inv(s) && !s.mu.Free? && !Deadlocked(s)
    ensures Enabled(s, Releasing(s)) && Releases(Releasing(s)) && Nearer(s, Apply(s, Releasing(s)))
  {
    hide BundlesInv, SubInv, Apply, Nearer;
    if s.mu.FanOut? {
      ReleasingFanOut(s);
    } else if PublisherBlocked(s, s.mu.id) {
      BlockedPublisherHasReceiver(s, s.mu.id);
      ReleasingReceive(s, s.mu.id);
    } else {
      ReleasingSend(s);
    }
  }

  /** On the way, a fan-out that has still to reach a blocked `Subscribe` either does, or makes room in its channel. */
  lemma ReleasingReaches(s: State, id: nat)
    requires Inv(s) && !s.mu.Free? && !Deadlocked(s) && SubscribeBlocked(s, id) && Awaits(s, id)
    ensures Enabled(s, Releasing(s)) && Releasing(s) != Receive(id)
    ensures var t := Apply(s, Releasing(s));
            id in t.subs && t.subs[id].initial.Some? && (t.subs[id].slot.Some? ==> Awaits(t, id))
  {
    hide BundlesInv, SubInv, Published;
    ReleasingStep(s);
    if s.mu.Sending? && PublisherBlocked(s, s.mu.id) {
      BlockedPublisherHasReceiver(s, s.mu.id);
    }
    hide MutexInv, Nearer;
  }

  /** An initial send that fills the room a publisher waits for does not deadlock it: its consumer is still there. */
  lemma SendInitialIsSafe(s: State, id: nat)
    requires !Deadlocked(s) && Enabled(s, SendInitial(id)) && !s.subs[id].left
    ensures !Deadlocked(Apply(s, SendInitial(id)))
  {
    hide Published;
  }

  lemma InitialStaysSent(s: State, e: Event, id: nat)
    requires Enabled(s, e) && id in s.subs && s.subs[id].initial.None?
    ensures id in Apply(s, e).subs && Apply(s, e).subs[id].initial.None?
  {
    hide Published, Subscribers, Unchanged, SendLatestStep;
    if e.SendStep? {
      SendChangesSlots(s, id);
    }
  }

  /** Short of a deadlock the mutex is never held for good: its holder, helped by receives alone, can finish. */
  lemma {:induction false} MutexCanBeFreed(s: State) returns (es: seq<Event>)
    requires Inv(s) && !Deadlocked(s)
    ensures CanRun(s, es) && Run(s, es).mu.Free? && (forall i :: 0 <= i < |es| ==> Releases(es[i]))
    ensures Run(s, es).bundles == s.bundles && Run(s, es).published == s.published
    decreases ToGo(s)
  {
    hide Inv, Enabled, Apply, Releasing, Releases, ToGo, Deadlocked;
    if s.mu.Free? {
      es := [];
    } else {
      var e := Releasing(s);
      ReleasingStep(s);
      StepKeepsInv(s, e);
      var more := MutexCanBeFreed(Apply(s, e));
      es := [e] + more;
      assert es[1..] == more;
    }
  }

  lemma DeadlockedStep(s: State, e: Event)
    requires Deadlocked(s) && Enabled(s, e)
    ensures Deadlocked(Apply(s, e)) && Apply(s, e).mu == s.mu && Apply(s, e).bundles == s.bundles
  {
    hide Apply;
    StuckStep(s, e, s.mu.id);
  }

  /** A deadlock is for ever: whatever anybody does, the mutex stays taken and no bundle changes any more. */
  lemma {:induction false} DeadlockIsForever(s: State, es: seq<Event>)
    requires Deadlocked(s) && CanRun(s, es)
    ensures Deadlocked(Run(s, es)) && Run(s, es).mu == s.mu && Run(s, es).bundles == s.bundles && Locked(Run(s, es))
    decreases |es|
  {
    assert !s.mu.Free?;
    hide Enabled, Apply, Deadlocked, Locked;
    HeldIsLocked(Run(s, es));
    if es != [] {
      DeadlockedStep(s, es[0]);
      DeadlockIsForever(Apply(s, es[0]), es[1..]);
    }
  }

  /** The mutex can become free exactly when the store is not deadlocked. */
  lemma FreedIffNotDeadlocked(s: State)
    requires Reachable(s)
    ensures (exists es :: CanRun(s, es) && Run(s, es).mu.Free?) <==> !Deadlocked(s)
  {
    hide Inv, Reachable, CanRun, Run;
    ReachableInv(s);
    if Deadlocked(s) {
      forall es | CanRun(s, es) ensures !Run(s, es).mu.Free? {
        DeadlockIsForever(s, es);
      }
    } else {
      var es := MutexCanBeFreed(s);
    }
  }

  /** Every blocked `Subscribe` can end in a deadlock with the next publication to its key: the publisher drains the
      channel, the initial bundle takes the room, and the consumer, its stream over, leaves instead of receiving. */
  lemma BlockedSubscribeCanDeadlock(s: State, id: nat, b: Bundle) returns (es: seq<Event>)
    requires Inv(s) && s.mu.Free? && SubscribeBlocked(s, id)
    ensures CanRun(s, es) && Deadlocked(Run(s, es)) && Run(s, es).mu.id == id
    ensures Run(s, es).published == s.published[s.subs[id].key := Published(s, s.subs[id].key) + [b]]
  {
    var t;
    es, t := ReachesFullSlot(s, id, b);
    RoomIsTaken(t, id);
    hide Inv, CanRun, Run, Apply, Enabled, Deadlocked;
    es, t := Then(s, es, t, SendStep);
    es, t := Then(s, es, t, SendInitial(id));
    es, t := Then(s, es, t, Leave(id));
  }

  /** The initial bundle takes the room that the drain made, and then the consumer leaves. */
  lemma RoomIsTaken(s: State, id: nat)
    requires s.mu.Sending? && s.mu.id == id && s.mu.stage.TryDrain? && id in s.subs && s.subs[id].initial.Some?
    ensures Enabled(s, SendStep)
    ensures var t := Apply(s, SendStep);
            && Enabled(t, SendInitial(id))
            && var u := Apply(t, SendInitial(id));
            && Enabled(u, Leave(id))
            && var v := Apply(u, Leave(id));
            && v.published == s.published && Deadlocked(v) && v.mu.id == id
  {
    hide Published;
    var t := Apply(s, SendStep);
    assert t == Put(s, id, s.subs[id].(slot := None)).(mu := s.mu.(stage := BlockingSend));
  }

  /** The publisher finds the channel full. */
  lemma ReachesFullSlot(s: State, id: nat, b: Bundle) returns (es: seq<Event>, t: State)
    requires Inv(s) && s.mu.Free? && SubscribeBlocked(s, id)
    ensures CanRun(s, es) && Run(s, es) == t
    ensures t.mu.Sending? && t.mu.id == id && t.mu.stage.TryDrain? && id in t.subs && t.subs[id] == s.subs[id]
    ensures t.published == s.published[s.subs[id].key := Published(s, s.subs[id].key) + [b]]
  {
    assert SubInv(s, id);
    hide Inv, SubInv;
    var e := BeginPublish(s.subs[id].key, b);
    RunOne(s, e);
    hide CanRun, Run;
    es, t := [e], Apply(s, e);
    assert t.mu.FanOut? && id in t.mu.rest && t.subs == s.subs;
    es, t := Then(s, es, t, Visit(id));
    assert t.mu.Sending? && t.mu.id == id && t.mu.stage.TrySend?;
    es, t := Then(s, es, t, SendStep);
  }

  lemma Then(s: State, es: seq<Event>, t: State, e: Event) returns (fs: seq<Event>, u: State)
    requires CanRun(s, es) && Run(s, es) == t && Enabled(t, e)
    ensures fs == es + [e] && CanRun(s, fs) && Run(s, fs) == u && u == Apply(t, e)
  {
    hide Enabled, Apply, CanRun, Run;
    RunAppend(s, es, e);
    fs, u := es + [e], Apply(t, e);
  }

  /** Such a state is reachable: a second publication drains the first, the initial bundle takes the room, and the
      publisher waits. So neither "always succeeds" nor "without blocking the publisher" holds of every run. */
  lemma PublisherCanBlock(k: EngineKey, b1: Bundle, b2: Bundle, b3: Bundle) returns (s: State)
    ensures Reachable(s) && PublisherBlocked(s, 0) && s.subs[0].initial.None?
    ensures s.subs[0].slot == Some(Message(b1, 0)) && k in s.bundles && s.bundles[k] == b3
  {
    hide Reachable;
    s := SubscribeCanBlock(k, b1, b2);
    s := Take(s, BeginPublish(k, b3));
    s := Take(s, Visit(0));
    s := Take(s, SendStep);
    s := Take(s, SendStep);
    s := Take(s, SendInitial(0));
  }

  /** And from there the consumer may leave. */
  lemma DeadlockIsReachable(k: EngineKey, b1: Bundle, b2: Bundle, b3: Bundle) returns (s: State)
    ensures Reachable(s) && Deadlocked(s)
  {
    hide Reachable;
    s := PublisherCanBlock(k, b1, b2, b3);
    s := Take(s, Leave(0));
  }

  /** A publication that completes between the registration and the initial send blocks `Subscribe`. */
  lemma SubscribeCanBlock(k: EngineKey, b1: Bundle, b2: Bundle) returns (s: State)
    ensures Reachable(s) && SubscribeBlocked(s, 0) && s.mu.Free?
    ensures s.subs.Keys == {0} && s.subs[0].key == k && Registered(s.subs[0])
    ensures s.subs[0].initial == Some(Message(b1, 0)) && s.subs[0].slot == Some(Message(b2, 1))
  {
    hide Reachable, Inv;
    s := FirstSubscriber(k, b1);
    assert s.subs.Keys == {0};
    s := DeliverTo(s, k, b2);
  }

  lemma EmptyIsReachable()
    ensures Reachable(EMPTY)
  {
    assert CanRun(EMPTY, []) && Run(EMPTY, []) == EMPTY;
  }

  /** One publication, then one `Subscribe` up to the release of the mutex. */
  lemma FirstSubscriber(k: EngineKey, b: Bundle) returns (s: State)
    ensures Reachable(s)
    ensures s == State(Free, map[k := b], map[0 := Subscription(k, None, Some(Message(b, 0)), 1, None, None, [], false)],
                       map[k := [b]])
  {
    hide Reachable;
    EmptyIsReachable();
    assert Subscribers(EMPTY, k) == {} && Published(EMPTY, k) + [b] == [b];
    s := Take(EMPTY, BeginPublish(k, b));
    assert s.mu == FanOut(k, Message(b, 0), {}) && s.subs == map[];
    assert s == State(FanOut(k, Message(b, 0), {}), map[k := b], map[], map[k := [b]]);
    s := Take(s, EndPublish);
    s := Take(s, Register(0, k));
  }

  lemma Take(s: State, e: Event) returns (t: State)
    requires Reachable(s) && Enabled(s, e)
    ensures t == Apply(s, e) && Reachable(t)
  {
    hide Reachable;
    t := Apply(s, e);
    ReachableStep(s, e);
  }

  /** One whole publication to the only subscriber, whose channel is empty. */
  lemma DeliverTo(s: State, k: EngineKey, b: Bundle) returns (t: State)
    requires Reachable(s) && s.mu.Free? && s.subs.Keys == {0}
    requires s.subs[0].key == k && Registered(s.subs[0]) && s.subs[0].slot.None?
    ensures Reachable(t) && t.mu.Free? && t.bundles == s.bundles[k := b]
    ensures t.published == s.published[k := Published(s, k) + [b]]
    ensures t.subs == s.subs[0 := s.subs[0].(slot := Some(Message(b, |Published(s, k)|)))]
  {
    hide Reachable;
    t := Take(s, BeginPublish(k, b));
    assert t.mu.rest == {0};
    t := Take(t, Visit(0));
    assert t.mu.rest == {};
    t := Take(t, SendStep);
    t := Take(t, EndPublish);
  }

  // ----- A publication left alone -----

  /** Every subscription in `ids` holds `m`; nothing else changed. */
  function WithSlots(subs: map<nat, Subscription>, ids: set<nat>, m: Message): map<nat, Subscription> {
    map id | id in subs :: if id in ids then subs[id].(slot := Some(m)) else subs[id]
  }

  lemma {:induction false} RunConcat(s: State, es: seq<Event>, fs: seq<Event>)
    requires CanRun(s, es) && CanRun(Run(s, es), fs)
    ensures CanRun(s, es + fs) && Run(s, es + fs) == Run(Run(s, es), fs)
    decreases |es|
  {
    hide Enabled, Apply;
    if es == [] {
      assert es + fs == fs;
    } else {
      assert (es + fs)[0] == es[0] && (es + fs)[1..] == es[1..] + fs;
      RunConcat(Apply(s, es[0]), es[1..], fs);
    }
  }

  lemma RunOne(s: State, e: Event)
    requires Enabled(s, e)
    ensures CanRun(s, [e]) && Run(s, [e]) == Apply(s, e)
  {
  }

  /** The two or four steps that bring the bundle to one subscriber. */
  lemma SendAlone(s: State, id: nat) returns (es: seq<Event>)
    requires s.mu.FanOut? && id in s.mu.rest && id in s.subs
    ensures CanRun(s, es)
    ensures Run(s, es) == s.(mu := FanOut(s.mu.key, s.mu.message, s.mu.rest - {id}),
                             subs := s.subs[id := s.subs[id].(slot := Some(s.mu.message))])
  {
    es := [Visit(id)];
    RunOne(s, Visit(id));
    var t := Apply(s, Visit(id));
    if t.subs[id].slot.Some? {
      RunAppend(s, es, SendStep);
      es := es + [SendStep];
      t := Apply(t, SendStep);
      RunAppend(s, es, SendStep);
      es := es + [SendStep];
      t := Apply(t, SendStep);
    }
    RunAppend(s, es, SendStep);
    es := es + [SendStep];
  }

  lemma {:induction false} FanOutAlone(s: State) returns (es: seq<Event>)
    requires s.mu.FanOut? && s.mu.rest <= s.subs.Keys
    ensures CanRun(s, es)
    ensures Run(s, es) == s.(mu := Free, subs := WithSlots(s.subs, s.mu.rest, s.mu.message))
    decreases |s.mu.rest|
  {
    if s.mu.rest == {} {
      es := [EndPublish];
      RunOne(s, EndPublish);
      assert WithSlots(s.subs, {}, s.mu.message) == s.subs;
    } else {
      var id :| id in s.mu.rest;
      var first := SendAlone(s, id);
      var t := Run(s, first);
      var more := FanOutAlone(t);
      RunConcat(s, first, more);
      es := first + more;
      assert WithSlots(t.subs, t.mu.rest, s.mu.message) == WithSlots(s.subs, s.mu.rest, s.mu.message);
    }
  }

  /** With nobody in between, `Publish` is one broadcast: every subscriber of the key holds exactly the new bundle,
      whatever its channel held before, and no other channel changes. */
  lemma PublishAlone(s: State, k: EngineKey, b: Bundle) returns (es: seq<Event>)
    requires Inv(s) && s.mu.Free?
    ensures CanRun(s, es)
    ensures Run(s, es) == s.(bundles := s.bundles[k := b],
                             published := s.published[k := Published(s, k) + [b]],
                             subs := WithSlots(s.subs, Subscribers(s, k), Message(b, |Published(s, k)|)))
  {
    var e := BeginPublish(k, b);
    RunOne(s, e);
    var more := FanOutAlone(Apply(s, e));
    es := [e] + more;
    RunConcat(s, [e], more);
  }

  /** And `PublishIfChanged` is that broadcast, unless the key's current bundle has the same digest; then it does nothing,
      whatever else the bundle says. */
  lemma PublishIfChangedAlone(s: State, k: EngineKey, b: Bundle) returns (es: seq<Event>)
    requires Inv(s) && s.mu.Free?
    ensures CanRun(s, es) && es != [] && es[0] == BeginPublishIfChanged(k, b)
    ensures k in s.bundles && s.bundles[k].sha256 == b.sha256 ==> Run(s, es) == s
    ensures !(k in s.bundles && s.bundles[k].sha256 == b.sha256) ==>
              Run(s, es) == s.(bundles := s.bundles[k := b],
                               published := s.published[k := Published(s, k) + [b]],
                               subs := WithSlots(s.subs, Subscribers(s, k), Message(b, |Published(s, k)|)))
  {
    var e := BeginPublishIfChanged(k, b);
    RunOne(s, e);
    es := [e];
    if !Unchanged(s, k, b) {
      var more := FanOutAlone(Apply(s, e));
      RunConcat(s, [e], more);
      es := [e] + more;
    }
  }
}
