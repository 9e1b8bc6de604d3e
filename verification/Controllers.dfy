/**
 The RuleSet and the Engine reconciler as a work-queue protocol, for one engine and the RuleSet it refers to.

 Each key is reconciled serially: an added key is dirty, starting a reconcile clears the mark, and a key marked again
 while in flight runs once more. A reconcile reads one object at a time and sees it as it is at that moment, so a
 snapshot can be torn by concurrent edits. A failed API call ends the reconcile and re-adds its key. Four Lists are
 different: `publishToEngines` only logs a failure and publishes nothing, and the three functions that map a watch
 event to keys only log it and add none, so the event is lost. Both reconcilers publish to the engine's key in the
 store through `PublishIfChanged`.
 */
module Controllers {
  import opened Wrappers
  import C = Compiler
  import opened Sources
  import opened Store
  import opened BundleText
  import opened Text

  /** The RuleSet reconciler: reading its sources, holding a compiled bundle, or past the status update. */
  datatype RuleSetWork =
    | RsIdle
    | RsStarted
    | RsReading(spec: seq<SourceRef>, got: seq<C.Source>)
    | RsCompiled(bundle: C.Bundle)
    | RsAnnounced(bundle: C.Bundle)

  datatype EngineWork =
    | EngIdle
    | EngStarted
    | EngReading(spec: seq<SourceRef>, got: seq<C.Source>)
    | EngCompiled(bundle: C.Bundle)

  /** The part of a RuleSet status that decides whether an update is a change. */
  datatype Status = Status(compiledHash: string, lastCompiledAt: int)

  datatype Ctrl = Ctrl(
    ns: string,
    ruleSet: string,
    rules: map<ObjectId, string>,
    refs: seq<SourceRef>,
    status: Status,
    rsDirty: bool,
    rs: RuleSetWork,
    engDirty: bool,
    eng: EngineWork,
    stored: Option<Bundle>)

  /** `lost`: the List that would map the change to the keys of the other reconciler fails. */
  datatype Action =
    | EditRules(id: ObjectId, body: Option<string>, lost: bool)
    | EditRefs(refs: seq<SourceRef>, lost: bool)
    | NudgeRuleSet
    | NudgeEngine
    | RsStart
    | RsFetch
    | RsRead
    | RsCompile
    | RsWriteStatus(now: int, lost: bool)
    | RsPublish(at: int)
    | RsListFails
    | RsFails
    | EngStart
    | EngFetch
    | EngRead
    | EngCompile
    | EngPublish(at: int)
    | EngFails

  // ----- What should be served -----

  function Snapshot(x: Ctrl): Cluster { Cluster(x.rules, map[]) }

  /** The bundle a reconcile of the objects as they are now would compile. */
  ghost function Desired(x: Ctrl, sha: string -> string): Option<C.Bundle> {
    match Resolve(Snapshot(x), x.ns, x.refs)
    case Err(_) => None
    case Ok(ss) => CompileOf(ss, sha)
  }

  ghost function CompileOf(ss: seq<C.Source>, sha: string -> string): Option<C.Bundle> {
    match C.Outcome(ss, sha)
    case Ok(b) => Some(b)
    case Err(_) => None
  }

  /** `PublishIfChanged` on the entry of the engine's key. */
  function Gate(stored: Option<Bundle>, b: Bundle): Option<Bundle> {
    if stored.Some? && stored.value.sha256 == b.sha256 then stored else Some(b)
  }

  function ToPublish(x: Ctrl, b: C.Bundle, at: int): Bundle { Bundle(x.ruleSet, b.sha256, b.compiled, at) }

  // ----- Steps -----

  ghost predicate Possible(x: Ctrl, a: Action) {
    match a
    case EditRules(_, _, _) => true
    case EditRefs(refs, _) => refs != x.refs
    case NudgeRuleSet => true
    case NudgeEngine => true
    case RsStart => x.rsDirty && x.rs.RsIdle?
    case RsFetch => x.rs.RsStarted?
    case RsRead => x.rs.RsReading? && |x.rs.got| < |x.rs.spec|
    case RsCompile => x.rs.RsReading? && |x.rs.got| == |x.rs.spec|
    case RsWriteStatus(_, _) => x.rs.RsCompiled?
    case RsPublish(_) => x.rs.RsAnnounced?
    case RsListFails => x.rs.RsAnnounced?
    case RsFails => !x.rs.RsIdle? && !x.rs.RsAnnounced?
    case EngStart => x.engDirty && x.eng.EngIdle?
    case EngFetch => x.eng.EngStarted?
    case EngRead => x.eng.EngReading? && |x.eng.got| < |x.eng.spec|
    case EngCompile => x.eng.EngReading? && |x.eng.got| == |x.eng.spec|
    case EngPublish(_) => x.eng.EngCompiled?
    case EngFails => !x.eng.EngIdle?
  }

  function Edited(rules: map<ObjectId, string>, id: ObjectId, body: Option<string>): map<ObjectId, string> {
    if body.Some? then rules[id := body.value] else rules - {id}
  }

  /** A later read of the object finds what the edit made of it, and other reads find what they did. */
  lemma EditIsRead(x: Ctrl, id: ObjectId, body: Option<string>, lost: bool, other: ObjectId)
    ensures var y := EditStep(x, id, body, lost);
            && Get(Snapshot(y), id) == (if body.Some? then Found(body.value) else NotFound)
            && (other != id ==> Get(Snapshot(y), other) == Get(Snapshot(x), other))
            && y.refs == x.refs && y.stored == x.stored && y.rs == x.rs && y.eng == x.eng
  {
  }

  ghost predicate Watches(x: Ctrl, id: ObjectId) { References(RuleSet(x.ns, x.ruleSet, x.refs), id) }

  /** An edit of a rule object adds the RuleSet iff the watch maps the object to it. */
  ghost function EditStep(x: Ctrl, id: ObjectId, body: Option<string>, lost: bool): Ctrl {
    x.(rules := Edited(x.rules, id, body), rsDirty := x.rsDirty || (!lost && Watches(x, id)))
  }

  function RsReadStep(x: Ctrl): (y: Ctrl)
    requires x.rs.RsReading? && |x.rs.got| < |x.rs.spec|
    ensures y == x.(rs := y.rs)
  {
    match ReadRef(Snapshot(x), x.ns, x.rs.spec[|x.rs.got|])
    case Ok(s) => x.(rs := RsReading(x.rs.spec, x.rs.got + [s]))
    case Err(_) => x.(rs := RsIdle)
  }

  function EngReadStep(x: Ctrl): (y: Ctrl)
    requires x.eng.EngReading? && |x.eng.got| < |x.eng.spec|
    ensures y == x.(eng := y.eng)
  {
    match ReadRef(Snapshot(x), x.ns, x.eng.spec[|x.eng.got|])
    case Ok(s) => x.(eng := EngReading(x.eng.spec, x.eng.got + [s]))
    case Err(_) => x.(eng := EngIdle)
  }

  /** The status update; only a changed status is written, and only a written one wakes the engine's watch. */
  function WriteStatusStep(x: Ctrl, now: int, lost: bool): Ctrl
    requires x.rs.RsCompiled?
  {
    var status := Status(x.rs.bundle.sha256, now);
    x.(status := status, engDirty := x.engDirty || (!lost && status != x.status), rs := RsAnnounced(x.rs.bundle))
  }

  ghost function Act(x: Ctrl, a: Action, sha: string -> string): Ctrl
    requires Possible(x, a)
  {
    match a
    case EditRules(id, body, lost) => EditStep(x, id, body, lost)
    case EditRefs(refs, lost) => x.(refs := refs, rsDirty := true, engDirty := x.engDirty || !lost)
    case NudgeRuleSet => x.(rsDirty := true)
    case NudgeEngine => x.(engDirty := true)
    case RsStart => x.(rsDirty := false, rs := RsStarted)
    case RsFetch => x.(rs := RsReading(x.refs, []))
    case RsRead => RsReadStep(x)
    case RsCompile =>
      var b := CompileOf(x.rs.got, sha);
      x.(rs := if b.Some? then RsCompiled(b.value) else RsIdle)
    case RsWriteStatus(now, lost) => WriteStatusStep(x, now, lost)
    case RsPublish(at) => x.(stored := Gate(x.stored, ToPublish(x, x.rs.bundle, at)), rs := RsIdle)
    case RsListFails => x.(rs := RsIdle)
    case RsFails => x.(rs := RsIdle, rsDirty := true)
    case EngStart => x.(engDirty := false, eng := EngStarted)
    case EngFetch => x.(eng := if x.status.compiledHash == "" then EngIdle else EngReading(x.refs, []))
    case EngRead => EngReadStep(x)
    case EngCompile =>
      var b := CompileOf(x.eng.got, sha);
      x.(eng := if b.Some? then EngCompiled(b.value) else EngIdle)
    case EngPublish(at) => x.(stored := Gate(x.stored, ToPublish(x, x.eng.bundle, at)), eng := EngIdle)
    case EngFails => x.(eng := EngIdle, engDirty := true)
  }

  /** A key that is nudged while idle, or whose reconcile fails, can be reconciled again at once. */
  lemma KeysAreRetried(x: Ctrl, sha: string -> string)
    ensures x.rs.RsIdle? ==> Possible(Act(x, NudgeRuleSet, sha), RsStart)
    ensures x.eng.EngIdle? ==> Possible(Act(x, NudgeEngine, sha), EngStart)
    ensures Possible(x, RsFails) ==> Possible(Act(x, RsFails, sha), RsStart)
    ensures Possible(x, EngFails) ==> Possible(Act(x, EngFails, sha), EngStart)
  {
  }

  ghost predicate CanActAll(x: Ctrl, acts: seq<Action>, sha: string -> string)
    decreases |acts|
  {
    acts == [] || (Possible(x, acts[0]) && CanActAll(Act(x, acts[0], sha), acts[1..], sha))
  }

  ghost function ActAll(x: Ctrl, acts: seq<Action>, sha: string -> string): Ctrl
    requires CanActAll(x, acts, sha)
    decreases |acts|
  {
    if acts == [] then x else ActAll(Act(x, acts[0], sha), acts[1..], sha)
  }

  /** The operator has just started: both keys are listed, nothing is in flight, the store is empty. */
  predicate Fresh(x: Ctrl) {
    x.rsDirty && x.rs.RsIdle? && x.engDirty && x.eng.EngIdle? && x.stored.None?
  }

  /** Neither key is queued or in flight. */
  predicate Quiet(x: Ctrl) {
    !x.rsDirty && x.rs.RsIdle? && !x.engDirty && x.eng.EngIdle?
  }

  // ----- What the reconciles in flight will come to -----

  predicate SameText(b: C.Bundle, b': C.Bundle) { b.sha256 == b'.sha256 && b.compiled == b'.compiled }

  /** What a reconcile that has read `got` for the first references of `spec` compiles, if the objects stay as they are. */
  ghost function Completion(
    x: Ctrl, spec: seq<SourceRef>, got: seq<C.Source>, sha: string -> string): Option<C.Bundle> {
    if |got| > |spec| then None
    else
      match Resolve(Snapshot(x), x.ns, spec[|got|..])
      case Err(_) => None
      case Ok(rest) => CompileOf(got + rest, sha)
  }

  /** The store has the text of `b`. */
  predicate Served(x: Ctrl, b: C.Bundle) {
    x.stored.Some? && x.stored.value.sha256 == b.sha256 && x.stored.value.compiled == b.compiled
  }

  /** The RuleSet reconcile in flight, finished as things are, compiles the text of `b` or nothing. */
  ghost predicate RuleSetOnCourse(x: Ctrl, b: C.Bundle, sha: string -> string) {
    match x.rs
    case RsReading(spec, got) =>
      var c := Completion(x, spec, got, sha);
      c.Some? ==> SameText(c.value, b)
    case RsCompiled(b') => SameText(b', b)
    case RsAnnounced(b') => SameText(b', b)
    case _ => true
  }

  /** The RuleSet reconciler has no further status to write. */
  ghost predicate Announced(x: Ctrl, sha: string -> string) {
    x.rs.RsIdle? || x.rs.RsAnnounced? || (x.rs.RsReading? && Completion(x, x.rs.spec, x.rs.got, sha).None?)
  }

  /** The engine reconcile in flight, finished as things are, leaves the text of `b` stored. */
  ghost predicate EngineOnCourse(x: Ctrl, b: C.Bundle, sha: string -> string) {
    match x.eng
    case EngIdle => Served(x, b)
    case EngStarted => true
    case EngReading(spec, got) => LeavesServed(x, Completion(x, spec, got, sha), b)
    case EngCompiled(b') => SameText(b', b)
  }

  /** After publishing `c`, or nothing, the text of `b` is stored. */
  predicate LeavesServed(x: Ctrl, c: Option<C.Bundle>, b: C.Bundle) {
    if c.Some? then SameText(c.value, b) else Served(x, b)
  }

  /** Unless the RuleSet is queued, its reconcile is on course for the current sources; and when it has nothing more to
      announce, the engine is queued or its reconcile is on course too. */
  ghost predicate OnCourse(x: Ctrl, sha: string -> string) {
    !x.rsDirty && Desired(x, sha).Some? ==>
      && RuleSetOnCourse(x, Desired(x, sha).value, sha)
      && (Announced(x, sha) ==>
            x.status.compiledHash != "" && (x.engDirty || EngineOnCourse(x, Desired(x, sha).value, sha)))
  }

  predicate Stamped(b: C.Bundle, sha: string -> string) { b.sha256 == sha(b.compiled) }

  /** What holds whether or not changes are noticed: digests and names are right, nothing is served or read for an engine before
      the RuleSet's first status, and only a queued RuleSet reads outdated references. */
  ghost predicate InOrder(x: Ctrl, sha: string -> string) {
    && (x.stored.Some? ==> x.stored.value.sha256 == sha(x.stored.value.compiled) && x.stored.value.ruleSetName == x.ruleSet)
    && (x.rs.RsCompiled? || x.rs.RsAnnounced? ==> Stamped(x.rs.bundle, sha))
    && (x.eng.EngCompiled? ==> Stamped(x.eng.bundle, sha))
    && (x.status.compiledHash == "" ==> x.stored.None? && !x.rs.RsAnnounced? && (x.eng.EngIdle? || x.eng.EngStarted?))
    && (!x.rsDirty && x.rs.RsReading? ==> x.rs.spec == x.refs)
  }

  ghost predicate CtrlInv(x: Ctrl, sha: string -> string) { OnCourse(x, sha) && InOrder(x, sha) }

  /** What the theorems ask of the digest: no collision, and never the empty string. */
  ghost predicate GoodDigest(sha: string -> string) {
    Injective(sha) && forall t :: sha(t) != ""
  }

  // ----- Changes that are noticed or need not be -----

  /** An edit or a status update adds the key it concerns: its event arrives, and is mapped to that key. */
  ghost predicate Wakes(x: Ctrl, a: Action) {
    && (a.EditRules? ==> !a.lost && Watches(x, a.id))
    && (a.RsWriteStatus? && x.rs.RsCompiled? ==> !a.lost && x.status != Status(x.rs.bundle.sha256, a.now))
  }

  /** The change wakes the reconciler it concerns, or the reconciles in flight are on course without that. */
  ghost predicate Heeded(x: Ctrl, a: Action, sha: string -> string) {
    Possible(x, a) && !Wakes(x, a) ==> OnCourse(Act(x, a, sha), sha)
  }

  ghost predicate AllHeeded(x: Ctrl, acts: seq<Action>, sha: string -> string)
    requires CanActAll(x, acts, sha)
    decreases |acts|
  {
    acts == [] || (Heeded(x, acts[0], sha) && AllHeeded(Act(x, acts[0], sha), acts[1..], sha))
  }

  // ----- Reading on -----

  lemma CompileIsStamped(ss: seq<C.Source>, sha: string -> string)
    ensures CompileOf(ss, sha).Some? ==> Stamped(CompileOf(ss, sha).value, sha)
  {
  }

  lemma DesiredIsStamped(x: Ctrl, sha: string -> string)
    ensures Desired(x, sha).Some? ==> Stamped(Desired(x, sha).value, sha)
  {
  }

  /** What depends on the objects alone. */
  lemma SameObjects(x: Ctrl, y: Ctrl, sha: string -> string)
    requires y.ns == x.ns && y.rules == x.rules && y.refs == x.refs
    ensures Desired(y, sha) == Desired(x, sha)
    ensures forall spec, got :: Completion(y, spec, got, sha) == Completion(x, spec, got, sha)
  {
    hide Resolve, CompileOf;
  }

  /** A read does not change what the reconcile will come to; a failing one ends it with nothing. */
  lemma ReadOn(x: Ctrl, spec: seq<SourceRef>, got: seq<C.Source>, sha: string -> string)
    requires |got| < |spec|
    ensures match ReadRef(Snapshot(x), x.ns, spec[|got|])
            case Ok(s) => Completion(x, spec, got + [s], sha) == Completion(x, spec, got, sha)
            case Err(_) => Completion(x, spec, got, sha).None?
  {
    hide Resolve, ReadRef, CompileOf;
    var n := |got|;
    assert spec[n..] == [spec[n]] + spec[n + 1..];
    ResolveConcat(Snapshot(x), x.ns, [spec[n]], spec[n + 1..]);
    ResolveOne(Snapshot(x), x.ns, spec[n]);
    var first, rest := ReadRef(Snapshot(x), x.ns, spec[n]), Resolve(Snapshot(x), x.ns, spec[n + 1..]);
    if first.Ok? && rest.Ok? {
      assert got + ([first.value] + rest.value) == (got + [first.value]) + rest.value;
    }
  }

  /** All read: it comes to what is compiled now. */
  lemma ReadAll(x: Ctrl, spec: seq<SourceRef>, got: seq<C.Source>, sha: string -> string)
    requires |got| == |spec|
    ensures Completion(x, spec, got, sha) == CompileOf(got, sha)
  {
    hide CompileOf;
    assert spec[|got|..] == [] && got + [] == got;
  }

  /** Nothing read: it comes to what is desired. */
  lemma NothingRead(x: Ctrl, sha: string -> string)
    ensures Completion(x, x.refs, [], sha) == Desired(x, sha)
  {
    hide Resolve, CompileOf;
    assert x.refs[0..] == x.refs;
    var rest := Resolve(Snapshot(x), x.ns, x.refs);
    if rest.Ok? {
      assert [] + rest.value == rest.value;
    }
  }

  /** An edit of an object the RuleSet does not name leaves every read of its references unchanged. */
  lemma UnwatchedEdit(x: Ctrl, id: ObjectId, body: Option<string>, lost: bool, n: nat)
    requires n <= |x.refs| && !Watches(x, id)
    ensures var y := EditStep(x, id, body, lost);
            Resolve(Snapshot(y), x.ns, x.refs[n..]) == Resolve(Snapshot(x), x.ns, x.refs[n..])
  {
    hide Resolve;
    var rs := RuleSet(x.ns, x.ruleSet, x.refs[n..]);
    forall i | 0 <= i < |rs.sources| ensures Target(x.ns, rs.sources[i]) != Some(id) {
      assert rs.sources[i] == x.refs[i + n];
    }
    UnreferencedIsUnaffected(Snapshot(x), Snapshot(EditStep(x, id, body, lost)), id, rs);
  }

  lemma SameReads(x: Ctrl, id: ObjectId, body: Option<string>, lost: bool, sha: string -> string)
    requires !Watches(x, id)
    ensures var y := EditStep(x, id, body, lost);
            && Desired(y, sha) == Desired(x, sha)
            && forall got :: Completion(y, x.refs, got, sha) == Completion(x, x.refs, got, sha)
  {
    hide Resolve, References, CompileOf;
    var y := EditStep(x, id, body, lost);
    assert x.refs[0..] == x.refs;
    UnwatchedEdit(x, id, body, lost, 0);
    forall got ensures Completion(y, x.refs, got, sha) == Completion(x, x.refs, got, sha) {
      if |got| <= |x.refs| {
        UnwatchedEdit(x, id, body, lost, |got|);
      }
    }
  }

  // ----- Every step keeps the invariant -----

  ghost predicate RuleSetAction(a: Action) {
    a.RsStart? || a.RsFetch? || a.RsRead? || a.RsCompile? || a.RsListFails? || a.RsFails?
  }

  lemma RuleSetActionKeeps(x: Ctrl, a: Action, sha: string -> string)
    requires CtrlInv(x, sha) && Possible(x, a) && RuleSetAction(a)
    ensures OnCourse(Act(x, a, sha), sha)
  {
    hide Desired, Completion, CompileOf, Stamped, RsReadStep;
    if a.RsRead? {
      RuleSetReadKeeps(x, sha);
    } else if a.RsCompile? {
      RuleSetCompileKeeps(x, sha);
    } else {
      SameObjects(x, Act(x, a, sha), sha);
      NothingRead(x, sha);
    }
  }

  lemma RuleSetReadKeeps(x: Ctrl, sha: string -> string)
    requires OnCourse(x, sha) && x.rs.RsReading? && |x.rs.got| < |x.rs.spec|
    ensures OnCourse(RsReadStep(x), sha)
  {
    hide Desired, Completion, ReadRef;
    SameObjects(x, RsReadStep(x), sha);
    ReadOn(x, x.rs.spec, x.rs.got, sha);
  }

  lemma RuleSetCompileKeeps(x: Ctrl, sha: string -> string)
    requires OnCourse(x, sha) && Possible(x, RsCompile)
    ensures OnCourse(Act(x, RsCompile, sha), sha)
  {
    hide Desired, Completion, CompileOf;
    SameObjects(x, Act(x, RsCompile, sha), sha);
    ReadAll(x, x.rs.spec, x.rs.got, sha);
  }

  lemma WriteStatusKeeps(x: Ctrl, now: int, lost: bool, sha: string -> string)
    requires CtrlInv(x, sha) && x.rs.RsCompiled? && Wakes(x, RsWriteStatus(now, lost)) && forall t :: sha(t) != ""
    ensures OnCourse(WriteStatusStep(x, now, lost), sha)
  {
    hide Desired, Completion;
    SameObjects(x, WriteStatusStep(x, now, lost), sha);
  }

  lemma PublishKeeps(x: Ctrl, a: Action, sha: string -> string)
    requires CtrlInv(x, sha) && Possible(x, a) && (a.RsPublish? || a.EngPublish?) && Injective(sha)
    ensures OnCourse(Act(x, a, sha), sha)
  {
    hide Desired, Completion;
    SameObjects(x, Act(x, a, sha), sha);
    DesiredIsStamped(x, sha);
  }

  ghost predicate EngineAction(a: Action) {
    a.EngStart? || a.EngFetch? || a.EngRead? || a.EngCompile? || a.EngFails?
  }

  lemma EngineReadKeeps(x: Ctrl, sha: string -> string)
    requires OnCourse(x, sha) && x.eng.EngReading? && |x.eng.got| < |x.eng.spec|
    ensures OnCourse(EngReadStep(x), sha)
  {
    hide Desired, Completion, ReadRef;
    SameObjects(x, EngReadStep(x), sha);
    ReadOn(x, x.eng.spec, x.eng.got, sha);
  }

  lemma EngineCompileKeeps(x: Ctrl, sha: string -> string)
    requires OnCourse(x, sha) && Possible(x, EngCompile)
    ensures OnCourse(Act(x, EngCompile, sha), sha)
  {
    hide Desired, Completion, CompileOf;
    SameObjects(x, Act(x, EngCompile, sha), sha);
    ReadAll(x, x.eng.spec, x.eng.got, sha);
  }

  lemma EngineActionKeeps(x: Ctrl, a: Action, sha: string -> string)
    requires OnCourse(x, sha) && Possible(x, a) && EngineAction(a)
    ensures OnCourse(Act(x, a, sha), sha)
  {
    hide Desired, Completion, CompileOf, EngReadStep;
    if a.EngRead? {
      EngineReadKeeps(x, sha);
    } else if a.EngCompile? {
      EngineCompileKeeps(x, sha);
    } else {
      SameObjects(x, Act(x, a, sha), sha);
      NothingRead(x, sha);
    }
  }

  /** A queued RuleSet is reconciled again, and announces again: also after a lost event of its own edit. */
  lemma NudgeKeeps(x: Ctrl, a: Action, sha: string -> string)
    requires OnCourse(x, sha) && Possible(x, a) && Wakes(x, a)
    requires a.EditRules? || a.EditRefs? || a.NudgeRuleSet? || a.NudgeEngine?
    ensures OnCourse(Act(x, a, sha), sha)
  {
    hide Desired, Completion;
    if a.NudgeEngine? {
      SameObjects(x, Act(x, a, sha), sha);
    }
  }

  lemma ActKeepsOrder(x: Ctrl, a: Action, sha: string -> string)
    requires InOrder(x, sha) && Possible(x, a) && forall t :: sha(t) != ""
    ensures InOrder(Act(x, a, sha), sha)
  {
    hide CompileOf, RsReadStep, EngReadStep, Watches, Stamped;
    if a.RsCompile? {
      CompileIsStamped(x.rs.got, sha);
    } else if a.EngCompile? {
      CompileIsStamped(x.eng.got, sha);
    } else if a.RsRead? || a.EngRead? {
      ReadKeepsOrder(x, a, sha);
    } else if a.RsWriteStatus? || a.RsPublish? || a.EngPublish? {
      AnnouncementKeepsOrder(x, a, sha);
    }
  }

  lemma ReadKeepsOrder(x: Ctrl, a: Action, sha: string -> string)
    requires InOrder(x, sha) && Possible(x, a) && (a.RsRead? || a.EngRead?)
    ensures InOrder(Act(x, a, sha), sha)
  {
    hide ReadRef, Stamped;
  }

  lemma AnnouncementKeepsOrder(x: Ctrl, a: Action, sha: string -> string)
    requires InOrder(x, sha) && Possible(x, a) && (a.RsWriteStatus? || a.RsPublish? || a.EngPublish?)
    requires forall t :: sha(t) != ""
    ensures InOrder(Act(x, a, sha), sha)
  {
    hide RsReadStep, EngReadStep, EditStep, CompileOf;
  }

  lemma ActKeepsInv(x: Ctrl, a: Action, sha: string -> string)
    requires CtrlInv(x, sha) && Possible(x, a) && Heeded(x, a, sha) && GoodDigest(sha)
    ensures CtrlInv(Act(x, a, sha), sha)
  {
    hide OnCourse, InOrder, Injective, Watches;
    ActKeepsOrder(x, a, sha);
    if Wakes(x, a) {
      if a.EditRules? || a.EditRefs? || a.NudgeRuleSet? || a.NudgeEngine? {
        NudgeKeeps(x, a, sha);
      } else if a.RsWriteStatus? {
        WriteStatusKeeps(x, a.now, a.lost, sha);
      } else if a.RsPublish? || a.EngPublish? {
        PublishKeeps(x, a, sha);
      } else if EngineAction(a) {
        EngineActionKeeps(x, a, sha);
      } else {
        RuleSetActionKeeps(x, a, sha);
      }
    }
  }

  lemma {:induction false} ActAllKeepsInv(x: Ctrl, acts: seq<Action>, sha: string -> string)
    requires CtrlInv(x, sha) && CanActAll(x, acts, sha) && AllHeeded(x, acts, sha) && GoodDigest(sha)
    ensures CtrlInv(ActAll(x, acts, sha), sha)
    decreases |acts|
  {
    hide CtrlInv, Possible, Act, Heeded, GoodDigest;
    if acts != [] {
      ActKeepsInv(x, acts[0], sha);
      ActAllKeepsInv(Act(x, acts[0], sha), acts[1..], sha);
    }
  }

  // ----- Convergence -----

  lemma FreshIsOnCourse(x: Ctrl, sha: string -> string)
    requires Fresh(x)
    ensures CtrlInv(x, sha)
  {
  }

  lemma QuietServes(x: Ctrl, sha: string -> string)
    requires OnCourse(x, sha) && Quiet(x) && Desired(x, sha).Some?
    ensures Served(x, Desired(x, sha).value)
  {
    hide Desired;
  }

  /** Whenever neither key is queued or in flight, and the objects as they are compile, the store serves exactly that
      text, whatever stale or torn bundles either reconciler published on the way. */
  lemma Convergence(x: Ctrl, acts: seq<Action>, sha: string -> string)
    requires Fresh(x) && CanActAll(x, acts, sha) && AllHeeded(x, acts, sha) && GoodDigest(sha)
    requires Quiet(ActAll(x, acts, sha)) && Desired(ActAll(x, acts, sha), sha).Some?
    ensures var y := ActAll(x, acts, sha);
            && y.stored.Some? && y.stored.value.compiled == Desired(y, sha).value.compiled
            && y.stored.value.sha256 == sha(y.stored.value.compiled) && y.stored.value.ruleSetName == y.ruleSet
  {
    hide CanActAll, ActAll, AllHeeded, GoodDigest, Desired, OnCourse;
    FreshIsOnCourse(x, sha);
    ActAllKeepsInv(x, acts, sha);
    QuietServes(ActAll(x, acts, sha), sha);
  }

  // ----- Runs in which every event arrives -----

  /** No List of a mapping fails for the change, and a status update changes the status. */
  predicate Arrives(x: Ctrl, a: Action) {
    && (a.EditRules? ==> !a.lost)
    && (a.RsWriteStatus? && x.rs.RsCompiled? ==> !a.lost && x.status != Status(x.rs.bundle.sha256, a.now))
  }

  ghost predicate AllArrive(x: Ctrl, acts: seq<Action>, sha: string -> string)
    requires CanActAll(x, acts, sha)
    decreases |acts|
  {
    acts == [] || (Arrives(x, acts[0]) && AllArrive(Act(x, acts[0], sha), acts[1..], sha))
  }

  /** An unqueued engine reads current references, once the RuleSet has nothing more to announce. */
  ghost predicate ReadsCurrent(x: Ctrl, sha: string -> string) {
    !x.rsDirty && Desired(x, sha).Some? && Announced(x, sha) && !x.engDirty && x.eng.EngReading? ==> x.eng.spec == x.refs
  }

  lemma ArrivalKeepsReads(x: Ctrl, a: Action, sha: string -> string)
    requires ReadsCurrent(x, sha) && InOrder(x, sha) && Possible(x, a) && Arrives(x, a)
    ensures ReadsCurrent(Act(x, a, sha), sha)
  {
    hide Desired, Completion, CompileOf, Stamped, Watches, ReadRef;
    if a.EditRules? {
      if !Watches(x, a.id) {
        SameReads(x, a.id, a.body, a.lost, sha);
      }
    } else if !a.EditRefs? {
      SameObjects(x, Act(x, a, sha), sha);
      if a.RsRead? {
        ReadOn(x, x.rs.spec, x.rs.got, sha);
      } else if a.RsCompile? {
        ReadAll(x, x.rs.spec, x.rs.got, sha);
      } else if a.RsFetch? {
        NothingRead(x, sha);
      }
    }
  }

  /** An edit the watch maps to nobody changes nothing the reconcilers read. */
  lemma UnwatchedEditKeeps(x: Ctrl, id: ObjectId, body: Option<string>, lost: bool, sha: string -> string)
    requires CtrlInv(x, sha) && !Watches(x, id)
    requires x.eng.EngReading? && !x.rsDirty && Desired(x, sha).Some? && Announced(x, sha) && !x.engDirty ==>
               x.eng.spec == x.refs
    ensures OnCourse(EditStep(x, id, body, lost), sha)
  {
    hide Desired, Completion, Watches, Stamped;
    SameReads(x, id, body, lost, sha);
  }

  /** If every event arrives, every change is heeded. */
  lemma {:induction false} ArrivingRunIsHeeded(x: Ctrl, acts: seq<Action>, sha: string -> string)
    requires CtrlInv(x, sha) && ReadsCurrent(x, sha) && GoodDigest(sha)
    requires CanActAll(x, acts, sha) && AllArrive(x, acts, sha)
    ensures AllHeeded(x, acts, sha)
    decreases |acts|
  {
    hide OnCourse, InOrder, Possible, Act, ReadsCurrent, Watches, Injective;
    if acts != [] {
      ArrivingIsHeeded(x, acts[0], sha);
      ActKeepsInv(x, acts[0], sha);
      ArrivalKeepsReads(x, acts[0], sha);
      ArrivingRunIsHeeded(Act(x, acts[0], sha), acts[1..], sha);
    }
  }

  lemma ArrivingIsHeeded(x: Ctrl, a: Action, sha: string -> string)
    requires CtrlInv(x, sha) && ReadsCurrent(x, sha) && Arrives(x, a)
    ensures Heeded(x, a, sha)
  {
    hide OnCourse, InOrder, Watches;
    if a.EditRules? && !Watches(x, a.id) {
      UnwatchedEditKeeps(x, a.id, a.body, a.lost, sha);
    }
  }

  /** So with no failing List in a mapping, and status updates that change the status, the reconcilers converge. */
  lemma ConvergenceWhenEventsArrive(x: Ctrl, acts: seq<Action>, sha: string -> string)
    requires Fresh(x) && CanActAll(x, acts, sha) && AllArrive(x, acts, sha) && GoodDigest(sha)
    requires Quiet(ActAll(x, acts, sha)) && Desired(ActAll(x, acts, sha), sha).Some?
    ensures AllHeeded(x, acts, sha)
    ensures var y := ActAll(x, acts, sha);
            y.stored.Some? && y.stored.value.compiled == Desired(y, sha).value.compiled
  {
    hide CanActAll, ActAll, AllHeeded, AllArrive, GoodDigest, Desired, CtrlInv;
    FreshIsOnCourse(x, sha);
    ArrivingRunIsHeeded(x, acts, sha);
    Convergence(x, acts, sha);
  }

  // ----- Every state can settle -----

  ghost predicate ReadsInBounds(x: Ctrl) {
    && (x.rs.RsReading? ==> |x.rs.got| <= |x.rs.spec|)
    && (x.eng.EngReading? ==> |x.eng.got| <= |x.eng.spec|)
  }

  lemma StepReadsInBounds(x: Ctrl, a: Action, sha: string -> string)
    requires ReadsInBounds(x) && Possible(x, a)
    ensures ReadsInBounds(Act(x, a, sha))
  {
    hide CompileOf, ReadRef, Watches, Gate, ToPublish;
  }

  lemma {:induction false} RunsReadInBounds(x: Ctrl, acts: seq<Action>, sha: string -> string)
    requires ReadsInBounds(x) && CanActAll(x, acts, sha)
    ensures ReadsInBounds(ActAll(x, acts, sha))
    decreases |acts|
  {
    hide Possible, Act, ReadsInBounds;
    if acts != [] {
      StepReadsInBounds(x, acts[0], sha);
      RunsReadInBounds(Act(x, acts[0], sha), acts[1..], sha);
    }
  }

  /** A step of one of the reconcilers in which no API call fails. */
  predicate Works(a: Action) {
    a.RsStart? || a.RsFetch? || a.RsRead? || a.RsCompile? || a.RsWriteStatus? || a.RsPublish?
    || a.EngStart? || a.EngFetch? || a.EngRead? || a.EngCompile? || a.EngPublish?
  }

  /** From `x` the reconcilers alone can bring about `y`. */
  ghost predicate LeadsTo(x: Ctrl, y: Ctrl, sha: string -> string) {
    exists acts :: CanActAll(x, acts, sha) && AllHeeded(x, acts, sha) && ActAll(x, acts, sha) == y
                   && forall i :: 0 <= i < |acts| ==> Works(acts[i])
  }

  lemma LeadsByOne(x: Ctrl, a: Action, y: Ctrl, sha: string -> string)
    requires Possible(x, a) && Heeded(x, a, sha) && Works(a) && LeadsTo(Act(x, a, sha), y, sha)
    ensures LeadsTo(x, y, sha)
  {
    hide Possible, Act, Heeded, Works;
    var rest :| CanActAll(Act(x, a, sha), rest, sha) && AllHeeded(Act(x, a, sha), rest, sha)
                && ActAll(Act(x, a, sha), rest, sha) == y && forall i :: 0 <= i < |rest| ==> Works(rest[i]);
    var acts := [a] + rest;
    assert acts[1..] == rest;
    assert CanActAll(x, acts, sha) && AllHeeded(x, acts, sha) && ActAll(x, acts, sha) == y;
    assert forall i :: 0 <= i < |acts| ==> Works(acts[i]);
  }

  /** What each reconciler has still to do, if left alone. */
  function RuleSetLeft(x: Ctrl): nat {
    (if x.rsDirty then |x.refs| + 5 else 0) +
    match x.rs
    case RsIdle => 0
    case RsAnnounced(_) => 1
    case RsCompiled(_) => 2
    case RsReading(spec, got) => if |got| <= |spec| then 3 + |spec| - |got| else 3
    case RsStarted => 4 + |x.refs|
  }

  function EngineLeft(x: Ctrl): nat {
    (if x.engDirty then |x.refs| + 4 else 0) +
    match x.eng
    case EngIdle => 0
    case EngCompiled(_) => 1
    case EngReading(spec, got) => if |got| <= |spec| then 2 + |spec| - |got| else 2
    case EngStarted => 3 + |x.refs|
  }

  /** The next step of a scheduler that runs the RuleSet first and then the engine. */
  function Scheduled(x: Ctrl): Action {
    match x.rs
    case RsStarted => RsFetch
    case RsReading(spec, got) => if |got| < |spec| then RsRead else RsCompile
    case RsCompiled(_) => RsWriteStatus(x.status.lastCompiledAt + 1, false)
    case RsAnnounced(_) => RsPublish(0)
    case RsIdle =>
      if x.rsDirty then RsStart
      else
        match x.eng
        case EngStarted => EngFetch
        case EngReading(spec, got) => if |got| < |spec| then EngRead else EngCompile
        case EngCompiled(_) => EngPublish(0)
        case EngIdle => EngStart
  }

  lemma ScheduledWorks(x: Ctrl, sha: string -> string)
    requires ReadsInBounds(x) && !Quiet(x)
    ensures Possible(x, Scheduled(x)) && Wakes(x, Scheduled(x)) && Works(Scheduled(x))
    ensures Heeded(x, Scheduled(x), sha)
  {
    hide OnCourse, Act, Watches;
  }

  predicate RuleSetBusy(x: Ctrl) { x.rsDirty || !x.rs.RsIdle? }

  lemma ScheduledRuleSetStep(x: Ctrl, sha: string -> string)
    requires RuleSetBusy(x) && Possible(x, Scheduled(x))
    ensures RuleSetLeft(Act(x, Scheduled(x), sha)) < RuleSetLeft(x)
  {
    hide CompileOf, ReadRef, EngineLeft, EngReadStep, EditStep, Gate, ToPublish;
  }

  lemma ScheduledEngineStep(x: Ctrl, sha: string -> string)
    requires !RuleSetBusy(x) && !Quiet(x) && Possible(x, Scheduled(x))
    ensures var y := Act(x, Scheduled(x), sha);
            && y.rsDirty == x.rsDirty && y.rs == x.rs && y.refs == x.refs
            && EngineLeft(y) < EngineLeft(x)
  {
    hide CompileOf, ReadRef, RsReadStep, EditStep, WriteStatusStep, Gate, ToPublish;
  }

  lemma ScheduledLeavesLess(x: Ctrl, sha: string -> string)
    requires !Quiet(x) && Possible(x, Scheduled(x))
    ensures var y := Act(x, Scheduled(x), sha);
            || RuleSetLeft(y) < RuleSetLeft(x)
            || (RuleSetLeft(y) == RuleSetLeft(x) && EngineLeft(y) < EngineLeft(x))
  {
    hide Act, Possible, Scheduled, EngineLeft;
    if RuleSetBusy(x) {
      ScheduledRuleSetStep(x, sha);
    } else {
      ScheduledEngineStep(x, sha);
    }
  }

  /** No state is a dead end: left alone and with its API calls succeeding, the work queue drains. */
  lemma {:induction false} Settles(x: Ctrl, sha: string -> string) returns (y: Ctrl)
    requires ReadsInBounds(x)
    ensures LeadsTo(x, y, sha) && Quiet(y)
    ensures y.ns == x.ns && y.rules == x.rules && y.refs == x.refs
    decreases RuleSetLeft(x), EngineLeft(x)
  {
    hide LeadsTo, Possible, Heeded, Works, Act, Scheduled, RuleSetLeft, EngineLeft, ReadsInBounds;
    if Quiet(x) {
      y := x;
      LeadsToItself(x, sha);
    } else {
      var a := Scheduled(x);
      ScheduledWorks(x, sha);
      ScheduledLeavesLess(x, sha);
      WorkingKeepsObjects(x, a, sha);
      StepReadsInBounds(x, a, sha);
      y := Settles(Act(x, a, sha), sha);
      LeadsByOne(x, a, y, sha);
    }
  }

  lemma WorkingKeepsObjects(x: Ctrl, a: Action, sha: string -> string)
    requires Possible(x, a) && Works(a)
    ensures var y := Act(x, a, sha);
            y.ns == x.ns && y.rules == x.rules && y.refs == x.refs
  {
    hide CompileOf, RsReadStep, EngReadStep, EditStep, Gate, ToPublish;
  }

  lemma LeadsToItself(x: Ctrl, sha: string -> string)
    ensures LeadsTo(x, x, sha)
  {
  }

  /** After any run from a fresh start, the reconcilers alone can reach a state with nothing queued or in flight; if the
      run heeded its changes, it serves what the objects compile to. */
  lemma EveryRunCanSettle(x: Ctrl, acts: seq<Action>, sha: string -> string) returns (y: Ctrl)
    requires Fresh(x) && CanActAll(x, acts, sha)
    ensures LeadsTo(ActAll(x, acts, sha), y, sha) && Quiet(y)
    ensures Desired(y, sha) == Desired(ActAll(x, acts, sha), sha)
    ensures AllHeeded(x, acts, sha) && GoodDigest(sha) && Desired(y, sha).Some? ==>
              y.stored.Some? && y.stored.value.compiled == Desired(y, sha).value.compiled
  {
    hide Desired, OnCourse, GoodDigest;
    RunsReadInBounds(x, acts, sha);
    var z := ActAll(x, acts, sha);
    y := Settles(z, sha);
    SameObjects(z, y, sha);
    if AllHeeded(x, acts, sha) && GoodDigest(sha) && Desired(y, sha).Some? {
      FreshIsOnCourse(x, sha);
      ActAllKeepsInv(x, acts, sha);
      var more :| CanActAll(z, more, sha) && AllHeeded(z, more, sha) && ActAll(z, more, sha) == y;
      ActAllKeepsInv(z, more, sha);
      QuietServes(y, sha);
    }
  }

  // ----- What is still to be published -----

  /** A bundle the digest gate would let through. */
  predicate New(x: Ctrl, c: Option<C.Bundle>) {
    c.Some? && (x.stored.None? || x.stored.value.sha256 != c.value.sha256)
  }

  /** A reconcile has still to read everything: the RuleSet is queued or just started, or the engine is and will find a
      status, or the RuleSet's reconcile has still to write one and so to wake the engine. */
  ghost predicate WillReadAll(x: Ctrl, sha: string -> string) {
    || x.rsDirty || x.rs.RsStarted? || x.rs.RsCompiled?
    || (x.rs.RsReading? && Completion(x, x.rs.spec, x.rs.got, sha).Some?)
    || (x.status.compiledHash != "" && (x.engDirty || x.eng.EngStarted?))
  }

  /** With no further edit, these are the bundles still to be offered to the store; one of them is new to it. */
  ghost predicate Owes(x: Ctrl, sha: string -> string) {
    || (x.rs.RsReading? && New(x, Completion(x, x.rs.spec, x.rs.got, sha)))
    || ((x.rs.RsCompiled? || x.rs.RsAnnounced?) && New(x, Some(x.rs.bundle)))
    || (x.eng.EngReading? && New(x, Completion(x, x.eng.spec, x.eng.got, sha)))
    || (x.eng.EngCompiled? && New(x, Some(x.eng.bundle)))
    || (WillReadAll(x, sha) && New(x, Desired(x, sha)))
  }

  /** A working step by which nothing is published neither adds to what is owed nor, if it is not an unnoticed status
      update, takes from it. */
  lemma WorkKeepsOwed(x: Ctrl, a: Action, sha: string -> string)
    requires InOrder(x, sha) && Possible(x, a) && Works(a) && Act(x, a, sha).stored == x.stored
    requires forall t :: sha(t) != ""
    ensures Owes(Act(x, a, sha), sha) ==> Owes(x, sha)
    ensures Owes(x, sha) && Wakes(x, a) ==> Owes(Act(x, a, sha), sha)
  {
    hide Owes, InOrder, Act, Wakes;
    if a.RsRead? || a.EngRead? {
      ReadKeepsOwed(x, a, sha);
    } else if a.RsCompile? || a.EngCompile? {
      CompileKeepsOwed(x, a, sha);
    } else if a.RsWriteStatus? {
      StatusKeepsOwed(x, a, sha);
    } else if a.RsPublish? || a.EngPublish? {
      RefusalKeepsOwed(x, a, sha);
    } else {
      FetchKeepsOwed(x, a, sha);
    }
  }

  lemma CompileKeepsOwed(x: Ctrl, a: Action, sha: string -> string)
    requires Possible(x, a) && (a.RsCompile? || a.EngCompile?)
    ensures Owes(Act(x, a, sha), sha) <==> Owes(x, sha)
  {
    hide Desired, Completion, CompileOf, RsReadStep, EngReadStep, EditStep;
    SameObjects(x, Act(x, a, sha), sha);
    if a.RsCompile? {
      ReadAll(x, x.rs.spec, x.rs.got, sha);
    } else {
      ReadAll(x, x.eng.spec, x.eng.got, sha);
    }
  }

  lemma RefusalKeepsOwed(x: Ctrl, a: Action, sha: string -> string)
    requires Possible(x, a) && (a.RsPublish? || a.EngPublish?) && Act(x, a, sha).stored == x.stored
    ensures Owes(Act(x, a, sha), sha) <==> Owes(x, sha)
  {
    hide Desired, Completion, CompileOf, RsReadStep, EngReadStep, EditStep;
    SameObjects(x, Act(x, a, sha), sha);
  }

  lemma FetchKeepsOwed(x: Ctrl, a: Action, sha: string -> string)
    requires Possible(x, a) && (a.RsStart? || a.RsFetch? || a.EngStart? || a.EngFetch?)
    ensures Owes(Act(x, a, sha), sha) <==> Owes(x, sha)
  {
    hide Desired, Completion, CompileOf, RsReadStep, EngReadStep, EditStep;
    SameObjects(x, Act(x, a, sha), sha);
    NothingRead(x, sha);
  }

  lemma ReadKeepsOwed(x: Ctrl, a: Action, sha: string -> string)
    requires Possible(x, a) && (a.RsRead? || a.EngRead?)
    ensures Owes(Act(x, a, sha), sha) <==> Owes(x, sha)
  {
    hide Desired, Completion, CompileOf, ReadRef;
    SameObjects(x, Act(x, a, sha), sha);
    if a.RsRead? {
      ReadOn(x, x.rs.spec, x.rs.got, sha);
    } else {
      ReadOn(x, x.eng.spec, x.eng.got, sha);
    }
  }

  lemma StatusKeepsOwed(x: Ctrl, a: Action, sha: string -> string)
    requires InOrder(x, sha) && Possible(x, a) && a.RsWriteStatus? && forall t :: sha(t) != ""
    ensures Owes(Act(x, a, sha), sha) ==> Owes(x, sha)
    ensures Owes(x, sha) && Wakes(x, a) ==> Owes(Act(x, a, sha), sha)
  {
    hide Desired, Completion, CompileOf, RsReadStep, EngReadStep, EditStep, Watches;
    SameObjects(x, Act(x, a, sha), sha);
  }

  /** Only what is owed is published. */
  lemma OnlyOwedIsPublished(x: Ctrl, a: Action, sha: string -> string)
    requires Possible(x, a) && Act(x, a, sha).stored != x.stored
    ensures Owes(x, sha)
  {
    hide Desired, Completion, CompileOf, RsReadStep, EngReadStep, Watches;
  }

  lemma QuietOwesNothing(x: Ctrl, sha: string -> string)
    requires Quiet(x)
    ensures !Owes(x, sha)
  {
    hide Desired;
  }

  // ----- What happens otherwise -----

  /** A run of heeded changes. */
  ghost predicate Reaches(x: Ctrl, y: Ctrl, sha: string -> string) {
    exists acts :: CanActAll(x, acts, sha) && AllHeeded(x, acts, sha) && ActAll(x, acts, sha) == y
  }

  /** A step of the reconcilers by themselves: nobody edits, and no call fails but the List before a publication. */
  predicate Alone(a: Action) { (Works(a) && (a.RsWriteStatus? ==> !a.lost)) || a.RsListFails? }

  /** A run of the reconcilers by themselves, in which nothing goes unheeded. */
  ghost predicate ReachesAlone(x: Ctrl, y: Ctrl, sha: string -> string) {
    exists acts :: CanActAll(x, acts, sha) && AllHeeded(x, acts, sha) && ActAll(x, acts, sha) == y
                   && forall i :: 0 <= i < |acts| ==> Alone(acts[i])
  }

  lemma {:induction false} ActAppend(x: Ctrl, acts: seq<Action>, a: Action, sha: string -> string)
    requires CanActAll(x, acts, sha) && AllHeeded(x, acts, sha)
    requires Possible(ActAll(x, acts, sha), a) && Heeded(ActAll(x, acts, sha), a, sha)
    ensures CanActAll(x, acts + [a], sha) && ActAll(x, acts + [a], sha) == Act(ActAll(x, acts, sha), a, sha)
    ensures AllHeeded(x, acts + [a], sha)
    decreases |acts|
  {
    hide Possible, Act, Heeded;
    if acts == [] {
      assert acts + [a] == [a] && [a][1..] == [];
    } else {
      assert (acts + [a])[0] == acts[0] && (acts + [a])[1..] == acts[1..] + [a];
      ActAppend(Act(x, acts[0], sha), acts[1..], a, sha);
    }
  }

  lemma Go(x: Ctrl, y: Ctrl, a: Action, sha: string -> string) returns (z: Ctrl)
    requires Reaches(x, y, sha) && Possible(y, a) && Wakes(y, a)
    ensures z == Act(y, a, sha) && Reaches(x, z, sha)
  {
    hide Possible, Act, Wakes, OnCourse;
    var acts :| CanActAll(x, acts, sha) && AllHeeded(x, acts, sha) && ActAll(x, acts, sha) == y;
    ActAppend(x, acts, a, sha);
    z := Act(y, a, sha);
  }

  lemma GoAlone(x: Ctrl, y: Ctrl, a: Action, sha: string -> string) returns (z: Ctrl)
    requires ReachesAlone(x, y, sha) && Possible(y, a) && Wakes(y, a) && Alone(a)
    ensures z == Act(y, a, sha) && ReachesAlone(x, z, sha)
  {
    hide Possible, Act, Wakes, OnCourse, Alone;
    var acts :| CanActAll(x, acts, sha) && AllHeeded(x, acts, sha) && ActAll(x, acts, sha) == y
                && forall i :: 0 <= i < |acts| ==> Alone(acts[i]);
    ActAppend(x, acts, a, sha);
    z := Act(y, a, sha);
    assert forall i :: 0 <= i < |acts + [a]| ==> Alone((acts + [a])[i]);
  }

  /** Served is not what the objects compile to. */
  ghost predicate Stale(x: Ctrl, sha: string -> string) {
    Desired(x, sha).Some? && (x.stored.None? || x.stored.value.compiled != Desired(x, sha).value.compiled)
  }

  lemma ReachesItself(x: Ctrl, sha: string -> string)
    ensures Reaches(x, x, sha) && ReachesAlone(x, x, sha)
  {
    assert CanActAll(x, [], sha) && AllHeeded(x, [], sha) && ActAll(x, [], sha) == x;
  }

  lemma {:induction false} ActAllKeepsOrder(x: Ctrl, acts: seq<Action>, sha: string -> string)
    requires InOrder(x, sha) && CanActAll(x, acts, sha) && forall t :: sha(t) != ""
    ensures InOrder(ActAll(x, acts, sha), sha)
    decreases |acts|
  {
    hide InOrder, Possible, Act;
    if acts != [] {
      ActKeepsOrder(x, acts[0], sha);
      ActAllKeepsOrder(Act(x, acts[0], sha), acts[1..], sha);
    }
  }

  lemma ReachedInOrder(x: Ctrl, y: Ctrl, sha: string -> string)
    requires InOrder(x, sha) && ReachesAlone(x, y, sha) && forall t :: sha(t) != ""
    ensures InOrder(y, sha)
  {
    hide InOrder, Possible, Act, Heeded;
    var acts :| CanActAll(x, acts, sha) && AllHeeded(x, acts, sha) && ActAll(x, acts, sha) == y;
    ActAllKeepsOrder(x, acts, sha);
  }

  /** Left alone, a RuleSet reconcile that reads comes to its completion. */
  lemma {:induction false} RuleSetFinishesReading(x: Ctrl, y: Ctrl, sha: string -> string) returns (z: Ctrl)
    requires ReachesAlone(x, y, sha) && y.rs.RsReading? && |y.rs.got| <= |y.rs.spec|
    ensures ReachesAlone(x, z, sha)
    ensures var c := Completion(y, y.rs.spec, y.rs.got, sha);
            z == y.(rs := if c.Some? then RsCompiled(c.value) else RsIdle)
    decreases |y.rs.spec| - |y.rs.got|
  {
    hide ReachesAlone, Completion, CompileOf, ReadRef, EditStep, EngReadStep, Gate, WriteStatusStep;
    if |y.rs.got| == |y.rs.spec| {
      ReadAll(y, y.rs.spec, y.rs.got, sha);
      z := GoAlone(x, y, RsCompile, sha);
    } else {
      ReadOn(y, y.rs.spec, y.rs.got, sha);
      z := GoAlone(x, y, RsRead, sha);
      if z.rs.RsReading? {
        SameObjects(y, z, sha);
        z := RuleSetFinishesReading(x, z, sha);
      }
    }
  }

  lemma {:induction false} EngineFinishesReading(x: Ctrl, y: Ctrl, sha: string -> string) returns (z: Ctrl)
    requires ReachesAlone(x, y, sha) && y.eng.EngReading? && |y.eng.got| <= |y.eng.spec|
    ensures ReachesAlone(x, z, sha)
    ensures var c := Completion(y, y.eng.spec, y.eng.got, sha);
            z == y.(eng := if c.Some? then EngCompiled(c.value) else EngIdle)
    decreases |y.eng.spec| - |y.eng.got|
  {
    hide ReachesAlone, Completion, CompileOf, ReadRef, EditStep, RsReadStep, Gate, WriteStatusStep;
    if |y.eng.got| == |y.eng.spec| {
      ReadAll(y, y.eng.spec, y.eng.got, sha);
      z := GoAlone(x, y, EngCompile, sha);
    } else {
      ReadOn(y, y.eng.spec, y.eng.got, sha);
      z := GoAlone(x, y, EngRead, sha);
      if z.eng.EngReading? {
        SameObjects(y, z, sha);
        z := EngineFinishesReading(x, z, sha);
      }
    }
  }

  /** Left alone, an engine reconcile ends, with whatever it leaves stored. */
  lemma EngineFinishes(x: Ctrl, y: Ctrl, sha: string -> string) returns (z: Ctrl)
    requires ReachesAlone(x, y, sha) && (y.eng.EngReading? ==> |y.eng.got| <= |y.eng.spec|)
    ensures ReachesAlone(x, z, sha) && z == y.(eng := EngIdle, stored := z.stored)
    ensures y.status.compiledHash == "" && (y.eng.EngIdle? || y.eng.EngStarted?) ==> z.stored == y.stored
  {
    hide ReachesAlone, Completion, CompileOf, EditStep, RsReadStep, EngReadStep, WriteStatusStep;
    z := y;
    if z.eng.EngStarted? {
      z := GoAlone(x, z, EngFetch, sha);
    }
    if z.eng.EngReading? {
      z := EngineFinishesReading(x, z, sha);
    }
    if z.eng.EngCompiled? {
      z := GoAlone(x, z, EngPublish(0), sha);
    }
  }

  /** And a queued engine is reconciled once more. */
  lemma EngineDrains(x: Ctrl, y: Ctrl, sha: string -> string) returns (z: Ctrl)
    requires ReachesAlone(x, y, sha) && (y.eng.EngReading? ==> |y.eng.got| <= |y.eng.spec|)
    ensures ReachesAlone(x, z, sha) && z == y.(eng := EngIdle, engDirty := false, stored := z.stored)
    ensures y.status.compiledHash == "" && (y.eng.EngIdle? || y.eng.EngStarted?) ==> z.stored == y.stored
  {
    hide ReachesAlone, EditStep, RsReadStep, EngReadStep, WriteStatusStep;
    z := EngineFinishes(x, y, sha);
    if z.engDirty {
      z := GoAlone(x, z, EngStart, sha);
      z := EngineFinishes(x, z, sha);
    }
  }

  /** A RuleSet reconcile that is off course publishes last, after the engine has drained. */
  lemma WrongBundleIsLast(x: Ctrl, sha: string -> string) returns (y: Ctrl)
    requires InOrder(x, sha) && GoodDigest(sha) && ReadsInBounds(x)
    requires !x.rsDirty && Desired(x, sha).Some? && !RuleSetOnCourse(x, Desired(x, sha).value, sha)
    ensures ReachesAlone(x, y, sha) && Quiet(y) && Stale(y, sha)
    ensures y.ns == x.ns && y.rules == x.rules && y.refs == x.refs
  {
    hide ReachesAlone, Desired, Completion, EditStep, RsReadStep, EngReadStep, CompileOf;
    DesiredIsStamped(x, sha);
    ReachesItself(x, sha);
    y := x;
    if y.rs.RsReading? {
      y := RuleSetFinishesReading(x, y, sha);
    }
    ReachedInOrder(x, y, sha);
    if y.rs.RsCompiled? {
      y := GoAlone(x, y, RsWriteStatus(y.status.lastCompiledAt + 1, false), sha);
    }
    y := EngineDrains(x, y, sha);
    ReachedInOrder(x, y, sha);
    y := GoAlone(x, y, RsPublish(0), sha);
    SameObjects(x, y, sha);
  }

  /** A RuleSet reconcile with nothing more to announce can end without a publication. */
  lemma RuleSetStops(x: Ctrl, sha: string -> string) returns (y: Ctrl)
    requires ReadsInBounds(x) && Announced(x, sha)
    ensures ReachesAlone(x, y, sha) && y == x.(rs := RsIdle)
  {
    hide ReachesAlone, Completion, EditStep, RsReadStep, EngReadStep, CompileOf;
    ReachesItself(x, sha);
    y := x;
    if x.rs.RsReading? {
      y := RuleSetFinishesReading(x, y, sha);
    } else if x.rs.RsAnnounced? {
      y := GoAlone(x, y, RsListFails, sha);
    }
  }

  /** Then an engine reconcile that is off course is the last to publish, if anybody does. */
  lemma WrongEngineIsLast(x: Ctrl, sha: string -> string) returns (y: Ctrl)
    requires InOrder(x, sha) && GoodDigest(sha) && ReadsInBounds(x)
    requires !x.rsDirty && Desired(x, sha).Some? && Announced(x, sha)
    requires x.status.compiledHash == "" || (!x.engDirty && !EngineOnCourse(x, Desired(x, sha).value, sha))
    ensures ReachesAlone(x, y, sha) && Quiet(y) && Stale(y, sha)
    ensures y.ns == x.ns && y.rules == x.rules && y.refs == x.refs
  {
    hide ReachesAlone, Desired, Completion, Announced, EditStep, RsReadStep, EngReadStep, CompileOf, WriteStatusStep;
    DesiredIsStamped(x, sha);
    y := RuleSetStops(x, sha);
    SameObjects(x, y, sha);
    if x.status.compiledHash == "" {
      y := EngineDrains(x, y, sha);
    } else {
      if y.eng.EngReading? {
        y := EngineFinishesReading(x, y, sha);
      }
      ReachedInOrder(x, y, sha);
      if y.eng.EngCompiled? {
        y := GoAlone(x, y, EngPublish(0), sha);
      }
    }
    SameObjects(x, y, sha);
  }

  /** After any run of heeded changes, a change that is not heeded can be the last one: the reconcilers by themselves,
      with nothing else unheeded, can go idle over a stale text. */
  lemma UnheededChangeCanStayStale(x: Ctrl, acts: seq<Action>, a: Action, sha: string -> string) returns (y: Ctrl)
    requires Fresh(x) && CanActAll(x, acts, sha) && AllHeeded(x, acts, sha) && GoodDigest(sha)
    requires Possible(ActAll(x, acts, sha), a) && !Heeded(ActAll(x, acts, sha), a, sha)
    ensures var z := Act(ActAll(x, acts, sha), a, sha);
            && ReachesAlone(z, y, sha) && Quiet(y) && Stale(y, sha)
            && y.ns == z.ns && y.rules == z.rules && y.refs == z.refs
  {
    hide Possible, Act, ReachesAlone, Stale, Quiet, RuleSetOnCourse, EngineOnCourse, Announced, Desired, InOrder, Wakes;
    assert InOrder(x, sha) by { FreshIsOnCourse(x, sha); }
    assert ReadsInBounds(x);
    hide ReadsInBounds;
    var now := ActAll(x, acts, sha);
    ActAllKeepsOrder(x, acts, sha);
    ActKeepsOrder(now, a, sha);
    RunsReadInBounds(x, acts, sha);
    StepReadsInBounds(now, a, sha);
    var z := Act(now, a, sha);
    if !RuleSetOnCourse(z, Desired(z, sha).value, sha) {
      y := WrongBundleIsLast(z, sha);
    } else {
      y := WrongEngineIsLast(z, sha);
    }
  }

  /** Left to the reconcilers by themselves, a stale text can stay. */
  ghost predicate CanStayStale(x: Ctrl, sha: string -> string) {
    exists y :: ReachesAlone(x, y, sha) && Quiet(y) && Stale(y, sha)
  }

  /** The condition is exact: after any run of heeded changes, the next change is heeded iff the reconcilers by themselves
      cannot go idle over a stale text after it. */
  lemma HeededIffNeverStale(x: Ctrl, acts: seq<Action>, a: Action, sha: string -> string)
    requires Fresh(x) && CanActAll(x, acts, sha) && AllHeeded(x, acts, sha) && GoodDigest(sha)
    requires Possible(ActAll(x, acts, sha), a)
    ensures var now := ActAll(x, acts, sha);
            Heeded(now, a, sha) <==> !CanStayStale(Act(now, a, sha), sha)
  {
    hide CanActAll, ActAll, AllHeeded, Possible, Act, Heeded, ReachesAlone, Stale, Quiet, GoodDigest, CtrlInv, Fresh;
    var now := ActAll(x, acts, sha);
    var z := Act(now, a, sha);
    if Heeded(now, a, sha) {
      FreshIsOnCourse(x, sha);
      ActAllKeepsInv(x, acts, sha);
      ActKeepsInv(now, a, sha);
      forall y | ReachesAlone(z, y, sha) && Quiet(y) ensures !Stale(y, sha) {
        OnCourseNeverStale(z, y, sha);
      }
    } else {
      var y := UnheededChangeCanStayStale(x, acts, a, sha);
    }
  }

  lemma OnCourseNeverStale(x: Ctrl, y: Ctrl, sha: string -> string)
    requires CtrlInv(x, sha) && ReachesAlone(x, y, sha) && Quiet(y) && GoodDigest(sha)
    ensures !Stale(y, sha)
  {
    hide OnCourse, Desired, Possible, Act, Heeded, GoodDigest, Quiet;
    var acts :| CanActAll(x, acts, sha) && AllHeeded(x, acts, sha) && ActAll(x, acts, sha) == y;
    ActAllKeepsInv(x, acts, sha);
    if Desired(y, sha).Some? {
      QuietServes(y, sha);
    }
  }

  /** What the RuleSet reconcile has read so far still reads so, and the object is not among it. */
  ghost predicate NotYetRead(x: Ctrl, id: ObjectId) {
    && x.rs.RsReading?
    && |x.rs.got| <= |x.rs.spec|
    && Resolve(Snapshot(x), x.ns, x.rs.spec[..|x.rs.got|]) == Ok(x.rs.got)
    && !References(RuleSet(x.ns, x.ruleSet, x.rs.spec[..|x.rs.got|]), id)
  }

  /** The engine reconciler has yet to fetch the RuleSet, and nothing comes after it. */
  predicate EngineWillRead(x: Ctrl) {
    x.rs.RsIdle? && x.status.compiledHash != "" && (x.engDirty || x.eng.EngStarted?)
  }

  /** After a heeded run, edits that need wake nobody: the RuleSet is queued, has yet to read, has not read that object
      yet, or leaves it to an engine reconcile that has yet to read; or it does not name the object, and the engine is
      not reading outdated references. */
  lemma HarmlessEdits(x: Ctrl, id: ObjectId, body: Option<string>, lost: bool, sha: string -> string)
    requires CtrlInv(x, sha)
    requires || x.rsDirty || x.rs.RsStarted? || NotYetRead(x, id) || EngineWillRead(x)
             || (!Watches(x, id) && (x.eng.EngReading? ==> x.eng.spec == x.refs))
    ensures Heeded(x, EditRules(id, body, lost), sha)
  {
    hide Desired, Completion, Watches, Resolve, References, Stamped;
    if !Watches(x, id) && (x.eng.EngReading? ==> x.eng.spec == x.refs) {
      UnwatchedEditKeeps(x, id, body, lost, sha);
    } else if !x.rsDirty && NotYetRead(x, id) {
      EditBeforeRead(x, id, body, lost, sha);
    }
  }

  lemma EditBeforeRead(x: Ctrl, id: ObjectId, body: Option<string>, lost: bool, sha: string -> string)
    requires NotYetRead(x, id) && x.rs.spec == x.refs
    ensures x.rs.RsReading?
    ensures var y := EditStep(x, id, body, lost);
            Completion(y, x.refs, x.rs.got, sha) == Desired(y, sha)
  {
    hide Resolve, References, CompileOf;
    var y, n := EditStep(x, id, body, lost), |x.rs.got|;
    UnreferencedIsUnaffected(Snapshot(x), Snapshot(y), id, RuleSet(x.ns, x.ruleSet, x.refs[..n]));
    assert x.refs == x.refs[..n] + x.refs[n..];
    ResolveConcat(Snapshot(y), x.ns, x.refs[..n], x.refs[n..]);
  }

  const ONE_REF := SourceRef(SEC_RULES, "n")

  function OneSource(body: string): seq<C.Source> { [C.Source(SEC_RULES, "n", body)] }

  /** The RuleSet names one SecRules object, and its body is this. */
  predicate Serves(x: Ctrl, body: string) {
    && x.refs == [ONE_REF]
    && SecRulesId(x.ns, "n") in x.rules
    && x.rules[SecRulesId(x.ns, "n")] == body
  }

  lemma ReadsOneSource(x: Ctrl, body: string, sha: string -> string)
    requires Serves(x, body)
    ensures ReadRef(Snapshot(x), x.ns, ONE_REF) == Ok(OneSource(body)[0])
    ensures [] + [OneSource(body)[0]] == OneSource(body)
    ensures Desired(x, sha) == CompileOf(OneSource(body), sha)
  {
    hide CompileOf, Desired, Completion;
    NothingRead(x, sha);
    ReadOn(x, x.refs, [], sha);
    ReadAll(x, x.refs, [] + [OneSource(body)[0]], sha);
  }

  /** A RuleSet reconcile from start to end, with a new timestamp. */
  lemma RuleSetCycle(x: Ctrl, y: Ctrl, body: string, now: int, sha: string -> string) returns (z: Ctrl)
    requires Reaches(x, y, sha) && y.rsDirty && y.rs.RsIdle? && Serves(y, body) && CompileOf(OneSource(body), sha).Some?
    requires now != y.status.lastCompiledAt
    ensures Reaches(x, z, sha)
    ensures var b := CompileOf(OneSource(body), sha).value;
            z == y.(rsDirty := false, status := Status(b.sha256, now), engDirty := true,
                    stored := Gate(y.stored, ToPublish(y, b, now)))
  {
    hide CompileOf, ReadRef, Reaches, Watches;
    z := RuleSetCompiles(x, y, body, sha);
    z := Go(x, z, RsWriteStatus(now, false), sha);
    z := Go(x, z, RsPublish(now), sha);
  }

  lemma RuleSetCompiles(x: Ctrl, y: Ctrl, body: string, sha: string -> string) returns (z: Ctrl)
    requires Reaches(x, y, sha) && y.rsDirty && y.rs.RsIdle? && Serves(y, body) && CompileOf(OneSource(body), sha).Some?
    ensures Reaches(x, z, sha)
    ensures z == y.(rsDirty := false, rs := RsCompiled(CompileOf(OneSource(body), sha).value))
  {
    hide CompileOf, Reaches, RsReadStep, EditStep, EngReadStep, Gate, WriteStatusStep;
    z := Go(x, y, RsStart, sha);
    z := Go(x, z, RsFetch, sha);
    RuleSetReadsOne(z, body, sha);
    z := Go(x, z, RsRead, sha);
    z := Go(x, z, RsCompile, sha);
  }

  lemma RuleSetReadsOne(y: Ctrl, body: string, sha: string -> string)
    requires Serves(y, body) && y.rs == RsReading([ONE_REF], [])
    ensures RsReadStep(y) == y.(rs := RsReading([ONE_REF], OneSource(body)))
  {
    hide CompileOf, ReadRef, Desired;
    ReadsOneSource(y, body, sha);
  }

  lemma EngineReadsOne(y: Ctrl, body: string, sha: string -> string)
    requires Serves(y, body) && y.eng == EngReading([ONE_REF], [])
    ensures EngReadStep(y) == y.(eng := EngReading([ONE_REF], OneSource(body)))
  {
    hide CompileOf, ReadRef, Desired;
    ReadsOneSource(y, body, sha);
  }

  /** An engine reconcile up to its first read. */
  lemma EngineStarts(x: Ctrl, y: Ctrl, sha: string -> string) returns (z: Ctrl)
    requires Reaches(x, y, sha) && y.engDirty && y.eng.EngIdle? && y.status.compiledHash != ""
    ensures Reaches(x, z, sha) && z == y.(engDirty := false, eng := EngReading(y.refs, []))
  {
    hide Reaches;
    z := Go(x, y, EngStart, sha);
    z := Go(x, z, EngFetch, sha);
  }

  lemma EngineCompiles(x: Ctrl, y: Ctrl, seen: string, sha: string -> string) returns (z: Ctrl)
    requires Reaches(x, y, sha) && y.eng == EngReading([ONE_REF], []) && Serves(y, seen)
    requires CompileOf(OneSource(seen), sha).Some?
    ensures Reaches(x, z, sha) && z == y.(eng := EngCompiled(CompileOf(OneSource(seen), sha).value))
  {
    hide CompileOf, Reaches, RsReadStep, EditStep, EngReadStep, Gate, WriteStatusStep;
    EngineReadsOne(y, seen, sha);
    z := Go(x, y, EngRead, sha);
    z := Go(x, z, EngCompile, sha);
  }

  lemma WatchesOne(x: Ctrl)
    requires x.refs == [ONE_REF]
    ensures Watches(x, SecRulesId(x.ns, "n"))
  {
    assert Target(x.ns, x.refs[0]) == Some(SecRulesId(x.ns, "n"));
  }

  /** `a` is the only unheeded change of a run from `x` that ends with both keys idle and a stale text. */
  ghost predicate StaleAfter(x: Ctrl, acts: seq<Action>, a: Action, y: Ctrl, sha: string -> string) {
    && CanActAll(x, acts, sha) && AllHeeded(x, acts, sha)
    && var z := ActAll(x, acts, sha);
    && Possible(z, a) && !Heeded(z, a, sha)
    && ReachesAlone(Act(z, a, sha), y, sha) && Quiet(y) && Stale(y, sha)
  }

  /** The stale run of an unheeded change at the end of a heeded run. */
  lemma StaleFrom(x: Ctrl, z: Ctrl, a: Action, sha: string -> string) returns (acts: seq<Action>, y: Ctrl)
    requires Fresh(x) && GoodDigest(sha) && Reaches(x, z, sha) && Possible(z, a) && !Heeded(z, a, sha)
    ensures StaleAfter(x, acts, a, y, sha) && ActAll(x, acts, sha) == z
    ensures var after := Act(z, a, sha); y.ns == after.ns && y.rules == after.rules && y.refs == after.refs
  {
    hide Possible, Act, Heeded, Quiet, Stale, ReachesAlone, GoodDigest, Fresh;
    acts :| CanActAll(x, acts, sha) && AllHeeded(x, acts, sha) && ActAll(x, acts, sha) == z;
    y := UnheededChangeCanStayStale(x, acts, a, sha);
  }

  /** Two edits that cancel out, and a second status update that is lost or has the digest and the timestamp of the
      first: it alone goes unheeded, and the engine's reconcile of the text in between is the last to publish. */
  lemma UnheededUpdateLeavesStaleBundle(
    x: Ctrl, first: string, between: string, now: int, lost: bool, sha: string -> string)
    returns (acts: seq<Action>, y: Ctrl)
    requires Fresh(x) && Serves(x, first) && GoodDigest(sha) && (lost || now == x.status.lastCompiledAt + 1)
    requires CompileOf(OneSource(first), sha).Some? && CompileOf(OneSource(between), sha).Some?
    requires CompileOf(OneSource(first), sha).value.compiled != CompileOf(OneSource(between), sha).value.compiled
    ensures StaleAfter(x, acts, RsWriteStatus(now, lost), y, sha) && Serves(y, first)
  {
    hide CompileOf, Reaches, StaleAfter, Heeded, Watches, EditStep, RsReadStep, EngReadStep;
    var z := EngineHoldsOther(x, first, between, sha);
    UpdateIsUnheeded(z, first, between, now, lost, sha);
    acts, y := StaleFrom(x, z, RsWriteStatus(now, lost), sha);
  }

  /** The RuleSet about to announce one text for the second time, an engine reconcile about to publish another. */
  lemma EngineHoldsOther(x: Ctrl, first: string, between: string, sha: string -> string) returns (z: Ctrl)
    requires Fresh(x) && Serves(x, first) && GoodDigest(sha)
    requires CompileOf(OneSource(first), sha).Some? && CompileOf(OneSource(between), sha).Some?
    ensures var (b, b') := (CompileOf(OneSource(first), sha).value, CompileOf(OneSource(between), sha).value);
            && Reaches(x, z, sha) && Serves(z, first) && !z.rsDirty && !z.engDirty
            && z.rs == RsCompiled(b) && z.eng == EngCompiled(b')
            && z.status == Status(b.sha256, x.status.lastCompiledAt + 1)
  {
    hide CompileOf, Watches, Reaches, RsReadStep, EngReadStep, WriteStatusStep, Gate, ToPublish;
    var id := SecRulesId(x.ns, "n");
    CompileIsStamped(OneSource(first), sha);
    ReachesItself(x, sha);
    z := RuleSetCycle(x, x, first, x.status.lastCompiledAt + 1, sha);
    z := EngineStarts(x, z, sha);
    WatchesOne(z);
    z := Go(x, z, EditRules(id, Some(between), false), sha);
    z := EngineCompiles(x, z, between, sha);
    WatchesOne(z);
    z := Go(x, z, EditRules(id, Some(first), false), sha);
    z := RuleSetCompiles(x, z, first, sha);
  }

  lemma UpdateIsUnheeded(z: Ctrl, first: string, between: string, now: int, lost: bool, sha: string -> string)
    requires CompileOf(OneSource(first), sha).Some? && CompileOf(OneSource(between), sha).Some?
    requires var (b, b') := (CompileOf(OneSource(first), sha).value, CompileOf(OneSource(between), sha).value);
             && b.compiled != b'.compiled && z.rs == RsCompiled(b) && z.eng == EngCompiled(b')
             && (lost || z.status == Status(b.sha256, now))
    requires Serves(z, first) && !z.rsDirty && !z.engDirty
    ensures !Heeded(z, RsWriteStatus(now, lost), sha)
  {
    hide CompileOf, Desired, Completion, Watches, EditStep, RsReadStep, EngReadStep;
    ReadsOneSource(WriteStatusStep(z, now, lost), first, sha);
  }

  /** Both reconcilers done, then an edit whose List fails: it alone goes unheeded. */
  lemma LostEditLeavesStaleBundle(x: Ctrl, first: string, second: string, sha: string -> string)
    returns (acts: seq<Action>, y: Ctrl)
    requires Fresh(x) && Serves(x, first) && GoodDigest(sha)
    requires CompileOf(OneSource(first), sha).Some? && CompileOf(OneSource(second), sha).Some?
    requires CompileOf(OneSource(first), sha).value.compiled != CompileOf(OneSource(second), sha).value.compiled
    ensures StaleAfter(x, acts, EditRules(SecRulesId(x.ns, "n"), Some(second), true), y, sha) && Serves(y, second)
  {
    hide CompileOf, ReadRef, Desired, Completion, Watches, Reaches, StaleAfter, RsReadStep, EngReadStep, WriteStatusStep;
    CompileIsStamped(OneSource(first), sha);
    ReachesItself(x, sha);
    var z := RuleSetCycle(x, x, first, x.status.lastCompiledAt + 1, sha);
    z := EngineStarts(x, z, sha);
    z := EngineCompiles(x, z, first, sha);
    z := Go(x, z, EngPublish(0), sha);
    var a := EditRules(SecRulesId(x.ns, "n"), Some(second), true);
    ReadsOneSource(Act(z, a, sha), second, sha);
    acts, y := StaleFrom(x, z, a, sha);
  }

  lemma PlainBodyCompiles(body: string, sha: string -> string)
    requires body == "" || (body[0] == '#' && '\n' !in body)
    ensures CompileOf(OneSource(body), sha).Some?
    ensures CompileOf(OneSource(body), sha).value.compiled == C.CompiledText(OneSource(body))
  {
    hide C.Section, C.CompiledText, C.RuleTotal, C.Label;
    LinesOfOneLine(body);
    if body != "" {
      C.HashIsNoDirective(body);
    }
    assert OneSource(body)[..0] == [] && [body][..0] == [];
    assert C.LineDeclarations([body], C.Label(OneSource(body)[0])) == [];
    assert C.Declarations(OneSource(body)) == [];
    C.NothingDeclared();
  }

  /** The stale runs start from any freshly started operator whose only rule object is empty: after a repeated status,
      a lost status event, and a lost edit, each the only unheeded change of its run. */
  lemma StaleBundleIsReachable(x: Ctrl, sha: string -> string)
    returns (toRepeated: seq<Action>, repeated: Ctrl, toLost: seq<Action>, lostStatus: Ctrl,
             toEdit: seq<Action>, lostEdit: Ctrl)
    requires Fresh(x) && Serves(x, "") && GoodDigest(sha)
    ensures StaleAfter(x, toRepeated, RsWriteStatus(x.status.lastCompiledAt + 1, false), repeated, sha)
    ensures StaleAfter(x, toLost, RsWriteStatus(x.status.lastCompiledAt + 2, true), lostStatus, sha)
    ensures StaleAfter(x, toEdit, EditRules(SecRulesId(x.ns, "n"), Some("#"), true), lostEdit, sha)
  {
    hide StaleAfter, CompileOf, C.CompiledText, C.Normalised;
    PlainBodyCompiles("", sha);
    PlainBodyCompiles("#", sha);
    SingleEditIsSeen([], OneSource("")[0], "#", [], sha);
    assert [] + [OneSource("")[0]] + [] == OneSource("");
    assert [] + [OneSource("")[0].(body := "#")] + [] == OneSource("#");
    assert C.Normalised("") != C.Normalised("#") by { DifferentBodies(); }
    toRepeated, repeated := UnheededUpdateLeavesStaleBundle(x, "", "#", x.status.lastCompiledAt + 1, false, sha);
    toLost, lostStatus := UnheededUpdateLeavesStaleBundle(x, "", "#", x.status.lastCompiledAt + 2, true, sha);
    toEdit, lostEdit := LostEditLeavesStaleBundle(x, "", "#", sha);
  }

  lemma DifferentBodies()
    ensures C.Normalised("") != C.Normalised("#")
  {
  }
}
