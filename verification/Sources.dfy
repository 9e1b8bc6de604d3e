/**
 From a RuleSet to its sources: the lookup loop of internal/controller/ruleset_controller.go, its twin in
 engine_controller.go, and the functions that map a changed rule object to the RuleSets to reconcile. A snapshot says
 for each object what a read of it returns.
 */
module Sources {
  import opened Wrappers
  import opened Compiler

  datatype ObjectId = SecRulesId(ns: string, name: string) | ClusterSecRulesId(name: string)

  datatype SourceRef = SourceRef(kind: string, name: string)

  datatype RuleSet = RuleSet(ns: string, name: string, sources: seq<SourceRef>)

  /** Rule bodies by object, and the objects whose reads fail with an error other than "not found". */
  datatype Cluster = Cluster(rules: map<ObjectId, string>, failing: map<ObjectId, string>)

  datatype Got = Found(body: string) | NotFound | Failed(error: string)

  function Get(c: Cluster, id: ObjectId): Got {
    if id in c.failing then Failed(c.failing[id]) else if id in c.rules then Found(c.rules[id]) else NotFound
  }

  /** Why a reference yields no source; each stands for one message text that both loops share. */
  datatype Problem =
    | Missing(id: ObjectId)
    | UnknownKind(kind: string)
    | ReadError(id: ObjectId, error: string)

  // ----- What a reference list means -----

  const SEC_RULES := "SecRules"
  const CLUSTER_SEC_RULES := "ClusterSecRules"

  /** The object a reference names; an empty kind means SecRules in the RuleSet's own namespace. */
  function Target(ns: string, ref: SourceRef): Option<ObjectId> {
    if ref.kind == SEC_RULES || ref.kind == "" then Some(SecRulesId(ns, ref.name))
    else if ref.kind == CLUSTER_SEC_RULES then Some(ClusterSecRulesId(ref.name))
    else None
  }

  function ReadRef(c: Cluster, ns: string, ref: SourceRef): Result<Source, Problem> {
    var target := Target(ns, ref);
    if target.None? then Err(UnknownKind(ref.kind))
    else
      match Get(c, target.value)
      case Found(body) =>
        Ok(Source(if target.value.SecRulesId? then SEC_RULES else CLUSTER_SEC_RULES, ref.name, body))
      case NotFound => Err(Missing(target.value))
      case Failed(error) => Err(ReadError(target.value, error))
  }

  /** Position `i` is the first reference that fails, with problem `p`. */
  ghost predicate FirstProblemAt(c: Cluster, ns: string, refs: seq<SourceRef>, i: nat, p: Problem) {
    && i < |refs|
    && ReadRef(c, ns, refs[i]) == Err(p)
    && forall j :: 0 <= j < i ==> ReadRef(c, ns, refs[j]).Ok?
  }

  /** Every reference reads, and `ss` are the sources in order. */
  ghost predicate AllRead(c: Cluster, ns: string, refs: seq<SourceRef>, ss: seq<Source>) {
    && |ss| == |refs|
    && forall i :: 0 <= i < |refs| ==> ReadRef(c, ns, refs[i]) == Ok(ss[i])
  }

  /** The sources in order, or the problem of the first reference that fails. */
  function Resolve(c: Cluster, ns: string, refs: seq<SourceRef>): (r: Result<seq<Source>, Problem>)
    decreases |refs|
  {
    if refs == [] then Ok([])
    else
      match Resolve(c, ns, refs[..|refs| - 1])
      case Err(p) => Err(p)
      case Ok(ss) =>
        match ReadRef(c, ns, refs[|refs| - 1])
        case Err(p) => Err(p)
        case Ok(s) => Ok(ss + [s])
  }

  /** Success means that every reference reads, to the source at its place. */
  lemma {:induction false} ResolvedInOrder(c: Cluster, ns: string, refs: seq<SourceRef>)
    requires Resolve(c, ns, refs).Ok?
    ensures AllRead(c, ns, refs, Resolve(c, ns, refs).value)
    decreases |refs|
  {
    hide ReadRef;
    if refs != [] {
      var front := refs[..|refs| - 1];
      ResolvedInOrder(c, ns, front);
      assert forall j :: 0 <= j < |front| ==> refs[j] == front[j];
    }
  }

  /** Failure means that some position is the first to fail, with that problem. */
  lemma {:induction false} FailsAtFirstProblem(c: Cluster, ns: string, refs: seq<SourceRef>) returns (i: nat)
    requires Resolve(c, ns, refs).Err?
    ensures FirstProblemAt(c, ns, refs, i, Resolve(c, ns, refs).error)
    decreases |refs|
  {
    hide ReadRef;
    var front := refs[..|refs| - 1];
    assert forall j :: 0 <= j < |front| ==> refs[j] == front[j];
    if Resolve(c, ns, front).Err? {
      i := FailsAtFirstProblem(c, ns, front);
    } else {
      ResolvedInOrder(c, ns, front);
      i := |front|;
    }
  }

  /** A failing prefix decides, whatever follows. */
  lemma {:induction false} ResolveOfFailingPrefix(c: Cluster, ns: string, refs: seq<SourceRef>, i: nat)
    requires i <= |refs| && Resolve(c, ns, refs[..i]).Err?
    ensures Resolve(c, ns, refs) == Resolve(c, ns, refs[..i])
    decreases |refs|
  {
    hide FirstProblemAt, AllRead, ReadRef;
    if i == |refs| {
      assert refs[..i] == refs;
    } else {
      var n := |refs| - 1;
      assert refs[..n][..i] == refs[..i];
      ResolveOfFailingPrefix(c, ns, refs[..n], i);
    }
  }

  /** Reading a list of references is reading its two parts, one after the other. */
  lemma {:induction false} ResolveConcat(c: Cluster, ns: string, a: seq<SourceRef>, b: seq<SourceRef>)
    ensures Resolve(c, ns, a + b) ==
            match Resolve(c, ns, a)
            case Err(p) => Err(p)
            case Ok(ss) =>
              match Resolve(c, ns, b)
              case Err(p) => Err(p)
              case Ok(more) => Ok(ss + more)
    decreases |b|
  {
    hide ReadRef;
    if b == [] {
      assert a + b == a;
      var ra := Resolve(c, ns, a);
      assert ra.Ok? ==> ra.value + [] == ra.value;
    } else {
      var n := |b| - 1;
      assert (a + b)[..|a + b| - 1] == a + b[..n] && (a + b)[|a + b| - 1] == b[n];
      ResolveConcat(c, ns, a, b[..n]);
      var ra, rb, last := Resolve(c, ns, a), Resolve(c, ns, b[..n]), ReadRef(c, ns, b[n]);
      if ra.Ok? && rb.Ok? && last.Ok? {
        assert (ra.value + rb.value) + [last.value] == ra.value + (rb.value + [last.value]);
      }
    }
  }

  lemma ResolveOne(c: Cluster, ns: string, ref: SourceRef)
    ensures Resolve(c, ns, [ref]) ==
            match ReadRef(c, ns, ref)
            case Err(p) => Err(p)
            case Ok(s) => Ok([s])
  {
    hide ReadRef;
    assert [ref][..0] == [];
    var first := ReadRef(c, ns, ref);
    assert first.Ok? ==> [] + [first.value] == [first.value];
  }

  /** What a read of the object gives, in the source's own terms. */
  function ReadAs(c: Cluster, id: ObjectId, kind: string, name: string): Result<seq<Source>, Problem> {
    if id in c.failing then Err(ReadError(id, c.failing[id]))
    else if id in c.rules then Ok([Source(kind, name, c.rules[id])])
    else Err(Missing(id))
  }

  /** Which object a reference is read from, by the kind's name. */
  lemma KindsByName(c: Cluster, ns: string, kind: string, name: string)
    ensures kind == "SecRules" || kind == "" ==>
              Resolve(c, ns, [SourceRef(kind, name)]) == ReadAs(c, SecRulesId(ns, name), "SecRules", name)
    ensures kind == "ClusterSecRules" ==>
              Resolve(c, ns, [SourceRef(kind, name)]) == ReadAs(c, ClusterSecRulesId(name), "ClusterSecRules", name)
    ensures kind != "SecRules" && kind != "" && kind != "ClusterSecRules" ==>
              Resolve(c, ns, [SourceRef(kind, name)]) == Err(UnknownKind(kind))
  {
    hide Resolve;
    KindNamesDiffer();
    ResolveOne(c, ns, SourceRef(kind, name));
  }

  lemma KindNamesDiffer()
    ensures "SecRules" != "ClusterSecRules" && "SecRules" != "" && "ClusterSecRules" != ""
  {
    assert |"SecRules"| == 8 && |"ClusterSecRules"| == 15;
  }

  /** One more reference read after those before it. */
  lemma ResolveStep(c: Cluster, ns: string, refs: seq<SourceRef>, i: nat, ss: seq<Source>)
    requires i < |refs| && Resolve(c, ns, refs[..i]) == Ok(ss)
    ensures match ReadRef(c, ns, refs[i])
            case Ok(s) => Resolve(c, ns, refs[..i + 1]) == Ok(ss + [s])
            case Err(p) => Resolve(c, ns, refs) == Err(p)
  {
    hide FirstProblemAt, AllRead, ReadRef;
    assert refs[..i + 1][..i] == refs[..i];
    if ReadRef(c, ns, refs[i]).Err? {
      ResolveOfFailingPrefix(c, ns, refs, i + 1);
    }
  }

  lemma ResolveAll(c: Cluster, ns: string, refs: seq<SourceRef>)
    ensures Resolve(c, ns, refs[..0]) == Ok([])
    ensures Resolve(c, ns, refs[..|refs|]) == Resolve(c, ns, refs)
  {
    hide FirstProblemAt, AllRead, ReadRef;
    assert refs[..0] == [] && refs[..|refs|] == refs;
  }

  // ----- The two loops -----

  datatype Collection =
    | Collected(sources: seq<Source>)
    | MissingDependency(problem: Problem)
    | ApiError(problem: Problem)

  /** The RuleSet reconciler's loop: a missing object is a status, any other read failure an error. */
  method CollectSources(c: Cluster, rs: RuleSet) returns (r: Collection)
    ensures match Resolve(c, rs.ns, rs.sources)
            case Ok(ss) => r == Collected(ss)
            case Err(p) => r == if p.ReadError? then ApiError(p) else MissingDependency(p)
  {
    hide FirstProblemAt, AllRead, Resolve;
    var sources: seq<Source> := [];
    ResolveAll(c, rs.ns, rs.sources);
    for i := 0 to |rs.sources|
      invariant Resolve(c, rs.ns, rs.sources[..i]) == Ok(sources)
    {
      var ref := rs.sources[i];
      ResolveStep(c, rs.ns, rs.sources, i, sources);
      if ref.kind == SEC_RULES || ref.kind == "" {
        var id := SecRulesId(rs.ns, ref.name);
        match Get(c, id) {
          case NotFound => return MissingDependency(Missing(id));
          case Failed(e) => return ApiError(ReadError(id, e));
          case Found(body) => sources := sources + [Source(SEC_RULES, ref.name, body)];
        }
      } else if ref.kind == CLUSTER_SEC_RULES {
        var id := ClusterSecRulesId(ref.name);
        match Get(c, id) {
          case NotFound => return MissingDependency(Missing(id));
          case Failed(e) => return ApiError(ReadError(id, e));
          case Found(body) => sources := sources + [Source(CLUSTER_SEC_RULES, ref.name, body)];
        }
      } else {
        return MissingDependency(UnknownKind(ref.kind));
      }
    }
    return Collected(sources);
  }

  datatype CompileFailure = BadSource(problem: Problem) | Conflict(error: ConflictError)

  /** The Engine reconciler's loop: every failure is an error, and the compiler is called at the end. */
  method CompileRuleSet(c: Cluster, ns: string, rs: RuleSet, sha: string -> string)
    returns (r: Result<Bundle, CompileFailure>)
    ensures match Resolve(c, ns, rs.sources)
            case Err(p) => r == Err(BadSource(p))
            case Ok(ss) =>
              match Outcome(ss, sha)
              case Ok(b) => r == Ok(b)
              case Err(e) => r == Err(Conflict(e))
  {
    hide Outcome, Resolve, FirstProblemAt, AllRead, NoRepeat, IsFirstConflict, Declarations, CompiledText, RuleTotal, Wrap32;
    var sources: seq<Source> := [];
    ResolveAll(c, ns, rs.sources);
    for i := 0 to |rs.sources|
      invariant Resolve(c, ns, rs.sources[..i]) == Ok(sources)
    {
      var ref := rs.sources[i];
      ResolveStep(c, ns, rs.sources, i, sources);
      if ref.kind == SEC_RULES || ref.kind == "" {
        var got := Get(c, SecRulesId(ns, ref.name));
        if got.NotFound? {
          return Err(BadSource(Missing(SecRulesId(ns, ref.name))));
        } else if got.Failed? {
          return Err(BadSource(ReadError(SecRulesId(ns, ref.name), got.error)));
        }
        sources := sources + [Source(SEC_RULES, ref.name, got.body)];
      } else if ref.kind == CLUSTER_SEC_RULES {
        var got := Get(c, ClusterSecRulesId(ref.name));
        if got.NotFound? {
          return Err(BadSource(Missing(ClusterSecRulesId(ref.name))));
        } else if got.Failed? {
          return Err(BadSource(ReadError(ClusterSecRulesId(ref.name), got.error)));
        }
        sources := sources + [Source(CLUSTER_SEC_RULES, ref.name, got.body)];
      } else {
        return Err(BadSource(UnknownKind(ref.kind)));
      }
    }
    var compiled := Compile(sources, sha);
    OutcomeIsDetermined(sources, sha, compiled);
    match compiled {
      case Ok(b) => return Ok(b);
      case Err(e) => return Err(Conflict(e));
    }
  }

  /** On one snapshot the two reconcilers agree: the same bundle, the same conflict, or the same problem, met at the
      same first failing reference. */
  method BothCompilePaths(c: Cluster, rs: RuleSet, sha: string -> string)
    returns (viaRuleSet: Collection, viaEngine: Result<Bundle, CompileFailure>)
    ensures viaEngine.Ok? <==> viaRuleSet.Collected? && Outcome(viaRuleSet.sources, sha).Ok?
    ensures viaEngine.Ok? ==> Outcome(viaRuleSet.sources, sha) == Ok(viaEngine.value)
    ensures viaEngine.Err? && viaEngine.error.Conflict? ==>
              viaRuleSet.Collected? && Outcome(viaRuleSet.sources, sha) == Err(viaEngine.error.error)
    ensures viaEngine.Err? && viaEngine.error.BadSource? <==> !viaRuleSet.Collected?
    ensures !viaRuleSet.Collected? ==>
              && viaRuleSet.problem == viaEngine.error.problem
              && (viaRuleSet.ApiError? <==> viaRuleSet.problem.ReadError?)
              && exists i :: FirstProblemAt(c, rs.ns, rs.sources, i, viaRuleSet.problem)
  {
    hide Outcome, FirstProblemAt, Resolve;
    viaRuleSet := CollectSources(c, rs);
    viaEngine := CompileRuleSet(c, rs.ns, rs, sha);
    if !viaRuleSet.Collected? {
      ghost var i := FailsAtFirstProblem(c, rs.ns, rs.sources);
    }
  }

  // ----- Watches -----

  /** Some reference of the RuleSet names the object. */
  ghost predicate References(rs: RuleSet, id: ObjectId) {
    exists i :: 0 <= i < |rs.sources| && Target(rs.ns, rs.sources[i]) == Some(id)
  }

  /** The snapshots differ at most in one object. */
  ghost predicate SameExcept(c: Cluster, c': Cluster, id: ObjectId) {
    forall o :: o != id ==> Get(c, o) == Get(c', o)
  }

  /** A RuleSet that does not name the changed object resolves as before. */
  lemma {:induction false} UnreferencedIsUnaffected(c: Cluster, c': Cluster, id: ObjectId, rs: RuleSet)
    requires SameExcept(c, c', id) && !References(rs, id)
    ensures Resolve(c, rs.ns, rs.sources) == Resolve(c', rs.ns, rs.sources)
    decreases |rs.sources|
  {
    if rs.sources != [] {
      var n := |rs.sources| - 1;
      var front := rs.(sources := rs.sources[..n]);
      forall i | 0 <= i < n ensures Target(rs.ns, rs.sources[i]) != Some(id) {
      }
      assert !References(front, id);
      UnreferencedIsUnaffected(c, c', id, front);
      assert Target(rs.ns, rs.sources[n]) != Some(id);
      assert ReadRef(c, rs.ns, rs.sources[n]) == ReadRef(c', rs.ns, rs.sources[n]);
    }
  }

  /** The RuleSet has a reference with this name and one of these kinds. */
  predicate Mentions(rs: RuleSet, kinds: set<string>, name: string) {
    exists i :: 0 <= i < |rs.sources| && rs.sources[i].kind in kinds && rs.sources[i].name == name
  }

  lemma ReferencesByName(rs: RuleSet, name: string)
    ensures References(rs, SecRulesId(rs.ns, name)) <==> Mentions(rs, {"SecRules", ""}, name)
    ensures References(rs, ClusterSecRulesId(name)) <==> Mentions(rs, {"ClusterSecRules"}, name)
  {
    KindNamesDiffer();
    if Mentions(rs, {"SecRules", ""}, name) {
      var i :| 0 <= i < |rs.sources| && rs.sources[i].kind in {"SecRules", ""} && rs.sources[i].name == name;
      assert Target(rs.ns, rs.sources[i]) == Some(SecRulesId(rs.ns, name));
    }
    if Mentions(rs, {"ClusterSecRules"}, name) {
      var i :| 0 <= i < |rs.sources| && rs.sources[i].kind in {"ClusterSecRules"} && rs.sources[i].name == name;
      assert Target(rs.ns, rs.sources[i]) == Some(ClusterSecRulesId(name));
    }
  }

  datatype Request = Request(ns: string, name: string)

  function Identity(rs: RuleSet): Request { Request(rs.ns, rs.name) }

  ghost predicate Distinct(list: seq<RuleSet>) {
    forall i, j :: 0 <= i < j < |list| ==> Identity(list[i]) != Identity(list[j])
  }

  /** Every RuleSet that names the object is requested. */
  ghost predicate AllRequested(list: seq<RuleSet>, id: ObjectId, requests: seq<Request>) {
    forall i :: 0 <= i < |list| && References(list[i], id) ==> Identity(list[i]) in requests
  }

  /** Only RuleSets that name the object are. */
  ghost predicate OnlyReferencing(list: seq<RuleSet>, id: ObjectId, requests: seq<Request>) {
    forall q :: q in requests ==> exists i :: 0 <= i < |list| && Identity(list[i]) == q && References(list[i], id)
  }

  ghost predicate NoneTwice(requests: seq<Request>) {
    forall i, j :: 0 <= i < j < |requests| ==> requests[i] != requests[j]
  }

  /** Exactly the RuleSets that name the object are requested, each once. */
  ghost predicate RequestsExactly(list: seq<RuleSet>, id: ObjectId, requests: seq<Request>) {
    && AllRequested(list, id, requests)
    && OnlyReferencing(list, id, requests)
    && (Distinct(list) ==> NoneTwice(requests))
  }

  /** The same by names: those of the list that mention the object, and no others, are requested under their own names. */
  ghost predicate RequestsByName(list: seq<RuleSet>, kinds: set<string>, name: string, requests: seq<Request>) {
    && (forall rs :: rs in list && Mentions(rs, kinds, name) ==> Request(rs.ns, rs.name) in requests)
    && (forall q :: q in requests ==>
          exists rs :: rs in list && q.ns == rs.ns && q.name == rs.name && Mentions(rs, kinds, name))
  }

  lemma ExactlyByName(list: seq<RuleSet>, id: ObjectId, kinds: set<string>, name: string, requests: seq<Request>)
    requires RequestsExactly(list, id, requests)
    requires forall rs :: rs in list ==> (References(rs, id) <==> Mentions(rs, kinds, name))
    ensures RequestsByName(list, kinds, name, requests)
  {
    hide References, Mentions, NoneTwice, Distinct;
    forall rs | rs in list && Mentions(rs, kinds, name) ensures Request(rs.ns, rs.name) in requests {
      var i :| 0 <= i < |list| && list[i] == rs;
    }
    forall q | q in requests
      ensures exists rs :: rs in list && q.ns == rs.ns && q.name == rs.name && Mentions(rs, kinds, name)
    {
      var i :| 0 <= i < |list| && Identity(list[i]) == q && References(list[i], id);
      assert list[i] in list;
    }
  }

  lemma NoRequests(id: ObjectId)
    ensures RequestsExactly([], id, [])
  {
  }

  /** The requests after one more RuleSet of the list. */
  ghost function Extended(rs: RuleSet, id: ObjectId, requests: seq<Request>): seq<Request> {
    if References(rs, id) then requests + [Identity(rs)] else requests
  }

  lemma AllRequestedExtends(list: seq<RuleSet>, rs: RuleSet, id: ObjectId, requests: seq<Request>)
    requires AllRequested(list, id, requests)
    ensures AllRequested(list + [rs], id, Extended(rs, id, requests))
  {
    hide References, Identity;
  }

  lemma OnlyReferencingExtends(list: seq<RuleSet>, rs: RuleSet, id: ObjectId, requests: seq<Request>)
    requires OnlyReferencing(list, id, requests)
    ensures OnlyReferencing(list + [rs], id, Extended(rs, id, requests))
  {
    hide References, Identity;
    var more := list + [rs];
    forall q | q in Extended(rs, id, requests)
      ensures exists i :: 0 <= i < |more| && Identity(more[i]) == q && References(more[i], id)
    {
      if q in requests {
        var i :| 0 <= i < |list| && Identity(list[i]) == q && References(list[i], id);
        assert more[i] == list[i];
      } else {
        assert more[|list|] == rs;
      }
    }
  }

  lemma NoneTwiceExtends(list: seq<RuleSet>, rs: RuleSet, id: ObjectId, requests: seq<Request>)
    requires Distinct(list + [rs]) && OnlyReferencing(list, id, requests) && NoneTwice(requests)
    ensures NoneTwice(Extended(rs, id, requests))
  {
    hide References, Identity;
    var more := list + [rs];
    forall i | 0 <= i < |requests| ensures requests[i] != Identity(rs) {
      assert requests[i] in requests;
      var j :| 0 <= j < |list| && Identity(list[j]) == requests[i] && References(list[j], id);
      assert more[j] == list[j] && more[|list|] == rs;
    }
  }

  lemma DistinctPrefix(list: seq<RuleSet>, rs: RuleSet)
    requires Distinct(list + [rs])
    ensures Distinct(list)
  {
    hide Identity;
    var more := list + [rs];
    assert forall i :: 0 <= i < |list| ==> more[i] == list[i];
  }

  lemma RequestsExtend(list: seq<RuleSet>, rs: RuleSet, id: ObjectId, requests: seq<Request>)
    requires RequestsExactly(list, id, requests)
    ensures RequestsExactly(list + [rs], id, Extended(rs, id, requests))
  {
    hide AllRequested, OnlyReferencing, NoneTwice, Distinct, Extended;
    AllRequestedExtends(list, rs, id, requests);
    OnlyReferencingExtends(list, rs, id, requests);
    if Distinct(list + [rs]) {
      DistinctPrefix(list, rs);
      NoneTwiceExtends(list, rs, id, requests);
    }
  }

  /** The RuleSets of a namespace. */
  function InNamespace(all: seq<RuleSet>, ns: string): (list: seq<RuleSet>)
    ensures forall rs :: rs in list <==> rs in all && rs.ns == ns
  {
    if all == [] then []
    else
      assert all == [all[0]] + all[1..];
      var rest := InNamespace(all[1..], ns);
      if all[0].ns == ns then [all[0]] + rest else rest
  }

  lemma {:induction false} NamespaceKeepsDistinct(all: seq<RuleSet>, ns: string)
    requires Distinct(all)
    ensures Distinct(InNamespace(all, ns))
  {
    hide Identity;
    if all != [] {
      var tail, rest := all[1..], InNamespace(all[1..], ns);
      assert forall i :: 0 <= i < |tail| ==> tail[i] == all[i + 1];
      NamespaceKeepsDistinct(tail, ns);
      forall i | 0 <= i < |rest| ensures Identity(rest[i]) != Identity(all[0]) {
        assert rest[i] in rest;
        var j :| 0 <= j < |tail| && tail[j] == rest[i];
        assert all[j + 1] == rest[i];
      }
    }
  }

  method MentionsSecRules(rs: RuleSet, name: string) returns (found: bool)
    ensures found <==> References(rs, SecRulesId(rs.ns, name))
  {
    found := false;
    for j := 0 to |rs.sources|
      invariant forall l :: 0 <= l < j ==> Target(rs.ns, rs.sources[l]) != Some(SecRulesId(rs.ns, name))
    {
      if (rs.sources[j].kind == SEC_RULES || rs.sources[j].kind == "") && rs.sources[j].name == name {
        assert Target(rs.ns, rs.sources[j]) == Some(SecRulesId(rs.ns, name));
        return true;
      }
    }
  }

  /** A failed List is logged, and then nothing is requested. */
  method EnqueueForSecRules(all: seq<RuleSet>, listFails: bool, ns: string, name: string)
    returns (requests: seq<Request>)
    ensures listFails ==> requests == []
    ensures !listFails ==> RequestsExactly(InNamespace(all, ns), SecRulesId(ns, name), requests)
    ensures !listFails ==> RequestsByName(InNamespace(all, ns), {"SecRules", ""}, name, requests)
  {
    hide RequestsExactly, References, RequestsByName, Mentions;
    if listFails {
      return [];
    }
    var list := InNamespace(all, ns);
    requests := [];
    NoRequests(SecRulesId(ns, name));
    for i := 0 to |list|
      invariant RequestsExactly(list[..i], SecRulesId(ns, name), requests)
    {
      assert list[..i + 1] == list[..i] + [list[i]];
      RequestsExtend(list[..i], list[i], SecRulesId(ns, name), requests);
      assert list[i] in list;
      var found := MentionsSecRules(list[i], name);
      if found {
        requests := requests + [Request(list[i].ns, list[i].name)];
      }
    }
    assert list[..|list|] == list;
    forall rs | rs in list ensures References(rs, SecRulesId(ns, name)) <==> Mentions(rs, {"SecRules", ""}, name) {
      ReferencesByName(rs, name);
    }
    ExactlyByName(list, SecRulesId(ns, name), {"SecRules", ""}, name, requests);
  }

  method MentionsClusterSecRules(rs: RuleSet, name: string) returns (found: bool)
    ensures found <==> References(rs, ClusterSecRulesId(name))
  {
    found := false;
    for j := 0 to |rs.sources|
      invariant forall l :: 0 <= l < j ==> Target(rs.ns, rs.sources[l]) != Some(ClusterSecRulesId(name))
    {
      if rs.sources[j].kind == CLUSTER_SEC_RULES && rs.sources[j].name == name {
        assert Target(rs.ns, rs.sources[j]) == Some(ClusterSecRulesId(name));
        return true;
      }
    }
  }

  method EnqueueForClusterSecRules(all: seq<RuleSet>, listFails: bool, name: string) returns (requests: seq<Request>)
    ensures listFails ==> requests == []
    ensures !listFails ==> RequestsExactly(all, ClusterSecRulesId(name), requests)
    ensures !listFails ==> RequestsByName(all, {"ClusterSecRules"}, name, requests)
  {
    hide RequestsExactly, References, RequestsByName, Mentions;
    if listFails {
      return [];
    }
    var list := all;
    requests := [];
    NoRequests(ClusterSecRulesId(name));
    for i := 0 to |list|
      invariant RequestsExactly(list[..i], ClusterSecRulesId(name), requests)
    {
      assert list[..i + 1] == list[..i] + [list[i]];
      RequestsExtend(list[..i], list[i], ClusterSecRulesId(name), requests);
      var found := MentionsClusterSecRules(list[i], name);
      if found {
        requests := requests + [Request(list[i].ns, list[i].name)];
      }
    }
    assert list[..|list|] == list;
    forall rs | rs in list ensures References(rs, ClusterSecRulesId(name)) <==> Mentions(rs, {"ClusterSecRules"}, name) {
      ReferencesByName(rs, name);
    }
    ExactlyByName(list, ClusterSecRulesId(name), {"ClusterSecRules"}, name, requests);
  }

  /** Whether a watch misses nobody: every RuleSet that names the object is requested. */
  ghost predicate WatchReaches(all: seq<RuleSet>, id: ObjectId, requests: seq<Request>) {
    forall rs :: rs in all && References(rs, id) ==> Identity(rs) in requests
  }

  /** After a change to one rule object the watch misses no RuleSet that names it iff its List succeeded or there is
      none; then every RuleSet it does not request resolves exactly as before. */
  method WatchIsComplete(all: seq<RuleSet>, listFails: bool, id: ObjectId, ghost c: Cluster, ghost c': Cluster)
    returns (requests: seq<Request>)
    requires SameExcept(c, c', id)
    ensures WatchReaches(all, id, requests) <==> !listFails || forall rs :: rs in all ==> !References(rs, id)
    ensures WatchReaches(all, id, requests) ==>
              forall rs :: rs in all && Identity(rs) !in requests ==>
                Resolve(c, rs.ns, rs.sources) == Resolve(c', rs.ns, rs.sources)
    ensures Distinct(all) ==> NoneTwice(requests)
  {
    hide Resolve, References, RequestsExactly, RequestsByName, Distinct, NoneTwice, SameExcept;
    match id {
      case SecRulesId(ns, name) => requests := EnqueueForSecRules(all, listFails, ns, name);
      case ClusterSecRulesId(name) => requests := EnqueueForClusterSecRules(all, listFails, name);
    }
    NothingTwice();
    if !listFails {
      ReachesAll(all, id, requests);
    }
    forall rs | WatchReaches(all, id, requests) && rs in all && Identity(rs) !in requests
      ensures Resolve(c, rs.ns, rs.sources) == Resolve(c', rs.ns, rs.sources)
    {
      UnreferencedIsUnaffected(c, c', id, rs);
    }
  }

  lemma NothingTwice()
    ensures NoneTwice([])
  {
  }

  /** A reference to a namespaced object comes from that namespace, so the namespaced list misses none. */
  lemma ReachesAll(all: seq<RuleSet>, id: ObjectId, requests: seq<Request>)
    requires id.SecRulesId? ==> RequestsExactly(InNamespace(all, id.ns), id, requests)
    requires id.ClusterSecRulesId? ==> RequestsExactly(all, id, requests)
    ensures WatchReaches(all, id, requests)
    ensures Distinct(all) ==> NoneTwice(requests)
  {
    hide Identity, Distinct, NoneTwice, OnlyReferencing;
    var list := if id.SecRulesId? then InNamespace(all, id.ns) else all;
    if Distinct(all) && id.SecRulesId? {
      NamespaceKeepsDistinct(all, id.ns);
    }
    forall rs | rs in all && References(rs, id) ensures Identity(rs) in requests {
      var i :| 0 <= i < |rs.sources| && Target(rs.ns, rs.sources[i]) == Some(id);
      assert rs in list;
      var j :| 0 <= j < |list| && list[j] == rs;
    }
  }

  /** A lost request matters: if all kinds of a RuleSet are known, some change to an object it names changes what it
      resolves to. */
  lemma ReferencedCanBeAffected(rs: RuleSet, id: ObjectId) returns (c: Cluster, c': Cluster)
    requires References(rs, id) && forall i :: 0 <= i < |rs.sources| ==> Target(rs.ns, rs.sources[i]).Some?
    ensures SameExcept(c, c', id) && Resolve(c, rs.ns, rs.sources) != Resolve(c', rs.ns, rs.sources)
  {
    hide Resolve;
    var targets := set i | 0 <= i < |rs.sources| && Target(rs.ns, rs.sources[i]).Some? :: Target(rs.ns, rs.sources[i]).value;
    c := Cluster(map o | o in targets :: "", map[]);
    c' := c.(rules := c.rules - {id});
    if Resolve(c, rs.ns, rs.sources).Err? {
      var i := FailsAtFirstProblem(c, rs.ns, rs.sources);
    }
    if Resolve(c', rs.ns, rs.sources).Ok? {
      ResolvedInOrder(c', rs.ns, rs.sources);
    }
  }
}
