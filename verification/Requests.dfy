/**
 The two request machines of internal/enginepkg, over the verdicts the WAF gives phase by phase: the HTTP proxy
 handler and the SPOE message handler. Where a verdict comes from is the WAF's business; every combination is allowed.
 */
module Requests {
  import opened Wrappers
  import opened Numerals
  import Spoe

  datatype Mode = Detection | Blocking

  datatype Interruption = Interruption(status: int, ruleID: int)

  datatype Verdict = Pass | Interrupt(it: Interruption) | Fault(error: string)

  /**
   What the WAF and the connection will answer to one request: the headers phase (which cannot fail), whether there is
   a body to read and whether reading it fails, the two body phases, the upstream response and the response phase.
   */
  datatype Script = Script(
    headers: Option<Interruption>,
    hasBody: bool,
    readError: Option<string>,
    write: Verdict,
    process: Verdict,
    upstreamStatus: int,
    response: Option<Interruption>)

  function OfOption(o: Option<Interruption>): Verdict { if o.Some? then Interrupt(o.value) else Pass }

  function BlockStatus(it: Interruption): int { if it.status == 0 then 403 else it.status }

  // ----- The reference: the first phase that stops decides -----

  /** The verdicts of the HTTP request phases in order; a request without a body has only the outer two. */
  function HttpPhases(s: Script): seq<Verdict> {
    [OfOption(s.headers)]
    + (if s.hasBody then [if s.readError.Some? then Fault(s.readError.value) else Pass, s.write] else [])
    + [s.process]
  }

  /** A fault always stops; an interruption stops in Blocking mode only. */
  predicate Stops(v: Verdict, mode: Mode) { v.Fault? || (v.Interrupt? && mode.Blocking?) }

  function FirstStop(vs: seq<Verdict>, mode: Mode): (i: nat)
    ensures i <= |vs|
    ensures forall j :: 0 <= j < i ==> !Stops(vs[j], mode)
    ensures i < |vs| ==> Stops(vs[i], mode)
  {
    if vs == [] || Stops(vs[0], mode) then 0 else 1 + FirstStop(vs[1..], mode)
  }

  datatype Answer = Blocked(status: int) | InternalError | ResponseBlocked | Forwarded(status: int)

  /** What the client gets. */
  function HttpAnswer(s: Script, mode: Mode): Answer {
    var vs := HttpPhases(s);
    var i := FirstStop(vs, mode);
    if i < |vs| then (if vs[i].Fault? then InternalError else Blocked(BlockStatus(vs[i].it)))
    else if s.response.Some? && mode.Blocking? then ResponseBlocked
    else Forwarded(s.upstreamStatus)
  }

  predicate RequestStopped(s: Script, mode: Mode) { FirstStop(HttpPhases(s), mode) < |HttpPhases(s)| }

  /** The status line of an answer: 403 for a blocked response, 500 for a failure. */
  function StatusOf(a: Answer): int {
    match a
    case Blocked(st) => st
    case InternalError => 500
    case ResponseBlocked => 403
    case Forwarded(st) => st
  }

  // ----- The HTTP handler -----

  /** One exchange: what was written to the client, upstream calls, and the engine's counters. */
  class Exchange {
    var written: seq<int>
    var upstreamCalls: nat
    var allowed: nat
    var blocked: nat
    var errors: nat
    var latencies: nat

    constructor ()
      ensures written == [] && upstreamCalls == allowed == blocked == errors == latencies == 0
    {
      written, upstreamCalls, allowed, blocked, errors, latencies := [], 0, 0, 0, 0, 0;
    }

    method BlockOrDetect(mode: Mode, it: Interruption)
      modifies this
      ensures mode.Detection? ==> unchanged(this)
      ensures mode.Blocking? ==>
                && written == old(written) + [BlockStatus(it)] && blocked == old(blocked) + 1
                && latencies == old(latencies) + 1
                && allowed == old(allowed) && errors == old(errors) && upstreamCalls == old(upstreamCalls)
    {
      var status := it.status;
      if status == 0 {
        status := 403;
      }
      if mode == Blocking {
        blocked := blocked + 1;
        latencies := latencies + 1;
        written := written + [status];
      }
    }

    method Fail() returns (stop: bool)
      modifies this
      ensures stop && written == old(written) + [500] && errors == old(errors) + 1
      ensures allowed == old(allowed) && blocked == old(blocked) && upstreamCalls == old(upstreamCalls)
      ensures latencies == old(latencies)
    {
      errors := errors + 1;
      written := written + [500];
      return true;
    }

    /** Stops at the first stopping phase, and has answered exactly then. */
    method InspectRequest(s: Script, mode: Mode) returns (stop: bool)
      modifies this
      ensures stop == RequestStopped(s, mode)
      ensures !stop ==> unchanged(this)
      ensures stop ==>
                && written == old(written) + [StatusOf(HttpAnswer(s, mode))]
                && allowed == old(allowed) && upstreamCalls == old(upstreamCalls)
                && (HttpAnswer(s, mode).InternalError? ==>
                      errors == old(errors) + 1 && blocked == old(blocked) && latencies == old(latencies))
                && (!HttpAnswer(s, mode).InternalError? ==>
                      errors == old(errors) && blocked == old(blocked) + 1 && latencies == old(latencies) + 1)
    {
      hide HttpAnswer, RequestStopped, HttpPhases;
      PhasesInOrder(s);
      if s.headers.Some? {
        BlockOrDetect(mode, s.headers.value);
        if mode == Blocking {
          HttpStopsAt(s, mode, 0);
          return true;
        }
      }
      if s.hasBody {
        if s.readError.Some? {
          HttpStopsAt(s, mode, 1);
          stop := Fail();
          return;
        }
        if s.write.Fault? {
          HttpStopsAt(s, mode, 2);
          stop := Fail();
          return;
        }
        if s.write.Interrupt? {
          BlockOrDetect(mode, s.write.it);
          if mode == Blocking {
            HttpStopsAt(s, mode, 2);
            return true;
          }
        }
      }
      if s.process.Fault? {
        HttpStopsAt(s, mode, |HttpPhases(s)| - 1);
        stop := Fail();
        return;
      }
      if s.process.Interrupt? {
        BlockOrDetect(mode, s.process.it);
        if mode == Blocking {
          HttpStopsAt(s, mode, |HttpPhases(s)| - 1);
          return true;
        }
      }
      HttpPasses(s, mode);
      return false;
    }

    method InspectResponse(s: Script, mode: Mode) returns (stop: bool)
      modifies this
      ensures stop == (s.response.Some? && mode.Blocking?)
      ensures !stop ==> unchanged(this)
      ensures stop ==>
                && written == old(written) + [403] && blocked == old(blocked) + 1 && latencies == old(latencies) + 1
                && allowed == old(allowed) && errors == old(errors) && upstreamCalls == old(upstreamCalls)
    {
      if s.response.Some? {
        if mode == Blocking {
          blocked := blocked + 1;
          latencies := latencies + 1;
          written := written + [403];
          return true;
        }
      }
      return false;
    }

    /** One response and one counter for every request, upstream reached iff request inspection did not stop it, and
        latency observed except for failures. */
    method Handle(s: Script, mode: Mode)
      modifies this
      ensures written == old(written) + [StatusOf(HttpAnswer(s, mode))]
      ensures upstreamCalls == old(upstreamCalls) + (if RequestStopped(s, mode) then 0 else 1)
      ensures allowed == old(allowed) + (if HttpAnswer(s, mode).Forwarded? then 1 else 0)
      ensures errors == old(errors) + (if HttpAnswer(s, mode).InternalError? then 1 else 0)
      ensures blocked == old(blocked)
                         + (if HttpAnswer(s, mode).Blocked? || HttpAnswer(s, mode).ResponseBlocked? then 1 else 0)
      ensures allowed + blocked + errors == old(allowed + blocked + errors) + 1
      ensures latencies == old(latencies) + (if HttpAnswer(s, mode).InternalError? then 0 else 1)
    {
      hide HttpPhases;
      var stop := InspectRequest(s, mode);
      if stop {
        return;
      }
      upstreamCalls := upstreamCalls + 1;
      stop := InspectResponse(s, mode);
      if stop {
        return;
      }
      written := written + [s.upstreamStatus];
      allowed := allowed + 1;
      latencies := latencies + 1;
    }
  }

  /** A stopping phase with none before it is the first. */
  lemma StopsFirstAt(vs: seq<Verdict>, mode: Mode, i: nat)
    requires i < |vs| && Stops(vs[i], mode) && forall j :: 0 <= j < i ==> !Stops(vs[j], mode)
    ensures FirstStop(vs, mode) == i
  {
  }

  lemma NeverStops(vs: seq<Verdict>, mode: Mode)
    requires forall j :: 0 <= j < |vs| ==> !Stops(vs[j], mode)
    ensures FirstStop(vs, mode) == |vs|
  {
  }

  lemma PhasesInOrder(s: Script)
    ensures var vs := HttpPhases(s);
            && vs[0] == OfOption(s.headers)
            && vs[|vs| - 1] == s.process
            && if s.hasBody then |vs| == 4 && vs[1].Fault? == s.readError.Some? && !vs[1].Interrupt? && vs[2] == s.write
               else |vs| == 2
  {
  }

  lemma HttpStopsAt(s: Script, mode: Mode, i: nat)
    requires i < |HttpPhases(s)| && Stops(HttpPhases(s)[i], mode)
    requires forall j :: 0 <= j < i ==> !Stops(HttpPhases(s)[j], mode)
    ensures RequestStopped(s, mode)
    ensures var v := HttpPhases(s)[i];
            HttpAnswer(s, mode) == if v.Fault? then InternalError else Blocked(BlockStatus(v.it))
  {
    hide HttpPhases, BlockStatus;
    StopsFirstAt(HttpPhases(s), mode, i);
  }

  lemma HttpPasses(s: Script, mode: Mode)
    requires forall j :: 0 <= j < |HttpPhases(s)| ==> !Stops(HttpPhases(s)[j], mode)
    ensures !RequestStopped(s, mode)
  {
    hide HttpPhases;
    NeverStops(HttpPhases(s), mode);
  }

  /** The status the client gets, phase by phase: an interruption counts in Blocking mode only, a failure always. */
  function StatusByPhase(s: Script, blocking: bool): int {
    if s.headers.Some? && blocking then (if s.headers.value.status == 0 then 403 else s.headers.value.status)
    else if s.hasBody && s.readError.Some? then 500
    else if s.hasBody && s.write.Fault? then 500
    else if s.hasBody && s.write.Interrupt? && blocking then (if s.write.it.status == 0 then 403 else s.write.it.status)
    else if s.process.Fault? then 500
    else if s.process.Interrupt? && blocking then (if s.process.it.status == 0 then 403 else s.process.it.status)
    else if s.response.Some? && blocking then 403
    else s.upstreamStatus
  }

  /** A phase before the upstream call stops the request. */
  predicate StoppedByPhase(s: Script, blocking: bool) {
    || (s.headers.Some? && blocking)
    || (s.hasBody && (s.readError.Some? || s.write.Fault? || (s.write.Interrupt? && blocking)))
    || s.process.Fault? || (s.process.Interrupt? && blocking)
  }

  /** The first stopping phase gives the status, and a request that none stops gets the upstream's, in both modes. */
  lemma AnswerByPhase(s: Script, mode: Mode)
    ensures StatusOf(HttpAnswer(s, mode)) == StatusByPhase(s, mode == Blocking)
    ensures RequestStopped(s, mode) <==> StoppedByPhase(s, mode == Blocking)
    ensures HttpAnswer(s, mode).Forwarded? <==>
            !StoppedByPhase(s, mode == Blocking) && !(s.response.Some? && mode == Blocking)
  {
    hide HttpPhases, FirstStop;
    PhasesInOrder(s);
    var blocking := mode == Blocking;
    if s.headers.Some? && blocking {
      HttpStopsAt(s, mode, 0);
    } else if s.hasBody && s.readError.Some? {
      HttpStopsAt(s, mode, 1);
    } else if s.hasBody && (s.write.Fault? || (s.write.Interrupt? && blocking)) {
      HttpStopsAt(s, mode, 2);
    } else if s.process.Fault? || (s.process.Interrupt? && blocking) {
      HttpStopsAt(s, mode, |HttpPhases(s)| - 1);
    } else {
      HttpPasses(s, mode);
    }
  }

  // ----- The SPOE handler -----

  datatype Var = Str(text: string) | Num(n: int)

  /** The SPOE view of a request: the same phases, but an empty body is not written to the WAF, and the scan of the
      message itself can fail. */
  datatype Message = Message(scanError: Option<string>, headers: Option<Interruption>, body: bool, write: Verdict,
                             process: Verdict, txID: string, matched: seq<int>)

  function SpoePhases(m: Message): seq<Verdict> {
    [OfOption(m.headers)] + (if m.body then [m.write] else []) + [m.process]
  }

  function ClampInt32(n: int): (r: int)
    ensures -0x8000_0000 <= r < 0x8000_0000
    ensures -0x8000_0000 <= n < 0x8000_0000 <==> r == n
  {
    if n > 0x7fff_ffff then 0x7fff_ffff else if n < -0x8000_0000 then -0x8000_0000 else n
  }

  function SpoeStatus(it: Interruption): int {
    if ClampInt32(it.status) == 0 then 403 else ClampInt32(it.status)
  }

  function RuleVars(m: Message): map<string, Var> {
    map["id" := Str(m.txID), "rules_hit" := Num(ClampInt32(|m.matched|)),
        "rule_ids" := Str(Join(Spoe.Texts(Spoe.Dedup(m.matched))))]
  }

  /** The variables written back: in both modes the first phase that interrupts or fails decides; a failure allows. */
  function SpoeReply(m: Message, mode: Mode): map<string, Var> {
    if m.scanError.Some? then map["action" := Str("allow"), "error" := Str(m.scanError.value)]
    else
      var vs := SpoePhases(m);
      var i := FirstStop(vs, Blocking);
      if i == |vs| then RuleVars(m)["action" := Str("allow")]["status" := Num(200)]
      else if vs[i].Fault? then map["action" := Str("allow"), "error" := Str(vs[i].error)]
      else
        RuleVars(m)["action" := Str(if mode.Blocking? then "deny" else "allow")]["status" := Num(SpoeStatus(vs[i].it))]
  }

  class SpoaHandler {
    const mode: Mode
    var allowed: nat
    var denied: nat
    var errors: nat

    constructor (m: Mode)
      ensures mode == m && allowed == denied == errors == 0
    {
      mode := m;
      allowed, denied, errors := 0, 0, 0;
    }

    method ApplyInterruption(m: Message, it: Interruption) returns (vars: map<string, Var>)
      modifies this
      ensures vars == RuleVars(m)["action" := Str(if mode.Blocking? then "deny" else "allow")]["status" := Num(SpoeStatus(it))]
      ensures denied == old(denied) + (if mode.Blocking? then 1 else 0)
      ensures allowed == old(allowed) + (if mode.Blocking? then 0 else 1)
      ensures errors == old(errors)
    {
      var ruleIDs := Spoe.BuildRuleIDs(m.matched);
      var status := ClampInt32(it.status);
      if status == 0 {
        status := 403;
      }
      vars := map["id" := Str(m.txID), "rules_hit" := Num(ClampInt32(|m.matched|)), "rule_ids" := Str(ruleIDs)];
      if mode == Blocking {
        vars := vars["action" := Str("deny")]["status" := Num(status)];
        denied := denied + 1;
      } else {
        vars := vars["action" := Str("allow")]["status" := Num(status)];
        allowed := allowed + 1;
      }
    }

    method Fail(error: string) returns (vars: map<string, Var>)
      modifies this
      ensures vars == map["action" := Str("allow"), "error" := Str(error)]
      ensures errors == old(errors) + 1 && allowed == old(allowed) && denied == old(denied)
    {
      vars := map["action" := Str("allow"), "error" := Str(error)];
      errors := errors + 1;
    }

    /** One reply and one outcome for every message. */
    method HandleSPOE(m: Message) returns (vars: map<string, Var>)
      modifies this
      ensures vars == SpoeReply(m, mode)
      ensures allowed + denied + errors == old(allowed + denied + errors) + 1
      ensures denied == old(denied) + (if vars["action"] == Str("deny") then 1 else 0)
      ensures errors == old(errors) + (if "error" in vars then 1 else 0)
    {
      hide RuleVars, SpoeStatus, FirstStop;
      ghost var vs := SpoePhases(m);
      assert Str("deny") != Str("allow") by { assert |"deny"| == 4 && |"allow"| == 5; }
      NoErrorAmongRules(m);
      if m.scanError.Some? {
        vars := Fail(m.scanError.value);
        return;
      }
      if m.headers.Some? {
        StopsFirstAt(vs, Blocking, 0);
        vars := ApplyInterruption(m, m.headers.value);
        return;
      }
      if m.body {
        if m.write.Fault? {
          StopsFirstAt(vs, Blocking, 1);
          vars := Fail(m.write.error);
          return;
        }
        if m.write.Interrupt? {
          StopsFirstAt(vs, Blocking, 1);
          vars := ApplyInterruption(m, m.write.it);
          return;
        }
      }
      if m.process.Fault? {
        StopsFirstAt(vs, Blocking, |vs| - 1);
        vars := Fail(m.process.error);
        return;
      }
      if m.process.Interrupt? {
        StopsFirstAt(vs, Blocking, |vs| - 1);
        vars := ApplyInterruption(m, m.process.it);
        return;
      }
      NeverStops(vs, Blocking);
      vars := ApplyAllow(m);
      allowed := allowed + 1;
    }
  }

  method ApplyAllow(m: Message) returns (vars: map<string, Var>)
    ensures vars == RuleVars(m)["action" := Str("allow")]["status" := Num(200)]
  {
    var ruleIDs := Spoe.BuildRuleIDs(m.matched);
    vars := map["id" := Str(m.txID), "rules_hit" := Num(ClampInt32(|m.matched|)), "rule_ids" := Str(ruleIDs)];
    vars := vars["action" := Str("allow")]["status" := Num(200)];
  }

  /** What is written back for every message: with an error, that and "allow"; otherwise five variables, the action and
      status by the first phase that interrupts, if any. */
  lemma RepliesByPhase(m: Message, mode: Mode)
    ensures var vars := SpoeReply(m, mode);
            if "error" in vars then
              && vars.Keys == {"action", "error"} && vars["action"] == Str("allow")
              && (m.scanError.Some? ==> vars["error"] == Str(m.scanError.value))
              && (m.scanError.None? ==>
                    exists e :: vars["error"] == Str(e) && Fault(e) == if m.body && m.write.Fault? then m.write else m.process)
            else
              && vars.Keys == {"action", "id", "status", "rules_hit", "rule_ids"}
              && vars["id"] == Str(m.txID)
              && vars["rules_hit"] == Num(if |m.matched| < 0x8000_0000 then |m.matched| else 0x7fff_ffff)
              && vars["rule_ids"] == Str(Join(Spoe.Texts(Spoe.Dedup(m.matched))))
              && (Interruptor(m).None? ==> vars["action"] == Str("allow") && vars["status"] == Num(200))
              && (Interruptor(m).Some? ==>
                    && vars["action"] == Str(if mode == Blocking then "deny" else "allow")
                    && vars["status"] == Num(if Interruptor(m).value.status == 0 then 403
                                             else ClampInt32(Interruptor(m).value.status)))
    ensures "error" in SpoeReply(m, mode) <==> m.scanError.Some? || FailsFirst(m)
  {
    hide Join, Spoe.Texts, Spoe.Dedup, FirstStop, RuleVars;
    VariableNames();
    VariablesOfRules(m);
    FirstLoudPhase(m);
    hide SpoePhases;
  }

  lemma VariablesOfRules(m: Message)
    ensures var vars := RuleVars(m);
            && vars.Keys == {"id", "rules_hit", "rule_ids"} && vars["id"] == Str(m.txID)
            && vars["rules_hit"] == Num(if |m.matched| < 0x8000_0000 then |m.matched| else 0x7fff_ffff)
            && vars["rule_ids"] == Str(Join(Spoe.Texts(Spoe.Dedup(m.matched))))
  {
    hide Join, Spoe.Texts, Spoe.Dedup;
    VariableNames();
  }

  /** What the first phase that does not pass says. */
  lemma FirstLoudPhase(m: Message)
    ensures var vs := SpoePhases(m);
            var i := FirstStop(vs, Blocking);
            && (i == |vs| <==> Interruptor(m).None? && !FailsFirst(m))
            && (i < |vs| ==> (vs[i].Fault? <==> FailsFirst(m)) && (vs[i].Interrupt? <==> Interruptor(m).Some?))
            && (i < |vs| && vs[i].Interrupt? ==> vs[i].it == Interruptor(m).value)
            && (i < |vs| && vs[i].Fault? ==> vs[i] == if m.body && m.write.Fault? then m.write else m.process)
  {
    hide FirstStop;
    var vs := SpoePhases(m);
    assert m.body ==> vs == [OfOption(m.headers), m.write, m.process];
    assert !m.body ==> vs == [OfOption(m.headers), m.process];
    if m.headers.Some? {
      StopsFirstAt(vs, Blocking, 0);
    } else if m.body && !m.write.Pass? {
      StopsFirstAt(vs, Blocking, 1);
    } else if !m.process.Pass? {
      StopsFirstAt(vs, Blocking, |vs| - 1);
    } else {
      NeverStops(vs, Blocking);
    }
  }

  lemma VariableNames()
    ensures "error" != "action" && "error" != "status" && "action" != "status" && "error" != "id" && "id" != "action"
    ensures "error" != "rules_hit" && "error" != "rule_ids" && "rules_hit" != "rule_ids" && "id" != "status"
    ensures "action" != "rule_ids" && "action" != "rules_hit" && "status" != "rule_ids" && "status" != "rules_hit"
  {
    assert |"error"| == 5 && |"action"| == 6 && |"status"| == 6 && |"id"| == 2 && |"rules_hit"| == 9 && |"rule_ids"| == 8;
    assert "action"[0] == 'a' && "status"[0] == 's';
  }

  /** The interruption of the first phase that does not pass, if it is one. */
  function Interruptor(m: Message): Option<Interruption> {
    if m.headers.Some? then m.headers
    else if m.body && !m.write.Pass? then (if m.write.Interrupt? then Some(m.write.it) else None)
    else if m.process.Interrupt? then Some(m.process.it)
    else None
  }

  /** The first phase that does not pass fails. */
  predicate FailsFirst(m: Message) {
    m.headers.None? && (if m.body && !m.write.Pass? then m.write.Fault? else m.process.Fault?)
  }

  lemma NoErrorAmongRules(m: Message)
    ensures "error" !in RuleVars(m) && "error" != "action" && "error" != "status" && "action" != "status"
  {
  }

  // ----- The two machines on one request -----

  predicate Denies(vars: map<string, Var>) { "action" in vars && vars["action"] == Str("deny") }

  /** The same request on both sides. A body the SPOE side leaves out is one whose write never interrupts or fails. */
  ghost predicate SameRequest(s: Script, m: Message) {
    && m.scanError.None? && s.readError.None?
    && s.headers == m.headers && s.process == m.process
    && (m.body ==> s.hasBody && s.write == m.write)
    && (!m.body && s.hasBody ==> s.write.Pass?)
  }

  /** The verdicts that are not silent, in order, are the same on both sides. */
  function Loud(vs: seq<Verdict>): seq<Verdict> {
    if vs == [] then [] else if vs[0].Pass? then Loud(vs[1..]) else [vs[0]] + Loud(vs[1..])
  }

  lemma {:induction false} FirstStopOfLoud(vs: seq<Verdict>)
    ensures FirstStop(vs, Blocking) < |vs| <==> Loud(vs) != []
    ensures Loud(vs) != [] ==> vs[FirstStop(vs, Blocking)] == Loud(vs)[0]
  {
    if vs != [] {
      FirstStopOfLoud(vs[1..]);
    }
  }

  lemma {:induction false} LoudConcat(a: seq<Verdict>, b: seq<Verdict>)
    ensures Loud(a + b) == Loud(a) + Loud(b)
  {
    if a == [] {
      assert a + b == b;
    } else {
      assert (a + b)[1..] == a[1..] + b;
      LoudConcat(a[1..], b);
    }
  }

  lemma SameLoudPhases(s: Script, m: Message)
    requires SameRequest(s, m)
    ensures Loud(HttpPhases(s)) == Loud(SpoePhases(m))
  {
    var h, p := [OfOption(s.headers)], [s.process];
    var x: seq<Verdict> := if s.hasBody then [Pass, s.write] else [];
    var y: seq<Verdict> := if m.body then [m.write] else [];
    LoudConcat(h + x, p);
    LoudConcat(h, x);
    LoudConcat(h + y, p);
    LoudConcat(h, y);
    assert s.hasBody ==> x == [Pass] + [s.write];
    LoudConcat([Pass], [s.write]);
    assert Loud([Pass]) == [];
    assert s.write.Pass? ==> Loud([s.write]) == [];
  }

  /** In Blocking mode the proxy blocks a request iff HAProxy is told to deny it; where the proxy fails closed with an
      error, HAProxy is told to allow. A deny carries the proxy's status iff that status fits an int32. */
  lemma MachinesAgree(s: Script, m: Message)
    requires SameRequest(s, m)
    ensures RequestStopped(s, Blocking) <==> Denies(SpoeReply(m, Blocking)) || "error" in SpoeReply(m, Blocking)
    ensures Denies(SpoeReply(m, Blocking)) <==> HttpAnswer(s, Blocking).Blocked?
    ensures "error" in SpoeReply(m, Blocking) <==> HttpAnswer(s, Blocking).InternalError?
    ensures Denies(SpoeReply(m, Blocking)) ==>
              exists it :: Interrupt(it) in HttpPhases(s)
                && HttpAnswer(s, Blocking) == Blocked(BlockStatus(it))
                && (SpoeReply(m, Blocking)["status"] == Num(BlockStatus(it)) <==> -0x8000_0000 <= it.status < 0x8000_0000)
  {
    hide HttpPhases, SpoePhases, RuleVars;
    SameLoudPhases(s, m);
    FirstStopOfLoud(HttpPhases(s));
    FirstStopOfLoud(SpoePhases(m));
    NoErrorAmongRules(m);
    assert Str("deny") != Str("allow") by { assert |"deny"| == 4 && |"allow"| == 5; }
    var i, j := FirstStop(HttpPhases(s), Blocking), FirstStop(SpoePhases(m), Blocking);
    if i < |HttpPhases(s)| && HttpPhases(s)[i].Interrupt? {
      var it := HttpPhases(s)[i].it;
      assert HttpPhases(s)[i] == SpoePhases(m)[j] == Interrupt(it);
      assert Interrupt(it) in HttpPhases(s);
    }
  }

  /** In Detection mode neither side ever stops a request because of an interruption. */
  lemma DetectionNeverDenies(s: Script, m: Message)
    ensures !Denies(SpoeReply(m, Detection))
    ensures RequestStopped(s, Detection) ==> HttpAnswer(s, Detection).InternalError?
    ensures !RequestStopped(s, Detection) ==> HttpAnswer(s, Detection) == Forwarded(s.upstreamStatus)
  {
  }
}
