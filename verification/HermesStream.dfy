/** The incremental normaliser: it keeps a few tables instead of the log, and decides every event as
    the whole log would. */
module HermesStream {
  import opened Events
  import opened Transcript
  import opened HermesLog

  datatype State = AwaitingRun | Running | RunDone

  datatype Reply = Refused | TurnFailed | Skipped | Yielded(event: HermesEvent)

  // ---------------------------------------------------------------- the tables and the log

  /** The call tables hold what the log says about every call id. */
  ghost predicate CallsAgree(c: Context, log: seq<Raw>, run: string, active: map<string, (ActivityId, string)>, seen: set<string>) {
    && (forall id :: id in seen <==> Started(log, id))
    && (forall id :: id in active <==> OpenKind(c, log, id).Some?)
    && (forall id | id in active :: active[id].0 == ActivityId(run, id) && OpenKind(c, log, id) == Some(active[id].1))
  }

  ghost predicate LegacyAgree(log: seq<Raw>, counts: map<string, nat>) {
    && (forall tool :: LegacyOpen(log, tool) == if tool in counts then counts[tool] else 0)
    && (forall tool | tool in counts :: counts[tool] > 0)
  }

  ghost predicate ApprovalsAgree(log: seq<Raw>, pending: Option<string>, seen: set<string>) {
    pending == PendingApproval(log) && forall id :: id in seen <==> Answered(log, id)
  }

  ghost predicate TextAgree(log: seq<Raw>, sawDelta: bool, session: Json) {
    (sawDelta <==> Has(log, AssistantDelta)) && session == CompletionSession(log)
  }

  ghost predicate PhaseAgrees(log: seq<Raw>, state: State, run: string, done: bool) {
    && (state == AwaitingRun <==> log == []) && (state == RunDone <==> Completion(log).Some?)
    && (log != [] ==> RunOf(log) == String(run))
    && (done <==> Has(log, DoneMarker)) && (done ==> state == RunDone)
  }

  /** Between the completion of the run and the done marker the terminal event is kept back, and
      already counted. */
  ghost predicate TerminalAgrees(c: Context, log: seq<Raw>, total: nat, run: string, terminal: Option<HermesEvent>, count: nat) {
    if Completion(log).Some? && !Has(log, DoneMarker) then
      && count == total + 1
      && terminal == Some(HermesEvent(
           ExecutionCompleted, c.profile, Str(Val(Completion(log).value, SessionId)), run, count, Terminal(run, ReportIn(c, Completion(log).value))))
    else terminal.None? && count == total
  }

  lemma CallsKept(c: Context, log: seq<Raw>, e: Raw, run: string, active: map<string, (ActivityId, string)>, seen: set<string>)
    requires CallsAgree(c, log, run, active, seen)
    requires !Identified(e) || (e.name != ToolStarted && e.name != ToolCompleted)
    ensures CallsAgree(c, log + [e], run, active, seen)
  {
    AppendCalls(c, log, e);
  }

  lemma CallsStart(c: Context, log: seq<Raw>, e: Raw, id: string, run: string, active: map<string, (ActivityId, string)>, seen: set<string>)
    requires CallsAgree(c, log, run, active, seen) && Starts(e, id)
    ensures CallsAgree(c, log + [e], run, active[id := (ActivityId(run, id), c.kindOf(Tool(e)))], seen + {id})
  {
    AppendCalls(c, log, e);
  }

  lemma CallsEnd(c: Context, log: seq<Raw>, e: Raw, id: string, run: string, active: map<string, (ActivityId, string)>, seen: set<string>)
    requires CallsAgree(c, log, run, active, seen) && Ends(e, id)
    ensures CallsAgree(c, log + [e], run, active - {id}, seen)
  {
    AppendCalls(c, log, e);
  }

  lemma CallsSay(c: Context, log: seq<Raw>, run: string, active: map<string, (ActivityId, string)>, seen: set<string>, id: string)
    requires CallsAgree(c, log, run, active, seen)
    ensures id in seen <==> Started(log, id)
    ensures OpenKind(c, log, id) == if id in active then Some(active[id].1) else None
    ensures id in active ==> active[id].0 == ActivityId(run, id)
    ensures id !in seen ==> forall other | other in active :: active[other].0 != ActivityId(run, id)
  {
    StartedIfOpen(c, log, id);
  }

  lemma {:induction false} StartedIfOpen(c: Context, log: seq<Raw>, id: string)
    ensures OpenKind(c, log, id).Some? ==> Started(log, id)
  {
    if log != [] {
      var init, e := log[..|log| - 1], log[|log| - 1];
      StartedIfOpen(c, init, id);
      if Starts(e, id) { assert Starts(log[|log| - 1], id); }
      if Started(init, id) {
        var i :| 0 <= i < |init| && Starts(init[i], id);
        assert Starts(log[i], id);
      }
    }
  }

  lemma LegacyKept(log: seq<Raw>, e: Raw, counts: map<string, nat>)
    requires LegacyAgree(log, counts)
    requires Identified(e) || (e.name != ToolStarted && e.name != ToolCompleted)
    ensures LegacyAgree(log + [e], counts)
  {
    AppendLegacy(log, e);
  }

  lemma LegacyStart(log: seq<Raw>, e: Raw, counts: map<string, nat>)
    requires LegacyAgree(log, counts) && !Identified(e) && e.name == ToolStarted
    ensures LegacyAgree(log + [e], counts[Tool(e) := (if Tool(e) in counts then counts[Tool(e)] else 0) + 1])
  {
    AppendLegacy(log, e);
  }

  lemma LegacyEnd(log: seq<Raw>, e: Raw, counts: map<string, nat>)
    requires LegacyAgree(log, counts) && !Identified(e) && e.name == ToolCompleted && Tool(e) in counts
    ensures counts[Tool(e)] == 1 ==> LegacyAgree(log + [e], counts - {Tool(e)})
    ensures counts[Tool(e)] > 1 ==> LegacyAgree(log + [e], counts[Tool(e) := counts[Tool(e)] - 1])
  {
    AppendLegacy(log, e);
  }

  lemma LegacySays(log: seq<Raw>, counts: map<string, nat>, tool: string)
    requires LegacyAgree(log, counts)
    ensures tool in counts <==> LegacyOpen(log, tool) > 0
    ensures tool in counts ==> counts[tool] > 0
  {
  }

  /** Nothing is open exactly when both tables are empty. */
  lemma NothingOpen(c: Context, log: seq<Raw>, run: string, active: map<string, (ActivityId, string)>, seen: set<string>, counts: map<string, nat>)
    requires CallsAgree(c, log, run, active, seen) && LegacyAgree(log, counts)
    ensures active == map[] <==> forall id :: OpenKind(c, log, id).None?
    ensures counts == map[] <==> forall tool :: LegacyOpen(log, tool) <= 0
  {
    NoCallOpen(c, log, run, active, seen);
    NoLegacyOpen(log, counts);
  }

  lemma NoCallOpen(c: Context, log: seq<Raw>, run: string, active: map<string, (ActivityId, string)>, seen: set<string>)
    requires CallsAgree(c, log, run, active, seen)
    ensures active == map[] <==> forall id :: OpenKind(c, log, id).None?
  {
    if active == map[] {
      forall id ensures OpenKind(c, log, id).None? { assert id !in active; }
    } else {
      var id :| id in active;
      assert OpenKind(c, log, id).Some?;
    }
  }

  lemma NoLegacyOpen(log: seq<Raw>, counts: map<string, nat>)
    requires LegacyAgree(log, counts)
    ensures counts == map[] <==> forall tool :: LegacyOpen(log, tool) <= 0
  {
    if counts == map[] {
      forall tool ensures LegacyOpen(log, tool) <= 0 { assert tool !in counts; }
    } else {
      var tool :| tool in counts;
      assert LegacyOpen(log, tool) > 0;
    }
  }

  lemma ApprovalsKept(log: seq<Raw>, e: Raw, pending: Option<string>, seen: set<string>)
    requires ApprovalsAgree(log, pending, seen) && e.name != ApprovalRequested && e.name != ApprovalAnswered
    ensures ApprovalsAgree(log + [e], pending, seen)
  {
    AppendApprovals(log, e);
  }

  lemma ApprovalsRequest(log: seq<Raw>, e: Raw, pending: Option<string>, seen: set<string>)
    requires ApprovalsAgree(log, pending, seen) && e.name == ApprovalRequested
    ensures ApprovalsAgree(log + [e], Some(ApprovalId(e)), seen)
  {
    AppendApprovals(log, e);
  }

  lemma ApprovalsAnswer(log: seq<Raw>, e: Raw, pending: Option<string>, seen: set<string>)
    requires ApprovalsAgree(log, pending, seen) && e.name == ApprovalAnswered
    ensures ApprovalsAgree(log + [e], None, seen + {ApprovalId(e)})
  {
    AppendApprovals(log, e);
  }

  lemma ApprovalsSay(log: seq<Raw>, pending: Option<string>, seen: set<string>, id: string)
    requires ApprovalsAgree(log, pending, seen)
    ensures pending == PendingApproval(log) && (id in seen <==> Answered(log, id))
  {
  }

  lemma TextStep(log: seq<Raw>, e: Raw, sawDelta: bool, session: Json)
    requires TextAgree(log, sawDelta, session)
    ensures TextAgree(log + [e], sawDelta || e.name == AssistantDelta, if e.name == AssistantCompleted then Val(e, SessionId) else session)
  {
    AppendHas(log, e);
    AppendEnds(log, e);
  }

  /** One accepted event that does not end the run. */
  lemma RunsOn(c: Context, log: seq<Raw>, e: Raw, run: string, total: nat, count: nat, extra: nat)
    requires PhaseAgrees(log, Running, run, false) && TerminalAgrees(c, log, total, run, None, count)
    requires e.name != RunStarted && e.name != RunCompleted && e.name != DoneMarker
    ensures PhaseAgrees(log + [e], Running, run, false) && TerminalAgrees(c, log + [e], total + extra, run, None, count + extra)
  {
    AppendHas(log, e);
    AppendEnds(log, e);
  }

  class NormalizedStream {
    const c: Context
    var state: State
    var runId: string
    var activeCalls: map<string, (ActivityId, string)>
    var legacyCounts: map<string, nat>
    var seenCalls: set<string>
    var pendingApproval: Option<string>
    var seenApprovals: set<string>
    var sawDelta: bool
    var completionSession: Json
    var terminal: Option<HermesEvent>
    var count: nat
    var done: bool

    ghost var log: seq<Raw>
    ghost var yielded: seq<HermesEvent>

    ghost predicate Valid()
      reads this
    {
      && Accepted(c, log) && yielded == YieldsOf(c, log)
      && CallsAgree(c, log, runId, activeCalls, seenCalls)
      && LegacyAgree(log, legacyCounts)
      && ApprovalsAgree(log, pendingApproval, seenApprovals)
      && TextAgree(log, sawDelta, completionSession)
      && PhaseAgrees(log, state, runId, done)
      && TerminalAgrees(c, log, |yielded|, runId, terminal, count)
    }

    /** A run is going on, and the event belongs to it. */
    ghost predicate Open(e: Raw)
      reads this
    {
      Valid() && state == Running && Val(e, RunId) == String(runId)
    }

    constructor (c: Context)
      ensures Valid() && this.c == c && log == [] && yielded == []
    {
      this.c := c;
      state, runId, done := AwaitingRun, "", false;
      activeCalls, legacyCounts, seenCalls := map[], map[], {};
      pendingApproval, seenApprovals := None, {};
      sawDelta, completionSession, terminal, count := false, Null, None, 0;
      log, yielded := [], [];
    }

    lemma RunFacts(e: Raw)
      requires Open(e)
      ensures log != [] && RunOf(log) == Val(e, RunId) && RunName(log) == runId
      ensures Completion(log).None? && !done && terminal.None? && count == |yielded|
      ensures (sawDelta <==> Has(log, AssistantDelta)) && completionSession == CompletionSession(log)
    {
    }

    /** Number one visible event. */
    method Emit(name: EventName, payload: Payload) returns (event: HermesEvent)
      modifies `count
      ensures count == old(count) + 1
      ensures event == HermesEvent(name, c.profile, c.session, runId, count, payload)
    {
      count := count + 1;
      event := HermesEvent(name, c.profile, c.session, runId, count, payload);
    }

    /** Extend the history by an admissible event of a running turn; what the event does not touch
        still agrees with the longer log. */
    ghost method Append(e: Raw)
      requires Open(e) && Admissible(c, log, e) && e.name != RunStarted && e.name != RunCompleted && e.name != DoneMarker
      modifies `log, `yielded
      ensures log == old(log) + [e] && Accepted(c, log)
      ensures yielded == YieldsOf(c, log) == old(yielded) + YieldAfter(c, old(log), e)
      ensures PhaseAgrees(log, Running, runId, false)
      ensures TerminalAgrees(c, log, |yielded|, runId, None, count + |YieldAfter(c, old(log), e)|)
      ensures TextAgree(log, sawDelta || e.name == AssistantDelta, if e.name == AssistantCompleted then Val(e, SessionId) else completionSession)
      ensures !Identified(e) || (e.name != ToolStarted && e.name != ToolCompleted) ==> CallsAgree(c, log, runId, activeCalls, seenCalls)
      ensures Identified(e) || (e.name != ToolStarted && e.name != ToolCompleted) ==> LegacyAgree(log, legacyCounts)
      ensures e.name != ApprovalRequested && e.name != ApprovalAnswered ==> ApprovalsAgree(log, pendingApproval, seenApprovals)
    {
      hide *;
      ghost var more := YieldAfter(c, log, e);
      TablesKept(e);
      PhaseKept(e, |more|);
      AppendAccepts(c, log, e);
      log, yielded := log + [e], yielded + more;
    }

    lemma PhaseKept(e: Raw, extra: nat)
      requires Open(e) && e.name != RunStarted && e.name != RunCompleted && e.name != DoneMarker
      ensures Accepted(c, log) && yielded == YieldsOf(c, log)
      ensures PhaseAgrees(log + [e], Running, runId, false)
      ensures TerminalAgrees(c, log + [e], |yielded| + extra, runId, None, count + extra)
      ensures TextAgree(log + [e], sawDelta || e.name == AssistantDelta, if e.name == AssistantCompleted then Val(e, SessionId) else completionSession)
    {
      RunFacts(e);
      hide CallsAgree, LegacyAgree, ApprovalsAgree, TextAgree, Accepted, YieldsOf;
      assert PhaseAgrees(log, Running, runId, false) && TerminalAgrees(c, log, |yielded|, runId, None, count);
      hide PhaseAgrees, TerminalAgrees, Completion, Has, RunOf;
      RunsOn(c, log, e, runId, |yielded|, count, extra);
      TextStep(log, e, sawDelta, completionSession);
    }

    lemma TablesKept(e: Raw)
      requires Open(e)
      ensures !Identified(e) || (e.name != ToolStarted && e.name != ToolCompleted) ==> CallsAgree(c, log + [e], runId, activeCalls, seenCalls)
      ensures Identified(e) || (e.name != ToolStarted && e.name != ToolCompleted) ==> LegacyAgree(log + [e], legacyCounts)
      ensures e.name != ApprovalRequested && e.name != ApprovalAnswered ==> ApprovalsAgree(log + [e], pendingApproval, seenApprovals)
    {
      hide CallsAgree, LegacyAgree, ApprovalsAgree, TextAgree, PhaseAgrees, TerminalAgrees, Accepted, YieldsOf;
      if !Identified(e) || (e.name != ToolStarted && e.name != ToolCompleted) {
        CallsKept(c, log, e, runId, activeCalls, seenCalls);
      }
      if Identified(e) || (e.name != ToolStarted && e.name != ToolCompleted) {
        LegacyKept(log, e, legacyCounts);
      }
      if e.name != ApprovalRequested && e.name != ApprovalAnswered {
        ApprovalsKept(log, e, pendingApproval, seenApprovals);
      }
    }

    /** `_normalize_event`: accept the event exactly when the log so far admits it. */
    method Normalize(e: Raw) returns (r: Reply)
      requires Valid()
      modifies this
      ensures Valid()
      ensures r.Skipped? || r.Yielded? <==> Admissible(c, old(log), e)
      ensures r.Skipped? || r.Yielded? ==> log == old(log) + [e] && yielded == old(yielded) + if r.Yielded? then [r.event] else []
      ensures r.TurnFailed? <==> FailsTurn(c, old(log), e)
      ensures r.Refused? || r.TurnFailed? ==> log == old(log) && yielded == old(yielded)
    {
      if e.name == RunStarted {
        r := StartRun(e);
      } else if e.name.Unknown? || state == AwaitingRun || Val(e, RunId) != String(runId) {
        r := Refused;
      } else if e.name == DoneMarker {
        r := Finish(e);
      } else if state != Running {
        r := Refused;
      } else {
        r := NormalizeRunning(e);
      }
    }

    method NormalizeRunning(e: Raw) returns (r: Reply)
      requires Open(e) && e.name != RunStarted && e.name != DoneMarker && !e.name.Unknown?
      modifies this
      ensures Valid()
      ensures r.Skipped? || r.Yielded? <==> Admissible(c, old(log), e)
      ensures r.Skipped? || r.Yielded? ==> log == old(log) + [e] && yielded == old(yielded) + if r.Yielded? then [r.event] else []
      ensures r.TurnFailed? <==> e.name == ErrorReported && Val(e, SessionId) == String(c.session)
      ensures r.Refused? || r.TurnFailed? ==> log == old(log) && yielded == old(yielded)
    {
      hide CallsAgree, LegacyAgree, ApprovalsAgree, TextAgree, PhaseAgrees, TerminalAgrees, Accepted, YieldsOf;
      hide OpenKind, LegacyOpen, PendingApproval, Completion, CompletionSession, Has, Started, Answered, Utf8Len, IsToken, VerdictOf;
      RunFacts(e);
      if e.name != AssistantCompleted && e.name != RunCompleted && Val(e, SessionId) != String(c.session) { return Refused; }
      match e.name
      case ErrorReported => return TurnFailed;
      case MessageStarted => r := Skip(e);
      case ToolProgress =>
        if !PlainName(Val(e, ToolName)) { return Refused; }
        r := Skip(e);
      case AssistantDelta => r := Text(e);
      case AssistantCompleted => r := CompleteText(e);
      case ToolStarted => r := StartTool(e);
      case ToolCompleted => r := EndTool(e);
      case ApprovalRequested => r := RequestApproval(e);
      case ApprovalAnswered => r := AnswerApproval(e);
      case RunCompleted => r := CompleteRun(e);
    }

    method StartRun(e: Raw) returns (r: Reply)
      requires Valid() && e.name == RunStarted
      modifies this
      ensures Valid() && (r == if Admissible(c, old(log), e) then Skipped else Refused)
      ensures log == (if r.Skipped? then old(log) + [e] else old(log)) && yielded == old(yielded)
    {
      var run := Val(e, RunId);
      if state != AwaitingRun || !run.String? || run.s == "" || Val(e, SessionId) != String(c.session) { return Refused; }
      assert log == [];
      StartAgrees(e, run.s);
      log := [e];
      runId, state := run.s, Running;
      r := Skipped;
    }

    lemma StartAgrees(e: Raw, run: string)
      requires Valid() && log == [] && e.name == RunStarted && Val(e, RunId) == String(run) && Admissible(c, [], e)
      ensures Accepted(c, [e]) && YieldsOf(c, [e]) == yielded
      ensures CallsAgree(c, [e], run, activeCalls, seenCalls) && LegacyAgree([e], legacyCounts)
      ensures ApprovalsAgree([e], pendingApproval, seenApprovals) && TextAgree([e], sawDelta, completionSession)
      ensures PhaseAgrees([e], Running, run, false) && TerminalAgrees(c, [e], |yielded|, run, terminal, count)
    {
      hide OpenKind, LegacyOpen, PendingApproval, Completion, CompletionSession, Has, Started, Answered, Utf8Len, IsToken, VerdictOf;
      NoRun(run);
      hide CallsAgree, LegacyAgree, ApprovalsAgree, TextAgree;
      assert [] + [e] == [e];
      AppendAccepts(c, [], e);
      CallsKept(c, [], e, run, activeCalls, seenCalls);
      LegacyKept([], e, legacyCounts);
      ApprovalsKept([], e, pendingApproval, seenApprovals);
      TextStep([], e, sawDelta, completionSession);
      AppendHas([], e);
      AppendEnds([], e);
    }

    /** Before a run starts the tables are empty, whatever the run will be called. */
    lemma NoRun(run: string)
      requires Valid() && log == []
      ensures CallsAgree(c, [], run, activeCalls, seenCalls)
    {
    }

    /** An event that is checked but leaves no trace. */
    method Skip(e: Raw) returns (r: Reply)
      requires Open(e) && Val(e, SessionId) == String(c.session)
      requires e.name == MessageStarted || (e.name == ToolProgress && PlainName(Val(e, ToolName)))
      modifies this
      ensures Valid() && r == Skipped && log == old(log) + [e] && yielded == old(yielded) && Admissible(c, old(log), e)
    {
      hide CallsAgree, LegacyAgree, ApprovalsAgree, TextAgree, PhaseAgrees, TerminalAgrees, Accepted, YieldsOf;
      hide OpenKind, LegacyOpen, PendingApproval, Completion, CompletionSession, Has, Started, Answered, Utf8Len, IsToken, VerdictOf;
      RunFacts(e);
      Append(e);
      r := Skipped;
    }

    method Text(e: Raw) returns (r: Reply)
      requires Open(e) && Val(e, SessionId) == String(c.session) && e.name == AssistantDelta
      modifies this
      ensures Valid() && (r.Yielded? <==> Admissible(c, old(log), e)) && (r.Yielded? || r.Refused?)
      ensures if r.Yielded? then log == old(log) + [e] && yielded == old(yielded) + [r.event] else log == old(log) && yielded == old(yielded)
    {
      hide CallsAgree, LegacyAgree, ApprovalsAgree, TextAgree, PhaseAgrees, TerminalAgrees, Accepted, YieldsOf;
      hide OpenKind, LegacyOpen, PendingApproval, Completion, CompletionSession, Has, Started, Answered, Utf8Len, IsToken, VerdictOf;
      RunFacts(e);
      if !BoundedText(Val(e, Delta), MAX_TEXT_BYTES) { return Refused; }
      Append(e);
      sawDelta := true;
      var event := Emit(MessageDelta, TextPayload(Val(e, Delta).s));
      r := Yielded(event);
    }

    method CompleteText(e: Raw) returns (r: Reply)
      requires Open(e) && e.name == AssistantCompleted
      modifies this
      ensures Valid() && (r.Yielded? || r.Skipped? <==> Admissible(c, old(log), e)) && !r.TurnFailed?
      ensures r.Refused? ==> log == old(log) && yielded == old(yielded)
      ensures !r.Refused? ==> log == old(log) + [e] && yielded == old(yielded) + if r.Yielded? then [r.event] else []
    {
      hide CallsAgree, LegacyAgree, ApprovalsAgree, TextAgree, PhaseAgrees, TerminalAgrees, Accepted, YieldsOf;
      hide OpenKind, LegacyOpen, PendingApproval, Completion, CompletionSession, Has, Started, Answered, Utf8Len, IsToken, VerdictOf;
      RunFacts(e);
      if !IsTokenJson(Val(e, SessionId)) { return Refused; }
      if !sawDelta && !BoundedText(Val(e, Content), MAX_TEXT_BYTES) { return Refused; }
      Append(e);
      completionSession := Val(e, SessionId);
      r := Skipped;
      if !sawDelta {
        var event := Emit(MessageDelta, TextPayload(Val(e, Content).s));
        r := Yielded(event);
      }
    }

    /** The event is in the history and in the tables; only its number is still to be counted. */
    ghost predicate Appended(e: Raw, was: seq<Raw>, before: seq<HermesEvent>)
      reads this
    {
      && log == was + [e] && Accepted(c, log) && yielded == YieldsOf(c, log) == before + YieldAfter(c, was, e)
      && CallsAgree(c, log, runId, activeCalls, seenCalls) && LegacyAgree(log, legacyCounts)
      && ApprovalsAgree(log, pendingApproval, seenApprovals) && TextAgree(log, sawDelta, completionSession)
      && PhaseAgrees(log, state, runId, done) && TerminalAgrees(c, log, |yielded|, runId, terminal, count + 1)
    }

    /** Older images do not identify calls, so the activity stays generic. */
    method StartLegacy(e: Raw) returns (payload: Option<Payload>)
      requires Open(e) && Val(e, SessionId) == String(c.session) && e.name == ToolStarted && PlainName(Val(e, ToolName))
      requires !Identified(e)
      modifies this
      ensures payload.Some? <==> Admissible(c, old(log), e)
      ensures payload.None? ==> Valid() && log == old(log) && yielded == old(yielded)
      ensures payload.Some? ==> Visible(c, old(log), e) == Some((ActivityStarted, payload.value)) && Appended(e, old(log), old(yielded))
      ensures state == old(state) && runId == old(runId) && count == old(count) && terminal == old(terminal) && done == old(done)
      ensures RunName(old(log)) == runId && count == |old(yielded)|
    {
      hide CallsAgree, LegacyAgree, ApprovalsAgree, TextAgree, PhaseAgrees, TerminalAgrees, Accepted, YieldsOf;
      hide OpenKind, LegacyOpen, PendingApproval, Completion, CompletionSession, Has, Started, Answered, Utf8Len, IsToken, VerdictOf;
      RunFacts(e);
      if ActivityIdField in e.payload || ActivityKindField in e.payload || DurationMs in e.payload || IsError in e.payload {
        return None;
      }
      var tool := Val(e, ToolName).s;
      LegacyStart(log, e, legacyCounts);
      Append(e);
      legacyCounts := legacyCounts[tool := (if tool in legacyCounts then legacyCounts[tool] else 0) + 1];
      payload := Some(LegacyTool);
    }

    method StartIdentified(e: Raw) returns (payload: Option<Payload>)
      requires Open(e) && Val(e, SessionId) == String(c.session) && e.name == ToolStarted && PlainName(Val(e, ToolName))
      requires Identified(e)
      modifies this
      ensures payload.Some? <==> Admissible(c, old(log), e)
      ensures payload.None? ==> Valid() && log == old(log) && yielded == old(yielded)
      ensures payload.Some? ==> Visible(c, old(log), e) == Some((ActivityStarted, payload.value)) && Appended(e, old(log), old(yielded))
      ensures state == old(state) && runId == old(runId) && count == old(count) && terminal == old(terminal) && done == old(done)
      ensures RunName(old(log)) == runId && count == |old(yielded)|
    {
      hide CallsAgree, LegacyAgree, ApprovalsAgree, TextAgree, PhaseAgrees, TerminalAgrees, Accepted, YieldsOf;
      hide OpenKind, LegacyOpen, PendingApproval, Completion, CompletionSession, Has, Started, Answered, Utf8Len, IsToken, VerdictOf;
      RunFacts(e);
      if !IsTokenJson(Val(e, ToolCallId)) { return None; }
      var id := Val(e, ToolCallId).s;
      CallsSay(c, log, runId, activeCalls, seenCalls, id);
      if id in seenCalls { return None; }
      var kind := c.kindOf(Val(e, ToolName).s);
      // Activity ids are injective in the call, so a new call cannot collide with an active one.
      assert forall other | other in activeCalls :: activeCalls[other].0 != ActivityId(runId, id);
      CallsStart(c, log, e, id, runId, activeCalls, seenCalls);
      Append(e);
      activeCalls := activeCalls[id := (ActivityId(runId, id), kind)];
      seenCalls := seenCalls + {id};
      payload := Some(ToolStart(ActivityId(runId, id), kind, Subject(c, e)));
    }

    method EndLegacy(e: Raw) returns (payload: Option<Payload>)
      requires Open(e) && Val(e, SessionId) == String(c.session) && e.name == ToolCompleted && PlainName(Val(e, ToolName))
      requires !Identified(e)
      modifies this
      ensures payload.Some? <==> Admissible(c, old(log), e)
      ensures payload.None? ==> Valid() && log == old(log) && yielded == old(yielded)
      ensures payload.Some? ==> Visible(c, old(log), e) == Some((ActivityCompleted, payload.value)) && Appended(e, old(log), old(yielded))
      ensures state == old(state) && runId == old(runId) && count == old(count) && terminal == old(terminal) && done == old(done)
      ensures RunName(old(log)) == runId && count == |old(yielded)|
    {
      hide CallsAgree, LegacyAgree, ApprovalsAgree, TextAgree, PhaseAgrees, TerminalAgrees, Accepted, YieldsOf;
      hide OpenKind, LegacyOpen, PendingApproval, Completion, CompletionSession, Has, Started, Answered, Utf8Len, IsToken, VerdictOf;
      RunFacts(e);
      var tool := Val(e, ToolName).s;
      LegacySays(log, legacyCounts, tool);
      if DurationMs in e.payload || IsError in e.payload || tool !in legacyCounts { return None; }
      LegacyEnd(log, e, legacyCounts);
      Append(e);
      if legacyCounts[tool] == 1 {
        legacyCounts := legacyCounts - {tool};
      } else {
        legacyCounts := legacyCounts[tool := legacyCounts[tool] - 1];
      }
      payload := Some(LegacyToolEnd);
    }

    method EndIdentified(e: Raw) returns (payload: Option<Payload>)
      requires Open(e) && Val(e, SessionId) == String(c.session) && e.name == ToolCompleted && PlainName(Val(e, ToolName))
      requires Identified(e)
      modifies this
      ensures payload.Some? <==> Admissible(c, old(log), e)
      ensures payload.None? ==> Valid() && log == old(log) && yielded == old(yielded)
      ensures payload.Some? ==> Visible(c, old(log), e) == Some((ActivityCompleted, payload.value)) && Appended(e, old(log), old(yielded))
      ensures state == old(state) && runId == old(runId) && count == old(count) && terminal == old(terminal) && done == old(done)
      ensures RunName(old(log)) == runId && count == |old(yielded)|
    {
      hide CallsAgree, LegacyAgree, ApprovalsAgree, TextAgree, PhaseAgrees, TerminalAgrees, Accepted, YieldsOf;
      hide OpenKind, LegacyOpen, PendingApproval, Completion, CompletionSession, Has, Started, Answered, Utf8Len, IsToken, VerdictOf;
      RunFacts(e);
      if !IsTokenJson(Val(e, ToolCallId)) { return None; }
      var id := Val(e, ToolCallId).s;
      CallsSay(c, log, runId, activeCalls, seenCalls, id);
      if id !in activeCalls { return None; }
      var (activity, kind) := activeCalls[id];
      if c.kindOf(Val(e, ToolName).s) != kind || !Val(e, IsError).Bool? || !DurationOk(e) { return None; }
      CallsEnd(c, log, e, id, runId, activeCalls, seenCalls);
      Append(e);
      activeCalls := activeCalls - {id};
      payload := Some(ToolEnd(activity, kind, Val(e, IsError).b, Duration(e), Subject(c, e)));
    }

    method StartTool(e: Raw) returns (r: Reply)
      requires Open(e) && Val(e, SessionId) == String(c.session) && e.name == ToolStarted
      modifies this
      ensures Valid() && (r.Yielded? <==> Admissible(c, old(log), e)) && (r.Yielded? || r.Refused?)
      ensures if r.Yielded? then log == old(log) + [e] && yielded == old(yielded) + [r.event] else log == old(log) && yielded == old(yielded)
    {
      hide CallsAgree, LegacyAgree, ApprovalsAgree, TextAgree, PhaseAgrees, TerminalAgrees, Accepted, YieldsOf;
      hide OpenKind, LegacyOpen, PendingApproval, Completion, CompletionSession, Has, Started, Answered, Utf8Len, IsToken, VerdictOf;
      RunFacts(e);
      if !PlainName(Val(e, ToolName)) { return Refused; }
      var payload: Option<Payload>;
      if Identified(e) { payload := StartIdentified(e); } else { payload := StartLegacy(e); }
      if payload.None? { return Refused; }
      var event := Emit(ActivityStarted, payload.value);
      r := Yielded(event);
    }

    method EndTool(e: Raw) returns (r: Reply)
      requires Open(e) && Val(e, SessionId) == String(c.session) && e.name == ToolCompleted
      modifies this
      ensures Valid() && (r.Yielded? <==> Admissible(c, old(log), e)) && (r.Yielded? || r.Refused?)
      ensures if r.Yielded? then log == old(log) + [e] && yielded == old(yielded) + [r.event] else log == old(log) && yielded == old(yielded)
    {
      hide CallsAgree, LegacyAgree, ApprovalsAgree, TextAgree, PhaseAgrees, TerminalAgrees, Accepted, YieldsOf;
      hide OpenKind, LegacyOpen, PendingApproval, Completion, CompletionSession, Has, Started, Answered, Utf8Len, IsToken, VerdictOf;
      RunFacts(e);
      if !PlainName(Val(e, ToolName)) { return Refused; }
      var payload: Option<Payload>;
      if Identified(e) { payload := EndIdentified(e); } else { payload := EndLegacy(e); }
      if payload.None? { return Refused; }
      var event := Emit(ActivityCompleted, payload.value);
      r := Yielded(event);
    }

    method RequestApproval(e: Raw) returns (r: Reply)
      requires Open(e) && Val(e, SessionId) == String(c.session) && e.name == ApprovalRequested
      modifies this
      ensures Valid() && (r.Yielded? <==> Admissible(c, old(log), e)) && (r.Yielded? || r.Refused?)
      ensures if r.Yielded? then log == old(log) + [e] && yielded == old(yielded) + [r.event] else log == old(log) && yielded == old(yielded)
    {
      hide CallsAgree, LegacyAgree, ApprovalsAgree, TextAgree, PhaseAgrees, TerminalAgrees, Accepted, YieldsOf;
      hide OpenKind, LegacyOpen, PendingApproval, Completion, CompletionSession, Has, Started, Answered, Utf8Len, IsToken, VerdictOf;
      RunFacts(e);
      if !ApprovalFields(e, {SessionId, RunId, HermesApprovalId, ActionKind, ActionLabel, ActionPreview, ExpiresAt}) { return Refused; }
      var id := Val(e, HermesApprovalId).s;
      ApprovalsSay(log, pendingApproval, seenApprovals, id);
      if id in seenApprovals || pendingApproval.Some? { return Refused; }
      if !ApprovalMaterial(e) { return Refused; }
      ApprovalsRequest(log, e, pendingApproval, seenApprovals);
      Append(e);
      pendingApproval := Some(id);
      var event := Emit(ApprovalRequest, ApprovalAsk(id, Val(e, ActionKind).s, Val(e, ActionLabel).s, Val(e, ActionPreview).s, Val(e, ExpiresAt).s));
      r := Yielded(event);
    }

    method AnswerApproval(e: Raw) returns (r: Reply)
      requires Open(e) && Val(e, SessionId) == String(c.session) && e.name == ApprovalAnswered
      modifies this
      ensures Valid() && (r.Yielded? <==> Admissible(c, old(log), e)) && (r.Yielded? || r.Refused?)
      ensures if r.Yielded? then log == old(log) + [e] && yielded == old(yielded) + [r.event] else log == old(log) && yielded == old(yielded)
    {
      hide CallsAgree, LegacyAgree, ApprovalsAgree, TextAgree, PhaseAgrees, TerminalAgrees, Accepted, YieldsOf;
      hide OpenKind, LegacyOpen, PendingApproval, Completion, CompletionSession, Has, Started, Answered, Utf8Len, IsToken, VerdictOf;
      RunFacts(e);
      var outcome := OutcomeOf(Val(e, Outcome));
      if !ApprovalFields(e, {SessionId, RunId, HermesApprovalId, Outcome}) { return Refused; }
      hide ApprovalFields, OutcomeOf;
      var id := Val(e, HermesApprovalId).s;
      ApprovalsSay(log, pendingApproval, seenApprovals, id);
      if pendingApproval != Some(id) { return Refused; }
      if outcome.None? { return Refused; }
      ApprovalsAnswer(log, e, pendingApproval, seenApprovals);
      Append(e);
      pendingApproval := None;
      seenApprovals := seenApprovals + {id};
      var event := Emit(ApprovalResponded, ApprovalAnswer(id, outcome.value));
      r := Yielded(event);
    }

    /** The checks on the completion of a run, and the report it carries. */
    method CheckCompletion(e: Raw) returns (ok: bool, report: Option<RoutineResult>)
      requires Open(e) && e.name == RunCompleted
      ensures ok <==> CompletionOk(c, log, e)
      ensures ok ==> report == ReportIn(c, e)
    {
      report := None;
      NothingOpen(c, log, runId, activeCalls, seenCalls, legacyCounts);
      ApprovalsSay(log, pendingApproval, seenApprovals, "");
      RunFacts(e);
      hide OpenKind, LegacyOpen, PendingApproval, Completion, CompletionSession, Has, Started, Answered, Utf8Len, IsToken, VerdictOf;
      hide CallsAgree, LegacyAgree, ApprovalsAgree, TextAgree, PhaseAgrees, TerminalAgrees, Accepted, YieldsOf;
      var messages, session := Val(e, Messages), Val(e, SessionId);
      if activeCalls != map[] || legacyCounts != map[] || pendingApproval.Some? || Val(e, Completed) != Bool(true)
         || !messages.Array? || |messages.items| > MAX_EVENTS
         || (messages.items == [] && completionSession != session) || !IsTokenJson(session)
      {
        return false, None;
      }
      ok := true;
      if c.routine {
        var verdict := RoutineResultFromTranscript(messages.items, c.codec);
        ok := verdict != Bad && Outcome !in e.payload;
        if verdict.Typed? { report := Some(verdict.result); }
      }
    }

    method CompleteRun(e: Raw) returns (r: Reply)
      requires Open(e) && e.name == RunCompleted
      modifies this
      ensures Valid() && (r == if Admissible(c, old(log), e) then Skipped else Refused)
      ensures log == (if r.Skipped? then old(log) + [e] else old(log)) && yielded == old(yielded)
    {
      hide CallsAgree, LegacyAgree, ApprovalsAgree, TextAgree, PhaseAgrees, TerminalAgrees, Accepted, YieldsOf;
      hide OpenKind, LegacyOpen, PendingApproval, Completion, CompletionSession, Has, Started, Answered, Utf8Len, IsToken, VerdictOf;
      RunFacts(e);
      var ok, report := CheckCompletion(e);
      if !ok { return Refused; }
      CompletionAgrees(e);
      var event := Emit(ExecutionCompleted, Terminal(runId, report));
      terminal := Some(event.(session := Val(e, SessionId).s));
      state := RunDone;
      log := log + [e];
      r := Skipped;
    }

    lemma CompletionAgrees(e: Raw)
      requires Open(e) && e.name == RunCompleted && Admissible(c, log, e)
      ensures Accepted(c, log + [e]) && YieldsOf(c, log + [e]) == yielded
      ensures CallsAgree(c, log + [e], runId, activeCalls, seenCalls) && LegacyAgree(log + [e], legacyCounts)
      ensures ApprovalsAgree(log + [e], pendingApproval, seenApprovals) && TextAgree(log + [e], sawDelta, completionSession)
      ensures PhaseAgrees(log + [e], RunDone, runId, false)
      ensures TerminalAgrees(c, log + [e], |yielded|, runId,
        Some(HermesEvent(ExecutionCompleted, c.profile, Val(e, SessionId).s, runId, count + 1, Terminal(runId, ReportIn(c, e)))), count + 1)
    {
      AppendAccepts(c, log, e);
      CallsKept(c, log, e, runId, activeCalls, seenCalls);
      LegacyKept(log, e, legacyCounts);
      ApprovalsKept(log, e, pendingApproval, seenApprovals);
      TextStep(log, e, sawDelta, completionSession);
      AppendHas(log, e);
      AppendEnds(log, e);
    }

    method Finish(e: Raw) returns (r: Reply)
      requires Valid() && e.name == DoneMarker && state != AwaitingRun && Val(e, RunId) == String(runId)
      modifies this
      ensures Valid() && (r.Yielded? <==> Admissible(c, old(log), e)) && (r.Yielded? || r.Refused?)
      ensures if r.Yielded? then log == old(log) + [e] && yielded == old(yielded) + [r.event] else log == old(log) && yielded == old(yielded)
    {
      hide CallsAgree, LegacyAgree, ApprovalsAgree, TextAgree, PhaseAgrees, TerminalAgrees, Accepted, YieldsOf;
      hide OpenKind, LegacyOpen, PendingApproval, Completion, CompletionSession, Has, Started, Answered, Utf8Len, IsToken, VerdictOf;
      DoneFacts(e);
      if state != RunDone || terminal.None? { return Refused; }
      var session := Val(e, SessionId);
      if session != String(c.session) && session != String(terminal.value.session) { return Refused; }
      DoneAgrees(e);
      log, yielded := log + [e], yielded + [terminal.value];
      done := true;
      r := Yielded(terminal.value);
      terminal := None;
    }

    lemma DoneFacts(e: Raw)
      requires Valid() && e.name == DoneMarker && state != AwaitingRun && Val(e, RunId) == String(runId)
      ensures state == RunDone && terminal.Some? <==> Completion(log).Some? && !Has(log, DoneMarker)
      ensures log != [] && RunOf(log) == Val(e, RunId)
      ensures terminal.Some? ==> Completion(log).Some? && Val(Completion(log).value, SessionId) == String(terminal.value.session)
    {
      if terminal.Some? { CompletionSessionIsString(c, log); }
    }

    lemma DoneAgrees(e: Raw)
      requires Valid() && e.name == DoneMarker && state == RunDone && terminal.Some? && Val(e, RunId) == String(runId) && Admissible(c, log, e)
      ensures Accepted(c, log + [e]) && YieldsOf(c, log + [e]) == yielded + [terminal.value]
      ensures CallsAgree(c, log + [e], runId, activeCalls, seenCalls) && LegacyAgree(log + [e], legacyCounts)
      ensures ApprovalsAgree(log + [e], pendingApproval, seenApprovals) && TextAgree(log + [e], sawDelta, completionSession)
      ensures PhaseAgrees(log + [e], RunDone, runId, true) && TerminalAgrees(c, log + [e], |yielded| + 1, runId, None, count)
    {
      AppendAccepts(c, log, e);
      CallsKept(c, log, e, runId, activeCalls, seenCalls);
      LegacyKept(log, e, legacyCounts);
      ApprovalsKept(log, e, pendingApproval, seenApprovals);
      TextStep(log, e, sawDelta, completionSession);
      AppendHas(log, e);
      AppendEnds(log, e);
    }
  }

  lemma {:induction false} CompletionSessionIsString(c: Context, log: seq<Raw>)
    requires Accepted(c, log)
    ensures Completion(log).Some? ==> Val(Completion(log).value, SessionId).String?
  {
    if log != [] { CompletionSessionIsString(c, log[..|log| - 1]); }
  }
}
