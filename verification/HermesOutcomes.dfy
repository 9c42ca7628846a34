/** What every accepted raw event comes to, read off its own fields: when it is accepted, and what the
    runtime sees of it. */
module HermesOutcomes {
  import opened Events
  import opened Transcript
  import opened HermesLog
  import opened HermesTheorems

  // ---------------------------------------------------------------- what is yielded for one event

  /** The events that the runtime gets to see. */
  ghost predicate Visibly(log: seq<Raw>, i: nat)
    requires i < |log|
  {
    match log[i].name
    case AssistantDelta => true
    case AssistantCompleted => forall j :: 0 <= j < i ==> log[j].name != AssistantDelta
    case ToolStarted => true
    case ToolCompleted => true
    case ApprovalRequested => true
    case ApprovalAnswered => true
    case DoneMarker => true
    case _ => false
  }

  function OutcomeText(o: ApprovalOutcome): string {
    match o
    case Approved => "approved"
    case Rejected => "rejected"
    case Expired => "expired"
    case Cancelled => "cancelled"
  }

  /** The field holds exactly this string. */
  predicate Says(e: Raw, f: Field, s: string) { f in e.payload && e.payload[f] == String(s) }

  /** A subject is shown exactly when it is a short printable string. */
  predicate ShowsSubject(c: Context, e: Raw, subject: Option<string>) {
    match subject
    case Some(s) => Says(e, ActivitySubject, s) && 0 < |s| <= 80 && c.printable(s)
    case None => ActivitySubject !in e.payload || match e.payload[ActivitySubject] case String(s) => s == "" || |s| > 80 || !c.printable(s) case _ => true
  }

  predicate ShowsDuration(e: Raw, duration: Option<int>) {
    if DurationMs in e.payload then duration.Some? && e.payload[DurationMs] == Int(duration.value) else duration.None?
  }

  /** The payload carries what the event's own fields say. */
  ghost predicate Carries(c: Context, run: string, e: Raw, y: HermesEvent) {
    match e.name
    case AssistantDelta => y.name == MessageDelta && y.payload.TextPayload? && Says(e, Delta, y.payload.text)
    case AssistantCompleted => y.name == MessageDelta && y.payload.TextPayload? && Says(e, Content, y.payload.text)
    case ToolStarted =>
      y.name == ActivityStarted &&
      if ToolCallId in e.payload then
        && y.payload.ToolStart? && y.payload.activity.run == run && Says(e, ToolCallId, y.payload.activity.call)
        && ToolName in e.payload && e.payload[ToolName].String? && y.payload.kind == c.kindOf(e.payload[ToolName].s)
        && ShowsSubject(c, e, y.payload.subject)
      else y.payload.LegacyTool?
    case ToolCompleted =>
      y.name == ActivityCompleted &&
      if ToolCallId in e.payload then
        && y.payload.ToolEnd? && y.payload.activity.run == run && Says(e, ToolCallId, y.payload.activity.call)
        && ToolName in e.payload && e.payload[ToolName].String? && y.payload.kind == c.kindOf(e.payload[ToolName].s)
        && IsError in e.payload && e.payload[IsError] == Bool(y.payload.failed)
        && ShowsDuration(e, y.payload.duration) && ShowsSubject(c, e, y.payload.subject)
      else y.payload.LegacyToolEnd?
    case ApprovalRequested =>
      && y.name == ApprovalRequest && y.payload.ApprovalAsk? && Says(e, HermesApprovalId, y.payload.approvalId)
      && Says(e, ActionKind, y.payload.action) && Says(e, ActionLabel, y.payload.caption)
      && Says(e, ActionPreview, y.payload.preview) && Says(e, ExpiresAt, y.payload.expires)
    case ApprovalAnswered =>
      && y.name == ApprovalResponded && y.payload.ApprovalAnswer? && Says(e, HermesApprovalId, y.payload.approvalId)
      && Says(e, Outcome, OutcomeText(y.payload.outcome))
    case DoneMarker => y.name == ExecutionCompleted && y.payload.Terminal? && y.payload.run == run
    case _ => false
  }

  lemma YieldAt(c: Context, log: seq<Raw>, i: nat)
    requires i < |log|
    ensures var k := |YieldsOf(c, log[..i])|; var more := YieldAfter(c, log[..i], log[i]);
      && YieldsOf(c, log[..i + 1]) == YieldsOf(c, log[..i]) + more && |more| <= 1
      && |YieldsOf(c, log)| >= k + |more| && (more != [] ==> YieldsOf(c, log)[k] == more[0])
  {
    hide Visible, SessionOf, RunOf;
    assert log[..i + 1] == log[..i] + [log[i]];
    AppendAccepts(c, log[..i], log[i]);
    YieldsGrow(c, log, i + 1);
  }

  /** Every visible event is yielded, in its turn, with what its own fields say; no other one yields
      anything. */
  lemma YieldsCarryPayloads(c: Context, log: seq<Raw>, i: nat)
    requires Accepted(c, log) && i < |log|
    ensures var k, n := |YieldsOf(c, log[..i])|, |YieldsOf(c, log[..i + 1])|; var ys := YieldsOf(c, log);
      if Visibly(log, i)
      then n == k + 1 <= |ys| && Carries(c, RunName(log), log[i], ys[k]) && ys[k].profile == c.profile
           && (log[i].name != DoneMarker ==> ys[k].session == c.session)
      else n == k
  {
    Prefix(c, log, i);
    YieldAt(c, log, i);
    SameRun(log, i);
    hide Accepted, YieldsOf, Visible, Carries, Admissible;
    VisibleCarries(c, log[..i], log[i]);
    NoDeltaBefore(log, i);
  }

  lemma SameRun(log: seq<Raw>, i: nat)
    requires i < |log|
    ensures i > 0 ==> RunName(log[..i]) == RunName(log)
  {
  }

  lemma NoDeltaBefore(log: seq<Raw>, i: nat)
    requires i < |log|
    ensures Has(log[..i], AssistantDelta) <==> exists j :: 0 <= j < i && log[j].name == AssistantDelta
  {
    if j :| 0 <= j < i && log[j].name == AssistantDelta { assert log[..i][j].name == AssistantDelta; }
  }

  lemma VisibleCarries(c: Context, log: seq<Raw>, e: Raw)
    requires Admissible(c, log, e)
    ensures var more := YieldAfter(c, log, e);
      if e.name == AssistantDelta || (e.name == AssistantCompleted && !Has(log, AssistantDelta)) || e.name == ToolStarted || e.name == ToolCompleted
         || e.name == ApprovalRequested || e.name == ApprovalAnswered || e.name == DoneMarker
      then |more| == 1 && Carries(c, RunName(log), e, more[0]) && more[0].profile == c.profile && (e.name != DoneMarker ==> more[0].session == c.session)
      else more == []
    ensures e.name != RunStarted ==> log != []
  {
    hide YieldsOf, ReportIn, LegacyOpen, OpenKind, Started, Answered, PendingApproval, CompletionOk, Utf8Len, IsToken;
    if e.name == ToolStarted || e.name == ToolCompleted {
      ActivityCarries(c, log, e);
    } else if e.name == ApprovalRequested || e.name == ApprovalAnswered {
      ApprovalCarries(c, log, e);
    }
  }

  lemma ActivityCarries(c: Context, log: seq<Raw>, e: Raw)
    requires Admissible(c, log, e) && (e.name == ToolStarted || e.name == ToolCompleted)
    ensures var more := YieldAfter(c, log, e); |more| == 1 && Carries(c, RunName(log), e, more[0])
  {
    hide YieldsOf, ReportIn, LegacyOpen, OpenKind, Started, Answered, PendingApproval, CompletionOk, Utf8Len, IsToken, Has, Completion, RunOf;
    SubjectIsShown(c, e);
    hide Subject, ShowsSubject;
  }

  lemma SubjectIsShown(c: Context, e: Raw)
    ensures ShowsSubject(c, e, Subject(c, e))
  {
  }

  lemma ApprovalCarries(c: Context, log: seq<Raw>, e: Raw)
    requires Admissible(c, log, e) && (e.name == ApprovalRequested || e.name == ApprovalAnswered)
    ensures var more := YieldAfter(c, log, e); |more| == 1 && Carries(c, RunName(log), e, more[0])
  {
    hide YieldsOf, ReportIn, LegacyOpen, OpenKind, Started, Answered, PendingApproval, CompletionOk, Utf8Len, IsToken, Has, Completion, RunOf;
  }

  // ---------------------------------------------------------------- the report of a routine

  /** The terminal event of a routine carries the one lawful report in the transcript of its run, if there
      is one, and none exactly when no call reports anything; without a routine there is never a report. */
  lemma TerminalCarriesReport(c: Context, log: seq<Raw>)
    requires Accepted(c, log) && Has(log, DoneMarker)
    ensures |log| >= 3 && log[|log| - 2].name == RunCompleted && Messages in log[|log| - 2].payload && log[|log| - 2].payload[Messages].Array?
    ensures var messages := log[|log| - 2].payload[Messages].items; var ys := YieldsOf(c, log);
      ys != [] &&
      var last := ys[|ys| - 1];
      && last.name == ExecutionCompleted && Says(log[|log| - 2], SessionId, last.session)
      && (c.routine ==>
            && (forall r :: last.payload == Terminal(RunName(log), Some(r)) <==> exists s: Site :: SoleReport(messages, s, r, c.codec))
            && (last.payload == Terminal(RunName(log), None) <==> NoReport(messages, c.codec)))
      && (!c.routine ==> last.payload == Terminal(RunName(log), None))
  {
    hide Accepted, YieldsOf, Admissible, VerdictOf, SoleReport, NoReport, RunOf, Completion, Has, ReportIn, YieldAfter;
    var n := |log|;
    SomeEvent(log, DoneMarker);
    Shape(c, log);
    Prefix(c, log, n - 2);
    CompletionIsBefore(log);
    YieldAt(c, log, n - 1);
    assert log[..n] == log;
    CompletedWith(c, log[..n - 2], log[n - 2]);
    LastYield(c, log[..n - 1], log[n - 1], log[n - 2]);
    ReportMeans(c, log[n - 2]);
  }

  lemma SomeEvent(log: seq<Raw>, name: RawName)
    requires Has(log, name)
    ensures log != []
  {
  }

  lemma CompletionIsBefore(log: seq<Raw>)
    requires |log| >= 2 && log[|log| - 2].name == RunCompleted
    ensures Completion(log[..|log| - 1]) == Some(log[|log| - 2]) && RunName(log[..|log| - 1]) == RunName(log)
  {
  }

  lemma CompletedWith(c: Context, log: seq<Raw>, e: Raw)
    requires Admissible(c, log, e) && e.name == RunCompleted
    ensures Messages in e.payload && e.payload[Messages].Array? && SessionId in e.payload && e.payload[SessionId].String?
    ensures c.routine ==> VerdictOf(e.payload[Messages].items, c.codec) != Bad
  {
    hide OpenKind, LegacyOpen, PendingApproval, CompletionSession, VerdictOf, IsToken;
  }

  lemma LastYield(c: Context, log: seq<Raw>, done: Raw, e: Raw)
    requires done.name == DoneMarker && Completion(log) == Some(e)
    ensures var more := YieldAfter(c, log, done);
      |more| == 1 && more[0].name == ExecutionCompleted && more[0].payload == Terminal(RunName(log), ReportIn(c, e)) && more[0].session == Str(Val(e, SessionId))
  {
    hide YieldsOf, ReportIn, Completion, RunOf;
  }

  lemma VerdictMeans(messages: seq<Json>, codec: Codec)
    ensures VerdictOf(messages, codec) == NoResult <==> NoReport(messages, codec)
    ensures forall r :: VerdictOf(messages, codec) == Typed(r) <==> exists s: Site :: SoleReport(messages, s, r, codec)
  {
    hide Sole, Report, NoReport;
    forall r, s: Site | SoleReport(messages, s, r, codec) ensures VerdictOf(messages, codec) == Typed(r) { VerdictIsUnique(messages, s, r, codec); }
  }

  /** The report taken along, by the transcript alone. */
  lemma ReportMeans(c: Context, e: Raw)
    requires Messages in e.payload && e.payload[Messages].Array? && (c.routine ==> VerdictOf(e.payload[Messages].items, c.codec) != Bad)
    ensures var messages := e.payload[Messages].items;
      && (c.routine ==> forall r :: ReportIn(c, e) == Some(r) <==> exists s: Site :: SoleReport(messages, s, r, c.codec))
      && (c.routine ==> (ReportIn(c, e) == None <==> NoReport(messages, c.codec)))
      && (!c.routine ==> ReportIn(c, e) == None)
  {
    hide VerdictOf, SoleReport, NoReport;
    var messages := e.payload[Messages].items;
    VerdictMeans(messages, c.codec);
    if c.routine {
      forall r ensures ReportIn(c, e) == Some(r) <==> exists s: Site :: SoleReport(messages, s, r, c.codec) {
        assert ReportIn(c, e) == Some(r) <==> VerdictOf(messages, c.codec) == Typed(r);
      }
    }
  }

  // ---------------------------------------------------------------- which logs are accepted

  /** Some identified call was started before, and not completed since. */
  ghost predicate OpenBefore(log: seq<Raw>, i: nat, id: string, j: int)
    requires i <= |log|
  {
    0 <= j < i && Starts(log[j], id) && forall k :: 0 <= k < i ==> !Ends(log[k], id)
  }

  predicate Legacy(e: Raw, name: RawName, tool: string) { e.name == name && ToolCallId !in e.payload && Tool(e) == tool }

  /** How many unidentified starts or completions of a tool there are. */
  function Count(log: seq<Raw>, name: RawName, tool: string): nat {
    if log == [] then 0 else Count(log[..|log| - 1], name, tool) + if Legacy(log[|log| - 1], name, tool) then 1 else 0
  }

  /** The last approval event before `i` is this request, or there is none that waits for an answer. */
  ghost predicate Waits(log: seq<Raw>, i: nat, j: int)
    requires i <= |log|
  {
    0 <= j < i && log[j].name == ApprovalRequested && NoApproval(log, j + 1, i)
  }

  /** Event `i` belongs where it stands, judged by its own fields and the events before it. */
  ghost predicate Belongs(c: Context, log: seq<Raw>, i: nat)
    requires i < |log|
  {
    var e := log[i];
    if i == 0 then
      e.name == RunStarted && Val(e, RunId).String? && Val(e, RunId).s != "" && Val(e, SessionId) == String(c.session)
    else
      && Val(e, RunId) == Val(log[0], RunId)
      && if e.name == DoneMarker then
           log[i - 1].name == RunCompleted && (Val(e, SessionId) == String(c.session) || Val(e, SessionId) == Val(log[i - 1], SessionId))
         else
           && log[i - 1].name != RunCompleted && log[i - 1].name != DoneMarker
           && (e.name == AssistantCompleted || e.name == RunCompleted || Val(e, SessionId) == String(c.session))
           && BelongsInRun(c, log, i)
  }

  ghost predicate BelongsInRun(c: Context, log: seq<Raw>, i: nat)
    requires i < |log|
  {
    var e := log[i];
    match e.name
    case MessageStarted => true
    case AssistantDelta => BoundedText(Val(e, Delta), MAX_TEXT_BYTES)
    case AssistantCompleted =>
      IsTokenJson(Val(e, SessionId))
      && ((exists j :: 0 <= j < i && log[j].name == AssistantDelta) || BoundedText(Val(e, Content), MAX_TEXT_BYTES))
    case ToolStarted =>
      PlainName(Val(e, ToolName)) &&
      if Identified(e) then IsTokenJson(Val(e, ToolCallId)) && forall j :: 0 <= j < i ==> !Starts(log[j], CallId(e))
      else e.payload.Keys !! {ActivityIdField, ActivityKindField, DurationMs, IsError}
    case ToolProgress => PlainName(Val(e, ToolName))
    case ToolCompleted =>
      PlainName(Val(e, ToolName)) &&
      if Identified(e) then
        && IsTokenJson(Val(e, ToolCallId)) && Val(e, IsError).Bool? && DurationOk(e)
        && exists j :: OpenBefore(log, i, CallId(e), j) && c.kindOf(Tool(log[j])) == c.kindOf(Tool(e))
      else e.payload.Keys !! {DurationMs, IsError} && Count(log[..i], ToolStarted, Tool(e)) > Count(log[..i], ToolCompleted, Tool(e))
    case ApprovalRequested =>
      && ApprovalFields(e, {SessionId, RunId, HermesApprovalId, ActionKind, ActionLabel, ActionPreview, ExpiresAt}) && ApprovalMaterial(e)
      && (forall j :: !Waits(log, i, j))
      && (forall j :: 0 <= j < i && log[j].name == ApprovalAnswered ==> ApprovalId(log[j]) != ApprovalId(e))
    case ApprovalAnswered =>
      && ApprovalFields(e, {SessionId, RunId, HermesApprovalId, Outcome}) && OutcomeOf(Val(e, Outcome)).Some?
      && exists j :: Waits(log, i, j) && ApprovalId(log[j]) == ApprovalId(e)
    case RunCompleted => Completes(c, log, i)
    case _ => false
  }

  /** The run may be completed: nothing is open, and the transcript of a routine reports at most one
      result, lawfully. */
  ghost predicate Completes(c: Context, log: seq<Raw>, i: nat)
    requires i < |log|
  {
    NothingOpen(log, i) && Val(log[i], Completed) == Bool(true) && TranscriptOk(c, log, i)
  }

  ghost predicate NothingOpen(log: seq<Raw>, i: nat)
    requires i < |log|
  {
    (forall id, j :: !OpenBefore(log, i, id, j)) && Balanced(log[..i]) && (forall j :: !Waits(log, i, j))
  }

  ghost predicate Balanced(log: seq<Raw>) {
    forall tool :: Count(log, ToolStarted, tool) <= Count(log, ToolCompleted, tool)
  }

  ghost predicate TranscriptOk(c: Context, log: seq<Raw>, i: nat)
    requires i < |log|
  {
    var messages, session := Val(log[i], Messages), Val(log[i], SessionId);
    && messages.Array? && |messages.items| <= 512 && IsTokenJson(session)
    && (messages.items == [] ==> LastCompletion(log[..i], session))
    && (c.routine ==> Outcome !in log[i].payload && Lawful(messages.items, c.codec))
  }

  ghost predicate Lawful(messages: seq<Json>, codec: Codec) {
    NoReport(messages, codec) || exists s: Site, r :: SoleReport(messages, s, r, codec)
  }

  /** The last assistant completion, if any, named this session. */
  ghost predicate LastCompletion(log: seq<Raw>, session: Json) {
    exists j :: LastAt(log, j) && Val(log[j], SessionId) == session
  }

  ghost predicate LastAt(log: seq<Raw>, j: int) {
    0 <= j < |log| && log[j].name == AssistantCompleted && forall k :: j < k < |log| ==> log[k].name != AssistantCompleted
  }

  // ---------------------------------------------------------------- history functions and positions

  lemma {:induction false} LegacyIsCount(log: seq<Raw>, tool: string)
    ensures LegacyOpen(log, tool) == Count(log, ToolStarted, tool) - Count(log, ToolCompleted, tool)
  {
    if log != [] { LegacyIsCount(log[..|log| - 1], tool); }
  }

  /** A call is open exactly when it was started and not completed. */
  lemma OpenMeans(c: Context, log: seq<Raw>, id: string)
    requires Accepted(c, log)
    ensures forall kind :: OpenKind(c, log, id) == Some(kind) <==> exists j :: OpenBefore(log, |log|, id, j) && c.kindOf(Tool(log[j])) == kind
  {
    hide Accepted, Starts, Ends;
    if OpenKind(c, log, id).Some? {
      OpenWasStarted(c, log, id);
      var i :| 0 <= i < |log| && Starts(log[i], id) && OpenKind(c, log, id) == Some(c.kindOf(Tool(log[i])));
      StartIsTracked(c, log, i, id);
      forall k | 0 <= k < |log| ensures !Ends(log[k], id) {
        if Ends(log[k], id) { EndsAfter(c, log, i, k, id); }
      }
      assert OpenBefore(log, |log|, id, i);
      forall j | OpenBefore(log, |log|, id, j) ensures j == i { StartedOnce(c, log, i, j, id); }
    } else {
      forall j ensures !OpenBefore(log, |log|, id, j) {
        if OpenBefore(log, |log|, id, j) { StartIsTracked(c, log, j, id); }
      }
    }
  }

  lemma EndsAfter(c: Context, log: seq<Raw>, i: nat, k: nat, id: string)
    requires Accepted(c, log) && i < |log| && k < |log| && Starts(log[i], id) && Ends(log[k], id)
    ensures i < k
  {
    EndedAfterStart(c, log, k, id);
    var h :| 0 <= h < k && Starts(log[h], id);
    StartedOnce(c, log, h, i, id);
  }

  /** An approval is pending exactly when the last approval event is its request. */
  lemma {:induction false} PendingMeans(log: seq<Raw>)
    ensures forall id :: PendingApproval(log) == Some(id) <==> exists j :: Waits(log, |log|, j) && ApprovalId(log[j]) == id
    ensures PendingApproval(log).None? <==> forall j :: !Waits(log, |log|, j)
  {
    if log != [] {
      var init, e := log[..|log| - 1], log[|log| - 1];
      PendingMeans(init);
      if e.name == ApprovalRequested {
        assert Waits(log, |log|, |log| - 1);
        assert forall j :: Waits(log, |log|, j) ==> j == |log| - 1;
      } else if e.name == ApprovalAnswered {
        assert forall j :: Waits(log, |log|, j) ==> Approval(log[|log| - 1]);
        assert forall j :: !Waits(log, |log|, j);
      } else {
        assert forall j :: Waits(log, |log|, j) <==> Waits(init, |init|, j);
      }
    }
  }

  lemma {:induction false} SessionMeans(log: seq<Raw>, session: Json)
    requires session != Null
    ensures CompletionSession(log) == session <==> LastCompletion(log, session)
  {
    if log != [] {
      var init, e := log[..|log| - 1], log[|log| - 1];
      SessionMeans(init, session);
      if e.name == AssistantCompleted {
        assert LastAt(log, |log| - 1) && forall j :: LastAt(log, j) ==> j == |log| - 1;
      } else {
        assert forall j :: LastAt(log, j) <==> LastAt(init, j);
      }
    }
  }

  /** One more event is admissible exactly when it belongs at the end. */
  lemma AdmissibleBelongs(c: Context, log: seq<Raw>, e: Raw)
    requires Accepted(c, log)
    ensures Admissible(c, log, e) <==> Belongs(c, log + [e], |log|)
  {
    var after := log + [e];
    assert after[|log|] == e && after[..|log|] == log;
    if log != [] {
      Shape(c, log);
      LastNames(c, log);
      hide Accepted, Runs, BelongsInRun, Completion, Has;
      if e.name != RunStarted && e.name != DoneMarker && Completion(log).None? && !Has(log, DoneMarker) { RunsBelongs(c, log, e); }
    }
  }

  lemma LastNames(c: Context, log: seq<Raw>)
    requires Accepted(c, log) && log != []
    ensures Completion(log).Some? && !Has(log, DoneMarker) <==> log[|log| - 1].name == RunCompleted
    ensures Has(log, DoneMarker) <==> log[|log| - 1].name == DoneMarker
    ensures Completion(log).None? <==> log[|log| - 1].name != RunCompleted && log[|log| - 1].name != DoneMarker
    ensures Completion(log).Some? && !Has(log, DoneMarker) ==> Completion(log) == Some(log[|log| - 1])
    ensures RunOf(log) == Val(log[0], RunId)
  {
    Shape(c, log);
    hide Accepted, Completion;
  }

  lemma RunsBelongs(c: Context, log: seq<Raw>, e: Raw)
    requires Accepted(c, log)
    ensures Runs(c, log, e) <==> BelongsInRun(c, log + [e], |log|)
  {
    var after := log + [e];
    assert after[|log|] == e && after[..|log|] == log;
    hide Accepted, CompletionOk, Completes, BoundedText, PlainName, DurationOk, ApprovalFields, ApprovalMaterial, OpenKind, PendingApproval, LegacyOpen, Count;
    match e.name
    case AssistantCompleted => NoDeltaBefore(after, |log|);
    case ToolStarted => assert Started(log, CallId(e)) <==> exists j :: 0 <= j < |log| && Starts(after[j], CallId(e));
    case ToolCompleted =>
      LegacyIsCount(log, Tool(e));
      EndBelongs(c, log, e);
    case ApprovalRequested =>
      PendingMeans(log);
      SameWaits(log, e);
      assert Answered(log, ApprovalId(e)) <==> exists j :: 0 <= j < |log| && after[j].name == ApprovalAnswered && ApprovalId(after[j]) == ApprovalId(e);
    case ApprovalAnswered =>
      PendingMeans(log);
      SameWaits(log, e);
    case RunCompleted => CompletionBelongs(c, log, e);
    case _ =>
  }

  lemma SameWaits(log: seq<Raw>, e: Raw)
    ensures forall j :: Waits(log + [e], |log|, j) <==> Waits(log, |log|, j)
    ensures forall id, j :: OpenBefore(log + [e], |log|, id, j) <==> OpenBefore(log, |log|, id, j)
    ensures forall j :: 0 <= j < |log| ==> (log + [e])[j] == log[j]
  {
    var after := log + [e];
    assert forall k :: 0 <= k < |log| ==> after[k] == log[k];
    forall j ensures Waits(after, |log|, j) <==> Waits(log, |log|, j) {
      if 0 <= j < |log| { SameSpan(log, e, j + 1); }
    }
    forall id, j ensures OpenBefore(after, |log|, id, j) <==> OpenBefore(log, |log|, id, j) {
      if OpenBefore(after, |log|, id, j) {
        forall k | 0 <= k < |log| ensures !Ends(log[k], id) { assert !Ends(after[k], id); }
      }
    }
  }

  lemma SameSpan(log: seq<Raw>, e: Raw, lo: nat)
    ensures NoApproval(log + [e], lo, |log|) <==> NoApproval(log, lo, |log|)
  {
    var after := log + [e];
    assert forall k :: 0 <= k < |log| ==> after[k] == log[k];
    if NoApproval(after, lo, |log|) {
      forall k | 0 <= lo <= k < |log| ensures !Approval(log[k]) { assert !Approval(after[k]); }
    }
  }

  lemma EndBelongs(c: Context, log: seq<Raw>, e: Raw)
    requires Accepted(c, log)
    ensures OpenKind(c, log, CallId(e)) == Some(c.kindOf(Tool(e))) <==>
      exists j :: OpenBefore(log + [e], |log|, CallId(e), j) && c.kindOf(Tool((log + [e])[j])) == c.kindOf(Tool(e))
  {
    hide Accepted, OpenKind, OpenBefore;
    OpenMeans(c, log, CallId(e));
    SameWaits(log, e);
    BeforeIsInside(log, e, CallId(e));
  }

  lemma BeforeIsInside(log: seq<Raw>, e: Raw, id: string)
    ensures forall j :: OpenBefore(log + [e], |log|, id, j) ==> 0 <= j < |log|
  {
  }

  lemma CompletionBelongs(c: Context, log: seq<Raw>, e: Raw)
    requires Accepted(c, log)
    ensures CompletionOk(c, log, e) <==> Completes(c, log + [e], |log|)
  {
    SameOpen(c, log, e);
    SameTranscript(c, log, e);
    hide Accepted, TranscriptOk, TranscriptFits, NothingOpen, NothingLeft;
    CompletionParts(c, log, e);
    assert (log + [e])[|log|] == e;
  }

  ghost predicate NothingLeft(c: Context, log: seq<Raw>) {
    NoCallLeft(c, log) && NoLegacyLeft(log) && PendingApproval(log).None?
  }

  ghost predicate NoCallLeft(c: Context, log: seq<Raw>) { forall id :: OpenKind(c, log, id).None? }
  ghost predicate NoLegacyLeft(log: seq<Raw>) { forall tool :: LegacyOpen(log, tool) <= 0 }

  ghost predicate TranscriptFits(c: Context, log: seq<Raw>, e: Raw) {
    var messages := Val(e, Messages);
    && messages.Array? && |messages.items| <= MAX_EVENTS
    && (messages.items == [] ==> CompletionSession(log) == Val(e, SessionId))
    && IsTokenJson(Val(e, SessionId))
    && (c.routine ==> VerdictOf(messages.items, c.codec) != Bad && Outcome !in e.payload)
  }

  lemma CompletionParts(c: Context, log: seq<Raw>, e: Raw)
    ensures CompletionOk(c, log, e) <==> NothingLeft(c, log) && Val(e, Completed) == Bool(true) && TranscriptFits(c, log, e)
  {
    hide OpenKind, LegacyOpen, PendingApproval, CompletionSession, VerdictOf, IsToken;
  }

  lemma SameTranscript(c: Context, log: seq<Raw>, e: Raw)
    ensures TranscriptFits(c, log, e) <==> TranscriptOk(c, log + [e], |log|)
  {
    hide IsToken, VerdictOf, Lawful, CompletionSession, LastCompletion;
    assert (log + [e])[|log|] == e && (log + [e])[..|log|] == log;
    if Val(e, SessionId).String? { SessionMeans(log, Val(e, SessionId)); }
    if Val(e, Messages).Array? { LawfulMeans(Val(e, Messages).items, c.codec); }
  }

  lemma LawfulMeans(messages: seq<Json>, codec: Codec)
    ensures VerdictOf(messages, codec) != Bad <==> Lawful(messages, codec)
  {
    hide NoReport, SoleReport;
  }

  lemma SameOpen(c: Context, log: seq<Raw>, e: Raw)
    requires Accepted(c, log)
    ensures NothingOpen(log + [e], |log|) <==> NothingLeft(c, log)
  {
    hide Accepted, OpenBefore, Waits, NoCallLeft, NoLegacyLeft, Balanced, PendingApproval;
    assert (log + [e])[..|log|] == log;
    SameWaits(log, e);
    PendingMeans(log);
    NoCallOpen(c, log);
    NoLegacyOpen(log);
    assert (forall id, j :: !OpenBefore(log + [e], |log|, id, j)) <==> forall id, j :: !OpenBefore(log, |log|, id, j);
    assert (forall j :: !Waits(log + [e], |log|, j)) <==> forall j :: !Waits(log, |log|, j);
  }

  lemma NoCallOpen(c: Context, log: seq<Raw>)
    requires Accepted(c, log)
    ensures NoCallLeft(c, log) <==> forall id, j :: !OpenBefore(log, |log|, id, j)
  {
    hide Accepted;
    if id, j :| OpenBefore(log, |log|, id, j) {
      OpenMeans(c, log, id);
      assert OpenKind(c, log, id) == Some(c.kindOf(Tool(log[j])));
    } else {
      forall id ensures OpenKind(c, log, id).None? {
        OpenMeans(c, log, id);
        NoneOpen(c, log, id);
      }
    }
  }

  lemma NoLegacyOpen(log: seq<Raw>)
    ensures NoLegacyLeft(log) <==> Balanced(log)
  {
    if tool :| LegacyOpen(log, tool) > 0 {
      LegacyIsCount(log, tool);
      assert LegacyOpen(log, tool) > 0 && Count(log, ToolStarted, tool) > Count(log, ToolCompleted, tool);
    } else {
      forall tool ensures Count(log, ToolStarted, tool) <= Count(log, ToolCompleted, tool) {
        LegacyIsCount(log, tool);
        assert !(LegacyOpen(log, tool) > 0);
      }
    }
  }

  lemma NoneOpen(c: Context, log: seq<Raw>, id: string)
    requires forall kind :: OpenKind(c, log, id) == Some(kind) <==> exists j :: OpenBefore(log, |log|, id, j) && c.kindOf(Tool(log[j])) == kind
    ensures OpenKind(c, log, id).None? <==> forall j :: !OpenBefore(log, |log|, id, j)
  {
    if OpenKind(c, log, id).Some? { assert OpenKind(c, log, id) == Some(OpenKind(c, log, id).value); }
    if j :| OpenBefore(log, |log|, id, j) { assert OpenKind(c, log, id) == Some(c.kindOf(Tool(log[j]))); }
  }

  /** What an event looks back at does not change when the log grows. */
  lemma BelongsStays(c: Context, log: seq<Raw>, e: Raw, i: nat)
    requires i < |log|
    ensures Belongs(c, log, i) <==> Belongs(c, log + [e], i)
  {
    var after := log + [e];
    assert after[..i] == log[..i];
    assert forall j :: 0 <= j <= i ==> after[j] == log[j];
    forall j ensures Waits(after, i, j) <==> Waits(log, i, j) {
      if 0 <= j < i { assert NoApproval(after, j + 1, i) <==> NoApproval(log, j + 1, i); }
    }
    assert forall id, j :: OpenBefore(after, i, id, j) <==> OpenBefore(log, i, id, j);
    hide BoundedText, PlainName, DurationOk, ApprovalFields, ApprovalMaterial, Count, LastCompletion, NoReport, SoleReport, Starts, OpenBefore, Waits;
  }

  /** A stream is accepted exactly when every event belongs where it stands. */
  lemma {:induction false} AcceptedExactly(c: Context, log: seq<Raw>)
    ensures Accepted(c, log) <==> forall i :: 0 <= i < |log| ==> Belongs(c, log, i)
  {
    if log != [] {
      var init, e := log[..|log| - 1], log[|log| - 1];
      assert log == init + [e];
      AcceptedExactly(c, init);
      forall i | 0 <= i < |init| ensures Belongs(c, init, i) <==> Belongs(c, log, i) { BelongsStays(c, init, e, i); }
      if Accepted(c, init) { AdmissibleBelongs(c, init, e); }
      hide Belongs, Admissible;
    }
  }
}
