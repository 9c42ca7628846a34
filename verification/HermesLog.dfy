/** The event logs that the Hermes normaliser accepts, defined over the history of the stream alone.

    A log is the sequence of accepted raw events.  `Admissible` says when one more event may follow,
    and `YieldsOf` what the runtime has seen of the log; neither mentions the fields that the
    implementation keeps.
*/
module HermesLog {
  import opened Events
  import opened Transcript

  const MAX_EVENTS := 512
  const MAX_DURATION_MS := 86_400_000
  const MAX_SUBJECT_CHARS := 80
  const MAX_APPROVAL_SECONDS := 300.0
  const MAX_LABEL_CHARS := 120
  const MAX_PREVIEW_BYTES := 16 * 1024

  datatype RawName =
    | RunStarted | MessageStarted | AssistantDelta | AssistantCompleted
    | ToolStarted | ToolProgress | ToolCompleted
    | ApprovalRequested | ApprovalAnswered
    | RunCompleted | ErrorReported | DoneMarker
    | Unknown(name: string)

  /** One decoded stream event.  `lifetime` is the time left until the approval expiry in its payload,
      if that parses as a timestamp with a time zone. */
  datatype Raw = Raw(name: RawName, payload: Fields, lifetime: Option<real>)

  /** What is fixed for one stream: the request, the JSON codec, the table of activity kinds, and
      which strings the runtime shows as an activity subject. */
  datatype Context = Context(
    session: string, profile: string, routine: bool, codec: Codec,
    kindOf: string -> string, printable: string -> bool)

  // ---------------------------------------------------------------- fields

  predicate PlainName(j: Json) {
    BoundedText(j, 128) && forall i :: 0 <= i < |j.s| ==> j.s[i] as int >= 0x20 && j.s[i] as int != 0x7F
  }

  function Val(e: Raw, f: Field): Json { Get(e.payload, f) }

  /** A start or completion that names its call. */
  predicate Identified(e: Raw) { ToolCallId in e.payload }

  function Tool(e: Raw): string { if Val(e, ToolName).String? then Val(e, ToolName).s else "" }
  function CallId(e: Raw): string { if Val(e, ToolCallId).String? then Val(e, ToolCallId).s else "" }
  function ApprovalId(e: Raw): string { if Val(e, HermesApprovalId).String? then Val(e, HermesApprovalId).s else "" }

  predicate Starts(e: Raw, id: string) { e.name == ToolStarted && Identified(e) && CallId(e) == id }
  predicate Ends(e: Raw, id: string) { e.name == ToolCompleted && Identified(e) && CallId(e) == id }

  function Subject(c: Context, e: Raw): Option<string> {
    var j := Val(e, ActivitySubject);
    if j.String? && 0 < |j.s| <= MAX_SUBJECT_CHARS && c.printable(j.s) then Some(j.s) else None
  }

  function OutcomeOf(j: Json): Option<ApprovalOutcome> {
    if j == String("approved") then Some(Approved)
    else if j == String("rejected") then Some(Rejected)
    else if j == String("expired") then Some(Expired)
    else if j == String("cancelled") then Some(Cancelled)
    else None
  }

  predicate ApprovalFields(e: Raw, required: set<Field>) {
    required <= e.payload.Keys && e.payload.Keys <= required + {Seq, Ts} && PlainName(Val(e, HermesApprovalId))
  }

  predicate ApprovalMaterial(e: Raw) {
    && Val(e, ActionKind).String? && Val(e, ActionKind).s in {"terminal", "execute_code", "plugin_tool"}
    && Val(e, ActionLabel).String? && 1 <= |Val(e, ActionLabel).s| <= MAX_LABEL_CHARS && '\0' !in Val(e, ActionLabel).s
    && BoundedText(Val(e, ActionPreview), MAX_PREVIEW_BYTES) && '\0' !in Val(e, ActionPreview).s
    && Val(e, ExpiresAt).String?
    && e.lifetime.Some? && 0.0 < e.lifetime.value <= MAX_APPROVAL_SECONDS
  }

  predicate DurationOk(e: Raw) {
    DurationMs in e.payload ==> e.payload[DurationMs].Int? && 0 <= e.payload[DurationMs].n <= MAX_DURATION_MS
  }

  function Duration(e: Raw): Option<int> {
    if DurationMs in e.payload && e.payload[DurationMs].Int? then Some(e.payload[DurationMs].n) else None
  }

  // ---------------------------------------------------------------- history

  ghost predicate Has(log: seq<Raw>, name: RawName) { exists i :: 0 <= i < |log| && log[i].name == name }

  function RunOf(log: seq<Raw>): Json { if log == [] then Null else Val(log[0], RunId) }
  function RunName(log: seq<Raw>): string { if RunOf(log).String? then RunOf(log).s else "" }

  /** The call has been started at some point. */
  ghost predicate Started(log: seq<Raw>, id: string) { exists i :: 0 <= i < |log| && Starts(log[i], id) }

  /** The kind under which the call was started, if it has not been completed since. */
  function OpenKind(c: Context, log: seq<Raw>, id: string): Option<string> {
    if log == [] then None else
      var e := log[|log| - 1];
      if Starts(e, id) then Some(c.kindOf(Tool(e)))
      else if Ends(e, id) then None
      else OpenKind(c, log[..|log| - 1], id)
  }

  /** Starts minus completions of a tool that does not identify its calls. */
  function LegacyOpen(log: seq<Raw>, tool: string): int {
    if log == [] then 0 else
      var e := log[|log| - 1];
      LegacyOpen(log[..|log| - 1], tool) + LegacyChange(e, tool)
  }

  function LegacyChange(e: Raw, tool: string): int {
    if Identified(e) || Tool(e) != tool then 0
    else if e.name == ToolStarted then 1 else if e.name == ToolCompleted then -1 else 0
  }

  /** The approval that has been requested and not answered. */
  function PendingApproval(log: seq<Raw>): Option<string> {
    if log == [] then None else
      var e := log[|log| - 1];
      if e.name == ApprovalRequested then Some(ApprovalId(e))
      else if e.name == ApprovalAnswered then None
      else PendingApproval(log[..|log| - 1])
  }

  ghost predicate Answered(log: seq<Raw>, id: string) {
    exists i :: 0 <= i < |log| && log[i].name == ApprovalAnswered && ApprovalId(log[i]) == id
  }

  /** The session reported by the last assistant completion. */
  function CompletionSession(log: seq<Raw>): Json {
    if log == [] then Null else
      var e := log[|log| - 1];
      if e.name == AssistantCompleted then Val(e, SessionId) else CompletionSession(log[..|log| - 1])
  }

  /** The event that completed the run. */
  function Completion(log: seq<Raw>): Option<Raw> {
    if log == [] then None else
      var e := log[|log| - 1];
      if e.name == RunCompleted then Some(e) else Completion(log[..|log| - 1])
  }

  // ---------------------------------------------------------------- what may follow a log

  ghost predicate Admissible(c: Context, log: seq<Raw>, e: Raw) {
    if e.name == RunStarted then
      log == [] && Val(e, RunId).String? && Val(e, RunId).s != "" && Val(e, SessionId) == String(c.session)
    else
      && log != [] && Val(e, RunId) == RunOf(log)
      && if e.name == DoneMarker then DoneOk(c, log, e) else
           && Completion(log).None?
           && (e.name == AssistantCompleted || e.name == RunCompleted || Val(e, SessionId) == String(c.session))
           && Runs(c, log, e)
  }

  ghost predicate DoneOk(c: Context, log: seq<Raw>, e: Raw) {
    Completion(log).Some? && !Has(log, DoneMarker)
    && (Val(e, SessionId) == String(c.session) || Val(e, SessionId) == Val(Completion(log).value, SessionId))
  }

  ghost predicate Runs(c: Context, log: seq<Raw>, e: Raw) {
    match e.name
    case MessageStarted => true
    case AssistantDelta => BoundedText(Val(e, Delta), MAX_TEXT_BYTES)
    case AssistantCompleted =>
      IsTokenJson(Val(e, SessionId)) && (Has(log, AssistantDelta) || BoundedText(Val(e, Content), MAX_TEXT_BYTES))
    case ToolStarted => PlainName(Val(e, ToolName)) && StartOk(log, e)
    case ToolProgress => PlainName(Val(e, ToolName))
    case ToolCompleted => PlainName(Val(e, ToolName)) && EndOk(c, log, e)
    case ApprovalRequested => RequestOk(log, e)
    case ApprovalAnswered => AnswerOk(log, e)
    case RunCompleted => CompletionOk(c, log, e)
    case _ => false
  }

  ghost predicate StartOk(log: seq<Raw>, e: Raw) {
    if Identified(e) then IsTokenJson(Val(e, ToolCallId)) && !Started(log, CallId(e))
    else e.payload.Keys !! {ActivityIdField, ActivityKindField, DurationMs, IsError}
  }

  ghost predicate EndOk(c: Context, log: seq<Raw>, e: Raw) {
    if Identified(e) then
      && IsTokenJson(Val(e, ToolCallId)) && OpenKind(c, log, CallId(e)) == Some(c.kindOf(Tool(e)))
      && Val(e, IsError).Bool? && DurationOk(e)
    else e.payload.Keys !! {DurationMs, IsError} && LegacyOpen(log, Tool(e)) > 0
  }

  ghost predicate RequestOk(log: seq<Raw>, e: Raw) {
    && ApprovalFields(e, {SessionId, RunId, HermesApprovalId, ActionKind, ActionLabel, ActionPreview, ExpiresAt})
    && !Answered(log, ApprovalId(e)) && PendingApproval(log).None? && ApprovalMaterial(e)
  }

  ghost predicate AnswerOk(log: seq<Raw>, e: Raw) {
    && ApprovalFields(e, {SessionId, RunId, HermesApprovalId, Outcome})
    && PendingApproval(log) == Some(ApprovalId(e)) && OutcomeOf(Val(e, Outcome)).Some?
  }

  ghost predicate CompletionOk(c: Context, log: seq<Raw>, e: Raw) {
    && (forall id :: OpenKind(c, log, id).None?) && (forall tool :: LegacyOpen(log, tool) <= 0)
    && PendingApproval(log).None? && Val(e, Completed) == Bool(true)
    && var messages := Val(e, Messages);
       && messages.Array? && |messages.items| <= MAX_EVENTS
       && (messages.items == [] ==> CompletionSession(log) == Val(e, SessionId))
       && IsTokenJson(Val(e, SessionId))
       && (c.routine ==> VerdictOf(messages.items, c.codec) != Bad && Outcome !in e.payload)
  }

  /** An error reported by the running turn ends the stream with a failed turn. */
  ghost predicate FailsTurn(c: Context, log: seq<Raw>, e: Raw) {
    e.name == ErrorReported && log != [] && Completion(log).None? && Val(e, RunId) == RunOf(log) && Val(e, SessionId) == String(c.session)
  }

  ghost predicate Accepted(c: Context, log: seq<Raw>) {
    log == [] || (Accepted(c, log[..|log| - 1]) && Admissible(c, log[..|log| - 1], log[|log| - 1]))
  }

  // ---------------------------------------------------------------- what the runtime sees

  ghost function ReportIn(c: Context, e: Raw): Option<RoutineResult> {
    if c.routine && Val(e, Messages).Array? then
      match VerdictOf(Val(e, Messages).items, c.codec) case Typed(r) => Some(r) case _ => None
    else None
  }

  function Str(j: Json): string { if j.String? then j.s else "" }

  /** The name and payload of the event that `e` makes visible after `log`. */
  ghost function Visible(c: Context, log: seq<Raw>, e: Raw): Option<(EventName, Payload)> {
    match e.name
    case AssistantDelta => Some((MessageDelta, TextPayload(Str(Val(e, Delta)))))
    case AssistantCompleted => if Has(log, AssistantDelta) then None else Some((MessageDelta, TextPayload(Str(Val(e, Content)))))
    case ToolStarted =>
      Some((ActivityStarted,
            if Identified(e) then ToolStart(ActivityId(RunName(log), CallId(e)), c.kindOf(Tool(e)), Subject(c, e)) else LegacyTool))
    case ToolCompleted =>
      Some((ActivityCompleted,
            if Identified(e) then ToolEnd(ActivityId(RunName(log), CallId(e)), c.kindOf(Tool(e)), Val(e, IsError) == Bool(true), Duration(e), Subject(c, e))
            else LegacyToolEnd))
    case ApprovalRequested =>
      Some((ApprovalRequest, ApprovalAsk(ApprovalId(e), Str(Val(e, ActionKind)), Str(Val(e, ActionLabel)), Str(Val(e, ActionPreview)), Str(Val(e, ExpiresAt)))))
    case ApprovalAnswered =>
      (match OutcomeOf(Val(e, Outcome)) case Some(o) => Some((ApprovalResponded, ApprovalAnswer(ApprovalId(e), o))) case None => None)
    case DoneMarker =>
      (match Completion(log) case Some(r) => Some((ExecutionCompleted, Terminal(RunName(log), ReportIn(c, r)))) case None => None)
    case _ => None
  }

  /** The terminal event carries the session that completed the run; all others the request's. */
  function SessionOf(c: Context, log: seq<Raw>, e: Raw): string {
    if e.name == DoneMarker && Completion(log).Some? then Str(Val(Completion(log).value, SessionId)) else c.session
  }

  ghost function YieldsOf(c: Context, log: seq<Raw>): seq<HermesEvent>
    decreases |log|, 0
  {
    if log == [] then [] else
      var init, e := log[..|log| - 1], log[|log| - 1];
      YieldsOf(c, init) + YieldAfter(c, init, e)
  }

  ghost function YieldAfter(c: Context, log: seq<Raw>, e: Raw): seq<HermesEvent>
    decreases |log|, 1
  {
    match Visible(c, log, e)
    case None => []
    case Some(v) => [HermesEvent(v.0, c.profile, SessionOf(c, log, e), RunName(log), |YieldsOf(c, log)| + 1, v.1)]
  }

  /** The assistant's words: the deltas, and completions that no delta preceded. */
  ghost function AssistantText(c: Context, log: seq<Raw>): string {
    if log == [] then "" else
      var init, e := log[..|log| - 1], log[|log| - 1];
      AssistantText(c, init)
      + if e.name == AssistantDelta then Str(Val(e, Delta))
        else if e.name == AssistantCompleted && !Has(init, AssistantDelta) then Str(Val(e, Content))
        else ""
  }

  // ---------------------------------------------------------------- one more event

  lemma AppendAccepts(c: Context, log: seq<Raw>, e: Raw)
    ensures Accepted(c, log + [e]) <==> Accepted(c, log) && Admissible(c, log, e)
    ensures YieldsOf(c, log + [e]) == YieldsOf(c, log) + YieldAfter(c, log, e)
  {
    assert (log + [e])[..|log|] == log;
  }

  lemma AppendHas(log: seq<Raw>, e: Raw)
    ensures forall name :: Has(log + [e], name) <==> Has(log, name) || e.name == name
  {
    var after := log + [e];
    assert after[|log|] == e;
    forall name ensures Has(after, name) <==> Has(log, name) || e.name == name {
      if Has(log, name) {
        var i :| 0 <= i < |log| && log[i].name == name;
        assert after[i].name == name;
      }
    }
  }

  lemma AppendCalls(c: Context, log: seq<Raw>, e: Raw)
    ensures forall id :: Started(log + [e], id) <==> Started(log, id) || Starts(e, id)
    ensures forall id :: OpenKind(c, log + [e], id)
                      == if Starts(e, id) then Some(c.kindOf(Tool(e))) else if Ends(e, id) then None else OpenKind(c, log, id)
  {
    var after := log + [e];
    assert after[..|log|] == log && after[|log|] == e;
    forall id ensures Started(after, id) <==> Started(log, id) || Starts(e, id) {
      if Started(log, id) {
        var i :| 0 <= i < |log| && Starts(log[i], id);
        assert Starts(after[i], id);
      }
    }
  }

  lemma AppendLegacy(log: seq<Raw>, e: Raw)
    ensures forall tool :: LegacyOpen(log + [e], tool) == LegacyOpen(log, tool) + LegacyChange(e, tool)
  {
    assert (log + [e])[..|log|] == log;
  }

  lemma AppendApprovals(log: seq<Raw>, e: Raw)
    ensures PendingApproval(log + [e])
         == if e.name == ApprovalRequested then Some(ApprovalId(e)) else if e.name == ApprovalAnswered then None else PendingApproval(log)
    ensures forall id :: Answered(log + [e], id) <==> Answered(log, id) || (e.name == ApprovalAnswered && ApprovalId(e) == id)
  {
    var after := log + [e];
    assert after[..|log|] == log && after[|log|] == e;
    forall id ensures Answered(after, id) <==> Answered(log, id) || (e.name == ApprovalAnswered && ApprovalId(e) == id) {
      if Answered(log, id) {
        var i :| 0 <= i < |log| && log[i].name == ApprovalAnswered && ApprovalId(log[i]) == id;
        assert after[i].name == ApprovalAnswered;
      }
    }
  }

  lemma AppendEnds(log: seq<Raw>, e: Raw)
    ensures CompletionSession(log + [e]) == if e.name == AssistantCompleted then Val(e, SessionId) else CompletionSession(log)
    ensures Completion(log + [e]) == if e.name == RunCompleted then Some(e) else Completion(log)
    ensures RunOf(log + [e]) == if log == [] then Val(e, RunId) else RunOf(log)
  {
    assert (log + [e])[..|log|] == log;
  }
}
