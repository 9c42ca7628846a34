/** Values that cross the boundary between Hermes, the runtime and Foundry. */
module Events {

  datatype Option<T> = None | Some(value: T)

  /** The field names the runtime looks at; any other name is `OtherField`. */
  datatype Field =
    | RunId | SessionId | Seq | Ts
    | Content | Delta
    | ToolName | ToolCallId | ActivityIdField | ActivityKindField | ActivitySubject | DurationMs | IsError
    | HermesApprovalId | ActionKind | ActionLabel | ActionPreview | ExpiresAt | Outcome
    | Completed | Messages
    | Role | ToolCalls | Function | Name | Id | Arguments | Status | Error | TextField | References | Label | Url
    | OtherField(name: string)

  /** A decoded JSON value. */
  datatype Json =
    | Null
    | Bool(b: bool)
    | Int(n: int)
    | Float(r: real)
    | String(s: string)
    | Array(items: seq<Json>)
    | Object(fields: Fields)

  type Fields = map<Field, Json>

  /** `payload.get(name)`: a missing field reads as null. */
  function Get(p: Fields, f: Field): Json { if f in p then p[f] else Null }

  /** The number of bytes of a string in UTF-8. */
  function Utf8Len(s: string): nat {
    if s == "" then 0 else Utf8Len(s[..|s| - 1]) + CharLen(s[|s| - 1])
  }

  function CharLen(c: char): nat {
    if c as int < 0x80 then 1 else if c as int < 0x800 then 2 else if c as int < 0x10000 then 3 else 4
  }

  lemma {:induction false} Utf8LenConcat(a: string, b: string)
    ensures Utf8Len(a + b) == Utf8Len(a) + Utf8Len(b)
  {
    if b == "" {
      assert a + b == a;
    } else {
      Utf8LenConcat(a, b[..|b| - 1]);
      assert (a + b)[..|a + b| - 1] == a + b[..|b| - 1];
    }
  }

  datatype EventName =
    | MessageDelta | ActivityStarted | ActivityCompleted | ApprovalRequest | ApprovalResponded | ExecutionCompleted
    | OtherName(name: string)

  /** The digest of a run and a tool call id, modelled as the pair it is computed from. */
  datatype ActivityId = ActivityId(run: string, call: string)

  datatype ApprovalOutcome = Approved | Rejected | Expired | Cancelled

  datatype RoutineResult = RoutineResult(outcome: string, text: string, references: seq<(string, string)>)

  datatype Payload =
    | TextPayload(text: string)
    | LegacyTool
    | ToolStart(activity: ActivityId, kind: string, subject: Option<string>)
    | LegacyToolEnd
    | ToolEnd(activity: ActivityId, kind: string, failed: bool, duration: Option<int>, subject: Option<string>)
    | ApprovalAsk(approvalId: string, action: string, caption: string, preview: string, expires: string)
    | ApprovalAnswer(approvalId: string, outcome: ApprovalOutcome)
    | Terminal(run: string, result: Option<RoutineResult>)
    | OtherPayload(fields: Fields)

  datatype HermesEvent = HermesEvent(
    name: EventName, profile: string, session: string, run: string, sequence: int, payload: Payload)
  {
    /** A text delta: nothing in its payload but a string. */
    predicate IsDelta() { name == MessageDelta && payload.TextPayload? }

    function Text(): string { if IsDelta() then payload.text else "" }
  }

  /** The assistant text that a stream of events carries. */
  function TextOf(events: seq<HermesEvent>): string {
    if events == [] then "" else TextOf(events[..|events| - 1]) + events[|events| - 1].Text()
  }

  lemma {:induction false} TextOfConcat(a: seq<HermesEvent>, b: seq<HermesEvent>)
    ensures TextOf(a + b) == TextOf(a) + TextOf(b)
  {
    if b == [] {
      assert a + b == a;
    } else {
      hide HermesEvent.Text;
      TextOfConcat(a, b[..|b| - 1]);
      assert (a + b)[..|a + b| - 1] == a + b[..|b| - 1] && (a + b)[|a + b| - 1] == b[|b| - 1];
      assert TextOf(a + b) == TextOf(a + b[..|b| - 1]) + b[|b| - 1].Text();
    }
  }

  lemma TextOfPrefix(a: seq<HermesEvent>, b: seq<HermesEvent>)
    requires a <= b
    ensures TextOf(a) <= TextOf(b)
  {
    assert b == a + b[|a|..];
    TextOfConcat(a, b[|a|..]);
  }

  /** Everything but the deltas. */
  function OthersOf(events: seq<HermesEvent>): seq<HermesEvent> {
    if events == [] then [] else
      OthersOf(events[..|events| - 1]) + if events[|events| - 1].IsDelta() then [] else [events[|events| - 1]]
  }

  lemma {:induction false} OthersOfConcat(a: seq<HermesEvent>, b: seq<HermesEvent>)
    ensures OthersOf(a + b) == OthersOf(a) + OthersOf(b)
  {
    if b == [] {
      assert a + b == a;
    } else {
      OthersOfConcat(a, b[..|b| - 1]);
      assert (a + b)[..|a + b| - 1] == a + b[..|b| - 1];
    }
  }
}
