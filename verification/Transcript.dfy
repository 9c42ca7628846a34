/** The recogniser of the one typed routine result in a finished Hermes transcript. */
module Transcript {
  import opened Events

  const RESULT_TOOL := "allies_routine_result"
  const WRAPPER_TOOL := "tool_call"
  const MAX_ARGUMENT_BYTES := 64 * 1024
  const MAX_TEXT_BYTES := 16 * 1024
  const MAX_REFERENCES := 32
  const MAX_LABEL_BYTES := 255
  const MAX_URL_BYTES := 2048
  const MAX_EVENT_BYTES := 64 * 1024
  const FIXED_BYTES := 4 * 1024

  /** JSON decoding of a string, and the size of the canonical encoding of a report. */
  datatype Codec = Codec(parse: string -> Option<Json>, encodedSize: (string, seq<(string, string)>) -> nat)

  predicate IsAlnum(c: char) { 'a' <= c <= 'z' || 'A' <= c <= 'Z' || '0' <= c <= '9' }

  /** The shape shared by tool call ids and session ids. */
  predicate IsToken(s: string) {
    1 <= |s| <= 128 && IsAlnum(s[0])
    && forall i :: 1 <= i < |s| ==> IsAlnum(s[i]) || s[i] in {'_', '.', ':', '-'}
  }

  predicate IsTokenJson(j: Json) { j.String? && IsToken(j.s) }

  predicate BoundedText(j: Json, limit: nat) { j.String? && j.s != "" && Utf8Len(j.s) <= limit }

  // ---------------------------------------------------------------- the report itself

  predicate Reference(j: Json) {
    j.Object? && j.fields.Keys == {Label, Url}
    && BoundedText(j.fields[Label], MAX_LABEL_BYTES) && '\0' !in j.fields[Label].s
    && BoundedText(j.fields[Url], MAX_URL_BYTES) && '\0' !in j.fields[Url].s
    && ("http://" <= j.fields[Url].s || "https://" <= j.fields[Url].s)
  }

  function ReferencesOf(items: seq<Json>): Option<seq<(string, string)>> {
    if items == [] then Some([]) else
      var rest := ReferencesOf(items[..|items| - 1]);
      var j := items[|items| - 1];
      if rest.Some? && Reference(j) then Some(rest.value + [(j.fields[Label].s, j.fields[Url].s)]) else None
  }

  /** They are read exactly when every one of them is a reference, and then in order. */
  lemma {:induction false} ReferencesMean(items: seq<Json>)
    ensures ReferencesOf(items).Some? <==> forall i :: 0 <= i < |items| ==> Reference(items[i])
    ensures ReferencesOf(items).Some? ==>
      var rs := ReferencesOf(items).value;
      |rs| == |items| && forall i :: 0 <= i < |rs| ==> items[i].fields[Label] == String(rs[i].0) && items[i].fields[Url] == String(rs[i].1)
  {
    if items != [] {
      hide Reference;
      var init, last := items[..|items| - 1], items[|items| - 1];
      ReferencesMean(init);
      ReferenceFields(last);
      assert forall i :: 0 <= i < |init| ==> init[i] == items[i];
    }
  }

  lemma ReferenceFields(j: Json)
    ensures Reference(j) ==> j.Object? && Label in j.fields && Url in j.fields && j.fields[Label].String? && j.fields[Url].String?
  {
  }

  function Report(j: Json, codec: Codec): Option<RoutineResult> {
    if !j.Object? || j.fields.Keys != {Outcome, TextField, References} then None else
      var outcome, text, references := j.fields[Outcome], j.fields[TextField], j.fields[References];
      if !outcome.String? || outcome.s !in {"changed", "unchanged", "failed"} then None
      else if !BoundedText(text, MAX_TEXT_BYTES) || '\0' in text.s then None
      else if !references.Array? || |references.items| > MAX_REFERENCES then None
      else match ReferencesOf(references.items)
        case None => None
        case Some(rs) =>
          if codec.encodedSize(text.s, rs) + FIXED_BYTES > MAX_EVENT_BYTES then None
          else Some(RoutineResult(outcome.s, text.s, rs))
  }

  /** A report is read exactly when it has the three fields within their limits, and carries them over. */
  lemma ReportMeans(j: Json, codec: Codec, r: RoutineResult)
    ensures Report(j, codec) == Some(r) <==>
      && j.Object? && j.fields.Keys == {Outcome, TextField, References}
      && j.fields[Outcome] == String(r.outcome) && (r.outcome == "changed" || r.outcome == "unchanged" || r.outcome == "failed")
      && j.fields[TextField] == String(r.text) && r.text != "" && Utf8Len(r.text) <= 16384 && '\0' !in r.text
      && j.fields[References].Array? && |j.fields[References].items| <= 32 && ReferencesAre(j.fields[References].items, r.references)
      && codec.encodedSize(r.text, r.references) + 4096 <= 65536
  {
    hide Reference, ReferencesOf, Utf8Len;
    if j.Object? && References in j.fields && j.fields[References].Array? {
      var items := j.fields[References].items;
      ReferencesMean(items);
      if ReferencesAre(items, r.references) { SameReferences(items, r.references); }
    }
  }

  ghost predicate ReferencesAre(items: seq<Json>, rs: seq<(string, string)>) {
    |rs| == |items| && forall i :: 0 <= i < |items| ==>
      Reference(items[i]) && items[i].fields[Label] == String(rs[i].0) && items[i].fields[Url] == String(rs[i].1)
  }

  lemma SameReferences(items: seq<Json>, rs: seq<(string, string)>)
    requires ReferencesAre(items, rs)
    ensures ReferencesOf(items) == Some(rs)
  {
    ReferencesMean(items);
    var qs := ReferencesOf(items).value;
    assert forall i :: 0 <= i < |rs| ==> qs[i] == rs[i];
    assert qs == rs;
  }

  // ---------------------------------------------------------------- messages and calls

  predicate HasRole(m: Json, role: string) { m.Object? && Get(m.fields, Role) == String(role) }
  predicate IsAssistant(m: Json) { HasRole(m, "assistant") }
  predicate IsTool(m: Json) { HasRole(m, "tool") }

  predicate CallsMalformed(m: Json) { IsAssistant(m) && ToolCalls in m.fields && !m.fields[ToolCalls].Array? }

  function CallsOf(m: Json): seq<Json> {
    if IsAssistant(m) && ToolCalls in m.fields && m.fields[ToolCalls].Array? then m.fields[ToolCalls].items else []
  }

  function Parse(j: Json, codec: Codec): Option<Json> { if j.String? then codec.parse(j.s) else None }

  /** The replies that name a call. */
  predicate Answers(m: Json, id: string) { IsTool(m) && Get(m.fields, ToolCallId) == String(id) }

  /** An answer that reports an error and no status: the wrapper never reached the result tool. */
  predicate Rejects(m: Json, codec: Codec)
    requires m.Object?
  {
    Get(m.fields, ToolName) == String(WRAPPER_TOOL)
    && var content := Parse(Get(m.fields, Content), codec);
       content.Some? && content.value.Object? && Error in content.value.fields && Status !in content.value.fields
  }

  ghost predicate WrapperRejected(messages: seq<Json>, id: string, codec: Codec) {
    exists k :: 0 <= k < |messages| && Answers(messages[k], id) && Rejects(messages[k], codec)
      && forall j :: 0 <= j < |messages| && Answers(messages[j], id) ==> j == k
  }

  /** What one tool call means before its replies are looked at. */
  datatype CallKind = Ignored | Malformed | Direct(id: string, report: Json) | Wrapped(id: string, report: Json)

  function Classify(call: Json, codec: Codec): CallKind {
    if !call.Object? || !Get(call.fields, Function).Object? then Ignored else
      var function_ := Get(call.fields, Function).fields;
      var id, arguments := Get(call.fields, Id), Get(function_, Arguments);
      if Get(function_, Name) == String(RESULT_TOOL) then
        if !IsTokenJson(id) || !BoundedText(arguments, MAX_ARGUMENT_BYTES) then Malformed
        else match codec.parse(arguments.s) case None => Malformed case Some(report) => Direct(id.s, report)
      else if Get(function_, Name) == String(WRAPPER_TOOL) then
        match Parse(arguments, codec)
        case Some(Object(inner)) =>
          if Get(inner, Name) != String(RESULT_TOOL) then Ignored
          else if !IsTokenJson(id) || !BoundedText(arguments, MAX_ARGUMENT_BYTES) then Malformed
          else Wrapped(id.s, Get(inner, Arguments))
        case _ => Ignored
      else Ignored
  }

  /** `call` really reported a result: directly, or through a wrapper that was not rejected. */
  ghost predicate Reports(messages: seq<Json>, call: Json, codec: Codec) {
    var kind := Classify(call, codec);
    kind.Direct? || (kind.Wrapped? && !WrapperRejected(messages, kind.id, codec))
  }

  /** Call number `c` of message number `m`. */
  datatype Site = Site(m: nat, c: nat)

  predicate At(messages: seq<Json>, s: Site) { s.m < |messages| && s.c < |CallsOf(messages[s.m])| }

  function CallAt(messages: seq<Json>, s: Site): Json
    requires At(messages, s)
  {
    CallsOf(messages[s.m])[s.c]
  }

  predicate Before(s: Site, t: Site) { s.m < t.m || (s.m == t.m && s.c < t.c) }

  ghost predicate ReportsAt(messages: seq<Json>, s: Site, codec: Codec) {
    At(messages, s) && Reports(messages, CallAt(messages, s), codec)
  }

  ghost predicate CallsWellFormed(messages: seq<Json>, codec: Codec) {
    && (forall i :: 0 <= i < |messages| ==> !CallsMalformed(messages[i]))
    && (forall s: Site :: At(messages, s) ==> !Classify(CallAt(messages, s), codec).Malformed?)
  }

  ghost predicate LastCall(messages: seq<Json>, s: Site) {
    At(messages, s) && forall t: Site :: At(messages, t) ==> t == s || Before(t, s)
  }

  /** A tool message of the result tool that cannot be matched to any call. */
  predicate Unidentified(m: Json) {
    IsTool(m) && !IsTokenJson(Get(m.fields, ToolCallId)) && Get(m.fields, ToolName) == String(RESULT_TOOL)
  }

  predicate Readable(m: Json, codec: Codec)
    requires m.Object?
  {
    BoundedText(Get(m.fields, Content), MAX_ARGUMENT_BYTES) && codec.parse(Get(m.fields, Content).s).Some?
  }

  predicate Accepts(m: Json, codec: Codec)
    requires m.Object?
  {
    Readable(m, codec)
    && var content := codec.parse(Get(m.fields, Content).s).value;
       content.Object? && Get(content.fields, Status) == String("accepted")
  }

  /** Message `k` is the only reply to the call in message `m`, the last tool message, and accepted. */
  ghost predicate AcceptedReply(messages: seq<Json>, m: nat, id: string, k: nat, codec: Codec) {
    && m < k < |messages| && Answers(messages[k], id) && Accepts(messages[k], codec)
    && (forall j :: 0 <= j < |messages| && Answers(messages[j], id) ==> j == k)
    && (forall j :: k < j < |messages| ==> !IsTool(messages[j]))
    && (forall j :: 0 <= j < |messages| ==> !Unidentified(messages[j]))
  }

  /** The one site a typed result may come from. */
  ghost predicate Sole(messages: seq<Json>, s: Site, codec: Codec) {
    && CallsWellFormed(messages, codec) && ReportsAt(messages, s, codec)
    && (forall t: Site :: ReportsAt(messages, t, codec) ==> t == s)
    && LastCall(messages, s)
    && exists k: nat :: AcceptedReply(messages, s.m, Classify(CallAt(messages, s), codec).id, k, codec)
  }

  datatype Verdict = NoResult | Typed(result: RoutineResult) | Bad

  ghost predicate SoleReport(messages: seq<Json>, s: Site, r: RoutineResult, codec: Codec) {
    Sole(messages, s, codec) && Report(Classify(CallAt(messages, s), codec).report, codec) == Some(r)
  }

  ghost predicate NoReport(messages: seq<Json>, codec: Codec) {
    CallsWellFormed(messages, codec) && forall s: Site :: !ReportsAt(messages, s, codec)
  }

  /** No call reports a result and nothing is malformed: no result.  One lawful report: that result.
      Anything else is refused. */
  ghost function VerdictOf(messages: seq<Json>, codec: Codec): Verdict {
    if NoReport(messages, codec) then NoResult
    else if exists s: Site, r :: SoleReport(messages, s, r, codec) then
      var s: Site, r :| SoleReport(messages, s, r, codec);
      Typed(r)
    else Bad
  }

  /** There is at most one lawful report, so the verdict does not depend on which one is chosen. */
  lemma VerdictIsUnique(messages: seq<Json>, s: Site, r: RoutineResult, codec: Codec)
    requires SoleReport(messages, s, r, codec)
    ensures VerdictOf(messages, codec) == Typed(r)
  {
    assert exists s: Site, r :: SoleReport(messages, s, r, codec);
    var t: Site, q :| SoleReport(messages, t, q, codec) && VerdictOf(messages, codec) == Typed(q);
    assert t == s;
  }

  // ---------------------------------------------------------------- the scan

  method IsRejected(messages: seq<Json>, id: string, codec: Codec) returns (r: bool)
    ensures r <==> WrapperRejected(messages, id, codec)
  {
    var responses: seq<nat> := [];
    for i := 0 to |messages|
      invariant forall k | k in responses :: k < i && Answers(messages[k], id)
      invariant forall j :: 0 <= j < i && Answers(messages[j], id) ==> j in responses
      invariant forall a, b :: 0 <= a < b < |responses| ==> responses[a] != responses[b]
    {
      if Answers(messages[i], id) { responses := responses + [i]; }
    }
    if |responses| != 1 {
      if |responses| > 1 { assert responses[0] in responses && responses[1] in responses; }
      return false;
    }
    assert responses[0] in responses;
    assert forall k | k in responses :: k == responses[0];
    r := Rejects(messages[responses[0]], codec);
  }

  datatype Found = Found(site: Site, id: string, report: Json)

  ghost predicate FoundOk(messages: seq<Json>, f: Found, codec: Codec) {
    ReportsAt(messages, f.site, codec)
    && var kind := Classify(CallAt(messages, f.site), codec); f.id == kind.id && f.report == kind.report
  }

  /** `calls` are exactly the reporting sites before `end`. */
  ghost predicate Collected(messages: seq<Json>, calls: seq<Found>, end: Site, codec: Codec) {
    && (forall i :: 0 <= i < |calls| ==> FoundOk(messages, calls[i], codec) && Before(calls[i].site, end))
    && (forall i, j :: 0 <= i < j < |calls| ==> calls[i].site != calls[j].site)
    && (forall s: Site :: ReportsAt(messages, s, codec) && Before(s, end) ==> exists i :: 0 <= i < |calls| && calls[i].site == s)
  }

  ghost predicate NoneMalformed(messages: seq<Json>, end: Site, codec: Codec) {
    forall s: Site :: At(messages, s) && Before(s, end) ==> !Classify(CallAt(messages, s), codec).Malformed?
  }

  ghost predicate LastBefore(messages: seq<Json>, last: Option<Site>, end: Site) {
    match last
    case None => forall t: Site :: !(At(messages, t) && Before(t, end))
    case Some(s) => At(messages, s) && Before(s, end) && forall t: Site :: At(messages, t) && Before(t, end) ==> t == s || Before(t, s)
  }

  method FindCalls(messages: seq<Json>, codec: Codec) returns (ok: bool, calls: seq<Found>, last: Option<Site>)
    ensures ok <==> CallsWellFormed(messages, codec)
    ensures ok ==> Collected(messages, calls, Site(|messages|, 0), codec)
    ensures ok ==> LastBefore(messages, last, Site(|messages|, 0))
  {
    hide Utf8Len;
    calls, last := [], None;
    for m := 0 to |messages|
      invariant forall i :: 0 <= i < m ==> !CallsMalformed(messages[i])
      invariant NoneMalformed(messages, Site(m, 0), codec)
      invariant Collected(messages, calls, Site(m, 0), codec)
      invariant LastBefore(messages, last, Site(m, 0))
    {
      if CallsMalformed(messages[m]) { return false, [], None; }
      var raw := CallsOf(messages[m]);
      for c := 0 to |raw|
        invariant NoneMalformed(messages, Site(m, c), codec)
        invariant Collected(messages, calls, Site(m, c), codec)
        invariant LastBefore(messages, last, Site(m, c))
      {
        var site := Site(m, c);
        assert At(messages, site) && CallAt(messages, site) == raw[c];
        last := Some(site);
        var kind := Classify(raw[c], codec);
        if kind.Malformed? { return false, [], None; }
        var reports := kind.Direct?;
        if kind.Wrapped? {
          var rejected := IsRejected(messages, kind.id, codec);
          reports := !rejected;
        }
        calls := Extend(messages, calls, site, reports, codec);
      }
    }
    assert forall s: Site :: At(messages, s) ==> Before(s, Site(|messages|, 0));
    ok := true;
  }

  method Extend(messages: seq<Json>, calls: seq<Found>, site: Site, reports: bool, codec: Codec) returns (r: seq<Found>)
    requires At(messages, site) && Collected(messages, calls, site, codec)
    requires reports <==> Reports(messages, CallAt(messages, site), codec)
    ensures Collected(messages, r, Site(site.m, site.c + 1), codec)
  {
    var end := Site(site.m, site.c + 1);
    assert forall s: Site :: Before(s, end) ==> s == site || Before(s, site);
    if !reports { return calls; }
    var kind := Classify(CallAt(messages, site), codec);
    var f := Found(site, kind.id, kind.report);
    r := calls + [f];
    forall s: Site | ReportsAt(messages, s, codec) && Before(s, end)
      ensures exists i :: 0 <= i < |r| && r[i].site == s
    {
      if s == site {
        assert r[|calls|].site == s;
      } else {
        var i :| 0 <= i < |calls| && calls[i].site == s;
        assert r[i].site == s;
      }
    }
  }

  /** The reply pass: is message `k` of the transcript the accepted, final, only reply? */
  method FindReply(messages: seq<Json>, m: nat, id: string, codec: Codec) returns (ok: bool)
    requires IsToken(id)
    ensures ok <==> exists k: nat :: AcceptedReply(messages, m, id, k, codec)
  {
    var matching: seq<nat> := [];
    var lastTool: int := -1;
    for j := 0 to |messages|
      invariant forall i :: 0 <= i < j ==> !Unidentified(messages[i])
      invariant forall k | k in matching :: k < j && Answers(messages[k], id) && Readable(messages[k], codec)
      invariant forall i :: 0 <= i < j && Answers(messages[i], id) ==> i in matching
      invariant forall a, b :: 0 <= a < b < |matching| ==> matching[a] != matching[b]
      invariant -1 <= lastTool < j && (lastTool >= 0 ==> IsTool(messages[lastTool]))
      invariant forall i :: lastTool < i < j ==> !IsTool(messages[i])
    {
      if IsTool(messages[j]) {
        lastTool := j;
        if Unidentified(messages[j]) { return false; }
        if Answers(messages[j], id) {
          if !Readable(messages[j], codec) { return false; }
          matching := matching + [j];
        }
      }
    }
    if |matching| != 1 {
      if |matching| > 1 { assert matching[0] in matching && matching[1] in matching; }
      return false;
    }
    var k := matching[0];
    assert k in matching && forall i | i in matching :: i == k;
    ok := k > m && lastTool == k && Accepts(messages[k], codec);
    if ok { assert AcceptedReply(messages, m, id, k, codec); }
  }

  /** The checks on the collected calls; a typed verdict comes with the site it was read from. */
  method Recognise(messages: seq<Json>, codec: Codec) returns (v: Verdict, ghost at: Site)
    ensures v.NoResult? <==> NoReport(messages, codec)
    ensures v.Typed? ==> SoleReport(messages, at, v.result, codec)
    ensures v.Bad? ==> forall s: Site, r :: !SoleReport(messages, s, r, codec)
  {
    at := Site(0, 0);
    var ok, calls, last := FindCalls(messages, codec);
    if !ok { return Bad, at; }
    assert forall s: Site :: At(messages, s) ==> Before(s, Site(|messages|, 0));
    if calls == [] { return NoResult, at; }
    var f := calls[0];
    assert FoundOk(messages, f, codec);
    if |calls| != 1 {
      assert FoundOk(messages, calls[1], codec);
      return Bad, at;
    }
    assert forall s: Site :: ReportsAt(messages, s, codec) ==> s == f.site;
    if last != Some(f.site) { return Bad, at; }
    assert LastCall(messages, f.site);
    IdIsToken(CallAt(messages, f.site), codec);
    var replied := FindReply(messages, f.site.m, f.id, codec);
    if !replied { return Bad, at; }
    match Report(f.report, codec)
    case None => return Bad, at;
    case Some(r) => return Typed(r), f.site;
  }

  /** `_routine_result_from_transcript`. */
  method RoutineResultFromTranscript(messages: seq<Json>, codec: Codec) returns (v: Verdict)
    ensures v == VerdictOf(messages, codec)
    ensures v.NoResult? <==> NoReport(messages, codec)
    ensures forall r :: v == Typed(r) <==> exists s: Site :: SoleReport(messages, s, r, codec)
  {
    ghost var at;
    v, at := Recognise(messages, codec);
    if v.Typed? {
      VerdictIsUnique(messages, at, v.result, codec);
      forall s: Site, r | SoleReport(messages, s, r, codec) ensures r == v.result {
        VerdictIsUnique(messages, s, r, codec);
      }
    }
  }

  lemma IdIsToken(call: Json, codec: Codec)
    ensures var kind := Classify(call, codec); kind.Direct? || kind.Wrapped? ==> IsToken(kind.id)
  {
  }
}
