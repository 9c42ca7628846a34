/** The calls one claim makes to Foundry and Hermes, and which call may follow which. */
module ClaimCalls {
  import opened Events

  const MAX_EVENT_SEQUENCE := 100000
  const MAX_TERMINAL_SEQUENCE := 100001

  /** What the worker learns from an awaited call.  `Lost` is a lost response, `Fenced` a fenced or
      conflicting lease, `Killed` no answer at all because the process died. */
  datatype Answer = Ok | Lost | Fenced | Rejected | Transient | TimedOut | Cancelled | Killed

  /** The name-based UUID of an approval request, modelled as the triple it is computed from. */
  datatype RequestId = RequestId(attempt: string, run: string, hermesId: string)

  datatype Body =
    | Dispatched
    | Relayed(event: HermesEvent)
    | AwaitingAction(request: RequestId, ask: Payload, expiry: real)
    | ApprovalResolved(request: RequestId, outcome: ApprovalOutcome)

  /** How an approval wait ended: by a recorded decision that reached Hermes, or without one.  A wait
      that was cancelled has been answered at Hermes all the same, so that the action cannot run. */
  datatype Settlement = ByDecision(approve: bool) | Lapsed(outcome: ApprovalOutcome)

  /** The typed result of a routine, or the fixed texts for a failed one and an unavailable continuation. */
  datatype Report = TypedReport(result: RoutineResult) | FailureReport | UnavailableReport

  datatype Kind =
    | Event(number: nat, body: Body)
    | Complete(number: nat, payload: Payload, session: string)
    | Fail(number: nat, code: string)
    | Routine(number: nat, report: Report)
    | Stopped(reason: string)
    | Bind(session: string)
    /** A status poll that came back with a recorded decision and its acknowledgement deadline. */
    | Recorded(request: RequestId, approve: bool, ack: real)
    /** Any other status poll. */
    | Polled(request: RequestId)
    /** A decision sent to Hermes. */
    | Decide(request: RequestId, approve: bool)
    /** A question to Hermes what became of a decision whose answer was lost. */
    | Queried(request: RequestId)
    /** No call: the wait for this request is over. */
    | Settled(request: RequestId, settlement: Settlement)

  /** One call, whether the lease was known to be lost when it was made, and its answer; `seen` counts the
      answers received before it, `ticked` the clock readings taken since the last of them, and `heard`
      what had been taken from the Hermes stream. */
  datatype Call = Call(kind: Kind, lost: bool, answer: Answer, seen: nat, ticked: nat, heard: nat)

  predicate Closing(k: Kind) { Numbered(k) || k.Stopped? }
  predicate Numbered(k: Kind) { k.Complete? || k.Fail? || k.Routine? }

  /** Calls that report success: the turn is complete, or the routine has its typed result. */
  predicate Concluding(k: Kind) { k.Complete? || (k.Routine? && k.report.TypedReport?) }

  // ---------------------------------------------------------------- what a log adds up to

  /** The highest event number; whether a closing call has been sent and acknowledged; the conclusion
      sent last; whether the last numbered closing call, if any, was refused outright; and the approval
      request that was announced and not resolved. */
  datatype Ledger = Ledger(
    top: nat, tried: bool, closed: bool, conclusion: Option<Kind>, refused: bool, awaiting: Option<RequestId>)

  function Note(l: Ledger, k: Kind, answer: Answer): Ledger {
    match k
    case Event(q, body) =>
      l.(top := if q > l.top then q else l.top,
         awaiting := match body
                     case AwaitingAction(request, _, _) => Some(request)
                     case ApprovalResolved(_, _) => None
                     case _ => l.awaiting)
    case Stopped(_) => l.(tried := true, closed := l.closed || answer == Ok)
    case _ =>
      if !Numbered(k) then l
      else NoteNumbered(l.(conclusion := if Concluding(k) then Some(k) else l.conclusion), answer)
  }

  function NoteNumbered(l: Ledger, answer: Answer): Ledger {
    l.(tried := true, closed := l.closed || answer == Ok, refused := answer == Answer.Rejected || answer == Transient)
  }

  function Sum(calls: seq<Call>): Ledger {
    if calls == [] then Ledger(0, false, false, None, true, None)
    else var c := calls[|calls| - 1]; Note(Sum(calls[..|calls| - 1]), c.kind, c.answer)
  }

  lemma SumOne(calls: seq<Call>, c: Call)
    ensures Sum(calls + [c]) == Note(Sum(calls), c.kind, c.answer)
  {
    assert (calls + [c])[..|calls|] == calls;
  }

  // ---------------------------------------------------------------- which call may follow

  /** The same call again, right after its sending lost the response. */
  ghost predicate Resends(calls: seq<Call>, k: Kind) {
    var n := |calls|;
    n > 0 && calls[n - 1].kind == k && calls[n - 1].answer == Lost
  }

  /** The same event again, for the first time. */
  ghost predicate Replays(calls: seq<Call>, k: Kind) {
    Resends(calls, k) && (|calls| > 1 ==> calls[|calls| - 2].kind != k)
  }

  predicate Agrees(s: Settlement, outcome: ApprovalOutcome) {
    match s
    case ByDecision(approve) => outcome == if approve then Approved else ApprovalOutcome.Rejected
    case Lapsed(o) => outcome == o && (o == Expired || o == ApprovalOutcome.Cancelled)
  }

  ghost predicate HasCall(calls: seq<Call>, k: Kind) { exists i :: 0 <= i < |calls| && calls[i].kind == k }

  /** The request was announced with this expiry. */
  ghost predicate Announced(calls: seq<Call>, request: RequestId, expiry: real) {
    exists i :: 0 <= i < |calls| && Announces(calls[i].kind, request, expiry)
  }

  predicate Announces(k: Kind, request: RequestId, expiry: real) {
    k.Event? && k.body.AwaitingAction? && k.body.request == request && k.body.expiry == expiry
  }

  /** The request was announced, and a poll for exactly this request recorded this decision. */
  ghost predicate Authorised(calls: seq<Call>, request: RequestId, approve: bool) {
    exists ack, expiry :: HasCall(calls, Recorded(request, approve, ack)) && Announced(calls, request, expiry)
  }

  ghost predicate SettlementOk(calls: seq<Call>, request: RequestId, s: Settlement) {
    match s
    case ByDecision(approve) => HasCall(calls, Decide(request, approve)) && Authorised(calls, request, approve)
    case Lapsed(o) => o == Expired || (o == ApprovalOutcome.Cancelled && exists a :: HasCall(calls, Decide(request, a)))
  }

  ghost predicate MaySay(calls: seq<Call>, q: nat, body: Body) {
    && (body.Dispatched? <==> q == 1)
    && (body.AwaitingAction? ==> Sum(calls).awaiting.None?)
    && (body.ApprovalResolved? ==>
          Sum(calls).awaiting == Some(body.request)
          && exists s :: HasCall(calls, Settled(body.request, s)) && Agrees(s, body.outcome))
  }

  /** What may be sent next. */
  ghost predicate MayFollow(calls: seq<Call>, k: Kind, lost: bool) {
    var l := Sum(calls);
    match k
    case Event(q, body) =>
      && !l.tried && 1 <= q <= MAX_EVENT_SEQUENCE
      && (Replays(calls, k) || (q == l.top + 1 && !lost && MaySay(calls, q, body)))
    case Complete(q, _, _) => MayClose(calls, k, q)
    case Fail(q, _) => MayClose(calls, k, q)
    case Routine(q, _) => MayClose(calls, k, q)
    case Stopped(_) => !l.closed
    case Decide(request, approve) => approve ==> Authorised(calls, request, true)
    case Settled(request, s) => SettlementOk(calls, request, s)
    case _ => true
  }

  ghost predicate MayClose(calls: seq<Call>, k: Kind, q: nat) {
    var l := Sum(calls);
    && !l.closed && l.top < q <= MAX_TERMINAL_SEQUENCE
    && (Resends(calls, k) || (l.refused && (Concluding(k) ==> !l.tried && l.awaiting.None?)))
  }

  /** A lost lease stays lost. */
  ghost predicate LossLasts(calls: seq<Call>, lost: bool) { calls != [] && calls[|calls| - 1].lost ==> lost }

  ghost predicate Lawful(calls: seq<Call>) {
    calls == [] ||
    (var init, c := calls[..|calls| - 1], calls[|calls| - 1]; Lawful(init) && LossLasts(init, c.lost) && MayFollow(init, c.kind, c.lost))
  }

  lemma LawfulOne(calls: seq<Call>, c: Call)
    ensures Lawful(calls + [c]) <==> Lawful(calls) && LossLasts(calls, c.lost) && MayFollow(calls, c.kind, c.lost)
  {
    assert (calls + [c])[..|calls|] == calls;
  }

  lemma HasMore(calls: seq<Call>, more: seq<Call>, k: Kind)
    ensures HasCall(calls, k) ==> HasCall(calls + more, k)
  {
    if HasCall(calls, k) {
      var i :| 0 <= i < |calls| && calls[i].kind == k;
      assert (calls + more)[i].kind == k;
    }
  }

  lemma AnnouncedMore(calls: seq<Call>, more: seq<Call>, request: RequestId, expiry: real)
    ensures Announced(calls, request, expiry) ==> Announced(calls + more, request, expiry)
  {
    if Announced(calls, request, expiry) {
      var i :| 0 <= i < |calls| && Announces(calls[i].kind, request, expiry);
      assert Announces((calls + more)[i].kind, request, expiry);
    }
  }

  lemma AuthorisedMore(calls: seq<Call>, more: seq<Call>, request: RequestId, approve: bool)
    requires Authorised(calls, request, approve)
    ensures Authorised(calls + more, request, approve)
  {
    var ack, expiry :| HasCall(calls, Recorded(request, approve, ack)) && Announced(calls, request, expiry);
    HasMore(calls, more, Recorded(request, approve, ack));
    AnnouncedMore(calls, more, request, expiry);
  }

  /** A new event may be replayed once. */
  lemma MayReplay(calls: seq<Call>, c: Call)
    requires Lawful(calls) && c.kind.Event? && c.kind.number == Sum(calls).top + 1 && c.answer == Lost
    requires MayFollow(calls, c.kind, c.lost)
    ensures Replays(calls + [c], c.kind)
  {
    if |calls| > 0 && calls[|calls| - 1].kind == c.kind { TopBounds(calls, |calls| - 1); }
  }

  /** A first sending whose response was lost may be repeated, whatever became of the lease. */
  lemma MayRetry(calls: seq<Call>, c: Call)
    requires Lawful(calls) && MayFollow(calls, c.kind, c.lost) && c.answer == Lost
    requires Numbered(c.kind) || c.kind.Bind? || (c.kind.Event? && c.kind.number == Sum(calls).top + 1)
    ensures forall lost :: MayFollow(calls + [c], c.kind, lost)
  {
    SumOne(calls, c);
    var after := calls + [c];
    assert after[|after| - 1] == c;
    if c.kind.Event? { MayReplay(calls, c); }
  }

  /** Repeated, it adds up to one call with the later answer, and posts nothing more. */
  lemma RetryAddsUp(l: Ledger, k: Kind, answer: Answer)
    requires Numbered(k) || k.Bind? || (k.Event? && k.number == l.top + 1)
    ensures Note(Note(l, k, Lost), k, answer) == Note(l, k, answer) && Fresh(Note(l, k, Lost).top, k) == []
  {
  }

  /** The instant in an announcement is the one its expiry text denotes. */
  ghost predicate Dated(calls: seq<Call>, timeOf: string -> Option<real>) {
    forall i :: 0 <= i < |calls| ==> DatedKind(calls[i].kind, timeOf)
  }

  predicate DatedKind(k: Kind, timeOf: string -> Option<real>) {
    k.Event? && k.body.AwaitingAction? ==> k.body.ask.ApprovalAsk? && timeOf(k.body.ask.expires) == Some(k.body.expiry)
  }

  // ---------------------------------------------------------------- relayed text

  /** The Hermes events among the distinct posts, in order. */
  function PostedEvents(calls: seq<Call>): seq<HermesEvent> {
    if calls == [] then [] else
      var init, k := calls[..|calls| - 1], calls[|calls| - 1].kind;
      PostedEvents(init) + Fresh(Sum(init).top, k)
  }

  function Fresh(top: nat, k: Kind): seq<HermesEvent> {
    if k.Event? && k.number > top && k.body.Relayed? then [k.body.event] else []
  }

  lemma PostedOne(calls: seq<Call>, c: Call)
    ensures PostedEvents(calls + [c]) == PostedEvents(calls) + Fresh(Sum(calls).top, c.kind)
  {
    assert (calls + [c])[..|calls|] == calls;
  }

  /** What has been posted stays posted. */
  lemma {:induction false} PostedGrows(calls: seq<Call>, n: nat)
    requires n <= |calls|
    ensures PostedEvents(calls[..n]) <= PostedEvents(calls)
    decreases |calls|
  {
    if n == |calls| {
      assert calls[..n] == calls;
    } else {
      PostedGrows(calls[..|calls| - 1], n);
      assert calls[..|calls| - 1][..n] == calls[..n];
    }
  }

  predicate Relayable(e: HermesEvent) { e.name == MessageDelta || e.name == ActivityStarted || e.name == ActivityCompleted }

  function RelayableOf(events: seq<HermesEvent>): seq<HermesEvent> {
    if events == [] then [] else
      RelayableOf(events[..|events| - 1]) + if Relayable(events[|events| - 1]) then [events[|events| - 1]] else []
  }

  lemma RelayableOne(events: seq<HermesEvent>, e: HermesEvent)
    ensures RelayableOf(events + [e]) == RelayableOf(events) + if Relayable(e) then [e] else []
  {
    assert (events + [e])[..|events|] == events;
  }

  /** Everything that is not relayed carries no assistant text. */
  lemma {:induction false} RelayableKeepsText(events: seq<HermesEvent>)
    ensures TextOf(RelayableOf(events)) == TextOf(events)
  {
    if events != [] {
      var init, e := events[..|events| - 1], events[|events| - 1];
      RelayableKeepsText(init);
      assert TextOf(events) == TextOf(init) + e.Text();
      RelayableOne(init, e);
      assert init + [e] == events;
      if Relayable(e) {
        TextOfConcat(RelayableOf(init), [e]);
        assert [e][..0] == [];
      } else {
        assert RelayableOf(events) == RelayableOf(init);
        assert TextOf(init) + "" == TextOf(init);
      }
    }
  }

  // ---------------------------------------------------------------- laws of lawful logs

  lemma {:induction false} TopBounds(calls: seq<Call>, i: nat)
    requires i < |calls| && calls[i].kind.Event?
    ensures calls[i].kind.number <= Sum(calls).top
    decreases |calls|
  {
    if i < |calls| - 1 { TopBounds(calls[..|calls| - 1], i); }
  }

  lemma {:induction false} At(calls: seq<Call>, n: nat)
    requires Lawful(calls) && n <= |calls|
    ensures Lawful(calls[..n])
    ensures n < |calls| ==> MayFollow(calls[..n], calls[n].kind, calls[n].lost) && LossLasts(calls[..n], calls[n].lost)
    decreases |calls|
  {
    if n == |calls| {
      assert calls[..n] == calls;
    } else if n < |calls| - 1 {
      var init := calls[..|calls| - 1];
      At(init, n);
      assert init[..n] == calls[..n];
    }
  }

  /** A closing call is remembered, and so is its acknowledgement. */
  lemma {:induction false} ClosingIsNoted(calls: seq<Call>, i: nat)
    requires i < |calls| && Closing(calls[i].kind)
    ensures Sum(calls).tried && (calls[i].answer == Ok ==> Sum(calls).closed)
    decreases |calls|
  {
    if i < |calls| - 1 { ClosingIsNoted(calls[..|calls| - 1], i); }
  }

  /** Every number from 1 to the highest has been used: no gap, none above the limit. */
  lemma {:induction false} NoGap(calls: seq<Call>, q: nat)
    requires Lawful(calls) && 1 <= q <= Sum(calls).top
    ensures exists i :: 0 <= i < |calls| && calls[i].kind.Event? && calls[i].kind.number == q
    ensures Sum(calls).top <= MAX_EVENT_SEQUENCE
  {
    var init, k := calls[..|calls| - 1], calls[|calls| - 1].kind;
    if k.Event? && Replays(init, k) { TopBounds(init, |init| - 1); }
    if q <= Sum(init).top {
      NoGap(init, q);
      var i :| 0 <= i < |init| && init[i].kind.Event? && init[i].kind.number == q;
      assert calls[i] == init[i];
    } else {
      assert calls[|calls| - 1].kind == k && k.Event? && k.number == q;
    }
  }

  /** Two posts of one number are one event and its immediate replay after a lost response: an event
      is sent at most twice, with the same content. */
  lemma {:induction false} SentAtMostTwice(calls: seq<Call>, i: nat, j: nat)
    requires Lawful(calls) && i < j < |calls|
    requires calls[i].kind.Event? && calls[j].kind.Event? && calls[i].kind.number == calls[j].kind.number
    ensures j == i + 1 && calls[j].kind == calls[i].kind && calls[i].answer == Lost
    decreases j
  {
    var before := calls[..j];
    At(calls, j);
    TopBounds(before, i);
    assert Replays(before, calls[j].kind);
    if i < j - 1 { SentAtMostTwice(calls, i, j - 1); }
  }

  /** First sendings come one by one, and none once the lease is known to be lost. */
  lemma FreshIsNext(calls: seq<Call>, i: nat)
    requires Lawful(calls) && i < |calls| && calls[i].kind.Event? && calls[i].kind.number > Sum(calls[..i]).top
    ensures calls[i].kind.number == Sum(calls[..i]).top + 1 <= MAX_EVENT_SEQUENCE
    ensures forall h :: 0 <= h <= i ==> !calls[h].lost
    ensures MaySay(calls[..i], calls[i].kind.number, calls[i].kind.body)
  {
    At(calls, i);
    if Replays(calls[..i], calls[i].kind) { TopBounds(calls[..i], i - 1); }
    forall h | 0 <= h <= i ensures !calls[h].lost { if calls[h].lost { LossIsForGood(calls, h, i); } }
  }

  lemma {:induction false} LossIsForGood(calls: seq<Call>, i: nat, j: nat)
    requires Lawful(calls) && i <= j < |calls| && calls[i].lost
    ensures calls[j].lost
    decreases j - i
  {
    if i < j {
      LossIsForGood(calls, i, j - 1);
      At(calls, j);
      assert calls[..j][j - 1] == calls[j - 1];
    }
  }

  /** The first call made when the lease is known to be lost may be the replay under way; after it no
      event is sent at all. */
  lemma NothingNewAfterLoss(calls: seq<Call>, i: nat, j: nat)
    requires Lawful(calls) && i <= j < |calls| && calls[i].lost && calls[j].kind.Event?
    ensures j == i && i > 0 && calls[i - 1].kind == calls[i].kind && calls[i - 1].answer == Lost && !calls[i - 1].lost
  {
    LostEventReplays(calls, i, j);
    if i < j { LossIsForGood(calls, i, j - 1); }
  }

  lemma LostEventReplays(calls: seq<Call>, i: nat, j: nat)
    requires Lawful(calls) && i <= j < |calls| && calls[i].lost && calls[j].kind.Event?
    ensures j > 0 && calls[j - 1].kind == calls[j].kind && calls[j - 1].answer == Lost && !calls[j - 1].lost
  {
    var k := calls[j].kind;
    LossIsForGood(calls, i, j);
    At(calls, j);
    assert calls[..j][j - 1] == calls[j - 1] && Replays(calls[..j], k);
  }

  /** Terminal calls are numbered above every event, inside the reserved slot, and no event follows. */
  lemma TerminalIsLast(calls: seq<Call>, i: nat, j: nat)
    requires Lawful(calls) && i < |calls| && j < |calls| && calls[i].kind.Event? && Closing(calls[j].kind)
    ensures i < j && (Numbered(calls[j].kind) ==> calls[i].kind.number < calls[j].kind.number <= MAX_TERMINAL_SEQUENCE)
  {
    At(calls, j);
    At(calls, i);
    if i < j {
      TopBounds(calls[..j], i);
    } else {
      ClosingIsNoted(calls[..i], j);
    }
  }

  /** At most one closing call is acknowledged, and it is the last closing call. */
  lemma ClosedOnce(calls: seq<Call>, i: nat, j: nat)
    requires Lawful(calls) && i < |calls| && j < |calls| && Closing(calls[i].kind) && Closing(calls[j].kind)
    requires calls[i].answer == Ok
    ensures j <= i
  {
    if i < j {
      At(calls, j);
      ClosingIsNoted(calls[..j], i);
    }
  }

  /** A conclusion and its resends are one call: no other closing call comes before it, and it leaves no
      approval unanswered. */
  lemma ConclusionComesFirst(calls: seq<Call>, i: nat, j: nat)
    requires Lawful(calls) && i < j < |calls| && Closing(calls[i].kind) && Concluding(calls[j].kind)
    ensures calls[j - 1].kind == calls[j].kind && calls[j - 1].answer == Lost
  {
    At(calls, j);
    ClosingIsNoted(calls[..j], i);
    assert calls[..j][j - 1] == calls[j - 1];
  }

  /** The ledger names the one conclusion that was sent. */
  lemma {:induction false} ConclusionIsNoted(calls: seq<Call>, i: nat)
    requires Lawful(calls) && i < |calls| && Concluding(calls[i].kind)
    ensures Sum(calls).conclusion == Some(calls[i].kind) && Sum(calls).tried
    decreases |calls|
  {
    var init, k := calls[..|calls| - 1], calls[|calls| - 1].kind;
    if i < |calls| - 1 {
      ConclusionIsNoted(init, i);
      if Concluding(k) { ConclusionIsNoted(init, |init| - 1); }
    }
  }

  lemma {:induction false} ConclusionLeavesNothingOpen(calls: seq<Call>, i: nat)
    requires Lawful(calls) && i < |calls| && Concluding(calls[i].kind)
    ensures Sum(calls[..i]).awaiting.None?
    decreases i
  {
    At(calls, i);
    if Resends(calls[..i], calls[i].kind) {
      ConclusionLeavesNothingOpen(calls, i - 1);
      assert calls[..i] == calls[..i - 1] + [calls[i - 1]];
      SumOne(calls[..i - 1], calls[i - 1]);
    }
  }

  /** A failure is never reported over a conclusion whose outcome is unknown: when one follows it, the
      conclusion was refused. */
  lemma FailureKnowsOfConclusion(calls: seq<Call>, i: nat, j: nat)
    requires Lawful(calls) && i < j < |calls| && Concluding(calls[i].kind) && Numbered(calls[j].kind) && calls[j].kind != calls[i].kind
    requires forall k :: i < k < j ==> !Numbered(calls[k].kind)
    ensures calls[i].answer == Answer.Rejected || calls[i].answer == Transient
  {
    At(calls, j);
    RefusedSince(calls, i, j);
  }

  lemma {:induction false} RefusedSince(calls: seq<Call>, i: nat, n: nat)
    requires i < n <= |calls| && Numbered(calls[i].kind) && forall k :: i < k < n ==> !Numbered(calls[k].kind)
    ensures Sum(calls[..n]).refused <==> calls[i].answer == Answer.Rejected || calls[i].answer == Transient
    decreases n
  {
    assert calls[..n][..n - 1] == calls[..n - 1];
    if i < n - 1 { RefusedSince(calls, i, n - 1); }
  }

  /** An approval is only sent to Hermes on a recorded approve for that very request. */
  lemma ApproveIsAuthorised(calls: seq<Call>, i: nat, request: RequestId)
    requires Lawful(calls) && i < |calls| && calls[i].kind == Decide(request, true)
    ensures Authorised(calls[..i], request, true)
  {
    At(calls, i);
  }

  /** A resolution answers the request announced last, and says how the wait for it was settled. */
  lemma ResolutionIsFounded(calls: seq<Call>, i: nat)
    requires Lawful(calls) && i < |calls| && calls[i].kind.Event? && calls[i].kind.body.ApprovalResolved?
    requires calls[i].kind.number > Sum(calls[..i]).top
    ensures var b := calls[i].kind.body;
      Sum(calls[..i]).awaiting == Some(b.request)
      && exists s :: HasCall(calls[..i], Settled(b.request, s)) && Agrees(s, b.outcome) && SettlementOk(calls[..i], b.request, s)
  {
    var b, before := calls[i].kind.body, calls[..i];
    FreshIsNext(calls, i);
    var s :| HasCall(before, Settled(b.request, s)) && Agrees(s, b.outcome);
    SettledIsFounded(calls, i, b.request, s);
  }

  /** One that says "approved" is only posted after such an approval was sent to Hermes. */
  lemma ApprovedIsFounded(calls: seq<Call>, i: nat)
    requires Lawful(calls) && i < |calls| && calls[i].kind.Event? && calls[i].kind.body.ApprovalResolved?
    requires calls[i].kind.number > Sum(calls[..i]).top && calls[i].kind.body.outcome == Approved
    ensures var request := calls[i].kind.body.request;
      HasCall(calls[..i], Decide(request, true)) && Authorised(calls[..i], request, true)
  {
    ResolutionIsFounded(calls, i);
  }

  lemma SettledIsFounded(calls: seq<Call>, i: nat, request: RequestId, s: Settlement)
    requires Lawful(calls) && i <= |calls| && HasCall(calls[..i], Settled(request, s))
    ensures SettlementOk(calls[..i], request, s)
  {
    hide Lawful, Sum, Authorised, PostedEvents;
    var before := calls[..i];
    var k :| 0 <= k < |before| && before[k].kind == Settled(request, s);
    At(calls, k);
    assert before == calls[..k] + calls[k..i];
    assert SettlementOk(calls[..k], request, s);
    if s.ByDecision? {
      HasMore(calls[..k], calls[k..i], Decide(request, s.approve));
      AuthorisedMore(calls[..k], calls[k..i], request, s.approve);
    } else if s.outcome.Cancelled? {
      var a :| HasCall(calls[..k], Decide(request, a));
      HasMore(calls[..k], calls[k..i], Decide(request, a));
    }
  }

  /** When a closing call goes out, every event that will ever be posted has been. */
  lemma {:induction false} PostedBeforeClosing(calls: seq<Call>, i: nat)
    requires Lawful(calls) && i < |calls| && Closing(calls[i].kind)
    ensures PostedEvents(calls[..i]) == PostedEvents(calls)
    decreases |calls|
  {
    var init := calls[..|calls| - 1];
    assert init[..i] == calls[..i];
    if i < |calls| - 1 {
      ClosingIsNoted(init, i);
      PostedBeforeClosing(init, i);
    }
  }
}
