/** What the calls of a claim are based on: the answers received, and the clock readings taken between
    them. */
module ClaimEvidence {
  import opened Events
  import opened ClaimCalls

  datatype Progress = DecisionRecorded | HasExpired | WasCancelled | OutcomeUnknown | StillOpen

  /** An approval status as Foundry reports it; a decision or deadline that does not parse is `None`. */
  datatype Status = Status(request: Option<RequestId>, progress: Progress, approve: Option<bool>, ack: Deadline)
  datatype Deadline = Missing | Garbled | Until(time: real)

  /** What Hermes says about a decision: taken with an outcome, lapsed with one, or not yet. */
  datatype Receipt = Plain | Taken(outcome: Option<ApprovalOutcome>) | GivenUp(lapse: ApprovalOutcome, consistent: bool)

  /** One awaited answer; `leaseLost` says that the lease could not be renewed meanwhile. */
  datatype Reply = Reply(answer: Answer, leaseLost: bool, status: Status, receipt: Receipt)

  datatype Fault = ResponseLost | LeaseFenced | Refused | HermesFault | BootstrapLost | Cancellation | Death

  /** How an approval wait ended. */
  datatype Wait = Decided(approve: bool, ack: Option<real>) | Lapse(outcome: ApprovalOutcome) | Unknown | Failed(fault: Fault)

  function FaultOf(a: Answer): Fault
    requires a != Ok
  {
    match a
    case Lost => ResponseLost
    case Fenced => LeaseFenced
    case Rejected => Refused
    case Transient => Refused
    case Cancelled => Cancellation
    case _ => Death
  }

  /** What one poll says about the wait, if anything. */
  function Judge(request: RequestId, r: Reply): (w: Option<Wait>)
    ensures w.Some? && w.value.Lapse? ==> w.value.outcome == Expired || w.value.outcome == ApprovalOutcome.Cancelled
    ensures forall approve, ack :: w == Some(Decided(approve, Some(ack))) <==> Reports(r, request, approve, ack)
    ensures r.answer == Killed ==> w == Some(Wait.Failed(Death))
  {
    if r.answer == TimedOut then Some(Lapse(Expired))
    else if r.answer == Lost || r.answer == Transient then None
    else if r.answer != Ok then Some(Wait.Failed(FaultOf(r.answer)))
    else if r.status.request != Some(request) then Some(Wait.Failed(Refused))
    else match r.status.progress
      case DecisionRecorded =>
        if r.status.approve.None? || r.status.ack.Missing? then Some(Wait.Failed(Refused))
        else Some(Decided(r.status.approve.value, if r.status.ack.Until? then Some(r.status.ack.time) else None))
      case HasExpired => Some(Lapse(Expired))
      case WasCancelled => Some(Lapse(ApprovalOutcome.Cancelled))
      case OutcomeUnknown => Some(Unknown)
      case StillOpen => None
  }

  /** The answer is a recorded decision about exactly this request, with its acknowledgement deadline. */
  predicate Reports(r: Reply, request: RequestId, approve: bool, ack: real) {
    r.answer == Ok && r.status == Status.Status(Some(request), DecisionRecorded, Some(approve), Until(ack))
  }

  predicate GaveUp(r: Receipt) { r.GivenUp? && (r.lapse == Expired || r.lapse == ApprovalOutcome.Cancelled) }

  /** Among these answers Hermes reported that the wait had lapsed. */
  ghost predicate LapseReported(replies: seq<Reply>, s: Settlement, from: nat, until: nat) {
    exists i :: from <= i < until <= |replies| && GaveUp(replies[i].receipt) && s == Lapsed(replies[i].receipt.lapse)
  }

  /** Among these answers Hermes reported that it took the decision. */
  ghost predicate TakenReported(replies: seq<Reply>, approve: bool, from: nat, until: nat) {
    exists i :: from <= i < until <= |replies|
      && replies[i].receipt == Taken(Some(if approve then Approved else ApprovalOutcome.Rejected))
  }

  /** The answer received after `n` others; when there are no more, the process has died. */
  function ReplyAt(replies: seq<Reply>, n: nat): Reply {
    if n < |replies| then replies[n] else Reply(Killed, false, Status.Status(None, StillOpen, None, Missing), Plain)
  }

  /** How a poll with this answer is entered into the log. */
  function PollKind(request: RequestId, r: Reply): (k: Kind)
    ensures k.Recorded? || k.Polled?
    ensures var j := Judge(request, r);
      j.Some? && j.value.Decided? && j.value.ack.Some? ==> k == Recorded(request, j.value.approve, j.value.ack.value)
    ensures k.request == request && (k.Recorded? ==> Reports(r, request, k.approve, k.ack))
  {
    match Judge(request, r)
    case Some(Decided(approve, Some(ack))) => Recorded(request, approve, ack)
    case _ => Polled(request)
  }

  // ---------------------------------------------------------------- the state of an approval

  /** Where the approval announced last stands, as the answers say: nothing announced; waited for, `at`
      being the number of answers when it was announced or last polled; a poll has said how the wait
      ends; the answer of Hermes to the decision was lost; it is known how the wait ended; this has been
      entered; or the claim cannot go on. */
  datatype Phase =
    | Idle
    | Open(request: RequestId, expiry: real, polled: bool, at: nat)
    | Told(request: RequestId, expiry: real, w: Wait, at: nat)
    | Unsure(request: RequestId, approve: bool, ack: real, asked: bool, at: nat)
    | Resolved(request: RequestId, settlement: Settlement)
    | Closed(request: RequestId, settlement: Settlement)
    | Stuck

  function PhaseOf(calls: seq<Call>, replies: seq<Reply>): Phase {
    if calls == [] then Idle
    else Next(PhaseOf(calls[..|calls| - 1], replies), calls[|calls| - 1], replies)
  }

  function Next(ph: Phase, c: Call, replies: seq<Reply>): Phase {
    match c.kind
    case Recorded(_, _, _) => AfterPoll(ph, ReplyAt(replies, c.seen), c.seen + 1)
    case Polled(_) => AfterPoll(ph, ReplyAt(replies, c.seen), c.seen + 1)
    case Decide(_, _) => AfterDecision(ph, ReplyAt(replies, c.seen), c.seen + 1)
    case Queried(_) => AfterQuery(ph, ReplyAt(replies, c.seen), c.seen + 1)
    case Settled(request, s) => Closed(request, s)
    case _ => Spoken(ph, c.kind, c.answer, c.seen + 1)
  }

  /** An acknowledged announcement opens the wait, an acknowledged resolution clears it away. */
  function Spoken(ph: Phase, k: Kind, answer: Answer, at: nat): Phase {
    if !k.Event? || answer != Ok then ph
    else match k.body
      case AwaitingAction(request, _, expiry) => Open(request, expiry, false, at)
      case ApprovalResolved(_, _) => Idle
      case _ => ph
  }

  /** The first poll that says anything ends the wait. */
  function AfterPoll(ph: Phase, r: Reply, at: nat): Phase {
    if !ph.Open? then Stuck
    else match Judge(ph.request, r)
      case None => Open(ph.request, ph.expiry, true, at)
      case Some(w) => Told(ph.request, ph.expiry, w, at)
  }

  function AfterDecision(ph: Phase, r: Reply, at: nat): Phase {
    if !ph.Told? then Stuck
    else if r.answer == Ok then Resolved(ph.request, Verdict(ph.w, r.receipt))
    else if r.answer == Lost && ph.w.Decided? && ph.w.ack.Some? then Unsure(ph.request, ph.w.approve, ph.w.ack.value, false, at)
    else Stuck
  }

  /** How the wait ends when Hermes answers a decision: a lapse it reports comes before the decision. */
  function Verdict(w: Wait, receipt: Receipt): Settlement {
    if GaveUp(receipt) then Lapsed(receipt.lapse)
    else if w.Decided? then ByDecision(w.approve) else Lapsed(ApprovalOutcome.Cancelled)
  }

  function AfterQuery(ph: Phase, r: Reply, at: nat): Phase {
    if !ph.Unsure? || (r.answer != Ok && r.answer != Lost) then Stuck
    else if r.answer == Ok && r.receipt.Taken? then
      if r.receipt.outcome == Some(if ph.approve then Approved else ApprovalOutcome.Rejected)
      then Resolved(ph.request, ByDecision(ph.approve)) else Stuck
    else if r.answer == Ok && GaveUp(r.receipt) then
      if r.receipt.consistent then Resolved(ph.request, Lapsed(r.receipt.lapse)) else Stuck
    else Unsure(ph.request, ph.approve, ph.ack, true, at)
  }

  lemma PhaseOne(calls: seq<Call>, c: Call, replies: seq<Reply>)
    ensures PhaseOf(calls + [c], replies) == Next(PhaseOf(calls, replies), c, replies)
  {
    assert (calls + [c])[..|calls|] == calls;
  }

  // ---------------------------------------------------------------- evidence

  /** The answers; the clock, whose reading `clock(n, k)` is the k-th taken after `n` answers; and the
      answer from which on the lease is being renewed. */
  datatype Evidence = Evidence(replies: seq<Reply>, clock: (nat, nat) -> real, watch: nat)
  {
    /** A renewal has failed within the first `n` answers. */
    ghost predicate LossBy(n: nat) { exists j :: watch <= j < n && j < |replies| && replies[j].leaseLost }

    /** The reading taken `back` readings ago, with no await since. */
    function Reading(c: Call, back: nat): real
      requires back < c.ticked
    {
      clock(c.seen, c.ticked - 1 - back)
    }

    /** At three readings since the last await: both deadlines lay ahead, then the expiry, then the
        acknowledgement deadline. */
    predicate InTime(c: Call, expiry: real, ack: real) {
      && c.ticked >= 3 && Reading(c, 2) < expiry && Reading(c, 2) < ack
      && Reading(c, 1) < expiry && Reading(c, 0) < ack
    }
  }

  /** Which call about an approval may be made in which state, and at which clock readings. */
  predicate Fits(ph: Phase, c: Call, ev: Evidence) {
    match c.kind
    case Event(_, body) => Says(ph, body)
    case Recorded(request, _, _) => FitsPoll(ph, c, request, ev)
    case Polled(request) => FitsPoll(ph, c, request, ev)
    case Decide(request, approve) => FitsDecision(ph, c, request, approve, ev)
    case Queried(request) => FitsQuery(ph, c, request, ev)
    case Settled(request, s) => FitsSettlement(ph, c, request, s, ev)
    case _ => true
  }

  /** No event is posted during the wait; a resolution says how it was settled. */
  predicate Says(ph: Phase, body: Body) {
    match body
    case AwaitingAction(_, _, _) => ph.Idle?
    case ApprovalResolved(request, outcome) => ph.Closed? && ph.request == request && Agrees(ph.settlement, outcome)
    case _ => ph.Idle? || ph.Closed?
  }

  /** A poll goes out before the expiry: at once after the announcement, and then one pause after a poll
      that said nothing and was not followed by the expiry. */
  predicate FitsPoll(ph: Phase, c: Call, request: RequestId, ev: Evidence) {
    && ph.Open? && ph.request == request && !c.lost && c.kind == PollKind(request, ReplyAt(ev.replies, c.seen))
    && c.ticked == 1 && ev.clock(c.seen, 0) < ph.expiry
    && (if ph.polled then c.seen == ph.at + 1 && ev.clock(ph.at, 0) < ph.expiry else c.seen == ph.at)
  }

  /** A decision goes out right after the poll that recorded it, in time; a rejection also after a poll
      that said "cancelled". */
  predicate FitsDecision(ph: Phase, c: Call, request: RequestId, approve: bool, ev: Evidence) {
    && ph.Told? && ph.request == request && !c.lost && c.seen == ph.at && ev.clock(c.seen, 0) < ph.expiry
    && if ph.w.Decided?
       then ph.w.ack.Some? && approve == ph.w.approve && c.ticked == 4 && ev.InTime(c, ph.expiry, ph.w.ack.value)
       else ph.w == Lapse(ApprovalOutcome.Cancelled) && !approve && c.ticked == 2 && ev.clock(c.seen, 1) < ph.expiry
  }

  /** Hermes is asked before the acknowledgement deadline, one pause after an answer that said nothing. */
  predicate FitsQuery(ph: Phase, c: Call, request: RequestId, ev: Evidence) {
    && ph.Unsure? && ph.request == request && c.ticked == 1 && ev.clock(c.seen, 0) < ph.ack
    && c.seen == if ph.asked then ph.at + 1 else ph.at
  }

  /** A wait is settled once: as Hermes has answered, or as expired, when a poll or the clock says so. */
  predicate FitsSettlement(ph: Phase, c: Call, request: RequestId, s: Settlement, ev: Evidence) {
    match ph
    case Resolved(r, t) => request == r && s == t
    case Open(r, expiry, _, _) => request == r && s == Lapsed(Expired) && !c.lost && c.ticked > 0 && expiry <= ev.Reading(c, 0)
    case Told(r, expiry, w, at) =>
      && request == r && s == Lapsed(Expired) && !c.lost && c.seen == at
      && (w == Lapse(Expired) || ((w.Lapse? || w.Decided?) && c.ticked == 1 && expiry <= ev.clock(c.seen, 0)))
    case _ => false
  }

  /** A decision goes out in time; only a rejection may go out without one on record, before the expiry. */
  ghost predicate DecidedInTime(before: seq<Call>, c: Call, request: RequestId, approve: bool, ev: Evidence) {
    || (exists expiry, ack :: Announced(before, request, expiry) && HasCall(before, Recorded(request, approve, ack)) && ev.InTime(c, expiry, ack))
    || (!approve && c.ticked > 0 && exists expiry :: Announced(before, request, expiry) && ev.Reading(c, 0) < expiry)
  }

  /** What the call rests on. */
  ghost predicate Backed(before: seq<Call>, c: Call, ev: Evidence) {
    && c.seen <= |ev.replies| && (ev.LossBy(c.seen) ==> c.lost)
    && c.answer == (if c.kind.Settled? then Ok else ReplyAt(ev.replies, c.seen).answer)
    && Fits(PhaseOf(before, ev.replies), c, ev)
    && match c.kind
       case Recorded(request, approve, ack) => c.seen < |ev.replies| && Reports(ev.replies[c.seen], request, approve, ack)
       case Decide(request, approve) => DecidedInTime(before, c, request, approve, ev)
       case _ => true
  }

  ghost predicate AllBacked(calls: seq<Call>, ev: Evidence) {
    forall i :: 0 <= i < |calls| ==> Backed(calls[..i], calls[i], ev)
  }

  lemma BackedOne(calls: seq<Call>, c: Call, ev: Evidence)
    requires AllBacked(calls, ev) && Backed(calls, c, ev)
    ensures AllBacked(calls + [c], ev)
  {
    hide Backed;
    var after := calls + [c];
    forall i | 0 <= i < |after| ensures Backed(after[..i], after[i], ev) {
      if i < |calls| { assert after[..i] == calls[..i]; } else { assert after[..i] == calls; }
    }
  }

  /** Renewal begins after all these calls were made: nothing changes for them. */
  lemma WatchFrom(calls: seq<Call>, ev: Evidence, watch: nat)
    requires AllBacked(calls, ev) && forall c | c in calls :: c.seen <= watch
    ensures AllBacked(calls, ev.(watch := watch))
  {
    hide PhaseOf, Fits;
    forall i | 0 <= i < |calls| ensures Backed(calls[..i], calls[i], ev.(watch := watch)) {
      assert Backed(calls[..i], calls[i], ev);
      assert calls[i] in calls;
      SameTime(calls[..i], calls[i], ev, watch);
      SameFit(PhaseOf(calls[..i], ev.replies), calls[i], ev, watch);
    }
  }

  lemma SameTime(before: seq<Call>, c: Call, ev: Evidence, watch: nat)
    ensures c.kind.Decide? ==>
      (DecidedInTime(before, c, c.kind.request, c.kind.approve, ev) <==> DecidedInTime(before, c, c.kind.request, c.kind.approve, ev.(watch := watch)))
  {
    var w := ev.(watch := watch);
    assert forall expiry, ack :: ev.InTime(c, expiry, ack) <==> w.InTime(c, expiry, ack);
    assert c.ticked > 0 ==> ev.Reading(c, 0) == w.Reading(c, 0);
  }

  lemma SameFit(ph: Phase, c: Call, ev: Evidence, watch: nat)
    ensures Fits(ph, c, ev) <==> Fits(ph, c, ev.(watch := watch))
  {
    var w := ev.(watch := watch);
    assert forall expiry, ack :: ev.InTime(c, expiry, ack) <==> w.InTime(c, expiry, ack);
    assert c.ticked > 0 ==> ev.Reading(c, 0) == w.Reading(c, 0);
  }

  // ---------------------------------------------------------------- what follows

  /** An approve goes out only when an earlier poll for this very request was answered with a recorded
      approve, at a moment before both the announced expiry and the acknowledgement deadline, and with
      no await between that moment and the sending. */
  lemma ApproveIsInTime(calls: seq<Call>, ev: Evidence, i: nat, request: RequestId)
    requires AllBacked(calls, ev) && i < |calls| && calls[i].kind == Decide(request, true)
    ensures exists p, k: nat, expiry, ack ::
      && 0 <= p < i && calls[p].kind == Recorded(request, true, ack) && calls[p].seen < |ev.replies|
      && Reports(ev.replies[calls[p].seen], request, true, ack)
      && Announced(calls[..i], request, expiry) && k < calls[i].ticked
      && ev.clock(calls[i].seen, k) < ack && ev.clock(calls[i].seen, k) < expiry
  {
    var expiry, ack := TimelyApprove(calls, ev, i, request);
    hide Backed, AllBacked, Announced, HasCall, Reports;
    var p := FindCall(calls[..i], Recorded(request, true, ack));
    RecordedIsReported(calls, ev, p, request, true, ack);
    var c := calls[i];
    assert ev.clock(c.seen, c.ticked - 3) == ev.Reading(c, 2);
  }

  /** The last two readings before an approve goes out are taken after the last await as well: the
      expiry is still ahead at the one, the acknowledgement deadline at the other. */
  lemma ApproveIsCheckedLast(calls: seq<Call>, ev: Evidence, i: nat, request: RequestId)
    requires AllBacked(calls, ev) && i < |calls| && calls[i].kind == Decide(request, true)
    ensures calls[i].ticked >= 3 && exists expiry, ack ::
      Announced(calls[..i], request, expiry) && HasCall(calls[..i], Recorded(request, true, ack))
      && ev.Reading(calls[i], 1) < expiry && ev.Reading(calls[i], 0) < ack
  {
    var expiry, ack := TimelyApprove(calls, ev, i, request);
  }

  lemma TimelyApprove(calls: seq<Call>, ev: Evidence, i: nat, request: RequestId) returns (expiry: real, ack: real)
    requires AllBacked(calls, ev) && i < |calls| && calls[i].kind == Decide(request, true)
    ensures Announced(calls[..i], request, expiry) && HasCall(calls[..i], Recorded(request, true, ack)) && ev.InTime(calls[i], expiry, ack)
  {
    hide PhaseOf, Fits, Announced, HasCall, Evidence.InTime;
    var c, before := calls[i], calls[..i];
    assert Backed(before, c, ev);
    expiry, ack :| Announced(before, request, expiry) && HasCall(before, Recorded(request, true, ack)) && ev.InTime(c, expiry, ack);
  }

  lemma RecordedIsReported(calls: seq<Call>, ev: Evidence, p: nat, request: RequestId, approve: bool, ack: real)
    requires AllBacked(calls, ev) && p < |calls| && calls[p].kind == Recorded(request, approve, ack)
    ensures calls[p].seen < |ev.replies| && Reports(ev.replies[calls[p].seen], request, approve, ack)
  {
    hide PhaseOf, Fits, Reports;
    assert Backed(calls[..p], calls[p], ev);
  }

  /** So a resolution that says "approved" is only ever posted after such a timely approve. */
  lemma ApprovedIsInTime(calls: seq<Call>, ev: Evidence, i: nat)
    requires Lawful(calls) && AllBacked(calls, ev) && i < |calls| && calls[i].kind.Event? && calls[i].kind.body.ApprovalResolved?
    requires calls[i].kind.number > Sum(calls[..i]).top && calls[i].kind.body.outcome == Approved
    ensures exists d, p, k: nat, expiry, ack :: var request := calls[i].kind.body.request;
      && 0 <= p < d < i && calls[d].kind == Decide(request, true)
      && calls[p].kind == Recorded(request, true, ack) && calls[p].seen < |ev.replies|
      && Reports(ev.replies[calls[p].seen], request, true, ack)
      && Announced(calls[..d], request, expiry) && k < calls[d].ticked
      && ev.clock(calls[d].seen, k) < ack && ev.clock(calls[d].seen, k) < expiry
  {
    var request := calls[i].kind.body.request;
    ApprovedIsFounded(calls, i);
    hide *;
    var d := FindCall(calls[..i], Decide(request, true));
    ApproveIsInTime(calls, ev, d, request);
  }

  lemma FindCall(calls: seq<Call>, k: Kind) returns (d: nat)
    requires HasCall(calls, k)
    ensures d < |calls| && calls[d].kind == k
  {
    d :| 0 <= d < |calls| && calls[d].kind == k;
  }

  /** Whatever goes to Hermes goes out before the announced expiry. */
  lemma DecisionsBeatExpiry(calls: seq<Call>, ev: Evidence, i: nat)
    requires AllBacked(calls, ev) && i < |calls| && calls[i].kind.Decide?
    ensures exists k: nat, expiry :: k < calls[i].ticked && Announced(calls[..i], calls[i].kind.request, expiry) && ev.clock(calls[i].seen, k) < expiry
  {
    hide PhaseOf, Fits, Judge;
    var c, before, request := calls[i], calls[..i], calls[i].kind.request;
    assert Backed(before, c, ev);
    if expiry, ack :| Announced(before, request, expiry) && HasCall(before, Recorded(request, c.kind.approve, ack)) && ev.InTime(c, expiry, ack) {
      assert ev.clock(c.seen, c.ticked - 2) == ev.Reading(c, 1);
    } else {
      var expiry :| Announced(before, request, expiry) && ev.Reading(c, 0) < expiry;
      assert ev.clock(c.seen, c.ticked - 1) == ev.Reading(c, 0);
    }
  }

  /** Once an answer has brought the loss of the lease, every call made after it knows: no event goes out
      for the first time, and none at all after the first such call, which may be the replay under way. */
  lemma LossStopsEvents(calls: seq<Call>, ev: Evidence, n: nat, i: nat, j: nat)
    requires Lawful(calls) && AllBacked(calls, ev) && i <= j < |calls| && calls[j].kind.Event?
    requires ev.watch <= n < calls[i].seen && n < |ev.replies| && ev.replies[n].leaseLost
    ensures j == i && i > 0 && calls[i - 1].kind == calls[i].kind && calls[i - 1].answer == Lost && !calls[i - 1].lost
    ensures calls[i].kind.number <= Sum(calls[..i]).top
  {
    hide PhaseOf, Fits, Judge;
    assert Backed(calls[..i], calls[i], ev);
    NothingNewAfterLoss(calls, i, j);
    assert calls[..i][i - 1] == calls[i - 1];
    TopBounds(calls[..i], i - 1);
  }
}
