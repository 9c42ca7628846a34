/** What every lawful and backed log says about approvals: the wait for one only moves forward, what has
    ended it stands, and how it was settled was earned. */
module ApprovalLaws {
  import opened Events
  import opened ClaimCalls
  import opened ClaimEvidence

  /** An acknowledged announcement: the wait for a new approval begins. */
  predicate Opens(c: Call) { c.kind.Event? && c.kind.body.AwaitingAction? && c.answer == Ok }

  /** No new approval is announced strictly between. */
  ghost predicate Quiet(calls: seq<Call>, from: int, until: int)
    requires until <= |calls|
  {
    forall k :: 0 <= k < until && from < k ==> !Opens(calls[k])
  }

  predicate IsPoll(k: Kind, request: RequestId) { (k.Recorded? || k.Polled?) && k.request == request }

  /** A poll that said how the wait for the request ends. */
  predicate Tells(c: Call, replies: seq<Reply>, request: RequestId, w: Wait) {
    IsPoll(c.kind, request) && Judge(request, ReplyAt(replies, c.seen)) == Some(w)
  }

  /** Hermes answered a decision or a question about the request that the wait had lapsed. */
  predicate ReportsLapse(c: Call, replies: seq<Reply>, request: RequestId, s: Settlement) {
    var r := ReplyAt(replies, c.seen);
    && (c.kind.Decide? || c.kind.Queried?) && c.kind.request == request
    && c.answer == Ok && GaveUp(r.receipt) && s == Lapsed(r.receipt.lapse)
  }

  /** What a call may be once it is known that the wait for the request ended like this: no poll, no
      decision, no other settlement, and no resolution that says otherwise. */
  predicate Obeys(k: Kind, request: RequestId, s: Settlement) {
    match k
    case Event(_, ApprovalResolved(r, outcome)) => r == request && Agrees(s, outcome)
    case Event(_, _) => true
    case Settled(r, t) => r == request && t == s
    case _ => !k.Recorded? && !k.Polled? && !k.Decide? && !k.Queried?
  }

  /** What a call may be once the wait for the request has lapsed: no poll, no approve, and no settlement
      or resolution other than a lapse. */
  predicate Yields(k: Kind, request: RequestId) {
    match k
    case Event(_, ApprovalResolved(r, outcome)) => r == request && (outcome == Expired || outcome == ApprovalOutcome.Cancelled)
    case Event(_, _) => true
    case Settled(r, t) => r == request && t.Lapsed?
    case Decide(r, approve) => r == request && !approve
    case _ => !k.Recorded? && !k.Polled? && !k.Queried?
  }

  // ---------------------------------------------------------------- one step

  lemma Step(calls: seq<Call>, ev: Evidence, i: nat)
    requires AllBacked(calls, ev) && i < |calls|
    ensures Fits(PhaseOf(calls[..i], ev.replies), calls[i], ev)
    ensures PhaseOf(calls[..i + 1], ev.replies) == Next(PhaseOf(calls[..i], ev.replies), calls[i], ev.replies)
    ensures calls[i].answer == if calls[i].kind.Settled? then Ok else ReplyAt(ev.replies, calls[i].seen).answer
  {
    assert Backed(calls[..i], calls[i], ev);
    hide PhaseOf, Fits, Next, AllBacked, DecidedInTime;
    assert calls[..i + 1] == calls[..i] + [calls[i]];
    PhaseOne(calls[..i], calls[i], ev.replies);
  }

  function Rank(ph: Phase): nat {
    match ph
    case Open(_, _, _, _) => 0
    case Told(_, _, _, _) => 1
    case Unsure(_, _, _, _, _) => 2
    case Resolved(_, _) => 3
    case Closed(_, _) => 4
    case Idle => 5
    case Stuck => 6
  }

  /** A poll is made in the first rank, a decision in the second, and a settlement before the fifth. */
  lemma StepRank(ph: Phase, c: Call, ev: Evidence)
    requires Fits(ph, c, ev)
    ensures c.kind.Recorded? || c.kind.Polled? ==>
      Rank(ph) == 0 && (Judge(c.kind.request, ReplyAt(ev.replies, c.seen)).Some? ==> Rank(Next(ph, c, ev.replies)) >= 1)
    ensures c.kind.Decide? ==> Rank(ph) == 1 && Rank(Next(ph, c, ev.replies)) >= 2
    ensures c.kind.Settled? ==> Rank(ph) <= 3 && Rank(Next(ph, c, ev.replies)) == 4
  {
    hide Judge, Evidence.InTime, Agrees, Verdict, GaveUp, PollKind;
  }

  lemma StepForward(ph: Phase, c: Call, ev: Evidence)
    requires Fits(ph, c, ev) && !Opens(c)
    ensures Rank(ph) <= Rank(Next(ph, c, ev.replies))
  {
    hide Judge, Evidence.InTime, Agrees, Verdict, GaveUp, PollKind;
  }

  /** Until the next announcement a wait only moves forward. */
  lemma {:induction false} OnlyForward(calls: seq<Call>, ev: Evidence, i: nat, j: nat)
    requires AllBacked(calls, ev) && i <= j <= |calls| && Quiet(calls, i - 1, j)
    ensures Rank(PhaseOf(calls[..i], ev.replies)) <= Rank(PhaseOf(calls[..j], ev.replies))
    decreases j
  {
    hide PhaseOf, AllBacked, Next, Fits, Rank;
    if i < j {
      OnlyForward(calls, ev, i, j - 1);
      Step(calls, ev, j - 1);
      StepForward(PhaseOf(calls[..j - 1], ev.replies), calls[j - 1], ev);
    }
  }

  // ---------------------------------------------------------------- each step once

  /** The first poll that says how the wait ends is the last one. */
  lemma JudgementEndsPolling(calls: seq<Call>, ev: Evidence, i: nat, j: nat, request: RequestId, w: Wait)
    requires AllBacked(calls, ev) && i < j < |calls| && Quiet(calls, i, j) && Tells(calls[i], ev.replies, request, w)
    ensures !calls[j].kind.Recorded? && !calls[j].kind.Polled?
  {
    hide PhaseOf, AllBacked, Next, Fits, Rank, Judge;
    Step(calls, ev, i);
    Step(calls, ev, j);
    OnlyForward(calls, ev, i + 1, j);
    StepRank(PhaseOf(calls[..i], ev.replies), calls[i], ev);
    StepRank(PhaseOf(calls[..j], ev.replies), calls[j], ev);
  }

  /** A decision is sent to Hermes once, and not resent when its answer is lost. */
  lemma DecidedOnce(calls: seq<Call>, ev: Evidence, i: nat, j: nat)
    requires AllBacked(calls, ev) && i < j < |calls| && Quiet(calls, i, j) && calls[i].kind.Decide?
    ensures !calls[j].kind.Decide? && !calls[j].kind.Recorded? && !calls[j].kind.Polled?
  {
    hide PhaseOf, AllBacked, Next, Fits, Rank, Judge;
    Step(calls, ev, i);
    Step(calls, ev, j);
    OnlyForward(calls, ev, i + 1, j);
    StepRank(PhaseOf(calls[..i], ev.replies), calls[i], ev);
    StepRank(PhaseOf(calls[..j], ev.replies), calls[j], ev);
  }

  /** One announcement is settled once. */
  lemma SettledOnce(calls: seq<Call>, ev: Evidence, i: nat, j: nat)
    requires AllBacked(calls, ev) && i < j < |calls| && Quiet(calls, i, j) && calls[i].kind.Settled?
    ensures !calls[j].kind.Settled?
  {
    hide PhaseOf, AllBacked, Next, Fits, Rank, Judge;
    Step(calls, ev, i);
    Step(calls, ev, j);
    OnlyForward(calls, ev, i + 1, j);
    StepRank(PhaseOf(calls[..i], ev.replies), calls[i], ev);
    StepRank(PhaseOf(calls[..j], ev.replies), calls[j], ev);
  }

  // ---------------------------------------------------------------- what has ended a wait stands

  /** It is settled, or can only be settled, like this. */
  predicate Final(ph: Phase, request: RequestId, s: Settlement, clock: (nat, nat) -> real) {
    match ph
    case Open(r, expiry, polled, at) =>
      r == request && s == Lapsed(Expired) && (expiry <= clock(at, 0) || (polled && expiry <= clock(at + 1, 0)))
    case Told(r, expiry, w, at) => r == request && s == Lapsed(Expired) && (w == Lapse(Expired) || expiry <= clock(at, 0))
    case Unsure(_, _, _, _, _) => false
    case Resolved(r, t) => r == request && t == s
    case Closed(r, t) => r == request && t == s
    case Idle => true
    case Stuck => true
  }

  lemma StepFinal(ph: Phase, c: Call, ev: Evidence, request: RequestId, s: Settlement)
    requires Fits(ph, c, ev) && Final(ph, request, s, ev.clock)
    ensures Obeys(c.kind, request, s) && (!Opens(c) ==> Final(Next(ph, c, ev.replies), request, s, ev.clock))
  {
    hide Judge, Agrees, Verdict, GaveUp, PollKind, Evidence.InTime;
  }

  lemma {:induction false} FinalStands(calls: seq<Call>, ev: Evidence, i: nat, j: nat, request: RequestId, s: Settlement)
    requires AllBacked(calls, ev) && i <= j < |calls| && Quiet(calls, i - 1, j)
    requires Final(PhaseOf(calls[..i], ev.replies), request, s, ev.clock)
    ensures Final(PhaseOf(calls[..j], ev.replies), request, s, ev.clock) && Obeys(calls[j].kind, request, s)
    decreases j
  {
    hide PhaseOf, AllBacked, Next, Fits, Final, Obeys;
    if i < j {
      FinalStands(calls, ev, i, j - 1, request, s);
      Step(calls, ev, j - 1);
    }
    Step(calls, ev, j);
    if i < j { StepFinal(PhaseOf(calls[..j - 1], ev.replies), calls[j - 1], ev, request, s); }
    StepFinal(PhaseOf(calls[..j], ev.replies), calls[j], ev, request, s);
  }

  /** The call brings to light how the wait ended: a poll says "expired", Hermes reports a lapse or that
      it took the decision, or the wait is settled. */
  ghost predicate Reveals(c: Call, replies: seq<Reply>, request: RequestId, s: Settlement) {
    || (Tells(c, replies, request, Lapse(Expired)) && s == Lapsed(Expired))
    || ReportsLapse(c, replies, request, s)
    || (c.kind == Queried(request) && c.answer == Ok && s.ByDecision?
        && ReplyAt(replies, c.seen).receipt == Taken(Some(if s.approve then Approved else ApprovalOutcome.Rejected)))
    || c.kind == Settled(request, s)
  }

  lemma RevealsFinal(calls: seq<Call>, ev: Evidence, i: nat, request: RequestId, s: Settlement)
    requires AllBacked(calls, ev) && i < |calls| && Reveals(calls[i], ev.replies, request, s)
    ensures Final(PhaseOf(calls[..i + 1], ev.replies), request, s, ev.clock)
  {
    hide PhaseOf, AllBacked, Next, Fits, Final, Reveals;
    Step(calls, ev, i);
    StepReveals(PhaseOf(calls[..i], ev.replies), calls[i], ev, request, s);
  }

  lemma StepReveals(ph: Phase, c: Call, ev: Evidence, request: RequestId, s: Settlement)
    requires Fits(ph, c, ev) && Reveals(c, ev.replies, request, s) && c.answer == if c.kind.Settled? then Ok else ReplyAt(ev.replies, c.seen).answer
    ensures Final(Next(ph, c, ev.replies), request, s, ev.clock)
  {
    hide Judge, PollKind, Evidence.InTime;
  }

  /** What has come to light stands: until the next announcement nothing is polled or decided any more,
      and every settlement and every resolution says just that. */
  lemma VerdictStands(calls: seq<Call>, ev: Evidence, i: nat, j: nat, request: RequestId, s: Settlement)
    requires AllBacked(calls, ev) && i < j < |calls| && Quiet(calls, i, j) && Reveals(calls[i], ev.replies, request, s)
    ensures Obeys(calls[j].kind, request, s)
  {
    RevealsFinal(calls, ev, i, request, s);
    FinalStands(calls, ev, i + 1, j, request, s);
  }

  // ---------------------------------------------------------------- a lapsed wait

  /** The wait has lapsed: a poll said so, Hermes reported it, or it was settled like that. */
  ghost predicate Lapses(c: Call, replies: seq<Reply>, request: RequestId) {
    || Tells(c, replies, request, Lapse(Expired)) || Tells(c, replies, request, Lapse(ApprovalOutcome.Cancelled))
    || ReportsLapse(c, replies, request, Lapsed(Expired)) || ReportsLapse(c, replies, request, Lapsed(ApprovalOutcome.Cancelled))
    || (c.kind.Settled? && c.kind.request == request && c.kind.settlement.Lapsed?)
  }

  predicate Lapsing(ph: Phase, request: RequestId) {
    match ph
    case Told(r, _, w, _) => r == request && w.Lapse?
    case Resolved(r, t) => r == request && t.Lapsed?
    case Closed(r, t) => r == request && t.Lapsed?
    case Open(_, _, _, _) => false
    case Unsure(_, _, _, _, _) => false
    case Idle => true
    case Stuck => true
  }

  lemma StepLapsing(ph: Phase, c: Call, ev: Evidence, request: RequestId)
    requires Fits(ph, c, ev) && Lapsing(ph, request)
    ensures Yields(c.kind, request) && (!Opens(c) ==> Lapsing(Next(ph, c, ev.replies), request))
  {
    hide Judge, GaveUp, PollKind, Evidence.InTime;
  }

  lemma {:induction false} LapsingStands(calls: seq<Call>, ev: Evidence, i: nat, j: nat, request: RequestId)
    requires AllBacked(calls, ev) && i <= j < |calls| && Quiet(calls, i - 1, j)
    requires Lapsing(PhaseOf(calls[..i], ev.replies), request)
    ensures Lapsing(PhaseOf(calls[..j], ev.replies), request) && Yields(calls[j].kind, request)
    decreases j
  {
    hide PhaseOf, AllBacked, Next, Fits, Lapsing, Yields;
    if i < j {
      LapsingStands(calls, ev, i, j - 1, request);
      Step(calls, ev, j - 1);
    }
    Step(calls, ev, j);
    if i < j { StepLapsing(PhaseOf(calls[..j - 1], ev.replies), calls[j - 1], ev, request); }
    StepLapsing(PhaseOf(calls[..j], ev.replies), calls[j], ev, request);
  }

  /** An expired or cancelled wait sends no approve, and can only be settled and resolved as expired or
      cancelled. */
  lemma LapseIsFinal(calls: seq<Call>, ev: Evidence, i: nat, j: nat, request: RequestId)
    requires AllBacked(calls, ev) && i < j < |calls| && Quiet(calls, i, j) && Lapses(calls[i], ev.replies, request)
    ensures Yields(calls[j].kind, request)
  {
    hide PhaseOf, AllBacked, Next, Fits, Lapsing, Lapses, Yields;
    Step(calls, ev, i);
    StepLapses(PhaseOf(calls[..i], ev.replies), calls[i], ev, request);
    LapsingStands(calls, ev, i + 1, j, request);
  }

  lemma StepLapses(ph: Phase, c: Call, ev: Evidence, request: RequestId)
    requires Fits(ph, c, ev) && Lapses(c, ev.replies, request) && c.answer == if c.kind.Settled? then Ok else ReplyAt(ev.replies, c.seen).answer
    ensures Lapsing(Next(ph, c, ev.replies), request)
  {
    hide Judge, PollKind, Evidence.InTime;
  }

  // ---------------------------------------------------------------- the wait belongs to its announcement

  /** The approval in this state is the one announced with this expiry. */
  predicate Concerns(ph: Phase, request: RequestId, expiry: real) {
    match ph
    case Open(r, e, _, _) => r == request && e == expiry
    case Told(r, e, _, _) => r == request && e == expiry
    case Unsure(r, _, _, _, _) => r == request
    case Resolved(r, _) => r == request
    case Closed(r, _) => r == request
    case Idle => true
    case Stuck => true
  }

  lemma StepConcerns(ph: Phase, c: Call, ev: Evidence, request: RequestId, expiry: real)
    requires Fits(ph, c, ev) && Concerns(ph, request, expiry) && !Opens(c)
    ensures Concerns(Next(ph, c, ev.replies), request, expiry)
  {
    hide Judge, GaveUp, PollKind, Evidence.InTime, Verdict, Agrees;
  }

  lemma StepOpens(ph: Phase, c: Call, replies: seq<Reply>)
    requires Opens(c)
    ensures Concerns(Next(ph, c, replies), c.kind.body.request, c.kind.body.expiry)
  {
  }

  lemma {:induction false} SameWait(calls: seq<Call>, ev: Evidence, a: nat, n: nat)
    requires AllBacked(calls, ev) && a < n <= |calls| && Quiet(calls, a, n) && Opens(calls[a])
    ensures Concerns(PhaseOf(calls[..n], ev.replies), calls[a].kind.body.request, calls[a].kind.body.expiry)
    decreases n
  {
    hide PhaseOf, AllBacked, Next, Fits, Concerns;
    Step(calls, ev, n - 1);
    if a < n - 1 {
      SameWait(calls, ev, a, n - 1);
      StepConcerns(PhaseOf(calls[..n - 1], ev.replies), calls[n - 1], ev, calls[a].kind.body.request, calls[a].kind.body.expiry);
    } else {
      StepOpens(PhaseOf(calls[..a], ev.replies), calls[a], ev.replies);
    }
  }

  /** When the first clock reading after the announcement, or after a poll, finds the expiry passed, or the
      first reading after the pause that follows the poll, the wait has expired, whatever is answered
      later: nothing is polled or decided any more. */
  lemma PassedExpiryEndsWait(calls: seq<Call>, ev: Evidence, a: nat, i: nat, j: nat)
    requires AllBacked(calls, ev) && a <= i < j < |calls| && Quiet(calls, a, j) && Opens(calls[a])
    requires i == a || IsPoll(calls[i].kind, calls[a].kind.body.request)
    requires var expiry := calls[a].kind.body.expiry;
      expiry <= ev.clock(calls[i].seen + 1, 0)
      || (i > a && Judge(calls[a].kind.body.request, ReplyAt(ev.replies, calls[i].seen)).None? && expiry <= ev.clock(calls[i].seen + 2, 0))
    ensures Obeys(calls[j].kind, calls[a].kind.body.request, Lapsed(Expired))
  {
    hide PhaseOf, AllBacked, Judge, Next, Fits, Final, Concerns;
    var request, expiry := calls[a].kind.body.request, calls[a].kind.body.expiry;
    Step(calls, ev, i);
    if i > a { SameWait(calls, ev, a, i); }
    StepPast(PhaseOf(calls[..i], ev.replies), calls[i], ev, request, expiry);
    FinalStands(calls, ev, i + 1, j, request, Lapsed(Expired));
  }

  lemma StepPast(ph: Phase, c: Call, ev: Evidence, request: RequestId, expiry: real)
    requires Fits(ph, c, ev) && if Opens(c) then c.kind.body.request == request && c.kind.body.expiry == expiry else IsPoll(c.kind, request) && Concerns(ph, request, expiry)
    requires expiry <= ev.clock(c.seen + 1, 0) || (IsPoll(c.kind, request) && Judge(request, ReplyAt(ev.replies, c.seen)).None? && expiry <= ev.clock(c.seen + 2, 0))
    ensures Final(Next(ph, c, ev.replies), request, Lapsed(Expired), ev.clock)
  {
    hide Judge, PollKind, Evidence.InTime;
  }

  /** Every poll goes out before the announced expiry, and not when the lease is known to be lost. */
  lemma PollsBeatExpiry(calls: seq<Call>, ev: Evidence, a: nat, i: nat, request: RequestId)
    requires AllBacked(calls, ev) && a < i < |calls| && Quiet(calls, a, i) && Opens(calls[a]) && IsPoll(calls[i].kind, request)
    ensures request == calls[a].kind.body.request && !calls[i].lost
    ensures calls[i].ticked == 1 && ev.clock(calls[i].seen, 0) < calls[a].kind.body.expiry
  {
    Step(calls, ev, i);
    SameWait(calls, ev, a, i);
    hide PhaseOf, AllBacked, Judge, PollKind, Evidence.InTime;
  }

  // ---------------------------------------------------------------- what a settlement rests on

  /** What the poll said was carried to Hermes, and Hermes took it. */
  ghost predicate CarriedOut(calls: seq<Call>, replies: seq<Reply>, from: int, until: int, request: RequestId, s: Settlement)
    requires 0 <= from <= until <= |calls|
  {
    exists p, d :: from < p < d < until && Carried(calls[p], calls[d], replies, request, s)
      && (calls[d].answer == Ok || (calls[d].answer == Lost && s.ByDecision? && exists q :: d < q < until && Takes(calls[q], replies, request, s.approve)))
  }

  predicate Carried(poll: Call, c: Call, replies: seq<Reply>, request: RequestId, s: Settlement) {
    match s
    case ByDecision(approve) =>
      && IsPoll(poll.kind, request) && c.kind == Decide(request, approve)
      && var w := Judge(request, ReplyAt(replies, poll.seen));
         w.Some? && w.value.Decided? && w.value.approve == approve && w.value.ack.Some?
    case Lapsed(o) => o == ApprovalOutcome.Cancelled && Tells(poll, replies, request, Lapse(o)) && c.kind == Decide(request, false)
  }

  predicate Takes(c: Call, replies: seq<Reply>, request: RequestId, approve: bool) {
    c.kind == Queried(request) && c.answer == Ok
    && ReplyAt(replies, c.seen).receipt == Taken(Some(if approve then Approved else ApprovalOutcome.Rejected))
  }

  /** Hermes has said how the wait ended. */
  ghost predicate Earned(calls: seq<Call>, replies: seq<Reply>, from: int, until: int, request: RequestId, s: Settlement)
    requires 0 <= from <= until <= |calls|
  {
    (exists d :: from < d < until && ReportsLapse(calls[d], replies, request, s)) || CarriedOut(calls, replies, from, until, request, s)
  }

  lemma EarnedLater(calls: seq<Call>, replies: seq<Reply>, from: int, until: int, later: int, request: RequestId, s: Settlement)
    requires 0 <= from <= until <= later <= |calls| && Earned(calls, replies, from, until, request, s)
    ensures Earned(calls, replies, from, later, request, s)
  {
    if d :| from < d < until && ReportsLapse(calls[d], replies, request, s) {
    } else {
      var p, d :| from < p < d < until && Carried(calls[p], calls[d], replies, request, s)
        && (calls[d].answer == Ok || (calls[d].answer == Lost && s.ByDecision? && exists q :: d < q < until && Takes(calls[q], replies, request, s.approve)));
      if calls[d].answer != Ok {
        var q :| d < q < until && Takes(calls[q], replies, request, s.approve);
      }
      assert CarriedOut(calls, replies, from, later, request, s);
    }
  }

  /** Where the state of an approval comes from: its announcement `a`, the poll `p` that ended the wait,
      the decision `d`, and the settlement `e`. */
  ghost predicate Grounded(calls: seq<Call>, replies: seq<Reply>, n: int, ph: Phase, a: int, p: int, d: int, e: int)
    requires 0 <= n <= |calls|
  {
    match ph
    case Idle => true
    case Stuck => true
    case Open(request, expiry, _, _) => Begun(calls, n, request, a) && calls[a].kind.body.expiry == expiry
    case Told(request, expiry, w, at) =>
      && Begun(calls, n, request, a) && calls[a].kind.body.expiry == expiry
      && a < p < n && Tells(calls[p], replies, request, w) && calls[p].seen + 1 == at
    case Unsure(request, approve, ack, _, _) =>
      && Begun(calls, n, request, a) && a < p < d < n
      && Carried(calls[p], calls[d], replies, request, ByDecision(approve)) && calls[d].answer == Lost
    case Resolved(request, s) => Begun(calls, n, request, a) && Earned(calls, replies, a, n, request, s)
    case Closed(request, s) => Begun(calls, n, request, a) && a < e < n && calls[e].kind == Settled(request, s)
  }

  ghost predicate Begun(calls: seq<Call>, n: int, request: RequestId, a: int)
    requires 0 <= n <= |calls|
  {
    0 <= a < n && Opens(calls[a]) && calls[a].kind.body.request == request && Quiet(calls, a, n)
  }

  lemma NoneYet(calls: seq<Call>, replies: seq<Reply>)
    ensures Grounded(calls, replies, 0, PhaseOf(calls[..0], replies), 0, 0, 0, 0)
  {
    hide Begun, Earned, Tells, Carried;
  }

  lemma {:induction false} Grounds(calls: seq<Call>, ev: Evidence, n: nat) returns (a: int, p: int, d: int, e: int)
    requires AllBacked(calls, ev) && n <= |calls|
    ensures Grounded(calls, ev.replies, n, PhaseOf(calls[..n], ev.replies), a, p, d, e)
    decreases n
  {
    hide PhaseOf, AllBacked, Grounded, Fits, Next;
    if n == 0 {
      a, p, d, e := 0, 0, 0, 0;
      NoneYet(calls, ev.replies);
    } else {
      a, p, d, e := Grounds(calls, ev, n - 1);
      Step(calls, ev, n - 1);
      a, p, d, e := GroundsOne(calls, ev, n - 1, PhaseOf(calls[..n - 1], ev.replies), a, p, d, e);
    }
  }

  lemma GroundsOne(calls: seq<Call>, ev: Evidence, n: nat, ph: Phase, a0: int, p0: int, d0: int, e0: int) returns (a: int, p: int, d: int, e: int)
    requires n < |calls| && Grounded(calls, ev.replies, n, ph, a0, p0, d0, e0) && Fits(ph, calls[n], ev)
    requires calls[n].answer == if calls[n].kind.Settled? then Ok else ReplyAt(ev.replies, calls[n].seen).answer
    ensures Grounded(calls, ev.replies, n + 1, Next(ph, calls[n], ev.replies), a, p, d, e)
  {
    a, p, d, e := a0, p0, d0, e0;
    var c := calls[n];
    hide Judge, Evidence.InTime, PollKind, Agrees, ReplyAt, Earned, AfterDecision, AfterQuery, Carried;
    match c.kind
    case Event(_, _) => a := if Opens(c) then n else a;
    case Recorded(_, _, _) => p := n;
    case Polled(_) => p := n;
    case Decide(_, _) =>
      GroundsDecision(calls, ev, n, ph, a, p, d, e);
      d := n;
    case Queried(_) => GroundsQuery(calls, ev, n, ph, a, p, d, e);
    case Settled(_, _) => e := n;
    case _ => if ph.Resolved? { EarnedLater(calls, ev.replies, a, n, n + 1, ph.request, ph.settlement); }
  }

  lemma GroundsDecision(calls: seq<Call>, ev: Evidence, n: nat, ph: Phase, a: int, p: int, d: int, e: int)
    requires n < |calls| && Grounded(calls, ev.replies, n, ph, a, p, d, e) && Fits(ph, calls[n], ev) && calls[n].kind.Decide?
    requires calls[n].answer == ReplyAt(ev.replies, calls[n].seen).answer
    ensures Grounded(calls, ev.replies, n + 1, Next(ph, calls[n], ev.replies), a, p, n, e)
  {
    hide Evidence.InTime, ReplyAt, Judge;
  }

  lemma GroundsQuery(calls: seq<Call>, ev: Evidence, n: nat, ph: Phase, a: int, p: int, d: int, e: int)
    requires n < |calls| && Grounded(calls, ev.replies, n, ph, a, p, d, e) && Fits(ph, calls[n], ev) && calls[n].kind.Queried?
    requires calls[n].answer == ReplyAt(ev.replies, calls[n].seen).answer
    ensures Grounded(calls, ev.replies, n + 1, Next(ph, calls[n], ev.replies), a, p, d, e)
  {
    hide Carried, ReplyAt;
  }

  /** A settlement was earned since the announcement: Hermes reported that lapse; or what a poll had
      recorded was carried to Hermes, and taken; or, for "expired", a poll said so or the last clock
      reading is past the announced expiry. */
  lemma SettlementIsEarned(calls: seq<Call>, ev: Evidence, i: nat, request: RequestId, s: Settlement)
    requires AllBacked(calls, ev) && i < |calls| && calls[i].kind == Settled(request, s)
    ensures exists a :: Begun(calls, i, request, a) && (Earned(calls, ev.replies, a, i, request, s) || (s == Lapsed(Expired) && Elapsed(calls, ev, a, i, request)))
  {
    hide PhaseOf, AllBacked, Earned, Judge;
    var a, p, d, e := Grounds(calls, ev, i);
    Step(calls, ev, i);
    assert Begun(calls, i, request, a);
  }

  /** Since the announcement `a` a poll has said "expired", or the reading at the call finds the expiry passed. */
  ghost predicate Elapsed(calls: seq<Call>, ev: Evidence, a: int, i: int, request: RequestId)
    requires 0 <= i < |calls| && Begun(calls, i, request, a)
  {
    || (exists p :: a < p < i && Tells(calls[p], ev.replies, request, Lapse(Expired)))
    || (calls[i].ticked > 0 && calls[a].kind.body.expiry <= ev.Reading(calls[i], 0))
  }

  /** A decision goes to Hermes only when the wait was ended by a poll that recorded it, or, for a
      rejection, said "cancelled"; nothing is awaited in between, and the expiry is still ahead. */
  lemma DecisionFollowsJudgement(calls: seq<Call>, ev: Evidence, i: nat, request: RequestId, approve: bool)
    requires AllBacked(calls, ev) && i < |calls| && calls[i].kind == Decide(request, approve)
    ensures exists a, p, w :: Begun(calls, i, request, a) && a < p < i && Tells(calls[p], ev.replies, request, w) && Calls(w, approve)
                              && calls[i].seen == calls[p].seen + 1 && ev.clock(calls[i].seen, 0) < calls[a].kind.body.expiry
  {
    hide PhaseOf, AllBacked, Judge;
    var a, p, d, e := Grounds(calls, ev, i);
    Step(calls, ev, i);
    var w := PhaseOf(calls[..i], ev.replies).w;
    assert Begun(calls, i, request, a) && Tells(calls[p], ev.replies, request, w) && Calls(w, approve);
  }

  /** A wait that ends like this calls for this decision at Hermes. */
  predicate Calls(w: Wait, approve: bool) {
    (w.Decided? && w.ack.Some? && w.approve == approve) || (w == Lapse(ApprovalOutcome.Cancelled) && !approve)
  }

  /** A resolution says how the one wait since its announcement was settled. */
  lemma ResolutionIsSettled(calls: seq<Call>, ev: Evidence, j: nat)
    requires AllBacked(calls, ev) && j < |calls| && calls[j].kind.Event? && calls[j].kind.body.ApprovalResolved?
    ensures var b := calls[j].kind.body;
      exists a, e, s :: Begun(calls, j, b.request, a) && a < e < j && calls[e].kind == Settled(b.request, s) && Agrees(s, b.outcome)
                        && (forall i :: a < i < j && calls[i].kind.Settled? ==> i == e)
  {
    var b := calls[j].kind.body;
    var a, e, s := Settling(calls, ev, j);
    forall i | a < i < j && calls[i].kind.Settled? ensures i == e {
      if i < e { SettledOnce(calls, ev, i, e); } else if e < i { SettledOnce(calls, ev, e, i); }
    }
  }

  lemma Settling(calls: seq<Call>, ev: Evidence, j: nat) returns (a: int, e: int, s: Settlement)
    requires AllBacked(calls, ev) && j < |calls| && calls[j].kind.Event? && calls[j].kind.body.ApprovalResolved?
    ensures var b := calls[j].kind.body;
      Begun(calls, j, b.request, a) && a < e < j && calls[e].kind == Settled(b.request, s) && Agrees(s, b.outcome)
  {
    hide PhaseOf, AllBacked, Judge, Agrees;
    var p, d;
    a, p, d, e := Grounds(calls, ev, j);
    Step(calls, ev, j);
    s := PhaseOf(calls[..j], ev.replies).settlement;
  }

  // ---------------------------------------------------------------- for a whole run

  /** Over the whole log, what has come to light about a wait stands, and a lapsed wait stays lapsed. */
  ghost predicate WaitsStand(calls: seq<Call>, replies: seq<Reply>) {
    forall i, j :: 0 <= i < j < |calls| && Quiet(calls, i, j) ==> StandsAt(calls[i], calls[j], replies)
  }

  ghost predicate StandsAt(c: Call, later: Call, replies: seq<Reply>) {
    && (forall request, s :: Reveals(c, replies, request, s) ==> Obeys(later.kind, request, s))
    && (forall request :: Lapses(c, replies, request) ==> Yields(later.kind, request))
  }

  lemma AllWaitsStand(calls: seq<Call>, ev: Evidence)
    requires AllBacked(calls, ev)
    ensures WaitsStand(calls, ev.replies)
  {
    hide AllBacked, Quiet, Reveals, Obeys, Lapses, Yields;
    forall i, j | 0 <= i < j < |calls| && Quiet(calls, i, j) ensures StandsAt(calls[i], calls[j], ev.replies) {
      forall request, s | Reveals(calls[i], ev.replies, request, s) ensures Obeys(calls[j].kind, request, s) {
        VerdictStands(calls, ev, i, j, request, s);
      }
      forall request | Lapses(calls[i], ev.replies, request) ensures Yields(calls[j].kind, request) {
        LapseIsFinal(calls, ev, i, j, request);
      }
    }
  }
}
