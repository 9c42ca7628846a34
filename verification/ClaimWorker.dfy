/** One claim of the worker: it reads the coalesced Hermes stream and reports to Foundry. */
module ClaimWorker {
  import opened Events
  import opened Coalescer
  import opened ClaimCalls
  import opened ClaimEvidence
  import ApprovalLaws

  const MAX_ROUTINE_TEXT_BYTES := 16 * 1024
  const MAX_APPROVAL_LIFETIME := 300.0
  const MAX_APPROVAL_LABEL_CHARS := 120
  const MAX_APPROVAL_PREVIEW_BYTES := 16 * 1024

  /** What is fixed for one claim.  `valid` says that message and conversation passed their checks,
      `continuation` that it continues an approved routine action, `files` that it stages files, and
      `bound` that it has a user binding to apply. */
  datatype Claim = Claim(
    attempt: string, profile: string, session: string,
    valid: bool, routine: bool, continuation: bool, files: bool, bound: bool, proofHold: bool,
    timeOf: string -> Option<real>, citable: RoutineResult -> bool)

  datatype Flow = Continue | Break | Return | Throw(fault: Fault)

  datatype Approval = Approval(request: RequestId, hermesId: string, settlement: Settlement)

  /** The log is lawful and backed, and the ledger in its usual range. */
  ghost predicate Books(calls: seq<Call>, timeOf: string -> Option<real>, ev: Evidence) {
    var l := Sum(calls);
    && Lawful(calls) && Dated(calls, timeOf) && AllBacked(calls, ev) && l.top <= MAX_EVENT_SEQUENCE
    && (!l.tried ==> l.refused && !l.closed && l.conclusion.None?)
  }

  /** The worker knows of the loss of its lease, and the calls were made after answers already received. */
  ghost predicate Known(calls: seq<Call>, lost: bool, used: nat, ev: Evidence) {
    && LossLasts(calls, lost) && (ev.LossBy(used) ==> lost) && (lost ==> Troubled(ev.replies, used))
    && forall c | c in calls :: c.seen <= used
  }

  /** An answer other than Ok has come, or the lease could not be renewed, or the process is gone. */
  ghost predicate Troubled(replies: seq<Reply>, used: nat) {
    used >= |replies| || exists i :: 0 <= i < used && (replies[i].answer != Ok || replies[i].leaseLost)
  }

  /** ... and that just now. */
  predicate LastFailed(replies: seq<Reply>, used: nat) {
    used >= |replies| || (used > 0 && replies[used - 1].answer != Ok)
  }

  lemma TroubleStays(replies: seq<Reply>, used: nat, later: nat)
    requires used <= later
    ensures Troubled(replies, used) ==> Troubled(replies, later)
    ensures LastFailed(replies, used) ==> Troubled(replies, used)
  {
  }

  /** An event that does not fit the claim, by what came before it and where the approval announced last
      stands: it belongs to another profile or session, comes after the terminal event or unasked for,
      says too much, or asks or answers what it may not. */
  ghost predicate Unfit(claim: Claim, clock: (nat, nat) -> real, before: seq<HermesEvent>, e: HermesEvent, ph: Phase) {
    || e.profile != claim.profile || Concluded(before)
    || if e.name == ExecutionCompleted then !ph.Idle?
       else e.session != claim.session || match e.name
            case MessageDelta => claim.routine && e.IsDelta() && Utf8Len(TextOf(before + [e])) > 16384
            case ActivityStarted => false
            case ActivityCompleted => false
            case ApprovalRequest => !ph.Idle? || !Askable(e.payload) || Untimely(claim, clock, e.payload)
            case ApprovalResponded => !Answers(ph, e.payload)
            case _ => true
  }

  predicate Concluded(events: seq<HermesEvent>) { events != [] && events[|events| - 1].name == ExecutionCompleted }

  predicate Askable(p: Payload) {
    && p.ApprovalAsk? && p.approvalId != "" && (p.action == "terminal" || p.action == "execute_code" || p.action == "plugin_tool")
    && 1 <= |p.caption| <= 120 && '\0' !in p.caption && p.preview != "" && '\0' !in p.preview && Utf8Len(p.preview) <= 16384
  }

  /** The expiry is not a time, or some clock reading finds it passed or more than 300 seconds away. */
  ghost predicate Untimely(claim: Claim, clock: (nat, nat) -> real, p: Payload)
    requires p.ApprovalAsk?
  {
    match claim.timeOf(p.expires)
    case None => true
    case Some(expiry) => exists n, k :: !(clock(n, k) < expiry <= clock(n, k) + 300.0)
  }

  /** The answer is for the settled request, and says how it was settled. */
  predicate Answers(ph: Phase, p: Payload) {
    ph.Closed? && p.ApprovalAnswer? && p.approvalId == ph.request.hermesId && Agrees(ph.settlement, p.outcome)
  }

  /** No approval was asked for. */
  ghost predicate NoAsk(events: seq<HermesEvent>) { forall e | e in events :: e.name != ApprovalRequest }

  /** Renewal has been watched since before the events that need it: those after the dispatched one, and
      that one too when files were staged for it. */
  ghost predicate Watched(calls: seq<Call>, files: bool, watch: nat) {
    forall c | c in calls :: NeedsWatch(c.kind, files) ==> watch <= c.seen
  }

  predicate NeedsWatch(k: Kind, files: bool) { k.Event? && (k.number > 1 || files) }

  /** The call may be made, and rests on what has been received. */
  ghost predicate Proper(calls: seq<Call>, c: Call, timeOf: string -> Option<real>, ev: Evidence) {
    MayFollow(calls, c.kind, c.lost) && LossLasts(calls, c.lost) && DatedKind(c.kind, timeOf) && Backed(calls, c, ev)
  }

  lemma BooksOne(calls: seq<Call>, c: Call, timeOf: string -> Option<real>, ev: Evidence)
    requires Books(calls, timeOf, ev) && Proper(calls, c, timeOf, ev)
    ensures Books(calls + [c], timeOf, ev)
    ensures Sum(calls + [c]) == Note(Sum(calls), c.kind, c.answer)
    ensures PostedEvents(calls + [c]) == PostedEvents(calls) + Fresh(Sum(calls).top, c.kind)
    ensures HasCall(calls + [c], c.kind)
  {
    hide Backed, AllBacked;
    SumOne(calls, c);
    LawfulOne(calls, c);
    PostedOne(calls, c);
    BackedOne(calls, c, ev);
    assert (calls + [c])[|calls|].kind == c.kind;
  }

  lemma KnownOne(calls: seq<Call>, c: Call, lost: bool, used: nat, ev: Evidence)
    requires Known(calls, lost, used, ev) && (c.lost ==> lost) && c.seen <= used
    ensures Known(calls + [c], lost, used, ev)
  {
  }

  lemma WatchedOne(calls: seq<Call>, c: Call, files: bool, watch: nat)
    requires Watched(calls, files, watch) && (NeedsWatch(c.kind, files) ==> watch <= c.seen)
    ensures Watched(calls + [c], files, watch)
  {
  }

  /** Calls that are not about the way an approval is waited for and decided. */
  predicate Ordinary(k: Kind) { !k.Recorded? && !k.Polled? && !k.Decide? && !k.Queried? && !k.Settled? }

  /** A plain call needs nothing but the answers before it, and an event a state that allows it. */
  lemma PlainIsBacked(calls: seq<Call>, c: Call, ev: Evidence)
    requires Known(calls, c.lost, c.seen, ev) && c.seen <= |ev.replies| && Ordinary(c.kind)
    requires c.answer == ReplyAt(ev.replies, c.seen).answer && (c.kind.Event? ==> Says(PhaseOf(calls, ev.replies), c.kind.body))
    ensures Backed(calls, c, ev) && PhaseOf(calls + [c], ev.replies) == Spoken(PhaseOf(calls, ev.replies), c.kind, c.answer, c.seen + 1)
  {
    PhaseOne(calls, c, ev.replies);
    hide PhaseOf;
  }

  /** Which calls are sent through the retry: new events, numbered closing calls and session binding. */
  predicate Retried(l: Ledger, k: Kind) { Numbered(k) || k.Bind? || (k.Event? && k.number == l.top + 1) }

  /** What one call, retried or not, does to the log. */
  ghost predicate Sent(was: seq<Call>, calls: seq<Call>, k: Kind, a: Answer) {
    && was < calls && calls[|was|].kind == k && HasCall(calls, k)
    && Sum(calls) == Note(Sum(was), k, a)
    && PostedEvents(calls) == PostedEvents(was) + Fresh(Sum(was).top, k)
  }

  lemma SentOne(was: seq<Call>, c: Call, timeOf: string -> Option<real>, ev: Evidence)
    requires Books(was, timeOf, ev) && Proper(was, c, timeOf, ev)
    ensures Books(was + [c], timeOf, ev) && Sent(was, was + [c], c.kind, c.answer)
  {
    BooksOne(was, c, timeOf, ev);
  }

  lemma SentTwo(was: seq<Call>, c: Call, d: Call, timeOf: string -> Option<real>, ev: Evidence)
    requires Books(was, timeOf, ev) && Proper(was, c, timeOf, ev)
    requires c.answer == Lost && d.kind == c.kind && Retried(Sum(was), c.kind) && (c.lost ==> d.lost) && Backed(was + [c], d, ev)
    ensures Books(was + [c] + [d], timeOf, ev) && Sent(was, was + [c] + [d], d.kind, d.answer)
  {
    SecondIsProper(was, c, d, timeOf, ev);
    hide *;
    BooksOne(was, c, timeOf, ev);
    BooksOne(was + [c], d, timeOf, ev);
    RetryAddsUp(Sum(was), c.kind, d.answer);
    SentBoth(was, c, d);
  }

  lemma SecondIsProper(was: seq<Call>, c: Call, d: Call, timeOf: string -> Option<real>, ev: Evidence)
    requires Books(was, timeOf, ev) && Proper(was, c, timeOf, ev)
    requires c.answer == Lost && d.kind == c.kind && Retried(Sum(was), c.kind) && (c.lost ==> d.lost) && Backed(was + [c], d, ev)
    ensures Proper(was + [c], d, timeOf, ev)
    ensures Numbered(c.kind) || c.kind.Bind? || (c.kind.Event? && c.kind.number == Sum(was).top + 1)
  {
    MayRetry(was, c);
    hide MayFollow, Backed, AllBacked, Lawful, Sum;
  }

  lemma SentBoth(was: seq<Call>, c: Call, d: Call)
    requires Sum(was + [c]) == Note(Sum(was), c.kind, Lost) && c.kind == d.kind && c.answer == Lost
    requires PostedEvents(was + [c]) == PostedEvents(was) + Fresh(Sum(was).top, c.kind)
    requires Sum(was + [c] + [d]) == Note(Sum(was + [c]), d.kind, d.answer) == Note(Sum(was), d.kind, d.answer)
    requires PostedEvents(was + [c] + [d]) == PostedEvents(was + [c]) + Fresh(Sum(was + [c]).top, d.kind)
    requires Fresh(Sum(was + [c]).top, d.kind) == [] && HasCall(was + [c] + [d], d.kind)
    ensures Sent(was, was + [c] + [d], d.kind, d.answer)
  {
    hide Sum, PostedEvents, Fresh, HasCall;
  }

  /** At every call the text posted by then, this call included, is a prefix of the text taken from the
      stream by then. */
  ghost predicate TextHeard(calls: seq<Call>, script: seq<Arrival>) {
    forall i :: 0 <= i < |calls| ==> HeardAt(calls[..i + 1], calls[i], script)
  }

  ghost predicate HeardAt(upto: seq<Call>, c: Call, script: seq<Arrival>) {
    c.heard <= |script| && TextOf(PostedEvents(upto)) <= TextOf(ItemsOf(script[..c.heard]))
  }

  lemma TextHeardOne(calls: seq<Call>, c: Call, script: seq<Arrival>)
    requires TextHeard(calls, script) && HeardAt(calls + [c], c, script)
    ensures TextHeard(calls + [c], script)
  {
    hide HeardAt;
    var after := calls + [c];
    forall i | 0 <= i < |after| ensures HeardAt(after[..i + 1], after[i], script) {
      if i < |calls| { assert after[..i + 1] == calls[..i + 1]; } else { assert after[..i + 1] == after; }
    }
  }

  /** Posting the next event, or nothing, stays within the text heard. */
  lemma PostedText(yielded: seq<HermesEvent>, n: nat, more: seq<HermesEvent>, heard: string)
    requires n <= |yielded| && TextOf(RelayableOf(yielded[..n])) <= heard
    requires n < |yielded| ==> TextOf(RelayableOf(yielded[..n + 1])) <= heard
    requires more == [] || (n < |yielded| && more == [yielded[n]] && Relayable(yielded[n]))
    ensures TextOf(RelayableOf(yielded[..n]) + more) <= heard
  {
    hide TextOf, RelayableOf;
    if more == [] {
      assert RelayableOf(yielded[..n]) + more == RelayableOf(yielded[..n]);
    } else {
      assert yielded[..n + 1] == yielded[..n] + [yielded[n]];
      RelayableOne(yielded[..n], yielded[n]);
    }
  }

  class ClaimRun {
    const claim: Claim
    /** What the awaited calls bring, one after the other, and the clock's readings. */
    const replies: seq<Reply>
    const clock: (nat, nat) -> real
    const stream: CoalescedStream
    var used: nat
    /** Clock readings since the last answer. */
    var ticks: nat
    var sequence: nat
    var pending: Option<Approval>
    var terminal: Option<HermesEvent>
    var lost: bool
    var renewing: bool
    var textBytes: nat
    var heldOnce: bool

    ghost var calls: seq<Call>
    /** The answer from which on the lease is renewed. */
    ghost var watch: nat
    /** How many of the events read from the stream have been dealt with. */
    ghost var handled: nat

    ghost predicate Valid()
      reads `used, `sequence, `terminal, `lost, `renewing, `calls, `watch, `handled, stream
    {
      && Aware() && stream.Valid() && handled <= |stream.yielded|
      && Books(calls, claim.timeOf, Ev()) && TextHeard(calls, stream.script)
      && PostedEvents(calls) == RelayableOf(stream.yielded[..handled])
      && Sum(calls).top <= sequence <= MAX_TERMINAL_SEQUENCE
      && (Sum(calls).conclusion.Some? ==> Delivered() && Concludes(Sum(calls).conclusion.value, terminal.value))
    }

    ghost function Ev(): Evidence
      reads `watch
    {
      Evidence(replies, clock, watch)
    }

    ghost predicate Aware()
      reads `used, `lost, `renewing, `watch, `calls
    {
      used <= |replies| && (if renewing then watch <= used else watch == |replies|) && Known(calls, lost, used, Ev())
      && Watched(calls, claim.files, watch)
    }

    /** Where the approval announced last stands. */
    ghost function State(): Phase
      reads `calls
    {
      PhaseOf(calls, replies)
    }

    /** Everything Hermes sent has been read and dealt with, and the last of it was the terminal event. */
    ghost predicate Delivered()
      reads `handled, `terminal, stream
    {
      && stream.taken <= |stream.script| && Flatten(stream.groups) == stream.Consumed()
      && handled == |stream.yielded|
      && handled > 0 && terminal == Some(stream.yielded[handled - 1]) && terminal.value.name == ExecutionCompleted
    }

    /** The call says what the terminal event said, numbered right after the last event. */
    ghost predicate Concludes(k: Kind, e: HermesEvent)
      reads `calls
    {
      if claim.routine
      then e.payload.Terminal? && e.payload.result.Some? && k == Routine(Sum(calls).top + 1, TypedReport(e.payload.result.value))
      else k == Complete(Sum(calls).top + 1, e.payload, e.session)
    }

    /** In the event loop with `n` events dealt with. */
    ghost predicate Looping(n: nat)
      reads `used, `sequence, `terminal, `lost, `renewing, `calls, `watch, `handled, stream, `pending
    {
      && Valid() && handled == n && !Sum(calls).tried && 1 <= Sum(calls).top == sequence <= MAX_EVENT_SEQUENCE
      && PendingOk(calls, pending) && Rests(State(), pending) && (NoAsk(stream.yielded[..n]) ==> pending.None?)
      && (terminal.Some? <==> Concluded(stream.yielded[..n])) && sequence <= 1 + n
      && (terminal.Some? ==> terminal.value == stream.yielded[n - 1] && pending.None?)
    }

    /** The text of a routine has been counted up to the first `n` events. */
    ghost predicate Counted(n: nat)
      reads `textBytes, stream
    {
      n <= |stream.yielded| && (claim.routine ==> textBytes == Utf8Len(TextOf(stream.yielded[..n])))
    }

    // -------------------------------------------------------------- why a claim does not conclude

    /** The stream broke off, or failed. */
    ghost predicate Withheld()
      reads stream
    {
      (stream.taken == |stream.script| && !stream.EndSeen()) || stream.FailureSeen()
    }

    /** The event read last does not fit. */
    ghost predicate Balked()
      reads `handled, `calls, stream
    {
      && handled < |stream.yielded| && Unfit(claim, clock, stream.yielded[..handled], stream.yielded[handled], State())
      && (NoAsk(stream.yielded[..handled]) ==> State().Idle?)
    }

    /** The wait for the approval that was asked for last has not come to an end. */
    ghost predicate Undecided()
      reads `handled, `calls, stream
    {
      0 < handled <= |stream.yielded| && stream.yielded[handled - 1].name == ApprovalRequest && !State().Idle? && !State().Closed?
    }

    /** The event budget is used up. */
    ghost predicate Spent()
      reads `calls, `handled
    {
      Sum(calls).top >= 100000 && handled >= 99999
    }

    /** The stream came to its end without a terminal event. */
    ghost predicate Unfinished()
      reads `handled, stream
    {
      && stream.EndSeen() && Flatten(stream.groups) == ItemsOf(stream.script[..stream.taken]) && handled == |stream.yielded|
      && !Concluded(stream.yielded)
    }

    /** The terminal event of a routine carries no result that may be reported. */
    ghost predicate Untyped()
      reads `handled, stream
    {
      claim.routine && 0 < handled == |stream.yielded| && Concluded(stream.yielded) && !Typed(stream.yielded[handled - 1])
    }

    /** The loop was left with a fault: what happened just now. */
    ghost predicate Faulted()
      reads `handled, `calls, `used, stream
    {
      LastFailed(replies, used) || Withheld() || Balked() || Undecided() || Spent()
    }

    /** Something stands between the claim and its conclusion. */
    ghost predicate Hindered()
      reads `handled, `calls, `used, stream
    {
      || !claim.valid || (claim.routine && claim.continuation) || Troubled(replies, used)
      || Withheld() || Balked() || Undecided() || Spent() || Unfinished() || Untyped()
    }

    /** In the event loop, with one more event just read. */
    ghost predicate Holding(e: HermesEvent)
      reads this, stream
    {
      Looping(handled) && renewing && |stream.yielded| == handled + 1 && stream.yielded[handled] == e
    }

    /** What a part of the loop leaves behind. */
    ghost predicate After(flow: Flow)
      reads this, stream
    {
      match flow
      case Continue => Looping(|stream.yielded|)
      case Break => Valid() && lost && !Sum(calls).tried
      case Return => Valid() && Sum(calls).tried
      case Throw(f) => Valid() && Reportable(f)
    }

    /** What must hold for the fault handlers to report. */
    ghost predicate Reportable(f: Fault)
      reads this
    {
      !Sum(calls).closed && (f.Refused? || f.HermesFault? || (f.ResponseLost? && !claim.routine) ==> Sum(calls).refused)
    }

    constructor (claim: Claim, replies: seq<Reply>, clock: (nat, nat) -> real, stream: CoalescedStream)
      requires stream.Valid() && stream.yielded == []
      ensures Valid() && calls == [] && sequence == 0 && !lost && pending.None? && terminal.None? && handled == 0 && textBytes == 0
      ensures this.claim == claim && this.stream == stream && this.replies == replies && this.clock == clock
    {
      this.claim, this.replies, this.clock, this.stream := claim, replies, clock, stream;
      used, ticks, sequence, pending, terminal := 0, 0, 0, None, None;
      lost, renewing, textBytes, heldOnce := false, false, 0, false;
      calls, watch, handled := [], |replies|, 0;
    }

    // -------------------------------------------------------------- awaiting

    method Now() returns (t: real)
      modifies `ticks
      ensures ticks == old(ticks) + 1 && t == clock(used, old(ticks))
    {
      t, ticks := clock(used, ticks), ticks + 1;
    }

    /** Await anything; when the answers run out the process has died. */
    method Await() returns (r: Reply)
      requires Aware()
      modifies `used, `lost, `ticks
      ensures Aware() && (old(lost) ==> lost) && ticks == 0 && r == ReplyAt(replies, old(used))
      ensures used == old(used) + 1 || (used == old(used) && r.answer == Killed)
      ensures old(Valid()) ==> Valid()
      ensures r.answer != Ok ==> LastFailed(replies, used)
    {
      hide Books, TextHeard, PostedEvents, RelayableOf, CoalescedStream.Valid, Sum, Watched, Concludes, Delivered;
      r, ticks := ReplyAt(replies, used), 0;
      if used == |replies| { return; }
      used := used + 1;
      if renewing && r.leaseLost { lost := true; }
    }

    /** One call. */
    method Send(k: Kind) returns (a: Answer)
      requires Valid() && MayFollow(calls, k, lost) && DatedKind(k, claim.timeOf) && Ordinary(k) && !k.Event?
      modifies `used, `lost, `ticks, `calls
      ensures Aware() && Books(calls, claim.timeOf, Ev()) && TextHeard(calls, stream.script) && (old(lost) ==> lost) && used >= old(used)
      ensures Sent(old(calls), calls, k, a) && State() == old(State()) && (a != Ok ==> LastFailed(replies, used))
    {
      hide Books, MayFollow, Sent, PostedEvents, Sum, Backed, AllBacked, Known, Watched, PhaseOf, TextHeard, MayPost, HeardAt, Lawful, Dated;
      ghost var before := calls;
      ghost var c;
      PostIsHeard(k);
      a, c := Ask(k);
      SentOne(before, c, claim.timeOf, Ev());
    }

    /** `_retry_response_loss`: the same call once more after a lost response. */
    method SendRetry(k: Kind) returns (a: Answer)
      requires Valid() && MayFollow(calls, k, lost) && DatedKind(k, claim.timeOf) && Retried(Sum(calls), k) && InHand(k)
      requires k.Event? ==> Says(State(), k.body) && (NeedsWatch(k, claim.files) ==> renewing)
      modifies `used, `lost, `ticks, `calls
      ensures Aware() && Books(calls, claim.timeOf, Ev()) && TextHeard(calls, stream.script) && (old(lost) ==> lost) && used >= old(used)
      ensures Sent(old(calls), calls, k, a) && ticks == 0
      ensures State() == Spoken(old(State()), k, a, used) && (a != Ok ==> LastFailed(replies, used))
      ensures calls[|old(calls)|].seen == old(used)
    {
      hide Books, MayFollow, Sent, PostedEvents, Sum, Backed, AllBacked, Known, Watched, PhaseOf, Says, TextHeard, MayPost, HeardAt, Fresh, Lawful, Dated;
      ghost var before := calls;
      var r;
      ghost var first, second;
      PostIsHeard(k);
      r, first := Ask(k);
      if r != Lost {
        SentOne(before, first, claim.timeOf, Ev());
        return r;
      }
      LastHeard(calls, stream.script);
      SumOne(before, first);
      RetryAddsUp(Sum(before), k, Lost);
      RepeatIsHeard(before, first);
      a, second := Ask(k);
      SentTwo(before, first, second, claim.timeOf, Ev());
    }

    lemma LastHeard(log: seq<Call>, script: seq<Arrival>)
      requires TextHeard(log, script) && log != []
      ensures HeardAt(log, log[|log| - 1], script)
    {
      assert log[..|log| - 1 + 1] == log;
    }

    /** One call, recorded in the log. */
    method Ask(k: Kind) returns (a: Answer, ghost c: Call)
      requires Aware() && Ordinary(k) && TextHeard(calls, stream.script) && MayPost(k)
      requires k.Event? ==> Says(State(), k.body) && (NeedsWatch(k, claim.files) ==> renewing)
      modifies `used, `lost, `ticks, `calls
      ensures Aware() && (old(lost) ==> lost) && TextHeard(calls, stream.script) && ticks == 0
      ensures (used == old(used) + 1 || (used == old(used) && a == Killed)) && (a != Ok ==> LastFailed(replies, used))
      ensures c == Call(k, old(lost), a, old(used), old(ticks), stream.taken) && calls == old(calls) + [c]
      ensures LossLasts(old(calls), c.lost) && Backed(old(calls), c, Ev())
      ensures State() == Spoken(old(State()), k, a, used)
    {
      hide TextHeard, PostedEvents, TextOf, ItemsOf, AllBacked, Lawful, Dated, PhaseOf, Says, Backed, MayFollow, Sum;
      ghost var was, seen, ticked, before := lost, used, ticks, calls;
      var r := Await();
      a, c := r.answer, Call(k, was, r.answer, seen, ticked, stream.taken);
      PlainIsBacked(before, c, Ev());
      KnownOne(before, c, lost, used, Ev());
      WatchedOne(before, c, claim.files, watch);
      PostedOne(before, c);
      TextHeardOne(before, c, stream.script);
      calls := calls + [c];
    }

    /** With this call the posted text is still a prefix of the text taken from the stream. */
    ghost predicate MayPost(k: Kind)
      reads `calls, stream
    {
      stream.taken <= |stream.script|
      && TextOf(PostedEvents(calls) + Fresh(Sum(calls).top, k)) <= TextOf(ItemsOf(stream.script[..stream.taken]))
    }

    /** An event relayed is the one in hand. */
    ghost predicate InHand(k: Kind)
      reads `handled, stream
    {
      k.Event? && k.body.Relayed? ==>
        handled < |stream.yielded| && k.body.event == stream.yielded[handled] && Relayable(k.body.event)
    }

    /** What has been yielded up to any point carries a prefix of the text taken so far. */
    lemma YieldedText(n: nat)
      requires stream.Valid() && n <= |stream.yielded|
      ensures stream.taken <= |stream.script|
      ensures TextOf(RelayableOf(stream.yielded[..n])) <= TextOf(ItemsOf(stream.script[..stream.taken]))
    {
      RelayableKeepsText(stream.yielded[..n]);
      TextOfPrefix(stream.yielded[..n], stream.yielded);
      GroupingKeepsMeaning(stream.groups, stream.maxBytes);
      TextOfPrefix(Flatten(stream.groups), stream.Consumed());
    }

    lemma PostIsHeard(k: Kind)
      requires Valid() && InHand(k)
      ensures MayPost(k)
    {
      hide Books, Known, TextHeard, CoalescedStream.Valid, TextOf, ItemsOf, Sum, PostedEvents, RelayableOf, Delivered, Concludes, Aware, Flatten, JoinAll, Grouping;
      YieldedText(handled);
      if handled < |stream.yielded| { YieldedText(handled + 1); }
      PostedText(stream.yielded, handled, Fresh(Sum(calls).top, k), TextOf(ItemsOf(stream.script[..stream.taken])));
    }

    /** The same call again posts nothing new. */
    lemma RepeatIsHeard(before: seq<Call>, c: Call)
      requires calls == before + [c] && HeardAt(calls, c, stream.script) && c.heard == stream.taken
      requires Fresh(Sum(calls).top, c.kind) == []
      ensures MayPost(c.kind)
    {
      assert PostedEvents(calls) + [] == PostedEvents(calls);
    }

    // -------------------------------------------------------------- reporting

    /** The first call since `was`. */
    ghost predicate Begins(was: seq<Call>, k: Kind)
      reads this
    {
      was < calls && calls[|was|].kind == k
    }

    /** One stopped report whose own failure is swallowed. */
    method StopQuietly(reason: string) returns (flow: Flow)
      requires Valid() && !Sum(calls).closed
      modifies `used, `lost, `ticks, `calls
      ensures After(flow) && Begins(old(calls), Stopped(reason)) && (old(lost) ==> lost) && used >= old(used)
      ensures flow.Return? || ((flow == Throw(Cancellation) || flow == Throw(Death)) && LastFailed(replies, used))
      ensures Sum(calls).conclusion == Sum(old(calls)).conclusion && Sum(calls).top == Sum(old(calls)).top && State() == old(State())
    {
      hide Books, PostedEvents, RelayableOf, CoalescedStream.Valid, Sum, Flatten, ItemsOf, HasCall, TextHeard, HeardAt, MayPost, Known, Watched, AllBacked, Lawful, Dated, PhaseOf;
      var a := Send(Stopped(reason));
      if a == Ok || a == Lost || a == Fenced || a == Answer.Rejected || a == Transient { return Return; }
      return Throw(FaultOf(a));
    }

    /** One stopped report whose failure is raised. */
    method Stop(reason: string) returns (flow: Flow)
      requires Valid() && !Sum(calls).closed && Sum(calls).refused
      modifies `used, `lost, `ticks, `calls
      ensures old(lost) ==> lost
      ensures After(flow) && (flow.Return? || flow.Throw?) && flow != Throw(HermesFault) && Begins(old(calls), Stopped(reason))
      ensures used >= old(used) && (flow.Throw? ==> LastFailed(replies, used)) && State() == old(State()) && Sum(calls).top == Sum(old(calls)).top
    {
      hide Books, PostedEvents, RelayableOf, CoalescedStream.Valid, Sum, Flatten, ItemsOf, HasCall, TextHeard, HeardAt, MayPost, Known, Watched, AllBacked, Lawful, Dated, PhaseOf;
      var a := Send(Stopped(reason));
      return if a == Ok then Return else Throw(FaultOf(a));
    }

    lemma HandledOne(e: HermesEvent)
      requires Holding(e)
      ensures RelayableOf(stream.yielded[..handled + 1]) == PostedEvents(calls) + if Relayable(e) then [e] else []
      ensures stream.yielded[..handled + 1] == stream.yielded
    {
      hide Books, PostedEvents, RelayableOf, CoalescedStream.Valid, Sum, PendingOk, TextHeard, HeardAt, MayPost, Known, Watched, AllBacked, Lawful, Dated, PhaseOf;
      assert stream.yielded[..handled + 1] == stream.yielded[..handled] + [e];
      RelayableOne(stream.yielded[..handled], e);
    }

    lemma Untried()
      requires Valid() && !Sum(calls).tried
      ensures Sum(calls).refused && !Sum(calls).closed && Sum(calls).conclusion.None?
    {
    }

    /** Send the next ordinary event, for the event in hand. */
    method Post(e: HermesEvent, body: Body) returns (a: Answer)
      requires Holding(e) && !lost && sequence < MAX_EVENT_SEQUENCE
      requires MaySay(calls, sequence + 1, body) && DatedKind(Event(sequence + 1, body), claim.timeOf)
      requires (if Relayable(e) then body == Relayed(e) else !body.Relayed?) && Says(State(), body)
      modifies `used, `lost, `ticks, `calls, `sequence, `handled
      ensures old(lost) ==> lost
      ensures Valid() && handled == |stream.yielded| && old(calls) <= calls && used >= old(used)
      ensures sequence == old(sequence) + 1 && Sum(calls) == Note(Sum(old(calls)), Event(sequence, body), a)
      ensures HasCall(calls, Event(sequence, body)) && Begins(old(calls), Event(sequence, body))
      ensures !Sum(calls).tried && !Sum(calls).closed && Sum(calls).refused
      ensures State() == Spoken(old(State()), Event(sequence, body), a, used) && ticks == 0 && (a != Ok ==> LastFailed(replies, used))
    {
      hide Books, MaySay, PostedEvents, RelayableOf, CoalescedStream.Valid, Sum, HasCall, PendingOk, TextHeard, HeardAt, MayPost, Known, AllBacked, Lawful, Dated, PhaseOf, Spoken, Says, Rests;
      HandledOne(e);
      Untried();
      sequence := sequence + 1;
      a := SendRetry(Event(sequence, body));
      handled := handled + 1;
    }

    /** Take the lease to be lost. */
    method LoseLease()
      requires Aware() && Troubled(replies, used)
      modifies `lost
      ensures Aware() && lost
    {
      lost := true;
    }

    /** What becomes of a post that was not acknowledged. */
    method GiveUp(a: Answer) returns (flow: Flow)
      requires Valid() && a != Ok && LastFailed(replies, used) && !Sum(calls).closed && Sum(calls).refused
      modifies `used, `lost, `ticks, `calls, stream`done
      ensures old(lost) ==> lost
      ensures After(flow) && !flow.Continue? && !flow.Break? && old(calls) <= calls
      ensures Troubled(replies, used) && (flow.Throw? ==> LastFailed(replies, used))
    {
      hide Books, PostedEvents, RelayableOf, CoalescedStream.Valid, Sum, Flatten, ItemsOf, TextHeard, HeardAt, MayPost, Known, Watched, AllBacked, Lawful, Dated, PhaseOf;
      TroubleStays(replies, used, used);
      if a != Lost { return Throw(FaultOf(a)); }
      LoseLease();
      stream.Close();
      ghost var upto := used;
      flow := StopQuietly("event_response_lost");
      TroubleStays(replies, upto, used);
    }

    // -------------------------------------------------------------- approvals

    method Sleep() returns (fault: Option<Fault>)
      requires Aware()
      modifies `used, `lost, `ticks
      ensures Aware() && (old(lost) ==> lost) && used >= old(used) && ticks == 0 && (fault.None? ==> used == old(used) + 1)
      ensures fault.Some? ==> (fault.value == Cancellation || fault.value == Death) && LastFailed(replies, used)
      ensures old(Valid()) ==> Valid()
    {
      hide Valid, Known, Watched;
      var r := Await();
      fault := if r.answer == Answer.Cancelled then Some(Cancellation) else if r.answer == Killed then Some(Death) else None;
    }

    lemma IsAware()
      requires Valid()
      ensures Aware()
    {
    }

    /** A call about the pending approval: it closes nothing, posts nothing and resolves nothing. */
    ghost predicate Aside(was: seq<Call>)
      reads `used, `sequence, `terminal, `lost, `renewing, `calls, `watch, `handled, stream
    {
      Valid() && Aware() && was <= calls && Sum(calls) == Sum(was)
    }

    /** Enter a call about the pending approval, made after `seen` answers, into the log. */
    ghost method Consult(c: Call)
      requires Valid() && Proper(calls, c, claim.timeOf, Ev()) && (c.lost ==> lost) && c.seen <= used
      requires !Ordinary(c.kind) && c.heard == stream.taken
      modifies `calls
      ensures Aside(old(calls)) && calls == old(calls) + [c] && HasCall(calls, c.kind)
      ensures State() == Next(old(State()), c, replies)
    {
      hide Books, PostedEvents, RelayableOf, CoalescedStream.Valid, Sum, TextHeard, Known, Watched, AllBacked, Lawful, Dated, PhaseOf, Flatten, ItemsOf, Backed, Proper, MayFollow, Next;
      BooksOne(calls, c, claim.timeOf, Ev());
      KnownOne(calls, c, lost, used, Ev());
      WatchedOne(calls, c, claim.files, watch);
      PhaseOne(calls, c, replies);
      PostIsHeard(c.kind);
      PostedOne(calls, c);
      TextHeardOne(calls, c, stream.script);
      calls := calls + [c];
    }

    /** The next poll is due: at once after the announcement, or after the pause that follows a poll. */
    ghost predicate Due(request: RequestId, expiry: real)
      reads this
    {
      var ph := State();
      && ph.Open? && ph.request == request && ph.expiry == expiry
      && (if ph.polled then used == ph.at + 1 && clock(ph.at, 0) < expiry else used == ph.at)
    }

    /** One status poll, right after the reading. */
    method Poll(request: RequestId, expiry: real) returns (r: Reply)
      requires Valid() && Due(request, expiry) && !lost && ticks == 1 && clock(used, 0) < expiry
      modifies `used, `lost, `ticks, `calls
      ensures Aside(old(calls)) && used >= old(used) && ticks == 0 && HasCall(calls, PollKind(request, r))
      ensures State() == AfterPoll(old(State()), r, old(used) + 1) && (used == old(used) + 1 || r.answer == Killed)
    {
      hide Books, PostedEvents, RelayableOf, CoalescedStream.Valid, Sum, TextHeard, HeardAt, MayPost, Known, Watched, AllBacked, Lawful, Dated, PhaseOf, Valid, PollKind, HasCall, AfterPoll, Judge;
      IsAware();
      ghost var seen, before := used, calls;
      r := Await();
      ghost var c := Call(PollKind(request, r), false, r.answer, seen, 1, stream.taken);
      PolledInTime(before, c, request, Ev());
      Consult(c);
    }

    lemma PolledInTime(before: seq<Call>, c: Call, request: RequestId, ev: Evidence)
      requires Known(before, c.lost, c.seen, ev) && c.seen <= |ev.replies| && c.kind == PollKind(request, ReplyAt(ev.replies, c.seen))
      requires c.answer == ReplyAt(ev.replies, c.seen).answer && FitsPoll(PhaseOf(before, ev.replies), c, request, ev)
      ensures Proper(before, c, claim.timeOf, ev)
    {
      hide PhaseOf, FitsPoll, Judge, Sum;
    }

    /** The last clock reading, with no await since, is past the expiry. */
    ghost predicate Passed(expiry: real)
      reads this
    {
      ticks > 0 && expiry <= clock(used, ticks - 1)
    }

    /** How the wait ended: the last answer said so, or else, with nothing said, the expiry passed, the
        lease was lost, or the process went away. */
    ghost predicate Explained(request: RequestId, expiry: real, w: Wait)
      reads this
    {
      match State()
      case Told(r, e, told, at) => r == request && e == expiry && told == w && (w.Failed? || (at == used && ticks == 0))
      case Open(r, e, _, _) =>
        && r == request && e == expiry
        && ((w == Lapse(Expired) && Passed(expiry)) || (w == Lapse(ApprovalOutcome.Cancelled) && lost) || w == Wait.Failed(Cancellation) || w == Wait.Failed(Death))
      case _ => false
    }

    /** `_wait_for_approval`: poll until the request is decided or lapses, or the lease is lost. */
    method WaitForApproval(request: RequestId, expiry: real) returns (w: Wait)
      requires Valid() && State() == Open(request, expiry, false, used) && ticks == 0
      modifies `used, `lost, `ticks, `calls
      ensures Aside(old(calls)) && used >= old(used) && (old(lost) ==> lost) && Explained(request, expiry, w)
      ensures w.Decided? && w.ack.Some? ==> HasCall(calls, Recorded(request, w.approve, w.ack.value))
      ensures w.Lapse? ==> w.outcome == Expired || w.outcome == ApprovalOutcome.Cancelled
    {
      hide Books, PostedEvents, RelayableOf, CoalescedStream.Valid, Sum, TextHeard, HeardAt, MayPost, Known, Watched, AllBacked, Lawful, Dated, PhaseOf, Valid, HasCall, Judge, PollKind, Delivered, Concludes, CoalescedStream.Consumed, Flatten;
      IsAware();
      while !lost
        invariant Aside(old(calls)) && used >= old(used) && (old(lost) ==> lost)
        invariant Valid() && Due(request, expiry) && ticks == 0
        decreases |replies| - used
      {
        var now := Now();
        if expiry - now <= 0.0 { return Lapse(Expired); }
        var r := Poll(request, expiry);
        var judged := Judge(request, r);
          if judged.Some? { return judged.value; }
        now := Now();
        if expiry - now <= 0.0 { return Lapse(Expired); }
        var fault := Sleep();
        if fault.Some? { return Wait.Failed(fault.value); }
      }
      return Lapse(ApprovalOutcome.Cancelled);
    }

    /** The announced approval is waited for. */
    ghost predicate Waiting(request: RequestId, expiry: real)
      reads `used, `sequence, `terminal, `lost, `renewing, `calls, `watch, `handled, stream
    {
      && Valid() && handled == |stream.yielded| && !Sum(calls).tried && 1 <= Sum(calls).top == sequence <= MAX_EVENT_SEQUENCE
      && Sum(calls).awaiting == Some(request) && Announced(calls, request, expiry) && terminal.None?
      && handled > 0 && stream.yielded[handled - 1].name == ApprovalRequest && sequence <= 1 + handled
    }

    lemma WaitingFacts(request: RequestId, expiry: real)
      requires Waiting(request, expiry)
      ensures Valid() && Aware() && !Sum(calls).tried && !Sum(calls).closed && Sum(calls).refused
      ensures Announced(calls, request, expiry) && 0 < handled <= |stream.yielded| && stream.yielded[handled - 1].name == ApprovalRequest
    {
      Untried();
    }

    /** End the wait. */
    method Settle(request: RequestId, hermesId: string, expiry: real, s: Settlement)
      requires Waiting(request, expiry) && SettlementOk(calls, request, s) && hermesId == request.hermesId
      requires FitsSettlement(State(), Call(Settled(request, s), lost, Ok, used, ticks, stream.taken), request, s, Ev())
      modifies `calls, `pending
      ensures Looping(|stream.yielded|) && old(calls) <= calls && pending == Some(Approval(request, hermesId, s))
      ensures State() == Closed(request, s)
    {
      hide Books, PostedEvents, RelayableOf, CoalescedStream.Valid, Sum, TextHeard, HeardAt, MayPost, Known, Watched, AllBacked, Lawful, Dated, PhaseOf, Announced, HasCall, SettlementOk, FitsSettlement;
      ghost var c := Call(Settled(request, s), lost, Ok, used, ticks, stream.taken);
      SettledInTime(calls, c, Ev());
      Consult(c);
      pending := Some(Approval(request, hermesId, s));
    }

    lemma SettledInTime(before: seq<Call>, c: Call, ev: Evidence)
      requires Known(before, c.lost, c.seen, ev) && c.seen <= |ev.replies| && c.kind.Settled? && c.answer == Ok
      requires FitsSettlement(PhaseOf(before, ev.replies), c, c.kind.request, c.kind.settlement, ev)
      requires SettlementOk(before, c.kind.request, c.kind.settlement)
      ensures Proper(before, c, claim.timeOf, ev)
    {
      hide PhaseOf, FitsSettlement, SettlementOk, Sum;
    }

    lemma StillWaiting(was: seq<Call>, request: RequestId, expiry: real)
      requires was <= calls
      ensures Announced(was, request, expiry) ==> Announced(calls, request, expiry)
      ensures forall k :: HasCall(was, k) ==> HasCall(calls, k)
    {
      assert calls == was + calls[|was|..];
      AnnouncedMore(was, calls[|was|..], request, expiry);
      forall k | HasCall(was, k) ensures HasCall(calls, k) { HasMore(was, calls[|was|..], k); }
    }

    ghost predicate IsPending(request: RequestId, hermesId: string)
      reads this
    {
      pending.Some? && pending.value.request == request && pending.value.hermesId == hermesId
    }

    /** Why the claim gives up on the approval: it was cancelled or died, a poll failed or said something
        that cannot be acted on, Hermes refused or contradicted the decision, or the clock has passed a
        deadline since. */
    ghost predicate Forsaken(expiry: real, f: Fault)
      reads this
    {
      || f.Cancellation? || f.Death?
      || match State()
         case Told(_, _, w, _) =>
           if w.Failed? then f == w.fault
           else if w.Decided? && w.ack.None? then f == Refused
           else f == HermesFault && (w.Unknown? || PassedSince(expiry) || (w.Decided? && PassedSince(w.ack.value)))
         case Unsure(_, _, ack, _, _) => f == HermesFault && Passed(ack)
         case Stuck => f == HermesFault
         case _ => false
    }

    /** Some clock reading since the last answer is past the deadline. */
    ghost predicate PassedSince(deadline: real)
      reads this
    {
      exists k :: 0 <= k < ticks && deadline <= clock(used, k)
    }

    lemma TooLate(request: RequestId, expiry: real, w: Wait, deadline: real, k: nat)
      requires State() == Told(request, expiry, w, used) && k < ticks && deadline <= clock(used, k)
      requires if w.Decided? then w.ack.Some? && (deadline == expiry || deadline == w.ack.value) else w.Lapse? && deadline == expiry
      requires 0 < handled <= |stream.yielded| && stream.yielded[handled - 1].name == ApprovalRequest
      ensures Forsaken(expiry, HermesFault) && Undecided()
    {
      hide PhaseOf;
    }

    lemma RefusedByHermes(expiry: real, a: Answer)
      requires State() == Stuck && 0 < handled <= |stream.yielded| && stream.yielded[handled - 1].name == ApprovalRequest
      ensures Forsaken(expiry, HermesFaultOf(a)) && Undecided()
    {
      hide PhaseOf;
    }

    /** Wait for the decision and act on it. */
    method AwaitDecision(request: RequestId, hermesId: string, expiry: real) returns (flow: Flow)
      requires hermesId == request.hermesId
      requires Waiting(request, expiry) && State() == Open(request, expiry, false, used) && ticks == 0
      modifies `used, `lost, `ticks, `calls, `pending
      ensures !flow.Continue? ==> Undecided()
      ensures After(flow) && old(calls) <= calls && (old(lost) ==> lost) && !flow.Return?
      ensures flow.Continue? ==> used >= old(used) && IsPending(request, hermesId) && State() == Closed(request, pending.value.settlement)
      ensures flow.Throw? ==> Forsaken(expiry, flow.fault)
    {
      hide Books, PostedEvents, RelayableOf, CoalescedStream.Valid, Sum, TextHeard, HeardAt, MayPost, Known, Watched, AllBacked, Lawful, Dated, PhaseOf, Valid, Announced, HasCall, Authorised, Judge;
      Untried();
      var w := WaitForApproval(request, expiry);
      StillWaiting(old(calls), request, expiry);
      if w.Failed? { return Throw(w.fault); }
      if lost { return Break; }
      if w.Unknown? { return Throw(HermesFault); }
      if w == Lapse(Expired) {
        Settle(request, hermesId, expiry, Lapsed(Expired));
        return Continue;
      }
      var now := Now();
      if now >= expiry {
        Settle(request, hermesId, expiry, Lapsed(Expired));
        return Continue;
      }
      if w.Lapse? {
        flow := TurnDown(request, hermesId, expiry);
      } else if w.ack.None? {
        flow := Throw(Refused);
      } else {
        flow := Carry(request, hermesId, expiry, w.approve, w.ack.value);
      }
    }

    function HermesFaultOf(a: Answer): Fault {
      if a == Answer.Cancelled then Cancellation else if a == Killed then Death else HermesFault
    }

    /** A poll has said how the wait ends, and the one clock reading since finds the expiry ahead. */
    ghost predicate ToldInTime(request: RequestId, expiry: real, w: Wait)
      reads this
    {
      State() == Told(request, expiry, w, used) && !lost && ticks == 1 && clock(used, 0) < expiry
    }

    /** A cancelled request is turned down at Hermes, so that the blocked action cannot run. */
    method TurnDown(request: RequestId, hermesId: string, expiry: real) returns (flow: Flow)
      requires hermesId == request.hermesId
      requires Waiting(request, expiry) && ToldInTime(request, expiry, Lapse(ApprovalOutcome.Cancelled))
      modifies `used, `lost, `ticks, `calls, `pending
      ensures !flow.Continue? ==> Undecided()
      ensures After(flow) && old(calls) <= calls && (old(lost) ==> lost) && (flow.Continue? || flow.Throw?)
      ensures flow.Continue? ==>
        used == old(used) + 1 && IsPending(request, hermesId) && Begins(old(calls), Decide(request, false))
        && var receipt := replies[old(used)].receipt;
           pending.value.settlement == Lapsed(if GaveUp(receipt) then receipt.lapse else ApprovalOutcome.Cancelled)
      ensures flow.Throw? ==> Forsaken(expiry, flow.fault)
    {
      hide Books, PostedEvents, RelayableOf, CoalescedStream.Valid, Sum, TextHeard, HeardAt, MayPost, Known, Watched, AllBacked, Lawful, Dated, PhaseOf, Valid, Announced, HasCall, Authorised, Judge;
      Untried();
      var now := Now();
      if expiry - now <= 0.0 {
        TooLate(request, expiry, Lapse(ApprovalOutcome.Cancelled), expiry, 1);
        return Throw(HermesFault);
      }
      var r := Reject(request, expiry);
      if r.answer != Ok { return Throw(HermesFaultOf(r.answer)); }
      var s := if GaveUp(r.receipt) then Lapsed(r.receipt.lapse) else Lapsed(ApprovalOutcome.Cancelled);
      Settle(request, hermesId, expiry, s);
      return Continue;
    }

    /** Send a rejection right after the reading. */
    method Reject(request: RequestId, expiry: real) returns (r: Reply)
      requires Waiting(request, expiry) && State() == Told(request, expiry, Lapse(ApprovalOutcome.Cancelled), used)
      requires !lost && ticks == 2 && clock(used, 0) < expiry && clock(used, 1) < expiry
      modifies `used, `lost, `ticks, `calls
      ensures Aside(old(calls)) && Waiting(request, expiry) && (old(lost) ==> lost) && ticks == 0
      ensures Begins(old(calls), Decide(request, false)) && HasCall(calls, Decide(request, false))
      ensures r == ReplyAt(replies, old(used)) && (used == old(used) + 1 || (used == old(used) && r.answer == Killed))
      ensures State() == if r.answer == Ok then Resolved(request, Verdict(Lapse(ApprovalOutcome.Cancelled), r.receipt)) else Stuck
    {
      hide Books, PostedEvents, RelayableOf, CoalescedStream.Valid, Sum, TextHeard, HeardAt, MayPost, Known, Watched, AllBacked, Lawful, Dated, PhaseOf, Valid, Announced, HasCall, Authorised, Judge, Verdict;
      WaitingFacts(request, expiry);
      ghost var seen, before := used, calls;
      r := Await();
      ghost var c := Call(Decide(request, false), false, r.answer, seen, 2, stream.taken);
      TurnedDownInTime(before, c, request, expiry, Ev());
      Consult(c);
      StillWaiting(before, request, expiry);
    }

    lemma TurnedDownInTime(before: seq<Call>, c: Call, request: RequestId, expiry: real, ev: Evidence)
      requires Known(before, c.lost, c.seen, ev) && c.seen <= |ev.replies| && c.kind == Decide(request, false) && !c.lost
      requires c.answer == ReplyAt(ev.replies, c.seen).answer && Announced(before, request, expiry)
      requires PhaseOf(before, ev.replies) == Told(request, expiry, Lapse(ApprovalOutcome.Cancelled), c.seen)
      requires c.ticked == 2 && ev.clock(c.seen, 0) < expiry && ev.clock(c.seen, 1) < expiry
      ensures Proper(before, c, claim.timeOf, ev)
    {
      hide PhaseOf, Sum;
      assert ev.Reading(c, 0) == ev.clock(c.seen, 1);
    }

    lemma CarriedInTime(before: seq<Call>, c: Call, request: RequestId, approve: bool, expiry: real, ack: real, ev: Evidence)
      requires Known(before, c.lost, c.seen, ev) && c.seen <= |ev.replies| && c.kind == Decide(request, approve) && !c.lost
      requires c.answer == ReplyAt(ev.replies, c.seen).answer && Announced(before, request, expiry)
      requires HasCall(before, Recorded(request, approve, ack)) && ev.InTime(c, expiry, ack)
      requires PhaseOf(before, ev.replies) == Told(request, expiry, Decided(approve, Some(ack)), c.seen)
      requires c.ticked == 4 && ev.clock(c.seen, 0) < expiry
      ensures Proper(before, c, claim.timeOf, ev) && Authorised(before, request, approve)
    {
      hide PhaseOf, Sum;
    }

    /** Carry a recorded decision to Hermes while both deadlines are ahead. */
    method Carry(request: RequestId, hermesId: string, expiry: real, approve: bool, ack: real) returns (flow: Flow)
      requires hermesId == request.hermesId
      requires Waiting(request, expiry) && HasCall(calls, Recorded(request, approve, ack))
      requires ToldInTime(request, expiry, Decided(approve, Some(ack)))
      modifies `used, `lost, `ticks, `calls, `pending
      ensures !flow.Continue? ==> Undecided()
      ensures After(flow) && old(calls) <= calls && (old(lost) ==> lost) && (flow.Continue? || flow.Throw?)
      ensures calls == old(calls)
        || (Begins(old(calls), Decide(request, approve)) && Ev().InTime(calls[|old(calls)|], expiry, ack) && calls[|old(calls)|].seen == old(used))
      ensures flow.Continue? ==>
        used > old(used) && IsPending(request, hermesId) && Reconciled(approve, replies[old(used)], pending.value.settlement, old(used) + 1)
        && old(calls) < calls
      ensures flow.Throw? ==> Forsaken(expiry, flow.fault)
    {
      hide Books, PostedEvents, RelayableOf, CoalescedStream.Valid, Sum, TextHeard, HeardAt, MayPost, Known, Watched, AllBacked, Lawful, Dated, PhaseOf, Valid, Announced, HasCall, Authorised, Judge, Backed, PassedSince, Verdict, Reconciled, SettlementOk, Forsaken, Delivered, Concludes, Waiting, IsPending, Aware, ItemsOf, Flatten, Undecided;
      WaitingFacts(request, expiry);
      var now := Now();
      if expiry <= now || ack <= now {
        TooLate(request, expiry, Decided(approve, Some(ack)), if expiry <= now then expiry else ack, 1);
        return Throw(HermesFault);
      }
      var later := Now();
      var latest := Now();
      if expiry - later <= 0.0 || ack - latest <= 0.0 {
        TooLate(request, expiry, Decided(approve, Some(ack)), if expiry <= later then expiry else ack, if expiry <= later then 2 else 3);
        return Throw(HermesFault);
      }
      flow := Bring(request, hermesId, expiry, approve, ack);
    }

    /** The last three readings were in time: the decision goes out. */
    method Bring(request: RequestId, hermesId: string, expiry: real, approve: bool, ack: real) returns (flow: Flow)
      requires hermesId == request.hermesId
      requires Waiting(request, expiry) && HasCall(calls, Recorded(request, approve, ack))
      requires State() == Told(request, expiry, Decided(approve, Some(ack)), used) && !lost && ticks == 4
      requires clock(used, 0) < expiry && clock(used, 1) < expiry && clock(used, 1) < ack && clock(used, 2) < expiry && clock(used, 3) < ack
      modifies `used, `lost, `ticks, `calls, `pending
      ensures !flow.Continue? ==> Undecided()
      ensures After(flow) && old(calls) <= calls && (flow.Continue? || flow.Throw?)
      ensures Begins(old(calls), Decide(request, approve)) && Ev().InTime(calls[|old(calls)|], expiry, ack) && calls[|old(calls)|].seen == old(used)
      ensures flow.Continue? ==>
        used > old(used) && IsPending(request, hermesId) && Reconciled(approve, replies[old(used)], pending.value.settlement, old(used) + 1)
      ensures flow.Throw? ==> Forsaken(expiry, flow.fault)
    {
      hide Books, PostedEvents, RelayableOf, CoalescedStream.Valid, Sum, TextHeard, HeardAt, MayPost, Known, Watched, AllBacked, Lawful, Dated, PhaseOf, Valid, Announced, HasCall, Authorised, Judge, Backed, PassedSince, Verdict, Reconciled, SettlementOk, Forsaken, Delivered, Concludes, Waiting, IsPending, Aware, ItemsOf, Flatten, Undecided;
      var r := Deliver(request, approve, expiry, ack);
      WaitingFacts(request, expiry);
      if r.answer != Ok && r.answer != Lost {
        RefusedByHermes(expiry, r.answer);
        return Throw(HermesFaultOf(r.answer));
      }
      flow := Acknowledge(request, hermesId, expiry, approve, ack, r);
    }

    /** How the wait ended when Hermes answered the decision like this, or, if the answer was lost, what
        Hermes has reported since: a lapse comes before the decision. */
    ghost predicate Reconciled(approve: bool, r: Reply, s: Settlement, since: nat)
      reads this
    {
      if r.answer == Ok then s == Verdict(Decided(approve, None), r.receipt)
      else (s == ByDecision(approve) && TakenReported(replies, approve, since, used)) || LapseReported(replies, s, since, used)
    }

    /** Hermes has answered, or its answer was lost: find out how the wait ended. */
    method Acknowledge(request: RequestId, hermesId: string, expiry: real, approve: bool, ack: real, r: Reply) returns (flow: Flow)
      requires hermesId == request.hermesId
      requires Waiting(request, expiry) && SettlementOk(calls, request, ByDecision(approve)) && ticks == 0
      requires 0 < used && r == replies[used - 1] && (r.answer == Ok || r.answer == Lost)
      requires State() == Heeded(request, approve, ack, r)
      modifies `used, `lost, `ticks, `calls, `pending
      ensures !flow.Continue? ==> Undecided()
      ensures After(flow) && old(calls) <= calls && (old(lost) ==> lost) && (flow.Continue? || flow.Throw?)
      ensures flow.Continue? ==>
        used >= old(used) && IsPending(request, hermesId) && Reconciled(approve, r, pending.value.settlement, old(used))
      ensures flow.Throw? ==> r.answer == Lost && Forsaken(expiry, flow.fault)
    {
      hide Books, PostedEvents, RelayableOf, CoalescedStream.Valid, Sum, TextHeard, HeardAt, MayPost, Known, Watched, AllBacked, Lawful, Dated, PhaseOf, Valid, Announced, HasCall, Authorised, Judge, Backed;
      Untried();
      var s := if GaveUp(r.receipt) then Lapsed(r.receipt.lapse) else ByDecision(approve);
      if r.answer == Lost {
        var fault;
        s, fault := Reconcile(request, approve, ack);
        StillWaiting(old(calls), request, expiry);
        AuthorisedStill(old(calls), request, approve);
        if fault.Some? { return Throw(fault.value); }
      }
      Settle(request, hermesId, expiry, s);
      return Continue;
    }

    lemma AuthorisedStill(was: seq<Call>, request: RequestId, approve: bool)
      requires was <= calls && Authorised(was, request, approve)
      ensures Authorised(calls, request, approve)
    {
      assert calls == was + calls[|was|..];
      AuthorisedMore(was, calls[|was|..], request, approve);
    }

    /** Where the approval stands when Hermes has answered the decision like this. */
    ghost function Heeded(request: RequestId, approve: bool, ack: real, r: Reply): Phase
      reads `used
    {
      if r.answer == Ok then Resolved(request, Verdict(Decided(approve, Some(ack)), r.receipt))
      else if r.answer == Lost then Unsure(request, approve, ack, false, used)
      else Stuck
    }

    /** Send the decision right after the three readings. */
    method Deliver(request: RequestId, approve: bool, expiry: real, ack: real) returns (r: Reply)
      requires Waiting(request, expiry) && HasCall(calls, Recorded(request, approve, ack))
      requires State() == Told(request, expiry, Decided(approve, Some(ack)), used) && !lost && ticks == 4
      requires clock(used, 0) < expiry && clock(used, 1) < expiry && clock(used, 1) < ack && clock(used, 2) < expiry && clock(used, 3) < ack
      modifies `used, `lost, `ticks, `calls
      ensures Aside(old(calls)) && Waiting(request, expiry) && (old(lost) ==> lost) && ticks == 0
      ensures Begins(old(calls), Decide(request, approve)) && SettlementOk(calls, request, ByDecision(approve))
      ensures Ev().InTime(calls[|old(calls)|], expiry, ack) && calls[|old(calls)|].seen == old(used)
      ensures r == ReplyAt(replies, old(used)) && (used == old(used) + 1 || (used == old(used) && r.answer == Killed))
      ensures State() == Heeded(request, approve, ack, r)
    {
      hide Books, PostedEvents, RelayableOf, CoalescedStream.Valid, Sum, TextHeard, HeardAt, MayPost, Known, Watched, AllBacked, Lawful, Dated, PhaseOf, Valid, Announced, HasCall, Authorised, Judge, Verdict;
      WaitingFacts(request, expiry);
      ghost var seen, before := used, calls;
      r := Await();
      ghost var c := Call(Decide(request, approve), false, r.answer, seen, 4, stream.taken);
      CarriedInTime(calls, c, request, approve, expiry, ack, Ev());
      Consult(c);
      AuthorisedMore(before, [c], request, approve);
      StillWaiting(before, request, expiry);
    }

    /** The next question to Hermes is due: at once after the lost answer, or after a pause. */
    ghost predicate Asking(request: RequestId, approve: bool, ack: real)
      reads this
    {
      var ph := State();
      && ph.Unsure? && ph.request == request && ph.approve == approve && ph.ack == ack
      && used == if ph.asked then ph.at + 1 else ph.at
    }

    /** One question to Hermes, right after the reading. */
    method Query(request: RequestId, approve: bool, ack: real) returns (r: Reply)
      requires Valid() && Asking(request, approve, ack) && ticks == 1 && clock(used, 0) < ack
      modifies `used, `lost, `ticks, `calls
      ensures Aside(old(calls)) && (old(lost) ==> lost) && ticks == 0
      ensures r == ReplyAt(replies, old(used)) && (used == old(used) + 1 || (used == old(used) && r.answer == Killed))
      ensures State() == AfterQuery(old(State()), r, old(used) + 1)
    {
      hide Books, PostedEvents, RelayableOf, CoalescedStream.Valid, Sum, TextHeard, HeardAt, MayPost, Known, Watched, AllBacked, Lawful, Dated, PhaseOf, Valid, HasCall, AfterQuery;
      IsAware();
      ghost var was, seen, before := lost, used, calls;
      r := Await();
      ghost var c := Call(Queried(request), was, r.answer, seen, 1, stream.taken);
      QueriedInTime(before, c, Ev());
      Consult(c);
    }

    lemma QueriedInTime(before: seq<Call>, c: Call, ev: Evidence)
      requires Known(before, c.lost, c.seen, ev) && c.seen <= |ev.replies| && c.kind.Queried?
      requires c.answer == ReplyAt(ev.replies, c.seen).answer && FitsQuery(PhaseOf(before, ev.replies), c, c.kind.request, ev)
      ensures Proper(before, c, claim.timeOf, ev)
    {
      hide PhaseOf, FitsQuery, Sum;
    }

    /** `_reconcile_hermes_approval`: ask what became of a decision whose answer was lost. */
    method Reconcile(request: RequestId, approve: bool, deadline: real) returns (s: Settlement, fault: Option<Fault>)
      requires Valid() && State() == Unsure(request, approve, deadline, false, used) && ticks == 0
      modifies `used, `lost, `ticks, `calls
      ensures Aside(old(calls)) && (old(lost) ==> lost) && used >= old(used)
      ensures fault.None? ==> State() == Resolved(request, s) && (s == ByDecision(approve) || s == Lapsed(Expired) || s == Lapsed(ApprovalOutcome.Cancelled))
      ensures fault.None? ==> (s == ByDecision(approve) && TakenReported(replies, approve, old(used), used)) || LapseReported(replies, s, old(used), used)
      ensures fault.Some? ==> Forsaken(deadline, fault.value) && (State().Unsure? || State().Stuck?)
    {
      hide Books, PostedEvents, RelayableOf, CoalescedStream.Valid, Sum, TextHeard, HeardAt, MayPost, Known, Watched, AllBacked, Lawful, Dated, PhaseOf, Valid;
      IsAware();
      s := ByDecision(approve);
      while true
        invariant Aside(old(calls)) && (old(lost) ==> lost) && used >= old(used) && Valid() && Asking(request, approve, deadline) && ticks == 0
        decreases |replies| - used
      {
        var now := Now();
        if deadline - now <= 0.0 { return s, Some(HermesFault); }
        var r := Query(request, approve, deadline);
        if r.answer == Ok && r.receipt.Taken? {
          var expected := if approve then Approved else ApprovalOutcome.Rejected;
          return ByDecision(approve), if r.receipt.outcome == Some(expected) then None else Some(HermesFault);
        }
        if r.answer == Ok && GaveUp(r.receipt) {
          return Lapsed(r.receipt.lapse), if r.receipt.consistent then None else Some(HermesFault);
        }
        if r.answer != Ok && r.answer != Lost { return s, Some(HermesFaultOf(r.answer)); }
        fault := Sleep();
        if fault.Some? { return; }
      }
    }

    predicate Presentable(p: Payload) {
      && p.ApprovalAsk? && p.approvalId != "" && p.action in {"terminal", "execute_code", "plugin_tool"}
      && 1 <= |p.caption| <= MAX_APPROVAL_LABEL_CHARS && '\0' !in p.caption
      && p.preview != "" && '\0' !in p.preview && Utf8Len(p.preview) <= MAX_APPROVAL_PREVIEW_BYTES
    }

    /** What is to be posted for the event, or nothing if it does not fit the claim so far. */
    ghost function Wanted(e: HermesEvent): Option<Body>
      reads this
    {
      if e.profile != claim.profile || e.session != claim.session || terminal.Some? then None
      else if Relayable(e) then if Overlong(e) then None else Some(Relayed(e))
      else if e.name == ApprovalRequest then
        if pending.Some? || !Presentable(e.payload) then None else
          match claim.timeOf(e.payload.expires)
          case None => None
          case Some(expiry) =>
            if clock(used, ticks) < expiry <= clock(used, ticks) + MAX_APPROVAL_LIFETIME
            then Some(AwaitingAction(RequestId(claim.attempt, e.run, e.payload.approvalId), e.payload, expiry)) else None
      else if e.name == ApprovalResponded then
        if pending.Some? && e.payload.ApprovalAnswer? && e.payload.approvalId == pending.value.hermesId
           && Agrees(pending.value.settlement, e.payload.outcome)
        then Some(ApprovalResolved(pending.value.request, e.payload.outcome)) else None
      else None
    }

    predicate Overlong(e: HermesEvent)
      reads this
    {
      e.IsDelta() && claim.routine && textBytes + Utf8Len(e.Text()) > MAX_ROUTINE_TEXT_BYTES
    }

    /** The event was refused without a call, or answered by the wanted post before anything else. */
    ghost predicate Answered(was: seq<Call>, q: nat, wanted: Option<Body>, flow: Flow)
      reads this
    {
      match wanted
      case None => flow == Throw(HermesFault) && calls == was
      case Some(body) => Begins(was, Event(q, body))
    }

    // Refusals, by what is wrong with the event in hand.

    lemma Balks(e: HermesEvent)
      requires Holding(e) && Unfit(claim, clock, stream.yielded[..handled], e, State())
      ensures Faulted()
    {
      hide Unfit, Valid, PhaseOf, Sum;
    }

    lemma NoTextNoBytes(e: HermesEvent)
      ensures !e.IsDelta() ==> Utf8Len(e.Text()) == 0
    {
    }

    lemma NotOurs(e: HermesEvent)
      requires Holding(e)
      requires e.profile != claim.profile || terminal.Some? || if e.name == ExecutionCompleted then pending.Some?
        else e.session != claim.session || !(Relayable(e) || e.name == ApprovalRequest || e.name == ApprovalResponded)
      ensures Faulted()
    {
      hide Valid, PhaseOf, Sum, Faulted;
      Balks(e);
    }

    lemma TooLong(e: HermesEvent)
      requires Holding(e) && Counted(handled) && e.IsDelta() && claim.routine && textBytes + Utf8Len(e.Text()) > MAX_ROUTINE_TEXT_BYTES
      ensures Faulted()
    {
      BytesOne(stream.yielded[..handled], e);
      hide Valid, PhaseOf, Sum, Faulted, TextOf, Utf8Len;
      Balks(e);
    }

    lemma NotAskable(e: HermesEvent, n: nat, k: nat)
      requires Holding(e) && e.name == ApprovalRequest
      requires pending.Some? || !Presentable(e.payload) || claim.timeOf(e.payload.expires).None?
        || !(clock(n, k) < claim.timeOf(e.payload.expires).value <= clock(n, k) + MAX_APPROVAL_LIFETIME)
      ensures Faulted()
    {
      hide Valid, PhaseOf, Sum, Faulted, Utf8Len;
      Balks(e);
    }

    lemma NotAnswerable(e: HermesEvent)
      requires Holding(e) && e.name == ApprovalResponded
      requires pending.None? || !e.payload.ApprovalAnswer? || e.payload.approvalId != pending.value.hermesId || !Agrees(pending.value.settlement, e.payload.outcome)
      ensures Faulted()
    {
      hide Valid, PhaseOf, Sum, Faulted;
      Balks(e);
    }

    lemma CountOne(e: HermesEvent)
      requires Holding(e) && Counted(handled)
      ensures claim.routine ==> textBytes + Utf8Len(e.Text()) == Utf8Len(TextOf(stream.yielded))
      ensures !e.IsDelta() ==> Utf8Len(e.Text()) == 0
      ensures stream.yielded[..|stream.yielded|] == stream.yielded
    {
      NoTextNoBytes(e);
      hide TextOf, Utf8Len, Looping, HermesEvent.Text, HermesEvent.IsDelta;
      BytesOne(stream.yielded[..handled], e);
      assert stream.yielded == stream.yielded[..handled] + [e];
    }

    lemma HoldingFacts(e: HermesEvent)
      requires Holding(e)
      ensures Valid() && Aware() && !Sum(calls).tried && Sum(calls).top == sequence && 1 <= sequence <= MAX_EVENT_SEQUENCE
      ensures !Sum(calls).closed && Sum(calls).refused && sequence <= 1 + handled
      ensures |stream.yielded| == handled + 1 && stream.yielded[..handled + 1] == stream.yielded
    {
      hide Sum, PhaseOf, PostedEvents, RelayableOf, Unfit, CoalescedStream.Valid, AllBacked, Lawful, Dated, TextHeard, Known, Watched;
    }

    lemma LostIsTrouble()
      requires Aware() && lost
      ensures Troubled(replies, used)
    {
    }

    method HandleRequest(e: HermesEvent) returns (flow: Flow)
      requires Holding(e) && !lost && sequence < MAX_EVENT_SEQUENCE && terminal.None? && e.profile == claim.profile && e.session == claim.session && e.name == ApprovalRequest
      modifies `used, `lost, `calls, `sequence, `handled, `ticks, `pending, stream`done
      ensures old(lost) ==> lost
      ensures (flow.Throw? ==> Faulted()) && (flow.Return? ==> Troubled(replies, used)) && (flow.Continue? ==> stream.done == old(stream.done))
      ensures After(flow) && (flow.Continue? ==> used >= old(used))
      ensures Answered(old(calls), old(sequence) + 1, old(Wanted(e)), flow)
      ensures flow.Continue? ==> e.payload.ApprovalAsk? && IsPending(RequestId(claim.attempt, e.run, e.payload.approvalId), e.payload.approvalId)
    {
      hide Books, PostedEvents, RelayableOf, CoalescedStream.Valid, Sum, HasCall, Utf8Len, TextHeard, HeardAt, MayPost, Known, Watched, AllBacked, Lawful, Dated, PhaseOf, Balked, Unfit, Withheld, Spent, Looping, Valid, MaySay, Says, Delivered, Concludes;
      HoldingFacts(e);
      if pending.Some? || !Presentable(e.payload) {
        NotAskable(e, 0, 0);
        return Throw(HermesFault);
      }
      var expiry := claim.timeOf(e.payload.expires);
      if expiry.None? {
        NotAskable(e, 0, 0);
        return Throw(HermesFault);
      }
      var now := Now();
      if expiry.value <= now || expiry.value > now + MAX_APPROVAL_LIFETIME {
        NotAskable(e, used, ticks - 1);
        return Throw(HermesFault);
      }
      var request := RequestId(claim.attempt, e.run, e.payload.approvalId);
      MayAsk(e, request, expiry.value);
      var a := Post(e, AwaitingAction(request, e.payload, expiry.value));
      if a != Ok {
        flow := GiveUp(a);
      } else {
        AnnouncedNow(sequence, request, e.payload, expiry.value);
        flow := AwaitDecision(request, e.payload.approvalId, expiry.value);
      }
    }

    lemma MayAsk(e: HermesEvent, request: RequestId, expiry: real)
      requires Holding(e) && pending.None?
      ensures var body := AwaitingAction(request, e.payload, expiry); MaySay(calls, sequence + 1, body) && Says(State(), body) && State() == Idle
      ensures Sum(calls).top == sequence
    {
      hide Valid, PhaseOf, Sum;
    }

    lemma AnnouncedNow(q: nat, request: RequestId, ask: Payload, expiry: real)
      requires HasCall(calls, Event(q, AwaitingAction(request, ask, expiry)))
      ensures Announced(calls, request, expiry)
    {
      var i :| 0 <= i < |calls| && calls[i].kind == Event(q, AwaitingAction(request, ask, expiry));
      assert Announces(calls[i].kind, request, expiry);
    }

    method HandleResponse(e: HermesEvent) returns (flow: Flow)
      requires Holding(e) && !lost && sequence < MAX_EVENT_SEQUENCE && terminal.None? && e.profile == claim.profile && e.session == claim.session && e.name == ApprovalResponded
      modifies `used, `lost, `ticks, `calls, `sequence, `handled, `pending, stream`done
      ensures old(lost) ==> lost
      ensures (flow.Throw? ==> Faulted()) && (flow.Return? ==> Troubled(replies, used)) && (flow.Continue? ==> stream.done == old(stream.done))
      ensures After(flow) && (flow.Continue? ==> used >= old(used))
      ensures Answered(old(calls), old(sequence) + 1, old(Wanted(e)), flow)
      ensures flow.Continue? ==> pending.None?
    {
      hide Books, PostedEvents, RelayableOf, CoalescedStream.Valid, Sum, HasCall, TextHeard, HeardAt, MayPost, Known, Watched, AllBacked, Lawful, Dated, PhaseOf, Balked, Unfit, Withheld, Spent, Undecided;
      Untried();
      if pending.None? || !e.payload.ApprovalAnswer? {
        NotAnswerable(e);
        return Throw(HermesFault);
      }
      var p := pending.value;
      if e.payload.approvalId != p.hermesId || !Agrees(p.settlement, e.payload.outcome) {
        NotAnswerable(e);
        return Throw(HermesFault);
      }
      var a := Post(e, ApprovalResolved(p.request, e.payload.outcome));
      if a != Ok {
        flow := GiveUp(a);
      } else {
        pending := None;
        flow := Continue;
      }
    }

    // -------------------------------------------------------------- the event loop

    /** Post a delta or an activity; the proof hold then waits for the lease to end. */
    method Forward(e: HermesEvent) returns (flow: Flow)
      requires Holding(e) && !lost && sequence < MAX_EVENT_SEQUENCE && terminal.None? && Relayable(e)
      modifies `used, `lost, `ticks, `calls, `sequence, `handled, `heldOnce, stream`done
      ensures old(lost) ==> lost
      ensures (flow.Throw? ==> LastFailed(replies, used)) && (flow.Return? ==> Troubled(replies, used)) && (flow.Continue? ==> stream.done == old(stream.done))
      ensures After(flow) && (flow.Continue? ==> used >= old(used))
      ensures Begins(old(calls), Event(old(sequence) + 1, Relayed(e)))
      ensures claim.proofHold && !old(heldOnce) ==> !flow.Continue?
    {
      hide Books, PostedEvents, RelayableOf, CoalescedStream.Valid, Sum, HasCall, TextHeard, HeardAt, MayPost, Known, Watched, AllBacked, Lawful, Dated, PhaseOf;
      Untried();
      StillPending(Event(sequence + 1, Relayed(e)));
      var a := Post(e, Relayed(e));
      StillWaiting(old(calls), RequestId("", "", ""), 0.0);
      if a != Ok {
        flow := GiveUp(a);
      } else if claim.proofHold && !heldOnce {
        heldOnce := true;
        flow := HoldLease();
      } else {
        flow := Continue;
      }
    }

    /** Posting an event that is not about approvals leaves the pending one as it is. */
    lemma StillPending(k: Kind)
      requires k.Event? && k.body.Relayed?
      ensures forall a :: Note(Sum(calls), k, a).awaiting == Sum(calls).awaiting && Note(Sum(calls), k, a).tried == Sum(calls).tried
    {
    }

    method HoldLease() returns (flow: Flow)
      requires Valid() && !Sum(calls).tried
      modifies `used, `lost, `ticks
      ensures old(lost) ==> lost
      ensures flow.Throw? ==> LastFailed(replies, used)
      ensures After(flow) && !flow.Continue?
    {
      hide Books, PostedEvents, RelayableOf, CoalescedStream.Valid, Sum, Flatten, ItemsOf, Delivered, Concludes, Known, TextHeard, HeardAt, MayPost, AllBacked, Lawful, Dated;
      Untried();
      while !lost
        invariant Valid() && (old(lost) ==> lost)
        decreases |replies| - used
      {
        var fault := Sleep();
        if fault.Some? { return Throw(fault.value); }
      }
      return Break;
    }

    /** The event budget is used up: stop the producer and report into the reserved slot. */
    method ExhaustBudget() returns (flow: Flow)
      requires Valid() && !Sum(calls).tried && !lost
      modifies `used, `lost, `ticks, `calls, stream`done
      ensures old(lost) ==> lost
      ensures Sum(calls).top == Sum(old(calls)).top
      ensures After(flow) && !flow.Continue? && !flow.Break?
      ensures flow == Throw(Cancellation) || flow == Throw(Death) || Begins(old(calls), BudgetCall())
    {
      hide Books, PostedEvents, RelayableOf, CoalescedStream.Valid, Sum, Flatten, ItemsOf, TextHeard, HeardAt, MayPost, Known, Watched, AllBacked, Lawful, Dated, PhaseOf;
      Untried();
      stream.Close();
      var fault := Sleep();
      if fault.Some? { return Throw(fault.value); }
      var a := SendBudget();
      if a == Lost && claim.routine {
        flow := StopQuietly("routine_result_response_lost");
      } else if a == Answer.Cancelled || a == Killed || a == TimedOut {
        flow := Throw(FaultOf(a));
      } else {
        flow := Return;
      }
    }

    method SendBudget() returns (a: Answer)
      requires Valid() && !Sum(calls).tried
      modifies `used, `lost, `ticks, `calls
      ensures old(lost) ==> lost
      ensures Sum(calls).top == Sum(old(calls)).top
      ensures Valid() && Sum(calls).tried && (a != Ok ==> !Sum(calls).closed) && Begins(old(calls), BudgetCall())
    {
      hide MayFollow, Retried, Books, PostedEvents, RelayableOf, CoalescedStream.Valid, Sum, Flatten, ItemsOf, TextHeard, HeardAt, MayPost, Known, Watched, AllBacked, Lawful, Dated, PhaseOf;
      Untried();
      BelowTerminal();
      BudgetMay();
      a := SendRetry(BudgetCall());
    }

    function BudgetCall(): Kind {
      if claim.routine then Routine(MAX_TERMINAL_SEQUENCE, FailureReport) else Fail(MAX_TERMINAL_SEQUENCE, "event_budget_exhausted")
    }

    lemma BudgetMay()
      requires Valid() && !Sum(calls).tried
      ensures MayFollow(calls, BudgetCall(), lost) && Retried(Sum(calls), BudgetCall())
    {
      Untried();
    }

    lemma BelowTerminal()
      requires Valid()
      ensures Sum(calls).top < MAX_TERMINAL_SEQUENCE
    {
    }

    /** One turn of the event loop. */
    method Handle(e: HermesEvent) returns (flow: Flow)
      requires Holding(e) && Counted(handled)
      modifies this, stream`done
      ensures old(lost) ==> lost
      ensures (flow.Throw? ==> Faulted()) && (flow.Return? ==> Troubled(replies, used) || Spent())
      ensures flow.Continue? ==> Counted(|stream.yielded|) && stream.done == old(stream.done)
      ensures After(flow) && (flow.Continue? ==> used >= old(used))
      ensures renewing == old(renewing) && watch == old(watch)
      ensures old(lost) ==> flow == Break && calls == old(calls)
      ensures !old(lost) && e.name == ExecutionCompleted ==>
        (calls == old(calls)
         && if e.profile == claim.profile && old(terminal.None? && pending.None?) then flow == Continue && terminal == Some(e) else flow == Throw(HermesFault))
      ensures !old(lost) && e.name != ExecutionCompleted && old(sequence) < MAX_EVENT_SEQUENCE ==>
        Answered(old(calls), old(sequence) + 1, old(Wanted(e)), flow)
      ensures !old(lost) && e.name != ExecutionCompleted && old(sequence) >= MAX_EVENT_SEQUENCE ==>
        flow.Throw? || (flow.Return? && Begins(old(calls), BudgetCall()))
    {
      hide Books, PostedEvents, RelayableOf, CoalescedStream.Valid, Sum, HasCall, Flatten, ItemsOf, PendingOk, Utf8Len, TextOf, Presentable, TextHeard, HeardAt, MayPost, Known, Watched, AllBacked, Lawful, Dated, PhaseOf, Valid, Balked, Unfit, Withheld, Undecided, Looping;
      HoldingFacts(e);
      CountOne(e);
      if lost { return Break; }
      if e.profile != claim.profile || terminal.Some? {
        NotOurs(e);
        return Throw(HermesFault);
      }
      if e.name == ExecutionCompleted {
        if pending.Some? {
          NotOurs(e);
          return Throw(HermesFault);
        }
        TakeTerminal(e);
        return Continue;
      }
      if e.session != claim.session || !(Relayable(e) || e.name == ApprovalRequest || e.name == ApprovalResponded) {
        NotOurs(e);
        return Throw(HermesFault);
      }
      if e.IsDelta() && claim.routine {
        if textBytes + Utf8Len(e.Text()) > MAX_ROUTINE_TEXT_BYTES {
          TooLong(e);
          return Throw(HermesFault);
        }
        textBytes := textBytes + Utf8Len(e.Text());
      }
      if sequence >= MAX_EVENT_SEQUENCE {
        flow := ExhaustBudget();
      } else if e.name == ApprovalRequest {
        flow := HandleRequest(e);
      } else if e.name == ApprovalResponded {
        flow := HandleResponse(e);
      } else {
        flow := Forward(e);
      }
    }

    /** The terminal event is kept for the end. */
    method TakeTerminal(e: HermesEvent)
      requires Holding(e) && e.name == ExecutionCompleted && pending.None?
      modifies `terminal, `handled
      ensures Looping(|stream.yielded|) && terminal == Some(e)
    {
      hide Books, PostedEvents, RelayableOf, CoalescedStream.Valid, Sum, HasCall, Flatten, ItemsOf, PendingOk, TextHeard, HeardAt, MayPost, Known, Watched, AllBacked, Lawful, Dated, PhaseOf;
      Untried();
      HandledOne(e);
      terminal, handled := Some(e), handled + 1;
    }

    /** The loop over the stream, up to its end. */
    method Follow() returns (flow: Flow)
      requires Looping(|stream.yielded|) && Counted(|stream.yielded|) && stream.raised == 0 && renewing
      requires !lost && stream.done ==> stream.EndSeen() || stream.FailureSeen()
      modifies this, stream
      ensures old(lost) ==> lost
      ensures After(flow)
      ensures renewing && watch == old(watch)
      ensures flow.Continue? ==> !lost && Flatten(stream.groups) == stream.Consumed() && stream.done && stream.EndSeen()
      ensures (flow.Throw? ==> Faulted()) && (flow.Return? ==> Troubled(replies, used) || Spent())
    {
      hide Books, PostedEvents, RelayableOf, CoalescedStream.Valid, Sum, HasCall, Flatten, ItemsOf, PendingOk, TextHeard, HeardAt, MayPost, Known, Watched, AllBacked, Lawful, Dated, PhaseOf, Balked, Unfit, Undecided, Spent, Valid, Looping, Counted, Withheld;
      while true
        invariant Looping(|stream.yielded|) && Counted(|stream.yielded|) && (old(lost) ==> lost) && renewing && watch == old(watch)
        invariant stream.raised == 0 && (!lost && stream.done ==> stream.EndSeen() || stream.FailureSeen())
        decreases |replies| - used
      {
        LoopFacts();
        var fault, out := ReadOn();
        if fault.Some? { return Throw(fault.value); }
        match out
        case Waiting => return Throw(Death);
        case Raise(_) => return Throw(HermesFault);
        case Stop => return if lost then Break else Continue;
        case Yield(e) =>
          flow := Handle(e);
          if !flow.Continue? { return; }
      }
    }

    /** What reading on brings: the next event in hand, the end of the stream, or its failure. */
    ghost predicate Read(out: Output)
      reads this, stream
    {
      match out
      case Yield(e) => Holding(e) && Counted(handled) && stream.raised == 0 && (!lost && stream.done ==> stream.EndSeen() || stream.FailureSeen())
      case Stop => Looping(|stream.yielded|) && Flatten(stream.groups) == stream.Consumed() && stream.done && (lost || stream.EndSeen())
      case _ => Withheld()
    }

    /** Await anything, then read on; a lost lease closes the stream. */
    method ReadOn() returns (fault: Option<Fault>, out: Output)
      requires Looping(|stream.yielded|) && Counted(|stream.yielded|) && stream.raised == 0 && renewing
      requires !lost && stream.done ==> stream.EndSeen() || stream.FailureSeen()
      modifies `used, `lost, `ticks, stream
      ensures old(lost) ==> lost
      ensures Valid() && !Sum(calls).tried && !Sum(calls).closed && Sum(calls).refused && used <= |replies|
      ensures if fault.Some? then LastFailed(replies, used) && (fault.value == Cancellation || fault.value == Death) else used == old(used) + 1 && Read(out)
    {
      hide Books, PostedEvents, RelayableOf, CoalescedStream.Valid, Sum, HasCall, Flatten, ItemsOf, PendingOk, TextHeard, HeardAt, MayPost, Known, Watched, AllBacked, Lawful, Dated, PhaseOf, Valid, Read, Counted, Rests;
      IsAware();
      Untried();
      out := Output.Stop;
      fault := Sleep();
      if fault.Some? { return; }
      out := TakeNext();
    }

    /** Take the next event off the stream, which a lost lease closes. */
    method TakeNext() returns (out: Output)
      requires Looping(|stream.yielded|) && Counted(|stream.yielded|) && stream.raised == 0 && renewing
      requires !lost && stream.done ==> stream.EndSeen() || stream.FailureSeen()
      modifies stream
      ensures Valid() && Read(out)
    {
      hide Books, PostedEvents, RelayableOf, CoalescedStream.Valid, Sum, HasCall, Flatten, ItemsOf, PendingOk, TextHeard, HeardAt, MayPost, Known, Watched, AllBacked, Lawful, Dated, PhaseOf, Balked, Unfit, Undecided, Spent, TextOf, Utf8Len, Concludes, Delivered, Rests, Aware;
      Untried();
      ghost var before := stream.yielded;
      out := stream.Next();
      NextKept(before);
      if !stream.done { NotEnded(); }
      if lost { stream.Close(); }
    }

    lemma LoopFacts()
      requires Looping(|stream.yielded|)
      ensures Valid() && used <= |replies| && !Sum(calls).tried
    {
    }

    lemma NotEnded()
      requires stream.Valid() && !stream.done
      ensures !stream.EndSeen()
    {
    }

    /** Reading on does not touch what has been read. */
    lemma NextKept(before: seq<HermesEvent>)
      requires before <= stream.yielded && handled == |before|
      ensures stream.yielded[..handled] == before == before[..handled]
    {
    }

    // -------------------------------------------------------------- before and after

    /** Everything up to the first event: checks, staging, bootstrap, and the dispatched event. */
    method Prepare() returns (flow: Flow)
      requires Valid() && calls == [] && sequence == 0 && !lost && pending.None? && terminal.None? && stream.yielded == [] && handled == 0
      modifies this
      ensures (old(lost) ==> lost) && handled == 0 && textBytes == old(textBytes) && (flow.Continue? ==> renewing)
      ensures After(flow) && !flow.Break? && pending.None? && terminal.None?
      ensures flow.Continue? ==> calls != [] && calls[0].kind == Event(1, Dispatched)
      ensures !flow.Continue? ==> !claim.valid || (claim.routine && claim.continuation) || Troubled(replies, used)
      ensures claim.files && claim.valid && !(claim.routine && claim.continuation) ==> renewing && watch <= old(used)
      ensures claim.files && calls != [] && calls[0].kind.Event? ==> watch <= calls[0].seen
      ensures !claim.valid ==> flow == Throw(Refused) && calls == []
      ensures claim.valid && calls != [] ==>
        calls[0].kind == if claim.routine && claim.continuation then Routine(MAX_TERMINAL_SEQUENCE, UnavailableReport) else Event(1, Dispatched)
    {
      hide PostedEvents, RelayableOf, CoalescedStream.Valid, Flatten, ItemsOf, HasCall, TextHeard, HeardAt, MayPost, Known, Watched, AllBacked, Lawful, Dated, PhaseOf;
      Untried();
      if !claim.valid { return Throw(Refused); }
      if claim.routine && claim.continuation {
        var a := SendRetry(Routine(MAX_TERMINAL_SEQUENCE, UnavailableReport));
        return if a == Ok then Return else Throw(FaultOf(a));
      }
      if claim.files { StartRenewal(); }
      var r := Await();
      if r.answer == Lost { return Throw(BootstrapLost); }
      if r.answer != Ok { return Throw(FaultOf(r.answer)); }
      if lost {
        LostIsTrouble();
        return Throw(LeaseFenced);
      }
      flow := Dispatch();
    }

    lemma FirstIsFree()
      requires calls == []
      ensures MayFollow(calls, Event(1, Dispatched), false) && State() == Idle && Sum(calls) == Ledger(0, false, false, None, true, None)
    {
    }

    method Dispatch() returns (flow: Flow)
      requires Valid() && calls == [] && sequence == 0 && !lost && pending.None? && terminal.None? && stream.yielded == [] && handled == 0
      requires claim.files ==> renewing
      modifies `used, `lost, `ticks, `calls, `sequence, `renewing, `watch
      ensures (old(lost) ==> lost) && (flow.Continue? ==> renewing) && (old(renewing) ==> renewing && watch == old(watch))
      ensures !flow.Continue? ==> Troubled(replies, used)
      ensures After(flow) && !flow.Break? && Begins([], Event(1, Dispatched)) && calls[0].seen == old(used)
    {
      hide Books, Sum, MayFollow, PostedEvents, RelayableOf, CoalescedStream.Valid, Flatten, ItemsOf, HasCall, TextHeard, HeardAt, MayPost, Known, Watched, AllBacked, Lawful, Dated, PhaseOf;
      FirstIsFree();
      Untried();
      sequence := 1;
      var a := SendRetry(Event(1, Dispatched));
      if a == Lost {
        flow := Stop("dispatch_response_lost");
        return;
      }
      if a != Ok { return Throw(FaultOf(a)); }
      flow := OpenStream();
    }

    /** Apply the binding, pin the model and open the stream. */
    method OpenStream() returns (flow: Flow)
      requires Looping(0) && |stream.yielded| == 0
      modifies `used, `lost, `ticks, `calls, `renewing, `watch
      ensures (old(lost) ==> lost) && (flow.Continue? ==> renewing) && (old(renewing) ==> renewing && watch == old(watch))
      ensures !flow.Continue? ==> Troubled(replies, used)
      ensures After(flow) && !flow.Break? && old(calls) <= calls
    {
      hide Books, PostedEvents, RelayableOf, CoalescedStream.Valid, Flatten, ItemsOf, HasCall, Sum, PendingOk, TextHeard, HeardAt, MayPost, Known, Watched, AllBacked, Lawful, Dated, PhaseOf;
      Untried();
      if claim.bound {
        var r := Await();
        if r.answer == Answer.Rejected {
          flow := Stop("binding_repair_required");
          return;
        }
        if r.answer != Ok { return Throw(HermesFaultOf(r.answer)); }
      }
      var r := Await();
      if r.answer != Ok { return Throw(HermesFaultOf(r.answer)); }
      StartRenewal();
      return Continue;
    }

    /** From now on failed renewals count. */
    method StartRenewal()
      requires Aware() && Books(calls, claim.timeOf, Ev())
      modifies `renewing, `watch
      ensures Aware() && Books(calls, claim.timeOf, Ev()) && renewing && watch == if old(renewing) then old(watch) else used
    {
      if !renewing {
        WatchFrom(calls, Ev(), used);
        renewing, watch := true, used;
      }
    }

    predicate Reportworthy(r: RoutineResult) {
      (r.outcome == "changed" || r.outcome == "unchanged" || r.outcome == "failed")
      && r.text != "" && Utf8Len(r.text) <= MAX_ROUTINE_TEXT_BYTES && claim.citable(r)
    }

    /** The terminal event carries a typed result that may be reported. */
    predicate Typed(e: HermesEvent) { e.payload.Terminal? && e.payload.result.Some? && Reportworthy(e.payload.result.value) }

    /** After the stream: report the completion, or the typed result of a routine. */
    method Finish(ended: bool) returns (flow: Flow)
      requires Valid() && !Sum(calls).tried
      requires ended ==> Looping(|stream.yielded|) && Flatten(stream.groups) == stream.Consumed() && stream.EndSeen()
      requires !ended ==> lost
      modifies `used, `lost, `ticks, `calls, `sequence, stream`done
      ensures old(lost) ==> lost
      ensures (Sum(calls).conclusion.Some? && Sum(calls).closed) || Hindered()
      ensures After(flow) && !flow.Continue? && !flow.Break?
      ensures old(lost) ==> Begins(old(calls), Stopped("lease_lost"))
      ensures !old(lost) && terminal.None? ==> flow == Throw(HermesFault) && calls == old(calls)
      ensures !old(lost) && terminal.Some? && !claim.routine ==>
        Sum(calls).conclusion.Some? || flow == Throw(Cancellation) || flow == Throw(Death)
      ensures !old(lost) && terminal.Some? && claim.routine ==>
        flow == Throw(Cancellation) || flow == Throw(Death) || Begins(old(calls), Bind(terminal.value.session))
      ensures !old(lost) && terminal.Some? && flow == Throw(HermesFault) ==> claim.routine && !Typed(terminal.value)
    {
      hide Books, PostedEvents, RelayableOf, CoalescedStream.Valid, Flatten, ItemsOf, HasCall, Sum, PendingOk, Utf8Len, TextHeard, HeardAt, MayPost, Known, Watched, AllBacked, Lawful, Dated, PhaseOf;
      Untried();
      ghost var upto := used;
      if lost {
        LostIsTrouble();
        flow := Stop("lease_lost");
        TroubleStays(replies, upto, used);
        return;
      }
      if terminal.None? { return Throw(HermesFault); }
      stream.Close();
      var fault := Sleep();
      if fault.Some? { return Throw(fault.value); }
      if claim.routine {
        flow := FinishRoutine();
      } else {
        flow := FinishTurn();
      }
    }

    ghost predicate Ready()
      reads this, stream
    {
      Looping(|stream.yielded|) && stream.taken <= |stream.script| && Flatten(stream.groups) == stream.Consumed() && terminal.Some?
    }

    lemma ReadyFacts()
      requires Ready()
      ensures Delivered() && Sum(calls).top == sequence && sequence <= MAX_EVENT_SEQUENCE
      ensures !Sum(calls).tried && Sum(calls).awaiting.None?
    {
    }

    /** Send the conclusion. */
    method Conclude(k: Kind) returns (a: Answer)
      requires Ready() && Concluding(k) && Concludes(k, terminal.value)
      modifies `used, `lost, `ticks, `calls, `sequence
      ensures old(lost) ==> lost
      ensures used >= old(used) && (a != Ok ==> LastFailed(replies, used)) && State() == old(State())
      ensures Sum(calls).conclusion == Some(k) && (a == Ok ==> Sum(calls).closed)
      ensures Valid() && Sum(calls) == Note(Sum(old(calls)), k, a) && old(calls) <= calls
      ensures Sum(calls).tried && (a != Ok ==> !Sum(calls).closed) && (a == Answer.Rejected || a == Transient ==> Sum(calls).refused)
    {
      hide Books, PostedEvents, RelayableOf, CoalescedStream.Valid, Flatten, ItemsOf, HasCall, Sum, PendingOk, CoalescedStream.Consumed, TextHeard, HeardAt, MayPost, Known, Watched, AllBacked, Lawful, Dated, PhaseOf;
      Untried();
      ReadyFacts();
      sequence := sequence + 1;
      a := SendRetry(k);
    }

    method FinishRoutine() returns (flow: Flow)
      requires Ready() && claim.routine
      modifies `used, `lost, `ticks, `calls, `sequence, stream`done
      ensures old(lost) ==> lost
      ensures (Sum(calls).conclusion.Some? && Sum(calls).closed) || Hindered()
      ensures After(flow) && !flow.Continue? && !flow.Break? && Begins(old(calls), Bind(terminal.value.session))
      ensures flow == Throw(HermesFault) ==> !Typed(terminal.value)
    {
      hide Books, PostedEvents, RelayableOf, CoalescedStream.Valid, Flatten, ItemsOf, Sum, HasCall, PendingOk, Utf8Len, Known, Delivered, TextHeard, HeardAt, MayPost, AllBacked, Lawful, Dated, Withheld, Balked, Undecided, Spent, Unfinished, Reportworthy;
      Untried();
      var e := terminal.value;
      var a := BindSession(e.session);
      if a == Lost {
        flow := Stop("session_response_lost");
        return;
      }
      if a != Ok { return Throw(FaultOf(a)); }
      if !Typed(e) { return Throw(HermesFault); }
      ReadyFacts();
      a := Conclude(Routine(sequence + 1, TypedReport(e.payload.result.value)));
      return if a == Ok then Return else Throw(FaultOf(a));
    }

    method BindSession(session: string) returns (a: Answer)
      requires Ready()
      modifies `used, `lost, `ticks, `calls
      ensures old(lost) ==> lost
      ensures used >= old(used) && (a != Ok ==> LastFailed(replies, used))
      ensures Ready() && Sum(calls) == Sum(old(calls)) && Begins(old(calls), Bind(session))
    {
      hide Books, PostedEvents, RelayableOf, CoalescedStream.Valid, Flatten, ItemsOf, HasCall, Sum, CoalescedStream.Consumed, TextHeard, HeardAt, MayPost, Known, Watched, AllBacked, Lawful, Dated, PhaseOf;
      ReadyFacts();
      a := SendRetry(Bind(session));
    }

    method FinishTurn() returns (flow: Flow)
      requires Ready() && !claim.routine
      modifies `used, `lost, `ticks, `calls, `sequence, stream`done
      ensures old(lost) ==> lost
      ensures (Sum(calls).conclusion.Some? && Sum(calls).closed) || Hindered()
      ensures After(flow) && !flow.Continue? && !flow.Break? && Sum(calls).conclusion.Some? && flow != Throw(HermesFault)
    {
      hide Books, PostedEvents, RelayableOf, CoalescedStream.Valid, Flatten, ItemsOf, HasCall, PendingOk, Sum, TextHeard, HeardAt, MayPost, Known, Watched, AllBacked, Lawful, Dated, PhaseOf;
      var e := terminal.value;
      var a := Conclude(Complete(sequence + 1, e.payload, e.session));
      if a == Ok { return Return; }
      if a != Lost { return Throw(FaultOf(a)); }
      LoseLease();
      stream.Close();
      flow := StopQuietly("complete_response_lost");
    }

    // -------------------------------------------------------------- faults

    /** The claim is over: some closing call was sent, unless the process died or was cancelled. */
    ghost predicate Over(flow: Flow)
      reads this, stream
    {
      Valid() && if flow.Return? then Sum(calls).tried else flow == Throw(Cancellation) || flow == Throw(Death)
    }

    /** The exception handlers around the whole claim. */
    method Recover(f: Fault) returns (flow: Flow)
      requires Valid() && Reportable(f)
      modifies `used, `lost, `ticks, `calls, `sequence, stream`done
      ensures old(lost) ==> lost
      ensures used >= old(used) && State() == old(State()) && Sum(calls).top == Sum(old(calls)).top
      ensures Over(flow)
      ensures flow == Throw(Cancellation) || flow == Throw(Death) || Begins(old(calls), Remedy(f, old(lost), old(sequence)))
    {
      hide Books, PostedEvents, RelayableOf, CoalescedStream.Valid, Flatten, ItemsOf, HasCall, Sum, TextHeard, HeardAt, MayPost, Known, Watched, AllBacked, Lawful, Dated, PhaseOf;
      BelowTerminal();
      if f.Death? { return Throw(Death); }
      if f.Cancellation? {
        stream.Close();
        flow := StopQuietly("cancelled");
      } else if f.BootstrapLost? {
        flow := StopQuietly("bootstrap_response_lost");
      } else if lost || f.LeaseFenced? {
        flow := StopQuietly("lease_lost");
      } else if claim.routine && f.ResponseLost? {
        flow := StopQuietly("routine_result_response_lost");
      } else {
        stream.Close();
        var fault := Sleep();
        if fault.Some? { return Throw(fault.value); }
        flow := Report();
      }
    }

    function FailureCall(sequence: nat): Kind {
      var q := if sequence + 1 < MAX_TERMINAL_SEQUENCE then sequence + 1 else MAX_TERMINAL_SEQUENCE;
      if claim.routine then Routine(q, FailureReport) else Fail(q, "runtime_error")
    }

    /** How a fault is reported first. */
    function Remedy(f: Fault, lost: bool, sequence: nat): Kind {
      if f.Cancellation? then Stopped("cancelled")
      else if f.BootstrapLost? then Stopped("bootstrap_response_lost")
      else if lost || f.LeaseFenced? then Stopped("lease_lost")
      else if claim.routine && f.ResponseLost? then Stopped("routine_result_response_lost")
      else FailureCall(sequence)
    }

    method SendFailure() returns (a: Answer)
      requires Valid() && !Sum(calls).closed && Sum(calls).refused
      modifies `used, `lost, `ticks, `calls, `sequence
      ensures old(lost) ==> lost
      ensures used >= old(used) && State() == old(State()) && Sum(calls).top == Sum(old(calls)).top && (a != Ok ==> LastFailed(replies, used))
      ensures Valid() && Begins(old(calls), FailureCall(old(sequence)))
      ensures Sum(calls).tried && (a != Ok ==> !Sum(calls).closed)
    {
      hide Books, PostedEvents, RelayableOf, CoalescedStream.Valid, Flatten, ItemsOf, HasCall, Sum, TextHeard, HeardAt, MayPost, Known, Watched, AllBacked, Lawful, Dated, PhaseOf;
      BelowTerminal();
      sequence := if sequence + 1 < MAX_TERMINAL_SEQUENCE then sequence + 1 else MAX_TERMINAL_SEQUENCE;
      a := SendRetry(if claim.routine then Routine(sequence, FailureReport) else Fail(sequence, "runtime_error"));
    }

    method Report() returns (flow: Flow)
      requires Valid() && !Sum(calls).closed && Sum(calls).refused
      modifies `used, `lost, `ticks, `calls, `sequence, stream`done
      ensures old(lost) ==> lost
      ensures used >= old(used) && State() == old(State()) && Sum(calls).top == Sum(old(calls)).top
      ensures Over(flow) && Begins(old(calls), FailureCall(old(sequence)))
    {
      hide Books, PostedEvents, RelayableOf, CoalescedStream.Valid, Flatten, ItemsOf, HasCall, Sum, FailureCall, TextHeard, HeardAt, MayPost, Known, Watched, AllBacked, Lawful, Dated, PhaseOf;
      var a := SendFailure();
      if a == Answer.Cancelled || a == Killed || a == TimedOut { return Throw(FaultOf(a)); }
      if a != Lost { return Return; }
      LoseLease();
      stream.Close();
      flow := StopQuietly(if claim.routine then "routine_result_response_lost" else "fail_response_lost");
    }

    /** `_run_claim`. */
    method Run() returns (flow: Flow)
      requires Valid() && calls == [] && sequence == 0 && !lost && pending.None? && terminal.None? && handled == 0
      requires stream.yielded == [] && stream.raised == 0 && !stream.done && textBytes == 0
      modifies this, stream
      ensures old(lost) ==> lost
      ensures Over(flow)
      ensures Lawful(calls) && AllBacked(calls, Ev()) && Dated(calls, claim.timeOf) && TextHeard(calls, stream.script)
      ensures ApprovalLaws.WaitsStand(calls, replies)
      ensures (Sum(calls).conclusion.Some? && Sum(calls).closed) || Hindered()
      ensures (Ev().LossBy(used) ==> lost) && (handled > 0 ==> renewing)
      ensures claim.files && claim.valid && !(claim.routine && claim.continuation) ==> Ev().watch <= old(used)
      ensures forall i :: 0 <= i < |calls| && NeedsWatch(calls[i].kind, claim.files) ==> Ev().watch <= calls[i].seen
    {
      hide Books, PostedEvents, RelayableOf, CoalescedStream.Valid, Flatten, ItemsOf, HasCall, Sum, PendingOk, Known, AllBacked, Dated, Lawful, TextHeard, HeardAt, MayPost, Watched, PhaseOf, Valid, ApprovalLaws.WaitsStand, Hindered, Faulted, Spent, Troubled, Looping;
      flow := Prepare();
      if flow.Continue? {
        NothingCounted();
        flow := Follow();
        if flow.Throw? || flow.Return? { FaultHinders(); }
        if flow.Continue? { LoopFacts(); }
        if flow.Continue? || flow.Break? { flow := Finish(flow.Continue?); }
      } else {
        FaultHinders();
      }
      if flow.Throw? {
        label Thrown:
        flow := Recover(flow.fault);
        HinderedStays@Thrown();
      }
      LogIsSound();
    }

    lemma NothingCounted()
      requires stream.yielded == [] && textBytes == 0
      ensures Counted(|stream.yielded|)
    {
    }

    lemma FaultHinders()
      ensures Faulted() || Troubled(replies, used) || Spent() || !claim.valid || (claim.routine && claim.continuation) ==> Hindered()
    {
      TroubleStays(replies, used, used);
      hide Troubled, LastFailed, Withheld, Balked, Undecided, Spent, Unfinished, Untyped;
    }

    /** Reporting a fault takes nothing away of what led to it. */
    twostate lemma HinderedStays()
      requires used >= old(used) && State() == old(State()) && Sum(calls).top == Sum(old(calls)).top && handled == old(handled)
      requires stream.taken == old(stream.taken) && stream.yielded == old(stream.yielded) && stream.groups == old(stream.groups)
      ensures old(Hindered()) ==> Hindered()
    {
      TroubleStays(replies, old(used), used);
      hide Troubled, LastFailed, PhaseOf, Sum, Unfit, Flatten, ItemsOf, Typed, NoAsk;
    }

    /** What the books say about the log. */
    lemma LogIsSound()
      requires Valid()
      ensures Lawful(calls) && AllBacked(calls, Ev()) && Dated(calls, claim.timeOf) && TextHeard(calls, stream.script)
      ensures Ev().LossBy(used) ==> lost
      ensures forall i :: 0 <= i < |calls| && NeedsWatch(calls[i].kind, claim.files) ==> Ev().watch <= calls[i].seen
      ensures ApprovalLaws.WaitsStand(calls, replies)
    {
      hide AllBacked, Lawful, Dated, TextHeard, ApprovalLaws.WaitsStand, CoalescedStream.Valid, PostedEvents, RelayableOf, Concludes, Delivered;
      ApprovalLaws.AllWaitsStand(calls, Ev());
    }
  }

  /** Between two events no wait is under way: nothing is announced, or the pending approval is settled. */
  predicate Rests(ph: Phase, pending: Option<Approval>) {
    match pending
    case None => ph.Idle?
    case Some(p) => ph == Closed(p.request, p.settlement) && p.hermesId == p.request.hermesId
  }

  /** A pending approval is the one announced last, and how its wait was settled is on record. */
  ghost predicate PendingOk(calls: seq<Call>, pending: Option<Approval>) {
    && Sum(calls).awaiting == (if pending.Some? then Some(pending.value.request) else None)
    && (pending.Some? ==> HasCall(calls, Settled(pending.value.request, pending.value.settlement)))
  }
}
