/** From the raw Hermes events to the posts at Foundry: normaliser, coalescer and worker together. */
module Pipeline {
  import opened Events
  import opened HermesLog
  import opened HermesTheorems
  import opened Coalescer
  import opened ClaimCalls
  import opened ClaimEvidence
  import ApprovalLaws
  import ClaimOutcomes
  import ClaimWorker
  import HermesOutcomes
  import HermesStream
  import opened Transcript

  /** What the coalescer has made of the part `consumed` of the normalised events: groups that went out
      as `yielded`, and a rest still in its buffer; the first `handled` of them reached the worker. */
  datatype Stage = Stage(
    groups: seq<seq<HermesEvent>>, cap: nat, rest: seq<HermesEvent>, consumed: seq<HermesEvent>, handled: nat)
  {
    ghost function Yielded(): seq<HermesEvent> { JoinAll(groups) }

    ghost predicate Of(c: Context, log: seq<Raw>, calls: seq<Call>) {
      && consumed <= YieldsOf(c, log)
      && Grouping(groups, cap) && Flatten(groups) + rest == consumed
      && handled <= |Yielded()| && PostedEvents(calls) == RelayableOf(Yielded()[..handled])
    }
  }

  /** At every point the text posted so far is a prefix of the assistant text accepted so far. */
  lemma PostedTextIsPrefix(c: Context, log: seq<Raw>, s: Stage, calls: seq<Call>, n: nat)
    requires s.Of(c, log, calls) && n <= |calls|
    ensures TextOf(PostedEvents(calls[..n])) <= AssistantText(c, log)
  {
    PostedGrows(calls, n);
    TextOfPrefix(PostedEvents(calls[..n]), PostedEvents(calls));
    RelayableKeepsText(s.Yielded()[..s.handled]);
    TextOfPrefix(s.Yielded()[..s.handled], s.Yielded());
    GroupingKeepsMeaning(s.groups, s.cap);
    TextOfPrefix(Flatten(s.groups), s.consumed);
    TextOfPrefix(s.consumed, YieldsOf(c, log));
    YieldsCarryText(c, log);
  }

  /** The last yielded event, when it is no delta, is the last event consumed. */
  lemma LastIsItself(groups: seq<seq<HermesEvent>>, cap: nat)
    requires Grouping(groups, cap) && JoinAll(groups) != []
    requires JoinAll(groups)[|JoinAll(groups)| - 1].name == ExecutionCompleted
    ensures Flatten(groups) != [] && Flatten(groups)[|Flatten(groups)| - 1].name == ExecutionCompleted
  {
    var last := groups[|groups| - 1];
    assert Group(last, cap);
    assert JoinAll(groups) == JoinAll(groups[..|groups| - 1]) + [Join(last)];
    assert Flatten(groups) == Flatten(groups[..|groups| - 1]) + last;
  }

  /** Once the terminal event has been read and everything before it dealt with, the worker has posted
      exactly what the assistant said; that is when it may report the completion. */
  lemma ConcludedTextIsWhole(c: Context, log: seq<Raw>, s: Stage, calls: seq<Call>, i: nat)
    requires Accepted(c, log) && s.Of(c, log, calls) && Lawful(calls)
    requires i < |calls| && Concluding(calls[i].kind)
    requires s.rest == [] && s.handled == |s.Yielded()| > 0 && s.Yielded()[s.handled - 1].name == ExecutionCompleted
    ensures TextOf(PostedEvents(calls[..i])) == AssistantText(c, log)
    ensures s.consumed == YieldsOf(c, log) && Has(log, DoneMarker)
  {
    LastIsItself(s.groups, s.cap);
    assert Flatten(s.groups) == s.consumed;
    YieldsInOrder(c, log);
    assert YieldsOf(c, log)[|s.consumed| - 1].name == ExecutionCompleted;
    assert s.consumed == YieldsOf(c, log);
    PostedBeforeClosing(calls, i);
    assert s.Yielded()[..s.handled] == s.Yielded();
    RelayableKeepsText(s.Yielded());
    GroupingKeepsMeaning(s.groups, s.cap);
    YieldsCarryText(c, log);
  }

  /** How many raw events have been accepted when so many arrivals have been taken from the stream. */
  ghost predicate Follows(c: Context, raws: seq<Raw>, n: nat, script: seq<Arrival>, upto: seq<nat>) {
    && |upto| == |script| + 1 && n <= |raws|
    && forall k :: 0 <= k <= |script| ==> FollowsAt(c, raws, n, script[..k], upto[k])
  }

  ghost predicate FollowsAt(c: Context, raws: seq<Raw>, n: nat, arrivals: seq<Arrival>, m: nat) {
    m <= n <= |raws| && ItemsOf(arrivals) == YieldsOf(c, raws[..m])
  }

  lemma FollowsOne(c: Context, raws: seq<Raw>, n: nat, script: seq<Arrival>, upto: seq<nat>, a: Arrival, m: nat, more: nat)
    requires Follows(c, raws, n, script, upto) && m <= more <= |raws| && n <= more
    requires YieldsOf(c, raws[..m]) == ItemsOf(script) + if a.Item? then [a.event] else []
    ensures Follows(c, raws, more, script + [a], upto + [m])
  {
    hide YieldsOf;
    var next := script + [a];
    assert next[..|script|] == script;
    forall k | 0 <= k <= |next| ensures FollowsAt(c, raws, more, next[..k], (upto + [m])[k]) {
      if k <= |script| {
        assert next[..k] == script[..k] && FollowsAt(c, raws, n, script[..k], upto[k]);
      } else {
        assert next[..k] == next;
      }
    }
  }

  lemma FollowsOn(c: Context, raws: seq<Raw>, n: nat, script: seq<Arrival>, upto: seq<nat>, more: nat)
    requires Follows(c, raws, n, script, upto) && n <= more <= |raws|
    ensures Follows(c, raws, more, script, upto)
  {
    forall k | 0 <= k <= |script| ensures FollowsAt(c, raws, more, script[..k], upto[k]) {
      assert FollowsAt(c, raws, n, script[..k], upto[k]);
    }
  }

  /** Normalise raw events up to the first one that is refused, and bring what is yielded, with pauses
      in which a coalescing window may close.  A refusal fails the stream; otherwise it may end, or
      break off. */
  method Arrivals(c: Context, raws: seq<Raw>, pauses: seq<bool>, ends: bool) returns (script: seq<Arrival>, n: nat, ghost upto: seq<nat>)
    ensures n <= |raws| && Accepted(c, raws[..n]) && (n < |raws| ==> !Admissible(c, raws[..n], raws[n]))
    ensures Follows(c, raws, n, script, upto) && ItemsOf(script) == YieldsOf(c, raws[..n])
    ensures if n < |raws| then EndsWith(script, Arrival.Failed("refused")) else if ends then EndsWith(script, Ended) else AllGo(script)
  {
    hide Admissible, Accepted, YieldsOf, Follows, ItemsOf, HermesStream.NormalizedStream.Valid, AllGo, EndsWith, FailsTurn;
    var stream := new HermesStream.NormalizedStream(c);
    script, n, upto := [], 0, [0];
    NothingYet(c, raws);
    var last := Ended;
    while n < |raws|
      invariant n <= |raws| && stream.Valid() && stream.c == c && stream.log == raws[..n]
      invariant ItemsOf(script) == stream.yielded && Follows(c, raws, n, script, upto) && last == Ended
      invariant AllGo(script)
    {
      StreamSays(stream);
      if n < |pauses| && pauses[n] {
        Arrive(c, raws, n, script, upto, Timeout, n, n);
        script, upto := script + [Timeout], upto + [n];
      }
      var r := stream.Normalize(raws[n]);
      if r.Refused? || r.TurnFailed? { last := Arrival.Failed("refused"); break; }
      assert raws[..n] + [raws[n]] == raws[..n + 1];
      StreamSays(stream);
      if r.Yielded? {
        Arrive(c, raws, n, script, upto, Item(r.event), n + 1, n + 1);
        script, upto := script + [Item(r.event)], upto + [n + 1];
      } else {
        FollowsOn(c, raws, n, script, upto, n + 1);
      }
      n := n + 1;
    }
    StreamSays(stream);
    if ends || last.Failed? {
      Arrive(c, raws, n, script, upto, last, n, n);
      script, upto := script + [last], upto + [n];
    }
  }

  /** The stream goes on after each of these. */
  ghost predicate AllGo(script: seq<Arrival>) { forall i :: 0 <= i < |script| ==> script[i].Item? || script[i].Timeout? }

  ghost predicate EndsWith(script: seq<Arrival>, last: Arrival) {
    script != [] && AllGo(script[..|script| - 1]) && script[|script| - 1] == last
  }

  lemma StreamSays(stream: HermesStream.NormalizedStream)
    requires stream.Valid()
    ensures Accepted(stream.c, stream.log) && stream.yielded == YieldsOf(stream.c, stream.log)
  {
  }

  lemma NothingYet(c: Context, raws: seq<Raw>)
    ensures AllGo([]) && Follows(c, raws, 0, [], [0]) && ItemsOf([]) == YieldsOf(c, []) == []
  {
  }

  lemma Arrive(c: Context, raws: seq<Raw>, n: nat, script: seq<Arrival>, upto: seq<nat>, a: Arrival, m: nat, more: nat)
    requires Follows(c, raws, n, script, upto) && m <= more <= |raws| && n <= more
    requires YieldsOf(c, raws[..m]) == ItemsOf(script) + if a.Item? then [a.event] else []
    ensures Follows(c, raws, more, script + [a], upto + [m])
    ensures ItemsOf(script + [a]) == ItemsOf(script) + if a.Item? then [a.event] else []
    ensures AllGo(script) ==> EndsWith(script + [a], a) && (a.Item? || a.Timeout? ==> AllGo(script + [a]))
  {
    ItemsOfMore(script, a);
    assert (script + [a])[..|script|] == script;
    FollowsOne(c, raws, n, script, upto, a, m, more);
  }

  lemma ItemsOfMore(script: seq<Arrival>, a: Arrival)
    ensures ItemsOf(script + [a]) == ItemsOf(script) + if a.Item? then [a.event] else []
  {
    assert (script + [a])[..|script|] == script;
  }

  /** Where a finished claim has left the events of its stream. */
  ghost function StageOf(run: ClaimWorker.ClaimRun): Stage
    requires run.stream.Valid()
    reads run, run.stream
  {
    Stage(run.stream.groups, run.stream.maxBytes, run.stream.buffer + run.stream.View().Held(), run.stream.Consumed(), run.handled)
  }

  lemma StageHolds(c: Context, log: seq<Raw>, run: ClaimWorker.ClaimRun)
    requires run.Valid() && run.stream.Consumed() <= YieldsOf(c, log)
    ensures StageOf(run).Of(c, log, run.calls)
  {
    hide YieldsOf, PostedEvents, RelayableOf, Grouping, Flatten, JoinAll, Lawful, ItemsOf;
  }

  lemma StageIsFinal(run: ClaimWorker.ClaimRun, i: nat)
    requires run.Valid() && i < |run.calls| && Concluding(run.calls[i].kind)
    ensures var s := StageOf(run);
      s.rest == [] && s.handled == |s.Yielded()| > 0 && s.Yielded()[s.handled - 1].name == ExecutionCompleted
  {
    hide PostedEvents, RelayableOf, Grouping, Flatten, JoinAll, ItemsOf;
    ConclusionIsNoted(run.calls, i);
    var s := StageOf(run);
    assert Flatten(s.groups) + s.rest == s.consumed;
    assert |s.rest| == 0;
  }

  /** What a claim has posted by a call is a prefix of the assistant text in the raw events accepted by
      the time that call was made. */
  lemma PostedIsAccepted(c: Context, raws: seq<Raw>, n: nat, script: seq<Arrival>, upto: seq<nat>, calls: seq<Call>, i: nat)
    requires Follows(c, raws, n, script, upto) && ClaimWorker.TextHeard(calls, script) && i < |calls|
    ensures calls[i].heard < |upto| && upto[calls[i].heard] <= n
    ensures TextOf(PostedEvents(calls[..i + 1])) <= AssistantText(c, raws[..upto[calls[i].heard]])
  {
    hide TextOf, PostedEvents, YieldsOf, AssistantText, ItemsOf;
    assert ClaimWorker.HeardAt(calls[..i + 1], calls[i], script);
    var k := calls[i].heard;
    assert FollowsAt(c, raws, n, script[..k], upto[k]);
    YieldsCarryText(c, raws[..upto[k]]);
  }

  // ---------------------------------------------------------------- whole runs of Hermes

  /** Hermes has completed the run: everything it sent is accepted, done included, no approval was asked
      for, profile and session are those of the claim, and a routine said no more than it may. */
  ghost predicate Whole(c: Context, raws: seq<Raw>, claim: ClaimWorker.Claim) {
    && Accepted(c, raws) && Has(raws, DoneMarker) && |raws| < 99999 && c.profile == claim.profile && c.session == claim.session
    && (forall i :: 0 <= i < |raws| ==> raws[i].name != ApprovalRequested && raws[i].name != ApprovalAnswered)
    && (claim.routine ==> c.routine && Utf8Len(AssistantText(c, raws)) <= 16384)
  }

  /** The transcript of the run reports one result, lawfully, and the worker may report it. */
  ghost predicate Reported(c: Context, raws: seq<Raw>, run: ClaimWorker.ClaimRun) {
    |raws| >= 2 && Messages in raws[|raws| - 2].payload && raws[|raws| - 2].payload[Messages].Array?
    && Reports(raws[|raws| - 2].payload[Messages].items, c.codec, run)
  }

  ghost predicate Reports(messages: seq<Json>, codec: Codec, run: ClaimWorker.ClaimRun) {
    exists s: Site, r :: SoleReport(messages, s, r, codec) && run.Reportworthy(r)
  }

  lemma {:induction false} YieldsOfWhole(c: Context, log: seq<Raw>)
    requires Accepted(c, log) && forall i :: 0 <= i < |log| ==> log[i].name != ApprovalRequested && log[i].name != ApprovalAnswered
    ensures |YieldsOf(c, log)| <= |log|
    ensures forall y | y in YieldsOf(c, log) :: y.profile == c.profile && (y.name == ExecutionCompleted || (y.session == c.session && Relayable(y)))
  {
    if log != [] {
      var init, e := log[..|log| - 1], log[|log| - 1];
      assert log == init + [e];
      YieldsOfWhole(c, init);
      AppendAccepts(c, init, e);
      HermesOutcomes.VisibleCarries(c, init, e);
      hide YieldAfter, Admissible;
    }
  }

  lemma WholeIsClean(c: Context, raws: seq<Raw>, run: ClaimWorker.ClaimRun)
    requires Whole(c, raws, run.claim) && (run.claim.routine ==> Reported(c, raws, run))
    requires var script := run.stream.script;
      EndsWith(script, Ended) && ItemsOf(script) == YieldsOf(c, raws)
    ensures ClaimOutcomes.Clean(run)
  {
    hide Accepted, YieldsOf, ItemsOf, AssistantText, TextOf, Utf8Len, SoleReport, NoReport, RunOf;
    var items := YieldsOf(c, raws);
    YieldsOfWhole(c, raws);
    YieldsInOrder(c, raws);
    YieldsCarryText(c, raws);
    HermesOutcomes.TerminalCarriesReport(c, raws);
    forall i | 0 <= i < |items| ensures items[i].profile == run.claim.profile && (i < |items| - 1 ==> items[i].session == run.claim.session && Relayable(items[i])) {
      assert items[i] in items;
    }
    if run.claim.routine { TypedLast(c, raws, run); }
  }

  /** An accepted log is accepted whole. */
  lemma WholeIsAccepted(c: Context, raws: seq<Raw>, n: nat)
    requires Accepted(c, raws) && n <= |raws| && (n < |raws| ==> !Admissible(c, raws[..n], raws[n]))
    ensures n == |raws| && raws[..n] == raws
  {
    if n < |raws| { Prefix(c, raws, n); }
  }

  lemma TypedLast(c: Context, raws: seq<Raw>, run: ClaimWorker.ClaimRun)
    requires Accepted(c, raws) && Has(raws, DoneMarker) && c.routine && Reported(c, raws, run)
    ensures var ys := YieldsOf(c, raws); ys != [] && run.Typed(ys[|ys| - 1])
  {
    hide Accepted, YieldsOf, SoleReport, NoReport, RunOf, ClaimWorker.ClaimRun.Reportworthy;
    HermesOutcomes.TerminalCarriesReport(c, raws);
    var messages := raws[|raws| - 2].payload[Messages].items;
    var s: Site, r :| SoleReport(messages, s, r, c.codec) && run.Reportworthy(r);
    var ys := YieldsOf(c, raws);
    assert ys[|ys| - 1].payload == Terminal(RunName(raws), Some(r));
  }

  /** The claim may be dispatched, all its calls succeed, and its stream is clean or a completed run of Hermes. */
  ghost predicate Undisturbed(c: Context, raws: seq<Raw>, ends: bool, run: ClaimWorker.ClaimRun)
    reads run
  {
    && run.claim.valid && !(run.claim.routine && run.claim.continuation) && ClaimOutcomes.Smooth(run)
    && (ClaimOutcomes.Clean(run) || (ends && Whole(c, raws, run.claim) && (run.claim.routine ==> Reported(c, raws, run))))
  }

  lemma TurnConcludes(c: Context, raws: seq<Raw>, n: nat, ends: bool, run: ClaimWorker.ClaimRun)
    requires run.Valid() && (ClaimOutcomes.Done(run) || run.Hindered())
    requires n <= |raws| && Accepted(c, raws[..n]) && (n < |raws| ==> !Admissible(c, raws[..n], raws[n]))
    requires var script := run.stream.script;
      ItemsOf(script) == YieldsOf(c, raws[..n]) && (n == |raws| && ends ==> EndsWith(script, Ended))
    ensures Undisturbed(c, raws, ends, run) ==> ClaimOutcomes.Done(run)
  {
    hide *;
    if Undisturbed(c, raws, ends, run) {
      UndisturbedMeans(c, raws, ends, run);
      if !ClaimOutcomes.Clean(run) {
        WholeIsAccepted(c, raws, n);
        WholeIsClean(c, raws, run);
      }
      ClaimOutcomes.CleanRunConcludes(run);
    }
  }

  lemma UndisturbedMeans(c: Context, raws: seq<Raw>, ends: bool, run: ClaimWorker.ClaimRun)
    requires Undisturbed(c, raws, ends, run)
    ensures run.claim.valid && !(run.claim.routine && run.claim.continuation) && ClaimOutcomes.Smooth(run)
    ensures !ClaimOutcomes.Clean(run) ==> ends && Whole(c, raws, run.claim) && Accepted(c, raws) && (run.claim.routine ==> Reported(c, raws, run))
  {
  }

  /** One turn from end to end, whatever Hermes sends and Foundry and Hermes answer: at every call the
      text posted by then is a prefix of the assistant text accepted by then, and when the claim
      concludes it is all the text that was accepted, up to the done marker. */
  method Turn(c: Context, raws: seq<Raw>, pauses: seq<bool>, ends: bool, cap: nat,
              claim: ClaimWorker.Claim, replies: seq<Reply>, clock: (nat, nat) -> real)
    returns (run: ClaimWorker.ClaimRun, flow: ClaimWorker.Flow, n: nat, ghost upto: seq<nat>)
    ensures n <= |raws| && Accepted(c, raws[..n]) && (n < |raws| ==> !Admissible(c, raws[..n], raws[n]))
    ensures fresh(run) && run.claim == claim && run.replies == replies && run.clock == clock
    ensures Follows(c, raws, n, run.stream.script, upto)
    ensures Lawful(run.calls) && AllBacked(run.calls, run.Ev()) && (flow.Return? ==> Sum(run.calls).tried)
    ensures ApprovalLaws.WaitsStand(run.calls, replies) && (ClaimOutcomes.Done(run) || run.Hindered())
    ensures Undisturbed(c, raws, ends, run) ==> ClaimOutcomes.Done(run)
    ensures forall i :: 0 <= i < |run.calls| && ClaimWorker.NeedsWatch(run.calls[i].kind, claim.files) ==> run.Ev().watch <= run.calls[i].seen
    ensures forall i :: 0 <= i < |run.calls| ==>
      run.calls[i].heard < |upto| && upto[run.calls[i].heard] <= n
      && TextOf(PostedEvents(run.calls[..i + 1])) <= AssistantText(c, raws[..upto[run.calls[i].heard]])
    ensures forall i :: 0 <= i < |run.calls| && Concluding(run.calls[i].kind) ==>
      TextOf(PostedEvents(run.calls[..i])) == AssistantText(c, raws[..n]) && Has(raws[..n], DoneMarker)
  {
    hide Admissible, Accepted, YieldsOf, Follows, ItemsOf, TextOf, PostedEvents, AssistantText, Lawful, AllBacked, ClaimWorker.TextHeard, Sum, ApprovalLaws.WaitsStand, Undisturbed, EndsWith, AllGo, ClaimWorker.ClaimRun.Valid, ClaimWorker.ClaimRun.Hindered;
    var script;
    script, n, upto := Arrivals(c, raws, pauses, ends);
    var stream := new CoalescedStream(script, cap);
    run := new ClaimWorker.ClaimRun(claim, replies, clock, stream);
    flow := run.Run();
    run.LogIsSound();
    TurnConcludes(c, raws, n, ends, run);
    forall i | 0 <= i < |run.calls|
      ensures run.calls[i].heard < |upto| && upto[run.calls[i].heard] <= n
      ensures TextOf(PostedEvents(run.calls[..i + 1])) <= AssistantText(c, raws[..upto[run.calls[i].heard]])
    {
      PostedIsAccepted(c, raws, n, script, upto, run.calls, i);
    }
    forall i | 0 <= i < |run.calls| && Concluding(run.calls[i].kind)
      ensures TextOf(PostedEvents(run.calls[..i])) == AssistantText(c, raws[..n]) && Has(raws[..n], DoneMarker)
    {
      ConcludedIsWhole(c, raws, n, script, upto, run, i);
    }
  }

  lemma ConcludedIsWhole(c: Context, raws: seq<Raw>, n: nat, script: seq<Arrival>, upto: seq<nat>, run: ClaimWorker.ClaimRun, i: nat)
    requires run.Valid() && run.stream.script == script && i < |run.calls| && Concluding(run.calls[i].kind)
    requires Follows(c, raws, n, script, upto) && Accepted(c, raws[..n])
    ensures TextOf(PostedEvents(run.calls[..i])) == AssistantText(c, raws[..n]) && Has(raws[..n], DoneMarker)
  {
    var k := run.stream.taken;
    ConsumedIsPrefix(c, raws, n, script, upto, k);
    hide *;
    StageIsFinal(run, i);
    StageHolds(c, raws[..n], run);
    run.LogIsSound();
    ConcludedTextIsWhole(c, raws[..n], StageOf(run), run.calls, i);
  }

  lemma ConsumedIsPrefix(c: Context, raws: seq<Raw>, n: nat, script: seq<Arrival>, upto: seq<nat>, k: nat)
    requires Follows(c, raws, n, script, upto) && k <= |script|
    ensures ItemsOf(script[..k]) <= YieldsOf(c, raws[..n])
  {
    assert FollowsAt(c, raws, n, script[..k], upto[k]);
    YieldsGrow(c, raws[..n], upto[k]);
    assert raws[..n][..upto[k]] == raws[..upto[k]];
  }
}
