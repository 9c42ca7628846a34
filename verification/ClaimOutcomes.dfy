/** When a claim is brought to its conclusion. */
module ClaimOutcomes {
  import opened Events
  import opened Coalescer
  import opened ClaimCalls
  import opened ClaimEvidence
  import opened ClaimWorker

  // ---------------------------------------------------------------- yielded events and their items

  lemma {:induction false} GroupsCount(groups: seq<seq<HermesEvent>>, cap: nat)
    requires Grouping(groups, cap)
    ensures |JoinAll(groups)| == |groups| <= |Flatten(groups)|
  {
    if groups != [] {
      GroupsCount(groups[..|groups| - 1], cap);
      assert Group(groups[|groups| - 1], cap);
      hide Group, Join;
    }
  }

  lemma {:induction false} GroupAt(groups: seq<seq<HermesEvent>>, cap: nat, k: nat)
    requires Grouping(groups, cap) && k < |groups|
    ensures |JoinAll(groups)| == |groups| && Group(groups[k], cap) && groups[k] != [] && JoinAll(groups)[k] == Join(groups[k])
    ensures var at := |Flatten(groups[..k])|; k <= at && at + |groups[k]| <= |Flatten(groups)| && Flatten(groups)[at..at + |groups[k]|] == groups[k]
    ensures k < |groups| - 1 ==> |Flatten(groups[..k])| + |groups[k]| < |Flatten(groups)|
    decreases |groups|
  {
    var init, last := groups[..|groups| - 1], groups[|groups| - 1];
    GroupIsSome(last, cap);
    GroupsCount(groups, cap);
    GroupsCount(init, cap);
    assert Flatten(groups) == Flatten(init) + last && JoinAll(groups) == JoinAll(init) + [Join(last)];
    hide Group, Join;
    if k < |groups| - 1 {
      GroupAt(init, cap, k);
      assert init[..k] == groups[..k];
    } else {
      assert groups[..k] == init;
    }
  }

  lemma GroupIsSome(g: seq<HermesEvent>, cap: nat)
    ensures Group(g, cap) ==> g != []
  {
  }

  /** A yielded event is named and addressed like the first of the items it stands for; one that is no
      text delta is that item. */
  lemma YieldIsItem(groups: seq<seq<HermesEvent>>, cap: nat, items: seq<HermesEvent>, k: nat) returns (j: nat)
    requires Grouping(groups, cap) && k < |groups| && Flatten(groups) <= items
    ensures |JoinAll(groups)| == |groups| <= |items| && k <= j < |items|
    ensures var y, x := JoinAll(groups)[k], items[j];
      y.name == x.name && y.profile == x.profile && y.session == x.session && (x.name != MessageDelta ==> y == x)
    ensures k < |groups| - 1 && items[j].name != MessageDelta ==> j < |items| - 1
  {
    GroupsCount(groups, cap);
    GroupAt(groups, cap, k);
    j := |Flatten(groups[..k])|;
    var g := groups[k];
    assert Flatten(groups)[j..j + |g|][0] == g[0];
    assert items[j] == g[0];
    hide Grouping, Flatten, JoinAll, TextOf, Utf8Len;
  }

  // ---------------------------------------------------------------- streams that nothing is wrong with

  /** The stream runs to its end and carries text and activities of this claim, then the terminal event;
      a routine keeps to its text limit and ends with a result that may be reported. */
  ghost predicate Clean(run: ClaimRun) {
    var script := run.stream.script;
    && script != [] && script[|script| - 1] == Ended
    && (forall i :: 0 <= i < |script| - 1 ==> script[i].Item? || script[i].Timeout?)
    && CleanItems(run, ItemsOf(script))
  }

  ghost predicate CleanItems(run: ClaimRun, items: seq<HermesEvent>) {
    && 0 < |items| < 99999
    && (forall i :: 0 <= i < |items| ==> items[i].profile == run.claim.profile)
    && (forall i :: 0 <= i < |items| - 1 ==> items[i].session == run.claim.session && Relayable(items[i]))
    && items[|items| - 1].name == ExecutionCompleted
    && (run.claim.routine ==> Utf8Len(TextOf(items)) <= 16384 && run.Typed(items[|items| - 1]))
  }

  /** No call failed, every renewal succeeded, and the process did not die. */
  predicate Smooth(run: ClaimRun)
    reads run
  {
    run.used < |run.replies| && forall i :: 0 <= i < run.used ==> run.replies[i].answer == Ok && !run.replies[i].leaseLost
  }

  ghost predicate Done(run: ClaimRun)
    reads run
  {
    Sum(run.calls).conclusion.Some? && Sum(run.calls).closed
  }

  /** A claim that may be dispatched, whose calls all succeed and whose stream is clean, is concluded, and
      the conclusion is acknowledged. */
  lemma CleanRunConcludes(run: ClaimRun)
    requires run.Valid() && (Done(run) || run.Hindered())
    requires run.claim.valid && !(run.claim.routine && run.claim.continuation)
    requires Smooth(run) && Clean(run)
    ensures Done(run)
  {
    StreamIsItems(run);
    NotWithheld(run);
    NotBalked(run);
    NotUnfinished(run);
    NotUntyped(run);
    NeverAsked(run);
    hide ClaimRun.Valid, Clean, CleanItems, ClaimRun.Withheld, ClaimRun.Balked, ClaimRun.Unfinished, ClaimRun.Untyped, Sum, PhaseOf;
  }

  /** What the stream has yielded so far stands for a beginning of its items. */
  lemma StreamIsItems(run: ClaimRun)
    requires run.Valid()
    ensures var st := run.stream; var items := ItemsOf(st.script);
      && Grouping(st.groups, st.maxBytes) && st.yielded == JoinAll(st.groups) && Flatten(st.groups) <= items && st.taken <= |st.script|
      && |st.yielded| == |st.groups| <= |items|
      && TextOf(st.yielded) <= TextOf(items)
  {
    var st := run.stream;
    ItemsGrow(st.script, st.taken);
    GroupsCount(st.groups, st.maxBytes);
    GroupingKeepsMeaning(st.groups, st.maxBytes);
    TextOfPrefix(Flatten(st.groups), ItemsOf(st.script));
    hide *;
  }

  lemma {:induction false} ItemsGrow(script: seq<Arrival>, n: nat)
    requires n <= |script|
    ensures ItemsOf(script[..n]) <= ItemsOf(script)
    decreases |script|
  {
    if n == |script| {
      assert script[..n] == script;
    } else {
      ItemsGrow(script[..|script| - 1], n);
      assert script[..|script| - 1][..n] == script[..n];
    }
  }

  lemma NotWithheld(run: ClaimRun)
    requires Clean(run)
    ensures !run.Withheld()
  {
    hide ItemsOf, CleanItems;
  }

  lemma NotBalked(run: ClaimRun)
    requires run.Valid() && Clean(run)
    ensures !run.Balked()
  {
    hide ClaimRun.Valid, ItemsOf, Flatten, Grouping, JoinAll, Utf8Len, TextOf, PhaseOf, Unfit;
    var st := run.stream;
    var items, n := ItemsOf(st.script), run.handled;
    StreamIsItems(run);
    if run.Balked() {
      var j := YieldIsItem(st.groups, st.maxBytes, items, n);
      TextFits(st.yielded, n, items);
      NoneAsks(run, items, n);
      NotYetOver(run, items, n);
      ItemFits(run.claim, run.clock, st.yielded[..n], st.yielded[n], run.State(), items[j]);
    }
  }

  lemma NotYetOver(run: ClaimRun, items: seq<HermesEvent>, n: nat)
    requires Grouping(run.stream.groups, run.stream.maxBytes) && Flatten(run.stream.groups) <= items && run.stream.yielded == JoinAll(run.stream.groups)
    requires |run.stream.yielded| == |run.stream.groups| && n < |run.stream.yielded| && CleanItems(run, items)
    ensures !Concluded(run.stream.yielded[..n])
  {
    hide Flatten, Grouping, JoinAll, Utf8Len, TextOf;
    if n > 0 { var i := YieldIsItem(run.stream.groups, run.stream.maxBytes, items, n - 1); }
  }

  lemma ItemFits(claim: Claim, clock: (nat, nat) -> real, before: seq<HermesEvent>, e: HermesEvent, ph: Phase, x: HermesEvent)
    requires e.name == x.name && e.profile == x.profile == claim.profile && e.session == x.session && !Concluded(before)
    requires if e.name == ExecutionCompleted then ph.Idle? else x.session == claim.session && Relayable(x)
    requires claim.routine ==> Utf8Len(TextOf(before + [e])) <= 16384
    ensures !Unfit(claim, clock, before, e, ph)
  {
    hide Utf8Len, TextOf, Untimely, Askable, Answers;
  }

  lemma NoneAsks(run: ClaimRun, items: seq<HermesEvent>, n: nat)
    requires Grouping(run.stream.groups, run.stream.maxBytes) && Flatten(run.stream.groups) <= items && run.stream.yielded == JoinAll(run.stream.groups)
    requires |run.stream.yielded| == |run.stream.groups| && n <= |run.stream.yielded| && CleanItems(run, items)
    ensures NoAsk(run.stream.yielded[..n])
  {
    hide Flatten, Grouping, JoinAll, Utf8Len, TextOf;
    forall e | e in run.stream.yielded[..n] ensures e.name != ApprovalRequest {
      var k :| 0 <= k < n && run.stream.yielded[k] == e;
      var j := YieldIsItem(run.stream.groups, run.stream.maxBytes, items, k);
    }
  }

  lemma TextFits(yielded: seq<HermesEvent>, n: nat, items: seq<HermesEvent>)
    requires n < |yielded| && TextOf(yielded) <= TextOf(items)
    ensures Utf8Len(TextOf(yielded[..n] + [yielded[n]])) <= Utf8Len(TextOf(items))
  {
    assert yielded[..n] + [yielded[n]] == yielded[..n + 1];
    TextOfPrefix(yielded[..n + 1], yielded);
    var a, b := TextOf(yielded[..n + 1]), TextOf(items);
    hide TextOf;
    assert b == a + b[|a|..];
    Utf8LenConcat(a, b[|a|..]);
  }

  lemma NotUnfinished(run: ClaimRun)
    requires run.Valid() && Clean(run)
    ensures !run.Unfinished()
  {
    hide ClaimRun.Valid, Grouping, JoinAll, Utf8Len, TextOf, PhaseOf, Flatten, ItemsOf;
    var st := run.stream;
    StreamIsItems(run);
    if run.Unfinished() {
      assert st.taken == |st.script| && st.script[..st.taken] == st.script;
      LastIsTerminal(run);
    }
  }

  lemma LastIsTerminal(run: ClaimRun)
    requires run.Valid() && Clean(run) && Flatten(run.stream.groups) == ItemsOf(run.stream.script)
    ensures Concluded(run.stream.yielded)
  {
    hide ClaimRun.Valid, Grouping, JoinAll, Utf8Len, TextOf, PhaseOf, Flatten, ItemsOf;
    var st := run.stream;
    var items := ItemsOf(st.script);
    StreamIsItems(run);
    var n := |st.groups|;
    SomeGroup(st.groups, items);
    GroupAt(st.groups, st.maxBytes, n - 1);
    LastGroup(st.groups, st.maxBytes);
    var g := st.groups[n - 1];
    assert g[|g| - 1] == items[|items| - 1];
    JoinedIsDelta(g, st.maxBytes);
  }

  lemma NotUntyped(run: ClaimRun)
    requires run.Valid() && Clean(run)
    ensures !run.Untyped()
  {
    hide ClaimRun.Valid, Grouping, JoinAll, Utf8Len, TextOf, PhaseOf, Flatten, ItemsOf, ClaimRun.Typed;
    var st := run.stream;
    var items := ItemsOf(st.script);
    StreamIsItems(run);
    if run.Untyped() {
      var j := YieldIsItem(st.groups, st.maxBytes, items, run.handled - 1);
    }
  }

  lemma SomeGroup(groups: seq<seq<HermesEvent>>, items: seq<HermesEvent>)
    requires Flatten(groups) == items && items != []
    ensures groups != []
  {
  }

  lemma LastGroup(groups: seq<seq<HermesEvent>>, cap: nat)
    requires groups != [] && Grouping(groups, cap)
    ensures Flatten(groups) == Flatten(groups[..|groups| - 1]) + groups[|groups| - 1]
  {
  }

  lemma JoinedIsDelta(g: seq<HermesEvent>, cap: nat)
    requires Group(g, cap) && g != [] && g[|g| - 1].name == ExecutionCompleted
    ensures |g| == 1 && Join(g) == g[0]
  {
    hide TextOf, Utf8Len;
  }

  /** No approval is ever asked for, and the event budget is not touched. */
  lemma NeverAsked(run: ClaimRun)
    requires run.Valid() && Clean(run)
    ensures !run.Undecided() && !run.Spent()
  {
    hide ClaimRun.Valid, Grouping, JoinAll, Utf8Len, TextOf, PhaseOf, Flatten, ItemsOf, Sum;
    var st := run.stream;
    var items := ItemsOf(st.script);
    StreamIsItems(run);
    HandledInside(run);
    if run.handled > 0 && run.handled <= |st.yielded| {
      var j := YieldIsItem(st.groups, st.maxBytes, items, run.handled - 1);
    }
  }

  lemma HandledInside(run: ClaimRun)
    requires run.Valid()
    ensures run.handled <= |run.stream.yielded|
  {
  }
}
