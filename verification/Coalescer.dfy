/** The stream that joins consecutive text deltas before they are posted to Foundry. */
module Coalescer {
  import opened Events

  // ---------------------------------------------------------------- what merging means

  predicate SameSource(a: HermesEvent, b: HermesEvent) {
    a.session == b.session && a.run == b.run && a.profile == b.profile
  }

  /** Deltas that may be joined: at least one, all text, all from one session, run and profile. */
  ghost predicate Joinable(g: seq<HermesEvent>) {
    g != [] && forall i :: 0 <= i < |g| ==> g[i].IsDelta() && SameSource(g[0], g[i])
  }

  function Join(g: seq<HermesEvent>): HermesEvent
    requires g != []
  {
    if |g| == 1 then g[0] else g[0].(payload := TextPayload(TextOf(g)))
  }

  /** One yielded event stands for one event, or for several joined ones within the byte cap. */
  ghost predicate Group(g: seq<HermesEvent>, cap: nat) {
    |g| == 1 || (Joinable(g) && Utf8Len(TextOf(g)) <= cap)
  }

  ghost predicate Grouping(groups: seq<seq<HermesEvent>>, cap: nat) {
    groups == [] || (Grouping(groups[..|groups| - 1], cap) && Group(groups[|groups| - 1], cap))
  }

  ghost predicate NoDelta(events: seq<HermesEvent>) {
    events == [] || (NoDelta(events[..|events| - 1]) && !events[|events| - 1].IsDelta())
  }

  ghost function Flatten(groups: seq<seq<HermesEvent>>): seq<HermesEvent> {
    if groups == [] then [] else Flatten(groups[..|groups| - 1]) + groups[|groups| - 1]
  }

  ghost function JoinAll(groups: seq<seq<HermesEvent>>): seq<HermesEvent> {
    if groups == [] then [] else
      JoinAll(groups[..|groups| - 1]) + if groups[|groups| - 1] == [] then [] else [Join(groups[|groups| - 1])]
  }

  lemma JoinKeepsText(g: seq<HermesEvent>, cap: nat)
    requires Group(g, cap)
    ensures TextOf([Join(g)]) == TextOf(g)
    ensures OthersOf([Join(g)]) == OthersOf(g)
  {
    if |g| > 1 {
      AllDeltas(g);
      assert [Join(g)][..0] == [];
    } else {
      assert g == [Join(g)];
    }
  }

  lemma {:induction false} AllDeltas(g: seq<HermesEvent>)
    requires forall i :: 0 <= i < |g| ==> g[i].IsDelta()
    ensures OthersOf(g) == []
  {
    if g != [] { AllDeltas(g[..|g| - 1]); }
  }

  /** Joining changes neither the text nor the other events nor their order. */
  lemma {:induction false} GroupingKeepsMeaning(groups: seq<seq<HermesEvent>>, cap: nat)
    requires Grouping(groups, cap)
    ensures TextOf(JoinAll(groups)) == TextOf(Flatten(groups))
    ensures OthersOf(JoinAll(groups)) == OthersOf(Flatten(groups))
  {
    if groups != [] {
      var init, last := groups[..|groups| - 1], groups[|groups| - 1];
      assert Group(last, cap);
      GroupingKeepsMeaning(init, cap);
      JoinKeepsText(last, cap);
      TextOfConcat(JoinAll(init), [Join(last)]);
      TextOfConcat(Flatten(init), last);
      OthersOfConcat(JoinAll(init), [Join(last)]);
      OthersOfConcat(Flatten(init), last);
    }
  }

  // ---------------------------------------------------------------- the stream

  /** What awaiting the inner stream can bring.  A timeout only ends a wait that has a deadline, that
      is, one with text in the buffer. */
  datatype Arrival = Item(event: HermesEvent) | Timeout | Ended | Failed(error: string)

  datatype Output = Yield(event: HermesEvent) | Raise(error: string) | Stop | Waiting

  /** Nothing awaited so far ended the stream. */
  predicate Open(script: seq<Arrival>, taken: nat)
    requires taken <= |script|
  {
    forall i :: 0 <= i < taken ==> script[i].Item? || script[i].Timeout?
  }

  function ItemsOf(arrivals: seq<Arrival>): seq<HermesEvent> {
    if arrivals == [] then [] else
      ItemsOf(arrivals[..|arrivals| - 1])
      + if arrivals[|arrivals| - 1].Item? then [arrivals[|arrivals| - 1].event] else []
  }

  /** The buffer can be flushed as one event: joinable, measured, and within the cap once it joins. */
  ghost predicate Buffered(buffer: seq<HermesEvent>, bytes: nat, cap: nat) {
    && (buffer != [] ==> Joinable(buffer))
    && bytes == Utf8Len(TextOf(buffer)) && (|buffer| > 1 ==> bytes <= cap)
  }

  /** Where every event of the input is: yielded in a group, in the buffer, or held back, in order. */
  datatype Account = Account(
    groups: seq<seq<HermesEvent>>, buffer: seq<HermesEvent>, bytes: nat, held: Option<HermesEvent>, sent: bool)
  {
    function Held(): seq<HermesEvent> { if held.Some? then [held.value] else [] }

    ghost predicate Of(items: seq<HermesEvent>, cap: nat) {
      && Grouping(groups, cap)
      && Flatten(groups) + buffer + Held() == items
      && Buffered(buffer, bytes, cap)
      && (held.Some? ==> buffer == [])
      && (!sent ==> buffer == [] && NoDelta(items))
    }

    ghost function Flushed(): Account { this.(groups := groups + [buffer], buffer := [], bytes := 0) }
    ghost function Passed(e: HermesEvent): Account { this.(groups := groups + [[e]]) }
  }

  lemma FlattenOne(groups: seq<seq<HermesEvent>>, g: seq<HermesEvent>, cap: nat)
    requires g != []
    ensures Flatten(groups + [g]) == Flatten(groups) + g
    ensures JoinAll(groups + [g]) == JoinAll(groups) + [Join(g)]
    ensures Grouping(groups + [g], cap) <==> Grouping(groups, cap) && Group(g, cap)
  {
    assert (groups + [g])[..|groups|] == groups;
  }

  lemma FlushOk(a: Account, items: seq<HermesEvent>, cap: nat)
    requires a.Of(items, cap) && a.buffer != [] && a.held.None?
    ensures a.Flushed().Of(items, cap)
  {
    FlattenOne(a.groups, a.buffer, cap);
  }

  lemma PassOk(a: Account, items: seq<HermesEvent>, e: HermesEvent, cap: nat)
    requires a.Of(items, cap) && a.buffer == [] && a.held.None?
    requires e.IsDelta() ==> a.sent
    ensures a.Passed(e).Of(items + [e], cap)
  {
    FlattenOne(a.groups, [e], cap);
    assert (items + [e])[..|items|] == items;
  }

  lemma FirstOk(a: Account, items: seq<HermesEvent>, e: HermesEvent, cap: nat)
    requires a.Of(items, cap) && !a.sent && a.held.None?
    ensures a.Passed(e).(sent := true).Of(items + [e], cap)
  {
    FlattenOne(a.groups, [e], cap);
  }

  lemma ReleaseOk(a: Account, items: seq<HermesEvent>, cap: nat)
    requires a.Of(items, cap) && a.held.Some?
    ensures a.Passed(a.held.value).(held := None).Of(items, cap)
  {
    FlattenOne(a.groups, [a.held.value], cap);
  }

  lemma BytesOne(g: seq<HermesEvent>, e: HermesEvent)
    ensures TextOf(g + [e]) == TextOf(g) + e.Text()
    ensures Utf8Len(TextOf(g + [e])) == Utf8Len(TextOf(g)) + Utf8Len(e.Text())
  {
    assert (g + [e])[..|g|] == g;
    Utf8LenConcat(TextOf(g), e.Text());
  }

  lemma BufferOne(buffer: seq<HermesEvent>, bytes: nat, e: HermesEvent, cap: nat)
    requires Buffered(buffer, bytes, cap) && e.IsDelta()
    requires buffer != [] ==> SameSource(buffer[0], e) && bytes + Utf8Len(e.Text()) <= cap
    ensures Buffered(buffer + [e], bytes + Utf8Len(e.Text()), cap)
  {
    hide TextOf, Utf8Len;
    BytesOne(buffer, e);
  }

  lemma AppendOk(a: Account, items: seq<HermesEvent>, e: HermesEvent, cap: nat)
    requires a.Of(items, cap) && a.sent && a.held.None? && e.IsDelta()
    requires a.buffer != [] ==> SameSource(a.buffer[0], e) && a.bytes + Utf8Len(e.Text()) <= cap
    ensures a.(buffer := a.buffer + [e], bytes := a.bytes + Utf8Len(e.Text())).Of(items + [e], cap)
  {
    hide Grouping, Buffered, TextOf, Utf8Len, NoDelta, Flatten, Joinable;
    BufferOne(a.buffer, a.bytes, e, cap);
    var b := a.(buffer := a.buffer + [e], bytes := a.bytes + Utf8Len(e.Text()));
    calc {
      Flatten(b.groups) + b.buffer + b.Held();
      Flatten(a.groups) + a.buffer + [e];
      items + [e];
    }
  }

  lemma HoldOk(a: Account, items: seq<HermesEvent>, e: HermesEvent, cap: nat)
    requires a.Of(items, cap) && a.buffer != [] && a.held.None? && !e.IsDelta()
    ensures a.Flushed().(held := Some(e)).Of(items + [e], cap)
  {
    FlattenOne(a.groups, a.buffer, cap);
  }

  /** What the stream does with one event of the inner stream: the new account, and the event that
      goes out, if any.  The first text goes out at once; later text is joined while it comes from
      the same source and fits the cap; anything else flushes the buffer first. */
  function Step(buffer: seq<HermesEvent>, bytes: nat, sent: bool, e: HermesEvent, cap: nat): Move {
    if e.IsDelta() && !sent then Pass
    else if e.IsDelta() then
      if buffer == [] || (SameSource(buffer[0], e) && bytes + Utf8Len(e.Text()) <= cap) then Keep else Replace
    else if buffer != [] then Hold else Pass
  }

  datatype Move = Pass | Keep | Replace | Hold

  ghost function Moved(a: Account, e: HermesEvent, move: Move): Account {
    match move
    case Pass => a.Passed(e).(sent := a.sent || e.IsDelta())
    case Keep => a.(buffer := a.buffer + [e], bytes := a.bytes + Utf8Len(e.Text()))
    case Replace => a.Flushed().(buffer := [e], bytes := Utf8Len(e.Text()))
    case Hold => a.Flushed().(held := Some(e))
  }

  lemma MoveOk(a: Account, items: seq<HermesEvent>, e: HermesEvent, cap: nat)
    requires a.Of(items, cap) && a.held.None?
    ensures Moved(a, e, Step(a.buffer, a.bytes, a.sent, e, cap)).Of(items + [e], cap)
  {
    hide Account.Of, Flatten, Grouping, Buffered, TextOf, Utf8Len, NoDelta;
    match Step(a.buffer, a.bytes, a.sent, e, cap)
    case Pass => if e.IsDelta() { FirstOk(a, items, e, cap); } else { PassOk(a, items, e, cap); }
    case Keep => AppendOk(a, items, e, cap);
    case Replace =>
      FlushOk(a, items, cap);
      AppendOk(a.Flushed(), items, e, cap);
      assert [] + [e] == [e];
    case Hold => HoldOk(a, items, e, cap);
  }

  // ---------------------------------------------------------------- text is joined where it can be

  predicate IsText(g: seq<HermesEvent>) { g != [] && g[0].IsDelta() }

  /** The delta could have been joined to the group. */
  predicate Joins(g: seq<HermesEvent>, e: HermesEvent, cap: nat) {
    IsText(g) && e.IsDelta() && SameSource(g[0], e) && Utf8Len(TextOf(g)) + Utf8Len(e.Text()) <= cap
  }

  ghost predicate NoText(groups: seq<seq<HermesEvent>>) { forall k :: 0 <= k < |groups| ==> !IsText(groups[k]) }

  /** Group `k` did not have to wait for more: it is the first text of all, or its window had closed. */
  ghost predicate Excused(groups: seq<seq<HermesEvent>>, windows: set<nat>, k: nat)
    requires k < |groups|
  {
    k in windows || NoText(groups[..k])
  }

  /** No group is followed by text that could have been joined to it, but for the excused ones. */
  ghost predicate Tight(groups: seq<seq<HermesEvent>>, windows: set<nat>, cap: nat) {
    forall k :: 0 <= k < |groups| - 1 && groups[k + 1] != [] && Joins(groups[k], groups[k + 1][0], cap) ==> Excused(groups, windows, k)
  }

  lemma TightOne(groups: seq<seq<HermesEvent>>, g: seq<HermesEvent>, windows: set<nat>, cap: nat)
    requires Tight(groups, windows, cap) && g != []
    requires groups != [] && Joins(groups[|groups| - 1], g[0], cap) ==> Excused(groups, windows, |groups| - 1)
    ensures Tight(groups + [g], windows, cap)
  {
    hide Joins;
    var after := groups + [g];
    forall k | 0 <= k < |after| - 1 && after[k + 1] != [] && Joins(after[k], after[k + 1][0], cap) ensures Excused(after, windows, k) {
      assert after[..k] == groups[..k] && after[k] == groups[k];
      if k < |groups| - 1 { assert after[k + 1] == groups[k + 1]; }
    }
  }

  lemma TightInit(groups: seq<seq<HermesEvent>>, g: seq<HermesEvent>, windows: set<nat>, cap: nat)
    requires Tight(groups + [g], windows, cap)
    ensures Tight(groups, windows, cap)
    ensures groups != [] && g != [] && Joins(groups[|groups| - 1], g[0], cap) ==> Excused(groups, windows, |groups| - 1)
  {
    hide Joins;
    var after := groups + [g];
    assert forall k :: 0 <= k < |groups| ==> after[..k] == groups[..k] && after[k] == groups[k];
    forall k | 0 <= k < |groups| - 1 && groups[k + 1] != [] && Joins(groups[k], groups[k + 1][0], cap) ensures Excused(groups, windows, k) {
      assert after[k + 1] == groups[k + 1] && Excused(after, windows, k);
    }
    if groups != [] && g != [] && Joins(groups[|groups| - 1], g[0], cap) {
      var k := |groups| - 1;
      assert after[k + 1] == g && Excused(after, windows, k);
    }
  }

  /** What has gone out and what is kept back is tight, and text may be kept back anew. */
  ghost predicate Frugal(a: Account, done: bool, windows: set<nat>, cap: nat) {
    && Tight(if a.buffer == [] then a.groups else a.groups + [a.buffer], windows, cap)
    && (a.held.Some? ==> !a.held.value.IsDelta() && a.buffer == [])
    && (!a.sent ==> NoText(a.groups) && a.buffer == [])
    && (!done && a.buffer == [] && a.held.None? && a.groups != [] ==> !IsText(a.groups[|a.groups| - 1]) || Excused(a.groups, windows, |a.groups| - 1))
  }

  lemma NoTextOne(groups: seq<seq<HermesEvent>>, g: seq<HermesEvent>)
    ensures NoText(groups + [g]) <==> NoText(groups) && !IsText(g)
    ensures (groups + [g])[..|groups|] == groups
  {
    var after := groups + [g];
    assert after[|groups|] == g;
    if NoText(after) {
      forall k | 0 <= k < |groups| ensures !IsText(groups[k]) { assert !IsText(after[k]); }
    }
  }

  lemma MoveIsFrugal(a: Account, items: seq<HermesEvent>, e: HermesEvent, windows: set<nat>, cap: nat)
    requires a.Of(items, cap) && a.held.None? && Frugal(a, false, windows, cap)
    ensures Frugal(Moved(a, e, Step(a.buffer, a.bytes, a.sent, e, cap)), false, windows, cap)
  {
    hide Account.Of, Frugal, TextOf, Utf8Len;
    Measured(a, items, windows, cap);
    match Step(a.buffer, a.bytes, a.sent, e, cap)
    case Pass => PassIsFrugal(a, e, windows, cap);
    case Keep => KeepIsFrugal(a, e, windows, cap);
    case Replace => ReplaceIsFrugal(a, e, windows, cap);
    case Hold => HoldIsFrugal(a, e, windows, cap);
  }

  lemma Measured(a: Account, items: seq<HermesEvent>, windows: set<nat>, cap: nat)
    requires a.Of(items, cap) && Frugal(a, false, windows, cap)
    ensures a.bytes == Utf8Len(TextOf(a.buffer)) && (!a.sent ==> a.buffer == [])
  {
    hide Tight, Excused, NoText, TextOf, Utf8Len, Flatten, Grouping, NoDelta;
  }

  lemma PassIsFrugal(a: Account, e: HermesEvent, windows: set<nat>, cap: nat)
    requires Frugal(a, false, windows, cap) && a.held.None? && a.buffer == [] && (e.IsDelta() ==> !a.sent)
    ensures Frugal(a.Passed(e).(sent := a.sent || e.IsDelta()), false, windows, cap)
  {
    hide Tight, Excused, NoText, TextOf, Utf8Len;
    NoTextOne(a.groups, [e]);
    if e.IsDelta() { FirstIsExcused(a.groups, [e], windows); }
    TightOne(a.groups, [e], windows, cap);
  }

  lemma KeepIsFrugal(a: Account, e: HermesEvent, windows: set<nat>, cap: nat)
    requires Frugal(a, false, windows, cap) && a.held.None? && a.sent && e.IsDelta()
    ensures Frugal(a.(buffer := a.buffer + [e], bytes := a.bytes + Utf8Len(e.Text())), false, windows, cap)
  {
    hide Tight, Excused, NoText, TextOf, Utf8Len;
    if a.buffer == [] {
      assert [] + [e] == [e];
      TightOne(a.groups, [e], windows, cap);
    } else {
      TightInit(a.groups, a.buffer, windows, cap);
      TightOne(a.groups, a.buffer + [e], windows, cap);
    }
  }

  lemma ReplaceIsFrugal(a: Account, e: HermesEvent, windows: set<nat>, cap: nat)
    requires Frugal(a, false, windows, cap) && a.held.None? && a.sent && a.buffer != [] && !Joins(a.buffer, e, cap)
    ensures Frugal(a.Flushed().(buffer := [e], bytes := Utf8Len(e.Text())), false, windows, cap)
  {
    hide Tight, Excused, NoText, TextOf, Utf8Len, Joins;
    TightOne(a.groups + [a.buffer], [e], windows, cap);
  }

  lemma HoldIsFrugal(a: Account, e: HermesEvent, windows: set<nat>, cap: nat)
    requires Frugal(a, false, windows, cap) && a.held.None? && a.buffer != [] && !e.IsDelta()
    ensures Frugal(a.Flushed().(held := Some(e)), false, windows, cap)
  {
    hide Tight, Excused, NoText, TextOf, Utf8Len, Joins;
  }

  lemma ReleaseIsFrugal(a: Account, done: bool, windows: set<nat>, cap: nat)
    requires Frugal(a, done, windows, cap) && a.held.Some?
    ensures Frugal(a.Passed(a.held.value).(held := None), done, windows, cap)
  {
    hide Tight, Excused, NoText, TextOf, Utf8Len;
    NoTextOne(a.groups, [a.held.value]);
    TightOne(a.groups, [a.held.value], windows, cap);
  }

  /** A flush at the end of the stream, or when the window closes. */
  lemma FlushIsFrugal(a: Account, done: bool, windows: set<nat>, cap: nat)
    requires Frugal(a, done, windows, cap) && a.buffer != []
    ensures Frugal(a.Flushed(), true, windows, cap) && Frugal(a.Flushed(), done, windows + {|a.groups|}, cap)
  {
    hide TextOf, Utf8Len, Joins;
  }

  lemma DoneIsFrugal(a: Account, windows: set<nat>, cap: nat)
    requires Frugal(a, false, windows, cap)
    ensures Frugal(a, true, windows, cap)
  {
  }

  lemma FirstIsExcused(groups: seq<seq<HermesEvent>>, g: seq<HermesEvent>, windows: set<nat>)
    requires NoText(groups)
    ensures Excused(groups + [g], windows, |groups|)
    ensures groups != [] ==> !IsText(groups[|groups| - 1])
  {
    assert (groups + [g])[..|groups|] == groups;
  }

  /** How many windows have closed. */
  function Timeouts(script: seq<Arrival>): nat {
    if script == [] then 0 else Timeouts(script[..|script| - 1]) + if script[|script| - 1].Timeout? then 1 else 0
  }

  lemma TimeoutsOne(script: seq<Arrival>, n: nat)
    requires n < |script|
    ensures Timeouts(script[..n + 1]) == Timeouts(script[..n]) + if script[n].Timeout? then 1 else 0
  {
    assert script[..n + 1][..n] == script[..n];
  }

  lemma ItemsOfOne(script: seq<Arrival>, n: nat)
    requires n < |script|
    ensures ItemsOf(script[..n + 1]) == ItemsOf(script[..n]) + if script[n].Item? then [script[n].event] else []
  {
    assert script[..n + 1][..n] == script[..n];
  }

  class CoalescedStream {
    const maxBytes: nat
    /** What the inner stream will bring, and how much of it has been awaited. */
    const script: seq<Arrival>
    var taken: nat
    var buffer: seq<HermesEvent>
    var bufferBytes: nat
    var held: Option<HermesEvent>
    var error: Option<string>
    var done: bool
    var firstDeltaSent: bool

    /** What was yielded, and which input events each yield stands for. */
    ghost var yielded: seq<HermesEvent>
    ghost var groups: seq<seq<HermesEvent>>
    ghost var raised: nat
    /** The groups that went out because their window had closed. */
    ghost var windows: set<nat>

    ghost function View(): Account
      reads this
    {
      Account(groups, buffer, bufferBytes, held, firstDeltaSent)
    }

    /** The events awaited so far. */
    function Consumed(): seq<HermesEvent>
      requires taken <= |script|
      reads this
    {
      ItemsOf(script[..taken])
    }

    ghost predicate Valid()
      reads this
    {
      && taken <= |script|
      && View().Of(Consumed(), maxBytes) && yielded == JoinAll(groups)
      && (!done ==> Open(script, taken))
      && (error.Some? ==> done)
      && raised + (if error.Some? then 1 else 0) <= 1
      && (raised == 1 ==> done && buffer == [] && held.None?)
      && (error.Some? || raised == 1 <==> FailureSeen())
      && Thrifty()
    }

    /** Text is kept back and joined where it can be; as many groups are excused as windows have closed. */
    ghost predicate Thrifty()
      reads this
    {
      taken <= |script| && Frugal(View(), done, windows, maxBytes) && |windows| <= Timeouts(script[..taken])
    }

    /** The last arrival awaited was the failure of the inner stream. */
    predicate FailureSeen()
      reads `taken
    {
      0 < taken <= |script| && script[taken - 1].Failed?
    }

    /** The last arrival awaited was its end. */
    predicate EndSeen()
      reads `taken
    {
      0 < taken <= |script| && script[taken - 1].Ended?
    }

    constructor (script: seq<Arrival>, maxBytes: nat)
      ensures Valid() && this.script == script && this.maxBytes == maxBytes
      ensures taken == 0 && yielded == [] && raised == 0 && !done
    {
      this.script, this.maxBytes, taken := script, maxBytes, 0;
      buffer, bufferBytes, held, error := [], 0, None, None;
      done, firstDeltaSent := false, false;
      yielded, groups, raised, windows := [], [], 0, {};
    }

    /** The buffered deltas as one event; never called with an empty buffer. */
    method Flush() returns (event: HermesEvent)
      requires buffer != [] && held.None? && yielded == JoinAll(groups)
      modifies `buffer, `bufferBytes, `groups, `yielded
      ensures View() == old(View()).Flushed() && yielded == JoinAll(groups)
      ensures event == Join(old(buffer)) && yielded == old(yielded) + [event]
    {
      FlattenOne(groups, buffer, maxBytes);
      event := Join(buffer);
      groups, yielded := groups + [buffer], yielded + [event];
      buffer, bufferBytes := [], 0;
    }

    /** `__anext__`, run until it yields, raises, stops, or needs an arrival that is not there yet. */
    method Next() returns (out: Output)
      requires Valid()
      modifies this
      ensures Valid()
      ensures old(taken) <= taken && (old(done) ==> taken == old(taken))
      ensures yielded == old(yielded) + if out.Yield? then [out.event] else []
      ensures raised == old(raised) + if out.Raise? then 1 else 0
      ensures out.Raise? || out.Stop? ==> done && Flatten(groups) == Consumed() && error.None?
      ensures out.Raise? && !old(done) ==> taken > 0 && script[taken - 1] == Failed(out.error)
      ensures out.Stop? && !old(done) ==> taken > 0 && script[taken - 1] == Ended
      ensures out.Waiting? ==> taken == |script| && !done
      ensures done && !old(done) ==> FailureSeen() || EndSeen()
      ensures firstDeltaSent && !old(firstDeltaSent) ==>
        taken > 0 && script[taken - 1].Item? && script[taken - 1].event.IsDelta() && out == Yield(script[taken - 1].event)
    {
      if held.Some? {
        out := TakeHeld();
      } else {
        out := Resume();
      }
    }

    method Resume() returns (out: Output)
      requires Valid() && held.None?
      modifies this
      ensures Valid()
      ensures old(taken) <= taken && (old(done) ==> taken == old(taken))
      ensures yielded == old(yielded) + if out.Yield? then [out.event] else []
      ensures raised == old(raised) + if out.Raise? then 1 else 0
      ensures out.Raise? || out.Stop? ==> done && Flatten(groups) == Consumed() && error.None?
      ensures out.Raise? && !old(done) ==> taken > 0 && script[taken - 1] == Failed(out.error)
      ensures out.Stop? && !old(done) ==> taken > 0 && script[taken - 1] == Ended
      ensures out.Waiting? ==> taken == |script| && !done
      ensures done && !old(done) ==> FailureSeen() || EndSeen()
      ensures firstDeltaSent && !old(firstDeltaSent) ==>
        taken > 0 && script[taken - 1].Item? && script[taken - 1].event.IsDelta() && out == Yield(script[taken - 1].event)
    {
      hide Account.Of, Flatten, Grouping, Buffered, TextOf, Utf8Len, NoDelta, JoinAll, ItemsOf, Open, Frugal, Timeouts;
      var event := Pull();
      if event.Some? {
        out := Yield(event.value);
      } else if !done {
        out := Waiting;
      } else {
        out := Drain();
      }
    }

    /** Await arrivals until one makes an event go out, or the stream ends, or none is there yet. */
    method Pull() returns (event: Option<HermesEvent>)
      requires Valid() && held.None?
      modifies this
      ensures Valid() && raised == old(raised)
      ensures old(taken) <= taken && (old(done) ==> event.None? && taken == old(taken) && done && error == old(error))
      ensures yielded == old(yielded) + if event.Some? then [event.value] else []
      ensures event.None? ==> held.None? && firstDeltaSent == old(firstDeltaSent) && (done || taken == |script|)
      ensures event.None? && done && !old(done) ==>
        taken > 0 && script[taken - 1] == if error.None? then Ended else Failed(error.value)
      ensures event.Some? ==> done == old(done)
      ensures firstDeltaSent && !old(firstDeltaSent) ==>
        event.Some? && event.value.IsDelta() && taken > 0 && script[taken - 1] == Item(event.value)
    {
      hide Account.Of, Flatten, Grouping, Buffered, TextOf, Utf8Len, NoDelta, JoinAll, ItemsOf, Open, Consumed, Frugal, Timeouts;
      while !done && taken < |script|
        invariant Valid() && held.None? && raised == old(raised) && yielded == old(yielded)
        invariant firstDeltaSent == old(firstDeltaSent)
        invariant old(taken) <= taken && (old(done) ==> done && taken == old(taken) && error == old(error))
        invariant done && !old(done) ==>
          taken > 0 && script[taken - 1] == if error.None? then Ended else Failed(error.value)
        decreases !done, |script| - taken
      {
        event := Await();
        if event.Some? { return; }
      }
      event := None;
    }

    method TakeHeld() returns (out: Output)
      requires Valid() && held.Some?
      modifies `held, `groups, `yielded
      ensures Valid() && held.None? && out == Yield(old(held).value) && yielded == old(yielded) + [out.event]
    {
      hide Account.Of, Flatten, Grouping, Buffered, TextOf, Utf8Len, NoDelta, JoinAll, ItemsOf, Frugal, Timeouts, Open;
      var event := held.value;
      ReleaseIsFrugal(View(), done, windows, maxBytes);
      ReleaseOk(View(), Consumed(), maxBytes);
      FlattenOne(groups, [event], maxBytes);
      held := None;
      groups, yielded := groups + [[event]], yielded + [event];
      return Yield(event);
    }

    /** After the end: the buffer first, then the error once, then nothing. */
    method Drain() returns (out: Output)
      requires Valid() && done && held.None?
      modifies `buffer, `bufferBytes, `groups, `yielded, `error, `raised
      ensures Valid() && !out.Waiting?
      ensures yielded == old(yielded) + if out.Yield? then [out.event] else []
      ensures raised == old(raised) + if out.Raise? then 1 else 0
      ensures out.Yield? <==> old(buffer) != []
      ensures out.Raise? || out.Stop? ==> Flatten(groups) == Consumed() && error.None?
      ensures out.Raise? ==> Some(out.error) == old(error)
      ensures out.Stop? ==> old(error).None?
    {
      hide Account.Of, Grouping, Buffered, TextOf, Utf8Len, NoDelta, JoinAll, ItemsOf, Frugal, Timeouts, Open;
      if buffer != [] {
        FlushIsFrugal(View(), done, windows, maxBytes);
        FlushOk(View(), Consumed(), maxBytes);
        var event := Flush();
        return Yield(event);
      }
      ConsumedIsOut();
      if error.Some? {
        out := Raise(error.value);
        error := None;
        raised := raised + 1;
        return;
      }
      return Stop;
    }

    lemma DoneIsFrugalHere()
      requires Valid() && !done
      ensures Frugal(View(), true, windows, maxBytes)
    {
      hide Account.Of, Frugal;
      DoneIsFrugal(View(), windows, maxBytes);
    }

    lemma ConsumedIsOut()
      requires Valid() && buffer == [] && held.None?
      ensures Flatten(groups) == Consumed()
    {
    }

    /** One turn of the loop: await the inner stream and act on what comes. */
    method Await() returns (event: Option<HermesEvent>)
      requires Valid() && !done && held.None? && taken < |script|
      modifies this
      ensures Valid() && taken == old(taken) + 1 && raised == old(raised)
      ensures yielded == old(yielded) + if event.Some? then [event.value] else []
      ensures event.None? ==> held.None? && firstDeltaSent == old(firstDeltaSent)
      ensures firstDeltaSent && !old(firstDeltaSent) ==>
        event.Some? && event.value.IsDelta() && script[taken - 1] == Item(event.value)
      ensures var a := script[taken - 1];
        && (done <==> a.Ended? || a.Failed?) && (event.Some? ==> !done)
        && error == if a.Failed? then Some(a.error) else None
    {
      hide Account.Of, Flatten, Grouping, Buffered, TextOf, Utf8Len, NoDelta, JoinAll, ItemsOf, Frugal, Timeouts;
      DoneIsFrugalHere();
      TimeoutsOne(script, taken);
      ItemsOfOne(script, taken);
      assert ItemsOf(script[..taken]) + [] == ItemsOf(script[..taken]);
      match script[taken]
      case Item(e) => event := AwaitItem(e);
      case Timeout => event := AwaitTimeout();
      case Ended =>
        taken, done := taken + 1, true;
        event := None;
      case Failed(e) =>
        taken, done, error := taken + 1, true, Some(e);
        event := None;
    }

    method AwaitItem(e: HermesEvent) returns (event: Option<HermesEvent>)
      requires Valid() && !done && held.None? && taken < |script| && script[taken] == Item(e)
      modifies `taken, `buffer, `bufferBytes, `held, `firstDeltaSent, `groups, `yielded
      ensures Valid() && taken == old(taken) + 1
      ensures yielded == old(yielded) + if event.Some? then [event.value] else []
      ensures event.None? ==> held.None? && firstDeltaSent == old(firstDeltaSent)
      ensures firstDeltaSent && !old(firstDeltaSent) ==> event == Some(e) && e.IsDelta()
    {
      hide Account.Of, Flatten, Grouping, Buffered, TextOf, Utf8Len, NoDelta, JoinAll, ItemsOf, Frugal, Timeouts;
      TimeoutsOne(script, taken);
      MoveIsFrugal(View(), Consumed(), e, windows, maxBytes);
      ItemsOfOne(script, taken);
      MoveOk(View(), Consumed(), e, maxBytes);
      event := Accept(e);
      taken := taken + 1;
    }

    method AwaitTimeout() returns (event: Option<HermesEvent>)
      requires Valid() && !done && held.None? && taken < |script| && script[taken] == Timeout
      modifies `taken, `buffer, `bufferBytes, `groups, `yielded, `windows
      ensures Valid() && taken == old(taken) + 1 && buffer == []
      ensures yielded == old(yielded) + if event.Some? then [event.value] else []
    {
      hide Account.Of, Flatten, Grouping, Buffered, TextOf, Utf8Len, NoDelta, JoinAll, ItemsOf, Frugal, Timeouts;
      ItemsOfOne(script, taken);
      TimeoutsOne(script, taken);
      assert ItemsOf(script[..taken]) + [] == ItemsOf(script[..taken]);
      taken := taken + 1;
      if buffer == [] { return None; }
      FlushIsFrugal(View(), false, windows, maxBytes);
      windows := windows + {|groups|};
      FlushOk(View(), Consumed(), maxBytes);
      var flushed := Flush();
      return Some(flushed);
    }

    method Accept(e: HermesEvent) returns (event: Option<HermesEvent>)
      requires held.None? && yielded == JoinAll(groups)
      modifies `buffer, `bufferBytes, `held, `firstDeltaSent, `groups, `yielded
      ensures var move := Step(old(buffer), old(bufferBytes), old(firstDeltaSent), e, maxBytes);
        && View() == Moved(old(View()), e, move)
        && event == (match move case Pass => Some(e) case Keep => None case _ => Some(Join(old(buffer))))
      ensures yielded == JoinAll(groups) && yielded == old(yielded) + if event.Some? then [event.value] else []
    {
      hide Account.Of, Flatten, Grouping, Buffered, TextOf, Utf8Len, NoDelta, ItemsOf, JoinAll;
      if e.IsDelta() && !firstDeltaSent {
        firstDeltaSent := true;
        event := Some(e);
        FlattenOne(groups, [e], maxBytes);
        groups, yielded := groups + [[e]], yielded + [e];
      } else if e.IsDelta() {
        var size := Utf8Len(e.Text());
        if buffer == [] || (SameSource(buffer[0], e) && bufferBytes + size <= maxBytes) {
          buffer, bufferBytes := buffer + [e], bufferBytes + size;
          event := None;
        } else {
          var flushed := Flush();
          buffer, bufferBytes := [e], size;
          event := Some(flushed);
        }
      } else if buffer != [] {
        var flushed := Flush();
        held := Some(e);
        event := Some(flushed);
      } else {
        event := Some(e);
        FlattenOne(groups, [e], maxBytes);
        groups, yielded := groups + [[e]], yielded + [e];
      }
    }

    /** Close, from wherever: nothing is read afterwards, but buffered text still goes out. */
    method Close()
      requires Valid()
      modifies `done
      ensures Valid() && done
    {
      if !done { DoneIsFrugalHere(); }
      done := true;
    }
  }

  /** Text that could have been joined to the text before it is only yielded apart when that was the first
      text of all, or its window had closed; and no more windows count than there were timeouts. */
  lemma TextIsJoined(st: CoalescedStream, j: nat, k: nat)
    requires st.Valid() && j < k && k + 1 < |st.groups| && IsText(st.groups[j]) && IsText(st.groups[k]) && IsText(st.groups[k + 1])
    ensures |st.windows| <= Timeouts(st.script[..st.taken])
    ensures k in st.windows || !SameSource(st.groups[k][0], st.groups[k + 1][0])
      || Utf8Len(TextOf(st.groups[k])) + Utf8Len(st.groups[k + 1][0].Text()) > st.maxBytes
  {
    hide Account.Of, Flatten, Grouping, Buffered, TextOf, Utf8Len, NoDelta, JoinAll, ItemsOf, Timeouts, Open;
    var a := st.View();
    assert Frugal(a, st.done, st.windows, st.maxBytes);
    if a.buffer != [] { TightInit(a.groups, a.buffer, st.windows, st.maxBytes); }
    assert Tight(st.groups, st.windows, st.maxBytes);
    assert IsText(st.groups[..k][j]);
  }
}
