/** What holds of every log the normaliser accepts, and of what it yields. */
module HermesTheorems {
  import opened Events
  import opened HermesLog
  import opened Transcript

  lemma {:induction false} Prefix(c: Context, log: seq<Raw>, n: nat)
    requires Accepted(c, log) && n <= |log|
    ensures Accepted(c, log[..n])
    ensures n < |log| ==> Admissible(c, log[..n], log[n])
    decreases |log|
  {
    if n == |log| {
      assert log[..n] == log;
    } else if n < |log| - 1 {
      Prefix(c, log[..|log| - 1], n);
      assert log[..|log| - 1][..n] == log[..n];
    }
  }

  // ---------------------------------------------------------------- the shape of a run

  predicate Running(name: RawName) {
    name.MessageStarted? || name.AssistantDelta? || name.AssistantCompleted? || name.ToolStarted? || name.ToolProgress?
    || name.ToolCompleted? || name.ApprovalRequested? || name.ApprovalAnswered?
  }

  predicate AllRunning(log: seq<Raw>, lo: nat, hi: int) {
    forall i :: lo <= i < hi <= |log| ==> Running(log[i].name)
  }

  /** An accepted log is one run.started, running events, one run.completed, done - or a prefix. */
  lemma {:induction false} Shape(c: Context, log: seq<Raw>)
    requires Accepted(c, log) && log != []
    ensures log[0].name == RunStarted
    ensures forall i :: 0 <= i < |log| ==> Val(log[i], RunId) == Val(log[0], RunId)
    ensures var n := |log|;
      match (Completion(log).Some?, Has(log, DoneMarker))
      case (false, done) => !done && AllRunning(log, 1, n)
      case (true, false) => n >= 2 && log[n - 1].name == RunCompleted && Completion(log) == Some(log[n - 1]) && AllRunning(log, 1, n - 1)
      case (true, true) => n >= 3 && log[n - 1].name == DoneMarker && log[n - 2].name == RunCompleted
                           && Completion(log) == Some(log[n - 2]) && AllRunning(log, 1, n - 2)
  {
    hide StartOk, EndOk, RequestOk, AnswerOk, CompletionOk, BoundedText, PlainName, IsToken;
    hide OpenKind, LegacyOpen, PendingApproval, CompletionSession, Started, Answered, Utf8Len, VerdictOf;
    var init, e := log[..|log| - 1], log[|log| - 1];
    assert log == init + [e];
    AppendHas(init, e);
    AppendEnds(init, e);
    if init != [] { Shape(c, init); }
  }

  // ---------------------------------------------------------------- the yielded events

  /** Events are numbered 1, 2, ... under the run of run.started. */
  lemma {:induction false} YieldsAreNumbered(c: Context, log: seq<Raw>)
    requires Accepted(c, log)
    ensures var ys := YieldsOf(c, log);
      forall k :: 0 <= k < |ys| ==> ys[k].sequence == k + 1 && ys[k].run == RunName(log) && ys[k].profile == c.profile
  {
    hide Admissible, Visible, SessionOf;
    if log != [] {
      var init, e := log[..|log| - 1], log[|log| - 1];
      assert log == init + [e];
      YieldsAreNumbered(c, init);
      AppendEnds(init, e);
      AppendAccepts(c, init, e);
      var more := YieldAfter(c, init, e);
      if init == [] {
        FirstYieldsNothing(c, e);
        assert YieldsOf(c, log) == [];
      } else {
        assert RunName(log) == RunName(init);
        assert |more| <= 1 && YieldsOf(c, log) == YieldsOf(c, init) + more;
      }
    }
  }

  lemma FirstYieldsNothing(c: Context, e: Raw)
    requires Admissible(c, [], e)
    ensures YieldAfter(c, [], e) == []
  {
  }

  /** The terminal event comes last, once, and only when done has been accepted. */
  lemma {:induction false} YieldsInOrder(c: Context, log: seq<Raw>)
    requires Accepted(c, log)
    ensures var ys := YieldsOf(c, log);
      && (forall k :: 0 <= k < |ys| ==> (ys[k].name == ExecutionCompleted <==> k == |ys| - 1 && Has(log, DoneMarker)))
      && (Has(log, DoneMarker) ==> ys != [])
  {
    hide Admissible, SessionOf, BoundedText, PlainName, IsToken, ReportIn, OutcomeOf, Subject;
    hide OpenKind, LegacyOpen, PendingApproval, CompletionSession, Started, Answered, Utf8Len, VerdictOf;
    if log != [] {
      var init, e := log[..|log| - 1], log[|log| - 1];
      assert log == init + [e];
      YieldsInOrder(c, init);
      AppendHas(init, e);
      AppendEnds(init, e);
      AppendAccepts(c, init, e);
      DoneComesLast(c, init, e);
      var more := YieldAfter(c, init, e);
      assert |more| <= 1 && YieldsOf(c, log) == YieldsOf(c, init) + more;
      assert more != [] ==> (more[0].name == ExecutionCompleted <==> e.name == DoneMarker);
    }
  }

  lemma DoneComesLast(c: Context, init: seq<Raw>, e: Raw)
    requires Accepted(c, init) && Admissible(c, init, e)
    ensures !Has(init, DoneMarker) && (e.name == DoneMarker ==> Completion(init).Some?)
  {
    if init != [] { Shape(c, init); }
  }

  /** Later events never change what has been yielded. */
  lemma {:induction false} YieldsGrow(c: Context, log: seq<Raw>, n: nat)
    requires n <= |log|
    ensures YieldsOf(c, log[..n]) <= YieldsOf(c, log)
    decreases |log|
  {
    if n == |log| {
      assert log[..n] == log;
    } else {
      YieldsGrow(c, log[..|log| - 1], n);
      assert log[..|log| - 1][..n] == log[..n];
    }
  }

  /** The words one event adds. */
  ghost function Words(log: seq<Raw>, e: Raw): string {
    if e.name == AssistantDelta then Str(Val(e, Delta))
    else if e.name == AssistantCompleted && !Has(log, AssistantDelta) then Str(Val(e, Content))
    else ""
  }

  lemma YieldCarriesWords(c: Context, log: seq<Raw>, e: Raw)
    ensures TextOf(YieldAfter(c, log, e)) == Words(log, e)
  {
    hide Has, Completion, RunOf, SessionOf, ReportIn, OutcomeOf, Subject, YieldsOf;
    var more := YieldAfter(c, log, e);
    if more != [] {
      assert more[..0] == [];
      assert TextOf(more) == more[0].Text();
    }
  }

  /** The yielded deltas carry exactly the assistant's words. */
  lemma {:induction false} YieldsCarryText(c: Context, log: seq<Raw>)
    ensures TextOf(YieldsOf(c, log)) == AssistantText(c, log)
  {
    hide Has, Visible, YieldAfter, TextOf;
    if log == [] {
      NoText();
    } else {
      var init, e := log[..|log| - 1], log[|log| - 1];
      YieldsCarryText(c, init);
      TextOfConcat(YieldsOf(c, init), YieldAfter(c, init, e));
      YieldCarriesWords(c, init, e);
    }
  }

  lemma NoText()
    ensures TextOf([]) == ""
  {
  }

  // ---------------------------------------------------------------- tool calls

  /** A call id is started at most once. */
  lemma StartedOnce(c: Context, log: seq<Raw>, i: nat, j: nat, id: string)
    requires Accepted(c, log) && i < |log| && j < |log| && Starts(log[i], id) && Starts(log[j], id)
    ensures i == j
  {
    if i != j {
      var lo, hi := if i < j then i else j, if i < j then j else i;
      WasStarted(log, lo, hi, id);
      Prefix(c, log, hi);
    }
  }

  lemma WasStarted(log: seq<Raw>, i: nat, n: nat, id: string)
    requires i < n <= |log| && Starts(log[i], id)
    ensures Started(log[..n], id)
  {
    assert Starts(log[..n][i], id);
  }

  /** The calls that an admissible event starts are new, those it ends are open, under its kind. */
  lemma AdmissibleCalls(c: Context, log: seq<Raw>, e: Raw, id: string)
    requires Admissible(c, log, e)
    ensures Starts(e, id) ==> !Started(log, id)
    ensures Ends(e, id) ==> OpenKind(c, log, id) == Some(c.kindOf(Tool(e)))
  {
  }

  /** While a started call is open its kind is remembered; once it is not, it was completed under it. */
  lemma {:induction false} StartIsTracked(c: Context, log: seq<Raw>, i: nat, id: string)
    requires Accepted(c, log) && i < |log| && Starts(log[i], id)
    ensures var open := OpenKind(c, log, id); var kind := c.kindOf(Tool(log[i]));
      if open.Some? then open == Some(kind) && forall j :: i < j < |log| ==> !Ends(log[j], id)
      else exists j :: i < j < |log| && Ends(log[j], id) && c.kindOf(Tool(log[j])) == kind
    decreases |log|
  {
    hide Admissible, Starts, Ends, Started;
    var init, e := log[..|log| - 1], log[|log| - 1];
    AdmissibleCalls(c, init, e, id);
    if i < |log| - 1 {
      StartIsTracked(c, init, i, id);
      WasStarted(log, i, |log| - 1, id);
      if Ends(e, id) {
        assert Ends(log[|log| - 1], id);
      } else if OpenKind(c, init, id).None? {
        var j :| i < j < |init| && Ends(init[j], id) && c.kindOf(Tool(init[j])) == c.kindOf(Tool(log[i]));
        assert Ends(log[j], id);
      }
    }
  }

  /** A completion is only accepted for an open call, so there is at most one, after the start. */
  lemma {:induction false} EndedAfterStart(c: Context, log: seq<Raw>, j: nat, id: string)
    requires Accepted(c, log) && j < |log| && Ends(log[j], id)
    ensures exists i :: 0 <= i < j && Starts(log[i], id) && c.kindOf(Tool(log[i])) == c.kindOf(Tool(log[j]))
    ensures forall k :: 0 <= k < j ==> !Ends(log[k], id)
  {
    hide Admissible, Accepted, Starts, Ends;
    Prefix(c, log, j);
    var before := log[..j];
    AdmissibleCalls(c, before, log[j], id);
    OpenWasStarted(c, before, id);
    var i :| 0 <= i < j && Starts(before[i], id) && OpenKind(c, before, id) == Some(c.kindOf(Tool(before[i])));
    assert Starts(log[i], id);
    StartIsTracked(c, before, i, id);
    forall k | 0 <= k < j ensures !Ends(log[k], id) {
      if Ends(log[k], id) {
        assert k <= i && Ends(before[k], id);
        EndedAfterStart(c, log, k, id);
        var h :| 0 <= h < k && Starts(log[h], id);
        StartedOnce(c, log, h, i, id);
      }
    }
  }

  lemma {:induction false} OpenWasStarted(c: Context, log: seq<Raw>, id: string)
    requires OpenKind(c, log, id).Some?
    ensures exists i :: 0 <= i < |log| && Starts(log[i], id) && OpenKind(c, log, id) == Some(c.kindOf(Tool(log[i])))
  {
    var init, e := log[..|log| - 1], log[|log| - 1];
    if Starts(e, id) {
      assert Starts(log[|log| - 1], id);
    } else {
      OpenWasStarted(c, init, id);
      var i :| 0 <= i < |init| && Starts(init[i], id) && OpenKind(c, init, id) == Some(c.kindOf(Tool(init[i])));
      assert Starts(log[i], id);
    }
  }

  /** In a completed run every identified start has exactly one completion, later, of the same kind,
      and no other start shares its id. */
  lemma CallsAreMatched(c: Context, log: seq<Raw>, i: nat, id: string)
    requires Accepted(c, log) && Completion(log).Some? && i < |log| && Starts(log[i], id)
    ensures exists j :: i < j < |log| && Ends(log[j], id) && c.kindOf(Tool(log[j])) == c.kindOf(Tool(log[i]))
              && (forall k :: 0 <= k < |log| && Ends(log[k], id) ==> k == j)
    ensures forall k :: 0 <= k < |log| && Starts(log[k], id) ==> k == i
  {
    CompletedIsClosed(c, log, id);
    StartIsTracked(c, log, i, id);
    var j :| i < j < |log| && Ends(log[j], id) && c.kindOf(Tool(log[j])) == c.kindOf(Tool(log[i]));
    forall k | 0 <= k < |log| && Ends(log[k], id) ensures k == j {
      EndedAfterStart(c, log, k, id);
      EndedAfterStart(c, log, j, id);
    }
    forall k | 0 <= k < |log| && Starts(log[k], id) ensures k == i { StartedOnce(c, log, i, k, id); }
  }

  /** After the run nothing is open. */
  lemma {:induction false} CompletedIsClosed(c: Context, log: seq<Raw>, id: string)
    requires Accepted(c, log) && Completion(log).Some?
    ensures OpenKind(c, log, id).None? && LegacyOpen(log, id) <= 0 && PendingApproval(log).None?
  {
    var init, e := log[..|log| - 1], log[|log| - 1];
    if e.name != RunCompleted {
      Shape(c, log);
      CompletedIsClosed(c, init, id);
    }
  }

  /** Completions of unidentified calls never outnumber starts, at any moment, and balance at the end. */
  lemma LegacyCallsBalance(c: Context, log: seq<Raw>, n: nat, tool: string)
    requires Accepted(c, log) && n <= |log|
    ensures LegacyOpen(log[..n], tool) >= 0
    ensures Completion(log).Some? ==> LegacyOpen(log, tool) == 0
  {
    Prefix(c, log, n);
    LegacyNeverNegative(c, log[..n], tool);
    if Completion(log).Some? {
      CompletedIsClosed(c, log, tool);
      LegacyNeverNegative(c, log, tool);
    }
  }

  lemma {:induction false} LegacyNeverNegative(c: Context, log: seq<Raw>, tool: string)
    requires Accepted(c, log)
    ensures LegacyOpen(log, tool) >= 0
  {
    if log != [] { LegacyNeverNegative(c, log[..|log| - 1], tool); }
  }

  // ---------------------------------------------------------------- approvals

  predicate Approval(e: Raw) { e.name == ApprovalRequested || e.name == ApprovalAnswered }

  ghost predicate NoApproval(log: seq<Raw>, lo: int, hi: int) {
    forall k :: 0 <= lo <= k < hi <= |log| ==> !Approval(log[k])
  }

  lemma {:induction false} PendingSince(log: seq<Raw>, i: int, n: nat)
    requires -1 <= i < n <= |log| && (i >= 0 ==> Approval(log[i])) && NoApproval(log, i + 1, n)
    ensures PendingApproval(log[..n]) == if i >= 0 && log[i].name == ApprovalRequested then Some(ApprovalId(log[i])) else None
    decreases n
  {
    if n > 0 {
      assert log[..n][..n - 1] == log[..n - 1];
      if i < n - 1 { PendingSince(log, i, n - 1); }
    }
  }

  /** Requests and answers strictly alternate, beginning with a request, each answer for the request
      before it; a completed run leaves none unanswered. */
  lemma ApprovalsAlternate(c: Context, log: seq<Raw>, i: int, j: nat)
    requires Accepted(c, log) && -1 <= i < j < |log| && Approval(log[j])
    requires (i >= 0 ==> Approval(log[i])) && NoApproval(log, i + 1, j)
    ensures i < 0 ==> log[j].name == ApprovalRequested
    ensures i >= 0 && log[i].name == ApprovalAnswered ==> log[j].name == ApprovalRequested
    ensures i >= 0 && log[i].name == ApprovalRequested ==> log[j].name == ApprovalAnswered && ApprovalId(log[j]) == ApprovalId(log[i])
  {
    Prefix(c, log, j);
    PendingSince(log, i, j);
  }

  lemma {:induction false} RequestPendingOrAnswered(log: seq<Raw>, i: nat, n: nat, c: Context)
    requires Accepted(c, log) && i < n <= |log| && log[i].name == ApprovalRequested
    ensures PendingApproval(log[..n]) == Some(ApprovalId(log[i])) || Answered(log[..n], ApprovalId(log[i]))
    decreases n
  {
    hide Accepted, StartOk, EndOk, ApprovalFields, ApprovalMaterial, OutcomeOf;
    var before, id := log[..n - 1], ApprovalId(log[i]);
    assert log[..n] == before + [log[n - 1]];
    AppendApprovals(before, log[n - 1]);
    if i < n - 1 {
      RequestPendingOrAnswered(log, i, n - 1, c);
      Prefix(c, log, n - 1);
    }
  }

  /** No approval id is ever requested twice. */
  lemma ApprovalIdsAreFresh(c: Context, log: seq<Raw>, i: nat, j: nat)
    requires Accepted(c, log) && i < j < |log| && log[i].name == ApprovalRequested && log[j].name == ApprovalRequested
    ensures ApprovalId(log[i]) != ApprovalId(log[j])
  {
    Prefix(c, log, j);
    RequestPendingOrAnswered(log, i, j, c);
  }
}
