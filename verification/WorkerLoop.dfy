/** The supervisor loop: claim slots, the replay of ambiguous claims, and the idle backoff. */
module WorkerLoop {
  import opened Events

  const MAX_CLAIM_SLOTS := 8
  const MIN_IDLE_BACKOFF := 1.0
  const MAX_IDLE_BACKOFF := 10.0
  const JITTER_RATIO := 0.25
  const FAST_POLLS := 8

  type Fraction = r: real | 0.0 <= r < 1.0

  function Min(a: real, b: real): real { if a <= b then a else b }
  function Max(a: real, b: real): real { if a >= b then a else b }

  // ---------------------------------------------------------------- delays

  function Shrunk(x: real, share: real): real { x * (1.0 - share) }

  lemma ShrunkStaysClose(x: real, share: real)
    requires x >= 0.0 && 0.0 <= share <= JITTER_RATIO
    ensures Shrunk(x, JITTER_RATIO) <= Shrunk(x, share) <= x
  {
    assert x * share >= 0.0;
    assert x * (JITTER_RATIO - share) >= 0.0;
  }

  /** `_jittered_idle_delay`. */
  function Jittered(base: real, minimum: real, random: Fraction): real {
    Max(minimum, Shrunk(Min(MAX_IDLE_BACKOFF, Max(minimum, base)), random * JITTER_RATIO))
  }

  /** The drawn delay is at most a quarter below its base, and never leaves the bounds. */
  lemma JitterStaysClose(base: real, minimum: real, random: Fraction)
    requires 0.0 <= minimum <= MAX_IDLE_BACKOFF
    ensures minimum <= Jittered(base, minimum, random) <= MAX_IDLE_BACKOFF
    ensures minimum <= base <= MAX_IDLE_BACKOFF ==> Shrunk(base, JITTER_RATIO) <= Jittered(base, minimum, random) <= base
  {
    hide Shrunk;
    var bounded := Min(MAX_IDLE_BACKOFF, Max(minimum, base));
    ShrunkStaysClose(bounded, random * JITTER_RATIO);
  }

  function InitialDelay(idle: real): (delay: real)
    ensures 0.0 < delay <= MAX_IDLE_BACKOFF
  {
    if idle != 0.0 then Min(MAX_IDLE_BACKOFF, Max(idle, 0.01)) else MIN_IDLE_BACKOFF
  }

  /** The backoff after `n` fruitless polls in a row. */
  function Backoff(initial: real, n: nat): real {
    if n == 0 then initial else Min(MAX_IDLE_BACKOFF, Backoff(initial, n - 1) * 2.0)
  }

  lemma {:induction false} BackoffBounds(initial: real, n: nat)
    requires 0.0 < initial <= MAX_IDLE_BACKOFF
    ensures initial <= Backoff(initial, n) <= MAX_IDLE_BACKOFF
  {
    if n > 0 { BackoffBounds(initial, n - 1); }
  }

  function Doubled(x: real, n: nat): real { if n == 0 then x else Doubled(x, n - 1) * 2.0 }

  /** The backoff doubles with every fruitless poll until it reaches the cap. */
  lemma {:induction false} BackoffDoubles(initial: real, n: nat)
    requires 0.0 < initial <= MAX_IDLE_BACKOFF
    ensures Backoff(initial, n) == Min(MAX_IDLE_BACKOFF, Doubled(initial, n))
  {
    if n > 0 { BackoffDoubles(initial, n - 1); }
  }

  // ---------------------------------------------------------------- claim requests

  datatype Answer = Claimed | Nothing | Lost | Fenced | NotReady | Busy

  datatype Activity = NoWait | Changed | Unchanged | Unavailable | Revoked

  /** What one await brings: an answer, the time, how many running claims ended meanwhile, whether the
      profiles could be reconciled and one was materialised, and what waiting for activity said. */
  datatype Reply = Reply(answer: Answer, time: real, ended: nat, reconciled: bool, materialized: bool, activity: Activity, random: Fraction, stop: bool)

  /** A claim request for some slots, or a turn of the loop that looks at the leases; `at` is the reply
      that came with it.  Ids are random, modelled as pairwise different numbers. */
  datatype Entry = Asked(id: nat, slots: int, at: nat) | Turned(at: nat)

  /** An ambiguous claim, and the time of the first answer about it that was lost. */
  datatype Held = Held(id: nat, since: real)

  /** The answer settles what became of the claim. */
  predicate Settles(a: Answer) { a == Claimed || a == Nothing }

  /** The claim that is ambiguous after these requests and turns, going by the answers and the clock:
      from its first lost answer until one settles it, or until a turn finds its lease run out. */
  function Open(log: seq<Entry>, replies: seq<Reply>, lease: real): Option<Held> {
    if log == [] then None else
      Next(Open(log[..|log| - 1], replies, lease), log[|log| - 1], replies, lease)
  }

  function Next(held: Option<Held>, e: Entry, replies: seq<Reply>, lease: real): Option<Held> {
    if e.at >= |replies| then held
    else if e.Turned? then
      if held.Some? && replies[e.at].time - held.value.since >= lease then None else held
    else if replies[e.at].answer == Lost then
      if held.Some? && held.value.id == e.id then held else Some(Held(e.id, replies[e.at].time))
    else if Settles(replies[e.at].answer) && held.Some? && held.value.id == e.id then None
    else held
  }

  ghost predicate Newer(log: seq<Entry>, id: nat) {
    forall i :: 0 <= i < |log| && log[i].Asked? ==> log[i].id < id
  }

  /** A request repeats the ambiguous claim, if there is one, and otherwise names a new one. */
  ghost predicate EntryOk(log: seq<Entry>, e: Entry, replies: seq<Reply>, lease: real) {
    && e.at < |replies| && (log != [] ==> log[|log| - 1].at < e.at)
    && (e.Asked? ==>
          1 <= e.slots <= MAX_CLAIM_SLOTS
          && match Open(log, replies, lease) case Some(h) => e.id == h.id case None => Newer(log, e.id))
  }

  ghost predicate Lawful(log: seq<Entry>, replies: seq<Reply>, lease: real) {
    log == [] || (Lawful(log[..|log| - 1], replies, lease) && EntryOk(log[..|log| - 1], log[|log| - 1], replies, lease))
  }

  lemma LawfulOne(log: seq<Entry>, e: Entry, replies: seq<Reply>, lease: real)
    ensures Lawful(log + [e], replies, lease) <==> Lawful(log, replies, lease) && EntryOk(log, e, replies, lease)
    ensures Open(log + [e], replies, lease) == Next(Open(log, replies, lease), e, replies, lease)
  {
    assert (log + [e])[..|log|] == log;
  }

  lemma {:induction false} EntryAt(log: seq<Entry>, n: nat, replies: seq<Reply>, lease: real)
    requires Lawful(log, replies, lease) && n <= |log|
    ensures Lawful(log[..n], replies, lease)
    ensures n < |log| ==> EntryOk(log[..n], log[n], replies, lease)
    ensures n < |log| ==> Open(log[..n + 1], replies, lease) == Next(Open(log[..n], replies, lease), log[n], replies, lease)
    decreases |log|
  {
    if n < |log| {
      assert log[..n + 1][..n] == log[..n];
      if n < |log| - 1 {
        EntryAt(log[..|log| - 1], n, replies, lease);
        assert log[..|log| - 1][..n] == log[..n];
      }
    } else {
      assert log[..n] == log;
    }
  }

  /** An ambiguous claim is the one asked for last, and that request left it unsettled. */
  lemma {:induction false} OpenWasAskedLast(log: seq<Entry>, replies: seq<Reply>, lease: real) returns (k: nat)
    requires Lawful(log, replies, lease) && Open(log, replies, lease).Some?
    ensures k < |log| && log[k].Asked? && log[k].id == Open(log, replies, lease).value.id
    ensures log[k].at < |replies| && !Settles(replies[log[k].at].answer)
    ensures forall m :: k < m < |log| ==> !log[m].Asked?
  {
    var init, e := log[..|log| - 1], log[|log| - 1];
    if e.Asked? { k := |log| - 1; } else { k := OpenWasAskedLast(init, replies, lease); }
  }

  /** Requests for one id follow each other, and all but the last left the claim unsettled: a settled
      claim is never asked for again, nor is one that was given up. */
  lemma {:induction false} ReplaysAreContiguous(log: seq<Entry>, replies: seq<Reply>, lease: real, i: nat, j: nat)
    requires Lawful(log, replies, lease) && i < j < |log| && log[i].Asked? && log[j].Asked? && log[i].id == log[j].id
    ensures forall k :: i <= k < j && log[k].Asked? ==>
      log[k].id == log[i].id && log[k].at < |replies| && !Settles(replies[log[k].at].answer)
    decreases j
  {
    EntryAt(log, j, replies, lease);
    var before := log[..j];
    assert before[i] == log[i];
    var k := OpenWasAskedLast(before, replies, lease);
    if i < k { ReplaysAreContiguous(log, replies, lease, i, k); }
  }

  /** A claim whose answer was lost stays ambiguous until an answer settles it or a turn finds its lease
      run out, and until then every request asks for it again. */
  lemma {:induction false} LostIsReplayed(log: seq<Entry>, replies: seq<Reply>, lease: real, i: nat, j: nat)
    requires Lawful(log, replies, lease) && i < j < |log|
    requires log[i].Asked? && log[i].at < |replies| && replies[log[i].at].answer == Lost
    requires forall k :: i < k < j && log[k].at < |replies| ==> if log[k].Asked? then !Settles(replies[log[k].at].answer)
      else replies[log[k].at].time - Open(log[..i + 1], replies, lease).value.since < lease
    ensures var h := Open(log[..i + 1], replies, lease); h.Some? && h.value.id == log[i].id
    ensures Open(log[..j], replies, lease) == Open(log[..i + 1], replies, lease)
    ensures log[j].Asked? ==> log[j].id == log[i].id
    decreases j
  {
    EntryAt(log, i, replies, lease);
    EntryAt(log, j, replies, lease);
    if i < j - 1 {
      LostIsReplayed(log, replies, lease, i, j - 1);
      EntryAt(log, j - 1, replies, lease);
    }
  }

  // ---------------------------------------------------------------- claims granted and run

  predicate Grants(e: Entry, replies: seq<Reply>) { e.Asked? && e.at < |replies| && replies[e.at].answer == Claimed }

  /** The claims that have been granted, in order. */
  function Granted(log: seq<Entry>, replies: seq<Reply>): seq<nat> {
    if log == [] then [] else
      var e := log[|log| - 1];
      Granted(log[..|log| - 1], replies) + if Grants(e, replies) then [e.id] else []
  }

  /** The request that came with reply `n` was granted. */
  ghost predicate GrantedAt(log: seq<Entry>, replies: seq<Reply>, n: nat) {
    exists i :: 0 <= i < |log| && log[i].at == n && Grants(log[i], replies)
  }

  function Less(running: nat, ended: nat): nat { if ended <= running then running - ended else 0 }

  /** How many claims run after `n` replies, if every granted one is run until it ends. */
  ghost function Running(log: seq<Entry>, replies: seq<Reply>, n: nat): nat {
    if n == 0 || n > |replies| then 0
    else Less(Running(log, replies, n - 1), replies[n - 1].ended) + if GrantedAt(log, replies, n - 1) then 1 else 0
  }

  lemma GrantedOne(log: seq<Entry>, e: Entry, replies: seq<Reply>)
    ensures Granted(log + [e], replies) == Granted(log, replies) + if Grants(e, replies) then [e.id] else []
  {
    assert (log + [e])[..|log|] == log;
  }

  /** An entry counts only for the replies after its own. */
  lemma {:induction false} RunningBefore(log: seq<Entry>, e: Entry, replies: seq<Reply>, n: nat)
    requires n <= e.at || !Grants(e, replies)
    ensures Running(log + [e], replies, n) == Running(log, replies, n)
  {
    if n > 0 {
      RunningBefore(log, e, replies, n - 1);
      GrantedMore(log, e, replies, n - 1);
    }
  }

  lemma GrantedMore(log: seq<Entry>, e: Entry, replies: seq<Reply>, n: nat)
    ensures GrantedAt(log + [e], replies, n) <==> GrantedAt(log, replies, n) || (e.at == n && Grants(e, replies))
  {
    var after := log + [e];
    assert after[|log|] == e;
    if i :| 0 <= i < |log| && log[i].at == n && Grants(log[i], replies) { assert after[i].at == n && Grants(after[i], replies); }
  }

  lemma NotYetGranted(log: seq<Entry>, replies: seq<Reply>, n: nat)
    requires forall i :: 0 <= i < |log| ==> log[i].at < n
    ensures !GrantedAt(log, replies, n)
  {
  }

  /** A request that is granted adds one claim to those that still run. */
  lemma AskedOne(log: seq<Entry>, e: Entry, replies: seq<Reply>)
    requires e.Asked? && e.at < |replies| && !GrantedAt(log, replies, e.at)
    ensures var granted := replies[e.at].answer == Claimed;
      && Granted(log + [e], replies) == Granted(log, replies) + (if granted then [e.id] else [])
      && Running(log + [e], replies, e.at + 1) == Less(Running(log, replies, e.at), replies[e.at].ended) + if granted then 1 else 0
  {
    GrantedOne(log, e, replies);
    GrantedMore(log, e, replies, e.at);
    RunningBefore(log, e, replies, e.at);
  }

  /** Entries come with ever later replies. */
  lemma {:induction false} AtsGrow(log: seq<Entry>, replies: seq<Reply>, lease: real, n: nat)
    requires Lawful(log, replies, lease) && (log != [] ==> log[|log| - 1].at < n)
    ensures forall i :: 0 <= i < |log| ==> log[i].at < n
  {
    if log != [] {
      var init := log[..|log| - 1];
      AtsGrow(init, replies, lease, log[|log| - 1].at);
      assert forall i :: 0 <= i < |init| ==> init[i] == log[i];
    }
  }

  // ---------------------------------------------------------------- the loop

  class Supervisor {
    const slots: nat
    const leaseSeconds: real
    const initialDelay: real
    const idleCycles: Option<nat>
    const waitEnabled: bool
    const replies: seq<Reply>
    var used: nat
    var nextId: nat
    var active: nat
    /** Claims whose answer was lost, with the time of the first request. */
    var ambiguous: map<nat, real>
    var idleBackoff: real
    var pollDelay: real
    var retryPending: bool
    var fastPolls: nat
    var empty: nat
    var stopping: bool

    ghost var log: seq<Entry>
    ghost var pauses: seq<real>
    /** Fruitless polls since the backoff was last reset. */
    ghost var streak: nat
    /** The claims that have been taken on, in order. */
    ghost var started: seq<nat>

    ghost predicate Valid()
      reads `used, `nextId, `active, `ambiguous, `idleBackoff, `pollDelay, `log, `pauses, `streak
    {
      Claims() && Delays()
    }

    ghost predicate Claims()
      reads `used, `nextId, `active, `ambiguous, `log
    {
      ClaimsOk(slots, leaseSeconds, replies, used, nextId, active, ambiguous, log)
    }

    ghost predicate Delays()
      reads `idleBackoff, `pollDelay, `pauses, `streak
    {
      && 0.0 < initialDelay <= MAX_IDLE_BACKOFF && idleBackoff == Backoff(initialDelay, streak)
      && initialDelay <= pollDelay <= MAX_IDLE_BACKOFF && Bounded(pauses, initialDelay)
    }

    /** Every claim that was granted has been taken on, but for the `owed` ones, and is run until it ends. */
    ghost predicate Staffed(owed: seq<nat>)
      reads `used, `active, `log, `started
    {
      used <= |replies| && started + owed == Granted(log, replies) && active + |owed| == Running(log, replies, used)
    }

    constructor (slots: nat, leaseSeconds: real, idleDelay: real, idleCycles: Option<nat>, waitEnabled: bool, replies: seq<Reply>)
      requires 2 <= slots <= MAX_CLAIM_SLOTS
      ensures Valid() && Staffed([]) && this.slots == slots && this.replies == replies && active == 0 && ambiguous == map[] && log == [] && used == 0
    {
      this.slots, this.leaseSeconds, this.replies := slots, leaseSeconds, replies;
      this.idleCycles, this.waitEnabled := idleCycles, waitEnabled;
      initialDelay, idleBackoff, pollDelay := InitialDelay(idleDelay), InitialDelay(idleDelay), InitialDelay(idleDelay);
      used, nextId, active, ambiguous := 0, 0, 0, map[];
      retryPending, fastPolls, empty, stopping := false, 0, 0, false;
      log, pauses, streak, started := [], [], 0, [];
    }

    /** Await one reply; running claims may end, and the worker may be stopped. */
    method Await() returns (r: Reply)
      requires Valid() && used < |replies|
      modifies `used, `active, `stopping
      ensures Valid() && used == old(used) + 1 && r == replies[old(used)]
      ensures active == Less(old(active), r.ended) && stopping == (old(stopping) || r.stop)
      ensures old(Staffed([])) ==> Staffed([])
    {
      hide Registered, Backoff, Bounded, Granted, GrantedAt;
      NothingGranted();
      r, used := replies[used], used + 1;
      active := Less(active, r.ended);
      stopping := stopping || r.stop;
    }

    /** No entry has been made for the next reply. */
    lemma NothingGranted()
      requires Valid()
      ensures !GrantedAt(log, replies, used) && forall i :: 0 <= i < |log| ==> log[i].at < used
    {
      AtsGrow(log, replies, leaseSeconds, used);
    }

    /** Sleep, or wait for a running claim, for the current delay. */
    method Pause() returns (r: Reply)
      requires Valid() && used < |replies|
      modifies `used, `active, `stopping, `pauses
      ensures Valid() && used == old(used) + 1 && pauses == old(pauses) + [pollDelay] && r == replies[old(used)]
      ensures active == Less(old(active), r.ended) && stopping == (old(stopping) || r.stop) && (old(Staffed([])) ==> Staffed([]))
    {
      pauses := pauses + [pollDelay];
      r := Await();
    }

    /** Back to the initial delay. */
    method Reset()
      requires Valid()
      modifies `idleBackoff, `pollDelay, `streak
      ensures Valid() && pollDelay == idleBackoff == initialDelay && streak == 0
    {
      hide Claims;
      idleBackoff, pollDelay, streak := initialDelay, initialDelay, 0;
    }

    /** The next delay is drawn around the backoff, which then doubles. */
    method BackOff(random: Fraction)
      requires Valid()
      modifies `idleBackoff, `pollDelay, `streak
      ensures Valid() && streak == old(streak) + 1
      ensures Shrunk(Backoff(initialDelay, old(streak)), JITTER_RATIO) <= pollDelay <= Backoff(initialDelay, old(streak))
    {
      hide Shrunk, Registered, Bounded, Jittered, Claims;
      BackoffBounds(initialDelay, streak);
      JitterStaysClose(idleBackoff, initialDelay, random);
      pollDelay := Jittered(idleBackoff, initialDelay, random);
      idleBackoff, streak := Min(MAX_IDLE_BACKOFF, idleBackoff * 2.0), streak + 1;
    }

    /** Forget claims whose lease must have run out. */
    method Expire(now: real)
      requires Valid() && used > 0 && now == replies[used - 1].time && (log != [] ==> log[|log| - 1].at < used - 1)
      modifies `ambiguous, `log
      ensures Valid() && log == old(log) + [Turned(used - 1)]
      ensures ambiguous == Unexpired(old(ambiguous), now, leaseSeconds)
      ensures old(Staffed([])) ==> Staffed([])
    {
      hide Backoff, Bounded, Granted, Running, Registered, Delays, Unexpired, Lawful, Open;
      RegisterTurn(log, replies, leaseSeconds, nextId, ambiguous, used - 1);
      GrantedOne(log, Turned(used - 1), replies);
      RunningBefore(log, Turned(used - 1), replies, used);
      log := log + [Turned(used - 1)];
      if |ambiguous| > 0 {
        var id :| id in ambiguous;
        ExpiredOne(ambiguous, id, now, leaseSeconds);
        if now - ambiguous[id] >= leaseSeconds { ambiguous := map[]; }
      } else {
        NoneExpired(now, leaseSeconds);
      }
    }

    /** The one ambiguous claim. */
    method Sole() returns (id: nat)
      requires Valid() && |ambiguous| > 0
      ensures id in ambiguous && ambiguous == map[id := ambiguous[id]] && |ambiguous| == 1
    {
      assert ambiguous.Keys != {};
      id :| id in ambiguous;
      OnlyKey(ambiguous, id);
    }

    /** Ask for claims while there is room; at most one claim can be ambiguous, so it goes first.  Every
        claim granted is taken on, and only something else than a grant, a stop, or full slots end it. */
    method FillSlots()
      requires Valid() && Staffed([])
      modifies this
      ensures Valid() && Staffed([]) && used >= old(used) && old(log) <= log && pauses == old(pauses)
      ensures forall k :: |old(log)| <= k < |log| ==> log[k].Asked? && log[k].at < |replies| && (k < |log| - 1 ==> Grants(log[k], replies))
      ensures stopping || active + |ambiguous| >= slots || used == |replies| || (log != old(log) && !Grants(log[|log| - 1], replies))
      ensures !old(stopping) && old(active + |ambiguous|) < slots && old(used) < |replies| ==> log != old(log)
    {
      hide Registered, Backoff, Bounded, Granted, Running, Valid, Staffed, Lawful;
      UsedFacts();
      while !stopping && active + |ambiguous| < slots && used < |replies|
        invariant Valid() && Staffed([]) && used >= old(used) && old(log) <= log && pauses == old(pauses)
        invariant used <= |replies| && forall k :: |old(log)| <= k < |log| ==> log[k].Asked? && Grants(log[k], replies)
        invariant log == old(log) ==> stopping == old(stopping) && used == old(used) && active + |ambiguous| == old(active + |ambiguous|)
        decreases |replies| - used
      {
        var answer, id := Ask();
        if answer == Fenced { stopping := true; }
        if answer != Claimed { return; }
        TakeOn(id);
      }
    }

    /** Run one more claim. */
    method TakeOn(id: nat)
      requires Valid() && active + |ambiguous| < slots
      modifies `fastPolls, `active, `idleBackoff, `pollDelay, `streak, `started
      ensures Valid() && active == old(active) + 1 && streak == 0 && fastPolls == 0 && started == old(started) + [id]
      ensures old(Staffed([id])) ==> Staffed([])
    {
      hide Registered, Backoff, Bounded, Granted, Running;
      fastPolls := 0;
      Reset();
      active, started := active + 1, started + [id];
    }

    /** One claim request for the free slots. */
    method SendRequest(id: nat) returns (r: Reply)
      requires Valid() && active + |ambiguous| < slots && used < |replies| && Target(ambiguous, nextId, id)
      modifies `used, `nextId, `active, `stopping, `log, `ambiguous
      ensures Valid() && used == old(used) + 1 && r == replies[old(used)] && active == Less(old(active), r.ended)
      ensures log == old(log) + [Asked(id, slots - old(active) - |old(ambiguous)|, old(used))]
      ensures ambiguous == Resolved(old(ambiguous), id, r.answer, r.time)
      ensures Settles(r.answer) ==> active + |ambiguous| < slots
      ensures stopping == (old(stopping) || r.stop)
      ensures old(Staffed([])) ==> Staffed(if r.answer == Claimed then [id] else [])
    {
      hide Registered, Backoff, Bounded, Resolved, Target, Granted, Running, Lawful, Open, GrantedAt, Delays, Ambiguous, Newer, Settles, ClaimsOk, Less;
      NothingGranted();
      RequestKeeps(slots, leaseSeconds, replies, used, nextId, active, ambiguous, log, id);
      AskedOne(log, Asked(id, slots - active - |ambiguous|, used), replies);
      var available := if slots - active - |ambiguous| > 1 then slots - active - |ambiguous| else 1;
      assert available == slots - active - |ambiguous|;
      log := log + [Asked(id, available, used)];
      r, used := replies[used], used + 1;
      nextId := if |ambiguous| == 0 then nextId + 1 else nextId;
      active := Less(active, r.ended);
      stopping := stopping || r.stop;
      ambiguous := Resolved(ambiguous, id, r.answer, r.time);
    }

    /** Ask for a claim, and act on the answer. */
    method Ask() returns (answer: Answer, id: nat)
      requires Valid() && Staffed([]) && active + |ambiguous| < slots && used < |replies|
      modifies this
      ensures Valid() && Staffed(if answer == Claimed then [id] else [])
      ensures used == old(used) + 1 && pauses == old(pauses) && answer == replies[old(used)].answer
      ensures |log| == |old(log)| + 1 && old(log) < log
      ensures var e := log[|old(log)|];
        e.Asked? && e.at == old(used) && e.id == id && Target(old(ambiguous), old(nextId), e.id) && e.slots == slots - old(active) - |old(ambiguous)|
      ensures answer == Claimed ==> active + |ambiguous| < slots
      ensures streak == if answer == Lost || answer == NotReady || answer == Busy then old(streak) + 1
                        else if answer == Nothing && (old(fastPolls) == 0) then (if old(retryPending) then 1 else old(streak) + 1)
                        else if answer == Fenced || (answer == Claimed && !old(retryPending)) then old(streak) else 0
    {
      hide Registered, Backoff, Bounded, Resolved, Granted, Running, Valid, Staffed;
      id := nextId;
      if |ambiguous| > 0 { id := Sole(); }
      var r := SendRequest(id);
      answer := r.answer;
      if answer == Lost || answer == NotReady || answer == Busy {
        BackOff(r.random);
        retryPending := true;
      } else if answer != Fenced {
        if retryPending { EndRetry(); }
        if answer == Nothing { NoteEmpty(r.random); }
      }
    }

    method EndRetry()
      requires Valid()
      modifies `idleBackoff, `streak, `retryPending
      ensures Valid() && streak == 0 && !retryPending
    {
      hide Claims;
      idleBackoff, streak, retryPending := initialDelay, 0, false;
    }

    /** Nothing to do: poll fast for a while after a change, otherwise back off. */
    method NoteEmpty(random: Fraction)
      requires Valid()
      modifies `empty, `fastPolls, `idleBackoff, `pollDelay, `streak
      ensures Valid() && empty == old(empty) + 1
      ensures streak == if old(fastPolls) == 0 then old(streak) + 1 else 0
    {
      hide Claims;
      empty := empty + 1;
      if fastPolls > 0 {
        fastPolls := fastPolls - 1;
        Reset();
      } else {
        BackOff(random);
      }
    }

    /** Wait for a running claim; when one ends, polling starts afresh. */
    method AwaitClaims()
      requires Valid() && Staffed([]) && active > 0 && used < |replies|
      modifies `used, `active, `stopping, `pauses, `empty, `idleBackoff, `pollDelay, `streak
      ensures Valid() && Staffed([]) && used > old(used) && pauses == old(pauses) + [old(pollDelay)]
      ensures if active < old(active) then streak == 0 && empty == 0 else streak == old(streak) && empty == old(empty)
    {
      var before := active;
      var _ := Pause();
      if active < before {
        empty := 0;
        Reset();
      }
    }

    /** Activity is waited for: nothing is ambiguous, nothing is retried, and the delay is worth it. */
    ghost predicate Listens()
      reads this
    {
      |ambiguous| == 0 && waitEnabled && !retryPending && pollDelay > 1.0
    }

    /** With nothing running, wait for activity or for the delay to pass; true ends the loop. */
    method Idle() returns (finished: bool)
      requires Valid() && Staffed([]) && used < |replies|
      modifies this
      ensures Valid() && Staffed([]) && used >= old(used) && (!finished ==> used > old(used)) && log == old(log)
      ensures old(pauses) <= pauses
      ensures old(Listens()) && !(old(idleCycles.Some? && empty >= idleCycles.value) || old(stopping)) ==>
        match replies[old(used)].activity
        case Revoked => finished && stopping
        case Changed => !finished && empty == 0 && streak == 0 && pollDelay == initialDelay && used == old(used) + 1
        case Unavailable => !finished && streak == old(streak) + 1
        case _ => !finished && streak == old(streak) && empty == old(empty)
      ensures finished ==> |ambiguous| == 0 && (stopping || (idleCycles.Some? && empty >= idleCycles.value))
      ensures old(|ambiguous|) > 0 ==> pauses == old(pauses) + [old(pollDelay)]
    {
      hide Valid, Staffed, Registered, Bounded, Backoff, Granted, Running, Jittered, Shrunk;
      if |ambiguous| == 0 && ((idleCycles.Some? && empty >= idleCycles.value) || stopping) { return true; }
      if |ambiguous| == 0 && waitEnabled && !retryPending && pollDelay > 1.0 {
        var r := Await();
        match r.activity
        case Revoked =>
          stopping := true;
          return true;
        case Unavailable => BackOff(r.random);
        case Changed =>
          empty := 0;
          Reset();
          return false;
        case Unchanged =>
          if used < |replies| { var _ := Await(); }
          return false;
        case NoWait =>
      }
      if used < |replies| { var _ := Pause(); }
      return false;
    }

    /** `_run_loop`, after initialisation. */
    method Run()
      requires Valid() && Staffed([])
      modifies this
      ensures Valid() && old(log) <= log && old(pauses) <= pauses
      ensures started == Granted(log, replies) && active == Running(log, replies, used)
      ensures stopping || used == |replies| || (|ambiguous| == 0 && idleCycles.Some? && empty >= idleCycles.value)
      ensures active + |ambiguous| <= slots && |ambiguous| <= 1
      ensures Lawful(log, replies, leaseSeconds) && Bounded(pauses, initialDelay)
      ensures ambiguous == Ambiguous(Open(log, replies, leaseSeconds))
    {
      hide Registered, Bounded, Backoff, Lawful, Open, Granted, Running, Valid;
      var finished := false;
      while !finished && !stopping && used < |replies|
        invariant Valid() && Staffed([]) && old(log) <= log && old(pauses) <= pauses
        invariant finished ==> stopping || (|ambiguous| == 0 && idleCycles.Some? && empty >= idleCycles.value)
        decreases |replies| - used, !finished
      {
        finished := Turn();
      }
      RunFacts();
      LogIsLawful();
    }

    /** The next turn can reconcile the profiles, is not stopped, and leaves a slot free. */
    ghost predicate MustAsk()
      requires used < |replies|
      reads `used, `stopping, `log
    {
      var after := log + [Turned(used)];
      && used + 1 < |replies| && replies[used].reconciled && !stopping && !replies[used].stop
      && Running(after, replies, used + 1) + |Ambiguous(Open(after, replies, leaseSeconds))| < slots
    }

    /** One turn: forget expired claims, fill the slots, then wait; true ends the loop. */
    method Turn() returns (finished: bool)
      requires Valid() && Staffed([]) && used < |replies|
      modifies this
      ensures Valid() && Staffed([]) && old(log) <= log && old(pauses) <= pauses && used > old(used)
      ensures finished ==> stopping || (|ambiguous| == 0 && idleCycles.Some? && empty >= idleCycles.value)
      ensures old(MustAsk()) ==> |log| > |old(log)| + 1 && log[|old(log)| + 1].Asked?
    {
      hide Registered, Bounded, Backoff, Granted, Running, Open, Valid, Lawful, Staffed, Ambiguous, Unexpired;
      NothingGranted();
      var r := Await();
      finished := false;
      if r.reconciled {
        Expire(r.time);
        RoomSaid();
        if r.materialized { fastPolls := FAST_POLLS; }
        FillSlots();
        UsedFacts();
        if used == |replies| { return; }
        if active > 0 {
          AwaitClaims();
        } else {
          finished := Idle();
        }
      }
    }

    lemma RoomSaid()
      requires Valid() && Staffed([])
      ensures active + |ambiguous| == Running(log, replies, used) + |Ambiguous(Open(log, replies, leaseSeconds))| && used <= |replies|
    {
    }

    lemma UsedFacts()
      requires Valid()
      ensures used <= |replies|
    {
    }

    lemma RunFacts()
      requires Valid()
      ensures active + |ambiguous| <= slots && |ambiguous| <= 1 && Bounded(pauses, initialDelay)
    {
    }

    lemma LogIsLawful()
      requires Valid()
      ensures Lawful(log, replies, leaseSeconds) && ambiguous == Ambiguous(Open(log, replies, leaseSeconds))
    {
    }
  }

  lemma OnlyKey(m: map<nat, real>, id: nat)
    requires |m| <= 1 && id in m
    ensures m == map[id := m[id]]
  {
    assert |m.Keys - {id}| == |m.Keys| - 1;
    assert m.Keys == {id};
  }

  /** The ambiguous claims after an answer: one whose answer was lost keeps the time it was first asked for. */
  function Resolved(ambiguous: map<nat, real>, id: nat, answer: Answer, time: real): map<nat, real> {
    if answer == Lost then if id in ambiguous then ambiguous else ambiguous[id := time]
    else if Settles(answer) then ambiguous - {id}
    else ambiguous
  }

  /** A request repeats the ambiguous claim, if there is one, and otherwise names a new one. */
  predicate Target(ambiguous: map<nat, real>, nextId: nat, id: nat) {
    if |ambiguous| == 0 then id == nextId else |ambiguous| == 1 && id in ambiguous
  }

  function Ambiguous(held: Option<Held>): map<nat, real> {
    match held case None => map[] case Some(h) => map[h.id := h.since]
  }

  /** The log is lawful, and the table of ambiguous claims is what it says. */
  ghost predicate Registered(log: seq<Entry>, replies: seq<Reply>, lease: real, nextId: nat, ambiguous: map<nat, real>) {
    Lawful(log, replies, lease) && Newer(log, nextId) && ambiguous == Ambiguous(Open(log, replies, lease))
  }

  ghost predicate Bounded(pauses: seq<real>, initial: real) {
    forall i :: 0 <= i < |pauses| ==> initial <= pauses[i] <= MAX_IDLE_BACKOFF
  }

  /** The claims whose lease has not run out. */
  function Unexpired(was: map<nat, real>, now: real, lease: real): map<nat, real> {
    map id | id in was && now - was[id] < lease :: was[id]
  }

  lemma NoneExpired(now: real, lease: real)
    ensures Unexpired(map[], now, lease) == map[]
  {
  }

  lemma ExpiredOne(was: map<nat, real>, id: nat, now: real, lease: real)
    requires |was| <= 1 && id in was
    ensures Unexpired(was, now, lease) == if now - was[id] >= lease then map[] else was
  {
    OnlyKey(was, id);
  }

  lemma RegisterTurn(log: seq<Entry>, replies: seq<Reply>, lease: real, nextId: nat, was: map<nat, real>, at: nat)
    requires Registered(log, replies, lease, nextId, was) && at < |replies| && (log != [] ==> log[|log| - 1].at < at)
    ensures Registered(log + [Turned(at)], replies, lease, nextId, Unexpired(was, replies[at].time, lease))
  {
    LawfulOne(log, Turned(at), replies, lease);
  }

  /** The slots are kept, and the table of ambiguous claims is what the log says. */
  ghost predicate ClaimsOk(slots: nat, lease: real, replies: seq<Reply>, used: nat, nextId: nat, active: nat, ambiguous: map<nat, real>, log: seq<Entry>) {
    && used <= |replies| && 2 <= slots <= MAX_CLAIM_SLOTS && active + |ambiguous| <= slots && |ambiguous| <= 1
    && Registered(log, replies, lease, nextId, ambiguous) && (log != [] ==> log[|log| - 1].at < used)
  }

  /** One request with its answer keeps them so. */
  lemma RequestKeeps(slots: nat, lease: real, replies: seq<Reply>, used: nat, nextId: nat, active: nat, was: map<nat, real>, log: seq<Entry>, id: nat)
    requires ClaimsOk(slots, lease, replies, used, nextId, active, was, log)
    requires active + |was| < slots && used < |replies| && Target(was, nextId, id)
    ensures var r := replies[used]; var now := Resolved(was, id, r.answer, r.time);
      && ClaimsOk(slots, lease, replies, used + 1, if |was| == 0 then nextId + 1 else nextId, Less(active, r.ended), now, log + [Asked(id, slots - active - |was|, used)])
      && (Settles(r.answer) ==> Less(active, r.ended) + |now| < slots)
  {
    hide Registered, Resolved, Target;
    RegisterOne(log, replies, lease, nextId, was, Asked(id, slots - active - |was|, used));
  }

  lemma RegisterOne(log: seq<Entry>, replies: seq<Reply>, lease: real, nextId: nat, was: map<nat, real>, e: Entry)
    requires Registered(log, replies, lease, nextId, was) && e.Asked? && 1 <= e.slots <= MAX_CLAIM_SLOTS && Target(was, nextId, e.id)
    requires e.at < |replies| && (log != [] ==> log[|log| - 1].at < e.at)
    ensures var r := replies[e.at]; var now := Resolved(was, e.id, r.answer, r.time);
      && Registered(log + [e], replies, lease, if |was| == 0 then nextId + 1 else nextId, now)
      && |now| == if r.answer == Lost then 1 else if Settles(r.answer) then 0 else |was|
  {
    LawfulOne(log, e, replies, lease);
    var held := Open(log, replies, lease);
    if held.Some? {
      assert was.Keys == {held.value.id};
      var k := OpenWasAskedLast(log, replies, lease);
    }
    assert was - {e.id} == map[];
    NewerOne(log, e, nextId, |was| == 0);
  }

  lemma NewerOne(log: seq<Entry>, e: Entry, nextId: nat, isNew: bool)
    requires Newer(log, nextId) && e.Asked? && (if isNew then e.id == nextId else exists i :: 0 <= i < |log| && log[i].Asked? && log[i].id == e.id)
    ensures Newer(log + [e], if isNew then nextId + 1 else nextId)
  {
  }
}
