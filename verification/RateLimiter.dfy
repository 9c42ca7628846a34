/** The sliding-window limiter of the event sinks.

    Per bucket it keeps a pruned deque; `accepted` is the full history of accepted events, and the
    deque is proved to answer every question about the last second as the history does.
*/
module RateLimiter {

  const WINDOW := 1.0

  datatype Bucket = Client | Server | Success | Lifecycle | HttpOther

  function Limit(b: Bucket): (n: nat)
    ensures 16 <= n <= 1024
  {
    match b
    case Client => 16
    case Server => 64
    case Success => 1024
    case Lifecycle => 256
    case HttpOther => 128
  }

  /** The fields of an event that choose its bucket; an absent string field is empty. */
  datatype Event = Event(status: int, hasStatus: bool, outcome: string, name: string)

  predicate EndsWith(s: string, suffix: string) {
    |suffix| <= |s| && s[|s| - |suffix|..] == suffix
  }

  datatype Choice = Unlimited | Limited(bucket: Bucket)

  function BucketOf(e: Event): Choice {
    if e.hasStatus && 400 <= e.status < 500 then Limited(Client)
    else if e.hasStatus && 500 <= e.status <= 599 then Limited(Server)
    else if e.outcome == "error" || e.outcome == "failed" || EndsWith(e.name, ".failed") then Limited(Server)
    else if e.hasStatus && 200 <= e.status < 300 then Limited(Success)
    else if e.name == "http.request" then Limited(HttpOther)
    else if e.name != "" then Limited(Lifecycle)
    else Unlimited
  }

  /** Nothing escapes the limits but an event without a name, an error, or a status that means anything. */
  lemma UnlimitedExactly(e: Event)
    ensures BucketOf(e).Unlimited? <==>
      e.name == "" && e.outcome != "error" && e.outcome != "failed" && !(e.hasStatus && (200 <= e.status < 300 || 400 <= e.status <= 599))
  {
  }

  /** Every failure is limited as one, by its status if it has one. */
  lemma FailuresAreLimited(e: Event)
    requires e.outcome == "error" || e.outcome == "failed" || EndsWith(e.name, ".failed") || (e.hasStatus && 400 <= e.status <= 599)
    ensures BucketOf(e) == Limited(if e.hasStatus && 400 <= e.status < 500 then Client else Server)
  {
  }

  /** The positions of the history inside the window (t - 1, t]. */
  ghost function InWindow(h: seq<real>, t: real): set<int> {
    set i | 0 <= i < |h| && t - WINDOW < h[i] <= t
  }

  ghost predicate Sorted(h: seq<real>) { forall i, j :: 0 <= i < j < |h| ==> h[i] <= h[j] }

  /** Events `limit` positions apart are a whole window apart. */
  ghost predicate Spaced(h: seq<real>, limit: nat) {
    forall i, j :: 0 <= i && i + limit <= j < |h| ==> h[i] + WINDOW <= h[j]
  }

  ghost function Range(lo: int, hi: int): (r: set<int>)
    ensures forall i :: i in r <==> lo <= i < hi
    ensures |r| == if lo <= hi then hi - lo else 0
    decreases hi - lo
  {
    if hi <= lo then {} else Range(lo, hi - 1) + {hi - 1}
  }

  lemma SubsetSize(a: set<int>, b: set<int>)
    requires a <= b
    ensures |a| <= |b|
  {
    assert |b - a| == |b| - |a|;
  }

  /** A spaced history has at most `limit` events in every window of one second, wherever it lies. */
  lemma SpacedIsLimited(h: seq<real>, limit: nat, t: real)
    requires Sorted(h) && Spaced(h, limit)
    ensures |InWindow(h, t)| <= limit
  {
    var w := InWindow(h, t);
    if i :| i in w {
      var lo := Least(w, i);
      SubsetSize(w, Range(lo, lo + limit));
    }
  }

  lemma {:induction false} Least(w: set<int>, x: int) returns (lo: int)
    requires x in w
    ensures lo in w && forall i | i in w :: lo <= i
    decreases |w|
  {
    if y :| y in w && y < x {
      lo := Least(w - {x}, y);
      assert forall i | i in w :: i == x || i in w - {x};
    } else {
      lo := x;
    }
  }

  /** If the history splits at `k` into expired and live events, the window is the live part. */
  lemma LiveIsWindow(h: seq<real>, k: nat, t: real)
    requires k <= |h| && (forall i :: 0 <= i < k ==> h[i] <= t - WINDOW)
    requires forall i :: k <= i < |h| ==> t - WINDOW < h[i] <= t
    ensures |InWindow(h, t)| == |h| - k
  {
    assert InWindow(h, t) == Range(k, |h|);
  }

  /** The deque is the end of the history, and what precedes it expired before `clock`. */
  ghost predicate Agrees(h: seq<real>, live: seq<real>, limit: nat, clock: real) {
    && Sorted(h) && Spaced(h, limit)
    && (forall i :: 0 <= i < |h| ==> h[i] <= clock)
    && |live| <= |h| && h[|h| - |live|..] == live
    && (forall i :: 0 <= i < |h| - |live| ==> h[i] <= clock - WINDOW)
  }

  lemma Later(h: seq<real>, live: seq<real>, limit: nat, clock: real, now: real)
    requires Agrees(h, live, limit, clock) && clock <= now
    ensures Agrees(h, live, limit, now)
  {
  }

  /** Drop the expired front of a deque. */
  method Prune(live: seq<real>, now: real, ghost h: seq<real>, limit: nat, ghost clock: real) returns (recent: seq<real>)
    requires Agrees(h, live, limit, clock) && clock <= now
    ensures Agrees(h, recent, limit, now) && |recent| == |InWindow(h, now)|
    ensures forall i :: |h| - |recent| <= i < |h| ==> now - WINDOW < h[i]
  {
    recent := live;
    while recent != [] && recent[0] <= now - WINDOW
      invariant |recent| <= |h| && h[|h| - |recent|..] == recent
      invariant forall i :: 0 <= i < |h| - |recent| ==> h[i] <= now - WINDOW
    {
      assert recent[0] == h[|h| - |recent|];
      recent := recent[1..];
    }
    ghost var k := |h| - |recent|;
    assert forall i :: k <= i < |h| ==> h[i] == recent[i - k];
    LiveIsWindow(h, k, now);
  }

  /** Below the limit, one more event at the latest time keeps the history spaced. */
  lemma Accept(h: seq<real>, recent: seq<real>, limit: nat, now: real)
    requires Agrees(h, recent, limit, now) && |recent| < limit
    requires |recent| == |InWindow(h, now)| && forall i :: |h| - |recent| <= i < |h| ==> now - WINDOW < h[i]
    ensures Agrees(h + [now], recent + [now], limit, now)
    ensures |recent| + 1 == |InWindow(h + [now], now)|
  {
    assert (h + [now])[|h| - |recent|..] == recent + [now];
    LiveIsWindow(h + [now], |h| - |recent|, now);
  }

  class ErrorRateLimiter {
    var events: map<Bucket, seq<real>>
    ghost var accepted: map<Bucket, seq<real>>
    /** The last clock reading. */
    ghost var clock: real

    ghost predicate Valid()
      reads this
    {
      && (forall b: Bucket :: b in events)
      && (forall b: Bucket :: b in accepted)
      && (forall b: Bucket :: Agrees(accepted[b], events[b], Limit(b), clock))
    }

    constructor ()
      ensures Valid() && forall b :: accepted[b] == []
    {
      events := map[Client := [], Server := [], Success := [], Lifecycle := [], HttpOther := []];
      accepted := map[Client := [], Server := [], Success := [], Lifecycle := [], HttpOther := []];
      clock := 0.0;
      new;
      forall b: Bucket ensures b in events && b in accepted && accepted[b] == events[b] == [] {
        match b case Client => case Server => case Success => case Lifecycle => case HttpOther =>
      }
    }

    /** An event passes exactly when fewer than the limit of its bucket passed in the last second,
        and afterwards every window of every bucket is still within its limit. */
    method Allow(e: Event, now: real) returns (ok: bool)
      requires Valid() && clock <= now
      modifies this
      ensures Valid() && clock == now
      ensures BucketOf(e).Unlimited? ==> ok && accepted == old(accepted)
      ensures BucketOf(e).Limited? ==> var b := BucketOf(e).bucket;
        && (ok <==> |InWindow(old(accepted[b]), now)| < Limit(b))
        && accepted == (if ok then old(accepted)[b := old(accepted[b]) + [now]] else old(accepted))
        && |events[b]| == |InWindow(accepted[b], now)|
      ensures forall b: Bucket, t: real :: |InWindow(accepted[b], t)| <= Limit(b)
    {
      hide InWindow, Limit, Agrees;
      clock := now;
      forall b: Bucket ensures Agrees(accepted[b], events[b], Limit(b), now) { Later(accepted[b], events[b], Limit(b), old(clock), now); }
      var choice := BucketOf(e);
      if choice.Unlimited? {
        EveryWindow();
        return true;
      }
      var b := choice.bucket;
      ghost var h := accepted[b];
      var recent := Prune(events[b], now, h, Limit(b), old(clock));
      ok := |recent| < Limit(b);
      if ok {
        Accept(h, recent, Limit(b), now);
        recent := recent + [now];
        accepted := accepted[b := h + [now]];
      }
      events := events[b := recent];
      EveryWindow();
    }

    lemma EveryWindow()
      requires Valid()
      ensures forall b: Bucket, t: real :: |InWindow(accepted[b], t)| <= Limit(b)
    {
      forall b: Bucket, t: real ensures |InWindow(accepted[b], t)| <= Limit(b) {
        SpacedIsLimited(accepted[b], Limit(b), t);
      }
    }
  }
}
