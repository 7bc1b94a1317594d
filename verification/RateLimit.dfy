/**
 The fixed-window rate limiter, against the full history of checks. Counters are unsigned 32-bit
 and wrap; times are whole seconds that never go backwards.
 */
module RateLimit {

  /** The SHA-256 digest of a credential. */
  type Key = string

  const TWO_TO_32 := 0x1_0000_0000
  const CROWDED := 10_000

  datatype Window = Window(minute: nat, count: nat)

  datatype Verdict = Accepted | Limited(retryAfterSecs: nat)

  datatype Attempt = Attempt(key: Key, now: nat) {
    function Minute(): nat {
      now / 60
    }
  }

  /** One more, in unsigned 32-bit arithmetic. */
  function Bumped(n: nat): nat {
    if n + 1 == TWO_TO_32 then 0 else n + 1
  }

  // ---- the specification: count the whole history ---------------------------------------------

  /** Checks of `key` in `minute`. */
  function Count(h: seq<Attempt>, key: Key, minute: nat): nat {
    if h == [] then 0
    else
      var last := h[|h| - 1];
      Count(h[..|h| - 1], key, minute) + (if last.key == key && last.Minute() == minute then 1 else 0)
  }

  /** The same count as a 32-bit counter sees it. */
  function Counter(h: seq<Attempt>, key: Key, minute: nat): nat {
    if h == [] then 0
    else
      var before, last := Counter(h[..|h| - 1], key, minute), h[|h| - 1];
      if last.key == key && last.Minute() == minute then Bumped(before) else before
  }

  /** The answer to a check after the history `h`. */
  function Decide(h: seq<Attempt>, c: Attempt, perMin: nat): Verdict {
    if Bumped(Counter(h, c.key, c.Minute())) > perMin then Limited(60 - c.now % 60) else Accepted
  }

  predicate Chronological(h: seq<Attempt>) {
    forall i, j :: 0 <= i < j < |h| ==> h[i].now <= h[j].now
  }

  // ---- the limiter ------------------------------------------------------------------------------

  /** Counters of the minute `latest` are right; a key without one was not seen in that minute. */
  ghost predicate Tracks(windows: map<Key, Window>, h: seq<Attempt>, latest: nat) {
    && (forall k :: k in windows ==> windows[k].minute <= latest)
    && (forall k :: Counter(h, k, latest) == Current(windows, k, latest))
  }

  function Current(windows: map<Key, Window>, key: Key, minute: nat): nat {
    if key in windows && windows[key].minute == minute then windows[key].count else 0
  }

  class RateLimiter {
    const perMin: nat
    var windows: map<Key, Window>
    ghost var history: seq<Attempt>

    ghost function Latest(): nat
      reads this
    {
      if history == [] then 0 else history[|history| - 1].Minute()
    }

    ghost predicate Valid()
      reads this
    {
      Chronological(history) && Tracks(windows, history, Latest())
    }

    constructor (perMin: nat)
      ensures Valid() && history == [] && this.perMin == perMin
    {
      this.perMin := perMin;
      windows := map[];
      history := [];
    }

    /** The answer depends on the history alone: neither the windows nor their cleanup show. */
    method Check(key: Key, now: nat) returns (v: Verdict)
      requires Valid() && (history != [] ==> history[|history| - 1].now <= now)
      modifies this
      ensures Valid() && history == old(history) + [Attempt(key, now)]
      ensures v == Decide(old(history), Attempt(key, now), perMin)
    {
      var minute := now / 60;
      AdvanceTracks(windows, history, Latest(), minute);
      if |windows| > CROWDED {
        SweepTracks(windows, history, minute);
        windows := Swept(windows, minute);
      }
      var entry := if key in windows then windows[key] else Window(minute, 0);
      if entry.minute != minute {
        entry := Window(minute, 0);
      }
      BumpTracks(windows, history, Attempt(key, now));
      assert entry.minute == minute && entry.count == Current(windows, key, minute);
      entry := entry.(count := Bumped(entry.count));
      windows := windows[key := entry];
      v := if entry.count > perMin then Limited(60 - now % 60) else Accepted;
      history := history + [Attempt(key, now)];
      assert Latest() == minute && Chronological(history);
    }
  }

  /** A minute later than every check so far has no checks yet. */
  lemma {:induction false} NothingAhead(h: seq<Attempt>, key: Key, minute: nat)
    requires forall i :: 0 <= i < |h| ==> h[i].Minute() < minute
    ensures Counter(h, key, minute) == 0
  {
    if h == [] {
    } else {
      NothingAhead(h[..|h| - 1], key, minute);
    }
  }

  /** Time moves on: in a new minute no counter is current and nothing was counted yet. */
  lemma AdvanceTracks(windows: map<Key, Window>, h: seq<Attempt>, latest: nat, minute: nat)
    requires Chronological(h) && Tracks(windows, h, latest) && latest <= minute
    requires h != [] ==> latest == h[|h| - 1].Minute()
    ensures Tracks(windows, h, minute)
  {
    if latest < minute {
      forall k ensures Counter(h, k, minute) == Current(windows, k, minute) {
        NothingAhead(h, k, minute);
      }
    }
  }

  /** The clean-up keeps this minute's windows. */
  function Swept(windows: map<Key, Window>, minute: nat): map<Key, Window> {
    map k | k in windows && windows[k].minute == minute :: windows[k]
  }

  lemma SweepTracks(windows: map<Key, Window>, h: seq<Attempt>, minute: nat)
    requires Tracks(windows, h, minute)
    ensures Tracks(Swept(windows, minute), h, minute)
  {
    forall k ensures Current(Swept(windows, minute), k, minute) == Current(windows, k, minute) {
    }
  }

  lemma BumpTracks(windows: map<Key, Window>, h: seq<Attempt>, c: Attempt)
    requires Tracks(windows, h, c.Minute())
    ensures Tracks(windows[c.key := Window(c.Minute(), Bumped(Current(windows, c.key, c.Minute())))], h + [c], c.Minute())
  {
    var after := windows[c.key := Window(c.Minute(), Bumped(Current(windows, c.key, c.Minute())))];
    forall k ensures Counter(h + [c], k, c.Minute()) == Current(after, k, c.Minute()) {
      assert (h + [c])[..|h|] == h;
    }
  }

  // ---- what the specification promises --------------------------------------------------------------

  /** The counter is the count modulo 2^32. */
  lemma {:induction false} CounterWraps(h: seq<Attempt>, key: Key, minute: nat)
    ensures Counter(h, key, minute) < TWO_TO_32
    ensures exists q: nat :: Count(h, key, minute) == q * TWO_TO_32 + Counter(h, key, minute)
  {
    if h == [] {
      assert Count(h, key, minute) == 0 * TWO_TO_32 + Counter(h, key, minute);
    } else {
      var pre := h[..|h| - 1];
      CounterWraps(pre, key, minute);
      var q: nat :| Count(pre, key, minute) == q * TWO_TO_32 + Counter(pre, key, minute);
      assert Count(h, key, minute) == q * TWO_TO_32 + Counter(h, key, minute)
          || Count(h, key, minute) == (q + 1) * TWO_TO_32 + Counter(h, key, minute);
    }
  }

  lemma SmallCount(h: seq<Attempt>, key: Key, minute: nat)
    requires Count(h, key, minute) < TWO_TO_32
    ensures Counter(h, key, minute) == Count(h, key, minute)
  {
    CounterWraps(h, key, minute);
  }

  /**
   A check that brings the count of its minute to less than 2^32 passes exactly when fewer than
   `perMin` checks of its key came before it in that minute.
   */
  lemma PassesIffFewEarlier(h: seq<Attempt>, c: Attempt, perMin: nat)
    requires Count(h, c.key, c.Minute()) + 1 < TWO_TO_32
    ensures Decide(h, c, perMin) == Accepted <==> Count(h, c.key, c.Minute()) < perMin
  {
    SmallCount(h, c.key, c.Minute());
  }

  /** The check that wraps the counter passes, however many came before it. */
  lemma WrappedCounterPasses(h: seq<Attempt>, c: Attempt, perMin: nat)
    requires Count(h, c.key, c.Minute()) + 1 == TWO_TO_32
    ensures Decide(h, c, perMin) == Accepted
  {
    SmallCount(h, c.key, c.Minute());
  }

  /** Accepted checks of `key` among those in `minute`. */
  function AcceptedIn(h: seq<Attempt>, key: Key, minute: nat, perMin: nat): nat {
    if h == [] then 0
    else
      var pre, last := h[..|h| - 1], h[|h| - 1];
      AcceptedIn(pre, key, minute, perMin)
      + (if last.key == key && last.Minute() == minute && Decide(pre, last, perMin) == Accepted then 1 else 0)
  }

  /** Accepted checks of `key` in the 60 seconds from `start`. */
  function AcceptedFrom(h: seq<Attempt>, key: Key, start: nat, perMin: nat): nat {
    if h == [] then 0
    else
      var pre, last := h[..|h| - 1], h[|h| - 1];
      AcceptedFrom(pre, key, start, perMin)
      + (if last.key == key && start <= last.now < start + 60 && Decide(pre, last, perMin) == Accepted then 1 else 0)
  }

  lemma {:induction false} AcceptedPerMinute(h: seq<Attempt>, key: Key, minute: nat, perMin: nat)
    requires Count(h, key, minute) < TWO_TO_32
    ensures AcceptedIn(h, key, minute, perMin) == if Count(h, key, minute) < perMin then Count(h, key, minute) else perMin
  {
    if h == [] {
    } else {
      var pre, last := h[..|h| - 1], h[|h| - 1];
      AcceptedPerMinute(pre, key, minute, perMin);
      if last.key == key && last.Minute() == minute {
        PassesIffFewEarlier(pre, last, perMin);
      }
    }
  }

  lemma {:induction false} SpanTouchesTwoMinutes(h: seq<Attempt>, key: Key, start: nat, perMin: nat)
    ensures AcceptedFrom(h, key, start, perMin)
         <= AcceptedIn(h, key, start / 60, perMin) + AcceptedIn(h, key, start / 60 + 1, perMin)
  {
    if h == [] {
    } else {
      SpanTouchesTwoMinutes(h[..|h| - 1], key, start, perMin);
    }
  }

  /** No 60 seconds, however they lie, let more than twice the limit pass. */
  lemma AtMostTwicePerMinute(h: seq<Attempt>, key: Key, start: nat, perMin: nat)
    requires Count(h, key, start / 60) < TWO_TO_32 && Count(h, key, start / 60 + 1) < TWO_TO_32
    ensures AcceptedFrom(h, key, start, perMin) <= 2 * perMin
  {
    SpanTouchesTwoMinutes(h, key, start, perMin);
    AcceptedPerMinute(h, key, start / 60, perMin);
    AcceptedPerMinute(h, key, start / 60 + 1, perMin);
  }

  /** `n` checks of one key in one second. */
  function Burst(key: Key, now: nat, n: nat): seq<Attempt> {
    if n == 0 then [] else Burst(key, now, n - 1) + [Attempt(key, now)]
  }

  lemma {:induction false} BurstPasses(h: seq<Attempt>, key: Key, start: nat, now: nat, perMin: nat, n: nat)
    requires Count(h, key, now / 60) == 0 && start <= now < start + 60 && n <= perMin < TWO_TO_32
    ensures Count(h + Burst(key, now, n), key, now / 60) == n
    ensures forall m: nat :: m != now / 60 ==> Count(h + Burst(key, now, n), key, m) == Count(h, key, m)
    ensures AcceptedFrom(h + Burst(key, now, n), key, start, perMin) == AcceptedFrom(h, key, start, perMin) + n
  {
    if n == 0 {
      assert h + [] == h;
    } else {
      var pre, last := h + Burst(key, now, n - 1), Attempt(key, now);
      BurstPasses(h, key, start, now, perMin, n - 1);
      assert (h + Burst(key, now, n))[..|h + Burst(key, now, n)| - 1] == pre;
      PassesIffFewEarlier(pre, last, perMin);
    }
  }

  /** And that bound is reached: two bursts, one on each side of a full minute, pass to the last check. */
  lemma TwiceIsReached(key: Key, minute: nat, perMin: nat)
    requires perMin < TWO_TO_32
    ensures var h := Burst(key, minute * 60 + 59, perMin) + Burst(key, minute * 60 + 60, perMin);
      AcceptedFrom(h, key, minute * 60 + 59, perMin) == 2 * perMin
  {
    var now := minute * 60 + 59;
    assert now / 60 == minute && (now + 1) / 60 == minute + 1;
    assert [] + Burst(key, now, perMin) == Burst(key, now, perMin);
    BurstPasses([], key, now, now, perMin, perMin);
    BurstPasses(Burst(key, now, perMin), key, now, now + 1, perMin, perMin);
  }

  /** The advised wait is 1 to 60 seconds and ends exactly where the next minute starts. */
  lemma RetryLandsOnNextMinute(h: seq<Attempt>, c: Attempt, perMin: nat)
    requires Decide(h, c, perMin).Limited?
    ensures var wait := Decide(h, c, perMin).retryAfterSecs;
      1 <= wait <= 60 && c.now + wait == (c.Minute() + 1) * 60
  {
  }
}
