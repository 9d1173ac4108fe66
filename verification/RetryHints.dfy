/** When a denial says "ask again in RetryAfter", what is there to grant then, and what was there before. */
module RetryHints {
  import opened Numbers
  import opened Ledger
  import opened Grants
  import opened MemLedger
  import opened Traces
  import opened Windows
  import opened Sliding

  /** What the quota has left after d more milliseconds without any other traffic. */
  function LeftAfter(s: State, g: GrantInput, now: int, d: int): int
    requires WellFormed(g)
  {
    KeyAvail(g, ReadsOf(s, g, now + d))
  }

  /** The answer denies, and it is the quota itself, not its parent, that has nothing left. */
  ghost predicate Denied(s: State, g: GrantInput, now: int)
    requires WellFormed(g)
  {
    !ParentBinds(g, ReadsOf(s, g, now)) && KeyAvail(g, ReadsOf(s, g, now)) <= 0
  }

  function Hint(s: State, g: GrantInput, now: int): int
    requires WellFormed(g)
  {
    Outcome(g, ReadsOf(s, g, now)).retry
  }

  lemma HintIsRetry(s: State, g: GrantInput, now: int)
    requires WellFormed(g) && Denied(s, g, now)
    ensures Hint(s, g, now) == Retry(g, ReadsOf(s, g, now))
  {}

  // Token buckets.

  lemma BucketHasOne(limit: int, t: real, tat: int, now: int)
    requires t > 0.0
    ensures 1 <= BucketAvail(limit, t, tat, now) <==> t <= now as real + Worth(limit, t) - tat as real
  {}

  lemma WorthOfBurst(limit: int, t: real)
    requires 1 <= limit && t > 0.0
    ensures t <= Worth(limit, t)
  {}

  /** For d before the hint the bucket has nothing; at the hint it has a token. Floors never matter. */
  lemma BucketHint(limit: int, t: real, tat: Option<int>, now: int, d: int)
    requires 1 <= limit && t > 0.0 && 0 <= d
    requires BucketAvail(limit, t, EffectiveTat(tat, now), now) <= 0
    ensures var hint := Max(Ceil(EffectiveTat(tat, now) as real + t - Worth(limit, t) - now as real), 1);
            1 <= BucketAvail(limit, t, EffectiveTat(tat, now + d), now + d) <==> hint <= d
  {
    hide BucketAvail, Worth;
    WorthOfBurst(limit, t);
    BucketHasOne(limit, t, EffectiveTat(tat, now), now);
    BucketHasOne(limit, t, EffectiveTat(tat, now + d), now + d);
    CeilBelow(EffectiveTat(tat, now) as real + t - Worth(limit, t) - now as real, d);
  }

  /** After a token bucket denies, capacity exists from exactly RetryAfter on: there is none at any earlier
      millisecond. */
  lemma BucketRetrySoundAndTight(s: State, g: GrantInput, now: int, d: int)
    requires WellFormed(g) && g.algo == TokenBucket && Denied(s, g, now) && 0 <= d
    ensures 1 <= LeftAfter(s, g, now, d) <==> Hint(s, g, now) <= d
    ensures g.parentKey == "" && Hint(s, g, now) <= d ==> 1 <= Outcome(g, ReadsOf(s, g, now + d)).granted
  {
    hide BucketAvail, Worth, Interval;
    HintIsRetry(s, g, now);
    BucketHint(g.limit, Interval(g.rate), Find(s.vals, Tat(g.key)), now, d);
    GrantFits(g, ReadsOf(s, g, now + d));
  }

  // Sliding windows.

  /** The window's age after d more milliseconds of the same window. */
  lemma ElapsedLater(now: int, win: int, d: int)
    requires 0 < win && 0 <= d < Remainder(now, win)
    ensures WindowOf(now + d, win) == WindowOf(now, win)
    ensures Elapsed(now + d, win) * win as real == Elapsed(now, win) * win as real + d as real
  {
    WindowBounds(now, win);
    WindowUnique(now + d, win, WindowOf(now, win));
    var w := WindowOf(now, win) * win;
    assert Elapsed(now, win) * win as real == (now - w) as real;
    assert Elapsed(now + d, win) * win as real == (now + d - w) as real;
  }

  /** The formula behind the hint: the decayed use is down to c exactly when the clock has reached it. */
  lemma DecayedReaches(prev: int, c: int, now: int, win: int, d: int)
    requires 0 < win && 0 < prev && 0 <= d < Remainder(now, win)
    ensures Decayed(prev, now + d, win) <= c <==> DecayWait(c, prev, Elapsed(now, win), win) <= d
  {
    ElapsedLater(now, win, d);
    var p, w, e, e' := prev as real, win as real, Elapsed(now, win), Elapsed(now + d, win);
    hide Elapsed;
    var need := 1.0 - c as real / p;
    CeilBelow(p * (1.0 - e'), c);
    CeilBelow((need - e) * w, d);
    DivOrder(1.0 - e', c as real, p);
    assert p * (1.0 - e') == (1.0 - e') * p;
    assert Decayed(prev, now + d, win) <= c <==> need <= e';
    assert (need - e) * w == need * w - e * w;
    ScaleOrder(need, e', w);
  }

  lemma ScaleOrder(x: real, y: real, w: real)
    requires w > 0.0
    ensures x <= y <==> x * w <= y * w
  {}

  /** The first instant of the next window: this window's use has full weight and nothing else counts. */
  lemma AtTheRoll(s: State, g: GrantInput, now: int)
    requires WellFormed(g) && g.algo == SlidingWindow
    requires Count(s, g.key, WindowOf(now, g.win) + 1) == 0 && 0 <= Count(s, g.key, WindowOf(now, g.win))
    ensures LeftAfter(s, g, now, Remainder(now, g.win)) == g.limit - Count(s, g.key, WindowOf(now, g.win))
  {
    var w := WindowOf(now, g.win) + 1;
    var t := now + Remainder(now, g.win);
    assert t == w * g.win;
    assert (w + 1) * g.win == w * g.win + g.win;
    WindowUnique(t, g.win, w);
    assert Elapsed(t, g.win) == 0.0;
    var c := Count(s, g.key, w - 1);
    assert Decayed(c, t, g.win) == Ceil(c as real);
    CeilBelow(c as real, c);
    CeilBelow(c as real, c - 1);
  }

  lemma BeforeTheRoll(s: State, g: GrantInput, now: int, d: int)
    requires WellFormed(g) && g.algo == SlidingWindow && 0 <= d < Remainder(now, g.win)
    ensures var w := WindowOf(now, g.win);
            LeftAfter(s, g, now, d) == g.limit - Count(s, g.key, w) - Decayed(Count(s, g.key, w - 1), now + d, g.win)
  {
    hide Decayed;
    WindowBounds(now, g.win);
    WindowUnique(now + d, g.win, WindowOf(now, g.win));
  }

  lemma RemainderPositive(now: int, win: int)
    requires 0 < win
    ensures 0 < Remainder(now, win)
  {}

  /** The hint of a sliding window before its floor of 10 ms and its cap at the reset. */
  function RawHint(s: State, g: GrantInput, now: int): int
    requires WellFormed(g)
  {
    var w := WindowOf(now, g.win);
    if Count(s, g.key, w - 1) <= 0 then 0
    else DecayWait(g.limit - 1 - Count(s, g.key, w), Count(s, g.key, w - 1), Elapsed(now, g.win), g.win)
  }

  /** What any ledger keeps of a quota: counters are not negative, and windows that have not started are empty. */
  ghost predicate Counts(s: State, base: string, win: int, now: int)
    requires 0 < win
  {
    forall w :: 0 <= Count(s, base, w) && (WindowOf(now, win) < w ==> Count(s, base, w) == 0)
  }

  /** How an operation that touches base's counters must agree with its window. */
  ghost predicate Windowed(op: Op, base: string, win: int) {
    match op
    case Ask(g) => (g.key == base ==> g.win == win) && (g.parentKey == base ==> g.pwin == win)
    case GiveBack(r) =>
      && (r.key == base ==> r.win == win) && (r.parentKey == base ==> r.pwin == win)
      && !(r.key == base && r.parentKey == base)
    case Lend(_, _, _) => true
    case Credit(_) => true
  }

  lemma StepCounts(s: State, e: Event, s': State, a: Answer, base: string, win: int)
    requires Proper(e.op) && MemStep(s, e, s', a) && base != "" && 0 < win && Windowed(e.op, base, win)
    requires Counts(s, base, win, e.at)
    ensures Counts(s', base, win, e.at)
  {
    hide GrantVals, ReturnVals, LendAmount, Granted, Outcome, ReadsOf, EdgesAfter, WellFormed, WellFormedReturn;
    forall w ensures 0 <= Count(s', base, w) && (WindowOf(e.at, win) < w ==> Count(s', base, w) == 0) {
      assert 0 <= Count(s, base, w);
      match e.op
      case Ask(g) =>
        CountAfterGrant(s, g, e.at, base, w);
        GrantFits(g, ReadsOf(s, g, e.at));
      case GiveBack(r) => CountAfterReturn(s.vals, r, e.at, base, w);
      case Lend(x, from, margin) => CountAfterTransfer(s, x, from, margin, e.at, base, w);
      case Credit(x) => CountAfterTransfer(s, x, 0, 0, e.at, base, w);
    }
  }

  /** Every run keeps them, with debt or without. */
  lemma {:induction false} RunCounts(
    states: seq<State>, events: seq<Event>, answers: seq<Answer>, base: string, win: int, n: nat, now: int)
    requires MemRun(states, events, answers) && states[0] == EMPTY && base != "" && 0 < win && n <= |events|
    requires forall i :: 0 <= i < |events| ==> Windowed(events[i].op, base, win)
    requires forall i :: 0 <= i < n ==> events[i].at <= now
    ensures Counts(states[n], base, win, now)
  {
    hide MemStep, Windowed;
    if n > 0 {
      var e := events[n - 1];
      assert MemStep(states[n - 1], e, states[n], answers[n - 1]) && Windowed(e.op, base, win);
      RunCounts(states, events, answers, base, win, n - 1, e.at);
      StepCounts(states[n - 1], e, states[n], answers[n - 1], base, win);
      WindowMonotone(e.at, now, win);
    }
  }

  /** A sliding window with room in its own counter denies only because of the previous window. */
  lemma RoomMeansDecay(s: State, g: GrantInput, now: int)
    requires WellFormed(g) && g.algo == SlidingWindow && Denied(s, g, now)
    requires Counts(s, g.key, g.win, now) && Count(s, g.key, WindowOf(now, g.win)) < g.limit
    ensures 0 < Count(s, g.key, WindowOf(now, g.win) - 1)
    ensures Hint(s, g, now) == Min(Max(RawHint(s, g, now), 10), Remainder(now, g.win))
  {
    hide Decayed, Elapsed, Hint, RawHint, Retry, Outcome, Remainder;
    var w := WindowOf(now, g.win);
    assert 0 <= Count(s, g.key, w - 1);
    if Count(s, g.key, w - 1) == 0 {
      DecayedBounds(0, now, g.win);
    } else {
      DecayHint(s, g, now);
    }
  }

  lemma DecayHint(s: State, g: GrantInput, now: int)
    requires WellFormed(g) && g.algo == SlidingWindow && Denied(s, g, now)
    requires 0 < Count(s, g.key, WindowOf(now, g.win) - 1) && Count(s, g.key, WindowOf(now, g.win)) < g.limit
    ensures Hint(s, g, now) == Min(Max(RawHint(s, g, now), 10), Remainder(now, g.win))
  {
    hide Decayed, Elapsed, Remainder, KeyAvail, DecayWait;
    HintIsRetry(s, g, now);
  }

  /** After a sliding window denies, a token exists exactly RetryAfter later if, and only if, the current window's
      own counter has room. When it is full the whole of it is still counted at the roll, so the hint is too early. */
  lemma SlidingRetrySound(s: State, g: GrantInput, now: int)
    requires WellFormed(g) && g.algo == SlidingWindow && Denied(s, g, now)
    requires Counts(s, g.key, g.win, now)
    ensures 1 <= LeftAfter(s, g, now, Hint(s, g, now)) <==> Count(s, g.key, WindowOf(now, g.win)) < g.limit
  {
    hide Decayed, Elapsed, KeyAvail, RawHint, Outcome;
    var w, reset := WindowOf(now, g.win), Remainder(now, g.win);
    var cur, prev := Count(s, g.key, w), Count(s, g.key, w - 1);
    assert 0 <= cur && 0 <= prev;
    RemainderPositive(now, g.win);
    HintIsRetry(s, g, now);
    AtTheRoll(s, g, now);
    var hint := Hint(s, g, now);
    if cur < g.limit {
      RoomMeansDecay(s, g, now);
      if hint < reset {
        BeforeTheRoll(s, g, now, hint);
        HintReached(s, g, now, hint);
      }
    } else {
      FullHint(s, g, now);
      if hint < reset {
        BeforeTheRoll(s, g, now, hint);
        DecayedBounds(prev, now + hint, g.win);
      }
    }
  }

  lemma FullHint(s: State, g: GrantInput, now: int)
    requires WellFormed(g) && g.algo == SlidingWindow && Denied(s, g, now)
    requires g.limit <= Count(s, g.key, WindowOf(now, g.win))
    ensures Hint(s, g, now) == Min(Max(g.win / 10, 500), Remainder(now, g.win))
  {}

  /** Within the window, capacity is back exactly from the raw hint on. */
  lemma HintReached(s: State, g: GrantInput, now: int, d: int)
    requires WellFormed(g) && g.algo == SlidingWindow && 0 <= d < Remainder(now, g.win)
    requires 0 < Count(s, g.key, WindowOf(now, g.win) - 1)
    ensures 1 <= LeftAfter(s, g, now, d) <==> RawHint(s, g, now) <= d
  {
    hide Decayed, Elapsed, LeftAfter, DecayWait;
    var w := WindowOf(now, g.win);
    BeforeTheRoll(s, g, now, d);
    DecayedReaches(Count(s, g.key, w - 1), g.limit - 1 - Count(s, g.key, w), now, g.win, d);
  }

  /** When neither the floor of 10 ms nor the cap at the reset changed the hint, no earlier millisecond has a token. */
  lemma SlidingRetryTight(s: State, g: GrantInput, now: int, d: int)
    requires WellFormed(g) && g.algo == SlidingWindow && Denied(s, g, now)
    requires Counts(s, g.key, g.win, now) && Count(s, g.key, WindowOf(now, g.win)) < g.limit
    requires 10 <= RawHint(s, g, now) <= Remainder(now, g.win) && 0 <= d < Hint(s, g, now)
    ensures LeftAfter(s, g, now, d) <= 0
  {
    hide LeftAfter, RawHint, Hint;
    RoomMeansDecay(s, g, now);
    HintReached(s, g, now, d);
  }

  /** A full window of ten, halfway through its second: the hint points at the roll, and nothing is left there. */
  lemma FullWindowHintTooEarly()
    ensures var g := GrantInput(SlidingWindow, "k", 10, 1000, 0.0, 1, "", 2000, 1000, "", 0, 0, -1);
            var s := State(map[Counter("k", 0) := 10], map[], {});
            && WellFormed(g) && Counts(s, "k", 1000, 500) && Denied(s, g, 500)
            && Hint(s, g, 500) == 500 && LeftAfter(s, g, 500, 500) == 0
  {
    var g := GrantInput(SlidingWindow, "k", 10, 1000, 0.0, 1, "", 2000, 1000, "", 0, 0, -1);
    var s := State(map[Counter("k", 0) := 10], map[], {});
    hide Decayed, Elapsed, Hint;
    DecayedBounds(0, 500, 1000);
    assert WindowOf(500, 1000) == 0 && Count(s, "k", 0) == 10 && Count(s, "k", -1) == 0;
    FullHint(s, g, 500);
    AtTheRoll(s, g, 500);
  }
}
