/** The sliding window's promise at every instant, not only when a token is granted. */
module Sliding {
  import opened Numbers
  import opened Ledger
  import opened Grants
  import opened MemLedger
  import opened Traces
  import opened Windows

  /** A window's age is a fraction of it, and grows with the clock while the window lasts. */
  lemma ElapsedBounds(now: int, win: int)
    requires 0 < win
    ensures 0.0 <= Elapsed(now, win) < 1.0
  {
    WindowBounds(now, win);
    var e := now - WindowOf(now, win) * win;
    assert (WindowOf(now, win) + 1) * win == WindowOf(now, win) * win + win;
    assert 0 <= e < win;
    DivOrder(0.0, e as real, win as real);
    DivOrder(1.0, e as real, win as real);
  }

  lemma ElapsedGrows(t: int, t': int, win: int)
    requires 0 < win && t <= t' && WindowOf(t, win) == WindowOf(t', win)
    ensures Elapsed(t, win) <= Elapsed(t', win)
  {
    var w := WindowOf(t, win) * win;
    var a, b := (t - w) as real, (t' - w) as real;
    assert a == (a / win as real) * win as real;
    DivOrder(a / win as real, b, win as real);
  }

  /** The weight of the previous window is between nothing and all of it. */
  lemma DecayedBounds(prev: int, now: int, win: int)
    requires 0 < win && 0 <= prev
    ensures 0 <= Decayed(prev, now, win) <= prev
  {
    ElapsedBounds(now, win);
    var x := 1.0 - Elapsed(now, win);
    MulOrder(0.0, x, prev as real);
    MulOrder(x, 1.0, prev as real);
    assert 0.0 <= prev as real * x <= prev as real;
  }

  lemma DecayedFalls(prev: int, t: int, t': int, win: int)
    requires 0 < win && 0 <= prev && t <= t' && WindowOf(t, win) == WindowOf(t', win)
    ensures Decayed(prev, t', win) <= Decayed(prev, t, win)
  {
    ElapsedGrows(t, t', win);
    MulOrder(1.0 - Elapsed(t', win), 1.0 - Elapsed(t, win), prev as real);
    CeilMonotone(prev as real * (1.0 - Elapsed(t', win)), prev as real * (1.0 - Elapsed(t, win)));
  }

  /** The ledger's estimate of the use in a window that ends now. */
  function Estimate(s: State, base: string, win: int, now: int): int
    requires 0 < win
  {
    Count(s, base, WindowOf(now, win)) + Decayed(Count(s, base, WindowOf(now, win) - 1), now, win)
  }

  /** Counters are within the limit, windows that have not started are empty, and so is the estimate. */
  ghost predicate SlidingSafe(s: State, base: string, limit: int, win: int, now: int)
    requires 0 < win
  {
    && WithinQuota(s, base, limit)
    && (forall w :: WindowOf(now, win) < w ==> Count(s, base, w) == 0)
    && Estimate(s, base, win, now) <= limit
  }

  ghost predicate Slides(op: Op, base: string, limit: int, win: int) {
    match op
    case Ask(g) =>
      && (g.key == base ==> g.algo == SlidingWindow && g.limit == limit && g.win == win)
      && g.parentKey != base
    case GiveBack(r) =>
      && (r.key == base ==> r.algo == SlidingWindow && r.win == win && 0 <= r.tokens)
      && r.parentKey != base
    case Lend(_, _, _) => true
    case Credit(_) => true
  }

  /** Time alone never breaks the promise: not within a window, not across a roll, not over an idle gap. */
  lemma TimePasses(s: State, base: string, limit: int, win: int, t: int, t': int)
    requires 0 < win && t <= t' && SlidingSafe(s, base, limit, win, t)
    ensures SlidingSafe(s, base, limit, win, t')
  {
    hide Decayed;
    var w, w' := WindowOf(t, win), WindowOf(t', win);
    WindowMonotone(t, t', win);
    assert 0 <= Count(s, base, w' - 1) <= limit && 0 <= Count(s, base, w') <= limit;
    if w == w' {
      DecayedFalls(Count(s, base, w - 1), t, t', win);
    } else {
      DecayedBounds(Count(s, base, w' - 1), t', win);
    }
  }

  lemma AskKeepsSliding(s: State, g: GrantInput, s': State, base: string, limit: int, win: int, now: int)
    requires WellFormed(g) && 0 < win && Slides(Ask(g), base, limit, win)
    requires SlidingSafe(s, base, limit, win, now) && s'.vals == GrantVals(s, g, now)
    ensures SlidingSafe(s', base, limit, win, now)
  {
    hide Granted, Decayed, GrantVals, Sharers;
    var r := ReadsOf(s, g, now);
    var w := WindowOf(now, win);
    GrantFits(g, r);
    forall v { CountAfterGrant(s, g, now, base, v); }
    assert Count(s', base, w - 1) == Count(s, base, w - 1);
    DecayedBounds(Count(s, base, w - 1), now, win);
    if g.key == base {
      assert KeyAvail(g, r) == limit - Estimate(s, base, win, now);
    }
  }

  lemma ReturnKeepsSliding(s: State, r: ReturnInput, base: string, limit: int, win: int, now: int)
    requires WellFormedReturn(r) && 0 < win && Slides(GiveBack(r), base, limit, win)
    requires SlidingSafe(s, base, limit, win, now)
    ensures SlidingSafe(ReturnOne(s, r, now), base, limit, win, now)
  {
    hide Decayed, ReturnVals, WellFormedReturn;
    var s', w := ReturnOne(s, r, now), WindowOf(now, win);
    forall v
      ensures 0 <= Count(s', base, v) <= Count(s, base, v) && (v != w ==> Count(s', base, v) == Count(s, base, v))
    {
      assert 0 <= Count(s, base, v);
      CountAfterReturn(s.vals, r, now, base, v);
    }
  }

  lemma StepKeepsSliding(s: State, e: Event, s': State, a: Answer, base: string, limit: int, win: int)
    requires Proper(e.op) && MemStep(s, e, s', a) && 0 < win && Slides(e.op, base, limit, win)
    requires SlidingSafe(s, base, limit, win, e.at)
    ensures SlidingSafe(s', base, limit, win, e.at)
  {
    hide SlidingSafe, GrantVals, EdgesAfter, Outcome, ReturnOne, LendNext, CreditNext;
    match e.op
    case Ask(g) => AskKeepsSliding(s, g, s', base, limit, win, e.at);
    case GiveBack(r) => ReturnKeepsSliding(s, r, base, limit, win, e.at);
    case Lend(x, from, margin) => TransferKeepsSliding(s, x, from, margin, base, limit, win, e.at);
    case Credit(x) => TransferKeepsSliding(s, x, 0, 0, base, limit, win, e.at);
  }

  lemma TransferKeepsSliding(
    s: State, x: Transfer, from: int, margin: int, base: string, limit: int, win: int, now: int)
    requires 0 < x.win && 0 < win && SlidingSafe(s, base, limit, win, now)
    ensures SlidingSafe(LendNext(s, x, from, margin, now), base, limit, win, now)
    ensures SlidingSafe(CreditNext(s, x, now), base, limit, win, now)
  {
    hide Decayed, LendNext, CreditNext;
    forall w { CountAfterTransfer(s, x, from, margin, now, base, w); }
  }

  /** In every run without debt returns, at every instant before the next operation, the estimate is within the
      limit: cur + ceil(prev * (1 - f)) <= limit. */
  lemma {:induction false} SlidingWindowHolds(
    states: seq<State>, events: seq<Event>, answers: seq<Answer>, base: string, limit: int, win: int, n: nat, now: int)
    requires MemRun(states, events, answers) && states[0] == EMPTY && 0 < win && 0 <= limit && n <= |events|
    requires forall i :: 0 <= i < |events| ==> Slides(events[i].op, base, limit, win)
    requires 0 < n ==> events[n - 1].at <= now
    ensures SlidingSafe(states[n], base, limit, win, now)
  {
    if n == 0 {
      DecayedBounds(0, now, win);
    } else {
      var e := events[n - 1];
      SlidingWindowHolds(states, events, answers, base, limit, win, n - 1, e.at);
      assert MemStep(states[n - 1], e, states[n], answers[n - 1]);
      StepKeepsSliding(states[n - 1], e, states[n], answers[n - 1], base, limit, win);
      TimePasses(states[n], base, limit, win, e.at, now);
    }
  }
}
