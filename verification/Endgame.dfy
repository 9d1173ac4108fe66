/** The last of a quota: asks that arrive while nothing else changes share out all that is left, and no more. */
module Endgame {
  import opened Numbers
  import opened Ledger
  import opened Grants
  import opened MemLedger
  import opened Traces
  import opened Windows
  import opened Bucket

  /** One ask: at least one token while any is left, never more than the quota or its parent has left, and near the
      end no more than an equal share, rounded up. */
  lemma FairShare(g: GrantInput, r: Reads)
    requires WellFormed(g) && 1 <= r.active
    ensures Granted(g, r) > 0 <==> Avail(g, r) > 0
    ensures Avail(g, r) > 0 ==> 1 <= Granted(g, r) <= KeyAvail(g, r) && Granted(g, r) <= g.target
    ensures Avail(g, r) > 0 && g.parentKey != "" ==> Granted(g, r) <= g.plimit - r.pused
    ensures var a, n := Avail(g, r), Sharers(g, r);
            0 < a < n * g.target ==> (Granted(g, r) - 1) * n < a
  {
    hide KeyAvail;
    GrantFits(g, r);
    var a, n := Avail(g, r), Sharers(g, r);
    if 0 < a < n * g.target {
      CeilShare(a, n);
      ShareBelowTarget(a, n, g.target);
    }
  }

  lemma ShareBelowTarget(a: int, n: int, target: int)
    requires 0 < a < n * target && 1 <= n
    ensures (a + n - 1) / n <= target
  {
    CeilShare(a, n);
    var q := (a + n - 1) / n;
    if target < q {
      MulMono(target, q - 1, n);
    }
  }

  /** Two asks for the same quota: only who asks, and for how much, may differ. */
  ghost predicate SameQuota(g: GrantInput, h: GrantInput) {
    g == h.(target := g.target, edge := g.edge, activeMs := g.activeMs)
  }

  /** Instants between which only asks change what a quota has left: one instant, or any of a fixed window (and of its
      parent's). */
  ghost predicate SamePeriod(g: GrantInput, t: int, u: int)
    requires WellFormed(g)
  {
    || t == u
    || (&& g.algo == FixedWindow && WindowOf(t, g.win) == WindowOf(u, g.win)
        && (g.parentKey != "" ==> WindowOf(t, g.pwin) == WindowOf(u, g.pwin)))
  }

  /** A run of asks for one quota, by any edges. */
  ghost predicate Rush(states: seq<State>, events: seq<Event>, answers: seq<Answer>, g: GrantInput, now: int) {
    && MemRun(states, events, answers)
    && WellFormed(g) && g.parentKey != g.key
    && forall i :: 0 <= i < |events| ==>
         SamePeriod(g, now, events[i].at) && events[i].op.Ask? && SameQuota(events[i].op.g, g)
  }

  /** What is left for the quota, whoever asks. */
  function Left(s: State, g: GrantInput, now: int): int
    requires WellFormed(g)
  {
    Avail(g, ReadsOf(s, g, now))
  }

  /** What is left of the quota itself, and of its parent. */
  function KeyLeft(s: State, g: GrantInput, now: int): int
    requires WellFormed(g)
  {
    KeyAvail(g, ReadsOf(s, g, now))
  }

  function ParentLeft(s: State, g: GrantInput, now: int): int
    requires WellFormed(g)
  {
    g.plimit - ReadsOf(s, g, now).pused
  }

  /** The time a bucket's tokens are worth. */
  function Slack(s: State, g: GrantInput, now: int): real
    requires WellFormed(g) && g.algo == TokenBucket
  {
    now as real + Worth(g.limit, Interval(g.rate)) - TatOf(s.vals, g.key, now) as real
  }

  lemma LeftIsLesser(s: State, g: GrantInput, now: int)
    requires WellFormed(g)
    ensures Left(s, g, now) ==
            if g.parentKey == "" then KeyLeft(s, g, now) else Min(KeyLeft(s, g, now), ParentLeft(s, g, now))
  {
    hide KeyAvail;
  }

  /** Whoever asks, and whenever in the period, the same is left. */
  lemma LeftIsShared(s: State, g: GrantInput, h: GrantInput, t: int, u: int)
    requires WellFormed(g) && WellFormed(h) && SameQuota(h, g) && SamePeriod(g, t, u)
    ensures Left(s, h, u) == Left(s, g, t) && KeyLeft(s, g, u) == KeyLeft(s, g, t)
    ensures ParentLeft(s, g, u) == ParentLeft(s, g, t)
  {
    hide BucketAvail, Decayed;
  }

  function HandedOut(answers: seq<Answer>): int {
    if answers == [] then 0
    else
      var last := answers[|answers| - 1];
      HandedOut(answers[..|answers| - 1]) + if last.ForAsk? then last.reply.granted else 0
  }

  /** Granting n lowers what a window has left by n; a bucket rounds its TAT up, and may lose a little more. */
  lemma KeyLeftAfter(s: State, s': State, g: GrantInput, h: GrantInput, now: int)
    requires WellFormed(g) && WellFormed(h) && SameQuota(h, g) && g.parentKey != g.key
    requires s'.vals == GrantVals(s, h, now) && 0 < Left(s, h, now)
    ensures var n := Granted(h, ReadsOf(s, h, now));
            && KeyLeft(s', g, now) <= KeyLeft(s, g, now) - n
            && (g.algo != TokenBucket ==> KeyLeft(s', g, now) == KeyLeft(s, g, now) - n)
            && (g.algo == TokenBucket ==>
                Slack(s', g, now) == Slack(s, g, now) - Ceil(Worth(n, Interval(g.rate))) as real)
  {
    GrantFits(h, ReadsOf(s, h, now));
    hide Decayed, Granted, GrantVals, BucketAvail, Avail, ChargedTat, EffectiveTat, Interval, Worth;
    var n := Granted(h, ReadsOf(s, h, now));
    if g.algo == TokenBucket {
      TatAfterAsk(s, h, now, g.key);
      BucketLeftAfter(g.limit, g.rate, TatOf(s.vals, g.key, now), n, now);
    } else {
      var w := WindowOf(now, g.win);
      CountAfterGrant(s, h, now, g.key, w);
      CountAfterGrant(s, h, now, g.key, w - 1);
      AllocAfterGrant(s, h, now, g.key, w);
    }
  }

  lemma AllocAfterGrant(s: State, g: GrantInput, now: int, base: string, w: int)
    requires WellFormed(g)
    ensures Get(GrantVals(s, g, now), Alloc(base, w), 0) == Get(s.vals, Alloc(base, w), 0)
  {}

  lemma ParentLeftAfter(s: State, s': State, g: GrantInput, h: GrantInput, now: int)
    requires WellFormed(g) && WellFormed(h) && SameQuota(h, g) && g.parentKey != g.key && g.parentKey != ""
    requires s'.vals == GrantVals(s, h, now)
    ensures ParentLeft(s', g, now) == ParentLeft(s, g, now) - Granted(h, ReadsOf(s, h, now))
  {
    hide Granted, GrantVals;
    CountAfterGrant(s, h, now, g.parentKey, WindowOf(now, g.pwin));
  }

  /** One ask of a rush: nothing, when nothing is left; otherwise at least one token, and what that leaves. */
  ghost predicate Answers(s: State, s': State, g: GrantInput, now: int, n: int)
    requires WellFormed(g)
  {
    if Left(s, g, now) <= 0 then n == 0 && s'.vals == s.vals
    else
      && 1 <= n <= Left(s, g, now)
      && KeyLeft(s', g, now) <= KeyLeft(s, g, now) - n
      && (g.algo != TokenBucket ==> KeyLeft(s', g, now) == KeyLeft(s, g, now) - n)
      && (g.algo == TokenBucket ==> Slack(s', g, now) == Slack(s, g, now) - Ceil(Worth(n, Interval(g.rate))) as real)
      && (g.parentKey != "" ==> ParentLeft(s', g, now) == ParentLeft(s, g, now) - n)
  }

  lemma AskStep(s: State, e: Event, s': State, a: Answer, g: GrantInput, now: int)
    requires Proper(e.op) && MemStep(s, e, s', a) && WellFormed(g)
    requires e.op.Ask? && SameQuota(e.op.g, g) && g.parentKey != g.key && SamePeriod(g, now, e.at)
    ensures a.ForAsk? && Answers(s, s', g, now, a.reply.granted)
    ensures e.op.g.target == 1 ==> a.reply.granted <= 1
  {
    var h := e.op.g;
    LeftIsShared(s, g, h, now, e.at);
    LeftIsShared(s', g, h, now, e.at);
    FairShare(h, ReadsOf(s, h, e.at));
    GrantFits(h, ReadsOf(s, h, e.at));
    AnswerOf(s, e, s', a);
    if 0 < Left(s, h, e.at) {
      hide Avail, Granted, GrantVals, EdgesAfter, ReadsOf, KeyAvail, Slack, Worth, Interval, MemStep, Outcome,
        SamePeriod;
      KeyLeftAfter(s, s', g, h, e.at);
      if g.parentKey != "" {
        ParentLeftAfter(s, s', g, h, e.at);
      }
    }
  }

  lemma AnswerOf(s: State, e: Event, s': State, a: Answer)
    requires Proper(e.op) && MemStep(s, e, s', a) && e.op.Ask?
    ensures var n := Granted(e.op.g, ReadsOf(s, e.op.g, e.at));
            && a.ForAsk? && a.reply.granted == n && s'.vals == GrantVals(s, e.op.g, e.at)
            && (Avail(e.op.g, ReadsOf(s, e.op.g, e.at)) <= 0 ==> s'.vals == s.vals)
  {
    hide ReadsOf, EdgesAfter, Avail, Granted, ChargedVals;
  }

  // What a rush leaves.

  /** After handing out n: windows and parents have n less; a bucket has lost at most n whole-millisecond intervals. */
  ghost predicate Reduced(s0: State, s: State, g: GrantInput, now: int, n: int)
    requires WellFormed(g)
  {
    && 0 <= n && n + Max(Left(s, g, now), 0) <= Max(Left(s0, g, now), 0)
    && (g.algo != TokenBucket ==> KeyLeft(s, g, now) == KeyLeft(s0, g, now) - n)
    && (g.algo == TokenBucket ==> Slack(s0, g, now) - (n * Ceil(Interval(g.rate))) as real <= Slack(s, g, now))
    && (g.parentKey != "" ==> ParentLeft(s, g, now) == ParentLeft(s0, g, now) - n)
  }

  lemma ReducedMore(s0: State, s: State, s': State, g: GrantInput, now: int, n: int, m: int)
    requires WellFormed(g) && Reduced(s0, s, g, now, n) && Answers(s, s', g, now, m)
    ensures Reduced(s0, s', g, now, n + m)
  {
    LeftIsLesser(s0, g, now);
    LeftIsLesser(s, g, now);
    LeftIsLesser(s', g, now);
    if Left(s, g, now) > 0 {
      hide Left, KeyLeft, ParentLeft, Slack, Interval, Worth;
      if g.algo == TokenBucket {
        CeilWorth(m, Interval(g.rate));
        assert (n + m) * Ceil(Interval(g.rate)) == n * Ceil(Interval(g.rate)) + m * Ceil(Interval(g.rate));
      }
    } else {
      SameValsLeft(s, s', g, now);
    }
  }

  lemma SameValsLeft(s: State, s': State, g: GrantInput, now: int)
    requires WellFormed(g) && s'.vals == s.vals
    ensures Left(s', g, now) == Left(s, g, now) && KeyLeft(s', g, now) == KeyLeft(s, g, now)
    ensures ParentLeft(s', g, now) == ParentLeft(s, g, now)
    ensures g.algo == TokenBucket ==> Slack(s', g, now) == Slack(s, g, now)
  {
    hide Decayed, BucketAvail;
  }

  /** While asks are answered, what was handed out and what is left never add up to more than there was. */
  lemma {:induction false} RushConserves(
    states: seq<State>, events: seq<Event>, answers: seq<Answer>, g: GrantInput, now: int, n: nat)
    requires Rush(states, events, answers, g, now) && n <= |events|
    ensures Reduced(states[0], states[n], g, now, HandedOut(answers[..n]))
    ensures Left(states[n], g, now) <= 0 || n <= HandedOut(answers[..n])
  {
    hide MemStep, Reduced, Answers, Left;
    if n == 0 {
      NothingYet(states[0], g, now);
    } else {
      RushConserves(states, events, answers, g, now, n - 1);
      var s, s', a := states[n - 1], states[n], answers[n - 1];
      assert MemStep(s, events[n - 1], s', a);
      AskStep(s, events[n - 1], s', a, g, now);
      assert answers[..n][..n - 1] == answers[..n - 1];
      ReducedMore(states[0], s, s', g, now, HandedOut(answers[..n - 1]), a.reply.granted);
      AtLeastOne(s, s', g, now, a.reply.granted);
    }
  }

  lemma NothingYet(s: State, g: GrantInput, now: int)
    requires WellFormed(g)
    ensures Reduced(s, s, g, now, 0)
  {
    hide Left, KeyLeft, ParentLeft, Slack, Interval;
  }

  lemma AtLeastOne(s: State, s': State, g: GrantInput, now: int, n: int)
    requires WellFormed(g) && Answers(s, s', g, now, n)
    ensures if Left(s, g, now) <= 0 then n == 0 && Left(s', g, now) <= 0 else 1 <= n
  {
    if Left(s, g, now) <= 0 {
      SameValsLeft(s, s', g, now);
    }
  }

  /** A bucket can give out k tokens however they are asked for: k - 1 of them at a whole-millisecond interval each,
      and a last one. */
  ghost predicate Spares(s: State, g: GrantInput, now: int, k: int)
    requires WellFormed(g)
  {
    g.algo == TokenBucket && 1 < k ==>
      ((k - 1) * Ceil(Interval(g.rate))) as real + Interval(g.rate) <= Slack(s, g, now)
  }

  /** With fewer than k of at least k tokens out, there is one left to give. */
  lemma OneIsLeft(s0: State, s: State, g: GrantInput, now: int, n: int, k: int)
    requires WellFormed(g) && Reduced(s0, s, g, now, n) && n < k <= Left(s0, g, now) && Spares(s0, g, now, k)
    ensures 1 <= Left(s, g, now)
  {
    LeftIsLesser(s0, g, now);
    LeftIsLesser(s, g, now);
    hide Left, ParentLeft;
    if g.algo == TokenBucket {
      BucketLeftIsSlack(s0, g, now);
      BucketLeftIsSlack(s, g, now);
      hide KeyLeft, Slack, Interval;
      var c := Ceil(Interval(g.rate));
      CeilPositive(Interval(g.rate));
      MulMono(n, k - 1, c);
    }
  }

  lemma BucketLeftIsSlack(s: State, g: GrantInput, now: int)
    requires WellFormed(g) && g.algo == TokenBucket
    ensures 1 <= KeyLeft(s, g, now) <==> Interval(g.rate) <= Slack(s, g, now)
  {
    hide Worth, Interval;
    var t := Interval(g.rate);
    FloorAbove(Slack(s, g, now) / t, 1);
    DivOrder(1.0, Slack(s, g, now), t);
  }

  /** However many edges ask, and however small their share, k asks hand out at least k tokens that can be spared, and
      no run of asks ever hands out more than was left. */
  lemma RushHandsOut(states: seq<State>, events: seq<Event>, answers: seq<Answer>, g: GrantInput, now: int, k: int)
    requires Rush(states, events, answers, g, now)
    requires k <= |events| && k <= Left(states[0], g, now) && Spares(states[0], g, now, k)
    ensures k <= HandedOut(answers) <= Max(Left(states[0], g, now), 0)
  {
    var n := |events|;
    RushConserves(states, events, answers, g, now, n);
    assert answers[..n] == answers;
    hide Left, Spares, Rush;
    if HandedOut(answers) < k {
      OneIsLeft(states[0], states[n], g, now, HandedOut(answers), k);
    }
  }

  // One ask at a time: the rush that loses the most to rounding.

  /** An ask for one token. */
  function UnitAsk(g: GrantInput): GrantInput {
    g.(target := 1, edge := "")
  }

  function UnitNext(s: State, g: GrantInput, now: int): State
    requires WellFormed(g)
  {
    s.(vals := GrantVals(s, UnitAsk(g), now))
  }

  lemma UnitStep(s: State, g: GrantInput, now: int)
    requires WellFormed(g)
    ensures var h := UnitAsk(g);
            && WellFormed(h) && SameQuota(h, g)
            && MemStep(s, Event(now, Ask(h)), UnitNext(s, g, now), ForAsk(Outcome(h, ReadsOf(s, h, now))))
  {
    hide GrantVals, Outcome, Avail;
  }

  lemma {:induction false} UnitRush(s: State, g: GrantInput, now: int, n: nat)
    returns (states: seq<State>, events: seq<Event>, answers: seq<Answer>)
    requires WellFormed(g) && g.parentKey != g.key
    ensures Rush(states, events, answers, g, now) && |events| == n && states[0] == s
    ensures forall i :: 0 <= i < n ==> events[i] == Event(now, Ask(UnitAsk(g)))
  {
    if n == 0 {
      states, events, answers := [s], [], [];
    } else {
      states, events, answers := UnitRush(s, g, now, n - 1);
      var last := states[n - 1];
      UnitStep(last, g, now);
      hide MemStep, WellFormed, Outcome, UnitNext;
      var h := UnitAsk(g);
      states := states + [UnitNext(last, g, now)];
      events := events + [Event(now, Ask(h))];
      answers := answers + [ForAsk(Outcome(h, ReadsOf(last, h, now)))];
    }
  }

  /** Unit asks cost a bucket a whole-millisecond interval each, so they never get a token that cannot be spared. */
  lemma {:induction false} UnitRushFalls(
    states: seq<State>, events: seq<Event>, answers: seq<Answer>, g: GrantInput, now: int, n: nat, k: int)
    requires Rush(states, events, answers, g, now) && n <= |events|
    requires forall i :: 0 <= i < |events| ==> events[i] == Event(now, Ask(UnitAsk(g)))
    requires !Spares(states[0], g, now, k)
    ensures HandedOut(answers[..n]) < k
    ensures Slack(states[n], g, now) ==
            Slack(states[0], g, now) - (HandedOut(answers[..n]) * Ceil(Interval(g.rate))) as real
  {
    hide MemStep, Left, KeyLeft, Slack, Interval, Worth;
    if n > 0 {
      UnitRushFalls(states, events, answers, g, now, n - 1, k);
      var s, s', a := states[n - 1], states[n], answers[n - 1];
      assert MemStep(s, events[n - 1], s', a);
      AskStep(s, events[n - 1], s', a, g, now);
      assert answers[..n][..n - 1] == answers[..n - 1];
      UnitFalls(states[0], s, s', g, now, HandedOut(answers[..n - 1]), a.reply.granted, k);
    }
  }

  lemma UnitFalls(s0: State, s: State, s': State, g: GrantInput, now: int, n: int, m: int, k: int)
    requires WellFormed(g) && Answers(s, s', g, now, m) && m <= 1 && n < k && !Spares(s0, g, now, k)
    requires Slack(s, g, now) == Slack(s0, g, now) - (n * Ceil(Interval(g.rate))) as real
    ensures n + m < k
    ensures Slack(s', g, now) == Slack(s0, g, now) - ((n + m) * Ceil(Interval(g.rate))) as real
  {
    BucketLeftIsSlack(s, g, now);
    LeftIsLesser(s, g, now);
    SlackOfSame(s, s', g, now);
    hide Left, KeyLeft, Slack, Interval, Worth;
    var c := Ceil(Interval(g.rate));
    CeilWorth(1, Interval(g.rate));
    assert (n + 1) * c == n * c + c;
  }

  lemma SlackOfSame(s: State, s': State, g: GrantInput, now: int)
    requires WellFormed(g) && g.algo == TokenBucket
    ensures s'.vals == s.vals ==> Slack(s', g, now) == Slack(s, g, now)
  {}

  // When all that is left can be handed out.

  /** Every rush of enough asks hands out exactly what was left. */
  ghost predicate HandsOutAll(s: State, g: GrantInput, now: int)
    requires WellFormed(g)
  {
    forall states, events, answers ::
      Rush(states, events, answers, g, now) && [s] <= states && Left(s, g, now) <= |events| ==>
        HandedOut(answers) == Max(Left(s, g, now), 0)
  }

  /** Endgame exhaustion: as many asks as there are tokens left hand out exactly those, whoever asks and for how much,
      if and only if the quota is a window, or a bucket that can spare them all: the last at its interval, the others
      at a whole-millisecond interval each. */
  lemma RushExhausts(s: State, g: GrantInput, now: int)
    requires WellFormed(g) && g.parentKey != g.key
    ensures HandsOutAll(s, g, now) <==> Spares(s, g, now, Left(s, g, now))
  {
    hide Left, Spares, Rush;
    var a := Left(s, g, now);
    if Spares(s, g, now, a) {
      forall states, events, answers | Rush(states, events, answers, g, now) && [s] <= states && a <= |events|
        ensures HandedOut(answers) == Max(a, 0)
      {
        RushHandsOut(states, events, answers, g, now, a);
        NeverNegative(states, events, answers, g, now);
      }
    } else {
      SparesFew(s, g, now, a);
      var states, events, answers := UnitRush(s, g, now, a);
      RunOf(states, events, answers, g, now);
      UnitRushFalls(states, events, answers, g, now, a, a);
      assert answers[..a] == answers;
    }
  }

  lemma SparesFew(s: State, g: GrantInput, now: int, k: int)
    requires WellFormed(g)
    ensures !Spares(s, g, now, k) ==> 1 < k
  {}

  lemma RunOf(states: seq<State>, events: seq<Event>, answers: seq<Answer>, g: GrantInput, now: int)
    requires Rush(states, events, answers, g, now)
    ensures |states| == |events| + 1 && |answers| == |events|
  {}

  lemma NeverNegative(states: seq<State>, events: seq<Event>, answers: seq<Answer>, g: GrantInput, now: int)
    requires Rush(states, events, answers, g, now)
    ensures 0 <= HandedOut(answers)
  {
    RushConserves(states, events, answers, g, now, |events|);
    assert answers[..|events|] == answers;
  }

  /** Once a rush has had as many asks as there were tokens left, every later answer is zero: all is handed out, or what
      remains of a bucket is less than a token. */
  lemma NothingAfterTheRush(states: seq<State>, events: seq<Event>, answers: seq<Answer>, g: GrantInput, now: int,
                            i: nat)
    requires Rush(states, events, answers, g, now) && Left(states[0], g, now) <= i < |events|
    ensures answers[i].ForAsk? && answers[i].reply.granted == 0
  {
    hide MemStep, Left;
    RushConserves(states, events, answers, g, now, i);
    assert MemStep(states[i], events[i], states[i + 1], answers[i]);
    AskStep(states[i], events[i], states[i + 1], answers[i], g, now);
  }

  /** Three tokens a second, three of them left: three asks for one each get two. */
  lemma BucketRoundingLosesAToken()
    ensures var g := GrantInput(TokenBucket, "k", 3, 1000, 3.0, 1, "", 2000, 1000, "", 0, 0, -1);
            && WellFormed(g) && Left(EMPTY, g, 0) == 3
            && exists states, events, answers :: Rush(states, events, answers, g, 0) && states[0] == EMPTY
                                                 && |events| == 3 && HandedOut(answers) == 2
  {
    var g := GrantInput(TokenBucket, "k", 3, 1000, 3.0, 1, "", 2000, 1000, "", 0, 0, -1);
    ThirdOfASecond(g);
    hide Left, Spares, Rush;
    var states, events, answers := UnitRush(EMPTY, g, 0, 3);
    RunOf(states, events, answers, g, 0);
    UnitRushFalls(states, events, answers, g, 0, 3, 3);
    RushHandsOut(states, events, answers, g, 0, 2);
    assert answers[..3] == answers;
  }

  lemma ThirdOfASecond(g: GrantInput)
    requires g == GrantInput(TokenBucket, "k", 3, 1000, 3.0, 1, "", 2000, 1000, "", 0, 0, -1)
    ensures WellFormed(g) && Left(EMPTY, g, 0) == 3 && Spares(EMPTY, g, 0, 2) && !Spares(EMPTY, g, 0, 3)
  {
    var t := Interval(3.0);
    assert t * 3.0 == 1000.0;
    assert Worth(3, t) == 1000.0;
    assert 333.0 < t < 334.0;
    CeilBelow(t, 334);
    CeilBelow(t, 333);
    assert TatOf(EMPTY.vals, "k", 0) == 0;
    assert Slack(EMPTY, g, 0) == 1000.0;
    FloorAbove(1000.0 / t, 3);
    FloorAbove(1000.0 / t, 4);
    DivOrder(3.0, 1000.0, t);
    DivOrder(4.0, 1000.0, t);
  }

  // Token buckets: rounding the TAT up to whole milliseconds may lose part of a token.

  lemma BucketLeftAfter(limit: int, rate: real, tat: int, n: int, now: int)
    requires rate > 0.0 && 0 <= n && now <= tat
    ensures var t := Interval(rate);
            var tat' := EffectiveTat(Some(ChargedTat(rate, tat, n)), now);
            && tat' == tat + Ceil(Worth(n, t))
            && BucketAvail(limit, t, tat', now) <= BucketAvail(limit, t, tat, now) - n
  {
    hide Interval, Worth;
    var t := Interval(rate);
    WorthNonNegative(n, t);
    var tat' := tat + Ceil(Worth(n, t));
    assert ChargedTat(rate, tat, n) == tat';
    WorthShift(now as real + Worth(limit, t) - tat as real, now as real + Worth(limit, t) - tat' as real, n, t);
  }

  /** Rounded up, n tokens take at most n rounded-up intervals. */
  lemma CeilWorth(n: int, t: real)
    requires 0 <= n && 0.0 < t
    ensures Ceil(Worth(n, t)) <= n * Ceil(t)
    ensures Ceil(Worth(1, t)) == Ceil(t)
  {
    MulOrder(t, Ceil(t) as real, n as real);
    CeilBelow(Worth(n, t), n * Ceil(t));
  }

  lemma CeilPositive(t: real)
    requires 0.0 < t
    ensures 0 < Ceil(t)
  {}

  lemma WorthNonNegative(n: int, t: real)
    requires 0 <= n && 0.0 < t
    ensures 0.0 <= Worth(n, t)
  {}

  lemma WorthShift(x: real, x': real, n: int, t: real)
    requires t > 0.0 && x' <= x - Worth(n, t)
    ensures (x' / t).Floor <= (x / t).Floor - n
    ensures x' == x - Worth(n, t) ==> (x' / t).Floor == (x / t).Floor - n
  {
    assert (x - Worth(n, t)) / t == x / t - n as real;
    MulOrder(x', x - Worth(n, t), 1.0 / t);
    assert x' / t == x' * (1.0 / t) && (x - Worth(n, t)) / t == (x - Worth(n, t)) * (1.0 / t);
    FloorShift(x / t, n);
    FloorMonotone(x' / t, x / t - n as real);
  }

  lemma FloorShift(y: real, n: int)
    ensures (y - n as real).Floor == y.Floor - n
  {}

  lemma FloorMonotone(x: real, y: real)
    requires x <= y
    ensures x.Floor <= y.Floor
  {}
}
