/** The token bucket's rate bound: the virtual-scheduling form of GCRA, with whole-millisecond TATs. */
module Bucket {
  import opened Numbers
  import opened Ledger
  import opened Grants
  import opened MemLedger
  import opened Traces
  import opened Windows

  /** Tokens that leave the bucket for good in one step: granted, less those a return that counts brings back. */
  function Net(s: State, e: Event, base: string): int
    requires Proper(e.op)
  {
    match e.op
    case Ask(g) => if g.key == base && g.algo == TokenBucket then Granted(g, ReadsOf(s, g, e.at)) else 0
    case GiveBack(r) =>
      if r.key == base && r.algo == TokenBucket && (r.dedupe == "" || ReturnId(r.key, r.dedupe) !in s.deduped)
      then -r.tokens else 0
    case Lend(_, _, _) => 0
    case Credit(_) => 0
  }

  /** Net tokens over events[i..j]. */
  function NetOver(states: seq<State>, events: seq<Event>, base: string, i: nat, j: nat): int
    requires i <= j <= |events| && |states| == |events| + 1
    requires forall k :: 0 <= k < |events| ==> Proper(events[k].op)
  {
    if i == j then 0 else NetOver(states, events, base, i, j - 1) + Net(states[j - 1], events[j - 1], base)
  }

  ghost predicate Refills(op: Op, base: string, rate: real) {
    match op
    case Ask(g) => g.key == base && g.algo == TokenBucket ==> g.rate == rate
    case GiveBack(r) => r.key == base && r.algo == TokenBucket ==> r.rate == rate
    case Lend(_, _, _) => true
    case Credit(_) => true
  }

  /** Every step moves the TAT by at least the net tokens' worth of time: rounding and clamping only push it later. */
  lemma StepMovesTat(s: State, e: Event, s': State, a: Answer, base: string, rate: real)
    requires Proper(e.op) && MemStep(s, e, s', a) && rate > 0.0 && Refills(e.op, base, rate)
    ensures TatOf(s'.vals, base, e.at) as real >=
            TatOf(s.vals, base, e.at) as real + Worth(Net(s, e, base), Interval(rate))
  {
    hide Granted, Avail, ReadsOf, LendAmount, Interval, WellFormed, WellFormedReturn, Worth;
    WorthOfNone(Interval(rate));
    match e.op
    case Ask(g) =>
      var n := Granted(g, ReadsOf(s, g, e.at));
      TatAfterAsk(s, g, e.at, base);
      if g.key == base && g.algo == TokenBucket && Avail(g, ReadsOf(s, g, e.at)) > 0 {
        assert s'.vals[Tat(base)] == ChargedTat(rate, TatOf(s.vals, base, e.at), n);
      }
    case GiveBack(r) =>
      if Net(s, e, base) != 0 {
        assert Find(s'.vals, Tat(base)) == Some(RefundedTat(rate, TatOf(s.vals, base, e.at), r.tokens, e.at));
        WorthAdds(r.tokens, -r.tokens, Interval(rate));
      } else {
        TatAfterReturn(s, r, e.at, base, rate);
      }
    case Lend(_, _, _) =>
    case Credit(_) =>
  }

  lemma TatAfterAsk(s: State, g: GrantInput, now: int, base: string)
    requires WellFormed(g)
    ensures var n := Granted(g, ReadsOf(s, g, now));
            Find(GrantVals(s, g, now), Tat(base)) ==
            if g.key == base && g.algo == TokenBucket && Avail(g, ReadsOf(s, g, now)) > 0
            then Some(ChargedTat(g.rate, TatOf(s.vals, base, now), n))
            else Find(s.vals, Tat(base))
  {}

  lemma TatAfterReturn(s: State, r: ReturnInput, now: int, base: string, rate: real)
    requires WellFormedReturn(r) && rate > 0.0 && (r.key == base && r.algo == TokenBucket ==> r.rate == rate)
    requires Net(s, Event(now, GiveBack(r)), base) == 0
    ensures TatOf(ReturnOne(s, r, now).vals, base, now) == TatOf(s.vals, base, now)
  {}

  lemma WorthWithin(n: int, slack: real, t: real)
    requires t > 0.0 && n as real <= slack / t
    ensures Worth(n, t) <= slack
  {}

  /** A grant is made only while the TAT it leads to, before rounding, is within the burst of the clock. */
  lemma GrantWithinBurst(g: GrantInput, r: Reads)
    requires WellFormed(g) && 1 <= r.active && g.algo == TokenBucket && Granted(g, r) > 0
    ensures r.tat as real + Worth(Granted(g, r), Interval(g.rate))
            <= r.now as real + Worth(g.limit, Interval(g.rate))
  {
    GrantFits(g, r);
    hide Granted, Interval, Sharers, Worth;
    var t, n := Interval(g.rate), Granted(g, r);
    var slack := r.now as real + Worth(g.limit, t) - r.tat as real;
    FloorAbove(slack / t, n);
    WorthWithin(n, slack, t);
  }

  lemma TatGrows(s: State, base: string, t: int, t': int)
    requires t <= t'
    ensures t <= TatOf(s.vals, base, t) <= TatOf(s.vals, base, t')
  {}

  /** Over any stretch of a run the TAT has moved at least as far as the clock's start plus the net tokens' time. */
  lemma {:induction false} TatAfterRun(
    states: seq<State>, events: seq<Event>, answers: seq<Answer>, base: string, rate: real, i: nat, j: nat)
    requires MemRun(states, events, answers) && i <= j < |events| && rate > 0.0
    requires forall k :: 0 <= k < |events| ==> Refills(events[k].op, base, rate)
    ensures TatOf(states[j].vals, base, events[j].at) as real
            >= events[i].at as real + Worth(NetOver(states, events, base, i, j), Interval(rate))
  {
    hide Interval, Net, MemStep, Refills, TatOf, Worth;
    if i == j {
      TatGrows(states[j], base, events[j].at, events[j].at);
      WorthOfNone(Interval(rate));
    } else {
      TatAfterRun(states, events, answers, base, rate, i, j - 1);
      var e := events[j - 1];
      assert Refills(e.op, base, rate);
      assert MemStep(states[j - 1], e, states[j], answers[j - 1]);
      StepMovesTat(states[j - 1], e, states[j], answers[j - 1], base, rate);
      var before, last := NetOver(states, events, base, i, j - 1), Net(states[j - 1], e, base);
      TatGrows(states[j], base, e.at, events[j].at);
      WorthAdds(before, last, Interval(rate));
    }
  }

  /** The tokens a bucket refills in ms milliseconds. */
  function Refill(rate: real, ms: int): real {
    rate * ms as real / 1000.0
  }

  lemma RefillGrows(rate: real, a: int, b: int)
    requires rate > 0.0 && a <= b
    ensures Refill(rate, a) <= Refill(rate, b)
    ensures 0 <= a ==> 0.0 <= Refill(rate, a)
  {}

  lemma NetOfAsk(s: State, e: Event, base: string, rate: real)
    requires Proper(e.op) && Refills(e.op, base, rate) && 0 < Net(s, e, base)
    requires e.op.GiveBack? ==> 0 <= e.op.r.tokens
    ensures e.op.Ask? && e.op.g.key == base && e.op.g.algo == TokenBucket && e.op.g.rate == rate
    ensures var r := ReadsOf(s, e.op.g, e.at);
            && Net(s, e, base) == Granted(e.op.g, r)
            && r.tat == TatOf(s.vals, base, e.at)
  {
    hide Granted;
  }

  /** GCRA: between any two instants of any run, the tokens granted less those returned, measured at a grant, are at
      most the burst plus the rate times the time between them. */
  lemma RateBound(
    states: seq<State>, events: seq<Event>, answers: seq<Answer>, base: string, limit: int, rate: real, i: nat, j: nat)
    requires MemRun(states, events, answers) && i <= j < |events| && rate > 0.0
    requires forall k :: 0 <= k < |events| ==> Refills(events[k].op, base, rate)
    requires events[j].op.Ask? && events[j].op.g.key == base && events[j].op.g.algo == TokenBucket
    requires events[j].op.g.limit == limit && Net(states[j], events[j], base) > 0
    ensures NetOver(states, events, base, i, j + 1) as real
            <= limit as real + Refill(rate, events[j].at - events[i].at)
  {
    hide MemStep, TatOf, Interval, Granted, Refills, ReadsOf, Net, Worth, Refill;
    var g, r := events[j].op.g, ReadsOf(states[j], events[j].op.g, events[j].at);
    assert Refills(events[j].op, base, rate);
    NetOfAsk(states[j], events[j], base, rate);
    TatAfterRun(states, events, answers, base, rate, i, j);
    GrantWithinBurst(g, r);
    var before, n, span := NetOver(states, events, base, i, j), Granted(g, r), events[j].at - events[i].at;
    BoundFromTime(before, n, limit, span, rate);
  }

  lemma BoundFromTime(before: int, n: int, limit: int, span: int, rate: real)
    requires rate > 0.0
    requires Worth(before, Interval(rate)) + Worth(n, Interval(rate)) <= span as real + Worth(limit, Interval(rate))
    ensures (before + n) as real <= limit as real + Refill(rate, span)
  {}

  /** A bucket of one rate and burst to which only unspent tokens are returned, never debt. */
  ghost predicate Steady(op: Op, base: string, limit: int, rate: real) {
    && Refills(op, base, rate)
    && (op.Ask? && op.g.key == base ==> op.g.limit == limit)
    && (op.GiveBack? ==> 0 <= op.r.tokens)
  }

  /** Without debt returns the same bound holds between any two instants, whatever happened last. */
  lemma {:induction false} RateBoundAnywhere(
    states: seq<State>, events: seq<Event>, answers: seq<Answer>, base: string, limit: int, rate: real, i: nat, j: nat)
    requires MemRun(states, events, answers) && i <= j < |events| && rate > 0.0 && 0 <= limit
    requires forall k :: 0 <= k < |events| ==> Steady(events[k].op, base, limit, rate)
    ensures NetOver(states, events, base, i, j + 1) as real
            <= limit as real + Refill(rate, events[j].at - events[i].at)
    decreases j
  {
    hide Net, MemStep, Refill, Refills;
    var e := events[j];
    assert Steady(e.op, base, limit, rate);
    if Net(states[j], e, base) > 0 {
      NetOfAsk(states[j], e, base, rate);
      RateBound(states, events, answers, base, limit, rate, i, j);
    } else if j == i {
      assert NetOver(states, events, base, i, i) == 0;
      RefillGrows(rate, 0, 0);
    } else {
      RateBoundAnywhere(states, events, answers, base, limit, rate, i, j - 1);
      RefillGrows(rate, events[j - 1].at - events[i].at, e.at - events[i].at);
    }
  }
}
