/** What the window counters keep over every run: no window over its quota, and no burst across a roll. */
module Windows {
  import opened Ledger
  import opened Grants
  import opened MemLedger
  import opened Traces

  /** A grant is between one token and all that is left, for the quota and for its parent. */
  lemma GrantFits(g: GrantInput, r: Reads)
    requires WellFormed(g) && 1 <= r.active
    ensures Avail(g, r) > 0 ==> 1 <= Granted(g, r) <= Avail(g, r)
    ensures Avail(g, r) <= KeyAvail(g, r)
    ensures g.parentKey != "" ==> Avail(g, r) <= g.plimit - r.pused
  {}

  /** Splitting a tokens between n edges gives each at least one and no more than a. */
  lemma CeilShare(a: int, n: int)
    requires 1 <= a && 1 <= n
    ensures 1 <= (a + n - 1) / n <= a
    ensures ((a + n - 1) / n - 1) * n < a <= (a + n - 1) / n * n
  {}

  /** How an operation that touches base's counters must agree with a quota of limit per win. */
  ghost predicate Fixed(op: Op, base: string, limit: int, win: int) {
    match op
    case Ask(g) =>
      && (g.key == base ==> g.algo == FixedWindow && g.limit == limit && g.win == win && g.allocBase == -1)
      && (g.parentKey == base ==> g.plimit == limit && g.pwin == win)
      && !(g.key == base && g.parentKey == base)
    case GiveBack(r) => r.key == base || r.parentKey == base ==> 0 <= r.tokens && r.key != r.parentKey
    case Lend(_, _, _) => true
    case Credit(_) => true
  }

  ghost predicate WithinQuota(s: State, base: string, limit: int) {
    forall w :: 0 <= Count(s, base, w) <= limit
  }

  lemma FixedGrantKeeps(s: State, g: GrantInput, now: int, base: string, limit: int, win: int)
    requires WellFormed(g) && base != "" && WithinQuota(s, base, limit) && Fixed(Ask(g), base, limit, win)
    ensures forall w :: 0 <= Get(GrantVals(s, g, now), Counter(base, w), 0) <= limit
  {
    hide Granted, Sharers, GrantVals;
    var r := ReadsOf(s, g, now);
    GrantFits(g, r);
    forall w ensures 0 <= Get(GrantVals(s, g, now), Counter(base, w), 0) <= limit {
      CountAfterGrant(s, g, now, base, w);
      assert 0 <= Count(s, base, w) <= limit;
    }
  }

  lemma FixedReturnKeeps(s: State, r: ReturnInput, now: int, base: string, limit: int, win: int)
    requires WellFormedReturn(r) && base != "" && WithinQuota(s, base, limit) && Fixed(GiveBack(r), base, limit, win)
    ensures WithinQuota(ReturnOne(s, r, now), base, limit)
  {
    hide ReturnVals, WellFormedReturn;
    forall w ensures 0 <= Get(ReturnVals(s.vals, r, now), Counter(base, w), 0) <= limit {
      CountAfterReturn(s.vals, r, now, base, w);
      assert 0 <= Count(s, base, w) <= limit;
    }
  }

  /** The main claim for one ledger: in every run, no window of a fixed quota, or of an organisation's budget,
      ever has more granted than its limit. */
  lemma {:induction false} NoWindowOverQuota(
    states: seq<State>, events: seq<Event>, answers: seq<Answer>, base: string, limit: int, win: int, n: nat)
    requires MemRun(states, events, answers) && states[0] == EMPTY && base != "" && 0 <= limit && n <= |events|
    requires forall i :: 0 <= i < |events| ==> Fixed(events[i].op, base, limit, win)
    ensures WithinQuota(states[n], base, limit)
  {
    if n == 0 {
    } else {
      NoWindowOverQuota(states, events, answers, base, limit, win, n - 1);
      var s, e, s' := states[n - 1], events[n - 1], states[n];
      assert MemStep(s, e, s', answers[n - 1]) && Fixed(e.op, base, limit, win);
      match e.op
      case Ask(g) => FixedGrantKeeps(s, g, e.at, base, limit, win);
      case GiveBack(r) => FixedReturnKeeps(s, r, e.at, base, limit, win);
      case Lend(x, from, margin) =>
        forall w { CountAfterTransfer(s, x, from, margin, e.at, base, w); }
      case Credit(x) =>
        forall w { CountAfterTransfer(s, x, 0, 0, e.at, base, w); }
    }
  }
}
