/** What each ledger operation changes, and leaves alone, of what the system's invariant speaks of. */
module HubSteps {
  import opened Numbers
  import opened Ledger
  import opened Grants
  import opened System
  import M = MemLedger
  import T = Traces
  import W = Windows
  import S = Sliding

  ghost predicate SameAllocs(key: string, st: M.State, st': M.State) {
    forall w :: M.Get(st'.vals, M.Alloc(key, w), 0) == M.Get(st.vals, M.Alloc(key, w), 0)
  }

  ghost predicate SameLends(key: string, st: M.State, st': M.State) {
    forall i: nat :: M.Find(st'.vals, M.LendId(key, Id(i))) == M.Find(st.vals, M.LendId(key, Id(i)))
  }

  ghost predicate SameCredits(key: string, st: M.State, st': M.State) {
    forall i: nat :: M.CreditId(key, Id(i)) in st'.deduped <==> M.CreditId(key, Id(i)) in st.deduped
  }

  ghost predicate SameReturns(key: string, st: M.State, st': M.State) {
    forall i: nat :: M.ReturnId(key, Id(i)) in st'.deduped <==> M.ReturnId(key, Id(i)) in st.deduped
  }

  ghost predicate SameTransfers(key: string, st: M.State, st': M.State) {
    SameAllocs(key, st, st') && SameLends(key, st, st') && SameCredits(key, st, st')
  }

  ghost predicate SameCounts(key: string, st: M.State, st': M.State) {
    forall w :: T.Count(st', key, w) == T.Count(st, key, w)
  }

  lemma GrantKeepsTransfers(key: string, s: M.State, g: GrantInput, now: int, s': M.State)
    requires WellFormed(g) && s'.vals == M.GrantVals(s, g, now) && s'.deduped == s.deduped
    ensures SameTransfers(key, s, s') && SameReturns(key, s, s')
  {}

  lemma ReturnKeepsTransfers(key: string, s: M.State, r: ReturnInput, now: int)
    requires WellFormedReturn(r)
    ensures SameTransfers(key, s, M.ReturnOne(s, r, now))
  {}

  /** What a grant for the quota adds to its counters. */
  lemma ServeCounts(cfg: Config, hub: Hub, g: GrantInput, now: int, st': M.State, w: int)
    requires Sensible(cfg) && Asks(cfg, hub, g) && st'.vals == M.GrantVals(hub.st, g, now)
    ensures T.Count(st', cfg.key, w) ==
            Used(cfg, hub, w) + if w == WindowOf(now, cfg.win) then Granted(g, M.ReadsOf(hub.st, g, now)) else 0
  {}

  /** A grant stays within what the region has left of what it may grant. */
  lemma ServeFits(cfg: Config, hub: Hub, g: GrantInput, now: int)
    requires Sensible(cfg) && Asks(cfg, hub, g) && (cfg.regional ==> 0 <= hub.base)
    requires forall w :: 0 <= Used(cfg, hub, w)
    ensures var w := WindowOf(now, cfg.win);
            var n := Granted(g, M.ReadsOf(hub.st, g, now));
            0 <= n && (0 < n ==> Used(cfg, hub, w) + n <= Cap(cfg, hub, w))
  {
    hide Granted, Avail, Decayed, Sharers, Sensible, M.Active, M.TatOf;
    var r := M.ReadsOf(hub.st, g, now);
    var w := WindowOf(now, cfg.win);
    W.GrantFits(g, r);
    assert r.cur == Used(cfg, hub, w) && r.prev == Used(cfg, hub, w - 1) && r.alloc == AllocOf(cfg, hub, w);
    if g.algo == SlidingWindow {
      S.DecayedBounds(r.prev, now, g.win);
    }
    assert cfg.algo != TokenBucket by { SensibleAlgo(cfg); }
  }

  lemma SensibleAlgo(cfg: Config)
    requires Sensible(cfg)
    ensures cfg.algo != TokenBucket
  {}

  /** What a return for the quota takes from its counters the first time, and that it is recorded. */
  lemma ArriveCounts(cfg: Config, hub: Hub, m: Sending, i: nat, r: ReturnInput, now: int, w: int)
    requires Sensible(cfg) && Returns(cfg, m, i, r)
    requires M.ReturnId(cfg.key, Id(i)) in hub.st.deduped <==> m.applied
    ensures T.Count(M.ReturnOne(hub.st, r, now), cfg.key, w) ==
            if !m.applied && w == m.wid == WindowOf(now, cfg.win) then Credited(Used(cfg, hub, w), m.tokens)
            else Used(cfg, hub, w)
  {}

  lemma ArriveRecords(cfg: Config, hub: Hub, m: Sending, i: nat, r: ReturnInput, now: int, j: nat)
    requires Returns(cfg, m, i, r)
    ensures M.ReturnId(cfg.key, Id(j)) in M.ReturnOne(hub.st, r, now).deduped <==>
            M.ReturnId(cfg.key, Id(j)) in hub.st.deduped || i == j
  {}

  /** Traffic on other quotas touches nothing of this one. */
  lemma ElsewhereKeeps(cfg: Config, st: M.State, e: T.Event, st': M.State, a: T.Answer)
    requires Sensible(cfg) && Elsewhere(cfg, e.op) && T.MemStep(st, e, st', a)
    ensures SameTransfers(cfg.key, st, st') && SameReturns(cfg.key, st, st') && SameCounts(cfg.key, st, st')
  {
    hide M.GrantVals, M.ReturnVals, M.LendAmount, Outcome, M.ReadsOf, M.EdgesAfter;
    match e.op
    case Ask(g) =>
      GrantKeepsTransfers(cfg.key, st, g, e.at, st');
      forall w { T.CountAfterGrant(st, g, e.at, cfg.key, w); }
    case GiveBack(r) =>
      ReturnKeepsTransfers(cfg.key, st, r, e.at);
      forall w { T.CountAfterReturn(st.vals, r, e.at, cfg.key, w); }
    case Lend(x, base, margin) =>
    case Credit(x) =>
  }

  /** Lending: the first time, allocation goes down by what is given, and what is left covers the use so far. */
  lemma LendMoves(cfg: Config, hub: Hub, loan: Loan, i: nat, now: int, w: int)
    requires Sensible(cfg) && cfg.regional && forall v :: 0 <= Used(cfg, hub, v)
    requires WindowOf(now, cfg.win) == loan.wid && M.LendId(cfg.key, Id(i)) !in hub.st.vals
    ensures var x := TransferOf(cfg, loan, i, loan.want);
            var given := M.LendAmount(hub.st, x, hub.base, 0, now);
            var hub' := hub.(st := M.LendNext(hub.st, x, hub.base, 0, now));
            && 0 <= given
            && Cap(cfg, hub', w) == Cap(cfg, hub, w) - (if w == loan.wid then given else 0)
            && (0 < given ==>
                Used(cfg, hub, loan.wid) + Kept(Used(cfg, hub, loan.wid), now, cfg.win, 0) <= Cap(cfg, hub', loan.wid))
  {}

  /** Lending records the transfer, counts nothing and credits nothing. */
  lemma LendRecords(cfg: Config, hub: Hub, loan: Loan, i: nat, now: int, j: nat)
    requires Sensible(cfg)
    ensures var x := TransferOf(cfg, loan, i, loan.want);
            var st' := M.LendNext(hub.st, x, hub.base, 0, now);
            && SameCounts(cfg.key, hub.st, st') && SameCredits(cfg.key, hub.st, st')
            && SameReturns(cfg.key, hub.st, st')
            && M.Find(st'.vals, M.LendId(cfg.key, Id(j))) ==
               if i == j && WindowOf(now, cfg.win) == loan.wid then Some(M.LendAmount(hub.st, x, hub.base, 0, now))
               else M.Find(hub.st.vals, M.LendId(cfg.key, Id(j)))
  {}

  /** Crediting: once per transfer, in its own window only. */
  lemma CreditMoves(cfg: Config, hub: Hub, loan: Loan, i: nat, given: int, now: int, w: int)
    requires Sensible(cfg) && cfg.regional
    ensures var x := TransferOf(cfg, loan, i, given);
            var hub' := hub.(st := M.CreditNext(hub.st, x, now));
            Cap(cfg, hub', w) == Cap(cfg, hub, w) + if M.Credits(hub.st, x, now) && w == loan.wid then given else 0
  {}

  lemma CreditRecords(cfg: Config, hub: Hub, loan: Loan, i: nat, given: int, now: int, j: nat)
    requires Sensible(cfg)
    ensures var x := TransferOf(cfg, loan, i, given);
            var st' := M.CreditNext(hub.st, x, now);
            && SameCounts(cfg.key, hub.st, st') && SameLends(cfg.key, hub.st, st') && SameReturns(cfg.key, hub.st, st')
            && (M.CreditId(cfg.key, Id(j)) in st'.deduped <==>
                M.CreditId(cfg.key, Id(j)) in hub.st.deduped || (i == j && M.Credits(hub.st, x, now)))
  {}
}
