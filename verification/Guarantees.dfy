/** What the system promises, for every run: over any network, with any constant clock offsets. */
module Guarantees {
  import opened Numbers
  import opened Ledger
  import opened Grants
  import opened Sums
  import opened System
  import opened EdgeSteps
  import opened Safety
  import L = Lease
  import A = Accounts
  import H = Hub
  import M = MemLedger
  import R = RegionSplit
  import T = Traces
  import HubSteps

  /** What an edge charged to requests in a window of the hub's. */
  function ChargedAt(w: int): Node -> int { (n: Node) => A.BookAt(n.edge.books, w).charged }

  /** Debt of a window that an edge settled with the hub. */
  function SettledAt(w: int): Node -> int { (n: Node) => A.BookAt(n.edge.books, w).settled }

  function KeptIn(w: int): Node -> int { (n: Node) => KeptBy(n.edge, w) }

  /** What an edge of a region charged to a window, and the tokens it still holds for it. */
  function SpentOrHeldAt(r: nat, w: int): Node -> int {
    (n: Node) => if n.region == r then A.BookAt(n.edge.books, w).charged + Max(A.Balance(n.edge, w), 0) else 0
  }

  function SettledIn(r: nat, w: int): Node -> int {
    (n: Node) => if n.region == r then A.BookAt(n.edge.books, w).settled else 0
  }

  // Adding up over regions.

  function KeptPer(nodes: seq<Node>, w: int): nat -> int { (r: nat) => SumOf(nodes, KeptAt(r, w)) }

  function CapPer(cfg: Config, hubs: seq<Hub>, w: int): nat -> int {
    (r: nat) => if r < |hubs| then Cap(cfg, hubs[r], w) else 0
  }

  function OnePer(n: Node, w: int): nat -> int { (r: nat) => KeptAt(r, w)(n) }

  lemma {:induction false} OneRegion(n: Node, w: int, regions: nat)
    ensures SumBelow(regions, OnePer(n, w)) == if n.region < regions then KeptBy(n.edge, w) else 0
  {
    if regions > 0 {
      OneRegion(n, w, regions - 1);
      assert OnePer(n, w)(regions - 1) == KeptAt(regions - 1, w)(n);
    }
  }

  lemma {:induction false} SumBelowAdds(n: nat, f: nat -> int, g: nat -> int, h: nat -> int)
    requires forall r: nat :: r < n ==> f(r) == g(r) + h(r)
    ensures SumBelow(n, f) == SumBelow(n, g) + SumBelow(n, h)
  {
    if n > 0 {
      SumBelowAdds(n - 1, f, g, h);
    }
  }

  /** Every edge is in one region. */
  lemma {:induction false} KeptByRegion(nodes: seq<Node>, w: int, regions: nat)
    requires forall i :: 0 <= i < |nodes| ==> nodes[i].region < regions
    ensures SumOf(nodes, KeptIn(w)) == SumBelow(regions, KeptPer(nodes, w))
  {
    if nodes == [] {
      SumBelowZero(regions, KeptPer(nodes, w));
    } else {
      var rest, last := nodes[..|nodes| - 1], nodes[|nodes| - 1];
      KeptByRegion(rest, w, regions);
      OneRegion(last, w, regions);
      SumBelowAdds(regions, KeptPer(nodes, w), KeptPer(rest, w), OnePer(last, w));
    }
  }

  lemma {:induction false} SumBelowZero(n: nat, f: nat -> int)
    requires forall r: nat :: r < n ==> f(r) == 0
    ensures SumBelow(n, f) == 0
  {
    if n > 0 {
      SumBelowZero(n - 1, f);
    }
  }

  lemma {:induction false} CapsByRegion(cfg: Config, hubs: seq<Hub>, w: int, n: nat)
    requires n <= |hubs|
    ensures SumBelow(n, CapPer(cfg, hubs, w)) == SumOf(hubs[..n], CapAt(cfg, w))
  {
    if n > 0 {
      CapsByRegion(cfg, hubs, w, n - 1);
      assert hubs[..n][..n - 1] == hubs[..n - 1];
    }
  }

  /** All regions together may never grant more than the quota. */
  lemma CapsWithinQuota(cfg: Config, s: Sys, w: int)
    requires Inv(cfg, s)
    ensures SumOf(s.hubs, CapAt(cfg, w)) <= cfg.quota
  {
    hide EdgesOk, AnswersOk, SendingsOk, RequestsOk, QuotesOk, RegionsOk, Cap;
    if cfg.regional {
      SumNonNegative(s.loans, TransitAt(w));
      assert SumOf(s.hubs, CapAt(cfg, w)) + SumOf(s.loans, TransitAt(w)) == cfg.quota;
    } else {
      SumOfOne(s.hubs, CapAt(cfg, w));
      CapAlone(cfg, s.hubs[0], w);
    }
  }

  lemma CapAlone(cfg: Config, hub: Hub, w: int)
    requires !cfg.regional
    ensures Cap(cfg, hub, w) == cfg.quota
  {}

  lemma SumOfOne(hubs: seq<Hub>, f: Hub -> int)
    requires |hubs| == 1
    ensures SumOf(hubs, f) == f(hubs[0])
  {}

  lemma KeptWithinQuota(cfg: Config, s: Sys, w: int)
    requires Inv(cfg, s)
    ensures SumOf(s.nodes, KeptIn(w)) <= cfg.quota
  {
    hide EdgesOk, AnswersOk, SendingsOk, RequestsOk, QuotesOk, LoansOk, QuotaSplit, SumOf, SumBelow, Cap, Used, KeptBy;
    KeptByRegion(s.nodes, w, |s.hubs|);
    CapsByRegion(cfg, s.hubs, w, |s.hubs|);
    assert s.hubs[..|s.hubs|] == s.hubs;
    CapsWithinQuota(cfg, s, w);
    forall r: nat | r < |s.hubs| ensures KeptPer(s.nodes, w)(r) <= CapPer(cfg, s.hubs, w)(r) {
      assert RegionOk(cfg, s.hubs[r], s.nodes, s.answers, s.sendings, r, w);
      CountsCover(cfg, s, r, w);
    }
    SumBelowWithin(|s.hubs|, KeptPer(s.nodes, w), CapPer(cfg, s.hubs, w));
  }

  lemma NodeCharges(cfg: Config, s: Sys, n: nat, w: int)
    requires Inv(cfg, s) && n < |s.nodes|
    ensures var b := A.BookAt(s.nodes[n].edge.books, w);
            && b.charged + Max(A.Balance(s.nodes[n].edge, w), 0) <= KeptBy(s.nodes[n].edge, w) + b.settled + cfg.bound
            && 0 <= b.settled && (cfg.bound == 0 ==> b.settled == 0)
  {
    hide A.BookAt, A.Balance, RegionsOk, LoansOk, SendingsOk, QuotaSplit;
    assert EdgeOk(cfg, n, s.nodes[n]);
    A.ChargesBounded(s.nodes[n].edge, w, cfg.bound);
    assert A.BookBalances(s.nodes[n].edge, w, cfg.bound);
  }

  /** Global safety. At any point of any run, what all edges of all regions together charged to one window of the hub's
      clock is at most the quota, plus debt already settled, plus what each edge's balance may be overdrawn by. */
  lemma GlobalSafety(cfg: Config, states: seq<Sys>, actions: seq<Action>, n: nat, w: int)
    requires Run(cfg, states, actions) && n < |states|
    ensures var nodes := states[n].nodes;
            SumOf(nodes, ChargedAt(w)) <= cfg.quota + SumOf(nodes, SettledAt(w)) + cfg.bound * |nodes|
  {
    hide Run, Inv, SumOf, A.BookAt, KeptBy;
    RunKeeps(cfg, states, actions, n);
    var s := states[n];
    forall j | 0 <= j < |s.nodes|
      ensures ChargedAt(w)(s.nodes[j]) <= KeptIn(w)(s.nodes[j]) + SettledAt(w)(s.nodes[j]) + cfg.bound
    {
      NodeCharges(cfg, s, j, w);
    }
    SumWithin(s.nodes, ChargedAt(w), KeptIn(w), SettledAt(w), cfg.bound);
    KeptWithinQuota(cfg, s, w);
  }

  /** Without charges after the fact, no window ever admits more than the quota. */
  lemma NoWindowAdmitsMoreThanQuota(cfg: Config, states: seq<Sys>, actions: seq<Action>, n: nat, w: int)
    requires Run(cfg, states, actions) && n < |states| && cfg.bound == 0
    ensures SumOf(states[n].nodes, ChargedAt(w)) <= cfg.quota
  {
    hide Run, Inv, SumOf, A.BookAt;
    RunKeeps(cfg, states, actions, n);
    GlobalSafety(cfg, states, actions, n, w);
    var nodes := states[n].nodes;
    forall j | 0 <= j < |nodes| ensures SettledAt(w)(nodes[j]) == 0 {
      NodeCharges(cfg, states[n], j, w);
    }
    SumSame(nodes, SettledAt(w), (m: Node) => 0);
    SumOfNone(nodes);
  }

  // Conservation.

  /** Lease conservation. Region by region and window by window, what edges charged, the tokens they hold, those in
      answers on their way and those in returns on their way all come out of the ledger's counter (up to debt), and
      that, less the debt added to it, is within what the region may grant. */
  lemma LeaseConservation(cfg: Config, states: seq<Sys>, actions: seq<Action>, n: nat, r: nat, w: int)
    requires Run(cfg, states, actions) && n < |states| && r < |states[n].hubs|
    ensures var s := states[n];
            var debt := SumOf(s.sendings, DebtAt(r, w));
            && SumOf(s.nodes, SpentOrHeldAt(r, w)) + SumOf(s.answers, CarriedAt(r, w)) + SumOf(s.sendings, BackAt(r, w))
               <= Used(cfg, s.hubs[r], w) - debt + SumOf(s.nodes, SettledIn(r, w)) + cfg.bound * |s.nodes|
            && Used(cfg, s.hubs[r], w) - debt <= Cap(cfg, s.hubs[r], w) <= cfg.quota
  {
    hide Run, Inv, SumOf, A.BookAt, A.Balance, KeptBy, Used, Cap;
    RunKeeps(cfg, states, actions, n);
    var s := states[n];
    forall j | 0 <= j < |s.nodes|
      ensures SpentOrHeldAt(r, w)(s.nodes[j]) <= KeptAt(r, w)(s.nodes[j]) + SettledIn(r, w)(s.nodes[j]) + cfg.bound
    {
      NodeCharges(cfg, s, j, w);
      KeptHere(s.nodes[j], r, w);
      BoundIsNat(cfg, s);
    }
    SumWithin(s.nodes, SpentOrHeldAt(r, w), KeptAt(r, w), SettledIn(r, w), cfg.bound);
    RegionHolds(cfg, s, r, w);
    OneCapWithinQuota(cfg, s, r, w);
  }

  lemma KeptHere(n: Node, r: nat, w: int)
    ensures KeptAt(r, w)(n) == if n.region == r then KeptBy(n.edge, w) else 0
  {}

  lemma BoundIsNat(cfg: Config, s: Sys)
    requires Inv(cfg, s)
    ensures 0 <= cfg.bound
  {}

  lemma RegionHolds(cfg: Config, s: Sys, r: nat, w: int)
    requires Inv(cfg, s) && r < |s.hubs|
    ensures RegionOk(cfg, s.hubs[r], s.nodes, s.answers, s.sendings, r, w)
  {}

  lemma OneCapWithinQuota(cfg: Config, s: Sys, r: nat, w: int)
    requires Inv(cfg, s) && r < |s.hubs|
    ensures Cap(cfg, s.hubs[r], w) <= cfg.quota
  {
    hide EdgesOk, AnswersOk, RequestsOk, QuotesOk, LoansOk, SendingsOk, QuotaSplit, SumOf, Used, Cap;
    CapsWithinQuota(cfg, s, w);
    forall j: nat | j < |s.hubs| ensures 0 <= CapAt(cfg, w)(s.hubs[j]) {
      CountsCover(cfg, s, j, w);
      RegionHolds(cfg, s, j, w);
    }
    SumAtLeast(s.hubs, r, CapAt(cfg, w));
  }

  /** Without charges after the fact the counter itself stays within the quota, and covers everything. */
  lemma CounterCoversAll(cfg: Config, states: seq<Sys>, actions: seq<Action>, n: nat, r: nat, w: int)
    requires Run(cfg, states, actions) && n < |states| && r < |states[n].hubs| && cfg.bound == 0
    ensures var s := states[n];
            SumOf(s.nodes, SpentOrHeldAt(r, w)) + SumOf(s.answers, CarriedAt(r, w)) + SumOf(s.sendings, BackAt(r, w))
            <= Used(cfg, s.hubs[r], w) <= Cap(cfg, s.hubs[r], w) <= cfg.quota
  {
    hide Run, Inv, SumOf, A.BookAt, A.Balance, Used, Cap;
    RunKeeps(cfg, states, actions, n);
    LeaseConservation(cfg, states, actions, n, r, w);
    var s := states[n];
    forall j | 0 <= j < |s.nodes| ensures SettledIn(r, w)(s.nodes[j]) == 0 {
      NodeCharges(cfg, s, j, w);
    }
    SumSame(s.nodes, SettledIn(r, w), (m: Node) => 0);
    SumOfNone(s.nodes);
    NoDebt(cfg, s, r, w);
  }

  lemma NoDebt(cfg: Config, s: Sys, r: nat, w: int)
    requires Inv(cfg, s) && cfg.bound == 0
    ensures SumOf(s.sendings, DebtAt(r, w)) == 0
  {
    hide EdgesOk, AnswersOk, RequestsOk, QuotesOk, LoansOk, QuotaSplit, RegionsOk, SumOf;
    SumSame(s.sendings, DebtAt(r, w), (m: Sending) => 0);
    SumOfNothing(s.sendings);
  }

  lemma {:induction false} SumOfNothing(sendings: seq<Sending>)
    ensures SumOf(sendings, (m: Sending) => 0) == 0
  {
    if sendings != [] {
      SumOfNothing(sendings[..|sendings| - 1]);
    }
  }

  // Regions.

  /** Regional allocation. In every state each region's use, less debt, is within its base plus its adjustment; and
      all regions' allocations with everything lent and not yet credited add up to the quota. */
  lemma RegionalAllocation(cfg: Config, states: seq<Sys>, actions: seq<Action>, n: nat, w: int)
    requires Run(cfg, states, actions) && n < |states| && cfg.regional
    ensures var s := states[n];
            && (forall r :: 0 <= r < |s.hubs| ==>
                  Used(cfg, s.hubs[r], w) - SumOf(s.sendings, DebtAt(r, w)) <=
                  s.hubs[r].base + AllocOf(cfg, s.hubs[r], w))
            && SumOf(s.hubs, CapAt(cfg, w)) + SumOf(s.loans, TransitAt(w)) == cfg.quota
            && 0 <= SumOf(s.loans, TransitAt(w))
  {
    hide Run, SumOf, EdgesOk, AnswersOk, RequestsOk, QuotesOk, SendingsOk;
    RunKeeps(cfg, states, actions, n);
    var s := states[n];
    forall r | 0 <= r < |s.hubs|
      ensures Used(cfg, s.hubs[r], w) - SumOf(s.sendings, DebtAt(r, w)) <= s.hubs[r].base + AllocOf(cfg, s.hubs[r], w)
    {
      CountsCover(cfg, s, r, w);
      RegionHolds(cfg, s, r, w);
    }
    SumNonNegative(s.loans, TransitAt(w));
  }

  /** A transfer acted on again, in any run: a second lend repeats the first answer, or refuses outside its window, and
      debits nothing; a credit that was made already, or comes outside its window, adds nothing. */
  lemma TransfersHappenOnce(cfg: Config, states: seq<Sys>, actions: seq<Action>, n: nat)
    requires Run(cfg, states, actions) && n < |actions|
    ensures var s, a, s' := states[n], actions[n], states[n + 1];
            Repeated(cfg, s, a) ==>
              s'.hubs == s.hubs && (a.Lend? ==> s'.quotes == s.quotes + [Quote(a.i, FirstAnswer(cfg, s, a.i))])
  {
    hide Inv, Init, Step;
    RunKeeps(cfg, states, actions, n);
    ShapeOf(cfg, states[n]);
    assert Step(cfg, states[n], actions[n], states[n + 1]);
    if Repeated(cfg, states[n], actions[n]) {
      HappensOnce(cfg, states[n], actions[n], states[n + 1]);
    }
  }

  ghost predicate InWindow(cfg: Config, s: Sys, r: nat, w: int) {
    r < |cfg.hubOffsets| && 0 < cfg.win && WindowOf(HubClock(cfg, s.now, r), cfg.win) == w
  }

  /** A lend that was recorded already, or a credit that was made already or is not in its window. */
  ghost predicate Repeated(cfg: Config, s: Sys, a: Action) {
    match a
    case Lend(i) => i < |s.loans| && s.loans[i].lent.Some?
    case Credit(j) =>
      && j < |s.quotes| && s.quotes[j].loan < |s.loans|
      && var loan := s.loans[s.quotes[j].loan]; loan.credited || !InWindow(cfg, s, loan.borrower, loan.wid)
    case _ => false
  }

  ghost function FirstAnswer(cfg: Config, s: Sys, i: nat): int {
    if i < |s.loans| && s.loans[i].lent.Some? && InWindow(cfg, s, s.loans[i].lender, s.loans[i].wid)
    then s.loans[i].lent.value else 0
  }

  lemma HappensOnce(cfg: Config, s: Sys, a: Action, s': Sys)
    requires Inv(cfg, s) && Step(cfg, s, a, s') && Repeated(cfg, s, a)
    ensures s'.hubs == s.hubs && (a.Lend? ==> s'.quotes == s.quotes + [Quote(a.i, FirstAnswer(cfg, s, a.i))])
  {
    hide EdgesOk, AnswersOk, RequestsOk, QuotesOk, RegionsOk, QuotaSplit, SendingsOk, M.LendNext, M.LendAmount;
    if a.Lend? {
      LendAgain(cfg, s, a.i, s');
    } else {
      var i := s.quotes[a.i].loan;
      var r := s.loans[i].borrower;
      assert M.CreditId(cfg.key, Id(i)) in s.hubs[r].st.deduped <==> s.loans[i].credited;
    }
  }

  /** A lend never cuts the lender below its use and what that use projects to by the window's end. */
  lemma LendKeepsWhatIsNeeded(cfg: Config, s: Sys, i: nat, s': Sys)
    requires Inv(cfg, s) && Step(cfg, s, Lend(i), s')
    ensures var loan := s.loans[i];
            var hub, hub', t := s.hubs[loan.lender], s'.hubs[loan.lender], HubClock(cfg, s.now, loan.lender);
            hub' != hub && Cap(cfg, hub', loan.wid) != Cap(cfg, hub, loan.wid) ==>
              Used(cfg, hub', loan.wid) + Kept(Used(cfg, hub', loan.wid), t, cfg.win, 0) <= Cap(cfg, hub', loan.wid)
  {
    hide EdgesOk, AnswersOk, RequestsOk, QuotesOk, RegionsOk, QuotaSplit, SendingsOk, LoansOk, M.LendNext, M.LendAmount,
      Used, Cap, Kept;
    var loan := s.loans[i];
    var t := HubClock(cfg, s.now, loan.lender);
    LendCounts(cfg, s, i, s', loan.wid);
    if WindowOf(t, cfg.win) == loan.wid && loan.lent == None {
      forall w { CountsCover(cfg, s, loan.lender, w); }
      NotYetLent(cfg, s, i);
      HubSteps.LendMoves(cfg, s.hubs[loan.lender], loan, i, t, loan.wid);
    } else {
      LendAgain(cfg, s, i, s');
    }
  }

  lemma NotYetLent(cfg: Config, s: Sys, i: nat)
    requires Inv(cfg, s) && i < |s.loans| && s.loans[i].lent == None
    ensures M.LendId(cfg.key, Id(i)) !in s.hubs[s.loans[i].lender].st.vals
  {}

  /** The regions' own split of a quota is one the system starts from. */
  lemma SplitIsSensible(score: R.Score, q: int, floors: map<string, real>, subject: string, names: seq<string>,
                        bases: seq<int>)
    requires floors.Keys != {} && 0 <= q && names == R.NamesOf(floors.Keys) && R.SumShares(floors, names) <= 1.0
    requires |bases| == |names|
    requires forall i :: 0 <= i < |names| ==> bases[i] == R.BaseOf(score, q, floors, names[i], subject)
    ensures SumOf(bases, (b: int) => b) == q && forall b :: b in bases ==> 0 <= b
  {
    hide R.BaseOf, R.IsHome;
    R.BasesSumToQuota(score, q, floors, subject);
    BasesAddUp(score, q, floors, subject, names, bases);
    forall b | b in bases ensures 0 <= b {
      var i :| 0 <= i < |bases| && bases[i] == b;
      R.BasesNonNegative(score, q, floors, names[i], subject);
    }
  }

  lemma {:induction false} BasesAddUp(
    score: R.Score, q: int, floors: map<string, real>, subject: string, names: seq<string>, bases: seq<int>)
    requires |bases| == |names|
    requires forall i :: 0 <= i < |names| ==> bases[i] == R.BaseOf(score, q, floors, names[i], subject)
    ensures SumOf(bases, (b: int) => b) == R.SumBases(score, q, floors, subject, names)
  {
    hide R.BaseOf;
    if names != [] {
      BasesAddUp(score, q, floors, subject, names[..|names| - 1], bases[..|bases| - 1]);
    }
  }

  // Clocks.

  /** Clock independence. Whatever the clocks' offsets and the delays, in every run a token is only ever spent before
      the window named by the balance it is in has ended on the hub's own clock. */
  lemma ClockIndependence(cfg: Config, states: seq<Sys>, actions: seq<Action>, i: nat)
    requires Run(cfg, states, actions) && i < |actions| && actions[i].Spend? && actions[i].step.Take?
    ensures var s, n, take := states[i], actions[i].node, actions[i].step;
            && n < |s.nodes| && s.nodes[n].region < |cfg.hubOffsets|
            && (L.Admits(s.nodes[n].edge.c, take.cost, take.now) ==>
                  HubClock(cfg, s.now, s.nodes[n].region) < (s.nodes[n].edge.c.win + 1) * cfg.win)
  {
    hide Inv, Init;
    RunKeeps(cfg, states, actions, i);
    ShapeOf(cfg, states[i]);
    assert Step(cfg, states[i], actions[i], states[i + 1]);
    SpentInTime(cfg, states[i], actions[i].node, actions[i].step);
  }

  lemma SpentInTime(cfg: Config, s: Sys, n: nat, take: L.Step)
    requires Inv(cfg, s) && n < |s.nodes| && take.Take? && 1 <= take.cost && take.now == EdgeClock(cfg, s.now, n)
    ensures L.Admits(s.nodes[n].edge.c, take.cost, take.now) ==>
              HubClock(cfg, s.now, s.nodes[n].region) < (s.nodes[n].edge.c.win + 1) * cfg.win
  {}

  /** One step never moves an edge's counter to an earlier window. */
  lemma StepKeepsWindow(cfg: Config, s: Sys, a: Action, s': Sys, n: nat)
    requires Inv(cfg, s) && Step(cfg, s, a, s') && n < |s.nodes|
    ensures n < |s'.nodes| && s.nodes[n].edge.c.win <= s'.nodes[n].edge.c.win
  {
    hide AnswersOk, RequestsOk, QuotesOk, RegionsOk, QuotaSplit, SendingsOk, LoansOk, EdgesOk, L.Apply, A.Next,
      M.ReturnOne, M.LendNext, M.LendAmount, M.CreditNext, T.MemStep, Outcome, H.ResponseOf;
    var step := match a
      case Spend(_, step) => step
      case Drain(m) => L.GiveBack(EdgeClock(cfg, s.now, m))
      case Deliver(i, jitter) =>
        L.Accept(s.answers[i].resp, s.answers[i].sent, EdgeClock(cfg, s.now, s.answers[i].node), jitter)
      case _ => L.Consume(0);
    A.NextCounter(s.nodes[n].edge, step);
    WindowOnlyGrows(s.nodes[n].edge.c, step);
  }

  lemma WindowOnlyGrows(c: L.Counter, step: L.Step)
    ensures c.win <= L.Apply(c, step).win
  {}

  /** Over a run an edge's window never decreases. */
  lemma {:induction false} WindowsNeverGoBack(cfg: Config, states: seq<Sys>, actions: seq<Action>, i: nat, j: nat,
                                              n: nat)
    requires Run(cfg, states, actions) && i <= j < |states| && n < |states[i].nodes|
    ensures n < |states[j].nodes| && states[i].nodes[n].edge.c.win <= states[j].nodes[n].edge.c.win
    decreases j
  {
    hide Inv, Step, Init, Shape;
    if i < j {
      WindowsNeverGoBack(cfg, states, actions, i, j - 1, n);
      RunKeeps(cfg, states, actions, j - 1);
      ShapeOf(cfg, states[j - 1]);
      assert Step(cfg, states[j - 1], actions[j - 1], states[j]);
      StepKeepsWindow(cfg, states[j - 1], actions[j - 1], states[j], n);
    }
  }

  // Windows that have started.

  function HubWindow(cfg: Config, now: int, r: nat): int
    requires 0 < cfg.win && r < |cfg.hubOffsets|
  {
    WindowOf(HubClock(cfg, now, r), cfg.win)
  }

  /** No edge, answer or return names a window that its hub has not entered. */
  ghost predicate Started(cfg: Config, s: Sys) {
    && Sensible(cfg) && Shape(cfg, s)
    && (forall n :: 0 <= n < |s.nodes| ==> s.nodes[n].edge.c.win <= HubWindow(cfg, s.now, s.nodes[n].region))
    && (forall i :: 0 <= i < |s.answers| ==> s.answers[i].resp.win <= HubWindow(cfg, s.now, s.answers[i].region))
    && (forall i :: 0 <= i < |s.sendings| ==> s.sendings[i].wid <= HubWindow(cfg, s.now, s.sendings[i].region))
  }

  lemma WindowAfter(e: A.Edge, step: L.Step)
    ensures A.Next(e, step).c.win == if step.Accept? && e.c.win < step.resp.win then step.resp.win else e.c.win
  {
    hide A.Post, A.Entry;
  }

  lemma TickKeepsStarted(cfg: Config, s: Sys, to: int)
    requires Started(cfg, s) && s.now <= to
    ensures Started(cfg, s.(now := to))
  {
    hide WindowOf;
    forall r: nat | r < |cfg.hubOffsets| ensures HubWindow(cfg, s.now, r) <= HubWindow(cfg, to, r) {
      WindowMonotone(HubClock(cfg, s.now, r), HubClock(cfg, to, r), cfg.win);
    }
  }

  lemma ServeKeepsStarted(cfg: Config, s: Sys, q: nat, g: GrantInput, s': Sys)
    requires Started(cfg, s) && Moves(cfg, s, Serve(q, g), s') && Shape(cfg, s')
    ensures Started(cfg, s')
  {
    hide T.MemStep, Outcome, H.ResponseOf, WindowOf, M.ReadsOf, WellFormed;
    var r := s.nodes[s.requests[q].node].region;
    ReplyReports(g, M.ReadsOf(s.hubs[r].st, g, HubClock(cfg, s.now, r)));
    RespWindow(ReplyTo(cfg, s, r, g));
  }

  /** A step at an edge that brings no window from the future. */
  lemma EdgeKeepsStarted(cfg: Config, s: Sys, n: nat, step: L.Step)
    requires Started(cfg, s) && n < |s.nodes|
    requires step.Accept? ==> step.resp.win <= HubWindow(cfg, s.now, s.nodes[n].region)
    ensures Started(cfg, s.(nodes := Stepped(s.nodes, n, step)))
  {
    hide A.Next, HubWindow;
    WindowAfter(s.nodes[n].edge, step);
  }

  lemma DeliverKeepsStarted(cfg: Config, s: Sys, i: nat, jitter: int, s': Sys)
    requires Started(cfg, s) && Moves(cfg, s, Deliver(i, jitter), s') && Shape(cfg, s')
    ensures Started(cfg, s')
  {
    hide A.Next, HubWindow, Sensible;
    var m := s.answers[i];
    EdgeKeepsStarted(cfg, s, m.node, L.Accept(m.resp, m.sent, EdgeClock(cfg, s.now, m.node), jitter));
  }

  lemma DrainKeepsStarted(cfg: Config, s: Sys, n: nat, s': Sys)
    requires Started(cfg, s) && Moves(cfg, s, Drain(n), s') && Shape(cfg, s')
    ensures Started(cfg, s')
  {
    hide A.Next, HubWindow, L.Returnable, Sensible;
    EdgeKeepsStarted(cfg, s, n, L.GiveBack(EdgeClock(cfg, s.now, n)));
  }

  lemma ArriveKeepsStarted(cfg: Config, s: Sys, i: nat, ri: ReturnInput, s': Sys)
    requires Started(cfg, s) && Moves(cfg, s, Arrive(i, ri), s') && Shape(cfg, s')
    ensures Started(cfg, s')
  {
    hide HubWindow, M.ReturnOne, WellFormedReturn, Sensible;
  }

  /** An action that leaves edges, answers, returns and the clock alone, or loses an answer. */
  lemma SameKeepsStarted(cfg: Config, s: Sys, s': Sys)
    requires Started(cfg, s) && Shape(cfg, s') && s'.now == s.now && s'.nodes == s.nodes && s'.sendings == s.sendings
    requires forall m :: m in s'.answers ==> m in s.answers
    ensures Started(cfg, s')
  {
    hide HubWindow;
    forall i | 0 <= i < |s'.answers| ensures s'.answers[i].resp.win <= HubWindow(cfg, s'.now, s'.answers[i].region) {
      assert s'.answers[i] in s.answers;
    }
  }

  lemma StepKeepsStarted(cfg: Config, s: Sys, a: Action, s': Sys)
    requires Started(cfg, s) && Moves(cfg, s, a, s') && Shape(cfg, s')
    ensures Started(cfg, s')
  {
    hide Started, Sensible, Shape, A.Next, L.Returnable, M.ReturnOne, M.LendNext, M.LendAmount, M.CreditNext, T.MemStep,
      Outcome, H.ResponseOf, Elsewhere, Returns, Asks;
    match a
    case Tick(to) => TickKeepsStarted(cfg, s, to);
    case Serve(q, g) => ServeKeepsStarted(cfg, s, q, g, s');
    case Deliver(i, jitter) => DeliverKeepsStarted(cfg, s, i, jitter, s');
    case Spend(n, step) => EdgeKeepsStarted(cfg, s, n, step);
    case Drain(n) => DrainKeepsStarted(cfg, s, n, s');
    case Arrive(i, ri) => ArriveKeepsStarted(cfg, s, i, ri, s');
    case _ => SameKeepsStarted(cfg, s, s');
  }

  lemma RespWindow(a: Reply)
    ensures H.ResponseOf(a).win == a.wid
  {}

  /** In every run, returns never name a window that has not started on their hub's clock, when they leave and so
      whenever they arrive. */
  lemma {:induction false} ReturnsNameStartedWindows(cfg: Config, states: seq<Sys>, actions: seq<Action>, n: nat)
    requires Run(cfg, states, actions) && n < |states|
    ensures Started(cfg, states[n])
  {
    RunKeeps(cfg, states, actions, n);
    ShapeOf(cfg, states[n]);
    if n == 0 {
      FreshIsStarted(cfg, states[0]);
    } else {
      hide Inv, Step, Init, Started;
      ReturnsNameStartedWindows(cfg, states, actions, n - 1);
      StartedShape(cfg, states[n - 1]);
      assert Step(cfg, states[n - 1], actions[n - 1], states[n]);
      StepMoves(cfg, states[n - 1], actions[n - 1], states[n]);
      StepKeepsStarted(cfg, states[n - 1], actions[n - 1], states[n]);
    }
  }

  lemma StepMoves(cfg: Config, s: Sys, a: Action, s': Sys)
    requires Sensible(cfg) && Shape(cfg, s) && Step(cfg, s, a, s')
    ensures Moves(cfg, s, a, s')
  {}

  lemma StartedShape(cfg: Config, s: Sys)
    requires Started(cfg, s)
    ensures Sensible(cfg) && Shape(cfg, s)
  {}

  lemma FreshIsStarted(cfg: Config, s: Sys)
    requires Init(cfg, s)
    ensures Started(cfg, s)
  {
    forall r: nat | r < |cfg.hubOffsets| ensures 0 <= HubWindow(cfg, s.now, r) {
      WindowBounds(HubClock(cfg, s.now, r), cfg.win);
    }
  }
}
