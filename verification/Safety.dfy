/** The system's invariant holds in every reachable state, whatever the network does. */
module Safety {
  import opened Numbers
  import opened Ledger
  import opened Grants
  import opened Sums
  import opened System
  import opened HubSteps
  import opened EdgeSteps
  import M = MemLedger
  import T = Traces
  import L = Lease
  import A = Accounts
  import H = Hub

  lemma InitHolds(cfg: Config, s: Sys)
    requires Init(cfg, s)
    ensures Inv(cfg, s)
  {
    A.NewEdgeBalances(cfg.bound);
    InitRegions(cfg, s);
    InitSplit(cfg, s);
  }

  lemma InitRegions(cfg: Config, s: Sys)
    requires Init(cfg, s)
    ensures RegionsOk(cfg, s)
  {
    forall r: nat, w | r < |s.hubs| ensures RegionOk(cfg, s.hubs[r], s.nodes, s.answers, s.sendings, r, w) {
      SumSame(s.nodes, KeptAt(r, w), (n: Node) => 0);
      SumOfNone(s.nodes);
      if cfg.regional {
        assert cfg.bases[r] in cfg.bases;
      }
    }
  }

  lemma {:induction false} SumOfNone(nodes: seq<Node>)
    ensures SumOf(nodes, (n: Node) => 0) == 0
  {
    if nodes != [] {
      SumOfNone(nodes[..|nodes| - 1]);
    }
  }

  lemma InitSplit(cfg: Config, s: Sys)
    requires Init(cfg, s)
    ensures QuotaSplit(cfg, s.hubs, s.loans)
  {
    if cfg.regional {
      forall w ensures SumOf(s.hubs, CapAt(cfg, w)) == cfg.quota {
        SumOfBases(s.hubs, cfg.bases, CapAt(cfg, w));
      }
    }
  }

  lemma {:induction false} SumOfBases(hubs: seq<Hub>, bases: seq<int>, f: Hub -> int)
    requires |hubs| == |bases| && forall r :: 0 <= r < |hubs| ==> f(hubs[r]) == bases[r]
    ensures SumOf(hubs, f) == SumOf(bases, (b: int) => b)
  {
    if hubs != [] {
      SumOfBases(hubs[..|hubs| - 1], bases[..|bases| - 1], f);
    }
  }

  // What follows from the invariant.

  /** A region's counter covers everything it is accounted for; in particular it is never negative. */
  lemma CountsCover(cfg: Config, s: Sys, r: nat, w: int)
    requires Inv(cfg, s) && r < |s.hubs|
    ensures 0 <= SumOf(s.nodes, KeptAt(r, w)) && 0 <= SumOf(s.answers, CarriedAt(r, w))
    ensures 0 <= SumOf(s.sendings, BackAt(r, w)) && 0 <= SumOf(s.sendings, DebtAt(r, w))
    ensures 0 <= Used(cfg, s.hubs[r], w)
  {
    hide EdgesOk, LoansOk, QuotaSplit, AnswersOk, RequestsOk, Used, Cap;
    forall j: nat | j < |s.nodes| ensures 0 <= KeptAt(r, w)(s.nodes[j]) {
      KeptIsNat(cfg, s.nodes, j, w);
    }
    SumNonNegative(s.nodes, KeptAt(r, w));
    SumNonNegative(s.answers, CarriedAt(r, w));
    SumNonNegative(s.sendings, BackAt(r, w));
    SumNonNegative(s.sendings, DebtAt(r, w));
    assert RegionOk(cfg, s.hubs[r], s.nodes, s.answers, s.sendings, r, w);
  }

  // Hubs change one at a time.

  lemma SendingsKept(cfg: Config, hubs: seq<Hub>, r: nat, st: M.State, sendings: seq<Sending>)
    requires r < |hubs| && SendingsOk(cfg, hubs, sendings) && SameReturns(cfg.key, hubs[r].st, st)
    ensures SendingsOk(cfg, hubs[r := hubs[r].(st := st)], sendings)
  {}

  lemma LoansKept(cfg: Config, hubs: seq<Hub>, r: nat, st: M.State, loans: seq<Loan>)
    requires r < |hubs| && LoansOk(cfg, hubs, loans) && SameLends(cfg.key, hubs[r].st, st)
    requires SameCredits(cfg.key, hubs[r].st, st)
    ensures LoansOk(cfg, hubs[r := hubs[r].(st := st)], loans)
  {}

  lemma SplitKept(cfg: Config, hubs: seq<Hub>, r: nat, st: M.State, loans: seq<Loan>)
    requires r < |hubs| && QuotaSplit(cfg, hubs, loans) && SameAllocs(cfg.key, hubs[r].st, st)
    ensures QuotaSplit(cfg, hubs[r := hubs[r].(st := st)], loans)
  {
    hide SumOf, M.Get;
    var hub' := hubs[r].(st := st);
    if cfg.regional {
      forall w ensures SumOf(hubs[r := hub'], CapAt(cfg, w)) + SumOf(loans, TransitAt(w)) == cfg.quota {
        SumUpdate(hubs, r, hub', CapAt(cfg, w));
        assert M.Get(st.vals, M.Alloc(cfg.key, w), 0) == M.Get(hubs[r].st.vals, M.Alloc(cfg.key, w), 0);
      }
    }
  }

  // Serving a request.

  lemma ServeKeepsRegion(cfg: Config, s: Sys, q: nat, g: GrantInput, s': Sys, r: nat, w: int)
    requires Inv(cfg, s) && Step(cfg, s, Serve(q, g), s') && r < |s.hubs|
    requires var r0 := s.nodes[s.requests[q].node].region;
             && (forall v :: 0 <= Used(cfg, s.hubs[r0], v)) && 0 <= SumOf(s.sendings, DebtAt(r, w))
    ensures RegionOk(cfg, s'.hubs[r], s'.nodes, s'.answers, s'.sendings, r, w)
  {
    hide EdgesOk, LoansOk, QuotaSplit, AnswersOk, SendingsOk, RequestsOk, QuotesOk, SumOf, WellFormed, Outcome,
      M.ReadsOf, M.GrantVals, M.EdgesAfter, Granted;
    var r0 := s.nodes[s.requests[q].node].region;
    var t := HubClock(cfg, s.now, r0);
    var reply := ReplyTo(cfg, s, r0, g);
    SumAppend(s.answers, s'.answers[|s.answers|], CarriedAt(r, w));
    assert RegionOk(cfg, s.hubs[r], s.nodes, s.answers, s.sendings, r, w);
    ReplyReports(g, M.ReadsOf(s.hubs[r0].st, g, t));
    ServeCounts(cfg, s.hubs[r0], g, t, s'.hubs[r0].st, w);
    GrantKeepsTransfers(cfg.key, s.hubs[r0].st, g, t, s'.hubs[r0].st);
    assert AllocOf(cfg, s'.hubs[r0], w) == AllocOf(cfg, s.hubs[r0], w);
    assert cfg.bases[r0] in cfg.bases;
    ServeFits(cfg, s.hubs[r0], g, t);
  }

  /** A windowed grant's answer. */
  lemma ReplyReports(g: GrantInput, r: Reads)
    requires WellFormed(g) && g.algo != TokenBucket && 1 <= r.active
    ensures var a := Outcome(g, r);
            && a.granted == Granted(g, r) && a.wid == WindowOf(r.now, g.win)
            && 0 < a.expires <= (a.wid + 1) * g.win - r.now && 0 <= a.granted
            && L.Reports(H.ResponseOf(a))
  {}

  /** The life the edge will give an answer ends no later than the window does on the hub's clock. */
  lemma AnswerLife(cfg: Config, s: Sys, q: nat, g: GrantInput)
    requires Sensible(cfg) && Shape(cfg, s) && RequestsOk(cfg, s.now, s.requests) && q < |s.requests|
    requires Asks(cfg, s.hubs[s.nodes[s.requests[q].node].region], g)
    ensures var node := s.requests[q].node;
            var r := s.nodes[node].region;
            AnswerOk(cfg, Answer(node, r, H.ResponseOf(ReplyTo(cfg, s, r, g)), EdgeClock(cfg, s.requests[q].at, node)))
  {
    hide M.ReadsOf, Outcome, WellFormed;
    var r := s.nodes[s.requests[q].node].region;
    ReplyReports(g, M.ReadsOf(s.hubs[r].st, g, HubClock(cfg, s.now, r)));
  }

  lemma ServeKeeps(cfg: Config, s: Sys, q: nat, g: GrantInput, s': Sys)
    requires Inv(cfg, s) && Step(cfg, s, Serve(q, g), s')
    ensures Inv(cfg, s')
  {
    hide EdgesOk, LoansOk, QuotaSplit, SendingsOk, RequestsOk, QuotesOk, RegionOk, Outcome, M.ReadsOf, M.GrantVals,
      M.EdgesAfter, Granted, WellFormed, AnswerOk;
    var r0 := s.nodes[s.requests[q].node].region;
    var t := HubClock(cfg, s.now, r0);
    GrantKeepsTransfers(cfg.key, s.hubs[r0].st, g, t, s'.hubs[r0].st);
    SendingsKept(cfg, s.hubs, r0, s'.hubs[r0].st, s.sendings);
    LoansKept(cfg, s.hubs, r0, s'.hubs[r0].st, s.loans);
    SplitKept(cfg, s.hubs, r0, s'.hubs[r0].st, s.loans);
    AnswerLife(cfg, s, q, g);
    forall r: nat, w | r < |s.hubs| ensures RegionOk(cfg, s'.hubs[r], s'.nodes, s'.answers, s'.sendings, r, w) {
      forall v { CountsCover(cfg, s, r0, v); }
      CountsCover(cfg, s, r, w);
      ServeKeepsRegion(cfg, s, q, g, s', r, w);
    }
  }

  // Steps at an edge.

  lemma SteppedSum(nodes: seq<Node>, n: nat, step: L.Step, r: nat, w: int)
    requires n < |nodes|
    ensures SumOf(Stepped(nodes, n, step), KeptAt(r, w)) ==
            SumOf(nodes, KeptAt(r, w))
            + if nodes[n].region == r then KeptBy(A.Next(nodes[n].edge, step), w) - KeptBy(nodes[n].edge, w) else 0
  {
    hide SumOf, A.Next, A.BookAt;
    SumUpdate(nodes, n, Node(nodes[n].region, A.Next(nodes[n].edge, step)), KeptAt(r, w));
  }

  lemma SpendKeeps(cfg: Config, s: Sys, n: nat, step: L.Step, s': Sys)
    requires Inv(cfg, s) && Step(cfg, s, Spend(n, step), s')
    ensures Inv(cfg, s')
  {
    hide EdgesOk, LoansOk, QuotaSplit, SendingsOk, RequestsOk, QuotesOk, AnswersOk, A.Next, A.Legal, SumOf, KeptBy,
      Used, Cap;
    EdgesKept(cfg, s.nodes, n, step);
    forall r: nat, w | r < |s.hubs| ensures RegionOk(cfg, s'.hubs[r], s'.nodes, s'.answers, s'.sendings, r, w) {
      assert RegionOk(cfg, s.hubs[r], s.nodes, s.answers, s.sendings, r, w);
      SteppedSum(s.nodes, n, step, r, w);
      KeptAfter(s.nodes[n].edge, step, w);
    }
  }

  lemma DeliverKeeps(cfg: Config, s: Sys, i: nat, jitter: int, s': Sys)
    requires Inv(cfg, s) && Step(cfg, s, Deliver(i, jitter), s')
    ensures Inv(cfg, s')
  {
    hide EdgesOk, LoansOk, QuotaSplit, SendingsOk, RequestsOk, QuotesOk, A.Next, SumOf, KeptBy, Used, Cap, EndAt;
    var m := s.answers[i];
    var step := L.Accept(m.resp, m.sent, EdgeClock(cfg, s.now, m.node), jitter);
    assert AnswerOk(cfg, m);
    EdgesKept(cfg, s.nodes, m.node, step);
    forall r: nat, w | r < |s.hubs| ensures RegionOk(cfg, s'.hubs[r], s'.nodes, s'.answers, s'.sendings, r, w) {
      assert RegionOk(cfg, s.hubs[r], s.nodes, s.answers, s.sendings, r, w);
      SteppedSum(s.nodes, m.node, step, r, w);
      KeptAfter(s.nodes[m.node].edge, step, w);
      SumWithout(s.answers, i, CarriedAt(r, w));
    }
  }

  lemma LoseKeeps(cfg: Config, s: Sys, i: nat, s': Sys)
    requires Inv(cfg, s) && Step(cfg, s, Lose(i), s')
    ensures Inv(cfg, s')
  {
    hide EdgesOk, LoansOk, QuotaSplit, SendingsOk, RequestsOk, QuotesOk, SumOf, Used, Cap, AnswerOk;
    forall r: nat, w | r < |s.hubs| ensures RegionOk(cfg, s'.hubs[r], s'.nodes, s'.answers, s'.sendings, r, w) {
      assert RegionOk(cfg, s.hubs[r], s.nodes, s.answers, s.sendings, r, w);
      SumWithout(s.answers, i, CarriedAt(r, w));
    }
  }

  lemma DrainKeeps(cfg: Config, s: Sys, n: nat, s': Sys)
    requires Inv(cfg, s) && Step(cfg, s, Drain(n), s')
    ensures Inv(cfg, s')
  {
    hide EdgesOk, LoansOk, QuotaSplit, SendingsOk, RequestsOk, QuotesOk, AnswersOk, A.Next, SumOf, KeptBy, Used, Cap,
      L.Returnable;
    var t := EdgeClock(cfg, s.now, n);
    var step := L.GiveBack(t);
    var back := L.Returnable(s.nodes[n].edge.c, t);
    EdgesKept(cfg, s.nodes, n, step);
    var m := Sending(s.nodes[n].region, s.nodes[n].edge.c.win, back, false, 0);
    BackBounded(cfg, s.nodes, n, t);
    SendingSent(cfg, s.hubs, s.sendings, m);
    forall r: nat, w | r < |s.hubs| ensures RegionOk(cfg, s'.hubs[r], s'.nodes, s'.answers, s'.sendings, r, w) {
      assert RegionOk(cfg, s.hubs[r], s.nodes, s.answers, s.sendings, r, w);
      SteppedSum(s.nodes, n, step, r, w);
      KeptAfter(s.nodes[n].edge, step, w);
      SumAppend(s.sendings, m, BackAt(r, w));
      SumAppend(s.sendings, m, DebtAt(r, w));
    }
  }

  lemma BackBounded(cfg: Config, nodes: seq<Node>, n: nat, t: int)
    requires EdgesOk(cfg, nodes) && n < |nodes| && n < |cfg.sites| && cfg.sites[n].region < |cfg.hubOffsets|
    ensures 0 <= cfg.bound && -cfg.bound <= L.Returnable(nodes[n].edge.c, t)
  {}

  lemma SendingSent(cfg: Config, hubs: seq<Hub>, sendings: seq<Sending>, m: Sending)
    requires SendingsOk(cfg, hubs, sendings) && !m.applied && m.counted == 0 && -cfg.bound <= m.tokens && 0 <= cfg.bound
    ensures SendingsOk(cfg, hubs, sendings + [m])
  {}

  // A return reaches its hub.

  lemma ArriveKeepsRegion(cfg: Config, s: Sys, i: nat, ri: ReturnInput, s': Sys, r: nat, w: int)
    requires Inv(cfg, s) && Step(cfg, s, Arrive(i, ri), s') && r < |s.hubs|
    requires 0 <= SumOf(s.sendings, DebtAt(r, w)) && 0 <= SumOf(s.nodes, KeptAt(r, w))
    requires 0 <= SumOf(s.answers, CarriedAt(r, w))
    ensures RegionOk(cfg, s'.hubs[r], s'.nodes, s'.answers, s'.sendings, r, w)
  {
    hide EdgesOk, LoansOk, QuotaSplit, AnswersOk, RequestsOk, QuotesOk, SumOf, M.ReturnOne, WellFormedReturn;
    var m := s.sendings[i];
    var t := HubClock(cfg, s.now, m.region);
    assert RegionOk(cfg, s.hubs[r], s.nodes, s.answers, s.sendings, r, w);
    ArriveCounts(cfg, s.hubs[m.region], m, i, ri, t, w);
    ReturnKeepsTransfers(cfg.key, s.hubs[m.region].st, ri, t);
    assert AllocOf(cfg, s'.hubs[m.region], w) == AllocOf(cfg, s.hubs[m.region], w);
    SumUpdate(s.sendings, i, Applied(cfg, m, t), BackAt(r, w));
    SumUpdate(s.sendings, i, Applied(cfg, m, t), DebtAt(r, w));
    SumAtLeast(s.sendings, i, BackAt(r, w));
  }

  lemma ArriveKeepsSendings(cfg: Config, s: Sys, i: nat, ri: ReturnInput, s': Sys)
    requires Inv(cfg, s) && Step(cfg, s, Arrive(i, ri), s')
    ensures SendingsOk(cfg, s'.hubs, s'.sendings)
  {
    hide EdgesOk, LoansOk, QuotaSplit, AnswersOk, RequestsOk, QuotesOk, RegionsOk, M.ReturnOne, WellFormedReturn;
    var m := s.sendings[i];
    var t := HubClock(cfg, s.now, m.region);
    forall j: nat { ArriveRecords(cfg, s.hubs[m.region], m, i, ri, t, j); }
  }

  lemma ArriveKeeps(cfg: Config, s: Sys, i: nat, ri: ReturnInput, s': Sys)
    requires Inv(cfg, s) && Step(cfg, s, Arrive(i, ri), s')
    ensures Inv(cfg, s')
  {
    hide EdgesOk, LoansOk, QuotaSplit, AnswersOk, SendingsOk, RequestsOk, QuotesOk, RegionOk, M.ReturnOne,
      WellFormedReturn;
    var r0 := s.sendings[i].region;
    ReturnKeepsTransfers(cfg.key, s.hubs[r0].st, ri, HubClock(cfg, s.now, r0));
    LoansKept(cfg, s.hubs, r0, s'.hubs[r0].st, s.loans);
    SplitKept(cfg, s.hubs, r0, s'.hubs[r0].st, s.loans);
    ArriveKeepsSendings(cfg, s, i, ri, s');
    forall r: nat, w | r < |s.hubs| ensures RegionOk(cfg, s'.hubs[r], s'.nodes, s'.answers, s'.sendings, r, w) {
      CountsCover(cfg, s, r, w);
      ArriveKeepsRegion(cfg, s, i, ri, s', r, w);
    }
  }

  // Transfers between regions.

  lemma AskKeeps(cfg: Config, s: Sys, b: nat, l: nat, wid: int, want: int, s': Sys)
    requires Inv(cfg, s) && Step(cfg, s, Ask(b, l, wid, want), s')
    ensures Inv(cfg, s')
  {
    hide EdgesOk, AnswersOk, SendingsOk, RequestsOk, RegionOk, LoansOk, QuotaSplit;
    LoanAsked(cfg, s.hubs, s.loans, Loan(b, l, wid, want, None, false));
  }

  lemma LoanAsked(cfg: Config, hubs: seq<Hub>, loans: seq<Loan>, loan: Loan)
    requires LoansOk(cfg, hubs, loans) && QuotaSplit(cfg, hubs, loans) && loan.lent == None && !loan.credited
    ensures LoansOk(cfg, hubs, loans + [loan]) && QuotaSplit(cfg, hubs, loans + [loan])
  {}

  lemma LendFirst(cfg: Config, s: Sys, i: nat, s': Sys)
    requires Inv(cfg, s) && Step(cfg, s, Lend(i), s')
    requires WindowOf(HubClock(cfg, s.now, s.loans[i].lender), cfg.win) == s.loans[i].wid && s.loans[i].lent == None
    requires forall w :: 0 <= Used(cfg, s.hubs[s.loans[i].lender], w)
    ensures QuotaSplit(cfg, s'.hubs, s'.loans)
    ensures forall w :: var hub, hub' := s.hubs[s.loans[i].lender], s'.hubs[s.loans[i].lender];
                        Cap(cfg, hub', w) == Cap(cfg, hub, w) || Used(cfg, hub, w) <= Cap(cfg, hub', w)
    ensures s'.loans[i].lent.Some? && 0 <= s'.loans[i].lent.value
  {
    hide EdgesOk, AnswersOk, SendingsOk, RequestsOk, RegionOk, SumOf, Used, Cap, M.LendNext, M.LendAmount;
    var loan := s.loans[i];
    var hub, t := s.hubs[loan.lender], HubClock(cfg, s.now, loan.lender);
    assert M.Find(hub.st.vals, M.LendId(cfg.key, Id(i))) == None;
    forall w ensures SumOf(s'.hubs, CapAt(cfg, w)) + SumOf(s'.loans, TransitAt(w)) == cfg.quota {
      LendMoves(cfg, hub, loan, i, t, w);
      SumUpdate(s.hubs, loan.lender, s'.hubs[loan.lender], CapAt(cfg, w));
      SumUpdate(s.loans, i, s'.loans[i], TransitAt(w));
    }
    forall w
      ensures || Cap(cfg, s'.hubs[loan.lender], w) == Cap(cfg, hub, w)
              || Used(cfg, hub, w) <= Cap(cfg, s'.hubs[loan.lender], w)
    {
      LendMoves(cfg, hub, loan, i, t, w);
      KeptIsPositive(Used(cfg, hub, loan.wid), t, cfg.win);
    }
    LendMoves(cfg, hub, loan, i, t, 0);
  }

  lemma KeptIsPositive(used: int, now: int, win: int)
    requires 0 <= used && 0 < win
    ensures 0 <= Kept(used, now, win, 0)
  {}

  lemma LoanLent(cfg: Config, hubs: seq<Hub>, loans: seq<Loan>, i: nat, st: M.State, given: int)
    requires LoansOk(cfg, hubs, loans) && i < |loans| && loans[i].lender < |hubs| && 0 <= given
    requires SameCredits(cfg.key, hubs[loans[i].lender].st, st)
    requires forall k: nat :: M.Find(st.vals, M.LendId(cfg.key, Id(k))) ==
                              if i == k then Some(given)
                              else M.Find(hubs[loans[i].lender].st.vals, M.LendId(cfg.key, Id(k)))
    ensures var r := loans[i].lender;
            LoansOk(cfg, hubs[r := hubs[r].(st := st)], loans[i := loans[i].(lent := Some(given))])
  {
    hide Id, M.Find;
  }

  lemma LendKeepsIds(cfg: Config, s: Sys, i: nat, s': Sys)
    requires Inv(cfg, s) && Step(cfg, s, Lend(i), s')
    requires WindowOf(HubClock(cfg, s.now, s.loans[i].lender), cfg.win) == s.loans[i].wid && s.loans[i].lent == None
    requires s'.loans[i].lent.Some? && 0 <= s'.loans[i].lent.value
    ensures SendingsOk(cfg, s'.hubs, s'.sendings) && LoansOk(cfg, s'.hubs, s'.loans) && QuotesOk(s'.loans, s'.quotes)
  {
    hide EdgesOk, AnswersOk, SendingsOk, RequestsOk, RegionOk, SumOf, M.LendNext, M.LendAmount, QuotaSplit, RegionsOk,
      LoansOk, Id;
    var loan := s.loans[i];
    var hub, t := s.hubs[loan.lender], HubClock(cfg, s.now, loan.lender);
    forall j: nat { LendRecords(cfg, hub, loan, i, t, j); }
    LendRecords(cfg, hub, loan, i, t, 0);
    SendingsKept(cfg, s.hubs, loan.lender, s'.hubs[loan.lender].st, s.sendings);
    LoanLent(cfg, s.hubs, s.loans, i, s'.hubs[loan.lender].st, s'.loans[i].lent.value);
  }

  /** A duplicate, or a lend outside its window, changes nothing and repeats the first answer, or refuses. */
  lemma LendAgain(cfg: Config, s: Sys, i: nat, s': Sys)
    requires Inv(cfg, s) && Step(cfg, s, Lend(i), s')
    requires WindowOf(HubClock(cfg, s.now, s.loans[i].lender), cfg.win) != s.loans[i].wid || s.loans[i].lent.Some?
    ensures s'.hubs == s.hubs && s'.loans == s.loans
    ensures s'.quotes[|s.quotes|].given ==
            if WindowOf(HubClock(cfg, s.now, s.loans[i].lender), cfg.win) == s.loans[i].wid
            then s.loans[i].lent.value else 0
    ensures QuotesOk(s'.loans, s'.quotes)
  {
    hide EdgesOk, AnswersOk, SendingsOk, RequestsOk, RegionOk, QuotaSplit, RegionsOk, Given;
    var loan := s.loans[i];
    assert M.Find(s.hubs[loan.lender].st.vals, M.LendId(cfg.key, Id(i))) == loan.lent;
  }

  lemma LendKeeps(cfg: Config, s: Sys, i: nat, s': Sys)
    requires Inv(cfg, s) && Step(cfg, s, Lend(i), s')
    ensures Inv(cfg, s')
  {
    hide EdgesOk, LoansOk, QuotaSplit, AnswersOk, SendingsOk, RequestsOk, QuotesOk, M.LendNext, M.LendAmount, Used, Cap;
    var loan := s.loans[i];
    var r0 := loan.lender;
    if WindowOf(HubClock(cfg, s.now, r0), cfg.win) == loan.wid && loan.lent == None {
      forall w { CountsCover(cfg, s, r0, w); }
      LendFirst(cfg, s, i, s');
      LendKeepsIds(cfg, s, i, s');
      forall r: nat, w | r < |s.hubs| ensures RegionOk(cfg, s'.hubs[r], s'.nodes, s'.answers, s'.sendings, r, w) {
        assert RegionOk(cfg, s.hubs[r], s.nodes, s.answers, s.sendings, r, w);
        CountsCover(cfg, s, r, w);
        LendCounts(cfg, s, i, s', w);
      }
    } else {
      LendAgain(cfg, s, i, s');
    }
  }

  lemma LendCounts(cfg: Config, s: Sys, i: nat, s': Sys, w: int)
    requires Inv(cfg, s) && Step(cfg, s, Lend(i), s')
    ensures Used(cfg, s'.hubs[s.loans[i].lender], w) == Used(cfg, s.hubs[s.loans[i].lender], w)
  {
    hide EdgesOk, LoansOk, QuotaSplit, AnswersOk, SendingsOk, RequestsOk, QuotesOk, RegionsOk, M.LendNext, M.LendAmount;
    var loan := s.loans[i];
    LendRecords(cfg, s.hubs[loan.lender], loan, i, HubClock(cfg, s.now, loan.lender), 0);
  }

  lemma CreditKeepsSplit(cfg: Config, s: Sys, j: nat, s': Sys)
    requires Inv(cfg, s) && Step(cfg, s, Credit(j), s')
    ensures QuotaSplit(cfg, s'.hubs, s'.loans)
  {
    hide EdgesOk, AnswersOk, SendingsOk, RequestsOk, RegionsOk, SumOf, Cap, M.CreditNext, Id;
    var i := s.quotes[j].loan;
    var loan := s.loans[i];
    var hub, t := s.hubs[loan.borrower], HubClock(cfg, s.now, loan.borrower);
    if cfg.regional {
      forall w ensures SumOf(s'.hubs, CapAt(cfg, w)) + SumOf(s'.loans, TransitAt(w)) == cfg.quota {
        CreditMoves(cfg, hub, loan, i, s.quotes[j].given, t, w);
        SumUpdate(s.hubs, loan.borrower, s'.hubs[loan.borrower], CapAt(cfg, w));
        SumUpdate(s.loans, i, s'.loans[i], TransitAt(w));
        assert M.CreditId(cfg.key, Id(i)) in hub.st.deduped <==> loan.credited;
      }
    }
  }

  lemma LoanCredited(cfg: Config, hubs: seq<Hub>, loans: seq<Loan>, i: nat, st: M.State, credits: bool)
    requires LoansOk(cfg, hubs, loans) && i < |loans| && loans[i].borrower < |hubs| && (credits ==> loans[i].lent.Some?)
    requires SameLends(cfg.key, hubs[loans[i].borrower].st, st)
    requires forall k: nat :: M.CreditId(cfg.key, Id(k)) in st.deduped <==>
                              M.CreditId(cfg.key, Id(k)) in hubs[loans[i].borrower].st.deduped || (i == k && credits)
    ensures var r := loans[i].borrower;
            LoansOk(cfg, hubs[r := hubs[r].(st := st)],
                    if credits then loans[i := loans[i].(credited := true)] else loans)
  {
    hide Id, M.Find;
  }

  lemma CreditKeepsIds(cfg: Config, s: Sys, j: nat, s': Sys)
    requires Inv(cfg, s) && Step(cfg, s, Credit(j), s')
    ensures LoansOk(cfg, s'.hubs, s'.loans)
  {
    hide EdgesOk, AnswersOk, SendingsOk, RequestsOk, RegionsOk, QuotaSplit, M.CreditNext, M.Credits, Id, LoansOk;
    var i := s.quotes[j].loan;
    var loan := s.loans[i];
    var hub, t := s.hubs[loan.borrower], HubClock(cfg, s.now, loan.borrower);
    forall k: nat { CreditRecords(cfg, hub, loan, i, s.quotes[j].given, t, k); }
    CreditRecords(cfg, hub, loan, i, s.quotes[j].given, t, 0);
    LoanCredited(cfg, s.hubs, s.loans, i, s'.hubs[loan.borrower].st,
                 M.Credits(hub.st, TransferOf(cfg, loan, i, s.quotes[j].given), t));
  }

  lemma CreditKeepsRegion(cfg: Config, s: Sys, j: nat, s': Sys, r: nat, w: int)
    requires Inv(cfg, s) && Step(cfg, s, Credit(j), s') && r < |s.hubs|
    ensures RegionOk(cfg, s'.hubs[r], s'.nodes, s'.answers, s'.sendings, r, w)
  {
    hide EdgesOk, AnswersOk, SendingsOk, RequestsOk, SumOf, M.CreditNext, QuotaSplit, LoansOk;
    var i := s.quotes[j].loan;
    var loan := s.loans[i];
    var hub, t := s.hubs[loan.borrower], HubClock(cfg, s.now, loan.borrower);
    assert RegionOk(cfg, s.hubs[r], s.nodes, s.answers, s.sendings, r, w);
    CreditRecords(cfg, hub, loan, i, s.quotes[j].given, t, 0);
    assert Used(cfg, s'.hubs[loan.borrower], w) == Used(cfg, hub, w);
    if cfg.regional {
      CreditMoves(cfg, hub, loan, i, s.quotes[j].given, t, w);
    }
  }

  lemma CreditKeeps(cfg: Config, s: Sys, j: nat, s': Sys)
    requires Inv(cfg, s) && Step(cfg, s, Credit(j), s')
    ensures Inv(cfg, s')
  {
    hide EdgesOk, AnswersOk, SendingsOk, RequestsOk, RegionOk, M.CreditNext, QuotaSplit, LoansOk;
    var i := s.quotes[j].loan;
    var loan := s.loans[i];
    CreditRecords(cfg, s.hubs[loan.borrower], loan, i, s.quotes[j].given, HubClock(cfg, s.now, loan.borrower), 0);
    SendingsKept(cfg, s.hubs, loan.borrower, s'.hubs[loan.borrower].st, s.sendings);
    CreditKeepsSplit(cfg, s, j, s');
    CreditKeepsIds(cfg, s, j, s');
    forall r: nat, w | r < |s.hubs| { CreditKeepsRegion(cfg, s, j, s', r, w); }
  }

  lemma OtherKeeps(cfg: Config, s: Sys, r0: nat, op: T.Op, a: T.Answer, s': Sys)
    requires Inv(cfg, s) && Step(cfg, s, Other(r0, op, a), s')
    ensures Inv(cfg, s')
  {
    hide EdgesOk, AnswersOk, SendingsOk, RequestsOk, QuotaSplit, LoansOk, T.MemStep, Elsewhere, SumOf;
    var st, st' := s.hubs[r0].st, s'.hubs[r0].st;
    ElsewhereKeeps(cfg, st, T.Event(HubClock(cfg, s.now, r0), op), st', a);
    SendingsKept(cfg, s.hubs, r0, st', s.sendings);
    LoansKept(cfg, s.hubs, r0, st', s.loans);
    SplitKept(cfg, s.hubs, r0, st', s.loans);
    forall r: nat, w | r < |s.hubs| ensures RegionOk(cfg, s'.hubs[r], s'.nodes, s'.answers, s'.sendings, r, w) {
      assert RegionOk(cfg, s.hubs[r], s.nodes, s.answers, s.sendings, r, w);
      assert Used(cfg, s'.hubs[r0], w) == Used(cfg, s.hubs[r0], w);
      assert AllocOf(cfg, s'.hubs[r0], w) == AllocOf(cfg, s.hubs[r0], w);
    }
  }

  lemma TickKeeps(cfg: Config, s: Sys, to: int, s': Sys)
    requires Inv(cfg, s) && Step(cfg, s, Tick(to), s')
    ensures Inv(cfg, s')
  {
    hide EdgesOk, AnswersOk, SendingsOk, QuotaSplit, LoansOk, RegionOk;
    forall n | 0 <= n < |s.nodes| ensures 0 <= EdgeClock(cfg, to, n) {
      assert 0 <= EdgeClock(cfg, s.now, n);
    }
  }

  lemma SendKeeps(cfg: Config, s: Sys, n: nat, s': Sys)
    requires Inv(cfg, s) && Step(cfg, s, Send(n), s')
    ensures Inv(cfg, s')
  {
    hide EdgesOk, AnswersOk, SendingsOk, QuotaSplit, LoansOk, RegionOk;
  }

  /** Every step of the system keeps the invariant. */
  lemma StepKeeps(cfg: Config, s: Sys, a: Action, s': Sys)
    requires Inv(cfg, s) && Step(cfg, s, a, s')
    ensures Inv(cfg, s')
  {
    hide Inv, Step;
    ShapeOf(cfg, s);
    match a
    case Tick(to) => TickKeeps(cfg, s, to, s');
    case Send(n) => SendKeeps(cfg, s, n, s');
    case Serve(q, g) => ServeKeeps(cfg, s, q, g, s');
    case Deliver(i, jitter) => DeliverKeeps(cfg, s, i, jitter, s');
    case Lose(i) => LoseKeeps(cfg, s, i, s');
    case Spend(n, step) => SpendKeeps(cfg, s, n, step, s');
    case Drain(n) => DrainKeeps(cfg, s, n, s');
    case Arrive(i, r) => ArriveKeeps(cfg, s, i, r, s');
    case Ask(b, l, wid, want) => AskKeeps(cfg, s, b, l, wid, want, s');
    case Lend(i) => LendKeeps(cfg, s, i, s');
    case Credit(i) => CreditKeeps(cfg, s, i, s');
    case Other(r, op, answer) => OtherKeeps(cfg, s, r, op, answer, s');
  }

  lemma ShapeOf(cfg: Config, s: Sys)
    requires Inv(cfg, s)
    ensures Sensible(cfg) && Shape(cfg, s)
  {}

  /** The invariant holds throughout every run. */
  lemma {:induction false} RunKeeps(cfg: Config, states: seq<Sys>, actions: seq<Action>, n: nat)
    requires Run(cfg, states, actions) && n < |states|
    ensures Inv(cfg, states[n])
  {
    hide Inv, Step, Init, Shape;
    if n == 0 {
      InitHolds(cfg, states[0]);
    } else {
      RunKeeps(cfg, states, actions, n - 1);
      ShapeOf(cfg, states[n - 1]);
      assert Step(cfg, states[n - 1], actions[n - 1], states[n]);
      StepKeeps(cfg, states[n - 1], actions[n - 1], states[n]);
    }
  }
}
