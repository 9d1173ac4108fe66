/**
 The whole system for one quota: regions with their ledgers, edges, and a network that loses, delays and repeats
 what it carries. Other quotas' traffic is allowed everywhere.
 */
module System {
  import opened Numbers
  import opened Ledger
  import opened Grants
  import opened Sums
  import M = MemLedger
  import T = Traces
  import L = Lease
  import A = Accounts
  import H = Hub

  /** Where an edge runs: its region, and its clock's offset from true time. */
  datatype Site = Site(region: nat, offset: int)

  /** A deployment: the quota, the regions' base allocations and clock offsets, the edges, and how far charges after
      the fact may overdraw an edge's balance (zero: there are none). */
  datatype Config = Config(
    key: string, algo: Algo, quota: int, win: int, regional: bool,
    bases: seq<int>, hubOffsets: seq<int>, sites: seq<Site>, bound: int)

  datatype Hub = Hub(base: int, st: M.State)

  /** An edge's counter for the quota. An edge that evicts an idle counter and starts a new one is several nodes of the
      same region: each has a balance, and a debt bound, of its own. */
  datatype Node = Node(region: nat, edge: A.Edge)

  /** A lease request, and when it left. It may reach the hub any number of times. */
  datatype Request = Request(node: nat, at: int)

  /** A lease answer on its way: it is delivered once, late, or never. */
  datatype Answer = Answer(node: nat, region: nat, resp: L.Response, sent: int)

  /** A return on its way; it may arrive any number of times. applied: the hub has recorded it. counted: debt it added
      to its window. */
  datatype Sending = Sending(region: nat, wid: int, tokens: int, applied: bool, counted: int)

  /** A transfer between regions: what was asked, what the lender recorded, and whether the borrower credited it. */
  datatype Loan = Loan(borrower: nat, lender: nat, wid: int, want: int, lent: Option<int>, credited: bool)

  /** A lender's reply; it may arrive any number of times. */
  datatype Quote = Quote(loan: nat, given: int)

  datatype Sys = Sys(
    now: int, hubs: seq<Hub>, nodes: seq<Node>, requests: seq<Request>, answers: seq<Answer>,
    sendings: seq<Sending>, loans: seq<Loan>, quotes: seq<Quote>)

  /** The i-th return's dedupe id, or the i-th transfer's id: no two are the same. */
  function Id(i: nat): (id: string)
    ensures |id| == i + 1
  {
    seq(i + 1, _ => 'x')
  }

  ghost predicate Sensible(cfg: Config) {
    && cfg.key != "" && 1 <= cfg.quota && 1000 <= cfg.win && cfg.algo != TokenBucket && 0 <= cfg.bound
    && |cfg.bases| == |cfg.hubOffsets|
    && (forall i :: 0 <= i < |cfg.sites| ==> cfg.sites[i].region < |cfg.bases|)
    && (if cfg.regional
        then && cfg.algo == FixedWindow && SumOf(cfg.bases, (b: int) => b) == cfg.quota
             && forall b :: b in cfg.bases ==> 0 <= b
        else |cfg.bases| == 1)
  }

  function HubClock(cfg: Config, now: int, r: nat): int
    requires r < |cfg.hubOffsets|
  {
    now + cfg.hubOffsets[r]
  }

  function EdgeClock(cfg: Config, now: int, n: nat): int
    requires n < |cfg.sites|
  {
    now + cfg.sites[n].offset
  }

  // What each party does.

  /** A grant the hub of a region makes for this quota: config fixes the quota, the edge only its own wishes. */
  ghost predicate Asks(cfg: Config, hub: Hub, g: GrantInput) {
    && WellFormed(g)
    && g.key == cfg.key && g.algo == cfg.algo && g.limit == cfg.quota && g.win == cfg.win
    && g.parentKey != cfg.key
    && g.allocBase == if cfg.regional then hub.base else -1
  }

  ghost predicate Returns(cfg: Config, m: Sending, i: nat, r: ReturnInput) {
    && WellFormedReturn(r)
    && r.key == cfg.key && r.algo == cfg.algo && r.win == cfg.win && r.parentKey != cfg.key
    && r.wid == m.wid && r.tokens == m.tokens && r.dedupe == Id(i)
  }

  function TransferOf(cfg: Config, loan: Loan, i: nat, amount: int): M.Transfer {
    M.Transfer(cfg.key, cfg.win, loan.wid, amount, Id(i))
  }

  /** An operation on other quotas only. */
  ghost predicate Elsewhere(cfg: Config, op: T.Op) {
    && T.Proper(op)
    && match op
       case Ask(g) => g.key != cfg.key && g.parentKey != cfg.key
       case GiveBack(r) => r.key != cfg.key && r.parentKey != cfg.key
       case Lend(x, _, _) => x.key != cfg.key
       case Credit(x) => x.key != cfg.key
  }

  datatype Action =
    | Tick(to: int)
    | Send(node: nat)
    | Serve(req: nat, g: GrantInput)
    | Deliver(i: nat, jitter: int)
    | Lose(i: nat)
    | Spend(node: nat, step: L.Step)
    | Drain(node: nat)
    | Arrive(i: nat, r: ReturnInput)
    | Ask(borrower: nat, lender: nat, wid: int, want: int)
    | Lend(i: nat)
    | Credit(i: nat)
    | Other(region: nat, op: T.Op, answer: T.Answer)

  /** Steps an edge takes on its own, by its own clock. */
  ghost predicate Local(cfg: Config, now: int, n: nat, step: L.Step)
    requires n < |cfg.sites|
  {
    match step
    case Roll(bucket, t) => !bucket && t == EdgeClock(cfg, now, n)
    case Unwait(t) => t == EdgeClock(cfg, now, n)
    case Take(_, t) => t == EdgeClock(cfg, now, n)
    case Consume(_) => true
    case Adjust(_, _, _) => true
    case Accept(_, _, _, _) => false
    case GiveBack(_) => false
  }

  ghost predicate Shape(cfg: Config, s: Sys) {
    && |s.hubs| == |cfg.bases| && |s.nodes| == |cfg.sites|
    && (forall r :: 0 <= r < |s.hubs| ==> s.hubs[r].base == cfg.bases[r])
    && (forall n :: 0 <= n < |s.nodes| ==> s.nodes[n].region == cfg.sites[n].region)
    && (forall i :: 0 <= i < |s.requests| ==> s.requests[i].node < |s.nodes|)
    && (forall i :: 0 <= i < |s.answers| ==>
          s.answers[i].node < |s.nodes| && s.answers[i].region == cfg.sites[s.answers[i].node].region)
    && (forall i :: 0 <= i < |s.sendings| ==> s.sendings[i].region < |s.hubs|)
    && (forall i :: 0 <= i < |s.loans| ==> s.loans[i].borrower < |s.hubs| && s.loans[i].lender < |s.hubs|)
    && (forall i :: 0 <= i < |s.quotes| ==> s.quotes[i].loan < |s.loans|)
  }

  /** One step: what the action does, and an edge's own steps are ones it may take. */
  ghost predicate Step(cfg: Config, s: Sys, a: Action, s': Sys)
    requires Sensible(cfg) && Shape(cfg, s)
  {
    && Moves(cfg, s, a, s')
    && (a.Spend? ==> A.Legal(s.nodes[a.node].edge, a.step, cfg.bound))
  }

  ghost predicate Moves(cfg: Config, s: Sys, a: Action, s': Sys)
    requires Sensible(cfg) && Shape(cfg, s)
    ensures Moves(cfg, s, a, s') && a.Spend? ==> a.node < |s.nodes|
  {
    match a
    case Tick(to) => s.now <= to && s' == s.(now := to)
    case Send(n) => n < |s.nodes| && s' == s.(requests := s.requests + [Request(n, s.now)])
    case Serve(q, g) =>
      && q < |s.requests|
      && var node := s.requests[q].node;
         var r := s.nodes[node].region;
         && Asks(cfg, s.hubs[r], g) && Serves(cfg, s, r, g, s')
         && s' == s.(hubs := s'.hubs, answers := s.answers + [Answer(node, r, H.ResponseOf(ReplyTo(cfg, s, r, g)),
                                                                  EdgeClock(cfg, s.requests[q].at, node))])
    case Deliver(i, jitter) =>
      && i < |s.answers|
      && var m := s.answers[i];
         var step := L.Accept(m.resp, m.sent, EdgeClock(cfg, s.now, m.node), jitter);
         s' == s.(answers := Without(s.answers, i), nodes := Stepped(s.nodes, m.node, step))
    case Lose(i) => i < |s.answers| && s' == s.(answers := Without(s.answers, i))
    case Spend(n, step) =>
      && n < |s.nodes| && Local(cfg, s.now, n, step)
      && s' == s.(nodes := Stepped(s.nodes, n, step))
    case Drain(n) =>
      && n < |s.nodes|
      && var t := EdgeClock(cfg, s.now, n);
         var back := L.Returnable(s.nodes[n].edge.c, t);
         s' == s.(nodes := Stepped(s.nodes, n, L.GiveBack(t)),
                  sendings := if back == 0 then s.sendings
                              else s.sendings + [Sending(s.nodes[n].region, s.nodes[n].edge.c.win, back, false, 0)])
    case Arrive(i, r) =>
      && i < |s.sendings| && Returns(cfg, s.sendings[i], i, r)
      && var m := s.sendings[i];
         var t := HubClock(cfg, s.now, m.region);
         s' == s.(hubs := s.hubs[m.region := s.hubs[m.region].(st := M.ReturnOne(s.hubs[m.region].st, r, t))],
                  sendings := s.sendings[i := Applied(cfg, m, t)])
    case Ask(b, l, wid, want) =>
      b < |s.hubs| && l < |s.hubs| && s' == s.(loans := s.loans + [Loan(b, l, wid, want, None, false)])
    case Lend(i) =>
      && i < |s.loans| && cfg.regional
      && var loan := s.loans[i];
         var hub, t := s.hubs[loan.lender], HubClock(cfg, s.now, loan.lender);
         var x := TransferOf(cfg, loan, i, loan.want);
         var given := M.LendAmount(hub.st, x, hub.base, 0, t);
         s' == s.(hubs := s.hubs[loan.lender := hub.(st := M.LendNext(hub.st, x, hub.base, 0, t))],
                  loans := if WindowOf(t, cfg.win) == loan.wid then s.loans[i := loan.(lent := Some(given))]
                           else s.loans,
                  quotes := s.quotes + [Quote(i, given)])
    case Credit(j) =>
      && j < |s.quotes| && 0 < s.quotes[j].given
      && var i := s.quotes[j].loan;
         var loan := s.loans[i];
         var hub, t := s.hubs[loan.borrower], HubClock(cfg, s.now, loan.borrower);
         var x := TransferOf(cfg, loan, i, s.quotes[j].given);
         s' == s.(hubs := s.hubs[loan.borrower := hub.(st := M.CreditNext(hub.st, x, t))],
                  loans := if M.Credits(hub.st, x, t) then s.loans[i := loan.(credited := true)] else s.loans)
    case Other(r, op, answer) =>
      && r < |s.hubs| && |s'.hubs| == |s.hubs| && Elsewhere(cfg, op)
      && T.MemStep(s.hubs[r].st, T.Event(HubClock(cfg, s.now, r), op), s'.hubs[r].st, answer)
      && s' == s.(hubs := s.hubs[r := s.hubs[r].(st := s'.hubs[r].st)])
  }

  function ReplyTo(cfg: Config, s: Sys, r: nat, g: GrantInput): Reply
    requires r < |s.hubs| && r < |cfg.hubOffsets| && WellFormed(g)
  {
    Outcome(g, M.ReadsOf(s.hubs[r].st, g, HubClock(cfg, s.now, r)))
  }

  ghost predicate Serves(cfg: Config, s: Sys, r: nat, g: GrantInput, s': Sys)
    requires r < |s.hubs| && r < |cfg.hubOffsets| && WellFormed(g)
  {
    && |s'.hubs| == |s.hubs|
    && s'.hubs == s.hubs[r := s.hubs[r].(st := s'.hubs[r].st)]
    && T.MemStep(s.hubs[r].st, T.Event(HubClock(cfg, s.now, r), T.Ask(g)), s'.hubs[r].st,
                 T.ForAsk(ReplyTo(cfg, s, r, g)))
  }

  function Stepped(nodes: seq<Node>, n: nat, step: L.Step): seq<Node>
    requires n < |nodes|
  {
    nodes[n := Node(nodes[n].region, A.Next(nodes[n].edge, step))]
  }

  /** A return once it has arrived: the first arrival counts its debt, if its window is still current. */
  function Applied(cfg: Config, m: Sending, t: int): Sending
    requires 0 < cfg.win
  {
    if m.applied then m
    else m.(applied := true, counted := if WindowOf(t, cfg.win) == m.wid then Max(-m.tokens, 0) else 0)
  }

  /** Nothing has happened yet; every clock shows a time since the epoch. */
  ghost predicate Init(cfg: Config, s: Sys) {
    && Sensible(cfg) && Shape(cfg, s)
    && (forall r :: 0 <= r < |s.hubs| ==> s.hubs[r].st == M.EMPTY && 0 <= HubClock(cfg, s.now, r))
    && (forall n :: 0 <= n < |s.nodes| ==> s.nodes[n].edge == A.NEW_EDGE && 0 <= EdgeClock(cfg, s.now, n))
    && s.requests == [] && s.answers == [] && s.sendings == [] && s.loans == [] && s.quotes == []
  }

  /** A run: states[i] is the system before actions[i]. */
  ghost predicate Run(cfg: Config, states: seq<Sys>, actions: seq<Action>) {
    && |states| == |actions| + 1
    && Init(cfg, states[0])
    && forall i :: 0 <= i < |actions| && Shape(cfg, states[i]) ==> Step(cfg, states[i], actions[i], states[i + 1])
  }

  function End(states: seq<Sys>): Sys
    requires states != []
  {
    states[|states| - 1]
  }

  /** A run goes on with one more step. */
  lemma Extends(cfg: Config, states: seq<Sys>, actions: seq<Action>, a: Action, s: Sys)
    requires Run(cfg, states, actions) && Sensible(cfg) && Shape(cfg, End(states)) && Step(cfg, End(states), a, s)
    ensures Run(cfg, states + [s], actions + [a])
  {
    hide Step, Init, Sensible, Shape;
    var more, acts := states + [s], actions + [a];
    forall i | 0 <= i < |acts| && Shape(cfg, more[i]) ensures Step(cfg, more[i], acts[i], more[i + 1]) {
      if i < |actions| {
        assert more[i] == states[i] && more[i + 1] == states[i + 1] && acts[i] == actions[i];
      }
    }
  }

  // What the invariant speaks of.

  function Used(cfg: Config, hub: Hub, w: int): int {
    T.Count(hub.st, cfg.key, w)
  }

  function AllocOf(cfg: Config, hub: Hub, w: int): int {
    M.Get(hub.st.vals, M.Alloc(cfg.key, w), 0)
  }

  /** What a region may grant in a window. */
  function Cap(cfg: Config, hub: Hub, w: int): int {
    if cfg.regional then hub.base + AllocOf(cfg, hub, w) else cfg.quota
  }

  function CapAt(cfg: Config, w: int): Hub -> int { (h: Hub) => Cap(cfg, h, w) }

  /** Tokens of a window that edges of a region accepted and have not returned. */
  function KeptAt(r: nat, w: int): Node -> int {
    (n: Node) => if n.region == r then A.BookAt(n.edge.books, w).accepted - A.BookAt(n.edge.books, w).returned else 0
  }

  function CarriedAt(r: nat, w: int): Answer -> int {
    (m: Answer) => if m.region == r && m.resp.win == w then Max(m.resp.granted, 0) else 0
  }

  /** Tokens in returns that the hub has not recorded yet. */
  function BackAt(r: nat, w: int): Sending -> int {
    (m: Sending) => if m.region == r && m.wid == w && !m.applied then Max(m.tokens, 0) else 0
  }

  function DebtAt(r: nat, w: int): Sending -> int {
    (m: Sending) => if m.region == r && m.wid == w then m.counted else 0
  }

  /** Allocation a lender has given up and the borrower has not received. */
  function TransitAt(w: int): Loan -> int {
    (l: Loan) => if l.wid == w && l.lent.Some? && !l.credited then l.lent.value else 0
  }

  /** The hub-clock end of a window, on an edge's clock. */
  function EndAt(cfg: Config, n: nat, w: int): int
    requires n < |cfg.sites| && cfg.sites[n].region < |cfg.hubOffsets|
  {
    (w + 1) * cfg.win - cfg.hubOffsets[cfg.sites[n].region] + cfg.sites[n].offset
  }

  // The invariant, part by part.

  ghost predicate EdgeOk(cfg: Config, n: nat, node: Node)
    requires n < |cfg.sites| && cfg.sites[n].region < |cfg.hubOffsets|
  {
    && A.Balanced(node.edge, cfg.bound)
    && (0 < node.edge.c.expiresAt ==> node.edge.c.expiresAt <= EndAt(cfg, n, node.edge.c.win))
  }

  ghost predicate EdgesOk(cfg: Config, nodes: seq<Node>) {
    forall n :: 0 <= n < |nodes| && n < |cfg.sites| && cfg.sites[n].region < |cfg.hubOffsets| ==>
                  EdgeOk(cfg, n, nodes[n])
  }

  ghost predicate RequestsOk(cfg: Config, now: int, requests: seq<Request>) {
    forall i :: 0 <= i < |requests| && requests[i].node < |cfg.sites| ==>
                  requests[i].at <= now && 0 <= EdgeClock(cfg, requests[i].at, requests[i].node)
  }

  ghost predicate AnswerOk(cfg: Config, m: Answer)
    requires m.node < |cfg.sites| && cfg.sites[m.node].region < |cfg.hubOffsets|
  {
    && L.Reports(m.resp) && 0 <= m.sent && 0 <= m.resp.granted
    && m.sent + m.resp.expiresIn <= EndAt(cfg, m.node, m.resp.win)
  }

  ghost predicate AnswersOk(cfg: Config, answers: seq<Answer>) {
    forall i :: 0 <= i < |answers| && answers[i].node < |cfg.sites|
                && cfg.sites[answers[i].node].region < |cfg.hubOffsets| ==>
                  AnswerOk(cfg, answers[i])
  }

  /** A return is recorded at its own region's hub, and at no other, exactly when it has been applied there. */
  ghost predicate SendingsOk(cfg: Config, hubs: seq<Hub>, sendings: seq<Sending>) {
    && (forall i :: 0 <= i < |sendings| ==>
          && 0 <= sendings[i].counted <= cfg.bound && -cfg.bound <= sendings[i].tokens
          && (!sendings[i].applied ==> sendings[i].counted == 0))
    && (forall r, i: nat :: 0 <= r < |hubs| ==>
          (M.ReturnId(cfg.key, Id(i)) in hubs[r].st.deduped <==>
           i < |sendings| && sendings[i].region == r && sendings[i].applied))
  }

  /** A transfer is recorded by its lender once lent, and by its borrower once credited. */
  ghost predicate LoansOk(cfg: Config, hubs: seq<Hub>, loans: seq<Loan>) {
    && (forall i :: 0 <= i < |loans| && loans[i].lent.Some? ==> 0 <= loans[i].lent.value)
    && (forall i :: 0 <= i < |loans| && loans[i].credited ==> loans[i].lent.Some?)
    && (forall r, i: nat :: 0 <= r < |hubs| ==>
          M.Find(hubs[r].st.vals, M.LendId(cfg.key, Id(i))) ==
          if i < |loans| && loans[i].lender == r then loans[i].lent else None)
    && (forall r, i: nat :: 0 <= r < |hubs| ==>
          (M.CreditId(cfg.key, Id(i)) in hubs[r].st.deduped <==>
           i < |loans| && loans[i].borrower == r && loans[i].credited))
  }

  ghost predicate QuotesOk(loans: seq<Loan>, quotes: seq<Quote>) {
    forall j :: 0 <= j < |quotes| && quotes[j].loan < |loans| && 0 < quotes[j].given ==>
                  loans[quotes[j].loan].lent == Some(quotes[j].given)
  }

  /** Conservation: of what a region granted in a window (less the debt added to it), all that edges kept, answers
      carry and returns bring back is covered; and all of it is within what the region may grant. */
  ghost predicate RegionOk(cfg: Config, hub: Hub, nodes: seq<Node>, answers: seq<Answer>, sendings: seq<Sending>,
                           r: nat, w: int) {
    var granted := Used(cfg, hub, w) - SumOf(sendings, DebtAt(r, w));
    && SumOf(nodes, KeptAt(r, w)) + SumOf(answers, CarriedAt(r, w)) + SumOf(sendings, BackAt(r, w)) <= granted
    && granted <= Cap(cfg, hub, w)
  }

  ghost predicate RegionsOk(cfg: Config, s: Sys) {
    forall r: nat, w :: r < |s.hubs| ==> RegionOk(cfg, s.hubs[r], s.nodes, s.answers, s.sendings, r, w)
  }

  /** All allocations of a window, and what is in transit between them, add up to the quota. */
  ghost predicate QuotaSplit(cfg: Config, hubs: seq<Hub>, loans: seq<Loan>) {
    cfg.regional ==> forall w :: SumOf(hubs, CapAt(cfg, w)) + SumOf(loans, TransitAt(w)) == cfg.quota
  }

  ghost predicate Inv(cfg: Config, s: Sys) {
    && Sensible(cfg) && Shape(cfg, s)
    && (forall n :: 0 <= n < |s.nodes| ==> 0 <= EdgeClock(cfg, s.now, n))
    && EdgesOk(cfg, s.nodes) && RequestsOk(cfg, s.now, s.requests) && AnswersOk(cfg, s.answers)
    && SendingsOk(cfg, s.hubs, s.sendings) && LoansOk(cfg, s.hubs, s.loans) && QuotesOk(s.loans, s.quotes)
    && RegionsOk(cfg, s) && QuotaSplit(cfg, s.hubs, s.loans)
  }
}
