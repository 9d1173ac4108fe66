/**
 The same system with hubs that run the scripts over expiring keys. Its runs are runs of the system whose ledgers never
 forget, so everything that holds of those holds here.
 */
module ScriptSystem {
  import opened Numbers
  import opened Ledger
  import opened Grants
  import opened Sums
  import opened System
  import opened Guarantees
  import opened Refinement
  import A = Accounts
  import H = Hub
  import M = MemLedger
  import R = RedisLedger
  import T = Traces

  /** The system's state, with a store of expiring keys for each region in place of its ledger. */
  datatype ScriptSys = ScriptSys(
    now: int, dbs: seq<R.Db>, nodes: seq<Node>, requests: seq<Request>, answers: seq<Answer>,
    sendings: seq<Sending>, loans: seq<Loan>, quotes: seq<Quote>)

  /** The same state with ledgers. */
  function With(s: ScriptSys, hubs: seq<Hub>): Sys {
    Sys(s.now, hubs, s.nodes, s.requests, s.answers, s.sendings, s.loans, s.quotes)
  }

  function Blank(cfg: Config): seq<Hub> {
    seq(|cfg.bases|, r requires 0 <= r < |cfg.bases| => Hub(cfg.bases[r], M.EMPTY))
  }

  ghost predicate ScriptShape(cfg: Config, s: ScriptSys) {
    |s.dbs| == |cfg.bases| && Shape(cfg, With(s, Blank(cfg)))
  }

  /** The store of region r and the answer, once it has run a script. */
  function Scripted(cfg: Config, s: ScriptSys, r: nat, op: T.Op): (R.Db, T.Answer)
    requires r < |s.dbs| && r < |cfg.hubOffsets| && T.Proper(op)
  {
    ScriptStep(s.dbs[r], T.Event(HubClock(cfg, s.now, r), op))
  }

  /** What an action does: as in the system with ledgers, with the scripts' answers in place of the ledgers'. */
  ghost predicate ScriptMoves(cfg: Config, s: ScriptSys, a: Action, s': ScriptSys)
    requires Sensible(cfg) && ScriptShape(cfg, s)
  {
    match a
    case Serve(q, g) =>
      && q < |s.requests|
      && var node := s.requests[q].node;
         var r := s.nodes[node].region;
         && Asks(cfg, Hub(cfg.bases[r], M.EMPTY), g)
         && var (db, answer) := Scripted(cfg, s, r, T.Ask(g));
            s' == s.(dbs := s.dbs[r := db],
                     answers := s.answers + [Answer(node, r, H.ResponseOf(answer.reply),
                                                    EdgeClock(cfg, s.requests[q].at, node))])
    case Arrive(i, ri) =>
      && i < |s.sendings| && Returns(cfg, s.sendings[i], i, ri)
      && var m := s.sendings[i];
         s' == s.(dbs := s.dbs[m.region := Scripted(cfg, s, m.region, T.GiveBack(ri)).0],
                  sendings := s.sendings[i := Applied(cfg, m, HubClock(cfg, s.now, m.region))])
    case Lend(i) =>
      && i < |s.loans| && cfg.regional
      && var loan := s.loans[i];
         var (db, answer) := Scripted(cfg, s, loan.lender, LendOp(cfg, loan, i));
         s' == s.(dbs := s.dbs[loan.lender := db],
                  loans := if WindowOf(HubClock(cfg, s.now, loan.lender), cfg.win) == loan.wid
                           then s.loans[i := loan.(lent := Some(answer.amount))] else s.loans,
                  quotes := s.quotes + [Quote(i, answer.amount)])
    case Credit(j) =>
      && j < |s.quotes| && 0 < s.quotes[j].given
      && var i := s.quotes[j].loan;
         var loan := s.loans[i];
         var (db, answer) := Scripted(cfg, s, loan.borrower, CreditOp(cfg, loan, i, s.quotes[j].given));
         s' == s.(dbs := s.dbs[loan.borrower := db],
                  loans := if answer.ok then s.loans[i := loan.(credited := true)] else s.loans)
    case Other(r, op, answer) =>
      && r < |s.dbs| && Elsewhere(cfg, op) && answer == Scripted(cfg, s, r, op).1
      && s' == s.(dbs := s.dbs[r := Scripted(cfg, s, r, op).0])
    case _ =>
      s'.dbs == s.dbs && Moves(cfg, With(s, Blank(cfg)), a, With(s', Blank(cfg)))
  }

  function LendOp(cfg: Config, loan: Loan, i: nat): T.Op
    requires loan.lender < |cfg.bases|
  {
    T.Lend(TransferOf(cfg, loan, i, loan.want), cfg.bases[loan.lender], 0)
  }

  function CreditOp(cfg: Config, loan: Loan, i: nat, given: int): T.Op {
    T.Credit(TransferOf(cfg, loan, i, given))
  }

  ghost predicate ScriptNext(cfg: Config, s: ScriptSys, a: Action, s': ScriptSys)
    requires Sensible(cfg) && ScriptShape(cfg, s)
  {
    && ScriptMoves(cfg, s, a, s')
    && (a.Spend? ==> a.node < |s.nodes| && A.Legal(s.nodes[a.node].edge, a.step, cfg.bound))
  }

  ghost predicate ScriptRun(cfg: Config, states: seq<ScriptSys>, actions: seq<Action>) {
    && |states| == |actions| + 1
    && Init(cfg, With(states[0], Blank(cfg))) && states[0].dbs == seq(|cfg.bases|, _ => map[])
    && forall i :: 0 <= i < |actions| && ScriptShape(cfg, states[i]) ==>
         ScriptNext(cfg, states[i], actions[i], states[i + 1])
  }

  /** The operation of a hub keeps to the hub's plan: one window and one activity horizon per quota, one content per
      dedupe id, one window per transfer. That this quota's returns name no window to come is not asked for. */
  ghost predicate Planned(cfg: Config, plans: seq<Plan>, s: ScriptSys, a: Action)
    requires Sensible(cfg) && ScriptShape(cfg, s) && |plans| == |cfg.bases|
  {
    match a
    case Serve(q, g) =>
      q < |s.requests| && WellFormed(g) ==>
        var r := s.nodes[s.requests[q].node].region; Fits(plans[r], T.Ask(g), HubClock(cfg, s.now, r))
    case Arrive(i, ri) =>
      i < |s.sendings| && WellFormedReturn(ri) ==>
        var r := s.sendings[i].region;
        var t := HubClock(cfg, s.now, r);
        ri.wid <= WindowOf(t, ri.win) ==> Fits(plans[r], T.GiveBack(ri), t)
    case Lend(i) =>
      i < |s.loans| ==>
        var r := s.loans[i].lender; Fits(plans[r], LendOp(cfg, s.loans[i], i), HubClock(cfg, s.now, r))
    case Credit(j) =>
      j < |s.quotes| ==>
        var loan := s.loans[s.quotes[j].loan];
        var r := loan.borrower;
        Fits(plans[r], CreditOp(cfg, loan, s.quotes[j].loan, s.quotes[j].given), HubClock(cfg, s.now, r))
    case Other(r, op, _) => r < |s.dbs| && T.Proper(op) ==> Fits(plans[r], op, HubClock(cfg, s.now, r))
    case _ => true
  }

  ghost predicate PlannedRun(cfg: Config, plans: seq<Plan>, states: seq<ScriptSys>, actions: seq<Action>) {
    && Sensible(cfg) && |plans| == |cfg.bases| && |states| == |actions| + 1 && (forall r :: 0 <= r < |plans| ==> Sound(plans[r]))
    && forall i :: 0 <= i < |actions| && ScriptShape(cfg, states[i]) ==> Planned(cfg, plans, states[i], actions[i])
  }

  // The ledger can always answer, and the script answers alike.

  /** Some pruning is always possible. */
  lemma SomePruning(all: map<string, int>, now: int, activeMs: int) returns (kept: map<string, int>)
    ensures M.Pruned(all, kept, now, activeMs)
  {
    var live := M.Active(all, now, activeMs);
    assert forall e :: e in all ==> (e in live <==> all[e] > now - activeMs);
    kept := all;
    while 64 < |kept| && exists e :: e in kept && e !in live
      invariant kept.Keys <= all.Keys && live <= kept.Keys
      invariant forall e :: e in kept ==> kept[e] == all[e]
      invariant kept.Keys != all.Keys ==> 64 <= |kept| < |all|
      decreases |kept|
    {
      var e :| e in kept && e !in live;
      kept := M.Forget(kept, all, e);
    }
    M.PrunedTo(all, kept, now, activeMs);
  }

  lemma LedgerAnswers(s: M.State, e: T.Event) returns (s': M.State, a: T.Answer)
    requires T.Proper(e.op)
    ensures T.MemStep(s, e, s', a)
  {
    hide M.Pruned, M.ReadsOf, Outcome, M.GrantVals, M.ReturnOne, M.LendNext, M.CreditNext;
    match e.op
    case Ask(g) =>
      var kept := SomePruning(M.SeenBy(s, g.key)[g.edge := e.at], e.at, g.activeMs);
      var edges := if Registers(g, M.ReadsOf(s, g, e.at)) then s.edges[g.key := kept] else s.edges;
      s', a := s.(vals := M.GrantVals(s, g, e.at), edges := edges), T.ForAsk(Outcome(g, M.ReadsOf(s, g, e.at)));
    case GiveBack(r) => s', a := M.ReturnOne(s, r, e.at), T.ForReturn;
    case Lend(x, base, margin) =>
      s', a := M.LendNext(s, x, base, margin, e.at), T.ForLend(M.LendAmount(s, x, base, margin, e.at));
    case Credit(x) => s', a := M.CreditNext(s, x, e.at), T.ForCredit(M.Credits(s, x, e.at));
  }

  /** A ledger that the store is related to follows the script. */
  lemma LedgerFollows(p: Plan, db: R.Db, s: M.State, e: T.Event) returns (s': M.State)
    requires Sound(p) && T.Proper(e.op) && Fits(p, e.op, e.at) && Rel(p, db, s, e.at)
    ensures T.MemStep(s, e, s', ScriptStep(db, e).1) && Rel(p, ScriptStep(db, e).0, s', e.at)
  {
    hide T.MemStep, Rel, ScriptStep, Fits, Sound;
    var a;
    s', a := LedgerAnswers(s, e);
    StepRefines(p, db, s, e, s', a);
  }

  // The two systems, side by side.

  /** Every region's store is related to its ledger. */
  ghost predicate HubsRel(cfg: Config, plans: seq<Plan>, dbs: seq<R.Db>, hubs: seq<Hub>, now: int) {
    && |plans| == |dbs| == |hubs| == |cfg.hubOffsets|
    && forall r :: 0 <= r < |hubs| ==>
         Sound(plans[r]) && Rel(plans[r], dbs[r], hubs[r].st, HubClock(cfg, now, r))
  }

  /** The same state, with ledgers that the stores are related to. */
  ghost predicate Sim(cfg: Config, plans: seq<Plan>, t: ScriptSys, s: Sys) {
    s == With(t, s.hubs) && HubsRel(cfg, plans, t.dbs, s.hubs, t.now)
  }

  lemma SimShape(cfg: Config, plans: seq<Plan>, t: ScriptSys, s: Sys)
    requires Sensible(cfg) && Shape(cfg, s) && Sim(cfg, plans, t, s)
    ensures ScriptShape(cfg, t)
  {}

  /** One hub runs a script, and its ledger follows. */
  lemma HubFollows(cfg: Config, plans: seq<Plan>, t: ScriptSys, s: Sys, r: nat, op: T.Op) returns (st: M.State)
    requires Sim(cfg, plans, t, s) && r < |s.hubs| && T.Proper(op) && Fits(plans[r], op, HubClock(cfg, t.now, r))
    ensures T.MemStep(s.hubs[r].st, T.Event(HubClock(cfg, t.now, r), op), st, Scripted(cfg, t, r, op).1)
    ensures HubsRel(cfg, plans, t.dbs[r := Scripted(cfg, t, r, op).0], s.hubs[r := s.hubs[r].(st := st)], t.now)
  {
    hide T.MemStep, Rel, ScriptStep, Fits, Sound, T.Proper;
    st := LedgerFollows(plans[r], t.dbs[r], s.hubs[r].st, T.Event(HubClock(cfg, t.now, r), op));
  }

  lemma ServeFollows(cfg: Config, plans: seq<Plan>, t: ScriptSys, s: Sys, q: nat, g: GrantInput, t': ScriptSys)
    returns (s': Sys)
    requires Sensible(cfg) && Shape(cfg, s) && Sim(cfg, plans, t, s) && ScriptShape(cfg, t)
    requires ScriptMoves(cfg, t, Serve(q, g), t') && Planned(cfg, plans, t, Serve(q, g))
    ensures Moves(cfg, s, Serve(q, g), s') && Sim(cfg, plans, t', s')
  {
    hide Fits, ScriptStep, Sound, Rel, Outcome, M.ReadsOf, M.GrantVals, M.EdgesAfter, H.ResponseOf;
    var node := s.requests[q].node;
    var r := s.nodes[node].region;
    var st := HubFollows(cfg, plans, t, s, r, T.Ask(g));
    s' := With(t', s.hubs[r := s.hubs[r].(st := st)]);
  }

  lemma ArriveFollows(cfg: Config, plans: seq<Plan>, t: ScriptSys, s: Sys, i: nat, ri: ReturnInput, t': ScriptSys)
    returns (s': Sys)
    requires Started(cfg, s) && Sim(cfg, plans, t, s) && ScriptShape(cfg, t)
    requires ScriptMoves(cfg, t, Arrive(i, ri), t') && Planned(cfg, plans, t, Arrive(i, ri))
    ensures Moves(cfg, s, Arrive(i, ri), s') && Sim(cfg, plans, t', s')
  {
    hide Fits, ScriptStep, Sound, Rel, M.ReturnOne;
    var r := s.sendings[i].region;
    var st := HubFollows(cfg, plans, t, s, r, T.GiveBack(ri));
    s' := With(t', s.hubs[r := s.hubs[r].(st := st)]);
  }

  lemma LendFollows(cfg: Config, plans: seq<Plan>, t: ScriptSys, s: Sys, i: nat, t': ScriptSys) returns (s': Sys)
    requires Sensible(cfg) && Shape(cfg, s) && Sim(cfg, plans, t, s) && ScriptShape(cfg, t)
    requires ScriptMoves(cfg, t, Lend(i), t') && Planned(cfg, plans, t, Lend(i))
    ensures Moves(cfg, s, Lend(i), s') && Sim(cfg, plans, t', s')
  {
    hide Fits, ScriptStep, Sound, Rel, M.LendNext, M.LendAmount;
    var loan := s.loans[i];
    var st := HubFollows(cfg, plans, t, s, loan.lender, LendOp(cfg, loan, i));
    s' := With(t', s.hubs[loan.lender := s.hubs[loan.lender].(st := st)]);
  }

  lemma CreditFollows(cfg: Config, plans: seq<Plan>, t: ScriptSys, s: Sys, j: nat, t': ScriptSys) returns (s': Sys)
    requires Sensible(cfg) && Shape(cfg, s) && Sim(cfg, plans, t, s) && ScriptShape(cfg, t)
    requires ScriptMoves(cfg, t, Credit(j), t') && Planned(cfg, plans, t, Credit(j))
    ensures Moves(cfg, s, Credit(j), s') && Sim(cfg, plans, t', s')
  {
    hide Fits, ScriptStep, Sound, Rel, M.CreditNext, M.Credits;
    var i := s.quotes[j].loan;
    var loan := s.loans[i];
    var st := HubFollows(cfg, plans, t, s, loan.borrower, CreditOp(cfg, loan, i, s.quotes[j].given));
    s' := With(t', s.hubs[loan.borrower := s.hubs[loan.borrower].(st := st)]);
  }

  lemma OtherFollows(cfg: Config, plans: seq<Plan>, t: ScriptSys, s: Sys, a: Action, t': ScriptSys) returns (s': Sys)
    requires Sensible(cfg) && Shape(cfg, s) && Sim(cfg, plans, t, s) && ScriptShape(cfg, t) && a.Other?
    requires ScriptMoves(cfg, t, a, t') && Planned(cfg, plans, t, a)
    ensures Moves(cfg, s, a, s') && Sim(cfg, plans, t', s')
  {
    hide Fits, ScriptStep, Sound, Rel, T.MemStep;
    var st := HubFollows(cfg, plans, t, s, a.region, a.op);
    s' := With(t', s.hubs[a.region := s.hubs[a.region].(st := st)]);
  }

  /** Time passes: what the stores hold is still related to the ledgers. */
  lemma TickFollows(cfg: Config, plans: seq<Plan>, t: ScriptSys, s: Sys, to: int)
    requires Sim(cfg, plans, t, s) && t.now <= to
    ensures Sim(cfg, plans, t.(now := to), s.(now := to))
  {
    hide Rel, Sound;
    forall r | 0 <= r < |s.hubs| ensures Rel(plans[r], t.dbs[r], s.hubs[r].st, HubClock(cfg, to, r)) {
      RelLater(plans[r], t.dbs[r], s.hubs[r].st, HubClock(cfg, t.now, r), HubClock(cfg, to, r));
    }
  }

  /** No hub takes part in the action. */
  predicate Aside(a: Action) {
    a.Send? || a.Deliver? || a.Lose? || a.Spend? || a.Drain? || a.Ask?
  }

  lemma AsideFollows(cfg: Config, plans: seq<Plan>, t: ScriptSys, s: Sys, a: Action, t': ScriptSys)
    requires Sensible(cfg) && Shape(cfg, s) && Sim(cfg, plans, t, s) && ScriptShape(cfg, t) && Aside(a)
    requires ScriptMoves(cfg, t, a, t')
    ensures Moves(cfg, s, a, With(t', s.hubs)) && Sim(cfg, plans, t', With(t', s.hubs))
  {
    hide Rel, Sound, A.Next, Local;
  }

  /** Every step of the system on scripts is a step of the system on ledgers. */
  lemma Follows(cfg: Config, plans: seq<Plan>, t: ScriptSys, s: Sys, a: Action, t': ScriptSys) returns (s': Sys)
    requires Started(cfg, s) && Sim(cfg, plans, t, s) && Sensible(cfg) && Shape(cfg, s) && ScriptShape(cfg, t)
    requires ScriptNext(cfg, t, a, t') && Planned(cfg, plans, t, a)
    ensures Step(cfg, s, a, s') && Sim(cfg, plans, t', s')
  {
    hide Started, Shape, ScriptShape, Sensible, HubsRel, Planned, A.Legal;
    match a
    case Serve(q, g) => s' := ServeFollows(cfg, plans, t, s, q, g, t');
    case Arrive(i, ri) => s' := ArriveFollows(cfg, plans, t, s, i, ri, t');
    case Lend(i) => s' := LendFollows(cfg, plans, t, s, i, t');
    case Credit(j) => s' := CreditFollows(cfg, plans, t, s, j, t');
    case Other(_, _, _) => s' := OtherFollows(cfg, plans, t, s, a, t');
    case Tick(to) =>
      s' := s.(now := to);
      TickFollows(cfg, plans, t, s, to);
    case _ =>
      s' := With(t', s.hubs);
      AsideFollows(cfg, plans, t, s, a, t');
  }

  lemma SimAtStart(cfg: Config, plans: seq<Plan>, t: ScriptSys)
    requires Init(cfg, With(t, Blank(cfg))) && t.dbs == seq(|cfg.bases|, _ => map[])
    requires |plans| == |cfg.bases| && forall r :: 0 <= r < |plans| ==> Sound(plans[r])
    ensures Sim(cfg, plans, t, With(t, Blank(cfg)))
  {
    hide Sound, Shape;
    var hubs := Blank(cfg);
    forall r | 0 <= r < |hubs| ensures Rel(plans[r], t.dbs[r], hubs[r].st, HubClock(cfg, t.now, r)) {
      assert t.dbs[r] == map[] && hubs[r].st == M.EMPTY;
    }
  }

  /** One more step, on ledgers. */
  lemma ShadowStep(cfg: Config, plans: seq<Plan>, before: seq<Sys>, acts: seq<Action>, t: ScriptSys, a: Action,
                   t': ScriptSys)
    returns (s': Sys)
    requires Run(cfg, before, acts) && before != [] && Sim(cfg, plans, t, End(before))
    requires Sensible(cfg) && |plans| == |cfg.bases|
    requires ScriptShape(cfg, t) ==> ScriptNext(cfg, t, a, t') && Planned(cfg, plans, t, a)
    ensures Run(cfg, before + [s'], acts + [a]) && Sim(cfg, plans, t', s')
  {
    hide Run, Sim, Init, Started, Sensible, Shape, ScriptShape, ScriptNext, Planned, Step;
    ReturnsNameStartedWindows(cfg, before, acts, |before| - 1);
    StartedShape(cfg, End(before));
    SimShape(cfg, plans, t, End(before));
    s' := Follows(cfg, plans, t, End(before), a, t');
    Extends(cfg, before, acts, a, s');
  }

  /** The first n steps, on ledgers. */
  lemma {:induction false} Shadow(cfg: Config, plans: seq<Plan>, script: seq<ScriptSys>, actions: seq<Action>, n: nat)
    returns (states: seq<Sys>)
    requires ScriptRun(cfg, script, actions) && PlannedRun(cfg, plans, script, actions) && n <= |actions|
    ensures |states| == n + 1 && Run(cfg, states, actions[..n])
    ensures forall i :: 0 <= i <= n ==> Sim(cfg, plans, script[i], states[i])
  {
    hide Rel, Sound, Shape, ScriptShape, ScriptNext, Planned, Step, Sensible, HubsRel;
    if n == 0 {
      states := [With(script[0], Blank(cfg))];
      SimAtStart(cfg, plans, script[0]);
    } else {
      hide Init, Run, Sim;
      var before := Shadow(cfg, plans, script, actions, n - 1);
      assert Sim(cfg, plans, script[n - 1], before[n - 1]);
      var s' := ShadowStep(cfg, plans, before, actions[..n - 1], script[n - 1], actions[n - 1], script[n]);
      assert actions[..n] == actions[..n - 1] + [actions[n - 1]];
      states := before + [s'];
    }
  }

  /** Every run of the system on scripts is, store by store and ledger by ledger, a run of the system on ledgers: the
      same edges, requests, answers, returns and transfers at every point. */
  lemma ScriptRunsAreRuns(cfg: Config, plans: seq<Plan>, script: seq<ScriptSys>, actions: seq<Action>)
    returns (states: seq<Sys>)
    requires ScriptRun(cfg, script, actions) && PlannedRun(cfg, plans, script, actions)
    ensures Run(cfg, states, actions) && |states| == |script|
    ensures forall i :: 0 <= i < |states| ==> states[i] == With(script[i], states[i].hubs)
  {
    hide Run, ScriptNext, Planned, HubsRel, Init, PlannedRun;
    states := Shadow(cfg, plans, script, actions, |actions|);
    assert actions[..|actions|] == actions;
    forall i | 0 <= i < |states| ensures states[i] == With(script[i], states[i].hubs) {
      assert Sim(cfg, plans, script[i], states[i]);
    }
  }

  /** Global safety on expiring keys. At any point of any run, what all edges of all regions together charged to one
      window is at most the quota, plus debt already settled, plus what each edge's balance may be overdrawn by; without
      charges after the fact it is at most the quota. */
  lemma ScriptSafety(cfg: Config, plans: seq<Plan>, script: seq<ScriptSys>, actions: seq<Action>, n: nat, w: int)
    requires ScriptRun(cfg, script, actions) && PlannedRun(cfg, plans, script, actions) && n < |script|
    ensures var nodes := script[n].nodes;
            && SumOf(nodes, ChargedAt(w)) <= cfg.quota + SumOf(nodes, SettledAt(w)) + cfg.bound * |nodes|
            && (cfg.bound == 0 ==> SumOf(nodes, ChargedAt(w)) <= cfg.quota)
  {
    hide Run, ScriptRun, PlannedRun, SumOf, A.BookAt;
    var states := ScriptRunsAreRuns(cfg, plans, script, actions);
    assert states[n].nodes == script[n].nodes;
    GlobalSafety(cfg, states, actions, n, w);
    if cfg.bound == 0 {
      NoWindowAdmitsMoreThanQuota(cfg, states, actions, n, w);
    }
  }
}
