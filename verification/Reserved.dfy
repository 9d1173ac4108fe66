/** The system with nothing assumed of refunds but that reservations make them: its runs are the runs of the system. */
module Reserved {
  import opened Ledger
  import opened System
  import opened Refunds
  import R = Reserve
  import L = Lease
  import A = Accounts
  import Safety
  import M = MemLedger
  import T = Traces
  import H = Hub
  import G = Grants
  import opened Sums
  import Guarantees

  /** The step an action makes at edge n, if any. */
  function StepAt(cfg: Config, s: Sys, a: Action, n: nat): Option<L.Step>
    requires n < |cfg.sites|
  {
    match a
    case Spend(m, step) => if m == n then Some(step) else None
    case Drain(m) => if m == n then Some(L.GiveBack(EdgeClock(cfg, s.now, n))) else None
    case Deliver(i, jitter) =>
      if i < |s.answers| && s.answers[i].node == n
      then Some(L.Accept(s.answers[i].resp, s.answers[i].sent, EdgeClock(cfg, s.now, n), jitter)) else None
    case _ => None
  }

  /** The steps of edge n over the first i actions, each with the reservation that made it. */
  function EdgeRun(cfg: Config, states: seq<Sys>, actions: seq<Action>, owners: seq<Option<nat>>, n: nat,
                   i: nat): seq<Owned>
    requires n < |cfg.sites| && i <= |actions| <= |states| && |owners| == |actions|
  {
    if i == 0 then []
    else
      var before := EdgeRun(cfg, states, actions, owners, n, i - 1);
      var step := StepAt(cfg, states[i - 1], actions[i - 1], n);
      if step.Some? then before + [Owned(step.value, owners[i - 1])] else before
  }

  /** What an edge's own steps must be, whoever makes them. */
  ghost predicate Lawful(step: L.Step, bound: int) {
    && (step.Take? ==> 1 <= step.cost)
    && (step.Adjust? && 0 < step.delta ==> 0 < step.maxDebt <= bound)
  }

  /** A run of the system in which every refund is a reservation's. */
  ghost predicate ReservedRun(cfg: Config, states: seq<Sys>, actions: seq<Action>, owners: seq<Option<nat>>,
                              rs: seq<R.Reservation>)
    reads rs
  {
    && |states| == |actions| + 1 && |owners| == |actions|
    && Init(cfg, states[0])
    && (forall i :: 0 <= i < |actions| && Shape(cfg, states[i]) ==> Moves(cfg, states[i], actions[i], states[i + 1]))
    && (forall i :: 0 <= i < |actions| && actions[i].Spend? ==> Lawful(actions[i].step, cfg.bound))
    && (forall n: nat :: n < |cfg.sites| ==>
          RefundsAreOwned(EdgeRun(cfg, states, actions, owners, n, |actions|), |rs|))
    && (forall n: nat, o: nat :: n < |cfg.sites| && o < |rs| ==>
          Performs(n, EdgeRun(cfg, states, actions, owners, n, |actions|), o, rs[o].log))
    && (forall o: nat :: o < |rs| ==> R.NeverOverRefunds(rs[o].log))
  }

  lemma {:induction false} EdgeRunGrows(
    cfg: Config, states: seq<Sys>, actions: seq<Action>, owners: seq<Option<nat>>, n: nat, i: nat, j: nat)
    requires n < |cfg.sites| && i <= j <= |actions| <= |states| && |owners| == |actions|
    ensures EdgeRun(cfg, states, actions, owners, n, i) <= EdgeRun(cfg, states, actions, owners, n, j)
    decreases j
  {
    hide StepAt;
    if i < j {
      EdgeRunGrows(cfg, states, actions, owners, n, i, j - 1);
    }
  }

  /** An action changes an edge by the step it makes there. */
  lemma MovesEdge(cfg: Config, s: Sys, a: Action, s': Sys, n: nat)
    requires Sensible(cfg) && Shape(cfg, s) && Moves(cfg, s, a, s') && n < |s.nodes|
    ensures |s'.nodes| == |s.nodes|
    ensures s'.nodes[n].edge ==
            var step := StepAt(cfg, s, a, n);
            if step.Some? then A.Next(s.nodes[n].edge, step.value) else s.nodes[n].edge
  {
    hide A.Next, M.ReturnOne, M.LendNext, M.LendAmount, M.CreditNext, T.MemStep, G.Outcome, H.ResponseOf;
  }

  lemma OneMoreReached(e: A.Edge, run: seq<Owned>, x: Owned)
    ensures Reached(e, run + [x]) == A.Next(Reached(e, run), x.step)
  {
    assert (run + [x])[..|run|] == run;
  }

  /** An edge is where its own steps have taken it. */
  lemma EdgeReached(cfg: Config, states: seq<Sys>, actions: seq<Action>, owners: seq<Option<nat>>, n: nat, i: nat)
    requires n < |cfg.sites| && i < |actions| <= |states| - 1 && |owners| == |actions|
    requires Sensible(cfg) && Shape(cfg, states[i]) && Moves(cfg, states[i], actions[i], states[i + 1])
    requires states[i].nodes[n].edge == Reached(A.NEW_EDGE, EdgeRun(cfg, states, actions, owners, n, i))
    ensures |states[i + 1].nodes| == |states[i].nodes|
    ensures states[i + 1].nodes[n].edge == Reached(A.NEW_EDGE, EdgeRun(cfg, states, actions, owners, n, i + 1))
  {
    hide Moves, StepAt, A.Next, Reached;
    MovesEdge(cfg, states[i], actions[i], states[i + 1], n);
    var step := StepAt(cfg, states[i], actions[i], n);
    if step.Some? {
      OneMoreReached(A.NEW_EDGE, EdgeRun(cfg, states, actions, owners, n, i), Owned(step.value, owners[i]));
    }
  }

  /** A step of an edge that is not a refund is legal as it is; a refund because reservations make it. */
  lemma SpendIsLegal(
    cfg: Config, states: seq<Sys>, actions: seq<Action>, owners: seq<Option<nat>>, rs: seq<R.Reservation>, i: nat)
    requires ReservedRun(cfg, states, actions, owners, rs) && i < |actions| && actions[i].Spend?
    requires Sensible(cfg) && Shape(cfg, states[i]) && Moves(cfg, states[i], actions[i], states[i + 1])
    requires var n := actions[i].node;
             states[i].nodes[n].edge == Reached(A.NEW_EDGE, EdgeRun(cfg, states, actions, owners, n, i))
    ensures A.Legal(states[i].nodes[actions[i].node].edge, actions[i].step, cfg.bound)
  {
    var n, step := actions[i].node, actions[i].step;
    OwnStepsOnly(cfg, states[i], actions[i], states[i + 1]);
    hide Moves, Reached, Performs, R.NeverOverRefunds, RefundsAreOwned, Init, Shape, Sensible;
    hide EdgeRun;
    var all := EdgeRun(cfg, states, actions, owners, n, |actions|);
    var k := |EdgeRun(cfg, states, actions, owners, n, i)|;
    SpendInRun(cfg, states, actions, owners, i);
    if step.Adjust? && step.delta < 0 {
      forall o | 0 <= o < |rs| ensures R.NeverOverRefunds(rs[o].log) && Performs(n, all, o, rs[o].log) {}
      RefundsAreLegal(n, all, rs, k, cfg.bound);
    }
  }

  /** An edge's own step stands in its run, after what came before. */
  lemma SpendInRun(cfg: Config, states: seq<Sys>, actions: seq<Action>, owners: seq<Option<nat>>, i: nat)
    requires i < |actions| <= |states| && |owners| == |actions| && actions[i].Spend? && actions[i].node < |cfg.sites|
    ensures var n := actions[i].node;
            var before := EdgeRun(cfg, states, actions, owners, n, i);
            var all := EdgeRun(cfg, states, actions, owners, n, |actions|);
            |before| < |all| && all[..|before|] == before && all[|before|] == Owned(actions[i].step, owners[i])
  {
    var n := actions[i].node;
    EdgeRunGrows(cfg, states, actions, owners, n, i + 1, |actions|);
    var before := EdgeRun(cfg, states, actions, owners, n, i);
    assert EdgeRun(cfg, states, actions, owners, n, i + 1) == before + [Owned(actions[i].step, owners[i])];
  }

  lemma OwnStepsOnly(cfg: Config, s: Sys, a: Action, s': Sys)
    requires Sensible(cfg) && Shape(cfg, s) && Moves(cfg, s, a, s') && a.Spend?
    ensures a.node < |cfg.sites| && !a.step.Accept? && !a.step.GiveBack?
  {}

  /** Every run in which refunds are made by reservations only is a run of the system: what the system promises holds of
      it, and nothing had to be assumed of its refunds. */
  lemma {:induction false} ReservedRunsAreRuns(
    cfg: Config, states: seq<Sys>, actions: seq<Action>, owners: seq<Option<nat>>, rs: seq<R.Reservation>, i: nat)
    requires ReservedRun(cfg, states, actions, owners, rs) && i <= |actions|
    ensures Run(cfg, states[..i + 1], actions[..i])
    ensures Sensible(cfg) && Shape(cfg, states[i])
    ensures forall n: nat :: n < |cfg.sites| ==>
              && n < |states[i].nodes|
              && states[i].nodes[n].edge == Reached(A.NEW_EDGE, EdgeRun(cfg, states, actions, owners, n, i))
  {
    if i == 0 {
    } else {
      ReservedRunsAreRuns(cfg, states, actions, owners, rs, i - 1);
      assert Moves(cfg, states[i - 1], actions[i - 1], states[i]);
      if actions[i - 1].Spend? {
        OwnStepsOnly(cfg, states[i - 1], actions[i - 1], states[i]);
        SpendIsLegal(cfg, states, actions, owners, rs, i - 1);
      }
      hide ReservedRun, Init, Moves, A.Legal, EdgeRun, Reached;
      assert Step(cfg, states[i - 1], actions[i - 1], states[i]);
      RunOneMore(cfg, states, actions, i);
      forall n: nat | n < |cfg.sites|
        ensures n < |states[i].nodes|
        ensures states[i].nodes[n].edge == Reached(A.NEW_EDGE, EdgeRun(cfg, states, actions, owners, n, i))
      {
        EdgeReached(cfg, states, actions, owners, n, i - 1);
      }
    }
  }

  lemma RunOneMore(cfg: Config, states: seq<Sys>, actions: seq<Action>, i: nat)
    requires 1 <= i <= |actions| <= |states| - 1 && Run(cfg, states[..i], actions[..i - 1])
    requires Sensible(cfg) && Shape(cfg, states[i - 1]) && Step(cfg, states[i - 1], actions[i - 1], states[i])
    ensures Run(cfg, states[..i + 1], actions[..i]) && Shape(cfg, states[i])
  {
    hide Step, Init, Sensible, Shape;
    var more, acts := states[..i + 1], actions[..i];
    forall j | 0 <= j < i && Shape(cfg, more[j]) ensures Step(cfg, more[j], acts[j], more[j + 1]) {
      if j < i - 1 {
        assert states[..i][j] == more[j] && states[..i][j + 1] == more[j + 1] && actions[..i - 1][j] == acts[j];
      }
    }
    Safety.RunKeeps(cfg, more, acts, i);
    Safety.ShapeOf(cfg, more[i]);
  }

  /** So global safety holds with nothing assumed of refunds. */
  lemma ReservedRunsAreSafe(
    cfg: Config, states: seq<Sys>, actions: seq<Action>, owners: seq<Option<nat>>, rs: seq<R.Reservation>, w: int)
    requires ReservedRun(cfg, states, actions, owners, rs)
    ensures var nodes := states[|actions|].nodes;
            SumOf(nodes, Guarantees.ChargedAt(w)) <=
            cfg.quota + SumOf(nodes, Guarantees.SettledAt(w)) + cfg.bound * |nodes|
  {
    hide Run, SumOf;
    ReservedRunsAreRuns(cfg, states, actions, owners, rs, |actions|);
    assert states[..|actions| + 1] == states && actions[..|actions|] == actions;
    Guarantees.GlobalSafety(cfg, states, actions, |actions|, w);
  }
}
