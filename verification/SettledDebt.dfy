/** The documented bound on a window's charges, quota and one debt bound per edge: when it holds, and how it breaks. */
module SettledDebt {
  import opened Numbers
  import opened Grants
  import opened Sums
  import opened System
  import opened Safety
  import opened Guarantees
  import L = Lease
  import A = Accounts
  import H = Hub
  import M = MemLedger
  import T = Traces

  // No edge drains debt: the bound holds.

  /** Every drain of the run finds no debt to settle. */
  ghost predicate DrainsNoDebt(states: seq<Sys>, actions: seq<Action>)
    requires |states| == |actions| + 1
  {
    forall i :: 0 <= i < |actions| && actions[i].Drain? && actions[i].node < |states[i].nodes| ==>
                  0 <= states[i].nodes[actions[i].node].edge.c.tokens
  }

  /** Only the drain of a negative balance settles debt. */
  lemma SettledAfter(e: A.Edge, step: L.Step, w: int)
    ensures A.BookAt(A.Next(e, step).books, w).settled ==
            A.BookAt(e.books, w).settled
            + if step.GiveBack? && w == e.c.win then Max(-L.Returnable(e.c, step.now), 0) else 0
  {
    hide A.Next, A.Entry, A.NewEntry, A.BookAt;
    A.BooksAfter(e, step, w);
    SettledEntered(e.c, step);
  }

  lemma SettledEntered(c: L.Counter, step: L.Step)
    ensures A.Entry(c, step).settled == if step.GiveBack? then Max(-L.Returnable(c, step.now), 0) else 0
    ensures step.Accept? ==> A.NewEntry(c, step.resp).settled == 0
  {}

  lemma StepSettlesNothing(cfg: Config, s: Sys, a: Action, s': Sys, n: nat, w: int)
    requires Sensible(cfg) && Shape(cfg, s) && Step(cfg, s, a, s') && n < |s.nodes|
    requires a.Drain? && a.node < |s.nodes| ==> 0 <= s.nodes[a.node].edge.c.tokens
    ensures n < |s'.nodes| && SettledAt(w)(s'.nodes[n]) == SettledAt(w)(s.nodes[n])
  {
    hide A.Next, A.BookAt, M.ReturnOne, M.LendNext, M.LendAmount, M.CreditNext, T.MemStep, Outcome, H.ResponseOf,
      A.Legal;
    match a
    case Spend(_, step) => SettledAfter(s.nodes[n].edge, step, w);
    case Drain(_) => SettledAfter(s.nodes[n].edge, L.GiveBack(EdgeClock(cfg, s.now, n)), w);
    case Deliver(i, jitter) =>
      var m := s.answers[i];
      SettledAfter(s.nodes[n].edge, L.Accept(m.resp, m.sent, EdgeClock(cfg, s.now, m.node), jitter), w);
    case _ =>
  }

  lemma {:induction false} NothingSettled(cfg: Config, states: seq<Sys>, actions: seq<Action>, i: nat, n: nat, w: int)
    requires Run(cfg, states, actions) && DrainsNoDebt(states, actions) && i < |states| && n < |states[i].nodes|
    ensures SettledAt(w)(states[i].nodes[n]) == 0
  {
    hide Step;
    if i > 0 {
      RunKeeps(cfg, states, actions, i - 1);
      RunKeeps(cfg, states, actions, i);
      ShapeOf(cfg, states[i - 1]);
      ShapeOf(cfg, states[i]);
      hide Inv, Init;
      NothingSettled(cfg, states, actions, i - 1, n, w);
      assert Step(cfg, states[i - 1], actions[i - 1], states[i]);
      StepSettlesNothing(cfg, states[i - 1], actions[i - 1], states[i], n, w);
    }
  }

  /** In every run whose drains find no debt, a window's charges are within the quota and one debt bound per edge. */
  lemma DebtBoundHolds(cfg: Config, states: seq<Sys>, actions: seq<Action>, i: nat, w: int)
    requires Run(cfg, states, actions) && DrainsNoDebt(states, actions) && i < |states|
    ensures SumOf(states[i].nodes, SettledAt(w)) == 0
    ensures SumOf(states[i].nodes, ChargedAt(w)) <= cfg.quota + cfg.bound * |states[i].nodes|
  {
    hide Run, DrainsNoDebt, SumOf, A.BookAt;
    var nodes := states[i].nodes;
    forall j | 0 <= j < |nodes| ensures SettledAt(w)(nodes[j]) == 0 {
      NothingSettled(cfg, states, actions, i, j, w);
    }
    SumSame(nodes, SettledAt(w), (m: Node) => 0);
    SumOfNone(nodes);
    GlobalSafety(cfg, states, actions, i, w);
  }

  // Every counter drained at most once in a window: one more debt bound each.

  predicate Drains(a: Action, n: nat) {
    a.Drain? && a.node == n
  }

  /** Counter n is drained in window w among the first i actions. */
  ghost predicate Drained(states: seq<Sys>, actions: seq<Action>, n: nat, w: int, i: nat)
    requires i <= |actions| <= |states|
  {
    exists j :: 0 <= j < i && Drains(actions[j], n) && n < |states[j].nodes| && states[j].nodes[n].edge.c.win == w
  }

  /** No counter is drained twice in one of its windows. */
  ghost predicate DrainsOncePerWindow(states: seq<Sys>, actions: seq<Action>)
    requires |states| == |actions| + 1
  {
    forall i, n: nat :: 0 <= i < |actions| && Drains(actions[i], n) && n < |states[i].nodes| ==>
                          !Drained(states, actions, n, states[i].nodes[n].edge.c.win, i)
  }

  /** What one action settles of window w at edge n. */
  lemma StepSettles(cfg: Config, s: Sys, a: Action, s': Sys, n: nat, w: int)
    requires Inv(cfg, s) && Sensible(cfg) && Shape(cfg, s) && Step(cfg, s, a, s') && n < |s.nodes|
    ensures n < |s'.nodes|
    ensures SettledAt(w)(s'.nodes[n]) <= SettledAt(w)(s.nodes[n])
            + if Drains(a, n) && s.nodes[n].edge.c.win == w then cfg.bound else 0
  {
    if Drains(a, n) {
      var t := EdgeClock(cfg, s.now, n);
      BackBounded(cfg, s.nodes, n, t);
      SettledAfter(s.nodes[n].edge, L.GiveBack(t), w);
      hide Inv, A.Next, A.BookAt, L.Returnable;
    } else {
      hide Inv;
      StepSettlesElsewhere(cfg, s, a, s', n, w);
    }
  }

  lemma StepSettlesElsewhere(cfg: Config, s: Sys, a: Action, s': Sys, n: nat, w: int)
    requires Sensible(cfg) && Shape(cfg, s) && Step(cfg, s, a, s') && n < |s.nodes| && !Drains(a, n)
    ensures n < |s'.nodes| && SettledAt(w)(s'.nodes[n]) == SettledAt(w)(s.nodes[n])
  {
    hide A.Next, A.BookAt, M.ReturnOne, M.LendNext, M.LendAmount, M.CreditNext, T.MemStep, Outcome, H.ResponseOf,
      A.Legal, L.Returnable;
    match a
    case Spend(_, step) => SettledAfter(s.nodes[n].edge, step, w);
    case Deliver(i, jitter) =>
      var m := s.answers[i];
      SettledAfter(s.nodes[n].edge, L.Accept(m.resp, m.sent, EdgeClock(cfg, s.now, m.node), jitter), w);
    case _ =>
  }

  lemma {:induction false} SettledWithin(cfg: Config, states: seq<Sys>, actions: seq<Action>, i: nat, n: nat, w: int)
    requires Run(cfg, states, actions) && DrainsOncePerWindow(states, actions) && i < |states| && n < |states[i].nodes|
    ensures SettledAt(w)(states[i].nodes[n]) <= if Drained(states, actions, n, w, i) then cfg.bound else 0
  {
    if i > 0 {
      RunKeeps(cfg, states, actions, i - 1);
      RunKeeps(cfg, states, actions, i);
      ShapeOf(cfg, states[i - 1]);
      ShapeOf(cfg, states[i]);
      BoundIsNat(cfg, states[i]);
      hide Inv, Init, Step, Sensible;
      SettledWithin(cfg, states, actions, i - 1, n, w);
      assert Step(cfg, states[i - 1], actions[i - 1], states[i]);
      StepSettles(cfg, states[i - 1], actions[i - 1], states[i], n, w);
    } else {
      hide Step;
      RunKeeps(cfg, states, actions, 0);
      BoundIsNat(cfg, states[0]);
    }
  }

  /** In every run that drains each counter at most once in each of its windows, a window's charges are within the quota
      and two debt bounds per counter. */
  lemma DebtBoundOnce(cfg: Config, states: seq<Sys>, actions: seq<Action>, i: nat, w: int)
    requires Run(cfg, states, actions) && DrainsOncePerWindow(states, actions) && i < |states|
    ensures SumOf(states[i].nodes, ChargedAt(w)) <= cfg.quota + 2 * cfg.bound * |states[i].nodes|
  {
    hide Run, DrainsOncePerWindow, SumOf, A.BookAt, Inv;
    var nodes := states[i].nodes;
    RunKeeps(cfg, states, actions, i);
    BoundIsNat(cfg, states[i]);
    RunLength(cfg, states, actions);
    var none := (m: Node) => 0;
    forall j: nat | j < |nodes| ensures SettledAt(w)(nodes[j]) <= none(nodes[j]) + none(nodes[j]) + cfg.bound {
      SettledWithin(cfg, states, actions, i, j, w);
    }
    SumWithin(nodes, SettledAt(w), none, none, cfg.bound);
    SumOfNone(nodes);
    GlobalSafety(cfg, states, actions, i, w);
    assert 2 * cfg.bound * |nodes| == cfg.bound * |nodes| + cfg.bound * |nodes|;
  }

  lemma RunLength(cfg: Config, states: seq<Sys>, actions: seq<Action>)
    requires Run(cfg, states, actions)
    ensures |states| == |actions| + 1
  {}
}
