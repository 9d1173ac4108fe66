/** Runs that drain every counter once and break the documented bound: requests admitted in earlier windows settle their
    extra charges in a later one, and the counter is drained between two of them. */
module DebtRuns {
  import opened Numbers
  import opened Ledger
  import opened Grants
  import opened Sums
  import opened System
  import opened Safety
  import opened Guarantees
  import opened SettledDebt
  import L = Lease
  import A = Accounts
  import H = Hub
  import M = MemLedger
  import HubSteps
  import Sliding

  /** A deployment of one region, with edges. */
  ghost predicate OneRegion(cfg: Config) {
    Sensible(cfg) && |cfg.bases| == 1 && 0 < |cfg.sites|
  }

  lemma OnlyBase(cfg: Config)
    requires OneRegion(cfg)
    ensures cfg.regional ==> cfg.bases[0] == cfg.quota
    ensures forall n :: 0 <= n < |cfg.sites| ==> cfg.sites[n].region == 0
  {
    if cfg.regional {
      SumOfOnly(cfg.bases);
    }
  }

  lemma SumOfOnly(bases: seq<int>)
    requires |bases| == 1
    ensures SumOf(bases, (b: int) => b) == bases[0]
  {
    assert bases[..0] == [];
  }

  // The hub.

  /** When the hub's clock shows the start of window w. */
  function StartOf(cfg: Config, w: int): int
    requires 0 < |cfg.hubOffsets|
  {
    w * cfg.win - cfg.hubOffsets[0]
  }

  /** The hub is at the start of window w, of which it has granted u; it has granted nothing in the window before or in
      any later one. */
  ghost predicate HubAt(cfg: Config, s: Sys, w: int, u: int) {
    && OneRegion(cfg) && |s.hubs| == 1 && s.hubs[0].base == cfg.bases[0] && s.now == StartOf(cfg, w)
    && Used(cfg, s.hubs[0], w) == u && Used(cfg, s.hubs[0], w - 1) == 0
    && (forall v :: w < v ==> Used(cfg, s.hubs[0], v) == 0) && (forall v :: AllocOf(cfg, s.hubs[0], v) == 0)
  }

  /** An ask for q tokens. */
  function AskFor(cfg: Config, hub: Hub, q: int): GrantInput {
    GrantInput(cfg.algo, cfg.key, cfg.quota, cfg.win, 1.0, q, "", 2000, 1000, "", 0, 0,
               if cfg.regional then hub.base else -1)
  }

  /** All of an untouched quota is there for the asking; once it is granted, nothing is. */
  lemma GrantsAll(cfg: Config, s: Sys, w: int, u: int, q: int)
    requires HubAt(cfg, s, w, u) && 1 <= q <= cfg.quota && (u == 0 || u == cfg.quota)
    ensures var g, hub, t := AskFor(cfg, s.hubs[0], q), s.hubs[0], HubClock(cfg, s.now, 0);
            && Asks(cfg, hub, g) && M.EdgesAfter(hub.st, g, t, hub.st.edges)
            && Granted(g, M.ReadsOf(hub.st, g, t)) == if u == 0 then q else 0
  {
    hide Decayed, M.Active, M.TatOf;
    OnlyBase(cfg);
    var t := HubClock(cfg, s.now, 0);
    assert t == w * cfg.win;
    assert (w + 1) * cfg.win == w * cfg.win + cfg.win;
    WindowUnique(t, cfg.win, w);
    Sliding.DecayedBounds(0, t, cfg.win);
    var g := AskFor(cfg, s.hubs[0], q);
    var r := M.ReadsOf(s.hubs[0].st, g, t);
    assert r.cur == Used(cfg, s.hubs[0], w) && r.prev == Used(cfg, s.hubs[0], w - 1);
    assert r.alloc == AllocOf(cfg, s.hubs[0], w) == 0;
    assert Avail(g, r) == cfg.quota - u;
    GrantsAlone(g, r);
  }

  /** An ask that shares with no other. */
  lemma GrantsAlone(g: GrantInput, r: Reads)
    requires WellFormed(g) && 1 <= r.active && g.edge == ""
    ensures Granted(g, r) == Max(Min(g.target, Avail(g, r)), 0)
  {
    hide Avail;
    assert Sharers(g, r) == 1;
  }

  lemma AnswerWith(g: GrantInput, r: Reads)
    requires WellFormed(g) && g.algo != TokenBucket && g.parentKey == "" && 1 <= r.active
    ensures var a := H.ResponseOf(Outcome(g, r));
            && a.granted == Granted(g, r) && a.win == WindowOf(r.now, g.win) && a.waiting == (Granted(g, r) == 0)
            && a.expiresIn == Remainder(r.now, g.win)
  {
    hide Granted, Avail, Sharers, Retry;
  }

  // The system, one action at a time.

  function Sent(s: Sys, n: nat): Sys {
    s.(requests := s.requests + [Request(n, s.now)])
  }

  /** The hub has answered the last request, edge n's. */
  function Given(cfg: Config, s: Sys, n: nat, q: int): Sys
    requires OneRegion(cfg) && |s.hubs| == 1 && n < |cfg.sites| && WellFormed(AskFor(cfg, s.hubs[0], q))
  {
    var hub, t, g := s.hubs[0], HubClock(cfg, s.now, 0), AskFor(cfg, s.hubs[0], q);
    s.(hubs := s.hubs[0 := hub.(st := hub.st.(vals := M.GrantVals(hub.st, g, t)))],
       answers := s.answers + [Answer(n, 0, H.ResponseOf(ReplyTo(cfg, s, 0, g)), EdgeClock(cfg, s.now, n))])
  }

  /** Edge n has received the only answer on its way. */
  function Received(cfg: Config, s: Sys, n: nat): Sys
    requires n < |s.nodes| && n < |cfg.sites| && s.answers != []
  {
    var a := s.answers[0];
    s.(answers := Without(s.answers, 0),
       nodes := Stepped(s.nodes, n, L.Accept(a.resp, a.sent, EdgeClock(cfg, s.now, n), 0)))
  }

  function Spent(s: Sys, n: nat, step: L.Step): Sys
    requires n < |s.nodes|
  {
    s.(nodes := Stepped(s.nodes, n, step))
  }

  /** The answer on its way to edge n grants q tokens of window w; none, when q is zero. */
  ghost predicate Carries(cfg: Config, s: Sys, n: nat, w: int, q: int)
    requires n < |cfg.sites|
  {
    && |s.answers| == 1
    && var a := s.answers[0];
       && a.node == n && a.sent == EdgeClock(cfg, s.now, n)
       && a.resp.granted == q && a.resp.win == w && a.resp.expiresIn == cfg.win && a.resp.waiting == (q == 0)
  }

  lemma SendStep(cfg: Config, s: Sys, n: nat)
    requires Sensible(cfg) && Shape(cfg, s) && n < |s.nodes|
    ensures Step(cfg, s, Send(n), Sent(s, n)) && Shape(cfg, Sent(s, n))
  {}

  /** The hub answers edge n at the start of window w. */
  lemma ServeStep(cfg: Config, s: Sys, n: nat, w: int, u: int, q: int)
    requires HubAt(cfg, s, w, u) && Shape(cfg, s) && n < |s.nodes| && s.answers == []
    requires 1 <= q <= cfg.quota && (u == 0 || u == cfg.quota)
    requires s.requests != [] && s.requests[|s.requests| - 1] == Request(n, s.now)
    ensures var g, got := AskFor(cfg, s.hubs[0], q), if u == 0 then q else 0;
            && WellFormed(g) && Step(cfg, s, Serve(|s.requests| - 1, g), Given(cfg, s, n, q))
            && Carries(cfg, Given(cfg, s, n, q), n, w, got)
  {
    GrantsAll(cfg, s, w, u, q);
    OnlyBase(cfg);
    var hub, t, g := s.hubs[0], HubClock(cfg, s.now, 0), AskFor(cfg, s.hubs[0], q);
    assert t == w * cfg.win;
    assert (w + 1) * cfg.win == w * cfg.win + cfg.win;
    WindowUnique(t, cfg.win, w);
    AnswerWith(g, M.ReadsOf(hub.st, g, t));
    hide Granted, M.ReadsOf, M.GrantVals, M.EdgesAfter, Outcome, Asks, AskFor, WellFormed, H.ResponseOf, HubAt, Used,
      AllocOf;
    assert Given(cfg, s, n, q).hubs[0].st == hub.st.(vals := M.GrantVals(hub.st, g, t));
  }

  /** The grant is counted in window w, and nothing else changes at the hub. */
  lemma ServeCounts(cfg: Config, s: Sys, n: nat, w: int, u: int, q: int)
    requires HubAt(cfg, s, w, u) && 1 <= q <= cfg.quota && (u == 0 || u == cfg.quota) && n < |cfg.sites|
    requires WellFormed(AskFor(cfg, s.hubs[0], q))
    ensures HubAt(cfg, Given(cfg, s, n, q), w, if u == 0 then q else u)
  {
    GrantsAll(cfg, s, w, u, q);
    var hub, t, g := s.hubs[0], HubClock(cfg, s.now, 0), AskFor(cfg, s.hubs[0], q);
    assert t == w * cfg.win;
    assert (w + 1) * cfg.win == w * cfg.win + cfg.win;
    WindowUnique(t, cfg.win, w);
    var hub' := Given(cfg, s, n, q).hubs[0];
    hide M.GrantVals, Asks, Granted, M.ReadsOf, Sensible, AskFor, M.EdgesAfter, WellFormed, Outcome, H.ResponseOf;
    forall v { HubSteps.ServeCounts(cfg, hub, g, t, hub'.st, v); }
    HubSteps.GrantKeepsTransfers(cfg.key, hub.st, g, t, hub'.st);
    forall v ensures AllocOf(cfg, hub', v) == 0 {
      assert AllocOf(cfg, hub, v) == 0;
    }
  }

  /** Two windows on, nothing of the new one is granted yet. */
  lemma TickStep(cfg: Config, s: Sys, w: int, u: int)
    requires HubAt(cfg, s, w, u) && Shape(cfg, s)
    ensures var s' := s.(now := StartOf(cfg, w + 2));
            Step(cfg, s, Tick(StartOf(cfg, w + 2)), s') && Shape(cfg, s') && HubAt(cfg, s', w + 2, 0)
  {
    hide Used, AllocOf;
    assert (w + 2) * cfg.win == w * cfg.win + 2 * cfg.win;
  }

  // The edge.

  /** An edge that holds nothing hears of a newer window: a new balance, of what it was granted. */
  lemma Receives(e: A.Edge, resp: L.Response, t: int)
    requires e.c.tokens == 0 && e.c.win < resp.win && A.BookAt(e.books, resp.win).charged == 0
    requires 0 <= resp.granted && resp.waiting == (resp.granted == 0) && 0 < resp.expiresIn
    ensures var e' := A.Next(e, L.Accept(resp, t, t, 0));
            && e'.c.gen == e.c.gen + 1 && e'.c.win == resp.win && e'.c.tokens == resp.granted
            && A.BookAt(e'.books, resp.win).charged == 0
            && (0 < resp.granted ==> L.Admits(e'.c, resp.granted, t))
  {
    hide A.Next, A.Entry, A.NewEntry, A.BookAt;
    A.NextCounter(e, L.Accept(resp, t, t, 0));
    A.BooksAfter(e, L.Accept(resp, t, t, 0), resp.win);
    assert A.NewEntry(e.c, resp).charged == 0 by { AcceptCharges(e.c, resp); }
  }

  lemma AcceptCharges(c: L.Counter, resp: L.Response)
    ensures A.NewEntry(c, resp).charged == 0
  {}

  /** What a step of the edge's own does when it charges d to the current window. */
  lemma Charges(e: A.Edge, step: L.Step, d: int)
    requires step.Take? || step.Adjust? || step.GiveBack?
    requires d == if step.GiveBack? then 0 else e.c.tokens - L.Apply(e.c, step).tokens
    requires step.Take? ==> L.Admits(e.c, step.cost, step.now)
    ensures var e' := A.Next(e, step);
            && e'.c.gen == e.c.gen && e'.c.win == e.c.win && e'.c.tokens == L.Apply(e.c, step).tokens
            && A.BookAt(e'.books, e.c.win).charged == A.BookAt(e.books, e.c.win).charged + d
  {
    hide A.Next, A.Entry, A.NewEntry, A.BookAt;
    A.NextCounter(e, step);
    A.BooksAfter(e, step, e.c.win);
    assert A.Entry(e.c, step).charged == d by { EntryCharges(e.c, step); }
  }

  lemma EntryCharges(c: L.Counter, step: L.Step)
    requires (step.Take? && L.Admits(c, step.cost, step.now)) || step.Adjust? || step.GiveBack?
    ensures A.Entry(c, step).charged == if step.GiveBack? then 0 else c.tokens - L.Apply(c, step).tokens
  {}

  // Runs.

  /** A request was admitted from balance gen of edge n. */
  ghost predicate Took(states: seq<Sys>, actions: seq<Action>, n: nat, gen: nat, i: nat)
    requires |states| == |actions| + 1
  {
    && i < |actions| && actions[i].Spend? && actions[i].node == n && actions[i].step.Take?
    && n < |states[i].nodes| && states[i].nodes[n].edge.c.gen == gen
    && L.Admits(states[i].nodes[n].edge.c, actions[i].step.cost, actions[i].step.now)
  }

  ghost predicate TookBefore(states: seq<Sys>, actions: seq<Action>, n: nat, gen: nat, j: nat)
    requires |states| == |actions| + 1
  {
    exists i: nat :: i < j && Took(states, actions, n, gen, i)
  }

  predicate Adjusts(a: Action) {
    a.Spend? && a.step.Adjust?
  }

  /** Every re-charge is the one settlement of a request admitted before: no two are of one balance, and one was taken
      from each. */
  ghost predicate SettledOnce(states: seq<Sys>, actions: seq<Action>)
    requires |states| == |actions| + 1
  {
    && (forall j :: 0 <= j < |actions| && Adjusts(actions[j]) ==>
          TookBefore(states, actions, actions[j].node, actions[j].step.gen, j))
    && (forall i, j :: 0 <= i < j < |actions| && Adjusts(actions[i]) && Adjusts(actions[j]) ==>
          actions[i].node != actions[j].node || actions[i].step.gen != actions[j].step.gen)
  }

  lemma TookStays(states: seq<Sys>, actions: seq<Action>, states': seq<Sys>, actions': seq<Action>, n: nat, gen: nat,
                  j: nat, j': nat)
    requires |states| == |actions| + 1 && |states'| == |actions'| + 1 && states <= states' && actions <= actions'
    requires j <= j'
    requires TookBefore(states, actions, n, gen, j)
    ensures TookBefore(states', actions', n, gen, j')
  {
    var i: nat :| i < j && Took(states, actions, n, gen, i);
    assert states'[i] == states[i] && actions'[i] == actions[i];
    assert Took(states', actions', n, gen, i);
  }

  /** One more action settles at most one more request, of a balance that one was admitted from. */
  lemma OnceMore(states: seq<Sys>, actions: seq<Action>, a: Action, s: Sys)
    requires |states| == |actions| + 1 && SettledOnce(states, actions)
    requires Adjusts(a) ==> TookBefore(states, actions, a.node, a.step.gen, |actions|)
    requires Adjusts(a) ==> forall j :: 0 <= j < |actions| && Adjusts(actions[j]) && actions[j].node == a.node ==>
                                          actions[j].step.gen != a.step.gen
    ensures SettledOnce(states + [s], actions + [a])
  {
    hide TookBefore;
    var more, acts := states + [s], actions + [a];
    forall j | 0 <= j < |acts| && Adjusts(acts[j]) ensures TookBefore(more, acts, acts[j].node, acts[j].step.gen, j) {
      assert acts[j] == if j < |actions| then actions[j] else a;
      TookStays(states, actions, more, acts, acts[j].node, acts[j].step.gen, j, j);
    }
    assert forall j :: 0 <= j < |actions| ==> acts[j] == actions[j];
  }

  /** No counter is drained twice. */
  predicate DrainsOnce(actions: seq<Action>) {
    forall i, j :: 0 <= i < j < |actions| && actions[i].Drain? && actions[j].Drain? ==>
                     actions[i].node != actions[j].node
  }

  lemma OnceIsOncePerWindow(states: seq<Sys>, actions: seq<Action>)
    requires |states| == |actions| + 1 && DrainsOnce(actions)
    ensures DrainsOncePerWindow(states, actions)
  {}

  /** A run in which only the first d edges have settled requests or drained, each draining at most once. */
  ghost predicate Told(cfg: Config, states: seq<Sys>, actions: seq<Action>, d: nat) {
    && Run(cfg, states, actions) && SettledOnce(states, actions) && DrainsOnce(actions)
    && forall i :: 0 <= i < |actions| && (Adjusts(actions[i]) || actions[i].Drain?) ==> actions[i].node < d
  }

  lemma ToldNext(cfg: Config, states: seq<Sys>, actions: seq<Action>, d: nat, a: Action, s: Sys)
    requires Told(cfg, states, actions, d) && Sensible(cfg) && Shape(cfg, End(states)) && Step(cfg, End(states), a, s)
    requires !a.Drain? && !Adjusts(a)
    ensures Told(cfg, states + [s], actions + [a], d)
  {
    hide Step, Sensible, Shape, TookBefore, SettledOnce, Run;
    RunLength(cfg, states, actions);
    Extends(cfg, states, actions, a, s);
    OnceMore(states, actions, a, s);
  }

  lemma EndHolds(cfg: Config, states: seq<Sys>, actions: seq<Action>)
    requires Run(cfg, states, actions)
    ensures |states| == |actions| + 1 && Inv(cfg, End(states)) && Sensible(cfg) && Shape(cfg, End(states))
  {
    hide Run;
    RunLength(cfg, states, actions);
    RunKeeps(cfg, states, actions, |states| - 1);
    ShapeOf(cfg, End(states));
  }

  lemma ToldHolds(cfg: Config, states: seq<Sys>, actions: seq<Action>, d: nat)
    requires Told(cfg, states, actions, d)
    ensures |states| == |actions| + 1 && Inv(cfg, End(states)) && Sensible(cfg) && Shape(cfg, End(states))
  {
    hide Run, SettledOnce, DrainsOnce;
    EndHolds(cfg, states, actions);
  }

  /** The book of a window that an edge has not reached is blank. */
  lemma BlankAhead(cfg: Config, s: Sys, n: nat, w: int)
    requires Inv(cfg, s) && n < |s.nodes| && s.nodes[n].edge.c.win < w
    ensures A.BookAt(s.nodes[n].edge.books, w).charged == 0
  {
    hide A.BookAt, RegionsOk, LoansOk, SendingsOk, QuotaSplit, AnswersOk, RequestsOk, QuotesOk;
    assert EdgeOk(cfg, n, s.nodes[n]);
    assert A.BookBalances(s.nodes[n].edge, w, cfg.bound);
  }

  // A visit: an edge asks at the start of window w, and hears the answer.

  /** The run stands at the start of window w, with u granted and nothing on its way. */
  ghost predicate StandsAt(cfg: Config, states: seq<Sys>, actions: seq<Action>, d: nat, w: int, u: int) {
    && states != [] && Told(cfg, states, actions, d) && HubAt(cfg, End(states), w, u) && End(states).answers == []
    && |End(states).nodes| == |cfg.sites|
  }

  lemma ReceiveStep(cfg: Config, s: Sys, n: nat, w: int, q: int)
    requires Sensible(cfg) && Shape(cfg, s) && n < |s.nodes| && Carries(cfg, s, n, w, q)
    ensures Step(cfg, s, Deliver(0, 0), Received(cfg, s, n)) && Shape(cfg, Received(cfg, s, n))
    ensures Received(cfg, s, n).answers == []
  {
    hide A.Next;
  }

  lemma SpendStep(cfg: Config, s: Sys, n: nat, step: L.Step)
    requires Sensible(cfg) && Shape(cfg, s) && n < |s.nodes| && Local(cfg, s.now, n, step)
    requires A.Legal(s.nodes[n].edge, step, cfg.bound)
    ensures Step(cfg, s, Spend(n, step), Spent(s, n, step)) && Shape(cfg, Spent(s, n, step))
  {
    hide A.Next, A.Legal, Local;
  }

  lemma SameHub(cfg: Config, s: Sys, s': Sys, w: int, u: int)
    requires HubAt(cfg, s, w, u) && s'.hubs == s.hubs && s'.now == s.now
    ensures HubAt(cfg, s', w, u)
  {}

  /** The system once edge n has asked for q tokens and heard the answer. */
  function Visited(cfg: Config, s: Sys, n: nat, q: int): Sys
    requires OneRegion(cfg) && |s.hubs| == 1 && n < |cfg.sites| && n < |s.nodes|
    requires WellFormed(AskFor(cfg, s.hubs[0], q))
  {
    Received(cfg, Given(cfg, Sent(s, n), n, q), n)
  }

  lemma VisitSteps(cfg: Config, s: Sys, n: nat, w: int, u: int, q: int)
    requires HubAt(cfg, s, w, u) && Shape(cfg, s) && n < |s.nodes| && s.answers == []
    requires 1 <= q <= cfg.quota && (u == 0 || u == cfg.quota)
    ensures var g, s1 := AskFor(cfg, s.hubs[0], q), Sent(s, n);
            && WellFormed(g) && n < |cfg.sites|
            && Step(cfg, s, Send(n), s1) && Shape(cfg, s1)
            && Step(cfg, s1, Serve(|s.requests|, g), Given(cfg, s1, n, q)) && Shape(cfg, Given(cfg, s1, n, q))
            && Carries(cfg, Given(cfg, s1, n, q), n, w, if u == 0 then q else 0)
            && Step(cfg, Given(cfg, s1, n, q), Deliver(0, 0), Visited(cfg, s, n, q))
            && Shape(cfg, Visited(cfg, s, n, q))
            && Visited(cfg, s, n, q).answers == [] && HubAt(cfg, Visited(cfg, s, n, q), w, if u == 0 then q else u)
  {
    hide Used, AllocOf, M.GrantVals, H.ResponseOf, ReplyTo, A.Next, Step;
    var s1 := Sent(s, n);
    SendStep(cfg, s, n);
    SameHub(cfg, s, s1, w, u);
    ServeStep(cfg, s1, n, w, u, q);
    ServeCounts(cfg, s1, n, w, u, q);
    var s2 := Given(cfg, s1, n, q);
    GivenShape(cfg, s1, n, q);
    hide HubAt, Shape;
    ReceiveStep(cfg, s2, n, w, if u == 0 then q else 0);
    SameHub(cfg, s2, Visited(cfg, s, n, q), w, if u == 0 then q else u);
  }

  lemma GivenShape(cfg: Config, s: Sys, n: nat, q: int)
    requires OneRegion(cfg) && Shape(cfg, s) && n < |s.nodes| && WellFormed(AskFor(cfg, s.hubs[0], q))
    ensures Shape(cfg, Given(cfg, s, n, q))
  {
    hide M.GrantVals, H.ResponseOf, ReplyTo, AskFor, WellFormed;
    OnlyBase(cfg);
  }

  /** What the visit makes of the edge: a new balance in window w. */
  lemma VisitedEdge(cfg: Config, s: Sys, n: nat, w: int, q: int, got: int)
    requires Inv(cfg, s) && HubAt(cfg, s, w, if got == 0 then cfg.quota else 0) && n < |s.nodes| && n < |cfg.sites|
    requires WellFormed(AskFor(cfg, s.hubs[0], q)) && s.answers == [] && 0 <= got
    requires Carries(cfg, Given(cfg, Sent(s, n), n, q), n, w, got)
    requires s.nodes[n].edge.c.tokens == 0 && s.nodes[n].edge.c.win < w
    ensures var s' := Visited(cfg, s, n, q);
            var e, e' := s.nodes[n].edge, s'.nodes[n].edge;
            && s'.nodes == s.nodes[n := s'.nodes[n]] && s'.now == s.now
            && e'.c.gen == e.c.gen + 1 && e'.c.win == w && e'.c.tokens == got && A.BookAt(e'.books, w).charged == 0
            && (0 < got ==> L.Admits(e'.c, got, EdgeClock(cfg, s.now, n)))
  {
    hide Inv, HubAt, WellFormed, AskFor, A.Next, A.BookAt, L.Admits, M.GrantVals, H.ResponseOf, ReplyTo;
    BlankAhead(cfg, s, n, w);
    HubIs(cfg, s, w, if got == 0 then cfg.quota else 0);
    var a := Given(cfg, Sent(s, n), n, q).answers[0];
    Receives(s.nodes[n].edge, a.resp, EdgeClock(cfg, s.now, n));
  }

  lemma HubIs(cfg: Config, s: Sys, w: int, u: int)
    requires HubAt(cfg, s, w, u)
    ensures OneRegion(cfg) && 0 < cfg.win && |s.hubs| == |cfg.hubOffsets| == 1
  {}

  /** Edge n, holding nothing in an earlier window, asks: it gets q tokens of an untouched window, and none of a spent
      one. */
  lemma Visit(cfg: Config, states: seq<Sys>, actions: seq<Action>, d: nat, n: nat, w: int, u: int, q: int)
    returns (states': seq<Sys>, actions': seq<Action>)
    requires StandsAt(cfg, states, actions, d, w, u) && n < |cfg.sites| && 1 <= q <= cfg.quota
    requires u == 0 || u == cfg.quota
    requires End(states).nodes[n].edge.c.tokens == 0 && End(states).nodes[n].edge.c.win < w
    ensures StandsAt(cfg, states', actions', d, w, if u == 0 then q else u) && states <= states' && actions <= actions'
    ensures var s, s', got := End(states), End(states'), if u == 0 then q else 0;
            var e, e' := s.nodes[n].edge, s'.nodes[n].edge;
            && s'.nodes == s.nodes[n := s'.nodes[n]] && s'.now == s.now
            && e'.c.gen == e.c.gen + 1 && e'.c.win == w && e'.c.tokens == got && A.BookAt(e'.books, w).charged == 0
            && (0 < got ==> L.Admits(e'.c, got, EdgeClock(cfg, s'.now, n)))
  {
    hide Told, HubAt, A.BookAt, L.Admits, Step, Visited, WellFormed, AskFor, Inv, Given, Carries, Shape, Sensible;
    var s := End(states);
    HubIs(cfg, s, w, u);
    ToldHolds(cfg, states, actions, d);
    VisitSteps(cfg, s, n, w, u, q);
    VisitedEdge(cfg, s, n, w, q, if u == 0 then q else 0);
    var s1 := Sent(s, n);
    var s2, s3 := Given(cfg, s1, n, q), Visited(cfg, s, n, q);
    var serve := Serve(|s.requests|, AskFor(cfg, s.hubs[0], q));
    ToldNext(cfg, states, actions, d, Send(n), s1);
    ToldNext(cfg, states + [s1], actions + [Send(n)], d, serve, s2);
    ToldNext(cfg, states + [s1] + [s2], actions + [Send(n)] + [serve], d, Deliver(0, 0), s3);
    states', actions' := states + [s1] + [s2] + [s3], actions + [Send(n)] + [serve] + [Deliver(0, 0)];
  }

  /** An edge's own step adds to the run. */
  lemma Spends(cfg: Config, states: seq<Sys>, actions: seq<Action>, d: nat, n: nat, w: int, u: int, step: L.Step)
    returns (states': seq<Sys>, actions': seq<Action>)
    requires StandsAt(cfg, states, actions, d, w, u) && n < |cfg.sites|
    requires Local(cfg, End(states).now, n, step) && A.Legal(End(states).nodes[n].edge, step, cfg.bound)
    requires !step.Adjust?
    ensures StandsAt(cfg, states', actions', d, w, u)
    ensures states' == states + [Spent(End(states), n, step)] && actions' == actions + [Spend(n, step)]
  {
    hide Told, HubAt, Step, Inv, Shape, Sensible, Local, A.Legal, A.Next;
    var s := End(states);
    ToldHolds(cfg, states, actions, d);
    SpendStep(cfg, s, n, step);
    ToldNext(cfg, states, actions, d, Spend(n, step), Spent(s, n, step));
    SameHub(cfg, s, Spent(s, n, step), w, u);
    states', actions' := states + [Spent(s, n, step)], actions + [Spend(n, step)];
  }

  /** A request takes all q tokens that edge n holds. */
  lemma Takes(cfg: Config, states: seq<Sys>, actions: seq<Action>, d: nat, n: nat, w: int, u: int, q: int)
    returns (states': seq<Sys>, actions': seq<Action>)
    requires StandsAt(cfg, states, actions, d, w, u) && n < |cfg.sites| && 1 <= q
    requires var e := End(states).nodes[n].edge; e.c.tokens == q && L.Admits(e.c, q, EdgeClock(cfg, End(states).now, n))
    ensures StandsAt(cfg, states', actions', d, w, u) && states <= states' && actions <= actions'
    ensures |states'| == |actions'| + 1 && TookBefore(states', actions', n, End(states).nodes[n].edge.c.gen, |actions'|)
    ensures var s, s' := End(states), End(states');
            var e, e' := s.nodes[n].edge, s'.nodes[n].edge;
            && s'.nodes == s.nodes[n := s'.nodes[n]] && s'.now == s.now
            && e'.c.gen == e.c.gen && e'.c.win == e.c.win && e'.c.tokens == 0
            && A.BookAt(e'.books, e.c.win).charged == A.BookAt(e.books, e.c.win).charged + q
  {
    var s := End(states);
    var take := L.Take(q, EdgeClock(cfg, s.now, n));
    ToldHolds(cfg, states, actions, d);
    Charges(s.nodes[n].edge, take, q);
    hide Told, HubAt, A.Next, A.BookAt, Inv, Shape, Sensible, L.Admits;
    states', actions' := Spends(cfg, states, actions, d, n, w, u, take);
    assert states'[|actions|] == s;
    assert Took(states', actions', n, s.nodes[n].edge.c.gen, |actions|);
  }

  lemma StandsFacts(cfg: Config, states: seq<Sys>, actions: seq<Action>, d: nat, w: int, u: int)
    requires StandsAt(cfg, states, actions, d, w, u)
    ensures states != [] && |states| == |actions| + 1 && |End(states).nodes| == |cfg.sites|
  {
    hide HubAt, Run, SettledOnce, DrainsOnce;
    ToldHolds(cfg, states, actions, d);
  }

  // First, every edge admits requests, each in a window of its own: the first edge one, and the others two.

  function Rounds(j: nat): nat { if j == 0 then 1 else 2 }

  /** Edge j holds nothing, in a window before w, and has had gen balances. */
  predicate Idle(node: Node, gen: nat, w: int) {
    node.edge.c.gen == gen && node.edge.c.tokens == 0 && node.edge.c.win < w
  }

  /** The first d edges have admitted their requests, each from a balance of its own; edge d has admitted k, and the
      others none. */
  ghost predicate Admitted(cfg: Config, states: seq<Sys>, actions: seq<Action>, d: nat, k: nat, w: int) {
    && StandsAt(cfg, states, actions, 0, w, 0) && |states| == |actions| + 1
    && (forall j: nat :: j < |cfg.sites| ==>
          Idle(End(states).nodes[j], if j < d then Rounds(j) else if j == d then k else 0, w))
    && (forall j: nat, m: nat :: (j < d && 1 <= m <= Rounds(j)) || (j == d && 1 <= m <= k) ==>
          TookBefore(states, actions, j, m, |actions|))
  }

  /** Two windows on. */
  lemma Waits(cfg: Config, states: seq<Sys>, actions: seq<Action>, d: nat, w: int, u: int)
    returns (states': seq<Sys>, actions': seq<Action>)
    requires StandsAt(cfg, states, actions, d, w, u)
    ensures StandsAt(cfg, states', actions', d, w + 2, 0) && states <= states' && actions <= actions'
    ensures End(states').nodes == End(states).nodes
  {
    hide Told, HubAt, Step, Inv, Shape, Sensible;
    var s := End(states);
    HubIs(cfg, s, w, u);
    ToldHolds(cfg, states, actions, d);
    TickStep(cfg, s, w, u);
    var t := StartOf(cfg, w + 2);
    ToldNext(cfg, states, actions, d, Tick(t), s.(now := t));
    states', actions' := states + [s.(now := t)], actions + [Tick(t)];
  }

  lemma AdmitOne(cfg: Config, states: seq<Sys>, actions: seq<Action>, d: nat, k: nat, w: int)
    returns (states': seq<Sys>, actions': seq<Action>)
    requires Admitted(cfg, states, actions, d, k, w) && d < |cfg.sites| && 1 <= cfg.quota
    ensures Admitted(cfg, states', actions', d, k + 1, w + 2)
  {
    hide StandsAt, L.Admits, TookBefore, A.BookAt;
    StandsFacts(cfg, states, actions, 0, w, 0);
    assert Idle(End(states).nodes[d], k, w);
    var states1, actions1 := Visit(cfg, states, actions, 0, d, w, 0, 1);
    StandsFacts(cfg, states1, actions1, 0, w, 1);
    var states2, actions2 := Takes(cfg, states1, actions1, 0, d, w, 1, 1);
    StandsFacts(cfg, states2, actions2, 0, w, 1);
    states', actions' := Waits(cfg, states2, actions2, 0, w, 1);
    StandsFacts(cfg, states', actions', 0, w + 2, 0);
    forall j: nat, m: nat | (j < d && 1 <= m <= Rounds(j)) || (j == d && 1 <= m <= k + 1)
      ensures TookBefore(states', actions', j, m, |actions'|)
    {
      if j < d || m <= k {
        TookStays(states, actions, states', actions', j, m, |actions|, |actions'|);
      } else {
        TookStays(states2, actions2, states', actions', j, m, |actions2|, |actions'|);
      }
    }
  }

  lemma NextEdge(cfg: Config, states: seq<Sys>, actions: seq<Action>, d: nat, w: int)
    requires Admitted(cfg, states, actions, d, Rounds(d), w)
    ensures Admitted(cfg, states, actions, d + 1, 0, w)
  {
    hide StandsAt, TookBefore;
  }

  /** The first d edges have admitted all their requests. */
  lemma {:induction false} AdmitAll(cfg: Config, d: nat) returns (states: seq<Sys>, actions: seq<Action>, w: int)
    requires OneRegion(cfg) && d <= |cfg.sites|
    ensures Admitted(cfg, states, actions, d, 0, w)
  {
    hide Admitted;
    if d == 0 {
      states, actions, w := Begins(cfg);
    } else {
      states, actions, w := AdmitAll(cfg, d - 1);
      states, actions := AdmitOne(cfg, states, actions, d - 1, 0, w);
      w := w + 2;
      if d - 1 > 0 {
        states, actions := AdmitOne(cfg, states, actions, d - 1, 1, w);
        w := w + 2;
      }
      NextEdge(cfg, states, actions, d - 1, w);
    }
  }

  /** How far a hub's clock, or an edge's, is behind. */
  function HubBehind(): int -> int { (x: int) => Max(-x, 0) }

  function EdgeBehind(): Site -> int { (x: Site) => Max(-x.offset, 0) }

  function Start(cfg: Config): Sys
    requires Sensible(cfg)
  {
    Sys(SumOf(cfg.hubOffsets, HubBehind()) + SumOf(cfg.sites, EdgeBehind()),
        seq(|cfg.bases|, r requires 0 <= r < |cfg.bases| => Hub(cfg.bases[r], M.EMPTY)),
        seq(|cfg.sites|, n requires 0 <= n < |cfg.sites| => Node(cfg.sites[n].region, A.NEW_EDGE)), [], [], [], [], [])
  }

  lemma StartIsInit(cfg: Config)
    requires Sensible(cfg)
    ensures Init(cfg, Start(cfg))
  {
    var s := Start(cfg);
    SumNonNegative(cfg.hubOffsets, HubBehind());
    SumNonNegative(cfg.sites, EdgeBehind());
    forall r: nat | r < |cfg.hubOffsets| ensures 0 <= HubClock(cfg, s.now, r) {
      SumAtLeast(cfg.hubOffsets, r, HubBehind());
    }
    forall n: nat | n < |cfg.sites| ensures 0 <= EdgeClock(cfg, s.now, n) {
      SumAtLeast(cfg.sites, n, EdgeBehind());
    }
  }

  /** From the start, the time passes to the start of a window. */
  lemma Begins(cfg: Config) returns (states: seq<Sys>, actions: seq<Action>, w: int)
    requires OneRegion(cfg)
    ensures Admitted(cfg, states, actions, 0, 0, w)
  {
    var s := Start(cfg);
    StartIsInit(cfg);
    var t := HubClock(cfg, s.now, 0);
    w := WindowOf(t, cfg.win) + 1;
    WindowBounds(t, cfg.win);
    assert w * cfg.win == (w - 1) * cfg.win + cfg.win;
    var tick := StartOf(cfg, w);
    var s' := s.(now := tick);
    states, actions := [s, s'], [Tick(tick)];
    assert Step(cfg, s, Tick(tick), s');
    assert Run(cfg, states, actions);
    assert 0 < w;
  }

  // Then the first edge takes the whole quota of a window.

  /** What edge j takes in the window whose quota the first edge takes. */
  function QuotaTaken(cfg: Config, j: nat): int { if j == 0 then cfg.quota else 0 }

  /** The first edge has spent the quota of window w; the first d edges have each settled two requests in it. */
  ghost predicate Settling(cfg: Config, states: seq<Sys>, actions: seq<Action>, d: nat, w: int) {
    && StandsAt(cfg, states, actions, d, w, cfg.quota) && |states| == |actions| + 1
    && (forall j: nat :: j < |cfg.sites| ==> SettlesIn(cfg, End(states).nodes[j], j, j < d, w))
    && (forall j: nat :: j < |cfg.sites| ==>
          TookBefore(states, actions, j, 1, |actions|) && TookBefore(states, actions, j, 2, |actions|))
  }

  ghost predicate SettlesIn(cfg: Config, node: Node, j: nat, done: bool, w: int) {
    if done then ChargedAt(w)(node) == QuotaTaken(cfg, j) + 2 * cfg.bound
    else if j == 0 then Holds(node, cfg.quota, w)
    else Idle(node, 2, w)
  }

  /** An edge in window w that has no tokens left, and was charged x. */
  ghost predicate Holds(node: Node, x: int, w: int) {
    node.edge.c.tokens == 0 && node.edge.c.win == w && ChargedAt(w)(node) == x
  }

  lemma TakesQuota(cfg: Config, states: seq<Sys>, actions: seq<Action>, w: int)
    returns (states': seq<Sys>, actions': seq<Action>)
    requires OneRegion(cfg) && Admitted(cfg, states, actions, |cfg.sites|, 0, w)
    ensures Settling(cfg, states', actions', 0, w)
  {
    hide StandsAt, L.Admits, TookBefore, A.BookAt;
    StandsFacts(cfg, states, actions, 0, w, 0);
    assert Idle(End(states).nodes[0], 1, w);
    var states1, actions1 := Visit(cfg, states, actions, 0, 0, w, 0, cfg.quota);
    StandsFacts(cfg, states1, actions1, 0, w, cfg.quota);
    states', actions' := Takes(cfg, states1, actions1, 0, 0, w, cfg.quota, cfg.quota);
    StandsFacts(cfg, states', actions', 0, w, cfg.quota);
    forall j: nat, m: nat | j < |cfg.sites| && 1 <= m <= Rounds(j)
      ensures TookBefore(states', actions', j, m, |actions'|)
    {
      TookStays(states, actions, states', actions', j, m, |actions|, |actions'|);
    }
  }

  // Last, every edge settles one request, drains, and settles another.

  /** An edge with no tokens is charged b after the fact, and may be. */
  lemma Extra(e: A.Edge, gen: nat, b: int)
    requires e.c.tokens == 0 && 0 < b
    ensures var e' := A.Next(e, L.Adjust(gen, b, b));
            && A.Legal(e, L.Adjust(gen, b, b), b) && e'.c.gen == e.c.gen && e'.c.win == e.c.win && e'.c.tokens == -b
            && A.BookAt(e'.books, e.c.win).charged == A.BookAt(e.books, e.c.win).charged + b
  {
    hide A.Next, A.BookAt;
    Charges(e, L.Adjust(gen, b, b), b);
  }

  function Emptied(cfg: Config, s: Sys, n: nat): Sys
    requires n < |s.nodes| && n < |cfg.sites|
  {
    s.(nodes := Stepped(s.nodes, n, L.GiveBack(EdgeClock(cfg, s.now, n))),
       sendings := s.sendings + [Sending(s.nodes[n].region, s.nodes[n].edge.c.win, -cfg.bound, false, 0)])
  }

  lemma DrainStep(cfg: Config, s: Sys, n: nat)
    requires Sensible(cfg) && Shape(cfg, s) && n < |s.nodes| && 0 < cfg.bound && s.nodes[n].edge.c.tokens == -cfg.bound
    ensures n < |cfg.sites| && Step(cfg, s, Drain(n), Emptied(cfg, s, n)) && Shape(cfg, Emptied(cfg, s, n))
    ensures var e, e' := s.nodes[n].edge, Emptied(cfg, s, n).nodes[n].edge;
            && e'.c.tokens == 0 && e'.c.win == e.c.win && e'.c.gen == e.c.gen
            && A.BookAt(e'.books, e.c.win).charged == A.BookAt(e.books, e.c.win).charged
  {
    hide A.Next, A.BookAt;
    Charges(s.nodes[n].edge, L.GiveBack(EdgeClock(cfg, s.now, n)), 0);
  }

  function Adjust(cfg: Config, n: nat, gen: nat): Action {
    Spend(n, L.Adjust(gen, cfg.bound, cfg.bound))
  }

  /** The system once edge n has settled a request of balance gen. */
  function Adjusted(cfg: Config, s: Sys, n: nat, gen: nat): Sys
    requires n < |s.nodes|
  {
    Spent(s, n, L.Adjust(gen, cfg.bound, cfg.bound))
  }

  lemma SettleSteps(cfg: Config, s: Sys, n: nat, x: int, w: int)
    requires Sensible(cfg) && Shape(cfg, s) && n < |s.nodes| && 1 <= cfg.bound && Holds(s.nodes[n], x, w)
    ensures n < |cfg.sites|
    ensures var s1 := Adjusted(cfg, s, n, 1);
            && Step(cfg, s, Adjust(cfg, n, 1), s1) && Shape(cfg, s1) && n < |s1.nodes|
            && Step(cfg, s1, Drain(n), Emptied(cfg, s1, n)) && Shape(cfg, Emptied(cfg, s1, n))
    ensures var s2 := Emptied(cfg, Adjusted(cfg, s, n, 1), n);
            && n < |s2.nodes| && Step(cfg, s2, Adjust(cfg, n, 2), Adjusted(cfg, s2, n, 2))
            && var nodes := Adjusted(cfg, s2, n, 2).nodes;
               nodes == s.nodes[n := nodes[n]] && ChargedAt(w)(nodes[n]) == x + 2 * cfg.bound
  {
    hide A.Next, A.BookAt, A.Legal;
    Extra(s.nodes[n].edge, 1, cfg.bound);
    SpendStep(cfg, s, n, L.Adjust(1, cfg.bound, cfg.bound));
    var s1 := Adjusted(cfg, s, n, 1);
    hide Step;
    DrainStep(cfg, s1, n);
    var s2 := Emptied(cfg, s1, n);
    Extra(s2.nodes[n].edge, 2, cfg.bound);
    SpendStep(cfg, s2, n, L.Adjust(2, cfg.bound, cfg.bound));
  }

  /** The run goes on with edge d's two settlements, and the drain between them. */
  lemma ToldSettlement(cfg: Config, states: seq<Sys>, actions: seq<Action>, d: nat, s1: Sys, s2: Sys, s3: Sys)
    requires Told(cfg, states, actions, d) && Sensible(cfg) && Shape(cfg, End(states)) && |states| == |actions| + 1
    requires TookBefore(states, actions, d, 1, |actions|) && TookBefore(states, actions, d, 2, |actions|)
    requires Step(cfg, End(states), Adjust(cfg, d, 1), s1) && Shape(cfg, s1)
    requires Step(cfg, s1, Drain(d), s2) && Shape(cfg, s2)
    requires Step(cfg, s2, Adjust(cfg, d, 2), s3)
    ensures Told(cfg, states + [s1] + [s2] + [s3], actions + [Adjust(cfg, d, 1)] + [Drain(d)] + [Adjust(cfg, d, 2)],
                 d + 1)
  {
    hide Step, Sensible, Shape, Run, SettledOnce, TookBefore;
    var first, second := Adjust(cfg, d, 1), Adjust(cfg, d, 2);
    Extends(cfg, states, actions, first, s1);
    OnceMore(states, actions, first, s1);
    var acts1 := actions + [first];
    Extends(cfg, states + [s1], acts1, Drain(d), s2);
    OnceMore(states + [s1], acts1, Drain(d), s2);
    var acts2 := acts1 + [Drain(d)];
    Extends(cfg, states + [s1] + [s2], acts2, second, s3);
    TookStays(states, actions, states + [s1] + [s2], acts2, d, 2, |actions|, |acts2|);
    OnceMore(states + [s1] + [s2], acts2, second, s3);
  }

  /** Edge d has no tokens of window w: the first edge has spent them, and another is granted none. */
  lemma Comes(cfg: Config, states: seq<Sys>, actions: seq<Action>, d: nat, w: int)
    returns (states': seq<Sys>, actions': seq<Action>)
    requires OneRegion(cfg) && Settling(cfg, states, actions, d, w) && d < |cfg.sites|
    ensures StandsAt(cfg, states', actions', d, w, cfg.quota) && states <= states' && actions <= actions'
    ensures Holds(End(states').nodes[d], QuotaTaken(cfg, d), w)
    ensures End(states').nodes == End(states).nodes[d := End(states').nodes[d]]
  {
    hide StandsAt, L.Admits, TookBefore, A.BookAt;
    StandsFacts(cfg, states, actions, d, w, cfg.quota);
    assert SettlesIn(cfg, End(states).nodes[d], d, false, w);
    if d == 0 {
      states', actions' := states, actions;
    } else {
      states', actions' := Visit(cfg, states, actions, d, d, w, cfg.quota, 1);
      StandsFacts(cfg, states', actions', d, w, cfg.quota);
    }
  }

  /** Edge d settles two requests in window w. */
  lemma Settles(cfg: Config, states: seq<Sys>, actions: seq<Action>, d: nat, w: int, x: int)
    returns (states': seq<Sys>, actions': seq<Action>)
    requires StandsAt(cfg, states, actions, d, w, cfg.quota) && d < |cfg.sites| && 1 <= cfg.bound
    requires Holds(End(states).nodes[d], x, w) && |states| == |actions| + 1
    requires TookBefore(states, actions, d, 1, |actions|) && TookBefore(states, actions, d, 2, |actions|)
    ensures StandsAt(cfg, states', actions', d + 1, w, cfg.quota) && states <= states' && actions <= actions'
    ensures ChargedAt(w)(End(states').nodes[d]) == x + 2 * cfg.bound
    ensures End(states').nodes == End(states).nodes[d := End(states').nodes[d]]
  {
    hide Told, HubAt, Inv, Shape, Sensible, Step, TookBefore, A.Next, A.BookAt, Holds;
    var s := End(states);
    ToldHolds(cfg, states, actions, d);
    SettleSteps(cfg, s, d, x, w);
    var s1 := Adjusted(cfg, s, d, 1);
    var s2 := Emptied(cfg, s1, d);
    var s3 := Adjusted(cfg, s2, d, 2);
    ToldSettlement(cfg, states, actions, d, s1, s2, s3);
    SameHub(cfg, s, s3, w, cfg.quota);
    states' := states + [s1] + [s2] + [s3];
    actions' := actions + [Adjust(cfg, d, 1)] + [Drain(d)] + [Adjust(cfg, d, 2)];
  }

  lemma SettleOne(cfg: Config, states: seq<Sys>, actions: seq<Action>, d: nat, w: int)
    returns (states': seq<Sys>, actions': seq<Action>)
    requires OneRegion(cfg) && Settling(cfg, states, actions, d, w) && d < |cfg.sites| && 1 <= cfg.bound
    ensures Settling(cfg, states', actions', d + 1, w)
  {
    hide StandsAt, TookBefore, A.BookAt, Holds, OneRegion;
    StandsFacts(cfg, states, actions, d, w, cfg.quota);
    var states1, actions1 := Comes(cfg, states, actions, d, w);
    StandsFacts(cfg, states1, actions1, d, w, cfg.quota);
    TookStays(states, actions, states1, actions1, d, 1, |actions|, |actions1|);
    TookStays(states, actions, states1, actions1, d, 2, |actions|, |actions1|);
    states', actions' := Settles(cfg, states1, actions1, d, w, QuotaTaken(cfg, d));
    StandsFacts(cfg, states', actions', d + 1, w, cfg.quota);
    var nodes, nodes' := End(states).nodes, End(states').nodes;
    forall j: nat | j < |cfg.sites| ensures SettlesIn(cfg, nodes'[j], j, j < d + 1, w) {
      assert SettlesIn(cfg, nodes[j], j, j < d, w);
    }
    forall j: nat | j < |cfg.sites|
      ensures TookBefore(states', actions', j, 1, |actions'|) && TookBefore(states', actions', j, 2, |actions'|)
    {
      TookStays(states, actions, states', actions', j, 1, |actions|, |actions'|);
      TookStays(states, actions, states', actions', j, 2, |actions|, |actions'|);
    }
  }

  lemma {:induction false} SettleUpTo(cfg: Config, d: nat) returns (states: seq<Sys>, actions: seq<Action>, w: int)
    requires OneRegion(cfg) && d <= |cfg.sites| && 1 <= cfg.bound
    ensures Settling(cfg, states, actions, d, w)
  {
    hide Admitted, Settling;
    if d == 0 {
      states, actions, w := AdmitAll(cfg, |cfg.sites|);
      states, actions := TakesQuota(cfg, states, actions, w);
    } else {
      states, actions, w := SettleUpTo(cfg, d - 1);
      states, actions := SettleOne(cfg, states, actions, d - 1, w);
    }
  }

  lemma {:induction false} SumButFirst(nodes: seq<Node>, f: Node -> int, b: int)
    requires nodes != [] && forall j :: 1 <= j < |nodes| ==> f(nodes[j]) == b
    ensures SumOf(nodes, f) == f(nodes[0]) + (|nodes| - 1) * b
  {
    var front := nodes[..|nodes| - 1];
    if |nodes| == 1 {
      assert front == [];
    } else {
      SumButFirst(front, f, b);
      assert (|nodes| - 1) * b == (|front| - 1) * b + b;
    }
  }

  lemma SettlingFacts(cfg: Config, states: seq<Sys>, actions: seq<Action>, w: int)
    requires Settling(cfg, states, actions, |cfg.sites|, w)
    ensures |states| == |actions| + 1 && Run(cfg, states, actions) && SettledOnce(states, actions)
    ensures DrainsOnce(actions)
    ensures |End(states).nodes| == |cfg.sites|
    ensures forall j: nat :: j < |cfg.sites| ==>
                  ChargedAt(w)(End(states).nodes[j]) == QuotaTaken(cfg, j) + 2 * cfg.bound
  {
    hide HubAt, TookBefore, SettledOnce, DrainsOnce, Run, A.BookAt;
    forall j: nat | j < |cfg.sites| ensures ChargedAt(w)(End(states).nodes[j]) == QuotaTaken(cfg, j) + 2 * cfg.bound {
      assert SettlesIn(cfg, End(states).nodes[j], j, true, w);
    }
  }

  lemma TwoEach(b: int, n: int)
    requires 1 <= b && 1 <= n
    ensures 2 * b + (n - 1) * (2 * b) == 2 * b * n && b * n < 2 * b * n
  {
    assert (n - 1) * (2 * b) == 2 * b * n - 2 * b;
    MulMono(1, b, n);
  }

  /** The bound on runs that drain every counter at most once is exact, and the documented one fails, in every
      deployment of one region with charges after the fact: some run settles every request at most once, drains every
      counter at most once, and charges a window the quota and two debt bounds per edge. */
  lemma DebtBoundFails(cfg: Config) returns (states: seq<Sys>, actions: seq<Action>, w: int)
    requires OneRegion(cfg) && 1 <= cfg.bound
    ensures Run(cfg, states, actions) && |states| == |actions| + 1 && SettledOnce(states, actions)
    ensures DrainsOnce(actions) && DrainsOncePerWindow(states, actions) && !DrainsNoDebt(states, actions)
    ensures SumOf(End(states).nodes, ChargedAt(w)) == cfg.quota + 2 * cfg.bound * |cfg.sites|
    ensures cfg.quota + cfg.bound * |cfg.sites| < SumOf(End(states).nodes, ChargedAt(w))
  {
    states, actions, w := SettleUpTo(cfg, |cfg.sites|);
    SettlingFacts(cfg, states, actions, w);
    hide Settling, Run, SettledOnce, DrainsNoDebt, DrainsOncePerWindow, DrainsOnce, SumOf, A.BookAt, Sensible;
    OnceIsOncePerWindow(states, actions);
    SumButFirst(End(states).nodes, ChargedAt(w), 2 * cfg.bound);
    TwoEach(cfg.bound, |cfg.sites|);
    if DrainsNoDebt(states, actions) {
      DebtBoundHolds(cfg, states, actions, |states| - 1, w);
    }
  }

  /** A quota of ten, one edge and a debt bound of five: a request takes one token in one window and another takes ten
      in a later one; the first settles five more, the edge drains, the second settles five more, and the later window
      is charged twenty. */
  lemma TenAndFive() returns (states: seq<Sys>, actions: seq<Action>, w: int)
    ensures var cfg := Config("k", FixedWindow, 10, 1000, false, [10], [0], [Site(0, 0)], 5);
            Run(cfg, states, actions) && |states| == |actions| + 1
    ensures SettledOnce(states, actions) && DrainsOnce(actions)
    ensures SumOf(End(states).nodes, ChargedAt(w)) == 20
  {
    var cfg := Config("k", FixedWindow, 10, 1000, false, [10], [0], [Site(0, 0)], 5);
    assert OneRegion(cfg);
    hide Run, SumOf, SettledOnce, DrainsOncePerWindow, DrainsNoDebt;
    states, actions, w := DebtBoundFails(cfg);
  }
}
