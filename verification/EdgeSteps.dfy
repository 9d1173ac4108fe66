/** What an edge's steps do to the tokens it keeps of each window's grants, and to the life of its balance. */
module EdgeSteps {
  import opened Numbers
  import opened System
  import L = Lease
  import A = Accounts

  function KeptBy(e: A.Edge, w: int): int {
    A.BookAt(e.books, w).accepted - A.BookAt(e.books, w).returned
  }

  /** Only an answer brings tokens of a window in, and only a drain sends them back. */
  lemma KeptAfter(e: A.Edge, step: L.Step, w: int)
    ensures KeptBy(A.Next(e, step), w) ==
            KeptBy(e, w)
            + (if step.Accept? && L.Adds(e.c, step.resp) && w == step.resp.win then step.resp.granted else 0)
            - (if step.GiveBack? && w == e.c.win then Max(L.Returnable(e.c, step.now), 0) else 0)
  {
    hide A.Next, A.Entry, A.NewEntry, A.BookAt, L.Adds, L.Returnable;
    A.BooksAfter(e, step, w);
    KeptEntered(e.c, step);
    if step.Accept? {
      NewKeptEntered(e.c, step.resp);
    }
  }

  lemma KeptEntered(c: L.Counter, step: L.Step)
    ensures A.Entry(c, step).accepted - A.Entry(c, step).returned ==
            (if step.Accept? && L.Adds(c, step.resp) && step.resp.win == c.win then step.resp.granted else 0)
            - (if step.GiveBack? then Max(L.Returnable(c, step.now), 0) else 0)
  {}

  lemma NewKeptEntered(c: L.Counter, resp: L.Response)
    ensures A.NewEntry(c, resp).accepted - A.NewEntry(c, resp).returned == if L.Adds(c, resp) then resp.granted else 0
    ensures L.Adds(c, resp) ==> c.win <= resp.win
  {}

  /** A balance never outlives, on the edge's own clock, the window it came from. */
  lemma LifeAfter(cfg: Config, n: nat, e: A.Edge, step: L.Step)
    requires n < |cfg.sites| && cfg.sites[n].region < |cfg.hubOffsets|
    requires 0 < e.c.expiresAt ==> e.c.expiresAt <= EndAt(cfg, n, e.c.win)
    requires step.Accept? ==> step.sent + step.resp.expiresIn <= EndAt(cfg, n, step.resp.win)
    ensures var c := L.Apply(e.c, step); 0 < c.expiresAt ==> c.expiresAt <= EndAt(cfg, n, c.win)
  {}

  lemma EdgeKeepsOk(cfg: Config, n: nat, node: Node, step: L.Step)
    requires n < |cfg.sites| && cfg.sites[n].region < |cfg.hubOffsets|
    requires EdgeOk(cfg, n, node) && A.Legal(node.edge, step, cfg.bound)
    requires step.Accept? ==> step.sent + step.resp.expiresIn <= EndAt(cfg, n, step.resp.win)
    ensures EdgeOk(cfg, n, Node(node.region, A.Next(node.edge, step)))
  {
    hide A.Balanced, A.Legal, EndAt, L.Apply, A.Next;
    A.StepBalances(node.edge, step, cfg.bound);
    A.NextCounter(node.edge, step);
    LifeAfter(cfg, n, node.edge, step);
  }

  lemma EdgesKept(cfg: Config, nodes: seq<Node>, n: nat, step: L.Step)
    requires |nodes| == |cfg.sites| && n < |nodes| && cfg.sites[n].region < |cfg.hubOffsets| && EdgesOk(cfg, nodes)
    requires A.Legal(nodes[n].edge, step, cfg.bound)
    requires step.Accept? ==> step.sent + step.resp.expiresIn <= EndAt(cfg, n, step.resp.win)
    ensures EdgesOk(cfg, Stepped(nodes, n, step))
  {
    hide EdgeOk, EndAt, A.Legal, A.Next;
    EdgeKeepsOk(cfg, n, nodes[n], step);
  }

  /** Kept tokens are never negative. */
  lemma KeptIsNat(cfg: Config, nodes: seq<Node>, n: nat, w: int)
    requires n < |nodes| && n < |cfg.sites| && cfg.sites[n].region < |cfg.hubOffsets| && EdgesOk(cfg, nodes)
    ensures 0 <= KeptBy(nodes[n].edge, w)
  {
    hide A.BookAt;
    assert EdgeOk(cfg, n, nodes[n]);
    assert A.BookBalances(nodes[n].edge, w, cfg.bound);
  }
}
