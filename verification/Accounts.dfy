/** Double-entry books for an edge: where every token it was granted went, window by window. */
module Accounts {
  import opened Numbers
  import opened Lease

  /** Cost charged to requests; tokens accepted from the hub, returned to it, and dropped; debt settled with the
      hub, and debt that moved in from (negative) or out to (positive) another window. */
  datatype Book = Book(charged: int, accepted: int, returned: int, settled: int, dropped: int, carried: int)

  const BLANK := Book(0, 0, 0, 0, 0, 0)

  function BookAt(books: map<int, Book>, w: int): Book {
    if w in books then books[w] else BLANK
  }

  function Plus(a: Book, b: Book): Book {
    Book(a.charged + b.charged, a.accepted + b.accepted, a.returned + b.returned,
         a.settled + b.settled, a.dropped + b.dropped, a.carried + b.carried)
  }

  function Post(books: map<int, Book>, w: int, b: Book): map<int, Book> {
    books[w := Plus(BookAt(books, w), b)]
  }

  /** An edge's counter with its books, and the cost admitted from the current balance and not refunded. */
  datatype Edge = Edge(c: Counter, books: map<int, Book>, refundable: int)

  const NEW_EDGE := Edge(FRESH, map[], 0)

  function Drop(n: int): Book { Book(0, 0, 0, 0, n, 0) }

  function Charge(n: int): Book { Book(n, 0, 0, 0, 0, 0) }

  /** What a step enters in the book of the window current before it. */
  function Entry(c: Counter, step: Step): Book {
    match step
    case Roll(bucket, now) =>
      if bucket || c.resetAt <= 0 || now < c.resetAt then BLANK else Drop(Max(c.tokens, 0))
    case Take(cost, now) =>
      if Admits(c, cost, now) then Charge(cost)
      else if Expired(c, now) then Drop(Max(c.tokens, 0))
      else BLANK
    case Adjust(gen, delta, maxDebt) => Charge(c.tokens - Adjusted(c, gen, delta, maxDebt).tokens)
    case Accept(resp, _, _, _) =>
      if resp.win <= c.win then Book(0, if Adds(c, resp) then resp.granted else 0, 0, 0, 0, 0)
      else Book(0, 0, 0, 0, Max(c.tokens, 0), -Min(c.tokens, 0))
    case GiveBack(now) =>
      var n := Returnable(c, now);
      Book(0, 0, Max(n, 0), -Min(n, 0), c.tokens - n, 0)
    case Unwait(_) => BLANK
    case Consume(_) => BLANK
  }

  /** What an answer for a newer window enters in that window's book. */
  function NewEntry(c: Counter, resp: Response): Book {
    Book(0, if Adds(c, resp) then resp.granted else 0, 0, 0, 0, Min(c.tokens, 0))
  }

  function Next(e: Edge, step: Step): Edge {
    var posted := Post(e.books, e.c.win, Entry(e.c, step));
    Edge(
      Apply(e.c, step),
      if step.Accept? && e.c.win < step.resp.win then Post(posted, step.resp.win, NewEntry(e.c, step.resp)) else posted,
      if Apply(e.c, step).gen != e.c.gen then 0
      else if step.Take? && Admits(e.c, step.cost, step.now) then e.refundable + step.cost
      else if step.Adjust? && step.gen == e.c.gen && step.delta < 0 then e.refundable + step.delta
      else e.refundable)
  }

  /** The steps an edge takes: costs are positive, a request is refunded at most what it was admitted for, and
      charges after the fact, if there are any (a positive bound), may overdraw a balance by at most maxDebt. */
  ghost predicate Legal(e: Edge, step: Step, bound: int) {
    match step
    case Take(cost, _) => 1 <= cost
    case Adjust(gen, delta, maxDebt) =>
      && (gen == e.c.gen && delta < 0 ==> -delta <= e.refundable)
      && (delta > 0 ==> 0 < maxDebt <= bound)
    case Accept(resp, sent, _, _) => Reports(resp) && 0 <= sent
    case Roll(_, _) => true
    case Unwait(_) => true
    case Consume(_) => true
    case GiveBack(_) => true
  }

  /** The balance an edge holds for a window. */
  function Balance(e: Edge, w: int): int {
    if w == e.c.win then e.c.tokens else 0
  }

  ghost predicate BookBalances(e: Edge, w: int, bound: int) {
    var b := BookAt(e.books, w);
    && b.charged == b.accepted - b.returned + b.settled - b.dropped - Balance(e, w) + b.carried
    && 0 <= b.accepted && 0 <= b.returned && 0 <= b.settled && 0 <= b.dropped
    && (e.c.win < w ==> b == BLANK)
    && b.carried <= (if w < e.c.win then bound else 0)
    && (bound == 0 ==> b.settled == 0)
    && Max(Balance(e, w), 0) + (if w == e.c.win then e.refundable else 0) <= b.accepted - b.returned
  }

  /** The books balance for every window, debt is bounded, and tokens that can be spent have an expiry. */
  ghost predicate Balanced(e: Edge, bound: int) {
    && 0 <= bound && -bound <= e.c.tokens
    && (forall w :: BookBalances(e, w, bound))
    && 0 <= e.refundable
    && (0 < e.c.tokens || 0 < e.refundable ==> 0 < e.c.expiresAt)
  }

  lemma NewEdgeBalances(bound: int)
    requires 0 <= bound
    ensures Balanced(NEW_EDGE, bound)
  {}

  /** A step changes the book of the current window, and an answer for a newer window that window's too. */
  lemma BooksAfter(e: Edge, step: Step, w: int)
    ensures BookAt(Next(e, step).books, w) ==
            if w == e.c.win then Plus(BookAt(e.books, w), Entry(e.c, step))
            else if step.Accept? && e.c.win < step.resp.win == w then Plus(BookAt(e.books, w), NewEntry(e.c, step.resp))
            else BookAt(e.books, w)
  {}

  /** The identity every step keeps: what the current window's book gains is what its balance loses. */
  lemma EntryBalances(e: Edge, step: Step, bound: int)
    requires Legal(e, step, bound) && !(step.Accept? && e.c.win < step.resp.win)
    ensures var b, c' := Entry(e.c, step), Apply(e.c, step);
            && c'.win == e.c.win
            && b.charged == b.accepted - b.returned + b.settled - b.dropped - (c'.tokens - e.c.tokens)
            && 0 <= b.accepted && 0 <= b.returned && 0 <= b.settled && 0 <= b.dropped && b.carried == 0
            && (0 <= e.c.tokens ==> b.settled == 0)
  {}

  /** Spendable and refundable tokens only ever come out of what was accepted and not returned. */
  lemma EntryCovers(e: Edge, step: Step, bound: int)
    requires Legal(e, step, bound) && !(step.Accept? && e.c.win < step.resp.win) && 0 <= e.refundable
    ensures var b, e' := Entry(e.c, step), Next(e, step);
            && Max(e'.c.tokens, 0) + e'.refundable <= Max(e.c.tokens, 0) + e.refundable + b.accepted - b.returned
            && 0 <= e'.refundable
  {
    hide Post;
  }

  /** Moving to a newer window closes one book and opens another. */
  lemma InstallBalances(e: Edge, step: Step)
    requires step.Accept? && e.c.win < step.resp.win
    ensures var b, b', c' := Entry(e.c, step), NewEntry(e.c, step.resp), Apply(e.c, step);
            && c'.win == step.resp.win && c'.gen != e.c.gen
            && b == Book(0, 0, 0, 0, Max(e.c.tokens, 0), -Min(e.c.tokens, 0))
            && b' == Book(0, b'.accepted, 0, 0, 0, Min(e.c.tokens, 0)) && 0 <= b'.accepted
            && c'.tokens == Min(e.c.tokens, 0) + b'.accepted
  {}

  lemma StayBalancesBook(e: Edge, step: Step, bound: int, w: int)
    requires Legal(e, step, bound) && BookBalances(e, w, bound) && 0 <= bound && -bound <= e.c.tokens
    requires 0 <= e.refundable
    requires !(step.Accept? && e.c.win < step.resp.win)
    ensures BookBalances(Next(e, step), w, bound)
  {
    hide Next, BookAt, Legal, Apply, Entry, NewEntry;
    BooksAfter(e, step, w);
    NextCounter(e, step);
    EntryBalances(e, step, bound);
    EntryCovers(e, step, bound);
  }

  lemma MoveBalancesBook(e: Edge, step: Step, bound: int, w: int)
    requires BookBalances(e, w, bound) && 0 <= bound && -bound <= e.c.tokens && 0 <= e.refundable
    requires step.Accept? && e.c.win < step.resp.win
    ensures BookBalances(Next(e, step), w, bound)
  {
    hide Next, BookAt, Apply, Entry, NewEntry;
    BooksAfter(e, step, w);
    NextCounter(e, step);
    InstallBalances(e, step);
  }

  lemma StepBalancesBook(e: Edge, step: Step, bound: int, w: int)
    requires Legal(e, step, bound) && BookBalances(e, w, bound) && 0 <= bound && -bound <= e.c.tokens
    requires 0 <= e.refundable
    ensures BookBalances(Next(e, step), w, bound)
  {
    hide Next, BookBalances, Legal;
    if step.Accept? && e.c.win < step.resp.win {
      MoveBalancesBook(e, step, bound, w);
    } else {
      StayBalancesBook(e, step, bound, w);
    }
  }

  lemma NextCounter(e: Edge, step: Step)
    ensures Next(e, step).c == Apply(e.c, step)
    ensures Apply(e.c, step).gen != e.c.gen ==> Next(e, step).refundable == 0
  {}

  /** Every step keeps the books balanced and never moves the counter to an earlier window. */
  lemma StepBalances(e: Edge, step: Step, bound: int)
    requires Balanced(e, bound) && Legal(e, step, bound)
    ensures Balanced(Next(e, step), bound)
    ensures e.c.win <= Next(e, step).c.win
  {
    hide BookBalances, Entry, NewEntry, Post;
    forall w ensures BookBalances(Next(e, step), w, bound) {
      assert BookBalances(e, w, bound);
      StepBalancesBook(e, step, bound, w);
    }
  }

  function NextAll(e: Edge, steps: seq<Step>): Edge {
    if steps == [] then e else Next(NextAll(e, steps[..|steps| - 1]), steps[|steps| - 1])
  }

  ghost predicate LegalRun(e: Edge, steps: seq<Step>, bound: int) {
    forall i :: 0 <= i < |steps| ==> Legal(NextAll(e, steps[..i]), steps[i], bound)
  }

  /** Debt accounting: after any sequence of takes, refunds, extra charges, grants, expiries, rolls and drains the
      balance is at least -bound, and every window's charges are its accepted tokens less those returned and dropped,
      plus the debt settled, less the balance, up to debt carried between windows. */
  lemma {:induction false} RunBalances(steps: seq<Step>, bound: int)
    requires 0 <= bound && LegalRun(NEW_EDGE, steps, bound)
    ensures Balanced(NextAll(NEW_EDGE, steps), bound)
  {
    if steps != [] {
      var before := steps[..|steps| - 1];
      assert forall i :: 0 <= i < |before| ==> before[..i] == steps[..i];
      RunBalances(before, bound);
      StepBalances(NextAll(NEW_EDGE, before), steps[|steps| - 1], bound);
    }
  }

  /** What an edge charges to a window is bounded by the tokens it kept of that window's grants. */
  lemma ChargesBounded(e: Edge, w: int, bound: int)
    requires Balanced(e, bound)
    ensures var b := BookAt(e.books, w);
            && b.charged <= b.accepted - b.returned + b.settled + bound
            && b.charged + Max(Balance(e, w), 0) <= b.accepted - b.returned + b.settled + bound
  {
    assert BookBalances(e, w, bound);
  }

  /** No positive token crosses a roll: a new balance starts with the old one's debt, or with nothing. */
  lemma NothingCrossesARoll(e: Edge, step: Step)
    requires step.Roll? || step.Accept?
    ensures Next(e, step).c.gen != e.c.gen ==>
              Next(e, step).c.tokens ==
              Min(e.c.tokens, 0) + if step.Accept? && Adds(e.c, step.resp) then step.resp.granted else 0
    ensures Next(e, step).c.gen == e.c.gen ==> Next(e, step).c.win == e.c.win
  {}

  /** What one step does to the counter and to the book of its window. */
  lemma Entered(e: Edge, step: Step)
    requires !(step.Accept? && e.c.win < step.resp.win)
    ensures var e' := Next(e, step);
            && e'.c == Apply(e.c, step)
            && BookAt(e'.books, e.c.win) == Plus(BookAt(e.books, e.c.win), Entry(e.c, step))
  {}
}
