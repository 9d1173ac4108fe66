/** Runs of the in-process ledger: any sequence of operations on any quotas, at times that never go back. */
module Traces {
  import opened Numbers
  import opened Ledger
  import opened Grants
  import opened MemLedger

  datatype Op =
    | Ask(g: GrantInput)
    | GiveBack(r: ReturnInput)
    | Lend(x: Transfer, base: int, margin: int)
    | Credit(x: Transfer)

  datatype Answer = ForAsk(reply: Reply) | ForReturn | ForLend(amount: int) | ForCredit(ok: bool)

  datatype Event = Event(at: int, op: Op)

  ghost predicate Proper(op: Op) {
    match op
    case Ask(g) => WellFormed(g)
    case GiveBack(r) => WellFormedReturn(r)
    case Lend(x, _, _) => 0 < x.win
    case Credit(x) => 0 < x.win
  }

  /** One operation of the ledger, with its answer; the only freedom is which stale edges are forgotten. */
  ghost predicate MemStep(s: State, e: Event, s': State, a: Answer)
    requires Proper(e.op)
  {
    match e.op
    case Ask(g) =>
      && s'.vals == GrantVals(s, g, e.at)
      && EdgesAfter(s, g, e.at, s'.edges)
      && s'.deduped == s.deduped
      && a == ForAsk(Outcome(g, ReadsOf(s, g, e.at)))
    case GiveBack(r) => s' == ReturnOne(s, r, e.at) && a == ForReturn
    case Lend(x, base, margin) =>
      s' == LendNext(s, x, base, margin, e.at) && a == ForLend(LendAmount(s, x, base, margin, e.at))
    case Credit(x) => s' == CreditNext(s, x, e.at) && a == ForCredit(Credits(s, x, e.at))
  }

  /** The clock of a run never goes back. */
  ghost predicate Ordered(events: seq<Event>) {
    forall i, j :: 0 <= i <= j < |events| ==> events[i].at <= events[j].at
  }

  /** states[i] is the ledger before events[i]; answers[i] is what it replied. */
  ghost predicate MemRun(states: seq<State>, events: seq<Event>, answers: seq<Answer>) {
    && |states| == |events| + 1 && |answers| == |events|
    && Ordered(events)
    && (forall i :: 0 <= i < |events| ==> Proper(events[i].op))
    && (forall i :: 0 <= i < |events| ==> MemStep(states[i], events[i], states[i + 1], answers[i]))
  }

  function Count(s: State, base: string, w: int): int {
    Get(s.vals, Counter(base, w), 0)
  }

  /** A grant adds what it gave to the quota's current window and to its parent's, and to no other counter. */
  lemma CountAfterGrant(s: State, g: GrantInput, now: int, base: string, w: int)
    requires WellFormed(g)
    ensures var n := Granted(g, ReadsOf(s, g, now));
            Get(GrantVals(s, g, now), Counter(base, w), 0) ==
            Count(s, base, w)
            + (if g.key == base && g.algo != TokenBucket && w == WindowOf(now, g.win) then n else 0)
            + (if g.parentKey == base && base != "" && w == WindowOf(now, g.pwin) then n else 0)
  {}

  /** A return that is applied lowers the windows it names, while they are current, and no other counter. */
  lemma CountAfterReturn(vals: map<Key, int>, r: ReturnInput, now: int, base: string, w: int)
    requires WellFormedReturn(r)
    requires !(r.key == base && r.parentKey == base)
    ensures Get(ReturnVals(vals, r, now), Counter(base, w), 0) ==
            if (r.key == base && r.algo != TokenBucket && w == r.wid && WindowOf(now, r.win) == w)
               || (r.parentKey == base && base != "" && w == r.pwid && WindowOf(now, r.pwin) == w)
            then Credited(Get(vals, Counter(base, w), 0), r.tokens)
            else Get(vals, Counter(base, w), 0)
  {}

  /** Lending and crediting move allocation; they never touch a counter. */
  lemma CountAfterTransfer(s: State, x: Transfer, from: int, margin: int, now: int, base: string, w: int)
    requires 0 < x.win
    ensures Count(LendNext(s, x, from, margin, now), base, w) == Count(s, base, w)
    ensures Count(CreditNext(s, x, now), base, w) == Count(s, base, w)
  {}
}
