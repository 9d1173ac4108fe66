/**
 An edge's state for one quota: the tokens it holds for the hub's current window, and the steps that change it.
 Every step is one atomic effect on the counter.
 */
module Lease {
  import opened Numbers

  /** The counter's state. gen names the held balance: a new window installs a new one. Times are the edge's clock;
      zero means unset. */
  datatype Counter = Counter(
    gen: nat, win: int, parentWin: int, tokens: int, consumed: int, expiresAt: int,
    resetAt: int, hubRemaining: int, retryAt: int, lastGrant: int)

  const FRESH := Counter(0, 0, 0, 0, 0, 0, 0, 0, 0, 0)

  /** The hub's answer to a lease request. */
  datatype Response = Response(
    granted: int, remaining: int, win: int, parentWin: int, expiresIn: int, resetIn: int, waiting: bool,
    retryAfter: int)

  /** What a hub that reports windows answers: a grant lives for a positive time. */
  ghost predicate Reports(resp: Response) {
    (0 < resp.expiresIn || 0 < resp.resetIn) && (0 < resp.granted ==> 0 < resp.expiresIn)
  }

  datatype Step =
    | Roll(bucket: bool, now: int)
    | Unwait(now: int)
    | Take(cost: int, now: int)
    | Consume(cost: int)
    | Adjust(gen: nat, delta: int, maxDebt: int)
    | Accept(resp: Response, sent: int, now: int, jitter: int)
    | GiveBack(now: int)

  predicate Expired(c: Counter, now: int) {
    c.expiresAt > 0 && now >= c.expiresAt
  }

  /** A take succeeds with enough unexpired tokens. */
  predicate Admits(c: Counter, cost: int, now: int) {
    !Expired(c, now) && cost <= c.tokens
  }

  function Taken(c: Counter, cost: int, now: int): Counter {
    if Expired(c, now) then c.(tokens := Min(c.tokens, 0))
    else if c.tokens < cost then c
    else c.(tokens := c.tokens - cost)
  }

  /** A new window starts without tokens, but with the old one's debt. */
  function Installed(c: Counter, win: int, parentWin: int): Counter {
    c.(gen := c.gen + 1, win := win, parentWin := parentWin, tokens := Min(c.tokens, 0), consumed := 0, expiresAt := 0)
  }

  function Rolled(c: Counter, bucket: bool, now: int): Counter {
    if c.resetAt <= 0 || now < c.resetAt then c
    else
      var r := c.(resetAt := 0, retryAt := 0);
      if bucket then r else Installed(r, r.win, r.parentWin).(hubRemaining := 0)
  }

  /** The balance after an extra charge (or a refund): debt stops at maxDebt, or where it already was. */
  function Charged(tokens: int, delta: int, maxDebt: int): int {
    var next := tokens - delta;
    if delta > 0 && next < -maxDebt then Min(tokens, -maxDebt) else next
  }

  /** A refund to a balance that has been replaced is dropped; a charge goes to the current one. */
  predicate Adjusts(c: Counter, gen: nat, delta: int) {
    gen == c.gen || delta >= 0
  }

  function Adjusted(c: Counter, gen: nat, delta: int, maxDebt: int): Counter {
    if Adjusts(c, gen, delta)
    then c.(consumed := c.consumed + delta, tokens := Charged(c.tokens, delta, maxDebt))
    else c
  }

  /** Whether an answer's tokens are added, and to which window. */
  predicate Adds(c: Counter, resp: Response) {
    c.win <= resp.win && !resp.waiting && 0 < resp.granted
  }

  function Accepted(c: Counter, resp: Response, sent: int, now: int, jitter: int): Counter {
    if resp.win < c.win then c
    else
      var installed := if c.win < resp.win then Installed(c, resp.win, resp.parentWin) else c;
      var noted := installed.(
        resetAt := if 0 < resp.resetIn then sent + resp.resetIn else installed.resetAt,
        hubRemaining := resp.remaining);
      if resp.waiting then
        noted.(retryAt := now + (if resp.retryAfter <= 0 then 500 else resp.retryAfter) / 2 + jitter)
      else if resp.granted <= 0 then noted
      else noted.(expiresAt := sent + resp.expiresIn, tokens := noted.tokens + resp.granted, lastGrant := resp.granted)
  }

  /** What a drain sends back: the whole balance, except tokens that are already dead. */
  function Returnable(c: Counter, now: int): int {
    if c.tokens > 0 && Expired(c, now) then 0 else c.tokens
  }

  function Apply(c: Counter, step: Step): Counter {
    match step
    case Roll(bucket, now) => Rolled(c, bucket, now)
    case Unwait(now) => if 0 < c.retryAt <= now then c.(retryAt := 0) else c
    case Take(cost, now) => Taken(c, cost, now)
    case Consume(cost) => c.(consumed := c.consumed + cost)
    case Adjust(gen, delta, maxDebt) => Adjusted(c, gen, delta, maxDebt)
    case Accept(resp, sent, now, jitter) => Accepted(c, resp, sent, now, jitter)
    case GiveBack(now) => c.(tokens := 0)
  }

  function ApplyAll(c: Counter, steps: seq<Step>): Counter {
    if steps == [] then c else Apply(ApplyAll(c, steps[..|steps| - 1]), steps[|steps| - 1])
  }

  lemma ApplyOneMore(c: Counter, steps: seq<Step>, step: Step)
    ensures ApplyAll(c, steps + [step]) == Apply(ApplyAll(c, steps), step)
  {}

  // The edge's own objects.

  /** The tokens an edge holds for one window of one quota. */
  class Held {
    const c: LeaseCounter
    const gen: nat
    const win: int
    const parentWin: int
    var tokens: int
    var consumed: int
    var expiresAt: int

    constructor (c: LeaseCounter, gen: nat, win: int, parentWin: int, tokens: int)
      ensures this.c == c && this.gen == gen && this.win == win && this.parentWin == parentWin
      ensures this.tokens == tokens && consumed == 0 && expiresAt == 0
    {
      this.c, this.gen, this.win, this.parentWin := c, gen, win, parentWin;
      this.tokens, consumed, expiresAt := tokens, 0, 0;
    }

    /** Spends cost tokens; returns the balance left, or -1. */
    method TakeTokens(cost: int, now: int) returns (left: int)
      requires 0 <= cost && c.Valid() && c.cur == this
      modifies this
      ensures c.Valid() && c.cur == this && c.St() == Taken(old(c.St()), cost, now)
      ensures left == if Admits(old(c.St()), cost, now) then old(tokens) - cost else -1
      ensures consumed == old(consumed) && (left < 0 <==> !Admits(old(c.St()), cost, now))
    {
      if expiresAt > 0 && now >= expiresAt {
        if tokens > 0 {
          tokens := 0;
        }
        return -1;
      }
      if tokens < cost {
        return -1;
      }
      tokens := tokens - cost;
      return tokens;
    }

    /** Re-charges a request that was admitted from this balance, which may have been replaced since. */
    method AdjustCharge(delta: int, maxDebt: int)
      requires c.Valid() && (this == c.cur || gen < c.cur.gen)
      modifies c.cur
      ensures c.Valid() && c.St() == Adjusted(old(c.St()), gen, delta, maxDebt)
    {
      var target := this;
      if c.cur != this {
        if delta < 0 {
          return;
        }
        target := c.cur;
      }
      target.consumed := target.consumed + delta;
      var next := target.tokens - delta;
      if delta > 0 && next < -maxDebt {
        next := Min(target.tokens, -maxDebt);
      }
      target.tokens := next;
    }
  }

  /** What fetching a lease came to: no hub, or its answer, when the request left and when the answer arrived. */
  datatype Fetch = Unavailable | Answer(resp: Response, sent: int, now: int, jitter: int)

  datatype Decision = Denied | Failed | Allowed(win: int, gen: nat)

  class LeaseCounter {
    var cur: Held?
    var resetAt: int
    var hubRemaining: int
    var retryAt: int
    var lastGrant: int

    ghost predicate Valid()
      reads this
    {
      cur != null && cur.c == this
    }

    ghost function St(): Counter
      requires Valid()
      reads this, cur
    {
      Counter(cur.gen, cur.win, cur.parentWin, cur.tokens, cur.consumed, cur.expiresAt,
              resetAt, hubRemaining, retryAt, lastGrant)
    }

    constructor ()
      ensures Valid() && fresh(cur) && St() == FRESH
    {
      resetAt, hubRemaining, retryAt, lastGrant := 0, 0, 0, 0;
      cur := null;
      new;
      cur := new Held(this, 0, 0, 0, 0);
    }

    /** Replaces the current window, carrying its debt and never its tokens. */
    method Install(win: int, parentWin: int)
      requires Valid()
      modifies this`cur
      ensures Valid() && fresh(cur) && St() == Installed(old(St()), win, parentWin)
    {
      var debt := Min(cur.tokens, 0);
      cur := new Held(this, cur.gen + 1, win, parentWin, debt);
    }

    /** Starts a new window once the hub's reset time has passed. */
    method Reset(bucket: bool, now: int)
      requires Valid()
      modifies this
      ensures Valid() && (fresh(cur) || cur == old(cur)) && St() == Rolled(old(St()), bucket, now)
    {
      if resetAt <= 0 || now < resetAt {
        return;
      }
      resetAt := 0;
      retryAt := 0;
      if bucket {
        return;
      }
      Install(cur.win, cur.parentWin);
      hubRemaining := 0;
    }

    /** Applies a hub answer; returns the tokens it added. */
    method AcceptAnswer(resp: Response, sent: int, now: int, jitter: int) returns (added: int)
      requires Valid() && Reports(resp)
      modifies this, cur
      ensures Valid() && (fresh(cur) || cur == old(cur)) && St() == Accepted(old(St()), resp, sent, now, jitter)
      ensures added == if Adds(old(St()), resp) then resp.granted else 0
    {
      if resp.win < cur.win {
        return 0;
      }
      if resp.win > cur.win {
        Install(resp.win, resp.parentWin);
      }
      if resp.resetIn > 0 {
        resetAt := sent + resp.resetIn;
      }
      hubRemaining := resp.remaining;
      if resp.waiting {
        var retry := resp.retryAfter;
        if retry <= 0 {
          retry := 500;
        }
        retryAt := now + retry / 2 + jitter;
        return 0;
      }
      if resp.granted <= 0 {
        return 0;
      }
      cur.expiresAt := sent + resp.expiresIn;
      cur.tokens := cur.tokens + resp.granted;
      lastGrant := resp.granted;
      return resp.granted;
    }

    /** Swaps the balance out and returns what goes back to the hub. */
    method SwapOut(now: int) returns (n: int)
      requires Valid()
      modifies cur
      ensures Valid() && St() == Apply(old(St()), GiveBack(now)) && n == Returnable(old(St()), now)
    {
      n := cur.tokens;
      cur.tokens := 0;
      if n > 0 && cur.expiresAt > 0 && now >= cur.expiresAt {
        n := 0;
      }
    }

    /** The start of a decision: a due roll, and the end of waiting. */
    method Prepare(bucket: bool, now: int) returns (waiting: bool, ghost steps: seq<Step>)
      requires Valid()
      modifies this
      ensures Valid() && (fresh(cur) || cur == old(cur))
      ensures steps == [Roll(bucket, now), Unwait(now)] && St() == ApplyAll(old(St()), steps)
      ensures NoneAdmitted(old(St()), steps)
    {
      hide Rolled, NoneAdmitted, ApplyAll;
      ghost var start := St();
      NoneAdmittedYet(start);
      steps := Then(start, [], Roll(bucket, now));
      Reset(bucket, now);
      steps := Then(start, steps, Unwait(now));
      waiting := false;
      if retryAt > 0 {
        waiting := now < retryAt;
        if !waiting {
          retryAt := 0;
        }
      }
    }

    /** One miss: fetch a lease and take again. A negative left without go means the request is denied. */
    method Refill(f: Fetch, fixed: bool, limit: int, cost: int, ghost start: Counter, ghost missed: seq<Step>)
      returns (go: bool, left: int, ghost steps: seq<Step>)
      requires Valid() && 1 <= cost && f.Answer? && Reports(f.resp)
      requires St() == ApplyAll(start, missed) && NoneAdmitted(start, missed)
      modifies this, cur
      ensures Valid() && (fresh(cur) || cur == old(cur))
      ensures steps == missed + [Accept(f.resp, f.sent, f.now, f.jitter)] && NoneAdmitted(start, steps)
      ensures !go ==> St() == ApplyAll(start, steps)
      ensures go ==> St() == Taken(ApplyAll(start, steps), cost, f.now)
      ensures go ==> (left < 0 <==> !Admits(ApplyAll(start, steps), cost, f.now))
      ensures go && fixed ==> cur.consumed + cost <= limit
    {
      hide Accepted, NoneAdmitted, ApplyAll, Taken, Admits, Adds;
      steps := Then(start, missed, Accept(f.resp, f.sent, f.now, f.jitter));
      var added := AcceptAnswer(f.resp, f.sent, f.now, f.jitter);
      if added <= 0 || (fixed && cur.consumed + cost > limit) {
        return false, -1, steps;
      }
      go := true;
      left := cur.TakeTokens(cost, f.now);
    }

    /** Admits or denies one request; fetches are what the hub answers, in order, when the balance misses. Whatever
        happens is a sequence of the steps above, and an admission is exactly one successful take. */
    method Allow(bucket: bool, fixed: bool, limit: int, cost: int, now: int, fetches: seq<Fetch>)
      returns (d: Decision, ghost steps: seq<Step>)
      requires Valid() && 1 <= cost
      requires forall f :: f in fetches && f.Answer? ==> Reports(f.resp)
      modifies this, cur
      ensures Valid() && St() == ApplyAll(old(St()), steps)
      ensures forall s :: s in steps ==> OfAllow(s, cost)
      ensures !d.Allowed? ==> NoneAdmitted(old(St()), steps)
      ensures d.Allowed? ==> d == Allowed(cur.win, cur.gen) && AdmittedLast(old(St()), steps, cost)
      ensures d.Allowed? && fixed ==> cur.consumed <= limit
    {
      hide Taken, NoneAdmitted, ApplyAll, Admits, AdmittedLast;
      ghost var start := St();
      var waiting;
      waiting, steps := Prepare(bucket, now);
      if fixed && cur.consumed + cost > limit {
        return Denied, steps;
      }
      ghost var at := now;
      var left := cur.TakeTokens(cost, now);
      var i := 0;
      while left < 0 && !waiting && i < |fetches| && i < 64
        invariant Valid() && (cur == old(cur) || fresh(cur))
        invariant St() == Taken(ApplyAll(start, steps), cost, at)
        invariant left < 0 <==> !Admits(ApplyAll(start, steps), cost, at)
        invariant forall s :: s in steps ==> OfAllow(s, cost)
        invariant NoneAdmitted(start, steps)
        invariant left >= 0 && fixed ==> cur.consumed + cost <= limit
        decreases |fetches| - i
      {
        steps := Then(start, steps, Take(cost, at));
        if fetches[i].Unavailable? {
          return Failed, steps;
        }
        at := fetches[i].now;
        var go;
        go, left, steps := Refill(fetches[i], fixed, limit, cost, start, steps);
        if !go {
          return Denied, steps;
        }
        i := i + 1;
      }
      if left < 0 {
        steps := Then(start, steps, Take(cost, at));
        return Denied, steps;
      }
      steps := ThenAdmit(start, steps, cost, at);
      cur.consumed := cur.consumed + cost;
      d := Allowed(cur.win, cur.gen);
    }
  }

  ghost predicate OfAllow(s: Step, cost: int) {
    s.Roll? || s.Unwait? || s.Accept? || s == Consume(cost) || (s.Take? && s.cost == cost)
  }

  /** The last two steps take the cost and note it as consumed; no earlier take succeeded. */
  ghost predicate AdmittedLast(c: Counter, steps: seq<Step>, cost: int) {
    && 2 <= |steps|
    && var before, take := steps[..|steps| - 2], steps[|steps| - 2];
       && NoneAdmitted(c, before)
       && take.Take? && take.cost == cost && Admits(ApplyAll(c, before), cost, take.now)
       && steps[|steps| - 1] == Consume(cost)
  }

  lemma NoneAdmittedYet(c: Counter)
    ensures NoneAdmitted(c, []) && ApplyAll(c, []) == c
  {}

  /** A successful take, and the note of it. */
  ghost function ThenAdmit(c: Counter, steps: seq<Step>, cost: int, at: int): (more: seq<Step>)
    requires NoneAdmitted(c, steps) && Admits(ApplyAll(c, steps), cost, at)
    ensures AdmittedLast(c, more, cost) && more == steps + [Take(cost, at), Consume(cost)]
    ensures ApplyAll(c, more) == Apply(Taken(ApplyAll(c, steps), cost, at), Consume(cost))
  {
    ApplyOneMore(c, steps, Take(cost, at));
    ApplyOneMore(c, steps + [Take(cost, at)], Consume(cost));
    var more := steps + [Take(cost, at)] + [Consume(cost)];
    assert more == steps + [Take(cost, at), Consume(cost)] && more[..|more| - 2] == steps;
    more
  }

  /** One more step after a history in which no take succeeded, itself not a successful take. */
  ghost function Then(c: Counter, steps: seq<Step>, step: Step): (more: seq<Step>)
    requires NoneAdmitted(c, steps)
    requires step.Take? ==> !Admits(ApplyAll(c, steps), step.cost, step.now)
    ensures more == steps + [step] && NoneAdmitted(c, more)
    ensures ApplyAll(c, more) == Apply(ApplyAll(c, steps), step)
  {
    ApplyOneMore(c, steps, step);
    var more := steps + [step];
    assert forall i :: 0 <= i <= |steps| ==> more[..i] == steps[..i];
    assert steps[..|steps|] == steps;
    more
  }

  /** No take among these steps succeeds. */
  ghost predicate NoneAdmitted(c: Counter, steps: seq<Step>) {
    forall i :: 0 <= i < |steps| && steps[i].Take? ==>
                  !Admits(ApplyAll(c, steps[..i]), steps[i].cost, steps[i].now)
  }
}
