/**
 The ledger's vocabulary: limit specs, what an edge asks for, and the reduction of a request to the
 numbers that both ledger implementations work on. Durations are nanoseconds until they are reduced.
 */
module Ledger {
  import opened Numbers

  datatype Option<+T> = None | Some(value: T)

  datatype Error = BadSpec

  datatype Result<+T> = Ok(value: T) | Err(error: Error)

  const SECOND := 1_000_000_000
  const MILLISECOND := 1_000_000
  const BANKER_CAP_PCT := 25

  /** The algorithm a config names: Unset means a fixed window, Unknown is any other text. */
  datatype AlgoName = Unset | Known(algo: Algo) | Unknown(name: string)

  datatype Algo = FixedWindow | SlidingWindow | TokenBucket

  datatype Spec = Spec(name: AlgoName, limit: int, window: int, rate: real) {

    /** The algorithm to enforce, a fixed window by default. */
    function Or(): Algo
      requires !name.Unknown?
    {
      if name.Unset? then FixedWindow else name.algo
    }

    predicate Validates() {
      && !name.Unknown?
      && limit > 0
      && (Or() == TokenBucket ==> rate > 0.0)
    }

    function WindowMs(): (ms: int)
      ensures 1000 <= ms
    {
      Max(window, SECOND) / MILLISECOND
    }

    /** The natural reset period: the window, or the time to refill a full bucket. */
    function Period(): int {
      if name == Known(TokenBucket) then
        if rate <= 0.0 then SECOND else (limit as real / rate * SECOND as real).Floor
      else
        Max(window, SECOND)
    }
  }

  /** What an edge asks for, with the settings the hub adds. */
  datatype GrantArgs = GrantArgs(
    requested: int, edge: string, horizon: int, observedRate: real, minGrant: int, maxGrant: int,
    parent: Option<Spec>, regional: bool, allocBase: int)
  {
    /** What an edge is expected to spend over the horizon, or what it asks for when nothing was observed. */
    function Demand(): int {
      if horizon > 0 && observedRate > 0.0
      then (observedRate * (horizon as real / SECOND as real) + 0.999).Floor
      else requested
    }

    /** The size of grant to aim for: the least that covers the request, the demand and the configured minimum, cut to
        the configured maximum. */
    function Target(): (t: int)
      ensures 1 <= t && (maxGrant > 0 ==> t <= maxGrant)
      ensures maxGrant <= 0 || t < maxGrant ==> requested <= t && Demand() <= t && minGrant <= t
      ensures t in {1, requested, Demand(), minGrant, maxGrant}
    {
      var demand := Max(requested, Demand());
      var floored := if minGrant > 0 then Max(demand, minGrant) else demand;
      var capped := if maxGrant > 0 then Min(floored, maxGrant) else floored;
      Max(capped, 1)
    }
  }

  /** A grant reduced to numbers. An empty parentKey means no enclosing quota, allocBase -1 no region. */
  datatype GrantInput = GrantInput(
    algo: Algo, key: string, limit: int, win: int, rate: real, target: int, edge: string,
    activeMs: int, ttl: int, parentKey: string, plimit: int, pwin: int, allocBase: int)

  /** What every reduced grant satisfies, whatever the request said. */
  ghost predicate WellFormed(g: GrantInput) {
    && 1 <= g.limit
    && 1000 <= g.win
    && (g.algo == TokenBucket ==> g.rate > 0.0)
    && 1 <= g.target <= g.limit
    && 2000 <= g.activeMs
    && 0 <= g.ttl
    && (g.parentKey != "" ==> 1 <= g.plimit && 1000 <= g.pwin)
    && -1 <= g.allocBase
    && (0 <= g.allocBase ==> g.algo == FixedWindow)
  }

  /** The requests a ledger refuses outright. */
  predicate Enforceable(parentKey: string, spec: Spec, args: GrantArgs) {
    && spec.Validates()
    && (args.regional ==> spec.Or() == FixedWindow && 0 <= args.allocBase)
    && (parentKey != "" && args.parent.Some? ==>
          var p := args.parent.value;
          0 < p.limit && !p.name.Unknown? && p.Or() == FixedWindow)
  }

  /** Reduces a request; key and parentKey are the ledger keys of the quota and of its parent. */
  function Prepare(key: string, parentKey: string, spec: Spec, args: GrantArgs): (r: Result<GrantInput>)
    ensures r.Ok? <==> Enforceable(parentKey, spec, args)
    ensures r.Ok? ==> WellFormed(r.value) && r.value.key == key
    ensures r.Ok? ==> r.value.algo == spec.Or() && r.value.limit == spec.limit && r.value.win == spec.WindowMs()
    ensures r.Ok? ==>
        r.value.target == args.Target() || (spec.limit < args.Target() && r.value.target * 4 <= Max(4, spec.limit))
    ensures r.Ok? ==> (r.value.parentKey != "" <==> parentKey != "" && args.parent.Some?)
    ensures r.Ok? && r.value.parentKey != "" ==>
              && r.value.parentKey == parentKey && r.value.plimit == args.parent.value.limit
              && r.value.pwin == args.parent.value.WindowMs()
    ensures r.Ok? ==> r.value.allocBase == if args.regional then args.allocBase else -1
  {
    if !spec.Validates() then Err(BadSpec)
    else if args.regional && (spec.Or() != FixedWindow || args.allocBase < 0) then Err(BadSpec)
    else
      var target := args.Target();
      var g := GrantInput(
        spec.Or(), key, spec.limit, spec.WindowMs(), spec.rate,
        if target > spec.limit then Min(target, Max(1, spec.limit * BANKER_CAP_PCT / 100)) else target,
        args.edge,
        Max(2 * args.horizon, 2 * SECOND) / MILLISECOND,
        if args.horizon > 0 then args.horizon / MILLISECOND else 1000,
        "", 0, 0,
        if args.regional then args.allocBase else -1);
      if parentKey != "" && args.parent.Some? then
        var p := args.parent.value;
        if p.limit <= 0 || p.name.Unknown? || p.Or() != FixedWindow then Err(BadSpec)
        else Ok(g.(parentKey := parentKey, plimit := p.limit, pwin := p.WindowMs()))
      else Ok(g)
  }

  /** Unspent tokens, or debt when negative, on their way back to the window they were granted in. */
  datatype Return = Return(
    key: string, parentKey: string, spec: Spec, parent: Option<Spec>, wid: int, pwid: int, tokens: int)

  /** A return reduced to numbers. An empty dedupe means the return is applied every time it arrives. */
  datatype ReturnInput = ReturnInput(
    algo: Algo, key: string, win: int, rate: real, wid: int, tokens: int,
    parentKey: string, pwin: int, pwid: int, dedupe: string, dedupeTtl: int)

  ghost predicate WellFormedReturn(r: ReturnInput) {
    && 1000 <= r.win
    && (r.algo == TokenBucket ==> r.rate > 0.0)
    && (r.parentKey != "" ==> 1000 <= r.pwin)
    && (r.dedupe != "" ==>
          // A dedupe record outlives the window it protects by a whole window.
          && (r.algo != TokenBucket ==> 2 * r.win <= r.dedupeTtl)
          && 2000 <= r.dedupeTtl)
  }

  /** The dedupe record outlives the parent's window as well. */
  ghost predicate CoversParent(r: ReturnInput) {
    r.dedupe != "" && r.parentKey != "" ==> 2 * r.pwin <= r.dedupeTtl
  }

  function PrepareReturn(r: Return, dedupe: string): (res: Result<ReturnInput>)
    ensures res.Ok? <==> r.spec.Validates()
    ensures res.Ok? ==> WellFormedReturn(res.value)
    ensures res.Ok? && (r.parent.Some? ==> r.parent.value.name != Known(TokenBucket)) ==> CoversParent(res.value)
  {
    if !r.spec.Validates() then Err(BadSpec)
    else
      var nested := r.parentKey != "" && r.parent.Some?;
      var period := if nested then Max(r.spec.Period(), r.parent.value.Period()) else r.spec.Period();
      Ok(ReturnInput(
           r.spec.Or(), r.key, r.spec.WindowMs(), r.spec.rate, r.wid, r.tokens,
           if nested then r.parentKey else "",
           if nested then r.parent.value.WindowMs() else 0,
           if nested then r.pwid else 0,
           dedupe,
           if dedupe != "" then 2 * (Max(period, SECOND) / MILLISECOND) else 0))
  }
}
