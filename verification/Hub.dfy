/** The hub's lease service: one request at a time, or a batch in one round trip. */
module Hub {
  import opened Numbers
  import opened Ledger
  import opened Grants
  import opened Lease
  import M = MemLedger
  import T = Traces

  /** A request resolved against the hub's config, or why it was refused. */
  datatype Item = Item(key: string, parentKey: string, spec: Spec, args: GrantArgs)

  datatype Resolution = Unresolved(code: int) | Resolved(item: Item)

  /** One entry of a batch's answer. */
  datatype Entry = Refused(code: int) | Answered(resp: Response)

  const FAILED_PRECONDITION := 9

  /** The lease answer made of a ledger's reply; an edge that got nothing waits. */
  function ResponseOf(a: Reply): Response {
    Response(a.granted, a.remaining, a.wid, a.pwid, a.expires, a.reset, a.granted == 0, Max(a.retry, 1))
  }

  /** What serving one request does to the ledger, and what it answers. */
  ghost predicate Serves(s: M.State, res: Resolution, now: int, s': M.State, entry: Entry) {
    match res
    case Unresolved(code) => s' == s && entry == Refused(code)
    case Resolved(i) =>
      var p := Prepare(i.key, i.parentKey, i.spec, i.args);
      if p.Err? then s' == s && entry == Refused(FAILED_PRECONDITION)
      else
        var reply := Outcome(p.value, M.ReadsOf(s, p.value, now));
        && T.MemStep(s, T.Event(now, T.Ask(p.value)), s', T.ForAsk(reply))
        && entry == Answered(ResponseOf(reply))
  }

  /** A grant on the ledger, and its entry. */
  method GrantOne(mem: M.Mem, i: Item, now: int) returns (entry: Entry)
    modifies mem
    ensures Serves(old(mem.St()), Resolved(i), now, mem.St(), entry)
  {
    hide Outcome, M.ReadsOf, M.GrantVals, M.EdgesAfter, WellFormed;
    var r := mem.Grant(i.key, i.parentKey, i.spec, i.args, now);
    if r.Err? {
      return Refused(FAILED_PRECONDITION);
    }
    return Answered(ResponseOf(r.value));
  }

  /** The states of a batch so far, and the last of them again for every later request up to n. */
  ghost function Stretch(states: seq<M.State>, n: nat): (out: seq<M.State>)
    requires 0 < |states| <= n + 1
    ensures |out| == n + 1 && out[..|states|] == states
    ensures forall i :: |states| <= i <= n ==> out[i] == states[|states| - 1]
  {
    states + seq(n + 1 - |states|, _ => states[|states| - 1])
  }

  /** Requests first..last of a batch were served in order, each like a single request. */
  ghost predicate ServedUpTo<Req>(requests: seq<Req>, resolve: Req -> Resolution, times: seq<int>, results: seq<Entry>,
                                  states: seq<M.State>, n: nat)
    requires n <= |requests| == |times| == |results| && n < |states|
  {
    forall i :: 0 <= i < n ==> Serves(states[i], resolve(requests[i]), times[i], states[i + 1], results[i])
  }

  /** The requests that resolve, in order: index says where each came from. */
  ghost predicate Picks<Req>(requests: seq<Req>, resolve: Req -> Resolution, n: nat, items: seq<Item>, index: seq<nat>)
    requires n <= |requests|
  {
    && |items| == |index|
    && (forall j :: 0 <= j < |index| ==> index[j] < n && resolve(requests[index[j]]) == Resolved(items[j]))
    && (forall j, k :: 0 <= j < k < |index| ==> index[j] < index[k])
    && (forall i :: 0 <= i < n && resolve(requests[i]).Resolved? ==> i in index)
  }

  lemma NextPick<Req>(requests: seq<Req>, resolve: Req -> Resolution, items: seq<Item>, index: seq<nat>, j: nat,
                      lo: nat)
    requires Picks(requests, resolve, |requests|, items, index) && j <= |index|
    requires lo == if j == 0 then 0 else index[j - 1] + 1
    ensures forall i :: lo <= i < (if j < |index| then index[j] else |requests|) ==> resolve(requests[i]).Unresolved?
  {}

  /** Requests that did not resolve leave the ledger as it was. */
  lemma SkipUnresolved<Req>(requests: seq<Req>, resolve: Req -> Resolution, times: seq<int>, results: seq<Entry>,
                            states: seq<M.State>, lo: nat, hi: nat)
    requires lo <= hi <= |requests| == |times| == |results| && |states| == lo + 1
    requires ServedUpTo(requests, resolve, times, results, states, lo)
    requires forall i :: lo <= i < hi ==>
                   resolve(requests[i]).Unresolved? && results[i] == Refused(resolve(requests[i]).code)
    ensures ServedUpTo(requests, resolve, times, results, Stretch(states, hi), hi)
  {}

  /** Answers a batch: resolves every request, grants the ones that resolved, and puts every answer back in its own
      request's place. The batch is exactly the single requests, one after another. */
  method RequestQuotaLeases<Req>(mem: M.Mem, requests: seq<Req>, resolve: Req -> Resolution, times: seq<int>)
    returns (results: seq<Entry>, ghost states: seq<M.State>)
    requires |times| == |requests|
    modifies mem
    ensures |results| == |requests| && |states| == |requests| + 1
    ensures states[0] == old(mem.St()) && states[|requests|] == mem.St()
    ensures ServedUpTo(requests, resolve, times, results, states, |requests|)
  {
    hide Serves, Picks;
    var items, index;
    results, items, index := ResolveAll(requests, resolve);
    states := [mem.St()];
    ghost var lo: nat := 0;
    for j := 0 to |items|
      invariant |results| == |requests| && |states| == lo + 1 && lo <= |requests|
      invariant Picks(requests, resolve, |requests|, items, index)
      invariant |items| == |index| && lo == if j == 0 then 0 else index[j - 1] + 1
      invariant states[0] == old(mem.St()) && states[lo] == mem.St()
      invariant ServedUpTo(requests, resolve, times, results, states, lo)
      invariant forall i :: lo <= i < |requests| && resolve(requests[i]).Unresolved? ==>
                              results[i] == Refused(resolve(requests[i]).code)
    {
      PickAt(requests, resolve, items, index, j);
      NextPick(requests, resolve, items, index, j, lo);
      SkipUnresolved(requests, resolve, times, results, states, lo, index[j]);
      states := Stretch(states, index[j]);
      var entry := GrantOne(mem, items[j], times[index[j]]);
      ghost var before := results;
      results := results[index[j] := entry];
      states := states + [mem.St()];
      lo := index[j] + 1;
      OneMoreServed(requests, resolve, times, before, results, states, index[j]);
    }
    NextPick(requests, resolve, items, index, |items|, lo);
    SkipUnresolved(requests, resolve, times, results, states, lo, |requests|);
    states := Stretch(states, |requests|);
  }

  lemma PickAt<Req>(requests: seq<Req>, resolve: Req -> Resolution, items: seq<Item>, index: seq<nat>, j: nat)
    requires Picks(requests, resolve, |requests|, items, index) && j < |index|
    ensures |items| == |index| && index[j] < |requests| && resolve(requests[index[j]]) == Resolved(items[j])
    ensures 0 < j ==> index[j - 1] < index[j]
  {}

  lemma OneMoreServed<Req>(requests: seq<Req>, resolve: Req -> Resolution, times: seq<int>, before: seq<Entry>,
                           results: seq<Entry>, states: seq<M.State>, i: nat)
    requires i < |requests| == |times| == |before| == |results| && |states| == i + 2
    requires ServedUpTo(requests, resolve, times, before, states[..i + 1], i)
    requires forall k :: 0 <= k < i ==> results[k] == before[k]
    requires Serves(states[i], resolve(requests[i]), times[i], states[i + 1], results[i])
    ensures ServedUpTo(requests, resolve, times, results, states, i + 1)
  {
    hide Serves;
    forall k | 0 <= k < i ensures Serves(states[k], resolve(requests[k]), times[k], states[k + 1], results[k]) {
      assert Serves(states[..i + 1][k], resolve(requests[k]), times[k], states[..i + 1][k + 1], before[k]);
    }
  }

  method ResolveAll<Req>(requests: seq<Req>, resolve: Req -> Resolution)
    returns (results: seq<Entry>, items: seq<Item>, index: seq<nat>)
    ensures |results| == |requests| && Picks(requests, resolve, |requests|, items, index)
    ensures forall i :: 0 <= i < |requests| && resolve(requests[i]).Unresolved? ==>
                          results[i] == Refused(resolve(requests[i]).code)
  {
    results, items, index := seq(|requests|, _ => Refused(0)), [], [];
    for i := 0 to |requests|
      invariant |results| == |requests| && Picks(requests, resolve, i, items, index)
      invariant forall k :: 0 <= k < i && resolve(requests[k]).Unresolved? ==>
                      results[k] == Refused(resolve(requests[k]).code)
    {
      match resolve(requests[i])
      case Unresolved(code) =>
        results := results[i := Refused(code)];
      case Resolved(item) =>
        items, index := items + [item], index + [i];
    }
  }
}
