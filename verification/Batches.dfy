/** The edge's batcher: concurrent lease requests travel together, in at most two batches at a time. */
module Batches {
  import opened Numbers
  import opened Ledger
  import opened Sums
  import Hub
  import L = Lease
  import M = MemLedger

  const MAX_ITEMS := 256
  const MAX_INFLIGHT := 2
  const INTERNAL := 13

  datatype Outcome = Failed(code: int) | Got(resp: L.Response)

  /** A caller's request; closes counts how often its waiter was released. */
  datatype Call<Req> = Call(req: Req, outcome: Option<Outcome>, closes: nat)

  /** A batch on its way: sent once the hub has answered and its calls were released. */
  datatype Batch = Batch(ids: seq<nat>, sent: bool)

  /** What one call came to: no answer, or the hub's. */
  datatype Reply = Lost(code: int) | Served(entry: Hub.Entry)

  /** What came back for a batch. A hub that predates batching is asked call by call. */
  datatype Answer = Broken(code: int) | Results(entries: seq<Hub.Entry>) | OneByOne(replies: seq<Reply>)

  /** When the hub served a request, and its ledger before and after. */
  datatype Serving = Serving(at: int, before: M.State, after: M.State)

  datatype Exchange = Exchange(ids: seq<nat>, answer: Answer, servings: seq<Serving>)

  /** The batcher, the calls made so far, the batches on their way, and every exchange with the hub. */
  datatype State<Req> = State(
    calls: seq<Call<Req>>, pending: seq<nat>, inflight: int, unbatched: bool, batches: seq<Batch>, log: seq<Exchange>)

  function OutcomeOf(entry: Hub.Entry): Outcome {
    match entry
    case Refused(code) => Failed(code)
    case Answered(resp) => Got(resp)
  }

  /** What an answer says to the call at a position of its batch. */
  function OutcomeAt(a: Answer, p: nat): Outcome {
    match a
    case Broken(code) => Failed(code)
    case Results(entries) => if p >= |entries| then Failed(INTERNAL) else OutcomeOf(entries[p])
    case OneByOne(replies) =>
      if p >= |replies| then Failed(INTERNAL)
      else (match replies[p]
            case Lost(code) => Failed(code)
            case Served(entry) => OutcomeOf(entry))
  }

  /** The hub's own entry for the call at a position, when the answer has one. */
  function EntryAt(a: Answer, p: nat): Option<Hub.Entry> {
    match a
    case Broken(_) => None
    case Results(entries) => if p < |entries| then Some(entries[p]) else None
    case OneByOne(replies) => if p < |replies| && replies[p].Served? then Some(replies[p].entry) else None
  }

  /** A request's entry is what serving it on the hub's ledger came to. */
  ghost predicate ServedAt<Req>(resolve: Req -> Hub.Resolution, req: Req, a: Answer, servings: seq<Serving>, p: nat) {
    EntryAt(a, p).Some? ==>
      && p < |servings|
      && Hub.Serves(servings[p].before, resolve(req), servings[p].at, servings[p].after, EntryAt(a, p).value)
  }

  /** An answer comes from the hub: every entry is its own request served, whatever else the hub did in between. */
  ghost predicate FromHub<Req>(resolve: Req -> Hub.Resolution, requests: seq<Req>, a: Answer, servings: seq<Serving>) {
    forall p :: 0 <= p < |requests| ==> ServedAt(resolve, requests[p], a, servings, p)
  }

  /** Starts a batch if there is a call waiting and a free slot. */
  function Take<Req>(s: State<Req>): State<Req> {
    if s.pending == [] || s.inflight >= MAX_INFLIGHT then s
    else
      var n := Min(|s.pending|, MAX_ITEMS);
      s.(pending := s.pending[n..], inflight := s.inflight + 1, batches := s.batches + [Batch(s.pending[..n], false)])
  }

  function Queued<Req>(s: State<Req>, req: Req): State<Req> {
    s.(calls := s.calls + [Call(req, None, 0)], pending := s.pending + [|s.calls|])
  }

  /** The calls after the first n of a batch were answered and released. */
  function Released<Req>(calls: seq<Call<Req>>, ids: seq<nat>, a: Answer, n: nat): (out: seq<Call<Req>>)
    requires n <= |ids| && forall p :: 0 <= p < |ids| ==> ids[p] < |calls|
    ensures |out| == |calls|
  {
    if n == 0 then calls
    else
      var before := Released(calls, ids, a, n - 1);
      var c := before[ids[n - 1]];
      before[ids[n - 1] := c.(outcome := Some(OutcomeAt(a, n - 1)), closes := c.closes + 1)]
  }

  datatype Step<Req> =
    | Ask(req: Req)
    | Direct(req: Req)
    | Answered(k: nat, a: Answer, servings: seq<Serving>)
    | Finish(k: nat)

  function RequestsOf<Req>(calls: seq<Call<Req>>, ids: seq<nat>): (requests: seq<Req>)
    requires forall p :: 0 <= p < |ids| ==> ids[p] < |calls|
    ensures |requests| == |ids| && forall p :: 0 <= p < |ids| ==> requests[p] == calls[ids[p]].req
  {
    seq(|ids|, p requires 0 <= p < |ids| => calls[ids[p]].req)
  }

  ghost predicate Consistent<Req>(s: State<Req>) {
    forall k, p :: 0 <= k < |s.batches| && !s.batches[k].sent && 0 <= p < |s.batches[k].ids| ==>
                     s.batches[k].ids[p] < |s.calls|
  }

  ghost predicate Next<Req(!new)>(resolve: Req -> Hub.Resolution, s: State<Req>, step: Step<Req>, s': State<Req>)
    requires Consistent(s)
  {
    match step
    case Ask(req) => s' == Take(Queued(s, req))
    case Direct(req) => s.unbatched && s' == s
    case Answered(k, a, servings) =>
      && k < |s.batches| && !s.batches[k].sent
      && FromHub(resolve, RequestsOf(s.calls, s.batches[k].ids), a, servings)
      && s' == s.(calls := Released(s.calls, s.batches[k].ids, a, |s.batches[k].ids|),
                  unbatched := s.unbatched || a.OneByOne?,
                  batches := s.batches[k := s.batches[k].(sent := true)],
                  log := s.log + [Exchange(s.batches[k].ids, a, servings)])
    case Finish(k) =>
      && k < |s.batches| && s.batches[k].sent
      && s' == Take(s.(inflight := s.inflight - 1, batches := Without(s.batches, k)))
  }

  function Start<Req>(): State<Req> {
    State([], [], 0, false, [], [])
  }

  /** A run: any interleaving of callers, answers and finished batches. */
  ghost predicate Run<Req(!new)>(resolve: Req -> Hub.Resolution, states: seq<State<Req>>, steps: seq<Step<Req>>) {
    && |states| == |steps| + 1
    && states[0] == Start()
    && forall i :: 0 <= i < |steps| && Consistent(states[i]) ==> Next(resolve, states[i], steps[i], states[i + 1])
  }

  // The invariant.

  function UnsentAt(id: nat): Batch -> int {
    (b: Batch) => if b.sent then 0 else multiset(b.ids)[id]
  }

  function Closes<Req>(s: State<Req>, id: nat): int {
    if id < |s.calls| then s.calls[id].closes else 0
  }

  /** In how many places a call is: waiting, in a batch on its way, or released. */
  function Places<Req>(s: State<Req>, id: nat): int {
    multiset(s.pending)[id] + SumOf(s.batches, UnsentAt(id)) + Closes(s, id)
  }

  ghost predicate Slots<Req>(s: State<Req>) {
    && s.inflight == |s.batches| <= MAX_INFLIGHT
    && (s.pending != [] ==> s.inflight == MAX_INFLIGHT)
    && forall k :: 0 <= k < |s.batches| ==> 1 <= |s.batches[k].ids| <= MAX_ITEMS
  }

  ghost predicate OnePlace<Req>(s: State<Req>) {
    forall id: nat :: Places(s, id) == if id < |s.calls| then 1 else 0
  }

  /** The call has what the hub answered at its place of the batch that carried it, and that is its own request
      served. */
  ghost predicate OwnAnswer<Req>(resolve: Req -> Hub.Resolution, s: State<Req>, id: nat)
    requires id < |s.calls|
  {
    exists k, p :: 0 <= k < |s.log| && 0 <= p < |s.log[k].ids| && s.log[k].ids[p] == id
                   && s.calls[id].outcome == Some(OutcomeAt(s.log[k].answer, p))
                   && ServedAt(resolve, s.calls[id].req, s.log[k].answer, s.log[k].servings, p)
  }

  ghost predicate OwnAnswers<Req>(resolve: Req -> Hub.Resolution, s: State<Req>) {
    forall id: nat :: id < |s.calls| ==>
                        if s.calls[id].closes == 0 then s.calls[id].outcome == None else OwnAnswer(resolve, s, id)
  }

  ghost predicate Inv<Req>(resolve: Req -> Hub.Resolution, s: State<Req>) {
    Slots(s) && OnePlace(s) && OwnAnswers(resolve, s)
  }

  // Every step keeps it.

  lemma OccursAt(ids: seq<nat>, p: nat)
    requires p < |ids|
    ensures 1 <= multiset(ids)[ids[p]]
  {}

  lemma AtLeastThere<Req>(s: State<Req>, k: nat, id: nat)
    requires k < |s.batches|
    ensures UnsentAt(id)(s.batches[k]) <= SumOf(s.batches, UnsentAt(id)) <= Places(s, id)
  {
    SumAtLeast(s.batches, k, UnsentAt(id));
  }

  /** Batches on their way carry calls that exist. */
  lemma InvIsConsistent<Req>(s: State<Req>)
    requires OnePlace(s)
    ensures Consistent(s)
  {
    forall k, p | 0 <= k < |s.batches| && !s.batches[k].sent && 0 <= p < |s.batches[k].ids|
      ensures s.batches[k].ids[p] < |s.calls|
    {
      OccursAt(s.batches[k].ids, p);
      AtLeastThere(s, k, s.batches[k].ids[p]);
    }
  }

  lemma TakeKeepsPlaces<Req>(s: State<Req>, id: nat)
    ensures Places(Take(s), id) == Places(s, id)
  {
    hide SumOf;
    var n := Min(|s.pending|, MAX_ITEMS);
    assert s.pending == s.pending[..n] + s.pending[n..];
    SumAppend(s.batches, Batch(s.pending[..n], false), UnsentAt(id));
  }

  /** Starting a batch leaves no call waiting beside a free slot. */
  lemma TakeFillsSlots<Req>(s: State<Req>)
    requires s.inflight == |s.batches| <= MAX_INFLIGHT
    requires s.pending != [] ==> |s.pending| == 1 || MAX_INFLIGHT - 1 <= s.inflight
    requires forall k :: 0 <= k < |s.batches| ==> 1 <= |s.batches[k].ids| <= MAX_ITEMS
    ensures Slots(Take(s))
  {}

  lemma TakeKeepsAnswers<Req>(resolve: Req -> Hub.Resolution, s: State<Req>)
    requires OwnAnswers(resolve, s)
    ensures OwnAnswers(resolve, Take(s))
  {}

  lemma AskKeeps<Req>(resolve: Req -> Hub.Resolution, s: State<Req>, req: Req)
    requires Inv(resolve, s)
    ensures Inv(resolve, Take(Queued(s, req)))
  {
    hide Take;
    var q := Queued(s, req);
    TakeFillsSlots(q);
    forall id: nat ensures Places(Take(q), id) == if id < |q.calls| then 1 else 0 {
      assert Places(s, id) == if id < |s.calls| then 1 else 0;
      TakeKeepsPlaces(q, id);
    }
    TakeSameCalls(q);
    forall id: nat | id < |q.calls| && q.calls[id].closes != 0 ensures OwnAnswer(resolve, q, id) {
      assert OwnAnswer(resolve, s, id);
    }
    TakeKeepsAnswers(resolve, q);
  }

  lemma TakeSameCalls<Req>(s: State<Req>)
    ensures Take(s).calls == s.calls
  {}

  lemma FinishKeeps<Req>(resolve: Req -> Hub.Resolution, s: State<Req>, k: nat)
    requires Inv(resolve, s) && k < |s.batches| && s.batches[k].sent
    ensures Inv(resolve, Take(s.(inflight := s.inflight - 1, batches := Without(s.batches, k))))
  {
    hide Take, SumOf;
    var q := s.(inflight := s.inflight - 1, batches := Without(s.batches, k));
    TakeFillsSlots(q);
    forall id: nat ensures Places(Take(q), id) == if id < |q.calls| then 1 else 0 {
      assert Places(s, id) == if id < |s.calls| then 1 else 0;
      SumWithout(s.batches, k, UnsentAt(id));
      TakeKeepsPlaces(q, id);
    }
    TakeSameCalls(q);
    forall id: nat | id < |q.calls| && q.calls[id].closes != 0 ensures OwnAnswer(resolve, q, id) {
      assert OwnAnswer(resolve, s, id);
    }
    TakeKeepsAnswers(resolve, q);
  }

  /** Answering a batch releases each of its calls once for every place it has in it. */
  lemma {:induction false} ReleasedCloses<Req>(calls: seq<Call<Req>>, ids: seq<nat>, a: Answer, n: nat, id: nat)
    requires n <= |ids| && id < |calls| && forall p :: 0 <= p < |ids| ==> ids[p] < |calls|
    ensures Released(calls, ids, a, n)[id].closes == calls[id].closes + multiset(ids[..n])[id]
    ensures Released(calls, ids, a, n)[id].req == calls[id].req
  {
    if n > 0 {
      ReleasedCloses(calls, ids, a, n - 1, id);
      assert ids[..n] == ids[..n - 1] + [ids[n - 1]];
    }
  }

  lemma {:induction false} ReleasedOutcome<Req>(calls: seq<Call<Req>>, ids: seq<nat>, a: Answer, n: nat, id: nat)
    requires n <= |ids| && id < |calls| && forall p :: 0 <= p < |ids| ==> ids[p] < |calls|
    ensures id !in ids[..n] ==> Released(calls, ids, a, n)[id].outcome == calls[id].outcome
    ensures id in ids[..n] ==>
              exists p :: 0 <= p < n && ids[p] == id && Released(calls, ids, a, n)[id].outcome == Some(OutcomeAt(a, p))
  {
    hide OutcomeAt;
    if n > 0 {
      ReleasedOutcome(calls, ids, a, n - 1, id);
      assert ids[..n] == ids[..n - 1] + [ids[n - 1]];
    }
  }

  lemma AnswerKeepsPlaces<Req(!new)>(resolve: Req -> Hub.Resolution, s: State<Req>, k: nat, a: Answer,
                                     servings: seq<Serving>, s': State<Req>, id: nat)
    requires Consistent(s) && OnePlace(s) && Next(resolve, s, Answered(k, a, servings), s')
    ensures Places(s', id) == if id < |s'.calls| then 1 else 0
  {
    hide SumOf, Released;
    var b := s.batches[k];
    assert Places(s, id) == if id < |s.calls| then 1 else 0;
    SumUpdate(s.batches, k, b.(sent := true), UnsentAt(id));
    AtLeastThere(s, k, id);
    if id < |s.calls| {
      ReleasedCloses(s.calls, b.ids, a, |b.ids|, id);
      assert b.ids[..|b.ids|] == b.ids;
    }
  }

  lemma AnswerKeepsOwn<Req(!new)>(resolve: Req -> Hub.Resolution, s: State<Req>, k: nat, a: Answer,
                                  servings: seq<Serving>, s': State<Req>, id: nat)
    requires Consistent(s) && OwnAnswers(resolve, s) && Next(resolve, s, Answered(k, a, servings), s')
    requires id < |s'.calls|
    ensures if s'.calls[id].closes == 0 then s'.calls[id].outcome == None else OwnAnswer(resolve, s', id)
  {
    hide Released, OutcomeAt, ServedAt;
    var ids := s.batches[k].ids;
    assert ids[..|ids|] == ids;
    ReleasedCloses(s.calls, ids, a, |ids|, id);
    ReleasedOutcome(s.calls, ids, a, |ids|, id);
    if id in ids {
      var p :| 0 <= p < |ids| && ids[p] == id && s'.calls[id].outcome == Some(OutcomeAt(a, p));
      assert s'.log[|s.log|] == Exchange(ids, a, servings);
    } else if s.calls[id].closes != 0 {
      var j, p :| 0 <= j < |s.log| && 0 <= p < |s.log[j].ids| && s.log[j].ids[p] == id
                  && s.calls[id].outcome == Some(OutcomeAt(s.log[j].answer, p))
                  && ServedAt(resolve, s.calls[id].req, s.log[j].answer, s.log[j].servings, p);
      assert s'.log[j] == s.log[j];
    }
  }

  lemma AnswerKeeps<Req(!new)>(resolve: Req -> Hub.Resolution, s: State<Req>, k: nat, a: Answer,
                               servings: seq<Serving>, s': State<Req>)
    requires Consistent(s) && Inv(resolve, s) && Next(resolve, s, Answered(k, a, servings), s')
    ensures Inv(resolve, s')
  {
    hide Released, Places;
    forall id: nat { AnswerKeepsPlaces(resolve, s, k, a, servings, s', id); }
    forall id: nat | id < |s'.calls| { AnswerKeepsOwn(resolve, s, k, a, servings, s', id); }
  }

  lemma StepKeeps<Req(!new)>(resolve: Req -> Hub.Resolution, s: State<Req>, step: Step<Req>, s': State<Req>)
    requires Consistent(s) && Inv(resolve, s) && Next(resolve, s, step, s')
    ensures Inv(resolve, s')
  {
    hide Inv, Take;
    match step
    case Ask(req) => AskKeeps(resolve, s, req);
    case Direct(_) =>
    case Answered(k, a, servings) => AnswerKeeps(resolve, s, k, a, servings, s');
    case Finish(k) => FinishKeeps(resolve, s, k);
  }

  /** In every interleaving at most two batches are on their way; a call waits only while both slots are busy; every
      call is in exactly one place, is released at most once, and then has the hub's answer to its own request. */
  lemma {:induction false} RunKeeps<Req(!new)>(
    resolve: Req -> Hub.Resolution, states: seq<State<Req>>, steps: seq<Step<Req>>, n: nat)
    requires Run(resolve, states, steps) && n < |states|
    ensures Inv(resolve, states[n]) && Consistent(states[n])
  {
    if n > 0 {
      RunKeeps(resolve, states, steps, n - 1);
      hide Next;
      StepKeeps(resolve, states[n - 1], steps[n - 1], states[n]);
      InvIsConsistent(states[n]);
    }
  }

  /** No call is stranded: while one waits, the batch that finishes next starts another. */
  lemma FinishGoesOn<Req(!new)>(resolve: Req -> Hub.Resolution, s: State<Req>, k: nat, s': State<Req>)
    requires Consistent(s) && Inv(resolve, s) && s.pending != [] && Next(resolve, s, Finish(k), s')
    ensures |s'.pending| == |s.pending| - Min(|s.pending|, MAX_ITEMS)
    ensures s'.batches[|s'.batches| - 1] == Batch(s.pending[..Min(|s.pending|, MAX_ITEMS)], false)
  {}

  /** In every run a call that got tokens got what the hub's ledger granted when it served that call's own request, and
      one that the hub refused was refused for its own request. */
  lemma AnswersOwnRequest<Req(!new)>(
    resolve: Req -> Hub.Resolution, states: seq<State<Req>>, steps: seq<Step<Req>>, n: nat, id: nat)
    requires Run(resolve, states, steps) && n < |states| && id < |states[n].calls| && 0 < states[n].calls[id].closes
    ensures var call, log := states[n].calls[id], states[n].log;
            exists k, p :: 0 <= k < |log| && 0 <= p < |log[k].ids| && log[k].ids[p] == id
                           && call.outcome == Some(OutcomeAt(log[k].answer, p))
                           && ServedAt(resolve, call.req, log[k].answer, log[k].servings, p)
    ensures states[n].calls[id].outcome.Some? && states[n].calls[id].outcome.value.Got? ==>
              exists x: Serving :: Hub.Serves(x.before, resolve(states[n].calls[id].req), x.at, x.after,
                                              Hub.Answered(states[n].calls[id].outcome.value.resp))
  {
    hide Run, Slots, OnePlace, ServedAt, OutcomeAt, Consistent;
    RunKeeps(resolve, states, steps, n);
    var call, log := states[n].calls[id], states[n].log;
    assert OwnAnswer(resolve, states[n], id);
    var k, p :| 0 <= k < |log| && 0 <= p < |log[k].ids| && log[k].ids[p] == id
                && call.outcome == Some(OutcomeAt(log[k].answer, p))
                && ServedAt(resolve, call.req, log[k].answer, log[k].servings, p);
    GotIsServed(resolve, call.req, log[k], p);
  }

  lemma GotIsServed<Req>(resolve: Req -> Hub.Resolution, req: Req, x: Exchange, p: nat)
    requires ServedAt(resolve, req, x.answer, x.servings, p)
    ensures OutcomeAt(x.answer, p).Got? ==>
              && p < |x.servings|
              && Hub.Serves(x.servings[p].before, resolve(req), x.servings[p].at, x.servings[p].after,
                            Hub.Answered(OutcomeAt(x.answer, p).resp))
  {
    hide Hub.Serves;
  }

  /** What a hub that serves a batch answers is from the hub. */
  lemma BatchIsFromHub<Req>(requests: seq<Req>, resolve: Req -> Hub.Resolution, times: seq<int>,
                            entries: seq<Hub.Entry>, states: seq<M.State>)
    requires |requests| == |times| == |entries| && |states| == |requests| + 1
    requires Hub.ServedUpTo(requests, resolve, times, entries, states, |requests|)
    ensures FromHub(resolve, requests, Results(entries), ServingsOf(times, states))
  {
    hide Hub.Serves;
  }

  function ServingsOf(times: seq<int>, states: seq<M.State>): (servings: seq<Serving>)
    requires |states| == |times| + 1
    ensures |servings| == |times|
    ensures forall p :: 0 <= p < |times| ==> servings[p] == Serving(times[p], states[p], states[p + 1])
  {
    seq(|times|, p requires 0 <= p < |times| => Serving(times[p], states[p], states[p + 1]))
  }

  // The batcher itself.

  class Batcher<Req(!new)> {
    var calls: seq<Call<Req>>
    var pending: seq<nat>
    var inflight: int
    var unbatched: bool
    ghost var batches: seq<Batch>
    ghost var log: seq<Exchange>

    ghost function St(): State<Req>
      reads this
    {
      State(calls, pending, inflight, unbatched, batches, log)
    }

    constructor ()
      ensures St() == Start()
    {
      calls, pending, inflight, unbatched, batches, log := [], [], 0, false, [], [];
    }

    /** Starts a batch if a slot is free. */
    method TakeLocked() returns (batch: Option<seq<nat>>)
      modifies this`pending, this`inflight, this`batches
      ensures St() == Take(old(St()))
      ensures batch.Some? <==> old(pending) != [] && old(inflight) < MAX_INFLIGHT
      ensures batch.Some? ==> batches == old(batches) + [Batch(batch.value, false)]
    {
      if |pending| == 0 || inflight >= MAX_INFLIGHT {
        return None;
      }
      var n := Min(|pending|, MAX_ITEMS);
      var taken := pending[..n];
      pending := pending[n..];
      inflight := inflight + 1;
      batches := batches + [Batch(taken, false)];
      return Some(taken);
    }

    /** Queues one request into the next batch; or, with a hub that cannot batch, leaves it to be sent on its own. */
    method Request(ghost resolve: Req -> Hub.Resolution, req: Req) returns (id: Option<nat>, batch: Option<seq<nat>>)
      requires Consistent(St())
      modifies this
      ensures id == if old(unbatched) then None else Some(|old(calls)|)
      ensures Next(resolve, old(St()), if old(unbatched) then Direct(req) else Ask(req), St())
    {
      if unbatched {
        return None, None;
      }
      id := Some(|calls|);
      calls := calls + [Call(req, None, 0)];
      pending := pending + [|calls| - 1];
      batch := TakeLocked();
    }

    /** The requests of a batch, as they go to the hub. */
    method Requests(ids: seq<nat>) returns (requests: seq<Req>)
      requires forall p :: 0 <= p < |ids| ==> ids[p] < |calls|
      ensures |requests| == |ids| && forall p :: 0 <= p < |ids| ==> requests[p] == calls[ids[p]].req
    {
      requests := [];
      for i := 0 to |ids|
        invariant |requests| == i && forall p :: 0 <= p < i ==> requests[p] == calls[ids[p]].req
      {
        requests := requests + [calls[ids[i]].req];
      }
    }

    /** Gives every call of a batch its part of the answer, and releases it. */
    method Deliver(ghost resolve: Req -> Hub.Resolution, ghost k: nat, ids: seq<nat>, a: Answer,
                   ghost servings: seq<Serving>)
      requires Consistent(St()) && k < |batches| && batches[k] == Batch(ids, false)
      requires FromHub(resolve, RequestsOf(calls, ids), a, servings)
      modifies this`calls, this`unbatched, this`batches, this`log
      ensures Next(resolve, old(St()), Answered(k, a, servings), St())
    {
      hide OutcomeAt, FromHub;
      ghost var start := calls;
      unbatched := unbatched || a.OneByOne?;
      for i := 0 to |ids|
        invariant calls == Released(start, ids, a, i) && batches == old(batches) && log == old(log)
        invariant unbatched == (old(unbatched) || a.OneByOne?)
      {
        var c := calls[ids[i]];
        calls := calls[ids[i] := c.(outcome := Some(OutcomeAt(a, i)), closes := c.closes + 1)];
      }
      batches := batches[k := Batch(ids, true)];
      log := log + [Exchange(ids, a, servings)];
    }

    /** One round trip: the batch goes to the hub, which serves it in order, and every call gets its own answer. */
    method RoundTrip(mem: M.Mem, resolve: Req -> Hub.Resolution, ghost k: nat, ids: seq<nat>, times: seq<int>)
      requires Consistent(St()) && k < |batches| && batches[k] == Batch(ids, false) && |times| == |ids|
      modifies this, mem
      ensures exists a: Answer, servings: seq<Serving> :: Next(resolve, old(St()), Answered(k, a, servings), St())
                                    && a.Results? && |a.entries| == |servings| == |ids|
                                    && (forall p :: 0 < p < |ids| ==> servings[p].before == servings[p - 1].after)
                                    && (ids != [] ==> servings[0].before == old(mem.St())
                                                      && servings[|ids| - 1].after == mem.St())
    {
      hide Hub.Serves;
      var requests := Requests(ids);
      assert requests == RequestsOf(calls, ids);
      var entries;
      ghost var states;
      entries, states := Hub.RequestQuotaLeases(mem, requests, resolve, times);
      BatchIsFromHub(requests, resolve, times, entries, states);
      hide FromHub, Next;
      Deliver(resolve, k, ids, Results(entries), ServingsOf(times, states));
      assert Next(resolve, old(St()), Answered(k, Results(entries), ServingsOf(times, states)), St());
    }

    /** Frees the slot of a batch and starts the next one. */
    method Release(ghost resolve: Req -> Hub.Resolution, ghost k: nat) returns (batch: Option<seq<nat>>)
      requires Consistent(St()) && k < |batches| && batches[k].sent
      modifies this
      ensures Next(resolve, old(St()), Finish(k), St())
    {
      inflight := inflight - 1;
      batches := Without(batches, k);
      batch := TakeLocked();
    }
  }
}
