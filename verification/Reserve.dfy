/** Admission against several limits at once: all of them, or none. */
module Reserve {
  import opened Numbers
  import opened Ledger

  datatype LimitError = NotAvailable | Rejected

  /** What an admitted request can be re-charged on: a counter, and the balance it was admitted from. */
  datatype Target = Target(counter: nat, gen: nat)

  datatype Decision = Decision(
    allowed: bool, limit: int, remaining: int, fallback: bool, target: Option<Target>, maxDebt: int)

  const NO_DECISION := Decision(false, 0, 0, false, None, 0)

  datatype Check = Check(cost: int, shadow: bool)

  /** What a limiter says to a check. */
  datatype Outcome = Failure(error: LimitError) | Decided(d: Decision)

  /** The charges a reservation makes to counters, in order: an admission, or a later adjustment. */
  datatype Effect = Effect(admits: bool, target: Target, delta: int, maxDebt: int)

  function Net(log: seq<Effect>, t: Target): int {
    if log == [] then 0
    else Net(log[..|log| - 1], t) + if log[|log| - 1].target == t then log[|log| - 1].delta else 0
  }

  lemma NetAppend(log: seq<Effect>, e: Effect, t: Target)
    ensures Net(log + [e], t) == Net(log, t) + if e.target == t then e.delta else 0
  {}

  /** What of its admissions a reservation has not taken back; extra charges give it no claim. */
  function Claim(log: seq<Effect>, t: Target): int {
    if log == [] then 0
    else Claim(log[..|log| - 1], t) + Claimed(log[|log| - 1], t)
  }

  function Claimed(e: Effect, t: Target): int {
    if e.target == t && (e.admits || e.delta < 0) then e.delta else 0
  }

  /** At no point does a reservation take back more from a balance than it was admitted for there. */
  ghost predicate NeverOverRefunds(log: seq<Effect>) {
    forall n, t :: 0 <= n <= |log| ==> 0 <= Claim(log[..n], t)
  }

  ghost predicate HasAdmission(log: seq<Effect>, t: Target) {
    exists m :: 0 <= m < |log| && log[m].admits && log[m].target == t
  }

  /** A request is only ever re-charged where it was admitted. */
  ghost predicate Founded(log: seq<Effect>) {
    forall n :: 0 <= n < |log| ==> HasAdmission(log, log[n].target)
  }

  /** Admissions and refunds only. */
  ghost predicate OnlyRefunds(log: seq<Effect>) {
    forall n :: 0 <= n < |log| ==> log[n].admits || log[n].delta < 0
  }

  lemma StillFounded(log: seq<Effect>, e: Effect)
    requires Founded(log) && (e.admits || HasAdmission(log, e.target))
    ensures Founded(log + [e]) && HasAdmission(log + [e], e.target)
    ensures forall t :: HasAdmission(log, t) ==> HasAdmission(log + [e], t)
  {
    forall t | HasAdmission(log, t) ensures HasAdmission(log + [e], t) {
      var m :| 0 <= m < |log| && log[m].admits && log[m].target == t;
      assert (log + [e])[m] == log[m];
    }
    assert (log + [e])[|log|] == e;
  }

  lemma ClaimAppend(log: seq<Effect>, e: Effect, t: Target)
    ensures Claim(log + [e], t) == Claim(log, t) + Claimed(e, t)
  {
    assert (log + [e])[..|log|] == log;
  }

  lemma ClaimNow(log: seq<Effect>, t: Target)
    requires NeverOverRefunds(log)
    ensures 0 <= Claim(log, t)
  {
    assert log[..|log|] == log;
  }

  lemma StillNeverOver(log: seq<Effect>, e: Effect)
    requires NeverOverRefunds(log) && forall t :: 0 <= Claim(log, t) + Claimed(e, t)
    ensures NeverOverRefunds(log + [e])
  {
    hide Claim, Claimed;
    forall n, t | 0 <= n <= |log| + 1 ensures 0 <= Claim((log + [e])[..n], t) {
      if n <= |log| {
        assert (log + [e])[..n] == log[..n];
      } else {
        assert (log + [e])[..n] == log + [e];
        ClaimAppend(log, e, t);
      }
    }
  }

  predicate Charges(d: Decision, t: Target) {
    d.allowed && d.target == Some(t)
  }

  /** What the decisions that admitted from a target are charged there. */
  function Charged(results: seq<Decision>, paid: seq<int>, t: Target): int
    requires |results| <= |paid|
  {
    if results == [] then 0
    else
      Charged(results[..|results| - 1], paid, t) +
      if Charges(results[|results| - 1], t) then paid[|results| - 1] else 0
  }

  /** One decision or one payment changes: so does the total, by that much. */
  lemma {:induction false} ChargedUpdate(results: seq<Decision>, paid: seq<int>, j: nat, d: Decision, p: int, t: Target)
    requires |results| <= |paid| && j < |results|
    ensures Charged(results[j := d], paid[j := p], t) ==
            Charged(results, paid, t)
            - (if Charges(results[j], t) then paid[j] else 0)
            + (if Charges(d, t) then p else 0)
  {
    hide Charges;
    var front := results[..|results| - 1];
    if j == |results| - 1 {
      assert results[j := d][..|results| - 1] == front;
      ChargedSame(front, paid, paid[j := p], t);
    } else {
      assert results[j := d][..|results| - 1] == front[j := d];
      ChargedUpdate(front, paid, j, d, p, t);
    }
  }

  lemma {:induction false} ChargedSame(results: seq<Decision>, paid: seq<int>, paid': seq<int>, t: Target)
    requires |results| <= |paid| && |results| <= |paid'|
    requires forall j :: 0 <= j < |results| ==> paid[j] == paid'[j]
    ensures Charged(results, paid, t) == Charged(results, paid', t)
  {
    if results != [] {
      ChargedSame(results[..|results| - 1], paid, paid', t);
    }
  }

  lemma {:induction false} ChargedNone(results: seq<Decision>, paid: seq<int>, t: Target)
    requires |results| <= |paid| && forall j :: 0 <= j < |results| ==> !results[j].allowed
    ensures Charged(results, paid, t) == 0
  {
    if results != [] {
      ChargedNone(results[..|results| - 1], paid, t);
    }
  }

  lemma {:induction false} ChargedIsNat(results: seq<Decision>, paid: seq<int>, t: Target)
    requires |results| <= |paid| && forall j :: 0 <= j < |paid| ==> 0 <= paid[j]
    ensures 0 <= Charged(results, paid, t)
  {
    if results != [] {
      ChargedIsNat(results[..|results| - 1], paid, t);
    }
  }

  /** How many checks admitted from a target. */
  function Admitting(results: seq<Decision>, t: Target): nat {
    if results == [] then 0
    else Admitting(results[..|results| - 1], t) + if Charges(results[|results| - 1], t) then 1 else 0
  }

  lemma {:induction false} ChargedAlike(results: seq<Decision>, paid: seq<int>, each: int, t: Target)
    requires |results| <= |paid| && forall j :: 0 <= j < |results| ==> paid[j] == each
    ensures Charged(results, paid, t) == each * Admitting(results, t)
  {
    if results != [] {
      ChargedAlike(results[..|results| - 1], paid, each, t);
    }
  }

  // What a reservation promises.

  /** An enforced check that fails or denies ends the reservation. */
  predicate Stops(c: Check, o: Outcome) {
    !c.shadow && (o.Failure? || !o.d.allowed)
  }

  ghost predicate Admitted(checks: seq<Check>, outcomes: seq<Outcome>)
    requires |checks| == |outcomes|
  {
    forall i :: 0 <= i < |checks| ==> !Stops(checks[i], outcomes[i])
  }

  /** The first check that ends it, or the number of checks. */
  ghost predicate FirstStop(checks: seq<Check>, outcomes: seq<Outcome>, stop: nat)
    requires |checks| == |outcomes|
  {
    && stop <= |checks|
    && (forall i :: 0 <= i < stop ==> !Stops(checks[i], outcomes[i]))
    && (stop < |checks| ==> Stops(checks[stop], outcomes[stop]))
  }

  function DecisionOf(o: Outcome): Decision {
    if o.Decided? then o.d else NO_DECISION
  }

  /** The fraction of its limit a decision leaves; all of it when there is no limit. */
  function Share(d: Decision): (share: real)
    ensures d.limit <= 0 ==> share == 1.0
    ensures 0 < d.limit ==> share * d.limit as real == d.remaining as real
  {
    if d.limit <= 0 then 1.0 else d.remaining as real / d.limit as real
  }

  /** The decision reported for an admitted request: the enforced check with the least share left, the first of
      several; the first check when all are shadow checks; none when there are no checks. */
  ghost predicate Binds(checks: seq<Check>, outcomes: seq<Outcome>, index: int)
    requires |checks| == |outcomes|
  {
    if exists i :: 0 <= i < |checks| && !checks[i].shadow then
      && 0 <= index < |checks| && !checks[index].shadow
      && forall i :: 0 <= i < |checks| && !checks[i].shadow ==>
                       var least, share := Share(DecisionOf(outcomes[index])), Share(DecisionOf(outcomes[i]));
                       least <= share && (i < index ==> least < share)
    else if checks != [] then index == 0
    else index == -1
  }

  /** The shadow checks among the first n that would have denied. */
  function ShadowDenials(checks: seq<Check>, outcomes: seq<Outcome>, n: nat): (out: seq<nat>)
    requires n <= |checks| == |outcomes|
    ensures forall i: nat :: i in out <==> i < n && checks[i].shadow && outcomes[i].Decided? && !outcomes[i].d.allowed
    ensures forall a, b :: 0 <= a < b < |out| ==> out[a] < out[b]
  {
    if n == 0 then []
    else
      var before := ShadowDenials(checks, outcomes, n - 1);
      assert forall a :: 0 <= a < |before| ==> before[a] in before;
      var o := outcomes[n - 1];
      if checks[n - 1].shadow && o.Decided? && !o.d.allowed then before + [n - 1] else before
  }

  class Reservation {
    var allowed: bool
    var binding: Decision
    var bindingIndex: int
    var results: seq<Decision>
    var shadowDenied: seq<nat>
    var fallback: bool
    var costs: seq<int>
    var settled: bool
    /** Every effect on counters so far; what each check's limit is charged in all, and of that what was admitted and
        not taken back; the cost settled on. */
    ghost var log: seq<Effect>
    ghost var paid: seq<int>
    ghost var claims: seq<int>
    ghost var actual: int

    /** The net charge of every counter is what the admitting checks are to pay there. */
    ghost predicate Balanced()
      reads this
    {
      && |results| == |costs| == |paid| == |claims| && (forall j :: 0 <= j < |claims| ==> 0 <= claims[j])
      && (forall t :: Net(log, t) == Charged(results, paid, t) && Claim(log, t) == Charged(results, claims, t))
      && NeverOverRefunds(log) && Founded(log)
      && (forall j :: 0 <= j < |results| && results[j].allowed ==>
            1 <= costs[j] && (results[j].target.Some? ==> HasAdmission(log, results[j].target.value)))
    }

    ghost predicate Valid()
      reads this
    {
      && Balanced()
      && (!allowed ==> forall j :: 0 <= j < |results| ==> !results[j].allowed)
      && (!settled ==> paid == claims == costs && OnlyRefunds(log))
      && (settled ==> allowed && 0 <= actual && forall j :: 0 <= j < |paid| ==> paid[j] == actual)
    }

    constructor (n: nat)
      ensures Balanced() && !allowed && bindingIndex == -1 && !settled && !fallback && shadowDenied == []
      ensures log == [] && OnlyRefunds(log) && paid == claims == costs && results == seq(n, _ => NO_DECISION)
    {
      allowed, binding, bindingIndex, shadowDenied, fallback, settled := false, NO_DECISION, -1, [], false, false;
      results, costs := seq(n, _ => NO_DECISION), seq(n, _ => 0);
      log, paid, claims, actual := [], seq(n, _ => 0), seq(n, _ => 0), 0;
      new;
      forall t { ChargedNone(results, paid, t); }
    }

    /** Charges a request that is admitted, or re-charges it later. */
    method Adjust(ghost admits: bool, d: Decision, delta: int)
      requires NeverOverRefunds(log)
      requires forall t :: d.target == Some(t) && (admits || delta < 0) ==> 0 <= Claim(log, t) + delta
      requires Founded(log) && (d.target.Some? ==> admits || HasAdmission(log, d.target.value))
      modifies this`log
      ensures NeverOverRefunds(log) && Founded(log)
      ensures forall t :: old(HasAdmission(log, t)) ==> HasAdmission(log, t)
      ensures d.target.Some? && delta != 0 ==> HasAdmission(log, d.target.value)
      ensures old(OnlyRefunds(log)) && (admits || delta <= 0) ==> OnlyRefunds(log)
      ensures forall t :: Net(log, t) == old(Net(log, t)) + if d.target == Some(t) then delta else 0
      ensures forall t :: Claim(log, t) ==
                          old(Claim(log, t)) + if d.target == Some(t) && (admits || delta < 0) then delta else 0
    {
      hide Net, Claim, NeverOverRefunds, Founded, HasAdmission;
      if d.target.Some? && delta != 0 {
        ghost var e := Effect(admits, d.target.value, delta, if admits then 0 else d.maxDebt);
        forall t
          ensures Net(log + [e], t) == Net(log, t) + if e.target == t then delta else 0
          ensures Claim(log + [e], t) == Claim(log, t) + Claimed(e, t) && 0 <= Claim(log, t)
        {
          NetAppend(log, e, t);
          ClaimAppend(log, e, t);
          ClaimNow(log, t);
        }
        StillNeverOver(log, e);
        StillFounded(log, e);
        log := log + [e];
      }
    }

    /** One check's answer comes in; an admission is a charge. */
    method Record(i: nat, cost: int, d: Decision)
      requires Balanced() && paid == claims == costs && i < |results| && !results[i].allowed && 1 <= cost == costs[i]
      requires OnlyRefunds(log)
      modifies this`results, this`log, this`fallback
      ensures OnlyRefunds(log)
      ensures Balanced() && results == old(results)[i := d]
      ensures fallback == (old(fallback) || d.fallback)
    {
      hide Charged, Net, Claim, NeverOverRefunds, Founded, HasAdmission, OnlyRefunds;
      forall t { ChargedUpdate(results, paid, i, d, cost, t); }
      assert paid[i := cost] == paid;
      if d.allowed {
        forall t { ChargedIsNat(results, claims, t); }
        Adjust(true, d, cost);
      }
      results := results[i := d];
      fallback := fallback || d.fallback;
    }

    /** Refunds every charge made so far. */
    method Rollback(upTo: nat)
      requires Balanced() && paid == claims == costs && upTo <= |results| && OnlyRefunds(log)
      modifies this`results, this`log
      ensures OnlyRefunds(log)
      ensures Balanced() && |results| == old(|results|)
      ensures forall j :: 0 <= j < upTo ==> !results[j].allowed
      ensures forall j :: upTo <= j < |results| ==> results[j] == old(results[j])
    {
      hide Charged, Net, Claim, NeverOverRefunds, Founded, HasAdmission, OnlyRefunds;
      for j := 0 to upTo
        invariant Balanced() && |results| == old(|results|) && OnlyRefunds(log)
        invariant forall k :: 0 <= k < j ==> !results[k].allowed
        invariant forall k :: j <= k < |results| ==> results[k] == old(results[k])
      {
        if results[j].allowed {
          var d := results[j];
          forall t { ChargedUpdate(results, paid, j, d.(allowed := false), paid[j], t); }
          assert paid[j := paid[j]] == paid;
          var after := results[j := d.(allowed := false)];
          forall t { ChargedIsNat(after, claims, t); }
          Adjust(false, d, -costs[j]);
          results := after;
        }
      }
    }

    /** Charges the request's actual cost in place of the cost reserved; only the first call has an effect. */
    method Settle(cost: int)
      requires Valid()
      modifies this`settled, this`log, this`paid, this`claims, this`actual
      ensures Valid() && settled == (old(settled) || allowed)
      ensures old(settled) || !allowed ==> log == old(log) && actual == old(actual)
      ensures !old(settled) && allowed ==> actual == Max(cost, 0)
      ensures settled ==> forall t :: Net(log, t) == actual * Admitting(results, t)
    {
      hide Charged, Net, Claim, NeverOverRefunds, Founded, HasAdmission, OnlyRefunds;
      if !allowed || settled {
        forall t | settled { ChargedAlike(results, paid, actual, t); }
        return;
      }
      settled := true;
      var final := Max(cost, 0);
      actual := final;
      for i := 0 to |results|
        invariant Balanced() && settled && actual == final
        invariant forall j :: 0 <= j < i ==> paid[j] == final
        invariant forall j :: i <= j < |paid| ==> paid[j] == claims[j] == costs[j]
      {
        ghost var owed, kept := paid[i := final], claims[i := Min(final, costs[i])];
        assert results[i := results[i]] == results;
        forall t { ChargedUpdate(results, paid, i, results[i], final, t); }
        forall t { ChargedUpdate(results, claims, i, results[i], Min(final, costs[i]), t); }
        forall t { ChargedIsNat(results, kept, t); }
        if results[i].allowed {
          Adjust(false, results[i], final - costs[i]);
        }
        paid, claims := owed, kept;
      }
      forall t { ChargedAlike(results, paid, final, t); }
    }
  }

  /** The reservation after n checks were made, and before any refund: none but the first m may have charged. */
  ghost predicate Made(r: Reservation, checks: seq<Check>, outcomes: seq<Outcome>, n: nat, m: nat)
    requires m <= n <= |checks| == |outcomes|
    reads r
  {
    && r.Balanced() && r.paid == r.claims == r.costs && OnlyRefunds(r.log) && !r.settled && !r.allowed
    && r.bindingIndex == -1
    && |r.results| == |checks|
    && (forall j :: 0 <= j < n ==> r.results[j] == DecisionOf(outcomes[j]) && r.costs[j] == Max(checks[j].cost, 1))
    && (forall j :: n <= j < |checks| ==> r.results[j] == NO_DECISION)
    && r.shadowDenied == ShadowDenials(checks, outcomes, m)
    && (r.fallback <==> exists j :: 0 <= j < n && DecisionOf(outcomes[j]).fallback)
  }

  /** One check: its cost, and the limiter's answer when there is one. */
  method CheckOne(r: Reservation, checks: seq<Check>, outcomes: seq<Outcome>, i: nat)
    requires |checks| == |outcomes| && i < |checks| && Made(r, checks, outcomes, i, i)
    modifies r
    ensures Made(r, checks, outcomes, i + 1, if Stops(checks[i], outcomes[i]) then i else i + 1)
  {
    hide Net, Charged, Claim, NeverOverRefunds, Founded, HasAdmission, OnlyRefunds, ShadowDenials;
    ShadowStep(checks, outcomes, i);
    Reprice(r, i, Max(checks[i].cost, 1));
    if outcomes[i].Decided? {
      var d := outcomes[i].d;
      r.Record(i, Max(checks[i].cost, 1), d);
      if !d.allowed && checks[i].shadow {
        r.shadowDenied := r.shadowDenied + [i];
      }
    }
  }

  /** Undoes a reservation that a check ended, and reports the check if it denied. */
  method Deny(r: Reservation, checks: seq<Check>, outcomes: seq<Outcome>, i: nat) returns (error: Option<LimitError>)
    requires |checks| == |outcomes| && i < |checks| && Stops(checks[i], outcomes[i])
    requires Made(r, checks, outcomes, i + 1, i)
    modifies r
    ensures r.Valid() && !r.settled && !r.allowed && |r.results| == |checks| && r.costs == old(r.costs)
    ensures forall t :: Net(r.log, t) == 0
    ensures error == if outcomes[i].Failure? then Some(outcomes[i].error) else None
    ensures error.Some? ==> r.bindingIndex == -1
    ensures error.None? ==> r.bindingIndex == i && r.binding == DecisionOf(outcomes[i])
    ensures r.shadowDenied == old(r.shadowDenied) && r.fallback == old(r.fallback)
  {
    hide Net, Charged, Claim, NeverOverRefunds, Founded, HasAdmission, OnlyRefunds, ShadowDenials;
    r.Rollback(i);
    forall t { ChargedNone(r.results, r.paid, t); }
    if outcomes[i].Failure? {
      return Some(outcomes[i].error);
    }
    r.binding, r.bindingIndex := outcomes[i].d, i;
    return None;
  }

  /** Whether a request is admitted by a list of checks, given what the limiter says to each. */
  method ReserveAll(checks: seq<Check>, outcomes: seq<Outcome>)
    returns (r: Reservation, error: Option<LimitError>, ghost stop: nat)
    requires |checks| == |outcomes|
    ensures fresh(r) && r.Valid() && !r.settled
    ensures FirstStop(checks, outcomes, stop) && r.allowed == (stop == |checks|)
    ensures error == if stop < |checks| && outcomes[stop].Failure? then Some(outcomes[stop].error) else None
    ensures |r.results| == |checks|
    ensures forall i :: 0 <= i < |checks| && i <= stop ==> r.costs[i] == Max(checks[i].cost, 1)
    ensures r.allowed ==> forall i :: 0 <= i < |checks| ==> r.results[i] == DecisionOf(outcomes[i])
    ensures r.allowed ==> Binds(checks, outcomes, r.bindingIndex)
    ensures !r.allowed ==> forall t :: Net(r.log, t) == 0
    ensures !r.allowed ==> r.bindingIndex == if error.Some? then -1 else stop
    ensures 0 <= r.bindingIndex ==> r.bindingIndex < |checks| && r.binding == DecisionOf(outcomes[r.bindingIndex])
    ensures r.shadowDenied == ShadowDenials(checks, outcomes, stop)
    ensures r.fallback <==> exists i :: 0 <= i <= stop && i < |checks| && DecisionOf(outcomes[i]).fallback
  {
    hide Net, Charged, Claim, NeverOverRefunds, Founded, HasAdmission, OnlyRefunds, Binds, ShadowDenials;
    r := new Reservation(|checks|);
    NoShadowDenials(checks, outcomes);
    var i := 0;
    while i < |checks|
      invariant fresh(r) && 0 <= i <= |checks| && Made(r, checks, outcomes, i, i)
      invariant forall j :: 0 <= j < i ==> !Stops(checks[j], outcomes[j])
    {
      CheckOne(r, checks, outcomes, i);
      if Stops(checks[i], outcomes[i]) {
        error := Deny(r, checks, outcomes, i);
        return r, error, i;
      }
      i := i + 1;
    }
    r.allowed := true;
    Bind(r, checks, outcomes);
    return r, None, |checks|;
  }

  lemma ShadowStep(checks: seq<Check>, outcomes: seq<Outcome>, n: nat)
    requires n < |checks| == |outcomes|
    ensures ShadowDenials(checks, outcomes, n + 1) ==
            ShadowDenials(checks, outcomes, n)
            + if checks[n].shadow && outcomes[n].Decided? && !outcomes[n].d.allowed then [n] else []
  {}

  lemma NoShadowDenials(checks: seq<Check>, outcomes: seq<Outcome>)
    requires |checks| == |outcomes|
    ensures ShadowDenials(checks, outcomes, 0) == []
  {}

  method Reprice(r: Reservation, i: nat, cost: int)
    requires r.Balanced() && r.paid == r.claims == r.costs && i < |r.results| && !r.results[i].allowed
    requires 0 <= cost
    modifies r`costs, r`paid, r`claims
    ensures r.Balanced() && r.paid == r.claims == r.costs && r.costs == old(r.costs)[i := cost]
  {
    hide Net, Charged, Claim, NeverOverRefunds, Founded, HasAdmission, OnlyRefunds;
    forall t { ChargedUpdate(r.results, r.paid, i, r.results[i], cost, t); }
    assert r.results[i := r.results[i]] == r.results;
    r.costs := r.costs[i := cost];
    r.paid := r.paid[i := cost];
    r.claims := r.paid;
  }

  /** Chooses the decision to report for an admitted request. */
  method Bind(r: Reservation, checks: seq<Check>, outcomes: seq<Outcome>)
    requires |checks| == |outcomes| == |r.results| && r.bindingIndex == -1
    requires forall i :: 0 <= i < |checks| ==> r.results[i] == DecisionOf(outcomes[i])
    modifies r`binding, r`bindingIndex
    ensures Binds(checks, outcomes, r.bindingIndex)
    ensures 0 <= r.bindingIndex ==> r.bindingIndex < |checks| && r.binding == DecisionOf(outcomes[r.bindingIndex])
  {
    for i := 0 to |r.results|
      invariant -1 <= r.bindingIndex < i || (r.bindingIndex == -1 && i == 0)
      invariant r.bindingIndex < 0 ==> forall j :: 0 <= j < i ==> checks[j].shadow
      invariant 0 <= r.bindingIndex ==> !checks[r.bindingIndex].shadow && r.binding == r.results[r.bindingIndex]
      invariant 0 <= r.bindingIndex ==> forall j :: 0 <= j < i && !checks[j].shadow ==>
          Share(r.binding) <= Share(r.results[j]) && (j < r.bindingIndex ==> Share(r.binding) < Share(r.results[j]))
    {
      hide Share;
      if !checks[i].shadow && (r.bindingIndex < 0 || Share(r.results[i]) < Share(r.binding)) {
        r.binding, r.bindingIndex := r.results[i], i;
      }
    }
    if r.bindingIndex < 0 && |checks| > 0 {
      r.binding, r.bindingIndex := r.results[0], 0;
    }
  }

  /** Shadow checks never change the outcome: a request is admitted exactly when it is without any one of them. */
  lemma ShadowNeverDecides(checks: seq<Check>, outcomes: seq<Outcome>, i: nat)
    requires |checks| == |outcomes| && i < |checks| && checks[i].shadow
    ensures Admitted(checks, outcomes) <==> Admitted(checks[..i] + checks[i + 1..], outcomes[..i] + outcomes[i + 1..])
  {
    hide Stops;
    assert !Stops(checks[i], outcomes[i]) by { ShadowGoesOn(checks[i], outcomes[i]); }
    var c, o := checks[..i] + checks[i + 1..], outcomes[..i] + outcomes[i + 1..];
    if Admitted(c, o) {
      forall j | 0 <= j < |checks| ensures !Stops(checks[j], outcomes[j]) {
        if j != i {
          var k := if j < i then j else j - 1;
          assert c[k] == checks[j] && o[k] == outcomes[j];
        }
      }
    }
  }

  lemma ShadowGoesOn(c: Check, o: Outcome)
    requires c.shadow
    ensures !Stops(c, o)
  {}
}
