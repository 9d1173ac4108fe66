/** Reservations on a counter: what their effects come to in its books, however other requests come between. */
module Refunds {
  import opened Ledger
  import opened Sums
  import opened Reserve
  import L = Lease
  import A = Accounts

  /** A counter's step, and the reservation that made it; rolls, grants and drains are nobody's. */
  datatype Owned = Owned(step: L.Step, owner: Option<nat>)

  function Reached(e: A.Edge, run: seq<Owned>): A.Edge {
    if run == [] then e else A.Next(Reached(e, run[..|run| - 1]), run[|run| - 1].step)
  }

  /** What a step does to a counter: an admission, a re-charge, or neither. */
  function EffectOf(k: nat, c: L.Counter, step: L.Step): seq<Effect> {
    if step.Take? && L.Admits(c, step.cost, step.now) then [Effect(true, Target(k, c.gen), step.cost, 0)]
    else if step.Adjust? && step.delta != 0 then [Effect(false, Target(k, step.gen), step.delta, step.maxDebt)]
    else []
  }

  /** What a reservation did to counter k. */
  function EffectsOf(k: nat, e: A.Edge, run: seq<Owned>, o: nat): seq<Effect> {
    if run == [] then []
    else
      var before, last := run[..|run| - 1], run[|run| - 1];
      EffectsOf(k, e, before, o) + if last.owner == Some(o) then EffectOf(k, Reached(e, before).c, last.step) else []
  }

  /** The part of a reservation's log that is about counter k. */
  function On(log: seq<Effect>, k: nat): seq<Effect> {
    if log == [] then []
    else
      var last := log[|log| - 1];
      On(log[..|log| - 1], k) + if last.target.counter == k then [last] else []
  }

  lemma {:induction false} OnKeepsNet(log: seq<Effect>, k: nat, gen: nat)
    ensures Net(On(log, k), Target(k, gen)) == Net(log, Target(k, gen))
    ensures Claim(On(log, k), Target(k, gen)) == Claim(log, Target(k, gen))
  {
    if log != [] {
      var front, last := log[..|log| - 1], log[|log| - 1];
      OnKeepsNet(front, k, gen);
      if last.target.counter == k {
        NetAppend(On(front, k), last, Target(k, gen));
        ClaimAppend(On(front, k), last, Target(k, gen));
      } else {
        assert On(log, k) == On(front, k);
      }
    }
  }

  /** A reservation's part on one counter never takes back more than it was admitted for either. */
  lemma {:induction false} OnNeverOver(log: seq<Effect>, k: nat, n: nat, gen: nat)
    requires NeverOverRefunds(log) && n <= |On(log, k)|
    ensures 0 <= Claim(On(log, k)[..n], Target(k, gen))
    decreases |log|
  {
    if n == |On(log, k)| {
      assert On(log, k)[..n] == On(log, k) && log[..|log|] == log;
      OnKeepsNet(log, k, gen);
    } else {
      var front := log[..|log| - 1];
      assert forall m :: 0 <= m <= |front| ==> front[..m] == log[..m];
      OnNeverOver(front, k, n, gen);
      assert On(log, k)[..n] == On(front, k)[..n];
    }
  }

  // One balance: what a reservation is charged there.

  /** The balance does not change over the run. */
  ghost predicate SameGen(e: A.Edge, run: seq<Owned>) {
    forall i :: 0 <= i <= |run| ==> Reached(e, run[..i]).c.gen == e.c.gen
  }

  lemma SameGenBefore(e: A.Edge, run: seq<Owned>)
    requires SameGen(e, run) && run != []
    ensures SameGen(e, run[..|run| - 1])
    ensures Reached(e, run[..|run| - 1]).c.gen == e.c.gen == Reached(e, run).c.gen
  {
    hide Reached;
    var n := |run| - 1;
    assert run[..|run|] == run;
    forall i | 0 <= i <= n ensures Reached(e, run[..n][..i]).c.gen == e.c.gen {
      assert run[..n][..i] == run[..i];
    }
  }

  /** What a reservation's steps, or all others, entered in the books as charged. */
  function ChargedBy(e: A.Edge, run: seq<Owned>, o: nat, own: bool): int {
    if run == [] then 0
    else
      var before, last := run[..|run| - 1], run[|run| - 1];
      ChargedBy(e, before, o, own)
      + if (last.owner == Some(o)) == own then A.Entry(Reached(e, before).c, last.step).charged else 0
  }

  /** No extra charge of the reservation is cut short by its debt bound. */
  ghost predicate Uncut(e: A.Edge, run: seq<Owned>, o: nat) {
    forall i :: 0 <= i < |run| && run[i].owner == Some(o) && run[i].step.Adjust? && 0 < run[i].step.delta ==>
                  -run[i].step.maxDebt <= Reached(e, run[..i]).c.tokens - run[i].step.delta
  }

  /** The reservation adjusts the current balance only. */
  ghost predicate OwnGen(e: A.Edge, run: seq<Owned>, o: nat) {
    forall i :: 0 <= i < |run| && run[i].owner == Some(o) && run[i].step.Adjust? && run[i].step.delta != 0 ==>
                  run[i].step.gen == e.c.gen
  }

  /** What a step enters as charged, against what it was meant to charge. */
  lemma EntryOfEffect(k: nat, c: L.Counter, step: L.Step)
    requires step.Adjust? && step.delta != 0 ==> step.gen == c.gen
    ensures A.Entry(c, step).charged <= Net(EffectOf(k, c, step), Target(k, c.gen))
    ensures !(step.Adjust? && 0 < step.delta && c.tokens - step.delta < -step.maxDebt) ==>
              A.Entry(c, step).charged == Net(EffectOf(k, c, step), Target(k, c.gen))
  {
    assert forall e: Effect :: [e][..0] == [];
  }

  lemma {:induction false} NetConcat(log: seq<Effect>, more: seq<Effect>, t: Target)
    requires |more| <= 1
    ensures Net(log + more, t) == Net(log, t) + Net(more, t)
    ensures Claim(log + more, t) == Claim(log, t) + Claim(more, t)
  {
    if more == [] {
      assert log + more == log;
    } else {
      NetAppend(log, more[0], t);
      ClaimAppend(log, more[0], t);
      NetAppend([], more[0], t);
      ClaimAppend([], more[0], t);
      assert more == [more[0]] && [] + [more[0]] == more;
    }
  }

  /** A reservation's net on a balance is what its steps entered in the books, or more where its debt bound cut an extra
      charge, whatever other requests did in between. */
  lemma {:induction false} NetIsBooked(k: nat, e: A.Edge, run: seq<Owned>, o: nat)
    requires SameGen(e, run) && OwnGen(e, run, o)
    ensures ChargedBy(e, run, o, true) <= Net(EffectsOf(k, e, run, o), Target(k, e.c.gen))
    ensures Uncut(e, run, o) ==> ChargedBy(e, run, o, true) == Net(EffectsOf(k, e, run, o), Target(k, e.c.gen))
  {
    if run != [] {
      var n := |run| - 1;
      var before, last := run[..n], run[n];
      SameGenBefore(e, run);
      assert forall i :: 0 <= i <= n ==> before[..i] == run[..i];
      hide SameGen, Reached, EffectOf, Net, A.Entry;
      NetIsBooked(k, e, before, o);
      var more := EffectOf(k, Reached(e, before).c, last.step);
      OneEffect(k, Reached(e, before).c, last.step);
      NetConcat(EffectsOf(k, e, before, o), more, Target(k, e.c.gen));
      NetConcat(EffectsOf(k, e, before, o), [], Target(k, e.c.gen));
      NoNet(Target(k, e.c.gen));
      if last.owner == Some(o) {
        EntryOfEffect(k, Reached(e, before).c, last.step);
      }
    }
  }

  lemma OneEffect(k: nat, c: L.Counter, step: L.Step)
    ensures |EffectOf(k, c, step)| <= 1
  {}

  lemma NoNet(t: Target)
    ensures Net([], t) == 0 && Claim([], t) == 0
  {}

  /** The window's book gains exactly what the two sides entered. */
  lemma {:induction false} BooksGain(e: A.Edge, run: seq<Owned>, o: nat)
    requires SameGen(e, run)
    ensures Reached(e, run).c.win == e.c.win
    ensures A.BookAt(Reached(e, run).books, e.c.win).charged ==
            A.BookAt(e.books, e.c.win).charged + ChargedBy(e, run, o, true) + ChargedBy(e, run, o, false)
  {
    if run != [] {
      var before, last := run[..|run| - 1], run[|run| - 1];
      SameGenBefore(e, run);
      hide SameGen, A.Entry, A.Next, A.BookAt;
      BooksGain(e, before, o);
      A.NextCounter(Reached(e, before), last.step);
      GenTellsWindows(Reached(e, before).c, last.step);
      A.Entered(Reached(e, before), last.step);
    }
  }

  /** A balance is replaced whenever its window is. */
  lemma GenTellsWindows(c: L.Counter, step: L.Step)
    requires L.Apply(c, step).gen == c.gen
    ensures L.Apply(c, step).win == c.win && !(step.Accept? && c.win < step.resp.win)
  {}

  /** A reservation whose log on counter k is what it did there over the run of one balance, adjusts that one only. */
  lemma FoundedOnBalance(k: nat, e: A.Edge, run: seq<Owned>, o: nat, log: seq<Effect>)
    requires SameGen(e, run) && Founded(log) && EffectsOf(k, e, run, o) == On(log, k)
    ensures OwnGen(e, run, o)
  {
    hide SameGen, Reached;
    forall i | 0 <= i < |run| && run[i].owner == Some(o) && run[i].step.Adjust? && run[i].step.delta != 0
      ensures run[i].step.gen == e.c.gen
    {
      var x := Effect(false, Target(k, run[i].step.gen), run[i].step.delta, run[i].step.maxDebt);
      Performed(k, e, run, o, i);
      OnlyOn(log, k, x);
      var n :| 0 <= n < |log| && log[n] == x;
      assert HasAdmission(log, x.target);
      var m :| 0 <= m < |log| && log[m].admits && log[m].target == x.target;
      OnHas(log, k, m);
      AdmittedHere(k, e, run, o, log[m]);
    }
  }

  lemma {:induction false} Performed(k: nat, e: A.Edge, run: seq<Owned>, o: nat, i: nat)
    requires i < |run| && run[i].owner == Some(o) && run[i].step.Adjust? && run[i].step.delta != 0
    ensures Effect(false, Target(k, run[i].step.gen), run[i].step.delta, run[i].step.maxDebt) in EffectsOf(k, e, run, o)
  {
    hide Reached;
    if i < |run| - 1 {
      Performed(k, e, run[..|run| - 1], o, i);
    }
  }

  lemma {:induction false} AdmittedHere(k: nat, e: A.Edge, run: seq<Owned>, o: nat, x: Effect)
    requires SameGen(e, run) && x in EffectsOf(k, e, run, o) && x.admits
    ensures x.target == Target(k, e.c.gen)
  {
    if run != [] {
      SameGenBefore(e, run);
      hide SameGen, Reached;
      if x in EffectsOf(k, e, run[..|run| - 1], o) {
        AdmittedHere(k, e, run[..|run| - 1], o, x);
      }
    }
  }

  lemma {:induction false} OnlyOn(log: seq<Effect>, k: nat, x: Effect)
    requires x in On(log, k)
    ensures x in log && x.target.counter == k
  {
    if log != [] && x in On(log[..|log| - 1], k) {
      OnlyOn(log[..|log| - 1], k, x);
    }
  }

  lemma {:induction false} OnHas(log: seq<Effect>, k: nat, m: nat)
    requires m < |log| && log[m].target.counter == k
    ensures log[m] in On(log, k)
  {
    if m < |log| - 1 {
      OnHas(log[..|log| - 1], k, m);
    }
  }

  /** A denial, or an error, leaves the books of a window that is still current as the other requests made them: for
      every counter the reservation touched, and whatever came between its charges and its refunds. */
  lemma DenialLeavesNoCharge(r: Reservation, k: nat, e: A.Edge, run: seq<Owned>, o: nat)
    requires r.Valid() && !r.allowed && SameGen(e, run) && EffectsOf(k, e, run, o) == On(r.log, k)
    ensures A.BookAt(Reached(e, run).books, e.c.win).charged ==
            A.BookAt(e.books, e.c.win).charged + ChargedBy(e, run, o, false)
  {
    hide SameGen, EffectsOf, Reached, A.BookAt, Net, Charged, Claim, NeverOverRefunds, Founded, HasAdmission,
      ChargedBy, On;
    var t := Target(k, e.c.gen);
    FoundedOnBalance(k, e, run, o, r.log);
    NetIsBooked(k, e, run, o);
    BooksGain(e, run, o);
    RefundsAreUncut(k, e, run, o, r.log);
    OnKeepsNet(r.log, k, e.c.gen);
    ChargedNone(r.results, r.paid, t);
  }

  lemma RefundsAreUncut(k: nat, e: A.Edge, run: seq<Owned>, o: nat, log: seq<Effect>)
    requires OnlyRefunds(log) && EffectsOf(k, e, run, o) == On(log, k)
    ensures Uncut(e, run, o)
  {
    hide Reached, EffectsOf, On;
    forall i | 0 <= i < |run| && run[i].owner == Some(o) && run[i].step.Adjust? && run[i].step.delta != 0
      ensures run[i].step.delta < 0
    {
      Performed(k, e, run, o, i);
      OnlyOn(log, k, Effect(false, Target(k, run[i].step.gen), run[i].step.delta, run[i].step.maxDebt));
    }
  }

  /** Settling charges every limit that admitted the request exactly the first actual cost, as long as its window is
      current and its debt bound does not cut the charge short; a charge that is cut is less. */
  lemma SettlingChargesActualCost(r: Reservation, k: nat, e: A.Edge, run: seq<Owned>, o: nat)
    requires r.Valid() && r.settled && SameGen(e, run) && EffectsOf(k, e, run, o) == On(r.log, k)
    ensures ChargedBy(e, run, o, true) <= r.actual * Admitting(r.results, Target(k, e.c.gen))
    ensures Uncut(e, run, o) ==> ChargedBy(e, run, o, true) == r.actual * Admitting(r.results, Target(k, e.c.gen))
    ensures A.BookAt(Reached(e, run).books, e.c.win).charged ==
            A.BookAt(e.books, e.c.win).charged + ChargedBy(e, run, o, true) + ChargedBy(e, run, o, false)
  {
    hide SameGen, EffectsOf, Reached, A.BookAt, Net, Charged, Claim, NeverOverRefunds, Founded, HasAdmission,
      ChargedBy, On, Uncut;
    var t := Target(k, e.c.gen);
    FoundedOnBalance(k, e, run, o, r.log);
    NetIsBooked(k, e, run, o);
    BooksGain(e, run, o);
    OnKeepsNet(r.log, k, e.c.gen);
    ChargedAlike(r.results, r.paid, r.actual, t);
  }

  // Many reservations on one counter, over any number of balances.

  function ClaimPer(k: nat, run: seq<Owned>, gen: nat): nat -> int {
    (o: nat) => Claim(EffectsOf(k, A.NEW_EDGE, run, o), Target(k, gen))
  }

  /** The claims of all reservations on a balance. */
  function Claims(k: nat, run: seq<Owned>, owners: nat, gen: nat): int {
    SumBelow(owners, ClaimPer(k, run, gen))
  }

  /** A step changes the claims of its owner only. */
  lemma {:induction false} ClaimsAfter(k: nat, run: seq<Owned>, owners: nat, gen: nat)
    requires run != []
    ensures var before, last := run[..|run| - 1], run[|run| - 1];
            var more := Claim(EffectOf(k, Reached(A.NEW_EDGE, before).c, last.step), Target(k, gen));
            Claims(k, run, owners, gen) ==
            Claims(k, before, owners, gen) + if last.owner.Some? && last.owner.value < owners then more else 0
    decreases owners
  {
    hide EffectOf, Reached, Claim;
    if owners > 0 {
      ClaimsAfter(k, run, owners - 1, gen);
      OneClaimAfter(k, run, owners - 1, gen);
    }
  }

  lemma OneClaimAfter(k: nat, run: seq<Owned>, o: nat, gen: nat)
    requires run != []
    ensures var before, last := run[..|run| - 1], run[|run| - 1];
            var more := Claim(EffectOf(k, Reached(A.NEW_EDGE, before).c, last.step), Target(k, gen));
            ClaimPer(k, run, gen)(o) == ClaimPer(k, before, gen)(o) + if last.owner == Some(o) then more else 0
  {
    hide EffectOf, Reached, Claim;
    var before, last := run[..|run| - 1], run[|run| - 1];
    var log := EffectsOf(k, A.NEW_EDGE, before, o);
    OneEffect(k, Reached(A.NEW_EDGE, before).c, last.step);
    NetConcat(log, EffectOf(k, Reached(A.NEW_EDGE, before).c, last.step), Target(k, gen));
    assert log + [] == log;
  }

  /** The claim one step makes on a balance, and what it does to the cost that may be refunded there. */
  lemma ClaimOfStep(k: nat, e: A.Edge, step: L.Step, gen: nat)
    requires step.Take? ==> 0 <= step.cost
    ensures var more := Claim(EffectOf(k, e.c, step), Target(k, gen));
            && (e.c.gen < gen ==> more <= 0)
            && (A.Next(e, step).c.gen == e.c.gen == gen ==>
                  A.Next(e, step).refundable == e.refundable + more && (more < 0 ==> step.Adjust? && step.delta < 0))
            && (step.Take? ==> 0 <= more)
            && e.c.gen <= A.Next(e, step).c.gen
            && (A.Next(e, step).c.gen != e.c.gen ==> A.Next(e, step).refundable == 0 && more == 0)
  {
    hide A.Post, A.Entry;
    assert forall x: Effect :: [x][..0] == [];
  }

  /** Every refund is some reservation's. */
  ghost predicate RefundsAreOwned(run: seq<Owned>, owners: nat) {
    forall i :: 0 <= i < |run| ==>
                  && (run[i].step.Take? ==> 0 <= run[i].step.cost)
                  && (run[i].step.Adjust? && run[i].step.delta < 0 ==>
                      run[i].owner.Some? && run[i].owner.value < owners)
  }

  /** What may be refunded to the current balance covers all claims on it; later balances have none. */
  lemma {:induction false} RefundableCoversClaims(k: nat, run: seq<Owned>, owners: nat)
    requires RefundsAreOwned(run, owners)
    ensures Claims(k, run, owners, Reached(A.NEW_EDGE, run).c.gen) <= Reached(A.NEW_EDGE, run).refundable
    ensures forall gen: nat :: Reached(A.NEW_EDGE, run).c.gen < gen ==> Claims(k, run, owners, gen) <= 0
  {
    if run == [] {
      forall gen { NoClaims(k, owners, gen); }
    } else {
      var n := |run| - 1;
      var before, last := run[..n], run[n];
      RefundableCoversClaims(k, before, owners);
      assert last == run[n] && (last.step.Take? ==> 0 <= last.step.cost);
      var e, e' := Reached(A.NEW_EDGE, before), Reached(A.NEW_EDGE, run);
      hide RefundsAreOwned, Reached, Claims, EffectOf, Claim, A.Next;
      NextReached(run);
      forall gen: nat | e'.c.gen <= gen
        ensures gen == e'.c.gen ==> Claims(k, run, owners, gen) <= e'.refundable
        ensures gen > e'.c.gen ==> Claims(k, run, owners, gen) <= 0
      {
        ClaimsAfter(k, run, owners, gen);
        ClaimOfStep(k, e, last.step, gen);
        OwnedRefund(run, owners, n);
      }
    }
  }

  lemma NextReached(run: seq<Owned>)
    requires run != []
    ensures Reached(A.NEW_EDGE, run) == A.Next(Reached(A.NEW_EDGE, run[..|run| - 1]), run[|run| - 1].step)
  {}

  lemma OwnedRefund(run: seq<Owned>, owners: nat, i: nat)
    requires RefundsAreOwned(run, owners) && i < |run|
    ensures run[i].step.Take? ==> 0 <= run[i].step.cost
    ensures run[i].step.Adjust? && run[i].step.delta < 0 ==> run[i].owner.Some? && run[i].owner.value < owners
  {}

  lemma {:induction false} NoClaims(k: nat, owners: nat, gen: nat)
    ensures Claims(k, [], owners, gen) == 0
  {
    if owners > 0 {
      NoClaims(k, owners - 1, gen);
    }
  }

  /** The run so far is an earlier part of what the reservation does to counter k. */
  ghost predicate Performs(k: nat, run: seq<Owned>, o: nat, log: seq<Effect>) {
    EffectsOf(k, A.NEW_EDGE, run, o) <= On(log, k)
  }

  lemma {:induction false} PerformsBefore(k: nat, run: seq<Owned>, o: nat, log: seq<Effect>, n: nat)
    requires Performs(k, run, o, log) && n <= |run|
    ensures Performs(k, run[..n], o, log)
    decreases |run|
  {
    hide EffectOf, Reached, On;
    if n == |run| {
      assert run[..n] == run;
    } else {
      PerformsBefore(k, run[..|run| - 1], o, log, n);
      assert run[..|run| - 1][..n] == run[..n];
    }
  }

  lemma ClaimIsNat(k: nat, run: seq<Owned>, o: nat, log: seq<Effect>, gen: nat)
    requires Performs(k, run, o, log) && NeverOverRefunds(log)
    ensures 0 <= ClaimPer(k, run, gen)(o)
  {
    hide NeverOverRefunds, Claim, EffectsOf;
    var effects := EffectsOf(k, A.NEW_EDGE, run, o);
    OnNeverOver(log, k, |effects|, gen);
    assert On(log, k)[..|effects|] == effects;
  }

  /** However reservations interleave on a counter, with each other, with grants, drains and rolls, and with requests
      that are never re-charged, every refund they make is a legal step of the edge: it is covered by cost admitted from
      the same balance and not refunded yet. */
  lemma RefundsAreLegal(k: nat, run: seq<Owned>, rs: seq<Reservation>, i: nat, bound: int)
    requires RefundsAreOwned(run, |rs|) && i < |run| && run[i].step.Adjust? && run[i].step.delta < 0
    requires forall o :: 0 <= o < |rs| ==> NeverOverRefunds(rs[o].log) && Performs(k, run, o, rs[o].log)
    ensures A.Legal(Reached(A.NEW_EDGE, run[..i]), run[i].step, bound)
  {
    var before, upTo := run[..i], run[..i + 1];
    var e, owners := Reached(A.NEW_EDGE, before), |rs|;
    var gen := e.c.gen;
    assert upTo[..i] == before && upTo[i] == run[i];
    OwnedBefore(run, owners, i);
    hide RefundsAreOwned, Claims, EffectOf, Reached, Claim, A.Next, NeverOverRefunds, Performs, SumBelow;
    RefundableCoversClaims(k, before, owners);
    ClaimsAfter(k, upTo, owners, gen);
    var claims := ClaimPer(k, upTo, gen);
    forall o: nat | o < owners ensures 0 <= claims(o) {
      PerformsBefore(k, run, o, rs[o].log, i + 1);
      ClaimIsNat(k, upTo, o, rs[o].log, gen);
    }
    SumBelowIsNat(owners, claims);
    ClaimsAre(k, upTo, owners, gen);
    RefundClaims(k, e.c, run[i].step);
    OwnedRefund(run, owners, i);
  }

  lemma OwnedBefore(run: seq<Owned>, owners: nat, n: nat)
    requires RefundsAreOwned(run, owners) && n <= |run|
    ensures RefundsAreOwned(run[..n], owners)
  {}

  lemma ClaimsAre(k: nat, run: seq<Owned>, owners: nat, gen: nat)
    ensures Claims(k, run, owners, gen) == SumBelow(owners, ClaimPer(k, run, gen))
  {}

  lemma RefundClaims(k: nat, c: L.Counter, step: L.Step)
    requires step.Adjust? && step.delta < 0
    ensures Claim(EffectOf(k, c, step), Target(k, c.gen)) == if step.gen == c.gen then step.delta else 0
  {
    assert forall x: Effect :: [x][..0] == [];
  }

  lemma {:induction false} SumBelowIsNat(n: nat, f: nat -> int)
    requires forall o: nat :: o < n ==> 0 <= f(o)
    ensures 0 <= SumBelow(n, f)
  {
    if n > 0 {
      SumBelowIsNat(n - 1, f);
    }
  }
}
