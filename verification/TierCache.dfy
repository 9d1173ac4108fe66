/** The hub's cache of key tiers and owners: lookups, writes and invalidations in any interleaving. */
module TierCache {
  import opened Ledger

  const MAX_ENTRIES := 200_000

  datatype Record = Record(tier: string, owner: string)

  /** A cached entry; an empty tier is not cached, and an owner only when hasOwner is set. */
  datatype Entry = Entry(tier: string, owner: string, hasOwner: bool, at: int)

  datatype Field = Tier | Owner

  const NO_ENTRY := Entry("", "", false, 0)

  function Lookup(store: map<string, Record>, k: string, f: Field): string {
    if k !in store then "" else if f == Tier then store[k].tier else store[k].owner
  }

  /** Whether a cached field answers a lookup. */
  predicate Holds(e: Entry, f: Field) {
    if f == Tier then e.tier != "" else e.hasOwner
  }

  function Value(e: Entry, f: Field): string {
    if f == Tier then e.tier else e.owner
  }

  function With(e: Entry, f: Field, v: string): Entry {
    if f == Tier then e.(tier := v) else e.(owner := v, hasOwner := true)
  }

  /** The entry an answer is added to: none when there is none, or when it is too old. */
  function Base(m: map<string, Entry>, k: string, now: int, ttl: int): Entry {
    if MAX_ENTRIES <= |m| || k !in m || ttl <= now - m[k].at then NO_ENTRY else m[k]
  }

  function Stored(m: map<string, Entry>, k: string, f: Field, v: string, now: int, ttl: int): map<string, Entry> {
    (if MAX_ENTRIES <= |m| then map[] else m)[k := With(Base(m, k, now, ttl), f, v).(at := now)]
  }

  /** A lookup that missed: it noted the generation, and later what the store said. */
  datatype Reader = Reader(k: string, f: Field, gen: nat, read: Option<string>)

  /** A change to a key whose invalidation is not finished; counted once the generation has moved on. */
  datatype Writer = Writer(k: string, counted: bool)

  datatype State = State(
    store: map<string, Record>, m: map<string, Entry>, gen: nat, now: int,
    readers: map<nat, Reader>, writers: map<nat, Writer>)

  datatype Step =
    | Tick(to: int)
    | Begin(id: nat, k: string, f: Field)
    | Read(id: nat)
    | Publish(id: nat)
    | Give(id: nat)
    | Write(id: nat, k: string, r: Option<Record>)
    | Count(id: nat)
    | Forget(id: nat)

  /** The cache after a lookup's answer arrives: nothing when the generation has moved on, or the key is unknown. */
  function Published(s: State, r: Reader, ttl: int): map<string, Entry> {
    if r.read == None || r.gen != s.gen || (r.f == Tier && r.read.value == "") then s.m
    else Stored(s.m, r.k, r.f, r.read.value, s.now, ttl)
  }

  ghost predicate Next(s: State, step: Step, s': State, ttl: int) {
    match step
    case Tick(to) => s.now <= to && s' == s.(now := to)
    case Begin(id, k, f) => id !in s.readers && s' == s.(readers := s.readers[id := Reader(k, f, s.gen, None)])
    case Read(id) =>
      && id in s.readers && s.readers[id].read == None
      && var r := s.readers[id];
         s' == s.(readers := s.readers[id := r.(read := Some(Lookup(s.store, r.k, r.f)))])
    case Publish(id) =>
      && id in s.readers && s.readers[id].read.Some?
      && s' == s.(m := Published(s, s.readers[id], ttl), readers := s.readers - {id})
    case Give(id) => id in s.readers && s' == s.(readers := s.readers - {id})
    case Write(id, k, r) =>
      && id !in s.writers
      && s' == s.(store := if r.Some? then s.store[k := r.value] else s.store - {k},
                  writers := s.writers[id := Writer(k, false)])
    case Count(id) =>
      && id in s.writers && !s.writers[id].counted
      && s' == s.(gen := s.gen + 1, writers := s.writers[id := s.writers[id].(counted := true)])
    case Forget(id) =>
      && id in s.writers && s.writers[id].counted
      && s' == s.(m := s.m - {s.writers[id].k}, writers := s.writers - {id})
  }

  ghost predicate Run(states: seq<State>, steps: seq<Step>, ttl: int) {
    && |states| == |steps| + 1
    && states[0].m == map[] && states[0].readers == map[] && states[0].writers == map[]
    && forall i :: 0 <= i < |steps| ==> Next(states[i], steps[i], states[i + 1], ttl)
  }

  // Coherence.

  ghost predicate Changing(s: State, k: string) {
    exists id :: id in s.writers && s.writers[id].k == k
  }

  /** Changed, and the generation has not moved on since. */
  ghost predicate Uncounted(s: State, k: string) {
    exists id :: id in s.writers && s.writers[id].k == k && !s.writers[id].counted
  }

  /** Every cached field is the store's own, unless a change to its key has not finished its invalidation. */
  ghost predicate Coherent(s: State) {
    forall k, f :: k in s.m && Holds(s.m[k], f) ==> Value(s.m[k], f) == Lookup(s.store, k, f) || Changing(s, k)
  }

  /** A lookup that may still publish read the store's own value, unless a change is not counted yet. */
  ghost predicate Fresh(s: State) {
    forall id :: id in s.readers ==>
                   var r := s.readers[id];
                   && r.gen <= s.gen
                   && (r.read.Some? && r.gen == s.gen ==>
                       r.read.value == Lookup(s.store, r.k, r.f) || Uncounted(s, r.k))
  }

  ghost predicate Inv(s: State) {
    Coherent(s) && Fresh(s)
  }

  lemma StoredHolds(m: map<string, Entry>, k: string, f: Field, v: string, now: int, ttl: int, k': string, f': Field)
    requires f == Tier ==> v != ""
    ensures var m' := Stored(m, k, f, v, now, ttl);
            k' in m' && Holds(m'[k'], f') ==>
              if k == k' && f == f' then Value(m'[k'], f') == v
              else k' in m && Holds(m[k'], f') && Value(m'[k'], f') == Value(m[k'], f')
  {}

  lemma PublishKeeps(s: State, id: nat, s': State, ttl: int)
    requires Inv(s) && Next(s, Publish(id), s', ttl)
    ensures Inv(s')
  {
    hide Stored, Lookup, Value, Holds;
    var r := s.readers[id];
    assert s'.writers == s.writers;
    forall k | Changing(s, k) ensures Changing(s', k) {}
    forall k | Uncounted(s, k) ensures Uncounted(s', k) && Changing(s', k) {}
    if s'.m != s.m {
      forall k, f | k in s'.m && Holds(s'.m[k], f)
        ensures Value(s'.m[k], f) == Lookup(s.store, k, f) || Changing(s', k)
      {
        StoredHolds(s.m, r.k, r.f, r.read.value, s.now, ttl, k, f);
      }
    }
  }

  lemma WriteKeeps(s: State, id: nat, k: string, r: Option<Record>, s': State, ttl: int)
    requires Inv(s) && Next(s, Write(id, k, r), s', ttl)
    ensures Inv(s')
  {
    assert s'.writers[id] == Writer(k, false);
    forall k' | Changing(s, k') ensures Changing(s', k') {
      var i :| i in s.writers && s.writers[i].k == k';
      assert s'.writers[i] == s.writers[i];
    }
    forall k' | Uncounted(s, k') ensures Uncounted(s', k') {
      var i :| i in s.writers && s.writers[i].k == k' && !s.writers[i].counted;
      assert s'.writers[i] == s.writers[i];
    }
    forall k', f | k' != k ensures Lookup(s'.store, k', f) == Lookup(s.store, k', f) {}
  }

  lemma CountKeeps(s: State, id: nat, s': State, ttl: int)
    requires Inv(s) && Next(s, Count(id), s', ttl)
    ensures Inv(s')
  {
    hide Lookup;
    forall k | Changing(s, k) ensures Changing(s', k) {
      var i :| i in s.writers && s.writers[i].k == k;
      assert s'.writers[i].k == k;
    }
  }

  lemma ForgetKeeps(s: State, id: nat, s': State, ttl: int)
    requires Inv(s) && Next(s, Forget(id), s', ttl)
    ensures Inv(s')
  {
    hide Lookup, Value, Holds;
    forall k | Changing(s, k) && k != s.writers[id].k ensures Changing(s', k) {
      var i :| i in s.writers && s.writers[i].k == k;
      assert i in s'.writers && s'.writers[i] == s.writers[i];
    }
    forall k | Uncounted(s, k) ensures Uncounted(s', k) {
      var i :| i in s.writers && s.writers[i].k == k && !s.writers[i].counted;
      assert i in s'.writers && s'.writers[i] == s.writers[i];
    }
  }

  lemma LookupKeeps(s: State, step: Step, s': State, ttl: int)
    requires Inv(s) && Next(s, step, s', ttl) && (step.Tick? || step.Begin? || step.Read? || step.Give?)
    ensures Inv(s')
  {}

  /** In every interleaving of lookups, changes and invalidations the cache is coherent. */
  lemma {:induction false} AlwaysCoherent(states: seq<State>, steps: seq<Step>, ttl: int, n: nat)
    requires Run(states, steps, ttl) && n < |states|
    ensures Inv(states[n])
  {
    if n > 0 {
      AlwaysCoherent(states, steps, ttl, n - 1);
      hide Inv;
      var s, step, s' := states[n - 1], steps[n - 1], states[n];
      assert Next(s, step, s', ttl);
      match step
      case Publish(id) => PublishKeeps(s, id, s', ttl);
      case Write(id, k, r) => WriteKeeps(s, id, k, r, s', ttl);
      case Count(id) => CountKeeps(s, id, s', ttl);
      case Forget(id) => ForgetKeeps(s, id, s', ttl);
      case _ => LookupKeeps(s, step, s', ttl);
    }
  }

  /** The generation never goes back, and a lookup keeps the one it began with. */
  lemma {:induction false} GenerationsGrow(states: seq<State>, steps: seq<Step>, ttl: int, i: nat, j: nat, id: nat)
    requires Run(states, steps, ttl) && i <= j < |states| && id in states[i].readers
    requires forall n :: i <= n < j && steps[n].Begin? ==> steps[n].id != id
    ensures states[i].gen <= states[j].gen
    ensures id in states[j].readers ==> states[j].readers[id].gen == states[i].readers[id].gen
    decreases j
  {
    hide Published, Lookup;
    if i < j {
      GenerationsGrow(states, steps, ttl, i, j - 1, id);
      assert Next(states[j - 1], steps[j - 1], states[j], ttl);
    }
  }

  /** No lookup that began before an invalidation publishes after it. */
  lemma NoOlderAnswer(states: seq<State>, steps: seq<Step>, ttl: int, i: nat, c: nat, j: nat, id: nat)
    requires Run(states, steps, ttl) && i <= c < j < |steps| && id in states[i].readers
    requires steps[c].Count? && steps[j] == Publish(id)
    requires forall n :: i <= n < j && steps[n].Begin? ==> steps[n].id != id
    ensures states[j + 1].m == states[j].m
  {
    hide Inv, Next, Stored;
    AlwaysCoherent(states, steps, ttl, i);
    BeganBy(states[i], id);
    GenerationsGrow(states, steps, ttl, i, c, id);
    CountMovesOn(states[c], steps[c], states[c + 1], ttl);
    GrowFrom(states, steps, ttl, c + 1, j);
    GenerationsGrow(states, steps, ttl, i, j, id);
    OldPublish(states[j], id, states[j + 1], ttl);
  }

  lemma BeganBy(s: State, id: nat)
    requires Inv(s) && id in s.readers
    ensures s.readers[id].gen <= s.gen
  {}

  lemma CountMovesOn(s: State, step: Step, s': State, ttl: int)
    requires step.Count? && Next(s, step, s', ttl)
    ensures s'.gen == s.gen + 1
  {}

  lemma OldPublish(s: State, id: nat, s': State, ttl: int)
    requires Next(s, Publish(id), s', ttl) && (id in s.readers ==> s.readers[id].gen < s.gen)
    ensures s'.m == s.m
  {}

  lemma {:induction false} GrowFrom(states: seq<State>, steps: seq<Step>, ttl: int, i: nat, j: nat)
    requires Run(states, steps, ttl) && i <= j < |states|
    ensures states[i].gen <= states[j].gen
    decreases j
  {
    hide Published, Lookup;
    if i < j {
      GrowFrom(states, steps, ttl, i, j - 1);
      assert Next(states[j - 1], steps[j - 1], states[j], ttl);
    }
  }

  // The cache itself.

  class CachedTiers {
    var m: map<string, Entry>
    var gen: nat
    const ttl: int

    constructor (ttl: int)
      ensures m == map[] && gen == 0 && this.ttl == ttl
    {
      m, gen, this.ttl := map[], 0, ttl;
    }

    /** The cached entry, when it is young enough to use. */
    method Find(k: string, now: int) returns (e: Entry, ok: bool)
      ensures ok <==> k in m && now - m[k].at < ttl
      ensures ok ==> e == m[k]
    {
      if k !in m {
        return NO_ENTRY, false;
      }
      return m[k], now - m[k].at < ttl;
    }

    /** Adds one field, unless the generation has moved on since the lookup began. */
    method Store1(k: string, g: nat, f: Field, v: string, now: int)
      modifies this`m
      ensures m == if gen == g then Stored(old(m), k, f, v, now, ttl) else old(m)
    {
      if gen != g {
        return;
      }
      if |m| >= MAX_ENTRIES {
        m := map[];
      }
      var e := if k in m then m[k] else NO_ENTRY;
      if now - e.at >= ttl {
        e := NO_ENTRY;
      }
      if f == Tier {
        e := e.(tier := v);
      } else {
        e := e.(owner := v, hasOwner := true);
      }
      m := m[k := e.(at := now)];
    }

    /** Forgets a key: the generation first, then the entry. */
    method Invalidate(k: string)
      modifies this
      ensures gen == old(gen) + 1 && m == old(m) - {k}
    {
      gen := gen + 1;
      m := m - {k};
    }
  }
}
