/**
  Whole runs of calls on one map, with allocation failing at will. What a map shows of itself is its
  contents and its sizes; every call is proved to be a step of the machine below.
 */
module MapRuns {
  import opened Wrappers
  import opened Ring
  import opened RobinHood
  import opened HashMap

  /** A call with its arguments. `alloc` says whether the memory that it may ask for can be had. */
  datatype Call<K, V> =
    | Set(key: K, value: V, alloc: bool)
    | Get(key: K)
    | Delete(key: K, alloc: bool)
    | Clear(updateCap: bool, alloc: bool)
    | LoadFactor(factor: Factor)
    | GrowByPower(power: nat)

  /** The item handed back, and whether a `set` ran out of memory. */
  datatype Reply<V> = Reply(item: Option<V>, oom: bool)

  datatype State<K, V> = State(contents: map<K, V>, nbuckets: nat, cap: nat, growat: nat, loadfactor: nat,
                               growpower: nat)

  /** The sizes that a map can have. */
  ghost predicate Sized<K, V>(s: State<K, V>) {
    IsPow2(s.nbuckets) && IsPow2(s.cap) && MIN_CAPACITY <= s.cap <= s.nbuckets &&
    50 <= s.loadfactor <= 95 && 1 <= s.growpower <= 16
  }

  function Lookup<K, V>(m: map<K, V>, k: K): Option<V> {
    if k in m then Some(m[k]) else None
  }

  /** A rehash gives the table the growth threshold of the default load factor. */
  function Resized<K, V>(s: State<K, V>, nbuckets: nat): State<K, V> {
    s.(nbuckets := nbuckets, growat := GrowAt(nbuckets, GROW_AT_PERCENT))
  }

  predicate Grows<K, V>(s: State<K, V>, call: Call<K, V>) {
    call.Set? && |s.contents| >= s.growat && call.alloc
  }

  predicate Shrinks<K, V>(s: State<K, V>, call: Call<K, V>) {
    call.Delete? && call.key in s.contents && call.alloc && s.nbuckets > s.cap &&
    |s.contents| - 1 <= ShrinkAt(s.nbuckets)
  }

  predicate Refuses<K, V>(s: State<K, V>, call: Call<K, V>) {
    call.Set? && |s.contents| >= s.growat && !call.alloc
  }

  /** What one call does to a map, and what it answers. */
  function Step<K, V>(s: State<K, V>, call: Call<K, V>): (State<K, V>, Reply<V>)
    requires 50 <= s.loadfactor <= 95
  {
    match call
    case Set(k, v, _) =>
      if Refuses(s, call) then (s, Reply(None, true)) else
      var s' := if Grows(s, call) then Resized(s, Shift(s.nbuckets, s.growpower)) else s;
      (s'.(contents := s.contents[k := v]), Reply(Lookup(s.contents, k), false))
    case Get(k) =>
      (s, Reply(Lookup(s.contents, k), false))
    case Delete(k, _) =>
      var s' := if Shrinks(s, call) then Resized(s, s.nbuckets / 2) else s;
      (s'.(contents := s.contents - {k}), Reply(Lookup(s.contents, k), false))
    case Clear(updateCap, _) =>
      var n := if updateCap then s.nbuckets else s.cap;
      (s.(contents := map[], nbuckets := n, cap := n, growat := GrowAt(n, s.loadfactor)), Reply(None, false))
    case LoadFactor(f) =>
      var p := ToPercent(ClampLoadFactor(f, s.loadfactor));
      (s.(loadfactor := p, growat := GrowAt(s.nbuckets, p)), Reply(None, false))
    case GrowByPower(p) =>
      (s.(growpower := if p < 1 then 1 else if p > 16 then 16 else p), Reply(None, false))
  }

  function Run<K, V>(s: State<K, V>, calls: seq<Call<K, V>>): (r: (State<K, V>, seq<Reply<V>>))
    requires 50 <= s.loadfactor <= 95
    ensures |r.1| == |calls| && 50 <= r.0.loadfactor <= 95
  {
    if calls == [] then (s, []) else
      var (s', replies) := Run(s, calls[..|calls| - 1]);
      var (s'', reply) := Step(s', calls[|calls| - 1]);
      (s'', replies + [reply])
  }

  lemma RunOfNone<K, V>(s: State<K, V>)
    requires 50 <= s.loadfactor <= 95
    ensures Run(s, []) == (s, [])
  {
  }

  lemma RunOneMore<K, V>(s: State<K, V>, calls: seq<Call<K, V>>, call: Call<K, V>)
    requires 50 <= s.loadfactor <= 95
    ensures var (s', replies) := Run(s, calls);
      Run(s, calls + [call]) == (Step(s', call).0, replies + [Step(s', call).1])
  {
    assert (calls + [call])[..|calls|] == calls;
  }

  ghost function StateOf<K(0), V(0)>(m: HashMap<K, V>): State<K, V>
    reads m
  {
    State(m.contents, m.nbuckets, m.cap, m.growat, m.loadfactor, m.growpower)
  }

  lemma ValidIsSized<K(0), V(0)>(m: HashMap<K, V>)
    requires m.Valid()
    ensures Sized(StateOf(m))
  {
  }

  /** One call. */
  method Perform<K(==, 0), V(0)>(m: HashMap<K, V>, call: Call<K, V>) returns (reply: Reply<V>)
    requires m.Valid()
    modifies m, m.buckets
    ensures m.Valid() && (m.buckets == old(m.buckets) || fresh(m.buckets))
    ensures (StateOf(m), reply) == Step(old(StateOf(m)), call)
  {
    hide RobinHood.IsTable, IsPow2;
    reply := Reply(None, false);
    match call {
      case Set(k, v, alloc) =>
        var item := m.SetWithHash(k, v, m.hash(k), alloc);
        reply := Reply(item, m.oom);
      case Get(k) =>
        var item := m.Get(k);
        reply := Reply(item, false);
      case Delete(k, alloc) =>
        var item := m.DeleteWithHash(k, m.hash(k), alloc);
        reply := Reply(item, m.oom);
      case Clear(updateCap, alloc) =>
        m.Clear(updateCap, alloc);
      case LoadFactor(f) =>
        m.SetLoadFactor(f);
      case GrowByPower(p) =>
        m.SetGrowByPower(p);
    }
  }

  /**
    Any sequence of calls, with any failures: contents and replies are those of a finite map on which the calls
    that ran out of memory did nothing, and the sizes are those of the machine.
   */
  method PerformAll<K(==, 0), V(0)>(m: HashMap<K, V>, calls: seq<Call<K, V>>) returns (replies: seq<Reply<V>>)
    requires m.Valid()
    modifies m, m.buckets
    ensures m.Valid() && |replies| == |calls|
    ensures m.contents == Fold(old(m.contents), calls, replies)
    ensures forall i: nat :: i < |calls| ==> Truthful(old(m.contents), calls, replies, i)
    ensures (StateOf(m), replies) == Run(old(StateOf(m)), calls)
  {
    hide Step, RobinHood.IsTable, IsPow2, Fold, Truthful, Run;
    RunAgreesWithMap(StateOf(m), calls);
    RunOfNone(StateOf(m));
    assert calls[..0] == [];
    replies := [];
    for i := 0 to |calls|
      invariant m.Valid() && (m.buckets == old(m.buckets) || fresh(m.buckets))
      invariant (StateOf(m), replies) == Run(old(StateOf(m)), calls[..i])
    {
      RunOneMore(old(StateOf(m)), calls[..i], calls[i]);
      var reply := Perform(m, calls[i]);
      replies := replies + [reply];
      assert calls[..i + 1] == calls[..i] + [calls[i]];
    }
    assert calls[..|calls|] == calls;
  }

  // ---------------------------------------------------------------- agreement with a finite map

  /** The finite map after a call. A `set` that ran out of memory has done nothing, not even replaced an item. */
  function Effect<K, V>(m: map<K, V>, call: Call<K, V>, oom: bool): map<K, V> {
    match call
    case Set(k, v, _) => if oom then m else m[k := v]
    case Delete(k, _) => m - {k}
    case Clear(_, _) => map[]
    case _ => m
  }

  function Answer<K, V>(m: map<K, V>, call: Call<K, V>): Option<V> {
    match call
    case Set(k, _, _) => Lookup(m, k)
    case Get(k) => Lookup(m, k)
    case Delete(k, _) => Lookup(m, k)
    case _ => None
  }

  /** The finite map after a sequence of calls, given which of them ran out of memory. */
  function Fold<K, V>(m: map<K, V>, calls: seq<Call<K, V>>, replies: seq<Reply<V>>): map<K, V>
    requires |replies| == |calls|
  {
    if calls == [] then m else
      var last := |calls| - 1;
      Effect(Fold(m, calls[..last], replies[..last]), calls[last], replies[last].oom)
  }

  /** Reply `i` is the one of the finite map after the calls before it, unless that call had no memory. */
  ghost predicate Truthful<K, V>(m: map<K, V>, calls: seq<Call<K, V>>, replies: seq<Reply<V>>, i: nat)
    requires i < |calls| == |replies|
  {
    replies[i].item == (if replies[i].oom then None else Answer(Fold(m, calls[..i], replies[..i]), calls[i])) &&
    (replies[i].oom ==> calls[i].Set? && !calls[i].alloc)
  }

  /** In every run, whatever is refused, contents and replies are those of a finite map. */
  lemma {:induction false} RunAgreesWithMap<K, V>(s: State<K, V>, calls: seq<Call<K, V>>)
    requires 50 <= s.loadfactor <= 95
    ensures Run(s, calls).0.contents == Fold(s.contents, calls, Run(s, calls).1)
    ensures forall i: nat :: i < |calls| ==> Truthful(s.contents, calls, Run(s, calls).1, i)
  {
    if calls != [] {
      var last, replies := |calls| - 1, Run(s, calls).1;
      var before := Run(s, calls[..last]);
      RunAgreesWithMap(s, calls[..last]);
      assert replies[..last] == before.1;
      forall i: nat | i < |calls| ensures Truthful(s.contents, calls, replies, i) {
        if i < last {
          assert Truthful(s.contents, calls[..last], before.1, i);
          assert calls[..last][..i] == calls[..i] && before.1[..i] == replies[..i];
        }
      }
    }
  }

  /**
    While memory lasts, sizes, load factors and rehashing cannot be observed: maps with equal contents
    give equal replies for ever.
   */
  lemma {:induction false} SizesAreInvisible<K, V>(s: State<K, V>, s': State<K, V>, calls: seq<Call<K, V>>)
    requires s.contents == s'.contents && 50 <= s.loadfactor <= 95 && 50 <= s'.loadfactor <= 95
    requires forall c :: c in calls && c.Set? ==> c.alloc
    ensures Run(s, calls).0.contents == Run(s', calls).0.contents && Run(s, calls).1 == Run(s', calls).1
  {
    if calls != [] {
      assert calls[|calls| - 1] in calls;
      SizesAreInvisible(s, s', calls[..|calls| - 1]);
    }
  }

  // ---------------------------------------------------------------- the load factor that was asked for

  /** The table grows at the load factor that it was given. */
  predicate Honoured<K, V>(s: State<K, V>) {
    s.growat == GrowAt(s.nbuckets, s.loadfactor)
  }

  /** Whether a call moves the items to a new table, and how many buckets that has. */
  predicate Rehashes<K, V>(s: State<K, V>, call: Call<K, V>) {
    Grows(s, call) || Shrinks(s, call)
  }

  function NewSize<K, V>(s: State<K, V>, call: Call<K, V>): nat {
    if Grows(s, call) then Shift(s.nbuckets, s.growpower) else s.nbuckets / 2
  }

  /** The percentages that round to the default threshold in a table of `n` buckets. */
  predicate LikeDefault(n: nat, percent: nat) {
    percent == GROW_AT_PERCENT || (n == 16 && 57 <= percent <= 62) || (n == 32 && 60 <= percent <= 62)
  }

  lemma ThresholdsAgree(n: nat, percent: nat)
    requires IsPow2(n) && n >= MIN_CAPACITY && 50 <= percent <= 95
    ensures GrowAt(n, GROW_AT_PERCENT) == GrowAt(n, percent) <==> LikeDefault(n, percent)
  {
    if n >= 128 {
      PercentGrows(n, percent, GROW_AT_PERCENT);
      PercentGrows(n, GROW_AT_PERCENT, percent);
    } else {
      Pow2Below128(n);
    }
  }

  lemma Pow2Below128(n: nat)
    requires IsPow2(n) && 16 <= n < 128
    ensures n == 16 || n == 32 || n == 64
  {
    assert IsPow2(n / 2) && IsPow2(n / 2 / 2) && IsPow2(n / 2 / 2 / 2) && IsPow2(n / 2 / 2 / 2 / 2);
  }

  lemma PercentGrows(n: nat, p: nat, q: nat)
    requires n >= 100
    ensures p < q ==> GrowAt(n, p) < GrowAt(n, q)
  {
    if p < q {
      ProductGrows(n, p, q);
      HundredthsGrow(n * p, n * q);
    }
  }

  lemma ProductGrows(n: nat, p: nat, q: nat)
    requires p < q
    ensures n * p + n <= n * q
  {
    var d := q - p - 1;
    assert n * q == n * (p + 1) + n * d;
  }

  lemma HundredthsGrow(a: nat, b: nat)
    requires a + 100 <= b
    ensures a / 100 < b / 100
  {
  }

  lemma RehashSizes<K, V>(s: State<K, V>, call: Call<K, V>)
    requires Sized(s)
    ensures Sized(Step(s, call).0)
    ensures Rehashes(s, call) ==> IsPow2(NewSize(s, call)) && NewSize(s, call) >= MIN_CAPACITY
  {
    if Grows(s, call) {
      ShiftIsPow2(s.nbuckets, s.growpower);
    } else if Shrinks(s, call) {
      Pow2Gap(s.cap, s.nbuckets);
    }
  }

  /** What a call does to the promise, as far as the caller can tell beforehand. */
  predicate HonouredAfter<K, V>(s: State<K, V>, call: Call<K, V>, before: bool) {
    if Rehashes(s, call) then LikeDefault(NewSize(s, call), s.loadfactor)
    else call.Clear? || call.LoadFactor? || before
  }

  /**
    A rehash forgets a load factor that was set: it is honoured afterwards if and only if it rounds to the
    threshold of 60 percent in a table of the new size. Clearing and setting it honour it; nothing else matters.
   */
  lemma LoadFactorIsForgotten<K, V>(s: State<K, V>, call: Call<K, V>)
    requires Sized(s)
    ensures Honoured(Step(s, call).0) <==> HonouredAfter(s, call, Honoured(s))
  {
    hide IsPow2, Shift, LikeDefault, GrowAt, ToPercent, ClampLoadFactor;
    if Rehashes(s, call) {
      RehashSizes(s, call);
      ThresholdsAgree(NewSize(s, call), s.loadfactor);
    }
  }

  /** The same for whole runs. */
  predicate HonouredIn<K, V>(s: State<K, V>, calls: seq<Call<K, V>>)
    requires 50 <= s.loadfactor <= 95
  {
    if calls == [] then Honoured(s) else
      var last := |calls| - 1;
      HonouredAfter(Run(s, calls[..last]).0, calls[last], HonouredIn(s, calls[..last]))
  }

  lemma {:induction false} LoadFactorInRuns<K, V>(s: State<K, V>, calls: seq<Call<K, V>>)
    requires Sized(s)
    ensures Sized(Run(s, calls).0)
    ensures Honoured(Run(s, calls).0) <==> HonouredIn(s, calls)
  {
    hide Step, Honoured, HonouredAfter, IsPow2;
    if calls != [] {
      var last := |calls| - 1;
      LoadFactorInRuns(s, calls[..last]);
      RehashSizes(Run(s, calls[..last]).0, calls[last]);
      LoadFactorIsForgotten(Run(s, calls[..last]).0, calls[last]);
    }
  }

  /** A map that is never given a load factor keeps growing at the default one. */
  lemma {:induction false} DefaultIsKept<K, V>(s: State<K, V>, calls: seq<Call<K, V>>)
    requires Sized(s) && Honoured(s) && s.loadfactor == GROW_AT_PERCENT
    requires forall c :: c in calls ==> !c.LoadFactor?
    ensures Honoured(Run(s, calls).0) && Run(s, calls).0.loadfactor == GROW_AT_PERCENT
  {
    if calls != [] {
      var last := |calls| - 1;
      assert calls[last] in calls;
      DefaultIsKept(s, calls[..last]);
    }
  }

  /** A table of 16 buckets told to grow at 90 percent does so at 14 entries, and the next time at 19 of 32. */
  lemma ForgottenAt90<K, V>(s: State<K, V>, k: K, v: V)
    requires s.nbuckets == 16 && s.loadfactor == 90 && s.growpower == 1 && Honoured(s) && |s.contents| == 14
    ensures var r := Step(s, Set(k, v, true)).0;
      r.nbuckets == 32 && r.loadfactor == 90 && r.growat == 19 && GrowAt(32, 90) == 28 && !Honoured(r)
  {
    assert GrowAt(16, 90) == 14 && GrowAt(32, 60) == 19 && GrowAt(32, 90) == 28;
    assert Shift(16, 1) == 2 * Shift(16, 0) == 32;
  }
}
