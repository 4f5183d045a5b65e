/**
  The open-addressed hash map: a record whose bucket array is overwritten in place. An item is a
  key with a value, and two items compare equal when their keys are equal. `alloc` parameters say
  whether the memory that a call asks for can be had.
 */
module HashMap {
  import opened Wrappers
  import opened Ring
  import opened Doubles
  import opened RobinHood

  const GROW_AT_PERCENT: nat := 60
  const MIN_CAPACITY: nat := 16

  /** A load factor given by the caller: a number, or a not-a-number. */
  datatype Factor = NaN | Num(x: Double)

  /** The clamped factor, in units of 2^-53. The source's 0.95 is a double, too. */
  function ClampLoadFactor(f: Factor, percent: nat): (k: int)
    requires 50 <= percent <= 95
    ensures UNIT / 2 <= k <= Stored(95)
  {
    match f
    case NaN =>
      StoredInRange(percent);
      Stored(percent)
    case Num(x) =>
      if x < 0.5 then UNIT / 2 else if Units(x) > Stored(95) then Stored(95) else Units(x)
  }

  /** The clamped factor as a percentage. */
  function ToPercent(k: int): (p: nat)
    requires UNIT / 2 <= k <= Stored(95)
    ensures 50 <= p <= 95
  {
    StoredInRange(95);
    WholePercent(k)
  }

  /** The percentage is `n` or more from a little below `n` percent on, since the product can be rounded up. */
  lemma PercentAtLeast(f: Factor, percent: nat, n: nat)
    requires 50 <= percent <= 95 && 51 <= n <= 95 && f.Num?
    ensures ToPercent(ClampLoadFactor(f, percent)) >= n <==>
      100.0 * (f.x * UNIT as real) >= (n * UNIT - if n <= 64 then 32 else 64) as real
  {
    hide Stored, WholePercent;
    StoredInRange(95);
    WholeAtLeast(ClampLoadFactor(f, percent), n);
  }

  /** The range stops at 95 percent, not at 90: it is left by every factor from 0.91 on, and by no other. */
  lemma AboveNinety(f: Factor, percent: nat)
    requires 50 <= percent <= 95 && f.Num?
    ensures ToPercent(ClampLoadFactor(f, percent)) > 90 <==> f.x * UNIT as real >= Stored(91) as real
  {
    hide WholePercent;
    WholeAtLeast(ClampLoadFactor(f, percent), 91);
  }

  lemma FactorExtremes(f: Factor, percent: nat)
    requires 50 <= percent <= 95
    ensures var p := ToPercent(ClampLoadFactor(f, percent));
      (f.NaN? ==> p == percent - if percent in {57, 58} then 1 else 0) &&
      (f.Num? && f.x <= 0.5 ==> p == 50) && (f.Num? && f.x >= 0.95 ==> p == 95)
  {
    hide WholePercent;
    PercentKept(percent);
    if f.Num? && f.x <= 0.5 {
      WholeAtLeast(UNIT / 2, 51);
    } else if f.Num? && f.x >= 0.95 {
      WholeAtLeast(Stored(95), 95);
    }
  }

  /** The count from which on a table of `n` buckets grows. */
  function GrowAt(n: nat, percent: nat): (r: nat)
    ensures n > 0 && percent < 100 ==> r < n
  {
    PercentBelow(n, percent);
    n * percent / 100
  }

  /** It is what the source computes with doubles, in tables of up to 2^47 buckets. */
  lemma GrowAtIsComputed(n: nat, percent: nat)
    requires IsPow2(n) && n * 50 < UNIT && 50 <= percent <= 95
    ensures GrowAt(n, percent) == n * Stored(percent) / UNIT
  {
    ThresholdIsExact(n, percent);
  }

  /** The count up to which a table of `n` buckets shrinks, if it has grown. */
  function ShrinkAt(n: nat): nat {
    n / 10
  }

  lemma ShrinkAtIsComputed(n: nat)
    requires 4 * n < FINE_UNIT
    ensures ShrinkAt(n) == n * Near(FINE_UNIT, 10) / FINE_UNIT
  {
    TenthIsExact(n);
  }

  lemma PercentBelow(n: nat, percent: nat)
    ensures n > 0 && percent < 100 ==> n * percent / 100 < n
  {
    assert n > 0 && percent < 100 ==> n * percent < n * 100;
  }

  class HashMap<K(==, 0), V(0)> {
    const hash: K -> nat
    var cap: nat
    var nbuckets: nat
    var count: nat
    var mask: nat
    var growat: nat
    var shrinkat: nat
    var loadfactor: nat
    var growpower: nat
    var oom: bool
    var buckets: array<Bucket<K, V>>
    ghost var slots: seq<Bucket<K, V>>  // the buckets in use; after a failed clear the array may be longer
    ghost var contents: map<K, V>       // the finite map that they stand for

    /** Every size the map can be in. `growat` only has to leave one bucket empty. */
    ghost predicate Sizes()
      reads this
    {
      IsPow2(cap) && IsPow2(nbuckets) && MIN_CAPACITY <= cap <= nbuckets <= buckets.Length &&
      mask == nbuckets - 1 && growat < nbuckets && shrinkat == ShrinkAt(nbuckets) &&
      50 <= loadfactor <= 95 && 1 <= growpower <= 16 &&
      count < nbuckets && count == |contents|
    }

    ghost predicate Valid()
      reads this, buckets
    {
      Sizes() && buckets[..nbuckets] == slots && IsTable(slots, hash, contents)
    }

    constructor Blank(hash: K -> nat, cap: nat)
      requires IsPow2(cap) && cap >= MIN_CAPACITY
      ensures Valid() && fresh(buckets)
      ensures this.hash == hash && contents == map[] && count == 0 && !oom
      ensures this.cap == nbuckets == buckets.Length == cap && loadfactor == GROW_AT_PERCENT && growpower == 1
      ensures growat == GrowAt(cap, GROW_AT_PERCENT)
      ensures forall i :: 0 <= i < cap ==> buckets[i].dib == 0
    {
      var empty: Bucket<K, V> := *;
      this.hash := hash;
      this.cap := cap;
      nbuckets := cap;
      mask := cap - 1;
      buckets := new Bucket<K, V>[cap](_ => empty.(hash := 0, dib := 0));
      growpower := 1;
      loadfactor := GROW_AT_PERCENT;
      growat := GrowAt(cap, GROW_AT_PERCENT);
      shrinkat := ShrinkAt(cap);
      count := 0;
      oom := false;
      contents := map[];
      slots := seq(cap, _ => empty.(hash := 0, dib := 0));
    }

    /** The capacity is rounded up to a power of two of at least 16: the least one that fits. */
    static method New(hash: K -> nat, cap: nat, alloc: bool) returns (m: HashMap?<K, V>)
      ensures (m == null) == !alloc
      ensures m != null ==>
        fresh(m) && fresh(m.buckets) && m.Valid() && m.hash == hash && m.contents == map[] && m.count == 0 &&
        !m.oom && m.nbuckets == m.cap == m.buckets.Length && m.loadfactor == GROW_AT_PERCENT && m.growpower == 1 &&
        m.growat == GrowAt(m.nbuckets, GROW_AT_PERCENT) && m.nbuckets == RoundUp(cap, MIN_CAPACITY) &&
        forall i :: 0 <= i < m.nbuckets ==> m.buckets[i].dib == 0
      ensures forall p: nat :: IsPow2(p) && p >= MIN_CAPACITY && p >= cap ==> p >= RoundUp(cap, MIN_CAPACITY)
    {
      RoundUpIsLeast(cap, MIN_CAPACITY);
      var ncap := MIN_CAPACITY;
      while ncap < cap
        invariant ncap >= MIN_CAPACITY && RoundUp(cap, ncap) == RoundUp(cap, MIN_CAPACITY)
        decreases cap - ncap
      {
        ncap := ncap * 2;
      }
      if !alloc {
        return null;
      }
      m := new HashMap<K, V>.Blank(hash, ncap);
    }

    /** `hash & mask` */
    method HomeBucket(hv: nat) returns (i: nat)
      requires Sizes()
      ensures i == Home(hv, nbuckets)
    {
      MaskIsModulo(hv, nbuckets);
      i := BitAnd(hv, mask);
    }

    /** `(i + 1) & mask` */
    method NextBucket(i: nat) returns (j: nat)
      requires Sizes() && i < nbuckets
      ensures j == Next(i, nbuckets)
    {
      MaskedStep(i, nbuckets);
      j := BitAnd(i + 1, mask);
    }

    /** The probe loop of `get` and `delete`: the bucket of `key`, or nothing if it met an empty one. */
    method Find(key: K, hv: nat) returns (r: Option<nat>)
      requires Valid() && hv == Clip(hash(key))
      ensures r.None? <==> key !in contents
      ensures r.Some? ==> r.value < nbuckets && slots[r.value].dib > 0 && slots[r.value].key == key &&
                          slots[r.value].value == contents[key]
    {
      hide IsTable, IsPow2;
      var i: nat := HomeBucket(hv);
      ghost var s, hole := 0, 0;
      hole := FindHole(slots, hash, contents);
      while true
        invariant Probing(slots, hash, key, i, s, hole)
        decreases Dist(i, hole, nbuckets)
      {
        var bucket := buckets[i];
        assert bucket == slots[i];
        ProbeEnds(slots, hash, contents, key, i, s, hole);
        if bucket.dib == 0 {
          return None;
        }
        if bucket.hash == hv && bucket.key == key {
          return Some(i);
        }
        ProbeOn(slots, hash, key, i, s, hole);
        i := NextBucket(i);
        s := s + 1;
      }
    }

    method GetWithHash(key: K, hv: nat) returns (r: Option<V>)
      requires Valid() && Clip(hv) == Clip(hash(key))
      ensures r == if key in contents then Some(contents[key]) else None
    {
      var at := Find(key, Clip(hv));
      if at.None? {
        return None;
      }
      return Some(buckets[at.value].value);
    }

    method Get(key: K) returns (r: Option<V>)
      requires Valid()
      ensures r == if key in contents then Some(contents[key]) else None
    {
      r := GetWithHash(key, hash(key));
    }

    /** The probe loop of `set`. `entry` is the carried bucket. */
    method Insert(key: K, value: V) returns (r: Option<V>)
      requires Valid() && count + 1 < nbuckets
      modifies this`count, this`slots, this`contents, buckets
      ensures Valid() && contents == old(contents)[key := value]
      ensures r == if key in old(contents) then Some(old(contents)[key]) else None
    {
      hide IsTable, IsPow2, InsertFrom, NarrowWalk, Home, Clip;
      ghost var hole := FindHole(slots, hash, contents);
      InsertIsUpdate(slots, contents, hash, key, value, hole);
      if nbuckets <= DIB_LIMIT {
        InsertFits(slots, contents, hash, key, value, hole);
      }
      SizeAfterSet(contents, key, value);
      r := InsertLoop(key, value, hole);
      if r.None? {
        count := count + 1;
      }
      slots := buckets[..nbuckets];
      contents := contents[key := value];
    }

    /** The carried distance fits 16 bits in every round, unless the table has more than 2^16 buckets. */
    method InsertLoop(key: K, value: V, ghost hole: nat) returns (r: Option<V>)
      requires Sizes() && hole < nbuckets && buckets[hole].dib == 0
      requires nbuckets <= DIB_LIMIT ==>
        NarrowWalk(buckets[..nbuckets], Bucket(Clip(hash(key)), 1, key, value), Home(Clip(hash(key)), nbuckets),
                   hole, true)
      modifies buckets
      ensures Outcome(buckets[..nbuckets], r) ==
        InsertFrom(old(buckets[..nbuckets]), Bucket(Clip(hash(key)), 1, key, value), Home(Clip(hash(key)), nbuckets),
                   hole)
    {
      hide IsPow2, NarrowWalk, InsertFrom, Home, Clip;
      var entry := Bucket(Clip(hash(key)), 1, key, value);
      var i: nat := HomeBucket(entry.hash);
      ghost var b := buckets[..nbuckets];
      ghost var result := InsertFrom(b, entry, i, hole);
      while true
        invariant i < nbuckets && b == buckets[..nbuckets] && b[hole].dib == 0
        invariant InsertFrom(b, entry, i, hole) == result
        invariant nbuckets <= DIB_LIMIT ==> NarrowWalk(b, entry, i, hole, true)
        decreases Dist(i, hole, nbuckets)
      {
        NarrowNow(b, entry, i, hole, true);
        assert nbuckets <= DIB_LIMIT ==> entry.dib < DIB_LIMIT;
        var bucket := buckets[i];
        InsertEnds(b, entry, i, hole);
        if bucket.dib == 0 {
          buckets[i] := entry;
          assert buckets[..nbuckets] == b[i := entry];
          return None;
        }
        if entry.hash == bucket.hash && entry.key == bucket.key {
          buckets[i] := bucket.(key := entry.key, value := entry.value);
          assert buckets[..nbuckets] == b[i := bucket.(key := entry.key, value := entry.value)];
          return Some(bucket.value);
        }
        InsertStep(b, entry, i, hole);
        if nbuckets <= DIB_LIMIT {
          NarrowStep(b, entry, i, hole, true);
        }
        b := TableAfter(b, entry, i);
        if bucket.dib < entry.dib {
          buckets[i] := entry;
          entry := bucket;
        }
        i := NextBucket(i);
        entry := entry.(dib := entry.dib + 1);
      }
    }

    /**
      Moves every entry to a new table of at least `newCap` buckets. The old bucket itself is the carried
      entry, and keys are not compared. The new table has the default load factor.
     */
    method Resize(newCap: nat, alloc: bool) returns (ok: bool)
      requires Valid() && cap <= newCap && count < RoundUp(newCap, MIN_CAPACITY)
      modifies this`nbuckets, this`mask, this`growat, this`shrinkat, this`buckets, this`slots, buckets
      ensures ok == alloc && Valid()
      ensures !ok ==> nbuckets == old(nbuckets) && growat == old(growat) && buckets == old(buckets) &&
                      buckets[..] == old(buckets[..])
      ensures ok ==> fresh(buckets) && nbuckets == RoundUp(newCap, MIN_CAPACITY) &&
                     growat == GrowAt(nbuckets, GROW_AT_PERCENT)
      ensures IsPow2(newCap) ==> RoundUp(newCap, MIN_CAPACITY) == newCap
    {
      hide IsTable, IsPow2, GrowAt, RoundUp;
      var map2 := New(hash, newCap, alloc);
      if map2 == null {
        return false;
      }
      MoveAll(map2);
      Adopt(map2);
      return true;
    }

    /** Takes over the buckets and sizes of `map2`, which holds the same items. */
    method Adopt(map2: HashMap<K, V>)
      requires Sizes() && map2.Sizes() && map2 != this && cap <= map2.nbuckets && count < map2.nbuckets
      requires map2.slots == map2.buckets[..map2.nbuckets] && IsTable(map2.slots, hash, contents)
      modifies this`nbuckets, this`mask, this`growat, this`shrinkat, this`buckets, this`slots
      ensures Valid() && buckets == map2.buckets && nbuckets == map2.nbuckets && growat == map2.growat
    {
      hide IsTable, IsPow2;
      slots := map2.slots;
      buckets := map2.buckets;
      nbuckets := map2.nbuckets;
      mask := map2.mask;
      growat := map2.growat;
      shrinkat := map2.shrinkat;
    }

    method MoveAll(map2: HashMap<K, V>)
      requires Valid() && map2.Valid() && map2.hash == hash && map2.contents == map[]
      requires count < map2.nbuckets && map2.buckets.Length == map2.nbuckets && map2.buckets != buckets
      modifies buckets, map2`slots, map2.buckets
      ensures map2.slots == map2.buckets[..] && IsTable(map2.slots, hash, contents)
    {
      hide IsTable, RepresentsPrefix, RehashFrom, NarrowWalk, IsPow2, Home, Clip;
      ghost var m := map[];
      EmptyPrefix(slots);
      for i := 0 to nbuckets
        invariant forall j :: i <= j < nbuckets ==> buckets[j] == slots[j]
        invariant RepresentsPrefix(slots, i, m)
        invariant map2.slots == map2.buckets[..] && IsTable(map2.slots, hash, m)
      {
        PrefixGrows(slots, hash, i, m, contents);
        if buckets[i].dib == 0 {
          continue;
        }
        buckets[i] := buckets[i].(dib := 1);
        PrefixWithin(slots, hash, i, m, contents);
        ghost var hole := FindHole(map2.slots, hash, m);
        RehashIsUpdate(map2.slots, m, hash, slots[i].(dib := 1), hole);
        if map2.nbuckets <= DIB_LIMIT {
          RoomForOneMore(slots, hash, i, m, contents);
          RehashFits(map2.slots, m, hash, slots[i].(dib := 1), hole);
        }
        MoveOne(map2, i, hole);
        map2.slots := map2.buckets[..];
        m := m[slots[i].key := slots[i].value];
      }
      PrefixWithin(slots, hash, nbuckets, m, contents);
    }

    method MoveOne(map2: HashMap<K, V>, i: nat, ghost hole: nat)
      requires map2.Sizes() && i < buckets.Length
      requires map2.buckets.Length == map2.nbuckets && map2.buckets != buckets
      requires hole < map2.nbuckets && map2.buckets[hole].dib == 0
      requires map2.nbuckets <= DIB_LIMIT ==>
        NarrowWalk(map2.buckets[..], buckets[i], Home(buckets[i].hash, map2.nbuckets), hole, false)
      modifies buckets, map2.buckets
      ensures map2.buckets[..] ==
        old(RehashFrom(map2.buckets[..], buckets[i], Home(buckets[i].hash, map2.nbuckets), hole))
      ensures forall k :: 0 <= k < buckets.Length && k != i ==> buckets[k] == old(buckets[k])
    {
      hide IsPow2, NarrowWalk, RehashFrom, Home;
      var j: nat := map2.HomeBucket(buckets[i].hash);
      ghost var b := map2.buckets[..];
      ghost var result := RehashFrom(b, buckets[i], j, hole);
      while true
        invariant j < map2.nbuckets && b == map2.buckets[..] && b[hole].dib == 0
        invariant forall k :: 0 <= k < buckets.Length && k != i ==> buckets[k] == old(buckets[k])
        invariant RehashFrom(b, buckets[i], j, hole) == result
        invariant map2.nbuckets <= DIB_LIMIT ==> NarrowWalk(b, buckets[i], j, hole, false)
        decreases Dist(j, hole, map2.nbuckets)
      {
        NarrowNow(b, buckets[i], j, hole, false);
        assert map2.nbuckets <= DIB_LIMIT ==> buckets[i].dib < DIB_LIMIT;
        var bucket := map2.buckets[j];
        if bucket.dib == 0 {
          RehashEnds(b, buckets[i], j, hole);
          map2.buckets[j] := buckets[i];
          break;
        }
        RehashStep(b, buckets[i], j, hole);
        if map2.nbuckets <= DIB_LIMIT {
          NarrowStep(b, buckets[i], j, hole, false);
        }
        b := TableAfter(b, buckets[i], j);
        if bucket.dib < buckets[i].dib {
          map2.buckets[j] := buckets[i];
          buckets[i] := bucket;
        }
        j := map2.NextBucket(j);
        buckets[i] := buckets[i].(dib := buckets[i].dib + 1);
      }
    }

    /**
      Inserts or replaces an item. When the table must grow and cannot, nothing happens at all: not
      even an item that is present is replaced.
     */
    method SetWithHash(key: K, value: V, hv: nat, alloc: bool) returns (r: Option<V>)
      requires Valid() && Clip(hv) == Clip(hash(key))
      modifies this, buckets
      ensures Valid() && cap == old(cap) && loadfactor == old(loadfactor) && growpower == old(growpower)
      ensures oom == (old(count >= growat) && !alloc)
      ensures oom ==> r == None && contents == old(contents) && nbuckets == old(nbuckets) && growat == old(growat)
                      && buckets == old(buckets) && buckets[..] == old(buckets[..])
      ensures !oom ==> contents == old(contents)[key := value]
      ensures !oom ==> r == if key in old(contents) then Some(old(contents)[key]) else None
      ensures !oom ==> nbuckets == if old(count >= growat) then Shift(old(nbuckets), growpower) else old(nbuckets)
      ensures !oom ==> growat == if old(count >= growat) then GrowAt(nbuckets, GROW_AT_PERCENT) else old(growat)
      ensures buckets == old(buckets) || fresh(buckets)
    {
      hide IsTable;
      oom := false;
      if count >= growat {
        ShiftDoubles(nbuckets, growpower);
        var ok := Resize(Shift(nbuckets, growpower), alloc);
        if !ok {
          oom := true;
          return None;
        }
      }
      r := Insert(key, value);
    }

    method Set(key: K, value: V, alloc: bool) returns (r: Option<V>)
      requires Valid()
      modifies this, buckets
      ensures Valid() && cap == old(cap) && loadfactor == old(loadfactor) && growpower == old(growpower)
      ensures oom == (old(count >= growat) && !alloc)
      ensures oom ==> r == None && contents == old(contents) && nbuckets == old(nbuckets) && growat == old(growat)
                      && buckets == old(buckets) && buckets[..] == old(buckets[..])
      ensures !oom ==> contents == old(contents)[key := value]
      ensures !oom ==> r == if key in old(contents) then Some(old(contents)[key]) else None
      ensures !oom ==> nbuckets == if old(count >= growat) then Shift(old(nbuckets), growpower) else old(nbuckets)
      ensures !oom ==> growat == if old(count >= growat) then GrowAt(nbuckets, GROW_AT_PERCENT) else old(growat)
      ensures buckets == old(buckets) || fresh(buckets)
    {
      r := SetWithHash(key, value, hash(key), alloc);
    }

    /** The backward-shift loop: every entry that can moves one bucket closer to its home. */
    method ShiftLoop(at: nat, ghost stop: nat)
      requires Sizes() && at < nbuckets && stop < nbuckets && at != stop && buckets[stop].dib == 0
      modifies buckets
      ensures buckets[..nbuckets] == old(CloseGap(buckets[..nbuckets][at := buckets[at].(dib := 0)], at, stop))
    {
      hide IsPow2, CloseGap;
      var i: nat := at;
      ghost var b := buckets[..nbuckets][at := buckets[at].(dib := 0)];
      ghost var result := CloseGap(b, at, stop);
      buckets[i] := buckets[i].(dib := 0);
      while true
        invariant i < nbuckets && i != stop && |b| == nbuckets && b[stop].dib == 0
        invariant forall k :: 0 <= k < nbuckets ==> b[k] == if k == i then buckets[k].(dib := 0) else buckets[k]
        invariant CloseGap(b, i, stop) == result
        decreases Dist(i, stop, nbuckets)
      {
        CloseGapStep(b, i, stop);
        var prev := i;
        i := NextBucket(i);
        if buckets[i].dib <= 1 {
          buckets[prev] := buckets[prev].(dib := 0);
          assert buckets[..nbuckets] == b;
          break;
        }
        b := ShiftBack(b, prev);
        buckets[prev] := buckets[i];
        buckets[prev] := buckets[prev].(dib := buckets[prev].dib - 1);
      }
    }

    method RemoveAt(i: nat)
      requires Valid() && i < nbuckets && slots[i].dib > 0 && slots[i].key in contents
      modifies this`count, this`slots, this`contents, buckets
      ensures Valid() && contents == old(contents) - {old(slots)[i].key}
    {
      hide IsTable;
      ghost var stop := FindHole(slots, hash, contents);
      DeleteIsRemoval(slots, hash, contents, i, stop);
      SizeAfterRemoval(contents, slots[i].key);
      ShiftLoop(i, stop);
      count := count - 1;
      contents := contents - {slots[i].key};
      slots := buckets[..nbuckets];
    }

    /** Removes an item. A sparse table that has grown beyond its initial capacity shrinks, if it can. */
    method DeleteWithHash(key: K, hv: nat, alloc: bool) returns (r: Option<V>)
      requires Valid() && Clip(hv) == Clip(hash(key))
      modifies this, buckets
      ensures Valid() && cap == old(cap) && loadfactor == old(loadfactor) && growpower == old(growpower) && !oom
      ensures contents == old(contents) - {key}
      ensures r == if key in old(contents) then Some(old(contents)[key]) else None
      ensures var shrinks := key in old(contents) && old(nbuckets > cap && count - 1 <= shrinkat) && alloc;
        nbuckets == (if shrinks then old(nbuckets) / 2 else old(nbuckets)) &&
        growat == (if shrinks then GrowAt(nbuckets, GROW_AT_PERCENT) else old(growat))
      ensures buckets == old(buckets) || fresh(buckets)
    {
      hide IsTable, IsPow2;
      oom := false;
      var at := Find(key, Clip(hv));
      if at.None? {
        return None;
      }
      r := Some(buckets[at.value].value);
      RemoveAt(at.value);
      if nbuckets > cap && count <= shrinkat {
        Pow2Gap(cap, nbuckets);
        var _ := Resize(nbuckets / 2, alloc);
      }
    }

    method Delete(key: K, alloc: bool) returns (r: Option<V>)
      requires Valid()
      modifies this, buckets
      ensures Valid() && cap == old(cap) && loadfactor == old(loadfactor) && growpower == old(growpower) && !oom
      ensures contents == old(contents) - {key}
      ensures r == if key in old(contents) then Some(old(contents)[key]) else None
      ensures var shrinks := key in old(contents) && old(nbuckets > cap && count - 1 <= shrinkat) && alloc;
        nbuckets == (if shrinks then old(nbuckets) / 2 else old(nbuckets)) &&
        growat == (if shrinks then GrowAt(nbuckets, GROW_AT_PERCENT) else old(growat))
      ensures buckets == old(buckets) || fresh(buckets)
    {
      r := DeleteWithHash(key, hash(key), alloc);
    }

    /** Zeroes the buckets in use and derives the remaining sizes from `nbuckets`. */
    method Wipe()
      requires IsPow2(nbuckets) && MIN_CAPACITY <= nbuckets == cap <= buckets.Length
      requires 50 <= loadfactor <= 95 && 1 <= growpower <= 16 && count == 0
      modifies this`slots, this`contents, this`mask, this`growat, this`shrinkat, buckets
      ensures Valid() && contents == map[] && growat == GrowAt(nbuckets, loadfactor)
    {
      hide IsTable, IsPow2, GrowAt;
      for i := 0 to nbuckets
        modifies buckets
        invariant forall j :: 0 <= j < i ==> buckets[j].dib == 0
      {
        buckets[i] := buckets[i].(hash := 0, dib := 0);
      }
      slots := buckets[..nbuckets];
      contents := map[];
      EmptyTable(slots, hash);
      mask := nbuckets - 1;
      growat := GrowAt(nbuckets, loadfactor);
      shrinkat := ShrinkAt(nbuckets);
    }

    /**
      Empties the map. With `updateCap` the current size becomes the capacity that deletions keep;
      otherwise the table goes back to that capacity, in a smaller array if one can be had and in the
      front of the old one if not.
     */
    method Clear(updateCap: bool, alloc: bool)
      requires Valid()
      modifies this, buckets
      ensures Valid() && contents == map[] && count == 0
      ensures nbuckets == (if updateCap then old(nbuckets) else old(cap)) && cap == nbuckets
      ensures growat == GrowAt(nbuckets, loadfactor)
      ensures loadfactor == old(loadfactor) && growpower == old(growpower) && oom == old(oom)
      ensures buckets == old(buckets) || fresh(buckets)
      ensures buckets == old(buckets) <==> updateCap || old(nbuckets == cap) || !alloc
    {
      hide IsTable, IsPow2, GrowAt;
      count := 0;
      if updateCap {
        cap := nbuckets;
      } else if nbuckets != cap {
        if alloc {
          var empty: Bucket<K, V> := *;
          buckets := new Bucket<K, V>[cap](_ => empty);
        }
        nbuckets := cap;
      }
      Wipe();
    }

    method SetLoadFactor(factor: Factor)
      requires Valid()
      modifies this`loadfactor, this`growat
      ensures Valid() && growat == GrowAt(nbuckets, loadfactor)
      ensures loadfactor == ToPercent(ClampLoadFactor(factor, old(loadfactor)))
      ensures factor.NaN? ==> loadfactor == old(loadfactor) - if old(loadfactor) in {57, 58} then 1 else 0
      ensures factor.Num? && factor.x <= 0.5 ==> loadfactor == 50
      ensures factor.Num? && factor.x >= 0.95 ==> loadfactor == 95
    {
      hide IsTable, IsPow2, GrowAt, ToPercent, ClampLoadFactor;
      FactorExtremes(factor, loadfactor);
      loadfactor := ToPercent(ClampLoadFactor(factor, loadfactor));
      growat := GrowAt(nbuckets, loadfactor);
    }

    method SetGrowByPower(power: nat)
      requires Valid()
      modifies this`growpower
      ensures Valid() && growpower == if power < 1 then 1 else if power > 16 then 16 else power
    {
      growpower := if power < 1 then 1 else if power > 16 then 16 else power;
    }

    /** One step of an iteration: the first item at or after cursor `i`, and the cursor behind it. */
    method Iter(i: nat) returns (found: bool, next: nat, item: Option<(K, V)>)
      requires Valid()
      ensures found == item.Some? && next >= i
      ensures found ==> i < next <= nbuckets && ItemsFrom(slots, i) == [item.value] + ItemsFrom(slots, next)
      ensures !found ==> ItemsFrom(slots, i) == []
    {
      next := i;
      while true
        invariant next >= i && ItemsFrom(slots, i) == ItemsFrom(slots, next)
        decreases nbuckets - next
      {
        if next >= nbuckets {
          return false, next, None;
        }
        var bucket := buckets[next];
        assert bucket == slots[next];
        next := next + 1;
        if bucket.dib > 0 {
          return true, next, Some((bucket.key, bucket.value));
        }
      }
    }

    /** The loop that an iteration is meant for: from cursor 0 until nothing is found. Every item comes once. */
    method Items() returns (items: seq<(K, V)>)
      requires Valid()
      ensures |items| == count && items == ItemsFrom(slots, 0)
      ensures forall s, t :: 0 <= s < t < |items| ==> items[s].0 != items[t].0
      ensures forall k, v :: (k, v) in items <==> k in contents && contents[k] == v
    {
      hide IsTable;
      items := [];
      var cursor := 0;
      while true
        invariant ItemsFrom(slots, 0) == items + ItemsFrom(slots, cursor)
        decreases nbuckets - cursor
      {
        var found, next, item := Iter(cursor);
        if !found {
          break;
        }
        items := items + [item.value];
        cursor := next;
      }
      IterationIsFaithful(slots, hash, contents);
    }

    /** Visits item after item until the callback refuses one. `seen` is what the callback was given. */
    method Scan(visit: (K, V) -> bool) returns (completed: bool, seen: seq<(K, V)>)
      requires Valid()
      ensures seen <= ItemsFrom(slots, 0)
      ensures completed ==> seen == ItemsFrom(slots, 0)
      ensures completed == forall j: nat :: j < |seen| ==> visit(seen[j].0, seen[j].1)
      ensures forall j: nat :: j < |seen| - 1 ==> visit(seen[j].0, seen[j].1)
    {
      hide IsTable, IsPow2;
      seen := [];
      for i := 0 to nbuckets
        invariant ItemsFrom(slots, 0) == seen + ItemsFrom(slots, i)
        invariant forall j: nat :: j < |seen| ==> visit(seen[j].0, seen[j].1)
      {
        var bucket := buckets[i];
        assert bucket == slots[i];
        if bucket.dib > 0 {
          seen := seen + [(bucket.key, bucket.value)];
          if !visit(bucket.key, bucket.value) {
            assert seen[|seen| - 1] == (bucket.key, bucket.value);
            return false, seen;
          }
        }
      }
      return true, seen;
    }
  }
}
