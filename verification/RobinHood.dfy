/**
  Robin Hood tables as values: what the buckets of a map must satisfy, and what one step of each
  probe loop does to them. `h` is the caller's hash function, left arbitrary.
 */
module RobinHood {
  import opened Ring
  import opened Wrappers

  /** `dib` is the distance from the home bucket, counted from 1; a bucket with `dib == 0` is empty. */
  datatype Bucket<K, V> = Bucket(hash: nat, dib: nat, key: K, value: V)

  /** Buckets keep only 48 bits of a hash. */
  function Clip(hash: nat): (r: nat) {
    BitAnd(hash, 0xFFFF_FFFF_FFFF)
  }

  /** The 48 lower bits: the remainder by 2^48. */
  lemma ClipIsRemainder(hash: nat)
    ensures Clip(hash) == hash % 0x1_0000_0000_0000 < 0x1_0000_0000_0000
  {
    assert IsPow2(2) && IsPow2(4);
    ProductIsPow2(4, 4);
    ProductIsPow2(16, 16);
    ProductIsPow2(0x100, 0x100);
    ProductIsPow2(0x1_0000, 0x1_0000);
    ProductIsPow2(0x1_0000_0000, 0x1_0000);
    MaskIsModulo(hash, 0x1_0000_0000_0000);
  }

  /** The home bucket is what masking the hash gives. */
  lemma HomeIsMasked(hash: nat, n: nat)
    requires IsPow2(n)
    ensures Home(hash, n) == BitAnd(hash, n - 1)
  {
    MaskIsModulo(hash, n);
  }

  /** `hash & mask` for a table of `n` buckets. */
  function Home(hash: nat, n: nat): (i: nat)
    requires n > 0
    ensures i < n
  {
    hash % n
  }

  /** A bucket with this `dib` belongs exactly at position `i`. */
  ghost predicate Placed<K, V>(e: Bucket<K, V>, i: nat, n: nat) {
    1 <= e.dib <= n && i < n && Fwd(Home(e.hash, n), e.dib - 1, n) == i
  }

  ghost predicate HomeSlots<K, V>(b: seq<Bucket<K, V>>) {
    forall i :: 0 <= i < |b| && b[i].dib > 0 ==> Placed(b[i], i, |b|)
  }

  /** A bucket is at most one step further from home than the bucket before it. */
  ghost predicate Ordered<K, V>(b: seq<Bucket<K, V>>) {
    forall i: nat :: i < |b| ==> b[Next(i, |b|)].dib <= b[i].dib + 1
  }

  ghost predicate Hashed<K, V>(b: seq<Bucket<K, V>>, h: K -> nat) {
    forall i :: 0 <= i < |b| && b[i].dib > 0 ==> b[i].hash == Clip(h(b[i].key))
  }

  ghost predicate UniqueKeys<K, V>(b: seq<Bucket<K, V>>) {
    forall i, j :: 0 <= i < |b| && 0 <= j < |b| && b[i].dib > 0 && b[j].dib > 0 && b[i].key == b[j].key ==> i == j
  }

  ghost predicate Valid<K, V>(b: seq<Bucket<K, V>>, h: K -> nat) {
    HomeSlots(b) && Ordered(b) && Hashed(b, h) && UniqueKeys(b)
  }

  ghost predicate HasKey<K, V>(b: seq<Bucket<K, V>>, k: K) {
    exists i :: 0 <= i < |b| && b[i].dib > 0 && b[i].key == k
  }

  /** `m` is the finite map that the table stands for. */
  ghost predicate Represents<K, V>(b: seq<Bucket<K, V>>, m: map<K, V>) {
    (forall i :: 0 <= i < |b| && b[i].dib > 0 ==> b[i].key in m && m[b[i].key] == b[i].value) &&
    (forall k :: k in m ==> HasKey(b, k))
  }

  /** A well-formed table that stands for `m`. */
  ghost predicate IsTable<K, V>(b: seq<Bucket<K, V>>, h: K -> nat, m: map<K, V>) {
    Valid(b, h) && Represents(b, m)
  }

  ghost function Occupied<K, V>(b: seq<Bucket<K, V>>): set<int> {
    set i | 0 <= i < |b| && b[i].dib > 0
  }

  // ---------------------------------------------------------------- probing

  /** Everything between the home of a bucket and the bucket itself is occupied, and steeply so. */
  lemma {:induction false} Ramp<K, V>(b: seq<Bucket<K, V>>, hm: nat, d: nat, t: nat)
    requires Ordered(b) && hm < |b| && t < d <= |b|
    requires b[Fwd(hm, d - 1, |b|)].dib >= d
    ensures b[Fwd(hm, t, |b|)].dib >= t + 1
    decreases d - t
  {
    if t < d - 1 {
      Ramp(b, hm, d, t + 1);
      assert Fwd(hm, t + 1, |b|) == Next(Fwd(hm, t, |b|), |b|);
    }
  }

  /** None of the first `s` buckets from `hm` on holds `k`. */
  ghost predicate Missed<K, V>(b: seq<Bucket<K, V>>, hm: nat, s: nat, k: K)
    requires hm < |b| && s <= |b|
  {
    forall t: nat :: t < s && b[Fwd(hm, t, |b|)].dib > 0 ==> b[Fwd(hm, t, |b|)].key != k
  }

  /**
    Why a probe may stop: if no bucket met in the first `s` steps holds `k`, and the next one is
    closer to its home than `k` would be there (an empty bucket always is), `k` is nowhere in the table.
   */
  lemma Absent<K, V>(b: seq<Bucket<K, V>>, h: K -> nat, k: K, s: nat)
    requires HomeSlots(b) && Ordered(b) && Hashed(b, h) && s < |b|
    requires Missed(b, Home(Clip(h(k)), |b|), s, k)
    requires b[Fwd(Home(Clip(h(k)), |b|), s, |b|)].dib <= s
    ensures !HasKey(b, k)
  {
    if i :| 0 <= i < |b| && b[i].dib > 0 && b[i].key == k {
      var hm, d := Home(Clip(h(k)), |b|), b[i].dib;
      assert Placed(b[i], i, |b|);
      assert Fwd(hm, d - 1, |b|) == i;
      if s <= d - 1 {
        Ramp(b, hm, d, s);
      }
    }
  }

  /** A search for `k` that has met `s` buckets since home without success and stands at bucket `i`. */
  ghost predicate Probing<K, V>(b: seq<Bucket<K, V>>, h: K -> nat, k: K, i: nat, s: nat, hole: nat) {
    i < |b| && s < |b| && hole < |b| && b[hole].dib == 0 &&
    i == Fwd(Home(Clip(h(k)), |b|), s, |b|) && s + Dist(i, hole, |b|) < |b| &&
    Missed(b, Home(Clip(h(k)), |b|), s, k)
  }

  lemma ProbeOn<K, V>(b: seq<Bucket<K, V>>, h: K -> nat, k: K, i: nat, s: nat, hole: nat)
    requires Probing(b, h, k, i, s, hole) && b[i].dib > 0 && b[i].key != k
    ensures Probing(b, h, k, Next(i, |b|), s + 1, hole)
    ensures Dist(Next(i, |b|), hole, |b|) < Dist(i, hole, |b|)
  {
  }

  lemma ProbeEnds<K, V>(b: seq<Bucket<K, V>>, h: K -> nat, m: map<K, V>, k: K, i: nat, s: nat, hole: nat)
    requires IsTable(b, h, m) && Probing(b, h, k, i, s, hole)
    ensures b[i].dib == 0 ==> k !in m
    ensures b[i].dib > 0 && b[i].key == k ==> k in m && m[k] == b[i].value && b[i].hash == Clip(h(k))
  {
    if b[i].dib == 0 {
      Absent(b, h, k, s);
    }
  }

  /** A probe from a bucket towards an empty bucket has not passed it since that bucket's home. */
  lemma NotPassed<K, V>(b: seq<Bucket<K, V>>, i: nat, e: nat)
    requires HomeSlots(b) && Ordered(b) && i < |b| && e < |b|
    requires b[i].dib > 0 && b[e].dib == 0
    ensures b[i].dib - 1 + Dist(i, e, |b|) < |b|
  {
    assert Placed(b[i], i, |b|);
    var n, hm := |b|, Home(b[i].hash, |b|);
    var t := Dist(hm, e, n);
    if t < b[i].dib {
      Ramp(b, hm, b[i].dib, t);
    }
  }

  /** No stored distance exceeds the number of entries, so 16 bits hold it in tables of up to 2^16 buckets. */
  lemma DibAtMostCount<K, V>(b: seq<Bucket<K, V>>, i: nat)
    requires HomeSlots(b) && Ordered(b) && i < |b|
    ensures b[i].dib <= |Occupied(b)|
  {
    if b[i].dib > 0 {
      assert Placed(b[i], i, |b|);
      ArcOccupied(b, Home(b[i].hash, |b|), b[i].dib, b[i].dib);
      ArcSize(Home(b[i].hash, |b|), b[i].dib, |b|);
      SubsetSize(Arc(Home(b[i].hash, |b|), b[i].dib, |b|), Occupied(b));
    }
  }

  lemma ArcOccupied<K, V>(b: seq<Bucket<K, V>>, hm: nat, d: nat, m: nat)
    requires Ordered(b) && hm < |b| && 1 <= d <= |b| && m <= d
    requires b[Fwd(hm, d - 1, |b|)].dib >= d
    ensures Arc(hm, m, |b|) <= Occupied(b)
    decreases m
  {
    if m > 0 {
      ArcOccupied(b, hm, d, m - 1);
      Ramp(b, hm, d, m - 1);
    }
  }

  // ---------------------------------------------------------------- inserting

  /** Putting a carried entry into a bucket that is closer to home keeps the shape. */
  lemma PutKeepsShape<K, V>(b: seq<Bucket<K, V>>, e: Bucket<K, V>, i: nat)
    requires HomeSlots(b) && Ordered(b) && |b| >= 2
    requires Placed(e, i, |b|) && b[i].dib < e.dib && e.dib <= b[Prev(i, |b|)].dib + 1
    ensures HomeSlots(b[i := e]) && Ordered(b[i := e])
  {
    var c, n := b[i := e], |b|;
    forall j: nat | j < n ensures c[Next(j, n)].dib <= c[j].dib + 1 {
      assert b[Next(j, n)].dib <= b[j].dib + 1;
      if Next(j, n) == i { assert j == Prev(i, n); }
    }
  }

  /** A new entry in an empty bucket. */
  lemma FillKeepsKeys<K, V>(b: seq<Bucket<K, V>>, e: Bucket<K, V>, i: nat, m: map<K, V>)
    requires UniqueKeys(b) && Represents(b, m)
    requires i < |b| && b[i].dib == 0 && e.dib > 0 && e.key !in m
    ensures UniqueKeys(b[i := e]) && Represents(b[i := e], m[e.key := e.value])
    ensures Occupied(b[i := e]) == Occupied(b) + {i}
  {
    var c := b[i := e];
    forall k | k in m[e.key := e.value] ensures HasKey(c, k) {
      if k == e.key {
        assert c[i].key == k;
      } else {
        var j :| 0 <= j < |b| && b[j].dib > 0 && b[j].key == k;
        assert c[j] == b[j];
      }
    }
  }

  /** Exchanging the entry of a bucket for a carried one; the exchanged one is carried on. */
  lemma SwapKeepsKeys<K, V>(b: seq<Bucket<K, V>>, e: Bucket<K, V>, i: nat, m: map<K, V>) returns (m': map<K, V>)
    requires UniqueKeys(b) && Represents(b, m)
    requires i < |b| && b[i].dib > 0 && e.dib > 0 && e.key !in m
    ensures UniqueKeys(b[i := e]) && Represents(b[i := e], m')
    ensures b[i].key !in m' && m'[b[i].key := b[i].value] == m[e.key := e.value]
    ensures Occupied(b[i := e]) == Occupied(b)
  {
    var c := b[i := e];
    m' := (m - {b[i].key})[e.key := e.value];
    forall k | k in m' ensures HasKey(c, k) {
      if k == e.key {
        assert c[i].key == k;
      } else {
        var j :| 0 <= j < |b| && b[j].dib > 0 && b[j].key == k;
        assert c[j] == b[j];
      }
    }
  }

  /**
    The state of an insertion: the table is complete and well formed without the carried entry `e`,
    which may go to bucket `i`; the probe has not yet passed the empty bucket `hole`.
   */
  ghost predicate Carrying<K, V>(b: seq<Bucket<K, V>>, h: K -> nat, m: map<K, V>, e: Bucket<K, V>, i: nat, hole: nat) {
    |b| >= 2 && IsTable(b, h, m) &&
    hole < |b| && b[hole].dib == 0 &&
    Placed(e, i, |b|) && e.hash == Clip(h(e.key)) &&
    e.dib <= b[Prev(i, |b|)].dib + 1 &&
    e.dib - 1 + Dist(i, hole, |b|) < |b|
  }

  /** The next bucket after `i`, for an entry carried one step further. */
  ghost predicate CarriedOn<K, V>(b: seq<Bucket<K, V>>, h: K -> nat, m: map<K, V>, e: Bucket<K, V>, i: nat, hole: nat)
    requires i < |b|
  {
    Carrying(b, h, m, e.(dib := e.dib + 1), Next(i, |b|), hole) &&
    Dist(Next(i, |b|), hole, |b|) < Dist(i, hole, |b|)
  }

  lemma CarryPast<K, V>(b: seq<Bucket<K, V>>, h: K -> nat, m: map<K, V>, e: Bucket<K, V>, i: nat, hole: nat)
    requires Carrying(b, h, m, e, i, hole) && b[i].dib >= e.dib
    ensures CarriedOn(b, h, m, e, i, hole)
  {
    assert Prev(Next(i, |b|), |b|) == i;
  }

  lemma CarrySwap<K, V>(b: seq<Bucket<K, V>>, h: K -> nat, m: map<K, V>, e: Bucket<K, V>, i: nat, hole: nat)
    returns (m': map<K, V>)
    requires Carrying(b, h, m, e, i, hole) && e.key !in m && 0 < b[i].dib < e.dib
    ensures CarriedOn(b[i := e], h, m', b[i], i, hole)
    ensures b[i].key !in m' && m'[b[i].key := b[i].value] == m[e.key := e.value]
    ensures Occupied(b[i := e]) == Occupied(b)
  {
    PutKeepsShape(b, e, i);
    NotPassed(b, i, hole);
    m' := SwapKeepsKeys(b, e, i, m);
    assert Placed(b[i], i, |b|);
    assert Prev(Next(i, |b|), |b|) == i;
  }

  lemma CarryFill<K, V>(b: seq<Bucket<K, V>>, h: K -> nat, m: map<K, V>, e: Bucket<K, V>, i: nat, hole: nat)
    requires Carrying(b, h, m, e, i, hole) && e.key !in m && b[i].dib == 0
    ensures IsTable(b[i := e], h, m[e.key := e.value])
    ensures Occupied(b[i := e]) == Occupied(b) + {i}
  {
    PutKeepsShape(b, e, i);
    FillKeepsKeys(b, e, i, m);
  }

  ghost predicate SameKey<K, V>(e: Bucket<K, V>, c: Bucket<K, V>) {
    e.hash == c.hash && e.key == c.key
  }

  /** Overwriting the item of a bucket by one with an equal key. */
  lemma ReplaceKeepsAll<K, V>(b: seq<Bucket<K, V>>, h: K -> nat, m: map<K, V>, e: Bucket<K, V>, i: nat)
    requires IsTable(b, h, m) && i < |b| && b[i].dib > 0 && SameKey(e, b[i])
    ensures var c := b[i := b[i].(key := e.key, value := e.value)]; IsTable(c, h, m[e.key := e.value])
    ensures e.key in m && m[e.key] == b[i].value
  {
    var c := b[i := b[i].(key := e.key, value := e.value)];
    assert HomeSlots(c) && Ordered(c) && UniqueKeys(c);
    forall x | x in m[e.key := e.value] ensures HasKey(c, x) {
      var j :| 0 <= j < |b| && b[j].dib > 0 && b[j].key == x;
      assert c[j].key == x && c[j].dib > 0;
    }
  }

  /** What a call of `set` leaves behind: the table, and the item it replaced. */
  datatype Outcome<K, V> = Outcome(table: seq<Bucket<K, V>>, replaced: Option<V>)

  /** The probe loop of `set` as a function: carry `e` from bucket `i` on, towards the empty bucket `hole`. */
  ghost function InsertFrom<K, V>(b: seq<Bucket<K, V>>, e: Bucket<K, V>, i: nat, hole: nat): Outcome<K, V>
    requires i < |b| && hole < |b| && b[hole].dib == 0
    decreases Dist(i, hole, |b|)
  {
    if b[i].dib == 0 then
      Outcome(b[i := e], None)
    else if SameKey(e, b[i]) then
      Outcome(b[i := b[i].(key := e.key, value := e.value)], Some(b[i].value))
    else if b[i].dib < e.dib then
      InsertFrom(b[i := e], b[i].(dib := b[i].dib + 1), Next(i, |b|), hole)
    else
      InsertFrom(b, e.(dib := e.dib + 1), Next(i, |b|), hole)
  }

  /** The inner loop of a rehash: the same walk, but keys are never compared. */
  ghost function RehashFrom<K, V>(b: seq<Bucket<K, V>>, e: Bucket<K, V>, i: nat, hole: nat): seq<Bucket<K, V>>
    requires i < |b| && hole < |b| && b[hole].dib == 0
    decreases Dist(i, hole, |b|)
  {
    if b[i].dib == 0 then
      b[i := e]
    else if b[i].dib < e.dib then
      RehashFrom(b[i := e], b[i].(dib := b[i].dib + 1), Next(i, |b|), hole)
    else
      RehashFrom(b, e.(dib := e.dib + 1), Next(i, |b|), hole)
  }

  lemma NarrowNow<K, V>(b: seq<Bucket<K, V>>, e: Bucket<K, V>, i: nat, hole: nat, compare: bool)
    requires i < |b| && hole < |b| && b[hole].dib == 0
    ensures NarrowWalk(b, e, i, hole, compare) ==> e.dib < DIB_LIMIT
  {
  }

  /** The table and the carried entry after a round that goes on. */
  ghost function TableAfter<K, V>(b: seq<Bucket<K, V>>, e: Bucket<K, V>, i: nat): (c: seq<Bucket<K, V>>)
    requires i < |b|
    ensures |c| == |b|
  {
    if b[i].dib < e.dib then b[i := e] else b
  }

  ghost function EntryAfter<K, V>(b: seq<Bucket<K, V>>, e: Bucket<K, V>, i: nat): Bucket<K, V>
    requires i < |b|
  {
    var f := if b[i].dib < e.dib then b[i] else e;
    f.(dib := f.dib + 1)
  }

  /** One round of the loop of `set`. */
  lemma InsertStep<K, V>(b: seq<Bucket<K, V>>, e: Bucket<K, V>, i: nat, hole: nat)
    requires i < |b| && hole < |b| && b[hole].dib == 0 && b[i].dib > 0 && !SameKey(e, b[i])
    ensures TableAfter(b, e, i)[hole].dib == 0 && Dist(Next(i, |b|), hole, |b|) < Dist(i, hole, |b|)
    ensures InsertFrom(b, e, i, hole) == InsertFrom(TableAfter(b, e, i), EntryAfter(b, e, i), Next(i, |b|), hole)
  {
  }

  lemma InsertEnds<K, V>(b: seq<Bucket<K, V>>, e: Bucket<K, V>, i: nat, hole: nat)
    requires i < |b| && hole < |b| && b[hole].dib == 0
    ensures b[i].dib == 0 ==> InsertFrom(b, e, i, hole) == Outcome(b[i := e], None)
    ensures b[i].dib > 0 && SameKey(e, b[i]) ==>
      InsertFrom(b, e, i, hole) == Outcome(b[i := b[i].(key := e.key, value := e.value)], Some(b[i].value))
  {
  }

  /** One round of the inner loop of a rehash. */
  lemma RehashStep<K, V>(b: seq<Bucket<K, V>>, e: Bucket<K, V>, i: nat, hole: nat)
    requires i < |b| && hole < |b| && b[hole].dib == 0 && b[i].dib > 0
    ensures TableAfter(b, e, i)[hole].dib == 0 && Dist(Next(i, |b|), hole, |b|) < Dist(i, hole, |b|)
    ensures RehashFrom(b, e, i, hole) == RehashFrom(TableAfter(b, e, i), EntryAfter(b, e, i), Next(i, |b|), hole)
  {
  }

  lemma RehashEnds<K, V>(b: seq<Bucket<K, V>>, e: Bucket<K, V>, i: nat, hole: nat)
    requires i < |b| && hole < |b| && b[i].dib == b[hole].dib == 0
    ensures RehashFrom(b, e, i, hole) == b[i := e]
  {
  }

  /** One round of either, as to the width of the distances. */
  lemma NarrowStep<K, V>(b: seq<Bucket<K, V>>, e: Bucket<K, V>, i: nat, hole: nat, compare: bool)
    requires i < |b| && hole < |b| && b[hole].dib == 0 && b[i].dib > 0 && !(compare && SameKey(e, b[i]))
    requires NarrowWalk(b, e, i, hole, compare)
    ensures e.dib < DIB_LIMIT && TableAfter(b, e, i)[hole].dib == 0
    ensures NarrowWalk(TableAfter(b, e, i), EntryAfter(b, e, i), Next(i, |b|), hole, compare)
  {
  }

  const DIB_LIMIT: nat := 0x1_0000  // a distance field has 16 bits

  /** The carried distance and every stored one fit their fields. */
  ghost predicate Narrow<K, V>(b: seq<Bucket<K, V>>, e: Bucket<K, V>) {
    e.dib < DIB_LIMIT && forall j :: 0 <= j < |b| ==> b[j].dib < DIB_LIMIT
  }

  /** All distances fit at every step of a walk, whether it compares keys or not. */
  ghost predicate NarrowWalk<K, V>(b: seq<Bucket<K, V>>, e: Bucket<K, V>, i: nat, hole: nat, compare: bool)
    requires i < |b| && hole < |b| && b[hole].dib == 0
    decreases Dist(i, hole, |b|)
  {
    Narrow(b, e) &&
    if b[i].dib == 0 || (compare && SameKey(e, b[i])) then true
    else if b[i].dib < e.dib then NarrowWalk(b[i := e], b[i].(dib := b[i].dib + 1), Next(i, |b|), hole, compare)
    else NarrowWalk(b, e.(dib := e.dib + 1), Next(i, |b|), hole, compare)
  }

  /** An entry whose key the table does not hold needs no comparison: rehashing it is inserting it. */
  lemma {:induction false} RehashFromIsUpdate<K, V>(b: seq<Bucket<K, V>>, h: K -> nat, m: map<K, V>, e: Bucket<K, V>,
                                                    i: nat, hole: nat)
    requires Carrying(b, h, m, e, i, hole) && e.key !in m
    ensures var c := RehashFrom(b, e, i, hole);
      |c| == |b| && IsTable(c, h, m[e.key := e.value])
    decreases Dist(i, hole, |b|)
  {
    if b[i].dib == 0 {
      CarryFill(b, h, m, e, i, hole);
    } else if b[i].dib < e.dib {
      var m' := CarrySwap(b, h, m, e, i, hole);
      RehashFromIsUpdate(b[i := e], h, m', b[i].(dib := b[i].dib + 1), Next(i, |b|), hole);
    } else {
      CarryPast(b, h, m, e, i, hole);
      RehashFromIsUpdate(b, h, m, e.(dib := e.dib + 1), Next(i, |b|), hole);
    }
  }

  /** Once the carried key is known to be absent, comparing keys makes no difference any more. */
  lemma {:induction false} AbsentInsertIsRehash<K, V>(b: seq<Bucket<K, V>>, h: K -> nat, m: map<K, V>, e: Bucket<K, V>,
                                                      i: nat, hole: nat)
    requires Carrying(b, h, m, e, i, hole) && e.key !in m
    ensures InsertFrom(b, e, i, hole) == Outcome(RehashFrom(b, e, i, hole), None)
    decreases Dist(i, hole, |b|)
  {
    if b[i].dib == 0 {
    } else if b[i].dib < e.dib {
      var m' := CarrySwap(b, h, m, e, i, hole);
      AbsentInsertIsRehash(b[i := e], h, m', b[i].(dib := b[i].dib + 1), Next(i, |b|), hole);
    } else {
      CarryPast(b, h, m, e, i, hole);
      AbsentInsertIsRehash(b, h, m, e.(dib := e.dib + 1), Next(i, |b|), hole);
    }
  }

  lemma MissedOn<K, V>(b: seq<Bucket<K, V>>, h: K -> nat, m: map<K, V>, e: Bucket<K, V>, i: nat, hole: nat)
    requires Carrying(b, h, m, e, i, hole) && Missed(b, Home(e.hash, |b|), e.dib - 1, e.key)
    requires b[i].dib >= e.dib && !SameKey(e, b[i])
    ensures e.dib < |b| && Missed(b, Home(e.hash, |b|), e.dib, e.key)
  {
    assert b[i].key != e.key;
  }

  lemma StoppedBefore<K, V>(b: seq<Bucket<K, V>>, h: K -> nat, m: map<K, V>, e: Bucket<K, V>, i: nat, hole: nat)
    requires Carrying(b, h, m, e, i, hole) && Missed(b, Home(e.hash, |b|), e.dib - 1, e.key)
    requires b[i].dib < e.dib
    ensures e.key !in m
  {
    Absent(b, h, e.key, e.dib - 1);
  }

  /** Before the first exchange: an existing key is met now or later, never after an exchange. */
  lemma {:induction false} InsertFromIsUpdate<K, V>(b: seq<Bucket<K, V>>, h: K -> nat, m: map<K, V>, e: Bucket<K, V>,
                                                    i: nat, hole: nat)
    returns (c: seq<Bucket<K, V>>)
    requires Carrying(b, h, m, e, i, hole) && Missed(b, Home(e.hash, |b|), e.dib - 1, e.key)
    ensures InsertFrom(b, e, i, hole) == Outcome(c, if e.key in m then Some(m[e.key]) else None)
    ensures |c| == |b| && IsTable(c, h, m[e.key := e.value])
    decreases Dist(i, hole, |b|)
  {
    hide IsTable;
    if b[i].dib < e.dib {
      StoppedBefore(b, h, m, e, i, hole);
      AbsentInsertIsRehash(b, h, m, e, i, hole);
      RehashFromIsUpdate(b, h, m, e, i, hole);
      c := RehashFrom(b, e, i, hole);
    } else if SameKey(e, b[i]) {
      ReplaceKeepsAll(b, h, m, e, i);
      c := b[i := b[i].(key := e.key, value := e.value)];
    } else {
      CarryPast(b, h, m, e, i, hole);
      MissedOn(b, h, m, e, i, hole);
      c := InsertFromIsUpdate(b, h, m, e.(dib := e.dib + 1), Next(i, |b|), hole);
    }
  }

  /** Insert is map update, whatever chain of exchanges it sets off. */
  lemma InsertIsUpdate<K, V>(b: seq<Bucket<K, V>>, m: map<K, V>, h: K -> nat, k: K, v: V, hole: nat)
    requires |b| >= 2 && IsTable(b, h, m) && hole < |b| && b[hole].dib == 0
    ensures var o := InsertFrom(b, Bucket(Clip(h(k)), 1, k, v), Home(Clip(h(k)), |b|), hole);
      |o.table| == |b| && IsTable(o.table, h, m[k := v]) &&
      o.replaced == if k in m then Some(m[k]) else None
  {
    var c := InsertFromIsUpdate(b, h, m, Bucket(Clip(h(k)), 1, k, v), Home(Clip(h(k)), |b|), hole);
  }

  lemma RehashIsUpdate<K, V>(b: seq<Bucket<K, V>>, m: map<K, V>, h: K -> nat, e: Bucket<K, V>, hole: nat)
    requires |b| >= 2 && IsTable(b, h, m) && hole < |b| && b[hole].dib == 0
    requires e.dib == 1 && e.hash == Clip(h(e.key)) && e.key !in m
    ensures var c := RehashFrom(b, e, Home(e.hash, |b|), hole);
      |c| == |b| && IsTable(c, h, m[e.key := e.value])
  {
    RehashFromIsUpdate(b, h, m, e, Home(e.hash, |b|), hole);
  }

  /** The count of a map is the size of the finite map it stands for. */
  lemma {:induction false} CountIsSize<K, V>(b: seq<Bucket<K, V>>, m: map<K, V>)
    requires UniqueKeys(b) && Represents(b, m)
    ensures |Occupied(b)| == |m|
    decreases |Occupied(b)|
  {
    if k :| k in m {
      var j :| 0 <= j < |b| && b[j].dib > 0 && b[j].key == k;
      assert j in Occupied(b);
    }
    if i :| i in Occupied(b) {
      var c := b[i := b[i].(dib := 0)];
      RemoveKeepsKeys(b, i, m);
      assert |m.Keys - {b[i].key}| == |m| - 1;
      assert (m - {b[i].key}).Keys == m.Keys - {b[i].key};
      CountIsSize(c, m - {b[i].key});
    }
  }

  /** The carried distance is one more than the entries at most, so it fits wherever the stored ones do. */
  lemma CarriedDibAtMostCount<K, V>(b: seq<Bucket<K, V>>, h: K -> nat, m: map<K, V>, e: Bucket<K, V>, i: nat, hole: nat)
    requires Carrying(b, h, m, e, i, hole)
    ensures e.dib <= |m| + 1 && forall j :: 0 <= j < |b| ==> b[j].dib <= |m|
  {
    CountIsSize(b, m);
    forall j: nat | j < |b| ensures b[j].dib <= |m| {
      DibAtMostCount(b, j);
    }
  }

  /** Once the carried key is absent: every step of the walk is a state of an insertion, so every distance fits. */
  lemma {:induction false} AbsentWalkIsNarrow<K, V>(b: seq<Bucket<K, V>>, h: K -> nat, m: map<K, V>, e: Bucket<K, V>,
                                                    i: nat, hole: nat, compare: bool)
    requires Carrying(b, h, m, e, i, hole) && e.key !in m && |m| + 1 < DIB_LIMIT
    ensures NarrowWalk(b, e, i, hole, compare)
    decreases Dist(i, hole, |b|)
  {
    CarriedDibAtMostCount(b, h, m, e, i, hole);
    if b[i].dib == 0 {
    } else if b[i].dib < e.dib {
      var m' := CarrySwap(b, h, m, e, i, hole);
      SizeAfterSet(m, e.key, e.value);
      SizeAfterSet(m', b[i].key, b[i].value);
      AbsentWalkIsNarrow(b[i := e], h, m', b[i].(dib := b[i].dib + 1), Next(i, |b|), hole, compare);
    } else {
      CarryPast(b, h, m, e, i, hole);
      AbsentWalkIsNarrow(b, h, m, e.(dib := e.dib + 1), Next(i, |b|), hole, compare);
    }
  }

  lemma {:induction false} InsertWalkIsNarrow<K, V>(b: seq<Bucket<K, V>>, h: K -> nat, m: map<K, V>, e: Bucket<K, V>,
                                                    i: nat, hole: nat)
    requires Carrying(b, h, m, e, i, hole) && Missed(b, Home(e.hash, |b|), e.dib - 1, e.key) && |m| + 1 < DIB_LIMIT
    ensures NarrowWalk(b, e, i, hole, true)
    decreases Dist(i, hole, |b|)
  {
    hide IsTable;
    CarriedDibAtMostCount(b, h, m, e, i, hole);
    if b[i].dib < e.dib {
      StoppedBefore(b, h, m, e, i, hole);
      AbsentWalkIsNarrow(b, h, m, e, i, hole, true);
    } else if !SameKey(e, b[i]) {
      CarryPast(b, h, m, e, i, hole);
      MissedOn(b, h, m, e, i, hole);
      InsertWalkIsNarrow(b, h, m, e.(dib := e.dib + 1), Next(i, |b|), hole);
    }
  }

  /** In tables of up to 2^16 buckets no distance outgrows its 16 bits, at any step of any insertion. */
  lemma InsertFits<K, V>(b: seq<Bucket<K, V>>, m: map<K, V>, h: K -> nat, k: K, v: V, hole: nat)
    requires 2 <= |b| <= DIB_LIMIT && IsTable(b, h, m) && hole < |b| && b[hole].dib == 0 && |m| + 1 < |b|
    ensures NarrowWalk(b, Bucket(Clip(h(k)), 1, k, v), Home(Clip(h(k)), |b|), hole, true)
  {
    InsertWalkIsNarrow(b, h, m, Bucket(Clip(h(k)), 1, k, v), Home(Clip(h(k)), |b|), hole);
  }

  /** The same for every entry that a rehash moves. */
  lemma RehashFits<K, V>(b: seq<Bucket<K, V>>, m: map<K, V>, h: K -> nat, e: Bucket<K, V>, hole: nat)
    requires 2 <= |b| <= DIB_LIMIT && IsTable(b, h, m) && hole < |b| && b[hole].dib == 0 && |m| + 1 < |b|
    requires e.dib == 1 && e.hash == Clip(h(e.key)) && e.key !in m
    ensures NarrowWalk(b, e, Home(e.hash, |b|), hole, false)
  {
    AbsentWalkIsNarrow(b, h, m, e, Home(e.hash, |b|), hole, false);
  }

  lemma SizeAfterSet<K, V>(m: map<K, V>, k: K, v: V)
    ensures |m[k := v]| == if k in m then |m| else |m| + 1
  {
    assert m[k := v].Keys == m.Keys + {k};
    assert k in m ==> m.Keys + {k} == m.Keys;
  }

  lemma SizeAfterRemoval<K, V>(m: map<K, V>, k: K)
    requires k in m
    ensures |m - {k}| == |m| - 1
  {
    assert (m - {k}).Keys == m.Keys - {k};
  }

  lemma EmptyTable<K, V>(b: seq<Bucket<K, V>>, h: K -> nat)
    requires forall i :: 0 <= i < |b| ==> b[i].dib == 0
    ensures IsTable(b, h, map[])
  {
  }

  lemma EmptyPrefix<K, V>(b: seq<Bucket<K, V>>)
    ensures RepresentsPrefix(b, 0, map[])
  {
  }

  lemma FindHole<K, V>(b: seq<Bucket<K, V>>, h: K -> nat, m: map<K, V>) returns (hole: nat)
    requires IsTable(b, h, m) && |m| < |b|
    ensures hole < |b| && b[hole].dib == 0
  {
    CountIsSize(b, m);
    hole := SomeIsMissing(Occupied(b), |b|);
  }

  // ---------------------------------------------------------------- deleting

  /** Emptying the bucket of a key. */
  lemma RemoveKeepsKeys<K, V>(b: seq<Bucket<K, V>>, i: nat, m: map<K, V>)
    requires UniqueKeys(b) && Represents(b, m) && i < |b| && b[i].dib > 0
    ensures var c := b[i := b[i].(dib := 0)];
      UniqueKeys(c) && Represents(c, m - {b[i].key}) && Occupied(c) == Occupied(b) - {i}
  {
    var c := b[i := b[i].(dib := 0)];
    forall k | k in m - {b[i].key} ensures HasKey(c, k) {
      var j :| 0 <= j < |b| && b[j].dib > 0 && b[j].key == k;
      assert c[j] == b[j];
    }
  }

  /**
    A table with a hole left by a deletion: like Ordered, except that the bucket after the hole is
    compared with the one before it.
   */
  ghost predicate OrderedAround<K, V>(b: seq<Bucket<K, V>>, hole: nat) {
    hole < |b| && b[hole].dib == 0 &&
    (forall i: nat :: i < |b| && i != hole ==> b[Next(i, |b|)].dib <= b[i].dib + 1) &&
    b[Next(hole, |b|)].dib <= b[Prev(hole, |b|)].dib + 2
  }

  /** Emptying any bucket leaves a table with a hole there. */
  lemma DigHole<K, V>(b: seq<Bucket<K, V>>, i: nat)
    requires HomeSlots(b) && Ordered(b) && i < |b| && |b| >= 3
    ensures var c := b[i := b[i].(dib := 0)]; HomeSlots(c) && OrderedAround(c, i)
  {
    var c, n := b[i := b[i].(dib := 0)], |b|;
    assert b[Next(i, n)].dib <= b[i].dib + 1;
    assert b[Next(Prev(i, n), n)].dib <= b[Prev(i, n)].dib + 1;
    forall j: nat | j < n && j != i ensures c[Next(j, n)].dib <= c[j].dib + 1 {
      assert b[Next(j, n)].dib <= b[j].dib + 1;
    }
  }

  /** The table after the entry behind the hole has moved one step back into it. */
  ghost function ShiftBack<K, V>(b: seq<Bucket<K, V>>, hole: nat): seq<Bucket<K, V>>
    requires hole < |b| && b[Next(hole, |b|)].dib > 1
  {
    var j := Next(hole, |b|);
    b[hole := b[j].(dib := b[j].dib - 1)][j := b[j].(dib := 0)]
  }

  /** One round of the backward shift: the hole moves on, nothing is lost, every entry stays placed. */
  lemma ShiftKeepsShape<K, V>(b: seq<Bucket<K, V>>, hole: nat)
    requires HomeSlots(b) && OrderedAround(b, hole) && |b| >= 3 && b[Next(hole, |b|)].dib > 1
    ensures HomeSlots(ShiftBack(b, hole)) && OrderedAround(ShiftBack(b, hole), Next(hole, |b|))
  {
    var c, n, j := ShiftBack(b, hole), |b|, Next(hole, |b|);
    assert Placed(b[j], j, n);
    assert Placed(c[hole], hole, n);
    assert b[Next(j, n)].dib <= b[j].dib + 1;
    forall i: nat | i < n && i != j ensures c[Next(i, n)].dib <= c[i].dib + 1 {
      if Next(i, n) == hole { assert i == Prev(hole, n); }
    }
  }

  /** What a round of the backward shift leaves in each bucket. */
  lemma ShiftMoves<K, V>(b: seq<Bucket<K, V>>, hole: nat)
    requires hole < |b| && |b| >= 2 && b[Next(hole, |b|)].dib > 1
    ensures var c, j := ShiftBack(b, hole), Next(hole, |b|);
      |c| == |b| && hole != j && c[j].dib == 0 && c[hole] == b[j].(dib := b[j].dib - 1) &&
      forall x :: 0 <= x < |b| && x != hole && x != j ==> c[x] == b[x]
  {
  }

  /** Neither the items nor their number change. */
  lemma ShiftKeepsKeys<K, V>(b: seq<Bucket<K, V>>, h: K -> nat, hole: nat, m: map<K, V>)
    requires Hashed(b, h) && UniqueKeys(b) && Represents(b, m)
    requires hole < |b| && b[hole].dib == 0 && |b| >= 2 && b[Next(hole, |b|)].dib > 1
    ensures var c := ShiftBack(b, hole);
      Hashed(c, h) && UniqueKeys(c) && Represents(c, m) && |Occupied(c)| == |Occupied(b)|
  {
    hide Occupied;
    var c := ShiftBack(b, hole);
    ShiftKeepsItems(b, h, hole, m);
    CountIsSize(b, m);
    CountIsSize(c, m);
  }

  lemma ShiftKeepsItems<K, V>(b: seq<Bucket<K, V>>, h: K -> nat, hole: nat, m: map<K, V>)
    requires Hashed(b, h) && UniqueKeys(b) && Represents(b, m)
    requires hole < |b| && b[hole].dib == 0 && |b| >= 2 && b[Next(hole, |b|)].dib > 1
    ensures var c := ShiftBack(b, hole); Hashed(c, h) && UniqueKeys(c) && Represents(c, m)
  {
    hide ShiftBack;
    var c, j := ShiftBack(b, hole), Next(hole, |b|);
    ShiftMoves(b, hole);
    forall k | k in m ensures HasKey(c, k) {
      var i :| 0 <= i < |b| && b[i].dib > 0 && b[i].key == k;
      assert if i == j then c[hole].key == k else c[i] == b[i];
    }
  }

  /** Once the bucket behind the hole is empty or at home, the hole is an ordinary empty bucket. */
  lemma HoleCloses<K, V>(b: seq<Bucket<K, V>>, hole: nat)
    requires OrderedAround(b, hole) && b[Next(hole, |b|)].dib <= 1
    ensures Ordered(b)
  {
  }

  /** The backward-shift loop as a function; `stop` is an empty bucket beyond the hole at `i`. */
  ghost function CloseGap<K, V>(b: seq<Bucket<K, V>>, i: nat, stop: nat): seq<Bucket<K, V>>
    requires i < |b| && stop < |b| && i != stop && b[stop].dib == 0
    decreases Dist(i, stop, |b|)
  {
    if b[Next(i, |b|)].dib <= 1 then b else CloseGap(ShiftBack(b, i), Next(i, |b|), stop)
  }

  lemma CloseGapStep<K, V>(b: seq<Bucket<K, V>>, i: nat, stop: nat)
    requires i < |b| && stop < |b| && i != stop && b[stop].dib == 0
    ensures b[Next(i, |b|)].dib <= 1 ==> CloseGap(b, i, stop) == b
    ensures b[Next(i, |b|)].dib > 1 ==>
      Next(i, |b|) != stop && Dist(Next(i, |b|), stop, |b|) < Dist(i, stop, |b|) && ShiftBack(b, i)[stop].dib == 0 &&
      CloseGap(b, i, stop) == CloseGap(ShiftBack(b, i), Next(i, |b|), stop)
  {
  }

  lemma {:induction false} CloseGapKeepsAll<K, V>(b: seq<Bucket<K, V>>, h: K -> nat, m: map<K, V>, i: nat, stop: nat)
    requires |b| >= 3 && HomeSlots(b) && OrderedAround(b, i) && Hashed(b, h) && UniqueKeys(b) && Represents(b, m)
    requires stop < |b| && i != stop && b[stop].dib == 0
    ensures var c := CloseGap(b, i, stop); |c| == |b| && IsTable(c, h, m)
    decreases Dist(i, stop, |b|)
  {
    if b[Next(i, |b|)].dib <= 1 {
      HoleCloses(b, i);
    } else {
      ShiftKeepsShape(b, i);
      ShiftKeepsKeys(b, h, i, m);
      CloseGapKeepsAll(ShiftBack(b, i), h, m, Next(i, |b|), stop);
    }
  }

  /** Delete is map removal: emptying the bucket of a key and shifting back loses that key only. */
  lemma DeleteIsRemoval<K, V>(b: seq<Bucket<K, V>>, h: K -> nat, m: map<K, V>, i: nat, stop: nat)
    requires |b| >= 3 && IsTable(b, h, m)
    requires i < |b| && b[i].dib > 0 && stop < |b| && b[stop].dib == 0
    ensures var c := CloseGap(b[i := b[i].(dib := 0)], i, stop);
      |c| == |b| && IsTable(c, h, m - {b[i].key})
  {
    DigHole(b, i);
    RemoveKeepsKeys(b, i, m);
    CloseGapKeepsAll(b[i := b[i].(dib := 0)], h, m - {b[i].key}, i, stop);
  }

  // ---------------------------------------------------------------- moving to another table

  /** `m` is the part of the map that the first `i` buckets of `b` hold. */
  ghost predicate RepresentsPrefix<K, V>(b: seq<Bucket<K, V>>, i: nat, m: map<K, V>)
    requires i <= |b|
  {
    Represents(b[..i], m)
  }

  /** A key met in the walk over all buckets has not been met before. */
  lemma NotBefore<K, V>(b: seq<Bucket<K, V>>, i: nat, m: map<K, V>)
    requires i < |b| && UniqueKeys(b) && RepresentsPrefix(b, i, m) && b[i].dib > 0
    ensures b[i].key !in m
  {
    assert forall j :: 0 <= j < i ==> b[..i][j] == b[j];
  }

  lemma PrefixGrows<K, V>(b: seq<Bucket<K, V>>, h: K -> nat, i: nat, m: map<K, V>, all: map<K, V>)
    requires i < |b| && IsTable(b, h, all) && RepresentsPrefix(b, i, m)
    ensures b[i].dib == 0 ==> RepresentsPrefix(b, i + 1, m)
    ensures b[i].dib > 0 ==> b[i].key !in m && RepresentsPrefix(b, i + 1, m[b[i].key := b[i].value])
    ensures b[i].dib > 0 ==> b[i].hash == Clip(h(b[i].key))
  {
    hide HomeSlots, Ordered, UniqueKeys;
    if b[i].dib > 0 {
      NotBefore(b, i, m);
    }
    var m' := if b[i].dib == 0 then m else m[b[i].key := b[i].value];
    assert forall j :: 0 <= j < i ==> b[..i + 1][j] == b[..i][j];
    forall k | k in m' ensures HasKey(b[..i + 1], k) {
      if k in m {
        var j :| 0 <= j < i && b[..i][j].dib > 0 && b[..i][j].key == k;
        assert b[..i + 1][j] == b[j];
      } else {
        assert b[..i + 1][i] == b[i];
      }
    }
  }

  lemma PrefixWithin<K, V>(b: seq<Bucket<K, V>>, h: K -> nat, i: nat, m: map<K, V>, all: map<K, V>)
    requires i <= |b| && RepresentsPrefix(b, i, m) && IsTable(b, h, all)
    ensures |m| <= |all| && (i == |b| ==> m == all)
  {
    forall k | k in m ensures k in all && m[k] == all[k] {
      var j :| 0 <= j < i && b[..i][j].dib > 0 && b[..i][j].key == k;
      assert b[j] == b[..i][j];
    }
    SubsetSize(m.Keys, all.Keys);
    if i == |b| {
      assert b[..i] == b;
    }
  }

  /** While an entry is still to be moved, fewer than all have been. */
  lemma RoomForOneMore<K, V>(b: seq<Bucket<K, V>>, h: K -> nat, i: nat, m: map<K, V>, all: map<K, V>)
    requires i < |b| && b[i].dib > 0 && RepresentsPrefix(b, i, m) && IsTable(b, h, all)
    ensures |m| + 1 <= |all|
  {
    hide IsTable, RepresentsPrefix;
    PrefixGrows(b, h, i, m, all);
    PrefixWithin(b, h, i + 1, m[b[i].key := b[i].value], all);
    SizeAfterSet(m, b[i].key, b[i].value);
  }

  // ---------------------------------------------------------------- iterating

  /** The items met by walking over the buckets from `i` on. */
  ghost function ItemsFrom<K, V>(b: seq<Bucket<K, V>>, i: nat): seq<(K, V)>
    decreases |b| - i
  {
    if i >= |b| then []
    else if b[i].dib > 0 then [(b[i].key, b[i].value)] + ItemsFrom(b, i + 1)
    else ItemsFrom(b, i + 1)
  }

  ghost predicate HeldFrom<K, V>(b: seq<Bucket<K, V>>, i: nat, item: (K, V)) {
    exists j :: i <= j < |b| && b[j].dib > 0 && b[j].key == item.0 && b[j].value == item.1
  }

  lemma {:induction false} ItemsAreHeld<K, V>(b: seq<Bucket<K, V>>, i: nat)
    ensures forall item :: item in ItemsFrom(b, i) <==> HeldFrom(b, i, item)
    ensures |ItemsFrom(b, i)| == |set j | i <= j < |b| && j in Occupied(b)|
    decreases |b| - i
  {
    if i < |b| {
      ItemsAreHeld(b, i + 1);
      var rest := set j | i + 1 <= j < |b| && j in Occupied(b);
      assert (set j | i <= j < |b| && j in Occupied(b)) == if b[i].dib > 0 then rest + {i} else rest;
      assert forall item :: HeldFrom(b, i, item) <==>
        HeldFrom(b, i + 1, item) || (b[i].dib > 0 && item == (b[i].key, b[i].value));
    } else {
      assert (set j | i <= j < |b| && j in Occupied(b)) == {};
    }
  }

  lemma {:induction false} ItemsAreDistinct<K, V>(b: seq<Bucket<K, V>>, i: nat)
    requires UniqueKeys(b)
    ensures forall s, t :: 0 <= s < t < |ItemsFrom(b, i)| ==> ItemsFrom(b, i)[s].0 != ItemsFrom(b, i)[t].0
    decreases |b| - i
  {
    if i < |b| {
      ItemsAreDistinct(b, i + 1);
      ItemsAreHeld(b, i + 1);
      var rest := ItemsFrom(b, i + 1);
      forall t | 0 <= t < |rest| && b[i].dib > 0 ensures rest[t].0 != b[i].key {
        assert rest[t] in rest && HeldFrom(b, i + 1, rest[t]);
        var j :| i + 1 <= j < |b| && b[j].dib > 0 && b[j].key == rest[t].0 && b[j].value == rest[t].1;
      }
    }
  }

  /** Walking over all buckets meets exactly the stored items, each once. */
  lemma IterationIsFaithful<K, V>(b: seq<Bucket<K, V>>, h: K -> nat, m: map<K, V>)
    requires IsTable(b, h, m)
    ensures |ItemsFrom(b, 0)| == |m|
    ensures forall s, t :: 0 <= s < t < |ItemsFrom(b, 0)| ==> ItemsFrom(b, 0)[s].0 != ItemsFrom(b, 0)[t].0
    ensures forall k, v :: (k, v) in ItemsFrom(b, 0) <==> k in m && m[k] == v
  {
    ItemsAreDistinct(b, 0);
    ItemsAreHeld(b, 0);
    CountIsSize(b, m);
    assert (set j | 0 <= j < |b| && j in Occupied(b)) == Occupied(b);
    forall k, v ensures HeldFrom(b, 0, (k, v)) <==> k in m && m[k] == v {
      if k in m && m[k] == v {
        var j :| 0 <= j < |b| && b[j].dib > 0 && b[j].key == k;
      }
    }
  }
}
