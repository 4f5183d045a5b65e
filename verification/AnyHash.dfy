/**
  The map under hashes that its callers choose freely. Buckets are compared by hash first and by key only
  then, so an entry belongs to its clipped hash together with its key: such a map is one whose keys are pairs.
 */
module AnyHash {
  import opened Wrappers
  import opened RobinHood
  import opened HashMap

  type Pair<K> = (nat, K)

  /** The hash of a pair is its first component. */
  ghost predicate FromPair<K(!new)>(h: Pair<K> -> nat) {
    forall p :: h(p) == p.0
  }

  lemma ClipTwice(hv: nat)
    ensures Clip(Clip(hv)) == Clip(hv)
  {
    ClipIsRemainder(hv);
    ClipIsRemainder(Clip(hv));
    hide Clip;
  }

  /** hashmap_set_with_hash, for any hash. */
  method Set<K(==, 0, !new), V(0)>(m: HashMap<Pair<K>, V>, key: K, value: V, hv: nat, alloc: bool)
    returns (r: Option<V>)
    requires m.Valid() && FromPair(m.hash)
    modifies m, m.buckets
    ensures m.Valid() && (m.buckets == old(m.buckets) || fresh(m.buckets))
    ensures m.oom == (old(m.count >= m.growat) && !alloc)
    ensures m.oom ==> r == None && m.contents == old(m.contents)
    ensures !m.oom ==> m.contents == old(m.contents)[(Clip(hv), key) := value]
    ensures !m.oom ==> r == if (Clip(hv), key) in old(m.contents) then Some(old(m.contents)[(Clip(hv), key)]) else None
  {
    hide IsTable, Clip;
    ClipTwice(hv);
    r := m.SetWithHash((Clip(hv), key), value, hv, alloc);
  }

  /** hashmap_get_with_hash, for any hash. */
  method Get<K(==, 0, !new), V(0)>(m: HashMap<Pair<K>, V>, key: K, hv: nat) returns (r: Option<V>)
    requires m.Valid() && FromPair(m.hash)
    ensures r == if (Clip(hv), key) in m.contents then Some(m.contents[(Clip(hv), key)]) else None
  {
    hide IsTable, Clip;
    ClipTwice(hv);
    r := m.GetWithHash((Clip(hv), key), hv);
  }

  /** hashmap_delete_with_hash, for any hash. */
  method Delete<K(==, 0, !new), V(0)>(m: HashMap<Pair<K>, V>, key: K, hv: nat, alloc: bool)
    returns (r: Option<V>)
    requires m.Valid() && FromPair(m.hash)
    modifies m, m.buckets
    ensures m.Valid() && (m.buckets == old(m.buckets) || fresh(m.buckets)) && !m.oom
    ensures m.contents == old(m.contents) - {(Clip(hv), key)}
    ensures r == if (Clip(hv), key) in old(m.contents) then Some(old(m.contents)[(Clip(hv), key)]) else None
  {
    hide IsTable, Clip;
    ClipTwice(hv);
    r := m.DeleteWithHash((Clip(hv), key), hv, alloc);
  }

  /** What the operations that compute the hash themselves, with the callback `h`, can see of such a map. */
  ghost function Seen<K, V>(m: map<Pair<K>, V>, h: K -> nat): map<K, V> {
    map p | p in m && p.0 == Clip(h(p.1)) :: p.1 := m[p]
  }

  /** They find a key exactly if it was entered under its own hash. */
  lemma SeenIsLookup<K, V>(m: map<Pair<K>, V>, h: K -> nat, k: K)
    ensures k in Seen(m, h) <==> (Clip(h(k)), k) in m
    ensures k in Seen(m, h) ==> Seen(m, h)[k] == m[(Clip(h(k)), k)]
  {
    hide Clip;
    if (Clip(h(k)), k) in m {
      assert (Clip(h(k)), k).1 in Seen(m, h);
    }
  }

  /** Under the hash of the callback an update is seen, under any other hash it is not. */
  lemma SeenUpdate<K, V>(m: map<Pair<K>, V>, h: K -> nat, k: K, v: V, c: nat)
    ensures c == Clip(h(k)) ==> Seen(m[(c, k) := v], h) == Seen(m, h)[k := v]
    ensures c != Clip(h(k)) ==> Seen(m[(c, k) := v], h) == Seen(m, h)
  {
    hide Clip;
  }

  function Lookup<K, V>(m: map<K, V>, k: K): Option<V> {
    if k in m then Some(m[k]) else None
  }

  /**
    To set with a given hash works like hashmap_set, leaving the same entries and returning the same item, if
    and only if the hash agrees with the callback's in the 48 bits that are kept, or the item was there already
    under both. What hashmap_get sees and what is returned differ in all other cases, too.
   */
  lemma WorksLikeSet<K, V>(m: map<Pair<K>, V>, h: K -> nat, k: K, v: V, hv: nat)
    ensures var given, own := (Clip(hv), k), (Clip(h(k)), k);
      var there := own in m && m[own] == v && given in m && m[given] == v;
      (m[given := v] == m[own := v] && Lookup(m, given) == Lookup(m, own) <==> given == own || there) &&
      (Seen(m[given := v], h) == Seen(m, h)[k := v] && Lookup(m, given) == Lookup(Seen(m, h), k) <==>
        given == own || there)
  {
    hide Clip, Seen;
    var given, own := (Clip(hv), k), (Clip(h(k)), k);
    SeenUpdate(m, h, k, v, Clip(hv));
    SeenIsLookup(m, h, k);
    if m[given := v] == m[own := v] && given != own {
      assert m[given := v][own] == m[own := v][own];
      assert m[given := v][given] == m[own := v][given];
    }
    if own in m && m[own] == v && given in m && m[given] == v {
      assert m[given := v] == m == m[own := v];
    }
  }

  /**
    Without the reply and the entries that hashmap_get does not see, the condition would be wider: an item
    that is there under its own hash only is added a second time, unnoticed.
   */
  lemma SecondEntry<K, V>(h: K -> nat, k: K, v: V, hv: nat)
    requires Clip(hv) != Clip(h(k))
    ensures var m: map<Pair<K>, V> := map[(Clip(h(k)), k) := v];
      var after := m[(Clip(hv), k) := v];
      Seen(after, h) == Seen(m, h)[k := v] && Lookup(m, (Clip(hv), k)) == None && |after| == 2
  {
    hide Clip;
    var m: map<Pair<K>, V> := map[(Clip(h(k)), k) := v];
    SeenUpdate(m, h, k, v, Clip(hv));
    SeenIsLookup(m, h, k);
    assert Seen(m, h)[k := v] == Seen(m, h);
    assert |m| == 1;
    SizeAfterSet(m, (Clip(hv), k), v);
  }

  /** To delete with a given hash works like hashmap_delete if and only if it is the own one, or neither is there. */
  lemma WorksLikeDelete<K, V>(m: map<Pair<K>, V>, h: K -> nat, k: K, hv: nat)
    ensures var given, own := (Clip(hv), k), (Clip(h(k)), k);
      m - {given} == m - {own} && Lookup(m, given) == Lookup(m, own) <==> given == own || (given !in m && own !in m)
  {
    hide Clip;
    var given, own := (Clip(hv), k), (Clip(h(k)), k);
    if given !in m && own !in m {
      assert m - {given} == m == m - {own};
    } else if given != own {
      assert given in m ==> given in m - {own} && given !in m - {given};
      assert own in m ==> own in m - {given} && own !in m - {own};
    }
  }
}
