/**
 * An access-ordered hash map (`LinkedHashMap(..., accessOrder = true)`, which is also what
 * `android.util.LruCache` keeps): a map plus the order of its keys from least to most
 * recently used. Reading or writing a key moves it to the most-recent end; eviction takes
 * keys from the least-recent end.
 */
module AccessOrder {

  datatype LinkedMap<V> = LinkedMap(order: seq<string>, values: map<string, V>)

  /**
   * `order` lists the keys of `values`, each exactly once: its first key is a key of the
   * map, and the rest of the order lists the remaining keys.
   */
  ghost predicate KeysMatch<V>(order: seq<string>, values: map<string, V>)
    decreases |order|
  {
    if order == [] then values == map[]
    else order[0] in values && KeysMatch(order[1..], values - {order[0]})
  }

  ghost predicate Valid<V>(m: LinkedMap<V>) {
    KeysMatch(m.order, m.values)
  }

  lemma {:induction false} KeysMatchIn<V>(order: seq<string>, values: map<string, V>, k: string)
    requires KeysMatch(order, values)
    ensures k in order <==> k in values
    decreases |order|
  {
    if order != [] {
      KeysMatchIn(order[1..], values - {order[0]}, k);
    }
  }

  /** The keys of a valid map, in order, are exactly its keys. */
  lemma KeysAreOrder<V>(m: LinkedMap<V>)
    requires Valid(m)
    ensures forall k :: k in m.order <==> k in m.values
  {
    forall k ensures k in m.order <==> k in m.values {
      KeysMatchIn(m.order, m.values, k);
    }
  }

  /** No key occurs twice in the order of a valid map. */
  lemma {:induction false} KeysMatchDistinct<V>(order: seq<string>, values: map<string, V>, i: nat, j: nat)
    requires KeysMatch(order, values) && i < j < |order|
    ensures order[i] != order[j]
    decreases |order|
  {
    if i == 0 {
      KeysMatchIn(order[1..], values - {order[0]}, order[j]);
    } else {
      KeysMatchDistinct(order[1..], values - {order[0]}, i - 1, j - 1);
    }
  }

  function Empty<V>(): (m: LinkedMap<V>)
    ensures Valid(m) && m.order == [] && m.values == map[]
  {
    LinkedMap([], map[])
  }

  /** `s` with `k` taken out, the other keys in their order. */
  function Without(s: seq<string>, k: string): (r: seq<string>)
    ensures k !in s ==> r == s
    ensures k !in r
    ensures |r| <= |s|
  {
    if s == [] then []
    else if s[0] == k then Without(s[1..], k)
    else [s[0]] + Without(s[1..], k)
  }

  lemma {:induction false} WithoutKeeps(s: seq<string>, k: string, x: string)
    ensures x in Without(s, k) <==> x in s && x != k
  {
    if s != [] { WithoutKeeps(s[1..], k, x); }
  }

  lemma {:induction false} KeysMatchWithout<V>(order: seq<string>, values: map<string, V>, k: string)
    requires KeysMatch(order, values)
    ensures KeysMatch(Without(order, k), values - {k})
    decreases |order|
  {
    if order != [] {
      var a := order[0];
      KeysMatchWithout(order[1..], values - {a}, k);
      if a == k {
        KeysMatchIn(order[1..], values - {a}, k);
        assert values - {k} == values - {a};
      } else {
        assert values - {k} - {a} == values - {a} - {k};
      }
    } else {
      assert values - {k} == map[];
    }
  }

  lemma {:induction false} KeysMatchAppend<V>(order: seq<string>, values: map<string, V>, k: string, v: V)
    requires KeysMatch(order, values) && k !in values
    ensures KeysMatch(order + [k], values[k := v])
    decreases |order|
  {
    if order == [] {
      assert values[k := v] - {k} == map[];
      assert ([] + [k])[1..] == [];
    } else {
      var a := order[0];
      KeysMatchAppend(order[1..], values - {a}, k, v);
      assert (order + [k])[1..] == order[1..] + [k];
      assert values[k := v] - {a} == (values - {a})[k := v];
    }
  }

  /** `map.get(k)` in access order: reading a present key makes it the most recent. */
  function Touch<V>(m: LinkedMap<V>, k: string): (r: LinkedMap<V>)
    requires Valid(m)
    ensures Valid(r) && r.values == m.values
    ensures k in m.values ==> r.order == Without(m.order, k) + [k]
    ensures k !in m.values ==> r == m
  {
    if k in m.values then
      KeysMatchWithout(m.order, m.values, k);
      KeysMatchAppend(Without(m.order, k), m.values - {k}, k, m.values[k]);
      assert (m.values - {k})[k := m.values[k]] == m.values;
      LinkedMap(Without(m.order, k) + [k], m.values)
    else m
  }

  /** `map.put(k, v)`: the new value, and `k` becomes the most recent key. */
  function Put<V>(m: LinkedMap<V>, k: string, v: V): (r: LinkedMap<V>)
    requires Valid(m)
    ensures Valid(r) && r.values == m.values[k := v]
    ensures r.order == Without(m.order, k) + [k]
  {
    KeysMatchWithout(m.order, m.values, k);
    KeysMatchAppend(Without(m.order, k), m.values - {k}, k, v);
    assert (m.values - {k})[k := v] == m.values[k := v];
    LinkedMap(Without(m.order, k) + [k], m.values[k := v])
  }

  /** `map.remove(k)`. */
  function Remove<V>(m: LinkedMap<V>, k: string): (r: LinkedMap<V>)
    requires Valid(m)
    ensures Valid(r) && r.values == m.values - {k}
    ensures r.order == Without(m.order, k)
  {
    KeysMatchWithout(m.order, m.values, k);
    LinkedMap(Without(m.order, k), m.values - {k})
  }

  /** Removing the least recently used entry (the first one an iterator yields). */
  function RemoveEldest<V>(m: LinkedMap<V>): (r: LinkedMap<V>)
    requires Valid(m) && m.order != []
    ensures Valid(r) && r.order == m.order[1..]
    ensures m.order[0] in m.values && r.values == m.values - {m.order[0]}
  {
    LinkedMap(m.order[1..], m.values - {m.order[0]})
  }

  /** The summed cost of the entries listed in `keys` (a key without a value costs 0). */
  function Cost<V>(keys: seq<string>, values: map<string, V>, cost: V -> int): int
  {
    if keys == [] then 0
    else (if keys[0] in values then cost(values[keys[0]]) else 0) + Cost(keys[1..], values, cost)
  }

  lemma {:induction false} CostAppend<V>(a: seq<string>, b: seq<string>, values: map<string, V>, cost: V -> int)
    ensures Cost(a + b, values, cost) == Cost(a, values, cost) + Cost(b, values, cost)
  {
    if a != [] {
      assert (a + b)[1..] == a[1..] + b;
      CostAppend(a[1..], b, values, cost);
    } else {
      assert a + b == b;
    }
  }

  /** The cost of `keys` depends only on the values of those keys. */
  lemma {:induction false} CostFrame<V>(keys: seq<string>, values: map<string, V>, values': map<string, V>, cost: V -> int)
    requires forall i :: 0 <= i < |keys| ==> (keys[i] in values <==> keys[i] in values')
    requires forall i :: 0 <= i < |keys| && keys[i] in values ==> values[keys[i]] == values'[keys[i]]
    ensures Cost(keys, values, cost) == Cost(keys, values', cost)
  {
    if keys != [] {
      assert forall i :: 1 <= i < |keys| ==> keys[1..][i - 1] == keys[i];
      CostFrame(keys[1..], values, values', cost);
    }
  }

  /** Taking a key out of a valid order takes its cost out of the sum. */
  lemma {:induction false} CostWithout<V>(order: seq<string>, values: map<string, V>, k: string, cost: V -> int)
    requires KeysMatch(order, values)
    ensures Cost(Without(order, k), values, cost)
         == Cost(order, values, cost) - (if k in values then cost(values[k]) else 0)
    decreases |order|
  {
    if order == [] {
    } else {
      var a := order[0];
      KeysMatchIn(order[1..], values - {a}, k);
      if a == k {
        assert Without(order[1..], k) == order[1..];
      } else {
        CostWithout(order[1..], values - {a}, k, cost);
        KeysMatchIn(order[1..], values - {a}, a);
        WithoutKeeps(order[1..], k, a);
        assert Without(order, k)[1..] == Without(order[1..], k);
        CostFrameRemoved(Without(order[1..], k), values, a, cost);
        CostFrameRemoved(order[1..], values, a, cost);
      }
    }
  }

  /** Dropping a key the list does not mention leaves its cost alone. */
  lemma CostFrameRemoved<V>(keys: seq<string>, values: map<string, V>, a: string, cost: V -> int)
    requires a !in keys
    ensures Cost(keys, values - {a}, cost) == Cost(keys, values, cost)
  {
    CostFrame(keys, values - {a}, values, cost);
  }

  /** The cost sum after `Put` replaces the old value's cost by the new one's. */
  lemma CostPut<V>(m: LinkedMap<V>, k: string, v: V, cost: V -> int)
    requires Valid(m)
    ensures Cost(Put(m, k, v).order, Put(m, k, v).values, cost)
         == Cost(m.order, m.values, cost) - (if k in m.values then cost(m.values[k]) else 0) + cost(v)
  {
    var r := Put(m, k, v);
    var w := Without(m.order, k);
    CostAppend(w, [k], r.values, cost);
    CostFrame(w, r.values, m.values, cost);
    CostWithout(m.order, m.values, k, cost);
  }

  datatype TrimResult<V> = TrimResult(rest: LinkedMap<V>, total: int, evicted: seq<string>)

  /**
   * LRU trimming: while the running total exceeds `max` and entries remain, drop the least
   * recently used entry and subtract its cost.
   */
  function Trim<V>(m: LinkedMap<V>, total: int, max: int, cost: V -> int): (r: TrimResult<V>)
    requires Valid(m)
    ensures Valid(r.rest)
    ensures r.total <= max || r.rest.order == []
    decreases |m.order|
  {
    if total <= max || m.order == [] then TrimResult(m, total, [])
    else
      var k := m.order[0];
      var t := Trim(RemoveEldest(m), total - cost(m.values[k]), max, cost);
      TrimResult(t.rest, t.total, [k] + t.evicted)
  }

  /** Trimming takes a prefix of the order, least recently used first, and leaves the
      values of the remaining keys as they were. */
  lemma {:induction false} TrimTakesPrefix<V>(m: LinkedMap<V>, total: int, max: int, cost: V -> int)
    requires Valid(m)
    ensures Trim(m, total, max, cost).evicted + Trim(m, total, max, cost).rest.order == m.order
    ensures forall k :: k in Trim(m, total, max, cost).rest.values ==>
      k in m.values && Trim(m, total, max, cost).rest.values[k] == m.values[k]
    decreases |m.order|
  {
    if !(total <= max || m.order == []) {
      var k := m.order[0];
      var m' := RemoveEldest(m);
      var t := Trim(m', total - cost(m.values[k]), max, cost);
      TrimTakesPrefix(m', total - cost(m.values[k]), max, cost);
      assert [k] + t.evicted + t.rest.order == [k] + (t.evicted + t.rest.order);
    }
  }

  /** The total loses exactly the costs of the evicted entries. */
  lemma {:induction false} TrimTotal<V>(m: LinkedMap<V>, total: int, max: int, cost: V -> int)
    requires Valid(m)
    ensures Trim(m, total, max, cost).total == total - Cost(Trim(m, total, max, cost).evicted, m.values, cost)
    decreases |m.order|
  {
    if !(total <= max || m.order == []) {
      var k := m.order[0];
      var m' := RemoveEldest(m);
      var t := Trim(m', total - cost(m.values[k]), max, cost);
      TrimTotal(m', total - cost(m.values[k]), max, cost);
      TrimTakesPrefix(m', total - cost(m.values[k]), max, cost);
      KeysMatchIn(m'.order, m'.values, k);
      assert k !in t.evicted by {
        assert t.evicted + t.rest.order == m'.order;
      }
      CostFrameRemoved(t.evicted, m.values, k, cost);
      assert ([k] + t.evicted)[1..] == t.evicted;
    }
  }

  /** Trimming stops as soon as the total fits: before each eviction it was still above `max`. */
  lemma {:induction false} TrimStopsEarly<V>(m: LinkedMap<V>, total: int, max: int, cost: V -> int, i: nat)
    requires Valid(m)
    requires i < |Trim(m, total, max, cost).evicted|
    ensures total - Cost(Trim(m, total, max, cost).evicted[..i], m.values, cost) > max
    decreases |m.order|
  {
    var k := m.order[0];
    var m' := RemoveEldest(m);
    var rest := total - cost(m.values[k]);
    var t := Trim(m', rest, max, cost);
    var e := Trim(m, total, max, cost).evicted;
    assert e == [k] + t.evicted;
    if i > 0 {
      TrimStopsEarly(m', rest, max, cost, i - 1);
      EldestNotEvictedAgain(m, rest, max, cost, i - 1);
      CostFrameRemoved(t.evicted[..i - 1], m.values, k, cost);
      assert e[..i] == [k] + t.evicted[..i - 1];
      assert Cost(e[..i], m.values, cost) == cost(m.values[k]) + Cost(t.evicted[..i - 1], m.values, cost);
    }
  }

  /** The eldest key, once evicted, is not among the keys evicted after it. */
  lemma EldestNotEvictedAgain<V>(m: LinkedMap<V>, rest: int, max: int, cost: V -> int, j: nat)
    requires Valid(m) && m.order != []
    requires j <= |Trim(RemoveEldest(m), rest, max, cost).evicted|
    ensures m.order[0] !in Trim(RemoveEldest(m), rest, max, cost).evicted[..j]
  {
    var m' := RemoveEldest(m);
    var t := Trim(m', rest, max, cost);
    TrimTakesPrefix(m', rest, max, cost);
    KeysMatchIn(m'.order, m'.values, m.order[0]);
    assert t.evicted == t.evicted[..j] + t.evicted[j..];
    assert t.evicted + t.rest.order == m'.order;
  }

  /** When the running total is the cost of the entries, trimming keeps it so. */
  lemma {:induction false} TrimKeepsCost<V>(m: LinkedMap<V>, total: int, max: int, cost: V -> int)
    requires Valid(m) && total == Cost(m.order, m.values, cost)
    ensures var r := Trim(m, total, max, cost);
      r.total == Cost(r.rest.order, r.rest.values, cost)
  {
    var r := Trim(m, total, max, cost);
    TrimTakesPrefix(m, total, max, cost);
    TrimTotal(m, total, max, cost);
    CostAppend(r.evicted, r.rest.order, m.values, cost);
    KeysAreOrder(r.rest);
    CostFrame(r.rest.order, m.values, r.rest.values, cost);
  }
}
