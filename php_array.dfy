/**
 * PHP arrays with string keys, as the admin screens use them for table
 * columns and settings tabs: an ordered list of entries whose keys are unique.
 * The operations are the ones the store-credit code applies to them:
 * `array_slice(..., true)`, the union operator `+` and `$a[$k] = $v`.
 */
module PhpArray {
  import opened PhpValues

  /** One key/value pair of an array. */
  datatype Entry<V> = Entry(key: string, value: V)

  /** The entries of an array in their iteration order. */
  type Assoc<V> = seq<Entry<V>>

  function KeySet<V>(a: Assoc<V>): set<string> {
    if a == [] then {} else {a[0].key} + KeySet(a[1..])
  }

  /** Every key occurs once, as in every PHP array. */
  predicate UniqueKeys<V>(a: Assoc<V>) {
    a == [] || (a[0].key !in KeySet(a[1..]) && UniqueKeys(a[1..]))
  }

  /** `$a[$k] ?? null`: the value stored under `k`. */
  function Get<V>(a: Assoc<V>, k: string): (r: Option<V>)
    ensures r.Some? <==> k in KeySet(a)
  {
    if a == [] then None
    else if a[0].key == k then Some(a[0].value)
    else Get(a[1..], k)
  }

  /** The entries of `a` whose key is not in `ks`, in their order. */
  function Without<V>(a: Assoc<V>, ks: set<string>): (r: Assoc<V>)
    ensures KeySet(r) == KeySet(a) - ks
    ensures |r| <= |a|
  {
    if a == [] then []
    else if a[0].key in ks then Without(a[1..], ks)
    else [a[0]] + Without(a[1..], ks)
  }

  /** `array_slice($a, 0, $n, true)`: the first `n` entries, or all of them. */
  function SliceTo<V>(a: Assoc<V>, n: nat): (r: Assoc<V>)
    ensures |r| == if n <= |a| then n else |a|
    ensures r + SliceFrom(a, n) == a
  {
    if n <= |a| then a[..n] else a
  }

  /** `array_slice($a, $n, null, true)`: everything after the first `n` entries. */
  function SliceFrom<V>(a: Assoc<V>, n: nat): (r: Assoc<V>) {
    if n <= |a| then a[n..] else []
  }

  /** `$a + $b`: all of `a`, then the entries of `b` whose key `a` lacks. */
  function Union<V>(a: Assoc<V>, b: Assoc<V>): (r: Assoc<V>)
    ensures KeySet(r) == KeySet(a) + KeySet(b)
  {
    KeySetAppend(a, Without(b, KeySet(a)));
    a + Without(b, KeySet(a))
  }

  /** `$a[$k] = $v`: overwrites the value in place when `k` is present, else appends. */
  function Put<V>(a: Assoc<V>, k: string, v: V): (r: Assoc<V>)
    ensures KeySet(r) == KeySet(a) + {k}
  {
    if a == [] then [Entry(k, v)]
    else if a[0].key == k then [Entry(k, v)] + a[1..]
    else [a[0]] + Put(a[1..], k, v)
  }

  lemma {:induction false} KeySetAppend<V>(a: Assoc<V>, b: Assoc<V>)
    ensures KeySet(a + b) == KeySet(a) + KeySet(b)
  {
    if a != [] {
      assert (a + b)[1..] == a[1..] + b;
      KeySetAppend(a[1..], b);
    } else {
      assert a + b == b;
    }
  }

  lemma {:induction false} UniqueKeysAppend<V>(a: Assoc<V>, b: Assoc<V>)
    ensures UniqueKeys(a + b) <==> UniqueKeys(a) && UniqueKeys(b) && KeySet(a) !! KeySet(b)
  {
    if a == [] {
      assert a + b == b;
    } else {
      assert (a + b)[1..] == a[1..] + b;
      UniqueKeysAppend(a[1..], b);
      KeySetAppend(a[1..], b);
    }
  }

  lemma {:induction false} WithoutAppend<V>(a: Assoc<V>, b: Assoc<V>, ks: set<string>)
    ensures Without(a + b, ks) == Without(a, ks) + Without(b, ks)
  {
    if a == [] {
      assert a + b == b;
    } else {
      assert (a + b)[1..] == a[1..] + b;
      WithoutAppend(a[1..], b, ks);
    }
  }

  /** Removing two key sets one after the other removes their union. */
  lemma {:induction false} WithoutTwice<V>(a: Assoc<V>, ks1: set<string>, ks2: set<string>)
    ensures Without(Without(a, ks1), ks2) == Without(a, ks1 + ks2)
  {
    if a != [] {
      WithoutTwice(a[1..], ks1, ks2);
      if a[0].key !in ks1 {
        assert ([a[0]] + Without(a[1..], ks1))[1..] == Without(a[1..], ks1);
      }
    }
  }

  /** Removing keys the array does not hold changes nothing. */
  lemma {:induction false} WithoutAbsent<V>(a: Assoc<V>, ks: set<string>)
    requires KeySet(a) !! ks
    ensures Without(a, ks) == a
  {
    if a != [] {
      WithoutAbsent(a[1..], ks);
    }
  }

  lemma {:induction false} WithoutUnique<V>(a: Assoc<V>, ks: set<string>)
    requires UniqueKeys(a)
    ensures UniqueKeys(Without(a, ks))
  {
    if a != [] {
      WithoutUnique(a[1..], ks);
      if a[0].key !in ks {
        assert ([a[0]] + Without(a[1..], ks))[1..] == Without(a[1..], ks);
      }
    }
  }

  /** Removing every key the array holds leaves nothing. */
  lemma {:induction false} WithoutAll<V>(a: Assoc<V>, ks: set<string>)
    requires KeySet(a) <= ks
    ensures Without(a, ks) == []
  {
    if a != [] {
      WithoutAll(a[1..], ks);
    }
  }

  /** Removing keys that cover the right operand of a union removes all it added. */
  lemma WithoutUnionCovered<V>(a: Assoc<V>, b: Assoc<V>, ks: set<string>)
    requires KeySet(b) <= ks
    ensures Without(Union(a, b), ks) == Without(a, ks)
  {
    WithoutUnion(a, b, ks);
    WithoutAll(b, KeySet(a) + ks);
  }

  /** Keys that `a` does not hold are irrelevant to `Without`. */
  lemma WithoutIrrelevant<V>(a: Assoc<V>, ks: set<string>, extra: set<string>)
    requires KeySet(a) !! extra
    ensures Without(a, ks + extra) == Without(a, ks)
  {
    WithoutTwice(a, extra, ks);
    WithoutAbsent(a, extra);
    assert extra + ks == ks + extra;
  }

  /** The union of two arrays is again an array: its keys are unique. */
  lemma UnionUnique<V>(a: Assoc<V>, b: Assoc<V>)
    requires UniqueKeys(a) && UniqueKeys(b)
    ensures UniqueKeys(Union(a, b))
  {
    WithoutUnique(b, KeySet(a));
    UniqueKeysAppend(a, Without(b, KeySet(a)));
  }

  /** With disjoint keys the union is concatenation. */
  lemma UnionDisjoint<V>(a: Assoc<V>, b: Assoc<V>)
    requires KeySet(a) !! KeySet(b)
    ensures Union(a, b) == a + b
  {
    WithoutAbsent(b, KeySet(a));
  }

  /** Removing keys from a union: the right operand also loses the left's keys. */
  lemma WithoutUnion<V>(a: Assoc<V>, b: Assoc<V>, ks: set<string>)
    ensures Without(Union(a, b), ks) == Without(a, ks) + Without(b, KeySet(a) + ks)
  {
    WithoutAppend(a, Without(b, KeySet(a)), ks);
    WithoutTwice(b, KeySet(a), ks);
  }

  /** After `$a[$k] = $v`, reading `k` yields `v`. */
  lemma {:induction false} GetPut<V>(a: Assoc<V>, k: string, v: V)
    ensures Get(Put(a, k, v), k) == Some(v)
  {
    if a != [] && a[0].key != k {
      GetPut(a[1..], k, v);
    }
  }

  /** `$a[$k] = $v` leaves every other key's value as it was. */
  lemma {:induction false} GetPutOther<V>(a: Assoc<V>, k: string, v: V, k': string)
    requires k' != k
    ensures Get(Put(a, k, v), k') == Get(a, k')
  {
    if a != [] && a[0].key != k {
      GetPutOther(a[1..], k, v, k');
    }
  }

  /** `$a[$k] = $v` keeps the other entries and their order. */
  lemma {:induction false} WithoutPut<V>(a: Assoc<V>, k: string, v: V)
    ensures Without(Put(a, k, v), {k}) == Without(a, {k})
  {
    if a != [] {
      if a[0].key == k {
        assert ([Entry(k, v)] + a[1..])[1..] == a[1..];
      } else {
        WithoutPut(a[1..], k, v);
        assert ([a[0]] + Put(a[1..], k, v))[1..] == Put(a[1..], k, v);
      }
    }
  }

  /** A new key is appended at the end; an existing one keeps its position. */
  lemma {:induction false} PutPosition<V>(a: Assoc<V>, k: string, v: V)
    ensures k !in KeySet(a) ==> Put(a, k, v) == a + [Entry(k, v)]
    ensures k in KeySet(a) ==> |Put(a, k, v)| == |a|
  {
    if a != [] && a[0].key != k {
      PutPosition(a[1..], k, v);
    }
  }

  lemma {:induction false} PutUnique<V>(a: Assoc<V>, k: string, v: V)
    requires UniqueKeys(a)
    ensures UniqueKeys(Put(a, k, v))
  {
    if a != [] {
      if a[0].key == k {
        assert ([Entry(k, v)] + a[1..])[1..] == a[1..];
      } else {
        PutUnique(a[1..], k, v);
        assert ([a[0]] + Put(a[1..], k, v))[1..] == Put(a[1..], k, v);
      }
    }
  }
}
