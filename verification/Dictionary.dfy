/** Dictionaries that remember the order in which their keys came in. */
module Dictionary {
  import opened Text

  datatype Item<V> = Item(key: string, value: V)

  type Dict<V> = seq<Item<V>>

  predicate Has<V>(d: Dict<V>, key: string) {
    d != [] && (d[0].key == key || Has(d[1..], key))
  }

  /** No key twice. */
  predicate Unique<V>(d: Dict<V>) {
    d == [] || (!Has(d[1..], d[0].key) && Unique(d[1..]))
  }

  function Get<V>(d: Dict<V>, key: string): Option<V> {
    if d == [] then None
    else if d[0].key == key then Some(d[0].value)
    else Get(d[1..], key)
  }

  /** A new key goes to the end, an old one keeps its place. */
  function Put<V>(d: Dict<V>, key: string, value: V): Dict<V> {
    if d == [] then [Item(key, value)]
    else if d[0].key == key then [Item(key, value)] + d[1..]
    else [d[0]] + Put(d[1..], key, value)
  }

  function Delete<V>(d: Dict<V>, key: string): Dict<V> {
    if d == [] then []
    else if d[0].key == key then Delete(d[1..], key)
    else [d[0]] + Delete(d[1..], key)
  }

  function Keys<V>(d: Dict<V>): (ks: seq<string>)
    ensures |ks| == |d|
  {
    if d == [] then [] else [d[0].key] + Keys(d[1..])
  }

  /** Put does what an assignment to a key does, and nothing to the other keys. */
  lemma {:induction false} PutWorks<V>(d: Dict<V>, key: string, value: V, other: string)
    ensures Get(Put(d, key, value), other) == if other == key then Some(value) else Get(d, other)
    ensures Has(Put(d, key, value), other) <==> other == key || Has(d, other)
    ensures Unique(d) ==> Unique(Put(d, key, value))
    ensures Keys(Put(d, key, value)) == Keys(d) + (if Has(d, key) then [] else [key])
    decreases |d|
  {
    if d != [] {
      PutWorks(d[1..], key, value, other);
      if d[0].key != key {
        PutWorks(d[1..], key, value, d[0].key);
      }
    }
  }

  lemma {:induction false} DeleteWorks<V>(d: Dict<V>, key: string, other: string)
    ensures Get(Delete(d, key), other) == if other == key then None else Get(d, other)
    ensures Has(Delete(d, key), other) <==> other != key && Has(d, other)
    ensures Unique(d) ==> Unique(Delete(d, key))
    ensures !Has(d, key) ==> Delete(d, key) == d
    decreases |d|
  {
    if d != [] {
      DeleteWorks(d[1..], key, other);
      DeleteWorks(d[1..], key, d[0].key);
    }
  }

  lemma {:induction false} PutNew<V>(d: Dict<V>, key: string, value: V)
    requires !Has(d, key)
    ensures Put(d, key, value) == d + [Item(key, value)]
    decreases |d|
  {
    if d != [] {
      PutNew(d[1..], key, value);
    }
  }

  /** Deleting a key and setting it again moves it behind all others, which stay in order. */
  lemma MovesToTheEnd<V>(d: Dict<V>, key: string, value: V)
    ensures Put(Delete(d, key), key, value) == Delete(d, key) + [Item(key, value)]
  {
    DeleteWorks(d, key, key);
    PutNew(Delete(d, key), key, value);
  }

  lemma {:induction false} HasIsGet<V>(d: Dict<V>, key: string)
    ensures Has(d, key) <==> Get(d, key).Some?
    ensures Has(d, key) <==> key in Keys(d)
    decreases |d|
  {
    if d != [] { HasIsGet(d[1..], key); }
  }

  lemma {:induction false} HasJoin<V>(a: Dict<V>, b: Dict<V>, key: string)
    ensures Has(a + b, key) <==> Has(a, key) || Has(b, key)
    decreases |a|
  {
    if a == [] {
      assert a + b == b;
    } else {
      assert (a + b)[1..] == a[1..] + b;
      HasJoin(a[1..], b, key);
    }
  }

  lemma {:induction false} UniqueParts<V>(a: Dict<V>, x: Item<V>, b: Dict<V>)
    requires Unique(a + ([x] + b))
    ensures !Has(a, x.key)
    decreases |a|
  {
    if a != [] {
      assert (a + ([x] + b))[1..] == a[1..] + ([x] + b);
      UniqueParts(a[1..], x, b);
      HasJoin(a[1..], [x] + b, a[0].key);
    }
  }
}
