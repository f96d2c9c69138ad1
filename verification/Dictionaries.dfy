/** Dictionaries that remember their insertion order, and the built-in sort of their items. */
module Dictionaries {
  import opened Prelude

  // ----- dictionaries in insertion order

  datatype Entry<K, V> = Entry(key: K, value: V)

  predicate Distinct<K(==), V>(items: seq<Entry<K, V>>) {
    forall i, j :: 0 <= i < j < |items| ==> items[i].key != items[j].key
  }

  function Get<K(==), V>(items: seq<Entry<K, V>>, key: K): Option<V> {
    if items == [] then None
    else if items[0].key == key then Some(items[0].value)
    else Get(items[1..], key)
  }

  /** The value is replaced where the key is, and appended where it is not. */
  function Put<K(==), V>(items: seq<Entry<K, V>>, key: K, value: V): seq<Entry<K, V>> {
    if items == [] then [Entry(key, value)]
    else if items[0].key == key then [Entry(key, value)] + items[1..]
    else [items[0]] + Put(items[1..], key, value)
  }

  function Without<K(==), V>(items: seq<Entry<K, V>>, key: K): seq<Entry<K, V>> {
    if items == [] then []
    else if items[0].key == key then Without(items[1..], key)
    else [items[0]] + Without(items[1..], key)
  }

  ghost predicate SameContents<K(!new), V>(a: seq<Entry<K, V>>, b: seq<Entry<K, V>>) {
    forall k :: Get(a, k) == Get(b, k)
  }

  lemma {:induction false} GetIs<K, V>(items: seq<Entry<K, V>>, key: K)
    requires Distinct(items)
    ensures Get(items, key).Some? ==> Entry(key, Get(items, key).value) in items
    ensures forall v :: Entry(key, v) in items ==> Get(items, key) == Some(v)
  {
    if items != [] {
      GetIs(items[1..], key);
      assert items == [items[0]] + items[1..];
    }
  }

  lemma {:induction false} PutElements<K, V>(items: seq<Entry<K, V>>, key: K, value: V)
    ensures forall e :: e in Put(items, key, value) ==> e in items || e == Entry(key, value)
  {
    if items != [] {
      PutElements(items[1..], key, value);
      assert items == [items[0]] + items[1..];
    }
  }

  lemma {:induction false} PutDistinct<K, V>(items: seq<Entry<K, V>>, key: K, value: V)
    requires Distinct(items)
    ensures Distinct(Put(items, key, value))
  {
    if items != [] && items[0].key != key {
      PutDistinct(items[1..], key, value);
      PutElements(items[1..], key, value);
      var r := Put(items[1..], key, value);
      forall i | 0 <= i < |r|
        ensures r[i].key != items[0].key
      {
        assert r[i] in r;
      }
    }
  }

  lemma {:induction false} PutGets<K, V>(items: seq<Entry<K, V>>, key: K, value: V, other: K)
    ensures Get(Put(items, key, value), other) == if other == key then Some(value) else Get(items, other)
  {
    if items != [] && items[0].key != key {
      PutGets(items[1..], key, value, other);
    }
  }

  lemma {:induction false} AppendWithoutKeeps<K, V>(items: seq<Entry<K, V>>, key: K, value: V, other: K)
    requires Distinct(items)
    ensures Distinct(Without(items, key) + [Entry(key, value)])
    ensures Get(Without(items, key) + [Entry(key, value)], other)
         == if other == key then Some(value) else Get(items, other)
    ensures forall e :: e in Without(items, key) ==> e in items && e.key != key
  {
    if items == [] {
      assert Without(items, key) + [Entry(key, value)] == [Entry(key, value)];
    } else {
      AppendWithoutKeeps(items[1..], key, value, other);
      assert items == [items[0]] + items[1..];
      if items[0].key != key {
        assert Without(items, key) + [Entry(key, value)]
            == [items[0]] + (Without(items[1..], key) + [Entry(key, value)]);
      }
    }
  }

  lemma {:induction false} FoundAt<K, V>(items: seq<Entry<K, V>>, key: K, k: nat, value: V)
    requires k < |items| && items[k].key == key && forall i :: 0 <= i < k ==> items[i].key != key
    ensures Get(items, key) == Some(items[k].value)
    ensures Put(items, key, value) == items[k := Entry(key, value)]
  {
    if k > 0 {
      FoundAt(items[1..], key, k - 1, value);
    }
  }

  lemma {:induction false} NotFound<K, V>(items: seq<Entry<K, V>>, key: K, value: V)
    requires forall i :: 0 <= i < |items| ==> items[i].key != key
    ensures Get(items, key) == None
    ensures Put(items, key, value) == items + [Entry(key, value)]
  {
    if items != [] {
      NotFound(items[1..], key, value);
    }
  }

  // ----- orders

  ghost predicate StrictOrder<T(!new)>(less: (T, T) -> bool) {
    && (forall a, b :: less(a, b) ==> !less(b, a) && a != b)
    && (forall a, b :: less(a, b) || a == b || less(b, a))
    && (forall a, b, c :: less(a, b) && less(b, c) ==> less(a, c))
  }

  /** The order of sequences: by the first difference, a prefix before what extends it. */
  predicate LexLess<T(==)>(less: (T, T) -> bool, a: seq<T>, b: seq<T>) {
    if b == [] then false
    else if a == [] then true
    else less(a[0], b[0]) || (a[0] == b[0] && LexLess(less, a[1..], b[1..]))
  }

  lemma {:induction false} LexTotal<T(!new)>(less: (T, T) -> bool, a: seq<T>, b: seq<T>)
    requires StrictOrder(less)
    ensures LexLess(less, a, b) || a == b || LexLess(less, b, a)
    ensures LexLess(less, a, b) ==> !LexLess(less, b, a) && a != b
  {
    if a != [] && b != [] {
      LexTotal(less, a[1..], b[1..]);
      assert a == [a[0]] + a[1..] && b == [b[0]] + b[1..];
    }
  }

  lemma {:induction false} LexTransitive<T(!new)>(less: (T, T) -> bool, a: seq<T>, b: seq<T>, c: seq<T>)
    requires StrictOrder(less) && LexLess(less, a, b) && LexLess(less, b, c)
    ensures LexLess(less, a, c)
  {
    if a != [] && a[0] == b[0] == c[0] {
      LexTransitive(less, a[1..], b[1..], c[1..]);
    }
  }

  predicate CharLess(a: char, b: char) { a < b }

  predicate StringLess(a: string, b: string) { LexLess(CharLess, a, b) }

  lemma StringLessIsOrder()
    ensures StrictOrder(StringLess)
  {
    forall a, b ensures StringLess(a, b) || a == b || StringLess(b, a)
                ensures StringLess(a, b) ==> !StringLess(b, a) && a != b
    {
      LexTotal(CharLess, a, b);
    }
    forall a, b, c | StringLess(a, b) && StringLess(b, c) ensures StringLess(a, c) {
      LexTransitive(CharLess, a, b, c);
    }
  }

  // ----- sorting

  function Insert<K, V>(less: (K, K) -> bool, x: Entry<K, V>, s: seq<Entry<K, V>>): seq<Entry<K, V>> {
    if s == [] then [x]
    else if less(s[0].key, x.key) then [s[0]] + Insert(less, x, s[1..])
    else [x] + s
  }

  /** The built-in sort, by key. */
  function Sort<K, V>(less: (K, K) -> bool, items: seq<Entry<K, V>>): seq<Entry<K, V>> {
    if items == [] then [] else Insert(less, items[0], Sort(less, items[1..]))
  }

  ghost predicate Ascending<K, V>(less: (K, K) -> bool, s: seq<Entry<K, V>>) {
    forall i, j :: 0 <= i < j < |s| ==> less(s[i].key, s[j].key)
  }

  lemma {:induction false} InsertElements<K, V>(less: (K, K) -> bool, x: Entry<K, V>, s: seq<Entry<K, V>>,
                                                e: Entry<K, V>)
    ensures e in Insert(less, x, s) <==> e == x || e in s
  {
    if s != [] && less(s[0].key, x.key) {
      InsertElements(less, x, s[1..], e);
      assert s == [s[0]] + s[1..];
    }
  }

  lemma {:induction false} InsertAscends<K(!new), V>(less: (K, K) -> bool, x: Entry<K, V>, s: seq<Entry<K, V>>)
    requires StrictOrder(less) && Ascending(less, s) && forall e :: e in s ==> e.key != x.key
    ensures Ascending(less, Insert(less, x, s))
  {
    if s != [] && less(s[0].key, x.key) {
      InsertAscends(less, x, s[1..]);
      forall e | e in Insert(less, x, s[1..])
        ensures less(s[0].key, e.key)
      {
        InsertElements(less, x, s[1..], e);
      }
      var r := Insert(less, x, s[1..]);
      assert forall i :: 0 <= i < |r| ==> r[i] in r;
    } else if s != [] {
      assert s[0] in s;
      assert less(x.key, s[0].key);
    }
  }

  lemma {:induction false} SortElements<K, V>(less: (K, K) -> bool, items: seq<Entry<K, V>>, e: Entry<K, V>)
    ensures e in Sort(less, items) <==> e in items
  {
    if items != [] {
      SortElements(less, items[1..], e);
      InsertElements(less, items[0], Sort(less, items[1..]), e);
      assert items == [items[0]] + items[1..];
    }
  }

  lemma {:induction false} InsertLength<K, V>(less: (K, K) -> bool, x: Entry<K, V>, s: seq<Entry<K, V>>)
    ensures |Insert(less, x, s)| == |s| + 1
  {
    if s != [] && less(s[0].key, x.key) {
      InsertLength(less, x, s[1..]);
    }
  }

  lemma {:induction false} SortKeepsLength<K, V>(less: (K, K) -> bool, items: seq<Entry<K, V>>)
    ensures |Sort(less, items)| == |items|
  {
    if items != [] {
      SortKeepsLength(less, items[1..]);
      InsertLength(less, items[0], Sort(less, items[1..]));
    }
  }

  lemma {:induction false} SortAscends<K(!new), V>(less: (K, K) -> bool, items: seq<Entry<K, V>>)
    requires StrictOrder(less) && Distinct(items)
    ensures Ascending(less, Sort(less, items))
  {
    if items != [] {
      SortAscends(less, items[1..]);
      forall e | e in Sort(less, items[1..])
        ensures e.key != items[0].key
      {
        SortElements(less, items[1..], e);
      }
      InsertAscends(less, items[0], Sort(less, items[1..]));
    }
  }

  ghost predicate SameElements<T(!new)>(a: seq<T>, b: seq<T>) {
    forall x :: x in a <==> x in b
  }

  lemma HeadLeast<K, V>(less: (K, K) -> bool, s: seq<Entry<K, V>>, i: nat)
    requires Ascending(less, s) && i < |s|
    ensures i == 0 || less(s[0].key, s[i].key)
  {
  }

  lemma BothEmpty<T(!new)>(a: seq<T>, b: seq<T>)
    requires SameElements(a, b)
    ensures a == [] <==> b == []
  {
    assert a != [] ==> a[0] in a;
    assert b != [] ==> b[0] in b;
  }

  lemma HeadsMeet<K(!new), V(!new)>(less: (K, K) -> bool, a: seq<Entry<K, V>>, b: seq<Entry<K, V>>)
    requires StrictOrder(less) && Ascending(less, a) && Ascending(less, b) && SameElements(a, b)
    requires a != [] && b != []
    ensures a[0] == b[0] && SameElements(a[1..], b[1..])
  {
    assert a[0] in b && b[0] in a;
    var j :| 0 <= j < |b| && b[j] == a[0];
    var i :| 0 <= i < |a| && a[i] == b[0];
    HeadLeast(less, a, i);
    HeadLeast(less, b, j);
    assert a == [a[0]] + a[1..] && b == [b[0]] + b[1..];
    forall x
      ensures x in a[1..] <==> x in b[1..]
    {
      assert x in a <==> x in b;
      if x == a[0] {
        assert x !in a[1..] && x !in b[1..];
      }
    }
  }

  lemma {:induction false} AscendingUnique<K(!new), V(!new)>(less: (K, K) -> bool, a: seq<Entry<K, V>>,
                                                             b: seq<Entry<K, V>>)
    requires StrictOrder(less) && Ascending(less, a) && Ascending(less, b) && SameElements(a, b)
    ensures a == b
  {
    BothEmpty(a, b);
    if a != [] {
      HeadsMeet(less, a, b);
      AscendingUnique(less, a[1..], b[1..]);
      assert a == [a[0]] + a[1..] && b == [b[0]] + b[1..];
    }
  }

  /** What is sorted depends on the contents of a dictionary only, not on the order it was filled in. */
  lemma SortIsCanonical<K(!new), V(!new)>(less: (K, K) -> bool, a: seq<Entry<K, V>>, b: seq<Entry<K, V>>)
    requires StrictOrder(less) && Distinct(a) && Distinct(b) && SameContents(a, b)
    ensures Sort(less, a) == Sort(less, b)
  {
    forall e: Entry<K, V>
      ensures e in Sort(less, a) <==> e in Sort(less, b)
    {
      SortElements(less, a, e);
      SortElements(less, b, e);
      GetIs(a, e.key);
      GetIs(b, e.key);
      assert Get(a, e.key) == Get(b, e.key);
      assert e == Entry(e.key, e.value);
    }
    SortAscends(less, a);
    SortAscends(less, b);
    AscendingUnique(less, Sort(less, a), Sort(less, b));
  }
}
