/** The `reduce((acc, x) => { if (!acc[k]) acc[k] = …; acc[k].total += …;
    acc[k].count++; return acc }, {})` idiom: a loop that groups records by
    a key into an accumulator map, with the keys in order of first
    appearance. The loop is proved against definitions that do not mention
    the accumulator: the distinct keys in order, and per key the first
    record's label, the total of the values and the number of records. */
module Grouping {
  import opened Js

  datatype Bucket = Bucket(name: string, total: real, count: nat)

  /** The distinct keys of `xs`, in order of first appearance; records
      whose key is absent are skipped. */
  function KeysInOrder<T, K(==)>(xs: seq<T>, key: T -> Option<K>): seq<K>
  {
    if xs == [] then []
    else
      var o := KeysInOrder(xs[..|xs| - 1], key);
      var x := xs[|xs| - 1];
      if key(x).Some? && key(x).value !in o then o + [key(x).value] else o
  }

  predicate HasKey<T, K(==)>(xs: seq<T>, key: T -> Option<K>, k: K) {
    exists i :: 0 <= i < |xs| && key(xs[i]) == Some(k)
  }

  predicate NoDuplicates<K(==)>(ks: seq<K>) {
    forall i, j :: 0 <= i < j < |ks| ==> ks[i] != ks[j]
  }

  lemma {:induction false} KeysInOrderSpec<T, K>(xs: seq<T>, key: T -> Option<K>)
    ensures NoDuplicates(KeysInOrder(xs, key))
    ensures forall k :: k in KeysInOrder(xs, key) <==> HasKey(xs, key, k)
    decreases |xs|
  {
    if xs != [] {
      var p := xs[..|xs| - 1];
      KeysInOrderSpec(p, key);
      forall k ensures HasKey(xs, key, k) <==> HasKey(p, key, k) || key(xs[|xs| - 1]) == Some(k) {
        if HasKey(xs, key, k) {
          var i :| 0 <= i < |xs| && key(xs[i]) == Some(k);
          if i < |xs| - 1 {
            assert p[i] == xs[i];
          }
        }
        if HasKey(p, key, k) {
          var i :| 0 <= i < |p| && key(p[i]) == Some(k);
          assert xs[i] == p[i];
        }
      }
    }
  }

  /** The sum of the values of the records with key `k`. */
  function KeyTotal<T, K(==)>(xs: seq<T>, key: T -> Option<K>, value: T -> real, k: K): real {
    Sum(xs, (x: T) => if key(x) == Some(k) then value(x) else 0.0)
  }

  /** Every key's total, as one function value. */
  function KeyTotals<T, K(==)>(xs: seq<T>, key: T -> Option<K>, value: T -> real): K -> real {
    (k: K) => KeyTotal(xs, key, value, k)
  }

  /** A record's value when it has a key, 0 otherwise. */
  function KeyedValue<T, K>(key: T -> Option<K>, value: T -> real): T -> real {
    (x: T) => if key(x).Some? then value(x) else 0.0
  }

  function KeyCount<T, K(==)>(xs: seq<T>, key: T -> Option<K>, k: K): nat {
    Count(xs, (x: T) => key(x) == Some(k))
  }

  /** The label of the first record with key `k` ("" when there is none). */
  function FirstLabel<T, K(==)>(xs: seq<T>, key: T -> Option<K>, labelOf: T -> string, k: K): string {
    if xs == [] then ""
    else if key(xs[0]) == Some(k) then labelOf(xs[0])
    else FirstLabel(xs[1..], key, labelOf, k)
  }

  lemma {:induction false} FirstLabelAppend<T, K>(xs: seq<T>, x: T, key: T -> Option<K>, labelOf: T -> string, k: K)
    ensures FirstLabel(xs + [x], key, labelOf, k)
            == if HasKey(xs, key, k) || key(x) != Some(k) then FirstLabel(xs, key, labelOf, k) else labelOf(x)
  {
    if xs == [] {
      assert xs + [x] == [x];
      assert !HasKey(xs, key, k);
    } else {
      assert (xs + [x])[1..] == xs[1..] + [x];
      FirstLabelAppend(xs[1..], x, key, labelOf, k);
      if key(xs[0]) != Some(k) {
        assert HasKey(xs, key, k) <==> HasKey(xs[1..], key, k) by {
          if HasKey(xs, key, k) {
            var i :| 0 <= i < |xs| && key(xs[i]) == Some(k);
            assert i > 0 && xs[1..][i - 1] == xs[i];
          }
          if HasKey(xs[1..], key, k) {
            var i :| 0 <= i < |xs[1..]| && key(xs[1..][i]) == Some(k);
            assert xs[i + 1] == xs[1..][i];
          }
        }
      } else {
        assert HasKey(xs, key, k) by { assert key(xs[0]) == Some(k); }
      }
    }
  }

  /** What the accumulator holds for key `k` after the records `xs`. */
  function BucketOf<T, K(==)>(xs: seq<T>, key: T -> Option<K>, labelOf: T -> string, value: T -> real, k: K): Bucket {
    Bucket(FirstLabel(xs, key, labelOf, k), KeyTotal(xs, key, value, k), KeyCount(xs, key, k))
  }

  /** One more record: its key's bucket grows by its value and by one, a new
      key gets the record's label, and every other bucket is unchanged. */
  lemma BucketStep<T, K>(xs: seq<T>, x: T, key: T -> Option<K>, labelOf: T -> string, value: T -> real, k: K)
    ensures var b := BucketOf(xs, key, labelOf, value, k);
            BucketOf(xs + [x], key, labelOf, value, k)
            == if key(x) != Some(k) then b
               else if HasKey(xs, key, k) then Bucket(b.name, b.total + value(x), b.count + 1)
               else Bucket(labelOf(x), b.total + value(x), b.count + 1)
  {
    assert (xs + [x])[..|xs + [x]| - 1] == xs;
    FirstLabelAppend(xs, x, key, labelOf, k);
  }

  /** The grouping loop: the keys in order of first appearance, and for each
      key its first label, its total and its count. */
  method GroupBy<T, K(==)>(xs: seq<T>, key: T -> Option<K>, labelOf: T -> string, value: T -> real)
    returns (order: seq<K>, buckets: map<K, Bucket>)
    ensures order == KeysInOrder(xs, key)
    ensures forall k :: k in buckets <==> k in order
    ensures forall k :: k in buckets ==> buckets[k] == BucketOf(xs, key, labelOf, value, k)
  {
    order := [];
    buckets := map[];
    var i := 0;
    while i < |xs|
      invariant 0 <= i <= |xs|
      invariant order == KeysInOrder(xs[..i], key)
      invariant forall k :: k in buckets <==> k in order
      invariant forall k :: k in buckets ==> buckets[k] == BucketOf(xs[..i], key, labelOf, value, k)
    {
      var x := xs[i];
      assert xs[..i + 1] == xs[..i] + [x];
      assert xs[..i + 1][..i] == xs[..i];
      KeysInOrderSpec(xs[..i], key);
      forall k ensures BucketOf(xs[..i + 1], key, labelOf, value, k) ==
                       (var b := BucketOf(xs[..i], key, labelOf, value, k);
                        if key(x) != Some(k) then b
                        else if HasKey(xs[..i], key, k) then Bucket(b.name, b.total + value(x), b.count + 1)
                        else Bucket(labelOf(x), b.total + value(x), b.count + 1)) {
        BucketStep(xs[..i], x, key, labelOf, value, k);
      }
      if key(x).Some? {
        var k := key(x).value;
        if k in buckets {
          var b := buckets[k];
          buckets := buckets[k := Bucket(b.name, b.total + value(x), b.count + 1)];
        } else {
          assert k !in order;
          assert !HasKey(xs[..i], key, k);
          KeyTotalOfAbsent(xs[..i], key, value, k);
          KeyCountOfAbsent(xs[..i], key, k);
          buckets := buckets[k := Bucket(labelOf(x), value(x), 1)];
          order := order + [k];
        }
      }
      i := i + 1;
    }
    assert xs[..|xs|] == xs;
  }

  // ---------------------------------------------------------------------
  // Sums over the groups

  lemma {:induction false} SumCongruent<U>(ks: seq<U>, f: U -> real, g: U -> real)
    requires forall k :: k in ks ==> f(k) == g(k)
    ensures Sum(ks, f) == Sum(ks, g)
    decreases |ks|
  {
    if ks != [] {
      assert forall k :: k in ks[..|ks| - 1] ==> k in ks;
      SumCongruent(ks[..|ks| - 1], f, g);
    }
  }

  /** Adding `v` to the term of one key that occurs once adds `v` to the sum. */
  lemma {:induction false} SumBump<K>(ks: seq<K>, k0: K, v: real, f: K -> real, g: K -> real)
    requires NoDuplicates(ks)
    requires forall k :: k in ks ==> g(k) == f(k) + (if k == k0 then v else 0.0)
    ensures Sum(ks, g) == Sum(ks, f) + (if k0 in ks then v else 0.0)
    decreases |ks|
  {
    if ks != [] {
      var p := ks[..|ks| - 1];
      assert forall k :: k in p ==> k in ks;
      assert NoDuplicates(p) by {
        forall i, j | 0 <= i < j < |p| ensures p[i] != p[j] {
          assert p[i] == ks[i] && p[j] == ks[j];
        }
      }
      SumBump(p, k0, v, f, g);
      var last := ks[|ks| - 1];
      assert k0 in ks <==> k0 in p || last == k0 by {
        if k0 in ks {
          var i :| 0 <= i < |ks| && ks[i] == k0;
          if i < |ks| - 1 {
            assert p[i] == k0;
          }
        }
      }
    }
  }

  lemma KeyTotalOfAbsent<T, K>(xs: seq<T>, key: T -> Option<K>, value: T -> real, k: K)
    requires !HasKey(xs, key, k)
    ensures KeyTotal(xs, key, value, k) == 0.0
  {
    var f := (x: T) => if key(x) == Some(k) then value(x) else 0.0;
    var z := (x: T) => 0.0;
    SumCongruent(xs, f, z);
    SumZero(xs);
  }

  lemma {:induction false} KeyCountOfAbsent<T, K>(xs: seq<T>, key: T -> Option<K>, k: K)
    requires !HasKey(xs, key, k)
    ensures KeyCount(xs, key, k) == 0
    decreases |xs|
  {
    if xs != [] {
      var p := xs[..|xs| - 1];
      assert !HasKey(p, key, k);
      KeyCountOfAbsent(p, key, k);
      assert key(xs[|xs| - 1]) != Some(k);
    }
  }

  lemma {:induction false} SumZero<T>(xs: seq<T>)
    ensures Sum(xs, (x: T) => 0.0) == 0.0
    decreases |xs|
  {
    if xs != [] {
      SumZero(xs[..|xs| - 1]);
    }
  }

  /** The group totals partition the total: summed over the groups they give
      the sum of the values of every record that has a key. */
  lemma {:induction false} GroupTotalsSum<T, K>(xs: seq<T>, key: T -> Option<K>, value: T -> real)
    ensures Sum(KeysInOrder(xs, key), KeyTotals(xs, key, value)) == Sum(xs, KeyedValue(key, value))
    decreases |xs|
  {
    if xs != [] {
      var p := xs[..|xs| - 1];
      var x := xs[|xs| - 1];
      assert p + [x] == xs;
      GroupTotalsSum(p, key, value);
      var o := KeysInOrder(p, key);
      KeysInOrderSpec(p, key);
      var before := KeyTotals(p, key, value);
      var after := KeyTotals(xs, key, value);
      assert Sum(xs, KeyedValue(key, value)) == Sum(p, KeyedValue(key, value)) + KeyedValue(key, value)(x);
      forall k ensures after(k) == before(k) + (if key(x) == Some(k) then value(x) else 0.0) {
        assert (p + [x])[..|p + [x]| - 1] == p;
      }
      if key(x).None? {
        SumCongruent(o, after, before);
      } else {
        var k0 := key(x).value;
        SumBump(o, k0, value(x), before, after);
        if k0 !in o {
          assert !HasKey(p, key, k0);
          KeyTotalOfAbsent(p, key, value, k0);
          var o2 := o + [k0];
          assert o2[..|o2| - 1] == o;
          assert KeysInOrder(xs, key) == o2;
          assert NoDuplicates(o) && forall k :: k in o ==> k != k0;
          SumBump(o, k0, value(x), before, after);
        }
      }
    }
  }

  // ---------------------------------------------------------------------
  // `Object.values` lists integer-like keys in ascending numeric order.

  function Insert(x: nat, xs: seq<nat>): seq<nat> {
    if xs == [] then [x]
    else if x <= xs[0] then [x] + xs
    else [xs[0]] + Insert(x, xs[1..])
  }

  function SortAscending(xs: seq<nat>): seq<nat> {
    if xs == [] then [] else Insert(xs[0], SortAscending(xs[1..]))
  }

  predicate Ascending(xs: seq<nat>) {
    forall i, j :: 0 <= i < j < |xs| ==> xs[i] <= xs[j]
  }

  predicate AllAtLeast(xs: seq<nat>, lo: nat) {
    forall i :: 0 <= i < |xs| ==> lo <= xs[i]
  }

  lemma {:induction false} InsertMultiset(x: nat, xs: seq<nat>)
    ensures multiset(Insert(x, xs)) == multiset(xs) + multiset{x}
  {
    if xs != [] && x > xs[0] {
      InsertMultiset(x, xs[1..]);
      assert xs == [xs[0]] + xs[1..];
    }
  }

  lemma {:induction false} InsertAtLeast(x: nat, xs: seq<nat>, lo: nat)
    requires lo <= x && AllAtLeast(xs, lo)
    ensures AllAtLeast(Insert(x, xs), lo)
  {
    if xs != [] && x > xs[0] {
      var t := xs[1..];
      assert AllAtLeast(t, lo) by {
        forall i | 0 <= i < |t| ensures lo <= t[i] {
          assert t[i] == xs[i + 1];
        }
      }
      InsertAtLeast(x, t, lo);
      var r := Insert(x, t);
      assert Insert(x, xs) == [xs[0]] + r;
      forall i | 0 <= i < |[xs[0]] + r| ensures lo <= ([xs[0]] + r)[i] {
        if i > 0 {
          assert ([xs[0]] + r)[i] == r[i - 1];
        }
      }
    }
  }

  lemma {:induction false} InsertSpec(x: nat, xs: seq<nat>)
    requires Ascending(xs)
    ensures multiset(Insert(x, xs)) == multiset(xs) + multiset{x}
    ensures Ascending(Insert(x, xs))
  {
    InsertMultiset(x, xs);
    if xs != [] && x > xs[0] {
      var t := xs[1..];
      assert Ascending(t) by {
        forall i, j | 0 <= i < j < |t| ensures t[i] <= t[j] {
          assert t[i] == xs[i + 1] && t[j] == xs[j + 1];
        }
      }
      assert AllAtLeast(t, xs[0]) by {
        forall i | 0 <= i < |t| ensures xs[0] <= t[i] {
          assert t[i] == xs[i + 1];
        }
      }
      InsertSpec(x, t);
      InsertAtLeast(x, t, xs[0]);
      var r := Insert(x, t);
      var full := [xs[0]] + r;
      assert Insert(x, xs) == full;
      forall i, j | 0 <= i < j < |full| ensures full[i] <= full[j] {
        assert full[j] == r[j - 1];
        if i > 0 {
          assert full[i] == r[i - 1];
        }
      }
    }
  }

  /** The sort returns the same keys in ascending order. */
  lemma {:induction false} SortAscendingSpec(xs: seq<nat>)
    ensures Ascending(SortAscending(xs))
    ensures multiset(SortAscending(xs)) == multiset(xs)
  {
    if xs != [] {
      SortAscendingSpec(xs[1..]);
      InsertSpec(xs[0], SortAscending(xs[1..]));
      assert xs == [xs[0]] + xs[1..];
    }
  }
}
