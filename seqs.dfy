/** Sequence helpers standing for the array methods the front end uses
    (`filter`, `includes`) and for "no duplicates". */
module Seqs {

  /** The elements of `s` that satisfy `p`, in their original order
      (Array.prototype.filter). */
  function Filter<T>(s: seq<T>, p: T -> bool): (r: seq<T>)
    ensures |r| <= |s|
  {
    if s == [] then [] else (if p(s[0]) then [s[0]] else []) + Filter(s[1..], p)
  }

  /** An element is kept exactly when it occurs and passes the test. */
  lemma {:induction false} FilterContains<T>(s: seq<T>, p: T -> bool, x: T)
    ensures x in Filter(s, p) <==> x in s && p(x)
  {
    if s != [] {
      FilterContains(s[1..], p, x);
      assert s == [s[0]] + s[1..];
    }
  }

  /** `FilterContains` for every element at once. */
  lemma FilterMembers<T>(s: seq<T>, p: T -> bool)
    ensures forall x :: x in Filter(s, p) <==> x in s && p(x)
  {
    forall x ensures x in Filter(s, p) <==> x in s && p(x) {
      FilterContains(s, p, x);
    }
  }

  /** No element occurs twice. */
  ghost predicate Distinct<T>(s: seq<T>) {
    forall i, j :: 0 <= i < j < |s| ==> s[i] != s[j]
  }

  /** Filtering a concatenation filters each part: filtering keeps the order. */
  lemma {:induction false} FilterAppend<T>(a: seq<T>, b: seq<T>, p: T -> bool)
    ensures Filter(a + b, p) == Filter(a, p) + Filter(b, p)
  {
    if a == [] {
      assert a + b == b;
    } else {
      var head := if p(a[0]) then [a[0]] else [];
      assert (a + b)[0] == a[0];
      assert (a + b)[1..] == a[1..] + b;
      FilterAppend(a[1..], b, p);
      calc {
        Filter(a + b, p);
        head + Filter(a[1..] + b, p);
        head + (Filter(a[1..], p) + Filter(b, p));
        (head + Filter(a[1..], p)) + Filter(b, p);
        Filter(a, p) + Filter(b, p);
      }
    }
  }

  /** A one-element sequence is kept or dropped whole. */
  lemma FilterSingleton<T>(x: T, p: T -> bool)
    ensures Filter([x], p) == if p(x) then [x] else []
  {
    assert [x][1..] == [];
  }

  /** A sequence all of whose elements pass is left as it is. */
  lemma {:induction false} FilterAllPass<T>(s: seq<T>, p: T -> bool)
    requires forall x :: x in s ==> p(x)
    ensures Filter(s, p) == s
  {
    if s != [] {
      FilterAllPass(s[1..], p);
    }
  }

  /** Filtering twice by the same test is filtering once. */
  lemma {:induction false} FilterIdempotent<T>(s: seq<T>, p: T -> bool)
    ensures Filter(Filter(s, p), p) == Filter(s, p)
  {
    forall x | x in Filter(s, p) ensures p(x) {
      FilterContains(s, p, x);
    }
    FilterAllPass(Filter(s, p), p);
  }

  /** Filtering cannot create duplicates. */
  lemma {:induction false} FilterDistinct<T>(s: seq<T>, p: T -> bool)
    requires Distinct(s)
    ensures Distinct(Filter(s, p))
  {
    if s != [] {
      FilterDistinct(s[1..], p);
      FilterContains(s[1..], p, s[0]);
      assert s[0] !in s[1..] by {
        forall j | 0 <= j < |s[1..]| ensures s[1..][j] != s[0] {
          assert s[1..][j] == s[j + 1];
        }
      }
    }
  }

  /** The test "differs from x", the predicate of `s.filter(y => y !== x)`. */
  function Except<T(==)>(x: T): T -> bool {
    y => y != x
  }

  /** Removing the one occurrence of an element of a duplicate-free sequence
      closes the gap: the elements before and after it keep their order. */
  lemma RemoveOccurrence<T>(a: seq<T>, x: T, b: seq<T>)
    requires x !in a && x !in b
    ensures Filter(a + [x] + b, Except(x)) == a + b
  {
    var p := Except(x);
    assert Filter(a + [x], p) == a by {
      FilterAppend(a, [x], p);
      FilterSingleton(x, p);
      assert forall y :: y in a ==> p(y);
      FilterAllPass(a, p);
    }
    assert Filter(b, p) == b by {
      assert forall y :: y in b ==> p(y);
      FilterAllPass(b, p);
    }
    FilterAppend(a + [x], b, p);
  }

  /** In a duplicate-free sequence, the element at `i` occurs neither
      before nor after `i`. */
  lemma DistinctSplit<T>(s: seq<T>, i: nat)
    requires Distinct(s) && i < |s|
    ensures s == s[..i] + [s[i]] + s[i + 1..]
    ensures s[i] !in s[..i] && s[i] !in s[i + 1..]
  {
    assert s[i] !in s[..i] by {
      forall j | 0 <= j < i ensures s[..i][j] != s[i] { }
    }
    assert s[i] !in s[i + 1..] by {
      forall j | i < j < |s| ensures s[j] != s[i] { }
    }
  }

  /** Removing the element at `i` of a duplicate-free sequence by value
      removes exactly that position. */
  lemma FilterExceptAt<T>(s: seq<T>, i: nat)
    requires Distinct(s) && i < |s|
    ensures Filter(s, Except(s[i])) == s[..i] + s[i + 1..]
  {
    DistinctSplit(s, i);
    RemoveOccurrence(s[..i], s[i], s[i + 1..]);
  }

  /** Filtering a suffix: the element at `i` is decided on its own. */
  lemma FilterFrom<T>(s: seq<T>, i: nat, p: T -> bool)
    requires i < |s|
    ensures Filter(s[i..], p) == (if p(s[i]) then [s[i]] else []) + Filter(s[i + 1..], p)
  {
    assert s[i..] == [s[i]] + s[i + 1..];
    FilterAppend([s[i]], s[i + 1..], p);
    FilterSingleton(s[i], p);
  }

  /** One step of filtering a duplicate-free sequence in place from the
      back: when `keys` is `s` with everything after `i` already filtered,
      dropping `s[i]` by value (if it fails `p`) or keeping it (if it
      passes) leaves everything from `i` on filtered. */
  lemma FilterStepBack<T>(s: seq<T>, i: nat, keys: seq<T>, p: T -> bool)
    requires i < |s| && s[i] !in s[..i] && s[i] !in s[i + 1..]
    requires keys == s[..i + 1] + Filter(s[i + 1..], p)
    ensures i < |keys| && keys[i] == s[i]
    ensures !p(s[i]) ==> Filter(keys, Except(s[i])) == s[..i] + Filter(s[i..], p)
    ensures p(s[i]) ==> keys == s[..i] + Filter(s[i..], p)
  {
    var x, head, tail := s[i], s[..i], Filter(s[i + 1..], p);
    assert keys == head + [x] + tail by {
      TakeOneMore(s, i);
    }
    assert |head| == i && keys[i] == x;
    FilterFrom(s, i, p);
    if !p(x) {
      assert Filter(s[i..], p) == tail;
      assert x !in tail by {
        NotInFilter(s[i + 1..], p, x);
      }
      RemoveOccurrence(head, x, tail);
    } else {
      assert Filter(s[i..], p) == [x] + tail;
      assert head + [x] + tail == head + ([x] + tail);
    }
  }

  /** Concatenation is associative. */
  lemma AppendAssoc<T>(a: seq<T>, b: seq<T>, c: seq<T>)
    ensures a + (b + c) == (a + b) + c
  {
  }

  /** A prefix one longer ends with the next element. */
  lemma TakeOneMore<T>(s: seq<T>, i: nat)
    requires i < |s|
    ensures s[..i + 1] == s[..i] + [s[i]]
  {
  }

  lemma NotInFilter<T>(s: seq<T>, p: T -> bool, x: T)
    requires x !in s
    ensures x !in Filter(s, p)
  {
    FilterContains(s, p, x);
  }

  /** The set of elements of a duplicate-free sequence has as many
      elements as the sequence. */
  lemma {:induction false} DistinctCardinality<T>(s: seq<T>)
    requires Distinct(s)
    ensures |set x | x in s| == |s|
  {
    if s != [] {
      assert s[0] !in s[1..] by {
        forall j | 0 <= j < |s[1..]| ensures s[1..][j] != s[0] {
          assert s[1..][j] == s[j + 1];
        }
      }
      DistinctCardinality(s[1..]);
      assert (set x | x in s) == {s[0]} + (set x | x in s[1..]);
    }
  }

  /** Removing a subset removes as many elements as it has. */
  lemma SubsetCardinality<T>(s: set<T>, c: set<T>)
    requires c <= s
    ensures |s - c| == |s| - |c|
  {
    assert s == (s - c) + c;
  }
}
