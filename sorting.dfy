/** The three `Array.prototype.sort` calls of the bot (samples by time,
    samples by maximum player count, player names by collation) share one
    model: a stable insertion sort under a comparator that is a total
    preorder. ECMAScript requires `sort` to be stable, so elements that
    compare equal keep their relative order. */
module Sorting {

  /** Transitivity at one triple; quantified over below with this as the
      trigger, so that proofs instantiate it only where they name it. */
  predicate TransitiveAt<T>(leq: (T, T) -> bool, a: T, b: T, c: T)
  {
    leq(a, b) && leq(b, c) ==> leq(a, c)
  }

  /** `leq` is total and transitive: what a consistent comparator gives. */
  ghost predicate TotalPreorder<T(!new)>(leq: (T, T) -> bool)
  {
    && (forall a, b :: leq(a, b) || leq(b, a))
    && (forall a, b, c :: TransitiveAt(leq, a, b, c))
  }

  predicate Sorted<T>(s: seq<T>, leq: (T, T) -> bool)
  {
    forall i, j :: 0 <= i < j < |s| ==> leq(s[i], s[j])
  }

  /** `a` and `b` compare equal (the comparator returns 0 both ways). */
  predicate Equiv<T>(leq: (T, T) -> bool, a: T, b: T)
  {
    leq(a, b) && leq(b, a)
  }

  /** The comparator that orders by an integer key, ascending. */
  function ByKey<T>(key: T -> int): (leq: (T, T) -> bool)
  {
    (a: T, b: T) => key(a) <= key(b)
  }

  lemma ByKeyIsTotalPreorder<T(!new)>(key: T -> int)
    ensures TotalPreorder(ByKey(key))
  {
  }

  /** Places `x` after every element of `s` that is not greater than it. */
  function Insert<T>(x: T, s: seq<T>, leq: (T, T) -> bool): (r: seq<T>)
    ensures |r| == |s| + 1
    ensures multiset(r) == multiset(s) + multiset{x}
  {
    if s == [] then [x]
    else if !leq(s[0], x) then [x] + s
    else
      assert s == [s[0]] + s[1..];
      [s[0]] + Insert(x, s[1..], leq)
  }

  /** Stable insertion sort: each element is inserted after its equals. */
  function Sort<T>(s: seq<T>, leq: (T, T) -> bool): (r: seq<T>)
    ensures |r| == |s|
    ensures multiset(r) == multiset(s)
  {
    if s == [] then []
    else
      assert s == s[..|s| - 1] + [s[|s| - 1]];
      Insert(s[|s| - 1], Sort(s[..|s| - 1], leq), leq)
  }

  lemma {:induction false} InsertSorted<T(!new)>(x: T, s: seq<T>, leq: (T, T) -> bool)
    requires TotalPreorder(leq)
    requires Sorted(s, leq)
    ensures Sorted(Insert(x, s, leq), leq)
  {
    if s == [] {
    } else if !leq(s[0], x) {
      assert leq(x, s[0]);
      forall j | 0 < j < |s|
        ensures leq(x, s[j])
      {
        assert TransitiveAt(leq, x, s[0], s[j]);
      }
    } else {
      InsertSorted(x, s[1..], leq);
      var t := Insert(x, s[1..], leq);
      forall j | 0 <= j < |t|
        ensures leq(s[0], t[j])
      {
        assert t[j] in multiset(t);
        assert t[j] == x || t[j] in multiset(s[1..]);
        if t[j] != x {
          var k :| 0 <= k < |s[1..]| && s[1..][k] == t[j];
          assert s[k + 1] == t[j];
        }
      }
    }
  }

  /** The result of `Sort` is ordered by the comparator. */
  lemma {:induction false} SortSorted<T(!new)>(s: seq<T>, leq: (T, T) -> bool)
    requires TotalPreorder(leq)
    ensures Sorted(Sort(s, leq), leq)
  {
    if s != [] {
      SortSorted(s[..|s| - 1], leq);
      InsertSorted(s[|s| - 1], Sort(s[..|s| - 1], leq), leq);
    }
  }

  /** The elements of `s` that compare equal to `x`, in their order in `s`. */
  function EquivClass<T>(s: seq<T>, x: T, leq: (T, T) -> bool): seq<T>
  {
    if s == [] then []
    else (if Equiv(leq, s[0], x) then [s[0]] else []) + EquivClass(s[1..], x, leq)
  }

  lemma {:induction false} EquivClassCons<T>(h: T, t: seq<T>, x: T, leq: (T, T) -> bool)
    ensures EquivClass([h] + t, x, leq) == (if Equiv(leq, h, x) then [h] else []) + EquivClass(t, x, leq)
  {
    assert ([h] + t)[0] == h;
    assert ([h] + t)[1..] == t;
  }

  lemma {:induction false} EquivClassAppend<T>(a: seq<T>, b: seq<T>, x: T, leq: (T, T) -> bool)
    ensures EquivClass(a + b, x, leq) == EquivClass(a, x, leq) + EquivClass(b, x, leq)
  {
    if a == [] {
      assert a + b == b;
    } else {
      var h := if Equiv(leq, a[0], x) then [a[0]] else [];
      assert a == [a[0]] + a[1..];
      assert a + b == [a[0]] + (a[1..] + b);
      EquivClassCons(a[0], a[1..] + b, x, leq);
      EquivClassAppend(a[1..], b, x, leq);
      AppendAssoc(h, EquivClass(a[1..], x, leq), EquivClass(b, x, leq));
    }
  }

  /** Every element of a sorted `s` whose head is greater than `y` is
      greater than `y`, so none of them compares equal to an equal of `y`. */
  lemma {:induction false} NoEquivAbove<T(!new)>(y: T, s: seq<T>, x: T, leq: (T, T) -> bool)
    requires TotalPreorder(leq)
    requires Sorted(s, leq)
    requires s != [] && !leq(s[0], y)
    requires Equiv(leq, y, x)
    ensures EquivClass(s, x, leq) == []
  {
    assert TransitiveAt(leq, s[0], x, y);
    if |s| > 1 {
      assert leq(s[0], s[1]) && TransitiveAt(leq, s[0], s[1], y);
      NoEquivAbove(y, s[1..], x, leq);
    }
  }

  lemma {:induction false} InsertStable<T(!new)>(y: T, s: seq<T>, x: T, leq: (T, T) -> bool)
    requires TotalPreorder(leq)
    requires Sorted(s, leq)
    ensures EquivClass(Insert(y, s, leq), x, leq)
         == EquivClass(s, x, leq) + (if Equiv(leq, y, x) then [y] else [])
  {
    if s == [] {
    } else if !leq(s[0], y) {
      InsertStableFront(y, s, x, leq);
    } else {
      InsertStable(y, s[1..], x, leq);
      InsertStableStep(y, s, x, leq);
    }
  }

  /** `y` goes in front of `s`: none of `s` is equal to `y`'s equals. */
  lemma {:induction false} InsertStableFront<T(!new)>(y: T, s: seq<T>, x: T, leq: (T, T) -> bool)
    requires TotalPreorder(leq)
    requires Sorted(s, leq)
    requires s != [] && !leq(s[0], y)
    ensures EquivClass(Insert(y, s, leq), x, leq)
         == EquivClass(s, x, leq) + (if Equiv(leq, y, x) then [y] else [])
  {
    InsertFront(y, s, x, leq);
    if Equiv(leq, y, x) {
      NoEquivAbove(y, s, x, leq);
    }
  }

  lemma {:induction false} InsertFront<T>(y: T, s: seq<T>, x: T, leq: (T, T) -> bool)
    requires s != [] && !leq(s[0], y)
    ensures EquivClass(Insert(y, s, leq), x, leq) == (if Equiv(leq, y, x) then [y] else []) + EquivClass(s, x, leq)
    ensures EquivClass(s, x, leq) == [] ==> EquivClass(Insert(y, s, leq), x, leq) == (if Equiv(leq, y, x) then [y] else [])
    ensures !Equiv(leq, y, x) ==> EquivClass(Insert(y, s, leq), x, leq) == EquivClass(s, x, leq)
  {
    assert Insert(y, s, leq) == [y] + s;
    EquivClassCons(y, s, x, leq);
    assert [] + EquivClass(s, x, leq) == EquivClass(s, x, leq);
  }

  /** `y` goes past the head of `s`, which keeps its place in front. */
  lemma {:induction false} InsertStableStep<T>(y: T, s: seq<T>, x: T, leq: (T, T) -> bool)
    requires s != [] && leq(s[0], y)
    requires EquivClass(Insert(y, s[1..], leq), x, leq)
          == EquivClass(s[1..], x, leq) + (if Equiv(leq, y, x) then [y] else [])
    ensures EquivClass(Insert(y, s, leq), x, leq)
         == EquivClass(s, x, leq) + (if Equiv(leq, y, x) then [y] else [])
  {
    var t := Insert(y, s[1..], leq);
    var head := if Equiv(leq, s[0], x) then [s[0]] else [];
    var tail := if Equiv(leq, y, x) then [y] else [];
    assert Insert(y, s, leq) == [s[0]] + t;
    EquivClassCons(s[0], t, x, leq);
    assert EquivClass(s, x, leq) == head + EquivClass(s[1..], x, leq);
    AppendAssoc(head, EquivClass(s[1..], x, leq), tail);
  }

  lemma AppendAssoc<T>(a: seq<T>, b: seq<T>, c: seq<T>)
    ensures a + (b + c) == (a + b) + c
  {
  }

  /** Stability: the elements equal to any `x` appear in the sorted result
      in the order they had in the input. */
  lemma {:induction false} SortStable<T(!new)>(s: seq<T>, x: T, leq: (T, T) -> bool)
    requires TotalPreorder(leq)
    ensures EquivClass(Sort(s, leq), x, leq) == EquivClass(s, x, leq)
  {
    if s != [] {
      var p, last := s[..|s| - 1], s[|s| - 1];
      var tail := if Equiv(leq, last, x) then [last] else [];
      SortStable(p, x, leq);
      SortSorted(p, leq);
      InsertStable(last, Sort(p, leq), x, leq);
      EquivClassAppend(p, [last], x, leq);
      assert s == p + [last];
      assert EquivClass([last], x, leq) == tail;
      calc {
        EquivClass(Sort(s, leq), x, leq);
        EquivClass(Insert(last, Sort(p, leq), leq), x, leq);
        EquivClass(Sort(p, leq), x, leq) + tail;
        EquivClass(p, x, leq) + tail;
        EquivClass(s, x, leq);
      }
    }
  }

  lemma {:induction false} InsertAtEnd<T>(x: T, s: seq<T>, leq: (T, T) -> bool)
    requires forall j :: 0 <= j < |s| ==> leq(s[j], x)
    ensures Insert(x, s, leq) == s + [x]
  {
    if s != [] {
      InsertAtEnd(x, s[1..], leq);
    }
  }

  /** An already ordered sequence is left as it is. */
  lemma {:induction false} SortOfSorted<T>(s: seq<T>, leq: (T, T) -> bool)
    requires Sorted(s, leq)
    ensures Sort(s, leq) == s
  {
    if s != [] {
      var p := s[..|s| - 1];
      SortOfSorted(p, leq);
      InsertAtEnd(s[|s| - 1], p, leq);
    }
  }

  /** Sorting twice gives what sorting once gives. */
  lemma SortIdempotent<T(!new)>(s: seq<T>, leq: (T, T) -> bool)
    requires TotalPreorder(leq)
    ensures Sort(Sort(s, leq), leq) == Sort(s, leq)
  {
    SortSorted(s, leq);
    SortOfSorted(Sort(s, leq), leq);
  }

  /** The first element of a sorted non-empty sequence is a least one. */
  lemma SortedHeadIsLeast<T>(s: seq<T>, leq: (T, T) -> bool)
    requires Sorted(s, leq) && |s| > 0
    ensures forall j :: 0 < j < |s| ==> leq(s[0], s[j])
  {
  }

  /** `Array.prototype.sort` on `a`: the caller's array is reordered. */
  method SortInPlace<T>(a: array<T>, leq: (T, T) -> bool)
    modifies a
    ensures a[..] == Sort(old(a[..]), leq)
  {
    var s := Sort(a[..], leq);
    for i := 0 to a.Length
      invariant a[..i] == s[..i]
      invariant a[i..] == old(a[..])[i..]
    {
      a[i] := s[i];
      assert a[..i + 1] == s[..i + 1];
    }
    assert a[..] == a[..a.Length];
  }
}
