/** Stable sorting by a comparator. A stable sort is a function of its input and of the
    comparator, so insertion sort stands for every one of them. */
module Sorting {

  function Insert<T>(x: T, s: seq<T>, less: (T, T) -> bool): seq<T> {
    if s == [] || !less(s[0], x) then [x] + s
    else [s[0]] + Insert(x, s[1..], less)
  }

  function Sort<T>(s: seq<T>, less: (T, T) -> bool): seq<T> {
    if s == [] then [] else Insert(s[0], Sort(s[1..], less), less)
  }

  /** `less` decides between any two different elements of `s`, consistently. */
  ghost predicate Orders<T(!new)>(less: (T, T) -> bool, s: set<T>) {
    && (forall a :: a in s ==> !less(a, a))
    && (forall a, b :: a in s && b in s && a != b ==> less(a, b) || less(b, a))
    && (forall a, b, c :: a in s && b in s && c in s && less(a, b) && less(b, c) ==> less(a, c))
  }

  ghost predicate Ascending<T(!new)>(s: seq<T>, less: (T, T) -> bool) {
    forall i, j :: 0 <= i < j < |s| ==> less(s[i], s[j])
  }

  function Elements<T>(s: seq<T>): set<T> {
    set x | x in s
  }

  ghost predicate Distinct<T>(s: seq<T>) {
    forall i, j :: 0 <= i < j < |s| ==> s[i] != s[j]
  }

  lemma ElementsCons<T>(h: T, t: seq<T>)
    ensures Elements([h] + t) == {h} + Elements(t)
  {
  }

  lemma ConsAscends<T(!new)>(h: T, t: seq<T>, less: (T, T) -> bool)
    requires Ascending(t, less) && forall y :: y in Elements(t) ==> less(h, y)
    ensures Ascending([h] + t, less)
  {
    var s := [h] + t;
    forall i, j | 0 <= i < j < |s| ensures less(s[i], s[j]) {
      assert s[j] == t[j - 1] && t[j - 1] in Elements(t);
      assert i > 0 ==> s[i] == t[i - 1];
    }
  }

  lemma {:induction false} InsertSorts<T(!new)>(x: T, s: seq<T>, less: (T, T) -> bool)
    requires x !in s && Ascending(s, less) && Orders(less, Elements(s) + {x})
    ensures Ascending(Insert(x, s, less), less)
    ensures Elements(Insert(x, s, less)) == Elements(s) + {x} && |Insert(x, s, less)| == |s| + 1
  {
    if s == [] {
      ElementsCons(x, s);
    } else if !less(s[0], x) {
      ElementsCons(x, s);
      forall y | y in Elements(s) ensures less(x, y) {
        FirstBelow(s, y, less);
        assert s[0] in Elements(s);
      }
      ConsAscends(x, s, less);
    } else {
      var rest := s[1..];
      assert s == [s[0]] + rest;
      ElementsCons(s[0], rest);
      InsertSorts(x, rest, less);
      ElementsCons(s[0], Insert(x, rest, less));
      forall y | y in Elements(rest) + {x} ensures less(s[0], y) {
        if y in rest {
          var k :| 0 <= k < |rest| && rest[k] == y;
          assert s[k + 1] == y;
        }
      }
      ConsAscends(s[0], Insert(x, rest, less), less);
    }
  }

  /** Sorting distinct elements lists them all, in ascending order. */
  lemma {:induction false} SortSorts<T(!new)>(s: seq<T>, less: (T, T) -> bool)
    requires Distinct(s) && Orders(less, Elements(s))
    ensures Ascending(Sort(s, less), less) && Elements(Sort(s, less)) == Elements(s) && |Sort(s, less)| == |s|
  {
    if s != [] {
      var rest := s[1..];
      assert s == [s[0]] + rest;
      assert Elements(s) == Elements(rest) + {s[0]};
      SortSorts(rest, less);
      assert s[0] !in Elements(rest);
      assert s[0] !in Sort(rest, less) by {
        assert forall y :: y in Sort(rest, less) ==> y in Elements(Sort(rest, less));
      }
      InsertSorts(s[0], Sort(rest, less), less);
    }
  }

  /** An ascending list is determined by its elements. */
  lemma {:induction false} AscendingUnique<T(!new)>(a: seq<T>, b: seq<T>, less: (T, T) -> bool)
    requires Ascending(a, less) && Ascending(b, less) && Elements(a) == Elements(b)
    requires Orders(less, Elements(a))
    ensures a == b
    decreases |a|
  {
    if a == [] {
      NoElements(b);
    } else {
      assert a[0] in Elements(a);
      assert b != [] by {
        assert a[0] in b;
      }
      FirstIsLeast(a, b, less);
      assert a == [a[0]] + a[1..] && b == [b[0]] + b[1..];
      RestElements(a, less);
      RestElements(b, less);
      AscendingUnique(a[1..], b[1..], less);
    }
  }

  lemma NoElements<T>(s: seq<T>)
    requires Elements(s) == {}
    ensures s == []
  {
    if s != [] {
      SomeElement(s);
    }
  }

  lemma SomeElement<T>(s: seq<T>)
    requires s != []
    ensures Elements(s) != {}
  {
    assert s[0] in Elements(s);
  }

  lemma FirstIsLeast<T(!new)>(a: seq<T>, b: seq<T>, less: (T, T) -> bool)
    requires a != [] && b != []
    requires Ascending(a, less) && Ascending(b, less) && Elements(a) == Elements(b)
    requires Orders(less, Elements(a))
    ensures a[0] == b[0]
  {
    assert b[0] in Elements(b) && a[0] in Elements(a);
    FirstBelow(a, b[0], less);
    FirstBelow(b, a[0], less);
  }

  lemma FirstBelow<T(!new)>(a: seq<T>, x: T, less: (T, T) -> bool)
    requires Ascending(a, less) && x in a
    ensures x == a[0] || less(a[0], x)
  {
    var i :| 0 <= i < |a| && a[i] == x;
  }

  lemma RestElements<T(!new)>(a: seq<T>, less: (T, T) -> bool)
    requires a != [] && Ascending(a, less) && Orders(less, Elements(a))
    ensures Elements(a[1..]) == Elements(a) - {a[0]}
    ensures Ascending(a[1..], less)
  {
    assert a == [a[0]] + a[1..];
    assert a[0] in Elements(a);
    assert forall k :: 0 <= k < |a[1..]| ==> a[1..][k] == a[k + 1];
  }
}
