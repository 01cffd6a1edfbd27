/** Python's `list.sort(key=...)`: a stable sort on a real key, as its specification. */
module StableSorting {

  ghost predicate Ordered<T(!new)>(s: seq<T>, key: T -> real) {
    forall i, j :: 0 <= i < j < |s| ==> key(s[i]) <= key(s[j])
  }

  function Filter<T(!new)>(s: seq<T>, keep: T -> bool): (r: seq<T>)
    ensures forall x :: x in r <==> x in s && keep(x)
  {
    if s == [] then []
    else
      assert s == [s[0]] + s[1..];
      (if keep(s[0]) then [s[0]] else []) + Filter(s[1..], keep)
  }

  lemma {:induction false} FilterConcat<T(!new)>(a: seq<T>, b: seq<T>, keep: T -> bool)
    ensures Filter(a + b, keep) == Filter(a, keep) + Filter(b, keep)
  {
    if a == [] {
      assert a + b == b;
    } else {
      assert (a + b)[1..] == a[1..] + b;
      FilterConcat(a[1..], b, keep);
    }
  }

  /** Before the first element whose key is not smaller. */
  function InsertBy<T(!new)>(x: T, s: seq<T>, key: T -> real): seq<T> {
    if s == [] || key(x) <= key(s[0]) then [x] + s
    else [s[0]] + InsertBy(x, s[1..], key)
  }

  function SortBy<T(!new)>(s: seq<T>, key: T -> real): seq<T> {
    if s == [] then [] else InsertBy(s[0], SortBy(s[1..], key), key)
  }

  lemma {:induction false} InsertByContents<T(!new)>(x: T, s: seq<T>, key: T -> real)
    ensures multiset(InsertBy(x, s, key)) == multiset(s) + multiset{x}
    ensures |InsertBy(x, s, key)| == |s| + 1
    ensures forall y :: y in InsertBy(x, s, key) <==> y == x || y in s
  {
    if s != [] && key(s[0]) < key(x) {
      InsertByContents(x, s[1..], key);
      assert s == [s[0]] + s[1..];
    }
  }

  lemma {:induction false} InsertByOrdered<T(!new)>(x: T, s: seq<T>, key: T -> real)
    requires Ordered(s, key)
    ensures Ordered(InsertBy(x, s, key), key)
  {
    if s != [] && key(s[0]) < key(x) {
      var r := InsertBy(x, s[1..], key);
      assert Ordered(s[1..], key);
      InsertByOrdered(x, s[1..], key);
      InsertByContents(x, s[1..], key);
      forall i | 0 <= i < |r| ensures key(s[0]) <= key(r[i]) {
        assert r[i] in r;
      }
    }
  }

  lemma {:induction false} SortByOrders<T(!new)>(s: seq<T>, key: T -> real)
    ensures Ordered(SortBy(s, key), key)
    ensures multiset(SortBy(s, key)) == multiset(s)
    ensures |SortBy(s, key)| == |s|
    ensures forall y :: y in SortBy(s, key) <==> y in s
  {
    if s != [] {
      SortByOrders(s[1..], key);
      InsertByOrdered(s[0], SortBy(s[1..], key), key);
      InsertByContents(s[0], SortBy(s[1..], key), key);
      assert s == [s[0]] + s[1..];
    }
  }

  lemma FilterCons<T(!new)>(x: T, s: seq<T>, keep: T -> bool)
    ensures Filter([x] + s, keep) == (if keep(x) then [x] else []) + Filter(s, keep)
  {
    assert ([x] + s)[1..] == s;
  }

  lemma {:induction false} InsertByKeeps<T(!new)>(x: T, s: seq<T>, key: T -> real, keep: T -> bool)
    requires keep(x) ==> forall y :: y in s && keep(y) ==> key(x) <= key(y)
    ensures Filter(InsertBy(x, s, key), keep) == (if keep(x) then [x] else []) + Filter(s, keep)
  {
    if s == [] || key(x) <= key(s[0]) {
      FilterCons(x, s, keep);
    } else {
      hide Filter;
      var t := s[1..];
      assert s == [s[0]] + t;
      FilterCons(s[0], t, keep);
      InsertByKeeps(x, t, key, keep);
      FilterCons(s[0], InsertBy(x, t, key), keep);
    }
  }

  lemma OrderedTail<T(!new)>(s: seq<T>, key: T -> real)
    requires s != [] && Ordered(s, key)
    ensures Ordered(s[1..], key)
    ensures forall y :: y in s[1..] ==> key(s[0]) <= key(y)
  {
    var t := s[1..];
    forall i, j | 0 <= i < j < |t| ensures key(t[i]) <= key(t[j]) {
      assert t[i] == s[i + 1] && t[j] == s[j + 1];
    }
    forall y | y in t ensures key(s[0]) <= key(y) {
      var i :| 0 <= i < |t| && t[i] == y;
      assert s[i + 1] == y;
    }
  }

  /** Stability: any sub-list that was already in key order comes through unchanged. */
  lemma {:induction false} SortByKeeps<T(!new)>(s: seq<T>, key: T -> real, keep: T -> bool)
    requires Ordered(Filter(s, keep), key)
    ensures Filter(SortBy(s, key), keep) == Filter(s, keep)
  {
    if s != [] {
      var f := Filter(s[1..], keep);
      if keep(s[0]) {
        assert Filter(s, keep)[1..] == f;
        OrderedTail(Filter(s, keep), key);
      } else {
        assert Filter(s, keep) == f;
      }
      assert forall y :: y in s[1..] && keep(y) ==> y in f;
      SortByKeeps(s[1..], key, keep);
      SortByOrders(s[1..], key);
      InsertByKeeps(s[0], SortBy(s[1..], key), key, keep);
    }
  }
}
