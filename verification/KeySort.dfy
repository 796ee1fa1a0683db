/** Stable sorting by an integer key. */
module KeySort {

  function Insert<T>(x: T, s: seq<T>, key: T -> int): seq<T> {
    if s == [] || key(x) <= key(s[0]) then [x] + s else [s[0]] + Insert(x, s[1..], key)
  }

  function SortBy<T>(s: seq<T>, key: T -> int): (r: seq<T>)
    ensures |r| == |s|
  {
    if s == [] then [] else
      InsertLength(s[0], SortBy(s[1..], key), key);
      Insert(s[0], SortBy(s[1..], key), key)
  }

  lemma {:induction false} InsertLength<T>(x: T, s: seq<T>, key: T -> int)
    ensures |Insert(x, s, key)| == |s| + 1
  {
    if s != [] && key(x) > key(s[0]) { InsertLength(x, s[1..], key); }
  }

  ghost predicate Sorted<T>(s: seq<T>, key: T -> int) {
    forall i, j :: 0 <= i < j < |s| ==> key(s[i]) <= key(s[j])
  }

  lemma {:induction false} InsertSame<T>(x: T, s: seq<T>, key: T -> int)
    ensures multiset(Insert(x, s, key)) == multiset{x} + multiset(s)
  {
    if s != [] && key(x) > key(s[0]) {
      InsertSame(x, s[1..], key);
      assert s == [s[0]] + s[1..];
    }
  }

  /** Sorting keeps the elements. */
  lemma {:induction false} SortSame<T>(s: seq<T>, key: T -> int)
    ensures multiset(SortBy(s, key)) == multiset(s)
  {
    if s != [] {
      SortSame(s[1..], key);
      InsertSame(s[0], SortBy(s[1..], key), key);
      assert s == [s[0]] + s[1..];
    }
  }

  /** Ordered by `key`, and elements of equal key by `tie`. */
  ghost predicate LexSorted<T>(s: seq<T>, key: T -> int, tie: T -> int) {
    forall i, j :: 0 <= i < j < |s| ==>
      key(s[i]) < key(s[j]) || (key(s[i]) == key(s[j]) && tie(s[i]) <= tie(s[j]))
  }

  lemma {:induction false} InsertLex<T>(x: T, s: seq<T>, key: T -> int, tie: T -> int)
    requires LexSorted(s, key, tie) && forall y :: y in s ==> tie(x) <= tie(y)
    ensures LexSorted(Insert(x, s, key), key, tie)
  {
    if s == [] {
    } else if key(x) <= key(s[0]) {
      var t := [x] + s;
      forall j | 0 < j < |t|
        ensures key(x) < key(t[j]) || (key(x) == key(t[j]) && tie(x) <= tie(t[j]))
      {
        assert t[j] in s;
      }
    } else {
      var t := Insert(x, s[1..], key);
      InsertLex(x, s[1..], key, tie);
      InsertSame(x, s[1..], key);
      forall j | 0 <= j < |t|
        ensures key(s[0]) < key(t[j]) || (key(s[0]) == key(t[j]) && tie(s[0]) <= tie(t[j]))
      {
        assert t[j] in multiset(t);
        if t[j] != x {
          assert t[j] in s[1..];
          var k :| 0 <= k < |s[1..]| && s[1..][k] == t[j];
          assert s[1..][k] == s[k + 1];
        }
      }
    }
  }

  /** Sorting is stable: what was ordered by `tie` before stays so within equal keys. */
  lemma {:induction false} SortLex<T>(s: seq<T>, key: T -> int, tie: T -> int)
    requires Sorted(s, tie)
    ensures LexSorted(SortBy(s, key), key, tie)
  {
    if s != [] {
      var t := SortBy(s[1..], key);
      SortLex(s[1..], key, tie);
      SortSame(s[1..], key);
      forall y | y in t
        ensures tie(s[0]) <= tie(y)
      {
        assert y in multiset(t);
        assert y in s[1..];
        var k :| 0 <= k < |s[1..]| && s[1..][k] == y;
        assert s[1..][k] == s[k + 1];
      }
      InsertLex(s[0], t, key, tie);
    }
  }

  lemma {:induction false} SortSorts<T>(s: seq<T>, key: T -> int)
    ensures Sorted(SortBy(s, key), key)
  {
    SortLex(s, key, _ => 0);
    assert LexSorted(SortBy(s, key), key, _ => 0);
  }

  function SumOver<T>(s: seq<T>, f: T -> int): int {
    if s == [] then 0 else f(s[0]) + SumOver(s[1..], f)
  }

  lemma {:induction false} SumInsert<T>(x: T, s: seq<T>, key: T -> int, f: T -> int)
    ensures SumOver(Insert(x, s, key), f) == f(x) + SumOver(s, f)
  {
    if s != [] && key(x) > key(s[0]) {
      SumInsert(x, s[1..], key, f);
      assert Insert(x, s, key)[1..] == Insert(x, s[1..], key);
    } else {
      assert ([x] + s)[1..] == s;
    }
  }

  lemma {:induction false} SumSort<T>(s: seq<T>, key: T -> int, f: T -> int)
    ensures SumOver(SortBy(s, key), f) == SumOver(s, f)
  {
    if s != [] {
      SumSort(s[1..], key, f);
      SumInsert(s[0], SortBy(s[1..], key), key, f);
    }
  }

  lemma {:induction false} SumPush<T>(s: seq<T>, x: T, f: T -> int)
    ensures SumOver(s + [x], f) == SumOver(s, f) + f(x)
  {
    if s == [] {
      assert [] + [x] == [x] && [x][1..] == [];
    } else {
      assert (s + [x])[1..] == s[1..] + [x];
      SumPush(s[1..], x, f);
    }
  }
}
