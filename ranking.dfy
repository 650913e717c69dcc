/**
 * The controllers rank their contacts with a stable sort on a score in
 * descending order. Ranking.SortDescending is that sort: an insertion sort
 * that places an element before every later element of equal key.
 */
module Ranking {

  /** Keys never increase from the front of `s` to its back. */
  ghost predicate Descending<T>(s: seq<T>, key: T -> real)
  {
    forall i, j :: 0 <= i < j < |s| ==> key(s[i]) >= key(s[j])
  }

  /** Insert `x` into a list, ahead of the first element whose key it reaches. */
  function Insert<T>(x: T, s: seq<T>, key: T -> real): (r: seq<T>)
    ensures |r| == |s| + 1
  {
    if s == [] || key(s[0]) <= key(x) then [x] + s
    else [s[0]] + Insert(x, s[1..], key)
  }

  /** `s` in descending order of `key`; equal keys keep their input order. */
  function SortDescending<T>(s: seq<T>, key: T -> real): (r: seq<T>)
    ensures |r| == |s|
  {
    if s == [] then []
    else Insert(s[0], SortDescending(s[1..], key), key)
  }

  /** Insertion adds exactly `x`, and puts either `x` or the old head in front. */
  lemma {:induction false} InsertAdds<T>(x: T, s: seq<T>, key: T -> real)
    ensures var r := Insert(x, s, key);
            && multiset(r) == multiset(s) + multiset{x}
            && (r[0] == x || (s != [] && r[0] == s[0]))
  {
    if s != [] && key(s[0]) > key(x) {
      assert s == [s[0]] + s[1..];
      InsertAdds(x, s[1..], key);
    }
  }

  /** Inserting into a descending list keeps it descending. */
  lemma {:induction false} InsertSorted<T>(x: T, s: seq<T>, key: T -> real)
    requires Descending(s, key)
    ensures Descending(Insert(x, s, key), key)
  {
    if s != [] && key(s[0]) > key(x) {
      InsertSorted(x, s[1..], key);
      var t := Insert(x, s[1..], key);
      InsertAdds(x, s[1..], key);
      forall y | y in t
        ensures key(s[0]) >= key(y)
      {
        assert y in multiset(t);
        if y != x {
          assert y in multiset(s[1..]);
          var k :| 0 <= k < |s[1..]| && s[1..][k] == y;
          assert s[k + 1] == y;
        }
      }
      ConsDescending(s[0], t, key);
    }
  }

  /** A head whose key reaches every key of a descending tail gives a
      descending list. */
  lemma ConsDescending<T>(h: T, t: seq<T>, key: T -> real)
    requires Descending(t, key)
    requires forall y :: y in t ==> key(h) >= key(y)
    ensures Descending([h] + t, key)
  {
    var r := [h] + t;
    forall i, j | 0 <= i < j < |r|
      ensures key(r[i]) >= key(r[j])
    {
      if i == 0 {
        assert r[j] == t[j - 1];
      } else {
        assert r[i] == t[i - 1] && r[j] == t[j - 1];
      }
    }
  }

  /** The sort yields a permutation of its input. */
  lemma {:induction false} SortPermutes<T>(s: seq<T>, key: T -> real)
    ensures multiset(SortDescending(s, key)) == multiset(s)
  {
    if s != [] {
      SortPermutes(s[1..], key);
      InsertAdds(s[0], SortDescending(s[1..], key), key);
      assert s == [s[0]] + s[1..];
    }
  }

  /** The sort yields a descending list. */
  lemma {:induction false} SortSorted<T>(s: seq<T>, key: T -> real)
    ensures Descending(SortDescending(s, key), key)
  {
    if s != [] {
      SortSorted(s[1..], key);
      InsertSorted(s[0], SortDescending(s[1..], key), key);
    }
  }

  /** Every element of the ranking is an input element, and the first one
      has the largest key of all inputs. */
  lemma SortedFromInput<T>(s: seq<T>, key: T -> real)
    ensures forall y :: y in SortDescending(s, key) ==> y in s
    ensures s != [] ==> forall y :: y in s ==> key(SortDescending(s, key)[0]) >= key(y)
  {
    var r := SortDescending(s, key);
    SortSorted(s, key);
    SortPermutes(s, key);
    forall y | y in r
      ensures y in s
    {
      assert y in multiset(r);
    }
    if s != [] {
      forall y | y in s
        ensures key(r[0]) >= key(y)
      {
        assert y in multiset(s);
        var j :| 0 <= j < |r| && r[j] == y;
      }
    }
  }

  /** The elements of `s` whose key is `v`, in their order in `s`. */
  ghost function WithKey<T>(s: seq<T>, key: T -> real, v: real): seq<T>
  {
    if s == [] then []
    else (if key(s[0]) == v then [s[0]] else []) + WithKey(s[1..], key, v)
  }

  /** Insertion only passes elements of strictly larger key, so `x` lands
      ahead of every element that shares its key. */
  lemma {:induction false} InsertWithKey<T>(x: T, s: seq<T>, key: T -> real, v: real)
    ensures WithKey(Insert(x, s, key), key, v)
            == (if key(x) == v then [x] else []) + WithKey(s, key, v)
  {
    var r := Insert(x, s, key);
    if s == [] || key(s[0]) <= key(x) {
      assert r[0] == x && r[1..] == s;
    } else {
      InsertWithKey(x, s[1..], key, v);
      assert r[0] == s[0] && r[1..] == Insert(x, s[1..], key);
    }
  }

  /** The sort is stable: for every key, the elements carrying it appear in
      the ranking in the order they had in the input. */
  lemma {:induction false} SortStable<T>(s: seq<T>, key: T -> real, v: real)
    ensures WithKey(SortDescending(s, key), key, v) == WithKey(s, key, v)
  {
    if s != [] {
      SortStable(s[1..], key, v);
      InsertWithKey(s[0], SortDescending(s[1..], key), key, v);
    }
  }

  /** The first element of `s` with key `v` comes after only elements of
      other keys. */
  lemma {:induction false} WithKeyHead<T>(s: seq<T>, key: T -> real, v: real)
    requires WithKey(s, key, v) != []
    ensures exists k :: 0 <= k < |s| && WithKey(s, key, v)[0] == s[k] && key(s[k]) == v
                        && forall j :: 0 <= j < k ==> key(s[j]) != v
  {
    if key(s[0]) == v {
      assert WithKey(s, key, v)[0] == s[0];
    } else {
      WithKeyHead(s[1..], key, v);
      var k :| 0 <= k < |s[1..]| && WithKey(s[1..], key, v)[0] == s[1..][k] && key(s[1..][k]) == v
                && forall j :: 0 <= j < k ==> key(s[1..][j]) != v;
      forall j | 0 <= j < k + 1
        ensures key(s[j]) != v
      {
        if j > 0 {
          assert s[j] == s[1..][j - 1];
        }
      }
      assert s[k + 1] == s[1..][k];
    }
  }

  /** The top of the ranking is the earliest input element of largest key:
      every input element before it has a strictly smaller key. */
  lemma SortHeadEarliest<T>(s: seq<T>, key: T -> real)
    requires s != []
    ensures exists k :: 0 <= k < |s| && SortDescending(s, key)[0] == s[k]
                        && forall j :: 0 <= j < k ==> key(s[j]) < key(s[k])
  {
    var r := SortDescending(s, key);
    var v := key(r[0]);
    SortStable(s, key, v);
    assert WithKey(r, key, v)[0] == r[0];
    WithKeyHead(s, key, v);
    SortedFromInput(s, key);
  }
}
