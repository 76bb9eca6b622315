/** Filtering and stable sorting of lists. */
module Lists {

  /** `s.filter(f)`. */
  function Filter<T(!new)>(s: seq<T>, f: T -> bool): (r: seq<T>)
    ensures forall e :: e in r <==> e in s && f(e)
  {
    if s == [] then []
    else
      var most, last := s[..|s| - 1], s[|s| - 1];
      assert s == most + [last];
      var front := Filter(most, f);
      if f(last) then front + [last] else front
  }

  lemma {:induction false} FilterCounts<T(!new)>(s: seq<T>, f: T -> bool)
    ensures forall e :: multiset(Filter(s, f))[e] == (if f(e) then multiset(s)[e] else 0)
  {
    if s != [] {
      assert s == s[..|s| - 1] + [s[|s| - 1]];
      FilterCounts(s[..|s| - 1], f);
    }
  }

  /** A filter that rejects everything before `k` and nothing after it. */
  lemma {:induction false} FilterTail<T(!new)>(s: seq<T>, f: T -> bool, k: nat)
    requires k <= |s| && (forall i :: 0 <= i < k ==> !f(s[i])) && (forall i :: k <= i < |s| ==> f(s[i]))
    ensures Filter(s, f) == s[k..]
  {
    if s != [] {
      var most := s[..|s| - 1];
      if k == |s| {
        FilterTail(most, f, k - 1);
      } else {
        FilterTail(most, f, k);
        assert s[k..] == most[k..] + [s[|s| - 1]];
      }
    }
  }

  ghost predicate Ascending<T>(s: seq<T>, key: T -> int) {
    forall i, j :: 0 <= i < j < |s| ==> key(s[i]) <= key(s[j])
  }

  ghost predicate StrictlyAscending<T>(s: seq<T>, key: T -> int) {
    forall i, j :: 0 <= i < j < |s| ==> key(s[i]) < key(s[j])
  }

  lemma {:induction false} FilterAscends<T(!new)>(s: seq<T>, f: T -> bool, key: T -> int)
    ensures Ascending(s, key) ==> Ascending(Filter(s, f), key)
    ensures StrictlyAscending(s, key) ==> StrictlyAscending(Filter(s, f), key)
  {
    if s != [] {
      var most, last := s[..|s| - 1], s[|s| - 1];
      FilterAscends(most, f, key);
      var front := Filter(most, f);
      forall i | 0 <= i < |front|
        ensures Ascending(s, key) ==> key(front[i]) <= key(last)
        ensures StrictlyAscending(s, key) ==> key(front[i]) < key(last)
      {
        assert front[i] in front;
        var k :| 0 <= k < |most| && most[k] == front[i];
        assert s[k] == most[k];
      }
    }
  }

  /** Puts `e` behind everything that does not come after it. */
  function InsertBy<T>(s: seq<T>, key: T -> int, e: T): (r: seq<T>)
    ensures multiset(r) == multiset(s) + multiset{e}
    ensures |r| == |s| + 1
  {
    if s == [] then [e]
    else
      var most, last := s[..|s| - 1], s[|s| - 1];
      assert s == most + [last];
      if key(last) <= key(e) then s + [e] else InsertBy(most, key, e) + [last]
  }

  /** The stable `s.sort((a, b) => key(a) - key(b))`. */
  function SortBy<T>(s: seq<T>, key: T -> int): (r: seq<T>)
    ensures multiset(r) == multiset(s)
    ensures |r| == |s|
  {
    if s == [] then []
    else
      assert s == s[..|s| - 1] + [s[|s| - 1]];
      InsertBy(SortBy(s[..|s| - 1], key), key, s[|s| - 1])
  }

  lemma SameElements<T(!new)>(s: seq<T>, t: seq<T>)
    requires multiset(s) == multiset(t)
    ensures forall e :: e in s <==> e in t
  {
    assert forall e :: e in s <==> e in multiset(s);
    assert forall e :: e in t <==> e in multiset(t);
  }

  lemma {:induction false} InsertAscends<T(!new)>(s: seq<T>, key: T -> int, e: T)
    requires Ascending(s, key)
    ensures Ascending(InsertBy(s, key, e), key)
  {
    if s != [] {
      var most, last := s[..|s| - 1], s[|s| - 1];
      if key(last) > key(e) {
        InsertAscends(most, key, e);
        var front := InsertBy(most, key, e);
        SameElements(front, most + [e]);
        forall i | 0 <= i < |front| ensures key(front[i]) <= key(last) {
          assert front[i] in front;
          assert front[i] in most + [e];
        }
      }
    }
  }

  lemma {:induction false} SortAscends<T(!new)>(s: seq<T>, key: T -> int)
    ensures Ascending(SortBy(s, key), key)
    ensures forall x :: x in SortBy(s, key) <==> x in s
  {
    SameElements(SortBy(s, key), s);
    if s != [] {
      SortAscends(s[..|s| - 1], key);
      InsertAscends(SortBy(s[..|s| - 1], key), key, s[|s| - 1]);
    }
  }

  ghost predicate DistinctBy<T, K>(s: seq<T>, key: T -> K) {
    forall i, j :: 0 <= i < j < |s| ==> key(s[i]) != key(s[j])
  }

  lemma {:induction false} DistinctOnce<T(!new), K>(s: seq<T>, key: T -> K)
    requires DistinctBy(s, key)
    ensures forall e :: multiset(s)[e] <= 1
  {
    if s != [] {
      var most, last := s[..|s| - 1], s[|s| - 1];
      assert s == most + [last];
      DistinctOnce(most, key);
      assert last !in most;
    }
  }

  lemma TwiceInMultiset<T>(s: seq<T>, i: nat, j: nat)
    requires i < j < |s| && s[i] == s[j]
    ensures multiset(s)[s[i]] >= 2
  {
    assert s == s[..i] + [s[i]] + s[i + 1..j] + [s[j]] + s[j + 1..];
  }

  lemma SameKeySameElement<T, K>(s: seq<T>, key: T -> K, x: T, y: T)
    requires DistinctBy(s, key) && x in s && y in s && key(x) == key(y)
    ensures x == y
  {
  }

  /** Distinct keys stay distinct, so the order is strict. */
  lemma SortStrictly<T(!new)>(s: seq<T>, key: T -> int)
    requires DistinctBy(s, key)
    ensures StrictlyAscending(SortBy(s, key), key)
  {
    var r := SortBy(s, key);
    SortAscends(s, key);
    DistinctOnce(s, key);
    forall i, j | 0 <= i < j < |r| ensures key(r[i]) < key(r[j]) {
      if key(r[i]) == key(r[j]) {
        assert r[i] in r && r[j] in r;
        SameKeySameElement(s, key, r[i], r[j]);
        TwiceInMultiset(r, i, j);
      }
    }
  }

  /** A strictly ascending list is determined by its elements. */
  lemma {:induction false} StrictlyAscendingUnique<T(!new)>(s: seq<T>, t: seq<T>, key: T -> int)
    requires StrictlyAscending(s, key) && StrictlyAscending(t, key) && forall e :: e in s <==> e in t
    ensures s == t
  {
    assert s != [] ==> s[|s| - 1] in s;
    assert t != [] ==> t[|t| - 1] in t;
    if s != [] && t != [] {
      var x, y := s[|s| - 1], t[|t| - 1];
      assert x in t && y in s;
      assert x == y;
      assert s == s[..|s| - 1] + [x] && t == t[..|t| - 1] + [y];
      FrontElements(s, key);
      FrontElements(t, key);
      var front, front' := s[..|s| - 1], t[..|t| - 1];
      forall e ensures e in front <==> e in front' {
        assert e in front <==> e in s && e != x;
        assert e in front' <==> e in t && e != x;
      }
      StrictlyAscendingUnique(front, front', key);
    }
  }

  lemma FrontElements<T(!new)>(s: seq<T>, key: T -> int)
    requires s != [] && StrictlyAscending(s, key)
    ensures forall e :: e in s[..|s| - 1] <==> e in s && e != s[|s| - 1]
  {
    assert s == s[..|s| - 1] + [s[|s| - 1]];
  }
}
