/**
 * The sequence operators the services apply to query results (Where, Take,
 * Skip, Distinct, FirstOrDefault and the stable OrderByDescending), stated
 * once over Dafny sequences, with the facts the services rely on.
 */
module Sequences {
  import opened Wrappers

  ghost predicate NoDuplicates<T>(s: seq<T>) {
    forall i, j :: 0 <= i < j < |s| ==> s[i] != s[j]
  }

  /** The elements of `s` that satisfy `p`, in their original order (Where). */
  function Filter<T(!new)>(s: seq<T>, p: T -> bool): (r: seq<T>)
    ensures |r| <= |s|
    ensures forall x :: x in r <==> x in s && p(x)
  {
    if |s| == 0 then []
    else
      var rest := Filter(s[..|s| - 1], p);
      assert forall x :: x in s <==> x in s[..|s| - 1] || x == s[|s| - 1] by {
        assert s == s[..|s| - 1] + [s[|s| - 1]];
      }
      if p(s[|s| - 1]) then rest + [s[|s| - 1]] else rest
  }

  lemma {:induction false} FilterKeepsNoDuplicates<T(!new)>(s: seq<T>, p: T -> bool)
    requires NoDuplicates(s)
    ensures NoDuplicates(Filter(s, p))
  {
    if |s| > 0 {
      var init := s[..|s| - 1];
      assert NoDuplicates(init);
      FilterKeepsNoDuplicates(init, p);
      assert s[|s| - 1] !in init;
    }
  }

  /** The first `n` elements of `s`; none when `n` is not positive (Take). */
  function Take<T>(s: seq<T>, n: int): (r: seq<T>)
    ensures |r| == if n <= 0 then 0 else if n < |s| then n else |s|
    ensures forall i :: 0 <= i < |r| ==> r[i] == s[i]
  {
    if n <= 0 then [] else if n < |s| then s[..n] else s
  }

  /** All but the first `n` elements of `s`; all of them when `n` is not positive (Skip). */
  function Skip<T>(s: seq<T>, n: int): (r: seq<T>)
    ensures Take(s, n) + r == s
  {
    if n <= 0 then s else if n < |s| then s[n..] else []
  }

  /** `s` without repeats, each element kept at its first occurrence (Distinct). */
  function Distinct<T(==,!new)>(s: seq<T>): (r: seq<T>)
    ensures NoDuplicates(r)
    ensures forall x :: x in r <==> x in s
    ensures |r| <= |s|
  {
    if |s| == 0 then []
    else
      var init := s[..|s| - 1];
      var d := Distinct(init);
      assert forall x :: x in s <==> x in init || x == s[|s| - 1] by {
        assert s == init + [s[|s| - 1]];
      }
      if s[|s| - 1] in init then d else d + [s[|s| - 1]]
  }

  /** The first element of `s` that satisfies `p`, if any (FirstOrDefault). */
  function FirstMatch<T>(s: seq<T>, p: T -> bool): (r: Option<T>)
    ensures r.None? <==> forall i :: 0 <= i < |s| ==> !p(s[i])
    ensures r.Some? ==> exists k :: 0 <= k < |s| && s[k] == r.value && p(s[k]) &&
                                    forall j :: 0 <= j < k ==> !p(s[j])
  {
    if |s| == 0 then None
    else if p(s[0]) then Some(s[0])
    else
      var r := FirstMatch(s[1..], p);
      assert forall i :: 1 <= i < |s| ==> s[i] == s[1..][i - 1];
      r
  }

  ghost predicate SortedDesc<T>(s: seq<T>, key: T -> real) {
    forall i, j :: 0 <= i < j < |s| ==> key(s[i]) >= key(s[j])
  }

  /** `x` placed into `s` after every element whose key is at least key(x). */
  function Insert<T>(x: T, s: seq<T>, key: T -> real): (r: seq<T>)
    ensures multiset(r) == multiset(s) + multiset{x}
    ensures |r| == |s| + 1
  {
    if |s| == 0 then [x]
    else if key(s[0]) >= key(x) then
      assert s == [s[0]] + s[1..];
      [s[0]] + Insert(x, s[1..], key)
    else
      [x] + s
  }

  lemma {:induction false} InsertSorted<T>(x: T, s: seq<T>, key: T -> real)
    requires SortedDesc(s, key)
    ensures SortedDesc(Insert(x, s, key), key)
  {
    if |s| > 0 && key(s[0]) >= key(x) {
      var rest := Insert(x, s[1..], key);
      InsertSorted(x, s[1..], key);
      forall k | 0 <= k < |rest| ensures key(s[0]) >= key(rest[k]) {
        assert rest[k] in multiset(rest);
        if rest[k] != x {
          assert rest[k] in multiset(s[1..]);
          var m :| 0 <= m < |s[1..]| && s[1..][m] == rest[k];
          assert s[m + 1] == rest[k];
        }
      }
    }
  }

  /**
   * A stable sort by descending key (OrderByDescending): later elements are
   * inserted after earlier ones with an equal key.
   */
  function SortDesc<T(!new)>(s: seq<T>, key: T -> real): (r: seq<T>)
    ensures SortedDesc(r, key)
    ensures multiset(r) == multiset(s)
    ensures |r| == |s|
  {
    if |s| == 0 then []
    else
      assert s == s[..|s| - 1] + [s[|s| - 1]];
      var sorted := SortDesc(s[..|s| - 1], key);
      InsertSorted(s[|s| - 1], sorted, key);
      Insert(s[|s| - 1], sorted, key)
  }

  lemma SameMultisetSameElements<T>(a: seq<T>, b: seq<T>)
    requires multiset(a) == multiset(b)
    ensures forall x :: x in a <==> x in b
  {
    forall x ensures x in a <==> x in b {
      assert x in a <==> x in multiset(a);
      assert x in b <==> x in multiset(b);
    }
  }

  lemma {:induction false} NoDuplicatesByMultiset<T>(s: seq<T>)
    ensures NoDuplicates(s) <==> forall x :: multiset(s)[x] <= 1
  {
    if |s| > 0 {
      var init := s[..|s| - 1];
      var last := s[|s| - 1];
      assert s == init + [last];
      NoDuplicatesByMultiset(init);
      if NoDuplicates(s) {
        assert NoDuplicates(init);
        assert last !in init;
        assert multiset(init)[last] == 0;
      }
      if forall x :: multiset(s)[x] <= 1 {
        assert forall x :: multiset(init)[x] <= 1 by {
          forall x ensures multiset(init)[x] <= 1 {
            assert multiset(s)[x] == multiset(init)[x] + multiset([last])[x];
          }
        }
        assert multiset(s)[last] == multiset(init)[last] + 1;
        assert last !in init;
        assert NoDuplicates(s) by {
          forall i, j | 0 <= i < j < |s| ensures s[i] != s[j] {
            if j == |s| - 1 {
              assert s[i] in init;
            } else {
              assert s[i] == init[i] && s[j] == init[j];
            }
          }
        }
      }
    }
  }

  lemma SortKeepsNoDuplicates<T(!new)>(s: seq<T>, key: T -> real)
    requires NoDuplicates(s)
    ensures NoDuplicates(SortDesc(s, key))
  {
    NoDuplicatesByMultiset(s);
    NoDuplicatesByMultiset(SortDesc(s, key));
  }

  /** A duplicate-free sequence has as many distinct elements as positions. */
  lemma {:induction false} NoDuplicatesCardinality<T>(s: seq<T>)
    requires NoDuplicates(s)
    ensures |set x | x in s| == |s|
  {
    if |s| > 0 {
      var init := s[..|s| - 1];
      assert NoDuplicates(init);
      NoDuplicatesCardinality(init);
      assert s == init + [s[|s| - 1]];
      assert (set x | x in s) == (set x | x in init) + {s[|s| - 1]};
      assert s[|s| - 1] !in (set x | x in init);
    }
  }

  /** Two duplicate-free sequences with the same elements have the same length. */
  lemma SameElementsSameLength<T>(a: seq<T>, b: seq<T>)
    requires NoDuplicates(a) && NoDuplicates(b)
    requires forall x :: x in a <==> x in b
    ensures |a| == |b|
  {
    NoDuplicatesCardinality(a);
    NoDuplicatesCardinality(b);
    assert (set x | x in a) == (set x | x in b);
  }

  /** The number of occurrences of `x` in `s`. */
  function Count<T(==)>(s: seq<T>, x: T): (n: nat)
    ensures n <= |s|
    ensures n > 0 <==> x in s
  {
    if |s| == 0 then 0
    else
      assert s == s[..|s| - 1] + [s[|s| - 1]];
      Count(s[..|s| - 1], x) + (if s[|s| - 1] == x then 1 else 0)
  }

  /** Filtering keeps a descending order. */
  lemma {:induction false} FilterKeepsSorted<T(!new)>(s: seq<T>, p: T -> bool, key: T -> real)
    requires SortedDesc(s, key)
    ensures SortedDesc(Filter(s, p), key)
  {
    if |s| > 0 {
      var init := s[..|s| - 1];
      var last := s[|s| - 1];
      assert SortedDesc(init, key);
      FilterKeepsSorted(init, p, key);
      var rest := Filter(init, p);
      if p(last) {
        forall i | 0 <= i < |rest| ensures key(rest[i]) >= key(last) {
          assert rest[i] in init;
          var m :| 0 <= m < |init| && init[m] == rest[i];
          assert s[m] == rest[i];
        }
      }
    }
  }

  /** Take and Skip split a sequence; without repeats, the two parts share no element. */
  lemma TakeSkipPartition<T>(s: seq<T>, n: int)
    requires NoDuplicates(s)
    ensures forall x :: x in s <==> x in Take(s, n) || x in Skip(s, n)
    ensures forall x :: x in Take(s, n) ==> x !in Skip(s, n)
    ensures NoDuplicates(Take(s, n)) && NoDuplicates(Skip(s, n))
  {
    var t := Take(s, n);
    var d := Skip(s, n);
    assert t + d == s;
    assert NoDuplicates(t) by {
      forall i, j | 0 <= i < j < |t| ensures t[i] != t[j] {
        assert t[i] == s[i] && t[j] == s[j];
      }
    }
    assert NoDuplicates(d) by {
      forall i, j | 0 <= i < j < |d| ensures d[i] != d[j] {
        assert d[i] == s[|t| + i] && d[j] == s[|t| + j];
      }
    }
  }

  /** FirstOrDefault depends on its predicate only through the values it takes. */
  lemma {:induction false} FirstMatchSamePredicate<T>(s: seq<T>, p: T -> bool, q: T -> bool)
    requires forall i :: 0 <= i < |s| ==> p(s[i]) == q(s[i])
    ensures FirstMatch(s, p) == FirstMatch(s, q)
  {
    if |s| > 0 && !p(s[0]) {
      assert forall i :: 1 <= i < |s| ==> s[1..][i - 1] == s[i];
      FirstMatchSamePredicate(s[1..], p, q);
    }
  }

  /** The set of the elements of `s`. */
  function Elements<T(!new)>(s: seq<T>): (r: set<T>)
    ensures forall x :: x in r <==> x in s
  {
    set x | x in s
  }

  lemma ElementsSnoc<T(!new)>(s: seq<T>, x: T)
    ensures Elements(s + [x]) == Elements(s) + {x}
  {
  }

  /** The defined results of `f` over `s`, in order (a Select to an optional value followed by a Where). */
  function FilterMap<T, U>(s: seq<T>, f: T -> Option<U>): (r: seq<U>)
    ensures |r| <= |s|
  {
    if |s| == 0 then []
    else
      var rest := FilterMap(s[..|s| - 1], f);
      var last := f(s[|s| - 1]);
      if last.Some? then rest + [last.value] else rest
  }

  lemma FilterMapStep<T, U>(s: seq<T>, f: T -> Option<U>, i: int)
    requires 0 <= i < |s|
    ensures FilterMap(s[..i + 1], f) == FilterMap(s[..i], f) + (if f(s[i]).Some? then [f(s[i]).value] else [])
  {
    assert s[..i + 1][..i] == s[..i];
  }

  lemma {:induction false} FilterMapMembers<T, U(!new)>(s: seq<T>, f: T -> Option<U>)
    ensures forall x :: x in FilterMap(s, f) <==> exists i :: 0 <= i < |s| && f(s[i]) == Some(x)
  {
    if |s| > 0 {
      var init := s[..|s| - 1];
      FilterMapMembers(init, f);
      forall x ensures x in FilterMap(s, f) <==> exists i :: 0 <= i < |s| && f(s[i]) == Some(x) {
        if exists i :: 0 <= i < |s| && f(s[i]) == Some(x) {
          var i :| 0 <= i < |s| && f(s[i]) == Some(x);
          if i < |init| {
            assert init[i] == s[i];
          }
        }
        if exists i :: 0 <= i < |init| && f(init[i]) == Some(x) {
          var i :| 0 <= i < |init| && f(init[i]) == Some(x);
          assert init[i] == s[i];
        }
      }
    }
  }

  /** Distinct grows by the new element exactly when it has not been seen. */
  lemma DistinctSnoc<T(!new)>(s: seq<T>, x: T)
    ensures Distinct(s + [x]) == if x in s then Distinct(s) else Distinct(s) + [x]
  {
    assert (s + [x])[..|s|] == s;
  }

  /**
   * The first `n` of a descending sequence: still descending, holding the
   * elements before position `n`, and when something lies at or beyond `n`,
   * exactly `n` were kept and each has a key at least that of anything
   * left out.
   */
  lemma TakeOfSorted<T>(s: seq<T>, key: T -> real, n: nat)
    requires SortedDesc(s, key)
    ensures SortedDesc(Take(s, n), key)
    ensures forall j :: 0 <= j < |s| && j < n ==> s[j] in Take(s, n)
    ensures forall j :: n <= j < |s| ==>
              |Take(s, n)| == n && forall i :: 0 <= i < |Take(s, n)| ==> key(Take(s, n)[i]) >= key(s[j])
  {
    var t := Take(s, n);
    forall j | 0 <= j < |s| && j < n ensures s[j] in t {
      assert t[j] == s[j];
    }
  }

  /** In a sorted sequence every kept element ranks at least as high as every skipped one. */
  lemma TakeBeforeSkip<T>(s: seq<T>, key: T -> real, n: int)
    requires SortedDesc(s, key)
    ensures forall a, b :: a in Take(s, n) && b in Skip(s, n) ==> key(a) >= key(b)
  {
    var t, d := Take(s, n), Skip(s, n);
    assert t + d == s;
    forall a, b | a in t && b in d
      ensures key(a) >= key(b)
    {
      var i :| 0 <= i < |t| && t[i] == a;
      var j :| 0 <= j < |d| && d[j] == b;
      assert s[i] == a && s[|t| + j] == b;
    }
  }

  /** TakeOfSorted stated on elements: whatever is left out ranks no higher than anything kept. */
  lemma TakeOfSortedLeftOut<T>(s: seq<T>, key: T -> real, n: nat)
    requires SortedDesc(s, key)
    ensures forall y :: y in s && y !in Take(s, n) ==>
              |Take(s, n)| == n && forall x :: x in Take(s, n) ==> key(x) >= key(y)
  {
    TakeOfSorted(s, key, n);
    forall y | y in s && y !in Take(s, n)
      ensures |Take(s, n)| == n && forall x :: x in Take(s, n) ==> key(x) >= key(y)
    {
      var j :| 0 <= j < |s| && s[j] == y;
      assert n <= j;
    }
  }

  /** Filtering by `p` and then by `q` is filtering by their conjunction. */
  lemma {:induction false} FilterTwice<T(!new)>(s: seq<T>, p: T -> bool, q: T -> bool, both: T -> bool)
    requires forall x :: both(x) == (p(x) && q(x))
    ensures Filter(Filter(s, p), q) == Filter(s, both)
  {
    if |s| > 0 {
      var init, last := s[..|s| - 1], s[|s| - 1];
      FilterTwice(init, p, q, both);
      if p(last) {
        var kept := Filter(init, p) + [last];
        assert kept[..|kept| - 1] == Filter(init, p);
      }
    }
  }

  /** Filtering by a predicate every element satisfies changes nothing. */
  lemma {:induction false} FilterKeepsAll<T(!new)>(s: seq<T>, p: T -> bool)
    requires forall x :: x in s ==> p(x)
    ensures Filter(s, p) == s
  {
    if |s| > 0 {
      var init := s[..|s| - 1];
      assert forall x :: x in init ==> x in s;
      FilterKeepsAll(init, p);
      assert s[|s| - 1] in s;
    }
  }
}
