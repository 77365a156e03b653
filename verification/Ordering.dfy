/** Orders the source sorts by, and Python's stable `sorted`. */
module Ordering {

  // ----- strict orders -----

  /** Asymmetric and negatively transitive: the order of a sort key. */
  ghost predicate StrictWeakOrder<T(!new)>(less: (T, T) -> bool) {
    && (forall a, b :: less(a, b) ==> !less(b, a))
    && (forall a, b, c :: less(a, c) ==> less(a, b) || less(b, c))
  }

  /** Strings compare by their first differing character, a proper prefix first. */
  predicate StringLess(a: string, b: string) {
    if |b| == 0 then false
    else if |a| == 0 then true
    else a[0] < b[0] || (a[0] == b[0] && StringLess(a[1..], b[1..]))
  }

  lemma {:induction false} StringAsymmetric(a: string, b: string)
    requires StringLess(a, b)
    ensures !StringLess(b, a)
  {
    if |a| > 0 && a[0] == b[0] {
      StringAsymmetric(a[1..], b[1..]);
    }
  }

  lemma {:induction false} StringTotal(a: string, b: string)
    ensures a == b || StringLess(a, b) || StringLess(b, a)
  {
    if |a| > 0 && |b| > 0 && a[0] == b[0] {
      StringTotal(a[1..], b[1..]);
      if a[1..] == b[1..] {
        assert a == [a[0]] + a[1..] && b == [b[0]] + b[1..];
      }
    }
  }

  lemma {:induction false} StringNegativelyTransitive(a: string, b: string, c: string)
    requires StringLess(a, c)
    ensures StringLess(a, b) || StringLess(b, c)
  {
    if |a| > 0 && |b| > 0 && a[0] == b[0] && b[0] == c[0] {
      StringNegativelyTransitive(a[1..], b[1..], c[1..]);
    }
  }

  lemma StringOrder()
    ensures StrictWeakOrder(StringLess)
    ensures forall a, b :: a == b || StringLess(a, b) || StringLess(b, a)
  {
    forall a, b ensures StringLess(a, b) ==> !StringLess(b, a) {
      if StringLess(a, b) { StringAsymmetric(a, b); }
    }
    forall a, b, c ensures StringLess(a, c) ==> StringLess(a, b) || StringLess(b, c) {
      if StringLess(a, c) { StringNegativelyTransitive(a, b, c); }
    }
    forall a, b ensures a == b || StringLess(a, b) || StringLess(b, a) {
      StringTotal(a, b);
    }
  }

  /** They differ first at `k`, where `a` ends or has the smaller character. */
  predicate DiffersAt(a: string, b: string, k: nat) {
    k <= |a| && k < |b| && a[..k] == b[..k] && (k == |a| || a[k] < b[k])
  }

  lemma StringLessIff(a: string, b: string)
    ensures StringLess(a, b) <==> exists k: nat :: DiffersAt(a, b, k)
  {
    hide StringLess, DiffersAt;
    if StringLess(a, b) {
      var k := FirstDifference(a, b);
    }
    if k: nat :| DiffersAt(a, b, k) {
      SmallerFromThere(a, b, k);
    }
  }

  lemma {:induction false} FirstDifference(a: string, b: string) returns (k: nat)
    requires StringLess(a, b)
    ensures DiffersAt(a, b, k)
  {
    if |a| == 0 || a[0] < b[0] {
      k := 0;
    } else {
      var j := FirstDifference(a[1..], b[1..]);
      k := j + 1;
      assert a[..k] == [a[0]] + a[1..][..j] && b[..k] == [b[0]] + b[1..][..j];
    }
  }

  lemma {:induction false} SmallerFromThere(a: string, b: string, k: nat)
    requires DiffersAt(a, b, k)
    ensures StringLess(a, b)
  {
    if k > 0 {
      assert a[0] == a[..k][0] == b[..k][0] == b[0];
      assert a[1..][..k - 1] == a[..k][1..] && b[1..][..k - 1] == b[..k][1..];
      SmallerFromThere(a[1..], b[1..], k - 1);
    }
  }

  /** A sort key: three numbers compared in turn, then a name. */
  datatype RankKey = RankKey(first: real, second: real, third: real, name: string)

  predicate RankLess(a: RankKey, b: RankKey) {
    || a.first < b.first
    || (a.first == b.first && a.second < b.second)
    || (a.first == b.first && a.second == b.second && a.third < b.third)
    || (a.first == b.first && a.second == b.second && a.third == b.third && StringLess(a.name, b.name))
  }

  lemma RankOrder()
    ensures StrictWeakOrder(RankLess)
    ensures forall a, b :: a == b || RankLess(a, b) || RankLess(b, a)
  {
    StringOrder();
  }

  // ----- stable sorting -----

  /** Places `x` before the first element that is not smaller. */
  function Insert<T>(x: T, s: seq<T>, less: (T, T) -> bool): (r: seq<T>)
    ensures |r| == |s| + 1
  {
    if |s| == 0 then [x]
    else if less(s[0], x) then [s[0]] + Insert(x, s[1..], less)
    else [x] + s
  }

  /** `sorted(s, key=...)`: ascending, equal keys in their original order. */
  function SortBy<T>(s: seq<T>, less: (T, T) -> bool): (r: seq<T>)
    ensures |r| == |s|
  {
    if |s| == 0 then [] else Insert(s[0], SortBy(s[1..], less), less)
  }

  lemma {:induction false} InsertMultiset<T>(x: T, s: seq<T>, less: (T, T) -> bool)
    ensures multiset(Insert(x, s, less)) == multiset{x} + multiset(s)
  {
    if |s| > 0 {
      assert s == [s[0]] + s[1..];
      if less(s[0], x) {
        InsertMultiset(x, s[1..], less);
      }
    }
  }

  /** Sorting permutes. */
  lemma {:induction false} SortMultiset<T>(s: seq<T>, less: (T, T) -> bool)
    ensures multiset(SortBy(s, less)) == multiset(s)
  {
    if |s| > 0 {
      assert s == [s[0]] + s[1..];
      SortMultiset(s[1..], less);
      InsertMultiset(s[0], SortBy(s[1..], less), less);
    }
  }

  ghost predicate Ascending<T(!new)>(s: seq<T>, less: (T, T) -> bool) {
    forall i, j :: 0 <= i < j < |s| ==> !less(s[j], s[i])
  }

  lemma {:induction false} InsertAscending<T(!new)>(x: T, s: seq<T>, less: (T, T) -> bool)
    requires StrictWeakOrder(less) && Ascending(s, less)
    ensures Ascending(Insert(x, s, less), less)
  {
    if |s| > 0 {
      if less(s[0], x) {
        var rest := Insert(x, s[1..], less);
        InsertAscending(x, s[1..], less);
        InsertMultiset(x, s[1..], less);
        forall y | y in rest ensures !less(y, s[0]) {
          assert y in multiset(rest);
          assert y == x || y in s[1..];
        }
      } else {
        forall y | y in s ensures !less(y, x) {
          assert !less(s[0], x) && !less(y, s[0]);
        }
      }
    }
  }

  lemma {:induction false} SortAscending<T(!new)>(s: seq<T>, less: (T, T) -> bool)
    requires StrictWeakOrder(less)
    ensures Ascending(SortBy(s, less), less)
  {
    if |s| > 0 {
      SortAscending(s[1..], less);
      InsertAscending(s[0], SortBy(s[1..], less), less);
    }
  }

  lemma SortMembers<T>(s: seq<T>, less: (T, T) -> bool)
    ensures forall x :: x in SortBy(s, less) <==> x in s
  {
    SortMultiset(s, less);
    forall x ensures x in SortBy(s, less) <==> x in s {
      assert x in SortBy(s, less) <==> x in multiset(SortBy(s, less));
      assert x in s <==> x in multiset(s);
    }
  }

  /** The head of a sorted list is least among the elements that were sorted. */
  lemma SortHeadLeast<T(!new)>(s: seq<T>, less: (T, T) -> bool)
    requires StrictWeakOrder(less) && |s| > 0
    ensures SortBy(s, less)[0] in s
    ensures forall x :: x in s ==> !less(x, SortBy(s, less)[0])
  {
    SortAscending(s, less);
    SortMembers(s, less);
    var r := SortBy(s, less);
    assert r[0] in r;
    forall x | x in s ensures !less(x, r[0]) {
      var i :| 0 <= i < |r| && r[i] == x;
    }
  }

  // ----- filtering -----

  /** `[x for x in s if keep(x)]`. */
  function Filtered<T>(s: seq<T>, keep: T -> bool): (r: seq<T>) {
    if |s| == 0 then []
    else
      var rest := Filtered(s[..|s| - 1], keep);
      if keep(s[|s| - 1]) then rest + [s[|s| - 1]] else rest
  }

  lemma {:induction false} FilteredMembers<T>(s: seq<T>, keep: T -> bool)
    ensures forall x :: x in Filtered(s, keep) <==> x in s && keep(x)
  {
    if |s| > 0 {
      FilteredMembers(s[..|s| - 1], keep);
      assert s == s[..|s| - 1] + [s[|s| - 1]];
    }
  }

  lemma {:induction false} FilteredAgrees<T>(s: seq<T>, a: T -> bool, b: T -> bool)
    requires forall x :: x in s ==> a(x) == b(x)
    ensures Filtered(s, a) == Filtered(s, b)
  {
    if |s| > 0 {
      FilteredAgrees(s[..|s| - 1], a, b);
    }
  }

  /** A stricter condition that rejects some kept element keeps fewer. */
  lemma {:induction false} FilteredFewer<T>(s: seq<T>, a: T -> bool, b: T -> bool)
    requires forall x :: x in s && b(x) ==> a(x)
    ensures |Filtered(s, b)| <= |Filtered(s, a)|
    ensures (exists x :: x in s && a(x) && !b(x)) ==> |Filtered(s, b)| < |Filtered(s, a)|
  {
    if |s| > 0 {
      FilteredFewer(s[..|s| - 1], a, b);
      assert s == s[..|s| - 1] + [s[|s| - 1]];
    }
  }

  lemma {:induction false} FilteredConcat<T>(a: seq<T>, b: seq<T>, keep: T -> bool)
    ensures Filtered(a + b, keep) == Filtered(a, keep) + Filtered(b, keep)
  {
    if |b| == 0 {
      assert a + b == a;
    } else {
      assert (a + b)[..|a + b| - 1] == a + b[..|b| - 1];
      FilteredConcat(a, b[..|b| - 1], keep);
    }
  }

  lemma {:induction false} FilteredAll<T>(s: seq<T>, keep: T -> bool)
    requires forall i :: 0 <= i < |s| ==> keep(s[i])
    ensures Filtered(s, keep) == s
  {
    if |s| > 0 {
      FilteredAll(s[..|s| - 1], keep);
      assert s == s[..|s| - 1] + [s[|s| - 1]];
    }
  }

  lemma {:induction false} FilteredNone<T>(s: seq<T>, keep: T -> bool)
    requires forall i :: 0 <= i < |s| ==> !keep(s[i])
    ensures Filtered(s, keep) == []
  {
    if |s| > 0 {
      FilteredNone(s[..|s| - 1], keep);
    }
  }

  lemma FilteredUniform<T>(s: seq<T>, keep: T -> bool)
    ensures (forall x :: x in s ==> keep(x)) ==> Filtered(s, keep) == s
    ensures (forall x :: x in s ==> !keep(x)) ==> Filtered(s, keep) == []
  {
    hide Filtered;
    if forall x :: x in s ==> keep(x) {
      FilteredAll(s, keep);
    }
    if forall x :: x in s ==> !keep(x) {
      FilteredNone(s, keep);
    }
  }

  // ----- lists without repetition -----

  predicate Distinct<T(==)>(s: seq<T>) {
    forall i, j :: 0 <= i < j < |s| ==> s[i] != s[j]
  }

  lemma {:induction false} DistinctCounts<T>(s: seq<T>)
    ensures Distinct(s) <==> forall x :: x in s ==> multiset(s)[x] == 1
  {
    if |s| > 0 {
      assert s == [s[0]] + s[1..];
      DistinctCounts(s[1..]);
      if Distinct(s) {
        forall x | x in s ensures multiset(s)[x] == 1 {
          assert s[0] !in s[1..];
        }
      } else {
        var i, j :| 0 <= i < j < |s| && s[i] == s[j];
        if i == 0 {
          assert s[1..][j - 1] == s[0];
          assert multiset(s)[s[0]] >= 2;
        } else {
          assert s[1..][i - 1] == s[1..][j - 1];
          var x :| x in s[1..] && multiset(s[1..])[x] != 1;
          assert multiset(s)[x] >= 2;
        }
      }
    }
  }

  /** Reordering creates no repetition. */
  lemma DistinctReordered<T>(a: seq<T>, b: seq<T>)
    requires multiset(a) == multiset(b)
    ensures Distinct(a) <==> Distinct(b)
  {
    DistinctCounts(a);
    DistinctCounts(b);
    forall x ensures x in a <==> x in b {
      assert x in a <==> x in multiset(a);
      assert x in b <==> x in multiset(b);
    }
  }

  lemma SortDistinct<T>(s: seq<T>, less: (T, T) -> bool)
    requires Distinct(s)
    ensures Distinct(SortBy(s, less))
  {
    SortMultiset(s, less);
    DistinctReordered(s, SortBy(s, less));
  }

  // ----- removing one element -----

  function Without<T>(s: seq<T>, i: nat): (r: seq<T>)
    requires i < |s|
    ensures |r| == |s| - 1
  {
    s[..i] + s[i + 1..]
  }

  lemma WithoutMultiset<T>(s: seq<T>, i: nat)
    requires i < |s|
    ensures multiset(Without(s, i)) == multiset(s) - multiset{s[i]}
    ensures forall x :: x in Without(s, i) ==> x in s
  {
    assert s == s[..i] + [s[i]] + s[i + 1..];
  }

  ghost predicate FirstLeast<T(!new)>(s: seq<T>, less: (T, T) -> bool, i: nat) {
    && i < |s|
    && (forall j :: 0 <= j < |s| ==> !less(s[j], s[i]))
    && (forall j :: 0 <= j < i ==> less(s[i], s[j]))
  }

  /** A stable sort starts with the first of the least elements and goes on with the others. */
  lemma {:induction false} StableSortHead<T(!new)>(s: seq<T>, less: (T, T) -> bool, i: nat)
    requires StrictWeakOrder(less) && FirstLeast(s, less, i)
    ensures SortBy(s, less) == [s[i]] + SortBy(Without(s, i), less)
  {
    var x, t := s[0], s[1..];
    if i == 0 {
      assert Without(s, 0) == t;
      LeastInsertsFirst(x, t, less);
    } else {
      var k := i - 1;
      assert t[k] == s[i];
      assert FirstLeast(t, less, k) by {
        forall j | 0 <= j < |t| ensures !less(t[j], t[k]) && (j < k ==> less(t[k], t[j])) {
          assert t[j] == s[j + 1];
        }
      }
      StableSortHead(t, less, k);
      var rest := Without(t, k);
      assert SortBy(t, less)[1..] == SortBy(rest, less);
      assert Without(s, i) == [x] + rest;
      assert ([x] + rest)[1..] == rest;
    }
  }

  lemma LeastInsertsFirst<T(!new)>(x: T, t: seq<T>, less: (T, T) -> bool)
    requires StrictWeakOrder(less)
    requires forall j :: 0 <= j < |t| ==> !less(t[j], x)
    ensures Insert(x, SortBy(t, less), less) == [x] + SortBy(t, less)
  {
    SortMembers(t, less);
    var sorted := SortBy(t, less);
    if |sorted| > 0 {
      assert sorted[0] in sorted;
    }
  }
}
