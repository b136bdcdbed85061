/** Small building blocks shared by every component: results, filters and a stable sort. */
module Basics {

  datatype Option<+T> = None | Some(value: T)

  datatype Result<+T, +E> = Ok(value: T) | Err(error: E)

  function Max(a: int, b: int): int { if a < b then b else a }

  function Min(a: int, b: int): int { if a < b then a else b }

  /** The elements of `s` that satisfy `keep`, in their original order. */
  function Filter<T(!new)>(s: seq<T>, keep: T -> bool): (r: seq<T>)
    ensures forall x :: x in r <==> x in s && keep(x)
  {
    if s == [] then [] else (if keep(s[0]) then [s[0]] else []) + Filter(s[1..], keep)
  }

  /** The position of the last element that satisfies `found`. */
  function FindLast<T>(s: seq<T>, found: T -> bool): (r: Option<nat>)
    ensures r.Some? ==> r.value < |s| && found(s[r.value]) && forall i :: r.value < i < |s| ==> !found(s[i])
    ensures r.None? ==> forall i :: 0 <= i < |s| ==> !found(s[i])
  {
    if s == [] then None
    else if found(s[|s| - 1]) then Some(|s| - 1)
    else FindLast(s[..|s| - 1], found)
  }

  lemma HasMember<T(!new)>(s: seq<T>)
    requires s != []
    ensures exists x :: x in s
  {
    assert s[0] in s;
  }

  ghost predicate Sorted<T>(s: seq<T>, key: T -> int) {
    forall i, j :: 0 <= i < j < |s| ==> key(s[i]) <= key(s[j])
  }

  ghost predicate StrictlySorted<T>(s: seq<T>, key: T -> int) {
    forall i, j :: 0 <= i < j < |s| ==> key(s[i]) < key(s[j])
  }

  ghost predicate DistinctKeys<T>(s: seq<T>, key: T -> int) {
    forall i, j :: 0 <= i < j < |s| ==> key(s[i]) != key(s[j])
  }

  function InsertBy<T(!new)>(x: T, s: seq<T>, key: T -> int): (r: seq<T>)
    requires Sorted(s, key)
    ensures Sorted(r, key)
    ensures forall y :: y in r <==> y == x || y in s
    ensures |r| == |s| + 1
  {
    if s == [] || key(x) <= key(s[0]) then [x] + s
    else
      var rest := InsertBy(x, s[1..], key);
      assert forall i :: 0 <= i < |rest| ==> rest[i] in rest && (rest[i] == x || rest[i] in s[1..]);
      [s[0]] + rest
  }

  /** Stable sort by an integer key, as Python's `sorted(..., key=...)`. */
  function SortBy<T(!new)>(s: seq<T>, key: T -> int): (r: seq<T>)
    ensures Sorted(r, key)
    ensures forall y :: y in r <==> y in s
    ensures |r| == |s|
  {
    if s == [] then [] else InsertBy(s[0], SortBy(s[1..], key), key)
  }

  lemma InsertByStrict<T(!new)>(x: T, s: seq<T>, key: T -> int)
    requires StrictlySorted(s, key)
    requires forall y :: y in s ==> key(y) != key(x)
    ensures Sorted(s, key) && StrictlySorted(InsertBy(x, s, key), key)
  {
    if s != [] && key(s[0]) < key(x) {
      InsertByStrict(x, s[1..], key);
      var rest := InsertBy(x, s[1..], key);
      forall y | y in rest ensures key(s[0]) < key(y) {
        if y != x {
          var k :| 0 <= k < |s[1..]| && s[1..][k] == y;
        }
      }
    }
  }

  lemma SortByStrict<T(!new)>(s: seq<T>, key: T -> int)
    requires DistinctKeys(s, key)
    ensures StrictlySorted(SortBy(s, key), key)
  {
    if s != [] {
      SortByStrict(s[1..], key);
      forall y | y in s[1..] ensures key(y) != key(s[0]) {
        var k :| 0 <= k < |s[1..]| && s[1..][k] == y;
      }
      InsertByStrict(s[0], SortBy(s[1..], key), key);
    }
  }

  /** Two strictly sorted sequences with the same elements are equal. */
  lemma {:induction false} StrictlySortedUnique<T(!new)>(a: seq<T>, b: seq<T>, key: T -> int)
    requires StrictlySorted(a, key) && StrictlySorted(b, key)
    requires forall y :: y in a <==> y in b
    ensures a == b
  {
    if a == [] {
      assert forall i :: 0 <= i < |b| ==> b[i] in a;
    } else {
      assert a[0] in b;
      assert a[0] in b && b[0] in a;
      assert a[0] == b[0];
      forall y ensures y in a[1..] <==> y in b[1..] {
        SplitHead(a, key, y);
        SplitHead(b, key, y);
      }
      StrictlySortedUnique(a[1..], b[1..], key);
    }
  }

  lemma SplitHead<T(!new)>(a: seq<T>, key: T -> int, y: T)
    requires a != [] && StrictlySorted(a, key)
    ensures y in a[1..] <==> y in a && y != a[0]
  {
    if y in a[1..] {
      var k :| 0 <= k < |a[1..]| && a[1..][k] == y;
      assert a[k + 1] == y;
    }
  }

  // --- The first of a sorted sequence -----------------------------------------------------

  ghost predicate Distinct<T>(s: seq<T>) {
    forall i, j :: 0 <= i < j < |s| ==> s[i] != s[j]
  }

  /** At most the first `limit` elements. */
  function Limited<T>(s: seq<T>, limit: nat): (r: seq<T>)
    ensures forall x :: x in r ==> x in s
    ensures |s| <= limit ==> r == s
    ensures Distinct(s) ==> Distinct(r)
  {
    if |s| <= limit then s else s[..limit]
  }

  lemma InsertDistinct<T(!new)>(x: T, s: seq<T>, key: T -> int)
    requires Sorted(s, key) && Distinct(s) && x !in s
    ensures Distinct(InsertBy(x, s, key))
  {
    if s != [] && key(s[0]) < key(x) {
      InsertDistinct(x, s[1..], key);
      var rest := InsertBy(x, s[1..], key);
      assert forall i :: 0 <= i < |rest| ==> rest[i] in rest;
      forall y | y in rest ensures y != s[0] {
        if y in s[1..] {
          var k :| 0 <= k < |s[1..]| && s[1..][k] == y;
        }
      }
    }
  }

  lemma SortDistinct<T(!new)>(s: seq<T>, key: T -> int)
    requires Distinct(s)
    ensures Distinct(SortBy(s, key))
  {
    if s != [] {
      SortDistinct(s[1..], key);
      forall y | y in s[1..] ensures y != s[0] {
        var k :| 0 <= k < |s[1..]| && s[1..][k] == y;
      }
      InsertDistinct(s[0], SortBy(s[1..], key), key);
    }
  }

  /** Sorting and taking the first `limit` takes all there are or that many, and leaves out none that comes earlier. */
  lemma TakesFirst<T(!new)>(s: seq<T>, key: T -> int, limit: nat)
    requires Distinct(s)
    ensures var r := Limited(SortBy(s, key), limit);
            && |r| == Min(limit, |s|) && Distinct(r) && Sorted(r, key)
            && (forall x, y :: x in r && y in s && y !in r ==> key(x) <= key(y))
  {
    SortDistinct(s, key);
    var ordered, r := SortBy(s, key), Limited(SortBy(s, key), limit);
    forall x, y | x in r && y in s && y !in r ensures key(x) <= key(y) {
      assert y in ordered;
      var i :| 0 <= i < |r| && r[i] == x;
      var j :| 0 <= j < |ordered| && ordered[j] == y;
      assert ordered[i] == x;
      assert forall k :: 0 <= k < |r| ==> r[k] == ordered[k];
    }
  }

  ghost function Members<T(!new)>(s: seq<T>): (r: set<T>)
    ensures forall x :: x in r <==> x in s
  {
    set x | x in s
  }

  /** Distinct elements are as many as their set. */
  lemma {:induction false} DistinctSize<T(!new)>(s: seq<T>)
    requires Distinct(s)
    ensures |Members(s)| == |s|
  {
    if s != [] {
      var init, last := s[..|s| - 1], s[|s| - 1];
      DistinctSize(init);
      assert s == init + [last] && last !in init;
      assert Members(s) == Members(init) + {last};
    }
  }
}
