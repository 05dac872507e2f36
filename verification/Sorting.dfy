/** Stable sorting by a total order, and the facts about it the other modules use. */
module Sorting {

  ghost predicate TotalOrder<T(!new)>(le: (T, T) -> bool) {
    && (forall a, b :: le(a, b) || le(b, a))
    && (forall a, b, c :: le(a, b) && le(b, c) ==> le(a, c))
  }

  ghost predicate SortedBy<T>(le: (T, T) -> bool, s: seq<T>) {
    forall i, j :: 0 <= i < j < |s| ==> le(s[i], s[j])
  }

  /** Puts `x` behind everything that may stay before it. */
  function InsertBy<T>(le: (T, T) -> bool, s: seq<T>, x: T): seq<T>
    decreases |s|
  {
    if s == [] then [x]
    else if le(s[|s| - 1], x) then s + [x]
    else InsertBy(le, s[..|s| - 1], x) + [s[|s| - 1]]
  }

  function SortBy<T>(le: (T, T) -> bool, s: seq<T>): seq<T>
    decreases |s|
  {
    if s == [] then [] else InsertBy(le, SortBy(le, s[..|s| - 1]), s[|s| - 1])
  }

  lemma {:induction false} InsertPermutes<T>(le: (T, T) -> bool, s: seq<T>, x: T)
    ensures multiset(InsertBy(le, s, x)) == multiset(s) + multiset{x}
    decreases |s|
  {
    if s != [] {
      assert s == s[..|s| - 1] + [s[|s| - 1]];
      if !le(s[|s| - 1], x) { InsertPermutes(le, s[..|s| - 1], x); }
    }
  }

  lemma {:induction false} SortPermutes<T>(le: (T, T) -> bool, s: seq<T>)
    ensures multiset(SortBy(le, s)) == multiset(s) && |SortBy(le, s)| == |s|
    decreases |s|
  {
    if s != [] {
      SortPermutes(le, s[..|s| - 1]);
      InsertPermutes(le, SortBy(le, s[..|s| - 1]), s[|s| - 1]);
      assert s == s[..|s| - 1] + [s[|s| - 1]];
    }
    assert |multiset(SortBy(le, s))| == |SortBy(le, s)| && |multiset(s)| == |s|;
  }

  lemma {:induction false} InsertMembers<T>(le: (T, T) -> bool, s: seq<T>, x: T, y: T)
    requires y in InsertBy(le, s, x)
    ensures y in s || y == x
  {
    InsertPermutes(le, s, x);
    assert y in multiset(InsertBy(le, s, x));
  }

  lemma {:induction false} InsertSorted<T(!new)>(le: (T, T) -> bool, s: seq<T>, x: T)
    requires TotalOrder(le) && SortedBy(le, s)
    ensures SortedBy(le, InsertBy(le, s, x))
    decreases |s|
  {
    if s != [] {
      var last, front := s[|s| - 1], s[..|s| - 1];
      if le(last, x) {
        forall i | 0 <= i < |s| ensures le(s[i], x) { if i < |s| - 1 { assert le(s[i], last); } }
      } else {
        InsertSorted(le, front, x);
        var r := InsertBy(le, front, x);
        forall i | 0 <= i < |r| ensures le(r[i], last) {
          InsertMembers(le, front, x, r[i]);
          if r[i] in front {
            var k :| 0 <= k < |front| && front[k] == r[i];
            assert le(s[k], s[|s| - 1]);
          }
        }
      }
    }
  }

  lemma {:induction false} SortSorts<T(!new)>(le: (T, T) -> bool, s: seq<T>)
    requires TotalOrder(le)
    ensures SortedBy(le, SortBy(le, s))
    decreases |s|
  {
    if s != [] {
      SortSorts(le, s[..|s| - 1]);
      InsertSorted(le, SortBy(le, s[..|s| - 1]), s[|s| - 1]);
    }
  }

  /** Sorting is stable: of several elements that come first, the earliest in `s` leads. */
  lemma {:induction false} SortHead<T(!new)>(le: (T, T) -> bool, s: seq<T>, k: nat)
    requires TotalOrder(le) && k < |s|
    requires (forall j :: 0 <= j < |s| ==> le(s[k], s[j])) && (forall j :: 0 <= j < k ==> !le(s[j], s[k]))
    ensures SortBy(le, s) != [] && SortBy(le, s)[0] == s[k]
    decreases |s|
  {
    var front, last := s[..|s| - 1], s[|s| - 1];
    SortPermutes(le, front);
    var sorted := SortBy(le, front);
    if k < |s| - 1 {
      SortHead(le, front, k);
      InsertKeepsHead(le, sorted, last);
    } else {
      forall y | y in sorted ensures !le(y, last) {
        assert y in multiset(sorted);
        assert y in front;
        var j :| 0 <= j < |front| && front[j] == y;
        assert !le(s[j], s[k]);
      }
      InsertInFront(le, sorted, last);
    }
  }

  lemma {:induction false} InsertKeepsHead<T>(le: (T, T) -> bool, s: seq<T>, x: T)
    requires s != [] && le(s[0], x)
    ensures InsertBy(le, s, x) != [] && InsertBy(le, s, x)[0] == s[0]
    decreases |s|
  {
    if !le(s[|s| - 1], x) { InsertKeepsHead(le, s[..|s| - 1], x); }
  }

  lemma {:induction false} InsertInFront<T>(le: (T, T) -> bool, s: seq<T>, x: T)
    requires forall y :: y in s ==> !le(y, x)
    ensures InsertBy(le, s, x) == [x] + s
    decreases |s|
  {
    if s != [] {
      assert s[|s| - 1] in s;
      InsertInFront(le, s[..|s| - 1], x);
      assert s == s[..|s| - 1] + [s[|s| - 1]];
    }
  }

  /** Two sorted lists with the same elements, counted, are the same when the order has no ties. */
  lemma {:induction false} SortedUnique<T(!new)>(le: (T, T) -> bool, a: seq<T>, b: seq<T>)
    requires TotalOrder(le) && Antisymmetric(le)
    requires SortedBy(le, a) && SortedBy(le, b) && multiset(a) == multiset(b)
    ensures a == b
    decreases |a|
  {
    hide TotalOrder, SortedBy, Antisymmetric;
    SameLength(a, b);
    if a != [] {
      SameHead(le, a, b);
      TailCounts(a);
      TailCounts(b);
      TailSorted(le, a);
      TailSorted(le, b);
      SortedUnique(le, a[1..], b[1..]);
      assert a == [a[0]] + a[1..] && b == [b[0]] + b[1..];
    }
  }

  lemma SameHead<T(!new)>(le: (T, T) -> bool, a: seq<T>, b: seq<T>)
    requires a != [] && b != [] && TotalOrder(le) && Antisymmetric(le)
    requires SortedBy(le, a) && SortedBy(le, b) && multiset(a) == multiset(b)
    ensures a[0] == b[0]
  {
    HeadBelow(le, a, b);
    HeadBelow(le, b, a);
  }

  lemma SameLength<T>(a: seq<T>, b: seq<T>)
    requires multiset(a) == multiset(b)
    ensures |a| == |b|
  {
    assert |multiset(a)| == |a| && |multiset(b)| == |b|;
  }

  lemma TailSorted<T>(le: (T, T) -> bool, a: seq<T>)
    requires a != [] && SortedBy(le, a)
    ensures SortedBy(le, a[1..])
  {
  }

  lemma HeadBelow<T(!new)>(le: (T, T) -> bool, a: seq<T>, b: seq<T>)
    requires a != [] && b != [] && TotalOrder(le) && SortedBy(le, a) && multiset(a) == multiset(b)
    ensures le(a[0], b[0])
  {
    assert b[0] in multiset(a);
    var j :| 0 <= j < |a| && a[j] == b[0];
    if j > 0 { assert le(a[0], a[j]); }
  }

  lemma TailCounts<T>(a: seq<T>)
    requires a != []
    ensures multiset(a[1..]) == multiset(a) - multiset{a[0]}
  {
    assert a == [a[0]] + a[1..];
  }

  // ----- sets as strictly ascending lists -----

  ghost predicate Distinct<T>(s: seq<T>) { forall i, j :: 0 <= i < j < |s| ==> s[i] != s[j] }

  ghost predicate Ascending<T>(le: (T, T) -> bool, s: seq<T>) {
    forall i, j :: 0 <= i < j < |s| ==> le(s[i], s[j]) && s[i] != s[j]
  }

  ghost predicate Antisymmetric<T(!new)>(le: (T, T) -> bool) { forall x, y :: le(x, y) && le(y, x) ==> x == y }

  lemma {:induction false} DistinctCounts<T(!new)>(s: seq<T>)
    requires Distinct(s)
    ensures forall x :: multiset(s)[x] == if x in s then 1 else 0
    decreases |s|
  {
    if s != [] {
      DistinctCounts(s[1..]);
      assert s == [s[0]] + s[1..];
      assert s[0] !in s[1..];
    }
  }

  lemma CountsDistinct<T(!new)>(s: seq<T>)
    requires forall x :: multiset(s)[x] <= 1
    ensures Distinct(s)
  {
    forall i, j | 0 <= i < j < |s| ensures s[i] != s[j] {
      var x, y := s[i], s[j];
      assert s == s[..i] + [x] + s[i + 1..j] + [y] + s[j + 1..];
      var all := multiset(s[..i]) + multiset{x} + multiset(s[i + 1..j]) + multiset{y} + multiset(s[j + 1..]);
      assert multiset(s) == all;
      assert all[x] >= 1 + multiset{y}[x];
    }
  }

  lemma SortDistinct<T(!new)>(le: (T, T) -> bool, s: seq<T>)
    requires TotalOrder(le) && Distinct(s)
    ensures Ascending(le, SortBy(le, s))
    ensures forall x :: x in SortBy(le, s) <==> x in s
  {
    hide SortBy;
    SortPermutes(le, s);
    SortSorts(le, s);
    DistinctCounts(s);
    CountsDistinct(SortBy(le, s));
    forall x ensures x in SortBy(le, s) <==> x in s {
      assert x in multiset(SortBy(le, s)) <==> x in multiset(s);
    }
  }

  /** A set has one strictly ascending listing. */
  lemma AscendingUnique<T(!new)>(le: (T, T) -> bool, a: seq<T>, b: seq<T>)
    requires TotalOrder(le) && Antisymmetric(le) && Ascending(le, a) && Ascending(le, b)
    requires forall x :: x in a <==> x in b
    ensures a == b
  {
    DistinctCounts(a);
    DistinctCounts(b);
    assert multiset(a) == multiset(b);
    SortedUnique(le, a, b);
  }

  /** Drops repeats of the element just kept. */
  function Dedup<T(==)>(s: seq<T>): seq<T>
    decreases |s|
  {
    if |s| < 2 then s
    else if s[|s| - 1] == s[|s| - 2] then Dedup(s[..|s| - 1])
    else Dedup(s[..|s| - 1]) + [s[|s| - 1]]
  }

  lemma {:induction false} DedupExact<T(!new)>(le: (T, T) -> bool, s: seq<T>)
    requires TotalOrder(le) && Antisymmetric(le) && SortedBy(le, s)
    ensures Ascending(le, Dedup(s)) && (forall x :: x in Dedup(s) <==> x in s)
    decreases |s|
  {
    if |s| >= 2 {
      var front, last := s[..|s| - 1], s[|s| - 1];
      DedupExact(le, front);
      var r := Dedup(front);
      assert s == front + [last];
      if last == front[|front| - 1] {
        assert last in front;
      } else {
        forall i | 0 <= i < |r| ensures le(r[i], last) && r[i] != last {
          assert r[i] in front;
          var k :| 0 <= k < |front| && front[k] == r[i];
          assert le(s[k], s[|s| - 1]) && le(s[k], s[|s| - 1]);
          if k < |front| - 1 { assert le(s[k], s[|s| - 2]) && le(s[|s| - 2], s[|s| - 1]); }
        }
      }
    }
  }

  function SortedSet<T(==)>(le: (T, T) -> bool, s: seq<T>): seq<T> { Dedup(SortBy(le, s)) }

  lemma SortedSetExact<T(!new)>(le: (T, T) -> bool, s: seq<T>)
    requires TotalOrder(le) && Antisymmetric(le)
    ensures Ascending(le, SortedSet(le, s)) && (forall x :: x in SortedSet(le, s) <==> x in s)
  {
    hide SortBy, Dedup;
    SortSorts(le, s);
    SortPermutes(le, s);
    DedupExact(le, SortBy(le, s));
    forall x ensures x in SortBy(le, s) <==> x in s {
      assert x in multiset(SortBy(le, s)) <==> x in multiset(s);
    }
  }

  // ----- strings in dictionary order -----

  predicate StrLe(a: string, b: string) {
    a == [] || (b != [] && (if a[0] == b[0] then StrLe(a[1..], b[1..]) else a[0] < b[0]))
  }

  lemma {:induction false} StrLeTotal(a: string, b: string)
    ensures StrLe(a, b) || StrLe(b, a)
  {
    if a != [] && b != [] && a[0] == b[0] { StrLeTotal(a[1..], b[1..]); }
  }

  lemma {:induction false} StrLeTrans(a: string, b: string, c: string)
    requires StrLe(a, b) && StrLe(b, c)
    ensures StrLe(a, c)
  {
    if a != [] && a[0] == b[0] == c[0] { StrLeTrans(a[1..], b[1..], c[1..]); }
  }

  lemma {:induction false} StrLeAntisym(a: string, b: string)
    requires StrLe(a, b) && StrLe(b, a)
    ensures a == b
  {
    if a != [] && b != [] { StrLeAntisym(a[1..], b[1..]); }
  }

  lemma StrOrder()
    ensures TotalOrder(StrLe) && Antisymmetric(StrLe)
  {
    forall a, b ensures StrLe(a, b) || StrLe(b, a) { StrLeTotal(a, b); }
    forall a, b, c | StrLe(a, b) && StrLe(b, c) ensures StrLe(a, c) { StrLeTrans(a, b, c); }
    forall a, b | StrLe(a, b) && StrLe(b, a) ensures a == b { StrLeAntisym(a, b); }
  }
}
