/**
 * The stable sort behind Stream.sorted(comparator) and Stream.sorted() on
 * paths, as an insertion sort over a total preorder `le` ("x sorts no later
 * than y").
 */
module Sorting {

  ghost predicate TotalPreorder<T(!new)>(le: (T, T) -> bool) {
    && (forall x, y :: le(x, y) || le(y, x))
    && (forall x, y, z :: le(x, y) && le(y, z) ==> le(x, z))
  }

  ghost predicate SortedBy<T>(s: seq<T>, le: (T, T) -> bool) {
    forall i, j :: 0 <= i < j < |s| ==> le(s[i], s[j])
  }

  /** The elements of s that sort level with e, in their order in s. */
  function Ties<T>(s: seq<T>, e: T, le: (T, T) -> bool): (r: seq<T>)
    ensures |r| <= |s|
  {
    if s == [] then []
    else (if le(s[0], e) && le(e, s[0]) then [s[0]] else []) + Ties(s[1..], e, le)
  }

  /** Puts x before the first element it sorts no later than. */
  function Insert<T>(x: T, s: seq<T>, le: (T, T) -> bool): (r: seq<T>)
    ensures multiset(r) == multiset(s) + multiset{x}
  {
    if s == [] then [x]
    else if le(x, s[0]) then [x] + s
    else
      assert s == [s[0]] + s[1..];
      [s[0]] + Insert(x, s[1..], le)
  }

  function SortBy<T>(s: seq<T>, le: (T, T) -> bool): (r: seq<T>)
    ensures multiset(r) == multiset(s)
    ensures |r| == |s|
  {
    if s == [] then []
    else
      assert s == [s[0]] + s[1..];
      Insert(s[0], SortBy(s[1..], le), le)
  }

  lemma {:induction false} InsertSorted<T(!new)>(x: T, s: seq<T>, le: (T, T) -> bool)
    requires TotalPreorder(le) && SortedBy(s, le)
    ensures SortedBy(Insert(x, s, le), le)
  {
    if s != [] && !le(x, s[0]) {
      InsertSorted(x, s[1..], le);
      var t := Insert(x, s[1..], le);
      forall y | y in t ensures le(s[0], y) {
        assert y in multiset(t);
        if y != x {
          assert y in multiset(s[1..]);
          var k :| 0 <= k < |s[1..]| && s[1..][k] == y;
          assert s[k + 1] == y;
        }
      }
      var r := [s[0]] + t;
      forall i, j | 0 <= i < j < |r| ensures le(r[i], r[j]) {
        if i == 0 { assert r[j] == t[j - 1]; assert r[j] in t; }
      }
    }
  }

  /** The result is ordered by le. */
  lemma {:induction false} SortBySorted<T(!new)>(s: seq<T>, le: (T, T) -> bool)
    requires TotalPreorder(le)
    ensures SortedBy(SortBy(s, le), le)
  {
    if s != [] {
      SortBySorted(s[1..], le);
      InsertSorted(s[0], SortBy(s[1..], le), le);
    }
  }

  lemma {:induction false} InsertTies<T(!new)>(x: T, s: seq<T>, e: T, le: (T, T) -> bool)
    requires TotalPreorder(le)
    ensures Ties(Insert(x, s, le), e, le) ==
            (if le(x, e) && le(e, x) then [x] else []) + Ties(s, e, le)
  {
    var cx: seq<T> := if le(x, e) && le(e, x) then [x] else [];
    if s == [] {
      assert Ties([x], e, le) == cx + Ties([x][1..], e, le);
    } else if le(x, s[0]) {
      assert ([x] + s)[1..] == s;
      assert Ties([x] + s, e, le) == cx + Ties(s, e, le);
    } else {
      var t := Insert(x, s[1..], le);
      var c0: seq<T> := if le(s[0], e) && le(e, s[0]) then [s[0]] else [];
      InsertTies(x, s[1..], e, le);
      assert ([s[0]] + t)[1..] == t;
      assert Ties([s[0]] + t, e, le) == c0 + Ties(t, e, le);
      assert Ties(s, e, le) == c0 + Ties(s[1..], e, le);
      if cx != [] && c0 != [] {
        // x sorts level with e and e with s[0], so x would sort no later than s[0]
        assert false;
      }
      assert c0 + cx == cx + c0;
    }
  }

  /** Stability: elements that sort level with each other keep their relative order. */
  lemma {:induction false} SortByStable<T(!new)>(s: seq<T>, e: T, le: (T, T) -> bool)
    requires TotalPreorder(le)
    ensures Ties(SortBy(s, le), e, le) == Ties(s, e, le)
  {
    if s != [] {
      SortByStable(s[1..], e, le);
      InsertTies(s[0], SortBy(s[1..], le), e, le);
    }
  }

  /** A sequence that is already ordered is left as it is. */
  lemma {:induction false} SortBySortedInput<T(!new)>(s: seq<T>, le: (T, T) -> bool)
    requires TotalPreorder(le) && SortedBy(s, le)
    ensures SortBy(s, le) == s
  {
    if s != [] {
      assert SortedBy(s[1..], le);
      SortBySortedInput(s[1..], le);
      if |s| > 1 {
        assert le(s[0], s[1]);
      }
    }
  }
}
