/**
 * Sequence operations the Python and JavaScript code gets from its runtime:
 * filtering (`[x for x in s if p(x)]`, `Array.prototype.filter`), removing
 * duplicates (`list(set(s))`) and sorting (`list.sort`, `Array.prototype.sort`).
 */
module Seqs {

  /** The elements of `s` that satisfy `p`, in their original order. */
  function Keep<T(!new)>(s: seq<T>, p: T -> bool): (r: seq<T>)
    ensures |r| <= |s|
    ensures forall x :: x in r <==> x in s && p(x)
  {
    if s == [] then []
    else
      (if p(s[0]) then [s[0]] else []) + Keep(s[1..], p)
  }

  /** Filtering keeps every copy of an element that passes and no copy of one that fails. */
  lemma {:induction false} KeepCount<T(!new)>(s: seq<T>, p: T -> bool, x: T)
    ensures multiset(Keep(s, p))[x] == if p(x) then multiset(s)[x] else 0
  {
    if s != [] {
      assert s == [s[0]] + s[1..];
      KeepCount(s[1..], p, x);
    }
  }

  /** Filtering distributes over concatenation, so the kept elements keep their relative order. */
  lemma {:induction false} KeepAppend<T(!new)>(a: seq<T>, b: seq<T>, p: T -> bool)
    ensures Keep(a + b, p) == Keep(a, p) + Keep(b, p)
  {
    if a != [] {
      var head := if p(a[0]) then [a[0]] else [];
      assert (a + b)[0] == a[0] && (a + b)[1..] == a[1..] + b;
      calc {
        Keep(a + b, p);
        head + Keep(a[1..] + b, p);
        { KeepAppend(a[1..], b, p); }
        head + (Keep(a[1..], p) + Keep(b, p));
        Keep(a, p) + Keep(b, p);
      }
    } else {
      assert a + b == b;
    }
  }

  /** A filter that every element passes changes nothing. */
  lemma {:induction false} KeepAll<T(!new)>(s: seq<T>, p: T -> bool)
    requires forall k :: 0 <= k < |s| ==> p(s[k])
    ensures Keep(s, p) == s
  {
    if s != [] {
      KeepAll(s[1..], p);
    }
  }

  ghost predicate NoDuplicates<T>(s: seq<T>) {
    forall i, j :: 0 <= i < j < |s| ==> s[i] != s[j]
  }

  /**
   * One copy of each distinct element of `s`. Python's `list(set(s))` leaves
   * the order unspecified; this keeps first occurrences, and its contract
   * states only what `list(set(s))` guarantees.
   */
  function Dedup<T(==,!new)>(s: seq<T>): (r: seq<T>)
    ensures NoDuplicates(r)
    ensures forall x :: x in r <==> x in s
    ensures |r| <= |s|
  {
    if s == [] then []
    else
      var r := Dedup(s[..|s| - 1]);
      var last := s[|s| - 1];
      assert s == s[..|s| - 1] + [last];
      if last in r then r else r + [last]
  }

  ghost predicate Total<T(!new)>(le: (T, T) -> bool) {
    forall a, b :: le(a, b) || le(b, a)
  }

  ghost predicate Transitive<T(!new)>(le: (T, T) -> bool) {
    forall a, b, c :: le(a, b) && le(b, c) ==> le(a, c)
  }

  /** Every element is `le` every later one. */
  ghost predicate SortedBy<T>(s: seq<T>, le: (T, T) -> bool) {
    forall i, j :: 0 <= i < j < |s| ==> le(s[i], s[j])
  }

  /** The elements that `le` ranks equal to `y`: those a stable sort keeps in their input order. */
  function Tied<T>(le: (T, T) -> bool, y: T): T -> bool {
    z => le(z, y) && le(y, z)
  }

  /** A filter no element passes keeps nothing. */
  lemma {:induction false} KeepNone<T(!new)>(s: seq<T>, p: T -> bool)
    requires forall k :: 0 <= k < |s| ==> !p(s[k])
    ensures Keep(s, p) == []
  {
    if s != [] {
      KeepNone(s[1..], p);
    }
  }

  /**
   * Inserts `x` into a sorted sequence after every element it is not
   * strictly before, so that `x` follows the elements ranked equal to it.
   */
  function InsertBy<T(!new)>(x: T, s: seq<T>, le: (T, T) -> bool): (r: seq<T>)
    requires Total(le) && Transitive(le)
    requires SortedBy(s, le)
    ensures SortedBy(r, le)
    ensures multiset(r) == multiset(s) + multiset{x}
  {
    if s == [] then [x]
    else if !le(s[0], x) then [x] + s
    else
      var rest := InsertBy(x, s[1..], le);
      assert s == [s[0]] + s[1..];
      assert forall y :: y in rest ==> le(s[0], y) by {
        forall y | y in rest ensures le(s[0], y) {
          assert y in multiset(rest);
          if y != x {
            assert y in multiset(s[1..]);
            var k :| 0 <= k < |s[1..]| && s[1..][k] == y;
            assert s[k + 1] == y;
          }
        }
      }
      var r := [s[0]] + rest;
      assert forall j :: 0 < j < |r| ==> r[j] in rest;
      r
  }

  /** The inserted element comes after every element ranked equal to it. */
  lemma {:induction false} InsertByTies<T(!new)>(x: T, s: seq<T>, le: (T, T) -> bool, y: T)
    requires Total(le) && Transitive(le)
    requires SortedBy(s, le)
    ensures Keep(InsertBy(x, s, le), Tied(le, y)) == Keep(s, Tied(le, y)) + Keep([x], Tied(le, y))
  {
    if s == [] {
      assert InsertBy(x, s, le) == [x];
    } else if !le(s[0], x) {
      assert InsertBy(x, s, le) == [x] + s;
      TiesInFront(x, s, le, y);
    } else {
      var rest := InsertBy(x, s[1..], le);
      assert InsertBy(x, s, le) == [s[0]] + rest;
      assert SortedBy(s[1..], le);
      InsertByTies(x, s[1..], le, y);
      TiesBehind(s[0], s[1..], rest, [x], Tied(le, y));
      assert [s[0]] + s[1..] == s;
    }
  }

  /** Putting `x` in front of a sorted sequence that starts strictly after it keeps the ties in order. */
  lemma TiesInFront<T(!new)>(x: T, s: seq<T>, le: (T, T) -> bool, y: T)
    requires Total(le) && Transitive(le)
    requires SortedBy(s, le) && s != [] && !le(s[0], x)
    ensures Keep([x] + s, Tied(le, y)) == Keep(s, Tied(le, y)) + Keep([x], Tied(le, y))
  {
    var p := Tied(le, y);
    KeepOne(x, p);
    KeepAppend([x], s, p);
    if p(x) {
      AboveNotTied(x, s, le, y);
      KeepNone(s, p);
    }
  }

  /** A common first element keeps its place in front of what is kept after it. */
  lemma TiesBehind<T(!new)>(h: T, s: seq<T>, rest: seq<T>, tail: seq<T>, p: T -> bool)
    requires Keep(rest, p) == Keep(s, p) + Keep(tail, p)
    ensures Keep([h] + rest, p) == Keep([h] + s, p) + Keep(tail, p)
  {
    KeepAppend([h], rest, p);
    KeepAppend([h], s, p);
    Regroup(Keep([h] + rest, p), Keep(rest, p), Keep([h], p), Keep(s, p), Keep(tail, p));
  }

  lemma Regroup<T>(whole: seq<T>, back: seq<T>, a: seq<T>, b: seq<T>, c: seq<T>)
    requires whole == a + back && back == b + c
    ensures whole == (a + b) + c
  {
  }

  /** In a sorted sequence that starts strictly after `x`, nothing is ranked equal to `x`'s equals. */
  lemma AboveNotTied<T(!new)>(x: T, s: seq<T>, le: (T, T) -> bool, y: T)
    requires Total(le) && Transitive(le)
    requires SortedBy(s, le) && s != [] && !le(s[0], x) && Tied(le, y)(x)
    ensures forall k :: 0 <= k < |s| ==> !Tied(le, y)(s[k])
  {
    forall k | 0 <= k < |s| ensures !Tied(le, y)(s[k]) {
      if k > 0 {
        assert le(s[0], s[k]);
      }
    }
  }

  lemma KeepOne<T(!new)>(x: T, p: T -> bool)
    ensures Keep([x], p) == if p(x) then [x] else []
  {
    assert [x][1..] == [];
  }

  /**
   * Sorting, as `list.sort` and `Array.prototype.sort` do it: an ordering of
   * the same elements (a permutation) in which each is `le` every later one,
   * and in which elements ranked equal keep their input order (stability).
   */
  function SortBy<T(!new)>(s: seq<T>, le: (T, T) -> bool): (r: seq<T>)
    requires Total(le) && Transitive(le)
    ensures SortedBy(r, le)
    ensures multiset(r) == multiset(s)
  {
    if s == [] then []
    else
      assert s == s[..|s| - 1] + [s[|s| - 1]];
      InsertBy(s[|s| - 1], SortBy(s[..|s| - 1], le), le)
  }

  /** The sort is stable: the elements ranked equal to any `y` appear in the order of the input. */
  lemma {:induction false} SortByStable<T(!new)>(s: seq<T>, le: (T, T) -> bool, y: T)
    requires Total(le) && Transitive(le)
    ensures Keep(SortBy(s, le), Tied(le, y)) == Keep(s, Tied(le, y))
  {
    if s != [] {
      var init, last := s[..|s| - 1], s[|s| - 1];
      var p := Tied(le, y);
      var sorted := SortBy(init, le);
      assert SortBy(s, le) == InsertBy(last, sorted, le);
      SortByStable(init, le, y);
      InsertByTies(last, sorted, le, y);
      assert s == init + [last];
      KeepAppend(init, [last], p);
    }
  }

}
