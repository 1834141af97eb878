/** Python's `sorted`/`list.sort`: a stable sort by a total preorder, used both
    for plain string sorting and for "by weight, descending" sorting. */
module Sorting {

  /** `le` compares every pair of values and is transitive. */
  ghost predicate TotalPreorder<T(!new)>(le: (T, T) -> bool) {
    && (forall a, b :: le(a, b) || le(b, a))
    && (forall a, b, c :: le(a, b) && le(b, c) ==> le(a, c))
  }

  ghost predicate SortedBy<T>(s: seq<T>, le: (T, T) -> bool) {
    forall i, j :: 0 <= i < j < |s| ==> le(s[i], s[j])
  }

  /** `a` and `b` compare equal under `le`. */
  predicate Tied<T>(a: T, b: T, le: (T, T) -> bool) {
    le(a, b) && le(b, a)
  }

  /** The elements of `s` tied with `x`, in their order in `s`. */
  function TiesOf<T>(s: seq<T>, x: T, le: (T, T) -> bool): seq<T> {
    if s == [] then [] else (if Tied(s[0], x, le) then [s[0]] else []) + TiesOf(s[1..], x, le)
  }

  /** Insert `x` after every element that is not greater than it. */
  function InsertAfterEquals<T>(r: seq<T>, x: T, le: (T, T) -> bool): (q: seq<T>)
    ensures multiset(q) == multiset(r) + multiset{x}
    ensures |q| == |r| + 1
  {
    if r == [] then [x]
    else if le(r[0], x) then
      assert r == [r[0]] + r[1..];
      [r[0]] + InsertAfterEquals(r[1..], x, le)
    else [x] + r
  }

  /** Insertion sort, taking elements in input order; equal elements keep their order. */
  function SortBy<T>(s: seq<T>, le: (T, T) -> bool): (r: seq<T>)
    ensures multiset(r) == multiset(s)
    ensures |r| == |s|
  {
    if s == [] then []
    else
      assert s == s[..|s| - 1] + [s[|s| - 1]];
      InsertAfterEquals(SortBy(s[..|s| - 1], le), s[|s| - 1], le)
  }

  /** Two elements out of order are swapped. */
  lemma SortPairSwaps<T>(a: T, b: T, le: (T, T) -> bool)
    requires !le(a, b)
    ensures SortBy([a, b], le) == [b, a]
  {
    assert [a, b][..1] == [a];
    assert [a][..0] == [];
  }

  lemma {:induction false} InsertKeepsSorted<T(!new)>(r: seq<T>, x: T, le: (T, T) -> bool)
    requires TotalPreorder(le)
    requires SortedBy(r, le)
    ensures SortedBy(InsertAfterEquals(r, x, le), le)
  {
    if r != [] {
      if le(r[0], x) {
        InsertKeepsSorted(r[1..], x, le);
        var q := InsertAfterEquals(r[1..], x, le);
        forall j | 0 <= j < |q| ensures le(r[0], q[j]) {
          assert q[j] in multiset(q);
          if q[j] != x {
            assert q[j] in multiset(r[1..]);
            var k :| 0 <= k < |r[1..]| && r[1..][k] == q[j];
            assert r[k + 1] == q[j];
          }
        }
      } else {
        assert le(x, r[0]);
        forall j | 0 <= j < |r| ensures le(x, r[j]) {
          if j > 0 { assert le(r[0], r[j]); }
        }
      }
    }
  }

  /** The result of `SortBy` is ordered by `le`. */
  lemma {:induction false} SortByIsSorted<T(!new)>(s: seq<T>, le: (T, T) -> bool)
    requires TotalPreorder(le)
    ensures SortedBy(SortBy(s, le), le)
  {
    if s != [] {
      SortByIsSorted(s[..|s| - 1], le);
      InsertKeepsSorted(SortBy(s[..|s| - 1], le), s[|s| - 1], le);
    }
  }

  lemma {:induction false} TiesOfAppend<T>(s: seq<T>, y: T, x: T, le: (T, T) -> bool)
    ensures TiesOf(s + [y], x, le) == TiesOf(s, x, le) + (if Tied(y, x, le) then [y] else [])
  {
    if s != [] {
      assert (s + [y])[1..] == s[1..] + [y];
      TiesOfAppend(s[1..], y, x, le);
    }
  }

  lemma {:induction false} NoTiesOf<T>(s: seq<T>, x: T, le: (T, T) -> bool)
    requires forall i :: 0 <= i < |s| ==> !Tied(s[i], x, le)
    ensures TiesOf(s, x, le) == []
  {
    if s != [] {
      NoTiesOf(s[1..], x, le);
    }
  }

  /** When `a <= b`, `a > y` and `x <= y`, `b` cannot be tied with `x`. */
  lemma BelowTiedStaysBelow<T(!new)>(a: T, b: T, x: T, y: T, le: (T, T) -> bool)
    requires TotalPreorder(le)
    requires le(a, b) && !le(a, y) && le(x, y)
    ensures !le(b, x)
  {
    assert le(b, x) ==> le(a, x);
    assert le(a, x) ==> le(a, y);
  }

  lemma {:induction false} TiesOfInsert<T(!new)>(r: seq<T>, y: T, x: T, le: (T, T) -> bool)
    requires TotalPreorder(le)
    requires SortedBy(r, le)
    ensures TiesOf(InsertAfterEquals(r, y, le), x, le) == TiesOf(r, x, le) + (if Tied(y, x, le) then [y] else [])
  {
    if r == [] {
      TiesOfCons(y, [], x, le);
      assert (if Tied(y, x, le) then [y] else []) + [] == [] + (if Tied(y, x, le) then [y] else []);
    } else if le(r[0], y) {
      assert SortedBy(r[1..], le);
      TiesOfInsert(r[1..], y, x, le);
      TiesOfInsertBehind(r, y, x, le);
    } else {
      TiesOfInsertFront(r, y, x, le);
    }
  }

  /** Inserting `y` behind the head of a list, given the ties of the insertion into its tail. */
  lemma TiesOfInsertBehind<T>(r: seq<T>, y: T, x: T, le: (T, T) -> bool)
    requires r != [] && le(r[0], y)
    requires TiesOf(InsertAfterEquals(r[1..], y, le), x, le) == TiesOf(r[1..], x, le) + (if Tied(y, x, le) then [y] else [])
    ensures TiesOf(InsertAfterEquals(r, y, le), x, le) == TiesOf(r, x, le) + (if Tied(y, x, le) then [y] else [])
  {
    var tail := if Tied(y, x, le) then [y] else [];
    var q := InsertAfterEquals(r[1..], y, le);
    var head := if Tied(r[0], x, le) then [r[0]] else [];
    assert InsertAfterEquals(r, y, le) == [r[0]] + q;
    TiesOfCons(r[0], q, x, le);
    TiesOfCons(r[0], r[1..], x, le);
    assert [r[0]] + r[1..] == r;
    AppendAssoc(head, TiesOf(r[1..], x, le), tail);
  }

  lemma AppendAssoc<T>(a: seq<T>, b: seq<T>, c: seq<T>)
    ensures a + (b + c) == (a + b) + c
  {
  }

  lemma TiesOfCons<T>(h: T, q: seq<T>, x: T, le: (T, T) -> bool)
    ensures TiesOf([h] + q, x, le) == (if Tied(h, x, le) then [h] else []) + TiesOf(q, x, le)
  {
    assert ([h] + q)[1..] == q;
  }

  /** Inserting `y` in front of a sorted list whose head is above it. */
  lemma TiesOfInsertFront<T(!new)>(r: seq<T>, y: T, x: T, le: (T, T) -> bool)
    requires TotalPreorder(le)
    requires SortedBy(r, le)
    requires r != [] && !le(r[0], y)
    ensures TiesOf(InsertAfterEquals(r, y, le), x, le) == TiesOf(r, x, le) + (if Tied(y, x, le) then [y] else [])
  {
    assert InsertAfterEquals(r, y, le) == [y] + r;
    TiesOfCons(y, r, x, le);
    if Tied(y, x, le) {
      forall i | 0 <= i < |r| ensures !Tied(r[i], x, le) {
        assert le(r[0], r[i]) by { if i > 0 { assert le(r[0], r[i]); } }
        BelowTiedStaysBelow(r[0], r[i], x, y, le);
      }
      NoTiesOf(r, x, le);
    } else {
      assert [] + TiesOf(r, x, le) == TiesOf(r, x, le) + [];
    }
  }

  /** Stability: for every value `x`, the elements tied with `x` appear in the
      output in exactly their input order. */
  lemma {:induction false} SortByIsStable<T(!new)>(s: seq<T>, x: T, le: (T, T) -> bool)
    requires TotalPreorder(le)
    ensures TiesOf(SortBy(s, le), x, le) == TiesOf(s, x, le)
  {
    if s != [] {
      var init, last := s[..|s| - 1], s[|s| - 1];
      SortByIsStable(init, x, le);
      SortByIsSorted(init, le);
      TiesOfInsert(SortBy(init, le), last, x, le);
      assert s == init + [last];
      TiesOfAppend(init, last, x, le);
    }
  }

  // ------------------------------------------------ strings, as Python compares them

  /** Python's `a <= b` on strings: code point by code point, a prefix first. */
  predicate LexLe(a: string, b: string) {
    a == [] || (b != [] && (a[0] < b[0] || (a[0] == b[0] && LexLe(a[1..], b[1..]))))
  }

  lemma {:induction false} LexLeTotal(a: string, b: string)
    ensures LexLe(a, b) || LexLe(b, a)
  {
    if a != [] && b != [] && a[0] == b[0] {
      LexLeTotal(a[1..], b[1..]);
    }
  }

  lemma {:induction false} LexLeTransitive(a: string, b: string, c: string)
    requires LexLe(a, b) && LexLe(b, c)
    ensures LexLe(a, c)
  {
    if a != [] && a[0] == b[0] && b[0] == c[0] {
      LexLeTransitive(a[1..], b[1..], c[1..]);
    }
  }

  lemma {:induction false} LexLeAntisymmetric(a: string, b: string)
    requires LexLe(a, b) && LexLe(b, a)
    ensures a == b
  {
    if a != [] {
      LexLeAntisymmetric(a[1..], b[1..]);
      assert a == [a[0]] + a[1..];
      assert b == [b[0]] + b[1..];
    }
  }

  lemma LexLeIsTotalPreorder()
    ensures TotalPreorder(LexLe)
  {
    forall a, b ensures LexLe(a, b) || LexLe(b, a) { LexLeTotal(a, b); }
    forall a, b, c | LexLe(a, b) && LexLe(b, c) ensures LexLe(a, c) { LexLeTransitive(a, b, c); }
  }

  /** `sorted(s)` for a list of strings. */
  function SortStrings(s: seq<string>): (r: seq<string>)
    ensures multiset(r) == multiset(s)
  {
    SortBy(s, LexLe)
  }

  /** `sorted(s)` is in ascending order and is a permutation of `s`. */
  lemma SortStringsCorrect(s: seq<string>)
    ensures forall i, j :: 0 <= i < j < |SortStrings(s)| ==> LexLe(SortStrings(s)[i], SortStrings(s)[j])
    ensures multiset(SortStrings(s)) == multiset(s)
  {
    LexLeIsTotalPreorder();
    SortByIsSorted(s, LexLe);
  }

  /** Strictly ascending: sorted, and therefore without repeats. */
  ghost predicate StrictlyAscending(r: seq<string>) {
    forall i, j :: 0 <= i < j < |r| ==> LexLe(r[i], r[j]) && r[i] != r[j]
  }

  /** `r` lists every element of `xs` exactly once. */
  ghost predicate Enumerates<T(!new)>(r: seq<T>, xs: set<T>) {
    && (forall i, j :: 0 <= i < j < |r| ==> r[i] != r[j])
    && (forall x :: x in r <==> x in xs)
  }

  /** A list that enumerates a set has the set's size. */
  lemma {:induction false} EnumerationLength<T(!new)>(r: seq<T>, xs: set<T>)
    requires Enumerates(r, xs)
    ensures |r| == |xs|
  {
    if r == [] {
      assert xs == {};
    } else {
      var init, last := r[..|r| - 1], r[|r| - 1];
      assert r == init + [last];
      assert Enumerates(init, xs - {last});
      EnumerationLength(init, xs - {last});
    }
  }

  /** A finite non-empty set of strings has a least element. */
  lemma MinExists(xs: set<string>) returns (m: string)
    requires xs != {}
    ensures m in xs && forall y :: y in xs ==> LexLe(m, y)
  {
    var x :| x in xs;
    LexLeTotal(x, x);
    if xs == {x} {
      m := x;
    } else {
      var m' := MinExists(xs - {x});
      LexLeTotal(x, m');
      if LexLe(x, m') {
        m := x;
        forall y | y in xs ensures LexLe(m, y) {
          if y != x { LexLeTransitive(x, m', y); }
        }
      } else {
        m := m';
      }
    }
  }

  /** `sorted(xs)` for a set of strings: its elements in ascending order. */
  method SortSet(xs: set<string>) returns (r: seq<string>)
    ensures StrictlyAscending(r) && Enumerates(r, xs)
  {
    r := [];
    var rest := xs;
    while rest != {}
      invariant forall x :: x in xs <==> x in r || x in rest
      invariant forall x :: x in r ==> x !in rest
      invariant StrictlyAscending(r)
      invariant forall i, y :: 0 <= i < |r| && y in rest ==> LexLe(r[i], y)
      decreases rest
    {
      // The lemma's ghost witness shows a least element exists; the compiled
      // choice below then picks one (a ghost value cannot be appended to `r`).
      ghost var least := MinExists(rest);
      var m :| m in rest && forall y :: y in rest ==> LexLe(m, y);
      forall i, y | 0 <= i < |r| && y in rest - {m} ensures LexLe(r[i], y) {
        LexLeTransitive(r[i], m, y);
      }
      r := r + [m];
      rest := rest - {m};
    }
  }
}
