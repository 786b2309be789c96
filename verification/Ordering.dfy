/** Strings in byte order, and sorting them (slices.Sorted). */
module Ordering {
  predicate Leq(a: string, b: string) {
    a == [] || (b != [] && (a[0] < b[0] || (a[0] == b[0] && Leq(a[1..], b[1..]))))
  }

  lemma {:induction false} LeqIsTotal(a: string, b: string)
    ensures Leq(a, b) || Leq(b, a)
  {
    if a != [] && b != [] {
      LeqIsTotal(a[1..], b[1..]);
    }
  }

  lemma {:induction false} LeqIsTransitive(a: string, b: string, c: string)
    requires Leq(a, b) && Leq(b, c)
    ensures Leq(a, c)
  {
    if a != [] && a[0] == c[0] {
      LeqIsTransitive(a[1..], b[1..], c[1..]);
    }
  }

  lemma {:induction false} LeqIsAntisymmetric(a: string, b: string)
    requires Leq(a, b) && Leq(b, a)
    ensures a == b
  {
    if a != [] {
      LeqIsAntisymmetric(a[1..], b[1..]);
    }
  }

  ghost predicate IsSorted(s: seq<string>) {
    forall i, j | 0 <= i < j < |s| :: Leq(s[i], s[j])
  }

  function InsertSorted(x: string, s: seq<string>): (r: seq<string>)
    ensures multiset(r) == multiset(s) + multiset{x}
  {
    if s == [] then [x]
    else if Leq(x, s[0]) then [x] + s
    else
      assert s == [s[0]] + s[1..];
      [s[0]] + InsertSorted(x, s[1..])
  }

  lemma PrependStaysSorted(x: string, s: seq<string>)
    requires IsSorted(s) && forall y | y in multiset(s) :: Leq(x, y)
    ensures IsSorted([x] + s)
  {
    forall i, j | 0 <= i < j < |s| + 1 ensures Leq(([x] + s)[i], ([x] + s)[j]) {
      assert s[j - 1] in multiset(s);
    }
  }

  lemma HeadIsLeast(s: seq<string>, y: string)
    requires IsSorted(s) && y in multiset(s)
    ensures s != [] && Leq(s[0], y)
  {
    var i: nat :| i < |s| && s[i] == y;
    LeqIsTotal(y, y);
  }

  lemma {:induction false} InsertStaysSorted(x: string, s: seq<string>)
    requires IsSorted(s)
    ensures IsSorted(InsertSorted(x, s))
  {
    if s != [] && Leq(x, s[0]) {
      forall y | y in multiset(s) ensures Leq(x, y) {
        HeadIsLeast(s, y);
        LeqIsTransitive(x, s[0], y);
      }
      PrependStaysSorted(x, s);
    } else if s != [] {
      LeqIsTotal(x, s[0]);
      InsertStaysSorted(x, s[1..]);
      assert s == [s[0]] + s[1..];
      forall y | y in multiset(InsertSorted(x, s[1..])) ensures Leq(s[0], y) {
        if y != x {
          HeadIsLeast(s, y);
        }
      }
      PrependStaysSorted(s[0], InsertSorted(x, s[1..]));
    }
  }

  function Sorted(s: seq<string>): (r: seq<string>)
    ensures IsSorted(r) && multiset(r) == multiset(s)
  {
    if s == [] then []
    else
      assert s == [s[0]] + s[1..];
      InsertStaysSorted(s[0], Sorted(s[1..]));
      InsertSorted(s[0], Sorted(s[1..]))
  }

  lemma HeadsAgree(a: seq<string>, b: seq<string>)
    requires IsSorted(a) && IsSorted(b) && multiset(a) == multiset(b) && a != []
    ensures b != [] && a[0] == b[0]
  {
    assert a[0] in multiset(a);
    HeadIsLeast(b, a[0]);
    assert b[0] in multiset(b);
    HeadIsLeast(a, b[0]);
    LeqIsAntisymmetric(a[0], b[0]);
  }

  lemma TailsAgree(a: seq<string>, b: seq<string>)
    requires multiset(a) == multiset(b) && a != [] && b != [] && a[0] == b[0]
    ensures multiset(a[1..]) == multiset(b[1..])
  {
    assert a == [a[0]] + a[1..] && b == [b[0]] + b[1..];
    assert multiset(a[1..]) == multiset(a) - multiset{a[0]};
    assert multiset(b[1..]) == multiset(b) - multiset{b[0]};
  }

  lemma {:induction false} SortedSequencesAreEqual(a: seq<string>, b: seq<string>)
    requires IsSorted(a) && IsSorted(b) && multiset(a) == multiset(b)
    ensures a == b
    decreases |a|
  {
    if a == [] {
      EmptyIsEmpty(b);
    } else {
      HeadsAgree(a, b);
      TailsAgree(a, b);
      SortedSequencesAreEqual(a[1..], b[1..]);
    }
  }

  lemma EmptyIsEmpty(s: seq<string>)
    requires multiset(s) == multiset{}
    ensures s == []
  {
    assert |multiset(s)| == |s|;
  }

  /** Sorting forgets the order and nothing else. */
  lemma SortedIsCanonical(a: seq<string>, b: seq<string>)
    ensures Sorted(a) == Sorted(b) <==> multiset(a) == multiset(b)
  {
    if multiset(a) == multiset(b) {
      SortedSequencesAreEqual(Sorted(a), Sorted(b));
    }
  }
}
