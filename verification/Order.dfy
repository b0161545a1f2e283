/** The order `BTreeMap` and `BTreeSet` iterate strings in.
    Rust compares strings byte by byte in UTF-8, which is the same as comparing
    them code point by code point. */
module Order {

  predicate Leq(a: string, b: string) {
    a == [] || (b != [] && (a[0] < b[0] || (a[0] == b[0] && Leq(a[1..], b[1..]))))
  }

  lemma {:induction false} LeqAntisymmetric(a: string, b: string)
    requires Leq(a, b) && Leq(b, a)
    ensures a == b
  {
    if a != [] && b != [] {
      LeqAntisymmetric(a[1..], b[1..]);
      assert a == [a[0]] + a[1..] && b == [b[0]] + b[1..];
    }
  }

  lemma {:induction false} LeqTotal(a: string, b: string)
    ensures Leq(a, b) || Leq(b, a)
  {
    if a != [] && b != [] {
      LeqTotal(a[1..], b[1..]);
    }
  }

  lemma {:induction false} LeqTransitive(a: string, b: string, c: string)
    requires Leq(a, b) && Leq(b, c)
    ensures Leq(a, c)
  {
    if a != [] && b != [] && c != [] && a[0] == b[0] == c[0] {
      LeqTransitive(a[1..], b[1..], c[1..]);
    }
  }

  predicate IsLeast(m: string, s: set<string>) {
    m in s && forall x :: x in s ==> Leq(m, x)
  }

  lemma {:induction false} LeastExists(s: set<string>)
    requires s != {}
    ensures exists m :: m in s && IsLeast(m, s)
    decreases |s|
  {
    var x :| x in s;
    LeqTotal(x, x);
    if s != {x} {
      var t := s - {x};
      assert s == t + {x};
      LeastExists(t);
      var m :| m in t && IsLeast(m, t);
      LeqTotal(m, x);
      var least := if Leq(m, x) then m else x;
      forall y | y in s ensures Leq(least, y) {
        if y != x {
          assert y in t && Leq(m, y);
          if least == x { LeqTransitive(x, m, y); }
        }
      }
      assert IsLeast(least, s);
    } else {
      assert IsLeast(x, s);
    }
  }

  lemma LeastUnique(s: set<string>)
    ensures forall a, b :: IsLeast(a, s) && IsLeast(b, s) ==> a == b
  {
    forall a, b | IsLeast(a, s) && IsLeast(b, s) ensures a == b {
      LeqAntisymmetric(a, b);
    }
  }

  function Least(s: set<string>): (m: string)
    requires s != {}
    ensures IsLeast(m, s)
  {
    LeastExists(s);
    LeastUnique(s);
    var m :| m in s && IsLeast(m, s);
    m
  }

  lemma LeastIsLeq(s: set<string>, x: string)
    requires x in s
    ensures Leq(Least(s), x)
  {
  }

  /** The elements of `s` in the order a `BTreeSet` yields them. */
  function Sorted(s: set<string>): (r: seq<string>)
    ensures forall x :: x in r <==> x in s
    ensures |r| == |s|
    decreases |s|
  {
    if s == {} then [] else
      var m := Least(s);
      [m] + Sorted(s - {m})
  }

  ghost predicate Distinct<T>(r: seq<T>) {
    forall i, j :: 0 <= i < j < |r| ==> r[i] != r[j]
  }

  lemma FirstOfAll(m: string, t: seq<string>)
    requires Distinct(t) && forall i, j :: 0 <= i <= j < |t| ==> Leq(t[i], t[j])
    requires forall y :: y in t ==> Leq(m, y) && m != y
    ensures var r := [m] + t; Distinct(r) && forall i, j :: 0 <= i <= j < |r| ==> Leq(r[i], r[j])
  {
    hide Leq;
    var r := [m] + t;
    LeqTotal(m, m);
    forall i, j | 0 <= i <= j < |r| ensures Leq(r[i], r[j]) && (i < j ==> r[i] != r[j]) {
      if i == 0 && j > 0 { assert r[j] == t[j - 1] && t[j - 1] in t; }
      if i > 0 { assert r[i] == t[i - 1] && r[j] == t[j - 1]; }
    }
  }

  lemma {:induction false} SortedIsSorted(s: set<string>)
    ensures var r := Sorted(s);
            Distinct(r) && forall i, j :: 0 <= i <= j < |r| ==> Leq(r[i], r[j])
    decreases |s|
  {
    hide Leq, IsLeast, Distinct;
    if s != {} {
      var m := Least(s);
      SortedIsSorted(s - {m});
      var t := Sorted(s - {m});
      forall y | y in t ensures Leq(m, y) && m != y { LeastIsLeq(s, y); }
      FirstOfAll(m, t);
    } else {
      NothingSorted();
    }
  }

  lemma NothingSorted()
    ensures Distinct(Sorted({}))
  {
  }
}
