/** Sorting a set under a strict total order, and the order of strings. */
module Ordering {

  ghost predicate StrictOrder<T(!new)>(lt: (T, T) -> bool) {
    && (forall x :: !lt(x, x))
    && (forall x, y, z :: lt(x, y) && lt(y, z) ==> lt(x, z))
    && (forall x, y :: lt(x, y) || x == y || lt(y, x))
  }

  predicate IsLeast<T(!new)>(m: T, s: set<T>, lt: (T, T) -> bool) {
    m in s && forall y :: y in s ==> y == m || lt(m, y)
  }

  lemma {:induction false} LeastExists<T(!new)>(s: set<T>, lt: (T, T) -> bool)
    requires StrictOrder(lt) && s != {}
    ensures exists m :: IsLeast(m, s, lt)
    decreases |s|
  {
    var m :| m in s;
    var rest := s - {m};
    if rest == {} {
      assert forall y :: y in s ==> y == m || y in rest;
      assert IsLeast(m, s, lt);
    } else {
      LeastExists(rest, lt);
      var n :| IsLeast(n, rest, lt);
      assert IsLeast(if lt(n, m) then n else m, s, lt);
    }
  }

  ghost predicate Ascending<T(!new)>(r: seq<T>, lt: (T, T) -> bool) {
    forall i, j :: 0 <= i < j < |r| ==> lt(r[i], r[j])
  }

  ghost function Least<T(!new)>(s: set<T>, lt: (T, T) -> bool): (m: T)
    requires StrictOrder(lt) && s != {}
    ensures IsLeast(m, s, lt)
  {
    LeastExists(s, lt);
    var m :| IsLeast(m, s, lt);
    m
  }

  /** `sorted(s)` */
  ghost function Sorted<T(!new)>(s: set<T>, lt: (T, T) -> bool): (r: seq<T>)
    requires StrictOrder(lt)
    ensures Ascending(r, lt) && |r| == |s| && forall x :: x in r <==> x in s
    decreases |s|
  {
    if s == {} then [] else var m := Least(s, lt); [m] + Sorted(s - {m}, lt)
  }

  lemma {:induction false} FirstIsLeast<T(!new)>(s: set<T>, lt: (T, T) -> bool, r: seq<T>, m: T)
    requires StrictOrder(lt) && Ascending(r, lt) && (forall x :: x in r <==> x in s) && IsLeast(m, s, lt)
    ensures r != [] && r[0] == m
    ensures forall x :: x in r[1..] <==> x in s - {m}
  {
    assert m in r;
    var k :| 0 <= k < |r| && r[k] == m;
    assert r[0] in s;
    assert k == 0;
    assert forall x :: x in r <==> x == r[0] || x in r[1..];
  }

  /** Nothing else lists the set in ascending order. */
  lemma {:induction false} SortedIsUnique<T(!new)>(s: set<T>, lt: (T, T) -> bool, r: seq<T>)
    requires StrictOrder(lt) && Ascending(r, lt) && forall x :: x in r <==> x in s
    ensures r == Sorted(s, lt)
    decreases |s|
  {
    assert r != [] ==> r[0] in r;
    if s != {} {
      var m := Least(s, lt);
      FirstIsLeast(s, lt, r, m);
      assert r == [m] + r[1..];
      SortedIsUnique(s - {m}, lt, r[1..]);
    }
  }

  method Sort<T(!new, ==)>(s: set<T>, lt: (T, T) -> bool) returns (r: seq<T>)
    requires StrictOrder(lt)
    ensures r == Sorted(s, lt)
  {
    r := [];
    var rest := s;
    while rest != {}
      invariant rest <= s
      invariant Ascending(r, lt)
      invariant forall x :: x in r <==> x in s - rest
      invariant forall x, y :: x in r && y in rest ==> lt(x, y)
      decreases |rest|
    {
      LeastExists(rest, lt);
      var m :| m in rest && IsLeast(m, rest, lt);
      r := r + [m];
      rest := rest - {m};
    }
    SortedIsUnique(s, lt, r);
  }

  // ----- strings -----

  predicate Before(a: string, b: string) {
    b != [] && (a == [] || a[0] < b[0] || (a[0] == b[0] && Before(a[1..], b[1..])))
  }

  /** One string is before another if it is a proper prefix of it, or smaller at the first character in which
      they differ. */
  lemma {:induction false} BeforeMeans(a: string, b: string)
    ensures Before(a, b) <==> exists k: nat :: DiffersAt(a, b, k)
  {
    if a != [] && b != [] && a[0] == b[0] {
      BeforeMeans(a[1..], b[1..]);
      if Before(a[1..], b[1..]) {
        var k: nat :| DiffersAt(a[1..], b[1..], k);
        assert a == [a[0]] + a[1..] && b == [b[0]] + b[1..];
        assert a[..k + 1] == [a[0]] + a[1..][..k] && b[..k + 1] == [b[0]] + b[1..][..k];
        assert DiffersAt(a, b, k + 1);
      }
      if k: nat :| DiffersAt(a, b, k) {
        assert a[..k][1..] == a[1..][..k - 1] && b[..k][1..] == b[1..][..k - 1];
        assert DiffersAt(a[1..], b[1..], k - 1);
      }
    } else {
      assert a[..0] == b[..0];
      assert Before(a, b) ==> DiffersAt(a, b, 0);
      if k: nat :| DiffersAt(a, b, k) {
        assert k > 0 ==> a[..k][0] == b[..k][0];
      }
    }
  }

  predicate DiffersAt(a: string, b: string, k: nat) {
    k <= |a| && k < |b| && a[..k] == b[..k] && (k == |a| || a[k] < b[k])
  }

  lemma {:induction false} BeforeTransitive(a: string, b: string, c: string)
    requires Before(a, b) && Before(b, c)
    ensures Before(a, c)
  {
    if a != [] && a[0] == b[0] == c[0] {
      BeforeTransitive(a[1..], b[1..], c[1..]);
    }
  }

  lemma {:induction false} BeforeTotal(a: string, b: string)
    ensures Before(a, b) || a == b || Before(b, a)
    ensures !(Before(a, b) && Before(b, a)) && !Before(a, a)
  {
    if a != [] {
      if b != [] && a[0] == b[0] {
        BeforeTotal(a[1..], b[1..]);
        assert a == [a[0]] + a[1..] && b == [b[0]] + b[1..];
      }
      BeforeIrreflexive(a);
    }
  }

  lemma {:induction false} BeforeIrreflexive(a: string)
    ensures !Before(a, a)
  {
    if a != [] {
      BeforeIrreflexive(a[1..]);
    }
  }

  lemma {:induction false} StringsAreOrdered()
    ensures StrictOrder(Before)
  {
    forall x: string ensures !Before(x, x) {
      BeforeIrreflexive(x);
    }
    forall x: string, y: string ensures Before(x, y) || x == y || Before(y, x) {
      BeforeTotal(x, y);
    }
    forall x: string, y: string, z: string | Before(x, y) && Before(y, z) ensures Before(x, z) {
      BeforeTransitive(x, y, z);
    }
  }
}
