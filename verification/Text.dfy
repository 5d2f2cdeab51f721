/** Python's order on strings, and sorting a set of strings by it. */
module Text {

  datatype Option<+T> = None | Some(value: T)

  /** `a <= b` as Python compares strings: by code point, a prefix first. */
  predicate Below(a: string, b: string) {
    if a == "" then true
    else if b == "" then false
    else if a[0] != b[0] then a[0] < b[0]
    else Below(a[1..], b[1..])
  }

  lemma {:induction false} BelowTotal(a: string, b: string)
    ensures Below(a, b) || Below(b, a)
  {
    if a != "" && b != "" && a[0] == b[0] {
      BelowTotal(a[1..], b[1..]);
    }
  }

  lemma {:induction false} BelowAntisymmetric(a: string, b: string)
    requires Below(a, b) && Below(b, a)
    ensures a == b
  {
    if a != "" {
      BelowAntisymmetric(a[1..], b[1..]);
      assert a == [a[0]] + a[1..] && b == [b[0]] + b[1..];
    }
  }

  lemma {:induction false} BelowTransitive(a: string, b: string, c: string)
    requires Below(a, b) && Below(b, c)
    ensures Below(a, c)
  {
    if a != "" && a[0] == b[0] && b[0] == c[0] {
      BelowTransitive(a[1..], b[1..], c[1..]);
    }
  }

  lemma {:induction false} BelowReflexive(a: string)
    ensures Below(a, a)
  {
    BelowTotal(a, a);
  }

  /** One string comes before another, or is it, where the first is a beginning of the second, or has the
      lower code point at the first place they differ. */
  ghost predicate Precedes(a: string, b: string) {
    exists k :: 0 <= k <= |a| && k <= |b| && a[..k] == b[..k] && (k == |a| || (k < |b| && a[k] < b[k]))
  }

  lemma {:induction false} BelowExactly(a: string, b: string)
    ensures Below(a, b) <==> Precedes(a, b)
  {
    if a == "" {
      assert a[..0] == b[..0];
    } else if b != "" && a[0] == b[0] {
      BelowExactly(a[1..], b[1..]);
      if Precedes(a[1..], b[1..]) {
        var k :| 0 <= k <= |a[1..]| && k <= |b[1..]| && a[1..][..k] == b[1..][..k]
          && (k == |a[1..]| || (k < |b[1..]| && a[1..][k] < b[1..][k]));
        assert a[..k + 1] == [a[0]] + a[1..][..k] && b[..k + 1] == [b[0]] + b[1..][..k];
        assert 0 <= k + 1 <= |a| && k + 1 <= |b| && a[..k + 1] == b[..k + 1];
      }
      if Precedes(a, b) {
        var k :| 0 <= k <= |a| && k <= |b| && a[..k] == b[..k] && (k == |a| || (k < |b| && a[k] < b[k]));
        assert k > 0;
        assert a[1..][..k - 1] == a[..k][1..] && b[1..][..k - 1] == b[..k][1..];
      }
    } else if b != "" {
      if a[0] < b[0] { assert a[..0] == b[..0]; }
      if Precedes(a, b) { FirstsPrecede(a, b); }
    }
  }

  lemma FirstsPrecede(a: string, b: string)
    requires a != "" && b != "" && Precedes(a, b)
    ensures a[0] <= b[0]
  {
    var k :| 0 <= k <= |a| && k <= |b| && a[..k] == b[..k] && (k == |a| || (k < |b| && a[k] < b[k]));
    if k > 0 { assert a[..k][0] == b[..k][0]; }
  }

  lemma LeastExists(s: set<string>)
    requires s != {}
    ensures exists m :: m in s && forall x | x in s :: Below(m, x)
  {
    var x :| x in s;
    var rest := s - {x};
    if rest == {} {
      assert s == {x};
      BelowReflexive(x);
      assert x in s && forall y | y in s :: Below(x, y);
    } else {
      LeastExists(rest);
      var m :| m in rest && forall y | y in rest :: Below(m, y);
      BelowTotal(m, x);
      if Below(m, x) {
        assert m in s && forall y | y in s :: Below(m, y);
      } else {
        BelowReflexive(x);
        forall y | y in s ensures Below(x, y) {
          if y != x { BelowTransitive(x, m, y); }
        }
        assert x in s && forall y | y in s :: Below(x, y);
      }
    }
  }

  function Least(s: set<string>): (m: string)
    requires s != {}
    ensures m in s && forall x | x in s :: Below(m, x)
  {
    LeastExists(s);
    assert forall m, n | m in s && n in s && (forall x | x in s :: Below(m, x))
      && (forall x | x in s :: Below(n, x)) :: m == n by {
      forall m, n | m in s && n in s && (forall x | x in s :: Below(m, x)) && (forall x | x in s :: Below(n, x))
        ensures m == n
      {
        BelowAntisymmetric(m, n);
      }
    }
    var m :| m in s && forall x | x in s :: Below(m, x);
    m
  }

  ghost predicate Ascending(r: seq<string>) {
    forall i, j | 0 <= i < j < |r| :: Below(r[i], r[j]) && r[i] != r[j]
  }

  /** `sorted(s)`: every element once, in order. */
  function Sorted(s: set<string>): (r: seq<string>)
    ensures Ascending(r)
    ensures forall x :: x in r <==> x in s
    ensures |r| == |s|
  {
    if s == {} then []
    else
      var m := Least(s);
      var rest := Sorted(s - {m});
      assert forall i | 0 <= i < |rest| :: rest[i] in rest;
      [m] + rest
  }

  /** A sorted list without repetition is determined by its elements. */
  lemma {:induction false} AscendingUnique(a: seq<string>, b: seq<string>)
    requires Ascending(a) && Ascending(b)
    requires forall x :: x in a <==> x in b
    ensures a == b
  {
    if a == [] {
      if b != [] { HeadsAgree(b, a); }
    } else {
      HeadsAgree(a, b);
      forall x ensures x in a[1..] <==> x in b[1..] {
        if x in a[1..] {
          var k :| 0 <= k < |a| - 1 && a[1..][k] == x;
          assert a[0] != a[k + 1];
          assert x in b;
        }
        if x in b[1..] {
          var k :| 0 <= k < |b| - 1 && b[1..][k] == x;
          assert b[0] != b[k + 1];
          assert x in a;
        }
      }
      AscendingUnique(a[1..], b[1..]);
      assert a == [a[0]] + a[1..] && b == [b[0]] + b[1..];
    }
  }

  lemma HeadsAgree(a: seq<string>, b: seq<string>)
    requires Ascending(a) && Ascending(b)
    requires forall x :: x in a <==> x in b
    requires a != []
    ensures b != [] && a[0] == b[0]
  {
    assert a[0] in b;
    assert b[0] in a;
    if a[0] != b[0] {
      BelowAntisymmetric(a[0], b[0]);
    }
  }
}
