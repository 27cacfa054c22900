/** The order in which the database returns names: lexicographic by character. */
module Names {

  type Name = string

  predicate Less(a: Name, b: Name) {
    b != [] && (a == [] || a[0] < b[0] || (a[0] == b[0] && Less(a[1..], b[1..])))
  }

  lemma {:induction false} LessIrreflexive(a: Name)
    ensures !Less(a, a)
  {
    if a != [] {
      LessIrreflexive(a[1..]);
    }
  }

  lemma {:induction false} LessTransitive(a: Name, b: Name, c: Name)
    requires Less(a, b) && Less(b, c)
    ensures Less(a, c)
  {
    if a != [] && a[0] == b[0] && b[0] == c[0] {
      LessTransitive(a[1..], b[1..], c[1..]);
    }
  }

  lemma {:induction false} LessTotal(a: Name, b: Name)
    ensures a == b || Less(a, b) || Less(b, a)
  {
    if a != [] && b != [] && a[0] == b[0] {
      LessTotal(a[1..], b[1..]);
      assert a == [a[0]] + a[1..] && b == [b[0]] + b[1..];
    }
  }

  /** The names agree before position k, where the first one ends or has the smaller character. */
  predicate FirstDiffers(a: Name, b: Name, k: nat) {
    k <= |a| && k < |b| && a[..k] == b[..k] && (k == |a| || a[k] < b[k])
  }

  lemma SameStart(a: Name, b: Name, k: nat)
    requires FirstDiffers(a, b, k) && k != 0
    ensures a != [] && a[0] == b[0]
  {
    assert a[..k][0] == b[..k][0];
  }

  lemma {:induction false} DiffersLater(a: Name, b: Name, k: nat)
    requires a != [] && b != [] && a[0] == b[0]
    ensures FirstDiffers(a[1..], b[1..], k) <==> FirstDiffers(a, b, k + 1)
  {
    if k + 1 <= |a| && k + 1 <= |b| {
      assert a[..k + 1] == [a[0]] + a[1..][..k] && b[..k + 1] == [b[0]] + b[1..][..k];
    }
  }

  /** The order is lexicographic: it is decided at the first difference. */
  lemma {:induction false} LessIsLexicographic(a: Name, b: Name)
    ensures Less(a, b) <==> exists k: nat :: FirstDiffers(a, b, k)
  {
    if a == [] || b == [] || a[0] != b[0] {
      assert Less(a, b) ==> FirstDiffers(a, b, 0);
      forall k: nat | FirstDiffers(a, b, k)
        ensures Less(a, b)
      {
        if k != 0 {
          SameStart(a, b, k);
        }
      }
    } else {
      LessIsLexicographic(a[1..], b[1..]);
      if k: nat :| FirstDiffers(a[1..], b[1..], k) {
        DiffersLater(a, b, k);
      }
      if k: nat :| FirstDiffers(a, b, k) {
        assert k != 0;
        DiffersLater(a, b, k - 1);
      }
    }
  }

  ghost predicate IsLeast(s: set<Name>, m: Name) {
    m in s && forall x :: x in s ==> x == m || Less(m, x)
  }

  lemma {:induction false} LeastExists(s: set<Name>)
    requires s != {}
    ensures exists m :: IsLeast(s, m)
  {
    var x :| x in s;
    if s == {x} {
      assert IsLeast(s, x);
    } else {
      LeastExists(s - {x});
      var m :| IsLeast(s - {x}, m);
      LessTotal(x, m);
      if Less(x, m) {
        forall y | y in s
          ensures y == x || Less(x, y)
        {
          if y != x && y != m {
            LessTransitive(x, m, y);
          }
        }
        assert IsLeast(s, x);
      } else {
        assert IsLeast(s, m);
      }
    }
  }

  lemma LeastUnique(s: set<Name>, m: Name, n: Name)
    requires IsLeast(s, m) && IsLeast(s, n)
    ensures m == n
  {
    if m != n {
      LessTransitive(m, n, m);
      LessIrreflexive(m);
    }
  }

  /** The elements of a set in increasing order. */
  ghost function Sorted(s: set<Name>): seq<Name> {
    if s == {} then []
    else
      LeastExists(s);
      var m :| IsLeast(s, m);
      [m] + Sorted(s - {m})
  }

  predicate Increasing(s: seq<Name>) {
    forall i, j :: 0 <= i < j < |s| ==> Less(s[i], s[j])
  }

  lemma {:induction false} SortedFacts(s: set<Name>)
    ensures forall x :: x in Sorted(s) <==> x in s
    ensures Increasing(Sorted(s))
  {
    if s != {} {
      LeastExists(s);
      var m :| IsLeast(s, m) && Sorted(s) == [m] + Sorted(s - {m});
      SortedFacts(s - {m});
    }
  }

  lemma SameElementsEmpty<T>(a: seq<T>, b: seq<T>)
    requires b == [] && forall x :: x in a ==> x in b
    ensures a == []
  {
    if a != [] {
      HasElement(a);
    }
  }

  lemma HasElement<T>(a: seq<T>)
    requires a != []
    ensures exists x :: x in a
  {
    assert a[0] in a;
  }

  lemma SomeLeast(s: set<Name>)
    requires s != {}
    ensures exists m :: m in s && forall x :: x in s ==> x == m || Less(m, x)
  {
    LeastExists(s);
    var m :| IsLeast(s, m);
  }

  lemma {:induction false} SortedStartsWith(s: set<Name>, m: Name)
    requires m in s && forall x :: x in s ==> x == m || Less(m, x)
    ensures Sorted(s) == [m] + Sorted(s - {m})
  {
    LeastExists(s);
    var n :| IsLeast(s, n) && Sorted(s) == [n] + Sorted(s - {n});
    LeastUnique(s, m, n);
  }

  /** ORDER BY: repeatedly the least remaining name. */
  method SortNames(s: set<Name>) returns (names: seq<Name>)
    ensures names == Sorted(s)
  {
    names := [];
    var rest := s;
    while rest != {}
      invariant names + Sorted(rest) == Sorted(s)
      decreases |rest|
    {
      SomeLeast(rest);
      var m :| m in rest && forall x :: x in rest ==> x == m || Less(m, x);
      SortedStartsWith(rest, m);
      names := names + [m];
      rest := rest - {m};
    }
  }
}
