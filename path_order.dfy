/**
 * Byte-wise string order, as strcmp and the C-locale sort of glob() use it,
 * and the sorted listing of a finite set of paths.
 */
module PathOrder {
  /** a sorts no later than b: a is a prefix of b, or has the smaller character at the first difference. */
  predicate Precedes(a: string, b: string)
    decreases |a|
  {
    a == [] || (b != [] && (a[0] < b[0] || (a[0] == b[0] && Precedes(a[1..], b[1..]))))
  }

  lemma {:induction false} PrecedesReflexive(a: string)
    ensures Precedes(a, a)
    decreases |a|
  {
    if a != [] {
      PrecedesReflexive(a[1..]);
    }
  }

  lemma {:induction false} PrecedesTotal(a: string, b: string)
    ensures Precedes(a, b) || Precedes(b, a)
    decreases |a|
  {
    if a != [] && b != [] && a[0] == b[0] {
      PrecedesTotal(a[1..], b[1..]);
    }
  }

  lemma {:induction false} PrecedesAntisymmetric(a: string, b: string)
    requires Precedes(a, b) && Precedes(b, a)
    ensures a == b
    decreases |a|
  {
    if a != [] {
      PrecedesAntisymmetric(a[1..], b[1..]);
      assert a == [a[0]] + a[1..] && b == [b[0]] + b[1..];
    }
  }

  lemma {:induction false} PrecedesTransitive(a: string, b: string, c: string)
    requires Precedes(a, b) && Precedes(b, c)
    ensures Precedes(a, c)
    decreases |a|
  {
    if a != [] && a[0] == b[0] && b[0] == c[0] {
      PrecedesTransitive(a[1..], b[1..], c[1..]);
    }
  }

  predicate IsLeast(m: string, s: set<string>) {
    m in s && forall x :: x in s ==> Precedes(m, x)
  }

  /** Every non-empty finite set of strings has a least element. */
  lemma {:induction false} LeastExists(s: set<string>)
    requires s != {}
    ensures exists m :: IsLeast(m, s)
    decreases |s|
  {
    var y :| y in s;
    if s != {y} {
      var rest := s - {y};
      LeastExists(rest);
      var m :| IsLeast(m, rest);
      PrecedesTotal(y, m);
      if Precedes(y, m) {
        forall x | x in s
          ensures Precedes(y, x)
        {
          if x != y {
            PrecedesTransitive(y, m, x);
          } else {
            PrecedesReflexive(y);
          }
        }
        assert IsLeast(y, s);
      } else {
        forall x | x in s
          ensures Precedes(m, x)
        {
          if x != y {
            assert x in rest;
          }
        }
        assert IsLeast(m, s);
      }
    } else {
      PrecedesReflexive(y);
      assert IsLeast(y, s);
    }
  }

  lemma LeastUnique(s: set<string>)
    ensures forall m1, m2 :: IsLeast(m1, s) && IsLeast(m2, s) ==> m1 == m2
  {
    forall m1, m2 | IsLeast(m1, s) && IsLeast(m2, s)
      ensures m1 == m2
    {
      PrecedesAntisymmetric(m1, m2);
    }
  }

  /** The elements of s in ascending order, each once. */
  function Sorted(s: set<string>): (r: seq<string>)
    ensures |r| == |s|
    ensures forall i :: 0 <= i < |r| ==> r[i] in s
    ensures forall x :: x in s ==> x in r
    ensures forall i, j :: 0 <= i < j < |r| ==> Precedes(r[i], r[j]) && r[i] != r[j]
    decreases |s|
  {
    if s == {} then []
    else
      LeastExists(s);
      LeastUnique(s);
      var m :| IsLeast(m, s);
      var rest := Sorted(s - {m});
      PrependLeast(m, s, rest);
      [m] + rest
  }

  /** The least element followed by the rest in ascending order lists s in ascending order. */
  lemma PrependLeast(m: string, s: set<string>, rest: seq<string>)
    requires IsLeast(m, s)
    requires |rest| == |s - {m}|
    requires forall i :: 0 <= i < |rest| ==> rest[i] in s - {m}
    requires forall x :: x in s - {m} ==> x in rest
    requires forall i, j :: 0 <= i < j < |rest| ==> Precedes(rest[i], rest[j]) && rest[i] != rest[j]
    ensures var r := [m] + rest;
      |r| == |s| && (forall i :: 0 <= i < |r| ==> r[i] in s) && (forall x :: x in s ==> x in r)
      && forall i, j :: 0 <= i < j < |r| ==> Precedes(r[i], r[j]) && r[i] != r[j]
  {
    var r := [m] + rest;
    forall i, j | 0 <= i < j < |r|
      ensures Precedes(r[i], r[j]) && r[i] != r[j]
    {
      if i == 0 {
        assert r[j] == rest[j - 1];
      }
    }
  }
}
