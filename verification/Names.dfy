/** File names in the order in which a sorted directory listing gives them. */
module Names {
  type Name = string

  predicate Leq(a: Name, b: Name) {
    a == "" || (b != "" && (a[0] < b[0] || (a[0] == b[0] && Leq(a[1..], b[1..]))))
  }

  lemma {:induction false} LeqTotal(a: Name, b: Name)
    ensures Leq(a, b) || Leq(b, a)
    ensures Leq(a, b) && Leq(b, a) ==> a == b
    decreases |a|
  {
    if a != "" && b != "" && a[0] == b[0] {
      LeqTotal(a[1..], b[1..]);
      assert a == [a[0]] + a[1..] && b == [b[0]] + b[1..];
    }
  }

  lemma {:induction false} LeqTransitive(a: Name, b: Name, c: Name)
    requires Leq(a, b) && Leq(b, c)
    ensures Leq(a, c)
    decreases |a|
  {
    if a != "" && a[0] == b[0] && b[0] == c[0] {
      LeqTransitive(a[1..], b[1..], c[1..]);
    }
  }

  predicate IsFirst(x: Name, s: set<Name>) {
    x in s && forall y :: y in s ==> Leq(x, y)
  }

  lemma {:induction false} FirstExists(s: set<Name>) returns (x: Name)
    requires s != {}
    ensures IsFirst(x, s)
    decreases |s|
  {
    x :| x in s;
    LeqTotal(x, x);
    if s != {x} {
      assert |s - {x}| < |s|;
      var y := FirstExists(s - {x});
      LeqTotal(x, y);
      if Leq(x, y) {
        forall z | z in s && z != x
          ensures Leq(x, z)
        {
          LeqTransitive(x, y, z);
        }
      } else {
        x := y;
      }
    }
  }

  function Sorted(s: set<Name>): (names: seq<Name>)
    ensures forall n :: n in names <==> n in s
    ensures |names| == |s|
    decreases |s|
  {
    if s == {} then []
    else
      var e := FirstOf(s);
      [e] + Sorted(s - {e})
  }

  function FirstOf(s: set<Name>): (x: Name)
    requires s != {}
    ensures IsFirst(x, s)
  {
    assert exists x :: IsFirst(x, s) by {
      var x := FirstExists(s);
    }
    assert forall x, y | IsFirst(x, s) && IsFirst(y, s) :: x == y by {
      forall x, y | IsFirst(x, s) && IsFirst(y, s)
        ensures x == y
      {
        LeqTotal(x, y);
      }
    }
    var x :| x in s && IsFirst(x, s);
    x
  }

  ghost predicate InOrder(names: seq<Name>) {
    forall i, j :: 0 <= i < j < |names| ==> Leq(names[i], names[j]) && names[i] != names[j]
  }

  /** A listing is in order and names every entry once. */
  lemma {:induction false} SortedInOrder(s: set<Name>)
    ensures InOrder(Sorted(s))
    decreases |s|
  {
    if s != {} {
      var x := FirstOf(s);
      SortedInOrder(s - {x});
      var rest := Sorted(s - {x});
      assert Sorted(s) == [x] + rest;
      assert forall i :: 0 <= i < |rest| ==> rest[i] in rest;
      Prepend(x, rest);
    }
  }

  lemma Prepend(x: Name, rest: seq<Name>)
    requires InOrder(rest) && forall i :: 0 <= i < |rest| ==> Leq(x, rest[i]) && x != rest[i]
    ensures InOrder([x] + rest)
  {
  }

  /** The order is the lexicographic one: a prefix comes first, and otherwise the first difference
      decides. */
  lemma {:induction false} LeqIsLexicographic(p: Name, x: Name, y: Name)
    ensures Leq(p, p + x)
    ensures x != "" && y != "" && x[0] < y[0] ==> Leq(p + x, p + y) && !Leq(p + y, p + x)
    decreases |p|
  {
    if p != "" {
      LeqIsLexicographic(p[1..], x, y);
      assert (p + x)[1..] == p[1..] + x && (p + y)[1..] == p[1..] + y;
    }
  }
}
