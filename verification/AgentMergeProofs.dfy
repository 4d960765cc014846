/** What the directory merge keeps, loses and leaves: facts about every pair of trees. */
module AgentMergeProofs {
  import opened Names
  import opened AgentMerge

  // ------------------------------------------------------------ conservation

  /** Main result on contents.  At every path, what the two trees held before is what they hold
      after, taken together; and the destination keeps everything it had. */
  lemma {:induction false} MergeConserves(a: Entries, b: Entries, path: seq<Name>, f: Found)
    requires f != Nothing
    ensures Look(Left(a, b), path) == f || Look(Union(a, b), path) == f <==> Look(a, path) == f || Look(b, path) == f
    ensures Look(b, path) == f ==> Look(Union(a, b), path) == f
    ensures Look(Left(a, b), path) == f ==> Look(a, path) == f
    decreases |path|
  {
    if path != [] {
      var n := path[0];
      LeftAt(a, b, n);
      UnionAt(a, b, n);
      if n in a && n in b && a[n].Dir? && b[n].Dir? {
        var x, y := a[n].entries, b[n].entries;
        MergeConserves(x, y, path[1..], f);
        assert Union(a, b)[n] == Dir(Union(x, y));
        if n in Left(a, b) {
          assert Left(a, b)[n] == Dir(Left(x, y));
        } else {
          EmptyHoldsNothing(path[1..]);
        }
      }
    }
  }

  lemma EmptyHoldsNothing(path: seq<Name>)
    ensures Look(map[], path) == if path == [] then Folder else Nothing
  {
  }

  // --------------------------------------------------------------- conflicts

  /** Main result on conflicts: none are reported if and only if nothing stays in the source, at any
      depth, so that removing the drained directory cannot fail. */
  lemma {:induction false} NoConflictsIffDrained(s: Node, t: Node, path: seq<Name>)
    ensures ConflictsAt(s, t, path) == [] <==> Rest(s, t) == []
    decreases s, 1, 0
  {
    if s.Dir? && t.Dir? {
      var a, b := s.entries, t.entries;
      NoneInIffDrained(s, t, Sorted(a.Keys), path);
      if Rest(s, t) == [] {
        forall n | n in a && n in b
          ensures Rest(a[n], b[n]) == []
        {
          LeftAt(a, b, n);
        }
      } else {
        var left := Left(a, b);
        assert left != map[];
        var n :| n in left;
        LeftAt(a, b, n);
      }
    }
  }

  lemma {:induction false} NoneInIffDrained(s: Node, t: Node, names: seq<Name>, path: seq<Name>)
    requires s.Dir? && t.Dir?
    requires forall n :: n in names ==> n in s.entries
    ensures ConflictsIn(s, t, names, path) == [] <==>
            forall n :: n in names && n in t.entries ==> Rest(s.entries[n], t.entries[n]) == []
    decreases s, 0, |names|
  {
    if names != [] {
      var n := names[0];
      if n in t.entries {
        NoConflictsIffDrained(s.entries[n], t.entries[n], path + [n]);
      }
      NoneInIffDrained(s, t, names[1..], path);
      assert forall m :: m in names <==> m == n || m in names[1..];
    }
  }

  /** Two things at the same place that cannot both be kept. */
  function Clash(f: Found, g: Found): seq<Kind> {
    if f == Nothing || g == Nothing || f == g then []
    else if f.Content? && g.Content? then [FileDiverges]
    else [TypeMismatch]
  }

  function LookNode(n: Node, path: seq<Name>): Found {
    match n
    case File(content) => if path == [] then Content(content) else Nothing
    case Dir(entries) => Look(entries, path)
  }

  /** The reported conflicts are exactly the paths at which the two trees clash. */
  lemma {:induction false} ConflictsAreClashes(s: Node, t: Node, at: seq<Name>, kind: Kind, path: seq<Name>)
    ensures Conflict(kind, at + path) in ConflictsAt(s, t, at) <==>
            Clash(LookNode(s, path), LookNode(t, path)) == [kind]
    decreases s, 1, 0
  {
    if s.Dir? && t.Dir? {
      ConflictsInAreClashes(s, t, Sorted(s.entries.Keys), at, kind, path);
    } else {
      assert at + path == at <==> path == [] by {
        assert path != [] ==> |at + path| > |at|;
        assert at + [] == at;
      }
    }
  }

  lemma {:induction false} ConflictsInAreClashes(s: Node, t: Node, names: seq<Name>, at: seq<Name>, kind: Kind, path: seq<Name>)
    requires s.Dir? && t.Dir?
    requires forall n :: n in names ==> n in s.entries
    ensures Conflict(kind, at + path) in ConflictsIn(s, t, names, at) <==>
            path != [] && path[0] in names && Clash(LookNode(s, path), LookNode(t, path)) == [kind]
    decreases s, 0, |names|
  {
    if names != [] {
      var n := names[0];
      ConflictsInAreClashes(s, t, names[1..], at, kind, path);
      assert forall m :: m in names <==> m == n || m in names[1..];
      if n in t.entries {
        var a, b := s.entries[n], t.entries[n];
        if path != [] && path[0] == n {
          ConflictsAreClashes(a, b, at + [n], kind, path[1..]);
          assert at + [n] + path[1..] == at + path;
          assert LookNode(s, path) == LookNode(a, path[1..]);
          assert LookNode(t, path) == LookNode(b, path[1..]);
        } else {
          ConflictsStartAt(a, b, at + [n], Conflict(kind, at + path));
          assert path != [] ==> (at + path)[|at|] == path[0];
          assert (at + [n])[|at|] == n;
        }
      }
    }
  }

  lemma {:induction false} ConflictsStartAt(s: Node, t: Node, at: seq<Name>, c: Conflict)
    ensures c in ConflictsAt(s, t, at) ==> at <= c.path
    decreases s, 1, 0
  {
    if s.Dir? && t.Dir? {
      ConflictsInStartAt(s, t, Sorted(s.entries.Keys), at, c);
    }
  }

  lemma {:induction false} ConflictsInStartAt(s: Node, t: Node, names: seq<Name>, at: seq<Name>, c: Conflict)
    requires s.Dir? && t.Dir?
    requires forall n :: n in names ==> n in s.entries
    ensures c in ConflictsIn(s, t, names, at) ==> at <= c.path
    decreases s, 0, |names|
  {
    if names != [] {
      var n := names[0];
      if n in t.entries {
        ConflictsStartAt(s.entries[n], t.entries[n], at + [n], c);
      }
      ConflictsInStartAt(s, t, names[1..], at, c);
    }
  }

  /** One path comes before another in a sorted walk: at their first difference its name is less. */
  ghost predicate Precedes(p: seq<Name>, q: seq<Name>) {
    exists k :: 0 <= k < |p| && k < |q| && FirstDiffer(p, q, k)
  }

  ghost predicate FirstDiffer(p: seq<Name>, q: seq<Name>, k: nat)
    requires k < |p| && k < |q|
  {
    p[..k] == q[..k] && p[k] != q[k] && Leq(p[k], q[k])
  }

  ghost predicate PathsInOrder(cs: seq<Conflict>) {
    forall i, j :: 0 <= i < j < |cs| ==> Precedes(cs[i].path, cs[j].path)
  }

  lemma {:induction false} ConflictsUnder(s: Node, t: Node, names: seq<Name>, at: seq<Name>, c: Conflict)
    requires s.Dir? && t.Dir?
    requires forall n :: n in names ==> n in s.entries
    requires c in ConflictsIn(s, t, names, at)
    ensures at < c.path && c.path[|at|] in names
    decreases |names|
  {
    var n := names[0];
    if n in t.entries && c in ConflictsAt(s.entries[n], t.entries[n], at + [n]) {
      ConflictsStartAt(s.entries[n], t.entries[n], at + [n], c);
      assert (at + [n])[|at|] == n;
    } else {
      ConflictsUnder(s, t, names[1..], at, c);
    }
  }

  /** The conflicts are reported in the order of a sorted walk, each path once. */
  lemma {:induction false} ConflictsInOrder(s: Node, t: Node, at: seq<Name>)
    ensures PathsInOrder(ConflictsAt(s, t, at))
    decreases s, 1, 0
  {
    if s.Dir? && t.Dir? {
      SortedInOrder(s.entries.Keys);
      ConflictsInInOrder(s, t, Sorted(s.entries.Keys), at);
    }
  }

  lemma {:induction false} ConflictsInInOrder(s: Node, t: Node, names: seq<Name>, at: seq<Name>)
    requires s.Dir? && t.Dir? && InOrder(names)
    requires forall n :: n in names ==> n in s.entries
    ensures PathsInOrder(ConflictsIn(s, t, names, at))
    decreases s, 0, |names|
  {
    if names != [] {
      var n := names[0];
      assert n in names;
      ConflictsInInOrder(s, t, names[1..], at);
      if n in t.entries {
        ConflictsInOrder(s.entries[n], t.entries[n], at + [n]);
        var now, later := ConflictsAt(s.entries[n], t.entries[n], at + [n]), ConflictsIn(s, t, names[1..], at);
        forall c, d | c in now && d in later
          ensures Precedes(c.path, d.path)
        {
          ConflictsStartAt(s.entries[n], t.entries[n], at + [n], c);
          ConflictsUnder(s, t, names[1..], at, d);
          EarlierName(names, at, n, c.path, d.path);
        }
        OrderJoins(now, later);
      }
    }
  }

  lemma EarlierName(names: seq<Name>, at: seq<Name>, n: Name, p: seq<Name>, q: seq<Name>)
    requires names != [] && InOrder(names) && n == names[0]
    requires at + [n] <= p && at < q && q[|at|] in names[1..]
    ensures Precedes(p, q)
  {
    var i :| 0 <= i < |names[1..]| && names[1..][i] == q[|at|];
    assert names[1..][i] == names[i + 1];
    assert p[|at|] == (at + [n])[|at|] == n;
    assert p[..|at|] == at == q[..|at|];
    assert FirstDiffer(p, q, |at|);
  }

  lemma OrderJoins(a: seq<Conflict>, b: seq<Conflict>)
    requires PathsInOrder(a) && PathsInOrder(b)
    requires forall c, d :: c in a && d in b ==> Precedes(c.path, d.path)
    ensures PathsInOrder(a + b)
  {
    var all := a + b;
    forall i, j | 0 <= i < j < |all|
      ensures Precedes(all[i].path, all[j].path)
    {
      if i < |a| <= j {
        assert a[i] in a && b[j - |a|] in b;
      }
    }
  }

  // --------------------------------------------------------------- leftovers

  /** Every entry of the tree conflicts with what is at its place in the other one. */
  ghost predicate Stuck(s: Node, t: Node)
    decreases s
  {
    match (s, t)
    case (File(x), File(y)) => x != y
    case (Dir(a), Dir(b)) => a != map[] && forall n :: n in a ==> n in b && Stuck(a[n], b[n])
    case _ => true
  }

  /** The second tree has everything of the first, unchanged. */
  ghost predicate Grows(t: Node, u: Node)
    decreases t
  {
    match (t, u)
    case (File(x), File(y)) => x == y
    case (Dir(b), Dir(c)) => forall n :: n in b ==> n in c && Grows(b[n], c[n])
    case _ => false
  }

  lemma {:induction false} GrowsReflexive(t: Node)
    ensures Grows(t, t)
    decreases t
  {
    if t.Dir? {
      forall n | n in t.entries
        ensures Grows(t.entries[n], t.entries[n])
      {
        GrowsReflexive(t.entries[n]);
      }
    }
  }

  lemma {:induction false} GrowsTransitive(t: Node, u: Node, v: Node)
    requires Grows(t, u) && Grows(u, v)
    ensures Grows(t, v)
    decreases t
  {
    if t.Dir? {
      forall n | n in t.entries
        ensures n in v.entries && Grows(t.entries[n], v.entries[n])
      {
        GrowsTransitive(t.entries[n], u.entries[n], v.entries[n]);
      }
    }
  }

  /** The destination only grows. */
  lemma {:induction false} MergeGrows(s: Node, t: Node)
    ensures Grows(t, Joined(s, t))
    decreases s
  {
    if s.Dir? && t.Dir? {
      var a, b := s.entries, t.entries;
      forall n | n in b
        ensures n in Union(a, b) && Grows(b[n], Union(a, b)[n])
      {
        UnionAt(a, b, n);
        if n in a {
          MergeGrows(a[n], b[n]);
        } else {
          GrowsReflexive(b[n]);
        }
      }
      assert Joined(s, t) == Dir(Union(a, b));
    } else {
      GrowsReflexive(t);
    }
  }

  /** What a merge leaves behind conflicts with the destination it made. */
  lemma {:induction false} LeftoversAreStuck(s: Node, t: Node)
    requires Rest(s, t) != []
    ensures Stuck(Rest(s, t)[0], Joined(s, t))
    decreases s
  {
    if s.Dir? && t.Dir? {
      var a, b := s.entries, t.entries;
      var left, union := Left(a, b), Union(a, b);
      assert Rest(s, t)[0] == Dir(left) && Joined(s, t) == Dir(union);
      forall n | n in left
        ensures n in union && Stuck(left[n], union[n])
      {
        LeftAt(a, b, n);
        UnionAt(a, b, n);
        LeftoversAreStuck(a[n], b[n]);
      }
    }
  }

  lemma {:induction false} StuckAsItGrows(s: Node, t: Node, u: Node)
    requires Stuck(s, t) && Grows(t, u)
    ensures Stuck(s, u)
    decreases s
  {
    if s.Dir? && t.Dir? {
      forall n | n in s.entries
        ensures n in u.entries && Stuck(s.entries[n], u.entries[n])
      {
        StuckAsItGrows(s.entries[n], t.entries[n], u.entries[n]);
      }
    }
  }

  /** Merging leftovers again moves nothing. */
  lemma {:induction false} StuckMergeDoesNothing(s: Node, t: Node)
    requires Stuck(s, t)
    ensures Rest(s, t) == [s] && Joined(s, t) == t
    decreases s
  {
    if s.Dir? && t.Dir? {
      var a, b := s.entries, t.entries;
      forall n
        ensures n in Left(a, b) <==> n in a
        ensures n in a ==> Left(a, b)[n] == a[n]
        ensures n in Union(a, b) <==> n in b
        ensures n in b ==> Union(a, b)[n] == b[n]
      {
        LeftAt(a, b, n);
        UnionAt(a, b, n);
        if n in a {
          StuckMergeDoesNothing(a[n], b[n]);
        }
      }
      assert Left(a, b) == a && Union(a, b) == b;
    }
  }

  // --------------------------------------------------- merging onto itself

  ghost predicate HoldsFile(e: Entries) {
    exists path, content :: Look(e, path) == Content(content)
  }

  /** An entry that is a link to its own target keeps the target's files if and only if the target is
      no directory with a file in it. */
  lemma LinkedEntryConservesIff(target: Node)
    ensures (forall p, content :: LookNode(target, p) == Content(content) ==>
               LookNode(LinkedTarget(target), p) == Content(content))
            <==> !(target.Dir? && HoldsFile(target.entries))
  {
    if target.Dir? {
      if HoldsFile(target.entries) {
        var p, content :| Look(target.entries, p) == Content(content);
        assert LookNode(target, p) == Content(content);
        EmptyHoldsNothing(p);
      } else {
        forall p, content
          ensures LookNode(target, p) != Content(content)
        {
          assert Look(target.entries, p) != Content(content);
        }
      }
    }
  }
}
