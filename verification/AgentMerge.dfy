/**
 The directory merge of the agent-link installer: entries move from a source tree into a
 destination tree, byte-identical duplicates are dropped, and what diverges stays where it is.
 A directory is a map from names to nodes.
 */
module AgentMerge {
  import opened Names

  datatype Node = File(content: string) | Dir(entries: map<Name, Node>)

  type Entries = map<Name, Node>

  datatype Kind = FileDiverges | TypeMismatch

  datatype Conflict = Conflict(kind: Kind, path: seq<Name>)

  datatype Found = Nothing | Folder | Content(content: string)

  /** What is at a relative path. */
  function Look(e: Entries, path: seq<Name>): Found
    decreases |path|
  {
    if path == [] then Folder
    else if path[0] !in e then Nothing
    else
      match e[path[0]]
      case File(content) => if |path| == 1 then Content(content) else Nothing
      case Dir(entries) => Look(entries, path[1..])
  }

  // -------------------------------------------------------------- the result

  /** What stays in place of a source entry whose target exists: nothing for a duplicate or a
      drained directory. */
  function Rest(s: Node, t: Node): seq<Node>
    decreases s
  {
    match (s, t)
    case (File(a), File(b)) => if a == b then [] else [s]
    case (Dir(a), Dir(b)) =>
      var left := map n | n in a && n in b && Rest(a[n], b[n]) != [] :: Rest(a[n], b[n])[0];
      if left == map[] then [] else [Dir(left)]
    case _ => [s]
  }

  /** The target after the merge. */
  function Joined(s: Node, t: Node): Node
    decreases s
  {
    match (s, t)
    case (Dir(a), Dir(b)) =>
      Dir(map n | n in a.Keys + b.Keys ::
            if n !in b then a[n] else if n !in a then b[n] else Joined(a[n], b[n]))
    case _ => t
  }

  /** What a merge leaves in the source directory, and what it makes of the destination. */
  function Left(a: Entries, b: Entries): Entries {
    var rest := Rest(Dir(a), Dir(b));
    if rest == [] then map[] else rest[0].entries
  }

  function Union(a: Entries, b: Entries): Entries {
    Joined(Dir(a), Dir(b)).entries
  }

  /** The reported conflicts, in the order of the sorted listings. */
  function ConflictsAt(s: Node, t: Node, path: seq<Name>): seq<Conflict>
    decreases s, 1, 0
  {
    match (s, t)
    case (File(a), File(b)) => if a == b then [] else [Conflict(FileDiverges, path)]
    case (Dir(a), Dir(b)) => ConflictsIn(s, t, Sorted(a.Keys), path)
    case _ => [Conflict(TypeMismatch, path)]
  }

  function ConflictsIn(s: Node, t: Node, names: seq<Name>, path: seq<Name>): seq<Conflict>
    requires s.Dir? && t.Dir?
    requires forall n :: n in names ==> n in s.entries
    decreases s, 0, |names|
  {
    if names == [] then []
    else
      var n := names[0];
      (if n in t.entries then ConflictsAt(s.entries[n], t.entries[n], path + [n]) else [])
      + ConflictsIn(s, t, names[1..], path)
  }

  function Conflicts(a: Entries, b: Entries, path: seq<Name>): seq<Conflict> {
    ConflictsAt(Dir(a), Dir(b), path)
  }

  lemma LeftAt(a: Entries, b: Entries, n: Name)
    ensures n in Left(a, b) <==> n in a && n in b && Rest(a[n], b[n]) != []
    ensures n in Left(a, b) ==> Left(a, b)[n] == Rest(a[n], b[n])[0]
  {
  }

  lemma UnionAt(a: Entries, b: Entries, n: Name)
    ensures n in Union(a, b) <==> n in a || n in b
    ensures n in Union(a, b) ==>
              Union(a, b)[n] == if n !in b then a[n] else if n !in a then b[n] else Joined(a[n], b[n])
  {
  }

  // --------------------------------------------------------------- the loop

  /** The two directories at one name, before or after the loop has visited it. */
  ghost predicate VisitedAt(a: Entries, b: Entries, n: Name, visited: bool, src: Entries, dst: Entries) {
    if visited then
      && (n in src <==> n in Left(a, b)) && (n in src ==> src[n] == Left(a, b)[n])
      && (n in dst <==> n in Union(a, b)) && (n in dst ==> dst[n] == Union(a, b)[n])
    else
      && (n in src <==> n in a) && (n in src ==> src[n] == a[n])
      && (n in dst <==> n in b) && (n in dst ==> dst[n] == b[n])
  }

  /** The entries at `names` have not been visited yet. */
  ghost predicate Visited(a: Entries, b: Entries, names: seq<Name>, src: Entries, dst: Entries) {
    forall n :: VisitedAt(a, b, n, n in a && n !in names, src, dst)
  }

  /** `_merge_dir`: the source and destination directories afterwards, and the conflicts. */
  method MergeDir(a: Entries, b: Entries, path: seq<Name>, dryRun: bool)
    returns (src: Entries, dst: Entries, conflicts: seq<Conflict>)
    ensures conflicts == Conflicts(a, b, path)
    ensures dryRun ==> src == a && dst == b
    ensures !dryRun ==> src == Left(a, b) && dst == Union(a, b)
    decreases Dir(a), 0
  {
    src, dst, conflicts := a, b, [];
    var names := Sorted(a.Keys);
    SortedInOrder(a.Keys);
    while names != []
      invariant Merging(a, b, path, dryRun, names, src, dst, conflicts)
      decreases |names|
    {
      var n := names[0];
      var rest, target, more := [], a[n], [];
      if n in b {
        rest, target, more := MergeEntry(a[n], b[n], path + [n], dryRun);
      }
      MergeStep(a, b, path, dryRun, names, src, dst, conflicts, rest, target, more);
      conflicts := conflicts + more;
      if !dryRun {
        src, dst := Put(src, n, rest), Put(dst, n, [target]);
      }
      names := names[1..];
    }
    if !dryRun {
      VisitedAll(a, b, src, dst);
    }
  }

  /** The loop with `names` still to visit. */
  ghost predicate Merging(a: Entries, b: Entries, path: seq<Name>, dryRun: bool,
                          names: seq<Name>, src: Entries, dst: Entries, conflicts: seq<Conflict>)
  {
    && Listing(a, names)
    && Reported(a, b, path, conflicts, names)
    && if dryRun then src == a && dst == b else Visited(a, b, names, src, dst)
  }

  /** The conflicts found so far, and those still ahead, are all of them. */
  ghost predicate Reported(a: Entries, b: Entries, path: seq<Name>, conflicts: seq<Conflict>, names: seq<Name>)
    requires Listing(a, names)
  {
    Conflicts(a, b, path) == conflicts + ConflictsIn(Dir(a), Dir(b), names, path)
  }

  lemma ReportStep(a: Entries, b: Entries, path: seq<Name>, conflicts: seq<Conflict>, names: seq<Name>)
    requires names != [] && Listing(a, names) && Reported(a, b, path, conflicts, names)
    ensures var n := names[0];
            && Listing(a, names[1..])
            && Reported(a, b, path, conflicts + (if n in b then ConflictsAt(a[n], b[n], path + [n]) else []), names[1..])
  {
    ListingRest(a, names);
    ConflictsStep(Dir(a), Dir(b), names, path, conflicts);
  }

  lemma MergeStep(a: Entries, b: Entries, path: seq<Name>, dryRun: bool,
                  names: seq<Name>, src: Entries, dst: Entries, conflicts: seq<Conflict>,
                  rest: seq<Node>, target: Node, more: seq<Conflict>)
    requires names != [] && Merging(a, b, path, dryRun, names, src, dst, conflicts)
    requires var n := names[0];
             if n in b then
               && more == ConflictsAt(a[n], b[n], path + [n])
               && (!dryRun ==> rest == Rest(a[n], b[n]) && target == Joined(a[n], b[n]))
             else more == [] && rest == [] && target == a[n]
    ensures var n := names[0];
            if dryRun then Merging(a, b, path, dryRun, names[1..], src, dst, conflicts + more)
            else Merging(a, b, path, dryRun, names[1..], Put(src, n, rest), Put(dst, n, [target]), conflicts + more)
  {
    ListingRest(a, names);
    ReportStep(a, b, path, conflicts, names);
    if !dryRun {
      Visit(a, b, names, src, dst, rest, target);
    }
  }

  /** A directory with the entry at one name replaced, or removed. */
  function Put(e: Entries, n: Name, entry: seq<Node>): (r: Entries)
    ensures forall m :: m != n ==> (m in r <==> m in e) && (m in r ==> r[m] == e[m])
    ensures n in r <==> entry != []
    ensures n in r ==> r[n] == entry[0]
  {
    if entry == [] then e - {n} else e[n := entry[0]]
  }

  lemma ConflictsStep(s: Node, t: Node, names: seq<Name>, path: seq<Name>, before: seq<Conflict>)
    requires s.Dir? && t.Dir? && names != [] && Listing(s.entries, names)
    ensures var n := names[0];
            var now := if n in t.entries then ConflictsAt(s.entries[n], t.entries[n], path + [n]) else [];
            before + ConflictsIn(s, t, names, path) == before + now + ConflictsIn(s, t, names[1..], path)
  {
    var n := names[0];
    var now := if n in t.entries then ConflictsAt(s.entries[n], t.entries[n], path + [n]) else [];
    assert ConflictsIn(s, t, names, path) == now + ConflictsIn(s, t, names[1..], path);
    Associates(before, now, ConflictsIn(s, t, names[1..], path));
  }

  lemma Associates(a: seq<Conflict>, b: seq<Conflict>, c: seq<Conflict>)
    ensures a + (b + c) == a + b + c
  {
  }

  /** What is left of a sorted listing. */
  ghost predicate Listing(a: Entries, names: seq<Name>) {
    && (forall i :: 0 <= i < |names| ==> names[i] in a)
    && (forall i, j :: 0 <= i < j < |names| ==> names[i] != names[j])
  }

  /** One entry whose target exists: what stays of it, what the target becomes, the conflicts. */
  method MergeEntry(entry: Node, target: Node, path: seq<Name>, dryRun: bool)
    returns (rest: seq<Node>, joined: Node, conflicts: seq<Conflict>)
    ensures conflicts == ConflictsAt(entry, target, path)
    ensures !dryRun ==> rest == Rest(entry, target) && joined == Joined(entry, target)
    decreases entry, 1
  {
    rest, joined, conflicts := [entry], target, [];
    match (entry, target)
    case (File(x), File(y)) =>
      if x == y {
        rest := [];
      } else {
        conflicts := [Conflict(FileDiverges, path)];
      }
    case (Dir(x), Dir(y)) =>
      var left, union;
      left, union, conflicts := MergeDir(x, y, path, dryRun);
      joined := Dir(union);
      // rmdir succeeds on an empty directory and is ignored otherwise
      rest := if left == map[] then [] else [Dir(left)];
    case _ =>
      conflicts := [Conflict(TypeMismatch, path)];
  }

  /** Visiting one name settles both directories there and nowhere else. */
  lemma Visit(a: Entries, b: Entries, names: seq<Name>, src: Entries, dst: Entries, rest: seq<Node>, target: Node)
    requires names != [] && Listing(a, names)
    requires Visited(a, b, names, src, dst)
    requires var n := names[0];
             if n in b then rest == Rest(a[n], b[n]) && target == Joined(a[n], b[n])
             else rest == [] && target == a[n]
    ensures Visited(a, b, names[1..], Put(src, names[0], rest), Put(dst, names[0], [target]))
  {
    forall n
      ensures VisitedAt(a, b, n, n in a && n !in names[1..], Put(src, names[0], rest), Put(dst, names[0], [target]))
    {
      assert VisitedAt(a, b, n, n in a && n !in names, src, dst);
      if n == names[0] {
        LeftAt(a, b, n);
        UnionAt(a, b, n);
      } else {
        assert n in names <==> n in names[1..];
      }
    }
  }

  lemma VisitedAll(a: Entries, b: Entries, src: Entries, dst: Entries)
    requires Visited(a, b, [], src, dst)
    ensures src == Left(a, b) && dst == Union(a, b)
  {
    forall n
      ensures n in src <==> n in Left(a, b)
      ensures n in src ==> src[n] == Left(a, b)[n]
      ensures n in dst <==> n in Union(a, b)
      ensures n in dst ==> dst[n] == Union(a, b)[n]
    {
      assert VisitedAt(a, b, n, n in a && n !in [], src, dst);
      LeftAt(a, b, n);
      UnionAt(a, b, n);
    }
  }

  /** A directory of which the entries at `names` are left, as they were. */
  ghost predicate Remains(e: Entries, names: seq<Name>, d: Entries) {
    && Listing(e, names)
    && (forall n :: n in d <==> n in names)
    && forall n :: n in d ==> n in e && d[n] == e[n]
  }

  lemma RemoveFirst(e: Entries, names: seq<Name>, d: Entries)
    requires names != [] && Remains(e, names, d)
    ensures Remains(e, names[1..], d - {names[0]})
  {
    ListingRest(e, names);
  }

  lemma ListingRest(e: Entries, names: seq<Name>)
    requires names != [] && Listing(e, names)
    ensures Listing(e, names[1..])
    ensures forall n :: n in names[1..] <==> n in names && n != names[0]
  {
    var rest := names[1..];
    assert forall i :: 0 <= i < |rest| ==> rest[i] == names[i + 1];
    assert names == [names[0]] + rest;
  }

  /** `_merge_dir` when source and destination are the same directory: every target exists, because it
      is the entry itself, so every file is a duplicate of itself and every directory drains. */
  method MergeOnto(e: Entries, dryRun: bool) returns (d: Entries, conflicts: seq<Conflict>)
    ensures conflicts == []
    ensures d == if dryRun then e else map[]
    decreases Dir(e)
  {
    d, conflicts := e, [];
    var names := Sorted(e.Keys);
    SortedInOrder(e.Keys);
    while names != []
      invariant Listing(e, names) && conflicts == []
      invariant if dryRun then d == e else Remains(e, names, d)
      decreases |names|
    {
      var n := names[0];
      assert n in names && d[n] == e[n];
      var drained := true;
      if d[n].Dir? {
        var left, more := MergeOnto(d[n].entries, dryRun);
        conflicts := conflicts + more;
        drained := left == map[];
      }
      if !dryRun {
        RemoveFirst(e, names, d);
        // a duplicate file is unlinked; rmdir removes a directory that is empty by now
        if drained {
          d := d - {n};
        }
      }
      names := names[1..];
    }
  }

  /** What becomes of a target when the entry to merge into it is a link that leads to the target. */
  function LinkedTarget(target: Node): Node {
    if target.Dir? then Dir(map[]) else target
  }

  /** The branches for such an entry: a link to a file is a duplicate and is removed; a link to a
      directory has the directory merged onto itself, and stays, because `rmdir` refuses a link. */
  method MergeLinkedEntry(target: Node, dryRun: bool)
    returns (stays: bool, after: Node, conflicts: seq<Conflict>)
    ensures conflicts == []
    ensures stays <==> dryRun || target.Dir?
    ensures after == if dryRun then target else LinkedTarget(target)
  {
    match target
    case File(_) =>
      stays, after, conflicts := dryRun, target, [];
    case Dir(entries) =>
      var left;
      left, conflicts := MergeOnto(entries, dryRun);
      stays, after := true, Dir(left);
  }
}
