/** One install: what it reports, what it keeps, and when nothing is left to do. */
module AgentLinksProofs {
  import opened Names
  import opened AgentMerge
  import opened AgentMergeProofs
  import opened AgentLinks

  /** What a tool's own directory, the canonical directory, and the tool's path with links followed
      hold at a relative path. */
  function Own(r: Repo, tool: Name, category: Name, path: seq<Name>): Found {
    var slot := SlotAt(r, tool, category);
    if slot.DirSlot? then Look(slot.entries, path) else Nothing
  }

  function Shared(r: Repo, category: Name, path: seq<Name>): Found {
    if category in r.canonical then Look(r.canonical[category], path) else Nothing
  }

  function Through(r: Repo, tool: Name, category: Name, path: seq<Name>): Found {
    var slot := SlotAt(r, tool, category);
    if slot.LinkSlot? && slot.target.Canonical? then Shared(r, slot.target.category, path)
    else if Shares(r, tool, category) then Shared(r, category, path)
    else Own(r, tool, category, path)
  }

  // ----------------------------------------------------------- one install

  /** For one tool and category, a dry run reports what the live run reports and changes nothing but
      the canonical directory's existence; and the branch for a drained directory that cannot be
      removed is never taken. */
  lemma DryRunPredicts(r: Repo, tool: Name, category: Name)
    ensures Install(r, tool, category, true).status == Install(r, tool, category, false).status
    ensures Install(r, tool, category, true).repo == if category in r.loops then r else EnsureCanonical(r, category)
    ensures forall dryRun :: Install(r, tool, category, dryRun).status != SkipNotEmpty
  {
    if !Shares(r, tool, category) {
      ApartDryRun(r, tool, category);
    }
  }

  lemma ApartDryRun(r: Repo, tool: Name, category: Name)
    requires !Shares(r, tool, category)
    ensures InstallApart(r, tool, category, true).status == InstallApart(r, tool, category, false).status
    ensures InstallApart(r, tool, category, true).repo == EnsureCanonical(r, category)
    ensures forall dryRun :: InstallApart(r, tool, category, dryRun).status != SkipNotEmpty
  {
    var r0 := EnsureCanonical(r, category);
    var slot := SlotAt(r0, tool, category);
    if slot.DirSlot? {
      var a, b := slot.entries, r0.canonical[category];
      NoConflictsIffDrained(Dir(a), Dir(b), []);
      assert Conflicts(a, b, []) == [] ==> Left(a, b) == map[];
    }
  }

  /** A live install that does not skip ends with the right link; one that skips leaves no link. */
  lemma InstallOutcome(r: Repo, tool: Name, category: Name)
    requires !Shares(r, tool, category) && category !in r.loops
    ensures var i := Install(r, tool, category, false);
            SlotAt(i.repo, tool, category) == LinkSlot(Canonical(category)) <==>
            i.status in {AlreadyLinked, Relinked, Migrated, Created}
  {
    ApartDryRun(r, tool, category);
  }

  /** An install touches its own slot and its own canonical directory, nothing else. */
  lemma InstallFrame(r: Repo, tool: Name, category: Name, dryRun: bool, t: Name, c: Name)
    ensures var r' := Install(r, tool, category, dryRun).repo;
            && ((t, c) != (tool, category) ==> SlotAt(r', t, c) == SlotAt(r, t, c))
            && (c != category ==> SameShelf(r, r', c))
            && (t != tool ==> SameTool(r, r', t))
            && (OnHome(r', t) <==> OnHome(r, t))
            && ((t, c) != (tool, category) ==> (Shares(r', t, c) <==> Shares(r, t, c)))
  {
    if category !in r.loops {
      if Shares(r, tool, category) {
        OntoFrame(r, tool, category, dryRun, t, c);
      } else {
        ApartFrame(r, tool, category, dryRun, t, c);
      }
    }
  }

  lemma OntoFrame(r: Repo, tool: Name, category: Name, dryRun: bool, t: Name, c: Name)
    requires Shares(r, tool, category)
    ensures var r' := InstallOnto(r, tool, category, dryRun).repo;
            && ((t, c) != (tool, category) ==> SlotAt(r', t, c) == SlotAt(r, t, c))
            && (c != category ==> SameShelf(r, r', c))
            && (t != tool ==> SameTool(r, r', t))
            && (OnHome(r', t) <==> OnHome(r, t))
  {
  }

  /** Nothing has happened to a canonical directory, or to a tool. */
  ghost predicate SameShelf(r: Repo, r': Repo, c: Name) {
    && (c in r'.canonical <==> c in r.canonical)
    && (c in r.canonical ==> r'.canonical[c] == r.canonical[c])
    && (c in r'.loops <==> c in r.loops)
  }

  ghost predicate SameTool(r: Repo, r': Repo, t: Name) {
    && (t in r'.tools <==> t in r.tools)
    && (t in r.tools ==> r'.tools[t] == r.tools[t])
  }

  lemma ApartFrame(r: Repo, tool: Name, category: Name, dryRun: bool, t: Name, c: Name)
    requires !Shares(r, tool, category)
    ensures var r' := InstallApart(r, tool, category, dryRun).repo;
            && ((t, c) != (tool, category) ==> SlotAt(r', t, c) == SlotAt(r, t, c))
            && (c != category ==> (c in r'.canonical <==> c in r.canonical))
            && (c != category && c in r.canonical ==> r'.canonical[c] == r.canonical[c])
            && (t in r.tools ==> t in r'.tools)
            && (t in r'.tools ==> t in r.tools || t == tool)
            && category in r'.canonical
            && r'.loops == r.loops
            && (OnHome(r', t) <==> OnHome(r, t))
            && (Shares(r', t, c) <==> Shares(r, t, c))
            && (t != tool && t in r.tools ==> r'.tools[t] == r.tools[t])
  {
    var canon, slot := InstallShape(r, tool, category, dryRun);
    WriteFrame(r, tool, category, canon, slot, t, c);
  }

  /** The repository with one canonical directory and, unless `slot` is `NoSlot`, one slot written. */
  function Write(r: Repo, tool: Name, category: Name, canon: Entries, slot: Slot): Repo {
    (if slot == NoSlot then r else PutSlot(r, tool, category, slot)).(canonical := r.canonical[category := canon])
  }

  lemma InstallShape(r: Repo, tool: Name, category: Name, dryRun: bool) returns (canon: Entries, slot: Slot)
    requires !Shares(r, tool, category)
    ensures InstallApart(r, tool, category, dryRun).repo == Write(r, tool, category, canon, slot)
    ensures !slot.CanonicalSlot?
  {
    var r0 := EnsureCanonical(r, category);
    var was := SlotAt(r, tool, category);
    canon, slot := r0.canonical[category], NoSlot;
    assert r0 == Write(r, tool, category, canon, NoSlot);
    if dryRun {
      ApartDryRun(r, tool, category);
    } else if was.DirSlot? {
      InstallEnsured(r, tool, category);
      ShapeOfDir(r0, tool, category);
      canon, slot := Union(was.entries, canon), AfterDir(was.entries, canon, category);
      WriteEnsured(r, tool, category, canon, slot);
    } else if !was.FileSlot? && was != LinkSlot(Canonical(category)) {
      slot := LinkSlot(Canonical(category));
    }
  }

  lemma WriteEnsured(r: Repo, tool: Name, category: Name, canon: Entries, slot: Slot)
    ensures Write(EnsureCanonical(r, category), tool, category, canon, slot) == Write(r, tool, category, canon, slot)
  {
    assert EnsureCanonical(r, category).canonical[category := canon] == r.canonical[category := canon];
  }

  lemma InstallEnsured(r: Repo, tool: Name, category: Name)
    requires !Shares(r, tool, category)
    ensures InstallApart(r, tool, category, false) == InstallApart(EnsureCanonical(r, category), tool, category, false)
  {
  }

  /** The slot after a live install of a directory. */
  function AfterDir(a: Entries, b: Entries, category: Name): Slot {
    if Left(a, b) == map[] then LinkSlot(Canonical(category)) else DirSlot(Left(a, b))
  }

  lemma ShapeOfDir(r: Repo, tool: Name, category: Name)
    requires !Shares(r, tool, category)
    requires category in r.canonical && SlotAt(r, tool, category).DirSlot?
    ensures var a, b := SlotAt(r, tool, category).entries, r.canonical[category];
            InstallApart(r, tool, category, false).repo ==
            Write(r, tool, category, Union(a, b), AfterDir(a, b, category))
  {
    var a, b := SlotAt(r, tool, category).entries, r.canonical[category];
    NoConflictsIffDrained(Dir(a), Dir(b), []);
    WriteTwice(r, tool, category, DirSlot(Left(a, b)), LinkSlot(Canonical(category)));
  }

  lemma WriteTwice(r: Repo, tool: Name, category: Name, slot: Slot, slot': Slot)
    ensures PutSlot(PutSlot(r, tool, category, slot), tool, category, slot') == PutSlot(r, tool, category, slot')
  {
    var slots := Slots(r, tool);
    assert slots[category := slot][category := slot'] == slots[category := slot'];
    assert r.tools[tool := Separate(slots[category := slot])][tool := Separate(slots[category := slot'])] ==
           r.tools[tool := Separate(slots[category := slot'])];
  }

  lemma WriteFrame(r: Repo, tool: Name, category: Name, canon: Entries, slot: Slot, t: Name, c: Name)
    requires !Shares(r, tool, category) && !slot.CanonicalSlot?
    ensures var r' := Write(r, tool, category, canon, slot);
            && ((t, c) != (tool, category) ==> SlotAt(r', t, c) == SlotAt(r, t, c))
            && (c != category ==> (c in r'.canonical <==> c in r.canonical))
            && (c != category && c in r.canonical ==> r'.canonical[c] == r.canonical[c])
            && (t in r.tools ==> t in r'.tools)
            && (t in r'.tools ==> t in r.tools || t == tool)
            && category in r'.canonical
            && r'.loops == r.loops
            && (OnHome(r', t) <==> OnHome(r, t))
            && (Shares(r', t, c) <==> Shares(r, t, c))
            && (t != tool && t in r.tools ==> r'.tools[t] == r.tools[t])
  {
  }

  /** A live install of a directory: the slot and the canonical directory afterwards. */
  lemma InstallDir(r: Repo, tool: Name, category: Name)
    requires !Shares(r, tool, category)
    requires category in r.canonical && SlotAt(r, tool, category).DirSlot?
    ensures var a, b := SlotAt(r, tool, category).entries, r.canonical[category];
            var r' := InstallApart(r, tool, category, false).repo;
            r'.canonical[category] == Union(a, b) && SlotAt(r', tool, category) == AfterDir(a, b, category)
  {
    ShapeOfDir(r, tool, category);
  }

  // ----------------------------------------------------------- conservation

  /** Nothing is lost from one state to the next: canonical contents stay, and what a tool's own
      directory held is still there or at the same place in the canonical directory. */
  ghost predicate Kept(r: Repo, r': Repo) {
    && (forall c, p :: Shared(r, c, p) != Nothing ==> Shared(r', c, p) == Shared(r, c, p))
    && (forall t, c, p :: Own(r, t, c, p) != Nothing ==> KeptAt(r, r', t, c, p))
  }

  ghost predicate KeptAt(r: Repo, r': Repo, t: Name, c: Name, p: seq<Name>) {
    Own(r', t, c, p) == Own(r, t, c, p) || Shared(r', c, p) == Own(r, t, c, p)
  }

  lemma KeptTransitive(r: Repo, s: Repo, t: Repo)
    requires Kept(r, s) && Kept(s, t)
    ensures Kept(r, t)
  {
    forall tool, c, p | Own(r, tool, c, p) != Nothing
      ensures KeptAt(r, t, tool, c, p)
    {
      assert KeptAt(r, s, tool, c, p);
      if Own(s, tool, c, p) != Nothing {
        assert KeptAt(s, t, tool, c, p);
      }
    }
  }

  lemma EnsureCanonicalKeeps(r: Repo, category: Name)
    ensures Kept(r, EnsureCanonical(r, category))
  {
  }

  lemma InstallKeeps(r: Repo, tool: Name, category: Name)
    requires !Shares(r, tool, category)
    ensures Kept(r, InstallApart(r, tool, category, false).repo)
  {
    var r0 := EnsureCanonical(r, category);
    var r' := InstallApart(r, tool, category, false).repo;
    assert r' == InstallApart(r0, tool, category, false).repo;
    forall c, p | Shared(r, c, p) != Nothing
      ensures Shared(r', c, p) == Shared(r, c, p)
    {
      InstallKeepsShared(r0, tool, category, c, p);
    }
    forall t, c, p | Own(r, t, c, p) != Nothing
      ensures KeptAt(r, r', t, c, p)
    {
      InstallKeepsOwn(r0, tool, category, t, c, p);
    }
  }

  lemma InstallKeepsShared(r: Repo, tool: Name, category: Name, c: Name, p: seq<Name>)
    requires !Shares(r, tool, category)
    requires category in r.canonical && Shared(r, c, p) != Nothing
    ensures Shared(InstallApart(r, tool, category, false).repo, c, p) == Shared(r, c, p)
  {
    ApartFrame(r, tool, category, false, tool, c);
    var slot := SlotAt(r, tool, category);
    if c == category && slot.DirSlot? {
      InstallDir(r, tool, category);
      MergeConserves(slot.entries, r.canonical[category], p, Shared(r, c, p));
    }
  }

  lemma InstallKeepsOwn(r: Repo, tool: Name, category: Name, t: Name, c: Name, p: seq<Name>)
    requires !Shares(r, tool, category)
    requires category in r.canonical && Own(r, t, c, p) != Nothing
    ensures KeptAt(r, InstallApart(r, tool, category, false).repo, t, c, p)
  {
    ApartFrame(r, tool, category, false, t, c);
    if (t, c) == (tool, category) {
      InstallDir(r, tool, category);
      var a, b := SlotAt(r, tool, category).entries, r.canonical[category];
      MergeConserves(a, b, p, Own(r, t, c, p));
      if Left(a, b) == map[] && p == [] {
        assert Look(Union(a, b), p) == Folder;
      }
    }
  }

  /** After a "migrated" install every path reads through the link as it read before. */
  lemma MigratedIsTransparent(r: Repo, tool: Name, category: Name, path: seq<Name>)
    requires !Shares(r, tool, category) && Install(r, tool, category, false).status == Migrated
    requires Own(r, tool, category, path) != Nothing
    ensures var r' := Install(r, tool, category, false).repo;
            && SlotAt(r', tool, category) == LinkSlot(Canonical(category))
            && Through(r', tool, category, path) == Own(r, tool, category, path)
  {
    InstallKeeps(r, tool, category);
    assert KeptAt(r, InstallApart(r, tool, category, false).repo, tool, category, path);
  }

  // --------------------------------------------------------------- conflicts

  lemma LookOne(e: Entries, n: Name)
    ensures Look(e, [n]) == if n !in e then Nothing else if e[n].Dir? then Folder else Content(e[n].content)
  {
    assert [n][1..] == [];
  }

  lemma LookInto(e: Entries, n: Name, p: seq<Name>)
    requires n in e && e[n].Dir?
    ensures Look(e, [n] + p) == Look(e[n].entries, p)
  {
    assert ([n] + p)[1..] == p;
  }

  /** A tree is determined by what is found in it. */
  lemma {:induction false} LookDetermines(a: Entries, b: Entries)
    requires forall p :: Look(a, p) == Look(b, p)
    ensures a == b
    decreases Dir(a)
  {
    forall n
      ensures n in a <==> n in b
      ensures n in a && n in b ==> a[n] == b[n]
    {
      LookOne(a, n);
      LookOne(b, n);
      assert Look(a, [n]) == Look(b, [n]);
      if n in a && n in b && a[n].Dir? {
        forall p
          ensures Look(a[n].entries, p) == Look(b[n].entries, p)
        {
          LookInto(a, n, p);
          LookInto(b, n, p);
          assert Look(a, [n] + p) == Look(b, [n] + p);
        }
        LookDetermines(a[n].entries, b[n].entries);
      }
    }
  }

  /** A merge leaves a tree as it is only if every entry of it conflicts. */
  lemma {:induction false} UnmovedIsStuck(s: Node, t: Node)
    requires Rest(s, t) == [s]
    ensures Stuck(s, t)
    decreases s
  {
    if s.Dir? && t.Dir? {
      var a, b := s.entries, t.entries;
      assert Left(a, b) == a;
      forall n | n in a
        ensures n in b && Stuck(a[n], b[n])
      {
        LeftAt(a, b, n);
        assert |Rest(a[n], b[n])| <= 1;
        UnmovedIsStuck(a[n], b[n]);
      }
    }
  }

  /** Main result on conflicts of an install: it has moved nothing, and every path of the tool reads as
      before, if and only if every single entry of the tool's directory conflicts.  Otherwise entries
      without a conflict have moved away although the directory was not replaced by a link. */
  lemma SkipKeepsReadingIff(r: Repo, tool: Name, category: Name)
    requires !Shares(r, tool, category) && category in r.canonical
    requires Install(r, tool, category, false).status.SkipConflicts?
    ensures var a, b := SlotAt(r, tool, category).entries, r.canonical[category];
            var r' := Install(r, tool, category, false).repo;
            && (Stuck(Dir(a), Dir(b)) <==> Left(a, b) == a)
            && (Stuck(Dir(a), Dir(b)) <==>
                forall p :: Through(r', tool, category, p) == Through(r, tool, category, p))
  {
    var a, b := SlotAt(r, tool, category).entries, r.canonical[category];
    ReadsAsLeft(r, tool, category);
    UnmovedIff(a, b);
    ReadsSameIff(r, tool, category);
  }

  lemma ReadsSameIff(r: Repo, tool: Name, category: Name)
    requires !Shares(r, tool, category) && category in r.canonical
    requires Install(r, tool, category, false).status.SkipConflicts?
    ensures var a, b := SlotAt(r, tool, category).entries, r.canonical[category];
            var r' := Install(r, tool, category, false).repo;
            && Left(a, b) != map[]
            && (Left(a, b) == a <==> forall p :: Through(r', tool, category, p) == Through(r, tool, category, p))
  {
    var a, b := SlotAt(r, tool, category).entries, r.canonical[category];
    var r' := Install(r, tool, category, false).repo;
    ReadsAsLeft(r, tool, category);
    if forall p :: Through(r', tool, category, p) == Through(r, tool, category, p) {
      forall p
        ensures Look(Left(a, b), p) == Look(a, p)
      {
        assert Through(r', tool, category, p) == Through(r, tool, category, p);
      }
      LookDetermines(Left(a, b), a);
    }
  }

  lemma UnmovedIff(a: Entries, b: Entries)
    requires Left(a, b) != map[]
    ensures Stuck(Dir(a), Dir(b)) <==> Left(a, b) == a
  {
    if Stuck(Dir(a), Dir(b)) {
      StuckMergeDoesNothing(Dir(a), Dir(b));
    }
    if Left(a, b) == a {
      assert Rest(Dir(a), Dir(b)) == [Dir(a)];
      UnmovedIsStuck(Dir(a), Dir(b));
    }
  }

  /** What a tool's path holds before and after a merge that leaves something. */
  lemma ReadsAsLeft(r: Repo, tool: Name, category: Name)
    requires !Shares(r, tool, category) && category in r.canonical
    requires Install(r, tool, category, false).status.SkipConflicts?
    ensures var a, b := SlotAt(r, tool, category).entries, r.canonical[category];
            var r' := Install(r, tool, category, false).repo;
            && Left(a, b) != map[]
            && forall p :: Through(r, tool, category, p) == Look(a, p)
                           && Through(r', tool, category, p) == Look(Left(a, b), p)
  {
    var a, b := SlotAt(r, tool, category).entries, r.canonical[category];
    NoConflictsIffDrained(Dir(a), Dir(b), []);
    InstallDir(r, tool, category);
    InstallFrame(r, tool, category, false, tool, category);
  }

  /** A file next to a conflicting one is gone from the tool's path, which is still a directory, and is
      found in the canonical directory. */
  lemma PartialMove(r: Repo, tool: Name, category: Name, f: Name, g: Name, x: string, y: string, z: string)
    requires !Shares(r, tool, category) && category in r.canonical && category !in r.loops && f != g && y != z
    requires SlotAt(r, tool, category) == DirSlot(map[f := File(x), g := File(y)])
    requires r.canonical[category] == map[g := File(z)]
    ensures var i := Install(r, tool, category, false);
            && i.status.SkipConflicts?
            && SlotAt(i.repo, tool, category).DirSlot?
            && Through(r, tool, category, [f]) == Content(x)
            && Through(i.repo, tool, category, [f]) == Nothing
            && Shared(i.repo, category, [f]) == Content(x)
  {
    var a, b := SlotAt(r, tool, category).entries, r.canonical[category];
    InstallDir(r, tool, category);
    NoConflictsIffDrained(Dir(a), Dir(b), []);
    LeftAt(a, b, f);
    LeftAt(a, b, g);
    UnionAt(a, b, f);
  }

  // --------------------------------------------------------------- fixpoint

  /** An install of this pair has nothing left to do. */
  ghost predicate Settled(r: Repo, tool: Name, category: Name) {
    && category in r.canonical
    && tool in r.tools
    && match SlotAt(r, tool, category)
       case NoSlot => false
       case FileSlot(_) => true
       case CanonicalSlot => false
       case LinkSlot(target) => target == Canonical(category)
       case DirSlot(entries) => Stuck(Dir(entries), Dir(r.canonical[category]))
  }

  lemma SettledDoesNothing(r: Repo, tool: Name, category: Name)
    requires !Shares(r, tool, category)
    requires Settled(r, tool, category)
    ensures InstallApart(r, tool, category, false).repo == r
  {
    var slot := SlotAt(r, tool, category);
    if slot.DirSlot? {
      var a, b := slot.entries, r.canonical[category];
      StuckMergeDoesNothing(Dir(a), Dir(b));
      ShapeOfDir(r, tool, category);
      WriteSame(r, tool, category);
    }
  }

  lemma WriteSame(r: Repo, tool: Name, category: Name)
    requires category in r.canonical && tool in r.tools && category in Slots(r, tool)
    ensures Write(r, tool, category, r.canonical[category], SlotAt(r, tool, category)) == r
  {
    var slots := Slots(r, tool);
    assert slots[category := slots[category]] == slots;
    assert r.tools[tool := Separate(slots)] == r.tools;
    assert r.canonical[category := r.canonical[category]] == r.canonical;
  }

  lemma InstallSettles(r: Repo, tool: Name, category: Name)
    requires !Shares(r, tool, category)
    requires tool in r.tools
    ensures Settled(InstallApart(r, tool, category, false).repo, tool, category)
  {
    var r0 := EnsureCanonical(r, category);
    assert InstallApart(r, tool, category, false) == InstallApart(r0, tool, category, false);
    ApartFrame(r0, tool, category, false, tool, category);
    if SlotAt(r0, tool, category).DirSlot? {
      InstallDir(r0, tool, category);
      var a, b := SlotAt(r0, tool, category).entries, r0.canonical[category];
      if Left(a, b) != map[] {
        LeftoversAreStuck(Dir(a), Dir(b));
      }
    }
  }

  /** Later installs leave a settled pair settled: its canonical directory only grows. */
  lemma InstallKeepsSettled(r: Repo, tool: Name, category: Name, t: Name, c: Name)
    requires !Shares(r, tool, category)
    requires Settled(r, t, c) && tool in r.tools
    ensures Settled(InstallApart(r, tool, category, false).repo, t, c)
  {
    if (t, c) == (tool, category) {
      SettledDoesNothing(r, tool, category);
    } else {
      ApartFrame(r, tool, category, false, t, c);
      var r' := InstallApart(r, tool, category, false).repo;
      CanonicalGrows(r, tool, category, c);
      var slot := SlotAt(r, t, c);
      if slot.DirSlot? {
        StuckAsItGrows(Dir(slot.entries), Dir(r.canonical[c]), Dir(r'.canonical[c]));
      }
    }
  }

  lemma CanonicalGrows(r: Repo, tool: Name, category: Name, c: Name)
    requires !Shares(r, tool, category)
    requires c in r.canonical
    ensures var r' := InstallApart(r, tool, category, false).repo;
            c in r'.canonical && Grows(Dir(r.canonical[c]), Dir(r'.canonical[c]))
  {
    ApartFrame(r, tool, category, false, tool, c);
    var slot := SlotAt(r, tool, category);
    if c == category && slot.DirSlot? {
      InstallDir(r, tool, category);
      MergeGrows(Dir(slot.entries), Dir(r.canonical[c]));
      assert Joined(Dir(slot.entries), Dir(r.canonical[c])) == Dir(Union(slot.entries, r.canonical[c]));
    } else {
      GrowsReflexive(Dir(r.canonical[c]));
    }
  }
}
