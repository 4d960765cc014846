/** When a dry run of the whole command reports what the live run would. */
module AgentDryRuns {
  import opened Names
  import opened AgentMerge
  import opened AgentMergeProofs
  import opened AgentLinks
  import opened AgentLinksProofs
  import opened AgentRuns

  // ------------------------------------------------------- one pair, two states

  /** What an install of this pair reports is decided alike in the two repositories: the slot is the
      same, and a directory there meets the same canonical directory (absent counts as empty). */
  ghost predicate Alike(d: Repo, l: Repo, tool: Name, category: Name) {
    && !Shares(d, tool, category) && !Shares(l, tool, category)
    && category !in d.loops && category !in l.loops
    && SlotAt(d, tool, category) == SlotAt(l, tool, category)
    && (SlotAt(d, tool, category).DirSlot? ==> Shelf(d, category) == Shelf(l, category))
  }

  function Shelf(r: Repo, category: Name): Entries {
    if category in r.canonical then r.canonical[category] else map[]
  }

  lemma AlikeReports(d: Repo, l: Repo, tool: Name, category: Name)
    requires Alike(d, l, tool, category)
    ensures Install(d, tool, category, true).status == Install(l, tool, category, false).status
    ensures Install(d, tool, category, true).status != Raised
  {
    ApartDryRun(l, tool, category);
    ApartReports(d, l, tool, category);
  }

  lemma ApartReports(d: Repo, l: Repo, tool: Name, category: Name)
    requires Alike(d, l, tool, category)
    ensures InstallApart(d, tool, category, true).status == InstallApart(l, tool, category, true).status != Raised
  {
    assert SlotAt(d, tool, category).DirSlot? ==>
             EnsureCanonical(d, category).canonical[category] == EnsureCanonical(l, category).canonical[category];
  }

  /** An install of one pair leaves another pair alike, unless both have directories in one category. */
  lemma StaysAlike(d: Repo, l: Repo, tool: Name, category: Name, t: Name, c: Name)
    requires Alike(d, l, tool, category) && Alike(d, l, t, c) && (t, c) != (tool, category)
    requires c != category || !SlotAt(l, tool, category).DirSlot? || !SlotAt(l, t, c).DirSlot?
    ensures Alike(Install(d, tool, category, true).repo, Install(l, tool, category, false).repo, t, c)
    ensures SlotAt(Install(l, tool, category, false).repo, t, c) == SlotAt(l, t, c)
  {
    InstallFrame(l, tool, category, false, t, c);
    ApartFrame(l, tool, category, false, t, c);
    ApartDryRun(d, tool, category);
    if c == category && !SlotAt(l, tool, category).DirSlot? {
      ShelfStays(l, tool, category);
    }
  }

  lemma ShelfStays(r: Repo, tool: Name, category: Name)
    requires !Shares(r, tool, category) && !SlotAt(r, tool, category).DirSlot?
    ensures Shelf(InstallApart(r, tool, category, false).repo, category) == Shelf(r, category)
  {
  }

  // ----------------------------------------------------------------- the pairs

  ghost predicate Distinct(names: seq<Name>) {
    forall i, j :: 0 <= i < j < |names| ==> names[i] != names[j]
  }

  /** All pairs still ahead are alike, and no category has directories in two of the tools. */
  ghost predicate AllAlike(d: Repo, l: Repo, tools: seq<Name>, cats: seq<Name>) {
    && (forall t, c :: t in tools && c in cats ==> Alike(d, l, t, c))
    && OneSource(l, tools, cats)
  }

  ghost predicate OneSource(r: Repo, tools: seq<Name>, cats: seq<Name>) {
    forall t, u, c :: t in tools && u in tools && c in cats && t != u ==>
      !SlotAt(r, t, c).DirSlot? || !SlotAt(r, u, c).DirSlot?
  }

  /** Pairs `(tool, cats)` are ahead for the tool at hand, pairs of `rest` and `all` for the others. */
  ghost predicate Ahead(d: Repo, l: Repo, tool: Name, cats: seq<Name>, rest: seq<Name>, all: seq<Name>) {
    && (forall c :: c in cats ==> Alike(d, l, tool, c))
    && AllAlike(d, l, rest, all)
    && (forall t, c :: t in rest && c in cats ==> !SlotAt(l, tool, c).DirSlot? || !SlotAt(l, t, c).DirSlot?)
  }

  lemma AheadStep(d: Repo, l: Repo, tool: Name, cats: seq<Name>, rest: seq<Name>, all: seq<Name>)
    requires Ahead(d, l, tool, cats, rest, all) && cats != [] && Distinct(cats)
    requires tool !in rest && forall c :: c in cats ==> c in all
    ensures Ahead(Install(d, tool, cats[0], true).repo, Install(l, tool, cats[0], false).repo,
                  tool, cats[1..], rest, all)
  {
    var d', l' := Install(d, tool, cats[0], true).repo, Install(l, tool, cats[0], false).repo;
    assert cats[0] in cats;
    assert forall c :: c in cats[1..] ==> c in cats && c != cats[0];
    forall c | c in cats[1..]
      ensures Alike(d', l', tool, c) && SlotAt(l', tool, c) == SlotAt(l, tool, c)
    {
      StaysAlike(d, l, tool, cats[0], tool, c);
    }
    forall t, c | t in rest && c in all
      ensures Alike(d', l', t, c) && SlotAt(l', t, c) == SlotAt(l, t, c)
    {
      StaysAlike(d, l, tool, cats[0], t, c);
    }
  }

  lemma {:induction false} InstallAllAgrees(d: Repo, l: Repo, tool: Name, cats: seq<Name>, rest: seq<Name>, all: seq<Name>)
    requires Ahead(d, l, tool, cats, rest, all) && Distinct(cats)
    requires tool !in rest && forall c :: c in cats ==> c in all
    ensures var dry, live := InstallAll(d, tool, cats, true), InstallAll(l, tool, cats, false);
            && dry.statuses == live.statuses && !dry.raised && !live.raised
            && AllAlike(dry.repo, live.repo, rest, all)
    decreases |cats|
  {
    if cats != [] {
      assert cats[0] in cats;
      AlikeReports(d, l, tool, cats[0]);
      AheadStep(d, l, tool, cats, rest, all);
      InstallAllAgrees(Install(d, tool, cats[0], true).repo, Install(l, tool, cats[0], false).repo,
                       tool, cats[1..], rest, all);
    }
  }

  /** The same tools are there in both repositories. */
  ghost predicate SameTools(d: Repo, l: Repo, tools: seq<Name>) {
    forall t :: t in tools ==> !OnHome(d, t) && !OnHome(l, t) && (t in d.tools <==> t in l.tools)
  }

  lemma {:induction false} InstallAllTools(r: Repo, tool: Name, cats: seq<Name>, dryRun: bool, t: Name)
    requires t != tool
    ensures var s := InstallAll(r, tool, cats, dryRun).repo;
            (OnHome(s, t) <==> OnHome(r, t)) && (t in s.tools <==> t in r.tools)
    decreases |cats|
  {
    if cats != [] {
      InstallFrame(r, tool, cats[0], dryRun, t, cats[0]);
      InstallAllTools(Install(r, tool, cats[0], dryRun).repo, tool, cats[1..], dryRun, t);
    }
  }

  lemma MakeAhead(d: Repo, l: Repo, tools: seq<Name>, cats: seq<Name>)
    requires tools != [] && Distinct(tools) && AllAlike(d, l, tools, cats) && SameTools(d, l, tools)
    ensures Ahead(d, EnsureTool(l, tools[0]), tools[0], cats, tools[1..], cats)
    ensures AllAlike(d, l, tools[1..], cats) && SameTools(d, l, tools[1..])
  {
    var l' := EnsureTool(l, tools[0]);
    assert tools[0] in tools;
    assert forall t :: t in tools[1..] ==> t in tools && t != tools[0];
    assert forall t, c :: SlotAt(l', t, c) == SlotAt(l, t, c);
    assert forall t, c :: t in tools && c in cats && Alike(d, l, t, c) ==> Alike(d, l', t, c);
  }

  lemma {:induction false} RunToolsAgree(d: Repo, l: Repo, tools: seq<Name>, cats: seq<Name>, create: bool)
    requires Distinct(tools) && Distinct(cats) && AllAlike(d, l, tools, cats) && SameTools(d, l, tools)
    ensures var dry, live := RunTools(d, tools, cats, true, create), RunTools(l, tools, cats, false, create);
            dry.statuses == live.statuses && !dry.raised && !live.raised
    decreases |tools|
  {
    if tools != [] {
      var tool, rest := tools[0], tools[1..];
      assert tool in tools;
      MakeAhead(d, l, tools, cats);
      if tool in l.tools || create {
        var l' := EnsureTool(l, tool);
        InstallAllAgrees(d, l', tool, cats, rest, cats);
        forall t | t in rest
          ensures t in tools && t != tool
        {
        }
        SameToolsAfter(d, l, tools, cats);
        RunToolsAgree(InstallAll(d, tool, cats, true).repo, InstallAll(l', tool, cats, false).repo, rest, cats, create);
      } else {
        RunToolsAgree(d, l, rest, cats, create);
      }
    }
  }

  lemma SameToolsAfter(d: Repo, l: Repo, tools: seq<Name>, cats: seq<Name>)
    requires tools != [] && Distinct(tools) && SameTools(d, l, tools)
    ensures SameTools(InstallAll(d, tools[0], cats, true).repo,
                      InstallAll(EnsureTool(l, tools[0]), tools[0], cats, false).repo, tools[1..])
  {
    forall t | t in tools[1..]
      ensures t in tools && t != tools[0]
      ensures var d', l' := InstallAll(d, tools[0], cats, true).repo,
                            InstallAll(EnsureTool(l, tools[0]), tools[0], cats, false).repo;
              !OnHome(d', t) && !OnHome(l', t) && (t in d'.tools <==> t in l'.tools)
    {
      assert t in tools && t != tools[0];
      InstallAllTools(d, tools[0], cats, true, t);
      InstallAllTools(EnsureTool(l, tools[0]), tools[0], cats, false, t);
    }
  }

  lemma {:induction false} EnsureAllAlike(r: Repo, cats: seq<Name>, tool: Name, c: Name)
    ensures var s := EnsureAll(r, cats);
            && s.loops == r.loops && s.tools == r.tools
            && Shelf(s, c) == Shelf(r, c) && SlotAt(s, tool, c) == SlotAt(r, tool, c)
    decreases |cats|
  {
    if cats != [] && cats[0] !in r.loops {
      EnsureAllAlike(EnsureCanonical(r, cats[0]), cats[1..], tool, c);
    }
  }

  // ---------------------------------------------------------------- whole runs

  /** Main result on dry runs: with no canonical path a link to itself, tools that have directories of
      their own, no tool or category named twice, and in each category at most one tool with a
      directory to merge (so for a single tool always), a dry run reports exactly what the live run
      would, and neither raises. */
  lemma DryRunPredictsRun(r: Repo, tools: seq<Name>, cats: seq<Name>, create: bool)
    requires Ready(r, cats) && NoneShares(r, tools, cats)
    requires Distinct(tools) && Distinct(cats) && OneSource(r, tools, cats)
    ensures var dry, live := Run(r, tools, cats, true, create), Run(r, tools, cats, false, create);
            dry.statuses == live.statuses && !dry.raised && !live.raised
  {
    var l := EnsureAll(r, cats);
    forall t, c | t in tools && c in cats
      ensures Alike(r, l, t, c) && SlotAt(l, t, c) == SlotAt(r, t, c)
    {
      assert Separated(r, t, cats);
      EnsureAllAlike(r, cats, t, c);
    }
    EnsureAllAlike(r, cats, "", "");
    forall t | t in tools
      ensures !OnHome(r, t)
    {
      assert Separated(r, t, cats);
    }
    RunToolsAgree(r, l, tools, cats, create);
  }

  lemma OneToolOneSource(r: Repo, tool: Name, cats: seq<Name>)
    ensures Distinct([tool]) && OneSource(r, [tool], cats)
  {
  }

  /** Two tools hold different files of one name, and the canonical directory is empty or absent. */
  ghost predicate TwoSources(r: Repo, t: Name, u: Name, c: Name, f: Name, x: string, y: string) {
    && t != u && x != y && c !in r.loops && Shelf(r, c) == map[]
    && !OnHome(r, t) && !OnHome(r, u)
    && SlotAt(r, t, c) == DirSlot(map[f := File(x)]) && SlotAt(r, u, c) == DirSlot(map[f := File(y)])
  }

  /** Then the dry run reports two migrations, and the live run a conflict for the second tool. */
  lemma TwoSourcesDisagree(r: Repo, t: Name, u: Name, c: Name, f: Name, x: string, y: string, create: bool)
    requires TwoSources(r, t, u, c, f, x, y)
    ensures Run(r, [t, u], [c], true, create).statuses == [Migrated, Migrated]
    ensures Run(r, [t, u], [c], false, create).statuses ==
            [Migrated, SkipConflicts([Conflict(FileDiverges, [f])])]
  {
    TwoSourcesDry(r, t, u, c, f, x, y, create);
    EnsureOne(r, c);
    TwoSourcesLive(EnsureCanonical(r, c), t, u, c, f, x, y, create);
  }

  lemma TwoSourcesDry(r: Repo, t: Name, u: Name, c: Name, f: Name, x: string, y: string, create: bool)
    requires TwoSources(r, t, u, c, f, x, y)
    ensures RunTools(r, [t, u], [c], true, create).statuses == [Migrated, Migrated]
  {
    OneDirInstall(r, t, c, true, map[f := File(x)]);
    InstallFrame(r, t, c, true, u, c);
    OneDirInstall(Install(r, t, c, true).repo, u, c, true, map[f := File(y)]);
    TwoTools(r, t, u, c, true, create);
  }

  lemma TwoSourcesLive(r: Repo, t: Name, u: Name, c: Name, f: Name, x: string, y: string, create: bool)
    requires TwoSources(r, t, u, c, f, x, y)
    ensures RunTools(r, [t, u], [c], false, create).statuses ==
            [Migrated, SkipConflicts([Conflict(FileDiverges, [f])])]
  {
    OneDirInstall(r, t, c, false, map[f := File(x)]);
    InstallFrame(r, t, c, false, u, c);
    InstallFrame(r, t, c, false, t, c);
    ApartFrame(r, t, c, false, u, c);
    ClashInstall(Install(r, t, c, false).repo, u, c, f, x, y);
    TwoTools(r, t, u, c, false, create);
  }

  lemma EnsureOne(r: Repo, c: Name)
    requires c !in r.loops
    ensures EnsureAll(r, [c]) == EnsureCanonical(r, c) && !Blocked(r, [c])
  {
    assert [c][1..] == [];
    assert EnsureAll(EnsureCanonical(r, c), []) == EnsureCanonical(r, c);
  }

  /** A directory meets an empty canonical directory: it is migrated. */
  lemma OneDirInstall(r: Repo, tool: Name, c: Name, dryRun: bool, a: Entries)
    requires c !in r.loops && !Shares(r, tool, c) && Shelf(r, c) == map[] && SlotAt(r, tool, c) == DirSlot(a)
    ensures var i := Install(r, tool, c, dryRun);
            i.status == Migrated && c in i.repo.canonical && i.repo.canonical[c] == if dryRun then map[] else a
  {
    var r0 := EnsureCanonical(r, c);
    assert r0.canonical[c] == map[];
    IntoEmpty(a);
    DryRunPredicts(r, tool, c);
    InstallEnsured(r, tool, c);
    InstallDir(r0, tool, c);
  }

  lemma IntoEmpty(a: Entries)
    ensures Left(a, map[]) == map[] && Union(a, map[]) == a && Conflicts(a, map[], []) == []
  {
    forall n
      ensures n !in Left(a, map[])
      ensures n in Union(a, map[]) <==> n in a
      ensures n in a ==> Union(a, map[])[n] == a[n]
    {
      LeftAt(a, map[], n);
      UnionAt(a, map[], n);
    }
    assert Left(a, map[]) == map[] && Union(a, map[]) == a;
    NoConflictsIffDrained(Dir(a), Dir(map[]), []);
  }

  /** Two directories with one file of the same name and different contents clash. */
  lemma ClashInstall(r: Repo, tool: Name, c: Name, f: Name, x: string, y: string)
    requires c !in r.loops && !Shares(r, tool, c) && x != y
    requires c in r.canonical && r.canonical[c] == map[f := File(x)]
    requires SlotAt(r, tool, c) == DirSlot(map[f := File(y)])
    ensures Install(r, tool, c, false).status == SkipConflicts([Conflict(FileDiverges, [f])])
  {
    var a, b := map[f := File(y)], map[f := File(x)];
    assert a.Keys == {f};
    SortedOne(f);
    assert [f][1..] == [] && [] + [f] == [f];
    assert ConflictsIn(Dir(a), Dir(b), [f], []) == [Conflict(FileDiverges, [f])];
    assert Conflicts(a, b, []) == [Conflict(FileDiverges, [f])];
  }

  lemma SortedOne(f: Name)
    ensures Sorted({f}) == [f]
  {
    SortedInOrder({f});
    assert |Sorted({f})| == 1 && Sorted({f})[0] in Sorted({f});
  }

  lemma OnePair(r: Repo, t: Name, c: Name, dryRun: bool, create: bool)
    requires !OnHome(r, t) && t in r.tools && Install(r, t, c, dryRun).status != Raised
    ensures var one := Install(r, t, c, dryRun);
            RunTool(r, t, [c], dryRun, create) == Ran(one.repo, [one.status], false)
  {
    var one := Install(r, t, c, dryRun);
    assert [c][1..] == [];
    assert InstallAll(one.repo, t, [], dryRun) == Ran(one.repo, [], false);
  }

  lemma TwoTools(r: Repo, t: Name, u: Name, c: Name, dryRun: bool, create: bool)
    requires !OnHome(r, t) && !OnHome(r, u) && t in r.tools && u in r.tools && t != u
    requires Install(r, t, c, dryRun).status != Raised
    requires Install(Install(r, t, c, dryRun).repo, u, c, dryRun).status != Raised
    ensures var one := Install(r, t, c, dryRun);
            RunTools(r, [t, u], [c], dryRun, create).statuses ==
            [one.status, Install(one.repo, u, c, dryRun).status]
  {
    var one := Install(r, t, c, dryRun);
    InstallFrame(r, t, c, dryRun, u, c);
    OnePair(r, t, c, dryRun, create);
    OnePair(one.repo, u, c, dryRun, create);
    OneTool(one.repo, u, c, dryRun, create);
    assert [t, u][1..] == [u];
  }

  lemma OneTool(r: Repo, t: Name, c: Name, dryRun: bool, create: bool)
    requires !RunTool(r, t, [c], dryRun, create).raised
    ensures RunTools(r, [t], [c], dryRun, create) == RunTool(r, t, [c], dryRun, create)
  {
    var one := RunTool(r, t, [c], dryRun, create);
    assert [t][1..] == [];
    assert RunTools(one.repo, [], [c], dryRun, create) == Ran(one.repo, [], false);
  }
}
