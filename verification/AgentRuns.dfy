/**
 Whole runs of the installer: what they keep, what they leave alone, why a second run changes
 nothing, and what directories that are the canonical ones do to all this.
 */
module AgentRuns {
  import opened Names
  import opened AgentMerge
  import opened AgentMergeProofs
  import opened AgentLinks
  import opened AgentLinksProofs

  // ------------------------------------------------------------ conservation

  /** No file is lost: canonical files stay, and a tool's own files are where they were or at the same
      place in the canonical directory. */
  ghost predicate FilesKept(r: Repo, r': Repo) {
    && (forall c, p :: Shared(r, c, p).Content? ==> Shared(r', c, p) == Shared(r, c, p))
    && (forall t, c, p :: Own(r, t, c, p).Content? ==> KeptAt(r, r', t, c, p))
  }

  ghost predicate HoldsFileAt(r: Repo, category: Name) {
    category in r.canonical && HoldsFile(r.canonical[category])
  }

  /** Main result on one install: it keeps every file if and only if source and destination are
      different directories or the category holds no file (or the install raises). */
  lemma InstallConservesIff(r: Repo, tool: Name, category: Name)
    ensures FilesKept(r, Install(r, tool, category, false).repo) <==>
            category in r.loops || !Shares(r, tool, category) || !HoldsFileAt(r, category)
  {
    if category !in r.loops {
      if !Shares(r, tool, category) {
        InstallKeeps(r, tool, category);
      } else {
        OntoKeepsIff(r, tool, category);
      }
    }
  }

  lemma OntoKeepsIff(r: Repo, tool: Name, category: Name)
    requires Shares(r, tool, category)
    ensures FilesKept(r, InstallOnto(r, tool, category, false).repo) <==> !HoldsFileAt(r, category)
  {
    var r' := InstallOnto(r, tool, category, false).repo;
    OntoDrains(r, tool, category);
    if HoldsFileAt(r, category) {
      var p, content :| Look(r.canonical[category], p) == Content(content);
      assert Shared(r, category, p).Content? && Shared(r', category, p) == Nothing;
    } else {
      forall p
        ensures !Shared(r, category, p).Content?
      {
        NoFileFound(r, category, p);
      }
    }
  }

  /** Merging a category onto itself removes its canonical directory, and touches no directory of a
      tool's own. */
  lemma OntoDrains(r: Repo, tool: Name, category: Name)
    requires Shares(r, tool, category)
    ensures var r' := InstallOnto(r, tool, category, false).repo;
            && category !in r'.canonical && r'.loops == r.loops + {category}
            && (forall c, p :: c != category ==> Shared(r', c, p) == Shared(r, c, p))
            && (forall t, c, p :: Own(r', t, c, p) == Own(r, t, c, p))
  {
  }

  lemma NoFileFound(r: Repo, category: Name, p: seq<Name>)
    requires !HoldsFileAt(r, category)
    ensures !Shared(r, category, p).Content?
  {
    if category in r.canonical {
      forall content
        ensures Look(r.canonical[category], p) != Content(content)
      {
      }
    }
  }

  /** After such an install the category is lost to every tool: any further install of it raises, and so
      does any further live run with it. */
  lemma OntoBlocks(r: Repo, tool: Name, category: Name, t: Name, dryRun: bool,
                   tools: seq<Name>, categories: seq<Name>, create: bool)
    requires Shares(r, tool, category) && category !in r.loops && category in categories
    ensures var r' := Install(r, tool, category, false).repo;
            && Install(r', t, category, dryRun) == Installed(r', Raised)
            && Run(r', tools, categories, false, create).raised
            && Run(r', tools, categories, false, create).statuses == []
            && (SlotAt(r, tool, category).CanonicalSlot? && !OnHome(r, tool) ==>
                  SlotAt(r', tool, category) == LinkSlot(Canonical(category)))
  {
  }

  /** The tool has directories of its own for all the categories. */
  ghost predicate Separated(r: Repo, tool: Name, categories: seq<Name>) {
    !OnHome(r, tool) && forall c :: c in categories ==> !Shares(r, tool, c)
  }

  ghost predicate NoneShares(r: Repo, tools: seq<Name>, categories: seq<Name>) {
    forall t :: t in tools ==> Separated(r, t, categories)
  }

  /** What every step of a run keeps: which tools share, and what is there stays there, as long as
      nothing becomes a loop. */
  ghost predicate Steady(r: Repo, r': Repo) {
    && r'.loops == r.loops
    && (forall t :: OnHome(r', t) <==> OnHome(r, t))
    && (forall t, c :: Shares(r', t, c) <==> Shares(r, t, c))
    && (forall t :: t in r.tools ==> t in r'.tools)
    && (forall c :: c in r.canonical ==> c in r'.canonical)
  }

  lemma InstallSteady(r: Repo, tool: Name, category: Name)
    requires !Shares(r, tool, category) && category !in r.loops
    ensures var i := Install(r, tool, category, false);
            i.status != Raised && Steady(r, i.repo) && Kept(r, i.repo)
  {
    var r' := Install(r, tool, category, false).repo;
    ApartDryRun(r, tool, category);
    InstallKeeps(r, tool, category);
    forall t, c
      ensures SteadyAt(r, r', t, c)
    {
      ApartFrame(r, tool, category, false, t, c);
    }
    SteadyEverywhere(r, r');
  }

  ghost predicate SteadyAt(r: Repo, r': Repo, t: Name, c: Name) {
    && r'.loops == r.loops
    && (OnHome(r', t) <==> OnHome(r, t))
    && (Shares(r', t, c) <==> Shares(r, t, c))
    && (t in r.tools ==> t in r'.tools)
    && (c in r.canonical ==> c in r'.canonical)
  }

  lemma SteadyEverywhere(r: Repo, r': Repo)
    requires forall t, c :: SteadyAt(r, r', t, c)
    ensures Steady(r, r')
  {
    assert SteadyAt(r, r', "", "");
    forall t, c
      ensures OnHome(r', t) <==> OnHome(r, t)
      ensures Shares(r', t, c) <==> Shares(r, t, c)
      ensures t in r.tools ==> t in r'.tools
      ensures c in r.canonical ==> c in r'.canonical
    {
      assert SteadyAt(r, r', t, c);
    }
  }

  lemma SeparatedOn(r: Repo, r': Repo, tools: seq<Name>, categories: seq<Name>)
    requires tools != [] && NoneShares(r, tools, categories) && Steady(r, r')
    ensures Separated(r, tools[0], categories) && NoneShares(r', tools[1..], categories)
  {
    assert tools[0] in tools;
    forall t | t in tools[1..]
      ensures Separated(r', t, categories)
    {
      assert t in tools && Separated(r, t, categories);
    }
  }

  /** No category of the run is a link to itself. */
  ghost predicate Ready(r: Repo, categories: seq<Name>) {
    forall c :: c in categories ==> c !in r.loops
  }

  /** A part of a run without sharing tools: it does not raise, and it loses nothing. */
  ghost predicate RunsWell(r: Repo, ran: Ran) {
    !ran.raised && Steady(r, ran.repo) && Kept(r, ran.repo)
  }

  lemma {:induction false} InstallAllRunsWell(r: Repo, tool: Name, categories: seq<Name>)
    requires Separated(r, tool, categories) && Ready(r, categories)
    ensures RunsWell(r, InstallAll(r, tool, categories, false))
    decreases |categories|
  {
    if categories != [] {
      assert categories[0] in categories;
      var r1 := Install(r, tool, categories[0], false).repo;
      InstallSteady(r, tool, categories[0]);
      InstallAllRunsWell(r1, tool, categories[1..]);
      KeptTransitive(r, r1, InstallAll(r1, tool, categories[1..], false).repo);
    }
  }

  lemma RunToolRunsWell(r: Repo, tool: Name, categories: seq<Name>, create: bool)
    requires Separated(r, tool, categories) && Ready(r, categories)
    ensures RunsWell(r, RunTool(r, tool, categories, false, create))
  {
    var r0 := EnsureTool(r, tool);
    EnsureToolSteady(r, tool);
    InstallAllRunsWell(r0, tool, categories);
    KeptTransitive(r, r0, InstallAll(r0, tool, categories, false).repo);
  }

  lemma EnsureToolSteady(r: Repo, tool: Name)
    ensures Steady(r, EnsureTool(r, tool)) && Kept(r, EnsureTool(r, tool))
  {
  }

  lemma {:induction false} RunToolsRunsWell(r: Repo, tools: seq<Name>, categories: seq<Name>, create: bool)
    requires NoneShares(r, tools, categories) && Ready(r, categories)
    ensures RunsWell(r, RunTools(r, tools, categories, false, create))
    decreases |tools|
  {
    if tools != [] {
      assert tools[0] in tools;
      var r1 := RunTool(r, tools[0], categories, false, create).repo;
      RunToolRunsWell(r, tools[0], categories, create);
      SeparatedOn(r, r1, tools, categories);
      RunToolsRunsWell(r1, tools[1..], categories, create);
      KeptTransitive(r, r1, RunTools(r1, tools[1..], categories, false, create).repo);
    }
  }

  lemma {:induction false} EnsureAllRunsWell(r: Repo, categories: seq<Name>)
    ensures Steady(r, EnsureAll(r, categories)) && Kept(r, EnsureAll(r, categories))
    decreases |categories|
  {
    if categories != [] && categories[0] !in r.loops {
      var r1 := EnsureCanonical(r, categories[0]);
      EnsureCanonicalKeeps(r, categories[0]);
      EnsureAllRunsWell(r1, categories[1..]);
      KeptTransitive(r, r1, EnsureAll(r1, categories[1..]));
    }
  }

  /** Main result on whole runs: a live run loses nothing, for any tools that have directories of their
      own, any categories and any trees, also when it raises; and where a directory has become a link,
      every path reads as before. */
  lemma RunConserves(r: Repo, tools: seq<Name>, categories: seq<Name>, create: bool)
    requires NoneShares(r, tools, categories)
    ensures var r' := Run(r, tools, categories, false, create).repo;
            && Kept(r, r')
            && forall t, c, p :: Own(r, t, c, p) != Nothing && SlotAt(r', t, c) == LinkSlot(Canonical(c)) ==>
                 Through(r', t, c, p) == Own(r, t, c, p)
  {
    var r1 := EnsureAll(r, categories);
    var r' := Run(r, tools, categories, false, create).repo;
    EnsureAllRunsWell(r, categories);
    if !Blocked(r, categories) {
      RunToolsRunsWell(r1, tools, categories, create);
      KeptTransitive(r, r1, r');
    }
    forall t, c, p | Own(r, t, c, p) != Nothing && SlotAt(r', t, c) == LinkSlot(Canonical(c))
      ensures Through(r', t, c, p) == Own(r, t, c, p)
    {
      assert KeptAt(r, r', t, c, p);
    }
  }

  // ------------------------------------------------------------------- frame

  /** Outside the given tools and categories nothing has happened, and a file in a category's place
      stays where it is. */
  ghost predicate Outside(r: Repo, r': Repo, tools: seq<Name>, categories: seq<Name>) {
    && (forall t, c :: t !in tools || c !in categories || SlotAt(r, t, c).FileSlot? ==>
          SlotAt(r', t, c) == SlotAt(r, t, c))
    && (forall c :: c !in categories ==> SameShelf(r, r', c))
    && (forall t :: t !in tools ==> SameTool(r, r', t))
  }

  lemma InstallOutside(r: Repo, tool: Name, category: Name, dryRun: bool, tools: seq<Name>, categories: seq<Name>)
    requires tool in tools && category in categories
    ensures Outside(r, Install(r, tool, category, dryRun).repo, tools, categories)
  {
    var r' := Install(r, tool, category, dryRun).repo;
    forall t, c | t !in tools || c !in categories || SlotAt(r, t, c).FileSlot?
      ensures SlotAt(r', t, c) == SlotAt(r, t, c)
    {
      if (t, c) == (tool, category) {
        FileStays(r, tool, category, dryRun);
      } else {
        InstallFrame(r, tool, category, dryRun, t, c);
      }
    }
    forall c | c !in categories
      ensures SameShelf(r, r', c)
    {
      InstallFrame(r, tool, category, dryRun, tool, c);
    }
    forall t | t !in tools
      ensures SameTool(r, r', t)
    {
      InstallFrame(r, tool, category, dryRun, t, category);
    }
  }

  lemma FileStays(r: Repo, tool: Name, category: Name, dryRun: bool)
    requires SlotAt(r, tool, category).FileSlot?
    ensures SlotAt(Install(r, tool, category, dryRun).repo, tool, category) == SlotAt(r, tool, category)
  {
  }

  lemma {:induction false} InstallAllOutside(r: Repo, tool: Name, cats: seq<Name>, dryRun: bool,
                                            tools: seq<Name>, categories: seq<Name>)
    requires tool in tools && forall c :: c in cats ==> c in categories
    ensures Outside(r, InstallAll(r, tool, cats, dryRun).repo, tools, categories)
    decreases |cats|
  {
    if cats != [] {
      assert cats[0] in cats;
      InstallOutside(r, tool, cats[0], dryRun, tools, categories);
      InstallAllOutside(Install(r, tool, cats[0], dryRun).repo, tool, cats[1..], dryRun, tools, categories);
    }
  }

  lemma OutsideJoins(r: Repo, s: Repo, u: Repo, tools: seq<Name>, categories: seq<Name>)
    requires Outside(r, s, tools, categories) && Outside(s, u, tools, categories)
    ensures Outside(r, u, tools, categories)
  {
  }

  lemma RunToolOutside(r: Repo, tool: Name, dryRun: bool, create: bool, tools: seq<Name>, categories: seq<Name>)
    requires tool in tools
    ensures Outside(r, RunTool(r, tool, categories, dryRun, create).repo, tools, categories)
  {
    var r0 := if dryRun then r else EnsureTool(r, tool);
    EnsureToolOutside(r, tool, tools, categories);
    InstallAllOutside(r0, tool, categories, dryRun, tools, categories);
    OutsideJoins(r, r0, InstallAll(r0, tool, categories, dryRun).repo, tools, categories);
  }

  lemma {:induction false} RunToolsOutside(r: Repo, todo: seq<Name>, dryRun: bool, create: bool,
                                          tools: seq<Name>, categories: seq<Name>)
    requires forall t :: t in todo ==> t in tools
    ensures Outside(r, RunTools(r, todo, categories, dryRun, create).repo, tools, categories)
    decreases |todo|
  {
    if todo != [] {
      assert todo[0] in todo;
      var r1 := RunTool(r, todo[0], categories, dryRun, create).repo;
      RunToolOutside(r, todo[0], dryRun, create, tools, categories);
      RunToolsOutside(r1, todo[1..], dryRun, create, tools, categories);
      OutsideJoins(r, r1, RunTools(r1, todo[1..], categories, dryRun, create).repo, tools, categories);
    }
  }

  lemma EnsureToolOutside(r: Repo, tool: Name, tools: seq<Name>, categories: seq<Name>)
    requires tool in tools
    ensures Outside(r, EnsureTool(r, tool), tools, categories)
  {
  }

  lemma {:induction false} EnsureAllOutside(r: Repo, cats: seq<Name>, tools: seq<Name>, categories: seq<Name>)
    requires forall c :: c in cats ==> c in categories
    ensures Outside(r, EnsureAll(r, cats), tools, categories)
    decreases |cats|
  {
    if cats != [] && cats[0] !in r.loops {
      assert cats[0] in cats;
      EnsureAllOutside(EnsureCanonical(r, cats[0]), cats[1..], tools, categories);
    }
  }

  /** Main result on what a run leaves alone: tools and categories it is not given, and files that stand
      where a category directory would, for any tools and in both modes. */
  lemma RunFrame(r: Repo, tools: seq<Name>, categories: seq<Name>, dryRun: bool, create: bool)
    ensures Outside(r, Run(r, tools, categories, dryRun, create).repo, tools, categories)
  {
    EnsureAllOutside(r, categories, tools, categories);
    RunToolsOutside(if dryRun then r else EnsureAll(r, categories), tools, dryRun, create, tools, categories);
  }

  // ---------------------------------------------------------------- fixpoint

  /** Every pair of a processed tool is settled; a tool that was skipped is still absent. */
  ghost predicate ToolDone(r: Repo, tool: Name, categories: seq<Name>, create: bool) {
    if tool in r.tools then forall i :: 0 <= i < |categories| ==> Settled(r, tool, categories[i])
    else !create
  }

  lemma InstallKeepsDone(r: Repo, tool: Name, category: Name, t: Name, all: seq<Name>, create: bool)
    requires tool in r.tools && !Shares(r, tool, category) && category !in r.loops && ToolDone(r, t, all, create)
    ensures ToolDone(Install(r, tool, category, false).repo, t, all, create)
  {
    ApartFrame(r, tool, category, false, t, category);
    if t in r.tools {
      forall i | 0 <= i < |all|
        ensures Settled(Install(r, tool, category, false).repo, t, all[i])
      {
        InstallKeepsSettled(r, tool, category, t, all[i]);
      }
    }
  }

  lemma {:induction false} InstallAllKeepsDone(r: Repo, tool: Name, cats: seq<Name>, t: Name, all: seq<Name>, create: bool)
    requires tool in r.tools && Separated(r, tool, cats) && Ready(r, cats) && ToolDone(r, t, all, create)
    ensures ToolDone(InstallAll(r, tool, cats, false).repo, t, all, create)
    decreases |cats|
  {
    if cats != [] {
      assert cats[0] in cats;
      InstallSteady(r, tool, cats[0]);
      InstallKeepsDone(r, tool, cats[0], t, all, create);
      InstallAllKeepsDone(Install(r, tool, cats[0], false).repo, tool, cats[1..], t, all, create);
    }
  }

  lemma {:induction false} InstallAllSettles(r: Repo, tool: Name, cats: seq<Name>)
    requires tool in r.tools && Separated(r, tool, cats) && Ready(r, cats)
    ensures ToolDone(InstallAll(r, tool, cats, false).repo, tool, cats, false)
    decreases |cats|
  {
    if cats != [] {
      assert cats[0] in cats;
      var r1 := Install(r, tool, cats[0], false).repo;
      InstallSettles(r, tool, cats[0]);
      InstallSteady(r, tool, cats[0]);
      InstallAllSettles(r1, tool, cats[1..]);
      InstallAllRunsWell(r1, tool, cats[1..]);
      assert ToolDone(r1, tool, [cats[0]], false);
      InstallAllKeepsDone(r1, tool, cats[1..], tool, [cats[0]], false);
      DoneJoins(InstallAll(r, tool, cats, false).repo, tool, cats);
    }
  }

  lemma DoneJoins(r: Repo, tool: Name, cats: seq<Name>)
    requires tool in r.tools && cats != []
    requires ToolDone(r, tool, [cats[0]], false) && ToolDone(r, tool, cats[1..], false)
    ensures ToolDone(r, tool, cats, false)
  {
    assert Settled(r, tool, [cats[0]][0]);
    forall i | 0 <= i < |cats|
      ensures Settled(r, tool, cats[i])
    {
      assert i > 0 ==> cats[i] == cats[1..][i - 1];
    }
  }

  lemma RunToolFinishes(r: Repo, tool: Name, cats: seq<Name>, create: bool)
    requires Separated(r, tool, cats) && Ready(r, cats)
    ensures ToolDone(RunTool(r, tool, cats, false, create).repo, tool, cats, create)
  {
    if tool in r.tools || create {
      var r0 := EnsureTool(r, tool);
      InstallAllRunsWell(r0, tool, cats);
      InstallAllSettles(r0, tool, cats);
    }
  }

  lemma RunToolKeepsDone(r: Repo, tool: Name, cats: seq<Name>, t: Name, create: bool)
    requires Separated(r, tool, cats) && Ready(r, cats) && ToolDone(r, t, cats, create)
    ensures ToolDone(RunTool(r, tool, cats, false, create).repo, t, cats, create)
  {
    if tool in r.tools || create {
      var r0 := EnsureTool(r, tool);
      assert forall i :: 0 <= i < |cats| && Settled(r, t, cats[i]) ==> Settled(r0, t, cats[i]);
      InstallAllKeepsDone(r0, tool, cats, t, cats, create);
    }
  }

  lemma {:induction false} RunToolsKeepsDone(r: Repo, tools: seq<Name>, cats: seq<Name>, t: Name, create: bool)
    requires NoneShares(r, tools, cats) && Ready(r, cats) && ToolDone(r, t, cats, create)
    ensures ToolDone(RunTools(r, tools, cats, false, create).repo, t, cats, create)
    decreases |tools|
  {
    if tools != [] {
      assert tools[0] in tools;
      RunToolRunsWell(r, tools[0], cats, create);
      RunToolKeepsDone(r, tools[0], cats, t, create);
      SeparatedOn(r, RunTool(r, tools[0], cats, false, create).repo, tools, cats);
      RunToolsKeepsDone(RunTool(r, tools[0], cats, false, create).repo, tools[1..], cats, t, create);
    }
  }

  lemma {:induction false} RunToolsFinishes(r: Repo, tools: seq<Name>, cats: seq<Name>, create: bool)
    requires NoneShares(r, tools, cats) && Ready(r, cats)
    ensures forall t :: t in tools ==> ToolDone(RunTools(r, tools, cats, false, create).repo, t, cats, create)
    decreases |tools|
  {
    if tools != [] {
      assert tools[0] in tools;
      var r1 := RunTool(r, tools[0], cats, false, create).repo;
      RunToolRunsWell(r, tools[0], cats, create);
      RunToolFinishes(r, tools[0], cats, create);
      SeparatedOn(r, r1, tools, cats);
      RunToolsKeepsDone(r1, tools[1..], cats, tools[0], create);
      RunToolsFinishes(r1, tools[1..], cats, create);
    }
  }

  lemma {:induction false} SettledInstallAll(r: Repo, tool: Name, cats: seq<Name>)
    requires Separated(r, tool, cats) && Ready(r, cats)
    requires forall i :: 0 <= i < |cats| ==> Settled(r, tool, cats[i])
    ensures InstallAll(r, tool, cats, false).repo == r
    decreases |cats|
  {
    if cats != [] {
      assert cats[0] in cats;
      SettledDoesNothing(r, tool, cats[0]);
      SettledInstallAll(r, tool, cats[1..]);
    }
  }

  lemma {:induction false} DoneRunTools(r: Repo, tools: seq<Name>, cats: seq<Name>, create: bool)
    requires NoneShares(r, tools, cats) && Ready(r, cats)
    requires forall t :: t in tools ==> ToolDone(r, t, cats, create)
    ensures RunTools(r, tools, cats, false, create).repo == r
    decreases |tools|
  {
    if tools != [] {
      assert tools[0] in tools;
      if tools[0] in r.tools {
        SettledInstallAll(r, tools[0], cats);
      }
      SeparatedOn(r, r, tools, cats);
      DoneRunTools(r, tools[1..], cats, create);
    }
  }

  lemma {:induction false} EnsureAllTwice(r: Repo, cats: seq<Name>)
    ensures EnsureAll(EnsureAll(r, cats), cats) == EnsureAll(r, cats)
    decreases |cats|
  {
    if cats != [] && cats[0] !in r.loops {
      var r1 := EnsureCanonical(r, cats[0]);
      EnsureAllTwice(r1, cats[1..]);
      EnsureAllRunsWell(r1, cats[1..]);
    }
  }

  lemma {:induction false} EnsureAllHas(r: Repo, cats: seq<Name>)
    requires Ready(r, cats)
    ensures forall c :: c in cats ==> c in EnsureAll(r, cats).canonical
    decreases |cats|
  {
    if cats != [] {
      assert cats[0] in cats;
      var r1 := EnsureCanonical(r, cats[0]);
      EnsureAllHas(r1, cats[1..]);
      EnsureAllRunsWell(r1, cats[1..]);
    }
  }

  /** Every category has its canonical directory, or has become a link to itself. */
  ghost predicate Covered(r: Repo, cats: seq<Name>) {
    forall c :: c in cats ==> c in r.canonical || c in r.loops
  }

  lemma {:induction false} EnsureAllDoesNothing(r: Repo, cats: seq<Name>)
    requires Covered(r, cats)
    ensures EnsureAll(r, cats) == r
    decreases |cats|
  {
    if cats != [] && cats[0] !in r.loops {
      assert cats[0] in cats;
      EnsureAllDoesNothing(r, cats[1..]);
    }
  }

  // ----------------------------------------- runs with a directory that is shared

  /** What any live install keeps, also one that merges a directory onto itself. */
  ghost predicate Onward(r: Repo, r': Repo) {
    && r.loops <= r'.loops
    && forall c :: c in r.canonical ==> c in r'.canonical || c in r'.loops
  }

  lemma InstallOnward(r: Repo, tool: Name, category: Name)
    ensures Onward(r, Install(r, tool, category, false).repo)
  {
    if category !in r.loops {
      if Shares(r, tool, category) {
        OntoDrains(r, tool, category);
        OntoOnward(r, tool, category);
      } else {
        InstallSteady(r, tool, category);
      }
    }
  }

  lemma OntoOnward(r: Repo, tool: Name, category: Name)
    ensures Onward(r, InstallOnto(r, tool, category, false).repo)
  {
  }

  lemma {:induction false} InstallAllOnward(r: Repo, tool: Name, cats: seq<Name>)
    ensures Onward(r, InstallAll(r, tool, cats, false).repo)
    decreases |cats|
  {
    if cats != [] {
      InstallOnward(r, tool, cats[0]);
      InstallAllOnward(Install(r, tool, cats[0], false).repo, tool, cats[1..]);
    }
  }

  lemma {:induction false} RunToolsOnward(r: Repo, tools: seq<Name>, cats: seq<Name>, create: bool)
    ensures Onward(r, RunTools(r, tools, cats, false, create).repo)
    decreases |tools|
  {
    if tools != [] {
      EnsureToolSteady(r, tools[0]);
      InstallAllOnward(EnsureTool(r, tools[0]), tools[0], cats);
      RunToolsOnward(RunTool(r, tools[0], cats, false, create).repo, tools[1..], cats, create);
    }
  }

  lemma {:induction false} InstallAllLoops(r: Repo, tool: Name, cats: seq<Name>)
    requires !Separated(r, tool, cats) && Ready(r, cats) && cats != []
    ensures Blocked(InstallAll(r, tool, cats, false).repo, cats)
    decreases |cats|
  {
    var c := cats[0];
    assert c in cats;
    var r1 := Install(r, tool, c, false).repo;
    if Shares(r, tool, c) {
      OntoDrains(r, tool, c);
      InstallAllOnward(r1, tool, cats[1..]);
      assert c in InstallAll(r, tool, cats, false).repo.loops;
    } else {
      InstallSteady(r, tool, c);
      InstallAllLoops(r1, tool, cats[1..]);
      var d :| d in cats[1..] && d in InstallAll(r, tool, cats, false).repo.loops;
      assert d in cats;
    }
  }

  /** One shared directory among those of the run, and some category ends as a link to itself. */
  lemma {:induction false} SharingLoops(r: Repo, tools: seq<Name>, cats: seq<Name>, create: bool)
    requires !NoneShares(r, tools, cats) && Ready(r, cats) && cats != [] && r.canonical != map[]
    ensures Blocked(RunTools(r, tools, cats, false, create).repo, cats)
    decreases |tools|
  {
    var r1 := RunTool(r, tools[0], cats, false, create).repo;
    if Separated(r, tools[0], cats) {
      RunToolRunsWell(r, tools[0], cats, create);
      assert exists c :: c in r.canonical && c in r1.canonical;
      SharingLoops(r1, tools[1..], cats, create);
    } else {
      assert ToolExists(r, tools[0]);
      InstallAllLoops(r, tools[0], cats);
      RunToolsOnward(r1, tools[1..], cats, create);
    }
  }

  // --------------------------------------------------------------- two runs

  /** Main result on repetition: one live run is a fixpoint.  A second run with the same arguments
      changes nothing, for any initial trees, tools and categories (the command line takes at least
      one); and it raises if and only if the first one did for a link to itself that was already
      there, or some directory of the run is the canonical one. */
  lemma RunTwiceIsRunOnce(r: Repo, tools: seq<Name>, cats: seq<Name>, create: bool)
    requires cats != []
    ensures var once := Run(r, tools, cats, false, create).repo;
            var twice := Run(once, tools, cats, false, create);
            && twice.repo == once
            && (twice.raised <==> Blocked(r, cats) || !NoneShares(r, tools, cats))
  {
    EnsureAllRunsWell(r, cats);
    if Blocked(r, cats) {
      EnsureAllTwice(r, cats);
    } else if NoneShares(r, tools, cats) {
      SecondRunFindsNothing(r, tools, cats, create);
    } else {
      SecondRunRaises(r, tools, cats, create);
    }
  }

  lemma RunCovers(r: Repo, tools: seq<Name>, cats: seq<Name>, create: bool)
    requires Ready(r, cats)
    ensures Covered(RunTools(EnsureAll(r, cats), tools, cats, false, create).repo, cats)
  {
    EnsureAllHas(r, cats);
    RunToolsOnward(EnsureAll(r, cats), tools, cats, create);
  }

  lemma SecondRunRaises(r: Repo, tools: seq<Name>, cats: seq<Name>, create: bool)
    requires !Blocked(r, cats) && !NoneShares(r, tools, cats) && cats != []
    ensures var once := Run(r, tools, cats, false, create).repo;
            Run(once, tools, cats, false, create) == Ran(once, [], true)
  {
    var r1 := EnsureAll(r, cats);
    var once := Run(r, tools, cats, false, create).repo;
    EnsureAllRunsWell(r, cats);
    EnsureAllHas(r, cats);
    assert cats[0] in cats && cats[0] in r1.canonical;
    SharingLoops(r1, tools, cats, create);
    RunCovers(r, tools, cats, create);
    EnsureAllDoesNothing(once, cats);
  }

  lemma SecondRunFindsNothing(r: Repo, tools: seq<Name>, cats: seq<Name>, create: bool)
    requires !Blocked(r, cats) && NoneShares(r, tools, cats)
    ensures var once := Run(r, tools, cats, false, create).repo;
            var twice := Run(once, tools, cats, false, create);
            twice.repo == once && !twice.raised
  {
    var r1 := EnsureAll(r, cats);
    var once := Run(r, tools, cats, false, create).repo;
    EnsureAllRunsWell(r, cats);
    RunToolsRunsWell(r1, tools, cats, create);
    RunCovers(r, tools, cats, create);
    EnsureAllDoesNothing(once, cats);
    RunToolsFinishes(r1, tools, cats, create);
    DoneRunTools(once, tools, cats, create);
    RunToolsRunsWell(once, tools, cats, create);
  }
}
