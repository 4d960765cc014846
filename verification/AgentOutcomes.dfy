/** What one install reports, what a whole live run ends with, and what a whole dry run leaves behind. */
module AgentOutcomes {
  import opened Names
  import opened AgentMerge
  import opened AgentMergeProofs
  import opened AgentLinks
  import opened AgentLinksProofs
  import opened AgentRuns
  import opened AgentDryRuns

  // ------------------------------------------------------------- one install

  /** The status says what was found: a category whose path is a link to itself raises; a shared
      directory migrates; and otherwise the slot decides. */
  lemma InstallReports(r: Repo, tool: Name, category: Name, dryRun: bool)
    ensures var status := Install(r, tool, category, dryRun).status;
            && (status == Raised <==> category in r.loops)
            && (status != Raised && Shares(r, tool, category) ==> status == Migrated)
            && (status != Raised && !Shares(r, tool, category) ==>
                  var slot := SlotAt(r, tool, category);
                  && (status == AlreadyLinked <==> slot == LinkSlot(Canonical(category)))
                  && (status == Relinked <==> slot.LinkSlot? && slot.target != Canonical(category))
                  && (status == SkipNonDir <==> slot.FileSlot?)
                  && (status == Created <==> slot.NoSlot?)
                  && (status == Migrated || status.SkipConflicts? <==> slot.DirSlot?))
  {
    DryRunPredicts(r, tool, category);
  }

  /** A directory migrates if and only if nothing in it clashes with the canonical directory, and the
      reported conflicts are those of the two trees. */
  lemma DirReports(r: Repo, tool: Name, category: Name, dryRun: bool)
    requires category !in r.loops && !Shares(r, tool, category) && SlotAt(r, tool, category).DirSlot?
    ensures var status := Install(r, tool, category, dryRun).status;
            var a, b := SlotAt(r, tool, category).entries, Shelf(r, category);
            && (status == Migrated <==> Left(a, b) == map[])
            && (status != Migrated ==> status == SkipConflicts(Conflicts(a, b, [])))
  {
    var a, b := SlotAt(r, tool, category).entries, Shelf(r, category);
    DryRunPredicts(r, tool, category);
    NoConflictsIffDrained(Dir(a), Dir(b), []);
    EnsuredShelf(r, category);
  }

  lemma EnsuredShelf(r: Repo, category: Name)
    ensures EnsureCanonical(r, category).canonical[category] == Shelf(r, category)
  {
  }

  // ---------------------------------------------------------------- dry runs

  /** Nothing has changed but for empty canonical directories of the categories. */
  ghost predicate OnlyEmpties(r: Repo, r': Repo, categories: seq<Name>) {
    && r'.tools == r.tools && r'.loops == r.loops
    && (forall c :: c in r.canonical ==> c in r'.canonical && r'.canonical[c] == r.canonical[c])
    && (forall c :: c in r'.canonical && c !in r.canonical ==> c in categories && r'.canonical[c] == map[])
  }

  lemma OnlyEmptiesJoins(r: Repo, s: Repo, u: Repo, categories: seq<Name>)
    requires OnlyEmpties(r, s, categories) && OnlyEmpties(s, u, categories)
    ensures OnlyEmpties(r, u, categories)
  {
  }

  lemma {:induction false} InstallAllDry(r: Repo, tool: Name, cats: seq<Name>, categories: seq<Name>)
    requires forall c :: c in cats ==> c in categories
    ensures var ran := InstallAll(r, tool, cats, true);
            && OnlyEmpties(r, ran.repo, categories)
            && (!ran.raised ==> forall c :: c in cats ==> c in ran.repo.canonical)
    decreases |cats|
  {
    if cats != [] {
      assert cats[0] in cats;
      DryRunPredicts(r, tool, cats[0]);
      var r1 := Install(r, tool, cats[0], true).repo;
      InstallAllDry(r1, tool, cats[1..], categories);
      OnlyEmptiesJoins(r, r1, InstallAll(r1, tool, cats[1..], true).repo, categories);
      InstallReports(r, tool, cats[0], true);
      assert forall c :: c in cats ==> c == cats[0] || c in cats[1..];
    }
  }

  /** A tool takes part in a run: it exists, or missing tools are to be created. */
  predicate TakesPart(r: Repo, tool: Name, create: bool) {
    ToolExists(r, tool) || create
  }

  lemma StillTakesPart(r: Repo, r': Repo, tool: Name, create: bool, categories: seq<Name>)
    requires OnlyEmpties(r, r', categories) && TakesPart(r, tool, create)
    ensures TakesPart(r', tool, create)
  {
    if r.canonical != map[] {
      var c :| c in r.canonical;
      assert c in r'.canonical;
    }
  }

  lemma {:induction false} RunToolsDry(r: Repo, tools: seq<Name>, categories: seq<Name>, create: bool)
    ensures var ran := RunTools(r, tools, categories, true, create);
            && OnlyEmpties(r, ran.repo, categories)
            && (!ran.raised && (exists t :: t in tools && TakesPart(r, t, create)) ==>
                  forall c :: c in categories ==> c in ran.repo.canonical)
            && ((forall t :: t in tools ==> !TakesPart(r, t, create)) ==> ran == Ran(r, [], false))
    decreases |tools|
  {
    if tools != [] {
      assert tools[0] in tools;
      InstallAllDry(r, tools[0], categories, categories);
      var one := RunTool(r, tools[0], categories, true, create);
      RunToolsDry(one.repo, tools[1..], categories, create);
      OnlyEmptiesJoins(r, one.repo, RunTools(one.repo, tools[1..], categories, true, create).repo, categories);
      if t :| t in tools && t != tools[0] && TakesPart(r, t, create) {
        StillTakesPart(r, one.repo, t, create, categories);
        assert t in tools[1..];
      }
    }
  }

  /** Main result on what a dry run leaves behind: the tools and links are as they were, and so are the
      canonical directories, but that empty ones appear for categories of the run; for all of them if
      some tool takes part and nothing raises, and for none if no tool takes part. */
  lemma DryRunLeaves(r: Repo, tools: seq<Name>, categories: seq<Name>, create: bool)
    ensures var ran := Run(r, tools, categories, true, create);
            && OnlyEmpties(r, ran.repo, categories)
            && (!ran.raised && (exists t :: t in tools && TakesPart(r, t, create)) ==>
                  forall c :: c in categories ==> c in ran.repo.canonical)
            && ((forall t :: t in tools ==> !TakesPart(r, t, create)) ==> ran.repo == r)
  {
    RunToolsDry(r, tools, categories, create);
  }

  // --------------------------------------------------------------- live runs

  /** No file has come to stand in a category's place. */
  ghost predicate NoNewFiles(r: Repo, r': Repo) {
    forall t, c :: SlotAt(r', t, c).FileSlot? ==> SlotAt(r, t, c) == SlotAt(r', t, c)
  }

  lemma InstallNoNewFiles(r: Repo, tool: Name, category: Name)
    ensures NoNewFiles(r, Install(r, tool, category, false).repo)
  {
    var r' := Install(r, tool, category, false).repo;
    forall t, c | SlotAt(r', t, c).FileSlot?
      ensures SlotAt(r, t, c) == SlotAt(r', t, c)
    {
      if (t, c) == (tool, category) {
        OwnSlotAfter(r, tool, category);
      } else {
        InstallFrame(r, tool, category, false, t, c);
      }
    }
  }

  lemma OwnSlotAfter(r: Repo, tool: Name, category: Name)
    ensures var after := SlotAt(Install(r, tool, category, false).repo, tool, category);
            after.FileSlot? ==> after == SlotAt(r, tool, category)
  {
    if category !in r.loops && !Shares(r, tool, category) {
      if SlotAt(r, tool, category).DirSlot? {
        InstallEnsured(r, tool, category);
        InstallDir(EnsureCanonical(r, category), tool, category);
      } else {
        NoDirSlotAfter(r, tool, category);
      }
    }
  }

  lemma NoDirSlotAfter(r: Repo, tool: Name, category: Name)
    requires !Shares(r, tool, category) && !SlotAt(r, tool, category).DirSlot?
    ensures SlotAt(InstallApart(r, tool, category, false).repo, tool, category) ==
            if SlotAt(r, tool, category).FileSlot? then SlotAt(r, tool, category) else LinkSlot(Canonical(category))
  {
  }

  lemma {:induction false} InstallAllNoNewFiles(r: Repo, tool: Name, cats: seq<Name>)
    ensures NoNewFiles(r, InstallAll(r, tool, cats, false).repo)
    decreases |cats|
  {
    if cats != [] {
      InstallNoNewFiles(r, tool, cats[0]);
      InstallAllNoNewFiles(Install(r, tool, cats[0], false).repo, tool, cats[1..]);
    }
  }

  lemma {:induction false} RunToolsNoNewFiles(r: Repo, tools: seq<Name>, cats: seq<Name>, create: bool)
    ensures NoNewFiles(r, RunTools(r, tools, cats, false, create).repo)
    decreases |tools|
  {
    if tools != [] {
      var r0 := EnsureTool(r, tools[0]);
      assert forall t, c :: SlotAt(r0, t, c) == SlotAt(r, t, c);
      InstallAllNoNewFiles(r0, tools[0], cats);
      RunToolsNoNewFiles(RunTool(r, tools[0], cats, false, create).repo, tools[1..], cats, create);
    }
  }

  lemma {:induction false} AbsentStays(r: Repo, tools: seq<Name>, cats: seq<Name>, t: Name)
    requires NoneShares(r, tools, cats) && Ready(r, cats) && t !in r.tools && t in tools
    ensures t !in RunTools(r, tools, cats, false, false).repo.tools
    decreases |tools|
  {
    var r1 := RunTool(r, tools[0], cats, false, false).repo;
    assert tools[0] in tools && Separated(r, t, cats);
    RunToolRunsWell(r, tools[0], cats, false);
    SeparatedOn(r, r1, tools, cats);
    if tools[0] != t && tools[0] in r.tools {
      InstallAllTools(r, tools[0], cats, false, t);
    }
    if t in tools[1..] {
      AbsentStays(r1, tools[1..], cats, t);
    } else {
      assert t == tools[0];
      OthersStayAbsent(r1, tools[1..], cats, t);
    }
  }

  lemma {:induction false} OthersStayAbsent(r: Repo, tools: seq<Name>, cats: seq<Name>, t: Name)
    requires NoneShares(r, tools, cats) && Ready(r, cats) && t !in r.tools && t !in tools
    ensures t !in RunTools(r, tools, cats, false, false).repo.tools
    decreases |tools|
  {
    if tools != [] {
      var r1 := RunTool(r, tools[0], cats, false, false).repo;
      assert tools[0] in tools;
      RunToolRunsWell(r, tools[0], cats, false);
      SeparatedOn(r, r1, tools, cats);
      if tools[0] in r.tools {
        InstallAllTools(r, tools[0], cats, false, t);
      }
      OthersStayAbsent(r1, tools[1..], cats, t);
    }
  }

  /** What a pair ends as: a file stays, and anything else is the right link, unless it was a directory
      of which only conflicting entries are left. */
  ghost predicate EndsWell(r: Repo, r': Repo, tool: Name, category: Name) {
    var was, now := SlotAt(r, tool, category), SlotAt(r', tool, category);
    && category in r'.canonical && tool in r'.tools
    && if was.FileSlot? then now == was
       else now == LinkSlot(Canonical(category))
            || (now.DirSlot? && Stuck(Dir(now.entries), Dir(r'.canonical[category])))
  }

  /** Main result on what a live run achieves, for tools with directories of their own: it does not
      raise, and every pair of a tool that takes part ends well; a missing tool that is not to be
      created stays missing. */
  lemma RunAchieves(r: Repo, tools: seq<Name>, cats: seq<Name>, create: bool)
    requires NoneShares(r, tools, cats) && Ready(r, cats) && cats != []
    ensures var ran := Run(r, tools, cats, false, create);
            && !ran.raised
            && forall t, c :: t in tools && c in cats ==>
                 if t in r.tools || create then EndsWell(r, ran.repo, t, c) else t !in ran.repo.tools
  {
    var r1 := EnsureAll(r, cats);
    var r' := Run(r, tools, cats, false, create).repo;
    EnsureAllRunsWell(r, cats);
    RunToolsRunsWell(r1, tools, cats, create);
    RunToolsFinishes(r1, tools, cats, create);
    RunToolsNoNewFiles(r1, tools, cats, create);
    RunFrame(r, tools, cats, false, create);
    forall t, c | t in tools && c in cats
      ensures if t in r.tools || create then EndsWell(r, r', t, c) else t !in r'.tools
    {
      EnsureAllAlike(r, cats, t, c);
      assert ToolDone(r', t, cats, create);
      if t in r.tools || create {
        assert t in r'.tools;
        var i :| 0 <= i < |cats| && cats[i] == c;
        assert Settled(r', t, cats[i]);
      } else {
        AbsentStays(r1, tools, cats, t);
      }
    }
  }

  /** How many reports a live run makes: one a category for each tool that takes part. */
  function ReportCount(r: Repo, tools: seq<Name>, cats: seq<Name>, create: bool): nat
    decreases |tools|
  {
    if tools == [] then 0
    else (if tools[0] in r.tools || create then |cats| else 0) + ReportCount(r, tools[1..], cats, create)
  }

  lemma {:induction false} InstallAllCount(r: Repo, tool: Name, cats: seq<Name>, dryRun: bool)
    requires !InstallAll(r, tool, cats, dryRun).raised
    ensures |InstallAll(r, tool, cats, dryRun).statuses| == |cats|
    decreases |cats|
  {
    if cats != [] {
      InstallAllCount(Install(r, tool, cats[0], dryRun).repo, tool, cats[1..], dryRun);
    }
  }

  lemma RunToolCount(s: Repo, tool: Name, cats: seq<Name>, create: bool)
    requires Separated(s, tool, cats) && Ready(s, cats)
    ensures |RunTool(s, tool, cats, false, create).statuses| == if tool in s.tools || create then |cats| else 0
  {
    if tool in s.tools || create {
      InstallAllRunsWell(EnsureTool(s, tool), tool, cats);
      InstallAllCount(EnsureTool(s, tool), tool, cats, false);
    }
  }

  lemma {:induction false} RunToolsCount(r: Repo, s: Repo, tools: seq<Name>, cats: seq<Name>, create: bool)
    requires NoneShares(s, tools, cats) && Ready(s, cats)
    requires forall t :: t in tools && !create ==> (t in s.tools <==> t in r.tools)
    ensures |RunTools(s, tools, cats, false, create).statuses| == ReportCount(r, tools, cats, create)
    decreases |tools|
  {
    if tools != [] {
      var tool := tools[0];
      assert tool in tools;
      var s1 := RunTool(s, tool, cats, false, create).repo;
      RunToolRunsWell(s, tool, cats, create);
      SeparatedOn(s, s1, tools, cats);
      RunToolCount(s, tool, cats, create);
      forall t | t in tools[1..] && !create
        ensures t in s1.tools <==> t in r.tools
      {
        assert t in tools;
        if t != tool && tool in s.tools {
          InstallAllTools(s, tool, cats, false, t);
        }
      }
      RunToolsCount(r, s1, tools[1..], cats, create);
    }
  }

  /** A live run reports every pair of a tool that takes part once. */
  lemma RunReportsAll(r: Repo, tools: seq<Name>, cats: seq<Name>, create: bool)
    requires NoneShares(r, tools, cats) && Ready(r, cats)
    ensures |Run(r, tools, cats, false, create).statuses| == ReportCount(r, tools, cats, create)
  {
    EnsureAllRunsWell(r, cats);
    EnsureAllAlike(r, cats, "", "");
    RunToolsCount(r, EnsureAll(r, cats), tools, cats, create);
  }

  // ------------------------------------------------------------- exceptions

  /** A part of a run and then the rest, which an exception in the first part cuts off. */
  function Then(first: Ran, rest: Ran): Ran {
    if first.raised then first else Ran(rest.repo, first.statuses + rest.statuses, rest.raised)
  }

  /** Running two lists of categories, or of tools, is running one and then, unless it raised, the
      other: after an exception nothing more is installed or reported. */
  lemma {:induction false} InstallAllJoins(r: Repo, tool: Name, a: seq<Name>, b: seq<Name>, dryRun: bool)
    ensures InstallAll(r, tool, a + b, dryRun) ==
            Then(InstallAll(r, tool, a, dryRun), InstallAll(InstallAll(r, tool, a, dryRun).repo, tool, b, dryRun))
    decreases |a|
  {
    if a == [] {
      assert a + b == b;
    } else {
      assert (a + b)[1..] == a[1..] + b && (a + b)[0] == a[0];
      var one := Install(r, tool, a[0], dryRun);
      InstallAllJoins(one.repo, tool, a[1..], b, dryRun);
      JoinReports([one.status], InstallAll(one.repo, tool, a[1..], dryRun).statuses);
    }
  }

  lemma JoinReports(x: seq<Status>, y: seq<Status>)
    ensures forall z: seq<Status> :: x + (y + z) == x + y + z
  {
  }

  lemma {:induction false} RunToolsJoins(r: Repo, a: seq<Name>, b: seq<Name>, cats: seq<Name>, dryRun: bool, create: bool)
    ensures var first := RunTools(r, a, cats, dryRun, create);
            RunTools(r, a + b, cats, dryRun, create) == Then(first, RunTools(first.repo, b, cats, dryRun, create))
    decreases |a|
  {
    if a == [] {
      assert a + b == b;
    } else {
      assert (a + b)[1..] == a[1..] + b && (a + b)[0] == a[0];
      var one := RunTool(r, a[0], cats, dryRun, create);
      RunToolsJoins(one.repo, a[1..], b, cats, dryRun, create);
      JoinReports(one.statuses, RunTools(one.repo, a[1..], cats, dryRun, create).statuses);
    }
  }
}
