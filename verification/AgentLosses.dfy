/**
 Exactly when a whole run of the installer loses a file: when some step of it merges a canonical
 directory that holds a file onto itself.
 */
module AgentLosses {
  import opened Names
  import opened AgentMerge
  import opened AgentMergeProofs
  import opened AgentLinks
  import opened AgentLinksProofs
  import opened AgentRuns

  // ---------------------------------------------------------- steps that lose

  /** This install, if it does not raise, merges a directory that holds a file onto itself. */
  ghost predicate LosesHere(r: Repo, tool: Name, category: Name) {
    category !in r.loops && Shares(r, tool, category) && HoldsFileAt(r, category)
  }

  ghost predicate LosesAll(r: Repo, tool: Name, cats: seq<Name>)
    decreases |cats|
  {
    cats != [] && cats[0] !in r.loops
    && (LosesHere(r, tool, cats[0]) || LosesAll(Install(r, tool, cats[0], false).repo, tool, cats[1..]))
  }

  ghost predicate LosesTool(r: Repo, tool: Name, cats: seq<Name>, create: bool) {
    (ToolExists(r, tool) || create) && LosesAll(EnsureTool(r, tool), tool, cats)
  }

  ghost predicate LosesTools(r: Repo, tools: seq<Name>, cats: seq<Name>, create: bool)
    decreases |tools|
  {
    tools != []
    && var one := RunTool(r, tools[0], cats, false, create);
       LosesTool(r, tools[0], cats, create) || (!one.raised && LosesTools(one.repo, tools[1..], cats, create))
  }

  // -------------------------------------------------------- where files come from

  /** A file in a canonical directory was there before, or a tool's directory held it and gave it up. */
  ghost predicate ComesFrom(r: Repo, s: Repo, c: Name, p: seq<Name>) {
    Shared(r, c, p) == Shared(s, c, p) || exists t :: MovedFrom(r, s, t, c, p)
  }

  ghost predicate MovedFrom(r: Repo, s: Repo, t: Name, c: Name, p: seq<Name>) {
    Own(r, t, c, p) == Shared(s, c, p) && Own(s, t, c, p) != Shared(s, c, p)
  }

  /** From `r` to `s` no file was lost, and every file of `s` is traced back to `r`. */
  ghost predicate Traced(r: Repo, s: Repo) {
    && FilesKept(r, s)
    && (forall c, p :: Shared(s, c, p).Content? ==> ComesFrom(r, s, c, p))
    && (forall t, c, p :: Own(s, t, c, p).Content? ==> Own(r, t, c, p) == Own(s, t, c, p))
  }

  lemma FilesTransitive(r: Repo, s: Repo, u: Repo)
    requires FilesKept(r, s) && FilesKept(s, u)
    ensures FilesKept(r, u)
  {
    forall t, c, p | Own(r, t, c, p).Content?
      ensures KeptAt(r, u, t, c, p)
    {
      assert KeptAt(r, s, t, c, p);
      if Own(s, t, c, p).Content? {
        assert KeptAt(s, u, t, c, p);
      }
    }
  }

  /** Between `s` and `u` this pair's own directory and the canonical one are as they were. */
  lemma TraceStays(r: Repo, s: Repo, u: Repo, c: Name, p: seq<Name>)
    requires Traced(r, s) && Shared(u, c, p).Content? && Shared(s, c, p) == Shared(u, c, p)
    requires forall t :: Own(u, t, c, p) == Own(s, t, c, p) || Own(u, t, c, p) != Shared(u, c, p)
    ensures ComesFrom(r, u, c, p)
  {
    assert ComesFrom(r, s, c, p);
    if Shared(r, c, p) != Shared(s, c, p) {
      var t :| MovedFrom(r, s, t, c, p);
      assert MovedFrom(r, u, t, c, p);
    }
  }

  /** A merge leaves no file that is also in the destination it made. */
  lemma {:induction false} StuckDiffers(s: Node, t: Node, p: seq<Name>, x: string)
    requires Stuck(s, t)
    ensures LookNode(s, p) != Content(x) || LookNode(t, p) != Content(x)
    decreases s
  {
    if s.Dir? && t.Dir? && p != [] && p[0] in s.entries {
      var n := p[0];
      StuckDiffers(s.entries[n], t.entries[n], p[1..], x);
      LookEntry(s.entries, p);
      LookEntry(t.entries, p);
    }
  }

  lemma LookEntry(e: Entries, p: seq<Name>)
    requires p != [] && p[0] in e
    ensures Look(e, p) == LookNode(e[p[0]], p[1..])
  {
  }

  lemma LeftNotInUnion(a: Entries, b: Entries, p: seq<Name>, x: string)
    ensures Look(Left(a, b), p) != Content(x) || Look(Union(a, b), p) != Content(x)
  {
    if Left(a, b) == map[] {
      EmptyHoldsNothing(p);
    } else {
      LeftoversAreStuck(Dir(a), Dir(b));
      StuckDiffers(Dir(Left(a, b)), Dir(Union(a, b)), p, x);
    }
  }

  // ------------------------------------------------------------ a step that keeps

  lemma EnsureCanonicalTraced(r: Repo, s: Repo, category: Name)
    requires Traced(r, s)
    ensures Traced(r, EnsureCanonical(s, category))
  {
    var u := EnsureCanonical(s, category);
    FilesTransitive(r, s, u);
    forall c, p | Shared(u, c, p).Content?
      ensures ComesFrom(r, u, c, p)
    {
      EmptyHoldsNothing(p);
      TraceStays(r, s, u, c, p);
    }
  }

  lemma EnsureToolTraced(r: Repo, s: Repo, tool: Name)
    requires Traced(r, s)
    ensures Traced(r, EnsureTool(s, tool))
  {
    EnsureToolSame(s, tool);
    SameFilesTraced(r, s, EnsureTool(s, tool));
  }

  ghost predicate SameFiles(s: Repo, u: Repo) {
    && (forall c, p :: Shared(u, c, p) == Shared(s, c, p))
    && (forall t, c, p :: Own(u, t, c, p) == Own(s, t, c, p))
  }

  lemma EnsureToolSame(s: Repo, tool: Name)
    ensures SameFiles(s, EnsureTool(s, tool))
  {
    var u := EnsureTool(s, tool);
    assert forall t, c :: SlotAt(u, t, c) == SlotAt(s, t, c);
  }

  lemma SameFilesTraced(r: Repo, s: Repo, u: Repo)
    requires Traced(r, s) && SameFiles(s, u)
    ensures Traced(r, u)
  {
    FilesTransitive(r, s, u);
    forall c, p | Shared(u, c, p).Content?
      ensures ComesFrom(r, u, c, p)
    {
      TraceStays(r, s, u, c, p);
    }
  }

  /** What a live install of a directory does at one path. */
  lemma DirMoves(s: Repo, tool: Name, category: Name, p: seq<Name>)
    requires category in s.canonical && !Shares(s, tool, category) && SlotAt(s, tool, category).DirSlot?
    ensures var u := InstallApart(s, tool, category, false).repo;
            var f := Shared(u, category, p);
            && (f.Content? ==> Own(u, tool, category, p) != f
                               && (Shared(s, category, p) == f || Own(s, tool, category, p) == f))
            && (Own(u, tool, category, p).Content? ==> Own(s, tool, category, p) == Own(u, tool, category, p))
  {
    var a, b := SlotAt(s, tool, category).entries, s.canonical[category];
    InstallDir(s, tool, category);
    var f, g := Look(Union(a, b), p), Look(Left(a, b), p);
    if f.Content? {
      MergeConserves(a, b, p, f);
      LeftNotInUnion(a, b, p, f.content);
    }
    if g.Content? {
      MergeConserves(a, b, p, g);
    }
  }

  /** An install that does not take a directory apart moves nothing. */
  lemma NoDirMovesNothing(s: Repo, tool: Name, category: Name, p: seq<Name>)
    requires category in s.canonical && !Shares(s, tool, category) && !SlotAt(s, tool, category).DirSlot?
    ensures var u := InstallApart(s, tool, category, false).repo;
            && Shared(u, category, p) == Shared(s, category, p)
            && Own(u, tool, category, p) == Nothing
  {
  }

  lemma ApartTraces(r: Repo, s: Repo, tool: Name, category: Name, c: Name, p: seq<Name>)
    requires Traced(r, s) && category in s.canonical && !Shares(s, tool, category)
    requires Shared(InstallApart(s, tool, category, false).repo, c, p).Content?
    ensures ComesFrom(r, InstallApart(s, tool, category, false).repo, c, p)
  {
    var u := InstallApart(s, tool, category, false).repo;
    ApartFrame(s, tool, category, false, tool, c);
    forall t
      ensures (t, c) != (tool, category) ==> Own(u, t, c, p) == Own(s, t, c, p)
    {
      ApartFrame(s, tool, category, false, t, c);
    }
    if c == category {
      if SlotAt(s, tool, category).DirSlot? {
        DirMoves(s, tool, category, p);
        if Shared(s, c, p) != Shared(u, c, p) {
          assert MovedFrom(r, u, tool, c, p);
          return;
        }
      } else {
        NoDirMovesNothing(s, tool, category, p);
      }
    }
    TraceStays(r, s, u, c, p);
  }

  lemma ApartShrinks(r: Repo, s: Repo, tool: Name, category: Name, t: Name, c: Name, p: seq<Name>)
    requires Traced(r, s) && category in s.canonical && !Shares(s, tool, category)
    requires Own(InstallApart(s, tool, category, false).repo, t, c, p).Content?
    ensures Own(r, t, c, p) == Own(InstallApart(s, tool, category, false).repo, t, c, p)
  {
    ApartFrame(s, tool, category, false, t, c);
    if (t, c) == (tool, category) {
      if SlotAt(s, tool, category).DirSlot? {
        DirMoves(s, tool, category, p);
      } else {
        NoDirMovesNothing(s, tool, category, p);
      }
    }
  }

  lemma ApartTraced(r: Repo, s: Repo, tool: Name, category: Name)
    requires Traced(r, s) && category in s.canonical && !Shares(s, tool, category)
    ensures Traced(r, InstallApart(s, tool, category, false).repo)
  {
    var u := InstallApart(s, tool, category, false).repo;
    InstallKeeps(s, tool, category);
    FilesTransitive(r, s, u);
    forall c, p | Shared(u, c, p).Content?
      ensures ComesFrom(r, u, c, p)
    {
      ApartTraces(r, s, tool, category, c, p);
    }
    forall t, c, p | Own(u, t, c, p).Content?
      ensures Own(r, t, c, p) == Own(u, t, c, p)
    {
      ApartShrinks(r, s, tool, category, t, c, p);
    }
  }

  lemma OntoTraced(r: Repo, s: Repo, tool: Name, category: Name)
    requires Traced(r, s) && Shares(s, tool, category) && !HoldsFileAt(s, category)
    ensures Traced(r, InstallOnto(s, tool, category, false).repo)
  {
    var u := InstallOnto(s, tool, category, false).repo;
    OntoKeepsIff(s, tool, category);
    OntoDrains(s, tool, category);
    FilesTransitive(r, s, u);
    forall c, p | Shared(u, c, p).Content?
      ensures ComesFrom(r, u, c, p)
    {
      TraceStays(r, s, u, c, p);
    }
  }

  lemma InstallTraced(r: Repo, s: Repo, tool: Name, category: Name)
    requires Traced(r, s) && !LosesHere(s, tool, category)
    ensures Traced(r, Install(s, tool, category, false).repo)
  {
    if category !in s.loops {
      if Shares(s, tool, category) {
        OntoTraced(r, s, tool, category);
      } else {
        EnsureCanonicalTraced(r, s, category);
        InstallEnsured(s, tool, category);
        ApartTraced(r, EnsureCanonical(s, category), tool, category);
      }
    }
  }

  // ------------------------------------------------------------ a step that loses

  /** A file of `r` is gone for good: its canonical path is a link to itself, and its tool, if it was a
      tool's, does not hold it any more. */
  ghost predicate Gone(r: Repo, s: Repo, c: Name, p: seq<Name>) {
    && c in s.loops && c !in s.canonical
    && (Shared(r, c, p).Content? || exists t :: GoneFrom(r, s, t, c, p))
  }

  ghost predicate GoneFrom(r: Repo, s: Repo, t: Name, c: Name, p: seq<Name>) {
    Own(r, t, c, p).Content? && Own(s, t, c, p) != Own(r, t, c, p)
  }

  lemma GoneIsLost(r: Repo, s: Repo, c: Name, p: seq<Name>)
    requires Gone(r, s, c, p)
    ensures !FilesKept(r, s)
  {
    assert Shared(s, c, p) == Nothing;
    if !Shared(r, c, p).Content? {
      var t :| GoneFrom(r, s, t, c, p);
      assert !KeptAt(r, s, t, c, p);
    }
  }

  lemma LosesOne(r: Repo, s: Repo, tool: Name, category: Name) returns (p: seq<Name>)
    requires Traced(r, s) && LosesHere(s, tool, category)
    ensures Gone(r, Install(s, tool, category, false).repo, category, p)
  {
    var content;
    p, content :| Look(s.canonical[category], p) == Content(content);
    var u := Install(s, tool, category, false).repo;
    OntoDrains(s, tool, category);
    assert ComesFrom(r, s, category, p);
    if Shared(r, category, p) != Shared(s, category, p) {
      var t :| MovedFrom(r, s, t, category, p);
      assert GoneFrom(r, u, t, category, p);
    }
  }

  lemma GoneStays(r: Repo, s: Repo, u: Repo, c: Name, p: seq<Name>)
    requires Gone(r, s, c, p) && c in u.loops && c !in u.canonical
    requires forall t :: Own(u, t, c, p) == Own(s, t, c, p)
    ensures Gone(r, u, c, p)
  {
    if !Shared(r, c, p).Content? {
      var t :| GoneFrom(r, s, t, c, p);
      assert GoneFrom(r, u, t, c, p);
    }
  }

  lemma InstallGone(r: Repo, s: Repo, tool: Name, category: Name, c: Name, p: seq<Name>)
    requires Gone(r, s, c, p)
    ensures Gone(r, Install(s, tool, category, false).repo, c, p)
  {
    if category !in s.loops {
      var u := Install(s, tool, category, false).repo;
      forall t
        ensures Own(u, t, c, p) == Own(s, t, c, p)
      {
        InstallFrame(s, tool, category, false, t, c);
      }
      InstallFrame(s, tool, category, false, tool, c);
      GoneStays(r, s, u, c, p);
    }
  }

  lemma {:induction false} InstallAllGone(r: Repo, s: Repo, tool: Name, cats: seq<Name>, c: Name, p: seq<Name>)
    requires Gone(r, s, c, p)
    ensures Gone(r, InstallAll(s, tool, cats, false).repo, c, p)
    decreases |cats|
  {
    if cats != [] {
      InstallGone(r, s, tool, cats[0], c, p);
      InstallAllGone(r, Install(s, tool, cats[0], false).repo, tool, cats[1..], c, p);
    }
  }

  lemma {:induction false} RunToolsGone(r: Repo, s: Repo, tools: seq<Name>, cats: seq<Name>, create: bool,
                                       c: Name, p: seq<Name>)
    requires Gone(r, s, c, p)
    ensures Gone(r, RunTools(s, tools, cats, false, create).repo, c, p)
    decreases |tools|
  {
    if tools != [] {
      GoneStays(r, s, EnsureTool(s, tools[0]), c, p);
      InstallAllGone(r, EnsureTool(s, tools[0]), tools[0], cats, c, p);
      RunToolsGone(r, RunTool(s, tools[0], cats, false, create).repo, tools[1..], cats, create, c, p);
    }
  }

  // -------------------------------------------------------------------- runs

  /** The fate of the files of `r` up to `s`. */
  ghost predicate Fate(r: Repo, s: Repo, loses: bool) {
    if loses then exists c, p :: Gone(r, s, c, p) else Traced(r, s)
  }

  lemma {:induction false} InstallAllFate(r: Repo, s: Repo, tool: Name, cats: seq<Name>)
    requires Traced(r, s)
    ensures Fate(r, InstallAll(s, tool, cats, false).repo, LosesAll(s, tool, cats))
    decreases |cats|
  {
    if cats != [] && cats[0] !in s.loops {
      var u := Install(s, tool, cats[0], false).repo;
      NeverRaises(s, tool, cats[0]);
      if LosesHere(s, tool, cats[0]) {
        var p := LosesOne(r, s, tool, cats[0]);
        InstallAllGone(r, u, tool, cats[1..], cats[0], p);
      } else {
        InstallTraced(r, s, tool, cats[0]);
        InstallAllFate(r, u, tool, cats[1..]);
      }
    }
  }

  lemma NeverRaises(r: Repo, tool: Name, category: Name)
    requires category !in r.loops
    ensures Install(r, tool, category, false).status != Raised
  {
  }

  lemma {:induction false} RunToolsFate(r: Repo, s: Repo, tools: seq<Name>, cats: seq<Name>, create: bool)
    requires Traced(r, s)
    ensures Fate(r, RunTools(s, tools, cats, false, create).repo, LosesTools(s, tools, cats, create))
    decreases |tools|
  {
    if tools != [] {
      RunToolFate(r, s, tools[0], cats, create);
      var one := RunTool(s, tools[0], cats, false, create);
      if LosesTool(s, tools[0], cats, create) {
        var c, p :| Gone(r, one.repo, c, p);
        RunToolsGone(r, one.repo, tools[1..], cats, create, c, p);
      } else if !one.raised {
        RunToolsFate(r, one.repo, tools[1..], cats, create);
      }
    }
  }

  lemma RunToolFate(r: Repo, s: Repo, tool: Name, cats: seq<Name>, create: bool)
    requires Traced(r, s)
    ensures Fate(r, RunTool(s, tool, cats, false, create).repo, LosesTool(s, tool, cats, create))
  {
    if ToolExists(s, tool) || create {
      EnsureToolTraced(r, s, tool);
      InstallAllFate(r, EnsureTool(s, tool), tool, cats);
    }
  }

  lemma {:induction false} EnsureAllTraced(r: Repo, s: Repo, cats: seq<Name>)
    requires Traced(r, s)
    ensures Traced(r, EnsureAll(s, cats))
    decreases |cats|
  {
    if cats != [] && cats[0] !in s.loops {
      EnsureCanonicalTraced(r, s, cats[0]);
      EnsureAllTraced(r, EnsureCanonical(s, cats[0]), cats[1..]);
    }
  }

  /** Main result on losses: a live run, with any tools, categories and trees, keeps every file if and
      only if it is blocked from the start, or no step of it merges a canonical directory that holds a
      file onto itself. */
  lemma RunKeepsFilesIff(r: Repo, tools: seq<Name>, cats: seq<Name>, create: bool)
    ensures FilesKept(r, Run(r, tools, cats, false, create).repo) <==>
            Blocked(r, cats) || !LosesTools(EnsureAll(r, cats), tools, cats, create)
  {
    var r1 := EnsureAll(r, cats);
    assert Traced(r, r);
    EnsureAllTraced(r, r, cats);
    if !Blocked(r, cats) {
      RunToolsFate(r, r1, tools, cats, create);
      if LosesTools(r1, tools, cats, create) {
        var c, p :| Gone(r, Run(r, tools, cats, false, create).repo, c, p);
        GoneIsLost(r, Run(r, tools, cats, false, create).repo, c, p);
      }
    }
  }
}
