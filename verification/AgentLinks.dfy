/**
 The agent-link installer: every `<tool>/<category>` directory is merged into `.agents/<category>`
 and replaced by a link to it.
 */
module AgentLinks {
  import opened Names
  import opened AgentMerge

  /** What a link resolves to, chains of links followed to their end. */
  datatype Target = Canonical(category: Name) | Elsewhere(where: string)

  /** What is at `<tool>/<category>`.  `CanonicalSlot` is a directory that the category's canonical path
      is a link to; its contents count as those of the canonical directory. */
  datatype Slot =
    | NoSlot
    | FileSlot(content: string)
    | DirSlot(entries: Entries)
    | LinkSlot(target: Target)
    | CanonicalSlot

  /** A tool's directory: one of its own, or a link to the canonical home. */
  datatype ToolDir = Separate(slots: map<Name, Slot>) | Alias

  /** The repository: the canonical directories that exist, the categories whose canonical path has
      become a link to itself, and the tool directories that exist. */
  datatype Repo = Repo(canonical: map<Name, Entries>, loops: set<Name>, tools: map<Name, ToolDir>)

  /** `Raised`: the canonical path is a link that leads nowhere, so creating the directory raises. */
  datatype Status =
    | AlreadyLinked
    | Relinked
    | SkipNonDir
    | SkipConflicts(conflicts: seq<Conflict>)
    | SkipNotEmpty
    | Migrated
    | Created
    | Raised

  datatype Installed = Installed(repo: Repo, status: Status)

  const CANONICAL_DIR: Name := ".agents"

  /** A run, or a part of one, and whether it ended in an exception. */
  datatype Ran = Ran(repo: Repo, statuses: seq<Status>, raised: bool)

  /** The tool's directory is the canonical home. */
  predicate OnHome(r: Repo, tool: Name) {
    tool == CANONICAL_DIR || (tool in r.tools && r.tools[tool].Alias?)
  }

  /** The tool's category directory is the canonical one. */
  predicate Shares(r: Repo, tool: Name, category: Name) {
    OnHome(r, tool) || SlotAt(r, tool, category).CanonicalSlot?
  }

  /** The canonical home exists; ".agents" is among the tools when it exists without categories. */
  predicate HomeExists(r: Repo) {
    r.canonical != map[] || r.loops != {} || CANONICAL_DIR in r.tools
  }

  predicate ToolExists(r: Repo, tool: Name) {
    if OnHome(r, tool) then HomeExists(r) else tool in r.tools
  }

  function Slots(r: Repo, tool: Name): map<Name, Slot> {
    if tool in r.tools && r.tools[tool].Separate? then r.tools[tool].slots else map[]
  }

  function SlotAt(r: Repo, tool: Name, category: Name): Slot {
    if category in Slots(r, tool) then Slots(r, tool)[category] else NoSlot
  }

  function PutSlot(r: Repo, tool: Name, category: Name, slot: Slot): Repo {
    r.(tools := r.tools[tool := Separate(Slots(r, tool)[category := slot])])
  }

  /** `mkdir(exist_ok=True)` on a canonical directory and on a tool directory. */
  function EnsureCanonical(r: Repo, category: Name): Repo {
    if category in r.canonical then r else r.(canonical := r.canonical[category := map[]])
  }

  function EnsureTool(r: Repo, tool: Name): Repo {
    if ToolExists(r, tool) then r
    else r.(tools := r.tools[tool := if OnHome(r, tool) then Alias else Separate(map[])])
  }

  function MakeLink(r: Repo, tool: Name, category: Name, dryRun: bool): Repo {
    if dryRun then r else PutSlot(r, tool, category, LinkSlot(Canonical(category)))
  }

  function AfterMerge(r: Repo, tool: Name, category: Name, dryRun: bool): Repo
    requires category in r.canonical && SlotAt(r, tool, category).DirSlot?
  {
    var a, b := SlotAt(r, tool, category).entries, r.canonical[category];
    if dryRun then r
    else PutSlot(r, tool, category, DirSlot(Left(a, b))).(canonical := r.canonical[category := Union(a, b)])
  }

  /** `_install_category` when source and destination are different directories. */
  function InstallApart(repo: Repo, tool: Name, category: Name, dryRun: bool): Installed
    requires !Shares(repo, tool, category)
  {
    var r := EnsureCanonical(repo, category);
    match SlotAt(r, tool, category)
    case LinkSlot(target) =>
      if target == Canonical(category) then Installed(r, AlreadyLinked)
      else Installed(MakeLink(r, tool, category, dryRun), Relinked)
    case FileSlot(_) => Installed(r, SkipNonDir)
    case DirSlot(entries) =>
      var conflicts := Conflicts(entries, r.canonical[category], []);
      var merged := AfterMerge(r, tool, category, dryRun);
      if conflicts != [] then Installed(merged, SkipConflicts(conflicts))
      else if !dryRun && Left(entries, r.canonical[category]) != map[] then Installed(merged, SkipNotEmpty)
      else Installed(MakeLink(merged, tool, category, dryRun), Migrated)
    case NoSlot => Installed(MakeLink(r, tool, category, dryRun), Created)
  }

  /** `_install_category` when they are the same: the directory is merged onto itself, removed, and
      replaced by a link that leads back to itself, so nowhere. */
  function InstallOnto(repo: Repo, tool: Name, category: Name, dryRun: bool): Installed {
    var r := EnsureCanonical(repo, category);
    if dryRun then Installed(r, Migrated)
    else
      var gone := r.(canonical := r.canonical - {category}, loops := r.loops + {category});
      Installed(if SlotAt(r, tool, category).CanonicalSlot? then MakeLink(gone, tool, category, false) else gone, Migrated)
  }

  /** `_install_category`. */
  function Install(r: Repo, tool: Name, category: Name, dryRun: bool): Installed {
    if category in r.loops then Installed(r, Raised)
    else if Shares(r, tool, category) then InstallOnto(r, tool, category, dryRun)
    else InstallApart(r, tool, category, dryRun)
  }

  function InstallAll(r: Repo, tool: Name, categories: seq<Name>, dryRun: bool): Ran
    decreases |categories|
  {
    if categories == [] then Ran(r, [], false)
    else
      var one := Install(r, tool, categories[0], dryRun);
      if one.status == Raised then Ran(one.repo, [], true)
      else
        var more := InstallAll(one.repo, tool, categories[1..], dryRun);
        Ran(more.repo, [one.status] + more.statuses, more.raised)
  }

  function RunTool(r: Repo, tool: Name, categories: seq<Name>, dryRun: bool, create: bool): Ran {
    if !ToolExists(r, tool) && !create then Ran(r, [], false)
    else InstallAll(if dryRun then r else EnsureTool(r, tool), tool, categories, dryRun)
  }

  function RunTools(r: Repo, tools: seq<Name>, categories: seq<Name>, dryRun: bool, create: bool): Ran
    decreases |tools|
  {
    if tools == [] then Ran(r, [], false)
    else
      var one := RunTool(r, tools[0], categories, dryRun, create);
      if one.raised then one
      else
        var more := RunTools(one.repo, tools[1..], categories, dryRun, create);
        Ran(more.repo, one.statuses + more.statuses, more.raised)
  }

  /** The first loop of `main`, which stops at a category that is a link to itself. */
  function EnsureAll(r: Repo, categories: seq<Name>): Repo
    decreases |categories|
  {
    if categories == [] || categories[0] in r.loops then r
    else EnsureAll(EnsureCanonical(r, categories[0]), categories[1..])
  }

  predicate Blocked(r: Repo, categories: seq<Name>) {
    exists c :: c in categories && c in r.loops
  }

  /** `main`. */
  function Run(r: Repo, tools: seq<Name>, categories: seq<Name>, dryRun: bool, create: bool): Ran {
    if dryRun then RunTools(r, tools, categories, dryRun, create)
    else if Blocked(r, categories) then Ran(EnsureAll(r, categories), [], true)
    else RunTools(EnsureAll(r, categories), tools, categories, dryRun, create)
  }

  /** A run that has reported `done` and has `rest` ahead of it. */
  ghost predicate RunsOn(all: Ran, done: seq<Status>, rest: Ran) {
    all == Ran(rest.repo, done + rest.statuses, rest.raised)
  }

  lemma RunOneMore(all: Ran, done: seq<Status>, more: seq<Status>, rest: Ran)
    requires RunsOn(all, done, Ran(rest.repo, more + rest.statuses, rest.raised))
    ensures RunsOn(all, done + more, rest)
  {
    assert done + (more + rest.statuses) == done + more + rest.statuses;
  }

  lemma BlockedStep(r: Repo, categories: seq<Name>)
    requires categories != []
    ensures Blocked(r, categories) <==> categories[0] in r.loops || Blocked(r, categories[1..])
  {
    assert forall c :: c in categories <==> c == categories[0] || c in categories[1..];
  }

  lemma RemoveWritten(m: map<Name, Entries>, n: Name, e: Entries)
    ensures m[n := e] - {n} == m - {n}
  {
  }

  class Workspace {
    var canonical: map<Name, Entries>
    var loops: set<Name>
    var tools: map<Name, ToolDir>

    function Value(): Repo
      reads this
    {
      Repo(canonical, loops, tools)
    }

    constructor (r: Repo)
      ensures Value() == r
    {
      canonical, loops, tools := r.canonical, r.loops, r.tools;
    }

    /** Creates a canonical directory unless it is there; raises where a link to itself is in the way. */
    method MakeCanonical(category: Name) returns (raised: bool)
      modifies `canonical
      ensures raised <==> category in loops
      ensures Value() == if raised then old(Value()) else EnsureCanonical(old(Value()), category)
    {
      if category in loops {
        return true;
      }
      if category !in canonical {
        canonical := canonical[category := map[]];
      }
      return false;
    }

    method SetSlot(tool: Name, category: Name, slot: Slot)
      modifies `tools
      ensures Value() == PutSlot(old(Value()), tool, category, slot)
    {
      tools := tools[tool := Separate(Slots(Value(), tool)[category := slot])];
    }

    method InstallCategory(tool: Name, category: Name, dryRun: bool) returns (status: Status)
      modifies this
      ensures Installed(Value(), status) == Install(old(Value()), tool, category, dryRun)
    {
      var raised := MakeCanonical(category);
      if raised {
        return Raised;
      }
      if Shares(Value(), tool, category) {
        status := InstallShared(tool, category, dryRun);
      } else {
        status := InstallSeparate(tool, category, dryRun);
      }
    }

    /** The branches of `_install_category` when source and destination are one directory. */
    method InstallShared(tool: Name, category: Name, dryRun: bool) returns (status: Status)
      requires category in canonical && category !in loops
      modifies this
      ensures Installed(Value(), status) == InstallOnto(old(Value()), tool, category, dryRun)
    {
      var left, conflicts := MergeOnto(canonical[category], dryRun);
      if !dryRun {
        canonical := canonical[category := left];
      }
      if conflicts != [] {
        return SkipConflicts(conflicts);
      }
      if !dryRun {
        if left != map[] {
          return SkipNotEmpty;
        }
        RemoveWritten(old(canonical), category, left);
        canonical, loops := canonical - {category}, loops + {category};
        if SlotAt(Value(), tool, category).CanonicalSlot? {
          SetSlot(tool, category, LinkSlot(Canonical(category)));
        }
      }
      return Migrated;
    }

    method InstallSeparate(tool: Name, category: Name, dryRun: bool) returns (status: Status)
      requires category in canonical && category !in loops && !Shares(Value(), tool, category)
      modifies this
      ensures Installed(Value(), status) == InstallApart(old(Value()), tool, category, dryRun)
    {
      match SlotAt(Value(), tool, category) {
        case LinkSlot(target) =>
          if target == Canonical(category) {
            return AlreadyLinked;
          }
          status := Relinked;
        case FileSlot(_) =>
          return SkipNonDir;
        case DirSlot(entries) =>
          var src, dst, conflicts := MergeDir(entries, canonical[category], [], dryRun);
          if !dryRun {
            canonical := canonical[category := dst];
            SetSlot(tool, category, DirSlot(src));
          }
          if conflicts != [] {
            return SkipConflicts(conflicts);
          }
          if !dryRun && src != map[] {
            return SkipNotEmpty;
          }
          status := Migrated;
        case NoSlot =>
          status := Created;
      }
      if !dryRun {
        SetSlot(tool, category, LinkSlot(Canonical(category)));
      }
    }

    method RunInstaller(toolNames: seq<Name>, categories: seq<Name>, dryRun: bool, create: bool)
      returns (statuses: seq<Status>, raised: bool)
      modifies this
      ensures Ran(Value(), statuses, raised) == Run(old(Value()), toolNames, categories, dryRun, create)
    {
      statuses, raised := [], false;
      if !dryRun {
        raised := MakeAllCanonical(categories);
        if raised {
          return;
        }
      }
      ghost var all := RunTools(Value(), toolNames, categories, dryRun, create);
      var todo := toolNames;
      while todo != []
        invariant RunsOn(all, statuses, RunTools(Value(), todo, categories, dryRun, create))
        invariant !raised
        decreases |todo|
      {
        ghost var before := statuses;
        var more;
        more, raised := InstallTool(todo[0], categories, dryRun, create);
        todo := todo[1..];
        statuses := statuses + more;
        if raised {
          return;
        }
        RunOneMore(all, before, more, RunTools(Value(), todo, categories, dryRun, create));
      }
    }

    method MakeAllCanonical(categories: seq<Name>) returns (raised: bool)
      modifies `canonical
      ensures Value() == EnsureAll(old(Value()), categories)
      ensures raised <==> Blocked(old(Value()), categories)
    {
      ghost var all := EnsureAll(Value(), categories);
      var todo := categories;
      while todo != []
        invariant EnsureAll(Value(), todo) == all && tools == old(tools)
        invariant Blocked(Value(), todo) <==> Blocked(old(Value()), categories)
        decreases |todo|
      {
        BlockedStep(Value(), todo);
        raised := MakeCanonical(todo[0]);
        if raised {
          return;
        }
        todo := todo[1..];
      }
      return false;
    }

    method InstallTool(tool: Name, categories: seq<Name>, dryRun: bool, create: bool)
      returns (statuses: seq<Status>, raised: bool)
      modifies this
      ensures Ran(Value(), statuses, raised) == RunTool(old(Value()), tool, categories, dryRun, create)
    {
      if !ToolExists(Value(), tool) {
        if !create {
          return [], false;
        }
        if !dryRun {
          tools := tools[tool := if OnHome(Value(), tool) then Alias else Separate(map[])];
        }
      }
      statuses, raised := InstallEach(tool, categories, dryRun);
    }

    method InstallEach(tool: Name, categories: seq<Name>, dryRun: bool) returns (statuses: seq<Status>, raised: bool)
      modifies this
      ensures Ran(Value(), statuses, raised) == InstallAll(old(Value()), tool, categories, dryRun)
    {
      statuses := [];
      ghost var all := InstallAll(Value(), tool, categories, dryRun);
      var todo := categories;
      while todo != []
        invariant RunsOn(all, statuses, InstallAll(Value(), tool, todo, dryRun))
        decreases |todo|
      {
        ghost var before := statuses;
        var status := InstallCategory(tool, todo[0], dryRun);
        if status == Raised {
          return statuses, true;
        }
        todo := todo[1..];
        statuses := statuses + [status];
        RunOneMore(all, before, [status], InstallAll(Value(), tool, todo, dryRun));
      }
      return statuses, false;
    }
  }
}
