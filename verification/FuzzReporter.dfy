/**
 The fuzz reporter's seen-set: loaded from a state file, grown by acknowledged crashes, and saved
 through a temporary file and an atomic rename.  JSON text is modelled by the value it encodes.
 */
module FuzzReporter {
  import opened Names

  datatype Json =
    | JNull
    | JBool(b: bool)
    | JNumber(n: int)
    | JString(s: string)
    | JArray(items: seq<Json>)
    | JObject(fields: map<string, Json>)

  /** A file: absent, not readable as JSON (a torn write, say), or one JSON value. */
  datatype StateFile = Missing | Unreadable | Holds(value: Json)

  datatype Disk = Disk(state: StateFile, tmp: StateFile)

  /** Loading a JSON value that is no object raises, and nothing catches it. */
  datatype Loaded = Raised | Seen(keys: set<string>)

  function Strings(items: seq<Json>): set<string> {
    set i | 0 <= i < |items| && items[i].JString? :: items[i].s
  }

  /** `_load_seen_set`. */
  function Load(f: StateFile): Loaded {
    match f
    case Missing => Seen({})
    case Unreadable => Seen({})
    case Holds(JObject(fields)) =>
      if "stack_hashes" in fields && fields["stack_hashes"].JArray? then
        Seen(Strings(fields["stack_hashes"].items))
      else Seen({})
    case Holds(_) => Raised
  }

  /** What loading makes of every file: a fresh start for a missing or unreadable one and for an object
      without a list of hashes, the strings of the list otherwise, and an exception for no object. */
  lemma LoadLaw(f: StateFile)
    ensures f == Missing || f == Unreadable ==> Load(f) == Seen({})
    ensures f.Holds? && !f.value.JObject? ==> Load(f) == Raised
    ensures f.Holds? && f.value.JObject? ==>
              var fields := f.value.fields;
              if "stack_hashes" in fields && fields["stack_hashes"].JArray? then
                Load(f).Seen? && forall k :: k in Load(f).keys <==> JString(k) in fields["stack_hashes"].items
              else Load(f) == Seen({})
  {
    if f.Holds? && f.value.JObject? && "stack_hashes" in f.value.fields && f.value.fields["stack_hashes"].JArray? {
      StringsLaw(f.value.fields["stack_hashes"].items);
    }
  }

  lemma StringsLaw(items: seq<Json>)
    ensures forall k :: k in Strings(items) <==> JString(k) in items
  {
    forall k
      ensures k in Strings(items) <==> JString(k) in items
    {
      if JString(k) in items {
        var i :| 0 <= i < |items| && items[i] == JString(k);
        assert items[i].JString? && items[i].s == k;
      }
    }
  }

  function Quoted(keys: seq<string>): (items: seq<Json>)
    ensures |items| == |keys|
    ensures forall i :: 0 <= i < |keys| ==> items[i] == JString(keys[i])
  {
    seq(|keys|, i requires 0 <= i < |keys| => JString(keys[i]))
  }

  /** The value that `_save_seen_set` writes. */
  function Payload(seen: set<string>): Json {
    JObject(map["version" := JNumber(1), "stack_hashes" := JArray(Quoted(Sorted(seen)))])
  }

  /** Loading what was saved gives the saved set. */
  lemma LoadAfterSave(seen: set<string>)
    ensures Load(Holds(Payload(seen))) == Seen(seen)
  {
    var items := Quoted(Sorted(seen));
    forall k
      ensures k in Strings(items) <==> k in seen
    {
      if k in seen {
        var i :| 0 <= i < |Sorted(seen)| && Sorted(seen)[i] == k;
        assert items[i] == JString(k);
      }
      if k in Strings(items) {
        var i :| 0 <= i < |items| && items[i] == JString(k);
        assert Sorted(seen)[i] in Sorted(seen);
      }
    }
    var fields := Payload(seen).fields;
    assert "stack_hashes" in fields && fields["stack_hashes"] == JArray(items);
    assert Strings(items) == seen;
  }

  // ------------------------------------------------------------ file operations

  function WriteTmp(d: Disk, f: StateFile): Disk {
    d.(tmp := f)
  }

  /** `os.replace`: the temporary file becomes the state file, whatever it holds. */
  function RenameTmp(d: Disk): Disk {
    Disk(d.tmp, Missing)
  }

  /** How far a save gets before an I/O error: not at all, into the temporary file, which then holds
      anything, to its end, or through the rename. */
  datatype Progress = Untouched | Torn(left: StateFile) | FullTmp | Renamed

  function SaveUpTo(d: Disk, seen: set<string>, p: Progress): Disk {
    match p
    case Untouched => d
    case Torn(left) => WriteTmp(d, left)
    case FullTmp => WriteTmp(d, Holds(Payload(seen)))
    case Renamed => RenameTmp(WriteTmp(d, Holds(Payload(seen))))
  }

  /** What a save writes: version 1 and the sorted list, each key once. */
  lemma PayloadLaw(seen: set<string>)
    ensures var p := Payload(seen);
            && p.JObject? && p.fields.Keys == {"version", "stack_hashes"}
            && p.fields["version"] == JNumber(1) && p.fields["stack_hashes"].JArray?
            && exists keys :: IsSorted(keys) && (forall k :: k in keys <==> k in seen)
                              && p.fields["stack_hashes"].items == Quoted(keys)
  {
    SortedInOrder(seen);
    assert IsSorted(Sorted(seen));
  }

  ghost predicate IsSorted(keys: seq<string>) {
    InOrder(keys)
  }

  /** A save that gets through leaves a file that loads as the set; one that does not leaves the state
      file alone, and one that does not start leaves both. */
  lemma SaveLaw(d: Disk, seen: set<string>, p: Progress)
    ensures var after := SaveUpTo(d, seen, p);
            && (p == Renamed ==> Load(after.state) == Seen(seen) && after.tmp == Missing)
            && (p != Renamed ==> after.state == d.state)
            && (p == Untouched ==> after == d)
            && (p == FullTmp ==> Load(after.tmp) == Seen(seen))
            && (p.Torn? ==> after.tmp == p.left)
  {
    LoadAfterSave(seen);
  }

  // --------------------------------------------------------------- one process

  datatype Post = Post(key: string, ok: bool)

  /** The running reporter; its file system is the two files of one campaign. */
  class Reporter {
    var seen: set<string>
    var disk: Disk

    constructor (disk: Disk, loaded: set<string>)
      requires Load(disk.state) == Seen(loaded)
      ensures seen == loaded && this.disk == disk
    {
      this.disk := disk;
      seen := loaded;
    }

    /** One pass over the discovered crashes, given by their dedup keys and by what the server would
        answer for each, and the save that follows if the set grew. */
    method Iterate(crashes: seq<Post>, save: Progress) returns (posts: seq<Post>)
      modifies this
      ensures seen == AfterPass(old(seen), crashes)
      ensures posts == Posted(old(seen), crashes)
      ensures disk == if seen == old(seen) then old(disk) else SaveUpTo(old(disk), seen, save)
    {
      posts := [];
      var grew := false;
      var todo := crashes;
      while todo != []
        invariant AfterPass(old(seen), crashes) == AfterPass(seen, todo)
        invariant Posted(old(seen), crashes) == posts + Posted(seen, todo)
        invariant old(seen) <= seen && (grew <==> seen != old(seen)) && disk == old(disk)
        decreases |todo|
      {
        var crash := todo[0];
        PassStep(seen, todo, posts);
        todo := todo[1..];
        if crash.key != "" && crash.key !in seen {
          posts := posts + [crash];
          if crash.ok {
            seen := seen + {crash.key};
            grew := true;
          }
        }
      }
      if grew {
        Save(save);
      }
    }

    /** `_save_seen_set`: an I/O error is logged, and the process goes on. */
    method Save(progress: Progress)
      modifies `disk
      ensures disk == SaveUpTo(old(disk), seen, progress)
    {
      if progress == Untouched {
        return;
      }
      if progress.Torn? {
        disk := disk.(tmp := progress.left);
        return;
      }
      disk := disk.(tmp := Holds(Payload(seen)));
      if progress == Renamed {
        disk := Disk(disk.tmp, Missing);
      }
    }
  }

  lemma PassStep(seen: set<string>, crashes: seq<Post>, posts: seq<Post>)
    requires crashes != []
    ensures var c, rest := crashes[0], crashes[1..];
            var seen' := if !Skips(seen, c) && c.ok then seen + {c.key} else seen;
            && AfterPass(seen, crashes) == AfterPass(seen', rest)
            && posts + Posted(seen, crashes) == (if Skips(seen, c) then posts else posts + [c]) + Posted(seen', rest)
  {
  }

  predicate Skips(seen: set<string>, c: Post) {
    c.key == "" || c.key in seen
  }

  function AfterPass(seen: set<string>, crashes: seq<Post>): set<string>
    decreases |crashes|
  {
    if crashes == [] then seen
    else AfterPass(if !Skips(seen, crashes[0]) && crashes[0].ok then seen + {crashes[0].key} else seen, crashes[1..])
  }

  function Posted(seen: set<string>, crashes: seq<Post>): seq<Post>
    decreases |crashes|
  {
    if crashes == [] then []
    else if Skips(seen, crashes[0]) then Posted(seen, crashes[1..])
    else [crashes[0]] + Posted(if crashes[0].ok then seen + {crashes[0].key} else seen, crashes[1..])
  }

  ghost predicate Acked(posts: seq<Post>, key: string) {
    exists i :: 0 <= i < |posts| && posts[i] == Post(key, true)
  }

  ghost predicate Tried(posts: seq<Post>, key: string) {
    exists i :: 0 <= i < |posts| && posts[i].key == key
  }

  /** What a pass from `seen` did with the crashes: it added exactly the keys whose POST was
      acknowledged, posted no key that was seen or had been acknowledged earlier in the pass, and tried
      every other key that it met. */
  ghost predicate Exact(seen: set<string>, crashes: seq<Post>, posts: seq<Post>, after: set<string>) {
    && (forall k :: k in after <==> k in seen || Acked(posts, k))
    && (forall i :: 0 <= i < |posts| ==> posts[i].key != "" && posts[i].key !in seen)
    && (forall i, j :: 0 <= i < j < |posts| && posts[i].ok ==> posts[j].key != posts[i].key)
    && (forall c :: c in crashes && c.key != "" && c.key !in seen ==> Tried(posts, c.key))
  }

  lemma {:induction false} PassIsExact(seen: set<string>, crashes: seq<Post>)
    ensures Exact(seen, crashes, Posted(seen, crashes), AfterPass(seen, crashes))
    decreases |crashes|
  {
    if crashes != [] {
      var c, rest := crashes[0], crashes[1..];
      if Skips(seen, c) {
        PassIsExact(seen, rest);
        SkippedIsExact(seen, crashes, Posted(seen, rest), AfterPass(seen, rest));
      } else {
        var seen' := if c.ok then seen + {c.key} else seen;
        PassIsExact(seen', rest);
        PostedIsExact(seen, crashes, Posted(seen', rest), AfterPass(seen', rest));
      }
    }
  }

  /** `posts` are some of the crashes, in their order. */
  ghost predicate InOrderOf(posts: seq<Post>, crashes: seq<Post>)
    decreases |crashes|
  {
    posts == [] ||
    (crashes != [] && ((posts[0] == crashes[0] && InOrderOf(posts[1..], crashes[1..])) || InOrderOf(posts, crashes[1..])))
  }

  /** The crashes are posted in the order in which they were discovered, each as it is. */
  lemma {:induction false} PostedInOrder(seen: set<string>, crashes: seq<Post>)
    ensures InOrderOf(Posted(seen, crashes), crashes)
    decreases |crashes|
  {
    if crashes != [] {
      var c := crashes[0];
      var seen' := if !Skips(seen, c) && c.ok then seen + {c.key} else seen;
      PostedInOrder(seen', crashes[1..]);
      assert !Skips(seen, c) ==> Posted(seen, crashes)[1..] == Posted(seen', crashes[1..]);
    }
  }

  lemma SkippedIsExact(seen: set<string>, crashes: seq<Post>, posts: seq<Post>, after: set<string>)
    requires crashes != [] && Skips(seen, crashes[0]) && Exact(seen, crashes[1..], posts, after)
    ensures Exact(seen, crashes, posts, after)
  {
    assert forall c :: c in crashes ==> c == crashes[0] || c in crashes[1..];
  }

  lemma PostedIsExact(seen: set<string>, crashes: seq<Post>, posts: seq<Post>, after: set<string>)
    requires crashes != [] && !Skips(seen, crashes[0])
    requires Exact(if crashes[0].ok then seen + {crashes[0].key} else seen, crashes[1..], posts, after)
    ensures Exact(seen, crashes, [crashes[0]] + posts, after)
  {
    var c, all := crashes[0], [crashes[0]] + posts;
    AckedLater(c, posts);
    TriedLater(c, posts);
    forall d | d in crashes && d.key != "" && d.key !in seen
      ensures Tried(all, d.key)
    {
      assert d == c || d in crashes[1..];
    }
    assert forall i :: 1 <= i < |all| ==> all[i] == posts[i - 1];
  }

  lemma AckedLater(c: Post, rest: seq<Post>)
    ensures forall k :: Acked([c] + rest, k) <==> c == Post(k, true) || Acked(rest, k)
  {
    assert ([c] + rest)[0] == c;
    forall k | Acked(rest, k)
      ensures Acked([c] + rest, k)
    {
      var i :| 0 <= i < |rest| && rest[i] == Post(k, true);
      assert ([c] + rest)[i + 1] == Post(k, true);
    }
  }

  lemma TriedLater(c: Post, rest: seq<Post>)
    ensures Tried([c] + rest, c.key)
    ensures forall k :: Tried(rest, k) ==> Tried([c] + rest, k)
  {
    assert ([c] + rest)[0] == c;
    forall k | Tried(rest, k)
      ensures Tried([c] + rest, k)
    {
      var i :| 0 <= i < |rest| && rest[i].key == k;
      assert ([c] + rest)[i + 1].key == k;
    }
  }

  // ------------------------------------------------------ processes and crashes

  /** The process of a campaign: not running, between saves, writing the temporary file, or with the
      temporary file written and not yet renamed. */
  datatype Process =
    | Down
    | Idle(seen: set<string>)
    | Writing(seen: set<string>)
    | Written(seen: set<string>)

  datatype System = System(disk: Disk, process: Process)

  /** `WritePart` leaves anything in the temporary file; a save gives up at any point on an I/O error,
      and the process can die at any point. */
  datatype Event =
    | Start
    | Report(post: Post)
    | OpenTmp
    | WritePart(left: StateFile)
    | WriteEnd
    | Rename
    | GiveUp
    | Die

  predicate Next(s: System, e: Event, s': System) {
    match e
    case Start =>
      s.process.Down? && Load(s.disk.state).Seen? && s' == s.(process := Idle(Load(s.disk.state).keys))
    case Report(post) =>
      && s.process.Idle? && !Skips(s.process.seen, post)
      && s' == s.(process := Idle(if post.ok then s.process.seen + {post.key} else s.process.seen))
    case OpenTmp =>
      s.process.Idle? && s' == System(WriteTmp(s.disk, Unreadable), Writing(s.process.seen))
    case WritePart(left) =>
      s.process.Writing? && s' == s.(disk := WriteTmp(s.disk, left))
    case WriteEnd =>
      && s.process.Writing?
      && s' == System(WriteTmp(s.disk, Holds(Payload(s.process.seen))), Written(s.process.seen))
    case Rename =>
      s.process.Written? && s' == System(RenameTmp(s.disk), Idle(s.process.seen))
    case GiveUp =>
      (s.process.Writing? || s.process.Written?) && s' == s.(process := Idle(s.process.seen))
    case Die => !s.process.Down? && s' == s.(process := Down)
  }

  /** A run from any disk, with no process running. */
  ghost predicate Run(events: seq<Event>, states: seq<System>) {
    && |states| == |events| + 1
    && states[0].process == Down
    && forall i :: 0 <= i < |events| ==> StepAt(events, states, i)
  }

  ghost predicate StepAt(events: seq<Event>, states: seq<System>, i: nat)
    requires i < |events| && |states| == |events| + 1
  {
    Next(states[i], events[i], states[i + 1])
  }

  /** The keys that a restart would load. */
  function DurableKeys(f: StateFile): set<string> {
    match Load(f)
    case Seen(keys) => keys
    case Raised => {}
  }

  function Durable(s: System): set<string> {
    DurableKeys(s.disk.state)
  }

  /** A file that the next start can rely on: absent, or one complete saved set. */
  ghost predicate Complete(f: StateFile) {
    f == Missing || f == Holds(Payload(DurableKeys(f)))
  }

  /** At every point, also inside a save, a running process has seen all that is durable, and a
      temporary file about to be renamed holds what the process has seen. */
  ghost predicate Intact(s: System) {
    && (!s.process.Down? ==> Durable(s) <= s.process.seen)
    && (s.process.Written? ==> s.disk.tmp == Holds(Payload(s.process.seen)))
  }

  /** One step keeps this, and a complete state file complete; the rename makes what the process has
      seen durable, and nothing else changes what is durable. */
  lemma StepKeepsIntact(s: System, e: Event, s': System)
    requires Next(s, e, s') && Intact(s)
    ensures Intact(s') && Durable(s) <= Durable(s')
    ensures Durable(s') == if e.Rename? then s.process.seen else Durable(s)
    ensures Complete(s.disk.state) || e.Rename? ==> Complete(s'.disk.state)
    ensures !e.Die? && !s.process.Down? ==> !s'.process.Down? && s.process.seen <= s'.process.seen
  {
    if e.Rename? {
      LoadAfterSave(s.process.seen);
    }
  }

  lemma {:induction false} RunIntact(events: seq<Event>, states: seq<System>, n: nat)
    requires Run(events, states) && n <= |events|
    ensures Intact(states[n])
    decreases n
  {
    if n > 0 {
      RunIntact(events, states, n - 1);
      assert StepAt(events, states, n - 1);
      StepKeepsIntact(states[n - 1], events[n - 1], states[n]);
    }
  }

  /** A run that starts with a complete state file, or none, never leaves anything else behind. */
  lemma {:induction false} RunComplete(events: seq<Event>, states: seq<System>, n: nat)
    requires Run(events, states) && n <= |events| && Complete(states[0].disk.state)
    ensures Complete(states[n].disk.state)
    decreases n
  {
    if n > 0 {
      RunComplete(events, states, n - 1);
      RunIntact(events, states, n - 1);
      assert StepAt(events, states, n - 1);
      StepKeepsIntact(states[n - 1], events[n - 1], states[n]);
    }
  }

  predicate InSave(e: Event) {
    e.OpenTmp? || e.WritePart? || e.WriteEnd? || e.Rename? || e.GiveUp? || e.Die?
  }

  /** The state file of `s'` when a save that started from `s` has got through its rename, or not. */
  ghost predicate SavedFrom(s: System, renamed: bool, s': System)
    requires !s.process.Down?
  {
    && (s'.process.Down? || s'.process.seen == s.process.seen)
    && s'.disk.state == if renamed then Holds(Payload(s.process.seen)) else s.disk.state
  }

  /** Wherever saves of one seen-set are cut, by errors or by the death of the process, the state file
      is the one from before or holds the whole set, and it is the new one once a rename is done. */
  lemma {:induction false} SaveIsAtomic(events: seq<Event>, states: seq<System>, i: nat, n: nat)
    requires Run(events, states) && i <= n <= |events| && states[i].process.Idle?
    requires forall j :: i <= j < n ==> InSave(events[j])
    ensures SavedFrom(states[i], exists j :: i <= j < n && events[j].Rename?, states[n])
    decreases n
  {
    if i < n {
      SaveIsAtomic(events, states, i, n - 1);
      RunIntact(events, states, n - 1);
      assert StepAt(events, states, n - 1);
      var was := exists j :: i <= j < n - 1 && events[j].Rename?;
      SaveStep(states[i], was, states[n - 1], events[n - 1], states[n]);
      assert (exists j :: i <= j < n && events[j].Rename?) == (was || events[n - 1].Rename?);
    }
  }

  lemma SaveStep(s: System, renamed: bool, t: System, e: Event, t': System)
    requires !s.process.Down? && SavedFrom(s, renamed, t) && Next(t, e, t') && Intact(t) && InSave(e)
    ensures SavedFrom(s, renamed || e.Rename?, t')
  {
  }

  lemma {:induction false} DurableGrows(events: seq<Event>, states: seq<System>, i: nat, n: nat)
    requires Run(events, states) && i <= n <= |events|
    ensures Durable(states[i]) <= Durable(states[n])
    decreases n
  {
    if i < n {
      DurableGrows(events, states, i, n - 1);
      DurableStays(events, states, n - 1);
    }
  }

  lemma DurableStays(events: seq<Event>, states: seq<System>, i: nat)
    requires Run(events, states) && i < |events|
    ensures Durable(states[i]) <= Durable(states[i + 1])
  {
    RunIntact(events, states, i);
    assert StepAt(events, states, i);
    StepKeepsIntact(states[i], events[i], states[i + 1]);
  }

  /** Within one process the seen-set only grows. */
  lemma {:induction false} SeenGrows(events: seq<Event>, states: seq<System>, i: nat, n: nat)
    requires Run(events, states) && i <= n <= |events|
    requires !states[i].process.Down? && forall j :: i <= j < n ==> !events[j].Die?
    ensures !states[n].process.Down? && states[i].process.seen <= states[n].process.seen
    decreases n
  {
    if i < n {
      SeenGrows(events, states, i, n - 1);
      assert StepAt(events, states, n - 1);
    }
  }

  /** Main result on deduplication.  A key acknowledged by event `i` is posted again by event `n` only
      if the process that reported it died in between without a completed save: it is never posted
      twice by one process, nor by any later one once a save has gone through. */
  lemma PostedAgainOnlyAfterLoss(events: seq<Event>, states: seq<System>, i: nat, n: nat)
    returns (d: nat)
    requires Run(events, states) && i < n < |events|
    requires events[i].Report? && events[i].post.ok
    requires events[n].Report? && events[n].post.key == events[i].post.key
    ensures i < d < n && events[d].Die?
    ensures forall j :: i < j <= d ==> !events[j].Rename?
  {
    var key := events[i].post.key;
    assert StepAt(events, states, i);
    assert StepAt(events, states, n);
    d := FirstDeath(events, states, i + 1, n, key);
    forall j | i < j <= d
      ensures !events[j].Rename?
    {
      if events[j].Rename? {
        RenamedIsForGood(events, states, i + 1, j, n, key);
      }
    }
  }

  lemma {:induction false} FirstDeath(events: seq<Event>, states: seq<System>, i: nat, n: nat, key: string)
    returns (d: nat)
    requires Run(events, states) && i <= n < |events|
    requires !states[i].process.Down? && key in states[i].process.seen
    requires !states[n].process.Down? && key !in states[n].process.seen
    ensures i <= d < n && events[d].Die?
    ensures forall j :: i <= j < d ==> !events[j].Die?
  {
    d := i;
    while d < n && !events[d].Die?
      invariant i <= d <= n
      invariant forall j :: i <= j < d ==> !events[j].Die?
    {
      d := d + 1;
    }
    if d == n {
      SeenGrows(events, states, i, n);
    }
  }

  /** A key seen by a process when it renames is seen by every process from then on. */
  lemma RenamedIsForGood(events: seq<Event>, states: seq<System>, i: nat, j: nat, n: nat, key: string)
    requires Run(events, states) && i <= j < n < |events|
    requires !states[i].process.Down? && key in states[i].process.seen
    requires events[j].Rename? && forall k :: i <= k < j ==> !events[k].Die?
    ensures !states[n].process.Down? ==> key in states[n].process.seen
  {
    SeenGrows(events, states, i, j);
    RunIntact(events, states, j);
    assert StepAt(events, states, j);
    StepKeepsIntact(states[j], events[j], states[j + 1]);
    DurableGrows(events, states, j + 1, n);
    RunIntact(events, states, n);
  }

  // ------------------------------------------------ the loop, as runs of the system

  /** Steps of the system from any state. */
  ghost predicate Path(s: System, events: seq<Event>, states: seq<System>) {
    && |states| == |events| + 1
    && states[0] == s
    && forall i :: 0 <= i < |events| ==> StepAt(events, states, i)
  }

  lemma PathStep(s: System, events: seq<Event>, states: seq<System>, e: Event, s': System)
    requires Path(s, events, states) && Next(states[|events|], e, s')
    ensures Path(s, events + [e], states + [s'])
  {
    forall i | 0 <= i < |events + [e]|
      ensures StepAt(events + [e], states + [s'], i)
    {
      assert i < |events| ==> StepAt(events, states, i);
    }
  }

  function ReportsOf(e: Event): seq<Post> {
    if e.Report? then [e.post] else []
  }

  /** The posts of a run, in order. */
  function Reports(events: seq<Event>): seq<Post>
    decreases |events|
  {
    if events == [] then [] else Reports(events[..|events| - 1]) + ReportsOf(events[|events| - 1])
  }

  /** Some run of the system leads from `s` to `t` with these posts. */
  ghost predicate Leads(s: System, posts: seq<Post>, t: System) {
    exists events, states :: Path(s, events, states) && states[|events|] == t && Reports(events) == posts
  }

  lemma LeadsNowhere(s: System)
    ensures Leads(s, [], s)
  {
    assert Path(s, [], [s]) && Reports([]) == [];
  }

  lemma LeadsOn(s: System, posts: seq<Post>, t: System, e: Event, t': System)
    requires Leads(s, posts, t) && Next(t, e, t')
    ensures Leads(s, posts + ReportsOf(e), t')
  {
    var events, states :| Path(s, events, states) && states[|events|] == t && Reports(events) == posts;
    PathStep(s, events, states, e, t');
    assert (events + [e])[..|events|] == events;
    assert (states + [t'])[|events + [e]|] == t';
  }

  lemma LeadsSilently(s: System, posts: seq<Post>, t: System, e: Event, t': System)
    requires Leads(s, posts, t) && Next(t, e, t') && !e.Report?
    ensures Leads(s, posts, t')
  {
    LeadsOn(s, posts, t, e, t');
    assert posts + [] == posts;
  }

  /** A pass over the crashes is a run of reports, one for each POST ... */
  lemma {:induction false} PassIsRun(s: System, posts: seq<Post>, t: System, crashes: seq<Post>)
    requires Leads(s, posts, t) && t.process.Idle?
    ensures Leads(s, posts + Posted(t.process.seen, crashes),
                  t.(process := Idle(AfterPass(t.process.seen, crashes))))
    decreases |crashes|
  {
    var seen := t.process.seen;
    if crashes == [] {
      assert posts + Posted(seen, crashes) == posts;
    } else {
      PassStep(seen, crashes, posts);
      if Skips(seen, crashes[0]) {
        PassIsRun(s, posts, t, crashes[1..]);
      } else {
        var t' := ReportStep(s, posts, t, crashes[0]);
        PassIsRun(s, posts + [crashes[0]], t', crashes[1..]);
      }
    }
  }

  lemma ReportStep(s: System, posts: seq<Post>, t: System, c: Post) returns (t': System)
    requires Leads(s, posts, t) && t.process.Idle? && !Skips(t.process.seen, c)
    ensures t' == t.(process := Idle(if c.ok then t.process.seen + {c.key} else t.process.seen))
    ensures Leads(s, posts + [c], t')
  {
    t' := t.(process := Idle(if c.ok then t.process.seen + {c.key} else t.process.seen));
    LeadsOn(s, posts, t, Report(c), t');
  }

  /** ... and a save is a run of its file operations, up to where it fails. */
  lemma SaveIsRun(s: System, posts: seq<Post>, t: System, p: Progress)
    requires Leads(s, posts, t) && t.process.Idle?
    ensures Leads(s, posts, t.(disk := SaveUpTo(t.disk, t.process.seen, p)))
  {
    var seen := t.process.seen;
    var goal := t.(disk := SaveUpTo(t.disk, seen, p));
    if p != Untouched {
      var begun := System(WriteTmp(t.disk, Unreadable), Writing(seen));
      LeadsSilently(s, posts, t, OpenTmp, begun);
      if p.Torn? {
        var part := System(WriteTmp(t.disk, p.left), Writing(seen));
        LeadsSilently(s, posts, begun, WritePart(p.left), part);
        LeadsSilently(s, posts, part, GiveUp, goal);
      } else {
        var written := System(WriteTmp(t.disk, Holds(Payload(seen))), Written(seen));
        LeadsSilently(s, posts, begun, WriteEnd, written);
        LeadsSilently(s, posts, written, if p == Renamed then Rename else GiveUp, goal);
      }
    }
  }

  /** So one turn of the loop, as `Reporter.Iterate` specifies it, is a run of the system. */
  lemma IterationIsRun(disk: Disk, seen: set<string>, crashes: seq<Post>, save: Progress)
    ensures var after := AfterPass(seen, crashes);
            Leads(System(disk, Idle(seen)), Posted(seen, crashes),
                  System(if after == seen then disk else SaveUpTo(disk, after, save), Idle(after)))
  {
    var s := System(disk, Idle(seen));
    var after := AfterPass(seen, crashes);
    LeadsNowhere(s);
    PassIsRun(s, [], s, crashes);
    assert [] + Posted(seen, crashes) == Posted(seen, crashes);
    if after != seen {
      SaveIsRun(s, Posted(seen, crashes), System(disk, Idle(after)), save);
    }
  }
}
