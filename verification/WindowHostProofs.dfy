/** What every sequence of handler calls keeps, and what the cycle key visits. */
module WindowHostProofs {
  import opened Common
  import opened WindowHost

  // ---------------------------------------------------------------- invariant

  ghost predicate Distinct(ws: seq<Window>) {
    forall i, j :: 0 <= i < j < |ws| ==> ws[i].id != ws[j].id
  }

  ghost predicate IsOpen(ws: seq<Window>, id: nat) {
    exists i :: 0 <= i < |ws| && ws[i].id == id && !ws[i].minimized
  }

  ghost predicate Exists(ws: seq<Window>, id: nat) {
    exists i :: 0 <= i < |ws| && ws[i].id == id
  }

  ghost predicate FocusOk(ws: seq<Window>, focused: Option<nat>) {
    match focused
    case None => forall id :: !IsOpen(ws, id)
    case Some(id) => IsOpen(ws, id)
  }

  /** Ids are unique and were handed out by the counter; the focus is empty exactly when no window is
      open, and otherwise names an open window. */
  ghost predicate Inv(s: State) {
    && Distinct(s.windows)
    && (forall i :: 0 <= i < |s.windows| ==> s.windows[i].id <= s.winSeq)
    && FocusOk(s.windows, s.focused)
  }

  /** What the interface asks of a caller: focus an open window, restore an existing one. */
  ghost predicate Guard(s: State, e: Event) {
    match e
    case Focus(id) => IsOpen(s.windows, id)
    case SetMinimized(id, minimized) => minimized || Exists(s.windows, id)
    case _ => true
  }

  lemma {:induction false} FindFinds(ws: seq<Window>, id: nat)
    ensures Find(ws, id).Some? <==> Exists(ws, id)
    ensures Find(ws, id).Some? ==> Find(ws, id).value in ws && Find(ws, id).value.id == id
    decreases |ws|
  {
    if ws != [] {
      FindFinds(ws[1..], id);
      if ws[0].id != id && Exists(ws, id) {
        var i :| 0 <= i < |ws| && ws[i].id == id;
        assert ws[1..][i - 1].id == id;
      }
    }
  }

  lemma {:induction false} WithoutKeeps(ws: seq<Window>, id: nat)
    ensures forall w :: w in Without(ws, id) <==> w in ws && w.id != id
    ensures Distinct(ws) ==> Distinct(Without(ws, id))
    decreases |ws|
  {
    if ws != [] {
      WithoutKeeps(ws[1..], id);
      assert forall w :: w in ws <==> w == ws[0] || w in ws[1..];
      if Distinct(ws) {
        var r := Without(ws[1..], id);
        assert Distinct(ws[1..]);
        forall j | 0 <= j < |r|
          ensures r[j].id != ws[0].id
        {
          assert r[j] in ws[1..];
        }
      }
    }
  }

  lemma {:induction false} TopOpenIsOpen(ws: seq<Window>)
    ensures FocusOk(ws, TopOpen(ws))
    decreases |ws|
  {
    if ws != [] {
      var n := |ws| - 1;
      TopOpenIsOpen(ws[..n]);
      if ws[n].minimized {
        forall id
          ensures IsOpen(ws, id) <==> IsOpen(ws[..n], id)
        {
          if IsOpen(ws, id) {
            var i :| 0 <= i < |ws| && ws[i].id == id && !ws[i].minimized;
            assert ws[..n][i].id == id;
          }
        }
      }
    }
  }

  lemma OpenIsMember(ws: seq<Window>, id: nat)
    ensures IsOpen(ws, id) <==> exists w :: w in ws && w.id == id && !w.minimized
  {
    if IsOpen(ws, id) {
      var i :| 0 <= i < |ws| && ws[i].id == id && !ws[i].minimized;
      assert ws[i] in ws;
    }
  }

  /** Two lists with the same members have the same open windows. */
  lemma SameMembersSameOpen(a: seq<Window>, b: seq<Window>)
    requires forall w :: w in a <==> w in b
    ensures forall id :: IsOpen(a, id) <==> IsOpen(b, id)
  {
    forall id
      ensures IsOpen(a, id) <==> IsOpen(b, id)
    {
      OpenIsMember(a, id);
      OpenIsMember(b, id);
    }
  }

  /** Raising a window permutes the list. */
  lemma RaiseKeeps(s: State, id: nat)
    requires Inv(s) && Exists(s.windows, id)
    ensures var ws := FocusStep(s, id).windows;
            && Distinct(ws)
            && (forall w :: w in ws <==> w in s.windows)
  {
    FindFinds(s.windows, id);
    WithoutKeeps(s.windows, id);
    var w := Find(s.windows, id).value;
    forall x | x in s.windows && x.id == id
      ensures x == w
    {
    }
  }

  lemma FocusKeepsInv(s: State, id: nat)
    requires Inv(s)
    ensures Inv(FocusStep(s, id)) <==> IsOpen(s.windows, id)
  {
    FindFinds(s.windows, id);
    if Exists(s.windows, id) {
      RaiseKeeps(s, id);
      var ws := FocusStep(s, id).windows;
      SameMembersSameOpen(ws, s.windows);
      forall i | 0 <= i < |ws|
        ensures ws[i].id <= s.winSeq
      {
        assert ws[i] in s.windows;
      }
    }
  }

  lemma {:induction false} OpenOnesAreOpen(ws: seq<Window>)
    ensures forall w :: w in OpenOnes(ws) <==> w in ws && !w.minimized
    decreases |ws|
  {
    if ws != [] {
      OpenOnesAreOpen(ws[1..]);
      assert forall w :: w in ws <==> w == ws[0] || w in ws[1..];
    }
  }

  lemma OpenOneIsOpen(ws: seq<Window>, i: nat)
    requires i < |OpenOnes(ws)|
    ensures IsOpen(ws, OpenOnes(ws)[i].id)
  {
    OpenOnesAreOpen(ws);
    assert OpenOnes(ws)[i] in OpenOnes(ws);
    OpenIsMember(ws, OpenOnes(ws)[i].id);
  }

  lemma CycleKeepsInv(s: State)
    requires Inv(s)
    ensures Inv(CycleStep(s))
  {
    var open := OpenOnes(s.windows);
    if |open| >= 2 {
      var k := NextIndex(FindIndex(open, s.focused), |open|);
      OpenOneIsOpen(s.windows, k);
      FocusKeepsInv(s, open[k].id);
    }
  }

  lemma CloseKeepsInv(s: State, id: nat)
    requires Inv(s)
    ensures Inv(CloseStep(s, id))
  {
    var ws := Without(s.windows, id);
    WithoutKeeps(s.windows, id);
    TopOpenIsOpen(ws);
    forall i | 0 <= i < |ws|
      ensures ws[i].id <= s.winSeq
    {
      assert ws[i] in s.windows;
    }
    OthersOpen(s.windows, id);
  }

  lemma MinimizedOpens(ws: seq<Window>, id: nat, minimized: bool, x: nat)
    requires Distinct(ws)
    ensures IsOpen(MinimizeIn(ws, id, minimized), x) <==>
            if x == id then !minimized && Exists(ws, id) else IsOpen(ws, x)
  {
    var r := MinimizeIn(ws, id, minimized);
    if IsOpen(r, x) {
      var i :| 0 <= i < |r| && r[i].id == x && !r[i].minimized;
      assert ws[i].id == x;
    }
    if x != id && IsOpen(ws, x) {
      var i :| 0 <= i < |ws| && ws[i].id == x && !ws[i].minimized;
      assert r[i].id == x && !r[i].minimized;
    }
    if x == id && !minimized && Exists(ws, id) {
      var i :| 0 <= i < |ws| && ws[i].id == id;
      assert r[i].id == x && !r[i].minimized;
    }
  }

  lemma MinimizeKeepsInv(s: State, id: nat, minimized: bool)
    requires Inv(s)
    ensures Inv(MinimizeStep(s, id, minimized)) <==> minimized || Exists(s.windows, id)
  {
    forall x
      ensures IsOpen(MinimizeIn(s.windows, id, minimized), x) <==>
              if x == id then !minimized && Exists(s.windows, id) else IsOpen(s.windows, x)
    {
      MinimizedOpens(s.windows, id, minimized, x);
    }
    OthersOpen(s.windows, id);
    TopOpenIsOpen(Without(s.windows, id));
  }

  lemma OthersOpen(ws: seq<Window>, id: nat)
    ensures forall x :: IsOpen(Without(ws, id), x) <==> IsOpen(ws, x) && x != id
  {
    WithoutKeeps(ws, id);
    forall x
      ensures IsOpen(Without(ws, id), x) <==> IsOpen(ws, x) && x != id
    {
      OpenIsMember(Without(ws, id), x);
      OpenIsMember(ws, x);
    }
  }

  lemma DecorateKeepsInv(s: State, id: nat, change: Change)
    requires Inv(s)
    ensures Inv(s.(windows := Decorate(s.windows, id, change)))
  {
    var r := Decorate(s.windows, id, change);
    forall x
      ensures IsOpen(r, x) <==> IsOpen(s.windows, x)
    {
      if IsOpen(s.windows, x) {
        var i :| 0 <= i < |r| && s.windows[i].id == x && !s.windows[i].minimized;
        assert r[i].id == x && !r[i].minimized;
      }
    }
  }

  lemma OpenKeepsInv(s: State, spec: Spec)
    requires Inv(s)
    ensures Inv(OpenStep(s, spec))
  {
    var w := FocusedWindow(s);
    if Reuses(s, w, spec) {
      DecorateKeepsInv(s, w.value.id, Retitle(spec.title, spec.section));
    } else {
      var ws := OpenStep(s, spec).windows;
      assert ws[|ws| - 1].id == s.winSeq + 1 && !ws[|ws| - 1].minimized;
    }
  }

  /** Main result on the host's state: from a state that satisfies the invariant, a handler call
      keeps it if and only if it meets the guard of the interface. */
  lemma StepKeepsInv(s: State, e: Event)
    requires Inv(s)
    ensures Inv(Step(s, e)) <==> Guard(s, e)
  {
    match e
    case Focus(id) => FocusKeepsInv(s, id);
    case CycleKey => CycleKeepsInv(s);
    case Open(spec) => OpenKeepsInv(s, spec);
    case Close(id) => CloseKeepsInv(s, id);
    case SetMinimized(id, minimized) => MinimizeKeepsInv(s, id, minimized);
    case ToggleFullscreen(id) => DecorateKeepsInv(s, id, FlipFullscreen);
    case UpdateSection(id, section) => DecorateKeepsInv(s, id, SetSection(section));
  }

  function Run(s: State, events: seq<Event>): State
    decreases |events|
  {
    if events == [] then s else Run(Step(s, events[0]), events[1..])
  }

  ghost predicate Guarded(s: State, events: seq<Event>)
    decreases |events|
  {
    events == [] || (Guard(s, events[0]) && Guarded(Step(s, events[0]), events[1..]))
  }

  lemma {:induction false} ReachableInv(s: State, events: seq<Event>)
    requires Inv(s) && Guarded(s, events)
    ensures Inv(Run(s, events))
    decreases |events|
  {
    if events != [] {
      StepKeepsInv(s, events[0]);
      ReachableInv(Step(s, events[0]), events[1..]);
    }
  }

  /** So it holds in every state that the host can reach by guarded calls. */
  lemma ReachableFromInitial(events: seq<Event>)
    requires Guarded(Initial(), events)
    ensures Inv(Run(Initial(), events))
  {
    ReachableInv(Initial(), events);
  }

  // -------------------------------------------------------------- the cycle key

  /** The open windows, back to front. */
  function OpenIds(ws: seq<Window>): seq<nat> {
    if ws == [] then [] else (if ws[0].minimized then [] else [ws[0].id]) + OpenIds(ws[1..])
  }

  function Drop(ids: seq<nat>, id: nat): seq<nat> {
    if ids == [] then [] else (if ids[0] == id then [] else [ids[0]]) + Drop(ids[1..], id)
  }

  ghost predicate NoRepeats(ids: seq<nat>) {
    forall i, j :: 0 <= i < j < |ids| ==> ids[i] != ids[j]
  }

  lemma {:induction false} OpenIdsAre(ws: seq<Window>)
    ensures |OpenIds(ws)| == |OpenOnes(ws)|
    ensures forall i :: 0 <= i < |OpenIds(ws)| ==> OpenIds(ws)[i] == OpenOnes(ws)[i].id
    decreases |ws|
  {
    if ws != [] {
      OpenIdsAre(ws[1..]);
    }
  }

  lemma {:induction false} OpenIdsDistinct(ws: seq<Window>)
    requires Distinct(ws)
    ensures NoRepeats(OpenIds(ws))
    ensures forall id :: id in OpenIds(ws) <==> IsOpen(ws, id)
    decreases |ws|
  {
    if ws != [] {
      OpenIdsDistinct(ws[1..]);
      forall id
        ensures IsOpen(ws, id) <==> IsOpen(ws[1..], id) || (!ws[0].minimized && ws[0].id == id)
      {
        OpenIsMember(ws, id);
        OpenIsMember(ws[1..], id);
        assert forall w :: w in ws <==> w == ws[0] || w in ws[1..];
      }
      forall j | 0 <= j < |OpenIds(ws[1..])|
        ensures OpenIds(ws[1..])[j] != ws[0].id
      {
        assert OpenIds(ws[1..])[j] in OpenIds(ws[1..]);
      }
    }
  }

  lemma {:induction false} OpenIdsAppend(a: seq<Window>, b: seq<Window>)
    ensures OpenIds(a + b) == OpenIds(a) + OpenIds(b)
    decreases |a|
  {
    if a == [] {
      assert a + b == b;
    } else {
      assert (a + b)[1..] == a[1..] + b;
      OpenIdsAppend(a[1..], b);
    }
  }

  /** After a close or a minimise the focus falls on the topmost open window. */
  lemma {:induction false} TopOpenIsLast(ws: seq<Window>)
    ensures TopOpen(ws) == if OpenIds(ws) == [] then None else Some(OpenIds(ws)[|OpenIds(ws)| - 1])
    decreases |ws|
  {
    if ws != [] {
      var n := |ws| - 1;
      TopOpenIsLast(ws[..n]);
      assert ws == ws[..n] + [ws[n]];
      OpenIdsAppend(ws[..n], [ws[n]]);
      assert [ws[n]][1..] == [];
    }
  }

  lemma {:induction false} OpenIdsWithout(ws: seq<Window>, id: nat)
    ensures OpenIds(Without(ws, id)) == Drop(OpenIds(ws), id)
    decreases |ws|
  {
    if ws != [] {
      OpenIdsWithout(ws[1..], id);
      var rest := Without(ws[1..], id);
      assert ([ws[0]] + rest)[1..] == rest;
      assert ([ws[0].id] + OpenIds(ws[1..]))[1..] == OpenIds(ws[1..]);
      assert [] + rest == rest && [] + OpenIds(ws[1..]) == OpenIds(ws[1..]);
    }
  }

  /** Focusing an open window moves it to the end of the open ones, whatever is minimised. */
  lemma FocusRaises(s: State, id: nat)
    requires Inv(s) && IsOpen(s.windows, id)
    ensures OpenIds(FocusStep(s, id).windows) == Drop(OpenIds(s.windows), id) + [id]
  {
    FindFinds(s.windows, id);
    OpenIsMember(s.windows, id);
    var w := Find(s.windows, id).value;
    assert !w.minimized;
    OpenIdsAppend(Without(s.windows, id), [w]);
    OpenIdsWithout(s.windows, id);
    assert [w][1..] == [];
  }

  lemma {:induction false} DropIs(ids: seq<nat>, i: nat)
    requires NoRepeats(ids) && i < |ids|
    ensures Drop(ids, ids[i]) == ids[..i] + ids[i + 1..]
    decreases |ids|
  {
    var rest := ids[1..];
    NoRepeatsTail(ids);
    if i == 0 {
      DropNothing(rest, ids[0]);
      assert ids[..0] + rest == rest;
    } else {
      DropIs(rest, i - 1);
      DropSplit(ids, i);
    }
  }

  lemma NoRepeatsTail(ids: seq<nat>)
    requires ids != [] && NoRepeats(ids)
    ensures NoRepeats(ids[1..]) && ids[0] !in ids[1..]
    ensures forall i :: 0 < i < |ids| ==> ids[i] != ids[0] && ids[i] == ids[1..][i - 1]
  {
  }

  lemma DropSplit(ids: seq<nat>, i: nat)
    requires 0 < i < |ids|
    ensures [ids[0]] + (ids[1..][..i - 1] + ids[1..][i..]) == ids[..i] + ids[i + 1..]
  {
    assert ids[1..][i..] == ids[i + 1..];
  }

  lemma {:induction false} DropNothing(ids: seq<nat>, id: nat)
    requires id !in ids
    ensures Drop(ids, id) == ids
    decreases |ids|
  {
    if ids != [] {
      DropNothing(ids[1..], id);
    }
  }

  lemma {:induction false} FindIndexIs(ws: seq<Window>, i: nat)
    requires i < |ws| && forall j :: 0 <= j < i ==> ws[j].id != ws[i].id
    ensures FindIndex(ws, Some(ws[i].id)) == i
    decreases |ws|
  {
    if i > 0 {
      FindIndexIs(ws[1..], i - 1);
    }
  }

  /** Position `i` moved to the end. */
  function Raised(ids: seq<nat>, i: nat): seq<nat>
    requires i < |ids|
  {
    ids[..i] + ids[i + 1..] + [ids[i]]
  }

  /** One press, in terms of the open ids: the next one after the focus moves to the end. */
  lemma PressMoves(s: State, i: nat)
    requires Inv(s) && i < |OpenIds(s.windows)| && |OpenIds(s.windows)| >= 2
    requires s.focused == Some(OpenIds(s.windows)[i])
    ensures var ids := OpenIds(s.windows);
            var k := NextIndex(i, |ids|);
            && Inv(CycleStep(s))
            && CycleStep(s).focused == Some(ids[k])
            && OpenIds(CycleStep(s).windows) == Raised(ids, k)
  {
    var ids := OpenIds(s.windows);
    OpenIdsAre(s.windows);
    OpenIdsDistinct(s.windows);
    FindIndexIs(OpenOnes(s.windows), i);
    RaisesOpen(s, NextIndex(i, |ids|));
    CycleKeepsInv(s);
  }

  lemma RaisesOpen(s: State, k: nat)
    requires Inv(s) && k < |OpenIds(s.windows)|
    ensures OpenIds(FocusStep(s, OpenIds(s.windows)[k]).windows) == Raised(OpenIds(s.windows), k)
  {
    var ids := OpenIds(s.windows);
    OpenIdsDistinct(s.windows);
    assert ids[k] in ids;
    FocusRaises(s, ids[k]);
    DropIs(ids, k);
  }

  function Presses(s: State, n: nat): State
    decreases n
  {
    if n == 0 then s else Presses(CycleStep(s), n - 1)
  }

  /** The focus after each of `n` presses. */
  function Visited(s: State, n: nat): seq<Option<nat>>
    decreases n
  {
    if n == 0 then [] else [CycleStep(s).focused] + Visited(CycleStep(s), n - 1)
  }

  function Somes(ids: seq<nat>): (r: seq<Option<nat>>)
    ensures |r| == |ids|
    ensures forall i :: 0 <= i < |ids| ==> r[i] == Some(ids[i])
  {
    seq(|ids|, i requires 0 <= i < |ids| => Some(ids[i]))
  }

  function Rotated(ids: seq<nat>): seq<nat>
    requires ids != []
  {
    ids[1..] + [ids[0]]
  }

  function RotatedBy(ids: seq<nat>, n: nat): seq<nat>
    requires ids != []
    decreases n
  {
    if n == 0 then ids else RotatedBy(Rotated(ids), n - 1)
  }

  /** The first of `ids`, after each of `n` rotations. */
  function Firsts(ids: seq<nat>, n: nat): seq<Option<nat>>
    requires ids != []
    decreases n
  {
    if n == 0 then [] else [Some(ids[0])] + Firsts(Rotated(ids), n - 1)
  }

  lemma {:induction false} RotatedByIs(ids: seq<nat>, n: nat)
    requires 0 < |ids| && n <= |ids|
    ensures RotatedBy(ids, n) == ids[n..] + ids[..n]
    decreases n
  {
    if n > 0 {
      var next := Rotated(ids);
      RotatedByIs(next, n - 1);
      assert next[n - 1..] + next[..n - 1] == ids[n..] + ids[..n];
    }
  }

  lemma {:induction false} FirstsAre(ids: seq<nat>, n: nat)
    requires 0 < |ids| && n <= |ids|
    ensures Firsts(ids, n) == Somes(ids[..n])
    decreases n
  {
    if n > 0 {
      var next := Rotated(ids);
      FirstsAre(next, n - 1);
      assert ids[..n] == [ids[0]] + next[..n - 1];
    }
  }

  /** The focus is on the topmost of the open windows `ids`. */
  ghost predicate FromTop(s: State, ids: seq<nat>) {
    && Inv(s)
    && ids == OpenIds(s.windows)
    && |ids| >= 2
    && s.focused == Some(ids[|ids| - 1])
  }

  /** From the top window, presses visit the open windows in their order and rotate them. */
  lemma {:induction false} PressesRotate(s: State, ids: seq<nat>, n: nat)
    requires FromTop(s, ids)
    ensures Visited(s, n) == Firsts(ids, n)
    ensures OpenIds(Presses(s, n).windows) == RotatedBy(ids, n)
    decreases n
  {
    if n > 0 {
      PressFromTop(s, ids);
      PressesRotate(CycleStep(s), Rotated(ids), n - 1);
    }
  }

  lemma PressFromTop(s: State, ids: seq<nat>)
    requires FromTop(s, ids)
    ensures FromTop(CycleStep(s), Rotated(ids)) && CycleStep(s).focused == Some(ids[0])
  {
    PressMoves(s, |ids| - 1);
    RaisedFirst(ids);
  }

  lemma RaisedFirst(ids: seq<nat>)
    requires ids != []
    ensures Raised(ids, 0) == Rotated(ids)
    ensures |Rotated(ids)| == |ids| && Rotated(ids)[|ids| - 1] == ids[0]
  {
  }

  /** Main result on the cycle key.  From every state of the invariant with two or more open windows,
      as many presses as there are open windows focus each of them exactly once; and they restore the
      order of the open windows if and only if they start from the topmost one. */
  lemma CycleVisitsEachOnce(s: State, ids: seq<nat>)
    requires Inv(s) && ids == OpenIds(s.windows) && |ids| >= 2
    ensures multiset(Visited(s, |ids|)) == multiset(Somes(ids)) && NoRepeats(ids)
    ensures OpenIds(Presses(s, |ids|).windows) == ids <==> s.focused == Some(ids[|ids| - 1])
  {
    OpenIdsDistinct(s.windows);
    assert IsOpen(s.windows, ids[0]) by {
      assert ids[0] in ids;
    }
    assert s.focused.Some? && s.focused.value in ids;
    var i :| 0 <= i < |ids| && s.focused == Some(ids[i]);
    if i == |ids| - 1 {
      CycleFromTop(s, ids);
    } else {
      CycleFromBelow(s, ids, i);
    }
  }

  lemma CycleFromTop(s: State, ids: seq<nat>)
    requires FromTop(s, ids)
    ensures Visited(s, |ids|) == Somes(ids) && OpenIds(Presses(s, |ids|).windows) == ids
  {
    PressesRotate(s, ids, |ids|);
    RotatedByIs(ids, |ids|);
    FirstsAre(ids, |ids|);
    assert ids[|ids|..] + ids[..|ids|] == ids && ids[..|ids|] == ids;
  }

  /** Below the top, the first press raises the next window, and the others are then visited in
      their order; it ends at the bottom, where it was not. */
  lemma CycleFromBelow(s: State, ids: seq<nat>, i: nat)
    requires Inv(s) && ids == OpenIds(s.windows) && i + 1 < |ids|
    requires s.focused == Some(ids[i])
    ensures multiset(Visited(s, |ids|)) == multiset(Somes(ids))
    ensures OpenIds(Presses(s, |ids|).windows) != ids && s.focused != Some(ids[|ids| - 1])
  {
    var raised := PressFromBelow(s, ids, i);
    VisitsAfter(s, raised, |ids|);
    NotRestored(s, ids, raised, i);
  }

  lemma NotRestored(s: State, ids: seq<nat>, raised: seq<nat>, i: nat)
    requires Distinct(s.windows) && ids == OpenIds(s.windows) && i + 1 < |ids|
    requires FromTop(CycleStep(s), raised) && |raised| == |ids| && raised[|ids| - 1] == ids[i + 1]
    ensures OpenIds(Presses(s, |ids|).windows) != ids && ids[i] != ids[|ids| - 1]
  {
    OrderAfter(s, raised);
    EndsDiffer(s.windows, ids, i);
  }

  lemma EndsDiffer(ws: seq<Window>, ids: seq<nat>, i: nat)
    requires Distinct(ws) && ids == OpenIds(ws) && i + 1 < |ids|
    ensures ids[i + 1] != ids[0] && ids[i] != ids[|ids| - 1]
  {
    OpenIdsDistinct(ws);
  }

  /** Presses that go on from the top through all windows but one end with the topmost at the bottom. */
  lemma OrderAfter(s: State, ids: seq<nat>)
    requires FromTop(CycleStep(s), ids)
    ensures var after := OpenIds(Presses(s, |ids|).windows);
            after != [] && after[0] == ids[|ids| - 1]
  {
    PressesEnd(CycleStep(s), ids);
  }

  lemma PressesEnd(s: State, ids: seq<nat>)
    requires FromTop(s, ids)
    ensures var after := OpenIds(Presses(s, |ids| - 1).windows);
            after != [] && after[0] == ids[|ids| - 1]
  {
    PressesRotate(s, ids, |ids| - 1);
    LastComesFirst(ids);
  }

  lemma LastComesFirst(ids: seq<nat>)
    requires ids != []
    ensures var after := RotatedBy(ids, |ids| - 1);
            after != [] && after[0] == ids[|ids| - 1]
  {
    RotatedByIs(ids, |ids| - 1);
    assert ids[|ids| - 1..] == [ids[|ids| - 1]];
  }

  lemma VisitsAfter(s: State, ids: seq<nat>, n: nat)
    requires FromTop(CycleStep(s), ids) && 0 < n <= |ids|
    ensures Visited(s, n) == [CycleStep(s).focused] + Somes(ids[..n - 1])
  {
    PressesRotate(CycleStep(s), ids, n - 1);
    FirstsAre(ids, n - 1);
  }

  lemma PressFromBelow(s: State, ids: seq<nat>, i: nat) returns (raised: seq<nat>)
    requires Inv(s) && ids == OpenIds(s.windows) && i + 1 < |ids|
    requires s.focused == Some(ids[i])
    ensures FromTop(CycleStep(s), raised) && |raised| == |ids| && raised[|ids| - 1] == ids[i + 1]
    ensures multiset([CycleStep(s).focused] + Somes(raised[..|ids| - 1])) == multiset(Somes(ids))
  {
    raised := Raised(ids, i + 1);
    PressMoves(s, i);
    RaisedSplit(ids, raised, i + 1);
  }

  lemma RaisedSplit(ids: seq<nat>, raised: seq<nat>, k: nat)
    requires k < |ids| && raised == Raised(ids, k)
    ensures multiset([Some(ids[k])] + Somes(raised[..|ids| - 1])) == multiset(Somes(ids))
  {
    var before, after := ids[..k], ids[k + 1..];
    assert raised[..|ids| - 1] == before + after;
    assert Somes(before + after) == Somes(before) + Somes(after);
    assert Somes(ids) == Somes(before) + [Some(ids[k])] + Somes(after);
  }

  // ------------------------------------------------------------------- opening

  /** Opening focuses an open window that shows what was asked for. */
  lemma OpenShows(s: State, spec: Spec)
    requires Inv(s)
    ensures var w := FocusedWindow(OpenStep(s, spec));
            && w.Some? && !w.value.minimized
            && w.value.registryKey == spec.registryKey && w.value.investigationId == spec.investigationId
            && w.value.title == spec.title && w.value.section == spec.section
  {
    var w := FocusedWindow(s);
    var ws := OpenStep(s, spec).windows;
    if Reuses(s, w, spec) {
      FindFinds(s.windows, s.focused.value);
      FindDecorated(s.windows, w.value.id, Retitle(spec.title, spec.section));
    } else {
      FindLast(s.windows, ws[|ws| - 1]);
    }
  }

  lemma {:induction false} FindDecorated(ws: seq<Window>, id: nat, change: Change)
    requires Find(ws, id).Some?
    ensures Find(Decorate(ws, id, change), id) == Some(Apply(change, Find(ws, id).value))
    decreases |ws|
  {
    if ws[0].id != id {
      FindDecorated(ws[1..], id, change);
      var all, rest := Decorate(ws, id, change), Decorate(ws[1..], id, change);
      assert forall i :: 0 <= i < |rest| ==> all[1..][i] == rest[i];
      assert Decorate(ws, id, change)[1..] == Decorate(ws[1..], id, change);
    }
  }

  lemma {:induction false} FindLast(ws: seq<Window>, w: Window)
    requires forall i :: 0 <= i < |ws| ==> ws[i].id != w.id
    ensures Find(ws + [w], w.id) == Some(w)
    decreases |ws|
  {
    if ws != [] {
      assert (ws + [w])[1..] == ws[1..] + [w];
      FindLast(ws[1..], w);
    }
  }

  /** Opening the same surface twice in a row stacks no duplicate, except a floater that was not the
      focused page already. */
  lemma OpenTwice(s: State, spec: Spec)
    requires Inv(s)
    ensures |OpenStep(OpenStep(s, spec), spec).windows| == |OpenStep(s, spec).windows| <==>
            spec.kind != Floater || Reuses(s, FocusedWindow(s), spec)
  {
    OpenShows(s, spec);
    var w := FocusedWindow(s);
    var t := OpenStep(s, spec);
    if Reuses(s, w, spec) {
      FindFinds(s.windows, s.focused.value);
      FindDecorated(s.windows, w.value.id, Retitle(spec.title, spec.section));
    } else {
      FindLast(s.windows, t.windows[|t.windows| - 1]);
    }
  }

  // -------------------------------------------------------------- active page

  /** The page that is shown: the topmost open page or overlay. */
  function ActivePage(ws: seq<Window>): Option<nat> {
    if ws == [] then None
    else
      var last := ws[|ws| - 1];
      if last.kind != Floater && !last.minimized then Some(last.id) else ActivePage(ws[..|ws| - 1])
  }

  /** Restoring a page focuses it but does not raise it: it is the page shown if and only if no open
      page lies above it. */
  lemma {:induction false} RestoreShowsPage(ws: seq<Window>, i: nat)
    requires Distinct(ws) && i < |ws| && ws[i].kind != Floater
    ensures ActivePage(MinimizeIn(ws, ws[i].id, false)) == Some(ws[i].id) <==>
            forall j :: i < j < |ws| ==> ws[j].kind == Floater || ws[j].minimized
    decreases |ws|
  {
    var n := |ws| - 1;
    var id := ws[i].id;
    var r := MinimizeIn(ws, id, false);
    if i < n {
      assert r[n] == ws[n];
      if ws[n].kind == Floater || ws[n].minimized {
        RestoreShowsPage(ws[..n], i);
        assert r[..n] == MinimizeIn(ws[..n], id, false);
        assert forall j :: i < j < n ==> ws[j] == ws[..n][j];
      }
    }
  }
}
