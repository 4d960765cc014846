/** What each handler does to the windows and to the focus, said of the list itself. */
module WindowLaws {
  import opened Common
  import opened WindowHost
  import opened WindowHostProofs

  /** The fallback focus: the last open window of the list, or none if there is none. */
  ghost predicate LastOpen(ws: seq<Window>, focused: Option<nat>) {
    match focused
    case None => forall i :: 0 <= i < |ws| ==> ws[i].minimized
    case Some(id) => exists i :: 0 <= i < |ws| && IsLastOpen(ws, i) && ws[i].id == id
  }

  ghost predicate IsLastOpen(ws: seq<Window>, i: nat)
    requires i < |ws|
  {
    !ws[i].minimized && forall j :: i < j < |ws| ==> ws[j].minimized
  }

  lemma {:induction false} TopOpenIsLastOpen(ws: seq<Window>)
    ensures LastOpen(ws, TopOpen(ws))
    decreases |ws|
  {
    if ws != [] {
      var n := |ws| - 1;
      if ws[n].minimized {
        TopOpenIsLastOpen(ws[..n]);
        if TopOpen(ws).Some? {
          var i :| 0 <= i < n && IsLastOpen(ws[..n], i) && ws[..n][i].id == TopOpen(ws).value;
          LastOpenStays(ws, i);
        } else {
          assert forall i :: 0 <= i < n ==> ws[i] == ws[..n][i];
        }
      } else {
        assert IsLastOpen(ws, n);
      }
    }
  }

  lemma LastOpenStays(ws: seq<Window>, i: nat)
    requires i < |ws| - 1 && IsLastOpen(ws[..|ws| - 1], i) && ws[|ws| - 1].minimized
    ensures IsLastOpen(ws, i)
  {
    forall j | i < j < |ws|
      ensures ws[j].minimized
    {
      assert j < |ws| - 1 ==> ws[j] == ws[..|ws| - 1][j];
    }
  }

  lemma {:induction false} WithoutOne(ws: seq<Window>, i: nat)
    requires Distinct(ws) && i < |ws|
    ensures Without(ws, ws[i].id) == ws[..i] + ws[i + 1..]
    decreases |ws|
  {
    if i == 0 {
      WithoutNone(ws[1..], ws[0].id);
      assert ws[..0] + ws[1..] == ws[1..];
    } else {
      WithoutOne(ws[1..], i - 1);
      assert ws[1..][..i - 1] + ws[1..][i..] == ws[1..i] + ws[i + 1..];
      assert [ws[0]] + (ws[1..i] + ws[i + 1..]) == ws[..i] + ws[i + 1..];
    }
  }

  lemma {:induction false} WithoutNone(ws: seq<Window>, id: nat)
    requires forall i :: 0 <= i < |ws| ==> ws[i].id != id
    ensures Without(ws, id) == ws
    decreases |ws|
  {
    if ws != [] {
      WithoutNone(ws[1..], id);
      assert [ws[0]] + ws[1..] == ws;
    }
  }

  lemma {:induction false} FindOne(ws: seq<Window>, i: nat)
    requires Distinct(ws) && i < |ws|
    ensures Find(ws, ws[i].id) == Some(ws[i])
    decreases |ws|
  {
    if i > 0 {
      FindOne(ws[1..], i - 1);
    }
  }

  /** The list without its window `id`: the others as they were, in their order. */
  ghost predicate Removed(ws: seq<Window>, id: nat, r: seq<Window>) {
    && (forall i :: 0 <= i < |ws| && ws[i].id == id ==> r == ws[..i] + ws[i + 1..])
    && (!Exists(ws, id) ==> r == ws)
  }

  lemma WithoutRemoves(ws: seq<Window>, id: nat)
    requires Distinct(ws)
    ensures Removed(ws, id, Without(ws, id))
  {
    if i :| 0 <= i < |ws| && ws[i].id == id {
      WithoutOne(ws, i);
    } else {
      WithoutNone(ws, id);
    }
  }

  // ----------------------------------------------------------------- the laws

  /** Closing removes the window and no other; the focus moves only if it was there, and then to the
      last open window that remains. */
  lemma CloseLaw(s: State, id: nat)
    requires Distinct(s.windows)
    ensures var t := Step(s, Close(id));
            && Removed(s.windows, id, t.windows) && t.winSeq == s.winSeq
            && (s.focused != Some(id) ==> t.focused == s.focused)
            && (s.focused == Some(id) ==> LastOpen(t.windows, t.focused))
  {
    WithoutRemoves(s.windows, id);
    TopOpenIsLastOpen(Without(s.windows, id));
  }

  /** Focusing moves the window to the front, the others staying in their order, and focuses it; an
      unknown id is focused and moves nothing. */
  lemma FocusLaw(s: State, id: nat)
    requires Distinct(s.windows)
    ensures var t := Step(s, Focus(id));
            && (forall i :: 0 <= i < |s.windows| && s.windows[i].id == id ==>
                  t.windows == s.windows[..i] + s.windows[i + 1..] + [s.windows[i]])
            && (!Exists(s.windows, id) ==> t.windows == s.windows)
            && t.focused == Some(id) && t.winSeq == s.winSeq
  {
    FindFinds(s.windows, id);
    if i :| 0 <= i < |s.windows| && s.windows[i].id == id {
      WithoutOne(s.windows, i);
      FindOne(s.windows, i);
    }
  }

  /** Minimising and restoring set one flag.  Restoring focuses the window; minimising moves the focus
      only if it was there, and then to the last window that is still open. */
  lemma MinimizeLaw(s: State, id: nat, minimized: bool)
    ensures var t := Step(s, SetMinimized(id, minimized));
            && |t.windows| == |s.windows| && t.winSeq == s.winSeq
            && (forall i :: 0 <= i < |s.windows| ==>
                  t.windows[i] == if s.windows[i].id == id then s.windows[i].(minimized := minimized) else s.windows[i])
            && (!minimized ==> t.focused == Some(id))
            && (minimized && s.focused != Some(id) ==> t.focused == s.focused)
            && (minimized && s.focused == Some(id) ==> LastOpen(t.windows, t.focused))
  {
    TopOpenIsLastOpen(MinimizeIn(s.windows, id, true));
    TopOpenMinimized(s.windows, id);
  }

  lemma {:induction false} TopOpenMinimized(ws: seq<Window>, id: nat)
    ensures TopOpen(Without(ws, id)) == TopOpen(MinimizeIn(ws, id, true))
    decreases |ws|
  {
    if ws != [] {
      var n := |ws| - 1;
      TopOpenMinimized(ws[..n], id);
      WithoutLast(ws, id);
      MinimizeLast(ws, id);
      TopOpenLast(Without(ws[..n], id), ws[n]);
      TopOpenLast(MinimizeIn(ws[..n], id, true), Minimize(ws[n], id, true));
      assert Without(ws[..n], id) + [] == Without(ws[..n], id);
    }
  }

  lemma TopOpenLast(ws: seq<Window>, w: Window)
    ensures TopOpen(ws + [w]) == if w.minimized then TopOpen(ws) else Some(w.id)
  {
    assert (ws + [w])[..|ws|] == ws;
  }

  lemma MinimizeLast(ws: seq<Window>, id: nat)
    requires ws != []
    ensures var n := |ws| - 1;
            MinimizeIn(ws, id, true) == MinimizeIn(ws[..n], id, true) + [Minimize(ws[n], id, true)]
  {
  }

  lemma {:induction false} WithoutLast(ws: seq<Window>, id: nat)
    requires ws != []
    ensures var n := |ws| - 1;
            Without(ws, id) == Without(ws[..n], id) + (if ws[n].id == id then [] else [ws[n]])
    decreases |ws|
  {
    var n := |ws| - 1;
    if n == 0 {
      assert ws[1..] == [] && ws[..0] == [];
    } else {
      WithoutLast(ws[1..], id);
      assert ws[1..][..n - 1] == ws[..n][1..] && ws[1..][n - 1] == ws[n];
      var first := if ws[0].id == id then [] else [ws[0]];
      var last := if ws[n].id == id then [] else [ws[n]];
      assert Without(ws[..n], id) == first + Without(ws[..n][1..], id);
      assert first + (Without(ws[..n][1..], id) + last) == first + Without(ws[..n][1..], id) + last;
    }
  }

  /** The focused window already shows what is asked for, and is no floater. */
  ghost predicate AlreadyShown(s: State, i: nat, spec: Spec)
    requires i < |s.windows|
  {
    var w := s.windows[i];
    && s.focused == Some(w.id)
    && w.kind != Floater && !w.minimized
    && w.registryKey == spec.registryKey && w.investigationId == spec.investigationId
  }

  /** Opening updates title and section of such a window in place; otherwise it adds one new window on
      top of all the others and focuses it. */
  lemma OpenLaw(s: State, spec: Spec)
    requires Distinct(s.windows)
    ensures var t := Step(s, Open(spec));
            && (forall i :: 0 <= i < |s.windows| && AlreadyShown(s, i, spec) ==>
                  t == s.(windows := s.windows[i := s.windows[i].(title := spec.title, section := spec.section)]))
            && ((forall i :: 0 <= i < |s.windows| ==> !AlreadyShown(s, i, spec)) ==>
                  t == State(s.windows + [Window(s.winSeq + 1, spec.kind, spec.registryKey, spec.title, spec.section,
                                                 spec.investigationId, false, false)],
                             Some(s.winSeq + 1), s.winSeq + 1))
  {
    var w := FocusedWindow(s);
    if i :| 0 <= i < |s.windows| && s.focused == Some(s.windows[i].id) {
      FindOne(s.windows, i);
      assert Reuses(s, w, spec) <==> AlreadyShown(s, i, spec);
      DecorateOne(s.windows, i, Retitle(spec.title, spec.section));
    } else if s.focused.Some? {
      FindFinds(s.windows, s.focused.value);
    }
  }

  lemma DecorateOne(ws: seq<Window>, i: nat, change: Change)
    requires Distinct(ws) && i < |ws|
    ensures Decorate(ws, ws[i].id, change) == ws[i := Apply(change, ws[i])]
  {
  }

  /** The cycle key does nothing while fewer than two windows are open. */
  lemma CycleNeedsTwo(s: State)
    requires forall i, j :: 0 <= i < j < |s.windows| ==> s.windows[i].minimized || s.windows[j].minimized
    ensures Step(s, CycleKey) == s
  {
    AtMostOneOpen(s.windows);
  }

  lemma {:induction false} AtMostOneOpen(ws: seq<Window>)
    requires forall i, j :: 0 <= i < j < |ws| ==> ws[i].minimized || ws[j].minimized
    ensures |OpenOnes(ws)| <= 1
    decreases |ws|
  {
    if ws != [] {
      AtMostOneOpen(ws[1..]);
      if !ws[0].minimized {
        NoneOpen(ws[1..]);
      }
    }
  }

  lemma {:induction false} NoneOpen(ws: seq<Window>)
    requires forall i :: 0 <= i < |ws| ==> ws[i].minimized
    ensures OpenOnes(ws) == []
    decreases |ws|
  {
    if ws != [] {
      NoneOpen(ws[1..]);
    }
  }

  /** Toggling and navigating change one field of one window and nothing else. */
  lemma DecorateLaw(s: State, id: nat, section: string)
    ensures var t := Step(s, ToggleFullscreen(id));
            && |t.windows| == |s.windows| && t.focused == s.focused && t.winSeq == s.winSeq
            && forall i :: 0 <= i < |s.windows| ==>
                 var w := s.windows[i];
                 t.windows[i] == if w.id == id then w.(fullscreen := !w.fullscreen) else w
    ensures var t := Step(s, UpdateSection(id, section));
            && |t.windows| == |s.windows| && t.focused == s.focused && t.winSeq == s.winSeq
            && forall i :: 0 <= i < |s.windows| ==>
                 var w := s.windows[i];
                 t.windows[i] == if w.id == id then w.(section := Some(section)) else w
  {
  }

  /** The page shown is the last open one that is no floater. */
  lemma {:induction false} ActivePageLaw(ws: seq<Window>, i: nat)
    requires i < |ws| && ws[i].kind != Floater && !ws[i].minimized
    requires forall j :: i < j < |ws| ==> ws[j].kind == Floater || ws[j].minimized
    ensures ActivePage(ws) == Some(ws[i].id)
    decreases |ws|
  {
    var n := |ws| - 1;
    if i < n {
      ActivePageLaw(ws[..n], i);
    }
  }
}
