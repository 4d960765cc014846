/**
 The console's window host: a back-to-front list of windows, the focused window, and the handlers
 that change them.  Each handler is one atomic step on the current state.
 */
module WindowHost {
  import opened Common

  datatype Kind = Page | Overlay | Floater

  /** Window ids are "w1", "w2", ...; the number stands for the id. */
  datatype Window = Window(id: nat, kind: Kind, registryKey: string, title: string, section: Option<string>,
                           investigationId: Option<string>, minimized: bool, fullscreen: bool)

  datatype Spec = Spec(kind: Kind, registryKey: string, title: string, section: Option<string>,
                       investigationId: Option<string>)

  datatype State = State(windows: seq<Window>, focused: Option<nat>, winSeq: nat)

  datatype Event =
    | Focus(id: nat)
    | CycleKey
    | Open(spec: Spec)
    | Close(id: nat)
    | SetMinimized(id: nat, minimized: bool)
    | ToggleFullscreen(id: nat)
    | UpdateSection(id: nat, section: string)

  // ------------------------------------------------------------- list helpers

  /** `windows.filter(w => !w.minimized)` and `windows.filter(w => w.id !== id)`. */
  function OpenOnes(ws: seq<Window>): seq<Window> {
    if ws == [] then [] else (if ws[0].minimized then [] else [ws[0]]) + OpenOnes(ws[1..])
  }

  function Without(ws: seq<Window>, id: nat): seq<Window> {
    if ws == [] then [] else (if ws[0].id == id then [] else [ws[0]]) + Without(ws[1..], id)
  }

  /** `windows.find(w => w.id === id)`. */
  function Find(ws: seq<Window>, id: nat): Option<Window> {
    if ws == [] then None else if ws[0].id == id then Some(ws[0]) else Find(ws[1..], id)
  }

  function FindIndex(ws: seq<Window>, id: Option<nat>): (i: int)
    ensures -1 <= i < |ws|
    ensures i >= 0 ==> Some(ws[i].id) == id
  {
    if ws == [] then -1
    else if Some(ws[0].id) == id then 0
    else var i := FindIndex(ws[1..], id); if i < 0 then -1 else i + 1
  }

  /** The id of the topmost open window. */
  function TopOpen(ws: seq<Window>): Option<nat> {
    if ws == [] then None
    else
      var last := ws[|ws| - 1];
      if last.minimized then TopOpen(ws[..|ws| - 1]) else Some(last.id)
  }

  function Minimize(w: Window, id: nat, minimized: bool): Window {
    if w.id == id then w.(minimized := minimized) else w
  }

  function MinimizeIn(ws: seq<Window>, id: nat, minimized: bool): (r: seq<Window>)
    ensures |r| == |ws|
    ensures forall i :: 0 <= i < |ws| ==> r[i] == Minimize(ws[i], id, minimized)
  {
    seq(|ws|, i requires 0 <= i < |ws| => Minimize(ws[i], id, minimized))
  }

  /** Changes that leave ids and minimised flags alone. */
  datatype Change = Retitle(title: string, section: Option<string>) | FlipFullscreen | SetSection(to: string)

  function Apply(change: Change, w: Window): Window {
    match change
    case Retitle(title, section) => w.(title := title, section := section)
    case FlipFullscreen => w.(fullscreen := !w.fullscreen)
    case SetSection(to) => w.(section := Some(to))
  }

  function Decorate(ws: seq<Window>, id: nat, change: Change): (r: seq<Window>)
    ensures |r| == |ws|
    ensures forall i :: 0 <= i < |ws| ==> r[i] == if ws[i].id == id then Apply(change, ws[i]) else ws[i]
  {
    seq(|ws|, i requires 0 <= i < |ws| => if ws[i].id == id then Apply(change, ws[i]) else ws[i])
  }

  // ----------------------------------------------------------------- handlers

  function FocusStep(s: State, id: nat): State {
    var w := Find(s.windows, id);
    State(if w.Some? then Without(s.windows, id) + [w.value] else s.windows, Some(id), s.winSeq)
  }

  /** The next position, wrapping from the front window back to the back one. */
  function NextIndex(i: int, n: nat): (k: nat)
    requires n > 0 && -1 <= i < n
    ensures k < n && k == if i + 1 == n then 0 else i + 1
  {
    (i + 1) % n
  }

  function CycleStep(s: State): State {
    var open := OpenOnes(s.windows);
    if |open| < 2 then s
    else FocusStep(s, open[NextIndex(FindIndex(open, s.focused), |open|)].id)
  }

  /** Opening what the focused page already shows updates it in place. */
  predicate Reuses(s: State, w: Option<Window>, spec: Spec) {
    && w.Some?
    && (w.value.kind == Page || w.value.kind == Overlay)
    && !w.value.minimized
    && w.value.registryKey == spec.registryKey
    && w.value.investigationId == spec.investigationId
  }

  function FocusedWindow(s: State): Option<Window> {
    if s.focused == None then None else Find(s.windows, s.focused.value)
  }

  function OpenStep(s: State, spec: Spec): State {
    var w := FocusedWindow(s);
    if Reuses(s, w, spec) then
      s.(windows := Decorate(s.windows, w.value.id, Retitle(spec.title, spec.section)))
    else
      var id := s.winSeq + 1;
      State(s.windows + [Window(id, spec.kind, spec.registryKey, spec.title, spec.section,
                                spec.investigationId, false, false)],
            Some(id), id)
  }

  function CloseStep(s: State, id: nat): State {
    var remaining := Without(s.windows, id);
    State(remaining, if s.focused == Some(id) then TopOpen(remaining) else s.focused, s.winSeq)
  }

  function MinimizeStep(s: State, id: nat, minimized: bool): State {
    State(MinimizeIn(s.windows, id, minimized),
          if !minimized then Some(id)
          else if s.focused == Some(id) then TopOpen(Without(s.windows, id))
          else s.focused,
          s.winSeq)
  }

  function Step(s: State, e: Event): State {
    match e
    case Focus(id) => FocusStep(s, id)
    case CycleKey => CycleStep(s)
    case Open(spec) => OpenStep(s, spec)
    case Close(id) => CloseStep(s, id)
    case SetMinimized(id, minimized) => MinimizeStep(s, id, minimized)
    case ToggleFullscreen(id) =>
      s.(windows := Decorate(s.windows, id, FlipFullscreen))
    case UpdateSection(id, section) =>
      s.(windows := Decorate(s.windows, id, SetSection(section)))
  }

  function Initial(): State {
    State([], None, 0)
  }

  /** The handlers as they run, updating the list, the focus and the counter. */
  class Host {
    var windows: seq<Window>
    var focusedId: Option<nat>
    var winSeq: nat

    ghost function Value(): State
      reads this
    {
      State(windows, focusedId, winSeq)
    }

    constructor ()
      ensures Value() == Initial()
    {
      windows, focusedId, winSeq := [], None, 0;
    }

    method FocusWindow(id: nat)
      modifies this
      ensures Value() == Step(old(Value()), Focus(id))
    {
      var w := Find(windows, id);
      if w.Some? {
        windows := Without(windows, id) + [w.value];
      }
      focusedId := Some(id);
    }

    method OnCycleKey()
      modifies this
      ensures Value() == Step(old(Value()), CycleKey)
    {
      var open := OpenOnes(windows);
      if |open| < 2 {
        return;
      }
      var idx := FindIndex(open, focusedId);
      FocusWindow(open[NextIndex(idx, |open|)].id);
    }

    method OpenWindow(spec: Spec)
      modifies this
      ensures Value() == Step(old(Value()), Open(spec))
    {
      var w := if focusedId == None then None else Find(windows, focusedId.value);
      if w.Some? && (w.value.kind == Page || w.value.kind == Overlay) && !w.value.minimized
         && w.value.registryKey == spec.registryKey && w.value.investigationId == spec.investigationId {
        windows := Decorate(windows, w.value.id, Retitle(spec.title, spec.section));
        return;
      }
      winSeq := winSeq + 1;
      windows := windows + [Window(winSeq, spec.kind, spec.registryKey, spec.title, spec.section,
                                   spec.investigationId, false, false)];
      focusedId := Some(winSeq);
    }

    method CloseWindow(id: nat)
      modifies this
      ensures Value() == Step(old(Value()), Close(id))
    {
      windows := Without(windows, id);
      if focusedId == Some(id) {
        focusedId := TopOpen(windows);
      }
    }

    method Minimize(id: nat, minimized: bool)
      modifies this
      ensures Value() == Step(old(Value()), SetMinimized(id, minimized))
    {
      if minimized {
        if focusedId == Some(id) {
          focusedId := TopOpen(Without(windows, id));
        }
      } else {
        focusedId := Some(id);
      }
      windows := MinimizeIn(windows, id, minimized);
    }

    method FlipWindow(id: nat)
      modifies `windows
      ensures Value() == Step(old(Value()), ToggleFullscreen(id))
    {
      windows := Decorate(windows, id, FlipFullscreen);
    }

    method Navigate(id: nat, section: string)
      modifies `windows
      ensures Value() == Step(old(Value()), UpdateSection(id, section))
    {
      windows := Decorate(windows, id, SetSection(section));
    }
  }
}
