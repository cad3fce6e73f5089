/** `Threelet`: the listener registration `on` (src/index.js:786-798) and the
    mouse click/drag classifier of `_initMouseListeners` (src/index.js:799-855). */
module Threelets {
  import opened Common
  import opened Events
  import opened VrControl

  /** `this._eventListenerNames` (src/index.js:483-501). */
  const EventListenerNames: seq<string> := [
    "mouse-down",
    "mouse-down-left",
    "mouse-down-middle",
    "mouse-down-right",
    "mouse-click",
    "mouse-click-left",
    "mouse-click-middle",
    "mouse-click-right",
    "mouse-move",
    "mouse-drag-end",
    "vr-touchpad-touch-start",
    "vr-touchpad-touch-end",
    "vr-touchpad-press-start",
    "vr-touchpad-press-end",
    "vr-trigger-press-start",
    "vr-trigger-press-end"
  ]

  /** The alias rewriting of `on`. */
  function Canonical(name: string): string {
    if name == "mouse-down" then "mouse-down-left"
    else if name == "mouse-click" then "mouse-click-left"
    else name
  }

  /** Names stored in the helper's table rather than the main one. */
  predicate IsVrName(name: string) {
    StartsWith(name, "vr-")
  }

  /** A name some call of `on` can store a listener under. */
  predicate Storable(name: string) {
    name in EventListenerNames && Canonical(name) == name
  }

  /** The pair (main table, helper table) after `on(name, f)`. */
  function Register(main: Table, vr: Table, name: string, f: Listener): (r: (Table, Table)) {
    if name !in EventListenerNames then (main, vr)
    else
      var key := Canonical(name);
      if IsVrName(key) then (main, vr[key := f]) else (main[key := f], vr)
  }

  /** `on(name, f)`: an unlisted name changes nothing. A listed one makes `f`
      the listener of its canonical name in the table for that name (the
      helper's for `vr-` names), keeps every other entry of that table, adds
      no other key, and leaves the other table as it was. */
  lemma RegisterRoutes(main: Table, vr: Table, name: string, f: Listener)
    ensures name !in EventListenerNames ==> Register(main, vr, name, f) == (main, vr)
    ensures name in EventListenerNames ==>
              var (m', v') := Register(main, vr, name, f);
              var key := Canonical(name);
              var (t, t', other, other') := if IsVrName(key) then (vr, v', main, m') else (main, m', vr, v');
              && Storable(key)
              && key in t' && t'[key] == f
              && t'.Keys == t.Keys + {key}
              && (forall k :: k in t && k != key ==> t'[k] == t[k])
              && other' == other
  {
  }

  /** An alias and the name it stands for register alike. */
  lemma AliasesRegisterAlike(main: Table, vr: Table, f: Listener)
    ensures Register(main, vr, "mouse-down", f) == Register(main, vr, "mouse-down-left", f)
    ensures Register(main, vr, "mouse-click", f) == Register(main, vr, "mouse-click-left", f)
    ensures Canonical("mouse-down") != "mouse-down" && Canonical("mouse-click") != "mouse-click"
  {
    assert "mouse-down" in EventListenerNames && "mouse-down-left" in EventListenerNames;
    assert "mouse-click" in EventListenerNames && "mouse-click-left" in EventListenerNames;
  }

  /** Registering twice under a name keeps only the second listener. */
  lemma RegisterLastWriterWins(main: Table, vr: Table, name: string, f: Listener, g: Listener)
    ensures var (m1, v1) := Register(main, vr, name, f);
            Register(m1, v1, name, g) == Register(main, vr, name, g)
  {
    if name in EventListenerNames {
      var key := Canonical(name);
      if IsVrName(key) {
        assert vr[key := f][key := g] == vr[key := g];
      } else {
        assert main[key := f][key := g] == main[key := g];
      }
    }
  }

  /** The names the VR poll dispatches are exactly the storable `vr-` names,
      so every listener it looks up is one `on` can register. */
  lemma VrNamesAreRegistrable()
    ensures forall n :: n in EventListenerNames && IsVrName(n) <==>
              n in [TouchStart, TouchEnd, PressStart, PressEnd, TriggerStart, TriggerEnd]
    ensures forall n :: n in EventListenerNames && IsVrName(n) ==> Storable(n)
  {
    var mouse := EventListenerNames[..10];
    var vrs := EventListenerNames[10..];
    assert EventListenerNames == mouse + vrs;
    assert vrs == [TouchStart, TouchEnd, PressStart, PressEnd, TriggerStart, TriggerEnd];
    forall n | n in mouse ensures !IsVrName(n) {
      assert n[0] == 'm';
      assert n[..3][0] == 'm';
    }
    forall n | n in vrs ensures IsVrName(n) && Storable(n) {
      assert n[..3] == "vr-";
    }
  }

  // ---------------------------------------------------------------------
  // The mouse classifier

  /** A DOM mouse event on the canvas, with its canvas-relative coordinates. */
  datatype MouseEvent =
    | MouseDown(button: int, mx: real, my: real)
    | MouseMove(mx: real, my: real)
    | MouseUp(button: int, mx: real, my: real)

  /** Buttons 0, 1, 2 are left, middle, right; other buttons have no name. */
  function DownName(button: int): Option<string> {
    if button == 0 then Some("mouse-down-left")
    else if button == 1 then Some("mouse-down-middle")
    else if button == 2 then Some("mouse-down-right")
    else None
  }

  function ClickName(button: int): Option<string> {
    if button == 0 then Some("mouse-click-left")
    else if button == 1 then Some("mouse-click-middle")
    else if button == 2 then Some("mouse-click-right")
    else None
  }

  /** One mouse listener: the new `isDragging` and the name of the listener it
      looks up, if any. */
  function MouseStep(dragging: bool, e: MouseEvent): (bool, Option<string>) {
    match e
    case MouseDown(b, _, _) => (false, DownName(b))
    case MouseMove(_, _) => (true, Some("mouse-move"))
    case MouseUp(b, _, _) =>
      (dragging, if dragging then Some("mouse-drag-end") else ClickName(b))
  }

  /** `isDragging` after `events`, starting from `dragging`. */
  function DraggingAfter(dragging: bool, events: seq<MouseEvent>): bool {
    if events == [] then dragging
    else MouseStep(DraggingAfter(dragging, events[..|events| - 1]), events[|events| - 1]).0
  }

  /** No mousedown after position `k` (`k == -1`: none at all). */
  predicate NoDownAfter(events: seq<MouseEvent>, k: int) {
    forall j :: 0 <= j < |events| && k < j ==> !events[j].MouseDown?
  }

  /** Reference definition of a drag: the mouse moved after the last
      mousedown (or, with no mousedown at all, the flag was already set). */
  predicate MovedSinceLastDown(dragging: bool, events: seq<MouseEvent>) {
    || (exists k :: 0 <= k < |events| && events[k].MouseMove? && NoDownAfter(events, k))
    || (dragging && NoDownAfter(events, -1))
  }

  /** The flag is set exactly when the mouse moved since the last mousedown:
      only mousedown clears it, mouseup leaves it alone. */
  lemma {:induction false} DraggingIffMovedSinceLastDown(dragging: bool, events: seq<MouseEvent>)
    ensures DraggingAfter(dragging, events) <==> MovedSinceLastDown(dragging, events)
  {
    if events != [] {
      var n := |events| - 1;
      var p := events[..n];
      var e := events[n];
      DraggingIffMovedSinceLastDown(dragging, p);
      assert forall j :: 0 <= j < n ==> events[j] == p[j];
      match e
      case MouseDown(_, _, _) =>
        assert !NoDownAfter(events, -1);
        forall k | 0 <= k < n
          ensures !NoDownAfter(events, k)
        {
          assert events[n].MouseDown?;
        }
      case MouseMove(_, _) =>
        assert events[n].MouseMove? && NoDownAfter(events, n);
      case MouseUp(_, _, _) =>
        assert NoDownAfter(events, -1) == NoDownAfter(p, -1);
        assert forall k :: 0 <= k < n ==> NoDownAfter(events, k) == NoDownAfter(p, k);
    }
  }

  /** A mouseup is a drag end (for any button) exactly when the mouse moved
      since the last mousedown, and otherwise a click of its button. */
  lemma MouseUpClassification(dragging: bool, events: seq<MouseEvent>, b: int, mx: real, my: real)
    ensures MouseStep(DraggingAfter(dragging, events), MouseUp(b, mx, my)).1 ==
              if MovedSinceLastDown(dragging, events) then Some("mouse-drag-end")
              else ClickName(b)
  {
    DraggingIffMovedSinceLastDown(dragging, events);
  }

  /** The names the mouse classifier looks up are storable, non-`vr-` names
      (so `on` puts their listeners in the table the classifier reads). */
  lemma MouseNamesAreInMainTable(dragging: bool, e: MouseEvent)
    ensures var name := MouseStep(dragging, e).1;
            name.Some? ==> Storable(name.value) && !IsVrName(name.value)
  {
    var name := MouseStep(dragging, e).1;
    if name.Some? {
      var v := name.value;
      assert v in EventListenerNames && v[..3][0] == 'm';
    }
  }

  /** The listener calls for an optional name. */
  function Emit(table: Table, name: Option<string>, args: Args): seq<Call> {
    if name.Some? then Notify(table, name.value, args) else []
  }

  // ---------------------------------------------------------------------
  // The object

  class Threelet {
    /** `this._eventListeners` */
    var listeners: Table
    /** `this.vrcHelper` */
    const vrcHelper: VRControlHelper
    /** The `isDragging` variable of the mouse listeners' closure. */
    var isDragging: bool
    /** Every mouse listener invocation so far, oldest first. */
    var log: seq<Call>

    /** Each table only holds names `on` stores in it. */
    ghost predicate Valid()
      reads this, vrcHelper
    {
      && vrcHelper.Valid()
      && (forall n :: n in listeners ==> Storable(n) && !IsVrName(n))
      && (forall n :: n in vrcHelper.listeners ==> Storable(n) && IsVrName(n))
    }

    constructor ()
      ensures Valid() && fresh(vrcHelper)
      ensures listeners == map[] && vrcHelper.listeners == map[] && !isDragging && log == []
      ensures vrcHelper.State() == Initial(2)
    {
      listeners := map[];
      vrcHelper := new VRControlHelper();
      isDragging := false;
      log := [];
    }

    /** `on(eventName, listener)` */
    method On(name: string, f: Listener)
      requires Valid()
      modifies this`listeners, vrcHelper`listeners
      ensures Valid()
      ensures (listeners, vrcHelper.listeners) == Register(old(listeners), old(vrcHelper.listeners), name, f)
    {
      if name in EventListenerNames {
        var key := name;
        // rewrite the two alias names to their canonical forms
        if key == "mouse-down" { key := "mouse-down-left"; }
        if key == "mouse-click" { key := "mouse-click-left"; }
        if StartsWith(key, "vr-") {
          vrcHelper.listeners := vrcHelper.listeners[key := f];
        } else {
          listeners := listeners[key := f];
        }
      }
    }

    /** `setEventListener` (deprecated): the same as `on`. */
    method SetEventListener(name: string, f: Listener)
      requires Valid()
      modifies this`listeners, vrcHelper`listeners
      ensures Valid()
      ensures (listeners, vrcHelper.listeners) == Register(old(listeners), old(vrcHelper.listeners), name, f)
    {
      On(name, f);
    }

    /** The `mousedown` listener. */
    method OnMouseDown(button: int, mx: real, my: real)
      modifies this`isDragging, this`log
      ensures isDragging == MouseStep(old(isDragging), MouseDown(button, mx, my)).0
      ensures log == old(log) + Emit(listeners, MouseStep(old(isDragging), MouseDown(button, mx, my)).1, MouseArgs(mx, my))
    {
      isDragging := false;
      var name: Option<string> := None;
      if button == 0 {
        name := Some("mouse-down-left");
      } else if button == 1 {
        name := Some("mouse-down-middle");
      } else if button == 2 {
        name := Some("mouse-down-right");
      }
      if name.Some? && name.value in listeners {
        log := log + [Call(listeners[name.value], name.value, MouseArgs(mx, my))];
      }
    }

    /** The `mousemove` listener. */
    method OnMouseMove(mx: real, my: real)
      modifies this`isDragging, this`log
      ensures isDragging && log == old(log) + Notify(listeners, "mouse-move", MouseArgs(mx, my))
    {
      isDragging := true;
      if "mouse-move" in listeners {
        log := log + [Call(listeners["mouse-move"], "mouse-move", MouseArgs(mx, my))];
      }
    }

    /** The `mouseup` listener; it leaves `isDragging` as it is. */
    method OnMouseUp(button: int, mx: real, my: real)
      modifies this`log
      ensures log == old(log) + Emit(listeners, MouseStep(isDragging, MouseUp(button, mx, my)).1, MouseArgs(mx, my))
    {
      var name: Option<string> := None;
      if isDragging {
        name := Some("mouse-drag-end");
      } else if button == 0 {
        name := Some("mouse-click-left");
      } else if button == 1 {
        name := Some("mouse-click-middle");
      } else if button == 2 {
        name := Some("mouse-click-right");
      }
      if name.Some? && name.value in listeners {
        log := log + [Call(listeners[name.value], name.value, MouseArgs(mx, my))];
      }
    }
  }
}
