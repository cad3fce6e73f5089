/** The VR controller edge detector: `VRControlHelper.updateControllers`
    (src/index.js:196-288) and the state it keeps per controller slot. */
module VrControl {
  import opened Common
  import opened Events
  import opened Gamepads

  const TouchStart := "vr-touchpad-touch-start"
  const TouchEnd := "vr-touchpad-touch-end"
  const PressStart := "vr-touchpad-press-start"
  const PressEnd := "vr-touchpad-press-end"
  const TriggerStart := "vr-trigger-press-start"
  const TriggerEnd := "vr-trigger-press-end"

  /** The recorded touchpad of one slot (`stat.touchpads[i]`). */
  datatype Touchpad = Touchpad(touched: bool, pressed: bool, axes0: Option<real>, axes1: Option<real>)

  /** What an `undefined` touchpad record is replaced with before comparing. */
  const Baseline := Touchpad(false, false, Some(0.0), Some(0.0))

  /** Everything recorded about slot `i`, gathered from the four arrays. */
  datatype SlotState = SlotState(touchpad: Option<Touchpad>, trigger: Option<bool>, pose: Option<Pose>, id: Option<string>)

  const Lost := SlotState(None, None, None, None)

  /** `this.controllersState`: four arrays indexed by slot. */
  datatype ControllersState = ControllersState(
    touchpads: seq<Option<Touchpad>>,
    triggers: seq<Option<bool>>,
    poses: seq<Option<Pose>>,
    ids: seq<Option<string>>)
  {
    predicate WellSized() {
      |triggers| == |touchpads| && |poses| == |touchpads| && |ids| == |touchpads|
    }

    function Count(): nat { |touchpads| }

    function At(i: nat): SlotState
      requires WellSized() && i < Count()
    {
      SlotState(touchpads[i], triggers[i], poses[i], ids[i])
    }
  }

  /** A state for `n` slots in which nothing has been recorded yet. */
  function Initial(n: nat): (st: ControllersState)
    ensures st.WellSized() && st.Count() == n
    ensures forall i :: 0 <= i < n ==> st.At(i) == Lost
  {
    ControllersState(seq(n, _ => None), seq(n, _ => None), seq(n, _ => None), seq(n, _ => None))
  }

  /** States `a` and `b` record the same about every slot other than `i`. */
  predicate SameExcept(a: ControllersState, b: ControllersState, i: nat)
    requires a.WellSized() && b.WellSized()
  {
    a.Count() == b.Count() && forall j :: 0 <= j < a.Count() && j != i ==> a.At(j) == b.At(j)
  }

  /** The button that carries the trigger: 0 on a Daydream controller, 1 elsewhere. */
  function TriggerButton(id: string): nat {
    if id == "Daydream Controller" then 0 else 1
  }

  const TouchpadButton: nat := 0

  /** `gamepad.axes[k]`, `undefined` past the end of the array. */
  function AxisAt(axes: seq<real>, k: nat): Option<real> {
    if k < |axes| then Some(axes[k]) else None
  }

  /** The gamepad found for slot `i` exists and reports a pose. */
  predicate Present(pads: GamepadList, i: nat) {
    var g := FindGamepad(pads, i);
    g.Some? && g.value.pose.Some?
  }

  /** Slot `i` is present and has every button the poll reads, so reading it
      raises no TypeError. */
  predicate ReadsCompletely(pads: GamepadList, i: nat) {
    Present(pads, i) &&
    var g := FindGamepad(pads, i).value;
    TouchpadButton < |g.buttons| && TriggerButton(g.id) < |g.buttons|
  }

  /** How the processing of one slot ends: go on with the next slot, `return`
      from the whole call, or a TypeError thrown by reading a missing button. */
  datatype Outcome = Continue | Return | Throw

  datatype Step = Step(st: ControllersState, calls: seq<Call>, outcome: Outcome)

  /** The calls of the touchpad diff (src/index.js:255-267): touch before press. */
  function TouchpadCalls(table: Table, i: nat, prev: Touchpad, now: Touchpad): (calls: seq<Call>)
    ensures |calls| <= 2
    ensures forall c :: c in calls ==>
              c.args == TouchpadArgs(i, now.axes0, now.axes1) && c.name in table && c.listener == table[c.name]
  {
    var args := TouchpadArgs(i, now.axes0, now.axes1);
    (if prev.touched != now.touched then Notify(table, if now.touched then TouchStart else TouchEnd, args) else [])
    + (if prev.pressed != now.pressed then Notify(table, if now.pressed then PressStart else PressEnd, args) else [])
  }

  /** The call of the trigger diff (src/index.js:280-286). */
  function TriggerCalls(table: Table, i: nat, prev: bool, now: bool): (calls: seq<Call>)
    ensures |calls| <= 1
    ensures forall c :: c in calls ==>
              c.args == TriggerArgs(i) && c.name == (if now then TriggerStart else TriggerEnd) &&
              c.name in table && c.listener == table[c.name]
  {
    if prev != now then Notify(table, if now then TriggerStart else TriggerEnd, TriggerArgs(i)) else []
  }

  /** One iteration of the loop of `updateControllers` on slot `i`. */
  function SlotStep(st: ControllersState, table: Table, pads: GamepadList, i: nat): (r: Step)
    requires st.WellSized() && i < st.Count()
    ensures r.st.WellSized() && SameExcept(st, r.st, i)
    ensures forall c :: c in r.calls ==> c.args.TouchpadArgs? || c.args.TriggerArgs?
    ensures forall c :: c in r.calls && c.args.TouchpadArgs? ==> c.args.slot == i
    ensures forall c :: c in r.calls && c.args.TriggerArgs? ==> c.args.slot == i
  {
    var found := FindGamepad(pads, i);
    if found.None? || found.value.pose.None? then
      Step(st.(touchpads := st.touchpads[i := None], triggers := st.triggers[i := None],
               poses := st.poses[i := None], ids := st.ids[i := None]), [], Return)
    else
      var g := found.value;
      var st1 := st.(poses := st.poses[i := g.pose], ids := st.ids[i := Some(g.id)]);
      if TouchpadButton >= |g.buttons| then Step(st1, [], Throw)
      else
        var now := Touchpad(g.buttons[TouchpadButton].touched, g.buttons[TouchpadButton].pressed,
                            AxisAt(g.axes, 0), AxisAt(g.axes, 1));
        var padCalls := TouchpadCalls(table, i, st.touchpads[i].GetOr(Baseline), now);
        var st2 := st1.(touchpads := st1.touchpads[i := Some(now)]);
        if TriggerButton(g.id) >= |g.buttons| then Step(st2, padCalls, Throw)
        else
          var trigger := g.buttons[TriggerButton(g.id)].pressed;
          var trigCalls := TriggerCalls(table, i, st.triggers[i].GetOr(false), trigger);
          Step(st2.(triggers := st2.triggers[i := Some(trigger)]), padCalls + trigCalls, Continue)
  }

  /** The outcome of a whole `updateControllers()` call. */
  datatype PollResult = PollResult(st: ControllersState, calls: seq<Call>, threw: bool)

  /** The loop of `updateControllers` from slot `i` on. */
  function PollFrom(st: ControllersState, table: Table, pads: GamepadList, i: nat): (r: PollResult)
    requires st.WellSized() && i <= st.Count()
    ensures r.st.WellSized() && r.st.Count() == st.Count()
    decreases st.Count() - i
  {
    if i == st.Count() then PollResult(st, [], false)
    else
      var s := SlotStep(st, table, pads, i);
      match s.outcome
      case Return => PollResult(s.st, s.calls, false)
      case Throw => PollResult(s.st, s.calls, true)
      case Continue =>
        var rest := PollFrom(s.st, table, pads, i + 1);
        PollResult(rest.st, s.calls + rest.calls, rest.threw)
  }

  lemma PollFromUnfold(st: ControllersState, table: Table, pads: GamepadList, i: nat)
    requires st.WellSized() && i < st.Count()
    ensures var s := SlotStep(st, table, pads, i);
            PollFrom(st, table, pads, i) ==
              if s.outcome == Continue then
                var rest := PollFrom(s.st, table, pads, i + 1);
                PollResult(rest.st, s.calls + rest.calls, rest.threw)
              else PollResult(s.st, s.calls, s.outcome == Throw)
  {
  }

  /** `updateControllers()`: one poll of every slot. */
  function Poll(st: ControllersState, table: Table, pads: GamepadList): PollResult
    requires st.WellSized()
  {
    PollFrom(st, table, pads, 0)
  }

  // ---------------------------------------------------------------------
  // Properties of one slot

  /** A lost controller (no gamepad, or no pose) has its four entries reset to
      `undefined`, fires nothing, and ends the whole call. */
  lemma AbsentSlotIsCleared(st: ControllersState, table: Table, pads: GamepadList, i: nat)
    requires st.WellSized() && i < st.Count()
    requires !Present(pads, i)
    ensures var r := SlotStep(st, table, pads, i);
            r.outcome == Return && r.calls == [] && r.st.At(i) == Lost
  {
  }

  /** Touchpad edges: `touch-start`/`touch-end` fire exactly when `touched`
      differs from the recorded value (an undefined record reading as false),
      `start` exactly when the new value is true, each only if a listener is
      registered; the same for `pressed`; both carry the slot and the new axes.
      Afterwards the record holds the new reading. */
  lemma TouchpadEdges(st: ControllersState, table: Table, pads: GamepadList, i: nat)
    requires st.WellSized() && i < st.Count()
    requires Present(pads, i) && TouchpadButton < |FindGamepad(pads, i).value.buttons|
    ensures var g := FindGamepad(pads, i).value;
            var b := g.buttons[TouchpadButton];
            var prev := st.touchpads[i].GetOr(Baseline);
            var r := SlotStep(st, table, pads, i);
            && (Fired(r.calls, TouchStart) <==> b.touched && !prev.touched && TouchStart in table)
            && (Fired(r.calls, TouchEnd) <==> !b.touched && prev.touched && TouchEnd in table)
            && (Fired(r.calls, PressStart) <==> b.pressed && !prev.pressed && PressStart in table)
            && (Fired(r.calls, PressEnd) <==> !b.pressed && prev.pressed && PressEnd in table)
            && (forall c :: c in r.calls && c.args.TouchpadArgs? ==>
                  c.args == TouchpadArgs(i, AxisAt(g.axes, 0), AxisAt(g.axes, 1)) &&
                  c.name in table && c.listener == table[c.name])
            && r.st.touchpads[i] == Some(Touchpad(b.touched, b.pressed, AxisAt(g.axes, 0), AxisAt(g.axes, 1)))
  {
    var g := FindGamepad(pads, i).value;
    var b := g.buttons[TouchpadButton];
    var prev := st.touchpads[i].GetOr(Baseline);
    var now := Touchpad(b.touched, b.pressed, AxisAt(g.axes, 0), AxisAt(g.axes, 1));
    var pc := TouchpadCalls(table, i, prev, now);
    TouchpadCallsEdges(table, i, prev, now);
    var r := SlotStep(st, table, pads, i);
    var tail := if r.outcome == Continue then TriggerCalls(table, i, st.triggers[i].GetOr(false),
                  g.buttons[TriggerButton(g.id)].pressed) else [];
    assert r.calls == pc + tail;
    assert forall c :: c in tail ==> c.args.TriggerArgs? && (c.name == TriggerStart || c.name == TriggerEnd);
  }

  lemma TouchpadCallsEdges(table: Table, i: nat, prev: Touchpad, now: Touchpad)
    ensures var pc := TouchpadCalls(table, i, prev, now);
            && (Fired(pc, TouchStart) <==> now.touched && !prev.touched && TouchStart in table)
            && (Fired(pc, TouchEnd) <==> !now.touched && prev.touched && TouchEnd in table)
            && (Fired(pc, PressStart) <==> now.pressed && !prev.pressed && PressStart in table)
            && (Fired(pc, PressEnd) <==> !now.pressed && prev.pressed && PressEnd in table)
            && (forall c :: c in pc ==>
                  c.args == TouchpadArgs(i, now.axes0, now.axes1) && c.name in table && c.listener == table[c.name])
  {
    var args := TouchpadArgs(i, now.axes0, now.axes1);
    var tc := if prev.touched != now.touched then Notify(table, if now.touched then TouchStart else TouchEnd, args) else [];
    var pr := if prev.pressed != now.pressed then Notify(table, if now.pressed then PressStart else PressEnd, args) else [];
    assert TouchpadCalls(table, i, prev, now) == tc + pr;
    assert forall c :: c in tc ==> c.name == TouchStart || c.name == TouchEnd;
    assert forall c :: c in pr ==> c.name == PressStart || c.name == PressEnd;
  }

  /** Trigger edges: the trigger is button 0 of a Daydream controller and
      button 1 of any other; an undefined record reads as false;
      `trigger-press-start`/`-end` fire exactly on a change (`start` exactly
      when the new value is true) with the slot as argument, and the record
      then holds the new value. */
  lemma TriggerEdges(st: ControllersState, table: Table, pads: GamepadList, i: nat)
    requires st.WellSized() && i < st.Count()
    requires ReadsCompletely(pads, i)
    ensures var g := FindGamepad(pads, i).value;
            var t := g.buttons[if g.id == "Daydream Controller" then 0 else 1].pressed;
            var prev := st.triggers[i].GetOr(false);
            var r := SlotStep(st, table, pads, i);
            && r.outcome == Continue
            && (Fired(r.calls, TriggerStart) <==> t && !prev && TriggerStart in table)
            && (Fired(r.calls, TriggerEnd) <==> !t && prev && TriggerEnd in table)
            && (forall c :: c in r.calls && c.args.TriggerArgs? ==>
                  c.args == TriggerArgs(i) && c.name in table && c.listener == table[c.name])
            && r.st.triggers[i] == Some(t)
  {
    var g := FindGamepad(pads, i).value;
    var now := Touchpad(g.buttons[0].touched, g.buttons[0].pressed, AxisAt(g.axes, 0), AxisAt(g.axes, 1));
    var pc := TouchpadCalls(table, i, st.touchpads[i].GetOr(Baseline), now);
    assert forall c :: c in pc ==> c.args.TouchpadArgs?;
  }

  /** Channels strictly increase along `calls`. */
  predicate ChannelsIncrease(calls: seq<Call>) {
    forall a, b :: 0 <= a < b < |calls| ==> Channel(calls[a].name) < Channel(calls[b].name)
  }

  /** Within one slot, the touch call comes before the press call, which
      comes before the trigger call; so each channel fires at most once. */
  lemma SlotCallsOrdered(st: ControllersState, table: Table, pads: GamepadList, i: nat)
    requires st.WellSized() && i < st.Count()
    ensures ChannelsIncrease(SlotStep(st, table, pads, i).calls)
  {
    var found := FindGamepad(pads, i);
    if found.Some? && found.value.pose.Some? && TouchpadButton < |found.value.buttons| {
      var g := found.value;
      var now := Touchpad(g.buttons[TouchpadButton].touched, g.buttons[TouchpadButton].pressed,
                          AxisAt(g.axes, 0), AxisAt(g.axes, 1));
      var pc := TouchpadCalls(table, i, st.touchpads[i].GetOr(Baseline), now);
      var gc: seq<Call> := if TriggerButton(g.id) < |g.buttons|
        then TriggerCalls(table, i, st.triggers[i].GetOr(false), g.buttons[TriggerButton(g.id)].pressed)
        else [];
      assert SlotStep(st, table, pads, i).calls == pc + gc;
      TouchpadCallsChannels(table, i, st.touchpads[i].GetOr(Baseline), now);
      AppendTriggerChannel(pc, gc);
    }
  }

  /** The touchpad diff makes at most a touch call and then a press call. */
  lemma TouchpadCallsChannels(table: Table, i: nat, prev: Touchpad, now: Touchpad)
    ensures ChannelsIncrease(TouchpadCalls(table, i, prev, now))
    ensures forall c :: c in TouchpadCalls(table, i, prev, now) ==> Channel(c.name) <= 1
  {
    var args := TouchpadArgs(i, now.axes0, now.axes1);
    var tc := if prev.touched != now.touched then Notify(table, if now.touched then TouchStart else TouchEnd, args) else [];
    var pc := if prev.pressed != now.pressed then Notify(table, if now.pressed then PressStart else PressEnd, args) else [];
    assert TouchpadCalls(table, i, prev, now) == tc + pc;
    assert forall c :: c in tc ==> Channel(c.name) == 0;
    assert forall c :: c in pc ==> Channel(c.name) == 1;
    forall a, b | 0 <= a < b < |tc + pc| ensures Channel((tc + pc)[a].name) < Channel((tc + pc)[b].name) {
      assert a < |tc| <= b;
      assert (tc + pc)[a] in tc && (tc + pc)[b] == pc[b - |tc|];
    }
  }

  /** Touch and press calls followed by at most one trigger call keep
      channels increasing. */
  lemma AppendTriggerChannel(pc: seq<Call>, gc: seq<Call>)
    requires ChannelsIncrease(pc) && forall c :: c in pc ==> Channel(c.name) <= 1
    requires |gc| <= 1 && forall c :: c in gc ==> c.name == TriggerStart || c.name == TriggerEnd
    ensures ChannelsIncrease(pc + gc)
  {
    var all := pc + gc;
    forall a, b | 0 <= a < b < |all| ensures Channel(all[a].name) < Channel(all[b].name) {
      if b < |pc| {
        assert all[a] == pc[a] && all[b] == pc[b];
      } else {
        assert a < |pc| && b == |pc|;
        assert all[a] in pc && all[b] in gc;
      }
    }
  }

  /** 0 for the touch channel, 1 for press, 2 for trigger. */
  function Channel(name: string): nat {
    if name == TouchStart || name == TouchEnd then 0
    else if name == PressStart || name == PressEnd then 1
    else 2
  }

  /** Every channel is baselined to false: a first reading of `true` on a slot
      with nothing recorded fires a start event on all three channels, in
      channel order. */
  lemma FirstTrueReadingStartsEveryChannel(st: ControllersState, table: Table, pads: GamepadList, i: nat)
    requires st.WellSized() && i < st.Count()
    requires st.touchpads[i] == None && st.triggers[i] == None
    requires ReadsCompletely(pads, i)
    requires var g := FindGamepad(pads, i).value;
             g.buttons[TouchpadButton].touched && g.buttons[TouchpadButton].pressed &&
             g.buttons[TriggerButton(g.id)].pressed
    requires TouchStart in table && PressStart in table && TriggerStart in table
    ensures var g := FindGamepad(pads, i).value;
            var args := TouchpadArgs(i, AxisAt(g.axes, 0), AxisAt(g.axes, 1));
            SlotStep(st, table, pads, i).calls ==
              [Call(table[TouchStart], TouchStart, args), Call(table[PressStart], PressStart, args),
               Call(table[TriggerStart], TriggerStart, TriggerArgs(i))]
  {
  }

  /** Processing a slot depends on nothing recorded for other slots. */
  lemma SlotStepIsLocal(a: ControllersState, b: ControllersState, table: Table, pads: GamepadList, i: nat)
    requires a.WellSized() && b.WellSized() && i < a.Count() && a.Count() == b.Count()
    requires a.At(i) == b.At(i)
    ensures SlotStep(a, table, pads, i).calls == SlotStep(b, table, pads, i).calls
    ensures SlotStep(a, table, pads, i).outcome == SlotStep(b, table, pads, i).outcome
    ensures SlotStep(a, table, pads, i).st.At(i) == SlotStep(b, table, pads, i).st.At(i)
  {
    assert a.touchpads[i] == b.touchpads[i] && a.triggers[i] == b.triggers[i];
  }

  /** Steady state: once a slot has been processed, processing it again with
      the same snapshot fires nothing and changes nothing. */
  lemma SlotStepIsSteady(st: ControllersState, table: Table, pads: GamepadList, i: nat, st': ControllersState)
    requires st.WellSized() && i < st.Count()
    requires st'.WellSized() && st'.Count() == st.Count()
    requires st'.At(i) == SlotStep(st, table, pads, i).st.At(i)
    ensures SlotStep(st', table, pads, i) == Step(st', [], SlotStep(st, table, pads, i).outcome)
  {
    var r := SlotStep(st, table, pads, i);
    assert st'.touchpads[i] == r.st.touchpads[i] && st'.triggers[i] == r.st.triggers[i];
    assert st'.poses[i] == r.st.poses[i] && st'.ids[i] == r.st.ids[i];
    var r' := SlotStep(st', table, pads, i);
    assert r'.st.touchpads == st'.touchpads;
    assert r'.st.triggers == st'.triggers;
    assert r'.st.poses == st'.poses;
    assert r'.st.ids == st'.ids;
  }

  // ---------------------------------------------------------------------
  // Properties of a whole call

  /** Slots before `i` are never touched from slot `i` on. */
  lemma {:induction false} PollFromKeepsEarlierSlots(st: ControllersState, table: Table, pads: GamepadList, i: nat)
    requires st.WellSized() && i <= st.Count()
    ensures forall j :: 0 <= j < i ==> PollFrom(st, table, pads, i).st.At(j) == st.At(j)
    decreases st.Count() - i
  {
    if i < st.Count() {
      var s := SlotStep(st, table, pads, i);
      if s.outcome == Continue {
        PollFromKeepsEarlierSlots(s.st, table, pads, i + 1);
      }
    }
  }

  /** Polling the same snapshot twice in a row: the second call fires no
      listener, leaves the state as the first left it, and ends the same way. */
  lemma {:induction false} RepollIsSilent(st: ControllersState, table: Table, pads: GamepadList, i: nat)
    requires st.WellSized() && i <= st.Count()
    ensures var r := PollFrom(st, table, pads, i);
            PollFrom(r.st, table, pads, i) == PollResult(r.st, [], r.threw)
    decreases st.Count() - i
  {
    if i < st.Count() {
      var s := SlotStep(st, table, pads, i);
      var r := PollFrom(st, table, pads, i);
      if s.outcome == Continue {
        PollFromKeepsEarlierSlots(s.st, table, pads, i + 1);
        assert r.st.At(i) == s.st.At(i);
        SlotStepIsSteady(st, table, pads, i, r.st);
        RepollIsSilent(s.st, table, pads, i + 1);
      } else {
        SlotStepIsSteady(st, table, pads, i, r.st);
      }
    }
  }

  /** The slot a call of the poll is about. */
  function CallSlot(c: Call): nat {
    match c.args
    case TouchpadArgs(s, _, _) => s
    case TriggerArgs(s) => s
    case MouseArgs(_, _) => 0
  }

  /** Every call is a touchpad or trigger call about a slot in [lo, hi), and
      the calls are in slot order. */
  predicate SlotOrdered(calls: seq<Call>, lo: nat, hi: nat) {
    && (forall c :: c in calls ==> !c.args.MouseArgs? && lo <= CallSlot(c) < hi)
    && (forall a, b :: 0 <= a < b < |calls| ==> CallSlot(calls[a]) <= CallSlot(calls[b]))
  }

  /** Calls are made in slot order, each about a slot from `i` to the last
      one, and only with touchpad or trigger arguments. */
  lemma {:induction false} PollCallsInSlotOrder(st: ControllersState, table: Table, pads: GamepadList, i: nat)
    requires st.WellSized() && i <= st.Count()
    ensures SlotOrdered(PollFrom(st, table, pads, i).calls, i, st.Count())
    decreases st.Count() - i
  {
    if i < st.Count() {
      var s := SlotStep(st, table, pads, i);
      PollFromUnfold(st, table, pads, i);
      assert forall c :: c in s.calls ==> !c.args.MouseArgs? && CallSlot(c) == i;
      if s.outcome == Continue {
        PollCallsInSlotOrder(s.st, table, pads, i + 1);
        SlotOrderedAppend(s.calls, PollFrom(s.st, table, pads, i + 1).calls, i, st.Count());
      } else {
        SlotOrderedAppend(s.calls, [], i, st.Count());
        assert s.calls + [] == s.calls;
      }
    }
  }

  /** A slot step only lets the poll go on when the slot read completely. */
  lemma ContinueMeansReadCompletely(st: ControllersState, table: Table, pads: GamepadList, i: nat)
    requires st.WellSized() && i < st.Count()
    ensures SlotStep(st, table, pads, i).outcome == Continue ==> ReadsCompletely(pads, i)
  {
  }

  /** Every call in `calls` about slot k comes after slots `lo` to k - 1 were
      all read completely. */
  predicate CallsAfterCompleteReads(calls: seq<Call>, pads: GamepadList, lo: nat) {
    forall c :: c in calls ==> forall j :: lo <= j < CallSlot(c) ==> ReadsCompletely(pads, j)
  }

  /** Calls are only made for slots the poll reached: every slot before the
      slot of a call was read completely, so the poll neither returned nor
      threw there. */
  lemma {:induction false} PollCallsOnlyReachedSlots(st: ControllersState, table: Table, pads: GamepadList, i: nat)
    requires st.WellSized() && i <= st.Count()
    ensures forall c :: c in PollFrom(st, table, pads, i).calls ==>
              forall j :: i <= j < CallSlot(c) ==> ReadsCompletely(pads, j)
    decreases st.Count() - i
  {
    if i < st.Count() {
      var s := SlotStep(st, table, pads, i);
      PollFromUnfold(st, table, pads, i);
      assert forall c :: c in s.calls ==> CallSlot(c) == i;
      if s.outcome == Continue {
        ContinueMeansReadCompletely(st, table, pads, i);
        PollCallsOnlyReachedSlots(s.st, table, pads, i + 1);
        CallsAfterCompleteReadsAppend(s.calls, PollFrom(s.st, table, pads, i + 1).calls, pads, i);
      }
    }
  }

  /** Calls about slot `i`, after a complete read of slot `i`, followed by
      calls made after complete reads from slot `i + 1` on. */
  lemma CallsAfterCompleteReadsAppend(x: seq<Call>, y: seq<Call>, pads: GamepadList, i: nat)
    requires forall c :: c in x ==> CallSlot(c) == i
    requires ReadsCompletely(pads, i)
    requires CallsAfterCompleteReads(y, pads, i + 1)
    ensures CallsAfterCompleteReads(x + y, pads, i)
  {
    forall c | c in x + y ensures forall j :: i <= j < CallSlot(c) ==> ReadsCompletely(pads, j) {
      if c !in x {
        assert c in y;
      }
    }
  }

  /** A block of calls about slot `i` followed by slot-ordered calls about
      later slots is slot-ordered. */
  lemma SlotOrderedAppend(x: seq<Call>, y: seq<Call>, i: nat, hi: nat)
    requires i < hi
    requires forall c :: c in x ==> !c.args.MouseArgs? && CallSlot(c) == i
    requires SlotOrdered(y, i + 1, hi)
    ensures SlotOrdered(x + y, i, hi)
  {
    var all := x + y;
    forall c | c in all ensures !c.args.MouseArgs? && i <= CallSlot(c) < hi {
      if c in x {
      } else {
        assert c in y;
      }
    }
    forall a, b | 0 <= a < b < |all| ensures CallSlot(all[a]) <= CallSlot(all[b]) {
      if b < |x| {
        assert all[a] == x[a] && all[b] == x[b];
        assert x[a] in x && x[b] in x;
      } else if a < |x| {
        assert all[a] == x[a] && all[b] == y[b - |x|];
        assert x[a] in x && y[b - |x|] in y;
      } else {
        assert all[a] == y[a - |x|] && all[b] == y[b - |x|];
      }
    }
  }

  /** An absent slot `k` ends the call: if every slot before it reads
      completely, the call fires only for slots before `k`, clears slot `k`,
      throws nothing, and leaves every slot after `k` as it was. */
  lemma {:induction false} PollStopsAtAbsentSlot(st: ControllersState, table: Table, pads: GamepadList, i: nat, k: nat)
    requires st.WellSized() && i <= k < st.Count()
    requires forall j :: i <= j < k ==> ReadsCompletely(pads, j)
    requires !Present(pads, k)
    ensures var r := PollFrom(st, table, pads, i);
            && !r.threw
            && r.st.At(k) == Lost
            && (forall j :: k < j < st.Count() ==> r.st.At(j) == st.At(j))
            && (forall c :: c in r.calls ==> CallSlot(c) < k)
    decreases k - i
  {
    var s := SlotStep(st, table, pads, i);
    if i < k {
      TriggerEdges(st, table, pads, i);
      PollStopsAtAbsentSlot(s.st, table, pads, i + 1, k);
    }
  }

  // ---------------------------------------------------------------------
  // The helper object

  /** `VRControlHelper`: the recorded controller state and the listener table
      that `Threelet.on` fills with the `vr-` names. */
  class VRControlHelper {
    /** `this.controllers.length` */
    const controllerCount: nat
    var touchpads: seq<Option<Touchpad>>
    var triggers: seq<Option<bool>>
    var poses: seq<Option<Pose>>
    var ids: seq<Option<string>>
    /** `this._eventListeners` */
    var listeners: Table
    /** Every listener invocation made so far, oldest first. */
    var log: seq<Call>

    ghost predicate Valid()
      reads this
    {
      |touchpads| == controllerCount && |triggers| == controllerCount &&
      |poses| == controllerCount && |ids| == controllerCount
    }

    /** `this.controllersState` as a value. */
    function State(): (st: ControllersState)
      reads this
      ensures Valid() ==> st.WellSized() && st.Count() == controllerCount
    {
      ControllersState(touchpads, triggers, poses, ids)
    }

    /** The helper creates two controllers and starts with nothing recorded
        and no listener. */
    constructor ()
      ensures Valid() && controllerCount == 2
      ensures State() == Initial(2) && listeners == map[] && log == []
    {
      controllerCount := 2;
      touchpads, triggers, poses, ids := [None, None], [None, None], [None, None], [None, None];
      listeners := map[];
      log := [];
    }

    /** `const func = this._eventListeners[name]; if (func) func(...args)` */
    method Dispatch(name: string, args: Args)
      modifies this`log
      ensures log == old(log) + Notify(listeners, name, args)
    {
      if name in listeners {
        log := log + [Call(listeners[name], name, args)];
      }
    }

    /** Lines 245-273 for slot `i`: baseline an undefined record, fire the
        touch and press edges, then record the new reading. */
    method UpdateTouchpad(i: nat, now: Touchpad)
      requires Valid() && i < controllerCount
      modifies this`touchpads, this`log
      ensures Valid() && touchpads == old(touchpads)[i := Some(now)]
      ensures log == old(log) + TouchpadCalls(listeners, i, old(touchpads[i]).GetOr(Baseline), now)
    {
      if touchpads[i].None? {
        touchpads := touchpads[i := Some(Baseline)];
      }
      var touchpad := touchpads[i].value;
      if touchpad.touched != now.touched {
        Dispatch(if now.touched then TouchStart else TouchEnd, TouchpadArgs(i, now.axes0, now.axes1));
      }
      if touchpad.pressed != now.pressed {
        Dispatch(if now.pressed then PressStart else PressEnd, TouchpadArgs(i, now.axes0, now.axes1));
      }
      // both edges reported: overwrite the slot's record with this reading
      touchpads := touchpads[i := Some(now)];
    }

    /** Lines 278-286 for slot `i`: an undefined trigger reads as false; on a
        change the new value is stored, then the listener is called. */
    method UpdateTrigger(i: nat, trigger: bool)
      requires Valid() && i < controllerCount
      modifies this`triggers, this`log
      ensures Valid() && triggers == old(triggers)[i := Some(trigger)]
      ensures log == old(log) + TriggerCalls(listeners, i, old(triggers[i]).GetOr(false), trigger)
    {
      if triggers[i].None? {
        triggers := triggers[i := Some(false)];
      }
      if triggers[i] != Some(trigger) {
        triggers := triggers[i := Some(trigger)];
        Dispatch(if triggers[i].value then TriggerStart else TriggerEnd, TriggerArgs(i));
      }
    }

    /** The body of the loop of `updateControllers` for slot `i`. */
    method UpdateSlot(pads: GamepadList, i: nat) returns (outcome: Outcome)
      requires Valid() && i < controllerCount
      modifies this`touchpads, this`triggers, this`poses, this`ids, this`log
      ensures Valid()
      ensures var s := SlotStep(old(State()), listeners, pads, i);
              State() == s.st && log == old(log) + s.calls && outcome == s.outcome
    {
      var gamepad := FindGamepad(pads, i);
      if gamepad.None? || gamepad.value.pose.None? {
        // no gamepad or no pose: forget everything about the slot and stop
        triggers := triggers[i := None];
        touchpads := touchpads[i := None];
        poses := poses[i := None];
        ids := ids[i := None];
        return Return;
      }
      var g := gamepad.value;
      var buttonId := TriggerButton(g.id);
      poses := poses[i := g.pose];
      ids := ids[i := Some(g.id)];
      if TouchpadButton >= |g.buttons| {
        return Throw;
      }
      UpdateTouchpad(i, Touchpad(g.buttons[TouchpadButton].touched, g.buttons[TouchpadButton].pressed,
                                 AxisAt(g.axes, 0), AxisAt(g.axes, 1)));
      if buttonId >= |g.buttons| {
        return Throw;
      }
      UpdateTrigger(i, g.buttons[buttonId].pressed);
      outcome := Continue;
    }

    /** `updateControllers()` on the snapshot `pads`; `threw` is set when a
        missing button makes the JavaScript throw a TypeError. */
    method UpdateControllers(pads: GamepadList) returns (threw: bool)
      requires Valid()
      modifies this
      ensures Valid() && listeners == old(listeners)
      ensures var r := Poll(old(State()), old(listeners), pads);
              State() == r.st && log == old(log) + r.calls && threw == r.threw
    {
      ghost var done: seq<Call> := [];
      var i := 0;
      while i < controllerCount
        invariant 0 <= i <= controllerCount
        invariant Valid() && listeners == old(listeners) && log == old(log) + done
        invariant var r := PollFrom(State(), listeners, pads, i);
                  Poll(old(State()), listeners, pads) == PollResult(r.st, done + r.calls, r.threw)
      {
        ghost var before := State();
        ghost var s := SlotStep(before, listeners, pads, i);
        PollFromUnfold(before, listeners, pads, i);
        ghost var doneBefore := done;
        ghost var logBefore := log;
        var outcome := UpdateSlot(pads, i);
        assert log == logBefore + s.calls;
        done := done + s.calls;
        AppendAssoc(old(log), doneBefore, s.calls);
        if outcome != Continue {
          return outcome == Throw;
        }
        ghost var rest := PollFrom(State(), listeners, pads, i + 1);
        AppendAssoc(doneBefore, s.calls, rest.calls);
        i := i + 1;
      }
      assert done + [] == done;
      threw := false;
    }
  }
}
