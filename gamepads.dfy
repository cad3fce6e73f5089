/** The snapshot returned by `navigator.getGamepads()` and the lookup
    `VRControlHelper._findGamepad` (src/index.js:182-194). */
module Gamepads {
  import opened Common

  /** `gamepad.buttons[k]`: a GamepadButton. */
  datatype Button = Button(touched: bool, pressed: bool)

  /** `gamepad.pose`: only copied into the controller state, never computed on. */
  datatype Pose = Pose(position: seq<real>, orientation: seq<real>)

  /** One entry of the Gamepad API's list; `pose` is `undefined`/`null` when the
      device reports none. */
  datatype Gamepad = Gamepad(id: string, pose: Option<Pose>, buttons: seq<Button>, axes: seq<real>)

  /** The list `navigator.getGamepads()` returns; disconnected entries are `null`. */
  type GamepadList = seq<Option<Gamepad>>

  /** The ids `_findGamepad` accepts: four exact names and two prefixes. */
  predicate IsSupported(id: string) {
    || id == "Daydream Controller"
    || id == "Gear VR Controller"
    || id == "Oculus Go Controller"
    || id == "OpenVR Gamepad"
    || StartsWith(id, "Oculus Touch")
    || StartsWith(id, "Spatial Controller")
  }

  /** Entry `g` counts for `_findGamepad`: non-null and of a supported device. */
  predicate Counts(g: Option<Gamepad>) {
    g.Some? && IsSupported(g.value.id)
  }

  /** Reference definition: the supported, present gamepads, in list order. */
  function SupportedGamepads(pads: GamepadList): (r: seq<Gamepad>)
    ensures |r| <= |pads|
    ensures forall g :: g in r ==> IsSupported(g.id)
  {
    if pads == [] then []
    else (if Counts(pads[0]) then [pads[0].value] else []) + SupportedGamepads(pads[1..])
  }

  /** The loop of `_findGamepad` from index `i` with `j` supported gamepads
      already skipped: return the first supported one when `j === id`,
      otherwise count it and go on; `undefined` when the list runs out. */
  function FindFrom(pads: GamepadList, id: nat, i: nat, j: nat): Option<Gamepad>
    requires i <= |pads|
    decreases |pads| - i
  {
    if i == |pads| then None
    else if Counts(pads[i]) then
      if j == id then pads[i] else FindFrom(pads, id, i + 1, j + 1)
    else FindFrom(pads, id, i + 1, j)
  }

  /** `VRControlHelper._findGamepad(id)` over the snapshot `pads`. */
  function FindGamepad(pads: GamepadList, id: nat): Option<Gamepad> {
    FindFrom(pads, id, 0, 0)
  }

  lemma {:induction false} FindFromSupported(pads: GamepadList, id: nat, i: nat, j: nat)
    requires i <= |pads| && j <= id
    ensures var s := SupportedGamepads(pads[i..]);
            FindFrom(pads, id, i, j) == if id - j < |s| then Some(s[id - j]) else None
    decreases |pads| - i
  {
    if i < |pads| {
      assert pads[i..][1..] == pads[i + 1..];
      if Counts(pads[i]) {
        if j != id {
          FindFromSupported(pads, id, i + 1, j + 1);
        }
      } else {
        FindFromSupported(pads, id, i + 1, j);
      }
    }
  }

  /** `_findGamepad(id)` is the id-th (0-based) present gamepad whose id is
      supported, and `undefined` when there are not that many. */
  lemma FindGamepadIsNthSupported(pads: GamepadList, id: nat)
    ensures var s := SupportedGamepads(pads);
            FindGamepad(pads, id) == if id < |s| then Some(s[id]) else None
  {
    assert pads[0..] == pads;
    FindFromSupported(pads, id, 0, 0);
  }

  /** Whatever `_findGamepad` returns is a present, supported entry of the list. */
  lemma FindGamepadResult(pads: GamepadList, id: nat)
    ensures FindGamepad(pads, id).Some? ==>
              Some(FindGamepad(pads, id).value) in pads && IsSupported(FindGamepad(pads, id).value.id)
  {
    FindGamepadIsNthSupported(pads, id);
    var s := SupportedGamepads(pads);
    if id < |s| {
      SupportedAreListed(pads, s[id]);
    }
  }

  lemma {:induction false} SupportedAreListed(pads: GamepadList, g: Gamepad)
    requires g in SupportedGamepads(pads)
    ensures Some(g) in pads
  {
    if pads != [] {
      if !(Counts(pads[0]) && g == pads[0].value) {
        SupportedAreListed(pads[1..], g);
      }
    }
  }
}
