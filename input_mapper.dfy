/** `InputMap`: named actions bound to a keyboard key, a mouse button or a
    gamepad button, read from the device state captured by the last
    `Update`, with a per-action latch that turns a held button into a single
    hit. The device state is a snapshot given as data. */
module InputMapper {
  import opened Wrappers
  import opened Xna

  datatype MouseButton = LeftButton | RightButton | MiddleButton

  /** The gamepad buttons the mapper treats specially, and every other
      button by its code. */
  datatype PadButton = LeftThumbstickLeft | LeftThumbstickRight | LeftThumbstickDown | LeftThumbstickUp | OtherButton(code: int)

  datatype InputType = KeyboardMouse | GamePad

  /** What `Keyboard.GetState`, `Mouse.GetState` and `GamePad.GetState`
      returned: the keys (by key code) and buttons held down, and the
      position of the left thumbstick. */
  datatype Snapshot = Snapshot(keysDown: set<int>, mouseDown: set<MouseButton>, padDown: set<PadButton>, leftStick: Vec)

  /** `InputAction`: the bindings, each possibly null, and the `Hit` latch. */
  datatype InputAction = InputAction(key: Option<int>, mouseButton: Option<MouseButton>, button: Option<PadButton>, hit: bool)

  /** The `InputAction(key, mouseButton, button)` constructor: the latch
      starts clear. */
  function NewAction(key: Option<int>, mouseButton: Option<MouseButton>, button: Option<PadButton>): (a: InputAction)
    ensures !a.hit && a.key == key && a.mouseButton == mouseButton && a.button == button
  {
    InputAction(key, mouseButton, button, false)
  }

  const LeftValue: real := -0.5
  const RightValue: real := 0.5
  const DownValue: real := -0.5
  const UpValue: real := 0.5

  /** `Press` for the keyboard and mouse: the key's state when a key is
      bound, overridden by the mouse button's state when one is bound, and
      false when neither is. */
  function KeyboardPress(a: InputAction, s: Snapshot): bool {
    var byKey := a.key.Some? && a.key.value in s.keysDown;
    if a.mouseButton.Some? then a.mouseButton.value in s.mouseDown else byKey
  }

  /** `Release` for the keyboard and mouse, with key-up and button-released
      in place of key-down and button-pressed. */
  function KeyboardRelease(a: InputAction, s: Snapshot): bool {
    var byKey := a.key.Some? && a.key.value !in s.keysDown;
    if a.mouseButton.Some? then a.mouseButton.value !in s.mouseDown else byKey
  }

  /** `Press` for the gamepad: a thumbstick direction also needs the stick
      past half its travel; a null button fails at `Button.Value`. */
  function PadPress(a: InputAction, s: Snapshot): Result<bool> {
    if a.button.None? then Err(InvalidOperation)
    else
      var b := a.button.value;
      var down := b in s.padDown;
      Ok(match b
        case LeftThumbstickLeft => s.leftStick.x <= LeftValue && down
        case LeftThumbstickRight => s.leftStick.x >= RightValue && down
        case LeftThumbstickDown => s.leftStick.y <= DownValue && down
        case LeftThumbstickUp => s.leftStick.y >= UpValue && down
        case OtherButton(_) => down)
  }

  /** `Release` for the gamepad: button-up, with no thumbstick test. */
  function PadRelease(a: InputAction, s: Snapshot): Result<bool> {
    if a.button.None? then Err(InvalidOperation) else Ok(a.button.value !in s.padDown)
  }

  /** One `Hit` on a latch: the action counts as hit when it is pressed and
      the latch was clear; the latch then records whether it is pressed. */
  function HitStep(latch: bool, pressed: bool): (bool, bool) {
    if pressed && !latch then (true, true)
    else if pressed && latch then (false, latch)
    else if !pressed && latch then (false, false)
    else (false, latch)
  }

  /** `HitStep` is a rising-edge detector: the new latch is the press state
      and the result is "pressed now, not pressed before". */
  lemma HitStepIsRisingEdge(latch: bool, pressed: bool)
    ensures HitStep(latch, pressed) == (pressed && !latch, pressed)
  {
  }

  /** The results of `Hit` called once per frame over a run of press
      states. */
  function Hits(latch: bool, presses: seq<bool>): (r: seq<bool>)
    ensures |r| == |presses|
    decreases |presses|
  {
    if presses == [] then []
    else
      var (hit, latch') := HitStep(latch, presses[0]);
      [hit] + Hits(latch', presses[1..])
  }

  /** Over a run of frames, `Hit` is true exactly on the frames where the
      action is pressed and was not pressed on the frame before. */
  lemma {:induction false} HitsAreRisingEdges(latch: bool, presses: seq<bool>)
    ensures forall i :: 0 <= i < |presses| ==>
      Hits(latch, presses)[i] == (presses[i] && !(if i == 0 then latch else presses[i - 1]))
    decreases |presses|
  {
    if presses != [] {
      HitsAreRisingEdges(presses[0], presses[1..]);
      HitStepIsRisingEdge(latch, presses[0]);
      var r := Hits(latch, presses);
      assert r == [presses[0] && !latch] + Hits(presses[0], presses[1..]);
      assert r[0] == (presses[0] && !latch);
      forall i | 0 < i < |presses|
        ensures r[i] == (presses[i] && !presses[i - 1])
      {
        assert r[i] == Hits(presses[0], presses[1..])[i - 1];
        assert presses[1..][i - 1] == presses[i];
        if i > 1 {
          assert presses[1..][i - 2] == presses[i - 1];
        }
      }
      forall i | 0 <= i < |presses|
        ensures r[i] == (presses[i] && !(if i == 0 then latch else presses[i - 1]))
      {
      }
    }
  }

  /** While an action stays held, `Hit` is true on the first frame only. */
  lemma HeldHitsOnce(n: nat)
    requires n >= 1
    ensures Hits(false, seq(n, _ => true)) == [true] + seq(n - 1, _ => false)
  {
    var presses := seq(n, _ => true);
    HitsAreRisingEdges(false, presses);
    var r := Hits(false, presses);
    var e := [true] + seq(n - 1, _ => false);
    forall i | 0 <= i < n ensures r[i] == e[i] {
      if i > 0 {
        assert presses[i] && presses[i - 1];
      }
    }
  }

  /** On the keyboard and mouse `Release` is the negation of `Press`
      whenever the action has a key or a mouse button; with neither, both
      are false. */
  lemma KeyboardReleaseMirrorsPress(a: InputAction, s: Snapshot)
    ensures a.key.Some? || a.mouseButton.Some? ==> KeyboardRelease(a, s) == !KeyboardPress(a, s)
    ensures a.key.None? && a.mouseButton.None? ==> !KeyboardRelease(a, s) && !KeyboardPress(a, s)
  {
  }

  /** On the gamepad `Release` is the negation of `Press` for every button
      but the thumbstick directions, which `Press` also tests against the
      stick position. */
  lemma PadReleaseMirrorsPress(a: InputAction, s: Snapshot)
    requires a.button.Some? && a.button.value.OtherButton?
    ensures PadPress(a, s).Ok? && PadRelease(a, s).Ok?
    ensures PadRelease(a, s).value == !PadPress(a, s).value
  {
  }

  /** A held thumbstick direction whose stick sits near the centre is
      neither pressed nor released. */
  lemma ThumbstickNeitherPressedNorReleased(a: InputAction, s: Snapshot)
    requires a.button == Some(LeftThumbstickLeft)
    requires LeftThumbstickLeft in s.padDown && s.leftStick.x > LeftValue
    ensures PadPress(a, s) == Ok(false) && PadRelease(a, s) == Ok(false)
  {
  }

  class InputMap {
    var enabled: bool
    var actions: map<string, InputAction>
    var selectedDevice: InputType
    var state: Snapshot

    constructor (selectedDevice: InputType, initial: Snapshot)
      ensures this.selectedDevice == selectedDevice && enabled && actions == map[] && state == initial
    {
      this.selectedDevice := selectedDevice;
      actions := map[];
      enabled := true;
      state := initial;
    }

    /** `Update`: when enabled, captures the device state. */
    method Update(devices: Snapshot)
      modifies this
      ensures actions == old(actions) && enabled == old(enabled) && selectedDevice == old(selectedDevice)
      ensures state == if enabled then devices else old(state)
    {
      if enabled {
        state := devices;
      }
    }

    /** `Press(action)`: an unknown action fails at the `Actions[action]`
        lookup. */
    function Press(action: string): (r: Result<bool>)
      reads this
      ensures action !in actions ==> r == Err(KeyNotFound)
      ensures action in actions && selectedDevice == KeyboardMouse ==> r == Ok(KeyboardPress(actions[action], state))
      ensures action in actions && selectedDevice == GamePad ==> r == PadPress(actions[action], state)
    {
      if action !in actions then Err(KeyNotFound)
      else match selectedDevice
        case KeyboardMouse => Ok(KeyboardPress(actions[action], state))
        case GamePad => PadPress(actions[action], state)
    }

    /** `Release(action)`. */
    function Release(action: string): (r: Result<bool>)
      reads this
      ensures action !in actions ==> r == Err(KeyNotFound)
      ensures action in actions && selectedDevice == KeyboardMouse ==> r == Ok(KeyboardRelease(actions[action], state))
      ensures action in actions && selectedDevice == GamePad ==> r == PadRelease(actions[action], state)
    {
      if action !in actions then Err(KeyNotFound)
      else match selectedDevice
        case KeyboardMouse => Ok(KeyboardRelease(actions[action], state))
        case GamePad => PadRelease(actions[action], state)
    }

    /** `Hit(action)`: true on the frame the action becomes pressed; the
        latch of that action, and nothing else, is updated to the press
        state. */
    method Hit(action: string) returns (r: Result<bool>)
      modifies this
      ensures enabled == old(enabled) && selectedDevice == old(selectedDevice) && state == old(state)
      ensures old(Press(action)).Err? ==> r == old(Press(action)) && actions == old(actions)
      ensures old(Press(action)).Ok? ==>
        && r == Ok(old(Press(action)).value && !old(actions[action].hit))
        && actions == old(actions)[action := old(actions[action]).(hit := old(Press(action)).value)]
    {
      var p := Press(action);
      if p.Err? {
        return p;
      }
      var a := actions[action];
      var (hit, latch) := HitStep(a.hit, p.value);
      actions := actions[action := a.(hit := latch)];
      r := Ok(hit);
    }
  }
}
