/** The game's state machine: named states (a menu, a level, ...), one of
    which is current. Changing state tears the old one down (its
    `Terminate` hook, the scene of the `Manager` cleared, the content
    unloaded) before the new one is initialized.

    The `Initialize`, `Update`, `Draw` and `Terminate` hooks of a state are
    virtual methods the game overrides; here each call of one is recorded,
    in order, in the machine's `calls`, together with the two framework
    calls `ChangeState` makes. */
module StateMachines {
  import opened Wrappers
  import opened Sorting
  import opened Scene

  /** A call the machine makes: a hook of the named state, or a framework
      call (`Manager.Scene.Clear()`, `Manager.UnloadContent()`). */
  datatype Call =
    | TerminateHook(state: string)
    | InitializeHook(state: string)
    | UpdateHook(state: string)
    | DrawHook(state: string)
    | ClearScene
    | UnloadContent

  /** What `ChangeState` does: the calls it makes, the current state it
      leaves and how it ends. */
  datatype Change = Change(calls: seq<Call>, current: string, outcome: Outcome)

  /** `ChangeState(s)` from `current`, with the names `registered`. The old
      state is looked up first (a missing one throws before anything
      happens); the current name is set to `s` before `s` is looked up. */
  function ChangeOf(current: string, registered: set<string>, s: string): Change {
    if current != "" && current !in registered then Change([], current, Fail(KeyNotFound))
    else
      var teardown := if current != "" then [TerminateHook(current), ClearScene, UnloadContent] else [];
      if s !in registered then Change(teardown, s, Fail(KeyNotFound))
      else Change(teardown + [InitializeHook(s)], s, Pass)
  }

  /** The order in which `ChangeState` makes its calls. */
  function Phase(c: Call): nat {
    match c
    case TerminateHook(_) => 0
    case ClearScene => 1
    case UnloadContent => 2
    case InitializeHook(_) => 3
    case UpdateHook(_) => 4
    case DrawHook(_) => 4
  }

  predicate Teardown(c: Call) {
    c.TerminateHook? || c == ClearScene || c == UnloadContent
  }

  /** `ChangeState` makes each of its calls at most once, the old state's
      `Terminate`, then the scene clear, then the content unload, and only
      then the new state's `Initialize`; it never runs `Update` or
      `Draw`. */
  lemma ChangeInOrder(current: string, registered: set<string>, s: string)
    ensures forall i, j :: 0 <= i < j < |ChangeOf(current, registered, s).calls| ==>
      Phase(ChangeOf(current, registered, s).calls[i]) < Phase(ChangeOf(current, registered, s).calls[j])
    ensures forall c :: c in ChangeOf(current, registered, s).calls ==> Phase(c) < 4
  {
  }

  /** The teardown happens exactly when there is a current state that is
      registered, and it is the current state that is terminated. */
  lemma ChangeTeardown(current: string, registered: set<string>, s: string)
    ensures (exists c :: c in ChangeOf(current, registered, s).calls && Teardown(c)) <==>
      current != "" && current in registered
    ensures forall c :: c in ChangeOf(current, registered, s).calls && c.TerminateHook? ==> c.state == current
  {
    var ch := ChangeOf(current, registered, s);
    if current != "" && current in registered {
      assert ch.calls[0] == TerminateHook(current) && ch.calls[0] in ch.calls;
      assert Teardown(ch.calls[0]);
    } else {
      forall c | c in ch.calls ensures !Teardown(c) {
      }
    }
  }

  /** `ChangeState` succeeds exactly when the old state (if any) and the new
      one are registered; then `s` is current and initialized last. When
      only `s` is missing, it still becomes the current name. */
  lemma ChangeOutcome(current: string, registered: set<string>, s: string)
    ensures ChangeOf(current, registered, s).outcome == Pass <==>
      (current == "" || current in registered) && s in registered
    ensures ChangeOf(current, registered, s).outcome == Pass ==>
      ChangeOf(current, registered, s).current == s &&
      ChangeOf(current, registered, s).calls[|ChangeOf(current, registered, s).calls| - 1] == InitializeHook(s)
    ensures (current == "" || current in registered) && s !in registered ==>
      ChangeOf(current, registered, s).current == s &&
      ChangeOf(current, registered, s).outcome == Fail(KeyNotFound) &&
      forall c :: c in ChangeOf(current, registered, s).calls ==> !c.InitializeHook?
    ensures current != "" && current !in registered ==>
      ChangeOf(current, registered, s) == Change([], current, Fail(KeyNotFound))
  {
  }

  /** Re-entering the current state terminates it and then initializes it
      again. */
  lemma ReenterRestarts(s: string, registered: set<string>)
    requires s != "" && s in registered
    ensures TerminateHook(s) in ChangeOf(s, registered, s).calls
    ensures ChangeOf(s, registered, s).calls[|ChangeOf(s, registered, s).calls| - 1] == InitializeHook(s)
    ensures ChangeOf(s, registered, s).outcome == Pass
  {
    assert ChangeOf(s, registered, s).calls[0] == TerminateHook(s);
  }

  /** The `Terminate` calls `Dispose` makes, one per registered name in the
      order the dictionary enumerates its values. */
  function TerminateAll(names: seq<string>): (r: seq<Call>)
    ensures |r| == |names|
  {
    seq(|names|, i requires 0 <= i < |names| => TerminateHook(names[i]))
  }

  /** `Dispose` terminates every registered state exactly once, and makes
      no other call. */
  lemma DisposeTerminatesEach(names: seq<string>)
    requires Distinct(names)
    ensures forall n :: multiset(TerminateAll(names))[TerminateHook(n)] == if n in names then 1 else 0
    ensures forall c :: c in TerminateAll(names) ==> c.TerminateHook? && c.state in names
  {
    var r := TerminateAll(names);
    forall n ensures multiset(r)[TerminateHook(n)] == if n in names then 1 else 0 {
      TerminatesCount(names, n);
    }
  }

  lemma {:induction false} TerminatesCount(names: seq<string>, n: string)
    requires Distinct(names)
    ensures multiset(TerminateAll(names))[TerminateHook(n)] == if n in names then 1 else 0
  {
    if names != [] {
      var t := names[1..];
      assert Distinct(t);
      TerminatesCount(t, n);
      assert TerminateAll(names) == [TerminateHook(names[0])] + TerminateAll(t);
      assert names == [names[0]] + t;
    }
  }

  /** A state: the game's code for one part of it, and whether the machine
      has initialized it. */
  class StateComponent {
    var initialized: bool

    constructor ()
      ensures !initialized
    {
      initialized := false;
    }
  }

  /** `StateMachine`: the table of states, the current state's name
      (`CurrerntState`) and the calls made so far. The table is
      `States`; `order` is the order in which the dictionary, which only
      grows, enumerates it. */
  class StateMachine {
    var states: map<string, StateComponent>
    var order: seq<string>
    var current: string
    var calls: seq<Call>
    /** `Manager.Scene`. */
    const scene: Stage

    ghost predicate Valid()
      reads this
    {
      Distinct(order) && forall n :: n in states <==> n in order
    }

    constructor (scene: Stage)
      ensures Valid() && states == map[] && order == [] && current == "" && calls == []
      ensures this.scene == scene
    {
      states := map[];
      order := [];
      current := "";
      calls := [];
      this.scene := scene;
    }

    /** `States.Add(name, c)`: fails on a name already registered. */
    method Register(name: string, c: StateComponent) returns (o: Outcome)
      requires Valid()
      modifies this
      ensures Valid() && current == old(current) && calls == old(calls)
      ensures name in old(states) ==> o == Fail(DuplicateKey) && states == old(states) && order == old(order)
      ensures name !in old(states) ==>
        o == Pass && states == old(states)[name := c] && order == old(order) + [name]
    {
      if name in states {
        return Fail(DuplicateKey);
      }
      states := states[name := c];
      order := order + [name];
      o := Pass;
    }

    /** `ChangeState(s)`. */
    method ChangeState(s: string) returns (o: Outcome)
      requires Valid() && scene.Valid()
      modifies this, states.Values, scene, scene.nodes
      ensures Valid() && states == old(states) && order == old(order)
      ensures calls == old(calls) + ChangeOf(old(current), old(states).Keys, s).calls
      ensures current == ChangeOf(old(current), old(states).Keys, s).current
      ensures o == ChangeOf(old(current), old(states).Keys, s).outcome
      ensures o == Pass ==> states[s].initialized
      ensures old(current) != "" && old(current) in states && !(o == Pass && states[s] == states[old(current)]) ==>
        !states[old(current)].initialized
      ensures forall c :: c in states.Values && c != old(Lookup(current)) && c != Lookup(s) ==>
        c.initialized == old(c.initialized)
      ensures old(current) != "" && old(current) in states ==> scene.nodes == [] && scene.Valid()
      ensures old(current) != "" && old(current) in states ==>
        forall k :: 0 <= k < |old(scene.nodes)| ==> old(scene.nodes)[k].State() == Terminated(old(scene.States())[k])
      ensures scene.killed == old(scene.killed) && scene.enabled == old(scene.enabled) && scene.visible == old(scene.visible)
      ensures !(old(current) != "" && old(current) in states) ==> unchanged(scene) && unchanged(old(scene.nodes))
    {
      if current != "" {
        if current !in states {
          return Fail(KeyNotFound);
        }
        TearDown();
      }
      current := s;
      if s !in states {
        return Fail(KeyNotFound);
      }
      calls := calls + [InitializeHook(s)];
      states[s].initialized := true;
      o := Pass;
    }

    /** The first half of `ChangeState`: the current state's `Terminate`,
        its flag cleared, the scene cleared and the content unloaded. */
    method TearDown()
      requires current in states && scene.Valid()
      modifies this`calls, states[current], scene, scene.nodes
      ensures calls == old(calls) + [TerminateHook(current), ClearScene, UnloadContent]
      ensures !states[current].initialized && scene.Valid() && scene.nodes == []
      ensures forall k :: 0 <= k < |old(scene.nodes)| ==> old(scene.nodes)[k].State() == Terminated(old(scene.States())[k])
      ensures scene.killed == old(scene.killed) && scene.enabled == old(scene.enabled) && scene.visible == old(scene.visible)
    {
      calls := calls + [TerminateHook(current)];
      states[current].initialized := false;
      scene.Clear();
      calls := calls + [ClearScene];
      calls := calls + [UnloadContent];
    }

    /** The component registered as `n`, if any. */
    function Lookup(n: string): (r: StateComponent?)
      reads this
      ensures r != null <==> n in states
      ensures r != null ==> r == states[n]
    {
      if n in states then states[n] else null
    }

    /** `Update`: runs the current state's hook when there is a current
        state and it is initialized. */
    method Update() returns (o: Outcome)
      modifies this`calls
      ensures current == "" ==> o == Pass && calls == old(calls)
      ensures current != "" && current !in states ==> o == Fail(KeyNotFound) && calls == old(calls)
      ensures current != "" && current in states ==>
        o == Pass && calls == old(calls) + (if states[current].initialized then [UpdateHook(current)] else [])
    {
      if current == "" {
        return Pass;
      }
      if current !in states {
        return Fail(KeyNotFound);
      }
      if states[current].initialized {
        calls := calls + [UpdateHook(current)];
      }
      o := Pass;
    }

    /** `Draw`: like `Update` but without the empty-name guard, so with no
        state set it looks up "" and fails unless a state has that name. */
    method Draw() returns (o: Outcome)
      modifies this`calls
      ensures current !in states ==> o == Fail(KeyNotFound) && calls == old(calls)
      ensures current in states ==>
        o == Pass && calls == old(calls) + (if states[current].initialized then [DrawHook(current)] else [])
    {
      if current !in states {
        return Fail(KeyNotFound);
      }
      if states[current].initialized {
        calls := calls + [DrawHook(current)];
      }
      o := Pass;
    }

    /** `Dispose`: terminates every registered state, in enumeration
        order; the `initialized` flags are left as they are. */
    method Dispose()
      requires Valid()
      modifies this`calls
      ensures calls == old(calls) + TerminateAll(order)
    {
      for i := 0 to |order|
        invariant calls == old(calls) + TerminateAll(order[..i])
      {
        assert TerminateAll(order[..i + 1]) == TerminateAll(order[..i]) + [TerminateHook(order[i])];
        calls := calls + [TerminateHook(order[i])];
      }
      assert order[..|order|] == order;
    }
  }
}
