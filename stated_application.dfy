/**
 * The game-state manager (drossy.stars.core.StatedApplication): a registry
 * from state name to game state and one "current state" slot. Transfers
 * unload the current state and load the target; the load and unload hooks
 * are recorded, in call order, in a ghost event log.
 */
module GameStates {
  import opened Wrappers

  /**
   * A game state (drossy.stars.api.IGameState). Only its name is data; what
   * its load and unload hooks do to the engine is the concrete state's own
   * business and appears here only as entries of the event log.
   */
  class GameState {
    const name: string

    constructor (name: string)
      ensures this.name == name
    {
      this.name := name;
    }
  }

  /** One call of a lifecycle hook. */
  datatype Event = Loaded(state: GameState) | Unloaded(state: GameState)

  /** The abstract value of a manager: registry, current state and the hooks called so far. */
  datatype Machine = Machine(registry: map<string, GameState>, current: Option<GameState>, events: seq<Event>)

  /** The result of registering a state: the new manager, or the conflict error naming the taken name. */
  datatype Registration = Registered(machine: Machine) | Conflict(name: string)

  /** The manager as constructed: nothing registered, no current state, no hook called. */
  const Fresh := Machine(map[], None, [])

  /**
   * Replays a hook log. Some(loaded) is the state the log leaves loaded
   * (None: nothing loaded); the outer None says the log loads a state while
   * another is loaded, or unloads a state that is not the loaded one.
   */
  function LoadedAfter(events: seq<Event>): Option<Option<GameState>>
    decreases |events|
  {
    if events == [] then Some(None)
    else
      var before := LoadedAfter(events[..|events| - 1]);
      match events[|events| - 1]
      case Loaded(s) => if before == Some(None) then Some(Some(s)) else None
      case Unloaded(s) => if before == Some(Some(s)) then Some(None) else None
  }

  /** The effect of one more hook call on the replayed log. */
  lemma LoadedAfterSnoc(events: seq<Event>, e: Event)
    ensures LoadedAfter(events + [e]) ==
      match e
      case Loaded(s) => if LoadedAfter(events) == Some(None) then Some(Some(s)) else None
      case Unloaded(s) => if LoadedAfter(events) == Some(Some(s)) then Some(None) else None
  {
    assert (events + [e])[..|events + [e]| - 1] == events;
  }

  /**
   * The manager's invariant: every entry is registered under its own name,
   * the current state is one of the registered states, and the hook log is
   * well bracketed and leaves exactly the current state loaded.
   */
  ghost predicate Consistent(m: Machine)
  {
    && (forall n :: n in m.registry ==> m.registry[n].name == n)
    && (m.current.Some? ==> m.current.value in m.registry.Values)
    && LoadedAfter(m.events) == Some(m.current)
  }

  /** registerGameState: fails on a taken name, otherwise adds the state under its name. */
  function Register(m: Machine, state: GameState): (r: Registration)
    ensures r.Conflict? <==> state.name in m.registry
    ensures r.Conflict? ==> r.name == state.name
    ensures r.Registered? ==> r.machine.registry.Keys == m.registry.Keys + {state.name}
    ensures r.Registered? ==> r.machine.registry[state.name] == state
    ensures r.Registered? ==> forall n :: n in m.registry ==> r.machine.registry[n] == m.registry[n]
    ensures r.Registered? ==> r.machine.current == m.current && r.machine.events == m.events
  {
    if state.name in m.registry then Conflict(state.name)
    else Registered(m.(registry := m.registry[state.name := state]))
  }

  /** transferToGameState: a no-op for an unknown name; otherwise unload the current state, then load the target. */
  function Transfer(m: Machine, stateName: string): (r: Machine)
    ensures r.registry == m.registry
    ensures stateName !in m.registry ==> r == m
    ensures stateName in m.registry ==> r.current == Some(m.registry[stateName])
    ensures stateName in m.registry ==> |r.events| > |m.events| && r.events[..|m.events|] == m.events
    ensures stateName in m.registry ==> r.events[|r.events| - 1] == Loaded(m.registry[stateName])
  {
    if stateName !in m.registry then m
    else
      var unloads := if m.current.Some? then [Unloaded(m.current.value)] else [];
      var target := m.registry[stateName];
      Machine(m.registry, Some(target), m.events + unloads + [Loaded(target)])
  }

  /** A fresh manager is consistent and has no current state. */
  lemma FreshConsistent()
    ensures Consistent(Fresh) && Fresh.current.None?
  {
  }

  /** Registration keeps the invariant and never touches the current state or the hook log. */
  lemma RegisterPreserves(m: Machine, state: GameState)
    requires Consistent(m)
    ensures Register(m, state).Registered? ==> Consistent(Register(m, state).machine)
  {
    var r := Register(m, state);
    if r.Registered? && m.current.Some? {
      var n :| n in m.registry && m.registry[n] == m.current.value;
      assert r.machine.registry[n] == m.current.value;
    }
  }

  /** The hooks a transfer calls: unload of the old current state (if any) directly followed by load of the target. */
  lemma TransferHooks(m: Machine, stateName: string)
    requires stateName in m.registry
    ensures m.current.Some? ==> Transfer(m, stateName).events == m.events + [Unloaded(m.current.value), Loaded(m.registry[stateName])]
    ensures m.current.None? ==> Transfer(m, stateName).events == m.events + [Loaded(m.registry[stateName])]
  {
  }

  /** A transfer keeps the invariant, including when the target is already current. */
  lemma TransferPreserves(m: Machine, stateName: string)
    requires Consistent(m)
    ensures Consistent(Transfer(m, stateName))
  {
    if stateName in m.registry {
      var target := m.registry[stateName];
      if m.current.Some? {
        var mid := m.events + [Unloaded(m.current.value)];
        LoadedAfterSnoc(m.events, Unloaded(m.current.value));
        LoadedAfterSnoc(mid, Loaded(target));
        assert Transfer(m, stateName).events == mid + [Loaded(target)];
      } else {
        LoadedAfterSnoc(m.events, Loaded(target));
        assert Transfer(m, stateName).events == m.events + [Loaded(target)];
      }
    }
  }

  /** Every prefix of a well-bracketed log is well bracketed: no state is ever loaded while another one is. */
  lemma {:induction false} PrefixesBracketed(events: seq<Event>, k: nat)
    requires LoadedAfter(events).Some?
    requires k <= |events|
    ensures LoadedAfter(events[..k]).Some?
    decreases |events|
  {
    if k == |events| {
      assert events[..k] == events;
    } else {
      var shorter := events[..|events| - 1];
      assert shorter[..k] == events[..k];
      PrefixesBracketed(shorter, k);
    }
  }

  /** An operation on the manager, as a caller issues it. */
  datatype Op = RegisterOp(state: GameState) | TransferOp(stateName: string)

  /** One operation; a conflicting registration leaves the manager as it was (the error goes to the caller). */
  function Step(m: Machine, op: Op): Machine
  {
    match op
    case RegisterOp(s) => (match Register(m, s) case Registered(m') => m' case Conflict(_) => m)
    case TransferOp(n) => Transfer(m, n)
  }

  /** A sequence of operations, first to last. */
  function Run(m: Machine, ops: seq<Op>): Machine
    decreases |ops|
  {
    if ops == [] then m else Run(Step(m, ops[0]), ops[1..])
  }

  /** Every sequence of operations keeps the invariant. */
  lemma {:induction false} RunPreserves(m: Machine, ops: seq<Op>)
    requires Consistent(m)
    ensures Consistent(Run(m, ops))
    decreases |ops|
  {
    if ops != [] {
      match ops[0] {
        case RegisterOp(s) => RegisterPreserves(m, s);
        case TransferOp(n) => TransferPreserves(m, n);
      }
      RunPreserves(Step(m, ops[0]), ops[1..]);
    }
  }

  /** Entries are never removed or overwritten, and the hook log only grows. */
  lemma {:induction false} RunKeepsEntries(m: Machine, ops: seq<Op>)
    ensures m.registry.Keys <= Run(m, ops).registry.Keys
    ensures forall n :: n in m.registry ==> Run(m, ops).registry[n] == m.registry[n]
    ensures |m.events| <= |Run(m, ops).events| && Run(m, ops).events[..|m.events|] == m.events
    decreases |ops|
  {
    if ops != [] {
      var next := Step(m, ops[0]);
      RunKeepsEntries(next, ops[1..]);
      var final := Run(next, ops[1..]);
      assert final.events[..|m.events|] == final.events[..|next.events|][..|m.events|];
    }
  }

  /** Names of a sequence of states. */
  function Names(states: seq<GameState>): set<string>
    decreases |states|
  {
    if states == [] then {} else {states[0].name} + Names(states[1..])
  }

  /** Registers states one by one, stopping at the first conflict. */
  function RegisterAll(m: Machine, states: seq<GameState>): Registration
    decreases |states|
  {
    if states == [] then Registered(m)
    else
      match Register(m, states[0])
      case Conflict(n) => Conflict(n)
      case Registered(m') => RegisterAll(m', states[1..])
  }

  /** States with pairwise distinct, unregistered names all register, and the available names grow by exactly theirs. */
  lemma {:induction false} RegisterAllDistinct(m: Machine, states: seq<GameState>)
    requires forall i, j :: 0 <= i < j < |states| ==> states[i].name != states[j].name
    requires forall i :: 0 <= i < |states| ==> states[i].name !in m.registry
    ensures RegisterAll(m, states).Registered?
    ensures RegisterAll(m, states).machine.registry.Keys == m.registry.Keys + Names(states)
    ensures forall i :: 0 <= i < |states| ==>
      states[i].name in RegisterAll(m, states).machine.registry && RegisterAll(m, states).machine.registry[states[i].name] == states[i]
    ensures forall n :: n in m.registry ==> RegisterAll(m, states).machine.registry[n] == m.registry[n]
    ensures RegisterAll(m, states).machine.current == m.current
    ensures RegisterAll(m, states).machine.events == m.events
    decreases |states|
  {
    if states != [] {
      var m' := Register(m, states[0]).machine;
      var rest := states[1..];
      forall i | 0 <= i < |rest| ensures rest[i].name !in m'.registry {
        assert rest[i] == states[i + 1];
      }
      forall i, j | 0 <= i < j < |rest| ensures rest[i].name != rest[j].name {
        assert rest[i] == states[i + 1] && rest[j] == states[j + 1];
      }
      RegisterAllDistinct(m', rest);
      var final := RegisterAll(m', rest).machine;
      forall i | 0 <= i < |states| ensures states[i].name in final.registry && final.registry[states[i].name] == states[i] {
        if i > 0 {
          assert states[i] == rest[i - 1];
        }
      }
    }
  }

  /** A name is in Names(states) exactly when some state there carries it. */
  lemma {:induction false} NamesMembers(states: seq<GameState>)
    ensures forall n :: n in Names(states) <==> exists i :: 0 <= i < |states| && states[i].name == n
    decreases |states|
  {
    if states != [] {
      NamesMembers(states[1..]);
      forall n | n in Names(states) ensures exists i :: 0 <= i < |states| && states[i].name == n {
        if n != states[0].name {
          assert n in Names(states[1..]);
          var i :| 0 <= i < |states[1..]| && states[1..][i].name == n;
          assert states[i + 1].name == n;
        }
      }
      forall n | (exists i :: 0 <= i < |states| && states[i].name == n) ensures n in Names(states) {
        var i :| 0 <= i < |states| && states[i].name == n;
        if i > 0 {
          assert states[1..][i - 1].name == n;
        }
      }
    }
  }

  /** Registering a taken name a second time is a conflict and the first state stays reachable. */
  lemma SecondRegistrationConflicts(m: Machine, first: GameState, second: GameState)
    requires first.name !in m.registry && second.name == first.name
    ensures Register(m, first).Registered?
    ensures Register(Register(m, first).machine, second) == Conflict(first.name)
    ensures Register(m, first).machine.registry[first.name] == first
  {
  }

  /** The client start-up sequence: register the main menu, transfer to it. */
  lemma ClientStartup(mainMenu: GameState)
    requires mainMenu.name == "mainMenu"
    ensures Register(Fresh, mainMenu).Registered?
    ensures var m := Transfer(Register(Fresh, mainMenu).machine, "mainMenu");
      m.current == Some(mainMenu) && m.events == [Loaded(mainMenu)] && m.registry.Keys == {"mainMenu"}
  {
  }

  /** Transferring A to B calls A's unload strictly before B's load; a later transfer to an unknown name changes nothing. */
  lemma TransferScenario(a: GameState, b: GameState, unknown: string)
    requires a.name == "A" && b.name == "B" && unknown != "A" && unknown != "B"
    ensures
      var m1 := Register(Fresh, a).machine;
      var m2 := Register(m1, b).machine;
      var m3 := Transfer(Transfer(m2, "A"), "B");
      && m2.registry.Keys == {"A", "B"}
      && m3.events == [Loaded(a), Unloaded(a), Loaded(b)]
      && m3.current == Some(b)
      && Transfer(m3, unknown) == m3
  {
    var m1 := Register(Fresh, a).machine;
    var m2 := Register(m1, b).machine;
    assert m2.registry["A"] == a;
    TransferHooks(m2, "A");
    TransferHooks(Transfer(m2, "A"), "B");
  }

  /**
   * The manager object. The registry and the current state are fields the
   * operations reassign; the hook log is ghost.
   */
  class StatedApplication {
    var gameStates: map<string, GameState>
    var currentState: GameState?
    ghost var events: seq<Event>

    /** The abstract value of this object. */
    ghost function Model(): Machine
      reads this
    {
      Machine(gameStates, if currentState == null then None else Some(currentState), events)
    }

    ghost predicate Valid()
      reads this
    {
      Consistent(Model())
    }

    constructor ()
      ensures Valid()
      ensures Model() == Fresh
      ensures currentState == null
    {
      gameStates := map[];
      currentState := null;
      events := [];
    }

    /** getCurrentState: the current state, null before the first transfer. */
    method GetCurrentState() returns (state: GameState?)
      requires Valid()
      ensures state == currentState
      ensures state != null ==> state in gameStates.Values && gameStates[state.name] == state
    {
      state := currentState;
    }

    /** getAvailableGameStates: the registered names. */
    method GetAvailableGameStates() returns (names: set<string>)
      ensures forall n :: n in names <==> n in gameStates
    {
      names := gameStates.Keys;
    }

    /** transferToGameState: see Transfer. */
    method TransferToGameState(stateName: string)
      requires Valid()
      modifies this
      ensures Valid()
      ensures Model() == Transfer(old(Model()), stateName)
    {
      TransferPreserves(Model(), stateName);
      if stateName in gameStates {
        if currentState != null {
          // the current state's unload hook is called here
          events := events + [Unloaded(currentState)];
        }
        currentState := gameStates[stateName];
        // the new current state's load hook is called here
        events := events + [Loaded(currentState)];
      }
    }

    /** registerGameState: see Register; a conflict is reported through the result and changes nothing. */
    method RegisterGameState(state: GameState) returns (conflict: Option<string>)
      requires Valid()
      modifies this
      ensures Valid()
      ensures Register(old(Model()), state).Conflict? ==> conflict == Some(state.name) && Model() == old(Model())
      ensures Register(old(Model()), state).Registered? ==> conflict == None && Model() == Register(old(Model()), state).machine
    {
      RegisterPreserves(Model(), state);
      if state.name in gameStates {
        return Some(state.name);
      }
      gameStates := gameStates[state.name := state];
      conflict := None;
    }
  }
}
