# DrossyStars game-state manager, modelled in Dafny

This project models the core of the DrossyStars application shell:

- **The game-state manager** (`StatedApplication`). It is a registry from state name to game
  state plus one "current state" slot. Registering a taken name is a conflict and overwrites
  nothing. Transferring to an unknown name does nothing. Transferring to a known name unloads
  the current state (if any), makes the target current and loads it. This happens even when the
  target is already current. The `load`/`unload` hook calls are recorded in a ghost event log, so
  their order can be stated and proved.
- **The side classifier** (`Side`). It lower-cases a command-line token and turns it into `SERVER`,
  `CLIENT` or `UNKNOWN`, and has three mutually exclusive predicates.
- **The start options** (`StartOptions`). The side field starts as `UNKNOWN`, and an `UNKNOWN`
  left after parsing becomes `CLIENT`.
- **The main-menu screen** (`MainScreen`). It keeps an append-only button list with first-match
  lookup by name and press-if-found. It also computes a clamped panel height, and its `show`
  transfers to the main-menu state unless that state is already current.

Modules: `Wrappers` (an `Option` type standing in for nullable references), `Sides`
(`side.dfy`), `Options` (`start_options.dfy`), `GameStates` (`stated_application.dfy`) and
`MainMenu` (`main_screen.dfy`).

The manager is written twice, at two levels:

- a value-level specification: `Machine`, `Register`, `Transfer`, the invariant `Consistent` and
  the lemmas about them;
- a class `StatedApplication` whose fields the methods reassign. Each method's postcondition
  ties the new `Model()` to the specification function applied to the old one.

`Consistent` states three things:

- every entry is stored under its own name;
- the current state is a registered state;
- replaying the hook log (`LoadedAfter`) never loads a state while another is loaded, never
  unloads a state that is not the loaded one, and ends with exactly the current state loaded.

Two behaviours of the code worth noting:

- A transfer to the state that is already current unloads and reloads it. The hook log stays
  well bracketed because the unload comes first.
- The current-state pointer is set *before* the target's `load` is called
  (`StatedApplication.java:57-58`), not after it.

Names that the sources use but do not define are resolved as follows:

- The main-menu state's name is `"mainMenu"` (`MainMenuState.getName`), since
  `MainMenuState.NAME` is not declared.
- `MainScreen` is constructed with the application only; the GUI toolkit argument is abstracted
  away.

## Model

| member | source | states |
|---|---|---|
| `Sides.LowerChar` | DrossyStarsCore/src/drossy/stars/api/Side.java:48 | An upper-case ASCII letter maps to its lower-case letter; every other character is unchanged |
| `Sides.Side.IsClient` | DrossyStarsCore/src/drossy/stars/api/Side.java:65-68 | True for CLIENT and false for SERVER and UNKNOWN |
| `Sides.Side.IsServer` | DrossyStarsCore/src/drossy/stars/api/Side.java:74-77 | True for SERVER and false for CLIENT and UNKNOWN |
| `Sides.Side.IsUnknown` | DrossyStarsCore/src/drossy/stars/api/Side.java:83-86 | True for UNKNOWN and false for SERVER and CLIENT |
| `Sides.ToLower` | DrossyStarsCore/src/drossy/stars/api/Side.java:48 | Lower-casing keeps the length and lower-cases each character in place |
| `Sides.LowerMatchesLowerEquals` | DrossyStarsCore/src/drossy/stars/api/Side.java:48-54 | For a lower-case word w, a token lower-cases to w exactly when the two agree character by character after lower-casing |
| `Sides.Convert` | DrossyStarsCore/src/drossy/stars/api/Side.java:46-59 | SERVER iff the token agrees with "server" character by character after lower-casing; CLIENT iff it so agrees with "client"; UNKNOWN iff neither |
| `Sides.ConvertIgnoresCase` | DrossyStarsCore/src/drossy/stars/api/Side.java:48 | convert(lower(s)) == convert(s): the result depends only on the lower-cased token |
| `Sides.ExactlyOneKind` | DrossyStarsCore/src/drossy/stars/api/Side.java:65-86 | Every side satisfies exactly one of isClient, isServer, isUnknown |
| `Sides.ConvertExamples` | DrossyStarsCore/src/drossy/stars/api/Side.java:46-59 | "server", "SERVER", "Server" give SERVER; "client", "CLIENT" give CLIENT; "bogus" and "" give UNKNOWN |
| `Options.ParsedSide` | DrossyStarsCore/src/drossy/stars/core/StartOptions.java:42-45 | Without a -side token the field keeps its default UNKNOWN; with one it holds the converted token |
| `Options.Coerce` | DrossyStarsCore/src/drossy/stars/core/StartOptions.java:60-63 | The coerced side is never UNKNOWN: UNKNOWN becomes CLIENT, SERVER and CLIENT are kept |
| `Options.FinalSide` | DrossyStarsCore/src/drossy/stars/core/StartOptions.java:56-63 | The side left after construction is never UNKNOWN, and is SERVER exactly when a -side token was given that converts to SERVER |
| `Options.FinalSideServerIff` | DrossyStarsCore/src/drossy/stars/core/StartOptions.java:38-63 | The resolved side is SERVER iff a -side token was given that agrees with "server" character by character after lower-casing, and CLIENT in every other case (including an absent flag) |
| `Options.FinalSideServerIffLowered` | DrossyStarsCore/src/drossy/stars/core/StartOptions.java:42-63 | The resolved side is SERVER iff the token lower-cases to "server" |
| `Options.StartOptions.constructor` | DrossyStarsCore/src/drossy/stars/core/StartOptions.java:56-64 | After construction the parameters are the parsed ones and the side is the resolved one, never UNKNOWN |
| `GameStates.Register` | DrossyStarsCore/src/drossy/stars/core/StatedApplication.java:62-71 | Conflict (naming the name) iff the name is taken; otherwise the name maps to the state, the names grow by exactly it, other entries, the current state and the hook log are unchanged |
| `GameStates.GameState.constructor` | DrossyStarsCore/src/drossy/stars/api/IGameState.java:27-45 | A game state carries the name it was created with; the name never changes |
| `GameStates.Transfer` | DrossyStarsCore/src/drossy/stars/core/StatedApplication.java:49-60 | The registry never changes; an unknown name changes nothing; a known name becomes current, the old hook log is kept as a prefix, and the last hook called is the target's load |
| `GameStates.FreshConsistent` | DrossyStarsCore/src/drossy/stars/core/StatedApplication.java:35-37 | A fresh manager satisfies the invariant and has no current state |
| `GameStates.RegisterPreserves` | DrossyStarsCore/src/drossy/stars/core/StatedApplication.java:62-71 | A successful registration keeps the invariant (the current state stays a registered one) |
| `GameStates.TransferHooks` | DrossyStarsCore/src/drossy/stars/core/StatedApplication.java:53-58 | A transfer to a known name appends exactly unload(old current) then load(target), or only load(target) when nothing was current, also when the target is already current |
| `GameStates.TransferPreserves` | DrossyStarsCore/src/drossy/stars/core/StatedApplication.java:49-60 | Every transfer keeps the invariant: the hook log stays well bracketed and leaves exactly the current state loaded |
| `GameStates.PrefixesBracketed` | DrossyStarsCore/src/drossy/stars/core/StatedApplication.java:53-58 | Every prefix of a well-bracketed hook log is well bracketed: at no moment are two states loaded |
| `GameStates.RunPreserves` | DrossyStarsCore/src/drossy/stars/core/StatedApplication.java:49-71 | Any sequence of registrations and transfers keeps the invariant |
| `GameStates.RunKeepsEntries` | DrossyStarsCore/src/drossy/stars/core/StatedApplication.java:57-70 | Over any sequence of operations no entry is removed or overwritten and the hook log only grows |
| `GameStates.RegisterAllDistinct` | DrossyStarsCore/src/drossy/stars/core/StatedApplication.java:62-71 | States with distinct fresh names all register; the names become the old ones plus theirs, each reaching its state; current state and log unchanged |
| `GameStates.NamesMembers` | DrossyStarsCore/src/drossy/stars/core/StatedApplication.java:44-47 | The added available names are exactly the names carried by the registered states |
| `GameStates.SecondRegistrationConflicts` | DrossyStarsCore/src/drossy/stars/core/StatedApplication.java:65-68 | Registering a name a second time is a conflict and the first state stays reachable under it |
| `GameStates.ClientStartup` | DrossyStarsCore/src/drossy/stars/core/client/ClientApplication.java:60-71 | Registering the main menu on a fresh manager and transferring to it makes it current with a single load in the log |
| `GameStates.TransferScenario` | DrossyStarsCore/src/drossy/stars/core/StatedApplication.java:49-60 | With A and B registered the names are {A, B}; A then B logs load A, unload A, load B; a transfer to an unknown name then changes nothing |
| `GameStates.StatedApplication.constructor` | DrossyStarsCore/src/drossy/stars/core/StatedApplication.java:35-37 | A new manager has an empty registry, a null current state and an empty hook log |
| `GameStates.StatedApplication.GetCurrentState` | DrossyStarsCore/src/drossy/stars/core/StatedApplication.java:39-42 | Returns the current state; when not null it is the state registered under its own name |
| `GameStates.StatedApplication.GetAvailableGameStates` | DrossyStarsCore/src/drossy/stars/core/StatedApplication.java:44-47 | The returned names are exactly the registry's keys |
| `GameStates.StatedApplication.TransferToGameState` | DrossyStarsCore/src/drossy/stars/core/StatedApplication.java:49-60 | The new state is Transfer of the old one, and the invariant is kept |
| `GameStates.StatedApplication.RegisterGameState` | DrossyStarsCore/src/drossy/stars/core/StatedApplication.java:62-71 | On a taken name reports the conflict and changes nothing; otherwise the new state is Register of the old one; the invariant is kept |
| `MainMenu.FirstNamed` | DrossyStarsCore/src/drossy/stars/core/client/gui/mainmenu/MainScreen.java:130-141 | None iff no button has the name; otherwise a button with that name with no earlier button of that name |
| `MainMenu.FirstNamedAppend` | DrossyStarsCore/src/drossy/stars/core/client/gui/mainmenu/MainScreen.java:77-81 | Appending a button keeps an existing match and can only add a match where there was none (duplicate names do not shadow) |
| `MainMenu.PanelHeight` | DrossyStarsCore/src/drossy/stars/core/client/gui/mainmenu/MainScreen.java:109 | The height is at most 80 percent; 8 percent per button up to 10 buttons, 80 from then on |
| `MainMenu.PanelHeightMonotone` | DrossyStarsCore/src/drossy/stars/core/client/gui/mainmenu/MainScreen.java:109 | More buttons never give a lower panel |
| `MainMenu.ShowReachesMainMenu` | DrossyStarsCore/src/drossy/stars/core/client/gui/mainmenu/MainScreen.java:60-68 | Showing keeps the manager consistent, leaves the main menu current when it is registered, and changes nothing when it is already current or not registered |
| `MainMenu.ShowEffect` | DrossyStarsCore/src/drossy/stars/core/client/gui/mainmenu/MainScreen.java:62-65 | Showing never changes the registry; it leaves the manager as it is when the current state is named "mainMenu", and is a transfer to "mainMenu" otherwise |
| `MainMenu.Button.constructor` | DrossyStarsCore/src/drossy/stars/core/client/gui/mainmenu/MainMenuState.java:93-109 | A button carries the name and caption it was created with; both never change |
| `MainMenu.MainScreen.GetName` | DrossyStarsCore/src/drossy/stars/core/client/gui/mainmenu/MainScreen.java:55-58 | The screen name is the constant "MainScreen", used for removal and re-addition in Rebuild and for display in Show |
| `MainMenu.QuitButtonScenario` | DrossyStarsCore/src/drossy/stars/core/client/gui/mainmenu/MainMenuState.java:93-109 | The quit button object added after buttons of other names is the very object found under "quitButton", and its caption is "Quit" |
| `MainMenu.MainScreen.constructor` | DrossyStarsCore/src/drossy/stars/core/client/gui/mainmenu/MainScreen.java:46-53 | A new screen has no buttons and is registered under "MainScreen" built from the empty list |
| `MainMenu.MainScreen.Rebuild` | DrossyStarsCore/src/drossy/stars/core/client/gui/mainmenu/MainScreen.java:70-75 | The screen under "MainScreen" is replaced by one built from the current buttons; other screens are untouched; the screen invariant holds afterwards |
| `MainMenu.MainScreen.AddButton` | DrossyStarsCore/src/drossy/stars/core/client/gui/mainmenu/MainScreen.java:77-81 | The button is appended at the end, earlier buttons keep order and value, and the registered screen reflects the new list |
| `MainMenu.MainScreen.GetButton` | DrossyStarsCore/src/drossy/stars/core/client/gui/mainmenu/MainScreen.java:130-141 | Returns the first button in insertion order with the name, None when there is none |
| `MainMenu.MainScreen.PressButton` | DrossyStarsCore/src/drossy/stars/core/client/gui/mainmenu/MainScreen.java:143-149 | Runs exactly the button GetButton finds, runs nothing when there is none, leaves the list unchanged and keeps the screen invariant |
| `MainMenu.MainScreen.Show` | DrossyStarsCore/src/drossy/stars/core/client/gui/mainmenu/MainScreen.java:60-68 | Transfers to "mainMenu" only when the current state has another name, keeps the manager consistent, then displays "MainScreen" |

## Left out

- `Sides.LowerChar`: lower-cases ASCII letters only, so the model matches Java only under a non-Turkic default locale. Java's `toLowerCase` uses the default locale and the whole of Unicode. Under a Turkish or Azerbaijani locale it turns 'I' into dotless 'ı', so Java's `convert("CLIENT")` is UNKNOWN there while `Sides.ConvertExamples` proves `Convert("CLIENT") == Client`; after the start-up coercion the side is CLIENT either way. Non-ASCII letters may also lower-case differently.
- `Sides.Convert`: takes a Dafny string, which cannot be null. The `NullPointerException` that Java raises for a null token is not modelled.
- `GameStates.StatedApplication.TransferToGameState`: a null name, which makes the concurrent map's `containsKey` throw `NullPointerException`, is not modelled; names are Dafny strings.
- `GameStates.StatedApplication.RegisterGameState`: a null state, or a state whose name is null, throws `NullPointerException` in Java; the model's states and names cannot be null.
- `MainMenu.MainScreen.AddButton`: takes a button that cannot be null. In Java `buttons.add(null)` succeeds, the rebuild that follows throws `NullPointerException` when it asks the null entry for its name, and the null stays in the list. Every later `addButton` then throws in its rebuild, so the registered screen no longer reflects the list (the property `MainMenu.MainScreen.Valid` states). A `getButton` or `pressButton` whose search reaches the null entry throws; one that matches an earlier button does not.
- `MainMenu.MainScreen.GetButton`: a button whose name is null makes Java throw `NullPointerException` when the search reaches that button; the model's button names cannot be null.
- `MainMenu.MainScreen.Show`: requires a current state. Java throws `NullPointerException` when nothing is current; its one caller, the main-menu state's initialisation (`MainMenuState.java:111`), runs after a transfer has already set the current state.
- Callbacks from foreign code: the model assumes that `load`, `unload` and a button's `apply` never call back into the manager or the screen. `GameStates.TransferPreserves` and the unchanged button list of `MainMenu.MainScreen.PressButton` rely on this. The states and the quit button in the sources do not call back (the quit button only stops the application).
- `MainMenu.PanelHeight`: computed on unbounded integers. In Java, `size() * 8` wraps around from 2^28 buttons on; the model does not reproduce that.
- `GameStates.StatedApplication.RegisterGameState`: the `GameStateConflictException` is returned as `Some(name)` rather than thrown.
- `GameStates.StatedApplication.GetAvailableGameStates`: returns a snapshot of the names. Java returns a live key-set view of the map.
- Failing `load`/`unload` hooks: the model assumes every hook returns normally, so the half-finished transfer an exception would leave is not modelled.
- Thread safety of the concurrent map, and races between transfers and registrations: the model is sequential.
- What the hooks do to the engine (attaching and detaching game states, setting up the GUI display and the cursor): only the call itself is recorded, as an entry of the hook log. `MainMenuState` appears only as a state named "mainMenu". `ServerMainState` is not part of this model: `ServerApplication` does not use the state manager.
- GUI construction in `MainScreen.buildScreen`, the floating-point button height, `bind`, `onStartScreen`, `onEndScreen` and the connect screen. The toolkit is represented only by a ghost screen table and the name of the displayed screen.
- Argument parsing by the command-line library: represented by its results, the main parameters and the optional `-side` token.
- Process bootstrap in `Main` and the engine lifecycle of the server application (timers, per-frame update): engine glue, with floating-point frame times.
- `getSide` and `getMainMenuState` of the application interface: they belong to the concrete applications, which are not part of this model.
