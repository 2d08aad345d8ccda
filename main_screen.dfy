/**
 * The client's main-menu screen (drossy.stars.core.client.gui.mainmenu.MainScreen):
 * an append-only list of buttons, lookup and press by button name, the
 * height of the button panel, and the state transfer done when the screen
 * is shown. The GUI toolkit is represented by two ghost fields: the table of
 * screens registered with it and the screen it was last told to display.
 */
module MainMenu {
  import opened Wrappers
  import opened GameStates

  /** The name this screen registers and displays itself under. */
  const ScreenName := "MainScreen"

  /** The name of the main-menu game state. */
  const MainMenuName := "mainMenu"

  /**
   * A menu button (IButton): the name it is looked up by and the caption it
   * shows. Buttons are objects, so two buttons with the same name and caption
   * stay distinct; what a button's action does is recorded only as the press.
   */
  class Button {
    const name: string
    const caption: string

    constructor (name: string, caption: string)
      ensures this.name == name && this.caption == caption
    {
      this.name := name;
      this.caption := caption;
    }
  }

  /** The first button, in insertion order, whose name is the given one. */
  function FirstNamed(buttons: seq<Button>, name: string): (r: Option<Button>)
    ensures r.None? <==> forall k :: 0 <= k < |buttons| ==> buttons[k].name != name
    ensures r.Some? ==> r.value.name == name
    ensures r.Some? ==>
      exists k :: 0 <= k < |buttons| && buttons[k] == r.value && forall j :: 0 <= j < k ==> buttons[j].name != name
    decreases |buttons|
  {
    if buttons == [] then None
    else if buttons[0].name == name then Some(buttons[0])
    else
      var r := FirstNamed(buttons[1..], name);
      assert forall k :: 1 <= k < |buttons| ==> buttons[k] == buttons[1..][k - 1];
      r
  }

  /** Appending a button never changes which button an earlier match finds; it can only supply a match where there was none. */
  lemma {:induction false} FirstNamedAppend(buttons: seq<Button>, b: Button, name: string)
    ensures FirstNamed(buttons + [b], name) ==
      if FirstNamed(buttons, name).Some? then FirstNamed(buttons, name)
      else if b.name == name then Some(b) else None
    decreases |buttons|
  {
    if buttons != [] {
      assert (buttons + [b])[1..] == buttons[1..] + [b];
      FirstNamedAppend(buttons[1..], b, name);
    }
  }

  /** The height of the button panel, in percent of the screen: 8 per button, at most 80. */
  function PanelHeight(buttonCount: nat): (percent: nat)
    ensures percent <= 80
    ensures buttonCount <= 10 ==> percent == 8 * buttonCount
    ensures buttonCount >= 10 ==> percent == 80
  {
    if buttonCount * 8 < 80 then buttonCount * 8 else 80
  }

  /** More buttons never make the panel lower. */
  lemma PanelHeightMonotone(fewer: nat, more: nat)
    requires fewer <= more
    ensures PanelHeight(fewer) <= PanelHeight(more)
  {
  }

  /** What showing the screen does to the game-state manager: a transfer to the main menu unless its name is already current's. */
  function ShowEffect(m: Machine): (r: Machine)
    requires m.current.Some?
    ensures r.registry == m.registry
    ensures m.current.value.name == MainMenuName ==> r == m
    ensures m.current.value.name != MainMenuName ==> r == Transfer(m, MainMenuName)
  {
    if m.current.value.name != MainMenuName then Transfer(m, MainMenuName) else m
  }

  /**
   * Showing the screen leaves the main-menu state current when it is
   * registered, keeps the manager consistent, and does not reload the
   * main menu when it is already current.
   */
  lemma ShowReachesMainMenu(m: Machine)
    requires Consistent(m) && m.current.Some?
    ensures Consistent(ShowEffect(m))
    ensures MainMenuName in m.registry ==> ShowEffect(m).current.Some? && ShowEffect(m).current.value.name == MainMenuName
    ensures m.current.value.name == MainMenuName ==> ShowEffect(m) == m
    ensures MainMenuName !in m.registry ==> ShowEffect(m) == m
  {
    TransferPreserves(m, MainMenuName);
  }

  class MainScreen {
    const app: StatedApplication
    var buttons: seq<Button>
    /** The GUI's screen table: each registered screen name with the button list it was built from. */
    ghost var screens: map<string, seq<Button>>
    /** The screen the GUI was last told to display. */
    ghost var displayed: Option<string>
    /** The buttons whose action has run, in order. */
    ghost var applied: seq<Button>

    /** getName: the one name the screen is removed, re-added and displayed under. */
    function GetName(): (name: string)
      ensures name == ScreenName && name == "MainScreen"
    {
      ScreenName
    }

    /** The registered screen always reflects the current button list. */
    ghost predicate Valid()
      reads this
    {
      ScreenName in screens && screens[ScreenName] == buttons
    }

    constructor (app: StatedApplication)
      ensures this.app == app
      ensures buttons == [] && applied == [] && displayed == None
      ensures screens == map[ScreenName := []]
      ensures Valid()
    {
      this.app := app;
      buttons := [];
      screens := map[];
      displayed := None;
      applied := [];
      new;
      Rebuild();
    }

    /** Replaces the screen registered under ScreenName by one built from the current buttons. */
    method Rebuild()
      modifies this`screens
      ensures screens == old(screens)[ScreenName := buttons]
      ensures Valid()
    {
      // remove the old screen, then add the freshly built one under the same name
      screens := map n | n in screens && n != GetName() :: screens[n];
      screens := screens[GetName() := buttons];
    }

    /** Appends a button (names may repeat) and rebuilds the screen. */
    method AddButton(button: Button)
      modifies this`buttons, this`screens
      ensures buttons == old(buttons) + [button]
      ensures screens == old(screens)[ScreenName := buttons]
      ensures Valid()
    {
      buttons := buttons + [button];
      Rebuild();
    }

    /** getButton: the first button with that name, None when there is none. */
    method GetButton(name: string) returns (found: Option<Button>)
      ensures found == FirstNamed(buttons, name)
    {
      for i := 0 to |buttons|
        invariant forall j :: 0 <= j < i ==> buttons[j].name != name
      {
        if buttons[i].name == name {
          return Some(buttons[i]);
        }
      }
      return None;
    }

    /** pressButton: runs the action of the button getButton finds, if any; the list is untouched. */
    method PressButton(name: string)
      requires Valid()
      modifies this`applied
      ensures Valid()
      ensures applied == old(applied) + (match FirstNamed(buttons, name) case Some(b) => [b] case None => [])
    {
      var button := GetButton(name);
      if button.Some? {
        // the button's action runs here
        applied := applied + [button.value];
      }
    }

    /** show: moves the application to the main-menu state unless it is already there, then displays this screen. */
    method Show()
      requires Valid() && app.Valid() && app.currentState != null
      modifies app, this`displayed
      ensures Valid() && app.Valid()
      ensures app.Model() == ShowEffect(old(app.Model()))
      ensures displayed == Some(ScreenName)
    {
      var current := app.GetCurrentState();
      if current.name != MainMenuName {
        app.TransferToGameState(MainMenuName);
      }
      displayed := Some(GetName());
    }
  }

  /** The quit button the main-menu state adds after buttons of other names is the one found under its name. */
  lemma QuitButtonScenario(others: seq<Button>, quit: Button)
    requires quit.name == "quitButton" && quit.caption == "Quit"
    requires forall k :: 0 <= k < |others| ==> others[k].name != "quitButton"
    ensures FirstNamed(others + [quit], "quitButton") == Some(quit)
    ensures FirstNamed(others + [quit], "quitButton").value.caption == "Quit"
  {
    FirstNamedAppend(others, quit, "quitButton");
  }
}
