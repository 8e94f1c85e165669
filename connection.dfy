/**
 * The port dialog and its connect button. The button toggles between
 * "Select" (look the chosen port up by its address, open it and start
 * publishing) and "Deselect" (close it); the tray tooltip, the port list's
 * enabled flag and the remembered selection follow it. Opening the serial
 * port is a call into the serial library, so its result is an input.
 */
module Connection {
  import opened Wrappers
  import opened JavaString
  import opened PortName

  /** The two texts the connect button shows. */
  datatype Label = Select | Deselect

  /** The button's text; the handler tells the two cases apart by comparing it with "Select". */
  function Text(shown: Label): (s: string)
    ensures s == "Select" <==> shown == Select
  {
    match shown
    case Select => "Select"
    case Deselect => "Deselect"
  }
  /** The tray tooltip: "Disconnected", or "Connected: " and a port's descriptive name. */
  datatype ToolTip = Disconnected | Connected(name: string)

  function TipText(tip: ToolTip): (s: string)
    ensures 0 < |s| && s[0] == (if tip.Connected? then 'C' else 'D')
  {
    match tip
    case Disconnected => "Disconnected"
    case Connected(name) => "Connected: " + name
  }

  /** Different tooltips read differently, so the datatype loses nothing of the text. */
  lemma TipTextInjective(a: ToolTip, b: ToolTip)
    requires TipText(a) == TipText(b)
    ensures a == b
  {
    if a.Connected? && b.Connected? {
      assert a.name == TipText(a)[11..] && b.name == TipText(b)[11..];
    }
  }

  /**
   * Everything the button handler and the dialog set up read or write:
   * whether the dialog window exists, the port list's entries (descriptive
   * names), its selected entry and enabled flag, the button's label, the tray
   * tooltip, the address of the chosen port (None for null), the descriptive
   * name remembered for restoring the selection, and how many publishing
   * loops have been started.
   */
  datatype State = State(
    windowOpen: bool,
    items: seq<string>,
    selected: Option<string>,
    listEnabled: bool,
    buttonLabel: Label,
    toolTip: ToolTip,
    chosenPort: Option<string>,
    portListSelect: Option<string>,
    loopsStarted: nat)

  /** How the button handler ends: normally, or with the exception it throws. */
  datatype Outcome =
    | Completed
    | NullSelection                  // the list is empty, `getSelectedItem()` is null
    | BadPortName(error: StringError) // the name has no ')' to cut the address at

  /**
   * The relations every reachable state keeps. "Deselect" shows exactly when
   * the list is disabled, and then a port is chosen, so the "Deselect" branch
   * never closes a null port. A chosen port comes with the remembered name
   * that the tooltip announces.
   */
  predicate Consistent(st: State) {
    && (st.buttonLabel == Deselect <==> !st.listEnabled)
    && (!st.listEnabled ==> st.chosenPort.Some?)
    && (st.chosenPort.Some? ==> st.portListSelect.Some? && st.toolTip == Connected(st.portListSelect.value))
    && (st.toolTip.Connected? ==> st.portListSelect == Some(st.toolTip.name))
    && (st.selected.Some? ==> st.selected.value in st.items)
  }

  /**
   * After the tray is set up: tooltip "Disconnected", nothing chosen, an empty
   * enabled list. The button does not exist before the dialog is first shown;
   * its label here is never read.
   */
  function Initial(): (st: State)
    ensures Consistent(st)
    ensures st.toolTip == Disconnected && st.chosenPort == None && st.listEnabled && !st.windowOpen
  {
    State(false, [], None, true, Select, Disconnected, None, None, 0)
  }

  /**
   * Showing the dialog (ignored while it is already shown): refill the list
   * with the ports found now, which selects the first one; then with a port
   * chosen, label the button "Deselect", disable the list and select the
   * remembered name if it is still listed; otherwise label it "Select".
   */
  function DialogOpened(st: State, ports: seq<string>): (r: State)
    requires Consistent(st)
    ensures Consistent(r)
  {
    if st.windowOpen then st
    else
      var first := if |ports| > 0 then Some(ports[0]) else None;
      if st.chosenPort.Some? then
        var restored :=
          match st.portListSelect
          case None => None
          case Some(name) => if name in ports then Some(name) else first;
        st.(windowOpen := true, items := ports, selected := restored,
            buttonLabel := Deselect, listEnabled := false)
      else
        st.(windowOpen := true, items := ports, selected := first, buttonLabel := Select)
  }

  /** Closing the dialog window; nothing else changes. */
  function WindowClosed(st: State): (r: State)
    requires Consistent(st)
    ensures Consistent(r) && !r.windowOpen
  {
    st.(windowOpen := false)
  }

  /** The user picking entry `i` of the list, which only an enabled list in a shown dialog allows. */
  function ItemChosen(st: State, i: nat): (r: State)
    requires Consistent(st)
    ensures Consistent(r)
  {
    if st.windowOpen && st.listEnabled && i < |st.items| then st.(selected := Some(st.items[i])) else st
  }

  /**
   * The connect button's action. On "Select" the tooltip and the remembered
   * name are set before the address is cut out and before the port is
   * opened, so they stay set when either fails; the chosen port stays set
   * when only the open fails. On "Deselect" the port is dropped.
   */
  function Pressed(st: State, portOpened: bool): (r: State)
    requires Consistent(st) && st.windowOpen
    ensures Consistent(r) && r.windowOpen
  {
    if st.buttonLabel == Select then
      match st.selected
      case None => st
      case Some(name) =>
        var announced := st.(toolTip := Connected(name), portListSelect := Some(name));
        match ExtractAddress(name)
        case Failure(_) => announced
        case Success(address) =>
          var chosen := announced.(chosenPort := Some(address));
          if portOpened then chosen.(buttonLabel := Deselect, listEnabled := false, loopsStarted := st.loopsStarted + 1)
          else chosen
    else
      st.(toolTip := Disconnected, chosenPort := None, listEnabled := true, buttonLabel := Select)
  }

  /** How the action ends: the null selection and the missing ')' throw, everything else completes. */
  function PressOutcome(st: State): (r: Outcome)
    ensures r == NullSelection <==> st.buttonLabel == Select && st.selected == None
    ensures r.BadPortName? <==>
      st.buttonLabel == Select && st.selected.Some?
      && ')' !in st.selected.value[IndexOf(st.selected.value, '(') + 1..]
    ensures r.BadPortName? ==> r.error == IndexOutOfBounds
  {
    if st.buttonLabel == Select then
      match st.selected
      case None => NullSelection
      case Some(name) =>
        match ExtractAddress(name)
        case Failure(e) => BadPortName(e)
        case Success(_) => Completed
    else
      Completed
  }

  /** What the user can do with the tray and the dialog. */
  datatype Event =
    | ShowDialog(ports: seq<string>)
    | CloseDialog
    | Pick(index: nat)
    | Click(portOpened: bool)

  /** One event; a click needs the dialog that holds the button. */
  function Apply(st: State, e: Event): (r: State)
    requires Consistent(st)
    ensures Consistent(r)
  {
    match e
    case ShowDialog(ports) => DialogOpened(st, ports)
    case CloseDialog => WindowClosed(st)
    case Pick(i) => ItemChosen(st, i)
    case Click(portOpened) => if st.windowOpen then Pressed(st, portOpened) else st
  }

  /** Any sequence of events keeps the state consistent. */
  function Run(st: State, events: seq<Event>): (r: State)
    requires Consistent(st)
    ensures Consistent(r)
    decreases |events|
  {
    if |events| == 0 then st else Run(Apply(st, events[0]), events[1..])
  }

  /** In every state the program can reach, "Deselect" means a port is chosen and the list is locked. */
  lemma {:induction false} ReachableDeselectHasPort(events: seq<Event>)
    ensures var r := Run(Initial(), events);
      Consistent(r) && (r.buttonLabel == Deselect ==> r.chosenPort.Some? && !r.listEnabled)
  {
  }

  /** A successful "Select": the tooltip, lock, label, chosen port and remembered name, and one loop started. */
  lemma SuccessfulSelect(st: State, name: string)
    requires Consistent(st) && st.windowOpen
    requires st.buttonLabel == Select && st.selected == Some(name)
    requires ExtractAddress(name).Success?
    ensures PressOutcome(st) == Completed
    ensures var r := Pressed(st, true);
      && r.buttonLabel == Deselect && !r.listEnabled
      && r.chosenPort == Some(ExtractAddress(name).value)
      && r.toolTip == Connected(name)
      && r.portListSelect == Some(name)
      && r.loopsStarted == st.loopsStarted + 1
      && r.items == st.items && r.selected == st.selected
  {
  }

  /**
   * A "Select" whose open fails: the tooltip already claims the connection and
   * the chosen port is set, yet the label and the list are unchanged and no
   * loop is started.
   */
  lemma FailedSelect(st: State, name: string)
    requires Consistent(st) && st.windowOpen
    requires st.buttonLabel == Select && st.selected == Some(name)
    requires ExtractAddress(name).Success?
    ensures PressOutcome(st) == Completed
    ensures var r := Pressed(st, false);
      && r.toolTip == Connected(name)
      && r.chosenPort == Some(ExtractAddress(name).value)
      && r.portListSelect == Some(name)
      && r.buttonLabel == Select && r.listEnabled
      && r.loopsStarted == st.loopsStarted
  {
  }

  /** A "Select" on a name without a closing ')': the exception leaves the chosen port as it was. */
  lemma SelectBadName(st: State, name: string, portOpened: bool)
    requires Consistent(st) && st.windowOpen
    requires st.buttonLabel == Select && st.selected == Some(name)
    requires ExtractAddress(name).Failure?
    ensures PressOutcome(st) == BadPortName(IndexOutOfBounds)
    ensures var r := Pressed(st, portOpened);
      && r.toolTip == Connected(name) && r.portListSelect == Some(name)
      && r.chosenPort == st.chosenPort
      && r.buttonLabel == Select && r.listEnabled
      && r.loopsStarted == st.loopsStarted
      && r.windowOpen == st.windowOpen && r.items == st.items && r.selected == st.selected
  {
  }

  /** A "Select" with an empty list: the null selection throws before anything changes. */
  lemma SelectNothing(st: State, portOpened: bool)
    requires Consistent(st) && st.windowOpen
    requires st.buttonLabel == Select && st.selected == None
    ensures PressOutcome(st) == NullSelection && Pressed(st, portOpened) == st
  {
  }

  /** "Deselect" closes a port that is really there and returns to "Select" with the list unlocked. */
  lemma DeselectPressed(st: State, portOpened: bool)
    requires Consistent(st) && st.windowOpen
    requires st.buttonLabel == Deselect
    ensures st.chosenPort.Some?
    ensures PressOutcome(st) == Completed
    ensures var r := Pressed(st, portOpened);
      && r.toolTip == Disconnected && r.chosenPort == None
      && r.listEnabled && r.buttonLabel == Select
      && r.portListSelect == st.portListSelect && r.loopsStarted == st.loopsStarted
      && r.windowOpen == st.windowOpen && r.items == st.items && r.selected == st.selected
  {
  }

  /** A successful "Select" followed by "Deselect" restores the initial label, tooltip and lock. */
  lemma SelectThenDeselect(st: State, name: string, portOpened: bool)
    requires Consistent(st) && st.windowOpen
    requires st.buttonLabel == Select && st.selected == Some(name)
    requires ExtractAddress(name).Success?
    ensures var r := Pressed(Pressed(st, true), portOpened);
      && r.buttonLabel == Select == st.buttonLabel
      && r.toolTip == Initial().toolTip
      && r.listEnabled == Initial().listEnabled
      && r.chosenPort == Initial().chosenPort
  {
  }

  /**
   * Showing the dialog: "Deselect" exactly when a port is chosen; then the
   * list is locked with the remembered name selected if listed, otherwise the
   * list stays unlocked with the first port selected.
   */
  lemma DialogInit(st: State, ports: seq<string>)
    requires Consistent(st) && !st.windowOpen
    ensures var r := DialogOpened(st, ports);
      && r.windowOpen && r.items == ports
      && (r.buttonLabel == Deselect <==> st.chosenPort.Some?)
      && (r.buttonLabel == Select <==> st.chosenPort.None?)
      && (st.chosenPort.Some? ==>
            !r.listEnabled && (st.portListSelect.value in ports ==> r.selected == st.portListSelect))
      && (st.chosenPort.None? ==>
            r.listEnabled && r.selected == (if |ports| > 0 then Some(ports[0]) else None))
  {
  }

  /** Showing the dialog while it is shown does nothing. */
  lemma DialogAlreadyShown(st: State, ports: seq<string>)
    requires Consistent(st) && st.windowOpen
    ensures DialogOpened(st, ports) == st
  {
  }

  /**
   * After an open that failed, closing and showing the dialog again offers
   * "Deselect" on a locked list, as if connected, although no loop runs.
   */
  lemma FailedOpenThenReopen(st: State, name: string, ports: seq<string>)
    requires Consistent(st) && st.windowOpen
    requires st.buttonLabel == Select && st.selected == Some(name)
    requires ExtractAddress(name).Success?
    ensures var r := DialogOpened(WindowClosed(Pressed(st, false)), ports);
      && r.buttonLabel == Deselect && !r.listEnabled
      && r.loopsStarted == st.loopsStarted
  {
  }

  /** The "Select" case once the address is cut out, field by field. */
  lemma PressedWithAddress(st: State, name: string, address: string, portOpened: bool)
    requires Consistent(st) && st.windowOpen
    requires st.buttonLabel == Select && st.selected == Some(name)
    requires ExtractAddress(name) == Success(address)
    ensures var r := Pressed(st, portOpened);
      && r.toolTip == Connected(name) && r.portListSelect == Some(name) && r.chosenPort == Some(address)
      && r.windowOpen == st.windowOpen && r.items == st.items && r.selected == st.selected
      && r.buttonLabel == (if portOpened then Deselect else Select)
      && r.listEnabled == !portOpened
      && r.loopsStarted == st.loopsStarted + (if portOpened then 1 else 0)
  {
  }

  /** The static fields and widgets, updated in place by the handlers. */
  class ArduinoInterface {
    var windowOpen: bool
    var items: seq<string>
    var selected: Option<string>
    var listEnabled: bool
    var buttonLabel: Label
    var toolTip: ToolTip
    var chosenPort: Option<string>
    var portListSelect: Option<string>
    var loopsStarted: nat

    ghost function View(): State
      reads this
    {
      State(windowOpen, items, selected, listEnabled, buttonLabel, toolTip, chosenPort, portListSelect, loopsStarted)
    }

    ghost predicate Valid()
      reads this
    {
      Consistent(View())
    }

    constructor ()
      ensures Valid() && View() == Initial()
    {
      windowOpen, items, selected, listEnabled := false, [], None, true;
      buttonLabel, toolTip := Select, Disconnected;
      chosenPort, portListSelect, loopsStarted := None, None, 0;
    }

    method SelectComPort(ports: seq<string>)
      requires Valid()
      modifies this
      ensures Valid() && View() == DialogOpened(old(View()), ports)
    {
      if windowOpen {
        return;
      }
      windowOpen := true;
      items := ports;
      selected := if |ports| > 0 then Some(ports[0]) else None;
      if chosenPort.Some? {
        buttonLabel := Deselect;
        selected :=
          match portListSelect
          case None => None
          case Some(name) => if name in items then Some(name) else selected;
        listEnabled := false;
      } else {
        buttonLabel := Select;
      }
    }

    method WindowClosing()
      requires Valid()
      modifies this
      ensures Valid() && View() == WindowClosed(old(View()))
    {
      windowOpen := false;
    }

    method ChooseItem(i: nat)
      requires Valid()
      modifies this
      ensures Valid() && View() == ItemChosen(old(View()), i)
    {
      if windowOpen && listEnabled && i < |items| {
        selected := Some(items[i]);
      }
    }

    method ConnectPressed(portOpened: bool) returns (outcome: Outcome)
      requires Valid() && windowOpen
      modifies this
      ensures View() == Pressed(old(View()), portOpened) && outcome == PressOutcome(old(View()))
      ensures Valid()
    {
      ghost var st0 := View();
      if buttonLabel == Select {
        if selected.None? {
          SelectNothing(st0, portOpened);
          return NullSelection;
        }
        var comPort := selected.value;
        toolTip := Connected(comPort);
        portListSelect := Some(comPort);
        var address := ExtractAddress(comPort);
        if address.Failure? {
          SelectBadName(st0, comPort, portOpened);
          return BadPortName(address.error);
        }
        chosenPort := Some(address.value);
        if portOpened {
          buttonLabel := Deselect;
          listEnabled := false;
          loopsStarted := loopsStarted + 1;
        }
        outcome := Completed;
        PressedWithAddress(st0, comPort, address.value, portOpened);
      } else {
        toolTip := Disconnected;
        chosenPort := None;
        listEnabled := true;
        buttonLabel := Select;
        outcome := Completed;
        DeselectPressed(st0, portOpened);
      }
    }
  }
}
