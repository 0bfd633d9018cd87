/** The Solid interface: the last button pressed, the network status, and
    the devices removed while a button was pressed, from which it infers
    that the computer woke up again. What Solid reports is passed in; the
    signals are recorded as events. */
module SolidInterface {

  /** Solid's own button kinds, as the button reports them. */
  datatype SolidButton = LidButtonType | PowerButtonType | SleepButtonType | UnknownButtonType

  /** Solid's networking status; `OtherStatus` stands for any value outside
      the enumeration. */
  datatype SolidStatus =
    | StatusUnknown | Unconnected | Disconnecting | Connecting | Connected | OtherStatus(code: int)

  /** The interface's own button kinds. */
  datatype ButtonType = UnknownButton | LidButton | SleepButton | PowerButton

  /** The interface's own connection status. */
  datatype ConnectionStatus = Unknown | ConnectingStatus | ConnectedStatus | DisconnectingStatus | Disconnected

  datatype SolidEvent =
    | ButtonPressed(button: ButtonType)
    | WokeUp
    | NetworkStatusChanged(status: ConnectionStatus)
      /** The sleep suppression with this cookie is ended. */
    | SleepSuppressionStopped(cookie: int)

  /** The value QMap's operator[] inserts for a udi it does not hold: the
      value-initialised button type. */
  const DEFAULT_BUTTON: ButtonType := UnknownButton

  datatype SolidState = SolidState(
    buttonPressed: ButtonType, networkStatus: ConnectionStatus,
    removedDevices: map<string, ButtonType>, sleepCookie: int, events: seq<SolidEvent>)

  /** The fields as the constructor sets them, before `init` runs. */
  const Defaults: SolidState := SolidState(UnknownButton, Unknown, map[], 0, [])

  // ---------------------------------------------------------------------
  // Status mappings

  /** The switch of slotButtonPressed. */
  function ButtonOf(t: SolidButton): (r: ButtonType)
    ensures r == UnknownButton <==> t == UnknownButtonType
  {
    match t
      case LidButtonType => LidButton
      case SleepButtonType => SleepButton
      case PowerButtonType => PowerButton
      case UnknownButtonType => UnknownButton
  }

  /** The switch of slotNetworkStatusChanged. */
  function StatusOf(s: SolidStatus): (r: ConnectionStatus)
    ensures r == Unknown <==> s == StatusUnknown || s.OtherStatus?
    ensures r == Disconnected <==> s == Unconnected
  {
    match s
      case Connecting => ConnectingStatus
      case Connected => ConnectedStatus
      case Disconnecting => DisconnectingStatus
      case Unconnected => Disconnected
      case _ => Unknown
  }

  /** The known kinds map one to one onto the interface's own. */
  lemma ButtonOfInjective(a: SolidButton, b: SolidButton)
    ensures ButtonOf(a) == ButtonOf(b) ==> a == b
  {
  }

  /** Every status but Unknown comes from exactly one Solid status. */
  lemma StatusOfInjective(a: SolidStatus, b: SolidStatus)
    requires StatusOf(a) != Unknown
    ensures StatusOf(a) == StatusOf(b) ==> a == b
  {
  }

  // ---------------------------------------------------------------------
  // Slots

  /** slotButtonPressed: the button is recorded and always announced. */
  function ButtonStep(m: SolidState, t: SolidButton): SolidState {
    m.(buttonPressed := ButtonOf(t), events := m.events + [ButtonPressed(ButtonOf(t))])
  }

  /** slotNetworkStatusChanged: the status is recorded and always announced. */
  function NetworkStep(m: SolidState, s: SolidStatus): SolidState {
    m.(networkStatus := StatusOf(s), events := m.events + [NetworkStatusChanged(StatusOf(s))])
  }

  /** slotDeviceRemoved: while a known button is pressed the udi is
      recorded with that button (replacing an earlier record). */
  function RemovedStep(m: SolidState, udi: string): SolidState {
    if m.buttonPressed != UnknownButton then m.(removedDevices := m.removedDevices[udi := m.buttonPressed])
    else m
  }

  /** slotDeviceAdded: while a known button is pressed, the lookup of the
      udi inserts the default value when it is not recorded; a udi recorded
      with the pressed button is dropped, and once none is left the button
      is forgotten and the wake-up announced. */
  function AddedStep(m: SolidState, udi: string): SolidState {
    if m.buttonPressed == UnknownButton then m
    else
      var looked := if udi in m.removedDevices then m.removedDevices
                    else m.removedDevices[udi := DEFAULT_BUTTON];
      if looked[udi] != m.buttonPressed then m.(removedDevices := looked)
      else
        var rest := looked - {udi};
        if rest == map[] then m.(removedDevices := rest, buttonPressed := UnknownButton, events := m.events + [WokeUp])
        else m.(removedDevices := rest)
  }

  /** Every button press is announced with the button recorded; a known
      button is recorded as itself and anything else as UnknownButton. */
  lemma ButtonStepContract(m: SolidState, t: SolidButton)
    ensures var r := ButtonStep(m, t);
      r.events == m.events + [ButtonPressed(r.buttonPressed)] &&
      (r.buttonPressed == UnknownButton <==> t == UnknownButtonType) &&
      r.(buttonPressed := m.buttonPressed, events := m.events) == m
  {
  }

  /** Every status change is announced with the status recorded. */
  lemma NetworkStepContract(m: SolidState, s: SolidStatus)
    ensures var r := NetworkStep(m, s);
      r.events == m.events + [NetworkStatusChanged(r.networkStatus)] &&
      r.networkStatus == StatusOf(s) &&
      r.(networkStatus := m.networkStatus, events := m.events) == m
  {
  }

  /** A removal is recorded only while a known button is pressed, and then
      with that button. */
  lemma RemovedStepContract(m: SolidState, udi: string)
    ensures m.buttonPressed == UnknownButton ==> RemovedStep(m, udi) == m
    ensures m.buttonPressed != UnknownButton ==>
              RemovedStep(m, udi).removedDevices.Keys == m.removedDevices.Keys + {udi} &&
              RemovedStep(m, udi).removedDevices[udi] == m.buttonPressed &&
              RemovedStep(m, udi).(removedDevices := m.removedDevices) == m
  {
  }

  /** The wake-up is announced exactly when a known button is pressed and
      the udi is the only one recorded, with that button; the button is
      then forgotten and nothing is recorded any more. */
  lemma AddedStepWakes(m: SolidState, udi: string)
    ensures var r := AddedStep(m, udi);
      (r.events != m.events <==>
         m.buttonPressed != UnknownButton && m.removedDevices == map[udi := m.buttonPressed]) &&
      (r.events != m.events ==>
         r.events == m.events + [WokeUp] && r.buttonPressed == UnknownButton && r.removedDevices == map[]) &&
      (r.events == m.events ==> r.buttonPressed == m.buttonPressed)
  {
    var r := AddedStep(m, udi);
    if m.buttonPressed != UnknownButton && m.removedDevices == map[udi := m.buttonPressed] {
      assert (m.removedDevices - {udi}) == map[];
    }
    if m.buttonPressed != UnknownButton && udi in m.removedDevices &&
       m.removedDevices[udi] == m.buttonPressed && m.removedDevices - {udi} == map[] {
      assert m.removedDevices == map[udi := m.buttonPressed];
    }
  }

  /** While a button is pressed, a udi added that was not recorded is
      recorded with the default button, which no later addition removes. */
  lemma AddedStepPoisons(m: SolidState, udi: string)
    requires m.buttonPressed != UnknownButton && udi !in m.removedDevices
    ensures var r := AddedStep(m, udi);
      udi in r.removedDevices && r.removedDevices[udi] == DEFAULT_BUTTON &&
      r.events == m.events && r.buttonPressed == m.buttonPressed
  {
  }

  /** An entry recorded with the default button stays through any
      addition, so while it is there no wake-up can be announced. */
  lemma DefaultEntryStays(m: SolidState, k: string, udi: string)
    requires k in m.removedDevices && m.removedDevices[k] == DEFAULT_BUTTON
    ensures var r := AddedStep(m, udi);
      k in r.removedDevices && r.removedDevices[k] == DEFAULT_BUTTON && r.events == m.events
  {
    var r := AddedStep(m, udi);
    if m.buttonPressed != UnknownButton {
      assert m.removedDevices != map[udi := m.buttonPressed] by {
        if k == udi {
          assert m.removedDevices[udi] != m.buttonPressed;
        } else {
          assert k !in map[udi := m.buttonPressed];
        }
      }
    }
    AddedStepWakes(m, udi);
  }

  /** Press a button, lose one device and get it back: the computer is
      taken to have woken up, with nothing left recorded. */
  lemma SleepAndWake(m: SolidState, t: SolidButton, udi: string)
    requires t != UnknownButtonType && m.removedDevices == map[]
    ensures var r := AddedStep(RemovedStep(ButtonStep(m, t), udi), udi);
      r.buttonPressed == UnknownButton && r.removedDevices == map[] &&
      r.events == m.events + [ButtonPressed(ButtonOf(t)), WokeUp]
  {
    var b := ButtonStep(m, t);
    var d := RemovedStep(b, udi);
    assert d.removedDevices == map[udi := ButtonOf(t)];
    AddedStepWakes(d, udi);
  }

  /** beginSleepSuppression keeps the cookie it is given. */
  function BeginSuppressionStep(m: SolidState, cookie: int): SolidState {
    m.(sleepCookie := cookie)
  }

  /** endSleepSuppression hands the kept cookie back. */
  function EndSuppressionStep(m: SolidState): SolidState {
    m.(events := m.events + [SleepSuppressionStopped(m.sleepCookie)])
  }

  /** The suppression ended is the one begun last. */
  lemma SuppressionPairs(m: SolidState, cookie: int)
    ensures EndSuppressionStep(BeginSuppressionStep(m, cookie)).events ==
              m.events + [SleepSuppressionStopped(cookie)]
  {
  }

  /** After construction: the defaults, then `init` reads the current
      network status through the slot. */
  function Initial(status: SolidStatus): SolidState {
    NetworkStep(Defaults, status)
  }

  /** No button is pressed, nothing is recorded and the cookie is 0; the
      status is the current one, announced once. */
  lemma InitialContract(status: SolidStatus)
    ensures var m := Initial(status);
      m.buttonPressed == UnknownButton && m.removedDevices == map[] && m.sleepCookie == 0 &&
      m.networkStatus == StatusOf(status) && m.events == [NetworkStatusChanged(StatusOf(status))]
  {
  }

  class Solid {
    var buttonPressed: ButtonType
    var networkStatus: ConnectionStatus
    var removedDevices: map<string, ButtonType>
    var sleepCookie: int
    var events: seq<SolidEvent>

    function State(): SolidState
      reads this
    {
      SolidState(buttonPressed, networkStatus, removedDevices, sleepCookie, events)
    }

    constructor (status: SolidStatus)
      ensures State() == Initial(status)
    {
      buttonPressed := UnknownButton;
      networkStatus := Unknown;
      removedDevices := map[];
      sleepCookie := 0;
      events := [];
      new;
      NetworkStatusChangedSlot(status);
    }

    method NetworkStatusOf() returns (s: ConnectionStatus)
      ensures s == State().networkStatus
    {
      s := networkStatus;
    }

    method BeginSleepSuppression(cookie: int)
      modifies this
      ensures State() == BeginSuppressionStep(old(State()), cookie)
    {
      sleepCookie := cookie;
    }

    method EndSleepSuppression()
      modifies this
      ensures State() == EndSuppressionStep(old(State()))
    {
      events := events + [SleepSuppressionStopped(sleepCookie)];
    }

    method DeviceAdded(udi: string)
      modifies this
      ensures State() == AddedStep(old(State()), udi)
    {
      if buttonPressed != UnknownButton {
        if udi !in removedDevices {
          removedDevices := removedDevices[udi := DEFAULT_BUTTON];
        }
        if removedDevices[udi] == buttonPressed {
          removedDevices := removedDevices - {udi};
          if removedDevices == map[] {
            buttonPressed := UnknownButton;
            events := events + [WokeUp];
          }
        }
      }
    }

    method DeviceRemoved(udi: string)
      modifies this
      ensures State() == RemovedStep(old(State()), udi)
    {
      if buttonPressed != UnknownButton {
        removedDevices := removedDevices[udi := buttonPressed];
      }
    }

    method ButtonPressedSlot(t: SolidButton)
      modifies this
      ensures State() == ButtonStep(old(State()), t)
    {
      match t {
        case LidButtonType => buttonPressed := LidButton;
        case SleepButtonType => buttonPressed := SleepButton;
        case PowerButtonType => buttonPressed := PowerButton;
        case UnknownButtonType => buttonPressed := UnknownButton;
      }
      events := events + [ButtonPressed(buttonPressed)];
    }

    method NetworkStatusChangedSlot(s: SolidStatus)
      modifies this
      ensures State() == NetworkStep(old(State()), s)
    {
      match s {
        case Connecting => networkStatus := ConnectingStatus;
        case Connected => networkStatus := ConnectedStatus;
        case Disconnecting => networkStatus := DisconnectingStatus;
        case Unconnected => networkStatus := Disconnected;
        case _ => networkStatus := Unknown;
      }
      events := events + [NetworkStatusChanged(networkStatus)];
    }
  }
}
