/**
  The tray application's poll-and-toggle state machine. The state is the four
  fields `_waitingForReport`, `_battery`, `_charging`, `_sidetoneFull`, plus
  whether a headset was opened at startup. Each event handler is a pure step
  that returns the next state, the device and icon effects it performed in
  order, and whether it ended by raising an exception. The HID calls are the
  effects `Write` and `IssueRead`; a read completion arrives later as its own
  event.
 */
module TrayApp {
  import opened Wrappers
  import opened Bytes
  import opened Frames
  import opened Reports
  import opened Battery
  import opened Icon

  /** Timeout the first read of a poll exchange is issued with. */
  const FirstReadTimeoutMs: nat := 500

  datatype State = State(
    devicePresent: bool,
    waitingForReport: bool,
    battery: real,
    charging: bool,
    sidetoneFull: bool)

  datatype Effect =
    | Write(frame: seq<byte>)
      /** An asynchronous read whose completion calls `Callback`; `None` is no timeout. */
    | IssueRead(timeoutMs: Option<nat>)
    | Render(glyph: Glyph)

  datatype Step = Step(next: State, effects: seq<Effect>, threw: bool)

  /** How the HID calls of one `UpdateUSB` went: both returned, or which one raised. */
  datatype Exchange = Completed | WriteRaised | ReadRaised

  datatype Button = Left | Middle | Right

  datatype Event =
    | TimerTick(exchange: Exchange)
    | DoubleClick(exchange: Exchange)
    | MouseClick(button: Button, exchange: Exchange)
      /** `rereadRaises`: whether the follow-up `ReadReport` a 0x04 report triggers raises. */
    | ReadCompleted(data: seq<byte>, rereadRaises: bool)

  datatype Trace = Trace(final: State, effects: seq<Effect>)

  /** The fields as the constructor leaves them before its first `UpdateUSB`. */
  function Initial(devicePresent: bool): State {
    State(devicePresent, false, 0.0, false, false)
  }

  predicate BatteryInRange(t: State) {
    0.0 <= t.battery <= LevelCap
  }

  /** The frames written, in order. */
  function Writes(effects: seq<Effect>): seq<seq<byte>> {
    if |effects| == 0 then []
    else (if effects[0].Write? then [effects[0].frame] else []) + Writes(effects[1..])
  }

  /** The timeouts of the reads issued, in order. */
  function ReadTimeouts(effects: seq<Effect>): seq<Option<nat>> {
    if |effects| == 0 then []
    else (if effects[0].IssueRead? then [effects[0].timeoutMs] else []) + ReadTimeouts(effects[1..])
  }

  lemma {:induction false} EffectsAppend(a: seq<Effect>, b: seq<Effect>)
    ensures Writes(a + b) == Writes(a) + Writes(b)
    ensures ReadTimeouts(a + b) == ReadTimeouts(a) + ReadTimeouts(b)
    decreases |a|
  {
    if |a| == 0 {
      assert a + b == b;
    } else {
      var ab := a + b;
      assert ab[0] == a[0];
      assert ab[1..] == a[1..] + b;
      EffectsAppend(a[1..], b);
      assert Writes(ab) == (if a[0].Write? then [a[0].frame] else []) + Writes(a[1..] + b);
      assert ReadTimeouts(ab) == (if a[0].IssueRead? then [a[0].timeoutMs] else []) + ReadTimeouts(a[1..] + b);
    }
  }

  lemma EffectsCons(e: Effect, rest: seq<Effect>)
    ensures Writes([e] + rest) == (if e.Write? then [e.frame] else []) + Writes(rest)
    ensures ReadTimeouts([e] + rest) == (if e.IssueRead? then [e.timeoutMs] else []) + ReadTimeouts(rest)
  {
    assert ([e] + rest)[1..] == rest;
  }

  /** `UpdateIcon`: clears the gate, then draws the glyph for the current status. */
  function UpdateIcon(t: State): (s: Step)
    ensures s.next == t.(waitingForReport := false) && !s.threw
    ensures |s.effects| == 1 && s.effects[0].Render?
    ensures s.effects[0].glyph.Dash? <==> t.battery == 0.0
    ensures s.effects == [Render(SelectGlyph(t.battery, t.sidetoneFull, t.charging))]
    ensures Writes(s.effects) == [] && ReadTimeouts(s.effects) == []
  {
    var cleared := t.(waitingForReport := false);
    Step(cleared, [Render(SelectGlyph(cleared.battery, cleared.sidetoneFull, cleared.charging))], false)
  }

  /** `UpdateUSB`: the gated battery poll, run by the timer, a double click and a middle click. */
  function UpdateUsb(t: State, x: Exchange): (s: Step)
    ensures Writes(s.effects) != [] ==> !t.waitingForReport && t.devicePresent
    ensures Writes(s.effects) == [] || Writes(s.effects) == [BatteryQueryFrame()]
    ensures t.waitingForReport || !t.devicePresent ==> s.next == t && s.effects == []
    ensures !t.waitingForReport && t.devicePresent && x == Completed ==>
              && s.next == t.(waitingForReport := true)
              && Writes(s.effects) == [BatteryQueryFrame()]
              && ReadTimeouts(s.effects) == [Some(FirstReadTimeoutMs)]
              && s.effects == [Write(BatteryQueryFrame()), IssueRead(Some(FirstReadTimeoutMs))]
    ensures !t.waitingForReport && t.devicePresent && x != Completed ==>
              && s.next == t.(battery := 0.0)
              && Writes(s.effects) == (if x == WriteRaised then [] else [BatteryQueryFrame()])
              && ReadTimeouts(s.effects) == []
              && |s.effects| > 0 && s.effects[|s.effects| - 1] == Render(Dash)
              && s.effects == (if x == WriteRaised then [] else [Write(BatteryQueryFrame())]) + [Render(Dash)]
    ensures s.next.charging == t.charging && s.next.sidetoneFull == t.sidetoneFull
    ensures s.next.devicePresent == t.devicePresent
    ensures !s.threw
  {
    if t.waitingForReport then Step(t, [], false)
    else
      var armed := t.(waitingForReport := true);
      if !armed.devicePresent then Step(armed.(waitingForReport := false), [], false)
      else
        match x
        case Completed =>
          EffectsCons(Write(BatteryQueryFrame()), [IssueRead(Some(FirstReadTimeoutMs))]);
          EffectsCons(IssueRead(Some(FirstReadTimeoutMs)), []);
          Step(armed, [Write(BatteryQueryFrame())] + [IssueRead(Some(FirstReadTimeoutMs))], false)
        case WriteRaised =>
          UpdateIcon(armed.(waitingForReport := false, battery := 0.0))
        case ReadRaised =>
          var icon := UpdateIcon(armed.(waitingForReport := false, battery := 0.0));
          EffectsCons(Write(BatteryQueryFrame()), icon.effects);
          Step(icon.next, [Write(BatteryQueryFrame())] + icon.effects, false)
  }

  /**
    `Callback`: a read completed with `data`. On a 0x04 report it issues a
    follow-up read; `rereadRaises` says whether that `ReadReport` call raised,
    which nothing in `Callback` catches.
   */
  function Callback(t: State, data: seq<byte>, rereadRaises: bool): (s: Step)
    ensures !s.next.waitingForReport
    ensures Writes(s.effects) == []
    ensures s.next.sidetoneFull == t.sidetoneFull && s.next.devicePresent == t.devicePresent
    ensures Decode(data).ReadAgain? ==>
              && s.next.battery == t.battery && s.next.charging == t.charging
              && ReadTimeouts(s.effects) == (if t.devicePresent && !rereadRaises then [None] else [])
    ensures Decode(data).ReadAgain? && t.devicePresent && !rereadRaises ==> s.effects == [IssueRead(None)]
    ensures Decode(data).ReadAgain? && (!t.devicePresent || rereadRaises) ==> s.effects == []
    ensures !Decode(data).ReadAgain? ==> ReadTimeouts(s.effects) == []
    ensures Decode(data).Truncated? ==>
              && s.effects == []
              && s.next.charging == t.charging
              && s.next.battery == (if Decode(data).partial.Some? then Level(Decode(data).partial.value) else t.battery)
    ensures Decode(data).Reading? ==>
              && s.next.battery == Level(Decode(data).voltage)
              && (s.next.charging <==> data[5] == FlagCharging)
              && s.effects == [Render(SelectGlyph(s.next.battery, s.next.sidetoneFull, s.next.charging))]
    ensures s.threw <==> Decode(data).Truncated? || (Decode(data).ReadAgain? && (!t.devicePresent || rereadRaises))
    ensures BatteryInRange(t) ==> BatteryInRange(s.next)
  {
    var cleared := t.(waitingForReport := false);
    match Decode(data)
    case ReadAgain =>
      if cleared.devicePresent && !rereadRaises then Step(cleared, [IssueRead(None)], false)
      else Step(cleared, [], true)
    case Truncated(None) =>
      Step(cleared, [], true)
    case Truncated(Some(voltage)) =>
      Step(cleared.(battery := Level(voltage)), [], true)
    case Reading(voltage, charging) =>
      UpdateIcon(cleared.(battery := Level(voltage), charging := charging))
  }

  /** `NotifyIcon_OnMouseClick`: left toggles sidetone, middle polls, any other button does nothing. */
  function OnMouseClick(t: State, button: Button, x: Exchange): (s: Step)
    ensures button == Left ==>
              && s.next.sidetoneFull == !t.sidetoneFull
              && s.next.battery == t.battery && s.next.charging == t.charging
              && s.next.devicePresent == t.devicePresent
              && Writes(s.effects) == (if t.devicePresent then [SidetoneFrame(t.sidetoneFull)] else [])
              && ReadTimeouts(s.effects) == []
              && (s.threw <==> !t.devicePresent)
              && (t.devicePresent ==> !s.next.waitingForReport)
              && (!t.devicePresent ==> s.next.waitingForReport == t.waitingForReport)
              && (t.devicePresent ==>
                    s.effects == [Write(SidetoneFrame(t.sidetoneFull)),
                                  Render(SelectGlyph(t.battery, !t.sidetoneFull, t.charging))])
              && (!t.devicePresent ==> s.effects == [])
    ensures button == Middle ==> s == UpdateUsb(t, x)
    ensures button == Right ==> s == Step(t, [], false)
  {
    match button
    case Left =>
      var frame := SidetoneFrame(t.sidetoneFull);
      var flipped := t.(sidetoneFull := !t.sidetoneFull);
      if !flipped.devicePresent then Step(flipped, [], true)
      else
        var icon := UpdateIcon(flipped);
        EffectsCons(Write(frame), icon.effects);
        Step(icon.next, [Write(frame)] + icon.effects, false)
    case Middle => UpdateUsb(t, x)
    case Right => Step(t, [], false)
  }

  function Handle(t: State, e: Event): (s: Step)
    ensures s.next.devicePresent == t.devicePresent
    ensures BatteryInRange(t) ==> BatteryInRange(s.next)
    ensures !t.devicePresent && !t.waitingForReport ==> !s.next.waitingForReport
  {
    match e
    case TimerTick(x) => UpdateUsb(t, x)
    case DoubleClick(x) => UpdateUsb(t, x)
    case MouseClick(button, x) => OnMouseClick(t, button, x)
    case ReadCompleted(data, rereadRaises) => Callback(t, data, rereadRaises)
  }

  /** The constructor: fields at their defaults, then one `UpdateUSB`. */
  function Startup(devicePresent: bool, x: Exchange): Step {
    UpdateUsb(Initial(devicePresent), x)
  }

  /** Feeds events to the handlers in order; a raised exception does not stop later events. */
  function Run(t: State, events: seq<Event>): Trace
    decreases |events|
  {
    if |events| == 0 then Trace(t, [])
    else
      var s := Handle(t, events[0]);
      var rest := Run(s.next, events[1..]);
      Trace(rest.final, s.effects + rest.effects)
  }

  predicate IsPoll(e: Event) {
    e.TimerTick? || e.DoubleClick? || (e.MouseClick? && e.button == Middle)
  }
}
