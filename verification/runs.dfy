/**
  Properties of event sequences fed to the tray application's handlers: the
  gate on `_waitingForReport`, the battery bound, the absent-device case, the
  sidetone toggle, and the places where the handlers reopen the gate while a
  read is still outstanding.
 */
module Runs {
  import opened Wrappers
  import opened Bytes
  import opened Frames
  import opened Reports
  import opened Battery
  import opened Icon
  import opened TrayApp

  /**
    Whatever events arrive, `_battery` stays within [0, 99], the device handle
    is kept, and without a device the gate never closes.
   */
  lemma {:induction false} RunKeepsBatteryInRange(t: State, events: seq<Event>)
    requires BatteryInRange(t)
    ensures BatteryInRange(Run(t, events).final)
    ensures Run(t, events).final.devicePresent == t.devicePresent
    ensures !t.devicePresent && !t.waitingForReport ==> !Run(t, events).final.waitingForReport
    decreases |events|
  {
    if |events| > 0 {
      RunKeepsBatteryInRange(Handle(t, events[0]).next, events[1..]);
    }
  }

  /** The constructor leaves `_battery` in range whatever happens to its first poll. */
  lemma StartupInRange(devicePresent: bool, x: Exchange)
    ensures BatteryInRange(Startup(devicePresent, x).next)
    ensures !Startup(devicePresent, x).threw
    ensures !devicePresent ==> Startup(devicePresent, x) == Step(Initial(false), [], false)
  {
  }

  /** While a report is awaited, any number of polls are dropped: no effect, no change. */
  lemma {:induction false} GateDropsPolls(t: State, events: seq<Event>)
    requires t.waitingForReport
    requires forall i :: 0 <= i < |events| ==> IsPoll(events[i])
    ensures Run(t, events) == Trace(t, [])
    decreases |events|
  {
    if |events| > 0 {
      assert Handle(t, events[0]) == Step(t, [], false);
      GateDropsPolls(t, events[1..]);
    }
  }

  /** A burst of polls whose HID calls succeed writes the battery query exactly once. */
  lemma {:induction false} PollBurstWritesOnce(t: State, events: seq<Event>)
    requires t.devicePresent && !t.waitingForReport
    requires |events| >= 1
    requires forall i :: 0 <= i < |events| ==> IsPoll(events[i])
    requires IsPoll(events[0]) && events[0].exchange == Completed
    ensures Writes(Run(t, events).effects) == [BatteryQueryFrame()]
    ensures ReadTimeouts(Run(t, events).effects) == [Some(FirstReadTimeoutMs)]
    ensures Run(t, events).final == t.(waitingForReport := true)
  {
    var s := Handle(t, events[0]);
    assert s == UpdateUsb(t, Completed);
    GateDropsPolls(s.next, events[1..]);
    EffectsAppend(s.effects, []);
    assert s.effects + [] == s.effects;
  }

  /** With no headset, no event that can occur writes, reads or changes the status. */
  lemma {:induction false} AbsentDeviceStaysSilent(t: State, events: seq<Event>)
    requires !t.devicePresent
    requires forall i :: 0 <= i < |events| ==> !events[i].ReadCompleted?
    ensures Writes(Run(t, events).effects) == []
    ensures ReadTimeouts(Run(t, events).effects) == []
    ensures Run(t, events).final.battery == t.battery
    ensures Run(t, events).final.charging == t.charging
    decreases |events|
  {
    if |events| > 0 {
      var s := Handle(t, events[0]);
      AbsentDeviceStaysSilent(s.next, events[1..]);
      EffectsAppend(s.effects, Run(s.next, events[1..]).effects);
    }
  }

  lemma {:induction false} RunCons(t: State, e: Event, rest: seq<Event>)
    ensures var s := Handle(t, e);
            Run(t, [e] + rest) == Trace(Run(s.next, rest).final, s.effects + Run(s.next, rest).effects)
  {
    assert ([e] + rest)[1..] == rest;
  }

  /** Two events run one after the other; the effects are the two steps' effects in order. */
  lemma {:induction false} RunPair(t: State, e1: Event, e2: Event)
    ensures var s1 := Handle(t, e1);
            var s2 := Handle(s1.next, e2);
            Run(t, [e1, e2]) == Trace(s2.next, s1.effects + s2.effects)
  {
    var s1 := Handle(t, e1);
    var s2 := Handle(s1.next, e2);
    assert [e1, e2][1..] == [e2];
    assert [e2][1..] == [];
    assert Run(s1.next, [e2]) == Trace(s2.next, s2.effects + []);
    assert s2.effects + [] == s2.effects;
  }

  lemma {:induction false} RunTriple(t: State, e1: Event, e2: Event, e3: Event)
    ensures var s1 := Handle(t, e1);
            var s2 := Handle(s1.next, e2);
            var s3 := Handle(s2.next, e3);
            Run(t, [e1, e2, e3]) == Trace(s3.next, s1.effects + (s2.effects + s3.effects))
  {
    var s1 := Handle(t, e1);
    var s2 := Handle(s1.next, e2);
    var s3 := Handle(s2.next, e3);
    RunPair(s1.next, e2, e3);
    assert [e1, e2, e3] == [e1] + [e2, e3];
    RunCons(t, e1, [e2, e3]);
  }

  /** Two left clicks restore `_sidetoneFull` and write "full" then "off" or the reverse. */
  lemma ToggleTwiceRestores(t: State, x1: Exchange, x2: Exchange)
    requires t.devicePresent
    ensures var r := Run(t, [MouseClick(Left, x1), MouseClick(Left, x2)]);
            && r.final.sidetoneFull == t.sidetoneFull
            && r.final.battery == t.battery && r.final.charging == t.charging
            && Writes(r.effects) == [SidetoneFrame(t.sidetoneFull), SidetoneFrame(!t.sidetoneFull)]
            && Writes(r.effects)[0][4] != Writes(r.effects)[1][4]
  {
    var s1 := Handle(t, MouseClick(Left, x1));
    var s2 := Handle(s1.next, MouseClick(Left, x2));
    RunPair(t, MouseClick(Left, x1), MouseClick(Left, x2));
    EffectsAppend(s1.effects, s2.effects);
  }

  /**
    `Callback` clears `_waitingForReport` before it looks at byte 1, so after an
    intermediate 0x04 report the next poll writes a second query while the
    follow-up read is still outstanding.
   */
  lemma ReadAgainReopensGate(t: State, data: seq<byte>)
    requires t.devicePresent && !t.waitingForReport
    requires |data| >= 2 && data[1] == KindReadAgain
    ensures var r := Run(t, [TimerTick(Completed), ReadCompleted(data, false), TimerTick(Completed)]);
            && Writes(r.effects) == [BatteryQueryFrame(), BatteryQueryFrame()]
            && ReadTimeouts(r.effects) == [Some(FirstReadTimeoutMs), None, Some(FirstReadTimeoutMs)]
            && r.final.battery == t.battery && r.final.charging == t.charging
  {
    var s1 := Handle(t, TimerTick(Completed));
    assert s1 == UpdateUsb(t, Completed);
    assert s1.next == t.(waitingForReport := true);
    var s2 := Handle(s1.next, ReadCompleted(data, false));
    assert s2 == Callback(s1.next, data, false);
    assert Decode(data).ReadAgain?;
    assert Writes(s2.effects) == [] && ReadTimeouts(s2.effects) == [None];
    assert s2.next == t;
    var s3 := Handle(s2.next, TimerTick(Completed));
    assert s3 == UpdateUsb(t, Completed);
    RunTriple(t, TimerTick(Completed), ReadCompleted(data, false), TimerTick(Completed));
    EffectsAppend(s2.effects, s3.effects);
    EffectsAppend(s1.effects, s2.effects + s3.effects);
  }

  /** A left click mid-exchange runs `UpdateIcon`, which also clears the gate. */
  lemma ToggleReopensGate(t: State, x: Exchange)
    requires t.devicePresent && !t.waitingForReport
    ensures var r := Run(t, [TimerTick(Completed), MouseClick(Left, x), TimerTick(Completed)]);
            && Writes(r.effects) == [BatteryQueryFrame(), SidetoneFrame(t.sidetoneFull), BatteryQueryFrame()]
            && ReadTimeouts(r.effects) == [Some(FirstReadTimeoutMs), Some(FirstReadTimeoutMs)]
  {
    var s1 := Handle(t, TimerTick(Completed));
    assert s1 == UpdateUsb(t, Completed);
    assert s1.next == t.(waitingForReport := true);
    var s2 := Handle(s1.next, MouseClick(Left, x));
    assert s2 == OnMouseClick(s1.next, Left, x);
    assert Writes(s2.effects) == [SidetoneFrame(t.sidetoneFull)] && ReadTimeouts(s2.effects) == [];
    assert s2.next.devicePresent && !s2.next.waitingForReport;
    var s3 := Handle(s2.next, TimerTick(Completed));
    assert s3 == UpdateUsb(s2.next, Completed);
    assert Writes(s1.effects) == [BatteryQueryFrame()] && ReadTimeouts(s1.effects) == [Some(FirstReadTimeoutMs)];
    assert Writes(s3.effects) == [BatteryQueryFrame()] && ReadTimeouts(s3.effects) == [Some(FirstReadTimeoutMs)];
    RunTriple(t, TimerTick(Completed), MouseClick(Left, x), TimerTick(Completed));
    var r := Run(t, [TimerTick(Completed), MouseClick(Left, x), TimerTick(Completed)]);
    assert r.effects == s1.effects + (s2.effects + s3.effects);
    EffectsAppend(s2.effects, s3.effects);
    EffectsAppend(s1.effects, s2.effects + s3.effects);
  }

  /** A charging report whose voltage bytes are 0x0F 0x50 (3920 mV). */
  function SampleReport(): (data: seq<byte>)
    ensures |data| == 20 && data[1] == 0x01 && data[5] == FlagCharging
  {
    [0x11, 0x01, 0x08, 0x0F, 0x50, 0x03, 0, 0, 0, 0, 0, 0, 0, 0, 0, 0, 0, 0, 0, 0]
  }

  /** End to end: poll, then the sample report; the icon shows about 61 in the charging colour. */
  lemma SampleReportEndToEnd()
    ensures var r := Run(Initial(true), [TimerTick(Completed), ReadCompleted(SampleReport(), false)]);
            && Decode(SampleReport()) == Reading(3920, true)
            && r.final.battery == Level(3920)
            && 61.0 < r.final.battery < 62.0
            && r.final.charging && !r.final.waitingForReport
            && r.effects[|r.effects| - 1] == Render(Digits(ChargingColour, ChargingColour))
  {
    var events := [TimerTick(Completed), ReadCompleted(SampleReport(), false)];
    assert events[1..] == [ReadCompleted(SampleReport(), false)];
    assert events[1..][1..] == [];
    LevelIsClampedLine(3920);
  }
}
