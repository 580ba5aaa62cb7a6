/** The backlight that follows the light sensor: readings are debounced, and while the device is not docked
    the backlight follows the highest reading, so that it does not flicker down. */
module AutoBrightness {

  ghost predicate Rising(xs: seq<int>) {
    forall i, j :: 0 <= i < j < |xs| ==> xs[i] <= xs[j]
  }

  /** The value used when the tables do not fit each other. */
  const FULL: int := 255

  /** How many levels lie at or below a reading before the first one above it. */
  function LevelOf(levels: seq<int>, reading: int): (n: nat)
    ensures n <= |levels|
    ensures forall i :: 0 <= i < n ==> levels[i] <= reading
    ensures n < |levels| ==> reading < levels[n]
  {
    if levels == [] || reading < levels[0] then 0 else 1 + LevelOf(levels[1..], reading)
  }

  function Lookup(levels: seq<int>, values: seq<int>, reading: int): int {
    var i := LevelOf(levels, reading);
    if i < |values| then values[i] else FULL
  }

  /** The first level above a reading is at i, or there is none and i is behind them all. */
  predicate IsFirstAbove(levels: seq<int>, reading: int, i: nat) {
    && i <= |levels|
    && (forall j :: 0 <= j < i ==> levels[j] <= reading)
    && (i < |levels| ==> reading < levels[i])
  }

  /** Tables under which a higher reading never gives a lower value: there is one value more than levels, or
      no value exceeds the one used for those that are missing. */
  ghost predicate WellFormed(levels: seq<int>, values: seq<int>) {
    && Rising(levels) && Rising(values)
    && (|values| > |levels| || forall i :: 0 <= i < |values| ==> values[i] <= FULL)
  }

  lemma LookupIsMonotone(levels: seq<int>, values: seq<int>, x: int, y: int)
    requires WellFormed(levels, values) && x <= y
    ensures Lookup(levels, values, x) <= Lookup(levels, values, y)
  {
    var i, j := LevelOf(levels, x), LevelOf(levels, y);
    assert j < |levels| ==> levels[j] > x;
  }

  /** The highest of some readings, and -1 if there is none above. */
  function Highest(readings: seq<int>): int {
    if readings == [] then -1
    else
      var before := Highest(readings[..|readings| - 1]);
      if before < readings[|readings| - 1] then readings[|readings| - 1] else before
  }

  lemma {:induction false} HighestIsMaximum(readings: seq<int>)
    ensures Highest(readings) >= -1 && forall r :: r in readings ==> r <= Highest(readings)
    ensures Highest(readings) == -1 || Highest(readings) in readings
  {
    if readings != [] {
      HighestIsMaximum(readings[..|readings| - 1]);
      assert readings == readings[..|readings| - 1] + [readings[|readings| - 1]];
    }
  }

  lemma HighestOfMore(readings: seq<int>, r: int)
    ensures Highest(readings + [r]) == if Highest(readings) < r then r else Highest(readings)
  {
    assert (readings + [r])[..|readings|] == readings;
  }

  datatype Event =
    | Sensor(reading: nat, turningOff: bool, warmingUp: bool)
    | Task
    | Keyboard(visible: bool)
    | Mode(automatic: bool)
    | Dock(docked: bool)
    | ScreenBit(on: bool)
    | ScreenState(on: bool)

  class LightSensor {
    const levels: seq<int>
    const lcdValues: seq<int>
    var screenOn: bool
    var docked: bool
    var keyboardVisible: bool
    var automatic: bool
    var sensorEnabled: bool
    var sensorValue: int
    var highest: int
    var pending: int
    var taskQueued: bool
    var brightness: int

    /** The readings taken over since the highest was last reset. */
    ghost var accepted: seq<int>
    /** The reading that the sensor reported last. */
    ghost var newest: int

    ghost predicate Valid()
      reads this
    {
      && WellFormed(levels, lcdValues)
      && highest == Highest(accepted) && sensorValue >= -1
      && (taskQueued ==> pending == newest && 0 <= pending != sensorValue)
    }

    /** The value for the current reading in a dock, else for the highest. */
    function Due(docked: bool): int
      reads `sensorValue, `highest
    {
      Lookup(levels, lcdValues, if docked then sensorValue else highest)
    }

    /** The backlight value is the one that is due, if there is a reading. */
    predicate Current()
      reads this
    {
      sensorValue != -1 ==> brightness == Due(docked)
    }

    /** Away from a dock, with a current backlight value and the reading counted in the highest. */
    predicate Steady()
      reads this
    {
      !docked && screenOn && 0 <= sensorValue <= highest && Current()
    }

    /** Whether an event makes a backlight miss what is due: docking or undocking while the screen is not on, with
        a reading for which something else is due then. */
    predicate Misses(e: Event)
      reads this
    {
      e.Dock? && !screenOn && sensorValue != -1 && e.docked != docked && Due(e.docked) != Due(docked)
    }

    /** Whether an event makes up for it: a new reading right after the screen went on, or a debounced one; a forced
        computation; docking or undocking for which the value happens to fit; or the end of the readings. */
    predicate Recovers(e: Event)
      reads this
    {
      match e
      case Sensor(reading, turningOff, warmingUp) => screenOn && !turningOff && warmingUp && reading != sensorValue
      case Task => screenOn && taskQueued
      case Keyboard(visible) => screenOn && visible != keyboardVisible
      case Mode(enabled) => screenOn && enabled != automatic
      case Dock(isDocked) => screenOn || brightness == Due(isDocked)
      case ScreenBit(_) => false
      case ScreenState(on) => !on
    }

    constructor (levels: seq<int>, lcdValues: seq<int>, automatic: bool)
      requires WellFormed(levels, lcdValues)
      ensures Valid() && !docked && !screenOn && accepted == [] && sensorValue == -1
      ensures this.levels == levels && this.lcdValues == lcdValues
    {
      this.levels, this.lcdValues, this.automatic := levels, lcdValues, automatic;
      screenOn, docked, keyboardVisible, sensorEnabled, taskQueued := false, false, false, false, false;
      sensorValue, highest, pending, brightness := -1, -1, -1, -1;
      accepted, newest := [], -1;
    }

    /** getAutoBrightnessValue */
    method GetAutoBrightnessValue(reading: int, values: seq<int>) returns (value: int)
      ensures value == Lookup(levels, values, reading)
      ensures forall i: nat :: IsFirstAbove(levels, reading, i) ==> value == if i < |values| then values[i] else 255
      ensures exists i: nat :: IsFirstAbove(levels, reading, i)
    {
      var i := 0;
      while i < |levels|
        invariant i <= |levels|
        invariant LevelOf(levels, reading) == i + LevelOf(levels[i..], reading)
        invariant forall j :: 0 <= j < i ==> levels[j] <= reading
      {
        if reading < levels[i] { break; }
        i := i + 1;
      }
      assert IsFirstAbove(levels, reading, i);
      if i < |values| { return values[i]; }
      return FULL;
    }

    /** lightSensorChangedLocked */
    method LightSensorChangedLocked(value: int)
      requires WellFormed(levels, lcdValues) && highest == Highest(accepted)
      modifies this`highest, this`sensorValue, this`brightness, this`accepted
      ensures highest == Highest(accepted)
      ensures !screenOn ==> unchanged(this)
      ensures screenOn ==> accepted == old(accepted) + [value] && sensorValue == value <= highest
      ensures screenOn && value != old(sensorValue) ==> brightness == Due(docked)
      ensures screenOn && value != old(sensorValue) ==>
        brightness == Lookup(levels, lcdValues, if docked then value else highest)
      ensures value == old(sensorValue) ==> brightness == old(brightness)
      ensures screenOn ==> highest == if old(highest) < value then value else old(highest)
      ensures old(!docked && sensorValue != -1 && Current()) ==> brightness >= old(brightness)
    {
      hide Lookup, WellFormed, Highest;
      if !screenOn { return; }
      LookupIsMonotone(levels, lcdValues, highest, if highest < value then value else highest);
      HighestOfMore(accepted, value);
      accepted := accepted + [value];
      if highest < value { highest := value; }
      if sensorValue != value {
        sensorValue := value;
        brightness := GetAutoBrightnessValue(if docked then value else highest, lcdValues);
      }
    }

    /** Take the current reading as new, so that the backlight is computed again. */
    method Recompute()
      requires Valid() && screenOn && sensorValue >= 0
      modifies this`highest, this`sensorValue, this`brightness, this`accepted
      ensures Valid() && Current() && (old(Steady()) ==> Steady() && brightness >= old(brightness))
      ensures sensorValue == old(sensorValue) && accepted == old(accepted) + [sensorValue]
    {
      hide Lookup, WellFormed, Highest;
      LookupIsMonotone(levels, lcdValues, highest, if highest < sensorValue then sensorValue else highest);
      var value := sensorValue;
      sensorValue := -1;
      LightSensorChangedLocked(value);
    }

    /** A reading: dropped while the screen turns off; taken over at once right after the screen went on;
        else only if no other one follows for a while. */
    method OnSensorChanged(value: nat, turningOff: bool, warmingUp: bool)
      requires Valid()
      modifies this`highest, this`sensorValue, this`brightness, this`accepted
      modifies this`pending, this`taskQueued, this`newest
      ensures Valid() && old(accepted) <= accepted
      ensures turningOff ==> unchanged(this)
      ensures !turningOff && screenOn && old(sensorValue) != value && (old(sensorValue) == -1 || warmingUp) ==>
        accepted == old(accepted) + [value] && sensorValue == value <= highest && Current()
      ensures turningOff || !screenOn || old(sensorValue) == value || (old(sensorValue) != -1 && !warmingUp) ==>
        unchanged(this`accepted, this`sensorValue, this`brightness, this`highest)
      ensures !turningOff ==> newest == value
      ensures !turningOff ==> (taskQueued <==> old(sensorValue) != value && old(sensorValue) != -1 && !warmingUp)
      ensures old(Steady()) ==> Steady() && brightness >= old(brightness)
    {
      hide Lookup, WellFormed, Highest;
      if turningOff { return; }
      newest := value;
      taskQueued := false;
      if sensorValue != value {
        if sensorValue == -1 || warmingUp {
          LightSensorChangedLocked(value);
        } else {
          pending := value;
          taskQueued := true;
        }
      } else {
        pending := -1;
      }
    }

    /** mAutoBrightnessTask */
    method RunAutoBrightnessTask()
      requires Valid() && taskQueued
      modifies this`highest, this`sensorValue, this`brightness, this`accepted
      modifies this`pending, this`taskQueued
      ensures Valid() && !taskQueued && old(accepted) <= accepted
      ensures screenOn ==> accepted == old(accepted) + [newest] && sensorValue == newest && Current()
      ensures !screenOn ==> unchanged(this`accepted, this`sensorValue, this`brightness, this`highest)
      ensures old(Steady()) ==> Steady() && brightness >= old(brightness)
    {
      hide Lookup, WellFormed, Highest;
      taskQueued := false;
      var value := pending;
      if value >= 0 {
        pending := -1;
        LightSensorChangedLocked(value);
      }
    }

    /** dockStateChanged */
    method DockStateChanged(isDocked: bool)
      requires Valid()
      modifies this`highest, this`sensorValue, this`brightness, this`accepted, this`docked
      ensures Valid() && docked == isDocked && sensorValue == old(sensorValue)
      ensures !screenOn ==> brightness == old(brightness)
      ensures Current() <==> if old(Current()) then !old(Misses(Dock(isDocked))) else old(Recovers(Dock(isDocked)))
      ensures accepted == (if isDocked then [] else old(accepted)) + (if screenOn then [sensorValue] else [])
    {
      hide Lookup, WellFormed;
      docked := isDocked;
      if docked {
        highest := -1;
        accepted := [];
      }
      HighestIsMaximum(accepted);
      if screenOn {
        var value := sensorValue;
        sensorValue := -1;
        LightSensorChangedLocked(value);
      }
    }

    /** The screen bit of the power state goes on or off. */
    method SetScreenOnBit(on: bool)
      requires Valid()
      modifies this`screenOn, this`taskQueued
      ensures Valid() && screenOn == on && (!on ==> !taskQueued)
      ensures on ==> taskQueued == old(taskQueued)
    {
      screenOn := on;
      if !on { taskQueued := false; }
    }

    /** The part of setScreenStateLocked that concerns the sensor: off resets the readings. */
    method SetScreenState(on: bool)
      requires Valid()
      modifies this`sensorEnabled, this`taskQueued, this`sensorValue, this`highest, this`accepted
      ensures Valid() && sensorEnabled == on
      ensures !on ==> sensorValue == -1 && highest == -1 && accepted == []
      ensures on ==> unchanged(this`taskQueued, this`sensorValue, this`highest, this`accepted)
    {
      if sensorEnabled != on {
        sensorEnabled := on;
        if !on { taskQueued := false; }
      }
      if !on {
        sensorValue, highest := -1, -1;
        accepted := [];
      }
    }

    /** The sensor part of setKeyboardVisibility. */
    method SetKeyboardVisibility(visible: bool)
      requires Valid()
      modifies this`highest, this`sensorValue, this`brightness, this`accepted, this`keyboardVisible
      ensures Valid() && keyboardVisible == visible && sensorValue == old(sensorValue) && old(accepted) <= accepted
      ensures if screenOn && visible != old(keyboardVisible) then Current() else Current() == old(Current())
      ensures old(Steady()) ==> Steady() && brightness >= old(brightness)
    {
      hide Lookup, WellFormed, Highest;
      if keyboardVisible != visible {
        keyboardVisible := visible;
        if screenOn && sensorValue >= 0 { Recompute(); }
      }
    }

    /** setScreenBrightnessMode */
    method SetScreenBrightnessMode(enabled: bool)
      requires Valid()
      modifies this`highest, this`sensorValue, this`brightness, this`accepted, this`automatic
      ensures Valid() && automatic == enabled && sensorValue == old(sensorValue) && old(accepted) <= accepted
      ensures if screenOn && enabled != old(automatic) then Current() else Current() == old(Current())
      ensures old(Steady()) ==> Steady() && brightness >= old(brightness)
    {
      hide Lookup, WellFormed, Highest;
      if automatic != enabled {
        automatic := enabled;
        if screenOn && sensorValue >= 0 { Recompute(); }
      }
    }

    /** Any one event.  A backlight that is current stays so unless the event misses what is due; one that is not
        becomes so exactly if the event recovers it. */
    method Handle(e: Event)
      requires Valid()
      modifies this
      ensures Valid()
      ensures Current() <==> if old(Current()) then !old(Misses(e)) else old(Recovers(e))
      ensures !e.Dock? && !e.ScreenBit? && !e.ScreenState? && old(Steady()) ==>
        Steady() && brightness >= old(brightness) && old(accepted) <= accepted
    {
      hide Lookup, WellFormed, Highest;
      match e
      case Sensor(reading, turningOff, warmingUp) => OnSensorChanged(reading, turningOff, warmingUp);
      case Task => if taskQueued { RunAutoBrightnessTask(); }
      case Keyboard(visible) => SetKeyboardVisibility(visible);
      case Mode(enabled) => SetScreenBrightnessMode(enabled);
      case Dock(isDocked) => DockStateChanged(isDocked);
      case ScreenBit(on) => SetScreenOnBit(on);
      case ScreenState(on) => SetScreenState(on);
    }

    /** Any run of readings, debounced ones included, and forced computations, away from a dock and without the
        screen going off: the backlight never goes down, and stays the value for the highest reading
        taken over. */
    method Run(events: seq<Event>)
      requires Valid() && Steady()
      requires forall e :: e in events ==> !e.Dock? && !e.ScreenBit? && !e.ScreenState?
      modifies this
      ensures Valid() && Steady()
      ensures brightness >= old(brightness)
      ensures brightness == Lookup(levels, lcdValues, Highest(accepted))
      ensures old(accepted) <= accepted
    {
      hide Lookup, WellFormed, Highest;
      for i := 0 to |events|
        invariant Valid() && Steady()
        invariant brightness >= old(brightness)
        invariant old(accepted) <= accepted
      {
        Handle(events[i]);
      }
    }

    /** Any run of any events from a current backlight: it is current after every one of them if and only if none of
        them misses what is due. */
    method RunAll(events: seq<Event>) returns (missed: nat, always: bool)
      requires Valid() && Current()
      modifies this
      ensures Valid() && (always ==> Current())
      ensures always <==> missed == 0
    {
      hide Lookup, WellFormed, Highest;
      missed, always := 0, true;
      for i := 0 to |events|
        invariant Valid() && (always ==> Current())
        invariant always <==> missed == 0
      {
        if Misses(events[i]) { missed := missed + 1; }
        Handle(events[i]);
        always := always && Current();
      }
    }
  }

  /** A backlight that is not current: docked while the screen is off, after a high reading and a low one.  The
      backlight stays that of the high reading, although in the dock the low one counts. */
  method DockingInTheDarkIsMissed() returns (sensor: LightSensor)
    ensures sensor.Valid() && sensor.docked && !sensor.screenOn && !sensor.Current()
    ensures sensor.brightness == 20 && sensor.Due(sensor.docked) == 10
  {
    TwoReadings();
    hide Lookup, Highest, WellFormed;
    sensor := new LightSensor([100], [10, 20], true);
    sensor.SetScreenOnBit(true);
    sensor.OnSensorChanged(200, false, true);
    sensor.OnSensorChanged(50, false, true);
    assert sensor.accepted == [200, 50];
    sensor.SetScreenOnBit(false);
    sensor.DockStateChanged(true);
  }

  lemma TwoReadings()
    ensures WellFormed([100], [10, 20]) && Highest([200, 50]) == 200
    ensures Lookup([100], [10, 20], 200) == 20 && Lookup([100], [10, 20], 50) == 10
  {
    assert LevelOf([100], 200) == 1 + LevelOf([100][1..], 200);
    HighestOfMore([], 200);
    HighestOfMore([200], 50);
    assert [] + [200] == [200] && [200] + [50] == [200, 50];
  }
}
