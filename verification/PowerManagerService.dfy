/** The power manager service: each method is one block that runs with the service lock held.
    Everything that Valid() says is kept by every method, so it holds in every state the service
    can reach under any interleaving of callers, sensors, timers and handler tasks. */
module PowerManagerService {
  import opened PowerBits
  import C = WakeLockCache
  import L = WakeLockList
  import N = NotificationQueue
  import G = ScreenLog
  import T = ScreenTimeouts
  import R = BrightnessRamp

  const PROXIMITY_SENSOR_DELAY := 1000
  const ANIM_STEPS := 15
  const INITIAL_SCREEN_BRIGHTNESS := 255
  const BRIGHTNESS_DIM := 20
  const BRIGHTNESS_OFF := 0

  /** What one block reads from outside the service: the clocks, the battery, the settings, the
      permission of the caller and whether the display driver reports an error. */
  datatype Env = Env(
    uptime: int,
    elapsed: int,
    batteryLow: bool,
    preferredBrightness: nat,
    hasDevicePower: bool,
    screenOnFails: bool,
    screenOffFails: bool)

  datatype EventType = OtherEvent | ButtonEvent | TouchEvent | LongTouchEvent | TouchUpEvent | CheekEvent

  /** What callers and the rest of the system can ask of the service. */
  datatype Call =
    | Acquire(id: nat, flags: LockFlags)
    | Release(id: nat, flags: LockFlags, waitForNegative: bool)
    | Activity(time: int, timeoutOverride: int, noChangeLights: bool, eventType: EventType, force: bool)
    | Sleep(time: int, reason: int)
    | Prevent(on: bool)
    | ProximityReading(active: bool)
    | Battery(changed: bool, wasPowered: bool, unplugTurnsOnScreen: bool, stayOn: bool)
    | Settings(stayOn: bool, screenOffTimeout: int)
    | Poke(bits: set<T.PokeBit>, token: T.PokeToken)
    | EnableActivity(enabled: bool)
    | Keyboard(visible: bool)
    | Retarget(target: nat, steps: nat, nominal: int)
    | Ready
    | Boot(stayOn: bool)

  /** The tasks the service queues on its handlers, and the broadcasts it waits for. */
  datatype Task =
    | CountdownTask
    | AnimatorTask
    | ReenableTask
    | HeldReadingTask
    | DrainTask
    | DrainStep
    | BroadcastReceiver

  datatype Block = Called(call: Call) | Queued(task: Task)

  /** An UnsynchronizedWakeLock: a lock the service takes for itself. */
  datatype InternalLock = InternalLock(token: Token, refCounted: bool, count: int, held: bool)

  ghost predicate InternalOk(l: InternalLock, listed: set<Token>) {
    && (l.held <==> l.token in listed)
    && (if l.refCounted then l.count >= 0 && (l.held <==> l.count > 0) else l.count == 0)
  }

  lemma OthersStayOk(before: set<Token>, after: set<Token>, t: Token)
    requires forall u :: u != t ==> (u in after <==> u in before)
    ensures forall l: InternalLock :: l.token != t && InternalOk(l, before) ==> InternalOk(l, after)
  {
  }

  /** The locks of clients among a set of listed locks. */
  ghost function Clients(listed: set<Token>): set<Token> {
    set t: Token | t in listed && t.Client?
  }

  lemma ClientsWithout(listed: set<Token>, t: Token)
    ensures Clients(listed - {t}) == Clients(listed) - {t}
    ensures t !in listed ==> Clients(listed) - {t} == Clients(listed)
  {
  }

  /** The state setPowerState aims at, before the boot rule is applied. */
  function Wanted(power: PowerState, newState: PowerState, noChangeLights: bool, proximityActive: bool,
                  batteryLow: bool): PowerState {
    var s1 := if noChangeLights then (newState - LIGHTS_MASK) + (power * LIGHTS_MASK) else newState;
    var s2 := if proximityActive then s1 - SCREEN_BRIGHT else s1;
    if batteryLow then s2 + {BatteryLow} else s2 - {BatteryLow}
  }

  /** The power state after setPowerState.  The battery bit is only compared, never stored; the
      screen bit is set last, and only if the driver could switch the screen on. */
  function NextPower(power: PowerState, wanted: PowerState, forceBright: bool, turnOnFails: bool): PowerState {
    if wanted == power then power
    else
      var target := if forceBright then wanted + ALL_BRIGHT else wanted;
      var lit := (power - LIGHTS_MASK) + (target * LIGHTS_MASK);
      if ScreenOn !in target then lit - {ScreenOn}
      else if ScreenOn in power || !turnOnFails then lit + {ScreenOn}
      else lit
  }

  /** Whether a change asks for a bit: the lights as they are if they are not to change, and no screen while
      something is near. */
  predicate Asks(b: PowerBit, power: PowerState, newState: PowerState, noChangeLights: bool, proximityActive: bool) {
    match b
    case ScreenOn => ScreenOn in newState && !proximityActive
    case ScreenBright => ScreenBright in (if noChangeLights then power else newState) && !proximityActive
    case BatteryLow => false
    case _ => b in if noChangeLights then power else newState
  }

  /** Every bit of the power state after a change, and of the state whose lights are applied.  The lights become
      those asked for; the screen is on exactly if that is asked for and it was on or the driver does not fail.
      Before boot all lights and the screen go on instead, unless the state asked for is there already. */
  lemma BitsOfAChange(power: PowerState, newState: PowerState, noChangeLights: bool, proximityActive: bool,
                      batteryLow: bool, forceBright: bool, fails: bool, b: PowerBit)
    requires BatteryLow !in power
    ensures var wanted := Wanted(power, newState, noChangeLights, proximityActive, batteryLow);
      var next, lit := NextPower(power, wanted, forceBright, fails), Target(power, wanted, forceBright);
      var there := !batteryLow &&
        forall a: PowerBit :: a in power <==> Asks(a, power, newState, noChangeLights, proximityActive);
      var due := if forceBright && !there then b != BatteryLow
        else Asks(b, power, newState, noChangeLights, proximityActive);
      && (b in next <==> due && (b == ScreenOn ==> ScreenOn in power || !fails))
      && (b != BatteryLow ==> (b in lit <==> due))
  {
    var wanted := Wanted(power, newState, noChangeLights, proximityActive, batteryLow);
    forall a: PowerBit ensures a in wanted <==>
      if a == BatteryLow then batteryLow else Asks(a, power, newState, noChangeLights, proximityActive)
    {
    }
    assert wanted == power <==>
      !batteryLow && forall a: PowerBit :: a in power <==> Asks(a, power, newState, noChangeLights, proximityActive);
  }

  /** The battery bit is never stored, so a low battery keeps every state from being recognised as the one that
      is there already. */
  lemma LowBatteryIsNeverStored(power: PowerState, newState: PowerState, noChangeLights: bool, proximityActive: bool,
                                batteryLow: bool, forceBright: bool, fails: bool)
    requires BatteryLow !in power
    ensures BatteryLow !in NextPower(power, Wanted(power, newState, noChangeLights, proximityActive, batteryLow),
      forceBright, fails)
    ensures batteryLow ==> Wanted(power, newState, noChangeLights, proximityActive, batteryLow) != power
    ensures Wanted(power, power, noChangeLights, false, batteryLow) == power <==> !batteryLow
  {
    assert batteryLow ==> BatteryLow in Wanted(power, newState, noChangeLights, proximityActive, batteryLow);
    assert batteryLow ==> BatteryLow in Wanted(power, power, noChangeLights, false, batteryLow);
  }

  /** The state whose lights are applied; nothing is if the state aimed at is already there. */
  function Target(power: PowerState, wanted: PowerState, forceBright: bool): PowerState {
    if wanted == power then power else if forceBright then wanted + ALL_BRIGHT else wanted
  }

  function TargetLevel(newState: PowerState, preferred: nat): nat {
    if ScreenBright in newState then preferred
    else if ScreenOn in newState then BRIGHTNESS_DIM
    else BRIGHTNESS_OFF
  }

  /** The level the animation is taken to start from, given the old screen bits. */
  function NominalLevel(oldState: PowerState, newState: PowerState, preferred: nat, cur: real): int {
    if newState * SCREEN_BRIGHT == oldState * SCREEN_BRIGHT then -1
    else if ScreenOn in oldState then (if ScreenBright in oldState then preferred else BRIGHTNESS_DIM)
    else if ScreenBright in oldState then R.Trunc(cur)
    else BRIGHTNESS_OFF
  }

  /** The steps of the brightness animation that updateLightsLocked asks for. */
  function AnimationSteps(oldState: PowerState, newState: PowerState, preferred: nat): nat {
    var ratio := if preferred <= BRIGHTNESS_DIM then 1.0 else BRIGHTNESS_DIM as real / preferred as real;
    if ScreenBright in newState then ANIM_STEPS
    else if ScreenOn !in newState then
      if ScreenBright in oldState then ANIM_STEPS else StepCount(ratio * 1.5)
    else if ScreenOn in oldState then StepCount((1.0 - ratio) * 1.5)
    else StepCount(ratio)
  }

  function StepCount(scale: real): nat {
    var steps := R.Trunc(ANIM_STEPS as real * scale);
    if steps < 0 then 0 else steps
  }

  /** The brightness animation after a change of the lights. */
  function NextLights(r: R.Ramp, power: PowerState, target: PowerState, preferred: nat): R.Ramp {
    if target * SCREEN_BRIGHT == power * SCREEN_BRIGHT then r
    else R.Retargeted(r, TargetLevel(target, preferred), AnimationSteps(power, target, preferred),
      INITIAL_SCREEN_BRIGHTNESS, NominalLevel(power, target, preferred, r.cur))
  }

  /** The light of a state: the preferred level, the dim level 20, or 0. */
  function LevelOf(bright: bool, on: bool, preferred: nat): nat {
    if bright then preferred else if on then 20 else 0
  }

  /** In how many steps the light goes from one state to another: 15, and less for the shorter ways to and from the
      dim level, in proportion to it. */
  function StepsBetween(power: PowerState, target: PowerState, preferred: nat): nat {
    if ScreenBright in target || (ScreenOn !in target && ScreenBright in power) then 15
    else if ScreenOn !in target then (if preferred <= 20 then 22 else 450 / preferred)
    else if ScreenOn in power then (if preferred <= 20 then 0 else (45 * preferred - 900) / (2 * preferred))
    else if preferred <= 20 then 15
    else 300 / preferred
  }

  lemma StepsBetweenIs(power: PowerState, target: PowerState, preferred: nat)
    ensures AnimationSteps(power, target, preferred) == StepsBetween(power, target, preferred)
  {
    hide StepCount;
    if preferred > 20 {
      ShareOfSteps(preferred);
    } else {
      AllSteps();
    }
  }

  lemma AllSteps()
    ensures StepCount(1.0 * 1.5) == 22 && StepCount((1.0 - 1.0) * 1.5) == 0 && StepCount(1.0) == 15
  {
  }

  lemma ShareOfSteps(preferred: nat)
    requires preferred > 20
    ensures var ratio := BRIGHTNESS_DIM as real / preferred as real;
      && StepCount(ratio * 1.5) == 450 / preferred
      && StepCount(ratio) == 300 / preferred
      && StepCount((1.0 - ratio) * 1.5) == (45 * preferred - 900) / (2 * preferred)
  {
    var ratio := BRIGHTNESS_DIM as real / preferred as real;
    Undivided(20.0, preferred as real);
    Shares(ratio, preferred as real);
    StepCountIs(ratio * 1.5, 450, preferred);
    StepCountIs(ratio, 300, preferred);
    StepCountIs((1.0 - ratio) * 1.5, 45 * preferred - 900, 2 * preferred);
  }

  lemma Undivided(a: real, n: real)
    requires n > 0.0
    ensures a / n * n == a
  {
  }

  lemma Shares(ratio: real, p: real)
    requires ratio * p == 20.0
    ensures 15.0 * (ratio * 1.5) * p == 450.0
    ensures 15.0 * ratio * p == 300.0
    ensures 15.0 * ((1.0 - ratio) * 1.5) * (2.0 * p) == 45.0 * p - 900.0
  {
    assert 15.0 * (ratio * 1.5) * p == 22.5 * (ratio * p);
    assert 15.0 * ratio * p == 15.0 * (ratio * p);
    assert 15.0 * ((1.0 - ratio) * 1.5) * (2.0 * p) == 45.0 * p - 45.0 * (ratio * p);
  }

  lemma StepCountIs(scale: real, a: nat, n: nat)
    requires n > 0 && 15.0 * scale * n as real == a as real
    ensures StepCount(scale) == a / n
  {
    QuotientBounds(a, n);
    FloorIs(15.0 * scale, a, n, a / n, a / n * n);
  }

  lemma QuotientBounds(a: nat, n: nat)
    requires n > 0
    ensures a / n * n <= a < a / n * n + n
  {
  }

  lemma FloorIs(x: real, a: nat, n: nat, q: nat, whole: nat)
    requires n > 0 && x * n as real == a as real && whole == q * n && whole <= a < whole + n
    ensures R.Trunc(x) == q
  {
    CastProduct(q, n);
    Within(x, q as real, n as real, whole as real, a as real);
    Truncated(x, q);
  }

  lemma Truncated(x: real, q: nat)
    requires q as real <= x < q as real + 1.0
    ensures R.Trunc(x) == q
  {
  }

  lemma Within(x: real, q: real, n: real, qn: real, xn: real)
    requires n > 0.0 && qn == q * n && xn == x * n && qn <= xn < qn + n
    ensures q <= x < q + 1.0
  {
    Cancel(q, x, n);
    OneTimeMore(q, n);
    Cancel(x, q + 1.0, n);
  }

  lemma OneTimeMore(q: real, n: real)
    ensures (q + 1.0) * n == q * n + n
  {
  }

  lemma Cancel(a: real, b: real, n: real)
    requires n > 0.0
    ensures a * n <= b * n ==> a <= b
    ensures a * n < b * n ==> a < b
  {
    if a > b { assert (a - b) * n > 0.0; }
    if a == b { assert a * n == b * n; }
  }

  lemma {:induction false} CastProduct(q: nat, n: nat)
    ensures (q * n) as real == q as real * n as real
  {
    if q > 0 {
      CastProduct(q - 1, n);
      assert q * n == (q - 1) * n + n;
      assert q as real * n as real == (q - 1) as real * n as real + n as real;
    }
  }

  /** The animation that a change of the screen bits asks for, in plain numbers: from the level of the old state to
      that of the new one.  A screen that is bright but not on, after the driver has failed, counts as where it is. */
  lemma LightsOfAChange(r: R.Ramp, power: PowerState, target: PowerState, preferred: nat)
    requires (ScreenOn in power <==> ScreenOn !in target) || (ScreenBright in power <==> ScreenBright !in target)
    ensures var from := if ScreenBright in power && ScreenOn !in power then R.Trunc(r.cur)
        else LevelOf(ScreenBright in power, ScreenOn in power, preferred);
      NextLights(r, power, target, preferred) == R.Retargeted(r,
        LevelOf(ScreenBright in target, ScreenOn in target, preferred),
        StepsBetween(power, target, preferred), 255, from)
  {
    StepsBetweenIs(power, target, preferred);
    assert forall b :: b in SCREEN_BRIGHT ==> (b in power * SCREEN_BRIGHT <==> b in power);
    assert forall b :: b in SCREEN_BRIGHT ==> (b in target * SCREEN_BRIGHT <==> b in target);
    assert target * SCREEN_BRIGHT != power * SCREEN_BRIGHT;
  }

  /** From a settled light the change takes all its steps: after k of n it is k n-ths of the way, and it ends with the
      last one, not before. */
  lemma SettledFadeTakesItsSteps(r: R.Ramp, power: PowerState, target: PowerState, preferred: nat, k: nat)
    requires (ScreenOn in power <==> ScreenOn !in target) || (ScreenBright in power <==> ScreenBright !in target)
    requires ScreenBright in power ==> ScreenOn in power
    requires r.initialized && R.Landed(r, LevelOf(ScreenBright in power, ScreenOn in power, preferred))
    requires var way := LevelOf(ScreenBright in target, ScreenOn in target, preferred) - r.target;
      var n := StepsBetween(power, target, preferred);
      n > 0 && (way >= n || -way >= n)
    ensures var level := LevelOf(ScreenBright in target, ScreenOn in target, preferred);
      var n := StepsBetween(power, target, preferred);
      var now := R.Steps(NextLights(r, power, target, preferred), k);
      if k >= n then R.Landed(now, level)
      else now.animating && now.cur == r.cur + k as real * ((level as real - r.cur) / n as real)
  {
    hide R.Steps, R.Retargeted, NextLights, StepsBetween, LevelOf;
    LightsOfAChange(r, power, target, preferred);
    R.RampTakesAllItsSteps(r, LevelOf(ScreenBright in target, ScreenOn in target, preferred),
      StepsBetween(power, target, preferred), 255, r.target, k);
  }

  /** Whether a change of the screen bits is done in the number of steps it is given: unless the level is
      behind that of the old state, below it on the way up or one or more above it on the way down. */
  predicate LightsOnTime(power: PowerState, target: PowerState, preferred: nat, level: real) {
    var old_, new_ := TargetLevel(power, preferred), TargetLevel(target, preferred);
    || ScreenOn !in power
    || AnimationSteps(power, target, preferred) == 0
    || ((new_ > old_ ==> level >= old_ as real) && (new_ < old_ ==> level < old_ as real + 1.0))
  }

  /** Whether the animation ends on the level of the new state within the steps given to the change. */
  predicate Lands(r: R.Ramp, power: PowerState, target: PowerState, preferred: nat) {
    R.Landed(R.Steps(r, R.Max(AnimationSteps(power, target, preferred), 1)), TargetLevel(target, preferred))
  }

  /** An animation that heads for the level of the new state already is left as it is, whatever level it comes
      from: it is done in time if its straight line gets there in the steps of the change, or if it has ended
      there.  Any other is started anew, and is done in time if the level is not behind. */
  predicate ChangeOnTime(r: R.Ramp, power: PowerState, target: PowerState, preferred: nat) {
    if r.initialized && r.target == TargetLevel(target, preferred) then
      if r.animating then R.Reached(r, R.Max(AnimationSteps(power, target, preferred), 1))
      else r.cur == r.target as real
    else
      LightsOnTime(power, target, preferred, if r.initialized then r.cur else INITIAL_SCREEN_BRIGHTNESS as real)
  }

  /** A change of the screen bits ends on the level of the new state, within the steps it is given, if and only
      if it is on time. */
  lemma {:induction false} LightsLandIff(r: R.Ramp, power: PowerState, target: PowerState, preferred: nat)
    requires target * SCREEN_BRIGHT != power * SCREEN_BRIGHT && r.cur >= 0.0 && (!r.initialized ==> r.cur == 0.0)
    ensures Lands(NextLights(r, power, target, preferred), power, target, preferred)
       <==> ChangeOnTime(r, power, target, preferred)
  {
    var steps, nominal := AnimationSteps(power, target, preferred), NominalLevel(power, target, preferred, r.cur);
    if r.initialized && r.target == TargetLevel(target, preferred) {
      if r.animating { R.LandsIff(r, R.Max(steps, 1)); } else { R.RestsWhereItIs(r, R.Max(steps, 1)); }
    } else {
      R.RampLandsIff(r, TargetLevel(target, preferred), steps, INITIAL_SCREEN_BRIGHTNESS, nominal, R.Max(steps, 1));
    }
  }

  /** Late although the level is not behind: a fade from bright at 255 to dim at 20 is under way when the preferred
      level drops to 20 and the screen goes bright.  The slow fade goes on, and does not end in 15 steps. */
  lemma BrightAtTheDimLevelIsLate()
    ensures var fade := R.Ramp(true, 20, 255.0, R.Finite(-11.75), true);
      && AnimationSteps(SCREEN_DIM, SCREEN_BRIGHT, 20) == 15
      && LightsOnTime(SCREEN_DIM, SCREEN_BRIGHT, 20, fade.cur)
      && !Lands(NextLights(fade, SCREEN_DIM, SCREEN_BRIGHT, 20), SCREEN_DIM, SCREEN_BRIGHT, 20)
  {
    var fade := R.Ramp(true, 20, 255.0, R.Finite(-11.75), true);
    assert ScreenBright in SCREEN_BRIGHT * SCREEN_BRIGHT && ScreenBright !in SCREEN_DIM * SCREEN_BRIGHT;
    LightsLandIff(fade, SCREEN_DIM, SCREEN_BRIGHT, 20);
    R.WalkIsLinear(255.0, -11.75, 15);
  }

  /** From a level that has settled on that of the old state every change lands, so it settles again. */
  lemma SettledLightsLand(r: R.Ramp, power: PowerState, target: PowerState, preferred: nat)
    requires r.initialized && R.Landed(r, TargetLevel(power, preferred))
    ensures ChangeOnTime(r, power, target, preferred)
    ensures target * SCREEN_BRIGHT != power * SCREEN_BRIGHT ==>
      Lands(NextLights(r, power, target, preferred), power, target, preferred)
  {
    hide Lands, NextLights;
    if target * SCREEN_BRIGHT != power * SCREEN_BRIGHT { LightsLandIff(r, power, target, preferred); }
  }

  /** A change that is late: going off from dim while the fade from bright is still at 200.  One step is given for
      the way from 20 to 0, and it ends at 180. */
  lemma DimToOffDuringAFadeIsLate()
    ensures var fade := R.Ramp(true, 20, 200.0, R.Finite(-20.0), true);
      && AnimationSteps(SCREEN_DIM, SCREEN_OFF, 255) == 1
      && R.Shown(R.Steps(NextLights(fade, SCREEN_DIM, SCREEN_OFF, 255), 1)) == 180
      && !LightsOnTime(SCREEN_DIM, SCREEN_OFF, 255, fade.cur)
  {
    var fade := R.Ramp(true, 20, 200.0, R.Finite(-20.0), true);
    assert ScreenOn in SCREEN_DIM && ScreenOn !in SCREEN_OFF && ScreenBright !in SCREEN_DIM;
    assert ScreenOn in SCREEN_DIM * SCREEN_BRIGHT;
    var next := NextLights(fade, SCREEN_DIM, SCREEN_OFF, 255);
    assert next == R.Ramp(true, 0, 200.0, R.Finite(-20.0), true);
    assert R.Steps(next, 0) == next;
    assert R.Steps(next, 1) == next.(cur := 180.0);
  }

  function GoingOn(b: N.Board, owed: bool, fails: bool): N.Board {
    var b1 := if owed then N.Step(b, N.Request(false, OFF_BECAUSE_OF_USER)) else b;
    if fails then b1 else N.Step(b1, N.Request(true, -1))
  }

  lemma OnBoard(b: N.Board, owed: bool, fails: bool)
    ensures N.Notified(b, G.NoticesOf(owed, G.WentOn(fails))) == GoingOn(b, owed, fails)
  {
    N.NotifiedTwice(b, N.Notice(false, OFF_BECAUSE_OF_USER), N.Notice(true, -1));
    N.NotifiedTwice(b, N.Notice(true, -1), N.Notice(true, -1));
  }

  lemma OnRequests(owed: bool, fails: bool)
    ensures G.NoticesOf(owed, G.WentOn(fails)) ==
      (if owed then [N.Notice(false, OFF_BECAUSE_OF_USER)] else []) + (if fails then [] else [N.Notice(true, -1)])
  {
  }

  lemma NothingChanges(b: N.Board, r: R.Ramp, power: PowerState, preferred: nat, es: seq<G.ScreenEvent>)
    ensures NextLights(r, power, power, preferred) == r
    ensures N.Notified(b, []) == b && es + [] == es
  {
  }

  /** The slots of the notification queue, read as a sequence. */
  ghost function Waiting(slots: seq<int>, why: seq<int>): seq<N.Notice>
    requires |slots| == 3 && |why| == 3
  {
    if slots[0] == -1 then []
    else if slots[1] == -1 then [N.Notice(slots[0] == 1, why[0])]
    else [N.Notice(slots[0] == 1, why[0]), N.Notice(slots[1] == 1, why[1])]
  }

  ghost predicate SlotsOk(slots: seq<int>) {
    && |slots| == 3
    && (forall i :: 0 <= i < 3 ==> -1 <= slots[i] <= 1)
    && (slots[0] == -1 ==> slots[1] == -1)
    && slots[2] == -1
  }

  class PowerManagerService {
    const useSoftwareAutoBrightness: bool
    const animateScreenLights: bool

    const locks: L.LockList
    const timeouts: T.ScreenTimeouts
    const brightness: R.BrightnessState

    var wakeLockState: PowerState
    var userState: PowerState
    var powerState: PowerState
    var screenOffReason: int
    var partialCount: int
    var kernelLockHeld: bool

    var userActivityAllowed: bool
    var keyboardVisible: bool
    var lastEventTime: int

    var proximityCount: int
    var proximityEnabled: bool
    var proximityActive: bool
    var proximityIgnored: bool
    var proximityPending: int
    var proximityTaskQueued: bool
    var lastProximityEventTime: int
    ghost var newestReading: bool
    ghost var redundantAcquires: nat

    var preventScreenOn: bool
    var reenableQueued: bool

    const broadcastQueue: array<int>
    const broadcastWhy: array<int>
    var stillNeedSleepNotification: bool
    var drainPosted: nat
    var drainRunning: bool
    var broadcastsInFlight: nat
    ghost var delivered: seq<N.Notice>
    ghost var requested: seq<N.Notice>
    ghost var screenLog: seq<G.ScreenEvent>

    var broadcastLock: InternalLock
    var stayOnDimLock: InternalLock
    var stayOnPartialLock: InternalLock
    var preventLock: InternalLock
    var proximityLock: InternalLock

    /** How often the display driver has been told to switch the screen on. */
    ghost var screenOnCalls: nat

    ghost predicate Shape()
      reads broadcastQueue
    {
      && broadcastQueue != broadcastWhy
      && broadcastQueue.Length == 3 && broadcastWhy.Length == 3
      && SlotsOk(broadcastQueue[..])
    }

    /** The wake-lock list and what is counted from it. */
    ghost predicate ListOk()
      reads `partialCount, `kernelLockHeld, locks
    {
      && locks.Valid()
      && partialCount == |L.OfKind(locks.tokens, Partial)|
      && (kernelLockHeld <==> partialCount > 0)
    }

    ghost predicate ProximityCountOk()
      reads `proximityCount, `redundantAcquires, `proximityEnabled, locks`tokens
    {
      && proximityCount == |L.OfKind(locks.tokens, ProximityScreenOff)| + redundantAcquires
      && (proximityCount > 0 ==> proximityEnabled)
    }

    ghost predicate InternalLocksOk()
      reads `broadcastLock, `stayOnDimLock, `stayOnPartialLock, `preventLock, `proximityLock, locks`tokens
    {
      && broadcastLock.token == SleepBroadcast && broadcastLock.refCounted
      && stayOnDimLock.token == StayOnScreenDim && !stayOnDimLock.refCounted && stayOnDimLock.count == 0
      && stayOnPartialLock.token == StayOnPartial && !stayOnPartialLock.refCounted
      && preventLock.token == PreventScreenOnPartial && !preventLock.refCounted
      && proximityLock.token == ProximityPartial && !proximityLock.refCounted
      && InternalOk(broadcastLock, locks.tokens)
      && InternalOk(stayOnPartialLock, locks.tokens)
      && InternalOk(preventLock, locks.tokens)
      && InternalOk(proximityLock, locks.tokens)
    }

    ghost function Cache(): C.Cache
      reads `wakeLockState, `userState, locks`screens
    {
      C.Cache(locks.screens, wakeLockState, userState)
    }

    ghost function Board(): N.Board
      reads `broadcastLock, `drainPosted, `drainRunning, `broadcastsInFlight, `delivered, `requested, broadcastQueue
      reads broadcastWhy
      requires Shape()
    {
      N.Board(Waiting(broadcastQueue[..], broadcastWhy[..]), broadcastLock.count, drainPosted, drainRunning,
        broadcastsInFlight, delivered, requested)
    }

    /** What has been requested, and the off that is owed, are those of what happened to the screen. */
    ghost predicate Logged()
      reads `requested, `screenLog, `stillNeedSleepNotification, `screenOffReason
    {
      && requested == G.Notices(screenLog) && stillNeedSleepNotification == G.Owed(screenLog)
      && screenOffReason == G.OffReason(screenLog) && G.FadesKeepTheirReason(screenLog)
    }

    /** All but the screen log. */
    ghost predicate Machine()
      reads `partialCount, `kernelLockHeld, `proximityCount, `redundantAcquires, `proximityEnabled
      reads `broadcastLock, `stayOnDimLock, `stayOnPartialLock, `preventLock, `proximityLock
      reads `drainPosted, `drainRunning, `broadcastsInFlight, `delivered, `requested, `wakeLockState, `userState
      reads `powerState
      reads locks, timeouts, brightness, broadcastQueue, broadcastWhy
    {
      && Shape() && ListOk() && ProximityCountOk() && InternalLocksOk()
      && C.Inv(Cache())
      && N.Faithful(Board())
      && brightness.Valid() && timeouts.Valid()
      && BatteryLow !in powerState
      && (timeouts.timeoutPosted ==> timeouts.bootCompleted)
    }

    /** What holds even while a block is half-way through a proximity or prevent-screen-on update. */
    ghost predicate Core()
      reads `partialCount, `kernelLockHeld, `proximityCount, `redundantAcquires, `proximityEnabled
      reads `broadcastLock, `stayOnDimLock, `stayOnPartialLock, `preventLock, `proximityLock
      reads `drainPosted, `drainRunning, `broadcastsInFlight, `delivered, `requested, `wakeLockState, `userState
      reads `powerState
      reads `screenLog, `stillNeedSleepNotification, `screenOffReason
      reads locks, timeouts, brightness, broadcastQueue, broadcastWhy
    {
      Machine() && Logged()
    }

    /** The auxiliary locks are held exactly while the task that releases them is queued. */
    ghost predicate TasksOk()
      reads `proximityLock, `proximityTaskQueued, `proximityPending, `newestReading
      reads `preventLock, `preventScreenOn, `reenableQueued
    {
      && (proximityLock.held <==> proximityTaskQueued)
      && (proximityTaskQueued ==> proximityPending == if newestReading then 1 else 0)
      && (preventLock.held <==> preventScreenOn)
      && (reenableQueued <==> preventScreenOn)
    }

    ghost predicate AuxiliaryOk()
      reads `proximityLock, `proximityTaskQueued, `proximityPending, `newestReading
      reads `preventLock, `preventScreenOn, `reenableQueued, `stayOnDimLock, locks`tokens
    {
      TasksOk() && (stayOnDimLock.held <==> StayOnScreenDim in locks.tokens)
    }

    ghost predicate Valid()
      reads this, locks, timeouts, brightness, broadcastQueue, broadcastWhy
    {
      Core() && AuxiliaryOk()
    }

    ghost predicate ScreenTurningOff()
      reads brightness`animating, brightness`targetValue
    {
      brightness.animating && brightness.targetValue == 0
    }

    /** The list still holds the same locks of clients, and the same stay-on screen lock. */
    twostate predicate SameLocks()
      reads locks`tokens
    {
      && Clients(locks.tokens) == Clients(old(locks.tokens))
      && (StayOnScreenDim in locks.tokens <==> StayOnScreenDim in old(locks.tokens))
    }

    /** While the proximity sensor stays active after boot, nothing turns the screen on. */
    twostate predicate ProximitySafe()
      reads `proximityActive, `powerState, `screenOnCalls
    {
      old(proximityActive) && proximityActive && old(timeouts.bootCompleted) ==>
        && (ScreenOn in powerState ==> ScreenOn in old(powerState))
        && screenOnCalls == old(screenOnCalls)
    }

    /** From the end of booting on (from the start, with software brightness) the screen is on exactly if
        something asks for it, nothing is near the proximity sensor, and it was on already or the driver
        could switch it on. */
    twostate predicate FollowsDemand(env: Env)
      reads `powerState, `wakeLockState, `userState, `proximityActive, `preventScreenOn, timeouts`bootCompleted
    {
      timeouts.bootCompleted || useSoftwareAutoBrightness ==>
        (ScreenOn in powerState <==>
          && ScreenOn in wakeLockState + userState
          && !proximityActive
          && (ScreenOn in old(powerState) || preventScreenOn || !env.screenOnFails))
    }

    /** The events of a change of the screen bit towards a target. */
    twostate function EventsTowards(target: PowerState, reason: int, env: Env): seq<G.ScreenEvent>
      reads `powerState, `preventScreenOn, brightness`animating
    {
      G.Switching(ScreenOn in old(powerState), ScreenOn in target, brightness.animating, reason,
        !preventScreenOn && env.screenOnFails, env.screenOffFails)
    }

    /** The events of an accepted user activity. */
    twostate function ActivityEvents(noChangeLights: bool, env: Env): seq<G.ScreenEvent>
      reads `powerState, `preventScreenOn, `userState, `wakeLockState, `proximityActive, brightness`animating
      reads timeouts`bootCompleted
    {
      EventsTowards(Aimed(old(powerState), userState + wakeLockState, noChangeLights, proximityActive, env),
        OFF_BECAUSE_OF_USER, env)
    }

    /** A change of the screen bits towards a target is logged and announced. */
    twostate predicate Announces(target: PowerState, reason: int, env: Env)
      requires Shape() && old(Shape())
      reads `powerState, `screenLog, `preventScreenOn, brightness`animating, `stillNeedSleepNotification
      reads `broadcastLock, `drainPosted, `drainRunning, `broadcastsInFlight, `delivered, `requested, broadcastQueue
      reads broadcastWhy
    {
      var es := EventsTowards(target, reason, env);
      && screenLog == old(screenLog) + es
      && Board() == N.Notified(old(Board()), G.Announced(old(stillNeedSleepNotification), es))
    }

    /** The power state is the one that setPowerState makes of what is asked for. */
    twostate predicate PowerSet(newState: PowerState, noChangeLights: bool, env: Env)
      reads `powerState, `proximityActive, `preventScreenOn, timeouts`bootCompleted
    {
      powerState == NextPower(old(powerState),
        Wanted(old(powerState), newState, noChangeLights, proximityActive, env.batteryLow),
        !timeouts.bootCompleted && !useSoftwareAutoBrightness, !preventScreenOn && env.screenOnFails)
    }

    /** In particular of all that is asked for now. */
    twostate predicate PowerFollows(noChangeLights: bool, env: Env)
      reads `powerState, `userState, `wakeLockState, `proximityActive, `preventScreenOn, timeouts`bootCompleted
    {
      PowerSet(userState + wakeLockState, noChangeLights, env)
    }

    /** A change of the power state, with its lights and announcements. */
    twostate predicate Applied(newState: PowerState, noChangeLights: bool, reason: int, env: Env)
      requires Shape() && old(Shape())
      reads `powerState, `screenLog, `preventScreenOn, `proximityActive, `stillNeedSleepNotification
      reads `broadcastLock, `drainPosted, `drainRunning, `broadcastsInFlight, `delivered, `requested, broadcastQueue
      reads broadcastWhy
      reads brightness, timeouts`bootCompleted
    {
      var target := Aimed(old(powerState), newState, noChangeLights, proximityActive, env);
      && PowerSet(newState, noChangeLights, env)
      && brightness.State() == NextLights(old(brightness.State()), old(powerState), target, env.preferredBrightness)
      && Announces(target, reason, env)
    }

    /** A request to sleep is logged, and then what becomes of the lights and the screen. */
    twostate predicate FellAsleep(reason: int, env: Env)
      requires Shape() && old(Shape())
      reads `powerState, `screenLog, `preventScreenOn, `proximityActive
      reads `broadcastLock, `drainPosted, `drainRunning, `broadcastsInFlight, `delivered, `requested, broadcastQueue
      reads broadcastWhy
      reads brightness, timeouts`bootCompleted
    {
      var target := Aimed(old(powerState), SCREEN_OFF, false, proximityActive, env);
      var es := EventsTowards(target, reason, env);
      && PowerSet(SCREEN_OFF, false, env)
      && brightness.State() == NextLights(old(brightness.State()), old(powerState), target, env.preferredBrightness)
      && screenLog == old(screenLog) + [G.Asleep] + es
      && Board() == N.Notified(old(Board()), G.Announced(true, es))
    }

    constructor (autoBrightness: bool, animate: bool, screenOffTimeout: int)
      ensures Valid()
      ensures fresh(locks) && fresh(timeouts) && fresh(brightness) && fresh(broadcastQueue) && fresh(broadcastWhy)
      ensures Initial() && locks.entries == [] && powerState == SCREEN_OFF && redundantAcquires == 0
      ensures useSoftwareAutoBrightness == autoBrightness && animateScreenLights == animate
    {
      hide Machine, Valid, L.LockList.Valid, T.ScreenTimeouts.Valid, R.BrightnessState.Valid;
      useSoftwareAutoBrightness, animateScreenLights := autoBrightness, animate;
      locks := new L.LockList();
      timeouts := new T.ScreenTimeouts(screenOffTimeout);
      brightness := new R.BrightnessState();
      wakeLockState, userState, powerState := SCREEN_OFF, SCREEN_OFF, SCREEN_OFF;
      screenOffReason, partialCount, kernelLockHeld := 0, 0, false;
      userActivityAllowed, keyboardVisible, lastEventTime := true, false, 0;
      proximityCount, proximityEnabled, proximityActive, proximityIgnored := 0, false, false, false;
      proximityPending, proximityTaskQueued, lastProximityEventTime := -1, false, 0;
      newestReading, redundantAcquires := false, 0;
      preventScreenOn, reenableQueued := false, false;
      broadcastQueue := new int[3](_ => -1);
      broadcastWhy := new int[3](_ => 0);
      stillNeedSleepNotification, drainPosted, drainRunning, broadcastsInFlight := false, 0, false, 0;
      delivered, requested, screenLog, screenOnCalls := [], [], [], 0;
      broadcastLock := InternalLock(SleepBroadcast, true, 0, false);
      stayOnDimLock := InternalLock(StayOnScreenDim, false, 0, false);
      stayOnPartialLock := InternalLock(StayOnPartial, false, 0, false);
      preventLock := InternalLock(PreventScreenOnPartial, false, 0, false);
      proximityLock := InternalLock(ProximityPartial, false, 0, false);
      new;
      InitialIsValid();
    }

    /** The state the service starts in: no locks, nothing queued, screen off. */
    ghost predicate Initial()
      reads this, locks, timeouts, brightness, broadcastQueue, broadcastWhy
    {
      && locks.Valid() && locks.tokens == {} && locks.screens == map[]
      && timeouts.Valid() && !timeouts.timeoutPosted && brightness.Valid()
      && broadcastQueue != broadcastWhy
      && broadcastQueue[..] == [-1, -1, -1] && broadcastWhy.Length == 3
      && wakeLockState == userState == powerState == SCREEN_OFF
      && partialCount == 0 && !kernelLockHeld
      && proximityCount == 0 && redundantAcquires == 0 && !proximityTaskQueued
      && !preventScreenOn && !reenableQueued && !proximityActive && !stillNeedSleepNotification
      && userActivityAllowed && lastEventTime == 0 && timeouts.pokey == {} && !timeouts.bootCompleted
      && brightness.State() == R.Ramp(false, 0, 0.0, R.Finite(0.0), false)
      && drainPosted == 0 && !drainRunning && broadcastsInFlight == 0
      && delivered == [] && requested == [] && screenLog == [] && screenOffReason == 0
      && broadcastLock == InternalLock(SleepBroadcast, true, 0, false)
      && stayOnDimLock == InternalLock(StayOnScreenDim, false, 0, false)
      && stayOnPartialLock == InternalLock(StayOnPartial, false, 0, false)
      && preventLock == InternalLock(PreventScreenOnPartial, false, 0, false)
      && proximityLock == InternalLock(ProximityPartial, false, 0, false)
    }

    lemma InitialIsValid()
      requires Initial()
      ensures Valid()
    {
      assert L.OfKind({}, Partial) == {} && L.OfKind({}, ProximityScreenOff) == {};
      assert broadcastQueue[0] == broadcastQueue[..][0];
    }

    /** acquireWakeLockLocked for a partial lock. */
    method AcquirePartialLocked(t: Token)
      requires ListOk() && KindOf(t) == Partial
      modifies locks, `partialCount, `kernelLockHeld
      ensures ListOk() && kernelLockHeld
      ensures locks.tokens == old(locks.tokens) + {t}
      ensures locks.screens == old(locks.screens)
    {
      var index := locks.GetIndex(t);
      if index < 0 {
        L.OfKindPlus(locks.tokens, t, Partial);
        locks.AddLock(L.WakeLock(t, SCREEN_OFF, true));
        partialCount := partialCount + 1;
      } else {
        L.OfKindMinus(locks.tokens, t, Partial);
        assert locks.tokens + {t} == locks.tokens;
      }
      kernelLockHeld := true;
    }

    /** releaseWakeLockLocked for a partial lock. */
    method ReleasePartialLocked(t: Token)
      requires ListOk() && KindOf(t) == Partial
      modifies locks, `partialCount, `kernelLockHeld
      ensures ListOk()
      ensures locks.tokens == old(locks.tokens) - {t}
      ensures locks.screens == old(locks.screens)
    {
      hide L.TokensOf, L.ScreensOf, L.LockList.Valid;
      if t in locks.tokens {
        L.OfKindMinus(locks.tokens, t, Partial);
      }
      var found := locks.RemoveLock(t);
      if !found {
        assert locks.tokens == old(locks.tokens);
        return;
      }
      partialCount := partialCount - 1;
      if partialCount == 0 {
        kernelLockHeld := false;
      }
    }

    /** UnsynchronizedWakeLock.acquire on a partial lock. */
    method AcquireInternal(l: InternalLock) returns (l': InternalLock)
      requires ListOk() && KindOf(l.token) == Partial && InternalOk(l, locks.tokens)
      modifies locks, `partialCount, `kernelLockHeld
      ensures ListOk() && InternalOk(l', locks.tokens) && l'.held
      ensures l' == l.(count := if l.refCounted then l.count + 1 else 0, held := true)
      ensures locks.tokens == old(locks.tokens) + {l.token}
      ensures locks.screens == old(locks.screens)
    {
      l' := l;
      if !l.refCounted || l.count == 0 {
        AcquirePartialLocked(l.token);
        l' := l'.(held := true);
      } else {
        assert locks.tokens + {l.token} == locks.tokens;
      }
      if l.refCounted {
        l' := l'.(count := l.count + 1);
      }
    }

    /** UnsynchronizedWakeLock.release on a partial lock: underLocked is the case in which it throws. */
    method ReleaseInternal(l: InternalLock) returns (l': InternalLock, underLocked: bool)
      requires ListOk() && KindOf(l.token) == Partial && InternalOk(l, locks.tokens)
      modifies locks, `partialCount, `kernelLockHeld
      ensures ListOk()
      ensures underLocked <==> l.refCounted && l.count == 0
      ensures !underLocked ==> InternalOk(l', locks.tokens)
      ensures l'.token == l.token && l'.refCounted == l.refCounted
      ensures l'.count == if l.refCounted then l.count - 1 else 0
      ensures l'.held <==> l.refCounted && l.count > 1
      ensures locks.tokens == if l.refCounted && l.count != 1 then old(locks.tokens) else old(locks.tokens) - {l.token}
      ensures locks.screens == old(locks.screens)
    {
      l' := if l.refCounted then l.(count := l.count - 1) else l;
      if !l.refCounted || l'.count == 0 {
        ReleasePartialLocked(l.token);
        l' := l'.(held := false);
      }
      underLocked := l'.count < 0;
    }

    ghost function Queue(): seq<N.Notice>
      reads broadcastQueue, broadcastWhy
      requires Shape()
    {
      Waiting(broadcastQueue[..], broadcastWhy[..])
    }

    /** The slot handling of sendNotificationLocked: store the notification in the first free slot,
        which always exists, then strip a pair if there is one.  `stripped` is how many waiting
        notifications were dropped, and index is negative if the new one was dropped too. */
    method QueueNotification(on: bool, why: int) returns (index: int, stripped: nat)
      requires Shape() && (|Queue()| == 2 ==> Queue()[1].on)
      modifies broadcastQueue, broadcastWhy
      ensures Shape()
      ensures Queue() == N.Enqueue(old(Queue()), N.Notice(on, why))
      ensures stripped == if |old(Queue())| == 2 then 2 else if |old(Queue())| == 1 && !on then 1 else 0
      ensures index < 0 <==> |old(Queue())| == 1 && !on
    {
      index, stripped := 0, 0;
      while broadcastQueue[index] != -1
        invariant 0 <= index <= 2
        invariant forall i :: 0 <= i < index ==> broadcastQueue[i] != -1
        decreases 3 - index
      {
        index := index + 1;
      }
      broadcastQueue[index] := if on then 1 else 0;
      broadcastWhy[index] := why;
      if index == 2 {
        if !on && broadcastWhy[0] > why {
          broadcastWhy[0] := why;
        }
        broadcastQueue[0] := if on then 1 else 0;
        broadcastQueue[1] := -1;
        broadcastQueue[2] := -1;
        index, stripped := 0, 2;
      }
      if index == 1 && !on {
        broadcastQueue[0] := -1;
        broadcastQueue[1] := -1;
        index, stripped := -1, 1;
      }
    }

    /** Drop n references to the broadcast wake lock; the protocol never drops more than are held. */
    method ReleaseBroadcast(n: nat)
      requires ListOk() && broadcastLock.token == SleepBroadcast && broadcastLock.refCounted
      requires InternalOk(broadcastLock, locks.tokens) && n <= broadcastLock.count
      modifies locks, `partialCount, `kernelLockHeld, `broadcastLock
      ensures ListOk() && InternalOk(broadcastLock, locks.tokens)
      ensures broadcastLock.token == SleepBroadcast && broadcastLock.refCounted
      ensures broadcastLock.count == old(broadcastLock.count) - n
      ensures locks.screens == old(locks.screens)
      ensures forall t :: t != SleepBroadcast ==> (t in locks.tokens <==> t in old(locks.tokens))
    {
      hide L.TokensOf, L.ScreensOf, L.LockList.Valid;
      for i := 0 to n
        invariant ListOk() && InternalOk(broadcastLock, locks.tokens)
        invariant broadcastLock.token == SleepBroadcast && broadcastLock.refCounted
        invariant broadcastLock.count == old(broadcastLock.count) - i
        invariant locks.screens == old(locks.screens)
        invariant forall t :: t != SleepBroadcast ==> (t in locks.tokens <==> t in old(locks.tokens))
      {
        var underLocked;
        broadcastLock, underLocked := ReleaseInternal(broadcastLock);
        assert !underLocked;
      }
    }

    /** The reference counting of sendNotificationLocked: drop the stripped notifications' references and
        take one for the new notification, if it stays queued. */
    method CountNotification(stripped: nat, stays: bool)
      requires ListOk() && ProximityCountOk() && InternalLocksOk() && stripped <= broadcastLock.count
      modifies locks, `partialCount, `kernelLockHeld, `broadcastLock
      ensures ListOk() && ProximityCountOk() && InternalLocksOk() && SameLocks()
      ensures locks.screens == old(locks.screens)
      ensures broadcastLock.count == old(broadcastLock.count) - stripped + (if stays then 1 else 0)
    {
      hide L.TokensOf, L.ScreensOf, L.LockList.Valid, ListOk, InternalOk;
      ghost var tokens := locks.tokens;
      ReleaseBroadcast(stripped);
      if stays {
        broadcastLock := AcquireInternal(broadcastLock);
      }
      OthersStayOk(tokens, locks.tokens, SleepBroadcast);
      L.SameOfKind(tokens, locks.tokens, ProximityScreenOff);
    }

    /** sendNotificationLocked. */
    method SendNotificationLocked(on: bool, why: int)
      requires Machine()
      modifies locks, `partialCount, `kernelLockHeld, `broadcastLock, `drainPosted, `requested
      modifies `stillNeedSleepNotification
      modifies broadcastQueue, broadcastWhy
      ensures Machine() && SameLocks() && Cache() == old(Cache())
      ensures Board() == N.Step(old(Board()), N.Request(on, why))
      ensures requested == old(requested) + [N.Notice(on, why)]
      ensures stillNeedSleepNotification == (on && old(stillNeedSleepNotification))
    {
      hide L.LockList.Valid, C.Inv, T.ScreenTimeouts.Valid, R.BrightnessState.Valid, N.Faithful, N.Step;
      hide Shape, ListOk, ProximityCountOk, InternalLocksOk, Clients, Board;
      NotifyLocked(on, why);
    }

    /** The parts of the invariant that sendNotificationLocked is about. */
    method NotifyLocked(on: bool, why: int)
      requires Shape() && ListOk() && ProximityCountOk() && InternalLocksOk() && N.Faithful(Board())
      modifies locks, `partialCount, `kernelLockHeld, `broadcastLock, `drainPosted, `requested
      modifies `stillNeedSleepNotification
      modifies broadcastQueue, broadcastWhy
      ensures Shape() && ListOk() && ProximityCountOk() && InternalLocksOk() && N.Faithful(Board())
      ensures SameLocks() && locks.screens == old(locks.screens)
      ensures Board() == N.Step(old(Board()), N.Request(on, why))
      ensures requested == old(requested) + [N.Notice(on, why)]
      ensures stillNeedSleepNotification == (on && old(stillNeedSleepNotification))
    {
      hide L.LockList.Valid, Logged, N.Faithful, N.Enqueue, Shape, ListOk, ProximityCountOk, Waiting, InternalLocksOk;
      hide Clients;
      N.StepKeepsFaithful(Board(), N.Request(on, why));
      N.FaithfulKeepsCount(Board());
      requested := requested + [N.Notice(on, why)];
      if !on {
        stillNeedSleepNotification := false;
      }
      var index, stripped := QueueNotification(on, why);
      CountNotification(stripped, index >= 0);
      if index >= 0 {
        drainPosted := drainPosted + 1;
      }
    }

    /** setScreenStateLocked: tells the display driver; true means the driver reported an error. */
    method SetScreenStateLocked(on: bool, env: Env) returns (err: bool)
      modifies `screenOnCalls
      ensures err == if on then env.screenOnFails else env.screenOffFails
      ensures screenOnCalls == old(screenOnCalls) + (if on then 1 else 0)
    {
      if on {
        screenOnCalls := screenOnCalls + 1;
        return env.screenOnFails;
      }
      return env.screenOffFails;
    }

    /** screenOffFinishedAnimatingLocked. */
    method ScreenOffFinishedAnimatingLocked(reason: int, env: Env)
      requires Machine()
      modifies locks, `partialCount, `kernelLockHeld, `broadcastLock, `drainPosted, `requested
      modifies `stillNeedSleepNotification
      modifies broadcastQueue, broadcastWhy, `screenOffReason, `screenOnCalls
      ensures Machine() && SameLocks() && Cache() == old(Cache())
      ensures screenOnCalls == old(screenOnCalls)
      ensures screenOffReason == if env.screenOffFails then old(screenOffReason) else reason
      ensures Board() == if env.screenOffFails then old(Board()) else N.Step(old(Board()), N.Request(false, reason))
      ensures requested == old(requested) + if env.screenOffFails then [] else [N.Notice(false, reason)]
      ensures stillNeedSleepNotification == (old(stillNeedSleepNotification) && env.screenOffFails)
    {
      hide Machine, Clients, Cache, Board, N.Step;
      var err := SetScreenStateLocked(false, env);
      if !err {
        screenOffReason := reason;
        SendNotificationLocked(false, reason);
      }
    }

    lemma HasShape()
      requires Core()
      ensures Shape()
    {
      hide ListOk, ProximityCountOk, InternalLocksOk, Logged, C.Inv, N.Faithful, R.BrightnessState.Valid;
      hide T.ScreenTimeouts.Valid;
    }

    /** What has been requested for an event is logged. */
    ghost method LogEvent(e: G.ScreenEvent)
      requires Machine() && stillNeedSleepNotification == G.OwedAfter(G.Owed(screenLog), e)
      requires requested == G.Notices(screenLog) + G.NoticesOf(G.Owed(screenLog), e)
      requires screenOffReason == (if e.WentOff? then e.reason else G.OffReason(screenLog))
      requires G.FadesKeepTheirReason(screenLog) && (e.FadedOut? ==> e.reason == G.OffReason(screenLog))
      modifies `screenLog
      ensures Core() && screenLog == old(screenLog) + [e]
    {
      hide Machine;
      G.OneMore(screenLog, e);
      screenLog := screenLog + [e];
    }

    /** The screen part of updateLightsLocked: retarget the brightness animation if the screen bits
        change, or if forced to. */
    method UpdateLightsLocked(newState: PowerState, forced: bool, env: Env)
      requires brightness.Valid()
      modifies brightness
      ensures brightness.Valid()
      ensures !forced ==>
        brightness.State() == NextLights(old(brightness.State()), powerState, newState, env.preferredBrightness)
      ensures forced && newState * SCREEN_BRIGHT == powerState * SCREEN_BRIGHT ==>
        brightness.State() == R.Retargeted(old(brightness.State()), TargetLevel(newState, env.preferredBrightness),
          AnimationSteps(powerState, newState, env.preferredBrightness), INITIAL_SCREEN_BRIGHTNESS, -1)
      ensures newState * SCREEN_BRIGHT != powerState * SCREEN_BRIGHT ==>
        (Lands(brightness.State(), powerState, newState, env.preferredBrightness)
         <==> ChangeOnTime(old(brightness.State()), powerState, newState, env.preferredBrightness))
    {
      ghost var before := brightness.State();
      if forced || newState * SCREEN_BRIGHT != powerState * SCREEN_BRIGHT {
        var nominal := NominalLevel(powerState, newState, env.preferredBrightness, brightness.curValue);
        brightness.SetTargetLocked(
          TargetLevel(newState, env.preferredBrightness),
          AnimationSteps(powerState, newState, env.preferredBrightness),
          INITIAL_SCREEN_BRIGHTNESS, nominal);
        if newState * SCREEN_BRIGHT != powerState * SCREEN_BRIGHT {
          LightsLandIff(before, powerState, newState, env.preferredBrightness);
        }
      }
    }

    /** Before the end of booting everything is lit, unless the brightness is controlled in software. */
    function Lit(wanted: PowerState): PowerState
      reads timeouts`bootCompleted
    {
      if !timeouts.bootCompleted && !useSoftwareAutoBrightness then wanted + ALL_BRIGHT else wanted
    }

    /** The state that setPowerState applies. */
    function Aimed(power: PowerState, newState: PowerState, noChangeLights: bool, proximity: bool, env: Env): PowerState
      reads timeouts`bootCompleted
    {
      Target(power, Wanted(power, newState, noChangeLights, proximity, env.batteryLow),
        !timeouts.bootCompleted && !useSoftwareAutoBrightness)
    }

    /** setPowerState.  Nothing happens if the state aimed at is already there. */
    method SetPowerState(newState: PowerState, noChangeLights: bool, reason: int, env: Env)
      requires Core()
      modifies locks, `partialCount, `kernelLockHeld, `broadcastLock, `drainPosted, `requested, `screenLog
      modifies `stillNeedSleepNotification
      modifies broadcastQueue, broadcastWhy, `screenOffReason, `screenOnCalls, `powerState, brightness
      ensures Core() && SameLocks() && Cache() == old(Cache())
      ensures powerState == NextPower(old(powerState),
        Wanted(old(powerState), newState, noChangeLights, proximityActive, env.batteryLow),
        !timeouts.bootCompleted && !useSoftwareAutoBrightness, !preventScreenOn && env.screenOnFails)
      ensures newState == wakeLockState + userState ==> FollowsDemand(env)
      ensures ProximitySafe()
      ensures proximityActive && ScreenOn in powerState ==> !timeouts.bootCompleted && !useSoftwareAutoBrightness
      ensures screenOnCalls > old(screenOnCalls) ==> ScreenOn !in old(powerState) && !preventScreenOn
      ensures screenOnCalls > old(screenOnCalls) ==>
        ScreenOn in newState || (!timeouts.bootCompleted && !useSoftwareAutoBrightness)
      ensures screenOnCalls >= old(screenOnCalls)
      ensures Applied(newState, noChangeLights, reason, env)
    {
      hide N.Notified, NextLights;
      hide Clients, L.LockList.Valid, C.Inv, Logged, N.Faithful, N.Step, T.ScreenTimeouts.Valid;
      hide R.BrightnessState.Valid, R.Retargeted;
      hide Shape, ListOk, ProximityCountOk, InternalLocksOk, Board, Cache;
      var state := newState;
      if noChangeLights {
        state := (state - LIGHTS_MASK) + (powerState * LIGHTS_MASK);
      }
      if proximityActive {
        state := state - SCREEN_BRIGHT;
      }
      if env.batteryLow {
        state := state + {BatteryLow};
      } else {
        state := state - {BatteryLow};
      }
      if state == powerState {
        NothingChanges(Board(), brightness.State(), powerState, env.preferredBrightness, screenLog);
        return;
      }
      ChangePowerState(state, reason, env);
    }

    /** The rest of setPowerState, once the state aimed at is known to differ. */
    method ChangePowerState(wanted: PowerState, reason: int, env: Env)
      requires Core() && wanted != powerState && (proximityActive ==> ScreenOn !in wanted)
      modifies locks, `partialCount, `kernelLockHeld, `broadcastLock, `drainPosted, `requested, `screenLog
      modifies `stillNeedSleepNotification
      modifies broadcastQueue, broadcastWhy, `screenOffReason, `screenOnCalls, `powerState, brightness
      ensures Core() && SameLocks() && Cache() == old(Cache())
      ensures powerState == NextPower(old(powerState), wanted,
        !timeouts.bootCompleted && !useSoftwareAutoBrightness, !preventScreenOn && env.screenOnFails)
      ensures screenOnCalls > old(screenOnCalls) ==> ScreenOn !in old(powerState) && !preventScreenOn
      ensures screenOnCalls > old(screenOnCalls) ==>
        ScreenOn in wanted || (!timeouts.bootCompleted && !useSoftwareAutoBrightness)
      ensures screenOnCalls >= old(screenOnCalls)
      ensures brightness.State() ==
        NextLights(old(brightness.State()), old(powerState), Lit(wanted), env.preferredBrightness)
      ensures Announces(Lit(wanted), reason, env)
    {
      hide Core, Cache, Clients, Board, N.Notified, Wanted, AnimationSteps, TargetLevel, NominalLevel, NextLights;
      var state := wanted;
      if !timeouts.bootCompleted && !useSoftwareAutoBrightness {
        state := state + ALL_BRIGHT;
      }
      ApplyLights(state, env);
      SwitchScreen(state, reason, env);
    }

    /** The lights of a new state. */
    method ApplyLights(state: PowerState, env: Env)
      requires Core()
      modifies `powerState, brightness
      ensures Core() && Cache() == old(Cache()) && Board() == old(Board())
      ensures powerState == (old(powerState) - LIGHTS_MASK) + (state * LIGHTS_MASK)
      ensures brightness.State() == NextLights(old(brightness.State()), old(powerState), state, env.preferredBrightness)
    {
      hide Clients, L.LockList.Valid, C.Inv, Logged, N.Faithful, T.ScreenTimeouts.Valid, R.BrightnessState.Valid;
      hide Shape, ListOk, ProximityCountOk, InternalLocksOk, Board, Cache, ChangeOnTime, Lands;
      hide AnimationSteps, TargetLevel, NominalLevel;
      ghost var lit := (powerState - LIGHTS_MASK) + (state * LIGHTS_MASK);
      if powerState != state {
        UpdateLightsLocked(state, false, env);
        powerState := (powerState - LIGHTS_MASK) + (state * LIGHTS_MASK);
      } else {
        assert powerState == lit;
      }
    }

    /** The screen bit of a new state, set last. */
    method SwitchScreen(state: PowerState, reason: int, env: Env)
      requires Core()
      modifies locks, `partialCount, `kernelLockHeld, `broadcastLock, `drainPosted, `requested, `screenLog
      modifies `stillNeedSleepNotification
      modifies broadcastQueue, broadcastWhy, `screenOffReason, `screenOnCalls, `powerState
      ensures Core() && SameLocks() && Cache() == old(Cache())
      ensures powerState == if ScreenOn !in state then old(powerState) - {ScreenOn}
        else if ScreenOn in old(powerState) || preventScreenOn || !env.screenOnFails then old(powerState) + {ScreenOn}
        else old(powerState)
      ensures screenOnCalls == old(screenOnCalls) +
        (if ScreenOn in state && ScreenOn !in old(powerState) && !preventScreenOn then 1 else 0)
      ensures Announces(state, reason, env)
    {
      hide Core, Machine, Cache, Clients, N.Step, G.NoticesOf;
      HasShape();
      N.NotifiedTwice(Board(), N.Notice(true, reason), N.Notice(true, reason));
      hide Board, N.Notified;
      if ScreenOn in state && ScreenOn !in powerState {
        TurnScreenOn(env);
      } else if ScreenOn !in state && ScreenOn in powerState {
        TurnScreenOff(reason, env);
      }
    }

    /** The part of setPowerState that switches the screen off: at once, unless the brightness
        animation has still to fade it out. */
    method TurnScreenOff(reason: int, env: Env)
      requires Core()
      modifies locks, `partialCount, `kernelLockHeld, `broadcastLock, `drainPosted, `requested, `screenLog
      modifies `stillNeedSleepNotification
      modifies broadcastQueue, broadcastWhy, `screenOffReason, `screenOnCalls, `powerState
      ensures Core() && SameLocks() && Cache() == old(Cache())
      ensures powerState == old(powerState) - {ScreenOn}
      ensures screenOnCalls == old(screenOnCalls) && screenOffReason == reason
      ensures screenLog == old(screenLog) + [G.WentOff(brightness.animating, reason, env.screenOffFails)]
      ensures Board() == N.Notified(old(Board()),
        G.NoticesOf(old(stillNeedSleepNotification), G.WentOff(brightness.animating, reason, env.screenOffFails)))
    {
      hide Machine, Clients, Cache, N.Step, G.Notices, G.Owed;
      HasShape();
      N.NotifiedTwice(Board(), N.Notice(false, reason), N.Notice(false, reason));
      hide Board, N.Notified;
      DarkenScreen(reason);
      if !brightness.animating {
        ScreenOffFinishedAnimatingLocked(reason, env);
      }
      LogEvent(G.WentOff(brightness.animating, reason, env.screenOffFails));
    }

    /** The screen bit goes first. */
    method DarkenScreen(reason: int)
      requires Machine()
      modifies `powerState, `screenOffReason
      ensures Machine() && Cache() == old(Cache()) && Board() == old(Board())
      ensures powerState == old(powerState) - {ScreenOn} && screenOffReason == reason
    {
      hide L.LockList.Valid, C.Inv, N.Faithful, T.ScreenTimeouts.Valid, R.BrightnessState.Valid;
      hide Shape, ListOk, ProximityCountOk, InternalLocksOk, Board, Cache;
      powerState := powerState - {ScreenOn};
      screenOffReason := reason;
    }

    /** The part of setPowerState that switches the screen on.  While preventScreenOn is set the driver
        is told to keep it off, but the service continues as if it were on. */
    method TurnScreenOn(env: Env)
      requires Core()
      modifies locks, `partialCount, `kernelLockHeld, `broadcastLock, `drainPosted, `requested, `screenLog
      modifies `stillNeedSleepNotification
      modifies broadcastQueue, broadcastWhy, `screenOnCalls, `powerState
      ensures Core() && SameLocks() && Cache() == old(Cache())
      ensures powerState ==
        if !preventScreenOn && env.screenOnFails then old(powerState) else old(powerState) + {ScreenOn}
      ensures screenOnCalls == old(screenOnCalls) + (if preventScreenOn then 0 else 1)
      ensures screenLog == old(screenLog) + [G.WentOn(!preventScreenOn && env.screenOnFails)]
      ensures Board() == N.Notified(old(Board()),
        G.NoticesOf(old(stillNeedSleepNotification), G.WentOn(!preventScreenOn && env.screenOnFails)))
    {
      hide Machine, Clients, Cache, N.Step, G.Notices, G.Owed;
      HasShape();
      hide Board, N.Notified, G.NoticesOf;
      OnBoard(Board(), stillNeedSleepNotification, !preventScreenOn && env.screenOnFails);
      OnRequests(stillNeedSleepNotification, !preventScreenOn && env.screenOnFails);
      var err := SwitchOn(env);
      LogEvent(G.WentOn(err));
    }

    method SwitchOn(env: Env) returns (err: bool)
      requires Machine()
      modifies locks, `partialCount, `kernelLockHeld, `broadcastLock, `drainPosted, `requested
      modifies `stillNeedSleepNotification
      modifies broadcastQueue, broadcastWhy, `screenOnCalls, `powerState
      ensures Machine() && SameLocks() && Cache() == old(Cache()) && !stillNeedSleepNotification
      ensures err == (!preventScreenOn && env.screenOnFails)
      ensures powerState == if err then old(powerState) else old(powerState) + {ScreenOn}
      ensures screenOnCalls == old(screenOnCalls) + (if preventScreenOn then 0 else 1)
      ensures requested == old(requested)
        + (if old(stillNeedSleepNotification) then [N.Notice(false, OFF_BECAUSE_OF_USER)] else [])
        + (if err then [] else [N.Notice(true, -1)])
      ensures Board() == GoingOn(old(Board()), old(stillNeedSleepNotification), err)
    {
      hide Machine, Clients, Cache, N.Step, Board;
      SendOwedNotification();
      err := false;
      if preventScreenOn {
        err := SetScreenStateLocked(false, env);
        err := false;
      } else {
        err := SetScreenStateLocked(true, env);
      }
      if !err { LightScreen(); }
    }

    /** The screen bit, and the notification that goes with it. */
    method LightScreen()
      requires Machine()
      modifies locks, `partialCount, `kernelLockHeld, `broadcastLock, `drainPosted, `requested
      modifies `stillNeedSleepNotification
      modifies broadcastQueue, broadcastWhy, `powerState
      ensures Machine() && SameLocks() && Cache() == old(Cache())
      ensures powerState == old(powerState) + {ScreenOn}
      ensures Board() == N.Step(old(Board()), N.Request(true, -1)) && requested == old(requested) + [N.Notice(true, -1)]
      ensures stillNeedSleepNotification == old(stillNeedSleepNotification)
    {
      hide L.LockList.Valid, C.Inv, N.Faithful, T.ScreenTimeouts.Valid, R.BrightnessState.Valid;
      hide Shape, ListOk, ProximityCountOk, InternalLocksOk, Board, Cache, N.Step, Clients;
      powerState := powerState + {ScreenOn};
      SendNotificationLocked(true, -1);
    }

    /** The off that goToSleep still owes is requested before the screen goes on. */
    method SendOwedNotification()
      requires Machine()
      modifies locks, `partialCount, `kernelLockHeld, `broadcastLock, `drainPosted, `requested
      modifies `stillNeedSleepNotification
      modifies broadcastQueue, broadcastWhy
      ensures Machine() && SameLocks() && Cache() == old(Cache()) && !stillNeedSleepNotification
      ensures Board() == if old(stillNeedSleepNotification)
        then N.Step(old(Board()), N.Request(false, OFF_BECAUSE_OF_USER)) else old(Board())
      ensures requested == old(requested) +
        if old(stillNeedSleepNotification) then [N.Notice(false, OFF_BECAUSE_OF_USER)] else []
    {
      hide Machine, Cache, Clients, Board, N.Step;
      if stillNeedSleepNotification {
        SendNotificationLocked(false, OFF_BECAUSE_OF_USER);
      }
    }

    /** There has been user activity just now, and nothing has happened to its countdown since. */
    ghost predicate JustActive(env: Env)
      reads `lastEventTime, timeouts`bootCompleted, timeouts`nextState, timeouts`remainingTimeoutOverride
      reads timeouts`timeoutPosted, timeouts`nextTimeout
      reads timeouts`keylightDelay, timeouts`dimDelay, timeouts`screenOffDelay
    {
      && lastEventTime == env.uptime
      && (timeouts.bootCompleted ==> timeouts.Task() == T.Scheduled(timeouts.Config(), env.uptime, -1, T.Bright))
    }

    /** Poke locks can ask for cheek, or for all touch events to be ignored. */
    predicate DropsEvent(eventType: EventType)
      reads timeouts`pokey
    {
      || (T.IgnoreCheek in timeouts.pokey && eventType == CheekEvent)
      || (T.IgnoreTouchAndCheek in timeouts.pokey &&
         eventType in {TouchEvent, TouchUpEvent, LongTouchEvent, CheekEvent})
    }

    /** Whether userActivity will act on an event, rather than ignore it. */
    ghost predicate AcceptsActivity(time: int, eventType: EventType, force: bool)
      reads `lastEventTime, `userActivityAllowed, `proximityActive, `proximityCount
      reads timeouts`pokey, brightness`animating, brightness`targetValue
    {
      && !DropsEvent(eventType)
      && !ScreenTurningOff()
      && (lastEventTime <= time || force)
      && ((userActivityAllowed && !(proximityActive && proximityCount != 0)) || force)
    }

    /** Which events get through: buttons always as far as the poke locks go, a cheek only without either of the
        ignoring bits, the touches without the second; nothing while the screen fades out; and, unless forced, only
        what is not stale, while user activity is allowed and nothing is near that a client asks about. */
    lemma WhichActivityCounts(time: int, eventType: EventType, force: bool)
      ensures AcceptsActivity(time, eventType, force) <==>
        && (match eventType
            case OtherEvent => true
            case ButtonEvent => true
            case CheekEvent => T.IgnoreCheek !in timeouts.pokey && T.IgnoreTouchAndCheek !in timeouts.pokey
            case _ => T.IgnoreTouchAndCheek !in timeouts.pokey)
        && (brightness.animating ==> brightness.targetValue != 0)
        && (force || (lastEventTime <= time && userActivityAllowed && (proximityActive ==> proximityCount == 0)))
    {
    }

    function ActivityState(eventType: EventType): PowerState
      reads `userState, `keyboardVisible
    {
      if eventType == ButtonEvent && !useSoftwareAutoBrightness then
        (if keyboardVisible then ALL_BRIGHT else SCREEN_BUTTON_BRIGHT)
      else userState + SCREEN_BRIGHT
    }

    /** The wake-lock part of an accepted user activity: every screen lock counts again. */
    method ReactivateLocked(us: PowerState)
      requires Core()
      modifies locks`entries, locks`screens, `userState, `wakeLockState, `proximityIgnored
      ensures Core() && SameLocks()
      ensures userState == us && !proximityIgnored
      ensures Cache() == C.AfterActivity(old(Cache()), us) && wakeLockState == C.Gather(locks.screens)
    {
      hide Clients, L.LockList.Valid, C.Inv, C.Gather, Logged, N.Faithful, T.ScreenTimeouts.Valid;
      hide R.BrightnessState.Valid;
      hide Shape, ProximityCountOk, InternalLocksOk, Board;
      C.StepKeepsInv(Cache(), C.Activity(us));
      userState := us;
      wakeLockState := locks.ReactivateScreenLocks();
      proximityIgnored := false;
    }

    /** The accepted part of userActivity: reactivate every screen lock, light the screen and restart
        the countdown. */
    method ApplyActivityLocked(time: int, timeoutOverride: int, noChangeLights: bool, eventType: EventType, env: Env)
      requires Core()
      modifies locks, `partialCount, `kernelLockHeld, `broadcastLock, `drainPosted, `requested, `screenLog
      modifies `stillNeedSleepNotification
      modifies broadcastQueue, broadcastWhy, `screenOffReason, `screenOnCalls, `powerState, brightness
      modifies `userState, `wakeLockState, `proximityIgnored
      modifies timeouts`nextState, timeouts`remainingTimeoutOverride, timeouts`timeoutPosted, timeouts`nextTimeout
      ensures Core() && SameLocks()
      ensures userState == old(ActivityState(eventType)) && !proximityIgnored
      ensures Cache() == C.AfterActivity(old(Cache()), userState) && wakeLockState == C.Gather(locks.screens)
      ensures timeouts.bootCompleted ==>
        timeouts.Task() == T.Scheduled(timeouts.Config(), time, timeoutOverride, T.Bright)
      ensures ProximitySafe()
      ensures !proximityActive && !noChangeLights && (preventScreenOn || !env.screenOnFails) ==> ScreenOn in powerState
      ensures FollowsDemand(env)
      ensures Applied(userState + wakeLockState, noChangeLights, OFF_BECAUSE_OF_USER, env)
    {
      hide Core, Clients, Board, C.AfterActivity, C.Gather, T.Scheduled, T.ScreenTimeouts.Task;
      hide Aimed, NextLights, N.Notified, G.Announced, G.Switching;
      ReactivateLocked(ActivityState(eventType));
      SetPowerState(userState + wakeLockState, noChangeLights, OFF_BECAUSE_OF_USER, env);
      StartCountdown(time, timeoutOverride);
    }

    method StartCountdown(time: int, timeoutOverride: int)
      requires Core()
      modifies timeouts`nextState, timeouts`remainingTimeoutOverride, timeouts`timeoutPosted, timeouts`nextTimeout
      ensures Core()
      ensures timeouts.bootCompleted ==>
        timeouts.Task() == T.Scheduled(timeouts.Config(), time, timeoutOverride, T.Bright)
    {
      hide L.LockList.Valid, C.Inv, Logged, N.Faithful, R.BrightnessState.Valid, T.Scheduled;
      hide Shape, ListOk, ProximityCountOk, InternalLocksOk, Board, Cache;
      timeouts.SetTimeoutLocked(time, timeoutOverride, T.Bright);
    }

    /** The private userActivity. */
    method UserActivityLocked(time: int, timeoutOverride: int, noChangeLights: bool, eventType: EventType,
                              force: bool, env: Env)
      returns (accepted: bool)
      requires Core()
      modifies locks, `partialCount, `kernelLockHeld, `broadcastLock, `drainPosted, `requested, `screenLog
      modifies `stillNeedSleepNotification
      modifies broadcastQueue, broadcastWhy, `screenOffReason, `screenOnCalls, `powerState, brightness
      modifies `userState, `wakeLockState, `proximityIgnored, `proximityActive, `lastEventTime
      modifies timeouts`nextState, timeouts`remainingTimeoutOverride, timeouts`timeoutPosted, timeouts`nextTimeout
      ensures Core() && SameLocks() && ProximitySafe()
      ensures accepted == old(AcceptsActivity(time, eventType, force))
      ensures proximityActive ==
        (old(proximityActive) && (old(proximityCount) != 0 || old(DropsEvent(eventType)) || old(ScreenTurningOff())))
      ensures accepted ==> lastEventTime == time && userState == old(ActivityState(eventType)) && !proximityIgnored
      ensures accepted ==>
        Cache() == C.AfterActivity(old(Cache()), userState) && wakeLockState == C.Gather(locks.screens)
      ensures accepted && timeouts.bootCompleted ==>
        timeouts.Task() == T.Scheduled(timeouts.Config(), time, timeoutOverride, T.Bright)
      ensures accepted && !proximityActive && !noChangeLights && (preventScreenOn || !env.screenOnFails) ==>
        ScreenOn in powerState
      ensures !accepted ==>
        Cache() == old(Cache()) && powerState == old(powerState) && timeouts.Task() == old(timeouts.Task())
      ensures !accepted ==> Board() == old(Board()) && screenOnCalls == old(screenOnCalls)
      ensures accepted ==> FollowsDemand(env)
      ensures lastEventTime == old(
        if DropsEvent(eventType) || ScreenTurningOff() || (time < lastEventTime && !force) then lastEventTime else time)
      ensures !accepted ==> userState == old(userState)
      ensures screenLog == old(screenLog) + if accepted then ActivityEvents(noChangeLights, env) else []
      ensures !accepted ==> brightness.State() == old(brightness.State())
      ensures !accepted ==> brightness.posted == old(brightness.posted)
      ensures !accepted ==> stillNeedSleepNotification == old(stillNeedSleepNotification)
      ensures accepted ==> PowerFollows(noChangeLights, env)
    {
      hide Core, Clients, Board, Cache, C.AfterActivity, C.Gather, ActivityState, T.Scheduled, T.ScreenTimeouts.Task;
      hide ActivityEvents, FollowsDemand;
      accepted := false;
      if DropsEvent(eventType) {
        return;
      }
      if brightness.animating && brightness.targetValue == 0 {
        return;
      }
      accepted := AttemptActivityLocked(time, timeoutOverride, noChangeLights, eventType, force, env);
    }

    /** The rest of userActivity, for an event that is not dropped, while the screen is not fading out. */
    method AttemptActivityLocked(time: int, timeoutOverride: int, noChangeLights: bool, eventType: EventType,
                                 force: bool, env: Env)
      returns (accepted: bool)
      requires Core() && !DropsEvent(eventType) && !ScreenTurningOff()
      modifies locks, `partialCount, `kernelLockHeld, `broadcastLock, `drainPosted, `requested, `screenLog
      modifies `stillNeedSleepNotification
      modifies broadcastQueue, broadcastWhy, `screenOffReason, `screenOnCalls, `powerState, brightness
      modifies `userState, `wakeLockState, `proximityIgnored, `proximityActive, `lastEventTime
      modifies timeouts`nextState, timeouts`remainingTimeoutOverride, timeouts`timeoutPosted, timeouts`nextTimeout
      ensures Core() && SameLocks() && ProximitySafe()
      ensures accepted == old(AcceptsActivity(time, eventType, force))
      ensures proximityActive == (old(proximityActive) && old(proximityCount) != 0)
      ensures accepted ==> lastEventTime == time && userState == old(ActivityState(eventType)) && !proximityIgnored
      ensures accepted ==>
        Cache() == C.AfterActivity(old(Cache()), userState) && wakeLockState == C.Gather(locks.screens)
      ensures accepted && timeouts.bootCompleted ==>
        timeouts.Task() == T.Scheduled(timeouts.Config(), time, timeoutOverride, T.Bright)
      ensures accepted && !proximityActive && !noChangeLights && (preventScreenOn || !env.screenOnFails) ==>
        ScreenOn in powerState
      ensures !accepted ==>
        Cache() == old(Cache()) && powerState == old(powerState) && timeouts.Task() == old(timeouts.Task())
      ensures !accepted ==> Board() == old(Board()) && screenOnCalls == old(screenOnCalls)
      ensures accepted ==> FollowsDemand(env)
      ensures lastEventTime == old(
        if time < lastEventTime && !force then lastEventTime else time)
      ensures !accepted ==> userState == old(userState)
      ensures screenLog == old(screenLog) + if accepted then ActivityEvents(noChangeLights, env) else []
      ensures !accepted ==> brightness.State() == old(brightness.State())
      ensures !accepted ==> brightness.posted == old(brightness.posted)
      ensures !accepted ==> stillNeedSleepNotification == old(stillNeedSleepNotification)
      ensures accepted ==> PowerFollows(noChangeLights, env)
    {
      hide Core, Clients, Board, Cache, C.AfterActivity, C.Gather, ActivityState, T.Scheduled, T.ScreenTimeouts.Task;
      hide Aimed, G.Switching;
      if proximityActive && proximityCount == 0 {
        proximityActive := false;
      }
      accepted := AcceptActivityLocked(time, timeoutOverride, noChangeLights, eventType, force, env);
    }

    /** An event that is not stale is taken down, and acted on if user activity is allowed and nothing is near. */
    method AcceptActivityLocked(time: int, timeoutOverride: int, noChangeLights: bool, eventType: EventType,
                                force: bool, env: Env)
      returns (accepted: bool)
      requires Core()
      modifies locks, `partialCount, `kernelLockHeld, `broadcastLock, `drainPosted, `requested, `screenLog
      modifies `stillNeedSleepNotification
      modifies broadcastQueue, broadcastWhy, `screenOffReason, `screenOnCalls, `powerState, brightness
      modifies `userState, `wakeLockState, `proximityIgnored, `lastEventTime
      modifies timeouts`nextState, timeouts`remainingTimeoutOverride, timeouts`timeoutPosted, timeouts`nextTimeout
      ensures Core() && SameLocks() && ProximitySafe()
      ensures accepted ==
        ((old(lastEventTime) <= time || force) && ((userActivityAllowed && !proximityActive) || force))
      ensures accepted ==> lastEventTime == time && userState == old(ActivityState(eventType)) && !proximityIgnored
      ensures accepted ==>
        Cache() == C.AfterActivity(old(Cache()), userState) && wakeLockState == C.Gather(locks.screens)
      ensures accepted && timeouts.bootCompleted ==>
        timeouts.Task() == T.Scheduled(timeouts.Config(), time, timeoutOverride, T.Bright)
      ensures accepted && !proximityActive && !noChangeLights && (preventScreenOn || !env.screenOnFails) ==>
        ScreenOn in powerState
      ensures !accepted ==>
        Cache() == old(Cache()) && powerState == old(powerState) && timeouts.Task() == old(timeouts.Task())
      ensures !accepted ==> Board() == old(Board()) && screenOnCalls == old(screenOnCalls)
      ensures accepted ==> FollowsDemand(env)
      ensures lastEventTime == old(
        if time < lastEventTime && !force then lastEventTime else time)
      ensures !accepted ==> userState == old(userState)
      ensures screenLog == old(screenLog) + if accepted then ActivityEvents(noChangeLights, env) else []
      ensures !accepted ==> brightness.State() == old(brightness.State())
      ensures !accepted ==> brightness.posted == old(brightness.posted)
      ensures !accepted ==> stillNeedSleepNotification == old(stillNeedSleepNotification)
      ensures accepted ==> PowerFollows(noChangeLights, env)
    {
      hide Core, Clients, Board, Cache, C.AfterActivity, C.Gather, ActivityState, T.Scheduled, T.ScreenTimeouts.Task;
      hide Aimed, NextLights, N.Notified, G.Announced, G.Switching;
      accepted := false;
      if lastEventTime <= time || force {
        lastEventTime := time;
        if (userActivityAllowed && !proximityActive) || force {
          ApplyActivityLocked(time, timeoutOverride, noChangeLights, eventType, env);
          accepted := true;
        }
      }
    }

    /** The animation, halted if it is a fade to off. */
    ghost function FadeStopped(): R.Ramp
      reads brightness
    {
      brightness.State().(animating := brightness.animating && !ScreenTurningOff())
    }

    method StopFadingOut()
      requires Core()
      modifies brightness`animating
      ensures Core() && !ScreenTurningOff() && Board() == old(Board())
      ensures brightness.State() == old(FadeStopped())
    {
      hide Clients, L.LockList.Valid, C.Inv, Logged, N.Faithful, T.ScreenTimeouts.Valid;
      hide Shape, ListOk, ProximityCountOk, InternalLocksOk, Board, Cache;
      if brightness.animating && brightness.targetValue == 0 {
        brightness.animating := false;
      }
    }

    /** Whether forceUserActivityLocked will be accepted. */
    predicate CanForce(env: Env)
      reads `lastEventTime, `proximityActive, `proximityCount
    {
      env.hasDevicePower && lastEventTime <= env.uptime && !(proximityActive && proximityCount != 0)
    }

    /** forceUserActivityLocked: as if the user had done something, even while the keyguard has user
        activity disabled or the screen is fading out. */
    method ForceUserActivityLocked(env: Env) returns (accepted: bool)
      requires Core()
      modifies locks, `partialCount, `kernelLockHeld, `broadcastLock, `drainPosted, `requested, `screenLog
      modifies `stillNeedSleepNotification
      modifies broadcastQueue, broadcastWhy, `screenOffReason, `screenOnCalls, `powerState, brightness
      modifies `userState, `wakeLockState, `proximityIgnored, `proximityActive, `lastEventTime, `userActivityAllowed
      modifies timeouts`nextState, timeouts`remainingTimeoutOverride, timeouts`timeoutPosted, timeouts`nextTimeout
      ensures Core() && SameLocks() && ProximitySafe()
      ensures userActivityAllowed == old(userActivityAllowed)
      ensures proximityActive ==> old(proximityActive)
      ensures accepted == old(CanForce(env))
      ensures accepted ==> userState == old(userState) + SCREEN_BRIGHT && !proximityIgnored
      ensures accepted ==>
        Cache() == C.AfterActivity(old(Cache()), userState) && wakeLockState == C.Gather(locks.screens)
      ensures accepted && (preventScreenOn || !env.screenOnFails) ==> ScreenOn in powerState
      ensures !accepted ==> Cache() == old(Cache()) && powerState == old(powerState)
      ensures accepted ==> FollowsDemand(env)
      ensures accepted ==> screenLog == old(screenLog) + ActivityEvents(false, env)
      ensures !accepted ==>
        brightness.State() == old(FadeStopped()) && Board() == old(Board()) && screenLog == old(screenLog)
      ensures !accepted ==> brightness.posted == old(brightness.posted)
      ensures accepted ==> PowerFollows(false, env)
      ensures if accepted then JustActive(env) else timeouts.Task() == old(timeouts.Task())
    {
      hide Core, Clients, Board, Cache, C.AfterActivity, C.Gather, Aimed, G.Switching;
      StopFadingOut();
      accepted := ActAllowed(env);
    }

    /** The activity itself, with user activity allowed for as long as it takes. */
    method ActAllowed(env: Env) returns (accepted: bool)
      requires Core() && !ScreenTurningOff()
      modifies locks, `partialCount, `kernelLockHeld, `broadcastLock, `drainPosted, `requested, `screenLog
      modifies `stillNeedSleepNotification
      modifies broadcastQueue, broadcastWhy, `screenOffReason, `screenOnCalls, `powerState, brightness
      modifies `userState, `wakeLockState, `proximityIgnored, `proximityActive, `lastEventTime, `userActivityAllowed
      modifies timeouts`nextState, timeouts`remainingTimeoutOverride, timeouts`timeoutPosted, timeouts`nextTimeout
      ensures Core() && SameLocks() && ProximitySafe()
      ensures userActivityAllowed == old(userActivityAllowed)
      ensures proximityActive ==> old(proximityActive)
      ensures accepted == old(CanForce(env))
      ensures accepted ==> userState == old(userState) + SCREEN_BRIGHT && !proximityIgnored
      ensures accepted ==>
        Cache() == C.AfterActivity(old(Cache()), userState) && wakeLockState == C.Gather(locks.screens)
      ensures accepted && (preventScreenOn || !env.screenOnFails) ==> ScreenOn in powerState
      ensures !accepted ==> Cache() == old(Cache()) && powerState == old(powerState)
      ensures accepted ==> FollowsDemand(env)
      ensures accepted ==> screenLog == old(screenLog) + ActivityEvents(false, env)
      ensures !accepted ==>
        brightness.State() == old(brightness.State()) && Board() == old(Board()) && screenLog == old(screenLog)
      ensures !accepted ==> brightness.posted == old(brightness.posted)
      ensures accepted ==> PowerFollows(false, env)
      ensures if accepted then JustActive(env) else timeouts.Task() == old(timeouts.Task())
    {
      hide Core, Clients, Board, Cache, C.AfterActivity, C.Gather, T.Scheduled, T.ScreenTimeouts.Task;
      hide Aimed, G.Switching;
      var savedActivityAllowed := userActivityAllowed;
      userActivityAllowed := true;
      accepted := false;
      if env.hasDevicePower {
        accepted := UserActivityLocked(env.uptime, -1, false, OtherEvent, false, env);
      }
      userActivityAllowed := savedActivityAllowed;
    }

    method EnableProximityLockLocked()
      modifies `proximityEnabled
      ensures proximityEnabled
    {
      if !proximityEnabled {
        proximityEnabled := true;
      }
    }

    method SwitchInternal(l: InternalLock, hold: bool) returns (l': InternalLock)
      requires ListOk() && KindOf(l.token) == Partial && InternalOk(l, locks.tokens) && !l.refCounted
      modifies locks, `partialCount, `kernelLockHeld
      ensures ListOk() && InternalOk(l', locks.tokens) && l' == l.(held := hold)
      ensures locks.tokens == if hold then old(locks.tokens) + {l.token} else old(locks.tokens) - {l.token}
      ensures locks.screens == old(locks.screens)
    {
      hide L.LockList.Valid, ListOk;
      if hold {
        l' := AcquireInternal(l);
      } else {
        var underLocked;
        l', underLocked := ReleaseInternal(l);
      }
    }

    /** acquire or release on one of the service's partial locks that are not reference counted. */
    method SetAuxiliary(t: Token, hold: bool)
      requires ListOk() && ProximityCountOk() && InternalLocksOk()
      requires t in {StayOnPartial, PreventScreenOnPartial, ProximityPartial}
      modifies locks, `partialCount, `kernelLockHeld, `stayOnPartialLock, `preventLock, `proximityLock
      ensures ListOk() && ProximityCountOk() && InternalLocksOk() && SameLocks()
      ensures locks.screens == old(locks.screens)
      ensures stayOnPartialLock.held == if t == StayOnPartial then hold else old(stayOnPartialLock.held)
      ensures preventLock.held == if t == PreventScreenOnPartial then hold else old(preventLock.held)
      ensures proximityLock.held == if t == ProximityPartial then hold else old(proximityLock.held)
    {
      hide L.TokensOf, L.ScreensOf, L.LockList.Valid, ListOk, InternalOk;
      ghost var tokens := locks.tokens;
      if t == StayOnPartial {
        stayOnPartialLock := SwitchInternal(stayOnPartialLock, hold);
      } else if t == PreventScreenOnPartial {
        preventLock := SwitchInternal(preventLock, hold);
      } else {
        proximityLock := SwitchInternal(proximityLock, hold);
      }
      OthersStayOk(tokens, locks.tokens, t);
      L.SameOfKind(tokens, locks.tokens, ProximityScreenOff);
    }

    method HoldAuxiliary(t: Token, hold: bool)
      requires Core() && t in {StayOnPartial, PreventScreenOnPartial, ProximityPartial}
      modifies locks, `partialCount, `kernelLockHeld, `stayOnPartialLock, `preventLock, `proximityLock
      ensures Core() && SameLocks() && Cache() == old(Cache()) && Board() == old(Board())
      ensures stayOnPartialLock.held == if t == StayOnPartial then hold else old(stayOnPartialLock.held)
      ensures preventLock.held == if t == PreventScreenOnPartial then hold else old(preventLock.held)
      ensures proximityLock.held == if t == ProximityPartial then hold else old(proximityLock.held)
    {
      hide Clients, L.LockList.Valid, C.Inv, Logged, N.Faithful, T.ScreenTimeouts.Valid, R.BrightnessState.Valid;
      hide Shape, ListOk, ProximityCountOk, InternalLocksOk, Board;
      SetAuxiliary(t, hold);
    }

    /** The first half of disableProximityLockLocked: unregister the listener and drop a queued reading. */
    method UnregisterProximityLocked()
      requires Core() && proximityCount == 0
      modifies locks, `partialCount, `kernelLockHeld, `stayOnPartialLock, `preventLock, `proximityLock
      modifies `proximityEnabled, `proximityTaskQueued
      ensures Core() && SameLocks() && Cache() == old(Cache()) && Board() == old(Board())
      ensures stayOnPartialLock.held == old(stayOnPartialLock.held) && preventLock.held == old(preventLock.held)
      ensures !proximityEnabled && !proximityTaskQueued && !proximityLock.held
    {
      hide Clients, L.LockList.Valid, C.Inv, Logged, N.Faithful, T.ScreenTimeouts.Valid, R.BrightnessState.Valid;
      hide Shape, Board, ListOk, InternalLocksOk;
      proximityTaskQueued := false;
      if proximityLock.held {
        SetAuxiliary(ProximityPartial, false);
      }
      proximityEnabled := false;
    }

    /** disableProximityLockLocked, called only when no proximity lock is counted. */
    method DisableProximityLockLocked(env: Env) returns (accepted: bool)
      requires Core() && proximityCount == 0
      modifies locks, `partialCount, `kernelLockHeld, `broadcastLock, `drainPosted, `requested, `screenLog
      modifies `stillNeedSleepNotification
      modifies broadcastQueue, broadcastWhy, `screenOffReason, `screenOnCalls, `powerState, brightness
      modifies `userState, `wakeLockState, `proximityIgnored, `proximityActive, `lastEventTime, `userActivityAllowed
      modifies timeouts`nextState, timeouts`remainingTimeoutOverride, timeouts`timeoutPosted, timeouts`nextTimeout
      modifies `proximityEnabled, `proximityTaskQueued, `stayOnPartialLock, `preventLock, `proximityLock
      ensures Core() && SameLocks() && ProximitySafe()
      ensures stayOnPartialLock.held == old(stayOnPartialLock.held) && preventLock.held == old(preventLock.held)
      ensures userActivityAllowed == old(userActivityAllowed)
      ensures !proximityEnabled
      ensures if old(proximityEnabled) then !proximityActive && !proximityTaskQueued && !proximityLock.held
              else unchanged(`proximityActive, `proximityTaskQueued, `proximityLock)
      ensures accepted == old(env.hasDevicePower && proximityEnabled && proximityActive && !proximityIgnored &&
        lastEventTime <= env.uptime)
      ensures accepted ==> userState == old(userState) + SCREEN_BRIGHT && FollowsDemand(env)
      ensures accepted && (preventScreenOn || !env.screenOnFails) ==> ScreenOn in powerState
      ensures Cache() == if accepted then C.AfterActivity(old(Cache()), userState) else old(Cache())
      ensures !accepted ==> powerState == old(powerState)
      ensures if accepted then JustActive(env) else timeouts.Task() == old(timeouts.Task())
      ensures !old(proximityActive) && old(JustActive(env)) ==> JustActive(env)
    {
      hide Core, Clients, Board, Cache, C.AfterActivity, C.Gather, T.ScreenTimeouts.Task;
      hide ActivityEvents, FadeStopped;
      accepted := false;
      if proximityEnabled {
        UnregisterProximityLocked();
        accepted := LeaveProximity(env);
      }
    }

    /** The second half: if something was near, it is not any more. */
    method LeaveProximity(env: Env) returns (accepted: bool)
      requires Core()
      modifies locks, `partialCount, `kernelLockHeld, `broadcastLock, `drainPosted, `requested, `screenLog
      modifies `stillNeedSleepNotification
      modifies broadcastQueue, broadcastWhy, `screenOffReason, `screenOnCalls, `powerState, brightness
      modifies `userState, `wakeLockState, `proximityIgnored, `proximityActive, `lastEventTime, `userActivityAllowed
      modifies timeouts`nextState, timeouts`remainingTimeoutOverride, timeouts`timeoutPosted, timeouts`nextTimeout
      ensures Core() && SameLocks() && ProximitySafe()
      ensures userActivityAllowed == old(userActivityAllowed) && !proximityActive
      ensures accepted == old(env.hasDevicePower && proximityActive && !proximityIgnored && lastEventTime <= env.uptime)
      ensures accepted ==> userState == old(userState) + SCREEN_BRIGHT && FollowsDemand(env)
      ensures accepted && (preventScreenOn || !env.screenOnFails) ==> ScreenOn in powerState
      ensures Cache() == if accepted then C.AfterActivity(old(Cache()), userState) else old(Cache())
      ensures !accepted ==> powerState == old(powerState)
      ensures if accepted then JustActive(env) else timeouts.Task() == old(timeouts.Task())
      ensures !old(proximityActive) && old(JustActive(env)) ==> JustActive(env)
    {
      hide Core, Clients, Board, Cache, C.AfterActivity, C.Gather, T.ScreenTimeouts.Task;
      accepted := false;
      if proximityActive {
        accepted := NothingNear(env);
      }
    }

    /** Nothing is near any more, which counts as user activity unless the sensor is ignored. */
    method NothingNear(env: Env) returns (accepted: bool)
      requires Core()
      modifies locks, `partialCount, `kernelLockHeld, `broadcastLock, `drainPosted, `requested, `screenLog
      modifies `stillNeedSleepNotification
      modifies broadcastQueue, broadcastWhy, `screenOffReason, `screenOnCalls, `powerState, brightness
      modifies `userState, `wakeLockState, `proximityIgnored, `proximityActive, `lastEventTime, `userActivityAllowed
      modifies timeouts`nextState, timeouts`remainingTimeoutOverride, timeouts`timeoutPosted, timeouts`nextTimeout
      ensures Core() && SameLocks() && ProximitySafe()
      ensures userActivityAllowed == old(userActivityAllowed) && !proximityActive
      ensures accepted == old(env.hasDevicePower && !proximityIgnored && lastEventTime <= env.uptime)
      ensures accepted ==> userState == old(userState) + SCREEN_BRIGHT && FollowsDemand(env)
      ensures accepted && (preventScreenOn || !env.screenOnFails) ==> ScreenOn in powerState
      ensures Cache() == if accepted then C.AfterActivity(old(Cache()), userState) else old(Cache())
      ensures !accepted ==> powerState == old(powerState)
      ensures if accepted then JustActive(env) else timeouts.Task() == old(timeouts.Task())
    {
      hide Core, Clients, Board, Cache, C.AfterActivity, C.Gather, T.ScreenTimeouts.Task;
      hide ActivityEvents, FadeStopped;
      accepted := false;
      proximityActive := false;
      if !proximityIgnored {
        accepted := ForceUserActivityLocked(env);
      }
    }

    /** Adds a screen lock to the list, unless it is listed already. */
    method AddScreenEntry(t: Token)
      requires ListOk() && ProximityCountOk() && InternalLocksOk()
      requires IsScreenLock(t) && (t.Client? || t == StayOnScreenDim)
      modifies locks
      ensures ListOk() && InternalLocksOk() && locks.tokens == old(locks.tokens) + {t}
      ensures locks.screens ==
        C.Listed(old(locks.screens), t, MinState(KindOf(t), useSoftwareAutoBrightness, keyboardVisible))
      ensures |L.OfKind(locks.tokens, ProximityScreenOff)| == |L.OfKind(old(locks.tokens), ProximityScreenOff)| +
        (if KindOf(t) == ProximityScreenOff && t !in old(locks.tokens) then 1 else 0)
    {
      hide L.TokensOf, L.ScreensOf, L.LockList.Valid, InternalOk;
      ghost var tokens := locks.tokens;
      var wl := L.WakeLock(t, MinState(KindOf(t), useSoftwareAutoBrightness, keyboardVisible), true);
      assert L.WellKinded([wl]);
      locks.AddLock(wl);
      if t in tokens {
        assert tokens + {t} == tokens;
      } else {
        L.OfKindPlus(tokens, t, ProximityScreenOff);
        L.OfKindPlus(tokens, t, Partial);
      }
      OtherTokens(tokens, t);
    }

    lemma OtherTokens(tokens: set<Token>, t: Token)
      requires t.Client? || t == StayOnScreenDim
      ensures forall l: InternalLock :: l.token != t && !l.token.Client? ==>
        (InternalOk(l, tokens + {t}) <==> InternalOk(l, tokens)) &&
          (InternalOk(l, tokens - {t}) <==> InternalOk(l, tokens))
    {
    }

    /** The listing part of acquireWakeLockLocked for a screen lock. */
    method ListScreenLock(t: Token)
      requires Core() && IsScreenLock(t) && (t.Client? || t == StayOnScreenDim)
      modifies locks, `proximityCount, `proximityEnabled, `redundantAcquires
      ensures Core() && locks.tokens == old(locks.tokens) + {t} && Board() == old(Board())
      ensures Cache() == old(Cache()).(locks := C.Listed(old(locks.screens), t,
        MinState(KindOf(t), useSoftwareAutoBrightness, keyboardVisible)))
      ensures redundantAcquires == old(redundantAcquires) +
        (if KindOf(t) == ProximityScreenOff && t in old(locks.tokens) then 1 else 0)
      ensures proximityCount == old(proximityCount) + (if KindOf(t) == ProximityScreenOff then 1 else 0)
      ensures proximityEnabled == (old(proximityEnabled) || (KindOf(t) == ProximityScreenOff && proximityCount == 1))
    {
      hide L.LockList.Valid, T.ScreenTimeouts.Valid, R.BrightnessState.Valid, Logged, N.Faithful, C.Inv, C.Listed;
      hide Shape, Board, ListOk, ProximityCountOk, InternalLocksOk;
      C.ListedKeepsInv(Cache(), t, MinState(KindOf(t), useSoftwareAutoBrightness, keyboardVisible));
      hide MinState;
      CountScreenLock(t);
    }

    /** The parts of the invariant that listing a screen lock is about. */
    method CountScreenLock(t: Token)
      requires ListOk() && ProximityCountOk() && InternalLocksOk()
      requires IsScreenLock(t) && (t.Client? || t == StayOnScreenDim)
      modifies locks, `proximityCount, `proximityEnabled, `redundantAcquires
      ensures ListOk() && ProximityCountOk() && InternalLocksOk() && locks.tokens == old(locks.tokens) + {t}
      ensures locks.screens ==
        C.Listed(old(locks.screens), t, MinState(KindOf(t), useSoftwareAutoBrightness, keyboardVisible))
      ensures redundantAcquires == old(redundantAcquires) +
        (if KindOf(t) == ProximityScreenOff && t in old(locks.tokens) then 1 else 0)
      ensures proximityCount == old(proximityCount) + (if KindOf(t) == ProximityScreenOff then 1 else 0)
      ensures proximityEnabled == (old(proximityEnabled) || (KindOf(t) == ProximityScreenOff && proximityCount == 1))
    {
      hide L.LockList.Valid, ListOk, InternalLocksOk, MinState, C.Listed;
      ghost var known := t in locks.tokens;
      AddScreenEntry(t);
      if KindOf(t) == ProximityScreenOff {
        if known { redundantAcquires := redundantAcquires + 1; }
        proximityCount := proximityCount + 1;
        if proximityCount == 1 {
          EnableProximityLockLocked();
        }
      }
    }

    /** The cache part of acquireWakeLockLocked for a display lock already listed: a lock that causes a
        wakeup reactivates every lock, any other is limited to what is on already. */
    method RecacheOnAcquire(wakeup: bool)
      requires Core()
      modifies locks`entries, locks`screens, `wakeLockState, `proximityIgnored
      ensures Core() && SameLocks()
      ensures Cache() == if wakeup then C.AfterActivity(old(Cache()), userState)
        else old(Cache()).(wakeLockState := (userState + old(wakeLockState)) * C.Gather(old(locks.screens)))
      ensures proximityIgnored == (old(proximityIgnored) && !wakeup)
    {
      hide Clients, L.LockList.Valid, C.Gather, Logged, N.Faithful, T.ScreenTimeouts.Valid, R.BrightnessState.Valid;
      hide Shape, ProximityCountOk, InternalLocksOk, Board;
      if wakeup {
        C.StepKeepsInv(Cache(), C.Activity(userState));
        wakeLockState := locks.ReactivateScreenLocks();
        proximityIgnored := false;
      } else {
        var gathered := locks.GatherState();
        wakeLockState := (userState + wakeLockState) * gathered;
      }
    }

    /** A client's partial lock is listed or removed. */
    method ChangePartialLock(t: Token, hold: bool)
      requires Core() && KindOf(t) == Partial && t.Client?
      modifies locks, `partialCount, `kernelLockHeld
      ensures Core() && Cache() == old(Cache()) && Board() == old(Board())
      ensures locks.tokens == if hold then old(locks.tokens) + {t} else old(locks.tokens) - {t}
    {
      hide L.TokensOf, L.ScreensOf, L.LockList.Valid, C.Inv, Logged, N.Faithful, T.ScreenTimeouts.Valid;
      hide R.BrightnessState.Valid;
      hide Shape, Board, ListOk, InternalOk;
      ghost var tokens := locks.tokens;
      if hold {
        AcquirePartialLocked(t);
      } else {
        ReleasePartialLocked(t);
      }
      L.SameOfKind(tokens, locks.tokens, ProximityScreenOff);
      OtherTokens(tokens, t);
    }

    /** acquireWakeLockLocked. */
    method AcquireWakeLockLocked(t: Token, env: Env)
      requires Core() && (t.Client? || t == StayOnScreenDim)
      modifies locks, `partialCount, `kernelLockHeld, `broadcastLock, `drainPosted, `requested, `screenLog
      modifies `stillNeedSleepNotification
      modifies broadcastQueue, broadcastWhy, `screenOffReason, `screenOnCalls, `powerState, brightness
      modifies `wakeLockState, `proximityIgnored, `proximityCount, `proximityEnabled, `redundantAcquires
      ensures Core() && ProximitySafe()
      ensures Clients(locks.tokens) ==
        Clients(old(locks.tokens)) + (if t.Client? && KindOf(t) != BadKind then {t} else {})
      ensures StayOnScreenDim in locks.tokens <==> t == StayOnScreenDim || StayOnScreenDim in old(locks.tokens)
      ensures Cache() == if IsScreenLock(t)
        then C.AfterAcquire(old(Cache()), t, MinState(KindOf(t), useSoftwareAutoBrightness, keyboardVisible))
        else old(Cache())
      ensures redundantAcquires == old(redundantAcquires) +
        (if KindOf(t) == ProximityScreenOff && t in old(locks.tokens) then 1 else 0)
      ensures !IsDisplay(t) ==> powerState == old(powerState) && screenOnCalls == old(screenOnCalls)
      ensures IsDisplay(t) && FlagsOf(t).causesWakeup ==> wakeLockState == C.Gather(locks.screens)
      ensures IsDisplay(t) && !FlagsOf(t).causesWakeup ==> Cache().Demand() == old(Cache().Demand())
      ensures IsDisplay(t) ==> FollowsDemand(env)
      ensures if IsDisplay(t) then Applied(wakeLockState + userState, false, OFF_BECAUSE_OF_TIMEOUT, env)
        else screenLog == old(screenLog) && brightness.State() == old(brightness.State())
      ensures IsDisplay(t) ==> proximityCount == old(proximityCount)
      ensures proximityIgnored == (old(proximityIgnored) && !(IsDisplay(t) && FlagsOf(t).causesWakeup))
    {
      hide Applied;
      hide L.LockList.Valid, C.Gather, Logged, N.Faithful, N.Step, T.ScreenTimeouts.Valid, R.BrightnessState.Valid;
      hide Shape, ListOk, ProximityCountOk, InternalLocksOk, Board, MinState, C.Inv, NextPower, Wanted;
      if KindOf(t) == BadKind {
        return;
      }
      if IsScreenLock(t) {
        AcquireScreenLock(t, env);
      } else {
        ChangePartialLock(t, true);
      }
    }

    method AcquireScreenLock(t: Token, env: Env)
      requires Core() && (t.Client? || t == StayOnScreenDim) && IsScreenLock(t)
      modifies locks, `partialCount, `kernelLockHeld, `broadcastLock, `drainPosted, `requested, `screenLog
      modifies `stillNeedSleepNotification
      modifies broadcastQueue, broadcastWhy, `screenOffReason, `screenOnCalls, `powerState, brightness
      modifies `wakeLockState, `proximityIgnored, `proximityCount, `proximityEnabled, `redundantAcquires
      ensures Core() && ProximitySafe()
      ensures Clients(locks.tokens) == Clients(old(locks.tokens)) + (if t.Client? then {t} else {})
      ensures StayOnScreenDim in locks.tokens <==> t == StayOnScreenDim || StayOnScreenDim in old(locks.tokens)
      ensures Cache() ==
        C.AfterAcquire(old(Cache()), t, MinState(KindOf(t), useSoftwareAutoBrightness, keyboardVisible))
      ensures redundantAcquires == old(redundantAcquires) +
        (if KindOf(t) == ProximityScreenOff && t in old(locks.tokens) then 1 else 0)
      ensures !IsDisplay(t) ==> powerState == old(powerState) && screenOnCalls == old(screenOnCalls)
      ensures IsDisplay(t) && FlagsOf(t).causesWakeup ==> wakeLockState == C.Gather(locks.screens)
      ensures IsDisplay(t) && !FlagsOf(t).causesWakeup ==> Cache().Demand() == old(Cache().Demand())
      ensures IsDisplay(t) ==> FollowsDemand(env)
      ensures if IsDisplay(t) then Applied(wakeLockState + userState, false, OFF_BECAUSE_OF_TIMEOUT, env)
        else screenLog == old(screenLog) && brightness.State() == old(brightness.State())
      ensures IsDisplay(t) ==> proximityCount == old(proximityCount)
      ensures proximityIgnored == (old(proximityIgnored) && !(IsDisplay(t) && FlagsOf(t).causesWakeup))
    {
      hide L.LockList.Valid, C.Gather, Logged, N.Faithful, N.Step, T.ScreenTimeouts.Valid, R.BrightnessState.Valid;
      hide C.AfterAcquire;
      hide Shape, ListOk, ProximityCountOk, InternalLocksOk, Board, MinState, C.Inv, NextPower, Wanted, Clients, Aimed;
      hide NextLights, N.Notified, C.Cache.Demand;
      CacheScreenLock(t);
      if IsDisplay(t) {
        SetPowerState(wakeLockState + userState, false, OFF_BECAUSE_OF_TIMEOUT, env);
      }
    }

    /** The list and cache part of acquireWakeLockLocked for a screen lock. */
    method CacheScreenLock(t: Token)
      requires Core() && (t.Client? || t == StayOnScreenDim) && IsScreenLock(t)
      modifies locks, `wakeLockState, `proximityIgnored, `proximityCount, `proximityEnabled, `redundantAcquires
      ensures Core() && Board() == old(Board())
      ensures Clients(locks.tokens) == Clients(old(locks.tokens)) + (if t.Client? then {t} else {})
      ensures StayOnScreenDim in locks.tokens <==> t == StayOnScreenDim || StayOnScreenDim in old(locks.tokens)
      ensures Cache() ==
        C.AfterAcquire(old(Cache()), t, MinState(KindOf(t), useSoftwareAutoBrightness, keyboardVisible))
      ensures redundantAcquires == old(redundantAcquires) +
        (if KindOf(t) == ProximityScreenOff && t in old(locks.tokens) then 1 else 0)
      ensures IsDisplay(t) && FlagsOf(t).causesWakeup ==> wakeLockState == C.Gather(locks.screens)
      ensures IsDisplay(t) && !FlagsOf(t).causesWakeup ==> Cache().Demand() == old(Cache().Demand())
      ensures IsDisplay(t) ==> proximityCount == old(proximityCount)
      ensures proximityIgnored == (old(proximityIgnored) && !(IsDisplay(t) && FlagsOf(t).causesWakeup))
    {
      hide L.LockList.Valid, C.Gather, Logged, N.Faithful, T.ScreenTimeouts.Valid, R.BrightnessState.Valid;
      hide Shape, ListOk, ProximityCountOk, InternalLocksOk, Board, MinState, C.Inv;
      if IsDisplay(t) && !FlagsOf(t).causesWakeup {
        C.QuietAcquireKeepsDemand(Cache(),
          C.Acquire(t, MinState(KindOf(t), useSoftwareAutoBrightness, keyboardVisible)));
      }
      ListScreenLock(t);
      if IsDisplay(t) {
        RecacheOnAcquire(FlagsOf(t).causesWakeup);
      }
    }

    /** The list and cache part of releaseWakeLockLocked for a screen lock. */
    method DelistScreenLock(t: Token) returns (found: bool)
      requires Core() && IsScreenLock(t) && (t.Client? || t == StayOnScreenDim)
      modifies locks, `wakeLockState, `proximityCount
      ensures Core() && found == (t in old(locks.tokens)) && Board() == old(Board())
      ensures locks.tokens == old(locks.tokens) - {t}
      ensures Cache() == C.AfterRemove(old(Cache()), t)
      ensures proximityCount == old(proximityCount) - (if found && KindOf(t) == ProximityScreenOff then 1 else 0)
    {
      hide L.LockList.Valid, C.Gather, Logged, N.Faithful, T.ScreenTimeouts.Valid, R.BrightnessState.Valid;
      hide Shape, InternalLocksOk, Board, C.Inv;
      C.StepKeepsInv(Cache(), C.Remove(t));
      found := RemoveScreenEntry(t);
      if found {
        if KindOf(t) == ProximityScreenOff {
          proximityCount := proximityCount - 1;
        } else {
          wakeLockState := locks.GatherState();
        }
      } else {
        assert locks.screens == old(locks.screens);
      }
    }

    method RemoveScreenEntry(t: Token) returns (found: bool)
      requires ListOk() && InternalLocksOk() && IsScreenLock(t) && (t.Client? || t == StayOnScreenDim)
      modifies locks
      ensures ListOk() && InternalLocksOk()
      ensures found == (t in old(locks.tokens)) && found == (t in old(locks.screens))
      ensures locks.tokens == old(locks.tokens) - {t} && locks.screens == old(locks.screens) - {t}
      ensures |L.OfKind(locks.tokens, ProximityScreenOff)| == |L.OfKind(old(locks.tokens), ProximityScreenOff)| -
        (if found && KindOf(t) == ProximityScreenOff then 1 else 0)
    {
      hide L.TokensOf, L.ScreensOf, L.LockList.Valid, InternalOk;
      ghost var tokens := locks.tokens;
      locks.ListedScreens(t);
      found := locks.RemoveLock(t);
      if found {
        L.OfKindMinus(tokens, t, ProximityScreenOff);
        L.OfKindMinus(tokens, t, Partial);
      } else {
        assert tokens - {t} == tokens;
      }
      OtherTokens(tokens, t);
    }

    /** The end of releaseWakeLockLocked for a display lock: count the release as user activity if the
        lock asked for that, and apply the new state. */
    method FinishDisplayRelease(onAfterRelease: bool, env: Env) returns (accepted: bool)
      requires Core()
      modifies locks, `partialCount, `kernelLockHeld, `broadcastLock, `drainPosted, `requested, `screenLog
      modifies `stillNeedSleepNotification
      modifies broadcastQueue, broadcastWhy, `screenOffReason, `screenOnCalls, `powerState, brightness
      modifies `userState, `wakeLockState, `proximityIgnored, `proximityActive, `lastEventTime
      modifies timeouts`nextState, timeouts`remainingTimeoutOverride, timeouts`timeoutPosted, timeouts`nextTimeout
      ensures Core() && SameLocks() && ProximitySafe()
      ensures accepted == (onAfterRelease && old(AcceptsActivity(env.uptime, OtherEvent, false)))
      ensures accepted && !proximityActive && (preventScreenOn || !env.screenOnFails) ==> ScreenOn in powerState
      ensures proximityActive ==
        (old(proximityActive) && (!onAfterRelease || old(proximityCount) != 0 || old(ScreenTurningOff())))
      ensures FollowsDemand(env) && (!onAfterRelease ==> lastEventTime == old(lastEventTime))
      ensures userState == if accepted then old(userState) + SCREEN_BRIGHT else old(userState)
      ensures Cache() == if accepted then C.AfterActivity(old(Cache()), userState) else old(Cache())
      ensures !accepted ==> Applied(wakeLockState + userState, false, OFF_BECAUSE_OF_TIMEOUT, env)
      ensures if accepted then JustActive(env) else timeouts.Task() == old(timeouts.Task())
    {
      hide Core, Clients, Board, Cache, NextPower, Wanted, Aimed, T.Scheduled, C.AfterActivity, C.Gather;
      hide AcceptsActivity, T.ScreenTimeouts.Task, ActivityEvents, PowerFollows;
      hide N.Notified, NextLights, G.Switching, G.Announced;
      accepted := false;
      if onAfterRelease {
        accepted := UserActivityLocked(env.uptime, -1, false, OtherEvent, false, env);
      }
      SettleAfterRelease(env);
    }

    /** The screen follows what the remaining locks and the user ask for. */
    method SettleAfterRelease(env: Env)
      requires Core()
      modifies locks, `partialCount, `kernelLockHeld, `broadcastLock, `drainPosted, `requested, `screenLog
      modifies `stillNeedSleepNotification
      modifies broadcastQueue, broadcastWhy, `screenOffReason, `screenOnCalls, `powerState, brightness
      ensures Core() && SameLocks() && ProximitySafe() && Cache() == old(Cache())
      ensures FollowsDemand(env) && Applied(wakeLockState + userState, false, OFF_BECAUSE_OF_TIMEOUT, env)
      ensures ScreenOn in old(powerState) && ScreenOn in userState && !proximityActive ==> ScreenOn in powerState
    {
      hide Core, Clients, Board, Cache, Applied;
      if ScreenOn in powerState && ScreenOn in userState {
        StaysOn(powerState, wakeLockState + userState, env.batteryLow,
          !timeouts.bootCompleted && !useSoftwareAutoBrightness, !preventScreenOn && env.screenOnFails);
      }
      hide NextPower, Wanted;
      SetPowerState(wakeLockState + userState, false, OFF_BECAUSE_OF_TIMEOUT, env);
    }

    lemma StaysOn(power: PowerState, newState: PowerState, batteryLow: bool, forceBright: bool, fails: bool)
      requires ScreenOn in power && ScreenOn in newState
      ensures ScreenOn in NextPower(power, Wanted(power, newState, false, false, batteryLow), forceBright, fails)
    {
    }

    /** Which releases count as user activity: of a listed display lock taken with ON_AFTER_RELEASE, if
        activity is accepted; and of the last proximity lock counted while something is near, unless the
        caller waits for it to go away, the sensor is ignored, or the event is late. */
    ghost predicate ReleaseIsActivity(t: Token, waitForNegative: bool, env: Env)
      reads locks`tokens, `lastEventTime, `userActivityAllowed, `proximityActive, `proximityCount
      reads `proximityEnabled, `proximityIgnored, timeouts`pokey, brightness`animating, brightness`targetValue
    {
      t in locks.tokens &&
      if IsDisplay(t) then FlagsOf(t).onAfterRelease && AcceptsActivity(env.uptime, OtherEvent, false)
      else
        && KindOf(t) == ProximityScreenOff && proximityCount == 1 && !waitForNegative
        && proximityEnabled && proximityActive && !proximityIgnored
        && env.hasDevicePower && lastEventTime <= env.uptime
    }

    /** From the end of booting on the screen is on after the release of a display lock exactly if the release still
        asks for it, nothing is near, and it was on already or the driver could switch it on. */
    twostate predicate ScreenAfterRelease(t: Token, activity: bool, env: Env)
      reads `powerState, `proximityActive, `preventScreenOn, timeouts`bootCompleted
    {
      timeouts.bootCompleted || useSoftwareAutoBrightness ==>
        (ScreenOn in powerState <==>
          && C.ReleaseAsksForScreen(old(Cache()), t, activity)
          && !proximityActive
          && (ScreenOn in old(powerState) || preventScreenOn || !env.screenOnFails))
    }

    /** releaseWakeLockLocked; accepted says whether the release counted as user activity. */
    method ReleaseWakeLockLocked(t: Token, waitForNegative: bool, env: Env) returns (accepted: bool)
      requires Core() && (t.Client? || t == StayOnScreenDim)
      modifies locks, `partialCount, `kernelLockHeld, `broadcastLock, `drainPosted, `requested, `screenLog
      modifies `stillNeedSleepNotification
      modifies broadcastQueue, broadcastWhy, `screenOffReason, `screenOnCalls, `powerState, brightness
      modifies `userState, `wakeLockState, `proximityIgnored, `proximityActive, `lastEventTime, `userActivityAllowed
      modifies timeouts`nextState, timeouts`remainingTimeoutOverride, timeouts`timeoutPosted, timeouts`nextTimeout
      modifies `proximityEnabled, `proximityTaskQueued, `stayOnPartialLock, `preventLock, `proximityLock
      modifies `proximityCount
      ensures Core() && ProximitySafe()
      ensures userActivityAllowed == old(userActivityAllowed)
      ensures Clients(locks.tokens) == Clients(old(locks.tokens)) - {t}
      ensures StayOnScreenDim in locks.tokens <==> t != StayOnScreenDim && StayOnScreenDim in old(locks.tokens)
      ensures accepted <==> old(ReleaseIsActivity(t, waitForNegative, env))
      ensures if accepted || (IsDisplay(t) && t in old(locks.tokens)) then FollowsDemand(env)
        else powerState == old(powerState)
      ensures accepted && !proximityActive && (preventScreenOn || !env.screenOnFails) ==> ScreenOn in powerState
      ensures proximityActive ==> old(proximityActive)
      ensures Cache() == C.AfterRelease(old(Cache()), t, accepted)
      ensures stayOnPartialLock.held == old(stayOnPartialLock.held) && preventLock.held == old(preventLock.held)
      ensures (proximityTaskQueued == old(proximityTaskQueued) && proximityLock == old(proximityLock))
        || (!proximityTaskQueued && !proximityLock.held)
      ensures IsDisplay(t) ==> proximityCount == old(proximityCount)
      ensures IsDisplay(t) && !FlagsOf(t).onAfterRelease ==>
        userState == old(userState) && lastEventTime == old(lastEventTime) && proximityActive == old(proximityActive)
      ensures IsDisplay(t) && t in old(locks.tokens) ==> ScreenAfterRelease(t, accepted, env)
      ensures IsDisplay(t) && t in old(locks.tokens) && !accepted ==>
        Applied(wakeLockState + userState, false, OFF_BECAUSE_OF_TIMEOUT, env)
      ensures if accepted then JustActive(env) else timeouts.Task() == old(timeouts.Task())
      ensures proximityEnabled == (old(proximityEnabled) &&
        !(KindOf(t) == ProximityScreenOff && proximityCount == 0 && old(t in locks.tokens)
          && !(old(proximityActive) && waitForNegative)))
    {
      hide JustActive, T.ScreenTimeouts.Task;
      hide Applied;
      hide C.ReleaseAsksForScreen;
      hide Core, Clients, Board, FollowsDemand, AcceptsActivity, C.AfterActivity, C.Gather;
      NotAScreen(t);
      NotListed(t);
      ClientsWithout(locks.tokens, t);
      accepted := false;
      if KindOf(t) == BadKind {
        return;
      }
      if !IsScreenLock(t) {
        ChangePartialLock(t, false);
      } else if KindOf(t) == ProximityScreenOff {
        accepted := ReleaseProximityLock(t, waitForNegative, env);
      } else {
        accepted := ReleaseDisplayLock(t, env);
      }
    }

    method ReleaseDisplayLock(t: Token, env: Env) returns (accepted: bool)
      requires Core() && (t.Client? || t == StayOnScreenDim) && IsDisplay(t)
      modifies locks, `partialCount, `kernelLockHeld, `broadcastLock, `drainPosted, `requested, `screenLog
      modifies `stillNeedSleepNotification
      modifies broadcastQueue, broadcastWhy, `screenOffReason, `screenOnCalls, `powerState, brightness
      modifies `userState, `wakeLockState, `proximityIgnored, `proximityActive, `lastEventTime, `proximityCount
      modifies timeouts`nextState, timeouts`remainingTimeoutOverride, timeouts`timeoutPosted, timeouts`nextTimeout
      ensures Core() && ProximitySafe() && proximityCount == old(proximityCount)
      ensures Clients(locks.tokens) == Clients(old(locks.tokens)) - {t}
      ensures StayOnScreenDim in locks.tokens <==> t != StayOnScreenDim && StayOnScreenDim in old(locks.tokens)
      ensures accepted <==>
        t in old(locks.tokens) && FlagsOf(t).onAfterRelease && old(AcceptsActivity(env.uptime, OtherEvent, false))
      ensures t !in old(locks.tokens) ==> powerState == old(powerState)
      ensures t in old(locks.tokens) ==> FollowsDemand(env)
      ensures accepted && !proximityActive && (preventScreenOn || !env.screenOnFails) ==> ScreenOn in powerState
      ensures proximityActive ==> old(proximityActive)
      ensures Cache() == C.AfterRelease(old(Cache()), t, accepted)
      ensures !FlagsOf(t).onAfterRelease ==>
        userState == old(userState) && lastEventTime == old(lastEventTime) && proximityActive == old(proximityActive)
      ensures t in old(locks.tokens) ==> ScreenAfterRelease(t, accepted, env)
      ensures t in old(locks.tokens) && !accepted ==>
        Applied(wakeLockState + userState, false, OFF_BECAUSE_OF_TIMEOUT, env)
      ensures if accepted then JustActive(env) else timeouts.Task() == old(timeouts.Task())
    {
      hide Core, Clients, Board, C.AfterActivity, C.AfterRemove, C.Gather, C.ReleaseAsksForScreen, AcceptsActivity;
      ClientsWithout(locks.tokens, t);
      ghost var before := Cache();
      accepted := false;
      if t in locks.tokens { DisplayLockListed(t); }
      var found := DelistScreenLock(t);
      if found {
        accepted := FinishDisplayRelease(FlagsOf(t).onAfterRelease, env);
        C.ReleaseAsksForScreenIff(before, t, accepted);
      }
    }

    method ReleaseProximityLock(t: Token, waitForNegative: bool, env: Env) returns (accepted: bool)
      requires Core() && t.Client? && KindOf(t) == ProximityScreenOff
      modifies locks, `partialCount, `kernelLockHeld, `broadcastLock, `drainPosted, `requested, `screenLog
      modifies `stillNeedSleepNotification
      modifies broadcastQueue, broadcastWhy, `screenOffReason, `screenOnCalls, `powerState, brightness
      modifies `userState, `wakeLockState, `proximityIgnored, `proximityActive, `lastEventTime, `userActivityAllowed
      modifies timeouts`nextState, timeouts`remainingTimeoutOverride, timeouts`timeoutPosted, timeouts`nextTimeout
      modifies `proximityEnabled, `proximityTaskQueued, `stayOnPartialLock, `preventLock, `proximityLock
      modifies `proximityCount
      ensures Core() && ProximitySafe() && userActivityAllowed == old(userActivityAllowed)
      ensures Clients(locks.tokens) == Clients(old(locks.tokens)) - {t}
      ensures StayOnScreenDim in locks.tokens <==> StayOnScreenDim in old(locks.tokens)
      ensures accepted <==> old(ReleaseIsActivity(t, waitForNegative, env))
      ensures accepted <==> !waitForNegative && env.hasDevicePower && old(t in locks.tokens && proximityCount == 1 &&
        proximityEnabled && proximityActive && !proximityIgnored && lastEventTime <= env.uptime)
      ensures if accepted then FollowsDemand(env) else powerState == old(powerState)
      ensures accepted && (preventScreenOn || !env.screenOnFails) ==> ScreenOn in powerState
      ensures proximityActive ==> old(proximityActive)
      ensures Cache() == C.AfterRelease(old(Cache()), t, accepted)
      ensures stayOnPartialLock.held == old(stayOnPartialLock.held) && preventLock.held == old(preventLock.held)
      ensures (proximityTaskQueued == old(proximityTaskQueued) && proximityLock == old(proximityLock))
        || (!proximityTaskQueued && !proximityLock.held)
      ensures if accepted then JustActive(env) else timeouts.Task() == old(timeouts.Task())
      ensures proximityEnabled == (old(proximityEnabled) && !(proximityCount == 0 && old(t in locks.tokens)
        && !(old(proximityActive) && waitForNegative)))
    {
      hide Core, Clients, Board, C.AfterActivity, C.Gather;
      ClientsWithout(locks.tokens, t);
      accepted := false;
      var found := DelistScreenLock(t);
      if found && proximityCount == 0 && !(proximityActive && waitForNegative) {
        accepted := DisableProximityLockLocked(env);
      }
    }

    lemma DisplayLockListed(t: Token)
      requires Core() && IsDisplay(t) && t in locks.tokens
      ensures t in locks.screens
    {
      hide Clients, C.Inv, Logged, N.Faithful, T.ScreenTimeouts.Valid, R.BrightnessState.Valid, Shape, ProximityCountOk;
      hide InternalLocksOk;
      locks.ListedScreens(t);
    }

    lemma NotListed(t: Token)
      requires Core()
      ensures KindOf(t) == BadKind ==> t !in locks.tokens && t !in locks.screens
    {
      hide Clients, C.Inv, Logged, N.Faithful, T.ScreenTimeouts.Valid, R.BrightnessState.Valid, Shape, ProximityCountOk;
      hide InternalLocksOk;
    }

    lemma NotAScreen(t: Token)
      requires Core()
      ensures !IsScreenLock(t) ==> t !in locks.screens
    {
      hide Clients, C.Inv, Logged, N.Faithful, T.ScreenTimeouts.Valid, R.BrightnessState.Valid, Shape, ProximityCountOk;
      hide InternalLocksOk;
    }

    method DeactivateLocks(byProximity: bool) returns (proxLock: bool)
      requires ListOk()
      modifies locks`entries, locks`screens
      ensures ListOk() && locks.screens == C.Deactivated(old(locks.screens), byProximity)
      ensures proxLock <==> byProximity && L.OfKind(locks.tokens, ProximityScreenOff) != {}
    {
      hide L.LockList.Valid, C.Deactivated;
      proxLock := locks.DeactivateForSleep(byProximity);
    }

    /** The cache part of goToSleepLocked: no lock counts any more, except that the proximity locks keep
        doing so when the proximity sensor is the reason. */
    method RecacheForSleep(byProximity: bool)
      requires Core()
      modifies locks`entries, locks`screens, `wakeLockState, `userState, `proximityIgnored
      modifies `stillNeedSleepNotification, `screenLog
      ensures Core() && SameLocks() && Cache() == C.AfterSleep(old(Cache()), byProximity) && Board() == old(Board())
      ensures proximityIgnored ==
        (old(proximityIgnored) || !byProximity || L.OfKind(locks.tokens, ProximityScreenOff) == {})
      ensures stillNeedSleepNotification && screenLog == old(screenLog) + [G.Asleep]
    {
      hide Core, Clients, Cache, Board;
      ClearCache(byProximity);
      OweOff();
    }

    /** An off is owed until it is announced. */
    method OweOff()
      requires Core()
      modifies `stillNeedSleepNotification, `screenLog
      ensures Core() && stillNeedSleepNotification && screenLog == old(screenLog) + [G.Asleep]
    {
      hide Machine, G.Notices, G.Owed, G.OffReason, G.FadesKeepTheirReason;
      G.OneMore(screenLog, G.Asleep);
      stillNeedSleepNotification := true;
      screenLog := screenLog + [G.Asleep];
    }

    method ClearCache(byProximity: bool)
      requires Core()
      modifies locks`entries, locks`screens, `wakeLockState, `userState, `proximityIgnored
      ensures Core() && SameLocks() && Cache() == C.AfterSleep(old(Cache()), byProximity) && Board() == old(Board())
      ensures proximityIgnored ==
        (old(proximityIgnored) || !byProximity || L.OfKind(locks.tokens, ProximityScreenOff) == {})
    {
      hide Clients, L.LockList.Valid, C.Inv, Logged, N.Faithful, T.ScreenTimeouts.Valid, R.BrightnessState.Valid;
      hide Shape, ListOk, ProximityCountOk, InternalLocksOk, Board, C.Deactivated;
      C.SleepKeepsInv(Cache(), byProximity);
      wakeLockState := SCREEN_OFF;
      var proxLock := DeactivateLocks(byProximity);
      if !proxLock {
        proximityIgnored := true;
      }
      userState := SCREEN_OFF;
    }

    method CancelTimeout()
      requires Core()
      modifies timeouts`nextState, timeouts`timeoutPosted
      ensures Core() && timeouts.nextState == T.Cancelled && !timeouts.timeoutPosted
    {
      hide Clients, L.LockList.Valid, C.Inv, Logged, N.Faithful, R.BrightnessState.Valid;
      hide Shape, ListOk, ProximityCountOk, InternalLocksOk, Board, Cache;
      timeouts.CancelTimerLocked();
    }

    /** goToSleepLocked: overrides every wake lock, unless the request is older than the last event. */
    method GoToSleepLocked(time: int, reason: int, env: Env) returns (accepted: bool)
      requires Core()
      modifies locks, `partialCount, `kernelLockHeld, `broadcastLock, `drainPosted, `requested, `screenLog
      modifies `stillNeedSleepNotification
      modifies broadcastQueue, broadcastWhy, `screenOffReason, `screenOnCalls, `powerState, brightness
      modifies `wakeLockState, `userState, `proximityIgnored, `lastEventTime
      modifies timeouts`nextState, timeouts`timeoutPosted
      ensures Core() && SameLocks() && ProximitySafe()
      ensures accepted == (old(lastEventTime) <= time)
      ensures accepted ==>
        lastEventTime == time && Cache() == C.AfterSleep(old(Cache()), reason == OFF_BECAUSE_OF_PROX_SENSOR)
      ensures accepted ==> timeouts.nextState == T.Cancelled && !timeouts.timeoutPosted
      ensures accepted && (timeouts.bootCompleted || useSoftwareAutoBrightness) ==>
        ScreenOn !in powerState && screenOnCalls == old(screenOnCalls)
      ensures !accepted ==>
        Cache() == old(Cache()) && powerState == old(powerState) && timeouts.Task() == old(timeouts.Task())
      ensures !accepted ==> Board() == old(Board()) && screenOnCalls == old(screenOnCalls)
      ensures if accepted then FellAsleep(reason, env) else screenLog == old(screenLog)
    {
      hide Clients, C.Gather, Board, Cache, C.AfterSleep, N.Notified, NextLights, Core, T.ScreenTimeouts.Task;
      hide Aimed, G.Switching, G.Announced;
      accepted := lastEventTime <= time;
      if accepted {
        lastEventTime := time;
        RecacheForSleep(reason == OFF_BECAUSE_OF_PROX_SENSOR);
        SetPowerState(SCREEN_OFF, false, reason, env);
        CancelTimeout();
      }
    }

    /** What a reading leads to.  If the sensor is enabled, not ignored and the clock not late, something near sends
        the device to sleep, which the proximity locks outlive, and nothing near counts as user activity, given device
        power; else the locks, the user's state and the screen stay as they are. */
    twostate predicate Handled(active: bool, env: Env)
      reads `powerState, `userState, `wakeLockState, `preventScreenOn, `lastEventTime, locks`screens
      reads timeouts`bootCompleted, timeouts`nextState, timeouts`remainingTimeoutOverride
      reads timeouts`timeoutPosted, timeouts`nextTimeout
      reads timeouts`keylightDelay, timeouts`dimDelay, timeouts`screenOffDelay
    {
      if old(proximityEnabled && !proximityIgnored && lastEventTime <= env.uptime) && (active || env.hasDevicePower)
      then
        if active then
          && Cache() == C.AfterSleep(old(Cache()), true) && timeouts.nextState == T.Cancelled && !timeouts.timeoutPosted
          && (timeouts.bootCompleted || useSoftwareAutoBrightness ==> ScreenOn !in powerState)
        else
          && Cache() == C.AfterActivity(old(Cache()), old(userState) + SCREEN_BRIGHT) && JustActive(env)
          && (preventScreenOn || !env.screenOnFails ==> ScreenOn in powerState)
      else Cache() == old(Cache()) && powerState == old(powerState) && timeouts.Task() == old(timeouts.Task())
    }

    /** proximityChangedLocked: a near reading sends the device to sleep, a far one counts as user
        activity and releases a sensor nobody listens to any more. */
    method ProximityChangedLocked(active: bool, env: Env)
      requires Core()
      modifies locks, `partialCount, `kernelLockHeld, `broadcastLock, `drainPosted, `requested, `screenLog
      modifies `stillNeedSleepNotification
      modifies broadcastQueue, broadcastWhy, `screenOffReason, `screenOnCalls, `powerState, brightness
      modifies `userState, `wakeLockState, `proximityIgnored, `proximityActive, `lastEventTime, `userActivityAllowed
      modifies timeouts`nextState, timeouts`remainingTimeoutOverride, timeouts`timeoutPosted, timeouts`nextTimeout
      modifies `proximityEnabled, `proximityTaskQueued, `stayOnPartialLock, `preventLock, `proximityLock
      ensures Core() && SameLocks() && ProximitySafe()
      ensures userActivityAllowed == old(userActivityAllowed)
      ensures proximityActive == if old(proximityEnabled) then active else old(proximityActive)
      ensures stayOnPartialLock.held == old(stayOnPartialLock.held) && preventLock.held == old(preventLock.held)
      ensures (proximityTaskQueued == old(proximityTaskQueued) && proximityLock == old(proximityLock))
        || (!proximityTaskQueued && !proximityLock.held)
      ensures old(proximityEnabled) && !active ==> proximityEnabled == (proximityCount != 0)
      ensures Handled(active, env)
    {
      hide Core, Clients, Cache, C.AfterSleep, C.AfterActivity, T.ScreenTimeouts.Task;
      if !proximityEnabled {
        return;
      }
      if active {
        ProximityNearLocked(env);
      } else {
        ProximityFarLocked(env);
      }
    }

    method ProximityNearLocked(env: Env)
      requires Core()
      modifies locks, `partialCount, `kernelLockHeld, `broadcastLock, `drainPosted, `requested, `screenLog
      modifies `stillNeedSleepNotification
      modifies broadcastQueue, broadcastWhy, `screenOffReason, `screenOnCalls, `powerState, brightness
      modifies `userState, `wakeLockState, `proximityIgnored, `proximityActive, `lastEventTime
      modifies timeouts`nextState, timeouts`timeoutPosted
      ensures Core() && SameLocks() && ProximitySafe() && proximityActive
      ensures
        if !old(proximityIgnored) && old(lastEventTime) <= env.uptime then
          Cache() == C.AfterSleep(old(Cache()), true) && timeouts.nextState == T.Cancelled && !timeouts.timeoutPosted &&
            (timeouts.bootCompleted || useSoftwareAutoBrightness ==> ScreenOn !in powerState)
        else Cache() == old(Cache()) && powerState == old(powerState) && timeouts.Task() == old(timeouts.Task())
    {
      hide Core, Clients, Cache, C.AfterSleep, T.ScreenTimeouts.Task, Board;
      if !proximityIgnored {
        var _ := GoToSleepLocked(env.uptime, OFF_BECAUSE_OF_PROX_SENSOR, env);
      }
      RecordProximity(true);
    }

    method ProximityFarLocked(env: Env)
      requires Core() && proximityEnabled
      modifies locks, `partialCount, `kernelLockHeld, `broadcastLock, `drainPosted, `requested, `screenLog
      modifies `stillNeedSleepNotification
      modifies broadcastQueue, broadcastWhy, `screenOffReason, `screenOnCalls, `powerState, brightness
      modifies `userState, `wakeLockState, `proximityIgnored, `proximityActive, `lastEventTime, `userActivityAllowed
      modifies timeouts`nextState, timeouts`remainingTimeoutOverride, timeouts`timeoutPosted, timeouts`nextTimeout
      modifies `proximityEnabled, `proximityTaskQueued, `stayOnPartialLock, `preventLock, `proximityLock
      ensures Core() && SameLocks() && ProximitySafe() && !proximityActive
      ensures userActivityAllowed == old(userActivityAllowed)
      ensures stayOnPartialLock.held == old(stayOnPartialLock.held) && preventLock.held == old(preventLock.held)
      ensures (proximityTaskQueued == old(proximityTaskQueued) && proximityLock == old(proximityLock))
        || (!proximityTaskQueued && !proximityLock.held)
      ensures proximityEnabled == (proximityCount != 0)
      ensures
        if !old(proximityIgnored) && env.hasDevicePower && old(lastEventTime) <= env.uptime then
          Cache() == C.AfterActivity(old(Cache()), old(userState) + SCREEN_BRIGHT) &&
            (preventScreenOn || !env.screenOnFails ==> ScreenOn in powerState) && JustActive(env)
        else Cache() == old(Cache()) && powerState == old(powerState) && timeouts.Task() == old(timeouts.Task())
    {
      hide Core, Clients, Cache, C.AfterActivity, T.ScreenTimeouts.Task, Board, FollowsDemand, JustActive;
      var _ := NothingNear(env);
      if proximityCount == 0 {
        var _ := DisableProximityLockLocked(env);
      }
    }

    method RecordProximity(active: bool)
      requires Core()
      modifies `proximityActive
      ensures Core() && proximityActive == active
    {
      hide Core;
      proximityActive := active;
    }

    /** The clients' locks, the count of redundant acquires and the boot flag stay as they are. */
    twostate predicate KeepsClients()
      reads locks`tokens, `redundantAcquires, timeouts`bootCompleted
    {
      && Clients(locks.tokens) == Clients(old(locks.tokens))
      && redundantAcquires == old(redundantAcquires)
      && timeouts.bootCompleted == old(timeouts.bootCompleted)
    }

    /** acquireWakeLock, called by a client. */
    method AcquireWakeLock(t: Token, env: Env)
      requires Valid() && t.Client?
      modifies locks, `partialCount, `kernelLockHeld, `broadcastLock, `drainPosted, `requested, `screenLog
      modifies `stillNeedSleepNotification
      modifies broadcastQueue, broadcastWhy, `screenOffReason, `screenOnCalls, `powerState, brightness
      modifies `wakeLockState, `proximityIgnored, `proximityCount, `proximityEnabled, `redundantAcquires
      ensures Valid() && ProximitySafe()
      ensures Clients(locks.tokens) == Clients(old(locks.tokens)) + (if KindOf(t) != BadKind then {t} else {})
      ensures redundantAcquires ==
        old(redundantAcquires) + (if KindOf(t) == ProximityScreenOff && t in old(locks.tokens) then 1 else 0)
      ensures Cache() == if IsScreenLock(t)
        then C.AfterAcquire(old(Cache()), t, MinState(KindOf(t), useSoftwareAutoBrightness, old(keyboardVisible)))
        else old(Cache())
      ensures IsDisplay(t) && !FlagsOf(t).causesWakeup ==> Cache().Demand() == old(Cache().Demand())
      ensures IsDisplay(t) ==> FollowsDemand(env)
      ensures if IsDisplay(t) then Applied(wakeLockState + userState, false, OFF_BECAUSE_OF_TIMEOUT, env)
        else screenLog == old(screenLog) && brightness.State() == old(brightness.State())
      ensures proximityIgnored == (old(proximityIgnored) && !(IsDisplay(t) && FlagsOf(t).causesWakeup))
      ensures !IsDisplay(t) ==> powerState == old(powerState)
    {
      hide Applied;
      hide Clients, Core, C.AfterAcquire;
      AcquireWakeLockLocked(t, env);
    }

    /** releaseWakeLock, called by a client. */
    method ReleaseWakeLock(t: Token, waitForNegative: bool, env: Env) returns (accepted: bool)
      requires Valid() && t.Client?
      modifies locks, `partialCount, `kernelLockHeld, `broadcastLock, `drainPosted, `requested, `screenLog
      modifies `stillNeedSleepNotification
      modifies broadcastQueue, broadcastWhy, `screenOffReason, `screenOnCalls, `powerState, brightness
      modifies `userState, `wakeLockState, `proximityIgnored, `proximityActive, `lastEventTime, `userActivityAllowed
      modifies timeouts`nextState, timeouts`remainingTimeoutOverride, timeouts`timeoutPosted, timeouts`nextTimeout
      modifies `proximityEnabled, `proximityTaskQueued, `stayOnPartialLock, `preventLock, `proximityLock
      modifies `proximityCount
      ensures Valid() && ProximitySafe()
      ensures Clients(locks.tokens) == Clients(old(locks.tokens)) - {t}
      ensures redundantAcquires == old(redundantAcquires) && timeouts.bootCompleted == old(timeouts.bootCompleted)
      ensures accepted <==> old(ReleaseIsActivity(t, waitForNegative, env))
      ensures if accepted || (IsDisplay(t) && t in old(locks.tokens)) then FollowsDemand(env)
        else powerState == old(powerState)
      ensures Cache() == C.AfterRelease(old(Cache()), t, accepted)
      ensures IsDisplay(t) && t in old(locks.tokens) && !accepted ==>
        Applied(wakeLockState + userState, false, OFF_BECAUSE_OF_TIMEOUT, env)
      ensures IsDisplay(t) && !FlagsOf(t).onAfterRelease ==> proximityActive == old(proximityActive)
      ensures preventScreenOn == old(preventScreenOn) && (proximityActive ==> old(proximityActive))
      ensures if accepted then JustActive(env) else timeouts.Task() == old(timeouts.Task())
      ensures proximityEnabled == (old(proximityEnabled) &&
        !(KindOf(t) == ProximityScreenOff && proximityCount == 0 && old(t in locks.tokens)
          && !(old(proximityActive) && waitForNegative)))
    {
      hide JustActive, FollowsDemand, ReleaseIsActivity, Board, Cache, T.ScreenTimeouts.Task;
      hide Applied;
      hide Clients, Core, C.AfterRelease, AcceptsActivity;
      accepted := ReleaseWakeLockLocked(t, waitForNegative, env);
    }

    /** userActivity and its variants. */
    method UserActivity(time: int, timeoutOverride: int, noChangeLights: bool, eventType: EventType, force: bool,
                        env: Env)
      returns (accepted: bool)
      requires Valid()
      modifies locks, `partialCount, `kernelLockHeld, `broadcastLock, `drainPosted, `requested, `screenLog
      modifies `stillNeedSleepNotification
      modifies broadcastQueue, broadcastWhy, `screenOffReason, `screenOnCalls, `powerState, brightness
      modifies `userState, `wakeLockState, `proximityIgnored, `proximityActive, `lastEventTime
      modifies timeouts`nextState, timeouts`remainingTimeoutOverride, timeouts`timeoutPosted, timeouts`nextTimeout
      ensures Valid() && ProximitySafe() && KeepsClients()
      ensures accepted == old(AcceptsActivity(time, eventType, force))
      ensures accepted ==>
        userState == (if eventType == ButtonEvent && !useSoftwareAutoBrightness then
          {ScreenOn, ScreenBright, ButtonBright} + (if old(keyboardVisible) then {KeyboardBright} else {})
          else old(userState) + {ScreenOn, ScreenBright})
      ensures accepted && timeouts.bootCompleted ==>
        timeouts.Task() == T.Scheduled(timeouts.Config(), time, timeoutOverride, T.Bright)
      ensures accepted ==> wakeLockState == C.Gather(locks.screens)
      ensures proximityActive ==> old(proximityActive)
      ensures timeouts.Config() == old(timeouts.Config())
      ensures screenLog == old(screenLog) + if accepted then ActivityEvents(noChangeLights, env) else []
      ensures accepted ==> PowerFollows(noChangeLights, env)
      ensures accepted ==> lastEventTime == time
      ensures !accepted ==> userState == old(userState) && powerState == old(powerState)
      ensures !accepted ==> Cache() == old(Cache()) && timeouts.Task() == old(timeouts.Task())
    {
      hide ActivityEvents, Applied, FollowsDemand;
      hide Clients, Core, C.AfterActivity, C.Gather, T.Scheduled, AcceptsActivity, PowerFollows, Board, TasksOk;
      hide T.ScreenTimeouts.Task, Cache;
      accepted := UserActivityLocked(time, timeoutOverride, noChangeLights, eventType, force, env);
    }

    /** goToSleepWithReason. */
    method GoToSleep(time: int, reason: int, env: Env) returns (accepted: bool)
      requires Valid()
      modifies locks, `partialCount, `kernelLockHeld, `broadcastLock, `drainPosted, `requested, `screenLog
      modifies `stillNeedSleepNotification
      modifies broadcastQueue, broadcastWhy, `screenOffReason, `screenOnCalls, `powerState, brightness
      modifies `wakeLockState, `userState, `proximityIgnored, `lastEventTime
      modifies timeouts`nextState, timeouts`timeoutPosted
      ensures Valid() && ProximitySafe() && KeepsClients()
      ensures accepted == (old(lastEventTime) <= time)
      ensures accepted ==> Cache() == C.AfterSleep(old(Cache()), reason == OFF_BECAUSE_OF_PROX_SENSOR)
      ensures accepted && timeouts.bootCompleted ==> ScreenOn !in powerState
      ensures if accepted then FellAsleep(reason, env) else screenLog == old(screenLog)
      ensures accepted ==> lastEventTime == time && timeouts.nextState == T.Cancelled && !timeouts.timeoutPosted
      ensures !accepted ==>
        Cache() == old(Cache()) && powerState == old(powerState) && timeouts.Task() == old(timeouts.Task())
    {
      hide FellAsleep;
      hide Clients, Core, C.AfterSleep;
      accepted := GoToSleepLocked(time, reason, env);
    }

    /** The user's state in a stage of the countdown: bright, then dim, then off; the other lights are out. */
    function StageState(stage: T.Stage): (state: PowerState)
      ensures ScreenOn in state <==> stage == T.Bright || stage == T.Dim
      ensures ScreenBright in state <==> stage == T.Bright
      ensures state <= {ScreenOn, ScreenBright}
    {
      match stage
      case Bright => SCREEN_BRIGHT
      case Dim => SCREEN_DIM
      case _ => SCREEN_OFF
    }

    /** TimeoutTask.run. */
    method RunTimeoutTask(env: Env)
      requires Valid() && timeouts.timeoutPosted
      modifies locks, `partialCount, `kernelLockHeld, `broadcastLock, `drainPosted, `requested, `screenLog
      modifies `stillNeedSleepNotification
      modifies broadcastQueue, broadcastWhy, `screenOffReason, `screenOnCalls, `powerState, brightness, `userState
      modifies timeouts`nextState, timeouts`timeoutPosted, timeouts`nextTimeout, timeouts`remainingTimeoutOverride
      ensures Valid() && ProximitySafe() && KeepsClients()
      ensures timeouts.Config() == old(timeouts.Config())
      ensures timeouts.Task() == T.Fired(timeouts.Config(), old(timeouts.Task()), env.uptime)
      ensures Cache() == if old(timeouts.nextState) == T.Cancelled then old(Cache())
        else old(Cache()).(userState := StageState(old(timeouts.nextState)))
      ensures old(timeouts.nextState) != T.Cancelled ==> FollowsDemand(env)
      ensures old(timeouts.nextState) != T.Cancelled ==>
        Applied(userState + wakeLockState, false, OFF_BECAUSE_OF_TIMEOUT, env)
    {
      hide Applied;
      hide Core, Clients, Cache, StageState, T.Scheduled, T.Fired, TasksOk, FollowsDemand;
      FireTimeoutLocked(env);
    }

    /** The tasks of a countdown with nothing in between, the k-th run late[k] after the time it was posted for,
        with whatever battery and driver there is then: within three of them the user's state is off, at the
        time the countdown leads to, plus what they were late. */
    method RunCountdown(ghost time: int, late: seq<nat>, envs: seq<Env>) returns (now: int, fired: nat)
      requires Valid() && T.Leads(timeouts.Config(), timeouts.Task(), time)
      requires |late| >= T.Rank(timeouts.nextState) && |envs| >= T.Rank(timeouts.nextState)
      modifies this, locks, timeouts, brightness, broadcastQueue, broadcastWhy
      ensures Valid() && KeepsClients()
      ensures userState == SCREEN_OFF && !timeouts.timeoutPosted
      ensures timeouts.bootCompleted && ScreenOn !in wakeLockState ==> ScreenOn !in powerState
      ensures 1 <= fired <= T.Rank(old(timeouts.nextState)) && fired <= |late|
      ensures now == time + T.Sum(late[..fired])
      decreases T.Rank(timeouts.nextState)
    {
      hide Valid, Clients, T.Fired, T.Scheduled, Applied;
      T.LeadsOn(timeouts.Config(), timeouts.Task(), time, late[0]);
      var stage := timeouts.nextState;
      now := timeouts.nextTimeout + late[0];
      RunTimeoutTask(envs[0].(uptime := now));
      if stage == T.Off {
        assert late[..1][1..] == [];
        return now, 1;
      }
      var rest;
      now, rest := RunCountdown(time + late[0], late[1..], envs[1..]);
      fired := rest + 1;
      assert late[..fired][1..] == late[1..][..rest];
    }

    /** An accepted user activity of any kind, and nothing after it but the countdown it starts: the user's state
        is off after exactly the time asked for, or else the three delays together. */
    method ActivityRunsOut(time: int, timeoutOverride: int, noChangeLights: bool, eventType: EventType, force: bool,
                           late: seq<nat>, envs: seq<Env>) returns (now: int, fired: nat)
      requires Valid() && timeouts.bootCompleted && AcceptsActivity(time, eventType, force)
      requires |late| >= 3 && |envs| >= 4
      modifies this, locks, timeouts, brightness, broadcastQueue, broadcastWhy
      ensures Valid() && userState == SCREEN_OFF && !timeouts.timeoutPosted
      ensures ScreenOn !in wakeLockState ==> ScreenOn !in powerState
      ensures 1 <= fired <= 3
      ensures now == time + T.Sum(late[..fired]) +
        if timeoutOverride > 0 then timeoutOverride else T.Total(old(timeouts.Config()))
    {
      hide Core, TasksOk, Clients, T.Scheduled, T.Leads, AcceptsActivity, FollowsDemand, ActivityEvents;
      OffDelayIsNatural();
      T.ScheduledLeads(timeouts.Config(), time, timeoutOverride);
      ghost var end := time + if timeoutOverride > 0 then timeoutOverride else T.Total(timeouts.Config());
      var accepted := UserActivity(time, timeoutOverride, noChangeLights, eventType, force, envs[0]);
      now, fired := RunCountdown(end, late, envs[1..]);
    }

    lemma OffDelayIsNatural()
      requires Valid()
      ensures timeouts.screenOffDelay >= 0
    {
      hide Shape, ListOk, ProximityCountOk, InternalLocksOk, C.Inv, Logged, N.Faithful, R.BrightnessState.Valid;
      timeouts.OffDelayIsNatural();
    }

    method FireTimeoutLocked(env: Env)
      requires Core() && timeouts.timeoutPosted
      modifies locks, `partialCount, `kernelLockHeld, `broadcastLock, `drainPosted, `requested, `screenLog
      modifies `stillNeedSleepNotification
      modifies broadcastQueue, broadcastWhy, `screenOffReason, `screenOnCalls, `powerState, brightness, `userState
      modifies timeouts`nextState, timeouts`timeoutPosted, timeouts`nextTimeout, timeouts`remainingTimeoutOverride
      ensures Core() && SameLocks() && ProximitySafe()
      ensures timeouts.Task() == T.Fired(timeouts.Config(), old(timeouts.Task()), env.uptime)
      ensures Cache() == if old(timeouts.nextState) == T.Cancelled then old(Cache())
        else old(Cache()).(userState := StageState(old(timeouts.nextState)))
      ensures old(timeouts.nextState) != T.Cancelled ==> FollowsDemand(env)
      ensures old(timeouts.nextState) != T.Cancelled ==>
        Applied(userState + wakeLockState, false, OFF_BECAUSE_OF_TIMEOUT, env)
    {
      hide Core, Clients, Cache, StageState, T.Scheduled;
      TakeTimeout();
      if timeouts.nextState == T.Cancelled {
        return;
      }
      SetStage(timeouts.nextState, env);
      ContinueCountdown(env.uptime);
    }

    method ContinueCountdown(now: int)
      requires Core() && timeouts.bootCompleted && !timeouts.timeoutPosted
      modifies timeouts`nextState, timeouts`timeoutPosted, timeouts`nextTimeout, timeouts`remainingTimeoutOverride
      ensures Core()
      ensures timeouts.Task() == T.Fired(timeouts.Config(), old(timeouts.Task()), now)
    {
      hide Shape, ListOk, ProximityCountOk, InternalLocksOk, Board, Cache, C.Inv, Logged, N.Faithful;
      hide R.BrightnessState.Valid, T.Fired;
      timeouts.ContinueCountdown(now);
    }

    /** The posted task is taken off the handler. */
    method TakeTimeout()
      requires Core() && timeouts.timeoutPosted
      modifies timeouts`timeoutPosted
      ensures Core() && timeouts.bootCompleted && timeouts.Task() == old(timeouts.Task()).(posted := false)
    {
      hide Shape, ListOk, ProximityCountOk, InternalLocksOk, Board, Cache, C.Inv, Logged, N.Faithful;
      hide R.BrightnessState.Valid;
      timeouts.timeoutPosted := false;
    }

    /** The user state of a stage, and the power state that follows. */
    method SetStage(stage: T.Stage, env: Env)
      requires Core() && stage != T.Cancelled
      modifies locks, `partialCount, `kernelLockHeld, `broadcastLock, `drainPosted, `requested, `screenLog
      modifies `stillNeedSleepNotification
      modifies broadcastQueue, broadcastWhy, `screenOffReason, `screenOnCalls, `powerState, brightness, `userState
      ensures Core() && SameLocks() && ProximitySafe()
      ensures Cache() == old(Cache()).(userState := StageState(stage))
      ensures FollowsDemand(env)
      ensures Applied(userState + wakeLockState, false, OFF_BECAUSE_OF_TIMEOUT, env)
    {
      hide Clients, L.LockList.Valid, Logged, N.Faithful, N.Step, T.ScreenTimeouts.Valid, R.BrightnessState.Valid;
      hide StageState;
      hide Shape, ListOk, ProximityCountOk, InternalLocksOk, Board;
      userState := StageState(stage);
      SetPowerState(userState + wakeLockState, false, OFF_BECAUSE_OF_TIMEOUT, env);
    }

    /** The brightness animator's run. */
    method RunAnimator(env: Env) returns (dark: bool)
      requires Valid() && brightness.posted
      modifies locks, `partialCount, `kernelLockHeld, `broadcastLock, `drainPosted, `requested, `screenLog
      modifies `stillNeedSleepNotification
      modifies broadcastQueue, broadcastWhy, `screenOffReason, `screenOnCalls, brightness
      ensures Valid() && ProximitySafe() && KeepsClients() && Cache() == old(Cache()) && powerState == old(powerState)
      ensures animateScreenLights ==> brightness.State() == R.Stepped(old(brightness.State()))
      ensures animateScreenLights ==> brightness.posted == brightness.animating
      ensures !animateScreenLights ==>
        brightness.targetValue == -1 && brightness.curValue == old(brightness.targetValue) as real
      ensures dark == if animateScreenLights
        then old(brightness.animating) && !brightness.animating && brightness.targetValue == 0
        else old(brightness.targetValue) == 0
      ensures Board() == if dark && !env.screenOffFails
        then N.Step(old(Board()), N.Request(false, old(screenOffReason))) else old(Board())
      ensures screenLog == old(screenLog) + if dark then [G.FadedOut(old(screenOffReason), env.screenOffFails)] else []
      ensures screenOffReason == old(screenOffReason)
    {
      hide Core, Clients, Board, N.Step, R.Stepped, Cache, TasksOk;
      dark := AnimateLocked(env);
    }

    method AnimateLocked(env: Env) returns (dark: bool)
      requires Core() && brightness.posted
      modifies locks, `partialCount, `kernelLockHeld, `broadcastLock, `drainPosted, `requested, `screenLog
      modifies `stillNeedSleepNotification
      modifies broadcastQueue, broadcastWhy, `screenOffReason, `screenOnCalls, brightness
      ensures Core() && SameLocks() && ProximitySafe() && Cache() == old(Cache()) && screenOnCalls == old(screenOnCalls)
      ensures animateScreenLights ==> brightness.State() == R.Stepped(old(brightness.State()))
      ensures animateScreenLights ==> brightness.posted == brightness.animating
      ensures !animateScreenLights ==>
        brightness.targetValue == -1 && brightness.curValue == old(brightness.targetValue) as real
      ensures dark == if animateScreenLights
        then old(brightness.animating) && !brightness.animating && brightness.targetValue == 0
        else old(brightness.targetValue) == 0
      ensures Board() == if dark && !env.screenOffFails
        then N.Step(old(Board()), N.Request(false, old(screenOffReason))) else old(Board())
      ensures screenLog == old(screenLog) + if dark then [G.FadedOut(old(screenOffReason), env.screenOffFails)] else []
      ensures screenOffReason == old(screenOffReason)
    {
      hide Machine, Clients, Board, N.Step, R.Stepped, Cache;
      dark := AnimateLights();
      if dark {
        FadeEnds(env);
      }
    }

    method AnimateLights() returns (dark: bool)
      requires Core() && brightness.posted
      modifies brightness
      ensures Core() && Board() == old(Board())
      ensures animateScreenLights ==> brightness.State() == R.Stepped(old(brightness.State()))
      ensures animateScreenLights ==> brightness.posted == brightness.animating
      ensures !animateScreenLights ==>
        brightness.targetValue == -1 && brightness.curValue == old(brightness.targetValue) as real
      ensures dark == if animateScreenLights
        then old(brightness.animating) && !brightness.animating && brightness.targetValue == 0
        else old(brightness.targetValue) == 0
    {
      hide L.LockList.Valid, C.Inv, N.Faithful, Logged, T.ScreenTimeouts.Valid, R.Stepped;
      hide Shape, ListOk, ProximityCountOk, InternalLocksOk, Board, Cache;
      dark := brightness.Animate(animateScreenLights);
    }

    /** A fade has ended dark: now the screen is switched off and its off announced. */
    method FadeEnds(env: Env)
      requires Core()
      modifies locks, `partialCount, `kernelLockHeld, `broadcastLock, `drainPosted, `requested, `screenLog
      modifies `stillNeedSleepNotification
      modifies broadcastQueue, broadcastWhy, `screenOffReason, `screenOnCalls
      ensures Core() && SameLocks() && Cache() == old(Cache()) && screenOnCalls == old(screenOnCalls)
      ensures Board() ==
        if env.screenOffFails then old(Board()) else N.Step(old(Board()), N.Request(false, old(screenOffReason)))
      ensures screenLog == old(screenLog) + [G.FadedOut(old(screenOffReason), env.screenOffFails)]
      ensures screenOffReason == old(screenOffReason)
    {
      hide Machine, Clients, Board, N.Step, Cache;
      ghost var e := G.FadedOut(screenOffReason, env.screenOffFails);
      ScreenOffFinishedAnimatingLocked(screenOffReason, env);
      LogEvent(e);
    }

    /** A fade to off that nothing stops, run by run of the animator: it ends dark after exactly the runs that its
        straight line takes to reach the bottom, and then, not before, the off is announced. */
    method FadeRunsOut(n: nat, envs: seq<Env>) returns (runs: nat)
      requires Valid() && animateScreenLights && ScreenTurningOff()
      requires n > 0 && R.Reached(brightness.State(), n) && |envs| >= n
      modifies this, locks, brightness, broadcastQueue, broadcastWhy
      ensures Valid() && KeepsClients() && powerState == old(powerState)
      ensures 1 <= runs <= n && R.Landed(brightness.State(), 0) && !brightness.posted
      ensures R.Reached(old(brightness.State()), runs)
      ensures forall k :: 0 < k < runs ==> !R.Reached(old(brightness.State()), k)
      ensures screenLog == old(screenLog) + [G.FadedOut(old(screenOffReason), envs[runs - 1].screenOffFails)]
    {
      hide Valid, Clients, Cache, Board, N.Step, R.Stepped, R.Reached, R.Steps;
      ghost var start := brightness.State();
      FadesArePosted();
      runs := 0;
      R.NoSteps(start);
      while brightness.animating
        invariant Valid() && KeepsClients() && powerState == old(powerState)
        invariant runs <= n && brightness.State() == R.Steps(start, runs)
        invariant brightness.animating ==> runs < n && ScreenTurningOff() && screenLog == old(screenLog)
        invariant brightness.animating ==> brightness.posted && screenOffReason == old(screenOffReason)
        invariant brightness.animating ==> forall k :: 0 < k <= runs ==> !R.Reached(start, k)
        invariant !brightness.animating ==> 1 <= runs && R.Landed(brightness.State(), 0) && !brightness.posted
        invariant !brightness.animating ==> R.Reached(start, runs) && forall k :: 0 < k < runs ==> !R.Reached(start, k)
        invariant !brightness.animating ==>
          screenLog == old(screenLog) + [G.FadedOut(old(screenOffReason), envs[runs - 1].screenOffFails)]
        decreases n - runs, brightness.animating
      {
        R.OneStep(start, runs);
        R.LandsIff(start, runs + 1);
        var dark := RunAnimator(envs[runs]);
        runs := runs + 1;
        if !brightness.animating { R.EndsLanded(start, runs); }
      }
    }

    /** A fade to off that a refused activity has stopped: the light stays where it is, and the animator neither
        goes on nor announces the off. */
    method RefusedActivityStrandsAFade(env: Env, later: Env)
      requires Valid() && animateScreenLights && ScreenTurningOff()
      requires !env.hasDevicePower || lastEventTime > env.uptime || (proximityActive && proximityCount != 0)
      modifies this, locks, timeouts, brightness, broadcastQueue, broadcastWhy
      ensures Valid() && powerState == old(powerState) && screenLog == old(screenLog) && requested == old(requested)
      ensures brightness.targetValue == 0 && brightness.curValue == old(brightness.curValue)
      ensures !brightness.animating && !brightness.posted
    {
      hide Core, Clients, Cache, ActivityEvents;
      FadesArePosted();
      var accepted := ForceUserActivity(env);
      var dark := RunAnimator(later);
    }

    lemma FadesArePosted()
      requires Valid() && brightness.animating
      ensures brightness.posted
    {
    }

    /** A brightness override or a light-sensor value sets a new target for the animation. */
    method RetargetBrightness(target: nat, steps: nat, nominal: int)
      requires Valid()
      modifies brightness
      ensures Valid()
      ensures brightness.State() ==
        R.Retargeted(old(brightness.State()), target, steps, INITIAL_SCREEN_BRIGHTNESS, nominal)
    {
      brightness.SetTargetLocked(target, steps, INITIAL_SCREEN_BRIGHTNESS, nominal);
    }

    /** The synchronized block of preventScreenOn. */
    method PreventScreenOnLocked(prevent: bool, env: Env)
      requires Core()
      modifies locks, `partialCount, `kernelLockHeld, `stayOnPartialLock, `preventLock, `proximityLock
      modifies `preventScreenOn, `reenableQueued, `screenOnCalls
      ensures Core() && SameLocks() && ProximitySafe() && Cache() == old(Cache())
      ensures preventScreenOn == prevent && reenableQueued == prevent && preventLock.held == prevent
      ensures stayOnPartialLock.held == old(stayOnPartialLock.held) && proximityLock.held == old(proximityLock.held)
      ensures screenOnCalls > old(screenOnCalls) <==> !prevent && !proximityActive && ScreenOn in powerState
    {
      hide Core, Clients, Cache, Board;
      if prevent {
        HoldAuxiliary(PreventScreenOnPartial, true);
        reenableQueued := true;
        preventScreenOn := true;
      } else {
        preventScreenOn := false;
        reenableQueued := false;
        if !proximityActive && ScreenOn in powerState {
          var _ := SetScreenStateLocked(true, env);
        }
        HoldAuxiliary(PreventScreenOnPartial, false);
      }
    }

    method PreventScreenOn(prevent: bool, env: Env)
      requires Valid()
      modifies locks, `partialCount, `kernelLockHeld, `stayOnPartialLock, `preventLock, `proximityLock
      modifies `preventScreenOn, `reenableQueued, `screenOnCalls
      ensures Valid() && ProximitySafe() && KeepsClients() && Cache() == old(Cache())
      ensures preventScreenOn == prevent
      ensures screenOnCalls > old(screenOnCalls) <==> !prevent && !proximityActive && ScreenOn in powerState
    {
      hide Clients, Core, Cache;
      PreventScreenOnLocked(prevent, env);
    }

    /** forceReenableScreen, five seconds after preventScreenOn(true). */
    method RunForceReenableTask(env: Env)
      requires Valid() && reenableQueued
      modifies locks, `partialCount, `kernelLockHeld, `stayOnPartialLock, `preventLock, `proximityLock
      modifies `preventScreenOn, `reenableQueued, `screenOnCalls
      ensures Valid() && ProximitySafe() && KeepsClients() && Cache() == old(Cache())
      ensures !preventScreenOn && !preventLock.held
      ensures screenOnCalls > old(screenOnCalls) <==> !proximityActive && ScreenOn in powerState
    {
      hide Clients, L.LockList.Valid, C.Inv, Logged, N.Faithful, T.ScreenTimeouts.Valid, R.BrightnessState.Valid;
      hide Shape, ListOk, ProximityCountOk, InternalLocksOk, Board, Cache;
      reenableQueued := false;
      if preventScreenOn {
        PreventScreenOnLocked(false, env);
      }
    }

    /** The end of onSensorChanged and of mProximityTask: the proximity lock is held iff the task is queued. */
    method SettleProximityLock(queued: bool)
      requires Core()
      modifies locks, `partialCount, `kernelLockHeld, `stayOnPartialLock, `preventLock, `proximityLock
      modifies `proximityTaskQueued
      ensures Core() && SameLocks() && Cache() == old(Cache())
      ensures proximityTaskQueued == queued && proximityLock.held == queued
      ensures stayOnPartialLock.held == old(stayOnPartialLock.held) && preventLock.held == old(preventLock.held)
    {
      hide Core, Clients, Cache, Board;
      proximityTaskQueued := queued;
      var held := proximityLock.held;
      if !held && queued {
        HoldAuxiliary(ProximityPartial, true);
      } else if held && !queued {
        HoldAuxiliary(ProximityPartial, false);
      }
    }

    /** A reading is held back until the proximity task runs. */
    method HoldReading(active: bool)
      requires Core()
      modifies locks, `partialCount, `kernelLockHeld, `stayOnPartialLock, `preventLock, `proximityLock
      modifies `proximityTaskQueued, `proximityPending
      ensures Core() && SameLocks() && Cache() == old(Cache())
      ensures proximityTaskQueued && proximityLock.held && proximityPending == (if active then 1 else 0)
      ensures preventLock.held == old(preventLock.held)
    {
      hide Clients, Core, Cache;
      proximityPending := if active then 1 else 0;
      SettleProximityLock(true);
    }

    /** A reading is processed now, and no reading is held back any more. */
    method ProcessReading(active: bool, env: Env)
      requires Core()
      modifies locks, `partialCount, `kernelLockHeld, `broadcastLock, `drainPosted, `requested, `screenLog
      modifies `stillNeedSleepNotification
      modifies broadcastQueue, broadcastWhy, `screenOffReason, `screenOnCalls, `powerState, brightness
      modifies `userState, `wakeLockState, `proximityIgnored, `proximityActive, `lastEventTime, `userActivityAllowed
      modifies timeouts`nextState, timeouts`remainingTimeoutOverride, timeouts`timeoutPosted, timeouts`nextTimeout
      modifies `proximityEnabled, `proximityTaskQueued, `stayOnPartialLock, `preventLock, `proximityLock
      modifies `proximityPending
      ensures Core() && SameLocks() && ProximitySafe()
      ensures !proximityTaskQueued && !proximityLock.held && proximityPending == -1
      ensures preventLock.held == old(preventLock.held)
      ensures old(proximityEnabled) ==> proximityActive == active
      ensures Handled(active, env)
    {
      hide Clients, Core, Cache;
      proximityTaskQueued := false;
      proximityPending := -1;
      ProximityChangedLocked(active, env);
      SettleProximityLock(false);
    }

    /** mProximityListener.onSensorChanged: a reading soon after the last one is held back, with the
        CPU kept awake until it is processed. */
    method OnProximitySensorChanged(active: bool, env: Env)
      requires Valid()
      modifies locks, `partialCount, `kernelLockHeld, `broadcastLock, `drainPosted, `requested, `screenLog
      modifies `stillNeedSleepNotification
      modifies broadcastQueue, broadcastWhy, `screenOffReason, `screenOnCalls, `powerState, brightness
      modifies `userState, `wakeLockState, `proximityIgnored, `proximityActive, `lastEventTime, `userActivityAllowed
      modifies timeouts`nextState, timeouts`remainingTimeoutOverride, timeouts`timeoutPosted, timeouts`nextTimeout
      modifies `proximityEnabled, `proximityTaskQueued, `stayOnPartialLock, `preventLock, `proximityLock
      modifies `proximityPending, `newestReading, `lastProximityEventTime
      ensures Valid() && ProximitySafe() && KeepsClients()
      ensures newestReading == active && lastProximityEventTime == env.elapsed
      ensures proximityTaskQueued == (env.elapsed - old(lastProximityEventTime) < 1000)
      ensures proximityTaskQueued ==> proximityActive == old(proximityActive) && Cache() == old(Cache())
      ensures !proximityTaskQueued && old(proximityEnabled) ==> proximityActive == active
      ensures !proximityTaskQueued ==> Handled(active, env)
    {
      hide Clients, Core, Cache;
      SensorChangedLocked(active, env);
    }

    method SensorChangedLocked(active: bool, env: Env)
      requires Core()
      modifies locks, `partialCount, `kernelLockHeld, `broadcastLock, `drainPosted, `requested, `screenLog
      modifies `stillNeedSleepNotification
      modifies broadcastQueue, broadcastWhy, `screenOffReason, `screenOnCalls, `powerState, brightness
      modifies `userState, `wakeLockState, `proximityIgnored, `proximityActive, `lastEventTime, `userActivityAllowed
      modifies timeouts`nextState, timeouts`remainingTimeoutOverride, timeouts`timeoutPosted, timeouts`nextTimeout
      modifies `proximityEnabled, `proximityTaskQueued, `stayOnPartialLock, `preventLock, `proximityLock
      modifies `proximityPending, `newestReading, `lastProximityEventTime
      ensures Core() && SameLocks() && ProximitySafe()
      ensures newestReading == active && lastProximityEventTime == env.elapsed
      ensures proximityTaskQueued == (env.elapsed - old(lastProximityEventTime) < 1000)
      ensures proximityLock.held == proximityTaskQueued && preventLock.held == old(preventLock.held)
      ensures proximityTaskQueued ==> proximityPending == (if active then 1 else 0)
      ensures proximityTaskQueued ==> proximityActive == old(proximityActive) && Cache() == old(Cache())
      ensures !proximityTaskQueued && old(proximityEnabled) ==> proximityActive == active
      ensures !proximityTaskQueued ==> Handled(active, env)
    {
      hide Clients, Core, Cache;
      var timeSinceLastEvent := env.elapsed - lastProximityEventTime;
      lastProximityEventTime := env.elapsed;
      newestReading := active;
      if timeSinceLastEvent < PROXIMITY_SENSOR_DELAY {
        HoldReading(active);
      } else {
        ProcessReading(active, env);
      }
    }

    /** mProximityTask.run: process the reading that was held back. */
    method RunProximityTask(env: Env)
      requires Valid() && proximityTaskQueued
      modifies locks, `partialCount, `kernelLockHeld, `broadcastLock, `drainPosted, `requested, `screenLog
      modifies `stillNeedSleepNotification, broadcastQueue, broadcastWhy, `screenOffReason, `screenOnCalls
      modifies `powerState, brightness, `userState, `wakeLockState, `proximityIgnored, `proximityActive
      modifies `lastEventTime, `userActivityAllowed, timeouts`nextState, timeouts`remainingTimeoutOverride
      modifies timeouts`timeoutPosted, timeouts`nextTimeout, `proximityEnabled, `proximityTaskQueued
      modifies `stayOnPartialLock, `preventLock, `proximityLock, `proximityPending, `newestReading
      modifies `lastProximityEventTime
      ensures Valid() && ProximitySafe() && KeepsClients()
      ensures !proximityTaskQueued && !proximityLock.held && proximityPending == -1
      ensures old(proximityEnabled) ==> proximityActive == old(newestReading)
      ensures Handled(old(newestReading), env)
    {
      hide Clients, Core, Cache;
      // A queued task always finds a reading.
      assert proximityPending != -1;
      ProcessReading(proximityPending == 1, env);
    }

    /** mNotificationTask starts on the handler thread. */
    method StartDrain()
      requires Valid() && drainPosted > 0 && !drainRunning
      modifies `drainPosted, `drainRunning
      ensures Valid() && ProximitySafe() && Board() == N.Step(old(Board()), N.StartDrain)
    {
      hide Clients, L.LockList.Valid, C.Inv, T.ScreenTimeouts.Valid, R.BrightnessState.Valid, Waiting;
      hide ListOk, ProximityCountOk, InternalLocksOk, Shape;
      N.StepKeepsFaithful(Board(), N.StartDrain);
      drainPosted := drainPosted - 1;
      drainRunning := true;
    }

    /** The slots move up by one; value and why are what was in the first. */
    method ShiftSlots() returns (value: int, why: int)
      requires Shape()
      modifies broadcastQueue, broadcastWhy
      ensures Shape()
      ensures value == -1 <==> old(Queue()) == []
      ensures old(Queue()) == [] ==> Queue() == []
      ensures old(Queue()) != [] ==> Queue() == old(Queue())[1..]
      ensures old(Queue()) != [] ==> value == (if old(Queue())[0].on then 1 else 0) && why == old(Queue())[0].why
    {
      value, why := broadcastQueue[0], broadcastWhy[0];
      broadcastQueue[0], broadcastWhy[0] := broadcastQueue[1], broadcastWhy[1];
      broadcastQueue[1], broadcastWhy[1] := broadcastQueue[2], broadcastWhy[2];
    }

    /** The synchronized block of the drain loop: take the head of the queue, or stop. */
    method DequeueNotification() returns (value: int, why: int)
      requires Valid() && drainRunning
      modifies `drainRunning, `broadcastsInFlight, `delivered, broadcastQueue, broadcastWhy
      ensures Valid() && Board() == N.Step(old(Board()), N.Dequeue) && Cache() == old(Cache())
      ensures if old(Queue()) == [] then value == -1
        else (value == if old(Queue())[0].on then 1 else 0) && why == old(Queue())[0].why
      ensures ProximitySafe() && redundantAcquires == old(redundantAcquires)
    {
      hide Clients, L.LockList.Valid, C.Inv, T.ScreenTimeouts.Valid, R.BrightnessState.Valid, Logged, N.Faithful;
      hide ListOk, ProximityCountOk, InternalLocksOk, Shape, Cache, AuxiliaryOk, Waiting;
      N.StepKeepsFaithful(Board(), N.Dequeue);
      ghost var queue := Queue();
      value, why := ShiftSlots();
      if value == -1 {
        drainRunning := false;
      } else {
        broadcastsInFlight := broadcastsInFlight + 1;
        delivered := delivered + [queue[0]];
      }
    }

    /** A broadcast receiver reports that its broadcast is done, or the broadcast could not be sent: drop
        its reference.  It can never be under-locked. */
    method BroadcastDone()
      requires Valid() && broadcastsInFlight > 0
      modifies locks, `partialCount, `kernelLockHeld, `broadcastLock, `broadcastsInFlight
      ensures Valid() && ProximitySafe() && SameLocks() && Cache() == old(Cache())
      ensures Board() == N.Step(old(Board()), N.BroadcastDone)
    {
      hide Clients, L.LockList.Valid, C.Inv, T.ScreenTimeouts.Valid, R.BrightnessState.Valid, Logged, N.Faithful;
      hide N.Step, TasksOk;
      hide ListOk, ProximityCountOk, InternalLocksOk, Shape, Board;
      FinishBroadcast();
    }

    method FinishBroadcast()
      requires Shape() && ListOk() && ProximityCountOk() && InternalLocksOk() && N.Faithful(Board()) &&
        broadcastsInFlight > 0
      modifies locks, `partialCount, `kernelLockHeld, `broadcastLock, `broadcastsInFlight
      ensures Shape() && ListOk() && ProximityCountOk() && InternalLocksOk() && N.Faithful(Board())
      ensures SameLocks() && locks.screens == old(locks.screens)
      ensures Board() == N.Step(old(Board()), N.BroadcastDone)
    {
      hide L.LockList.Valid, Logged, N.Faithful, Shape, ListOk, ProximityCountOk, Waiting, InternalLocksOk, Clients;
      N.StepKeepsFaithful(Board(), N.BroadcastDone);
      N.FaithfulKeepsCount(Board());
      CountNotification(1, false);
      broadcastsInFlight := broadcastsInFlight - 1;
    }

    /** Whether the screen is on once the stay-on lock has been taken or dropped: if something asks for it besides a
        lock that is dropped, nothing is near, and it was on already or the driver can switch it on. */
    ghost predicate StaysLit(stayOn: bool, env: Env)
      reads `wakeLockState, `userState, `powerState, `proximityActive, `preventScreenOn, `stayOnDimLock, locks`screens
    {
      if !stayOn && !stayOnDimLock.held then ScreenOn in powerState
      else
        && (if stayOn then ScreenOn in Cache().Demand() else C.ReleaseAsksForScreen(Cache(), StayOnScreenDim, false))
        && !proximityActive
        && (ScreenOn in powerState || preventScreenOn || !env.screenOnFails)
    }

    /** updateWakeLockLocked: take or drop the two locks that keep a powered device on. */
    method UpdateWakeLockLocked(stayOn: bool, env: Env)
      requires Valid()
      modifies locks, `partialCount, `kernelLockHeld, `broadcastLock, `drainPosted, `requested, `screenLog
      modifies `stillNeedSleepNotification, broadcastQueue, broadcastWhy, `screenOffReason, `screenOnCalls
      modifies `powerState, brightness, `wakeLockState, `proximityIgnored, `proximityCount, `proximityEnabled
      modifies `redundantAcquires, `stayOnDimLock, `userState, `proximityActive, `lastEventTime, `userActivityAllowed
      modifies timeouts`nextState, timeouts`remainingTimeoutOverride, timeouts`timeoutPosted, timeouts`nextTimeout
      modifies `proximityTaskQueued, `stayOnPartialLock, `preventLock, `proximityLock
      ensures Valid() && ProximitySafe() && KeepsClients()
      ensures stayOnDimLock.held == stayOn && stayOnPartialLock.held == stayOn
      ensures userState == old(userState) && lastEventTime == old(lastEventTime)
      ensures proximityActive == old(proximityActive) && proximityCount == old(proximityCount)
      ensures timeouts.bootCompleted || useSoftwareAutoBrightness ==>
        (ScreenOn in powerState <==> old(StaysLit(stayOn, env)))
      ensures timeouts.Task() == old(timeouts.Task())
    {
      hide Clients, Cache, C.AfterAcquire, C.AfterRemove, C.AfterActivity, ProximityCountOk, ListOk, Logged, N.Faithful;
      hide Board, Shape, C.Inv;
      hide T.ScreenTimeouts.Valid, R.BrightnessState.Valid, InternalLocksOk;
      HoldStayOnDim(stayOn, env);
      HoldAuxiliary(StayOnPartial, stayOn);
    }

    method HoldStayOnDim(stayOn: bool, env: Env)
      requires Valid()
      modifies locks, `partialCount, `kernelLockHeld, `broadcastLock, `drainPosted, `requested, `screenLog
      modifies `stillNeedSleepNotification, broadcastQueue, broadcastWhy, `screenOffReason, `screenOnCalls
      modifies `powerState, brightness, `wakeLockState, `proximityIgnored, `proximityCount, `proximityEnabled
      modifies `redundantAcquires, `stayOnDimLock, `userState, `proximityActive, `lastEventTime, `userActivityAllowed
      modifies timeouts`nextState, timeouts`remainingTimeoutOverride, timeouts`timeoutPosted, timeouts`nextTimeout
      modifies `proximityTaskQueued, `stayOnPartialLock, `preventLock, `proximityLock
      ensures Valid() && ProximitySafe() && KeepsClients()
      ensures stayOnDimLock.held == stayOn && stayOnPartialLock.held == old(stayOnPartialLock.held)
      ensures userState == old(userState) && lastEventTime == old(lastEventTime)
      ensures proximityActive == old(proximityActive) && proximityCount == old(proximityCount)
      ensures timeouts.bootCompleted || useSoftwareAutoBrightness ==>
        (ScreenOn in powerState <==> old(StaysLit(stayOn, env)))
      ensures timeouts.Task() == old(timeouts.Task())
    {
      hide Core, AuxiliaryOk, Clients, Cache;
      if stayOn { TakeStayOnDim(env); } else { DropStayOnDim(env); }
    }

    method TakeStayOnDim(env: Env)
      requires Valid()
      modifies locks, `partialCount, `kernelLockHeld, `broadcastLock, `drainPosted, `requested, `screenLog
      modifies `stillNeedSleepNotification
      modifies broadcastQueue, broadcastWhy, `screenOffReason, `screenOnCalls, `powerState, brightness
      modifies `wakeLockState, `proximityIgnored, `proximityCount, `proximityEnabled, `redundantAcquires
      modifies `stayOnDimLock
      ensures Valid() && ProximitySafe() && KeepsClients()
      ensures stayOnDimLock.held && stayOnPartialLock.held == old(stayOnPartialLock.held)
      ensures userState == old(userState) && lastEventTime == old(lastEventTime)
      ensures proximityActive == old(proximityActive) && proximityCount == old(proximityCount)
      ensures timeouts.bootCompleted || useSoftwareAutoBrightness ==>
        (ScreenOn in powerState <==> old(StaysLit(true, env)))
      ensures timeouts.Task() == old(timeouts.Task())
    {
      hide Applied;
      hide NextLights, Aimed, TasksOk, Clients, AcceptsActivity, C.AfterRelease, C.ReleaseAsksForScreen;
      hide Core, C.AfterAcquire, C.AfterRemove, C.AfterActivity, C.Gather, MinState;
      StayOnDimIsNoClient();
      AcquireWakeLockLocked(StayOnScreenDim, env);
      RecordStayOnDim(true);
    }

    method DropStayOnDim(env: Env)
      requires Valid()
      modifies locks, `partialCount, `kernelLockHeld, `broadcastLock, `drainPosted, `requested, `screenLog
      modifies `stillNeedSleepNotification
      modifies broadcastQueue, broadcastWhy, `screenOffReason, `screenOnCalls, `powerState, brightness
      modifies `userState, `wakeLockState, `proximityIgnored, `proximityActive, `lastEventTime, `userActivityAllowed
      modifies timeouts`nextState, timeouts`remainingTimeoutOverride, timeouts`timeoutPosted, timeouts`nextTimeout
      modifies `proximityEnabled, `proximityTaskQueued, `stayOnPartialLock, `preventLock, `proximityLock
      modifies `proximityCount
      modifies `stayOnDimLock
      ensures Valid() && ProximitySafe() && KeepsClients()
      ensures !stayOnDimLock.held && stayOnPartialLock.held == old(stayOnPartialLock.held)
      ensures userState == old(userState) && lastEventTime == old(lastEventTime)
      ensures proximityActive == old(proximityActive) && proximityCount == old(proximityCount)
      ensures timeouts.bootCompleted || useSoftwareAutoBrightness ==>
        (ScreenOn in powerState <==> old(StaysLit(false, env)))
      ensures timeouts.Task() == old(timeouts.Task())
    {
      hide JustActive, Board, ScreenTurningOff, T.ScreenTimeouts.Task;
      hide Applied;
      hide FollowsDemand, NextLights, Aimed, Clients, AcceptsActivity, C.AfterRelease, C.ReleaseAsksForScreen;
      hide Core, Cache, C.AfterAcquire, C.AfterRemove, C.AfterActivity, C.Gather, MinState, C.Cache.Demand;
      StayOnDimIsNoClient();
      var _ := ReleaseWakeLockLocked(StayOnScreenDim, false, env);
      RecordStayOnDim(false);
    }

    /** mHeld of the stay-on screen lock is set once the lock has been taken or dropped. */
    method RecordStayOnDim(held: bool)
      requires Core()
      modifies `stayOnDimLock
      ensures Core() && stayOnDimLock.held == held && Cache() == old(Cache())
    {
      hide L.LockList.Valid, C.Inv, Logged, N.Faithful, T.ScreenTimeouts.Valid, R.BrightnessState.Valid;
      hide Shape, ListOk, ProximityCountOk, Board, Cache, InternalOk;
      stayOnDimLock := stayOnDimLock.(held := held);
    }

    lemma StayOnDimIsNoClient()
      ensures Clients(locks.tokens) - {StayOnScreenDim} == Clients(locks.tokens)
    {
    }

    /** forceUserActivityLocked as a whole block. */
    method ForceUserActivity(env: Env) returns (accepted: bool)
      requires Valid()
      modifies locks, `partialCount, `kernelLockHeld, `broadcastLock, `drainPosted, `requested, `screenLog
      modifies `stillNeedSleepNotification
      modifies broadcastQueue, broadcastWhy, `screenOffReason, `screenOnCalls, `powerState, brightness
      modifies `userState, `wakeLockState, `proximityIgnored, `proximityActive, `lastEventTime, `userActivityAllowed
      modifies timeouts`nextState, timeouts`remainingTimeoutOverride, timeouts`timeoutPosted, timeouts`nextTimeout
      ensures Valid() && ProximitySafe() && KeepsClients()
      ensures stayOnDimLock == old(stayOnDimLock) && stayOnPartialLock == old(stayOnPartialLock)
      ensures proximityActive ==> old(proximityActive)
      ensures accepted == old(CanForce(env))
      ensures accepted ==> userState == old(userState) + SCREEN_BRIGHT && wakeLockState == C.Gather(locks.screens)
      ensures accepted && (preventScreenOn || !env.screenOnFails) ==> ScreenOn in powerState
      ensures accepted ==> FollowsDemand(env)
      ensures accepted ==> screenLog == old(screenLog) + ActivityEvents(false, env)
      ensures !accepted ==>
        brightness.State() == old(FadeStopped()) && Board() == old(Board()) && screenLog == old(screenLog)
      ensures !accepted ==> powerState == old(powerState) && Cache() == old(Cache())
      ensures !accepted ==> brightness.posted == old(brightness.posted)
      ensures accepted ==> PowerFollows(false, env)
      ensures if accepted then JustActive(env) else timeouts.Task() == old(timeouts.Task())
    {
      hide ActivityEvents, PowerFollows, JustActive, FollowsDemand, FadeStopped, Board, TasksOk, CanForce;
      hide Core, Clients, Cache, C.AfterActivity, C.Gather, T.ScreenTimeouts.Task;
      accepted := ForceUserActivityLocked(env);
    }

    /** What a forced user activity leaves: every lock counts, and the screen is bright unless it cannot be. */
    ghost predicate Lively(before: PowerState, env: Env)
      reads this, locks
    {
      && userState == before + SCREEN_BRIGHT && wakeLockState == C.Gather(locks.screens)
      && (preventScreenOn || !env.screenOnFails ==> ScreenOn in powerState)
    }

    /** BatteryReceiver: plugging in counts as user activity; plugging out does if the setting says so, or if the
        screen is on once the stay-on lock has been dropped. */
    method BatteryChanged(changed: bool, wasPowered: bool, unplugTurnsOnScreen: bool, stayOn: bool, env: Env)
      returns (active: bool)
      requires Valid()
      modifies locks, `partialCount, `kernelLockHeld, `broadcastLock, `drainPosted, `requested, `screenLog
      modifies `stillNeedSleepNotification, broadcastQueue, broadcastWhy, `screenOffReason, `screenOnCalls
      modifies `powerState, brightness, `wakeLockState, `proximityIgnored, `proximityCount, `proximityEnabled
      modifies `redundantAcquires, `stayOnDimLock, `userState, `proximityActive, `lastEventTime, `userActivityAllowed
      modifies timeouts`nextState, timeouts`remainingTimeoutOverride, timeouts`timeoutPosted, timeouts`nextTimeout
      modifies `proximityTaskQueued, `stayOnPartialLock, `preventLock, `proximityLock
      ensures Valid() && ProximitySafe() && KeepsClients()
      ensures changed ==> stayOnDimLock.held == stayOn && stayOnPartialLock.held == stayOn
      ensures active ==> changed && old(CanForce(env)) && Lively(old(userState), env)
      ensures changed && (!wasPowered || unplugTurnsOnScreen) && old(CanForce(env)) ==> active
      ensures changed && wasPowered && !unplugTurnsOnScreen && (timeouts.bootCompleted || useSoftwareAutoBrightness) ==>
        active == old(StaysLit(stayOn, env) && CanForce(env))
      ensures changed && !active && (timeouts.bootCompleted || useSoftwareAutoBrightness) ==>
        (ScreenOn in powerState <==> old(StaysLit(stayOn, env)))
      ensures active && (timeouts.bootCompleted || useSoftwareAutoBrightness) && old(StaysLit(stayOn, env)) ==>
        (ScreenOn in powerState <==> !proximityActive)
      ensures !active ==> userState == old(userState)
      ensures proximityActive ==> old(proximityActive)
      ensures !changed ==>
        Cache() == old(Cache()) && powerState == old(powerState) && timeouts.Task() == old(timeouts.Task())
      ensures active ==> JustActive(env)
    {
      hide Core, Clients, C.AfterActivity, C.Gather, AuxiliaryOk, StaysLit, ActivityEvents;
      active := false;
      if changed {
        UpdateWakeLockLocked(stayOn, env);
        if !wasPowered || ScreenOn in powerState || unplugTurnsOnScreen {
          active := ForceUserActivity(env);
        }
      }
    }

    /** Unplugging does not always leave a lit screen on: the stay-on lock is dropped first, so the screen goes off at
        once if and only if that lock was all that asked for it, unless the setting says otherwise. */
    method UnpluggingALitScreen(env: Env) returns (active: bool)
      requires Valid() && (timeouts.bootCompleted || useSoftwareAutoBrightness)
      requires ScreenOn in powerState && stayOnDimLock.held && !proximityActive && CanForce(env)
      modifies locks, `partialCount, `kernelLockHeld, `broadcastLock, `drainPosted, `requested, `screenLog
      modifies `stillNeedSleepNotification, broadcastQueue, broadcastWhy, `screenOffReason, `screenOnCalls
      modifies `powerState, brightness, `wakeLockState, `proximityIgnored, `proximityCount, `proximityEnabled
      modifies `redundantAcquires, `stayOnDimLock, `userState, `proximityActive, `lastEventTime, `userActivityAllowed
      modifies timeouts`nextState, timeouts`remainingTimeoutOverride, timeouts`timeoutPosted, timeouts`nextTimeout
      modifies `proximityTaskQueued, `stayOnPartialLock, `preventLock, `proximityLock
      ensures Valid()
      ensures active <==> old(C.ReleaseAsksForScreen(Cache(), StayOnScreenDim, false))
      ensures ScreenOn in powerState <==> active
    {
      hide Core, Clients, Cache, AuxiliaryOk, FollowsDemand;
      active := BatteryChanged(true, true, false, false, env);
    }

    /** SettingsObserver.update. */
    method SettingsChanged(stayOn: bool, screenOffTimeout: int, env: Env)
      requires Valid()
      modifies locks, `partialCount, `kernelLockHeld, `broadcastLock, `drainPosted, `requested, `screenLog
      modifies `stillNeedSleepNotification, broadcastQueue, broadcastWhy, `screenOffReason, `screenOnCalls
      modifies `powerState, brightness, `wakeLockState, `proximityIgnored, `proximityCount, `proximityEnabled
      modifies `redundantAcquires, `stayOnDimLock, `userState, `proximityActive, `lastEventTime, `userActivityAllowed
      modifies `proximityTaskQueued, `stayOnPartialLock, `preventLock, `proximityLock, timeouts
      ensures Valid() && ProximitySafe() && KeepsClients()
      ensures stayOnDimLock.held == stayOn && stayOnPartialLock.held == stayOn
      ensures timeouts.Poke() == T.Changed(old(timeouts.Poke()), T.SetTimeoutSetting(screenOffTimeout))
    {
      hide Clients, Cache, ProximityCountOk, ListOk, Logged, N.Faithful, Board, Shape, C.Inv, InternalLocksOk;
      hide R.BrightnessState.Valid;
      hide T.ScreenTimeouts.Valid, T.Changed;
      UpdateWakeLockLocked(stayOn, env);
      timeouts.SettingsChanged(screenOffTimeout);
    }

    /** setPokeLock. */
    method SetPokeLock(bits: set<T.PokeBit>, token: T.PokeToken, env: Env) returns (r: T.PokeResult)
      requires Valid()
      modifies timeouts
      ensures Valid() && ProximitySafe() && KeepsClients() && Cache() == old(Cache())
      ensures timeouts.nextState == old(timeouts.nextState)
      ensures r == T.PokeDone ==> token.Binder?
      ensures r == T.PokeDone ==>
        timeouts.Poke() == T.Changed(old(timeouts.Poke()), T.SetPoke(token.id, bits, ScreenOn in powerState))
      ensures r == T.PokeDone && old(timeouts.pokey) * T.TIMEOUT_MASK != bits * T.TIMEOUT_MASK ==>
        timeouts.bootCompleted ==>
          timeouts.Task() == T.Scheduled(timeouts.Config(), env.uptime, -1, old(timeouts.nextState))
      ensures r != T.PokeDone || old(timeouts.pokey) * T.TIMEOUT_MASK == bits * T.TIMEOUT_MASK ==>
        timeouts.Task() == old(timeouts.Task())
    {
      hide Clients, Cache, ProximityCountOk, ListOk, Logged, N.Faithful, Board, Shape, C.Inv, InternalLocksOk;
      hide R.BrightnessState.Valid;
      hide T.ScreenTimeouts.Valid, T.Changed;
      r := timeouts.SetPokeLock(bits, token, ScreenOn in powerState, env.uptime);
    }

    /** enableUserActivity: disabling it puts the countdown into its last stage. */
    method EnableUserActivity(enabled: bool, env: Env)
      requires Valid()
      modifies `userActivityAllowed, timeouts
      ensures Valid() && ProximitySafe() && KeepsClients() && Cache() == old(Cache())
      ensures userActivityAllowed == enabled
      ensures timeouts.Task() == if !enabled && timeouts.bootCompleted
        then T.Scheduled(timeouts.Config(), env.uptime, -1, T.Off) else old(timeouts.Task())
    {
      hide Clients, Cache, ProximityCountOk, ListOk, Logged, N.Faithful, Board, Shape, C.Inv, InternalLocksOk;
      hide R.BrightnessState.Valid;
      hide T.ScreenTimeouts.Valid, T.Scheduled;
      userActivityAllowed := enabled;
      if !enabled {
        timeouts.SetTimeoutLocked(env.uptime, -1, T.Off);
      }
    }

    /** setKeyboardVisibility. */
    method SetKeyboardVisibility(visible: bool, env: Env)
      requires Valid()
      modifies locks, `partialCount, `kernelLockHeld, `broadcastLock, `drainPosted, `requested, `screenLog
      modifies `stillNeedSleepNotification
      modifies broadcastQueue, broadcastWhy, `screenOffReason, `screenOnCalls, `powerState, brightness
      modifies `userState, `wakeLockState, `proximityIgnored, `proximityActive, `lastEventTime, `keyboardVisible
      modifies timeouts`nextState, timeouts`remainingTimeoutOverride, timeouts`timeoutPosted, timeouts`nextTimeout
      ensures Valid() && ProximitySafe() && KeepsClients() && keyboardVisible == visible
      ensures visible != old(keyboardVisible) && ScreenOn in old(powerState) && !old(ScreenTurningOff()) ==>
        && userState == (if useSoftwareAutoBrightness then old(userState) + SCREEN_BRIGHT
                         else if visible then ALL_BRIGHT else SCREEN_BUTTON_BRIGHT)
        && lastEventTime == env.uptime && FollowsDemand(env) && PowerFollows(false, env)
        && (timeouts.bootCompleted ==> timeouts.Task() == T.Scheduled(timeouts.Config(), env.uptime, -1, T.Bright))
      ensures visible == old(keyboardVisible) || ScreenOn !in old(powerState) || old(ScreenTurningOff()) ==>
        Cache() == old(Cache()) && powerState == old(powerState) && timeouts.Task() == old(timeouts.Task())
    {
      hide Core, Clients, Cache, TasksOk, T.Scheduled, T.ScreenTimeouts.Task, T.ScreenTimeouts.Config, FollowsDemand;
      hide ScreenTurningOff;
      KeyboardChangedLocked(visible, env);
    }

    method KeyboardChangedLocked(visible: bool, env: Env)
      requires Core()
      modifies locks, `partialCount, `kernelLockHeld, `broadcastLock, `drainPosted, `requested, `screenLog
      modifies `stillNeedSleepNotification
      modifies broadcastQueue, broadcastWhy, `screenOffReason, `screenOnCalls, `powerState, brightness
      modifies `userState, `wakeLockState, `proximityIgnored, `proximityActive, `lastEventTime, `keyboardVisible
      modifies timeouts`nextState, timeouts`remainingTimeoutOverride, timeouts`timeoutPosted, timeouts`nextTimeout
      ensures Core() && SameLocks() && ProximitySafe() && keyboardVisible == visible
      ensures visible != old(keyboardVisible) && ScreenOn in old(powerState) && !old(ScreenTurningOff()) ==>
        && userState == (if useSoftwareAutoBrightness then old(userState) + SCREEN_BRIGHT
                         else if visible then ALL_BRIGHT else SCREEN_BUTTON_BRIGHT)
        && lastEventTime == env.uptime && FollowsDemand(env) && PowerFollows(false, env)
        && (timeouts.bootCompleted ==> timeouts.Task() == T.Scheduled(timeouts.Config(), env.uptime, -1, T.Bright))
      ensures visible == old(keyboardVisible) || ScreenOn !in old(powerState) || old(ScreenTurningOff()) ==>
        Cache() == old(Cache()) && powerState == old(powerState) && timeouts.Task() == old(timeouts.Task())
    {
      hide Applied;
      hide Core, Clients, Cache, C.AfterActivity, C.Gather, T.Scheduled, T.ScreenTimeouts.Task, Board;
      if keyboardVisible != visible {
        keyboardVisible := visible;
        if ScreenOn in powerState {
          var _ := UserActivityLocked(env.uptime, -1, false, ButtonEvent, true, env);
        }
      }
    }

    /** systemReady: turn the screen on once the sensors are enabled. */
    method SystemReady(env: Env)
      requires Valid()
      modifies locks, `partialCount, `kernelLockHeld, `broadcastLock, `drainPosted, `requested, `screenLog
      modifies `stillNeedSleepNotification
      modifies broadcastQueue, broadcastWhy, `screenOffReason, `screenOnCalls, `powerState, brightness
      ensures Valid() && ProximitySafe() && KeepsClients() && Cache() == old(Cache())
      ensures Applied(if useSoftwareAutoBrightness then {ScreenOn, ScreenBright}
        else {ScreenOn, ScreenBright, ButtonBright, KeyboardBright}, false, OFF_BECAUSE_OF_TIMEOUT, env)
    {
      hide Core, Clients, Cache, NextPower, Wanted;
      SetPowerState(if useSoftwareAutoBrightness then SCREEN_BRIGHT else ALL_BRIGHT,
        false, OFF_BECAUSE_OF_TIMEOUT, env);
    }

    /** bootCompleted: from here on countdowns are scheduled. */
    method BootCompleted(stayOn: bool, env: Env)
      requires Valid()
      modifies locks, `partialCount, `kernelLockHeld, `broadcastLock, `drainPosted, `requested, `screenLog
      modifies `stillNeedSleepNotification, broadcastQueue, broadcastWhy, `screenOffReason, `screenOnCalls
      modifies `powerState, brightness, `wakeLockState, `proximityIgnored, `proximityCount, `proximityEnabled
      modifies `redundantAcquires, `stayOnDimLock, `userState, `proximityActive, `lastEventTime, `userActivityAllowed
      modifies timeouts`nextState, timeouts`remainingTimeoutOverride, timeouts`timeoutPosted, timeouts`nextTimeout
      modifies `proximityTaskQueued, `stayOnPartialLock, `preventLock, `proximityLock, timeouts`bootCompleted
      ensures Valid() && timeouts.bootCompleted && ProximitySafe()
      ensures Clients(locks.tokens) == Clients(old(locks.tokens)) && redundantAcquires == old(redundantAcquires)
      ensures stayOnDimLock.held == stayOn && stayOnPartialLock.held == stayOn
      ensures old(ScreenTurningOff()) ==> userState == old(userState) && timeouts.Task() == old(timeouts.Task())
      ensures !old(ScreenTurningOff()) ==> JustActive(env)
      ensures !old(ScreenTurningOff()) ==>
        userState == (if useSoftwareAutoBrightness then old(userState) + {ScreenOn, ScreenBright}
          else {ScreenOn, ScreenBright, ButtonBright} + (if old(keyboardVisible) then {KeyboardBright} else {}))
    {
      hide Applied;
      hide Clients, Cache, AuxiliaryOk, ProximityCountOk, ListOk, Logged, N.Faithful, Board, Shape, C.Inv, C.Gather;
      hide InternalLocksOk;
      hide R.BrightnessState.Valid, T.ScreenTimeouts.Valid, T.Scheduled, AcceptsActivity;
      timeouts.bootCompleted := true;
      WhichActivityCounts(env.uptime, ButtonEvent, true);
      var _ := UserActivity(env.uptime, -1, false, ButtonEvent, true, env);
      UpdateWakeLockLocked(stayOn, env);
    }

    /** One block run on behalf of a caller or of another part of the system. */
    method HandleCall(c: Call, env: Env)
      requires Valid()
      modifies this, locks, timeouts, brightness, broadcastQueue, broadcastWhy
      ensures Valid() && ProximitySafe() && (old(timeouts.bootCompleted) ==> timeouts.bootCompleted)
      ensures !c.Acquire? && !c.Release? ==>
        Clients(locks.tokens) == Clients(old(locks.tokens)) && redundantAcquires == old(redundantAcquires)
    {
      hide Valid, Clients, Cache, Board, C.AfterAcquire, C.AfterRemove, C.AfterActivity, C.AfterSleep, C.Gather;
      hide T.Scheduled, AcceptsActivity, T.Changed;
      match c {
        case Acquire(id, flags) => AcquireWakeLock(Client(id, flags), env);
        case Release(id, flags, wait) => var _ := ReleaseWakeLock(Client(id, flags), wait, env);
        case Activity(time, override, noChangeLights, eventType, force) =>
          var _ := UserActivity(time, override, noChangeLights, eventType, force, env);
        case Sleep(time, reason) => var _ := GoToSleep(time, reason, env);
        case Prevent(on) => PreventScreenOn(on, env);
        case ProximityReading(active) => OnProximitySensorChanged(active, env);
        case Battery(changed, wasPowered, unplugTurnsOn, stayOn) =>
          var _ := BatteryChanged(changed, wasPowered, unplugTurnsOn, stayOn, env);
        case Settings(stayOn, timeout) => SettingsChanged(stayOn, timeout, env);
        case Poke(bits, token) => var _ := SetPokeLock(bits, token, env);
        case EnableActivity(enabled) => EnableUserActivity(enabled, env);
        case Keyboard(visible) => SetKeyboardVisibility(visible, env);
        case Retarget(target, steps, nominal) => RetargetUnderLock(target, steps, nominal);
        case Ready => SystemReady(env);
        case Boot(stayOn) => BootCompleted(stayOn, env);
      }
    }

    /** In every state the service reaches the reason announced with an off at the end of a fade is that of the change
        that switched the screen off. */
    lemma FadesKeepTheirReason(i: nat)
      requires Valid() && i < |screenLog| && screenLog[i].FadedOut?
      ensures screenLog[i].reason == G.OffReason(screenLog[..i])
    {
      hide Machine;
    }

    /** In every state the service reaches: all its requests so far alternate exactly if everything that happened to
        the screen fitted what was said before it; then what is delivered alternates too, and ends on what was
        said last. */
    lemma RequestsAlternateIff()
      requires Valid()
      ensures N.Alternates(requested, false) <==> G.AllFit(screenLog)
      ensures G.AllFit(screenLog) ==> N.Alternates(delivered, false) && N.Final(Board(), false) == G.ToldOn(screenLog)
    {
      hide ListOk, ProximityCountOk, InternalLocksOk, C.Inv, R.BrightnessState.Valid, T.ScreenTimeouts.Valid, Shape;
      hide AuxiliaryOk;
      G.RequestsAlternateIff(screenLog);
      G.ToldOnIsLast(screenLog);
    }

    method RetargetUnderLock(target: nat, steps: nat, nominal: int)
      requires Valid()
      modifies brightness
      ensures Valid() && ProximitySafe()
    {
      RetargetBrightness(target, steps, nominal);
    }

    /** One block of a handler task, provided that the task is queued. */
    method HandleTask(k: Task, env: Env)
      requires Valid()
      modifies this, locks, timeouts, brightness, broadcastQueue, broadcastWhy
      ensures Valid() && ProximitySafe() && timeouts.bootCompleted == old(timeouts.bootCompleted)
      ensures Clients(locks.tokens) == Clients(old(locks.tokens)) && redundantAcquires == old(redundantAcquires)
    {
      hide Valid, Clients, Cache, Board, Queue, T.Fired, R.Stepped, N.Step;
      match k {
        case CountdownTask => if timeouts.timeoutPosted { RunTimeoutTask(env); }
        case AnimatorTask => if brightness.posted { var _ := RunAnimator(env); }
        case ReenableTask => if reenableQueued { RunForceReenableTask(env); }
        case HeldReadingTask => if proximityTaskQueued { RunProximityTask(env); }
        case DrainTask => if drainPosted > 0 && !drainRunning { StartDrain(); }
        case DrainStep => if drainRunning { var _, _ := DequeueNotification(); }
        case BroadcastReceiver => if broadcastsInFlight > 0 { BroadcastDone(); }
      }
    }

    /** Any block that is not a client's acquire or release leaves the clients' locks alone. */
    method HandleForeign(b: Block, env: Env)
      requires Valid() && (b.Called? ==> !b.call.Acquire? && !b.call.Release?)
      modifies this, locks, timeouts, brightness, broadcastQueue, broadcastWhy
      ensures Valid() && ProximitySafe()
      ensures Clients(locks.tokens) == Clients(old(locks.tokens)) && redundantAcquires == old(redundantAcquires)
    {
      hide Valid, Clients;
      match b {
        case Called(c) => HandleCall(c, env);
        case Queued(k) => HandleTask(k, env);
      }
    }

    /** Any run: callers, sensors and queued tasks in any order.  The service's invariant holds
        throughout, and as long as the proximity sensor stays active after boot the screen is
        not turned on by anything. */
    method Run(blocks: seq<(Block, Env)>) returns (stayedActive: bool)
      requires Valid()
      modifies this, locks, timeouts, brightness, broadcastQueue, broadcastWhy
      ensures Valid()
      ensures stayedActive && old(timeouts.bootCompleted) ==>
        screenOnCalls == old(screenOnCalls) && (ScreenOn in powerState ==> ScreenOn in old(powerState))
      ensures N.Alternates(requested, false) <==> G.AllFit(screenLog)
      ensures G.AllFit(screenLog) ==> N.Alternates(delivered, false) && N.Final(Board(), false) == G.ToldOn(screenLog)
    {
      hide Valid;
      stayedActive := proximityActive;
      for i := 0 to |blocks|
        invariant Valid()
        invariant stayedActive ==> proximityActive
        invariant old(timeouts.bootCompleted) ==> timeouts.bootCompleted
        invariant stayedActive && old(timeouts.bootCompleted) ==>
          screenOnCalls == old(screenOnCalls) && (ScreenOn in powerState ==> ScreenOn in old(powerState))
      {
        match blocks[i].0 {
          case Called(c) => HandleCall(c, blocks[i].1);
          case Queued(k) => HandleTask(k, blocks[i].1);
        }
        stayedActive := stayedActive && proximityActive;
      }
      RequestsAlternateIff();
    }
  }

  /** A full battery, a light that can be seen, and a display driver that does what it is told. */
  predicate Quiet(env: Env) {
    !env.batteryLow && env.preferredBrightness > 0 && !env.screenOnFails && !env.screenOffFails
  }

  /** A dark screen that nothing asks for, with nothing that would stop a user from lighting it. */
  ghost predicate AtRest(service: PowerManagerService)
    reads service, service.locks, service.timeouts, service.brightness, service.broadcastQueue, service.broadcastWhy
  {
    && service.Valid() && service.useSoftwareAutoBrightness
    && ScreenOn !in service.powerState && service.wakeLockState == service.userState == SCREEN_OFF
    && service.lastEventTime == 0 && service.userActivityAllowed && service.timeouts.pokey == {}
    && !service.proximityActive && !service.preventScreenOn && !service.ScreenTurningOff()
  }

  method NewServiceAtRest() returns (service: PowerManagerService)
    ensures AtRest(service) && service.powerState == SCREEN_OFF && fresh(service) && fresh(service.locks)
    ensures fresh(service.timeouts) && fresh(service.brightness)
    ensures fresh(service.broadcastQueue) && fresh(service.broadcastWhy)
  {
    hide PowerManagerService.Core;
    service := new PowerManagerService(true, true, 15000);
  }

  /** A new service in which a client takes a display lock that does not cause a wakeup: the screen stays dark. */
  method HeldAtRest(t: Token, env: Env) returns (service: PowerManagerService)
    requires t.Client? && IsDisplay(t) && !FlagsOf(t).causesWakeup && Quiet(env)
    ensures AtRest(service) && t in service.locks.tokens
  {
    hide PowerManagerService.Core, PowerManagerService.Board, C.Gather, N.Notified, C.Listed, MinState, R.Retargeted;
    hide TargetLevel;
    service := NewServiceAtRest();
    service.AcquireWakeLock(t, env);
    assert t in Clients(service.locks.tokens);
  }

  /** Releasing a lock taken with ON_AFTER_RELEASE turns a dark screen on, although nothing has asked for it and the
      lock itself was not allowed to. */
  method OnAfterReleaseLightsADarkScreen(service: PowerManagerService, t: Token, env: Env)
    requires AtRest(service) && t in service.locks.tokens && Quiet(env) && env.uptime >= 0
    requires t.Client? && IsDisplay(t) && FlagsOf(t).onAfterRelease
    modifies service, service.locks, service.timeouts, service.brightness, service.broadcastQueue, service.broadcastWhy
    ensures service.Valid() && ScreenOn !in old(service.powerState) && ScreenOn in service.powerState
    ensures Clients(service.locks.tokens) == Clients(old(service.locks.tokens)) - {t}
  {
    hide PowerManagerService.Core, C.AfterRemove, C.Gather;
    var accepted := service.ReleaseWakeLock(t, false, env);
  }

  /** A service before boot, with nothing near its sensor and nothing that keeps its screen dark. */
  ghost predicate Undisturbed(service: PowerManagerService)
    reads service, service.locks, service.timeouts, service.brightness, service.broadcastQueue, service.broadcastWhy
  {
    && service.Valid() && service.useSoftwareAutoBrightness
    && !service.proximityActive && !service.preventScreenOn && service.userState == SCREEN_OFF
    && !service.stillNeedSleepNotification
  }

  /** The only lock, taken with a wakeup: a dark screen goes on, which is announced. */
  method LightByLock(service: PowerManagerService, t: Token, env: Env)
    requires Undisturbed(service) && Quiet(env) && service.locks.screens == map[] && ScreenOn !in service.powerState
    requires t.Client? && KindOf(t) == BrightScreen && FlagsOf(t).causesWakeup
    modifies service, service.locks, service.brightness, service.broadcastQueue, service.broadcastWhy
    ensures Undisturbed(service) && ScreenOn in service.powerState && service.brightness.targetValue != 0
    ensures service.locks.screens.Keys == {t} && t in service.locks.tokens
    ensures service.screenLog == old(service.screenLog) + [G.WentOn(false)]
  {
    hide PowerManagerService.Core, PowerManagerService.Board, C.Gather, C.Reactivated, N.Notified, G.Notices, G.Owed;
    ghost var log, power := service.screenLog, service.powerState;
    AskedByOne(t);
    service.AcquireWakeLock(t, env);
    assert t in Clients(service.locks.tokens);
    G.OneMore(log, G.WentOn(false));
    IsLogged(service);
    assert ScreenOn !in power * SCREEN_BRIGHT;
    assert forall s: PowerState :: ScreenOn in s ==> ScreenOn in s * SCREEN_BRIGHT;
  }

  lemma AskedByOne(t: Token)
    ensures C.Reactivated(map[t := C.Entry(SCREEN_BRIGHT, true)]) == map[t := C.Entry(SCREEN_BRIGHT, true)]
    ensures ScreenOn in C.Gather(map[t := C.Entry(SCREEN_BRIGHT, true)])
  {
    var locks := map[t := C.Entry(SCREEN_BRIGHT, true)];
    assert C.Wants(locks[t], ScreenOn);
  }

  /** That lock released: the screen goes off and its light starts to fade, which is not announced yet. */
  method FadeByRelease(service: PowerManagerService, t: Token, env: Env)
    requires Undisturbed(service) && Quiet(env) && service.locks.screens.Keys == {t} && t in service.locks.tokens
    requires ScreenOn in service.powerState && service.brightness.targetValue != 0
    requires t.Client? && IsDisplay(t) && !FlagsOf(t).onAfterRelease
    modifies service, service.locks, service.timeouts, service.brightness, service.broadcastQueue, service.broadcastWhy
    ensures Undisturbed(service) && ScreenOn !in service.powerState && service.locks.screens == map[]
    ensures service.screenLog == old(service.screenLog) + [G.WentOff(true, OFF_BECAUSE_OF_TIMEOUT, false)]
  {
    hide PowerManagerService.Core, PowerManagerService.Board, C.Gather, N.Notified, G.Notices, G.Owed;
    hide PowerManagerService.AcceptsActivity, C.AfterActivity;
    assert service.locks.screens - {t} == map[];
    ghost var log, power := service.screenLog, service.powerState;
    NothingIsAsked();
    IsLogged(service);
    var accepted := service.ReleaseWakeLock(t, false, env);
    G.OneMore(log, G.WentOff(true, OFF_BECAUSE_OF_TIMEOUT, false));
    IsLogged(service);
    assert ScreenOn in power * SCREEN_BRIGHT;
  }

  lemma NothingIsAsked()
    ensures C.Gather(map[]) == {}
  {
  }

  lemma IsLogged(service: PowerManagerService)
    requires service.Valid()
    ensures service.requested == G.Notices(service.screenLog)
    ensures service.stillNeedSleepNotification == G.Owed(service.screenLog)
  {
    hide PowerManagerService.Machine;
  }

  /** A run whose requests do not alternate: a lock lights the screen, is released, and lights it again while the
      light still fades.  No off is announced in between, so on is requested twice. */
  method WakingDuringAFadeRequestsOnTwice() returns (service: PowerManagerService)
    ensures service.Valid() && service.requested == [N.Notice(true, -1), N.Notice(true, -1)]
    ensures !N.Alternates(service.requested, false)
  {
    hide PowerManagerService.Core, N.Alternates, G.Notices, G.Owed, G.AllFit, PowerManagerService.Board;
    var env := Env(1, 1, false, 100, true, false, false);
    var t := Client(0, LockFlags(BrightScreen, true, false));
    service := new PowerManagerService(true, true, 15000);
    LightByLock(service, t, env);
    FadeByRelease(service, t, env);
    LightByLock(service, t, env);
    IsLogged(service);
    G.WakingDuringAFadeDoesNotFit();
    G.RequestsAlternateIff(service.screenLog);
    assert service.screenLog == [G.WentOn(false), G.WentOff(true, OFF_BECAUSE_OF_TIMEOUT, false), G.WentOn(false)];
  }

  /** A light that is taken down to zero with animations off: the animator jumps there, forgets the target, and has
      the driver switch the screen off and its off announced, whatever the power state is. */
  method TakeDown(service: PowerManagerService, env: Env)
    requires service.Valid() && !service.animateScreenLights && service.brightness.targetValue != 0
    modifies service, service.locks, service.brightness, service.broadcastQueue, service.broadcastWhy
    ensures service.Valid() && service.brightness.targetValue != 0
    ensures service.powerState == old(service.powerState) && service.screenOffReason == old(service.screenOffReason)
    ensures service.screenLog == old(service.screenLog) + [G.FadedOut(service.screenOffReason, env.screenOffFails)]
  {
    hide PowerManagerService.Core, PowerManagerService.Board, PowerManagerService.Cache, N.Step, R.Quotient;
    service.RetargetBrightness(0, 1, -1);
    service.FadesArePosted();
    var dark := service.RunAnimator(env);
  }

  /** Another run whose requests do not alternate: the light of a lit screen is taken down to zero twice.  The power
      state stays, but two offs are requested in a row. */
  method DarkTwiceRequestsOffTwice() returns (service: PowerManagerService)
    ensures service.Valid() && ScreenOn in service.powerState
    ensures var off := N.Notice(false, service.screenOffReason);
      service.requested == [N.Notice(true, -1), off, off] && !N.Alternates(service.requested, false)
  {
    hide PowerManagerService.Core, N.Alternates, G.Notices, G.Owed, G.AllFit, PowerManagerService.Board;
    var env := Env(1, 1, false, 100, true, false, false);
    service := new PowerManagerService(true, false, 15000);
    LightByLock(service, Client(0, LockFlags(BrightScreen, true, false)), env);
    TakeDown(service, env);
    TakeDown(service, env);
    IsLogged(service);
    ghost var off := G.FadedOut(service.screenOffReason, false);
    G.DarkTwiceDoesNotFit(service.screenOffReason);
    G.RequestsAlternateIff(service.screenLog);
    assert service.screenLog == [G.WentOn(false), off, off];
  }
}
