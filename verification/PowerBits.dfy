/** Power-state bits, wake-lock kinds and the tokens that identify wake locks. */
module PowerBits {

  /** Why the screen is off. */
  const OFF_BECAUSE_OF_USER := 1
  const OFF_BECAUSE_OF_TIMEOUT := 2
  const OFF_BECAUSE_OF_PROX_SENSOR := 3

  datatype PowerBit = ScreenOn | ScreenBright | ButtonBright | KeyboardBright | BatteryLow

  /** A power state is a bit mask; masks are modelled as sets of bits. */
  type PowerState = set<PowerBit>

  const SCREEN_OFF: PowerState := {}
  const SCREEN_DIM: PowerState := {ScreenOn}
  const SCREEN_BRIGHT: PowerState := {ScreenOn, ScreenBright}
  const SCREEN_BUTTON_BRIGHT: PowerState := {ScreenOn, ScreenBright, ButtonBright}
  const ALL_BRIGHT: PowerState := {ScreenOn, ScreenBright, ButtonBright, KeyboardBright}
  const LIGHTS_MASK: PowerState := {ScreenBright, ButtonBright, KeyboardBright}

  datatype LockKind = Partial | ScreenDim | BrightScreen | Full | ProximityScreenOff | BadKind

  datatype LockFlags = LockFlags(kind: LockKind, causesWakeup: bool, onAfterRelease: bool)

  /** The binder token of a wake lock.  A client lock keeps the same flags for its
      whole life, so they are part of its token; the other constructors are the locks
      the service creates for itself. */
  datatype Token =
    | Client(id: nat, flags: LockFlags)
    | SleepBroadcast
    | StayOnScreenDim
    | StayOnPartial
    | PreventScreenOnPartial
    | ProximityPartial

  function FlagsOf(t: Token): LockFlags {
    match t
    case Client(_, f) => f
    case StayOnScreenDim => LockFlags(ScreenDim, false, false)
    case _ => LockFlags(Partial, false, false)
  }

  function KindOf(t: Token): LockKind {
    FlagsOf(t).kind
  }

  /** Locks that ask for the display: the screen locks other than the proximity lock. */
  predicate IsDisplay(t: Token) {
    KindOf(t) in {ScreenDim, BrightScreen, Full}
  }

  /** isScreenLock: display locks and the proximity lock. */
  predicate IsScreenLock(t: Token) {
    IsDisplay(t) || KindOf(t) == ProximityScreenOff
  }

  /** The least power state a lock asks for, fixed when the lock is first listed. */
  function MinState(kind: LockKind, autoBrightness: bool, keyboardVisible: bool): (state: PowerState)
    ensures ScreenOn in state <==> kind in {ScreenDim, BrightScreen, Full}
    ensures ScreenBright in state <==> kind in {BrightScreen, Full}
    ensures ButtonBright in state <==> kind == Full && !autoBrightness
    ensures KeyboardBright in state <==> kind == Full && !autoBrightness && keyboardVisible
    ensures BatteryLow !in state
  {
    match kind
    case Full =>
      if autoBrightness then SCREEN_BRIGHT
      else if keyboardVisible then ALL_BRIGHT
      else SCREEN_BUTTON_BRIGHT
    case BrightScreen => SCREEN_BRIGHT
    case ScreenDim => SCREEN_DIM
    case _ => SCREEN_OFF
  }
}
