# Power management, death watches, streams and three small algorithms

Dafny models of six parts of the repository, with proofs of what each part is for. Code that updates
fields or arrays step by step is modelled by classes with methods and loops, proved against pure
specifications about which the whole-run theorems are stated.

| module | models |
|---|---|
| `PowerBits`, `WakeLockCache`, `WakeLockList`, `NotificationQueue`, `ScreenLog`, `ScreenTimeouts`, `BrightnessRamp`, `PowerManagerService`, `AutoBrightness` | the Android power manager service: every `synchronized (mLocks)` block is one atomic step; handlers are flags or counts of queued tasks, time is an integer, power bits are sets |
| `PowerManagerClient` | the reference-counted client locks in front of it |
| `DeathWatch` | domain-death detection: a sorted list of watchers merged against a paged list of live domains |
| `StreamCopy` | sending and receiving a whole stream through a reused buffer |
| `KeywordMerge` | the one-pass merge of keyword lines against segment markers |
| `IntendedAccount` | the unique-best account selection |

`PowerManagerService.PowerManagerService` owns the lock list, the timeouts, the brightness animation and the
notification slots; its `Valid()` ties them together (cache within the gathered state, counts equal to the
listed locks, reference count equal to queued plus unfinished notifications, auxiliary locks held exactly
while their tasks are queued, requests equal to those of the logged screen events), and `Run` keeps it over every
interleaving. What the outside world decides (clock, driver errors, permissions, policy answers) comes in through
the `Env` parameter of each block.

## What the proofs found

Where the code and its documentation or the plain reading differ, the model follows the code.

- A release can turn the screen on. Line 964 of `PowerManagerService.java` gathers all activated locks, also
  those acquired after a sleep request without a wake-up; and `ON_AFTER_RELEASE`, documented
  (`PowerManager.java`, lines 180-188) not to turn the screen on, calls `userActivity`, which does.
  `ReleaseStaysWithinDemandIff` and the contract of `ReleaseWakeLockLocked` say exactly when (for proximity locks too),
  `ReleaseCanWakeTheScreen` and `OnAfterReleaseLightsADarkScreen` are the two cases.
- Two off requests in a row cancel each other while one is waiting (lines 1346-1354); `RequestIsReflectedIff` gives
  the exact condition. Requests need not alternate: `RequestsAlternateIff` says for every state when all of them have,
  `WakingDuringAFadeRequestsOnTwice` and `DarkTwiceRequestsOffTwice` are runs in which they have not.
- A forced activity that is refused (lines 2184-2193; a charger plugged in while something is near) stops a fade to off
  half-way, and the off is neither applied nor announced: `RefusedActivityStrandsAFade`. A fade that is left alone
  always ends dark and announced (`FadeRunsOut`, `EveryRampLands`).
- Unplugging can shut a lit screen off at once, although the comment at lines 374-376 says that it must not: the
  stay-on lock is dropped before the screen bit is looked at. `UnpluggingALitScreen` says exactly when,
  `StayOnLockAlone` is a run that gets there.
- A changed short keylight delay is not picked up while a short-timeout poke lock is held (lines 2653-2659):
  `ChangeKeepsDelaysCurrentIff`, `ShortKeylightChangeIsMissed`.
- `setPowerState` compares a battery-low bit that it never stores (lines 1672-1706), so with a low battery
  equal states are never recognised as equal, and the light sensor's test of that bit always succeeds
  (`LowBatteryIsNeverStored`; the service invariant keeps the bit out of the power state).
- A brightness animation need not end in the steps it is given: `LightsLandIff` says exactly when it does,
  `DimToOffDuringAFadeIsLate` and `BrightAtTheDimLevelIsLate` are cases in which it does not.
- After an unbalanced release of a client lock the next acquire does not reach the service
  (`PowerManager.java`, lines 248-310; contract of `WakeLock.Acquire`).
- A changed dock state while the screen is not on leaves the backlight behind the readings: `Handle` says exactly when,
  and which events make up for it; `DockingInTheDarkIsMissed` is the case.
- The death search need not end: after the first page each page starts with the last domain of the one before.
  `SearchCompletesIff` gives the exact condition, `SearchCanRepeatForEver` the failing input.
- `virStreamSendAll` and `virStreamRecvAll` are documented to have aborted the stream upon any error; their
  contracts say exactly when they have, `RefusedByteDoesNotAbortSending` and
  `FailingStreamIsNotAbortedByReceiving` are the failing cases.
- The keyword merge passes over a segment whose first line holds a keyword itself (`FoundIsAllIff`).

## Model

| member | source | states |
|---|---|---|
| `WakeLockCache.RunKeepsInv` | vimicro/VC0882/power/code/PowerManagerService.java:783-983 | in every state reachable by acquires, releases, activity and sleep the cached wake-lock bits are a subset of what the activated locks ask for |
| `WakeLockCache.StepKeepsInv` | vimicro/VC0882/power/code/PowerManagerService.java:2692-2724 | one event keeps that, and a recomputing event (wake-up acquire, accepted activity, removal of a listed non-proximity lock) makes the cache exact |
| `WakeLockCache.QuietAcquireKeepsDemand` | vimicro/VC0882/power/code/PowerManagerService.java:852-883 | a display lock acquired without ACQUIRE_CAUSES_WAKEUP leaves `mWakeLockState | mUserState` exactly as it was |
| `WakeLockCache.SleepHoldsAgainstQuietAcquires` | vimicro/VC0882/power/code/PowerManagerService.java:2503-2536 | after an accepted sleep request no sequence of such acquires, of any length, turns a bit on |
| `WakeLockCache.QuietRunKeepsDemand` | vimicro/VC0882/power/code/PowerManagerService.java:852-883 | the same from any reachable state: a run of quiet acquires changes nothing that is asked of the screen |
| `WakeLockCache.QuietAcquireThenTimeoutIff` | vimicro/VC0882/power/code/PowerManagerService.java:852-883 | what such an acquire has cached shows once the user state changes: a bit is still asked for iff the new user state asks for it, or it was on and an activated lock, the acquired one included, asks for it |
| `WakeLockCache.QuietRunThenTimeoutIff` | vimicro/VC0882/power/code/PowerManagerService.java:852-883 | the same after any number of quiet acquires: only the first acquire of a token counts |
| `WakeLockCache.SleepForgetsOldLocks` | vimicro/VC0882/power/code/PowerManagerService.java:2503-2536 | after an accepted sleep request, over every run of quiet acquires, plain releases and the end of the countdown, each bit asked for is one that a lock acquired since asks for |
| `WakeLockCache.SleepHoldsAgainstReleases` | vimicro/VC0882/power/code/PowerManagerService.java:2503-2536 | in particular releases and timeouts alone leave the screen off, whatever locks are still held |
| `WakeLockCache.WakingCountsEveryLock` | vimicro/VC0882/power/code/PowerManagerService.java:2709-2724 | user activity and an acquire with a wakeup make every listed lock count, activated or not |
| `WakeLockCache.RemovalIsExact` | vimicro/VC0882/power/code/PowerManagerService.java:938-969 | dropping a display lock leaves exactly what the other activated locks ask for; dropping a proximity lock changes nothing |
| `WakeLockCache.LocksFollowTheirHistory` | vimicro/VC0882/power/code/PowerManagerService.java:783-983 | over every run each lock is listed, activated and asks as its own history of events says |
| `WakeLockCache.ReleaseStaysWithinDemandIff` | vimicro/VC0882/power/code/PowerManagerService.java:938-969 | a release, with the user activity that ON_AFTER_RELEASE makes of it, leaves the demand within the old one if and only if every other lock that counts afterwards asks only for bits that are on and, as user activity, the screen is bright already |
| `WakeLockCache.ReleaseAsksForScreenIff` | vimicro/VC0882/power/code/PowerManagerService.java:963-969 | the same for the screen bit: it is asked for after a display release iff the release counts as activity, the user state asks for it, or another activated lock does |
| `WakeLockCache.OnAfterReleaseCanWakeTheScreen` | vimicro/VC0882/power/code/PowerManagerService.java:965-967 | the second failing case: after a sleep request the release of the only lock asks for the screen, because it was taken with ON_AFTER_RELEASE |
| `WakeLockCache.ReleaseCanWakeTheScreen` | vimicro/VC0882/power/code/PowerManagerService.java:963-969 | the failing case: sleep, a quiet acquire, then the release of an older lock turns bits on |
| `WakeLockCache.StayOnLockAlone` | vimicro/VC0882/power/code/PowerManagerService.java:700-709 | a run after which the stay-on lock is all that asks for the screen: taken while the user was active, whose state has timed out since |
| `WakeLockCache.GatherListed` | vimicro/VC0882/power/code/PowerManagerService.java:2692-2706 | listing a lock never shrinks what is gathered, and leaves it alone if the lock was listed already or asks for nothing |
| `WakeLockList.LockList.GatherState` | vimicro/VC0882/power/code/PowerManagerService.java:2692-2706 | the loop returns exactly the union over the activated screen locks |
| `WakeLockList.LockList.ReactivateScreenLocks` | vimicro/VC0882/power/code/PowerManagerService.java:2709-2724 | after the loop every screen lock is activated, no other lock is touched, and the result is what would be gathered now |
| `WakeLockList.LockList.DeactivateForSleep` | vimicro/VC0882/power/code/PowerManagerService.java:2511-2527 | every screen lock is deactivated except, for a proximity request, the proximity locks; says whether there is one |
| `WakeLockList.LockList.AddLock` | vimicro/VC0882/power/code/PowerManagerService.java:2661-2667 | the new lock joins the set of tokens and nothing else changes |
| `WakeLockList.LockList.RemoveLock` | vimicro/VC0882/power/code/PowerManagerService.java:2669-2677 | exactly the given token leaves the list; an unknown one changes nothing |
| `WakeLockList.LockList.GetIndex` | vimicro/VC0882/power/code/PowerManagerService.java:2679-2690 | the position of the token, and -1 exactly when it is not listed |
| `NotificationQueue.RunKeepsInv` | vimicro/VC0882/power/code/PowerManagerService.java:1312-1459 | in every interleaving of requests, drain steps and finished broadcasts the reference count equals queued plus unfinished notifications, the third slot is free and a waiting notification has a drain task coming |
| `NotificationQueue.RequestIsReflectedIff` | vimicro/VC0882/power/code/PowerManagerService.java:1335-1365 | what will finally be delivered equals the latest request, except exactly when an off request meets a single waiting entry while the last delivery was on |
| `NotificationQueue.RequestPosts` | vimicro/VC0882/power/code/PowerManagerService.java:1319-1365 | each request posts one drain task unless it strips a pair, and which reason the entry keeps |
| `NotificationQueue.CollapsingPreservesMeaning` | vimicro/VC0882/power/code/PowerManagerService.java:1319-1365 | if requests alternate, deliveries alternate however the drains interleave, last queued else last delivered is the last request, and two waiting entries are off then on |
| `NotificationQueue.RepeatedOffIsLost` | vimicro/VC0882/power/code/PowerManagerService.java:1346-1354 | without alternation the meaning is lost: from the idle board on, which is delivered, then off twice before a drain; on is the last thing delivered although off was requested last |
| `NotificationQueue.StepKeepsFaithful` | vimicro/VC0882/power/code/PowerManagerService.java:1312-1459 | as long as all requests made so far alternate, every step of the protocol keeps what they mean; this is part of the service invariant |
| `NotificationQueue.KeptReasonIsMinimumOverRuns` | vimicro/VC0882/power/code/PowerManagerService.java:1335-1345 | over every alternating run the reason kept for a waiting off is the minimum of those folded into it |
| `NotificationQueue.DrainDelivers` | vimicro/VC0882/power/code/PowerManagerService.java:1376-1413 | a running drain task delivers the whole queue in order and then stops |
| `NotificationQueue.DrainsComeToRest` | vimicro/VC0882/power/code/PowerManagerService.java:1376-1413 | when nothing more is requested every posted drain runs once, and then everything that waited has been delivered in order |
| `NotificationQueue.BroadcastsFinish` | vimicro/VC0882/power/code/PowerManagerService.java:1440-1459 | once all broadcasts are done the broadcast wake lock is free |
| `ScreenTimeouts.OverrideIsExact` | vimicro/VC0882/power/code/PowerManagerService.java:1205-1309 | an override of N > 0 reaches off exactly N after the start (plus the time firings were late), in at most three firings stepping only downward, whatever the delays |
| `ScreenTimeouts.CountdownTakesTotal` | vimicro/VC0882/power/code/PowerManagerService.java:1205-1309 | without an override the countdown from bright takes exactly the sum of the keylight delay, the dim delay if any, and the off delay |
| `ScreenTimeouts.DelaysAddUp` | vimicro/VC0882/power/code/PowerManagerService.java:2610-2647 | the three delays add up to the effective timeout but at least the keylight delay; dim is -1 or not negative; nothing leaves the 32-bit range |
| `ScreenTimeouts.ActivityCountdownIsExact` | vimicro/VC0882/power/code/PowerManagerService.java:2610-2647 | an undisturbed countdown ends after exactly the single delay of a poke lock with a timeout bit, if there is one, else after the effective timeout, but at least 6000 ms |
| `ScreenTimeouts.StagesOfAnActivity` | vimicro/VC0882/power/code/PowerManagerService.java:1205-1310 | when each stage comes after activity, in milliseconds: with an effective timeout T of 13000 or more, bright (no button light) at 6000, dim at T - 7000, off at T; below that, or with a timeout poke bit, there is no dim stage |
| `ScreenTimeouts.StagesOfACountdown` | vimicro/VC0882/power/code/PowerManagerService.java:1205-1310 | the same for a countdown entered at any stage with any delays, a dim stage without a delay included |
| `ScreenTimeouts.StagesOfAnOverride` | vimicro/VC0882/power/code/PowerManagerService.java:1205-1310 | when each stage of an override comes |
| `ScreenTimeouts.PokeLocksAreTheLastSet` | vimicro/VC0882/power/code/PowerManagerService.java:1019-1063 | over every sequence of changes a poke lock has the bits that the last call for its token gave it, and is marked as waking iff a call since it was registered changed its timeout bits while the screen was off |
| `ScreenTimeouts.SettingsAreTheLastSet` | vimicro/VC0882/power/code/PowerManagerService.java:2649-2659 | each setting is the one set last |
| `ScreenTimeouts.SkippedRecomputeKeepsTimeoutBits` | vimicro/VC0882/power/code/PowerManagerService.java:1019-1063 | although the guard looks at the argument and not at the new cumulative bits, a skipped recompute implies that the cumulative timeout bits did not change |
| `ScreenTimeouts.ChangeKeepsDelaysCurrentIff` | vimicro/VC0882/power/code/PowerManagerService.java:1019-1063 | current delays stay current under a change if and only if it does not change the short keylight delay while a short-timeout lock is held |
| `ScreenTimeouts.StaleDelaysRecoverIff` | vimicro/VC0882/power/code/PowerManagerService.java:1056-1062 | delays that are not current become so by exactly the changes that recompute them, or by setting the short keylight delay back |
| `ScreenTimeouts.DelaysStayCurrentIff` | vimicro/VC0882/power/code/PowerManagerService.java:1019-1063 | over every sequence of poke-lock and setting changes `mPokey` is the OR of the registered locks, and the delays are current throughout if and only if no change of the short keylight delay meets a short-timeout lock |
| `ScreenTimeouts.ShortKeylightChangeIsMissed` | vimicro/VC0882/power/code/PowerManagerService.java:2653-2659 | the failing run: a short-timeout lock, then the short keylight delay from 6 to 3 seconds; the screen still stays bright for 6 |
| `ScreenTimeouts.DelaysAreExactWithoutShortChanges` | vimicro/VC0882/power/code/PowerManagerService.java:2610-2641 | while the short keylight delay is constant the delays are what setScreenOffTimeoutsLocked would compute now |
| `ScreenTimeouts.ScreenTimeouts.SetTimeoutLocked` | vimicro/VC0882/power/code/PowerManagerService.java:1205-1269 | schedules the stage and time the pure timer does, in all branches of the override arithmetic; before boot nothing |
| `ScreenTimeouts.ScreenTimeouts.ContinueCountdown` | vimicro/VC0882/power/code/PowerManagerService.java:1292-1307 | schedules the stage after the one just set |
| `ScreenTimeouts.ScreenTimeouts.SetScreenOffTimeoutsLocked` | vimicro/VC0882/power/code/PowerManagerService.java:2610-2647 | the cached delays become those computed from the current settings, whose stages `StagesOfAnActivity` gives in numbers |
| `ScreenTimeouts.ScreenTimeouts.Accumulate` | vimicro/VC0882/power/code/PowerManagerService.java:1040-1050 | the loop over the registered poke locks yields exactly their OR, in any order |
| `ScreenTimeouts.ScreenTimeouts.SetPokeLock` | vimicro/VC0882/power/code/PowerManagerService.java:1007-1065 | a null token is ignored, both timeout bits are refused, and otherwise the table changes as the pure machine says and the countdown starts over exactly when the timeout bits differ |
| `BrightnessRamp.RampLandsIff` | vimicro/VC0882/power/code/PowerManagerService.java:1993-2066 | a retargeted ramp is exactly on its target, and stopped, after the steps asked for (one if none) if and only if its level is not behind the nominal start; and then it stays there |
| `BrightnessRamp.LevelsOfARamp` | vimicro/VC0882/power/code/PowerManagerService.java:1993-2066 | every level of a retargeted animation: the straight line of slope (target - nominal) / n through the actual level, until that reaches the target |
| `BrightnessRamp.RampTakesAllItsSteps` | vimicro/VC0882/power/code/PowerManagerService.java:1993-2066 | from its nominal level, with a level or more for each of n steps, it is k n-ths of the way after k steps and lands with the last one, not before |
| `BrightnessRamp.NoStepsIsAJump` | vimicro/VC0882/power/code/PowerManagerService.java:2002-2020 | without steps the target is reached at once |
| `BrightnessRamp.RampIsMonotone` | vimicro/VC0882/power/code/PowerManagerService.java:2028-2066 | every level shown lies between the first one and the target, and no step moves away from the target |
| `BrightnessRamp.LandedOrOnLine` | vimicro/VC0882/power/code/PowerManagerService.java:2028-2066 | until it lands a ramp is on the straight line through its start, strictly short of the target |
| `BrightnessRamp.LandsIff` | vimicro/VC0882/power/code/PowerManagerService.java:2028-2066 | after any number of steps a ramp has landed if and only if its straight line has reached the target by then |
| `BrightnessRamp.EveryRampLands` | vimicro/VC0882/power/code/PowerManagerService.java:2028-2066 | every running ramp reaches its target after some number of steps, whatever its delta |
| `BrightnessRamp.BrightnessState.SetTargetLocked` | vimicro/VC0882/power/code/PowerManagerService.java:1993-2020 | the fields become the retargeted ramp, whose levels `LevelsOfARamp` gives, and the next step is queued; the target there already changes nothing |
| `BrightnessRamp.BrightnessState.StepLocked` | vimicro/VC0882/power/code/PowerManagerService.java:2028-2066 | the fields become one step of the ramp, and the level shown is that of the new state |
| `BrightnessRamp.BrightnessState.Animate` | vimicro/VC0882/power/code/PowerManagerService.java:2068-2092 | one run of the animator: a step, or the jump to the end; says exactly when the light has gone dark |
| `PowerManagerService.PowerManagerService.Run` | vimicro/VC0882/power/code/PowerManagerService.java:700-3016 | any interleaving of calls, sensor events and queued tasks keeps the whole invariant, and while the proximity sensor stays active after boot the screen bit is not turned on and the driver is not told to switch on |
| `PowerManagerService.PowerManagerService.SetPowerState` | vimicro/VC0882/power/code/PowerManagerService.java:1652-1786 | the state aimed at, with the proximity and battery rules and a failing driver; the brightness retargeted for it; exactly which notifications are requested; the screen follows what is asked for once booted and stays dark while the sensor is active; every invariant kept |
| `PowerManagerService.BitsOfAChange` | vimicro/VC0882/power/code/PowerManagerService.java:1665-1786 | every bit of the new power state and of the lights applied: the lights asked for, or the old ones; the screen iff asked for with nothing near, and on already or the driver works; before boot everything, unless the state asked for is there |
| `PowerManagerService.LightsOfAChange` | vimicro/VC0882/power/code/PowerManagerService.java:1814-1905 | the animation a change of the screen bits asks for, in plain numbers: from the level of the old state to that of the new one, in 15 steps or, to and from the dim level 20, in proportion |
| `PowerManagerService.SettledFadeTakesItsSteps` | vimicro/VC0882/power/code/PowerManagerService.java:1814-1905 | from a settled light the change takes exactly those steps, evenly |
| `PowerManagerService.PowerManagerService.WhichActivityCounts` | vimicro/VC0882/power/code/PowerManagerService.java:2231-2290 | which events get through: by the poke bits, the fade, the clock, the permission to be active and the sensor |
| `PowerManagerService.PowerManagerService.UserActivity` | vimicro/VC0882/power/code/PowerManagerService.java:2195-2312 | the user state after an accepted event, in bits; a refused one leaves the user state, the locks, the screen and the countdown |
| `PowerManagerService.PowerManagerService.BootCompleted` | vimicro/VC0882/power/code/PowerManagerService.java:2781-2789 | forced button activity unless the screen fades out, then the stay-on locks |
| `PowerManagerService.PowerManagerService.SystemReady` | vimicro/VC0882/power/code/PowerManagerService.java:2745-2763 | the screen bright, or everything with hardware brightness, as by any change of the power state |
| `PowerManagerService.PowerManagerService.FadesKeepTheirReason` | vimicro/VC0882/power/code/PowerManagerService.java:1758-1780 | in every state the service reaches, the off at the end of a fade has the reason of the change that switched the screen off |
| `PowerManagerService.PowerManagerService.UserActivityLocked` | vimicro/VC0882/power/code/PowerManagerService.java:2231-2312 | accepted exactly under the guards of the source; then the cache is exact, the countdown starts over and the screen is on unless prevented; refused, only the last event time and an unused proximity state may change, as said |
| `PowerManagerService.PowerManagerService.ForceUserActivityLocked` | vimicro/VC0882/power/code/PowerManagerService.java:2184-2193 | accepted exactly with device power, unless late or while a listed proximity lock keeps the sensor active; refused, it changes nothing but that a fade to off stops |
| `PowerManagerService.PowerManagerService.GoToSleepLocked` | vimicro/VC0882/power/code/PowerManagerService.java:2503-2536 | accepted unless older than the last event; then every lock but, for the sensor, the proximity ones is deactivated, the countdown is cancelled, the screen bit is clear, and an off is owed until the screen change or a later event announces it; what that means for later releases says `SleepForgetsOldLocks` |
| `PowerManagerService.PowerManagerService.AcquireWakeLockLocked` | vimicro/VC0882/power/code/PowerManagerService.java:783-903 | the token is listed with the bits of its kind, the counts and the kernel lock follow, and a display lock without ACQUIRE_CAUSES_WAKEUP changes no demand now, and later only as `QuietAcquireThenTimeoutIff` says |
| `PowerManagerService.PowerManagerService.ReleaseWakeLockLocked` | vimicro/VC0882/power/code/PowerManagerService.java:938-983 | the token leaves the list, the counts, the kernel lock and the cache follow; it counts as user activity, with a new countdown, exactly if it was listed and either is a display lock taken with ON_AFTER_RELEASE while activity is accepted, or the last proximity lock while something is near, unless the caller waits, the sensor is ignored or the clock is late; the screen is on after a display release exactly if that, the user state or another activated lock asks for it and nothing stops it; the sensor is disabled with the last proximity lock unless the caller waits |
| `PowerManagerService.PowerManagerService.SendNotificationLocked` | vimicro/VC0882/power/code/PowerManagerService.java:1312-1366 | the slots and the reference count follow the pure queue, and no slot beyond the third is looked at |
| `PowerManagerService.PowerManagerService.RequestsAlternateIff` | vimicro/VC0882/power/code/PowerManagerService.java:1312-1366 | in every state the service reaches: all its requests so far alternate if and only if everything that has happened to the screen fitted what was said before it, and then what is delivered alternates too and ends on what was said last |
| `ScreenLog.RequestsAlternateIff` | vimicro/VC0882/power/code/PowerManagerService.java:1708-1807 | over every history of the screen (sleep requests, going on and off, ends of fades, with a failing driver or not) the requests alternate if and only if going on always finds an owed off exactly when on was said last, and every announced off, of the animator too, finds that it was |
| `ScreenLog.EventAlternatesIff` | vimicro/VC0882/power/code/PowerManagerService.java:1708-1807 | the same for one event after any alternating requests |
| `ScreenLog.ReasonsAreTheirs` | vimicro/VC0882/power/code/PowerManagerService.java:1708-1807 | every request carries the reason of its own event, an off that was owed that of the user |
| `PowerManagerService.PowerManagerService.RunAnimator` | vimicro/VC0882/power/code/PowerManagerService.java:2068-2092 | one run of the animator: the step or jump of the light; an off is requested, with the reason of the last change, exactly if the light has gone dark and the driver does not fail; the power state stays |
| `PowerManagerService.PowerManagerService.FadeRunsOut` | vimicro/VC0882/power/code/PowerManagerService.java:2028-2092 | a fade to off that nothing stops ends dark after exactly the runs of the animator that its straight line takes, and then, not before, the off is announced |
| `PowerManagerService.PowerManagerService.RefusedActivityStrandsAFade` | vimicro/VC0882/power/code/PowerManagerService.java:2184-2193 | a forced activity that is refused during a fade stops the light where it is; the animator neither goes on nor announces the off |
| `PowerManagerService.WakingDuringAFadeRequestsOnTwice` | vimicro/VC0882/power/code/PowerManagerService.java:1708-1780 | a failing run of a new service: a lock lights the screen, is released, and lights it again before the fade has ended; on is requested twice |
| `PowerManagerService.DarkTwiceRequestsOffTwice` | vimicro/VC0882/power/code/PowerManagerService.java:2055-2092 | another, with animations off: the light of a lit screen is taken down to zero twice; off is requested twice and the power state stays on |
| `PowerManagerService.PowerManagerService.QueueNotification` | vimicro/VC0882/power/code/PowerManagerService.java:1319-1365 | the search over the slot arrays is the pure enqueue, with the position and the number of stripped entries |
| `PowerManagerService.PowerManagerService.DequeueNotification` | vimicro/VC0882/power/code/PowerManagerService.java:1376-1413 | takes the head entry and moves the others up; the task stops exactly when the queue was empty |
| `PowerManagerService.PowerManagerService.BroadcastDone` | vimicro/VC0882/power/code/PowerManagerService.java:1440-1459 | releases one reference of the broadcast lock, which is never under-locked |
| `PowerManagerService.PowerManagerService.RunTimeoutTask` | vimicro/VC0882/power/code/PowerManagerService.java:1277-1310 | a firing sets the user state of its stage (bright, dim, off, with no other light) and the power state with it, and schedules the next one as the pure timer does |
| `PowerManagerService.PowerManagerService.ActivityRunsOut` | vimicro/VC0882/power/code/PowerManagerService.java:2231-2312 | from any accepted activity, forced or keeping the lights too, with only the countdown running and its own battery and driver at each firing, the user state is off after exactly the override or the three delays, within three firings |
| `PowerManagerService.PowerManagerService.RunCountdown` | vimicro/VC0882/power/code/PowerManagerService.java:1277-1310 | the same for any countdown under way, and the screen is off then unless a lock asks for it |
| `PowerManagerService.PowerManagerService.PreventScreenOn` | vimicro/VC0882/power/code/PowerManagerService.java:1507-1554 | while the screen is prevented from going on the partial lock is held and the re-enable task queued; afterwards neither |
| `PowerManagerService.PowerManagerService.RunForceReenableTask` | vimicro/VC0882/power/code/PowerManagerService.java:1589-1615 | the re-enable task undoes a forgotten request, and has the driver switch a screen on that should be |
| `PowerManagerService.PowerManagerService.OnProximitySensorChanged` | vimicro/VC0882/power/code/PowerManagerService.java:2945-2982 | debounce by 1000 ms: a reading is handled at once or held, with the proximity partial lock held exactly while the task is queued and the newest reading pending |
| `PowerManagerService.PowerManagerService.RunProximityTask` | vimicro/VC0882/power/code/PowerManagerService.java:2330-2342 | the newest reading is handled as `ProximityChangedLocked` says and the partial lock released |
| `PowerManagerService.PowerManagerService.ProximityChangedLocked` | vimicro/VC0882/power/code/PowerManagerService.java:2885-2921 | near puts the device to sleep, far counts as user activity, each unless ignored or out of date; a sensor nobody listens to is disabled |
| `PowerManagerService.PowerManagerService.DisableProximityLockLocked` | vimicro/VC0882/power/code/PowerManagerService.java:2855-2883 | the last proximity lock unregisters the sensor and drops a held reading with its partial lock; it counts as user activity exactly if something was near, the sensor is not ignored, there is device power and the clock is not late |
| `PowerManagerService.PowerManagerService.UpdateWakeLockLocked` | vimicro/VC0882/power/code/PowerManagerService.java:700-709 | both stay-on locks are held exactly while the device is to stay on, and the screen is on afterwards exactly if something else asks for it or the lock is kept, and nothing stops it |
| `PowerManagerService.PowerManagerService.BatteryChanged` | vimicro/VC0882/power/code/PowerManagerService.java:363-393 | when the device is plugged in or out both stay-on locks follow; the user counts as active exactly if the activity can be forced and the device was plugged in, the wake setting is on, or the screen is on once the locks have followed; else the user state stays and so does what the locks made of the screen |
| `PowerManagerService.PowerManagerService.UnpluggingALitScreen` | vimicro/VC0882/power/code/PowerManagerService.java:372-386 | the comment there promises that unplugging does not shut a lit screen off: it does not if and only if something besides the stay-on lock asks for the screen, unless the wake setting is on |
| `PowerManagerService.PowerManagerService.SettingsChanged` | vimicro/VC0882/power/code/PowerManagerService.java:450-481 | changed settings reach the stay-on locks and, by the pure machine, the cached delays |
| `PowerManagerService.PowerManagerService.EnableUserActivity` | vimicro/VC0882/power/code/PowerManagerService.java:2577-2588 | disabling user activity puts the countdown into its last stage, enabling it leaves it; no lock and no power bit changes |
| `PowerManagerService.PowerManagerService.SetPokeLock` | vimicro/VC0882/power/code/PowerManagerService.java:1007-1065 | a poke lock never touches the locks of clients; the table and the countdown change as the pure machine says |
| `PowerManagerService.PowerManagerService.SetKeyboardVisibility` | vimicro/VC0882/power/code/PowerManagerService.java:2547-2570 | a change counts as forced button activity exactly while the screen is lit and not fading out: the user state, the countdown and the screen follow; else nothing changes |
| `PowerManagerService.PowerManagerService.UpdateLightsLocked` | vimicro/VC0882/power/code/PowerManagerService.java:1814-1922 | the animation is retargeted as said, and ends on the level of the new state within the steps it is given if and only if it is on time: if it heads for that level already, its straight line has to get there in those steps; else its level must not be behind that of the old state |
| `PowerManagerService.LightsLandIff` | vimicro/VC0882/power/code/PowerManagerService.java:1814-1922 | the same for every animation and every pair of states with different screen bits |
| `PowerManagerService.BrightAtTheDimLevelIsLate` | vimicro/VC0882/power/code/PowerManagerService.java:1993-2006 | a late case: a fade from bright to dim is under way when the preferred level drops to that of dim and the screen goes bright; the slow fade goes on |
| `PowerManagerService.SettledLightsLand` | vimicro/VC0882/power/code/PowerManagerService.java:1853-1872 | an animation that has settled on the level of the old state lands on that of any new one |
| `PowerManagerService.DimToOffDuringAFadeIsLate` | vimicro/VC0882/power/code/PowerManagerService.java:1887-1895 | the late case: off from dim while the fade from bright is at 200 ends its one step at 180 |
| `PowerManagerService.LowBatteryIsNeverStored` | vimicro/VC0882/power/code/PowerManagerService.java:1672-1706 | the battery bit never enters the power state, so a state aimed at is recognised as the present one only while the battery is not low |
| `PowerManagerService.OnAfterReleaseLightsADarkScreen` | vimicro/VC0882/power/code/PowerManagerService.java:963-969 | releasing a lock taken with ON_AFTER_RELEASE turns on a dark screen that nothing has asked for |
| `PowerManagerService.HeldAtRest` | vimicro/VC0882/power/code/PowerManagerService.java:852-883 | a run that gets there: a new service in which such a lock is taken without a wakeup, and the screen stays dark |
| `PowerManagerClient.RunClients` | vimicro/VC0882/power/code/PowerManager.java:248-310 | after any balanced run of nested acquires and releases of any number of clients, interleaved with any other blocks of the service and with its own clock, battery and driver at each step, each client holds its lock iff its count is positive iff the service lists its token |
| `PowerManagerClient.Step` | vimicro/VC0882/power/code/PowerManager.java:248-310 | one step of such a run, with the nesting depth of each client as the independent reference |
| `PowerManagerClient.CountsAreExact` | vimicro/VC0882/power/code/PowerManagerService.java:852-893 | then the partial and proximity counts are the numbers of listed locks, the kernel lock is held iff there is a partial one, and a listed proximity lock implies an enabled sensor |
| `PowerManagerClient.WakeLock.Acquire` | vimicro/VC0882/power/code/PowerManager.java:248-259 | only the outermost acquire reaches the service; after an unbalanced release the next one does not |
| `PowerManagerClient.WakeLock.Release` | vimicro/VC0882/power/code/PowerManager.java:296-310 | only the matching outermost release reaches the service; under-locked exactly when the count is negative |
| `AutoBrightness.LookupIsMonotone` | vimicro/VC0882/power/code/PowerManagerService.java:2314-2328 | with sorted levels and values a higher reading never gives a lower backlight, missing values included |
| `AutoBrightness.LightSensor.GetAutoBrightnessValue` | vimicro/VC0882/power/code/PowerManagerService.java:2314-2328 | the value at the position of the first level above the reading, behind the last one if there is none; 255 where the table has no value there |
| `AutoBrightness.LightSensor.Run` | vimicro/VC0882/power/code/PowerManagerService.java:2371-2427 | any run of readings, debounced or not, and forced computations away from a dock: the backlight never goes down and is the lookup of the highest reading taken over since the last reset |
| `AutoBrightness.LightSensor.LightSensorChangedLocked` | vimicro/VC0882/power/code/PowerManagerService.java:2371-2427 | dropped while the screen is off; else the highest reading and the backlight follow |
| `AutoBrightness.LightSensor.OnSensorChanged` | vimicro/VC0882/power/code/PowerManagerService.java:2989-3016 | dropped while turning off, taken over at once or held; a queued task always carries the newest reading |
| `AutoBrightness.LightSensor.RunAutoBrightnessTask` | vimicro/VC0882/power/code/PowerManagerService.java:2344-2354 | takes over exactly the newest reading |
| `AutoBrightness.LightSensor.DockStateChanged` | vimicro/VC0882/power/code/PowerManagerService.java:2356-2369 | docking forgets all readings but the current one, which counts anew while the screen is on; a backlight that was current stays so if and only if the screen is on, there is no reading, the dock state is the same, or the same value is due then; one that was not becomes so if and only if the screen is on or it happens to be the value due then |
| `AutoBrightness.LightSensor.Handle` | vimicro/VC0882/power/code/PowerManagerService.java:2344-2427 | the same for every event: only docking in the dark makes a current backlight miss what is due, and exactly the events named by `Recovers` make up for it |
| `AutoBrightness.LightSensor.RunAll` | vimicro/VC0882/power/code/PowerManagerService.java:2344-2427 | over any run of any events from a current backlight it is current after each of them if and only if none misses what is due |
| `AutoBrightness.DockingInTheDarkIsMissed` | vimicro/VC0882/power/code/PowerManagerService.java:2356-2369 | the failing run: docked with the screen off after a high and a low reading, the backlight stays that of the high one |
| `AutoBrightness.LightSensor.SetScreenState` | vimicro/VC0882/power/code/PowerManagerService.java:1617-1633 | switching off forgets all readings |
| `AutoBrightness.HighestIsMaximum` | vimicro/VC0882/power/code/PowerManagerService.java:2384-2387 | the tracked highest reading is the maximum of those taken over |
| `DeathWatch.Context.DeathSearch` | novell/hypervisor_and_tools/console/20120523/console_get_tty/libxl.c:839-942 | the search settles some first part of the sorted watchers, and all of them if and only if it can end and the hypervisor answers up to the page on which the highest watched domid is passed |
| `DeathWatch.ReportsAllIff` | novell/hypervisor_and_tools/console/20120523/console_get_tty/libxl.c:839-942 | that closed condition is when the paging, page by page, comes to an end |
| `DeathWatch.Context.AllSettledMeans` | novell/hypervisor_and_tools/console/20120523/console_get_tty/libxl.c:839-942 | then the watchers left are exactly those whose domain is listed and not dying, each told if it has shut down; the two lists hold the original watchers; each one's events are exactly its own, in ascending domid order |
| `DeathWatch.SearchCompletesIff` | novell/hypervisor_and_tools/console/20120523/console_get_tty/libxl.c:839-942 | with any number of answered queries the search reports everything iff it ends at all and the answers reach the page on which the highest watched domid is passed |
| `DeathWatch.QueriesNeeded` | novell/hypervisor_and_tools/console/20120523/console_get_tty/libxl.c:850-935 | a search for several watchers that ends takes n queries and no fewer iff at most 199 n live domains lie below the highest watched one |
| `DeathWatch.OneQuerySufficesIff` | novell/hypervisor_and_tools/console/20120523/console_get_tty/libxl.c:850-935 | one query suffices iff nothing is alive or one of the first 200 live domains (of one, for a single watcher) reaches the highest watched one |
| `DeathWatch.SearchCanRepeatForEver` | novell/hypervisor_and_tools/console/20120523/console_get_tty/libxl.c:934-935 | the failing case: watchers {5, 10} and only domain 5 alive repeat one page for ever |
| `DeathWatch.CompletesFromPage` | novell/hypervisor_and_tools/console/20120523/console_get_tty/libxl.c:850-935 | the same seen from any page: each page but the first repeats one domain, and one that holds a single entry never advances |
| `DeathWatch.EventsAreExact` | novell/hypervisor_and_tools/console/20120523/console_get_tty/libxl.c:885-929 | each watcher gets one DEATH if its domain is dead, one SHUTDOWN if it is alive, shut down and not told before, else nothing |
| `DeathWatch.EventsAscend` | novell/hypervisor_and_tools/console/20120523/console_get_tty/libxl.c:870-930 | events come in ascending domid order |
| `DeathWatch.SearchDivides` | novell/hypervisor_and_tools/console/20120523/console_get_tty/libxl.c:870-930 | survivors and dead together are the original watchers, none lost and none twice |
| `DeathWatch.PageDecides` | novell/hypervisor_and_tools/console/20120523/console_get_tty/libxl.c:885-915 | comparing a watched domid with the first listed one not below it decides whether it is dead, shut down and why |
| `DeathWatch.Context.MergePage` | novell/hypervisor_and_tools/console/20120523/console_get_tty/libxl.c:870-931 | the inner loop over one page keeps the search state and stops only at the end of the page or of the watchers |
| `DeathWatch.Context.DomainDeathOccurred` | novell/hypervisor_and_tools/console/20120523/console_get_tty/libxl.c:819-840 | the watcher leaves the death list, heads the reported list and gets its one DEATH event |
| `DeathWatch.Context.EvEnable` | novell/hypervisor_and_tools/console/20120523/console_get_tty/libxl.c:944-974 | the new watcher goes before the first one whose domid is not lower; out of memory or without a registered watch nothing changes |
| `DeathWatch.Context.EvDisable` | novell/hypervisor_and_tools/console/20120523/console_get_tty/libxl.c:976-991 | the watcher leaves the list its flag names, and the watch is dropped with the last watched one |
| `DeathWatch.Context.Run` | novell/hypervisor_and_tools/console/20120523/console_get_tty/libxl.c:819-991 | over any run of enable, callback and disable: disjoint lists that match the flags, a sorted and watched death list, an orderly event history that only grows; the two lists hold exactly the watchers that were there or have been enabled and have not been disabled, and enabling that finds memory and a watch gives one new watcher for each call, with its domid |
| `DeathWatch.LifeOfAWatcher` | novell/hypervisor_and_tools/console/20120523/console_get_tty/libxl.c:917-928 | an orderly history gives each watcher at most one SHUTDOWN and one DEATH, in that order |
| `StreamCopy.CopyConserves` | novell/hypervisor_and_tools/libvirt/stream/stream_api__libvirt.c:253-270 | the bytes handed on are a prefix of those supplied, whatever fails; all of them iff the consumer does not fail, and then the copy completes iff the data end before the producer fails |
| `StreamCopy.ProgressCompletesIff` | novell/hypervisor_and_tools/libvirt/stream/stream_api__libvirt.c:253-270 | if every transfer moves at least one byte the copy completes exactly when the data end before the producer fails |
| `StreamCopy.ChunkIsTakenIff` | novell/hypervisor_and_tools/libvirt/stream/stream_api__libvirt.c:262-268 | a chunk is handed on completely iff the first few answers, no failure among them, add up to its length |
| `StreamCopy.SendThenReceive` | novell/hypervisor_and_tools/libvirt/stream/stream_api__libvirt.c:229-373 | sending all and receiving all over a lossless stream of any chunking yields the identical bytes; with progress on both sides all of them arrive, and the sending is complete iff the source ends well |
| `StreamCopy.RechunkedIsLossless` | novell/hypervisor_and_tools/libvirt/stream/stream_api__libvirt.c:347-364 | the transport used there loses nothing and respects the buffer size |
| `StreamCopy.Stream.SendAll` | novell/hypervisor_and_tools/libvirt/stream/stream_api__libvirt.c:229-279 | 0 iff the copy completed; the driver has the bytes handed on; it aborts iff everything was taken and the source failed, so a failure is aborted, as documented, iff the driver took everything |
| `StreamCopy.Stream.RecvAll` | novell/hypervisor_and_tools/libvirt/stream/stream_api__libvirt.c:322-373 | the same towards the sink: it aborts iff the sink did not take everything |
| `StreamCopy.Consumer.TakeAll` | novell/hypervisor_and_tools/libvirt/stream/stream_api__libvirt.c:262-268 | the inner loop hands on the buffer from an advancing offset, byte for byte |
| `StreamCopy.SendAndReceive` | novell/hypervisor_and_tools/libvirt/stream/stream_api__libvirt.c:229-373 | both methods end to end: when each of them returns 0; the sink has a prefix of what the transport was given, all of it iff receiving returns 0, and that is a prefix of the source data, all of it iff the driver takes everything; with progress on both sides all arrives |
| `StreamCopy.VerdictIs` | novell/hypervisor_and_tools/libvirt/stream/stream_api__libvirt.c:253-270 | which side fails, from replies and answers alone: the consumer iff it does not take everything, else the producer iff its data do not end well |
| `StreamCopy.ProgressTakesAll` | novell/hypervisor_and_tools/libvirt/stream/stream_api__libvirt.c:253-270 | a consumer that moves at least one byte each time and answers once for each byte takes everything |
| `StreamCopy.RefusedByteDoesNotAbortSending` | novell/hypervisor_and_tools/libvirt/stream/stream_api__libvirt.c:225-266 | the failing case of the documented abort when sending: a driver that refuses a byte |
| `StreamCopy.FailingStreamIsNotAbortedByReceiving` | novell/hypervisor_and_tools/libvirt/stream/stream_api__libvirt.c:318-351 | the failing case when receiving: a stream that fails |
| `KeywordMerge.Merge` | logAssistant/fileOutput.c:120-162 | for sorted files one forward pass over both emits exactly the segments of the exact specification, in order; without a marker there is no output |
| `KeywordMerge.FoundIsAllIff` | logAssistant/fileOutput.c:132-160 | the pass meets the obvious quadratic specification iff no segment with a keyword inside starts at a line that holds a keyword too |
| `KeywordMerge.NoKeywordOnMarker` | logAssistant/fileOutput.c:132-160 | so it does whenever no keyword lies on a marker |
| `KeywordMerge.KeywordOnMarkerHidesSegment` | logAssistant/fileOutput.c:132-160 | the failing case: a keyword on line 5 hides the one on line 7 |
| `KeywordMerge.SegmentsAreExact` | logAssistant/fileOutput.c:145-155 | the quadratic specification: exactly the adjacent pairs of markers with a keyword strictly inside |
| `KeywordMerge.SegmentsAreInOrder` | logAssistant/fileOutput.c:145-155 | each segment once and in the order of the log |
| `KeywordMerge.ExtractIsSegment` | logAssistant/fileOutput.c:148-150 | the command written prints exactly the lines of the segment, both markers included |
| `IntendedAccount.FindIntendedAccount` | vimicro/VC0882/power/code/impl/AccountUnlockScreen.java:240-274 | returns an account iff it is the only entry with the highest score and that score is positive, else none |
| `IntendedAccount.IntendedIff` | vimicro/VC0882/power/code/impl/AccountUnlockScreen.java:247-273 | the condition does not depend on the order of the accounts |
| `IntendedAccount.FindInEitherOrder` | vimicro/VC0882/power/code/impl/AccountUnlockScreen.java:240-274 | so two orders of the same accounts give the same answer |
| `IntendedAccount.ExactNameWins` | vimicro/VC0882/power/code/impl/AccountUnlockScreen.java:251-253 | a name typed in full finds its account iff it is listed once, whatever else matches |
| `IntendedAccount.WrongCaseFindsIff` | vimicro/VC0882/power/code/impl/AccountUnlockScreen.java:252-254 | a name in the wrong case finds its account iff none has just the name typed and no other one the same but for case |
| `IntendedAccount.WrongCaseBareNameFindsIff` | vimicro/VC0882/power/code/impl/AccountUnlockScreen.java:255-266 | a bare user name in the wrong case finds the account it is the local part of iff it matches no other one at all |
| `IntendedAccount.WithDomainOnlyTheName` | vimicro/VC0882/power/code/impl/AccountUnlockScreen.java:254-256 | a name typed with a domain finds nothing but that name, but for case |
| `IntendedAccount.BareNameFindsIff` | vimicro/VC0882/power/code/impl/AccountUnlockScreen.java:256-266 | a bare user name finds the account it is the local part of iff no other one has that local part or, but for case, that name |

## Left out

- Binder identity, permissions (except whether the service itself has device power), work sources, `RemoteException`, binder death, battery statistics, the event log, overlay and native calls: no effect on the state modelled.
- The values of the `OFF_BECAUSE_` reasons and `POKE_LOCK_` bits, which are defined outside the repository: reasons are 1, 2 and 3, poke bits form a set.
- Button and keyboard lights, `setBacklightBrightness` and the brightness overrides: the screen light only, whose retargeting from outside is one step (`RetargetBrightness`).
- The light-sensor part of `setScreenStateLocked`, `setPowerState` and `setKeyboardVisibility` is in `AutoBrightness`, not in the service class.
- AutoBrightness.LightSensor.LightSensorChangedLocked: has no battery-low branch, since that bit is never set in `mPowerState`.
- BrightnessRamp.RampLandsIff: exact reals instead of 32-bit floats.
- PowerManagerService.PowerManagerService.SettingsChanged: the brightness mode that the same observer applies is in `AutoBrightness.LightSensor.SetScreenBrightnessMode`.
- PowerManagerService.PowerManagerService.AcquireWakeLockLocked: a token keeps its flags; re-acquiring one with other flags is not modelled. Redundant acquires of a proximity lock, which line 858 counts again, are counted by a ghost field and shown not to occur with balanced clients.
- PowerManagerService.PowerManagerService.SetPokeLock: poke locks are removed by calls only, not by the death of their owner.
- PowerManagerService.PowerManagerService.BatteryChanged: whether the device counts as powered and whether the settings ask to stay on are parameters.
- ScreenTimeouts.OverrideIsExact: the handler may be late but does not lose tasks, and no other event intervenes.
- DeathWatch.Context.DeathSearch: the live domains do not change between the queries of one callback; an endless repetition of pages appears as the hypervisor failing after any number of answers.
- DeathWatch.Context.EvEnable: the sorted-insertion macro is not part of the repository; it is taken to insert before the first entry for which the given comparison is false. The watch itself, locking and freeing are flags or absent.
- StreamCopy.Stream.SendAll: callbacks and driver return at most what they were asked for; a driver that returns 0 for ever appears as any finite number of such answers followed by a failure. Error dispatch and the stream check are absent.
- KeywordMerge.Merge: `readLineNum` is a reader over line numbers; unsorted files get no statement beyond the empty case; the banner and separator lines of the output are absent.
- IntendedAccount.FindIntendedAccount: `equalsIgnoreCase` is equality after a character folding that is a parameter.
- The rest of `libxl.c`, both `libxl_driver.c` files, the keyguard views, `GlobalActions`, `ShortcutManager` and the layout classes: calls into other components, or user interface.
