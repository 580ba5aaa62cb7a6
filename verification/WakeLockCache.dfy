/** The cached wake-lock state.  The service keeps `wakeLockState` as a cache of what the
    listed screen locks ask for, and recomputes it in some operations only.  This module is
    the specification of that cache; PowerManagerService is proved against it. */
module WakeLockCache {
  import opened PowerBits

  /** A listed screen lock: what it asks for and whether a sleep request has deactivated it. */
  datatype Entry = Entry(minState: PowerState, activated: bool)

  datatype Cache = Cache(locks: map<Token, Entry>, wakeLockState: PowerState, userState: PowerState)
  {
    /** What the service passes on to setPowerState. */
    function Demand(): PowerState {
      wakeLockState + userState
    }
  }

  predicate Wants(e: Entry, b: PowerBit) {
    e.activated && b in e.minState
  }

  ghost predicate IsAsked(locks: map<Token, Entry>, b: PowerBit) {
    exists t :: t in locks && Wants(locks[t], b)
  }

  /** gatherState: the union over the activated screen locks. */
  ghost function Gather(locks: map<Token, Entry>): PowerState {
    set b: PowerBit | IsAsked(locks, b)
  }

  /** The list after reactivateScreenLocksLocked. */
  function Reactivated(locks: map<Token, Entry>): map<Token, Entry> {
    map t | t in locks :: locks[t].(activated := true)
  }

  /** The list after a sleep request; the proximity locks keep their state when the
      proximity sensor is what asked. */
  function Deactivated(locks: map<Token, Entry>, byProximity: bool): map<Token, Entry> {
    map t | t in locks ::
      if byProximity && KindOf(t) == ProximityScreenOff then locks[t] else locks[t].(activated := false)
  }

  function Listed(locks: map<Token, Entry>, t: Token, minState: PowerState): map<Token, Entry> {
    if t in locks then locks else locks[t := Entry(minState, true)]
  }

  ghost function AfterAcquire(c: Cache, t: Token, minState: PowerState): Cache {
    var locks := Listed(c.locks, t, minState);
    if !IsDisplay(t) then
      c.(locks := locks)
    else if FlagsOf(t).causesWakeup then
      c.(locks := Reactivated(locks), wakeLockState := Gather(Reactivated(locks)))
    else
      c.(locks := locks, wakeLockState := (c.userState + c.wakeLockState) * Gather(locks))
  }

  ghost function AfterActivity(c: Cache, userState: PowerState): Cache {
    Cache(Reactivated(c.locks), Gather(Reactivated(c.locks)), userState)
  }

  /** Removing a lock; a proximity lock leaves the cached state alone. */
  ghost function AfterRemove(c: Cache, t: Token): Cache {
    if t !in c.locks then c
    else if IsDisplay(t) then c.(locks := c.locks - {t}, wakeLockState := Gather(c.locks - {t}))
    else c.(locks := c.locks - {t})
  }

  /** A whole release: removing the lock, and the user activity that it may count as. */
  ghost function AfterRelease(c: Cache, t: Token, activity: bool): Cache {
    var removed := AfterRemove(c, t);
    if activity then AfterActivity(removed, removed.userState + SCREEN_BRIGHT) else removed
  }

  function AfterSleep(c: Cache, byProximity: bool): Cache {
    Cache(Deactivated(c.locks, byProximity), SCREEN_OFF, SCREEN_OFF)
  }

  /** Only display locks ask for anything, and the cache never claims more than they do. */
  ghost predicate Inv(c: Cache) {
    && (forall t :: t in c.locks ==> IsScreenLock(t))
    && (forall t :: t in c.locks && !IsDisplay(t) ==> c.locks[t].minState == SCREEN_OFF)
    && c.wakeLockState <= Gather(c.locks)
  }

  datatype Event =
    | Acquire(t: Token, minState: PowerState)
    | Remove(t: Token)
    | Activity(userState: PowerState)
    | Sleep(byProximity: bool)
    | Timeout(userState: PowerState)

  predicate LegalEvent(e: Event) {
    e.Acquire? ==> IsScreenLock(e.t) && (!IsDisplay(e.t) ==> e.minState == SCREEN_OFF)
  }

  ghost function Step(c: Cache, e: Event): Cache {
    match e
    case Acquire(t, m) => AfterAcquire(c, t, m)
    case Remove(t) => AfterRemove(c, t)
    case Activity(us) => AfterActivity(c, us)
    case Sleep(p) => AfterSleep(c, p)
    case Timeout(us) => c.(userState := us)
  }

  ghost function Run(c: Cache, es: seq<Event>): Cache
    decreases |es|
  {
    if es == [] then c else Run(Step(c, es[0]), es[1..])
  }

  /** The events that recompute the cache from all activated locks. */
  predicate Recomputes(e: Event) {
    match e
    case Acquire(t, _) => IsDisplay(t) && FlagsOf(t).causesWakeup
    case Remove(t) => IsDisplay(t)
    case Activity(_) => true
    case _ => false
  }

  /** Listing one more screen lock never shrinks what is gathered. */
  lemma GatherListed(locks: map<Token, Entry>, t: Token, minState: PowerState)
    ensures Gather(locks) <= Gather(Listed(locks, t, minState))
    ensures t in locks || minState == SCREEN_OFF ==> Gather(Listed(locks, t, minState)) == Gather(locks)
  {
    var more := Listed(locks, t, minState);
    forall b | b in Gather(locks) ensures b in Gather(more) {
      var u :| u in locks && Wants(locks[u], b);
      assert u in more && Wants(more[u], b);
    }
    forall b | b in Gather(more) && minState == SCREEN_OFF ensures b in Gather(locks) {
      var u :| u in more && Wants(more[u], b);
      assert u in locks && Wants(locks[u], b);
    }
  }

  lemma ListedKeepsInv(c: Cache, t: Token, minState: PowerState)
    requires Inv(c) && IsScreenLock(t) && (!IsDisplay(t) ==> minState == SCREEN_OFF)
    ensures Inv(c.(locks := Listed(c.locks, t, minState)))
  {
    GatherListed(c.locks, t, minState);
  }

  /** Removing a lock that asks for nothing changes nothing. */
  lemma GatherWithout(locks: map<Token, Entry>, t: Token)
    requires t in locks ==> locks[t].minState == SCREEN_OFF
    ensures Gather(locks - {t}) == Gather(locks)
  {
    forall b | b in Gather(locks) ensures b in Gather(locks - {t}) {
      var u :| u in locks && Wants(locks[u], b);
      assert u in locks - {t} && Wants((locks - {t})[u], b);
    }
    forall b | b in Gather(locks - {t}) ensures b in Gather(locks) {
      var u :| u in locks - {t} && Wants((locks - {t})[u], b);
      assert u in locks && Wants(locks[u], b);
    }
  }

  lemma StepKeepsInv(c: Cache, e: Event)
    requires Inv(c) && LegalEvent(e)
    ensures Inv(Step(c, e))
    ensures Recomputes(e) && (e.Remove? ==> e.t in c.locks) ==>
      Step(c, e).wakeLockState == Gather(Step(c, e).locks)
  {
    match e
    case Acquire(t, m) => GatherListed(c.locks, t, m);
    case Remove(t) =>
      if t in c.locks && !IsDisplay(t) { GatherWithout(c.locks, t); }
    case Activity(us) =>
    case Sleep(p) =>
    case Timeout(us) =>
  }

  lemma SleepKeepsInv(c: Cache, byProximity: bool)
    requires Inv(c)
    ensures Inv(AfterSleep(c, byProximity))
  {
    StepKeepsInv(c, Sleep(byProximity));
  }

  /** In every reachable state the cached bits are bits some activated lock asks for. */
  lemma {:induction false} RunKeepsInv(c: Cache, es: seq<Event>)
    requires Inv(c)
    requires forall i :: 0 <= i < |es| ==> LegalEvent(es[i])
    ensures Inv(Run(c, es))
    decreases |es|
  {
    if es != [] {
      StepKeepsInv(c, es[0]);
      RunKeepsInv(Step(c, es[0]), es[1..]);
    }
  }

  predicate QuietAcquire(e: Event) {
    e.Acquire? && IsDisplay(e.t) && !FlagsOf(e.t).causesWakeup
  }

  /** A display lock that does not cause a wakeup never changes what is asked of setPowerState. */
  lemma QuietAcquireKeepsDemand(c: Cache, e: Event)
    requires Inv(c) && QuietAcquire(e)
    ensures Step(c, e).Demand() == c.Demand()
    ensures Step(c, e).userState == c.userState
  {
    GatherListed(c.locks, e.t, e.minState);
  }

  /** After an accepted sleep request no sequence of such acquires turns any bit on. */
  lemma {:induction false} SleepHoldsAgainstQuietAcquires(c: Cache, byProximity: bool, es: seq<Event>)
    requires Inv(c)
    requires forall i :: 0 <= i < |es| ==> QuietAcquire(es[i])
    ensures Run(c, [Sleep(byProximity)] + es).Demand() == SCREEN_OFF
  {
    var asleep := Step(c, Sleep(byProximity));
    StepKeepsInv(c, Sleep(byProximity));
    assert ([Sleep(byProximity)] + es)[1..] == es;
    QuietRunKeepsDemand(asleep, es);
  }

  lemma {:induction false} QuietRunKeepsDemand(c: Cache, es: seq<Event>)
    requires Inv(c)
    requires forall i :: 0 <= i < |es| ==> QuietAcquire(es[i])
    ensures Run(c, es).Demand() == c.Demand()
    decreases |es|
  {
    if es != [] {
      QuietAcquireKeepsDemand(c, es[0]);
      StepKeepsInv(c, es[0]);
      QuietRunKeepsDemand(Step(c, es[0]), es[1..]);
    }
  }

  /** What a quiet acquire has cached, seen once the user's state is another one: a bit stays on if and only if
      it was on and a lock that counts asks for it, the acquired one included. */
  lemma QuietAcquireThenTimeoutIff(c: Cache, e: Event, us: PowerState, b: PowerBit)
    requires Inv(c) && QuietAcquire(e)
    ensures b in Run(c, [e, Timeout(us)]).Demand() <==>
      b in us || (b in c.Demand() && (IsAsked(c.locks, b) || (e.t !in c.locks && b in e.minState)))
  {
    QuietRunThenTimeoutIff(c, [e], us, b);
    assert [e] + [Timeout(us)] == [e, Timeout(us)];
    assert [e][..0] == [] && [e][0] == e;
    if e.t !in c.locks && b in e.minState { assert AsksFirst(c, [e], 0, b); }
  }

  /** The i-th of some acquires lists a new lock, and that asks for a bit. */
  predicate AsksFirst(c: Cache, es: seq<Event>, i: nat, b: PowerBit)
    requires i < |es|
  {
    && es[i].Acquire? && es[i].t !in c.locks && b in es[i].minState
    && forall j :: 0 <= j < i ==> !(es[j].Acquire? && es[j].t == es[i].t)
  }

  ghost predicate SomeAsks(c: Cache, es: seq<Event>, b: PowerBit) {
    exists i: nat :: i < |es| && AsksFirst(c, es, i, b)
  }

  /** The same for any number of quiet acquires before the timeout. */
  lemma QuietRunThenTimeoutIff(c: Cache, es: seq<Event>, us: PowerState, b: PowerBit)
    requires Inv(c) && es != []
    requires forall i :: 0 <= i < |es| ==> QuietAcquire(es[i])
    ensures b in Run(c, es + [Timeout(us)]).Demand() <==>
      b in us || (b in c.Demand() && (IsAsked(c.locks, b) || SomeAsks(c, es, b)))
  {
    RunPlus(c, es, Timeout(us));
    QuietRunCaches(c, es, b);
  }

  lemma {:induction false} RunPlus(c: Cache, es: seq<Event>, e: Event)
    ensures Run(c, es + [e]) == Step(Run(c, es), e)
    decreases |es|
  {
    if es == [] {
      assert [] + [e] == [e] && [e][1..] == [];
      assert Run(Step(c, e), []) == Step(c, e);
    } else {
      assert (es + [e])[0] == es[0] && (es + [e])[1..] == es[1..] + [e];
      RunPlus(Step(c, es[0]), es[1..], e);
    }
  }

  /** What is asked for after quiet acquires, and what of it is cached. */
  lemma {:induction false} QuietRunCaches(c: Cache, es: seq<Event>, b: PowerBit)
    requires Inv(c)
    requires forall i :: 0 <= i < |es| ==> QuietAcquire(es[i])
    ensures Run(c, es).userState == c.userState
    ensures forall t :: t in Run(c, es).locks <==> t in c.locks || Acquires(es, t)
    ensures IsAsked(Run(c, es).locks, b) <==> IsAsked(c.locks, b) || SomeAsks(c, es, b)
    ensures b in Run(c, es).wakeLockState <==>
      if es == [] then b in c.wakeLockState else b in c.Demand() && IsAsked(Run(c, es).locks, b)
    decreases |es|
  {
    if es != [] {
      var init, e := es[..|es| - 1], es[|es| - 1];
      var before := Run(c, init);
      assert es == init + [e];
      RunPlus(c, init, e);
      QuietRunCaches(c, init, b);
      QuietRunKeepsDemand(c, init);
      ListedAsks(before.locks, e.t, e.minState, b);
      FirstAsks(c, init, e, b);
      assert before.Demand() == c.Demand();
    }
  }

  predicate Acquires(es: seq<Event>, t: Token) {
    exists i :: 0 <= i < |es| && es[i].Acquire? && es[i].t == t
  }

  lemma ListedAsks(locks: map<Token, Entry>, t: Token, minState: PowerState, b: PowerBit)
    ensures IsAsked(Listed(locks, t, minState), b) <==> IsAsked(locks, b) || (t !in locks && b in minState)
  {
    var more := Listed(locks, t, minState);
    if IsAsked(locks, b) {
      var u :| u in locks && Wants(locks[u], b);
      assert u in more && Wants(more[u], b);
    }
    if t !in locks && b in minState { assert Wants(more[t], b); }
    if IsAsked(more, b) {
      var u :| u in more && Wants(more[u], b);
      assert (u == t && t !in locks) || (u in locks && Wants(locks[u], b));
    }
  }

  lemma FirstAsks(c: Cache, init: seq<Event>, e: Event, b: PowerBit)
    requires e.Acquire?
    ensures SomeAsks(c, init + [e], b) <==>
      SomeAsks(c, init, b) || (e.t !in c.locks && !Acquires(init, e.t) && b in e.minState)
    ensures forall t :: Acquires(init + [e], t) <==> Acquires(init, t) || t == e.t
  {
    var es, n := init + [e], |init|;
    assert es[n] == e;
    assert forall i: nat :: i < n ==> es[i] == init[i] && (AsksFirst(c, es, i, b) <==> AsksFirst(c, init, i, b));
    assert AsksFirst(c, es, n, b) <==> e.t !in c.locks && !Acquires(init, e.t) && b in e.minState;
    if i: nat :| i < |init| && AsksFirst(c, init, i, b) { assert AsksFirst(c, es, i, b); }
    if i: nat :| i < |es| && AsksFirst(c, es, i, b) { assert i == n || AsksFirst(c, init, i, b); }
  }

  /** What may follow a sleep request without waking the device: quiet acquires, releases that are no activity, and
      the end of the countdown. */
  predicate Still(e: Event) {
    QuietAcquire(e) || e.Remove? || e == Timeout(SCREEN_OFF)
  }

  /** After an accepted sleep request, whatever locks were held, only locks taken since can ask for anything: over
      every run of such events each bit of the demand is one that a lock acquired in that run asks for. */
  lemma SleepForgetsOldLocks(c: Cache, byProximity: bool, es: seq<Event>, b: PowerBit)
    requires Inv(c)
    requires forall i :: 0 <= i < |es| ==> Still(es[i])
    requires b in Run(c, [Sleep(byProximity)] + es).Demand()
    ensures exists i :: 0 <= i < |es| && es[i].Acquire? && b in es[i].minState
  {
    hide Inv, Still, IsAsked, Deactivated;
    var asleep := AfterSleep(c, byProximity);
    RunFrom(c, Sleep(byProximity), es);
    SleepKeepsInv(c, byProximity);
    SleptAskNothing(c, byProximity, b);
    if forall i :: 0 <= i < |es| && es[i].Acquire? ==> b !in es[i].minState {
      StillRunAsks(asleep, es, b);
    }
  }

  lemma RunFrom(c: Cache, e: Event, es: seq<Event>)
    ensures Run(c, [e] + es) == Run(Step(c, e), es)
  {
    assert ([e] + es)[1..] == es;
  }

  lemma SleptAskNothing(c: Cache, byProximity: bool, b: PowerBit)
    requires Inv(c)
    ensures !IsAsked(AfterSleep(c, byProximity).locks, b)
  {
  }

  /** In particular releases and timeouts alone leave the screen off. */
  lemma SleepHoldsAgainstReleases(c: Cache, byProximity: bool, es: seq<Event>)
    requires Inv(c)
    requires forall i :: 0 <= i < |es| ==> es[i].Remove? || es[i] == Timeout(SCREEN_OFF)
    ensures Run(c, [Sleep(byProximity)] + es).Demand() == SCREEN_OFF
  {
    var demand := Run(c, [Sleep(byProximity)] + es).Demand();
    if b :| b in demand { SleepForgetsOldLocks(c, byProximity, es, b); }
  }

  lemma {:induction false} StillRunAsks(c: Cache, es: seq<Event>, b: PowerBit)
    requires Inv(c) && c.userState == SCREEN_OFF
    requires forall i :: 0 <= i < |es| ==> Still(es[i])
    requires forall i :: 0 <= i < |es| && es[i].Acquire? ==> b !in es[i].minState
    requires !IsAsked(c.locks, b)
    ensures b !in Run(c, es).Demand()
    decreases |es|
  {
    if es == [] {
      assert b !in Gather(c.locks);
    } else {
      var e, next := es[0], Step(c, es[0]);
      StepKeepsInv(c, e);
      if e.Acquire? { ListedAsks(c.locks, e.t, e.minState, b); }
      forall u | u in next.locks ensures !Wants(next.locks[u], b) {
        if u in c.locks { assert !Wants(c.locks[u], b); }
      }
      StillRunAsks(next, es[1..], b);
    }
  }

  /** User activity, and an acquire with a wakeup, make every listed lock count again, activated or not. */
  lemma WakingCountsEveryLock(c: Cache, e: Event, b: PowerBit)
    requires e.Activity? || (e.Acquire? && IsDisplay(e.t) && FlagsOf(e.t).causesWakeup)
    ensures b in Step(c, e).wakeLockState <==>
      (exists t :: t in c.locks && b in c.locks[t].minState) || (e.Acquire? && e.t !in c.locks && b in e.minState)
    ensures Step(c, e).userState == if e.Activity? then e.userState else c.userState
  {
    var locks := Step(c, e).locks;
    if b in Step(c, e).wakeLockState {
      var t :| t in locks && Wants(locks[t], b);
      assert t in c.locks || (e.Acquire? && t == e.t);
    }
    if t :| t in c.locks && b in c.locks[t].minState { assert t in locks && Wants(locks[t], b); }
    if e.Acquire? && e.t !in c.locks && b in e.minState { assert Wants(locks[e.t], b); }
  }

  lemma ProximityAcquireIsQuiet(c: Cache, t: Token, minState: PowerState)
    requires !IsDisplay(t)
    ensures Step(c, Acquire(t, minState)).(locks := c.locks) == c
  {
  }

  /** Locks of the proximity sensor ask for nothing: taking or dropping one leaves all that is cached.  Dropping a
      display lock leaves exactly what the other locks that count ask for, and the user's state. */
  lemma RemovalIsExact(c: Cache, t: Token, b: PowerBit)
    requires Inv(c) && t in c.locks
    ensures b in Step(c, Remove(t)).wakeLockState <==>
      if IsDisplay(t) then exists u :: u in c.locks && u != t && c.locks[u].activated && b in c.locks[u].minState
      else b in c.wakeLockState
    ensures Step(c, Remove(t)).userState == c.userState
  {
    var rest := c.locks - {t};
    if u :| u in c.locks && u != t && c.locks[u].activated && b in c.locks[u].minState {
      assert u in rest && Wants(rest[u], b);
    }
    if b in Gather(rest) {
      var u :| u in rest && Wants(rest[u], b);
      assert u in c.locks && u != t;
    }
  }

  /** What a sequence of events makes of one lock, whatever the others do. */
  datatype Listing = Absent | Present(entry: Entry)

  function History(c: Cache, es: seq<Event>, t: Token): Listing {
    if es == [] then (if t in c.locks then Present(c.locks[t]) else Absent)
    else
      var was := History(c, es[..|es| - 1], t);
      match es[|es| - 1]
      case Acquire(u, m) =>
        var now := if u == t && was.Absent? then Present(Entry(m, true)) else was;
        if now.Present? && IsDisplay(u) && FlagsOf(u).causesWakeup then Present(now.entry.(activated := true)) else now
      case Remove(u) => if u == t then Absent else was
      case Activity(_) => if was.Present? then Present(was.entry.(activated := true)) else was
      case Sleep(byProximity) =>
        if was.Present? && !(byProximity && KindOf(t) == ProximityScreenOff)
        then Present(was.entry.(activated := false)) else was
      case Timeout(_) => was
  }

  /** Each lock is listed, counts and asks as its own history says: no event but a wakeup, user activity or sleep
      touches another lock, and a lock listed already keeps what it asks for. */
  lemma {:induction false} LocksFollowTheirHistory(c: Cache, es: seq<Event>, t: Token)
    ensures var locks := Run(c, es).locks;
      History(c, es, t) == if t in locks then Present(locks[t]) else Absent
    decreases |es|
  {
    if es != [] {
      var init, e := es[..|es| - 1], es[|es| - 1];
      assert es == init + [e];
      RunPlus(c, init, e);
      LocksFollowTheirHistory(c, init, t);
    }
  }

  /** A release recomputes from every activated lock, and counts as user activity if the lock was taken with
      ON_AFTER_RELEASE, so it can turn bits on.  It leaves the demand within the old one if and only if no
      other lock that counts afterwards asks for more than is on, and, as user activity, the
      screen is bright already. */
  lemma ReleaseStaysWithinDemandIff(c: Cache, t: Token, activity: bool)
    requires Inv(c) && t in c.locks
    ensures AfterRelease(c, t, activity).Demand() <= c.Demand() <==>
      && (activity ==> SCREEN_BRIGHT <= c.Demand())
      && (activity || IsDisplay(t) ==>
            forall u :: u in c.locks && u != t && (activity || c.locks[u].activated) ==>
              c.locks[u].minState <= c.Demand())
  {
    var after := AfterRelease(c, t, activity);
    forall u | u in c.locks && u != t && (activity || (IsDisplay(t) && c.locks[u].activated))
      ensures c.locks[u].minState <= after.Demand()
    {
      forall b | b in c.locks[u].minState ensures b in after.Demand() {
        assert u in after.locks && Wants(after.locks[u], b);
      }
    }
    if activity || IsDisplay(t) {
      forall b | b in after.wakeLockState
        ensures exists u :: u in c.locks && u != t && (activity || c.locks[u].activated) && b in c.locks[u].minState
      {
        var u :| u in after.locks && Wants(after.locks[u], b);
      }
    }
  }

  /** What leaves the screen asked for after a release: that it counts as user activity, the state the user
      last asked for, or another lock that counts. */
  ghost predicate ReleaseAsksForScreen(c: Cache, t: Token, activity: bool) {
    || activity
    || ScreenOn in c.userState
    || exists u :: u in c.locks && u != t && c.locks[u].activated && ScreenOn in c.locks[u].minState
  }

  lemma ReleaseAsksForScreenIff(c: Cache, t: Token, activity: bool)
    requires t in c.locks && IsDisplay(t)
    ensures ScreenOn in AfterRelease(c, t, activity).Demand() <==> ReleaseAsksForScreen(c, t, activity)
  {
    var rest := c.locks - {t};
    if u :| u in c.locks && u != t && c.locks[u].activated && ScreenOn in c.locks[u].minState {
      assert u in rest && Wants(rest[u], ScreenOn);
    }
    if !activity && ScreenOn in Gather(rest) {
      var u :| u in rest && Wants(rest[u], ScreenOn);
      assert u in c.locks && u != t;
    }
  }

  /** The second failing case: the only lock is released after a sleep request and turns the screen on, because
      it was taken with ON_AFTER_RELEASE. */
  lemma OnAfterReleaseCanWakeTheScreen()
    ensures var t := Client(0, LockFlags(ScreenDim, false, true));
      var asleep := AfterSleep(Cache(map[t := Entry(SCREEN_DIM, true)], SCREEN_DIM, SCREEN_OFF), false);
      && Inv(asleep) && asleep.Demand() == SCREEN_OFF
      && ScreenOn !in AfterRelease(asleep, t, false).Demand()
      && ScreenOn in AfterRelease(asleep, t, true).Demand()
  {
    var t := Client(0, LockFlags(ScreenDim, false, true));
    var asleep := AfterSleep(Cache(map[t := Entry(SCREEN_DIM, true)], SCREEN_DIM, SCREEN_OFF), false);
    ReleaseAsksForScreenIff(asleep, t, false);
    ReleaseAsksForScreenIff(asleep, t, true);
  }

  /** A run after which a lock is all that asks for the screen: the stay-on lock, taken while the user was active,
      once the user's state has timed out.  Dropping it leaves nothing. */
  lemma StayOnLockAlone()
    ensures var es := [Activity(SCREEN_BRIGHT), Acquire(StayOnScreenDim, SCREEN_DIM), Timeout(SCREEN_OFF)];
      var c := Run(Cache(map[], SCREEN_OFF, SCREEN_OFF), es);
      && c.Demand() == SCREEN_DIM && !ReleaseAsksForScreen(c, StayOnScreenDim, false)
  {
    var es := [Activity(SCREEN_BRIGHT), Acquire(StayOnScreenDim, SCREEN_DIM), Timeout(SCREEN_OFF)];
    var c0 := Cache(map[], SCREEN_OFF, SCREEN_OFF);
    var c1 := Step(c0, es[0]);
    assert c1.locks == map[] && c1.userState == SCREEN_BRIGHT && Gather(c1.locks) == {};
    var c2 := Step(c1, es[1]);
    assert c2.locks == map[StayOnScreenDim := Entry(SCREEN_DIM, true)];
    assert Wants(c2.locks[StayOnScreenDim], ScreenOn) && Gather(c2.locks) == SCREEN_DIM;
    var c3 := Step(c2, es[2]);
    assert es[1..][1..] == [es[2]];
    assert Run(c2, [es[2]]) == Run(c3, []) == c3;
    assert Run(c1, es[1..]) == c3;
    assert Run(c0, es) == c3;
  }

  /** The failing case is real: sleep, a quiet acquire, then the release of an older lock
      turns the screen on although nothing asked for a wakeup. */
  lemma ReleaseCanWakeTheScreen()
    ensures exists c: Cache, held: Token, late: Token ::
      && Inv(c) && held in c.locks && IsDisplay(held)
      && QuietAcquire(Acquire(late, SCREEN_BRIGHT))
      && Run(c, [Sleep(false), Acquire(late, SCREEN_BRIGHT)]).Demand() == SCREEN_OFF
      && ScreenOn in Run(c, [Sleep(false), Acquire(late, SCREEN_BRIGHT), Remove(held)]).Demand()
  {
    var held := Client(0, LockFlags(ScreenDim, false, false));
    var late := Client(1, LockFlags(BrightScreen, false, false));
    var c := Cache(map[held := Entry(SCREEN_DIM, true)], SCREEN_OFF, SCREEN_OFF);
    var quiet := [Acquire(late, SCREEN_BRIGHT)];
    SleepHoldsAgainstQuietAcquires(c, false, quiet);
    assert [Sleep(false)] + quiet == [Sleep(false), Acquire(late, SCREEN_BRIGHT)];
    var c1 := Step(c, Sleep(false));
    var c2 := Step(c1, Acquire(late, SCREEN_BRIGHT));
    var c3 := Step(c2, Remove(held));
    assert late in c3.locks && Wants(c3.locks[late], ScreenOn);
    var es := [Sleep(false), Acquire(late, SCREEN_BRIGHT), Remove(held)];
    assert es[1..] == [Acquire(late, SCREEN_BRIGHT), Remove(held)];
    assert es[1..][1..] == [Remove(held)];
    assert Run(c3, []) == c3;
    assert Run(c2, [Remove(held)]) == c3;
    assert Run(c1, es[1..]) == c3;
    assert Run(c, es) == c3;
  }
}
