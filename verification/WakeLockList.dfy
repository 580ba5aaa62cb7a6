/** The service's list of wake locks (LockList), with its loops proved against the map view that
    WakeLockCache reasons about. */
module WakeLockList {
  import opened PowerBits
  import C = WakeLockCache

  datatype WakeLock = WakeLock(token: Token, minState: PowerState, activated: bool)

  ghost predicate Distinct(ls: seq<WakeLock>) {
    forall i, j :: 0 <= i < j < |ls| ==> ls[i].token != ls[j].token
  }

  /** Every listed lock has a legal kind, and only display locks ask for anything. */
  ghost predicate WellKinded(ls: seq<WakeLock>) {
    forall i :: 0 <= i < |ls| ==>
      KindOf(ls[i].token) != BadKind && (!IsDisplay(ls[i].token) ==> ls[i].minState == SCREEN_OFF)
  }

  ghost function TokensOf(ls: seq<WakeLock>): set<Token> {
    set i | 0 <= i < |ls| :: ls[i].token
  }

  /** The screen locks of the list, by token. */
  ghost function ScreensOf(ls: seq<WakeLock>): map<Token, C.Entry>
    requires Distinct(ls)
  {
    map i | 0 <= i < |ls| && IsScreenLock(ls[i].token) :: ls[i].token := C.Entry(ls[i].minState, ls[i].activated)
  }

  ghost function OfKind(ts: set<Token>, k: LockKind): set<Token> {
    set t | t in ts && KindOf(t) == k
  }

  /** How many of a set of locks are of one kind, when one is listed or removed. */
  lemma OfKindPlus(ts: set<Token>, t: Token, k: LockKind)
    requires t !in ts
    ensures |OfKind(ts + {t}, k)| == |OfKind(ts, k)| + (if KindOf(t) == k then 1 else 0)
  {
    assert OfKind(ts + {t}, k) == if KindOf(t) == k then OfKind(ts, k) + {t} else OfKind(ts, k);
  }

  lemma OfKindMinus(ts: set<Token>, t: Token, k: LockKind)
    requires t in ts
    ensures |OfKind(ts - {t}, k)| == |OfKind(ts, k)| - (if KindOf(t) == k then 1 else 0)
  {
    OfKindPlus(ts - {t}, t, k);
    assert ts - {t} + {t} == ts;
  }

  lemma SameOfKind(a: set<Token>, b: set<Token>, k: LockKind)
    requires forall t :: KindOf(t) == k ==> (t in a <==> t in b)
    ensures OfKind(a, k) == OfKind(b, k)
  {
  }

  function Woken(wl: WakeLock): WakeLock {
    if IsScreenLock(wl.token) then wl.(activated := true) else wl
  }

  function Slept(wl: WakeLock, byProximity: bool): WakeLock {
    if !IsScreenLock(wl.token) || (byProximity && KindOf(wl.token) == ProximityScreenOff) then wl
    else wl.(activated := false)
  }

  lemma ScreenEntry(ls: seq<WakeLock>, i: nat)
    requires Distinct(ls) && i < |ls| && IsScreenLock(ls[i].token)
    ensures ls[i].token in ScreensOf(ls)
    ensures ScreensOf(ls)[ls[i].token] == C.Entry(ls[i].minState, ls[i].activated)
  {
  }

  lemma ScreenIndex(ls: seq<WakeLock>, t: Token) returns (i: nat)
    requires Distinct(ls) && t in ScreensOf(ls)
    ensures i < |ls| && ls[i].token == t && IsScreenLock(t)
    ensures ScreensOf(ls)[t] == C.Entry(ls[i].minState, ls[i].activated)
  {
    i :| 0 <= i < |ls| && ls[i].token == t;
  }

  /** The list itself; tokens and screens are its abstract views. */
  class LockList {
    var entries: seq<WakeLock>
    ghost var tokens: set<Token>
    ghost var screens: map<Token, C.Entry>

    ghost predicate Valid()
      reads this
    {
      && Distinct(entries) && WellKinded(entries)
      && tokens == TokensOf(entries)
      && screens == ScreensOf(entries)
    }

    constructor ()
      ensures Valid() && entries == [] && tokens == {} && screens == map[]
    {
      entries, tokens, screens := [], {}, map[];
    }

    method GetIndex(t: Token) returns (index: int)
      requires Valid()
      ensures -1 <= index < |entries|
      ensures index >= 0 ==> entries[index].token == t
      ensures index < 0 <==> t !in tokens
      ensures index >= 0 ==> t in TokensOf(entries)
    {
      for i := 0 to |entries|
        invariant forall j :: 0 <= j < i ==> entries[j].token != t
      {
        if entries[i].token == t {
          return i;
        }
      }
      return -1;
    }

    /** addLock: lists a lock that is not listed yet. */
    method AddLock(wl: WakeLock)
      requires Valid() && WellKinded([wl]) && wl.activated
      modifies this
      ensures Valid()
      ensures tokens == old(tokens) + {wl.token}
      ensures screens ==
        if IsScreenLock(wl.token) then C.Listed(old(screens), wl.token, wl.minState) else old(screens)
    {
      var index := GetIndex(wl.token);
      if index < 0 {
        assert WellKinded([wl]) && [wl][0] == wl;
        ghost var was := entries;
        entries := entries + [wl];
        tokens, screens := TokensOf(entries), ScreensOf(entries);
        assert forall i :: 0 <= i < |was| ==> entries[i] == was[i];
        assert entries[|was|] == wl;
        forall t ensures t in tokens <==> t in TokensOf(was) + {wl.token} {
          if t in TokensOf(was) {
            var i :| 0 <= i < |was| && was[i].token == t;
            assert entries[i].token == t;
          }
        }
        ScreensAppended(was, wl);
      } else {
        ScreenEntryOf(wl.token, index);
      }
    }

    lemma ScreenEntryOf(t: Token, i: int)
      requires Valid() && 0 <= i < |entries| && entries[i].token == t
      ensures t in tokens
      ensures t in screens <==> IsScreenLock(t)
      ensures IsScreenLock(t) ==> screens[t] == C.Entry(entries[i].minState, entries[i].activated)
    {
    }

    lemma ListedScreens(t: Token)
      requires Valid() && IsScreenLock(t)
      ensures t in screens <==> t in tokens
    {
    }

    /** removeLock: returns the removed lock, if it was listed. */
    method RemoveLock(t: Token) returns (found: bool)
      requires Valid()
      modifies this
      ensures Valid()
      ensures found <==> t in old(tokens)
      ensures tokens == old(tokens) - {t}
      ensures screens == old(screens) - {t}
      ensures !IsScreenLock(t) || !found ==> screens == old(screens)
    {
      hide TokensOf, ScreensOf, Distinct, WellKinded;
      var index := GetIndex(t);
      found := index >= 0;
      NotAScreen(entries, t);
      if found {
        ListWithout(entries, index);
        entries := entries[..index] + entries[index + 1..];
        tokens, screens := TokensOf(entries), ScreensOf(entries);
        assert tokens == old(tokens) - {t} && screens == old(screens) - {t};
      } else {
        assert tokens == tokens - {t} && screens == screens - {t};
      }
    }

    /** gatherState. */
    method GatherState() returns (result: PowerState)
      requires Valid()
      ensures result == C.Gather(screens)
    {
      result := SCREEN_OFF;
      for i := 0 to |entries|
        invariant forall b :: b in result ==> C.IsAsked(screens, b)
        invariant forall j :: 0 <= j < i && entries[j].activated && IsScreenLock(entries[j].token) ==>
          entries[j].minState <= result
      {
        var wl := entries[i];
        if wl.activated && IsScreenLock(wl.token) {
          ScreenEntry(entries, i);
          assert forall b :: b in wl.minState ==> C.Wants(screens[wl.token], b);
          result := result + wl.minState;
        }
      }
      forall b | C.IsAsked(screens, b) ensures b in result {
        var t :| t in screens && C.Wants(screens[t], b);
      }
    }

    /** reactivateScreenLocksLocked. */
    method ReactivateScreenLocks() returns (result: PowerState)
      requires Valid()
      modifies `entries, `screens
      ensures Valid()
      ensures tokens == old(tokens)
      ensures screens == C.Reactivated(old(screens))
      ensures result == C.Gather(screens)
    {
      ghost var was := entries;
      result := SCREEN_OFF;
      for i := 0 to |entries|
        invariant |entries| == |was| && tokens == old(tokens)
        invariant forall j :: 0 <= j < i ==> entries[j] == Woken(was[j])
        invariant forall j :: i <= j < |was| ==> entries[j] == was[j]
        invariant result == MinStates(was[..i])
      {
        assert was[..i + 1] == was[..i] + [was[i]];
        if IsScreenLock(entries[i].token) {
          result := result + entries[i].minState;
          entries := entries[i := entries[i].(activated := true)];
        }
      }
      assert was[..|was|] == was;
      AllWoken(was, entries);
      screens := ScreensOf(entries);
      MinStatesGather(was, entries);
    }

    /** The loop of goToSleepLocked: deactivate the screen locks, except the proximity locks when the
        proximity sensor is the reason; says whether there is such a lock. */
    method DeactivateForSleep(byProximity: bool) returns (proxLock: bool)
      requires Valid()
      modifies `entries, `screens
      ensures Valid()
      ensures tokens == old(tokens)
      ensures screens == C.Deactivated(old(screens), byProximity)
      ensures proxLock <==> byProximity && OfKind(tokens, ProximityScreenOff) != {}
    {
      ghost var was := entries;
      proxLock := false;
      for i := 0 to |entries|
        invariant |entries| == |was| && tokens == old(tokens)
        invariant forall j :: 0 <= j < i ==> entries[j] == Slept(was[j], byProximity)
        invariant forall j :: i <= j < |was| ==> entries[j] == was[j]
        invariant proxLock <==> byProximity && exists j :: 0 <= j < i && KindOf(was[j].token) == ProximityScreenOff
      {
        var t := entries[i].token;
        if IsScreenLock(t) {
          if KindOf(t) == ProximityScreenOff && byProximity {
            proxLock := true;
          } else {
            entries := entries[i := entries[i].(activated := false)];
          }
        }
      }
      AllSlept(was, entries, byProximity);
      screens := ScreensOf(entries);
      ProximityListed(was);
    }
  }

  /** What reactivateScreenLocksLocked accumulates. */
  function MinStates(ls: seq<WakeLock>): PowerState {
    if ls == [] then SCREEN_OFF
    else
      var wl := ls[|ls| - 1];
      MinStates(ls[..|ls| - 1]) + (if IsScreenLock(wl.token) then wl.minState else SCREEN_OFF)
  }

  lemma {:induction false} InMinStates(ls: seq<WakeLock>, b: PowerBit)
    ensures b in MinStates(ls) <==> exists i :: 0 <= i < |ls| && IsScreenLock(ls[i].token) && b in ls[i].minState
    decreases |ls|
  {
    if ls != [] {
      var front := ls[..|ls| - 1];
      InMinStates(front, b);
      if i :| 0 <= i < |front| && IsScreenLock(front[i].token) && b in front[i].minState {
        assert ls[i] == front[i];
      }
      if i :| 0 <= i < |ls| && IsScreenLock(ls[i].token) && b in ls[i].minState {
        assert i < |front| ==> front[i] == ls[i];
      }
    }
  }

  /** Changing only which locks are activated keeps the tokens and kinds. */
  lemma OnlyActivation(was: seq<WakeLock>, now: seq<WakeLock>)
    requires |now| == |was| && Distinct(was) && WellKinded(was)
    requires forall j :: 0 <= j < |was| ==> now[j].token == was[j].token && now[j].minState == was[j].minState
    ensures Distinct(now) && WellKinded(now) && TokensOf(now) == TokensOf(was)
    ensures ScreensOf(now).Keys == ScreensOf(was).Keys
  {
    hide TokensOf, ScreensOf;
    SameTokens(was, now);
    SameScreens(was, now);
  }

  lemma AllWoken(was: seq<WakeLock>, now: seq<WakeLock>)
    requires |now| == |was| && forall j :: 0 <= j < |was| ==> now[j] == Woken(was[j])
    requires Distinct(was) && WellKinded(was)
    ensures Distinct(now) && WellKinded(now) && TokensOf(now) == TokensOf(was)
    ensures ScreensOf(now) == C.Reactivated(ScreensOf(was))
  {
    hide Distinct, WellKinded, TokensOf, ScreensOf;
    OnlyActivation(was, now);
    forall t | t in ScreensOf(now) ensures ScreensOf(now)[t] == C.Reactivated(ScreensOf(was))[t] {
      var i := ScreenIndex(now, t);
      ScreenEntry(was, i);
    }
  }

  lemma AllSlept(was: seq<WakeLock>, now: seq<WakeLock>, byProximity: bool)
    requires |now| == |was| && forall j :: 0 <= j < |was| ==> now[j] == Slept(was[j], byProximity)
    requires Distinct(was) && WellKinded(was)
    ensures Distinct(now) && WellKinded(now) && TokensOf(now) == TokensOf(was)
    ensures ScreensOf(now) == C.Deactivated(ScreensOf(was), byProximity)
  {
    hide Distinct, WellKinded, TokensOf, ScreensOf;
    OnlyActivation(was, now);
    forall t | t in ScreensOf(now) ensures ScreensOf(now)[t] == C.Deactivated(ScreensOf(was), byProximity)[t] {
      var i := ScreenIndex(now, t);
      ScreenEntry(was, i);
    }
  }

  lemma MinStatesGather(was: seq<WakeLock>, now: seq<WakeLock>)
    requires |now| == |was| && forall j :: 0 <= j < |was| ==> now[j] == Woken(was[j])
    requires Distinct(was) && Distinct(now)
    ensures MinStates(was) == C.Gather(ScreensOf(now))
  {
    forall b ensures b in MinStates(was) <==> C.IsAsked(ScreensOf(now), b) {
      InMinStates(was, b);
      if i :| 0 <= i < |was| && IsScreenLock(was[i].token) && b in was[i].minState {
        ScreenEntry(now, i);
        assert C.Wants(ScreensOf(now)[now[i].token], b);
      }
      if t :| t in ScreensOf(now) && C.Wants(ScreensOf(now)[t], b) {
        var i := ScreenIndex(now, t);
        assert b in was[i].minState;
      }
    }
  }

  lemma ProximityListed(ls: seq<WakeLock>)
    ensures OfKind(TokensOf(ls), ProximityScreenOff) != {} <==>
      exists j :: 0 <= j < |ls| && KindOf(ls[j].token) == ProximityScreenOff
  {
    if j :| 0 <= j < |ls| && KindOf(ls[j].token) == ProximityScreenOff {
      assert ls[j].token in OfKind(TokensOf(ls), ProximityScreenOff);
    }
    if t :| t in OfKind(TokensOf(ls), ProximityScreenOff) {
      var i :| 0 <= i < |ls| && ls[i].token == t;
    }
  }

  lemma NotAScreen(ls: seq<WakeLock>, t: Token)
    requires Distinct(ls)
    ensures !IsScreenLock(t) || t !in TokensOf(ls) ==> t !in ScreensOf(ls)
  {
  }

  lemma SameTokens(a: seq<WakeLock>, b: seq<WakeLock>)
    requires |a| == |b| && forall i :: 0 <= i < |a| ==> a[i].token == b[i].token
    ensures TokensOf(a) == TokensOf(b)
  {
    forall t ensures t in TokensOf(a) <==> t in TokensOf(b) {
      if t in TokensOf(a) {
        var i :| 0 <= i < |a| && a[i].token == t;
        assert b[i].token == t;
      }
    }
  }

  lemma ScreensAppended(ls: seq<WakeLock>, wl: WakeLock)
    requires Distinct(ls) && Distinct(ls + [wl]) && wl.activated && wl.token !in TokensOf(ls)
    ensures ScreensOf(ls + [wl]) ==
      if IsScreenLock(wl.token) then C.Listed(ScreensOf(ls), wl.token, wl.minState) else ScreensOf(ls)
  {
    NotAScreen(ls, wl.token);
    hide Distinct, TokensOf, ScreensOf;
    var more := ls + [wl];
    assert more[|ls|] == wl;
    assert forall i :: 0 <= i < |ls| ==> more[i] == ls[i];
    forall t | t in ScreensOf(ls) ensures t in ScreensOf(more) && ScreensOf(more)[t] == ScreensOf(ls)[t] {
      var i := ScreenIndex(ls, t);
      ScreenEntry(more, i);
    }
    if IsScreenLock(wl.token) {
      ScreenEntry(more, |ls|);
    }
    forall t | t in ScreensOf(more) && t != wl.token ensures t in ScreensOf(ls) {
      var i := ScreenIndex(more, t);
      ScreenEntry(ls, i);
    }
  }

  lemma SameScreens(a: seq<WakeLock>, b: seq<WakeLock>)
    requires |a| == |b| && forall i :: 0 <= i < |a| ==> a[i].token == b[i].token
    requires Distinct(a)
    ensures Distinct(b) && ScreensOf(a).Keys == ScreensOf(b).Keys
  {
    forall i, j | 0 <= i < j < |b| ensures b[i].token != b[j].token {
      assert a[i].token != a[j].token;
    }
    forall t ensures t in ScreensOf(a) <==> t in ScreensOf(b) {
      if t in ScreensOf(a) {
        var i :| 0 <= i < |a| && a[i].token == t;
        ScreenEntry(b, i);
      }
      if t in ScreensOf(b) {
        var i :| 0 <= i < |b| && b[i].token == t;
        ScreenEntry(a, i);
      }
    }
  }

  /** Where an element of the list without position i comes from. */
  function Source(i: nat, j: nat): nat {
    if j < i then j else j + 1
  }

  lemma WithoutIs(ls: seq<WakeLock>, i: nat, rest: seq<WakeLock>)
    requires i < |ls| && rest == ls[..i] + ls[i + 1..]
    ensures |rest| == |ls| - 1
    ensures forall j :: 0 <= j < |rest| ==> rest[j] == ls[Source(i, j)]
  {
  }

  lemma TokensWithout(ls: seq<WakeLock>, i: nat, rest: seq<WakeLock>)
    requires Distinct(ls) && WellKinded(ls) && i < |ls| && |rest| == |ls| - 1
    requires forall j :: 0 <= j < |rest| ==> rest[j] == ls[Source(i, j)]
    ensures Distinct(rest) && WellKinded(rest)
    ensures TokensOf(rest) == TokensOf(ls) - {ls[i].token}
  {
    forall j, k | 0 <= j < k < |rest| ensures rest[j].token != rest[k].token {
      assert ls[Source(i, j)].token != ls[Source(i, k)].token;
    }
    forall t ensures t in TokensOf(rest) <==> t in TokensOf(ls) - {ls[i].token} {
      if t in TokensOf(ls) - {ls[i].token} {
        var j :| 0 <= j < |ls| && ls[j].token == t;
        assert rest[if j < i then j else j - 1] == ls[j];
      }
      if t in TokensOf(rest) {
        var j :| 0 <= j < |rest| && rest[j].token == t;
        assert ls[Source(i, j)].token == t;
      }
    }
  }

  lemma DistinctIndices(ls: seq<WakeLock>, i: nat)
    requires Distinct(ls) && i < |ls|
    ensures forall j :: 0 <= j < |ls| && j != i ==> ls[j].token != ls[i].token
  {
  }

  lemma ScreenStays(ls: seq<WakeLock>, i: nat, rest: seq<WakeLock>, t: Token)
    requires Distinct(ls) && Distinct(rest) && i < |ls| && |rest| == |ls| - 1
    requires forall j :: 0 <= j < |rest| ==> rest[j] == ls[Source(i, j)]
    requires t in ScreensOf(rest)
    ensures t in ScreensOf(ls) && t != ls[i].token && ScreensOf(ls)[t] == ScreensOf(rest)[t]
  {
    DistinctIndices(ls, i);
    hide Distinct, ScreensOf;
    var j := ScreenIndex(rest, t);
    ScreenEntry(ls, Source(i, j));
  }

  lemma ScreensWithout(ls: seq<WakeLock>, i: nat, rest: seq<WakeLock>)
    requires Distinct(ls) && Distinct(rest) && i < |ls| && |rest| == |ls| - 1
    requires forall j :: 0 <= j < |rest| ==> rest[j] == ls[Source(i, j)]
    ensures ScreensOf(rest) == ScreensOf(ls) - {ls[i].token}
  {
    hide Distinct, ScreensOf;
    forall t | t in ScreensOf(rest)
      ensures t in ScreensOf(ls) && t != ls[i].token && ScreensOf(ls)[t] == ScreensOf(rest)[t]
    {
      ScreenStays(ls, i, rest, t);
    }
    forall t | t in ScreensOf(ls) && t != ls[i].token ensures t in ScreensOf(rest) {
      var j := ScreenIndex(ls, t);
      var k := if j < i then j else j - 1;
      assert rest[k] == ls[j];
      ScreenEntry(rest, k);
    }
  }

  lemma ListWithout(ls: seq<WakeLock>, i: nat)
    requires Distinct(ls) && WellKinded(ls) && i < |ls|
    ensures var rest := ls[..i] + ls[i + 1..];
      && Distinct(rest) && WellKinded(rest)
      && TokensOf(rest) == TokensOf(ls) - {ls[i].token}
      && ScreensOf(rest) == ScreensOf(ls) - {ls[i].token}
  {
    var rest := ls[..i] + ls[i + 1..];
    WithoutIs(ls, i, rest);
    TokensWithout(ls, i, rest);
    ScreensWithout(ls, i, rest);
  }
}
