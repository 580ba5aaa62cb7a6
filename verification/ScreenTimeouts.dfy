/** The countdown from bright to dim to off, and the poke locks that choose its delays.
    Times and delays are in milliseconds. */
module ScreenTimeouts {

  const MEDIUM_KEYLIGHT_DELAY := 15000
  const LONG_KEYLIGHT_DELAY := 6000
  const LONG_DIM_TIME := 7000
  const INT_MAX := 0x7FFF_FFFF

  predicate Int32(x: int) {
    -INT_MAX - 1 <= x <= INT_MAX
  }

  /** keylight: time spent bright; dim: time spent dim, negative when that stage is skipped;
      off: time before the screen goes off. */
  datatype Delays = Delays(keylight: int, dim: int, off: int)

  /** The state a firing of the timeout task will set; Cancelled stands for -1. */
  datatype Stage = Cancelled | Off | Dim | Bright

  datatype Timer = Timer(nextState: Stage, remaining: int, posted: bool, when: int)

  /** What setTimeoutLocked schedules once the device has booted. */
  function Scheduled(d: Delays, now: int, override: int, next: Stage): Timer {
    if override <= 0 then
      var when := match next
        case Bright => now + d.keylight
        case Dim => if d.dim >= 0 then now + d.dim else now + d.off
        case Off => now + d.off
        case Cancelled => now;
      Timer(next, -1, true, when)
    else if override <= d.off then
      Timer(Off, 0, true, now + override)
    else
      var beforeOff := override - d.off;
      if 0 <= d.dim && beforeOff <= d.dim then
        Timer(Dim, d.off, true, now + beforeOff)
      else
        var beforeDim := if d.dim >= 0 then beforeOff - d.dim else beforeOff;
        Timer(Bright, override - beforeDim, true, now + beforeDim)
  }

  /** The timer after its task has run at time now. */
  function Fired(d: Delays, t: Timer, now: int): Timer {
    match t.nextState
    case Bright => Scheduled(d, now, t.remaining, if d.dim >= 0 then Dim else Off)
    case Dim => Scheduled(d, now, t.remaining, Off)
    case _ => t.(posted := false)
  }

  datatype Firing = Firing(stage: Stage, time: int)

  /** The firings of an undisturbed countdown, when the handler runs the k-th task late[k]
      milliseconds after the time it was posted for. */
  function Chain(d: Delays, t: Timer, late: seq<nat>): seq<Firing>
    decreases |late|
  {
    if !t.posted || late == [] then []
    else
      var now := t.when + late[0];
      [Firing(t.nextState, now)] + Chain(d, Fired(d, t, now), late[1..])
  }

  function Sum(s: seq<nat>): nat {
    if s == [] then 0 else s[0] + Sum(s[1..])
  }

  function Rank(s: Stage): nat {
    match s
    case Bright => 3
    case Dim => 2
    case Off => 1
    case Cancelled => 0
  }

  /** Fired exactly on time, the timer reaches Off at the given time, stepping only downward. */
  predicate Leads(d: Delays, t: Timer, time: int)
    decreases Rank(t.nextState)
  {
    && t.posted
    && t.nextState != Cancelled
    && if t.nextState == Off then t.when == time
       else
         var next := Fired(d, t, t.when);
         Rank(next.nextState) < Rank(t.nextState) && Leads(d, next, time)
  }

  /** The chain ends the countdown: it reaches Off at the given time, plus whatever time its
      firings were late, within three firings, and only ever steps downward. */
  ghost predicate EndsOffAt(chain: seq<Firing>, late: seq<nat>, time: int) {
    && 1 <= |chain| <= 3 && |chain| <= |late|
    && chain[|chain| - 1] == Firing(Off, time + Sum(late[..|chain|]))
    && (forall i :: 0 <= i < |chain| ==> chain[i].stage != Cancelled)
    && (forall i, j :: 0 <= i < j < |chain| ==> Rank(chain[i].stage) > Rank(chain[j].stage))
  }

  lemma FiredLater(d: Delays, t: Timer, x: nat)
    ensures var on := Fired(d, t, t.when);
      t.nextState in {Bright, Dim} ==> Fired(d, t, t.when + x) == on.(when := on.when + x)
  {
  }

  lemma {:induction false} LeadsLater(d: Delays, t: Timer, time: int, x: nat)
    requires Leads(d, t, time)
    ensures Leads(d, t.(when := t.when + x), time + x)
    decreases Rank(t.nextState)
  {
    if t.nextState != Off {
      FiredLater(d, t, x);
      LeadsLater(d, Fired(d, t, t.when), time, x);
    }
  }

  lemma ChainStep(d: Delays, t: Timer, late: seq<nat>)
    requires t.posted && late != []
    ensures var now := t.when + late[0];
      Chain(d, t, late) == [Firing(t.nextState, now)] + Chain(d, Fired(d, t, now), late[1..])
  {
  }

  lemma ChainEnds(d: Delays, t: Timer, late: seq<nat>)
    requires t.posted && late != [] && t.nextState == Off
    ensures Chain(d, t, late) == [Firing(Off, t.when + late[0])]
  {
    assert Chain(d, Fired(d, t, t.when + late[0]), late[1..]) == [];
  }

  lemma {:induction false} LeadsToOff(d: Delays, t: Timer, late: seq<nat>, time: int)
    requires Leads(d, t, time) && |late| >= Rank(t.nextState)
    ensures var chain := Chain(d, t, late);
      EndsOffAt(chain, late, time) && |chain| <= Rank(t.nextState) && chain[0].stage == t.nextState
    decreases Rank(t.nextState)
  {
    hide Fired, Leads, EndsOffAt, Chain;
    LeadsSays(d, t, time);
    if t.nextState == Off {
      OffEnds(d, t, late);
    } else {
      var now := t.when + late[0];
      var next := Fired(d, t, now);
      LeadsOn(d, t, time, late[0]);
      ChainStep(d, t, late);
      LeadsToOff(d, next, late[1..], time + late[0]);
      EndsOffAfter(Firing(t.nextState, now), Chain(d, next, late[1..]), late, time);
    }
  }

  lemma LeadsSays(d: Delays, t: Timer, time: int)
    requires Leads(d, t, time)
    ensures t.posted && t.nextState != Cancelled && (t.nextState == Off ==> t.when == time)
  {
  }

  lemma OffEnds(d: Delays, t: Timer, late: seq<nat>)
    requires t.posted && t.nextState == Off && late != []
    ensures EndsOffAt(Chain(d, t, late), late, t.when) && Chain(d, t, late) == [Firing(Off, t.when + late[0])]
  {
    ChainEnds(d, t, late);
    assert late[..1][1..] == [];
    assert Sum(late[..1]) == late[0];
  }

  /** A firing in front of a chain that ends off. */
  lemma EndsOffAfter(first: Firing, rest: seq<Firing>, late: seq<nat>, time: int)
    requires late != [] && EndsOffAt(rest, late[1..], time + late[0])
    requires |rest| <= 2 && first.stage != Cancelled && Rank(first.stage) > Rank(rest[0].stage)
    ensures EndsOffAt([first] + rest, late, time)
  {
    var all := [first] + rest;
    assert late[..|all|][1..] == late[1..][..|rest|];
    forall i, j | 0 <= i < j < |all| ensures Rank(all[i].stage) > Rank(all[j].stage) {
      assert all[j] == rest[j - 1];
      if i > 0 { assert all[i] == rest[i - 1]; }
    }
  }

  lemma OverrideLeads(d: Delays, start: int, override: int, next: Stage)
    requires override > 0 && d.off >= 0
    ensures Leads(d, Scheduled(d, start, override, next), start + override)
  {
    var t := Scheduled(d, start, override, next);
    if t.nextState != Off {
      var t1 := Fired(d, t, t.when);
      if t1.nextState != Off {
        assert Leads(d, Fired(d, t1, t1.when), start + override);
      }
      assert Leads(d, t1, start + override);
    }
  }

  /** A screen-off override of N milliseconds is exact: whatever the configured delays, the screen
      goes off N after the start, no matter in which stage the countdown has to be entered. */
  lemma {:induction false} OverrideIsExact(d: Delays, start: int, override: int, next: Stage, late: seq<nat>)
    requires override > 0 && d.off >= 0 && |late| >= 3
    ensures EndsOffAt(Chain(d, Scheduled(d, start, override, next), late), late, start + override)
  {
    OverrideLeads(d, start, override, next);
    LeadsToOff(d, Scheduled(d, start, override, next), late, start + override);
  }

  /** A scheduled countdown leads to off in the time it was asked for. */
  lemma ScheduledLeads(d: Delays, start: int, override: int)
    requires d.off >= 0
    ensures Leads(d, Scheduled(d, start, override, Bright), start + if override > 0 then override else Total(d))
  {
    if override > 0 { OverrideLeads(d, start, override, Bright); } else { CountdownLeads(d, start, override); }
  }

  /** A late firing: the rest of the countdown is as late. */
  lemma LeadsOn(d: Delays, t: Timer, time: int, late: nat)
    requires Leads(d, t, time)
    ensures t.nextState == Off ==> t.when + late == time + late && !Fired(d, t, t.when + late).posted
    ensures t.nextState != Off ==>
      var next := Fired(d, t, t.when + late);
      Leads(d, next, time + late) && Rank(next.nextState) < Rank(t.nextState)
  {
    if t.nextState != Off {
      FiredLater(d, t, late);
      LeadsLater(d, Fired(d, t, t.when), time, late);
    }
  }

  /** The time an undisturbed countdown takes from user activity to off. */
  function Total(d: Delays): int {
    d.keylight + (if d.dim >= 0 then d.dim else 0) + d.off
  }

  lemma CountdownLeads(d: Delays, start: int, override: int)
    requires override <= 0
    ensures Leads(d, Scheduled(d, start, override, Bright), start + Total(d))
  {
    var t := Scheduled(d, start, override, Bright);
    var t1 := Fired(d, t, t.when);
    if d.dim >= 0 {
      assert Leads(d, Fired(d, t1, t1.when), start + Total(d));
    }
    assert Leads(d, t1, start + Total(d));
  }

  lemma {:induction false} CountdownTakesTotal(d: Delays, start: int, override: int, late: seq<nat>)
    requires override <= 0 && |late| >= 3
    ensures EndsOffAt(Chain(d, Scheduled(d, start, override, Bright), late), late, start + Total(d))
  {
    CountdownLeads(d, start, override);
    LeadsToOff(d, Scheduled(d, start, override, Bright), late, start + Total(d));
  }

  datatype PokeBit = IgnoreCheek | IgnoreTouchAndCheek | ShortTimeout | MediumTimeout

  const TIMEOUT_MASK: set<PokeBit> := {ShortTimeout, MediumTimeout}

  datatype PokeLock = PokeLock(pokey: set<PokeBit>, awakeOnSet: bool)

  datatype PokeToken = NullToken | Binder(id: nat)

  datatype PokeResult = PokeDone | PokeIgnored | PokeIllegal

  datatype Settings = Settings(shortKeylight: int, screenOffTimeout: int, maximumTimeout: int)

  function Effective(s: Settings): int {
    if s.screenOffTimeout > s.maximumTimeout then s.maximumTimeout else s.screenOffTimeout
  }

  /** What setScreenOffTimeoutsLocked computes. */
  function Computed(pokey: set<PokeBit>, s: Settings): Delays {
    if ShortTimeout in pokey then Delays(s.shortKeylight, -1, 0)
    else if MediumTimeout in pokey then Delays(MEDIUM_KEYLIGHT_DELAY, -1, 0)
    else
      var total := Effective(s);
      var off :=
        if total < 0 then INT_MAX
        else if LONG_KEYLIGHT_DELAY < total then total - LONG_KEYLIGHT_DELAY
        else 0;
      if total >= LONG_KEYLIGHT_DELAY + LONG_DIM_TIME
      then Delays(LONG_KEYLIGHT_DELAY, off - LONG_DIM_TIME, LONG_DIM_TIME)
      else Delays(LONG_KEYLIGHT_DELAY, -1, off)
  }

  function Max(a: int, b: int): int {
    if a < b then b else a
  }

  /** The three delays always add up to the timeout the user asked for, but never less than the
      keylight delay; they fit in the service's 32-bit fields. */
  lemma DelaysAddUp(pokey: set<PokeBit>, s: Settings)
    requires Int32(s.shortKeylight) && Int32(s.screenOffTimeout) && Int32(s.maximumTimeout)
    ensures var d := Computed(pokey, s);
      && d.off >= 0 && d.dim >= -1
      && Int32(d.keylight) && Int32(d.dim) && Int32(d.off)
      && Total(d) == (
        if ShortTimeout in pokey then s.shortKeylight
        else if MediumTimeout in pokey then MEDIUM_KEYLIGHT_DELAY
        else if Effective(s) >= 0 then Max(Effective(s), LONG_KEYLIGHT_DELAY)
        else LONG_KEYLIGHT_DELAY + INT_MAX)
  {
  }

  /** An undisturbed countdown started by user activity turns the screen off after exactly the delay of the
      poke lock with a timeout bit, if there is one, else after exactly the effective timeout. */
  lemma {:induction false} ActivityCountdownIsExact(pokey: set<PokeBit>, s: Settings, start: int, late: seq<nat>)
    requires (pokey * TIMEOUT_MASK != {} || Effective(s) >= 0) && |late| >= 3
    ensures var d := Computed(pokey, s);
      EndsOffAt(Chain(d, Scheduled(d, start, -1, Bright), late), late,
        start + if ShortTimeout in pokey then s.shortKeylight
                else if MediumTimeout in pokey then MEDIUM_KEYLIGHT_DELAY
                else Max(Effective(s), LONG_KEYLIGHT_DELAY))
  {
    CountdownTakesTotal(Computed(pokey, s), start, -1, late);
  }

  lemma ChainFromDim(d: Delays, t: Timer, late: seq<nat>)
    requires t.posted && t.nextState == Dim && t.remaining <= d.off && |late| >= 2
    ensures var now := t.when + late[0];
      Chain(d, t, late) ==
        [Firing(Dim, now), Firing(Off, now + (if t.remaining > 0 then t.remaining else d.off) + late[1])]
  {
    hide Chain, Scheduled;
    var now := t.when + late[0];
    var next := Fired(d, t, now);
    ChainStep(d, t, late);
    OffStaysOff(d, now, t.remaining);
    ChainEnds(d, next, late[1..]);
  }

  lemma OffStaysOff(d: Delays, now: int, override: int)
    requires override <= d.off
    ensures var t := Scheduled(d, now, override, Off);
      t.nextState == Off && t.posted && t.when == now + if override > 0 then override else d.off
  {
  }

  /** Exactly when each stage comes after user activity: with an effective timeout T of 13 seconds or more the
      button lights go out after 6 seconds, the screen is dimmed 7 seconds before T, and goes off at T; with a
      shorter one, or a poke lock with a timeout bit, it is never dimmed. */
  lemma StagesOfAnActivity(pokey: set<PokeBit>, s: Settings, start: int, late: seq<nat>)
    requires |late| >= 3
    ensures var total := if s.screenOffTimeout > s.maximumTimeout then s.maximumTimeout else s.screenOffTimeout;
      var chain := Chain(Computed(pokey, s), Scheduled(Computed(pokey, s), start, -1, Bright), late);
      chain ==
        if ShortTimeout in pokey then
          [Firing(Bright, start + s.shortKeylight + late[0]), Firing(Off, start + s.shortKeylight + late[0] + late[1])]
        else if MediumTimeout in pokey then
          [Firing(Bright, start + 15000 + late[0]), Firing(Off, start + 15000 + late[0] + late[1])]
        else if total >= 13000 then
          [Firing(Bright, start + 6000 + late[0]), Firing(Dim, start + total - 7000 + late[0] + late[1]),
           Firing(Off, start + total + late[0] + late[1] + late[2])]
        else
          var end := if total < 0 then 6000 + 2147483647 else if total < 6000 then 6000 else total;
          [Firing(Bright, start + 6000 + late[0]), Firing(Off, start + end + late[0] + late[1])]
  {
    hide Chain, Scheduled, Computed;
    DelaysInNumbers(pokey, s);
    var d := Computed(pokey, s);
    if d.dim >= 0 {
      ThreeStages(d, start, late, start + d.keylight, start + d.keylight + d.dim, start + d.keylight + d.dim + d.off);
    } else {
      TwoStages(d, start, late, start + d.keylight, start + d.keylight + d.off);
    }
  }

  lemma ThreeStages(d: Delays, start: int, late: seq<nat>, bright: int, dim: int, off: int)
    requires |late| >= 3 && d.off >= 0 && d.dim >= 0
    requires bright == start + d.keylight && dim == bright + d.dim && off == dim + d.off
    ensures Chain(d, Scheduled(d, start, -1, Bright), late) ==
      [Firing(Bright, bright + late[0]), Firing(Dim, dim + late[0] + late[1]),
       Firing(Off, off + late[0] + late[1] + late[2])]
  {
    hide Chain, Scheduled;
    StagesOfACountdown(d, start, Bright, late);
  }

  lemma TwoStages(d: Delays, start: int, late: seq<nat>, bright: int, off: int)
    requires |late| >= 3 && d.off >= 0 && d.dim < 0 && bright == start + d.keylight && off == bright + d.off
    ensures Chain(d, Scheduled(d, start, -1, Bright), late) ==
      [Firing(Bright, bright + late[0]), Firing(Off, off + late[0] + late[1])]
  {
    hide Chain, Scheduled;
    StagesOfACountdown(d, start, Bright, late);
  }

  lemma DelaysInNumbers(pokey: set<PokeBit>, s: Settings)
    ensures var total := if s.screenOffTimeout > s.maximumTimeout then s.maximumTimeout else s.screenOffTimeout;
      Computed(pokey, s) ==
        if ShortTimeout in pokey then Delays(s.shortKeylight, -1, 0)
        else if MediumTimeout in pokey then Delays(15000, -1, 0)
        else if total >= 13000 then Delays(6000, total - 13000, 7000)
        else Delays(6000, -1, if total < 0 then 2147483647 else if total > 6000 then total - 6000 else 0)
  {
  }

  /** The stages of a countdown that is entered anywhere, without an override. */
  lemma StagesOfACountdown(d: Delays, start: int, next: Stage, late: seq<nat>)
    requires |late| >= 3 && next != Cancelled && d.off >= 0
    ensures Chain(d, Scheduled(d, start, -1, next), late) ==
      match next
      case Bright =>
        var dark := start + d.keylight + late[0];
        if d.dim >= 0 then
          [Firing(Bright, dark), Firing(Dim, dark + d.dim + late[1]),
           Firing(Off, dark + d.dim + d.off + late[1] + late[2])]
        else [Firing(Bright, dark), Firing(Off, dark + d.off + late[1])]
      case Dim =>
        var dimmed := start + (if d.dim < 0 then d.off else d.dim) + late[0];
        [Firing(Dim, dimmed), Firing(Off, dimmed + d.off + late[1])]
      case _ => [Firing(Off, start + d.off + late[0])]
  {
    var t := Scheduled(d, start, -1, next);
    if next == Off {
      ChainEnds(d, t, late);
    } else if next == Dim {
      ChainFromDim(d, t, late);
    } else {
      var t1 := Fired(d, t, t.when + late[0]);
      ChainStep(d, t, late);
      if d.dim >= 0 { ChainFromDim(d, t1, late[1..]); } else { ChainEnds(d, t1, late[1..]); }
    }
  }

  /** The stages of an override of N: off at N, dimmed before as long as the dim stage takes if there is one and time
      for it, and bright only for what is left. */
  lemma StagesOfAnOverride(d: Delays, start: int, override: int, next: Stage, late: seq<nat>)
    requires |late| >= 3 && override > 0 && d.off >= 0
    ensures Chain(d, Scheduled(d, start, override, next), late) ==
      var dimAt := start + override - d.off + late[0];
      if override <= d.off then [Firing(Off, start + override + late[0])]
      else if d.dim < 0 then [Firing(Bright, dimAt), Firing(Off, dimAt + d.off + late[1])]
      else if override <= d.off + d.dim then [Firing(Dim, dimAt), Firing(Off, dimAt + d.off + late[1])]
      else if d.dim == 0 && d.off > 0 then [Firing(Bright, dimAt), Firing(Off, dimAt + d.off + late[1])]
      else [Firing(Bright, dimAt - d.dim), Firing(Dim, dimAt + late[1]), Firing(Off, dimAt + d.off + late[1] + late[2])]
  {
    var t := Scheduled(d, start, override, next);
    if override <= d.off {
      ChainEnds(d, t, late);
    } else if d.dim >= 0 && override <= d.off + d.dim {
      ChainFromDim(d, t, late);
    } else {
      var t1 := Fired(d, t, t.when + late[0]);
      ChainStep(d, t, late);
      if t1.nextState == Dim { ChainFromDim(d, t1, late[1..]); } else { ChainEnds(d, t1, late[1..]); }
    }
  }

  ghost predicate HasBit(locks: map<nat, PokeLock>, b: PokeBit) {
    exists t :: t in locks && b in locks[t].pokey
  }

  /** The OR of all registered poke locks. */
  ghost function Cumulative(locks: map<nat, PokeLock>): set<PokeBit> {
    set b: PokeBit | HasBit(locks, b)
  }

  /** The poke locks and the delays cached from them.  usedShort is the short keylight delay at the
      time the delays were last computed. */
  datatype Table = Table(
    locks: map<nat, PokeLock>,
    pokey: set<PokeBit>,
    settings: Settings,
    delays: Delays,
    usedShort: int)

  datatype Change =
    | SetPoke(id: nat, pokey: set<PokeBit>, screenOn: bool)
    | SetMaximum(timeout: int)
    | SetTimeoutSetting(timeout: int)
    | SetShortKeylight(delay: int)

  function Recomputed(t: Table): Table {
    t.(delays := Computed(t.pokey, t.settings), usedShort := t.settings.shortKeylight)
  }

  function PokeLocksAfter(locks: map<nat, PokeLock>, id: nat, pokey: set<PokeBit>, screenOn: bool): map<nat, PokeLock> {
    if pokey == {} then locks - {id}
    else
      var was := if id in locks then locks[id] else PokeLock({}, false);
      var wakes := !screenOn && was.pokey * TIMEOUT_MASK != pokey * TIMEOUT_MASK;
      locks[id := PokeLock(pokey, was.awakeOnSet || wakes)]
  }

  /** The delays are recomputed only if the old cumulative timeout bits differ from those of the
      lock being set; the new cumulative bits are not consulted. */
  ghost function Changed(t: Table, c: Change): Table {
    match c
    case SetPoke(id, pokey, screenOn) =>
      if TIMEOUT_MASK <= pokey then t
      else
        var locks := PokeLocksAfter(t.locks, id, pokey, screenOn);
        var t1 := t.(locks := locks, pokey := Cumulative(locks));
        if t.pokey * TIMEOUT_MASK != pokey * TIMEOUT_MASK then Recomputed(t1) else t1
    case SetMaximum(m) => Recomputed(t.(settings := t.settings.(maximumTimeout := m)))
    case SetTimeoutSetting(v) => Recomputed(t.(settings := t.settings.(screenOffTimeout := v)))
    case SetShortKeylight(v) => t.(settings := t.settings.(shortKeylight := v))
  }

  ghost function Registered(t: Table, id: nat, pokey: set<PokeBit>, screenOn: bool): Table {
    var locks := PokeLocksAfter(t.locks, id, pokey, screenOn);
    t.(locks := locks, pokey := Cumulative(locks))
  }

  lemma ChangedIs(t: Table, id: nat, pokey: set<PokeBit>, screenOn: bool)
    requires !(TIMEOUT_MASK <= pokey)
    ensures var t1 := Registered(t, id, pokey, screenOn);
      Changed(t, SetPoke(id, pokey, screenOn)) ==
        if t.pokey * TIMEOUT_MASK != pokey * TIMEOUT_MASK then Recomputed(t1) else t1
  {
  }

  ghost predicate TableInv(t: Table) {
    && t.pokey == Cumulative(t.locks)
    && t.delays == Computed(t.pokey, t.settings.(shortKeylight := t.usedShort))
  }

  /** Skipping the recomputation is safe: it implies the cumulative timeout bits are unchanged. */
  lemma SkippedRecomputeKeepsTimeoutBits(locks: map<nat, PokeLock>, id: nat, pokey: set<PokeBit>, screenOn: bool)
    requires Cumulative(locks) * TIMEOUT_MASK == pokey * TIMEOUT_MASK
    ensures Cumulative(PokeLocksAfter(locks, id, pokey, screenOn)) * TIMEOUT_MASK == Cumulative(locks) * TIMEOUT_MASK
  {
    var after := PokeLocksAfter(locks, id, pokey, screenOn);
    forall b | b in TIMEOUT_MASK ensures b in Cumulative(after) <==> b in Cumulative(locks) {
      if b in Cumulative(after) {
        var t :| t in after && b in after[t].pokey;
        if t == id {
          assert b in pokey * TIMEOUT_MASK;
        } else {
          assert t in locks && b in locks[t].pokey;
        }
      }
      if b in Cumulative(locks) {
        assert b in pokey * TIMEOUT_MASK;
        assert id in after && b in after[id].pokey;
      }
    }
  }

  ghost function Changes(t: Table, cs: seq<Change>): Table
    decreases |cs|
  {
    if cs == [] then t else Changes(Changed(t, cs[0]), cs[1..])
  }

  /** What the last call of setPokeLock for a token has left registered: nothing before any, or after one without
      bits; calls with both timeout bits are refused. */
  function LastPoke(locks: map<nat, PokeLock>, cs: seq<Change>, id: nat): set<PokeBit> {
    if cs == [] then (if id in locks then locks[id].pokey else {})
    else
      match cs[|cs| - 1]
      case SetPoke(u, pokey, _) =>
        if u == id && !(ShortTimeout in pokey && MediumTimeout in pokey) then pokey
        else LastPoke(locks, cs[..|cs| - 1], id)
      case _ => LastPoke(locks, cs[..|cs| - 1], id)
  }

  /** Whether a call since the token was registered has changed its timeout bits while the screen was off. */
  function Awoke(locks: map<nat, PokeLock>, cs: seq<Change>, id: nat): bool {
    if cs == [] then id in locks && locks[id].awakeOnSet
    else
      var init := cs[..|cs| - 1];
      match cs[|cs| - 1]
      case SetPoke(u, pokey, screenOn) =>
        if u != id || (ShortTimeout in pokey && MediumTimeout in pokey) then Awoke(locks, init, id)
        else
          && pokey != {}
          && (Awoke(locks, init, id) ||
              (!screenOn &&
               exists b :: b in {ShortTimeout, MediumTimeout} && (b in LastPoke(locks, init, id) <==> b !in pokey)))
      case _ => Awoke(locks, init, id)
  }

  lemma TimeoutBitsDiffer(p: set<PokeBit>, q: set<PokeBit>)
    ensures p * TIMEOUT_MASK != q * TIMEOUT_MASK <==>
      exists b :: b in {ShortTimeout, MediumTimeout} && (b in p <==> b !in q)
  {
    if b :| b in {ShortTimeout, MediumTimeout} && (b in p <==> b !in q) {
      assert b in p * TIMEOUT_MASK <==> b !in q * TIMEOUT_MASK;
    }
  }

  /** Over every sequence of changes a poke lock is registered exactly as the last call for its token has left it. */
  lemma {:induction false} PokeLocksAreTheLastSet(t: Table, cs: seq<Change>, id: nat)
    requires forall u :: u in t.locks ==> t.locks[u].pokey != {}
    ensures var locks := Changes(t, cs).locks;
      && (if id in locks then locks[id].pokey else {}) == LastPoke(t.locks, cs, id)
      && (id in locks && locks[id].awakeOnSet <==> Awoke(t.locks, cs, id))
      && forall u :: u in locks ==> locks[u].pokey != {}
    decreases |cs|
  {
    if cs != [] {
      var init, c := cs[..|cs| - 1], cs[|cs| - 1];
      assert cs == init + [c];
      ChangesPlus(t, init, c);
      PokeLocksAreTheLastSet(t, init, id);
      if c.SetPoke? { TimeoutBitsDiffer(LastPoke(t.locks, init, id), c.pokey); }
    }
  }

  lemma {:induction false} ChangesPlus(t: Table, cs: seq<Change>, c: Change)
    ensures Changes(t, cs + [c]) == Changed(Changes(t, cs), c)
    decreases |cs|
  {
    hide Changed;
    if cs == [] {
      assert [] + [c] == [c] && [c][1..] == [];
      assert Changes(Changed(t, c), []) == Changed(t, c);
    } else {
      assert (cs + [c])[0] == cs[0] && (cs + [c])[1..] == cs[1..] + [c];
      ChangesPlus(Changed(t, cs[0]), cs[1..], c);
    }
  }

  /** Each setting is the one set last. */
  lemma SettingsAreTheLastSet(t: Table, cs: seq<Change>, c: Change)
    ensures var was, now := Changes(t, cs).settings, Changes(t, cs + [c]).settings;
      && now.maximumTimeout == (if c.SetMaximum? then c.timeout else was.maximumTimeout)
      && now.screenOffTimeout == (if c.SetTimeoutSetting? then c.timeout else was.screenOffTimeout)
      && now.shortKeylight == (if c.SetShortKeylight? then c.delay else was.shortKeylight)
  {
    ChangesPlus(t, cs, c);
  }

  lemma ChangeKeepsInv(t: Table, c: Change)
    requires TableInv(t)
    ensures TableInv(Changed(t, c))
  {
    if c.SetPoke? && t.pokey * TIMEOUT_MASK == c.pokey * TIMEOUT_MASK { SkippedKeepsShort(t, c); }
  }

  ghost predicate Current(t: Table) {
    t.delays == Computed(t.pokey, t.settings)
  }

  /** The one change that is not picked up: of the short keylight delay, while it is in use. */
  predicate Misses(t: Table, c: Change) {
    c.SetShortKeylight? && ShortTimeout in t.pokey && c.delay != t.settings.shortKeylight
  }

  /** Current delays stay current under a change if and only if it is not that one. */
  lemma ChangeKeepsDelaysCurrentIff(t: Table, c: Change)
    requires TableInv(t) && Current(t)
    ensures Current(Changed(t, c)) <==> !Misses(t, c)
  {
    ChangeKeepsInv(t, c);
    if c.SetPoke? && t.pokey * TIMEOUT_MASK == c.pokey * TIMEOUT_MASK { SkippedKeepsShort(t, c); }
  }

  lemma SkippedKeepsShort(t: Table, c: Change)
    requires TableInv(t) && c.SetPoke? && t.pokey * TIMEOUT_MASK == c.pokey * TIMEOUT_MASK
    ensures forall b :: b in TIMEOUT_MASK ==> (b in Changed(t, c).pokey <==> b in t.pokey)
  {
    SkippedRecomputeKeepsTimeoutBits(t.locks, c.id, c.pokey, c.screenOn);
    forall b | b in TIMEOUT_MASK ensures b in Changed(t, c).pokey <==> b in t.pokey {
      assert b in Changed(t, c).pokey <==> b in Changed(t, c).pokey * TIMEOUT_MASK;
      assert b in t.pokey <==> b in t.pokey * TIMEOUT_MASK;
    }
  }

  /** Delays that are not current become so again by every change that recomputes them, and by setting the short
      keylight delay back to the one in use. */
  lemma StaleDelaysRecoverIff(t: Table, c: Change)
    requires TableInv(t) && !Current(t)
    ensures Current(Changed(t, c)) <==> match c
      case SetPoke(_, pokey, _) => !(TIMEOUT_MASK <= pokey) && t.pokey * TIMEOUT_MASK != pokey * TIMEOUT_MASK
      case SetShortKeylight(v) => v == t.delays.keylight
      case _ => true
  {
    ChangeKeepsInv(t, c);
    if c.SetPoke? && t.pokey * TIMEOUT_MASK == c.pokey * TIMEOUT_MASK { SkippedKeepsShort(t, c); }
  }

  ghost predicate AlwaysCurrent(t: Table, cs: seq<Change>)
    decreases |cs|
  {
    Current(t) && (cs == [] || AlwaysCurrent(Changed(t, cs[0]), cs[1..]))
  }

  ghost predicate NoneMissed(t: Table, cs: seq<Change>)
    decreases |cs|
  {
    cs == [] || (!Misses(t, cs[0]) && NoneMissed(Changed(t, cs[0]), cs[1..]))
  }

  /** Over every sequence of poke-lock and setting changes `pokey` is the OR of the registered locks, and
      the delays are current after each of them if and only if none changes the short keylight delay while a
      short-timeout lock is held. */
  lemma {:induction false} DelaysStayCurrentIff(t: Table, cs: seq<Change>)
    requires TableInv(t)
    ensures TableInv(Changes(t, cs)) && Changes(t, cs).pokey == Cumulative(Changes(t, cs).locks)
    ensures AlwaysCurrent(t, cs) <==> Current(t) && NoneMissed(t, cs)
    decreases |cs|
  {
    if cs != [] {
      ChangeKeepsInv(t, cs[0]);
      if Current(t) { ChangeKeepsDelaysCurrentIff(t, cs[0]); }
      DelaysStayCurrentIff(Changed(t, cs[0]), cs[1..]);
    }
  }

  /** A run that misses a change: a short-timeout lock is taken, and the short keylight delay goes from 6 to 3
      seconds; the screen still stays bright for 6. */
  lemma ShortKeylightChangeIsMissed()
    ensures var t := Table(map[], {}, Settings(6000, 15000, INT_MAX), Computed({}, Settings(6000, 15000, INT_MAX)),
      6000);
      var cs := [SetPoke(0, {ShortTimeout}, true), SetShortKeylight(3000)];
      && TableInv(t) && Current(t)
      && Changes(t, cs).delays.keylight == 6000 && !Current(Changes(t, cs))
  {
    var t := Table(map[], {}, Settings(6000, 15000, INT_MAX), Computed({}, Settings(6000, 15000, INT_MAX)), 6000);
    var c, d := SetPoke(0, {ShortTimeout}, true), SetShortKeylight(3000);
    assert Cumulative(map[]) == {};
    var t1 := Changed(t, c);
    assert MediumTimeout in TIMEOUT_MASK && MediumTimeout !in {ShortTimeout};
    assert ShortTimeout in {ShortTimeout} * TIMEOUT_MASK;
    assert 0 in t1.locks && t1.locks[0].pokey == {ShortTimeout};
    assert HasBit(t1.locks, ShortTimeout);
    assert [c, d][1..] == [d] && [d][1..] == [];
    assert Changes(t1, [d]) == Changed(t1, d);
  }

  /** While the short keylight delay does not change the cached delays are simply current. */
  lemma {:induction false} DelaysAreExactWithoutShortChanges(t: Table, cs: seq<Change>)
    requires TableInv(t) && t.usedShort == t.settings.shortKeylight
    requires forall i :: 0 <= i < |cs| ==> !cs[i].SetShortKeylight?
    ensures Changes(t, cs).delays == Computed(Changes(t, cs).pokey, Changes(t, cs).settings)
    decreases |cs|
  {
    if cs != [] {
      ChangeKeepsInv(t, cs[0]);
      DelaysAreExactWithoutShortChanges(Changed(t, cs[0]), cs[1..]);
    }
  }

  /** The service's countdown fields: the timeout task, the cached delays and the poke locks. */
  class ScreenTimeouts {
    var bootCompleted: bool

    var nextState: Stage
    var remainingTimeoutOverride: int
    var timeoutPosted: bool
    var nextTimeout: int

    var keylightDelay: int
    var dimDelay: int
    var screenOffDelay: int

    var pokeLocks: map<nat, PokeLock>
    var pokey: set<PokeBit>
    var pokeAwakeOnSet: bool
    var shortKeylightDelay: int
    var screenOffTimeoutSetting: int
    var maximumScreenOffTimeout: int
    ghost var usedShort: int

    ghost function Config(): Delays
      reads `keylightDelay, `dimDelay, `screenOffDelay
    {
      Delays(keylightDelay, dimDelay, screenOffDelay)
    }

    ghost function Task(): Timer
      reads `nextState, `remainingTimeoutOverride, `timeoutPosted, `nextTimeout
    {
      Timer(nextState, remainingTimeoutOverride, timeoutPosted, nextTimeout)
    }

    ghost function Poke(): Table
      reads `pokeLocks, `pokey, `shortKeylightDelay, `screenOffTimeoutSetting, `maximumScreenOffTimeout
      reads `keylightDelay, `dimDelay, `screenOffDelay, `usedShort
    {
      Table(pokeLocks, pokey,
        Settings(shortKeylightDelay, screenOffTimeoutSetting, maximumScreenOffTimeout),
        Config(), usedShort)
    }

    ghost predicate Valid()
      reads `pokeLocks, `pokey, `shortKeylightDelay, `screenOffTimeoutSetting, `maximumScreenOffTimeout
      reads `keylightDelay, `dimDelay, `screenOffDelay, `usedShort, `pokeAwakeOnSet
    {
      && TableInv(Poke())
      && (pokeAwakeOnSet <==> exists t :: t in pokeLocks && pokeLocks[t].awakeOnSet)
    }

    lemma OffDelayIsNatural()
      requires Valid()
      ensures screenOffDelay >= 0
    {
    }

    constructor (screenOffTimeout: int)
      ensures Valid() && !bootCompleted && !timeoutPosted && nextState == Off
      ensures Poke().settings == Settings(6000, screenOffTimeout, INT_MAX) && pokeLocks == map[] && pokey == {}
    {
      bootCompleted := false;
      nextState, remainingTimeoutOverride, timeoutPosted, nextTimeout := Off, 0, false, 0;
      keylightDelay, dimDelay, screenOffDelay := 0, 0, 0;
      pokeLocks, pokey, pokeAwakeOnSet := map[], {}, false;
      shortKeylightDelay, screenOffTimeoutSetting, maximumScreenOffTimeout := 6000, screenOffTimeout, INT_MAX;
      usedShort := 6000;
      new;
      SetScreenOffTimeoutsLocked();
    }

    method SetTimeoutLocked(now: int, originalTimeoutOverride: int, stage: Stage)
      modifies `nextState, `remainingTimeoutOverride, `timeoutPosted, `nextTimeout
      ensures bootCompleted ==> Task() == Scheduled(Config(), now, originalTimeoutOverride, stage)
      ensures !bootCompleted ==> Task() == old(Task())
    {
      var timeoutOverride := originalTimeoutOverride;
      var next := stage;
      if bootCompleted {
        var when := 0;
        if timeoutOverride <= 0 {
          if next == Bright {
            when := now + keylightDelay;
          } else if next == Dim && dimDelay >= 0 {
            when := now + dimDelay;
          } else if next == Dim || next == Off {
            when := now + screenOffDelay;
          } else {
            when := now;
          }
        } else {
          label override: {
            if timeoutOverride <= screenOffDelay {
              when, next := now + timeoutOverride, Off;
              break override;
            }
            timeoutOverride := timeoutOverride - screenOffDelay;
            if dimDelay >= 0 {
              if timeoutOverride <= dimDelay {
                when, next := now + timeoutOverride, Dim;
                break override;
              }
              timeoutOverride := timeoutOverride - dimDelay;
            }
            when, next := now + timeoutOverride, Bright;
          }
        }
        nextState := next;
        remainingTimeoutOverride := if timeoutOverride > 0 then originalTimeoutOverride - timeoutOverride else -1;
        timeoutPosted, nextTimeout := true, when;
      }
    }

    method CancelTimerLocked()
      modifies `nextState, `timeoutPosted
      ensures Task() == old(Task()).(nextState := Cancelled, posted := false)
    {
      timeoutPosted := false;
      nextState := Cancelled;
    }

    /** The end of TimeoutTask.run: schedule the stage after the one that has just been set. */
    method ContinueCountdown(now: int)
      requires bootCompleted && !timeoutPosted
      modifies `nextState, `remainingTimeoutOverride, `timeoutPosted, `nextTimeout
      ensures Task() == Fired(Config(), old(Task()), now)
    {
      match nextState {
        case Bright =>
          if dimDelay >= 0 {
            SetTimeoutLocked(now, remainingTimeoutOverride, Dim);
          } else {
            SetTimeoutLocked(now, remainingTimeoutOverride, Off);
          }
        case Dim =>
          SetTimeoutLocked(now, remainingTimeoutOverride, Off);
        case _ =>
      }
    }

    method SetScreenOffTimeoutsLocked()
      modifies `keylightDelay, `dimDelay, `screenOffDelay, `usedShort
      ensures Poke() == Recomputed(old(Poke()))
    {
      usedShort := shortKeylightDelay;
      if ShortTimeout in pokey {
        keylightDelay, dimDelay, screenOffDelay := shortKeylightDelay, -1, 0;
      } else if MediumTimeout in pokey {
        keylightDelay, dimDelay, screenOffDelay := MEDIUM_KEYLIGHT_DELAY, -1, 0;
      } else {
        var totalDelay := screenOffTimeoutSetting;
        if totalDelay > maximumScreenOffTimeout {
          totalDelay := maximumScreenOffTimeout;
        }
        keylightDelay := LONG_KEYLIGHT_DELAY;
        if totalDelay < 0 {
          screenOffDelay := INT_MAX;
        } else if keylightDelay < totalDelay {
          screenOffDelay := totalDelay - keylightDelay;
        } else {
          screenOffDelay := 0;
        }
        if totalDelay >= LONG_KEYLIGHT_DELAY + LONG_DIM_TIME {
          dimDelay := screenOffDelay - LONG_DIM_TIME;
          screenOffDelay := LONG_DIM_TIME;
        } else {
          dimDelay := -1;
        }
      }
    }

    method SetMaximumScreenOffTimeout(timeMs: int)
      requires Valid()
      modifies `maximumScreenOffTimeout, `keylightDelay, `dimDelay, `screenOffDelay, `usedShort
      ensures Valid() && Poke() == Changed(old(Poke()), SetMaximum(timeMs))
    {
      maximumScreenOffTimeout := timeMs;
      SetScreenOffTimeoutsLocked();
    }

    method SettingsChanged(screenOffTimeout: int)
      requires Valid()
      modifies `screenOffTimeoutSetting, `keylightDelay, `dimDelay, `screenOffDelay, `usedShort
      ensures Valid() && Poke() == Changed(old(Poke()), SetTimeoutSetting(screenOffTimeout))
    {
      screenOffTimeoutSetting := screenOffTimeout;
      SetScreenOffTimeoutsLocked();
    }

    method UpdateSettingsValues(shortKeylight: int)
      requires Valid()
      modifies `shortKeylightDelay
      ensures Valid() && Poke() == Changed(old(Poke()), SetShortKeylight(shortKeylight))
    {
      shortKeylightDelay := shortKeylight;
    }

    /** The loop of setPokeLock over the registered locks, in whatever order the hash map yields them. */
    method Accumulate() returns (cumulative: set<PokeBit>, awakeOnSet: bool)
      ensures cumulative == Cumulative(pokeLocks)
      ensures awakeOnSet <==> exists t :: t in pokeLocks && pokeLocks[t].awakeOnSet
    {
      cumulative, awakeOnSet := {}, false;
      var todo := pokeLocks.Keys;
      while todo != {}
        invariant todo <= pokeLocks.Keys
        invariant forall b :: b in cumulative <==> exists t :: t in pokeLocks && t !in todo && b in pokeLocks[t].pokey
        invariant awakeOnSet <==> exists t :: t in pokeLocks && t !in todo && pokeLocks[t].awakeOnSet
      {
        var t :| t in todo;
        todo := todo - {t};
        cumulative := cumulative + pokeLocks[t].pokey;
        if pokeLocks[t].awakeOnSet {
          awakeOnSet := true;
        }
      }
    }

    /** The first half of setPokeLock: register, update or remove one lock. */
    method RegisterPokeLock(bits: set<PokeBit>, id: nat, screenOn: bool)
      modifies `pokeLocks
      ensures pokeLocks == PokeLocksAfter(old(pokeLocks), id, bits, screenOn)
    {
      if bits != {} {
        var oldBits, awake := {}, false;
        if id in pokeLocks {
          oldBits, awake := pokeLocks[id].pokey, pokeLocks[id].awakeOnSet;
        }
        if !screenOn && oldBits * TIMEOUT_MASK != bits * TIMEOUT_MASK {
          awake := true;
        }
        pokeLocks := pokeLocks[id := PokeLock(bits, awake)];
      } else {
        pokeLocks := pokeLocks - {id};
      }
    }

    /** The middle of setPokeLock: recompute the cumulative bits. */
    method UpdatePokey()
      modifies `pokey, `pokeAwakeOnSet
      ensures Poke() == old(Poke()).(pokey := Cumulative(pokeLocks))
      ensures pokeAwakeOnSet <==> exists t :: t in pokeLocks && pokeLocks[t].awakeOnSet
    {
      pokey, pokeAwakeOnSet := Accumulate();
    }

    /** Register the lock and recompute the cumulative bits. */
    method UpdatePokeLocks(bits: set<PokeBit>, id: nat, screenOn: bool)
      modifies `pokeLocks, `pokey, `pokeAwakeOnSet
      ensures Poke() == Registered(old(Poke()), id, bits, screenOn)
      ensures pokeAwakeOnSet <==> exists t :: t in pokeLocks && pokeLocks[t].awakeOnSet
    {
      hide PokeLocksAfter, Cumulative;
      RegisterPokeLock(bits, id, screenOn);
      UpdatePokey();
    }

    /** The synchronized block of setPokeLock. */
    method ApplyPokeLock(bits: set<PokeBit>, id: nat, screenOn: bool, now: int)
      requires Valid() && !(TIMEOUT_MASK <= bits)
      modifies `pokeLocks, `pokey, `pokeAwakeOnSet, `keylightDelay, `dimDelay, `screenOffDelay, `usedShort
      modifies `nextState, `remainingTimeoutOverride, `timeoutPosted, `nextTimeout
      ensures Valid()
      ensures Poke() == Changed(old(Poke()), SetPoke(id, bits, screenOn))
      ensures bootCompleted && old(pokey) * TIMEOUT_MASK != bits * TIMEOUT_MASK ==>
        Task() == Scheduled(Config(), now, -1, old(nextState))
      ensures !bootCompleted || old(pokey) * TIMEOUT_MASK == bits * TIMEOUT_MASK ==> Task() == old(Task())
    {
      hide Changed, Registered, Recomputed, TableInv, Scheduled;
      ghost var before := Poke();
      ChangeKeepsInv(before, SetPoke(id, bits, screenOn));
      ChangedIs(before, id, bits, screenOn);
      var oldPokey := pokey;
      UpdatePokeLocks(bits, id, screenOn);
      if oldPokey * TIMEOUT_MASK != bits * TIMEOUT_MASK {
        SetScreenOffTimeoutsLocked();
        SetTimeoutLocked(now, -1, nextState);
      }
    }

    method SetPokeLock(bits: set<PokeBit>, token: PokeToken, screenOn: bool, now: int) returns (r: PokeResult)
      requires Valid()
      modifies `pokeLocks, `pokey, `pokeAwakeOnSet, `keylightDelay, `dimDelay, `screenOffDelay, `usedShort
      modifies `nextState, `remainingTimeoutOverride, `timeoutPosted, `nextTimeout
      ensures Valid()
      ensures r == (if token == NullToken then PokeIgnored else if TIMEOUT_MASK <= bits then PokeIllegal else PokeDone)
      ensures r != PokeDone ==> Poke() == old(Poke()) && Task() == old(Task())
      ensures r == PokeDone ==> token.Binder? && Poke() == Changed(old(Poke()), SetPoke(token.id, bits, screenOn))
      ensures r == PokeDone && bootCompleted && old(pokey) * TIMEOUT_MASK != bits * TIMEOUT_MASK ==>
        Task() == Scheduled(Config(), now, -1, old(nextState))
      ensures old(pokey) * TIMEOUT_MASK == bits * TIMEOUT_MASK ==> Task() == old(Task())
      ensures nextState == old(nextState) && (!bootCompleted ==> Task() == old(Task()))
    {
      hide TableInv, Changed;
      if token == NullToken {
        return PokeIgnored;
      }
      if TIMEOUT_MASK <= bits {
        return PokeIllegal;
      }
      ApplyPokeLock(bits, token.id, screenOn, now);
      return PokeDone;
    }
  }
}
