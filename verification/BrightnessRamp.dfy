/** The screen brightness animation, over exact reals. */
module BrightnessRamp {

  /** A float quotient: dividing by zero steps gives an infinity or not-a-number. */
  datatype Delta = Finite(v: real) | PosInf | NegInf | NotANumber

  datatype Ramp = Ramp(initialized: bool, target: int, cur: real, delta: Delta, animating: bool)

  /** The (int) cast of a float: rounds towards zero. */
  function Trunc(x: real): int {
    if x >= 0.0 then x.Floor else -((-x).Floor)
  }

  function Quotient(x: real, n: nat): Delta {
    if n > 0 then Finite(x / (n as real))
    else if x > 0.0 then PosInf
    else if x < 0.0 then NegInf
    else NotANumber
  }

  /** Where the ramp is taken to start for computing the delta. */
  function Origin(cur: real, nominal: int): real {
    if nominal >= 0 then nominal as real else cur
  }

  function Retargeted(r: Ramp, target: nat, steps: nat, initial: nat, nominal: int): Ramp {
    if r.initialized && r.target == target then r
    else
      var cur := if r.initialized then r.cur else initial as real;
      Ramp(true, target, cur, Quotient(target as real - Origin(cur, nominal), steps), true)
  }

  predicate Arrives(r: Ramp) {
    match r.delta
    case Finite(v) =>
      if v == 0.0 then true
      else if v > 0.0 then Trunc(r.cur + v) >= r.target
      else Trunc(r.cur + v) <= r.target
    case _ => true
  }

  /** One animation step; a level that reaches or passes the target is set to the target. */
  function Stepped(r: Ramp): Ramp {
    if !r.animating then r
    else if Arrives(r) then r.(cur := r.target as real, animating := false)
    else r.(cur := r.cur + r.delta.v)
  }

  function Steps(r: Ramp, k: nat): Ramp {
    if k == 0 then r else Stepped(Steps(r, k - 1))
  }

  /** The level handed to the light driver. */
  function Shown(r: Ramp): int {
    Trunc(r.cur)
  }

  predicate Landed(r: Ramp, target: int) {
    !r.animating && r.target == target && r.cur == target as real
  }

  predicate Between(a: int, b: int, x: int) {
    a <= x <= b || b <= x <= a
  }

  function Gap(r: Ramp): nat {
    if Shown(r) < r.target then r.target - Shown(r) else Shown(r) - r.target
  }

  function Max(a: nat, b: nat): nat {
    if a < b then b else a
  }

  /** The level after k deltas without a landing. */
  function Walk(x: real, v: real, k: nat): real {
    if k == 0 then x else Walk(x, v, k - 1) + v
  }

  lemma {:induction false} WalkIsLinear(x: real, v: real, k: nat)
    ensures Walk(x, v, k) == x + k as real * v
  {
    if k > 0 {
      WalkIsLinear(x, v, k - 1);
      assert (k - 1) as real * v + v == k as real * v;
    }
  }

  lemma {:induction false} WalkFarther(x: real, v: real, n: nat, k: nat)
    requires n <= k
    ensures v >= 0.0 ==> Walk(x, v, k) >= Walk(x, v, n)
    ensures v <= 0.0 ==> Walk(x, v, k) <= Walk(x, v, n)
  {
    if n < k {
      WalkFarther(x, v, n, k - 1);
    }
  }

  lemma WalkCovers(x: real, d: real, n: nat)
    requires n > 0
    ensures Walk(x, d / (n as real), n) == x + d
  {
    WalkIsLinear(x, d / (n as real), n);
    var v := d / (n as real);
    assert n as real * v == d;
  }

  /** Until it lands, a ramp stays on its straight line, strictly short of the target. */
  predicate OnLine(r: Ramp, k: nat, s: Ramp) {
    && r.delta.Finite?
    && s == r.(cur := Walk(r.cur, r.delta.v, k))
    && (k > 0 ==> (r.delta.v > 0.0 && Shown(s) < r.target) || (r.delta.v < 0.0 && Shown(s) > r.target))
  }

  lemma {:induction false} LandedOrOnLine(r: Ramp, k: nat)
    requires r.animating
    ensures Landed(Steps(r, k), r.target) || OnLine(r, k, Steps(r, k)) || (k == 0 && !r.delta.Finite?)
  {
    if k > 0 {
      LandedOrOnLine(r, k - 1);
    }
  }

  /** Whether the straight line through the start has reached the target after k deltas. */
  predicate Reached(r: Ramp, k: nat) {
    match r.delta
    case Finite(v) =>
      || v == 0.0
      || (v > 0.0 && Trunc(Walk(r.cur, v, k)) >= r.target)
      || (v < 0.0 && Trunc(Walk(r.cur, v, k)) <= r.target)
    case _ => true
  }

  lemma TruncIsMonotone(x: real, y: real)
    requires x <= y
    ensures Trunc(x) <= Trunc(y)
  {
  }

  /** A ramp has landed after k steps if and only if its straight line has reached the target by then. */
  lemma {:induction false} LandsIff(r: Ramp, k: nat)
    requires r.animating && k > 0
    ensures Landed(Steps(r, k), r.target) <==> Reached(r, k)
  {
    LandedOrOnLine(r, k - 1);
    if k > 1 {
      LandsIff(r, k - 1);
      if Landed(Steps(r, k - 1), r.target) && r.delta.Finite? {
        var x, y := Walk(r.cur, r.delta.v, k - 1), Walk(r.cur, r.delta.v, k);
        if r.delta.v >= 0.0 { TruncIsMonotone(x, y); } else { TruncIsMonotone(y, x); }
      }
    }
  }

  /** A ramp is on time if it has nowhere to go, if no steps were asked for, or if its level is not behind
      the nominal start that its delta was computed from: at or above it on the way up, and less than
      one above it on the way down, where the level is cut off to an integer. */
  predicate OnTime(cur: real, origin: real, target: int, steps: nat) {
    || steps == 0
    || target as real == origin
    || (target as real > origin && cur >= origin)
    || (target as real < origin && cur < origin + 1.0)
  }

  /** A new target is reached in as many steps as were asked for (one, if none were) if and only if the ramp
      is on time; and then the level stays exactly on the target. */
  lemma RampLandsIff(r: Ramp, target: nat, steps: nat, initial: nat, nominal: int, k: nat)
    requires !(r.initialized && r.target == target) && r.cur >= 0.0
    requires k >= Max(steps, 1)
    ensures var start := if r.initialized then r.cur else initial as real;
      var landed := Landed(Steps(Retargeted(r, target, steps, initial, nominal), k), target);
      && (OnTime(start, Origin(start, nominal), target, steps) ==> landed)
      && (k == Max(steps, 1) && landed ==> OnTime(start, Origin(start, nominal), target, steps))
  {
    var r1 := Retargeted(r, target, steps, initial, nominal);
    var d := target as real - Origin(r1.cur, nominal);
    LandsIff(r1, k);
    if steps > 0 {
      WalkCovers(r1.cur, d, steps);
      QuotientSign(d, steps);
      WalkFarther(r1.cur, r1.delta.v, steps, k);
      TruncIsMonotone(if d >= 0.0 then Walk(r1.cur, r1.delta.v, steps) else Walk(r1.cur, r1.delta.v, k),
                      if d >= 0.0 then Walk(r1.cur, r1.delta.v, k) else Walk(r1.cur, r1.delta.v, steps));
    }
  }

  lemma NoSteps(r: Ramp)
    ensures Steps(r, 0) == r
  {
  }

  lemma OneStep(r: Ramp, k: nat)
    ensures Steps(r, k + 1) == Stepped(Steps(r, k))
    ensures Steps(r, k + 1).target == Steps(r, k).target
  {
  }

  lemma EndsLanded(r: Ramp, k: nat)
    requires r.animating && !Steps(r, k).animating
    ensures Landed(Steps(r, k), r.target)
  {
    LandedOrOnLine(r, k);
  }

  lemma StepsEnough(way: real, v: real) returns (k: nat)
    requires v > 0.0 && way >= 0.0
    ensures k > 0 && k as real * v >= way
  {
    var q := way / v;
    assert q * v == way && q >= 0.0;
    k := q.Floor + 1;
    assert k as real >= q;
    MoreIsFarther(q, k as real, v);
  }

  lemma MoreIsFarther(a: real, b: real, v: real)
    requires a <= b && v > 0.0
    ensures a * v <= b * v
  {
  }

  /** Every animation ends. */
  lemma EveryRampLands(r: Ramp) returns (k: nat)
    requires r.animating && r.target >= 0 && r.cur >= 0.0
    ensures k > 0 && Reached(r, k)
  {
    k := 1;
    if r.delta.Finite? && r.delta.v > 0.0 {
      k := StepsEnough(r.target as real, r.delta.v);
      WalkIsLinear(r.cur, r.delta.v, k);
      TruncIsMonotone(r.target as real, Walk(r.cur, r.delta.v, k));
    } else if r.delta.Finite? && r.delta.v < 0.0 {
      k := StepsEnough(r.cur, -r.delta.v);
      WalkIsLinear(r.cur, r.delta.v, k);
      Opposite(k as real, r.delta.v);
      TruncIsMonotone(Walk(r.cur, r.delta.v, k), 0.0);
    }
  }

  lemma Opposite(a: real, v: real)
    ensures a * -v == -(a * v)
  {
  }

  lemma {:induction false} RestsWhereItIs(r: Ramp, k: nat)
    requires !r.animating
    ensures Steps(r, k) == r
  {
    if k > 0 { RestsWhereItIs(r, k - 1); }
  }

  /** Every level of an animation: the straight line through its start, until that reaches the target. */
  lemma LevelsOnTheLine(r: Ramp, v: real, k: nat)
    requires r.animating && r.target >= 0 && r.delta == Finite(v) && (v > 0.0 ==> r.target > 0)
    ensures var line := r.cur + k as real * v;
      if k > 0 && (v == 0.0 || (v > 0.0 && line >= r.target as real) || (v < 0.0 && line < r.target as real + 1.0))
      then Landed(Steps(r, k), r.target)
      else Steps(r, k) == r.(cur := line)
  {
    hide Trunc;
    WalkIsLinear(r.cur, v, k);
    ReachesIntegers(Walk(r.cur, v, k), r.target);
    LandedOrOnLine(r, k);
    if k > 0 { LandsIff(r, k); } else { NoSteps(r); }
  }

  /** In particular towards a new target, in n > 0 steps from a nominal start: the slope is (target - nominal) / n,
      the line starts from the actual level. */
  lemma LevelsOfARamp(r: Ramp, target: nat, n: nat, initial: nat, nominal: int, k: nat)
    requires !(r.initialized && r.target == target) && r.cur >= 0.0 && n > 0
    ensures var start := if r.initialized then r.cur else initial as real;
      var way := target as real - (if nominal >= 0 then nominal as real else start);
      var line := start + k as real * (way / n as real);
      var now := Steps(Retargeted(r, target, n, initial, nominal), k);
      if k > 0 && (way == 0.0 || (way > 0.0 && line >= target as real) || (way < 0.0 && line < target as real + 1.0))
      then Landed(now, target)
      else now.animating && now.target == target && now.cur == line
  {
    hide *;
    var r1 := Retargeted(r, target, n, initial, nominal);
    var start := if r.initialized then r.cur else initial as real;
    var way := target as real - (if nominal >= 0 then nominal as real else start);
    NewRamp(r, target, n, initial, nominal);
    QuotientSign(way, n);
    LevelsBySlope(r1, way / n as real, way, k);
  }

  lemma NewRamp(r: Ramp, target: nat, n: nat, initial: nat, nominal: int)
    requires !(r.initialized && r.target == target) && r.cur >= 0.0 && n > 0
    ensures var start := if r.initialized then r.cur else initial as real;
      var way := target as real - (if nominal >= 0 then nominal as real else start);
      && Retargeted(r, target, n, initial, nominal) == Ramp(true, target, start, Finite(way / n as real), true)
      && (way > 0.0 ==> target > 0)
  {
  }

  lemma LevelsBySlope(r: Ramp, v: real, way: real, k: nat)
    requires r.animating && r.target >= 0 && r.delta == Finite(v) && (way > 0.0 ==> r.target > 0)
    requires (v > 0.0 <==> way > 0.0) && (v < 0.0 <==> way < 0.0)
    ensures var line := r.cur + k as real * v;
      var now := Steps(r, k);
      if k > 0 &&
        (way == 0.0 || (way > 0.0 && line >= r.target as real) || (way < 0.0 && line < r.target as real + 1.0))
      then Landed(now, r.target)
      else now.animating && now.target == r.target && now.cur == line
  {
    hide Steps, Landed;
    LevelsOnTheLine(r, v, k);
  }

  lemma ReachesIntegers(x: real, target: nat)
    ensures target > 0 ==> (Trunc(x) >= target <==> x >= target as real)
    ensures Trunc(x) <= target <==> x < target as real + 1.0
  {
  }

  /** A ramp that starts at its nominal level and has at least one level for each of its n steps takes all of them:
      after k of them it is k n-ths of the way, and it lands with the last one, not before. */
  lemma RampTakesAllItsSteps(r: Ramp, target: nat, n: nat, initial: nat, nominal: int, k: nat)
    requires !(r.initialized && r.target == target) && r.cur >= 0.0 && n > 0
    requires var start := if r.initialized then r.cur else initial as real;
      && (nominal >= 0 ==> nominal as real == start)
      && (target as real - start >= n as real || start - target as real >= n as real)
    ensures var start := if r.initialized then r.cur else initial as real;
      var now := Steps(Retargeted(r, target, n, initial, nominal), k);
      if k >= n then Landed(now, target)
      else
        && !Landed(now, target) && now.animating
        && now.cur == start + k as real * ((target as real - start) / n as real)
  {
    hide Steps, Retargeted;
    var start := if r.initialized then r.cur else initial as real;
    LevelsOfARamp(r, target, n, initial, nominal, k);
    PartOfTheWay(start, target as real, n, k);
  }

  lemma PartOfTheWay(start: real, target: real, n: nat, k: nat)
    requires n > 0 && (target - start >= n as real || start - target >= n as real)
    ensures var line := start + k as real * ((target - start) / n as real);
      && (target > start ==> (line >= target <==> k >= n))
      && (target < start ==> (line < target + 1.0 <==> k >= n))
  {
    var d := target - start;
    var v := d / n as real;
    assert v * n as real == d;
    Steep(v, n as real, d);
    assert k as real * v == d + (k as real - n as real) * v by { Distribute(k as real, n as real, v); }
    if k < n {
      Farther(v, n as real - k as real);
      Opposite(n as real - k as real, v);
    } else {
      Onwards(v, k as real - n as real);
    }
  }

  lemma Distribute(a: real, b: real, v: real)
    ensures a * v == v * b + (a - b) * v
  {
  }

  lemma Steep(v: real, n: real, d: real)
    requires v * n == d && n > 0.0
    ensures d >= n ==> v >= 1.0
    ensures d <= -n ==> v <= -1.0
  {
    if v < 1.0 { assert (1.0 - v) * n > 0.0; }
    if v > -1.0 { assert (1.0 + v) * n > 0.0; }
  }

  lemma Farther(v: real, a: real)
    requires a >= 1.0
    ensures v >= 1.0 ==> a * v >= 1.0
    ensures v <= -1.0 ==> a * v <= -1.0
  {
    if v >= 1.0 { assert (a - 1.0) * v >= 0.0; }
    if v <= -1.0 { assert (a - 1.0) * (-v) >= 0.0; }
  }

  lemma Onwards(v: real, a: real)
    requires a >= 0.0
    ensures v >= 0.0 ==> a * v >= 0.0
    ensures v <= 0.0 ==> a * v <= 0.0
  {
  }

  /** Without steps the target is reached at once. */
  lemma NoStepsIsAJump(r: Ramp, target: nat, initial: nat, nominal: int)
    requires !(r.initialized && r.target == target)
    ensures Landed(Steps(Retargeted(r, target, 0, initial, nominal), 1), target)
  {
    var r1 := Retargeted(r, target, 0, initial, nominal);
    assert Steps(r1, 0) == r1;
  }

  lemma QuotientSign(d: real, n: nat)
    requires n > 0
    ensures d / (n as real) > 0.0 <==> d > 0.0
    ensures d / (n as real) < 0.0 <==> d < 0.0
  {
    var v := d / (n as real);
    assert v * (n as real) == d;
  }

  /** Nothing flickers: every level shown lies between the one shown at the start and the target, and
      each step brings it closer or leaves it. */
  lemma RampIsMonotone(r: Ramp, k: nat)
    requires r.animating && r.target >= 0 && r.cur >= 0.0
    ensures Between(Shown(r), r.target, Shown(Steps(r, k)))
    ensures Gap(Steps(r, k + 1)) <= Gap(Steps(r, k))
  {
    LandedOrOnLine(r, k);
    LandedOrOnLine(r, k + 1);
    if r.delta.Finite? {
      WalkFarther(r.cur, r.delta.v, 0, k);
      WalkFarther(r.cur, r.delta.v, k, k + 1);
    }
  }

  /** The animation state of one light; `posted` is whether the animator is queued on its handler. */
  class BrightnessState {
    var initialized: bool
    var targetValue: int
    var curValue: real
    var delta: Delta
    var animating: bool
    var posted: bool

    ghost function State(): Ramp
      reads this
    {
      Ramp(initialized, targetValue, curValue, delta, animating)
    }

    /** A running animation always has its next step queued, and none runs before the first target. */
    ghost predicate Valid()
      reads this
    {
      && (animating ==> posted) && (posted ==> targetValue >= 0) && curValue >= 0.0
      && (!initialized ==> !posted && curValue == 0.0)
    }

    constructor ()
      ensures Valid() && State() == Ramp(false, 0, 0.0, Finite(0.0), false) && !posted
    {
      initialized, targetValue, curValue := false, 0, 0.0;
      delta, animating, posted := Finite(0.0), false, false;
    }

    method SetTargetLocked(target: nat, stepsToTarget: nat, initialValue: nat, nominalCurrentValue: int)
      requires Valid()
      modifies this
      ensures Valid()
      ensures State() == Retargeted(old(State()), target, stepsToTarget, initialValue, nominalCurrentValue)
      ensures if old(initialized) && old(targetValue) == target then unchanged(this) else animating && posted
    {
      if !initialized {
        initialized := true;
        curValue := initialValue as real;
      } else if targetValue == target {
        return;
      }
      targetValue := target;
      var from := if nominalCurrentValue >= 0 then nominalCurrentValue as real else curValue;
      delta := Quotient(targetValue as real - from, stepsToTarget);
      animating := true;
      posted := true;
    }

    /** stepLocked; the caller sets the light and reacts to an animation that ends dark. */
    method StepLocked() returns (more: bool, shown: int)
      requires Valid()
      modifies `curValue, `animating
      ensures State() == Stepped(old(State()))
      ensures more == animating && curValue >= 0.0
      ensures old(animating) ==> shown == Shown(State())
    {
      if !animating {
        return false, 0;
      }
      more := true;
      shown := 0;
      match delta {
        case Finite(v) =>
          curValue := curValue + v;
          shown := Trunc(curValue);
          if v == 0.0 {
            more := false;
          } else if v > 0.0 {
            if shown >= targetValue { more := false; }
          } else {
            if shown <= targetValue { more := false; }
          }
        case _ =>
          more := false;
      }
      if !more {
        curValue, shown := targetValue as real, targetValue;
      }
      animating := more;
    }

    /** jumpToTargetLocked: the level becomes the target at once and the target is forgotten. */
    method JumpToTargetLocked() returns (shown: int)
      requires targetValue >= 0
      modifies `curValue, `targetValue, `animating
      ensures shown == old(targetValue) && curValue == shown as real
      ensures targetValue == -1 && !animating
    {
      shown := targetValue;
      curValue := shown as real;
      targetValue := -1;
      animating := false;
    }

    /** One run of the animator task: a step of the ramp, or the jump to its end when animations are
        off.  `dark` says that the animation has ended with the light off. */
    method Animate(animate: bool) returns (dark: bool)
      requires Valid() && posted
      modifies this
      ensures Valid()
      ensures animate ==> State() == Stepped(old(State())) && posted == animating
      ensures animate ==> dark == (old(animating) && !animating && targetValue == 0)
      ensures !animate ==> !animating && !posted && targetValue == -1 && curValue == old(targetValue) as real
      ensures !animate ==> dark == (old(targetValue) == 0)
    {
      if animate {
        var was := animating;
        var more, shown := StepLocked();
        posted := more;
        dark := was && !more && shown == 0;
      } else {
        var shown := JumpToTargetLocked();
        posted := false;
        dark := shown == 0;
      }
    }
  }
}
