/** The per-connection difficulty controller: a windowed average of share times, a dead-band, and
    bounded steps. Floating point is modelled over the reals, with the source's explicit rounding. */
module Vardiff {
  import opened Prelude

  /** `round() as u64`: to the nearest integer, halves up, saturating at the ends. */
  function Round(x: real): (n: nat)
    ensures n <= U64_MAX
  {
    Max(Min((x + 0.5).Floor, U64_MAX), 0)
  }

  function Clamp(x: nat, lo: nat, hi: nat): nat { if x < lo then lo else if x > hi then hi else x }

  datatype Settings = Settings(min: nat, max: nat, targetSecs: real, sampleSize: nat, variance: real, gain: real, drop: real)

  /** As the constructor leaves them; the target is a whole number of seconds, so none or at least
      one. */
  predicate Configured(g: Settings) {
    && g.min <= U64_MAX && g.max <= U64_MAX && g.sampleSize >= 1 && 0.0 <= g.variance <= 0.95
    && (g.targetSecs == 0.0 || g.targetSecs >= 1.0)
  }

  /** Step factors in order: in the wrong order a retarget would panic. */
  predicate Workable(g: Settings) { Configured(g) && g.drop <= g.gain }

  /** Step factors on either side of one. */
  predicate Tuned(g: Settings) { Workable(g) && 0.0 <= g.drop <= 1.0 <= g.gain }

  /** Shorter intervals between shares are recorded as this. */
  const MIN_INTERVAL: real := 0.001

  /** `window` holds inter-share times; `lastSubmit` is a clock reading. */
  datatype State = State(current: nat, cap: nat, lastSubmit: real, window: seq<real>)

  function EffectiveMax(g: Settings, cap: nat): nat { Max(Min(g.max, cap), g.min) }

  function SetCap(g: Settings, st: State, upstream: nat): State {
    var ceil := EffectiveMax(g, upstream);
    if st.current > ceil then st.(cap := upstream, current := ceil, window := []) else st.(cap := upstream)
  }

  function PushInterval(g: Settings, st: State, dt: real): State
    requires g.sampleSize >= 1
  {
    var w := st.window + [RealMax(dt, MIN_INTERVAL)];
    st.(window := if |w| > g.sampleSize then w[|w| - g.sampleSize..] else w)
  }

  function OnShare(g: Settings, st: State, now: real): State
    requires g.sampleSize >= 1
  {
    PushInterval(g, st, RealMax(now - st.lastSubmit, 0.0)).(lastSubmit := now)
  }

  function Total(w: seq<real>): real { if w == [] then 0.0 else Total(w[..|w| - 1]) + w[|w| - 1] }

  /** The furthest one change may lower and raise the difficulty. */
  function DropTo(g: Settings, c: nat): nat { Round(c as real * g.drop) }

  function RiseTo(g: Settings, c: nat): nat { Round(c as real * g.gain) }

  /** One decision: stay when settled, else go to the wished difficulty within the step factors and
      within the bounds. */
  function Move(g: Settings, cap: nat, c: nat, settled: bool, wish: nat): nat {
    if settled then c else Clamp(Clamp(wish, DropTo(g, c), RiseTo(g, c)), g.min, EffectiveMax(g, cap))
  }

  /** The difficulty that would hit the target time at the measured average. */
  function Wish(g: Settings, c: nat, avg: real): nat
    requires avg > 0.0
  {
    Round(g.targetSecs / avg * c as real)
  }

  predicate Positive(w: seq<real>) { forall i :: 0 <= i < |w| ==> w[i] > 0.0 }

  lemma {:induction false} TotalPositive(w: seq<real>)
    requires Positive(w)
    ensures Total(w) >= 0.0 && (w != [] ==> Total(w) > 0.0)
  {
    if w != [] { TotalPositive(w[..|w| - 1]); }
  }

  /** A gap beyond the dead-band: the miner has stalled or slowed. */
  predicate Idle(g: Settings, gap: real) { gap > g.targetSecs * (1.0 + g.variance) }

  function Mean(total: real, n: nat): (m: real)
    requires n > 0
    ensures total > 0.0 ==> m > 0.0
  {
    total / n as real
  }

  lemma IdleIsPositive(g: Settings, gap: real)
    requires Configured(g) && Idle(g, gap)
    ensures gap > 0.0
  {
  }

  /** The average a retarget acts on, or none when it must wait for a full window. */
  function Measured(g: Settings, w: seq<real>, gap: real): (avg: Option<real>)
    requires Configured(g) && Positive(w)
    ensures avg.Some? ==> avg.value > 0.0
  {
    TotalPositive(w);
    if Idle(g, gap) then IdleIsPositive(g, gap); Some(Mean(Total(w) + gap, |w| + 1))
    else if |w| < g.sampleSize then None
    else Some(Mean(Total(w), |w|))
  }

  predicate InBand(g: Settings, avg: real) {
    g.targetSecs * (1.0 - g.variance) <= avg <= g.targetSecs * (1.0 + g.variance)
  }

  function Retarget(g: Settings, st: State, gap: real, now: real): State
    requires Configured(g) && Positive(st.window)
  {
    var st0 := st.(current := Min(st.current, EffectiveMax(g, st.cap)));
    var avg := Measured(g, st.window, gap);
    if avg.None? then st0
    else
      var next := Move(g, st.cap, st0.current, InBand(g, avg.value), Wish(g, st0.current, avg.value));
      if next == st0.current then st0
      else st0.(current := next, window := [],
                lastSubmit := if Idle(g, gap) then now else st.lastSubmit)
  }

  // ---------------------------------------------------------------- the controller object

  class Controller {
    const g: Settings
    var current: nat
    var cap: nat
    var lastSubmit: real
    var window: seq<real>
    /** The difficulty each window entry was found at. */
    ghost var foundAt: seq<nat>

    function St(): State
      reads this
    {
      State(current, cap, lastSubmit, window)
    }

    /** Samples are never mixed: everything in the window was found at the current difficulty. */
    ghost predicate Valid()
      reads this
    {
      && Configured(g) && Positive(window) && g.min <= current
      && |foundAt| == |window| && forall i :: 0 <= i < |foundAt| ==> foundAt[i] == current
    }

    /** Holds from the first upstream cap on. */
    ghost predicate Capped()
      reads this
    {
      current <= EffectiveMax(g, cap)
    }

    constructor (g: Settings, initial: nat, now: real)
      requires Configured(g)
      ensures Valid() && this.g == g && St() == State(Max(initial, g.min), U64_MAX, now, [])
    {
      this.g := g;
      current := Max(initial, g.min);
      cap, lastSubmit, window, foundAt := U64_MAX, now, [], [];
    }

    method SetUpstreamCap(upstream: nat)
      requires Valid()
      modifies this
      ensures Valid() && Capped() && St() == SetCap(g, old(St()), upstream)
    {
      cap := upstream;
      var ceil := EffectiveMax(g, cap);
      if current > ceil {
        current := ceil;
        window, foundAt := [], [];
      }
    }

    method RecordShare(now: real)
      requires Valid()
      modifies this
      ensures Valid() && St() == OnShare(g, old(St()), now) && (old(Capped()) ==> Capped())
    {
      var dt := RealMax(now - lastSubmit, 0.0);
      window := window + [RealMax(dt, MIN_INTERVAL)];
      foundAt := foundAt + [current];
      if |window| > g.sampleSize {
        foundAt := foundAt[|window| - g.sampleSize..];
        window := window[|window| - g.sampleSize..];
      }
      lastSubmit := now;
    }

    /** Called at each job boundary, after the cap. */
    method RetargetNow(now: real) returns (diff: nat)
      requires Valid() && g.drop <= g.gain
      modifies this
      ensures St() == Retarget(g, old(St()), RealMax(now - old(lastSubmit), 0.0), now) && diff == current
      ensures old(Capped()) ==> Valid() && Capped()
    {
      var gap := RealMax(now - lastSubmit, 0.0);
      ghost var was := St();
      if current > EffectiveMax(g, cap) { current := EffectiveMax(g, cap); }
      diff := current;
      var avg := Measured(g, window, gap);
      if avg.None? || InBand(g, avg.value) { return; }
      var wish := Wish(g, current, avg.value);
      var next := Clamp(Clamp(wish, DropTo(g, current), RiseTo(g, current)), g.min, EffectiveMax(g, cap));
      if next != current {
        current := next;
        window, foundAt := [], [];
        if Idle(g, gap) { lastSubmit := now; }
      }
      diff := current;
    }
  }

  // ---------------------------------------------------------------- one step

  predicate Between(a: nat, x: nat, b: nat) { a <= x <= b || b <= x <= a }

  function Distance(a: nat, b: nat): nat { if a <= b then b - a else a - b }

  lemma ScaleMonotone(x: real, f: real, h: real)
    requires x >= 0.0 && f <= h
    ensures x * f <= x * h
  {
  }

  lemma RoundBelow(x: real, c: nat)
    requires x <= c as real
    ensures Round(x) <= c
  {
  }

  lemma RoundAbove(x: real, c: nat)
    requires c as real <= x && c <= U64_MAX
    ensures c <= Round(x)
  {
  }

  lemma RoundScaledBelow(c: nat, f: real)
    requires f <= 1.0
    ensures Round(c as real * f) <= c
  {
    ScaleMonotone(c as real, f, 1.0);
    RoundBelow(c as real * f, c);
  }

  lemma RoundScaledAbove(c: nat, f: real)
    requires f >= 1.0 && c <= U64_MAX
    ensures c <= Round(c as real * f)
  {
    ScaleMonotone(c as real, 1.0, f);
    RoundAbove(c as real * f, c);
  }

  /** The step factors straddle the current difficulty. */
  lemma FactorsStraddle(g: Settings, c: nat)
    requires Tuned(g) && c <= U64_MAX
    ensures DropTo(g, c) <= c <= RiseTo(g, c)
  {
    RoundScaledBelow(c, g.drop);
    assert DropTo(g, c) == Round(c as real * g.drop);
    RoundScaledAbove(c, g.gain);
    assert RiseTo(g, c) == Round(c as real * g.gain);
  }

  /** Clamping into a stretch around `c`, then into bounds around `c`, lands between `c` and the
      clamped wish, and stays put only at the wish or at an edge of the stretch. */
  lemma ClampTwice(c: nat, wish: nat, lo: nat, hi: nat, min: nat, max: nat)
    requires lo <= c <= hi && min <= c <= max
    ensures var next, goal := Clamp(Clamp(wish, lo, hi), min, max), Clamp(wish, min, max);
            && min <= next <= max && lo <= next <= hi && Between(c, next, goal)
            && (next != c ==> Distance(next, goal) < Distance(c, goal))
            && (next == c <==> c == goal || (c < goal && hi == c) || (c > goal && lo == c))
  {
  }

  predicate InRange(g: Settings, cap: nat, c: nat) { g.min <= c <= EffectiveMax(g, cap) && c <= U64_MAX }

  /** One decision stays in bounds and within the step factors, moves toward the bounded wish
      without crossing it, and rests exactly when settled, at the wish, or when the step factors
      round to no change. */
  lemma MoveApproaches(g: Settings, cap: nat, c: nat, settled: bool, wish: nat)
    requires Tuned(g) && InRange(g, cap, c)
    ensures var c', goal := Move(g, cap, c, settled, wish), Clamp(wish, g.min, EffectiveMax(g, cap));
            && InRange(g, cap, c') && DropTo(g, c) <= c' <= RiseTo(g, c) && Between(c, c', goal)
            && (c' != c ==> Distance(c', goal) < Distance(c, goal))
            && (c' == c <==> settled || c == goal || (c < goal && RiseTo(g, c) == c) || (c > goal && DropTo(g, c) == c))
  {
    FactorsStraddle(g, c);
    ClampTwice(c, wish, DropTo(g, c), RiseTo(g, c), g.min, EffectiveMax(g, cap));
  }

  /** Under the session's call order the difficulty stays inside its bounds, moves by at most the
      step factors, and the window is emptied exactly when it moves. */
  lemma RetargetBounded(g: Settings, st: State, gap: real, now: real)
    requires Tuned(g) && Positive(st.window) && InRange(g, st.cap, st.current)
    ensures var st' := Retarget(g, st, gap, now);
            && InRange(g, st.cap, st'.current) && st'.cap == st.cap
            && DropTo(g, st.current) <= st'.current <= RiseTo(g, st.current)
            && (st'.current != st.current ==> st'.window == [])
            && (st'.current == st.current ==> st' == st)
  {
    FactorsStraddle(g, st.current);
    var avg := Measured(g, st.window, gap);
    if avg.Some? { MoveApproaches(g, st.cap, st.current, InBand(g, avg.value), Wish(g, st.current, avg.value)); }
  }

  /** Whatever the step factors, a retarget stays inside the bounds. */
  lemma RetargetInRange(g: Settings, st: State, gap: real, now: real)
    requires Configured(g) && Positive(st.window) && g.min <= st.current
    ensures var st' := Retarget(g, st, gap, now); InRange(g, st.cap, st'.current) && Positive(st'.window)
  {
  }

  // ---------------------------------------------------------------- convergence

  /** What the controller records of a steady miner with hash rate `h`: a share every `c / h` seconds,
      or the shortest interval it distinguishes. */
  function Observed(h: real, c: nat): (dt: real)
    requires h > 0.0
    ensures dt >= MIN_INTERVAL
  {
    RealMax(c as real / h, MIN_INTERVAL)
  }

  /** The difficulty a steady miner's measurements ask for. */
  function SteadyWish(g: Settings, h: real, c: nat): nat
    requires h > 0.0
  {
    Wish(g, c, Observed(h, c))
  }

  /** One full-window retarget for a steady miner. */
  function SteadyStep(g: Settings, cap: nat, h: real, c: nat): nat
    requires h > 0.0
  {
    Move(g, cap, c, InBand(g, Observed(h, c)), SteadyWish(g, h, c))
  }

  /** The difficulty at which the miner would hit the target time, and where the bounds let it go. */
  function Ideal(targetSecs: real, h: real): real { targetSecs * h }

  function Goal(g: Settings, cap: nat, h: real): nat { Clamp(Round(Ideal(g.targetSecs, h)), g.min, EffectiveMax(g, cap)) }

  function Iterate(g: Settings, cap: nat, h: real, c: nat, n: nat): nat
    requires h > 0.0
  {
    if n == 0 then c else SteadyStep(g, cap, h, Iterate(g, cap, h, c, n - 1))
  }

  lemma RoundMonotone(x: real, y: real)
    requires x <= y
    ensures Round(x) <= Round(y)
  {
  }

  lemma RawIsIdeal(t: real, h: real, c: real)
    requires h > 0.0 && c / h > 0.0
    ensures t / (c / h) * c == t * h
  {
    var q := c / h;
    assert q * h == c;
    assert t / q * (q * h) == t * h;
  }

  /** Measured on intervals long enough to be told apart, the wish is the ideal difficulty. */
  lemma WishUnclipped(g: Settings, h: real, c: nat)
    requires h > 0.0 && c as real / h >= MIN_INTERVAL
    ensures SteadyWish(g, h, c) == Round(Ideal(g.targetSecs, h))
  {
    RawIsIdeal(g.targetSecs, h, c as real);
  }

  lemma ClippedIsSlow(h: real, c: real)
    requires h > 0.0 && c / h < MIN_INTERVAL
    ensures c * 1000.0 <= h
  {
    var q := c / h;
    assert q * h == c;
    ScaleIff(q, MIN_INTERVAL, h);
  }

  /** The wish on clipped intervals, before rounding. */
  function ClippedRaw(t: real, c: real): real { t * (c * 1000.0) }

  lemma ClippedWish(g: Settings, h: real, c: nat)
    requires h > 0.0 && c as real / h < MIN_INTERVAL
    ensures SteadyWish(g, h, c) == Round(ClippedRaw(g.targetSecs, c as real))
  {
    var t, x := g.targetSecs, c as real;
    assert Observed(h, c) == MIN_INTERVAL;
    assert t / MIN_INTERVAL == t * 1000.0;
    assert t * 1000.0 * x == t * (x * 1000.0);
  }

  lemma RoundBetween(c: nat, raw: real, ideal: real)
    requires c as real <= raw <= ideal && c <= U64_MAX
    ensures Between(c, Round(raw), Round(ideal))
  {
    RoundAbove(raw, c);
    RoundMonotone(raw, ideal);
  }

  lemma ClippedBetween(t: real, h: real, c: real, raw: real)
    requires h > 0.0 && c >= 0.0 && c * 1000.0 <= h && t >= 1.0 && raw == ClippedRaw(t, c)
    ensures c * 1000.0 <= raw <= Ideal(t, h)
  {
    ScaleMonotone(c * 1000.0, 1.0, t);
    ScaleMonotone(t, c * 1000.0, h);
  }

  lemma ClippedStep(t: real, h: real, c: nat, raw: real, ideal: real)
    requires (t == 0.0 || t >= 1.0) && h > 0.0 && c as real * 1000.0 <= h && c <= U64_MAX
    requires raw == ClippedRaw(t, c as real) && ideal == Ideal(t, h)
    ensures Between(c, Round(raw), Round(ideal))
  {
    if t == 0.0 {
      assert raw == 0.0 == ideal;
    } else {
      ClippedBetween(t, h, c as real, raw);
      RoundBetween(c, raw, ideal);
    }
  }

  /** On clipped intervals it lies between the present difficulty and the ideal one. */
  lemma WishClipped(g: Settings, h: real, c: nat)
    requires Configured(g) && h > 0.0 && c as real / h < MIN_INTERVAL && c <= U64_MAX
    ensures Between(c, SteadyWish(g, h, c), Round(Ideal(g.targetSecs, h)))
  {
    ClippedWish(g, h, c);
    ClippedIsSlow(h, c as real);
    ClippedStep(g.targetSecs, h, c, ClippedRaw(g.targetSecs, c as real), Ideal(g.targetSecs, h));
  }

  lemma WishBetween(g: Settings, h: real, c: nat)
    requires Configured(g) && h > 0.0 && c <= U64_MAX
    ensures Between(c, SteadyWish(g, h, c), Round(Ideal(g.targetSecs, h)))
  {
    if c as real / h >= MIN_INTERVAL { WishUnclipped(g, h, c); } else { WishClipped(g, h, c); }
  }

  lemma ClampBetween(c: nat, wish: nat, ideal: nat, min: nat, max: nat)
    requires min <= c <= max && Between(c, wish, ideal)
    ensures Between(c, Clamp(wish, min, max), Clamp(ideal, min, max))
  {
  }

  lemma NearerStill(c: nat, c': nat, near: nat, goal: nat)
    requires Between(c, c', near) && Between(c, near, goal)
    ensures Between(c, c', goal) && (c' != c ==> Distance(c', goal) < Distance(c, goal))
  {
  }

  /** However fast the miner, a step stays in bounds, between where it was and the goal, and strictly
      nearer the goal when it moves. */
  lemma StepApproachesGoal(g: Settings, cap: nat, h: real, c: nat)
    requires Tuned(g) && h > 0.0 && InRange(g, cap, c)
    ensures var c', goal := SteadyStep(g, cap, h, c), Goal(g, cap, h);
            && InRange(g, cap, c') && Between(c, c', goal)
            && (c' != c ==> Distance(c', goal) < Distance(c, goal))
  {
    var wish, max := SteadyWish(g, h, c), EffectiveMax(g, cap);
    MoveApproaches(g, cap, c, InBand(g, Observed(h, c)), wish);
    WishBetween(g, h, c);
    ClampBetween(c, wish, Round(Ideal(g.targetSecs, h)), g.min, max);
    NearerStill(c, SteadyStep(g, cap, h, c), Clamp(wish, g.min, max), Goal(g, cap, h));
  }

  /** A steady miner's difficulty comes to rest after at most as many changes as it is away from
      the goal, never having left the stretch between start and goal. */
  lemma {:induction false} Converges(g: Settings, cap: nat, h: real, c: nat) returns (n: nat)
    requires Tuned(g) && h > 0.0 && InRange(g, cap, c)
    ensures n <= Distance(c, Goal(g, cap, h))
    ensures var rest := Iterate(g, cap, h, c, n);
            SteadyStep(g, cap, h, rest) == rest && InRange(g, cap, rest) && Between(c, rest, Goal(g, cap, h))
    decreases Distance(c, Goal(g, cap, h))
  {
    StepApproachesGoal(g, cap, h, c);
    var c' := SteadyStep(g, cap, h, c);
    if c' == c {
      n := 0;
    } else {
      var m := Converges(g, cap, h, c');
      IterateShift(g, cap, h, c, m);
      n := m + 1;
    }
  }

  lemma {:induction false} IterateShift(g: Settings, cap: nat, h: real, c: nat, n: nat)
    requires h > 0.0
    ensures Iterate(g, cap, h, SteadyStep(g, cap, h, c), n) == Iterate(g, cap, h, c, n + 1)
  {
    if n > 0 { IterateShift(g, cap, h, c, n - 1); }
  }

  // ---------------------------------------------------------------- where it rests

  lemma RoundsToBelow(x: real, c: nat)
    requires c as real <= x && c <= U64_MAX
    ensures Round(x) == c <==> x - c as real < 0.5 || c == U64_MAX
  {
  }

  lemma RoundsToAbove(x: real, c: nat)
    requires x <= c as real && c <= U64_MAX
    ensures Round(x) == c <==> c as real - x <= 0.5 || c == 0
  {
  }

  /** The step factors round to no change exactly when they amount to less than half a unit. */
  lemma RiseSticks(g: Settings, c: nat)
    requires Tuned(g) && c <= U64_MAX
    ensures RiseTo(g, c) == c <==> c as real * (g.gain - 1.0) < 0.5 || c == U64_MAX
  {
    var x := c as real;
    ScaleMonotone(x, 1.0, g.gain);
    RoundsToBelow(x * g.gain, c);
    assert x * (g.gain - 1.0) == x * g.gain - x;
  }

  lemma DropSticks(g: Settings, c: nat)
    requires Tuned(g) && c <= U64_MAX
    ensures DropTo(g, c) == c <==> c as real * (1.0 - g.drop) <= 0.5
  {
    var x := c as real;
    ScaleMonotone(x, g.drop, 1.0);
    RoundsToAbove(x * g.drop, c);
    assert x * (1.0 - g.drop) == x - x * g.drop;
    if c == 0 { assert x * g.drop == 0.0; }
  }

  /** A step up, or down, from here rounds to nothing. */
  predicate RiseShort(g: Settings, c: nat) { c as real * (g.gain - 1.0) < 0.5 }

  predicate DropShort(g: Settings, c: nat) { c as real * (1.0 - g.drop) <= 0.5 }

  /** At the goal, or short of it where the step toward it rounds to nothing. */
  predicate NearEnough(g: Settings, c: nat, goal: nat) {
    c == goal || (c < goal && RiseShort(g, c)) || (c > goal && DropShort(g, c))
  }

  lemma NearEnoughIff(g: Settings, c: nat, goal: nat, lo: nat, hi: nat)
    requires Tuned(g) && c <= U64_MAX && goal <= U64_MAX && lo == DropTo(g, c) && hi == RiseTo(g, c)
    ensures NearEnough(g, c, goal) <==> c == goal || (c < goal && hi == c) || (c > goal && lo == c)
  {
    RiseSticks(g, c);
    DropSticks(g, c);
  }

  lemma ClampFits(x: nat, min: nat, max: nat)
    requires min <= max <= U64_MAX
    ensures min <= Clamp(x, min, max) <= U64_MAX
  {
  }

  lemma RestsCore(settled: bool, c: nat, wish: nat, lo: nat, hi: nat, min: nat, max: nat, near: bool)
    requires lo <= c <= hi && min <= c <= max
    requires var goal := Clamp(wish, min, max); near <==> c == goal || (c < goal && hi == c) || (c > goal && lo == c)
    ensures (if settled then c else Clamp(Clamp(wish, lo, hi), min, max)) == c <==> settled || near
  {
    ClampTwice(c, wish, lo, hi, min, max);
  }

  lemma MoveRestsIff(g: Settings, cap: nat, c: nat, settled: bool, wish: nat)
    requires Tuned(g) && InRange(g, cap, c)
    ensures Move(g, cap, c, settled, wish) == c <==> settled || NearEnough(g, c, Clamp(wish, g.min, EffectiveMax(g, cap)))
  {
    var lo, hi, max := DropTo(g, c), RiseTo(g, c), EffectiveMax(g, cap);
    var goal := Clamp(wish, g.min, max);
    FactorsStraddle(g, c);
    ClampFits(wish, g.min, max);
    NearEnoughIff(g, c, goal, lo, hi);
    RestsCore(settled, c, wish, lo, hi, g.min, max, NearEnough(g, c, goal));
  }

  /** Exactly where a steady miner's difficulty rests: in the dead-band, or near enough to the bounded
      wish. */
  lemma RestsIff(g: Settings, cap: nat, h: real, c: nat)
    requires Tuned(g) && h > 0.0 && InRange(g, cap, c)
    ensures SteadyStep(g, cap, h, c) == c <==>
            InBand(g, Observed(h, c)) || NearEnough(g, c, Clamp(SteadyWish(g, h, c), g.min, EffectiveMax(g, cap)))
  {
    MoveRestsIff(g, cap, c, InBand(g, Observed(h, c)), SteadyWish(g, h, c));
  }

  /** What a retarget finds when it leaves the difficulty alone: no full window and no idle gap, an
      average in the dead-band, or a wish that is near enough. */
  ghost predicate Rests(g: Settings, st: State, gap: real)
    requires Configured(g) && Positive(st.window)
  {
    var avg := Measured(g, st.window, gap);
    avg.Some? ==>
      InBand(g, avg.value) || NearEnough(g, st.current, Clamp(Wish(g, st.current, avg.value), g.min, EffectiveMax(g, st.cap)))
  }

  lemma RetargetRestsIff(g: Settings, st: State, gap: real, now: real)
    requires Tuned(g) && Positive(st.window) && InRange(g, st.cap, st.current)
    ensures Retarget(g, st, gap, now).current == st.current <==> Rests(g, st, gap)
  {
    var avg := Measured(g, st.window, gap);
    if avg.Some? {
      RetargetIsMove(g, st, gap, now, avg.value);
      MoveRestsIff(g, st.cap, st.current, InBand(g, avg.value), Wish(g, st.current, avg.value));
    }
  }

  /** So above a small difficulty, resting means being inside the dead-band or at a bound. */
  lemma RestsInBandOrAtBound(g: Settings, cap: nat, h: real, c: nat)
    requires Tuned(g) && h > 0.0 && InRange(g, cap, c) && SteadyStep(g, cap, h, c) == c
    requires !RiseShort(g, c) && !DropShort(g, c)
    requires 0.5 <= Ideal(g.targetSecs, h) * g.variance && Ideal(g.targetSecs, h) <= U64_MAX as real
    ensures InBand(g, Observed(h, c)) || c == g.min || c == EffectiveMax(g, cap)
  {
    RestsIff(g, cap, h, c);
    if c == SteadyWish(g, h, c) { WishedIsInBand(g, h, c); }
  }

  /** A difficulty that is its own wish is in the dead-band, if that is wider than rounding. */
  lemma WishedIsInBand(g: Settings, h: real, c: nat)
    requires Tuned(g) && h > 0.0 && 0 < c <= U64_MAX && c == SteadyWish(g, h, c)
    requires 0.5 <= Ideal(g.targetSecs, h) * g.variance && Ideal(g.targetSecs, h) <= U64_MAX as real
    ensures InBand(g, Observed(h, c))
  {
    if c as real / h >= MIN_INTERVAL {
      WishUnclipped(g, h, c);
      NearestInBand(g.targetSecs, g.variance, h, c);
    } else {
      ClippedNeverWishesItself(g, h, c);
    }
  }

  lemma TimesBack(x: real, h: real)
    requires h > 0.0
    ensures x / h * h == x
  {
  }

  lemma BandEdge(t: real, v: real, h: real)
    ensures t * (1.0 + v) * h == t * h + t * h * v
  {
    assert t * (1.0 + v) == t + t * v;
    assert t * v * h == t * h * v;
  }

  lemma NearestInBand(t: real, v: real, h: real, c: nat)
    requires h > 0.0 && t * h >= 0.0 && 0.5 <= t * h * v && t * h <= U64_MAX as real && c == Round(t * h)
    ensures t * (1.0 - v) <= c as real / h <= t * (1.0 + v)
  {
    NearestWithin(t * h);
    TimesBack(c as real, h);
    BandEdge(t, v, h);
    BandEdge(t, -v, h);
    Within(t * h, t * h * v, c as real);
    ScaleIff(t * (1.0 - v), c as real / h, h);
    ScaleIff(c as real / h, t * (1.0 + v), h);
  }

  lemma Within(x: real, margin: real, c: real)
    requires x - 0.5 <= c <= x + 0.5 && margin >= 0.5
    ensures x - margin <= c <= x + margin
  {
  }

  lemma NearestWithin(x: real)
    requires 0.0 <= x <= U64_MAX as real
    ensures x - 0.5 <= Round(x) as real <= x + 0.5
  {
  }

  lemma ScaleIff(a: real, b: real, h: real)
    requires h > 0.0
    ensures a <= b <==> a * h <= b * h
  {
    if a <= b { assert (b - a) * h >= 0.0; } else { assert (a - b) * h > 0.0; }
  }

  lemma ClippedRises(t: real, h: real, c: nat, raw: real)
    requires t >= 1.0 && h > 0.0 && c as real * 1000.0 <= h && Ideal(t, h) <= U64_MAX as real && c > 0
    requires raw == ClippedRaw(t, c as real)
    ensures c < Round(raw)
  {
    ClippedBetween(t, h, c as real, raw);
    RoundAbove(raw, c + 1);
  }

  lemma ClippedNeverWishesItself(g: Settings, h: real, c: nat)
    requires Tuned(g) && h > 0.0 && 0 < c <= U64_MAX && c as real / h < MIN_INTERVAL
    requires 0.5 <= Ideal(g.targetSecs, h) * g.variance && Ideal(g.targetSecs, h) <= U64_MAX as real
    ensures c < SteadyWish(g, h, c)
  {
    ClippedWish(g, h, c);
    SomeTarget(g.targetSecs, h, g.variance);
    ClippedIsSlow(h, c as real);
    ClippedRises(g.targetSecs, h, c, ClippedRaw(g.targetSecs, c as real));
  }

  lemma SomeTarget(t: real, h: real, v: real)
    requires t * h * v >= 0.5
    ensures t != 0.0
  {
  }

  // ---------------------------------------------------------------- the controller converges

  function Fill(g: Settings, st: State, dt: real, n: nat): State
    requires g.sampleSize >= 1
  {
    if n == 0 then st else PushInterval(g, Fill(g, st, dt, n - 1), dt)
  }

  lemma {:induction false} FillTail(g: Settings, st: State, dt: real, n: nat)
    requires Configured(g) && |st.window| <= g.sampleSize && n <= g.sampleSize
    ensures var f := Fill(g, st, dt, n);
            && f == st.(window := f.window) && n <= |f.window| <= g.sampleSize
            && (forall i :: |f.window| - n <= i < |f.window| ==> f.window[i] == RealMax(dt, MIN_INTERVAL))
            && (Positive(st.window) ==> Positive(f.window))
  {
    if n > 0 { FillTail(g, st, dt, n - 1); }
  }

  lemma {:induction false} TotalConstant(w: seq<real>, dt: real)
    requires forall i :: 0 <= i < |w| ==> w[i] == dt
    ensures Total(w) == |w| as real * dt
  {
    if w != [] {
      TotalConstant(w[..|w| - 1], dt);
      assert |w| as real * dt == (|w| - 1) as real * dt + dt;
    }
  }

  /** One round of a steady miner: a full window of shares at the current difficulty, then a
      retarget that is not idle. */
  function SteadyRound(g: Settings, st: State, h: real, gap: real, now: real): State
    requires Configured(g) && |st.window| <= g.sampleSize && Positive(st.window) && h > 0.0
  {
    FillTail(g, st, st.current as real / h, g.sampleSize);
    Retarget(g, Fill(g, st, st.current as real / h, g.sampleSize), gap, now)
  }

  /** The controller's own retarget, fed by a steady miner, is the steady step. */
  lemma RoundIsSteadyStep(g: Settings, st: State, h: real, gap: real, now: real)
    requires Configured(g) && |st.window| <= g.sampleSize && Positive(st.window)
    requires h > 0.0 && InRange(g, st.cap, st.current) && !Idle(g, gap)
    ensures var st' := SteadyRound(g, st, h, gap, now);
            && st'.current == SteadyStep(g, st.cap, h, st.current)
            && st'.cap == st.cap && |st'.window| <= g.sampleSize && Positive(st'.window)
  {
    var dt := st.current as real / h;
    FillTail(g, st, dt, g.sampleSize);
    var full := Fill(g, st, dt, g.sampleSize);
    MeasuredConstant(g, full.window, Observed(h, st.current), gap);
    RetargetIsMove(g, full, gap, now, Observed(h, st.current));
  }

  lemma RetargetIsMove(g: Settings, st: State, gap: real, now: real, dt: real)
    requires Configured(g) && Positive(st.window) && InRange(g, st.cap, st.current)
    requires Measured(g, st.window, gap) == Some(dt)
    ensures var st' := Retarget(g, st, gap, now);
            && st'.current == Move(g, st.cap, st.current, InBand(g, dt), Wish(g, st.current, dt))
            && st'.cap == st.cap && (st'.window == [] || st'.window == st.window)
  {
  }

  lemma MeasuredConstant(g: Settings, w: seq<real>, dt: real, gap: real)
    requires Configured(g) && |w| == g.sampleSize && dt > 0.0 && !Idle(g, gap) && Positive(w)
    requires forall i :: 0 <= i < |w| ==> w[i] == dt
    ensures Measured(g, w, gap) == Some(dt)
  {
    TotalConstant(w, dt);
    MeanOfConstant(|w|, dt);
    assert Mean(Total(w), |w|) == dt;
  }

  lemma MeanOfConstant(n: nat, dt: real)
    requires n >= 1
    ensures Mean(n as real * dt, n) == dt
  {
  }

  /** A controller in its bounds, serving a miner of any hash rate. */
  ghost predicate Steady(g: Settings, st: State, h: real) {
    && Tuned(g) && |st.window| <= g.sampleSize && Positive(st.window) && InRange(g, st.cap, st.current)
    && h > 0.0
  }

  ghost predicate SteadyNext(g: Settings, h: real, st: State, st': State) {
    Steady(g, st, h) && exists gap, now :: !Idle(g, gap) && st' == SteadyRound(g, st, h, gap, now)
  }

  /** A run of full-window retargets of one steady miner, whatever the clock readings. */
  ghost predicate SteadyRun(g: Settings, h: real, run: seq<State>) {
    && |run| > 0 && Steady(g, run[0], h)
    && forall i :: 0 < i < |run| ==> SteadyNext(g, h, run[i - 1], run[i])
  }

  lemma RoundKeepsSteady(g: Settings, h: real, st: State, st': State)
    requires SteadyNext(g, h, st, st')
    ensures Steady(g, st', h) && st'.cap == st.cap && st'.current == SteadyStep(g, st.cap, h, st.current)
  {
    var gap, now :| !Idle(g, gap) && st' == SteadyRound(g, st, h, gap, now);
    RoundIsSteadyStep(g, st, h, gap, now);
    StepApproachesGoal(g, st.cap, h, st.current);
  }

  lemma {:induction false} RunIterates(g: Settings, h: real, run: seq<State>, i: nat)
    requires SteadyRun(g, h, run) && i < |run|
    ensures Steady(g, run[i], h) && run[i].cap == run[0].cap
    ensures run[i].current == Iterate(g, run[0].cap, h, run[0].current, i)
  {
    if i > 0 {
      RunIterates(g, h, run, i - 1);
      RoundKeepsSteady(g, h, run[i - 1], run[i]);
    }
  }

  lemma {:induction false} StaysAtRest(g: Settings, cap: nat, h: real, c: nat, n: nat, m: nat)
    requires h > 0.0 && n <= m
    requires var rest := Iterate(g, cap, h, c, n); SteadyStep(g, cap, h, rest) == rest
    ensures Iterate(g, cap, h, c, m) == Iterate(g, cap, h, c, n)
    decreases m
  {
    if n < m { StaysAtRest(g, cap, h, c, n, m - 1); }
  }

  /** The controller serving a steady miner, however fast, is at rest after as many full-window
      retargets as its difficulty is away from the goal, and it never left the stretch in between. */
  lemma ControllerComesToRest(g: Settings, h: real, run: seq<State>, i: nat)
    requires SteadyRun(g, h, run)
    requires Distance(run[0].current, Goal(g, run[0].cap, h)) <= i < |run|
    ensures SteadyStep(g, run[0].cap, h, run[i].current) == run[i].current
    ensures Between(run[0].current, run[i].current, Goal(g, run[0].cap, h))
  {
    var n := Converges(g, run[0].cap, h, run[0].current);
    StaysAtRest(g, run[0].cap, h, run[0].current, n, i);
    RunIterates(g, h, run, i);
  }
}
