/** Per-circuit token buckets with a global ceiling and eviction of idle circuits. Times and token
    counts are modelled over the reals. */
module RateLimiter {
  import opened Prelude

  const SWEEP_EVERY: nat := 256

  /** Refills at `rate` per second, holding at most `rate`. */
  datatype Bucket = Bucket(tokens: real, last: real)

  /** Tokens in the bucket at a time: what a refill would leave. */
  function Level(b: Bucket, rate: real, now: real): real {
    RealMin(b.tokens + RealMax(now - b.last, 0.0) * rate, rate)
  }

  function Refill(b: Bucket, rate: real, now: real): Bucket { Bucket(Level(b, rate, now), now) }

  function Spend(b: Bucket, rate: real, now: real): (Bucket, bool) {
    var r := Refill(b, rate, now);
    if r.tokens >= 1.0 then (r.(tokens := r.tokens - 1.0), true) else (r, false)
  }

  type Circuits = map<nat, Bucket>

  /** The sweep: every bucket is refilled, and those found full are dropped. */
  function Swept(m: Circuits, rate: real, now: real): Circuits {
    map k | k in m && Level(m[k], rate, now) < rate :: Refill(m[k], rate, now)
  }

  function BucketOf(m: Circuits, k: nat, rate: real, now: real): Bucket {
    if k in m then m[k] else Bucket(rate, now)
  }

  datatype Limiter = Limiter(circuits: Circuits, global: Bucket, calls: nat)

  datatype Rates = Rates(circuit: real, global: real)

  /** One request: its circuit's bucket first, the global one only if that admits it. */
  function AllowIn(m: Circuits, l: Limiter, r: Rates, key: nat, now: real): (Limiter, bool) {
    var (b, ok) := Spend(BucketOf(m, key, r.circuit, now), r.circuit, now);
    var l1 := Limiter(m[key := b], l.global, l.calls + 1);
    if !ok then (l1, false)
    else var (g, ok') := Spend(l.global, r.global, now); (l1.(global := g), ok')
  }

  function Allow(l: Limiter, r: Rates, key: nat, now: real): (Limiter, bool) {
    var m := if l.calls % SWEEP_EVERY == 0 then Swept(l.circuits, r.circuit, now) else l.circuits;
    AllowIn(m, l, r, key, now)
  }

  /** The simple form: the same limiter that never forgets a circuit. */
  function AllowNoSweep(l: Limiter, r: Rates, key: nat, now: real): (Limiter, bool) {
    AllowIn(l.circuits, l, r, key, now)
  }

  class CircuitLimiter {
    const r: Rates
    var circuits: Circuits
    var global: Bucket
    var calls: nat

    function St(): Limiter
      reads this
    {
      Limiter(circuits, global, calls)
    }

    constructor (perCircuitRate: real, globalRate: real, now: real)
      ensures r == Rates(perCircuitRate, globalRate) && St() == Limiter(map[], Bucket(globalRate, now), 0)
    {
      r := Rates(perCircuitRate, globalRate);
      circuits, global, calls := map[], Bucket(globalRate, now), 0;
    }

    method AllowRequest(key: nat, now: real) returns (ok: bool)
      modifies this
      ensures (St(), ok) == Allow(old(St()), r, key, now)
    {
      var before := calls;
      calls := calls + 1;
      if before % SWEEP_EVERY == 0 { circuits := Swept(circuits, r.circuit, now); }
      var b := if key in circuits then circuits[key] else Bucket(r.circuit, now);
      b := Refill(b, r.circuit, now);
      ok := b.tokens >= 1.0;
      if ok { b := b.(tokens := b.tokens - 1.0); }
      circuits := circuits[key := b];
      if !ok { return; }
      global := Refill(global, r.global, now);
      ok := global.tokens >= 1.0;
      if ok { global := global.(tokens := global.tokens - 1.0); }
    }
  }

  // ---------------------------------------------------------------- eviction is unobservable

  predicate Sound(b: Bucket, rate: real, now: real) { 0.0 <= b.tokens <= rate && b.last <= now }

  ghost predicate AllSound(m: Circuits, rate: real, now: real) { forall k :: k in m ==> Sound(m[k], rate, now) }

  /** The tokens a circuit has to spend; an unknown one has a full bucket. */
  function LevelOf(m: Circuits, k: nat, rate: real, now: real): real {
    if k in m then Level(m[k], rate, now) else rate
  }

  /** A full bucket and a forgotten one are the same to every circuit. */
  ghost predicate Agree(m: Circuits, p: Circuits, rate: real, now: real) {
    forall k :: LevelOf(m, k, rate, now) == LevelOf(p, k, rate, now)
  }

  /** Refilling in two goes is refilling in one. */
  lemma RefillComposes(b: Bucket, rate: real, s: real, t: real)
    requires rate >= 0.0 && Sound(b, rate, s) && s <= t
    ensures Level(b, rate, t) == RealMin(Level(b, rate, s) + (t - s) * rate, rate)
  {
    assert (t - b.last) * rate == (s - b.last) * rate + (t - s) * rate;
    assert (t - s) * rate >= 0.0;
  }

  lemma LevelWithin(b: Bucket, rate: real, now: real)
    requires rate >= 0.0 && Sound(b, rate, now)
    ensures b.tokens <= Level(b, rate, now) <= rate && 0.0 <= Level(b, rate, now)
  {
    assert (now - b.last) * rate >= 0.0;
  }

  lemma LevelOfLater(m: Circuits, k: nat, rate: real, s: real, t: real)
    requires rate >= 0.0 && AllSound(m, rate, s) && s <= t
    ensures LevelOf(m, k, rate, t) == RealMin(LevelOf(m, k, rate, s) + (t - s) * rate, rate)
  {
    if k in m { RefillComposes(m[k], rate, s, t); } else { assert (t - s) * rate >= 0.0; }
  }

  lemma AgreeLater(m: Circuits, p: Circuits, rate: real, s: real, t: real)
    requires rate >= 0.0 && AllSound(m, rate, s) && AllSound(p, rate, s) && s <= t && Agree(m, p, rate, s)
    ensures Agree(m, p, rate, t)
  {
    forall k ensures LevelOf(m, k, rate, t) == LevelOf(p, k, rate, t) {
      LevelOfLater(m, k, rate, s, t);
      LevelOfLater(p, k, rate, s, t);
    }
  }

  lemma RefilledLevel(b: Bucket, rate: real, now: real)
    ensures Level(Refill(b, rate, now), rate, now) == Level(b, rate, now)
  {
  }

  lemma SweepAgrees(m: Circuits, rate: real, now: real)
    requires rate >= 0.0 && AllSound(m, rate, now)
    ensures Agree(Swept(m, rate, now), m, rate, now) && AllSound(Swept(m, rate, now), rate, now)
  {
    forall k ensures LevelOf(Swept(m, rate, now), k, rate, now) == LevelOf(m, k, rate, now) {
      if k in m { LevelWithin(m[k], rate, now); RefilledLevel(m[k], rate, now); }
    }
    forall k | k in Swept(m, rate, now) ensures Sound(Swept(m, rate, now)[k], rate, now) {
      LevelWithin(m[k], rate, now);
    }
  }

  ghost predicate LimiterOk(l: Limiter, r: Rates, now: real) {
    && r.circuit >= 0.0 && r.global >= 0.0
    && AllSound(l.circuits, r.circuit, now) && Sound(l.global, r.global, now)
  }

  /** Spending is decided by the level alone, and leaves the level less one. */
  lemma SpendByLevel(b: Bucket, rate: real, now: real)
    requires rate >= 0.0 && Sound(b, rate, now)
    ensures var (b', ok) := Spend(b, rate, now);
            && (ok <==> Level(b, rate, now) >= 1.0) && Sound(b', rate, now)
            && Level(b', rate, now) == Level(b, rate, now) - (if ok then 1.0 else 0.0)
  {
    LevelWithin(b, rate, now);
  }

  lemma AllowInKeeps(m: Circuits, l: Limiter, r: Rates, key: nat, now: real)
    requires LimiterOk(l, r, now) && AllSound(m, r.circuit, now)
    ensures var (l', ok) := AllowIn(m, l, r, key, now);
            && LimiterOk(l', r, now) && l'.calls == l.calls + 1
            && var passed := LevelOf(m, key, r.circuit, now) >= 1.0;
               && (ok <==> passed && Level(l.global, r.global, now) >= 1.0)
               && LevelOf(l'.circuits, key, r.circuit, now) == LevelOf(m, key, r.circuit, now) - (if passed then 1.0 else 0.0)
               && (forall k :: k != key ==> LevelOf(l'.circuits, k, r.circuit, now) == LevelOf(m, k, r.circuit, now))
               && l'.global == (if passed then Spend(l.global, r.global, now).0 else l.global)
  {
    SpendByLevel(BucketOf(m, key, r.circuit, now), r.circuit, now);
    SpendByLevel(l.global, r.global, now);
  }

  datatype Call = Call(key: nat, at: real)

  ghost predicate Chronological(calls: seq<Call>, from: real) {
    (forall i :: 0 <= i < |calls| ==> from <= calls[i].at) &&
    (forall i, j :: 0 <= i < j < |calls| ==> calls[i].at <= calls[j].at)
  }

  /** The state after a sequence of calls and the answers given, with or without sweeping. */
  function Serve(l: Limiter, r: Rates, calls: seq<Call>, sweep: bool): (Limiter, seq<bool>) {
    if calls == [] then (l, [])
    else
      var n := |calls| - 1;
      var (l1, answers) := Serve(l, r, calls[..n], sweep);
      var (l2, ok) := if sweep then Allow(l1, r, calls[n].key, calls[n].at) else AllowNoSweep(l1, r, calls[n].key, calls[n].at);
      (l2, answers + [ok])
  }

  ghost predicate Twins(l: Limiter, p: Limiter, r: Rates, now: real) {
    && LimiterOk(l, r, now) && LimiterOk(p, r, now) && l.global == p.global
    && Agree(l.circuits, p.circuits, r.circuit, now)
  }

  lemma OkLater(l: Limiter, r: Rates, s: real, t: real)
    requires LimiterOk(l, r, s) && s <= t
    ensures LimiterOk(l, r, t)
  {
  }

  lemma StepTwins(l: Limiter, p: Limiter, r: Rates, s: real, key: nat, t: real)
    requires Twins(l, p, r, s) && s <= t
    ensures var (l', ok), (p', ok') := Allow(l, r, key, t), AllowNoSweep(p, r, key, t);
            ok == ok' && Twins(l', p', r, t)
  {
    OkLater(l, r, s, t);
    OkLater(p, r, s, t);
    AgreeLater(l.circuits, p.circuits, r.circuit, s, t);
    SweepAgrees(l.circuits, r.circuit, t);
    var m := if l.calls % SWEEP_EVERY == 0 then Swept(l.circuits, r.circuit, t) else l.circuits;
    AllowInKeeps(m, l, r, key, t);
    AllowInKeeps(p.circuits, p, r, key, t);
  }

  /** Dropping full buckets changes no answer: the sweeping limiter and the one that remembers every
      circuit admit and refuse the same requests, in every chronological sequence. */
  lemma {:induction false} EvictionUnobservable(l: Limiter, p: Limiter, r: Rates, from: real, calls: seq<Call>)
    requires Twins(l, p, r, from) && Chronological(calls, from)
    ensures Serve(l, r, calls, true).1 == Serve(p, r, calls, false).1
    ensures Twins(Serve(l, r, calls, true).0, Serve(p, r, calls, false).0, r, End(calls, from))
    decreases |calls|
  {
    if calls != [] {
      var n := |calls| - 1;
      EvictionUnobservable(l, p, r, from, calls[..n]);
      var (l1, p1) := (Serve(l, r, calls[..n], true).0, Serve(p, r, calls[..n], false).0);
      StepTwins(l1, p1, r, End(calls[..n], from), calls[n].key, calls[n].at);
    }
  }

  /** The time of the last call, or the start. */
  function End(calls: seq<Call>, from: real): real { if calls == [] then from else calls[|calls| - 1].at }

  // ---------------------------------------------------------------- admission bounds

  /** Requests admitted: of one circuit, or of all. */
  function Admitted(calls: seq<Call>, answers: seq<bool>, key: Option<nat>): nat
    requires |calls| == |answers|
  {
    if calls == [] then 0
    else
      var n := |calls| - 1;
      Admitted(calls[..n], answers[..n], key) +
      (if answers[n] && (key.None? || key.value == calls[n].key) then 1 else 0)
  }

  lemma {:induction false} AnswersLength(l: Limiter, r: Rates, calls: seq<Call>, sweep: bool)
    ensures |Serve(l, r, calls, sweep).1| == |calls|
  {
    if calls != [] { AnswersLength(l, r, calls[..|calls| - 1], sweep); }
  }

  /** What accrues to a bucket over a stretch of time. */
  function Accrued(rate: real, from: real, until: real): real { (until - from) * rate }

  lemma AccruedAdds(rate: real, a: real, b: real, c: real)
    ensures Accrued(rate, a, c) == Accrued(rate, a, b) + Accrued(rate, b, c)
  {
  }

  /** Spending or not, a bucket ends a call with at most what it had and what accrued, less what it
      was charged. */
  lemma LevelBudget(m: Circuits, rate: real, s: real, t: real, k: nat)
    requires rate >= 0.0 && AllSound(m, rate, s) && s <= t
    ensures LevelOf(m, k, rate, t) <= LevelOf(m, k, rate, s) + Accrued(rate, s, t)
  {
    LevelOfLater(m, k, rate, s, t);
  }

  lemma CircuitCharged(l: Limiter, r: Rates, call: Call, k: nat)
    requires LimiterOk(l, r, call.at)
    ensures var (l', ok) := AllowNoSweep(l, r, call.key, call.at);
            && LimiterOk(l', r, call.at)
            && LevelOf(l'.circuits, k, r.circuit, call.at) + (if ok && call.key == k then 1.0 else 0.0)
                 <= LevelOf(l.circuits, k, r.circuit, call.at)
  {
    AllowInKeeps(l.circuits, l, r, call.key, call.at);
  }

  lemma GlobalCharged(l: Limiter, r: Rates, call: Call)
    requires LimiterOk(l, r, call.at)
    ensures var (l', ok) := AllowNoSweep(l, r, call.key, call.at);
            && LimiterOk(l', r, call.at)
            && Level(l'.global, r.global, call.at) + (if ok then 1.0 else 0.0) <= Level(l.global, r.global, call.at)
  {
    AllowInKeeps(l.circuits, l, r, call.key, call.at);
    SpendByLevel(l.global, r.global, call.at);
  }

  /** Every admission is paid for: what a circuit was admitted and still has never exceeds a full
      bucket plus what accrued. */
  lemma {:induction false} CircuitBudget(l: Limiter, r: Rates, from: real, calls: seq<Call>, k: nat)
    requires LimiterOk(l, r, from) && Chronological(calls, from)
    ensures var (l', answers) := Serve(l, r, calls, false);
            && |answers| == |calls| && LimiterOk(l', r, End(calls, from))
            && Admitted(calls, answers, Some(k)) as real + LevelOf(l'.circuits, k, r.circuit, End(calls, from))
                 <= r.circuit + Accrued(r.circuit, from, End(calls, from))
    decreases |calls|
  {
    if calls == [] {
      if k in l.circuits { LevelWithin(l.circuits[k], r.circuit, from); }
    } else {
      var n := |calls| - 1;
      var s, t := End(calls[..n], from), calls[n].at;
      CircuitBudget(l, r, from, calls[..n], k);
      var (l1, answers) := Serve(l, r, calls[..n], false);
      var ok := AllowNoSweep(l1, r, calls[n].key, t).1;
      assert (answers + [ok])[..n] == answers;
      OkLater(l1, r, s, t);
      LevelBudget(l1.circuits, r.circuit, s, t, k);
      CircuitCharged(l1, r, calls[n], k);
      AccruedAdds(r.circuit, from, s, t);
    }
  }

  lemma {:induction false} GlobalBudget(l: Limiter, r: Rates, from: real, calls: seq<Call>)
    requires LimiterOk(l, r, from) && Chronological(calls, from)
    ensures var (l', answers) := Serve(l, r, calls, false);
            && |answers| == |calls| && LimiterOk(l', r, End(calls, from))
            && Admitted(calls, answers, None) as real + Level(l'.global, r.global, End(calls, from))
                 <= r.global + Accrued(r.global, from, End(calls, from))
    decreases |calls|
  {
    if calls == [] {
      LevelWithin(l.global, r.global, from);
    } else {
      var n := |calls| - 1;
      var s, t := End(calls[..n], from), calls[n].at;
      GlobalBudget(l, r, from, calls[..n]);
      var (l1, answers) := Serve(l, r, calls[..n], false);
      var ok := AllowNoSweep(l1, r, calls[n].key, t).1;
      assert (answers + [ok])[..n] == answers;
      OkLater(l1, r, s, t);
      LevelBudget(map[0 := l1.global], r.global, s, t, 0);
      GlobalCharged(l1, r, calls[n]);
      AccruedAdds(r.global, from, s, t);
    }
  }

  lemma CircuitWithin(l: Limiter, r: Rates, from: real, calls: seq<Call>, k: nat, bound: real)
    requires LimiterOk(l, r, from) && Chronological(calls, from) && r.circuit + Accrued(r.circuit, from, End(calls, from)) <= bound
    ensures var answers := Serve(l, r, calls, false).1;
            |answers| == |calls| && Admitted(calls, answers, Some(k)) as real <= bound
  {
    CircuitBudget(l, r, from, calls, k);
    LevelOfNonNegative(Serve(l, r, calls, false).0.circuits, k, r.circuit, End(calls, from));
  }

  lemma GlobalWithin(l: Limiter, r: Rates, from: real, calls: seq<Call>, bound: real)
    requires LimiterOk(l, r, from) && Chronological(calls, from) && r.global + Accrued(r.global, from, End(calls, from)) <= bound
    ensures var answers := Serve(l, r, calls, false).1;
            |answers| == |calls| && Admitted(calls, answers, None) as real <= bound
  {
    GlobalBudget(l, r, from, calls);
    LevelWithin(Serve(l, r, calls, false).0.global, r.global, End(calls, from));
  }

  /** From any state the limiter can be in, requests spread over `span` seconds are admitted at most
      `rate * (1 + span)` times per circuit and `globalRate * (1 + span)` times in all. */
  lemma AdmissionBounded(l: Limiter, r: Rates, from: real, calls: seq<Call>, k: nat, span: real)
    requires LimiterOk(l, r, from) && Chronological(calls, from) && End(calls, from) <= from + span
    ensures var answers := Serve(l, r, calls, true).1;
            && |answers| == |calls|
            && Admitted(calls, answers, Some(k)) as real <= r.circuit * (1.0 + span)
            && Admitted(calls, answers, None) as real <= r.global * (1.0 + span)
  {
    EvictionUnobservable(l, l, r, from, calls);
    assert Serve(l, r, calls, false).1 == Serve(l, r, calls, true).1;
    CircuitInSpan(l, r, from, calls, k, span);
    GlobalInSpan(l, r, from, calls, span);
  }

  lemma CircuitInSpan(l: Limiter, r: Rates, from: real, calls: seq<Call>, k: nat, span: real)
    requires LimiterOk(l, r, from) && Chronological(calls, from) && End(calls, from) <= from + span
    ensures var answers := Serve(l, r, calls, false).1;
            |answers| == |calls| && Admitted(calls, answers, Some(k)) as real <= r.circuit * (1.0 + span)
  {
    WithinSpan(r.circuit, from, End(calls, from), span);
    CircuitWithin(l, r, from, calls, k, r.circuit * (1.0 + span));
  }

  lemma GlobalInSpan(l: Limiter, r: Rates, from: real, calls: seq<Call>, span: real)
    requires LimiterOk(l, r, from) && Chronological(calls, from) && End(calls, from) <= from + span
    ensures var answers := Serve(l, r, calls, false).1;
            |answers| == |calls| && Admitted(calls, answers, None) as real <= r.global * (1.0 + span)
  {
    WithinSpan(r.global, from, End(calls, from), span);
    GlobalWithin(l, r, from, calls, r.global * (1.0 + span));
  }

  lemma LevelOfNonNegative(m: Circuits, k: nat, rate: real, now: real)
    requires rate >= 0.0 && AllSound(m, rate, now)
    ensures LevelOf(m, k, rate, now) >= 0.0
  {
    if k in m { LevelWithin(m[k], rate, now); }
  }

  lemma WithinSpan(rate: real, from: real, until: real, span: real)
    requires rate >= 0.0 && until <= from + span
    ensures rate + Accrued(rate, from, until) <= rate * (1.0 + span)
  {
    ProductNonNegative(rate, from + span - until);
    assert rate * (from + span - until) == rate * (1.0 + span) - rate - (until - from) * rate;
  }

  lemma ProductNonNegative(a: real, b: real)
    requires a >= 0.0 && b >= 0.0
    ensures a * b >= 0.0
  {
  }
}
