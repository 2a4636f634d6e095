/** Mint solvency: whatever the lossy balance cache goes through, the tokens minted to miners and
    to the fee swapper stay within the value of the shares that earned them. */
module Mint {
  import opened Prelude
  import opened Voucher

  // ---------------------------------------------------------------- the rate

  datatype PpsInputs = PpsInputs(
    blockReward: real, networkDifficulty: real, upstreamFee: real, poolFee: real,
    riskBuffer: real, operationalCost: real, poolHashrate: real)

  datatype PpsBreakdown = PpsBreakdown(rawPerDiff: real, afterMargin: real, opCostTerm: real, rate: real, feePerDiff: real)

  function Compute(i: PpsInputs): PpsBreakdown {
    var net := RealMax(i.networkDifficulty, 1.0);
    var hash := RealMax(i.poolHashrate, 1.0);
    var raw := i.blockReward * (1.0 - i.upstreamFee) / net;
    var afterMargin := raw * (1.0 - i.poolFee - i.riskBuffer);
    var opCost := i.operationalCost / hash;
    PpsBreakdown(raw, afterMargin, opCost, RealMax(afterMargin - opCost, 0.0), raw * RealMax(i.poolFee, 0.0))
  }

  /** Fees and buffer are fractions, costs and rewards are not negative. */
  predicate Sane(i: PpsInputs) {
    && i.blockReward >= 0.0 && i.upstreamFee <= 1.0 && i.operationalCost >= 0.0
    && 0.0 <= i.poolFee && 0.0 <= i.riskBuffer && i.poolFee + i.riskBuffer <= 1.0
  }

  /** Miner rate, pool fee and risk buffer come out of one raw credit. */
  lemma RatesFitRaw(i: PpsInputs)
    requires Sane(i)
    ensures var b := Compute(i);
            && 0.0 <= b.rate && 0.0 <= b.feePerDiff && 0.0 <= b.rawPerDiff
            && b.rate + b.feePerDiff + b.rawPerDiff * i.riskBuffer <= b.rawPerDiff
  {
    var b, net := Compute(i), RealMax(i.networkDifficulty, 1.0);
    var raw := b.rawPerDiff;
    MulNonNegative(i.blockReward, 1.0 - i.upstreamFee);
    assert 0.0 <= raw;
    assert raw * (1.0 - i.poolFee - i.riskBuffer) == raw - raw * i.poolFee - raw * i.riskBuffer;
    MulNonNegative(raw, i.poolFee);
    MulNonNegative(raw, i.riskBuffer);
    MulNonNegative(raw, 1.0 - i.poolFee - i.riskBuffer);
  }

  lemma MulNonNegative(a: real, b: real)
    requires a >= 0.0 && b >= 0.0
    ensures a * b >= 0.0
  {
  }

  /** Flooring the two parts of a share separately loses value, never creates it. */
  lemma ShareWorth(i: PpsInputs, difficulty: nat)
    requires Sane(i)
    ensures var (credit, fee, value) := ShareParts(i, difficulty);
            0 <= credit && 0 <= fee && (credit + fee) as real <= value
  {
    RatesFitRaw(i);
    var b, d := Compute(i), difficulty as real;
    MulNonNegative(b.rate, d);
    MulNonNegative(b.feePerDiff, d);
    MulNonNegative(b.rawPerDiff, i.riskBuffer);
    MulNonNegative(b.rawPerDiff - b.rate - b.feePerDiff, d);
    assert b.rate * d + b.feePerDiff * d + (b.rawPerDiff - b.rate - b.feePerDiff) * d == b.rawPerDiff * d;
  }

  // ---------------------------------------------------------------- the fee swap

  /** Largest fee mint the wallet surplus over the reserve allows, at most `maxSwap`. */
  function MintableFee(unlocked: nat, supply: nat, pending: nat, ratio: real, maxSwap: nat): int {
    MintableAt(unlocked as real, (supply + pending) as real, RealMax(ratio, 1.0), maxSwap)
  }

  function MintableAt(unlocked: real, outstanding: real, ratio: real, maxSwap: nat): int
    requires ratio >= 1.0
  {
    var surplus := unlocked - outstanding * ratio;
    if surplus <= 0.0 then 0 else Min((surplus / ratio).Floor, maxSwap)
  }

  predicate ReserveHolds(unlocked: nat, outstanding: nat, ratio: real) {
    outstanding as real * RealMax(ratio, 1.0) <= unlocked as real
  }

  /** A mint up to the computed bound keeps the reserve, and within `maxSwap` no larger one does. */
  lemma MintableFeeIsLargest(unlocked: nat, supply: nat, pending: nat, ratio: real, maxSwap: nat, delta: nat)
    requires 0 < delta <= maxSwap
    ensures delta <= MintableFee(unlocked, supply, pending, ratio, maxSwap) <==>
            ReserveHolds(unlocked, supply + pending + delta, ratio)
  {
    assert (supply + pending + delta) as real == (supply + pending) as real + delta as real;
    MintableAtIsLargest(unlocked as real, (supply + pending) as real, RealMax(ratio, 1.0), maxSwap, delta);
  }

  lemma MintableAtIsLargest(unlocked: real, outstanding: real, ratio: real, maxSwap: nat, delta: nat)
    requires ratio >= 1.0 && 0 < delta <= maxSwap
    ensures delta <= MintableAt(unlocked, outstanding, ratio, maxSwap) <==> (outstanding + delta as real) * ratio <= unlocked
  {
    Affordable(unlocked, outstanding, ratio, delta as real);
    FloorIff(delta, (unlocked - outstanding * ratio) / ratio);
  }

  lemma Affordable(u: real, out: real, r: real, d: real)
    requires r > 0.0 && d > 0.0
    ensures d <= (u - out * r) / r <==> (out + d) * r <= u
    ensures u - out * r <= 0.0 ==> !((out + d) * r <= u)
  {
    assert (out + d) * r == out * r + d * r;
    DivIff(d, u - out * r, r);
    assert d * r > 0.0;
  }

  lemma FloorIff(n: int, x: real)
    ensures n <= x.Floor <==> n as real <= x
  {
  }

  lemma DivIff(d: real, s: real, r: real)
    requires r > 0.0
    ensures d <= s / r <==> d * r <= s
  {
    assert s / r * r == s;
    if d <= s / r { assert (s / r - d) * r >= 0.0; }
    if d > s / r { assert (d - s / r) * r > 0.0; }
  }

  function SwapDelta(accrued: nat, alreadyMinted: nat, maxSwap: nat, walletCap: Option<nat>): nat {
    if accrued <= alreadyMinted then 0
    else
      var delta := Min(accrued - alreadyMinted, maxSwap);
      if walletCap.Some? then Min(delta, walletCap.value) else delta
  }

  // ---------------------------------------------------------------- the mint as a whole

  /** `credited`, `feeCredited` and `worth` are history: everything ever credited to each miner, all
      fees ever accrued, and the raw value of the credited shares. `feeAccrued` inside the cache may
      be lost; `claimed` and `minted` live on chain. */
  datatype System = System(
    cache: Balances, signed: set<Signed>, claimed: map<nat, nat>, minted: nat,
    credited: map<nat, nat>, feeCredited: nat, worth: real)

  predicate Init(s: System) {
    s == System(NO_BALANCES, {}, map[], 0, map[], 0, 0.0)
  }

  datatype Action =
    | Share(user: nat, pps: PpsInputs, difficulty: nat, feeLands: bool)
    | LoseEarned(user: nat) | LoseVoucher(user: nat) | LoseFees | LoseAll
    | IssueTo(user: nat, claimedRead: nat, requested: Option<int>)
    | IssueCut(user: nat, claimedRead: nat, requested: Option<int>)  // stopped before the signature
    | Replay(voucher: Signed)
    | FeeTick(maxSwap: nat, walletCap: Option<nat>)
    | ClaimOnChain(voucher: Signed)

  predicate Enabled(s: System, a: Action) {
    match a
    case Share(_, pps, _, _) => Sane(pps)
    case Replay(v) => v in s.signed && v.cumulative > 0
    case ClaimOnChain(v) => v in s.signed && v.cumulative > Get(s.claimed, v.user)
    case _ => true
  }

  /** A credited share: the cache, and the history of what it was worth. */
  function Credited(s: System, user: nat, credit: nat, fee: nat, value: real): System {
    s.(cache := AddCredit(s.cache, user, credit, fee),
       credited := s.credited[user := Get(s.credited, user) + credit],
       feeCredited := s.feeCredited + fee,
       worth := s.worth + value)
  }

  /** The miner's part, the pool's part and the raw value of a share. */
  function ShareParts(pps: PpsInputs, difficulty: nat): (parts: (int, int, real)) {
    var b, d := Compute(pps), difficulty as real;
    ((b.rate * d).Floor, (b.feePerDiff * d).Floor, b.rawPerDiff * d)
  }

  /** A share is credited in two writes, miner first; the second may be lost to a crash. A share
      that rounds to nothing for the miner credits nobody. */
  function AfterShare(s: System, user: nat, pps: PpsInputs, difficulty: nat, feeLands: bool): System {
    var (credit, fee, value) := ShareParts(pps, difficulty);
    if credit <= 0 then s else Credited(s, user, credit, if feeLands && fee > 0 then fee else 0, value)
  }

  function Apply(fs: nat, s: System, a: Action): System
    requires Enabled(s, a)
  {
    match a
    case Share(user, pps, difficulty, feeLands) => AfterShare(s, user, pps, difficulty, feeLands)
    case LoseEarned(user) => s.(cache := s.cache.(earned := s.cache.earned - {user}))
    case LoseVoucher(user) => s.(cache := s.cache.(lastVoucher := s.cache.lastVoucher - {user}))
    case LoseFees => s.(cache := s.cache.(feeAccrued := 0))
    case LoseAll => s.(cache := NO_BALANCES)
    case IssueTo(user, read, requested) =>
      var d := IssueDecision(s.cache, user, read, requested);
      if d.Issue? then s.(cache := AfterIssue(s.cache, user, d), signed := s.signed + {Signed(user, Max(d.cumulative, 0))})
      else s
    case IssueCut(user, read, requested) =>
      s.(cache := AfterIssue(s.cache, user, IssueDecision(s.cache, user, read, requested)))
    case Replay(v) => s.(cache := Restore(s.cache, v.user, v.cumulative))
    case FeeTick(maxSwap, walletCap) =>
      var prev := Get(s.claimed, fs);
      s.(signed := s.signed + {Signed(fs, prev + SwapDelta(s.cache.feeAccrued, prev, maxSwap, walletCap))})
    case ClaimOnChain(v) =>
      s.(claimed := s.claimed[v.user := v.cumulative], minted := s.minted + (v.cumulative - Get(s.claimed, v.user)))
  }

  ghost predicate Run(fs: nat, run: seq<System>) {
    && |run| > 0 && Init(run[0])
    && forall i :: 0 < i < |run| ==> Next(fs, run[i - 1], run[i])
  }

  ghost predicate Next(fs: nat, s: System, s': System) {
    exists a :: Enabled(s, a) && s' == Apply(fs, s, a)
  }

  /** All that was ever credited to an address: its shares and, for the fee swapper, the fees. */
  function DueOf(fs: nat, credited: map<nat, nat>, fees: nat, user: nat): nat {
    Get(credited, user) + (if user == fs then fees else 0)
  }

  function Due(fs: nat, s: System, user: nat): nat { DueOf(fs, s.credited, s.feeCredited, user) }

  ghost predicate EarnedWithin(fs: nat, credited: map<nat, nat>, fees: nat, earned: map<nat, nat>) {
    forall u :: u in earned ==> earned[u] <= DueOf(fs, credited, fees, u)
  }

  ghost predicate SignedWithin(fs: nat, credited: map<nat, nat>, fees: nat, signed: set<Signed>) {
    forall v :: v in signed ==> v.cumulative <= DueOf(fs, credited, fees, v.user)
  }

  ghost predicate ClaimedWithin(fs: nat, credited: map<nat, nat>, fees: nat, claimed: map<nat, nat>) {
    forall u :: u in claimed ==> 0 < claimed[u] <= DueOf(fs, credited, fees, u)
  }

  ghost predicate Solvent(fs: nat, s: System) {
    && EarnedWithin(fs, s.credited, s.feeCredited, s.cache.earned)
    && s.cache.feeAccrued <= s.feeCredited
    && SignedWithin(fs, s.credited, s.feeCredited, s.signed)
    && ClaimedWithin(fs, s.credited, s.feeCredited, s.claimed)
    && s.minted == Sum(s.claimed)
    && (Sum(s.credited) + s.feeCredited) as real <= s.worth
  }

  lemma DueGrows(fs: nat, credited: map<nat, nat>, fees: nat, user: nat, credit: nat, fee: nat, u: nat)
    ensures DueOf(fs, credited, fees, u) <= DueOf(fs, credited[user := Get(credited, user) + credit], fees + fee, u)
    ensures u == user ==> DueOf(fs, credited, fees, u) + credit <= DueOf(fs, credited[user := Get(credited, user) + credit], fees + fee, u)
  {
  }

  lemma EarnedGrows(fs: nat, credited: map<nat, nat>, fees: nat, earned: map<nat, nat>, user: nat, credit: nat, fee: nat)
    requires EarnedWithin(fs, credited, fees, earned)
    ensures EarnedWithin(fs, credited[user := Get(credited, user) + credit], fees + fee, earned[user := Get(earned, user) + credit])
  {
    var credited', earned' := credited[user := Get(credited, user) + credit], earned[user := Get(earned, user) + credit];
    forall u | u in earned' ensures earned'[u] <= DueOf(fs, credited', fees + fee, u) {
      DueGrows(fs, credited, fees, user, credit, fee, u);
    }
  }

  lemma OthersGrow(fs: nat, credited: map<nat, nat>, fees: nat, signed: set<Signed>, claimed: map<nat, nat>, user: nat, credit: nat, fee: nat)
    requires SignedWithin(fs, credited, fees, signed) && ClaimedWithin(fs, credited, fees, claimed)
    ensures var credited' := credited[user := Get(credited, user) + credit];
            SignedWithin(fs, credited', fees + fee, signed) && ClaimedWithin(fs, credited', fees + fee, claimed)
  {
    var credited' := credited[user := Get(credited, user) + credit];
    forall v | v in signed ensures v.cumulative <= DueOf(fs, credited', fees + fee, v.user) {
      DueGrows(fs, credited, fees, user, credit, fee, v.user);
    }
    forall u | u in claimed ensures 0 < claimed[u] <= DueOf(fs, credited', fees + fee, u) {
      DueGrows(fs, credited, fees, user, credit, fee, u);
    }
  }

  lemma WorthGrows(total: nat, more: nat, worth: real, value: real)
    requires total as real <= worth && more as real <= value
    ensures (total + more) as real <= worth + value
  {
  }

  lemma CreditedParts(s: System, user: nat, credit: nat, fee: nat, value: real)
    requires credit > 0
    ensures Credited(s, user, credit, fee, value) ==
            s.(cache := s.cache.(earned := s.cache.earned[user := Get(s.cache.earned, user) + credit],
                                 feeAccrued := s.cache.feeAccrued + fee),
               credited := s.credited[user := Get(s.credited, user) + credit],
               feeCredited := s.feeCredited + fee, worth := s.worth + value)
  {
  }

  lemma CreditKeepsBounds(fs: nat, s: System, user: nat, credit: nat, fee: nat)
    requires Solvent(fs, s)
    ensures var credited' := s.credited[user := Get(s.credited, user) + credit];
            && EarnedWithin(fs, credited', s.feeCredited + fee, s.cache.earned[user := Get(s.cache.earned, user) + credit])
            && SignedWithin(fs, credited', s.feeCredited + fee, s.signed)
            && ClaimedWithin(fs, credited', s.feeCredited + fee, s.claimed)
  {
    EarnedGrows(fs, s.credited, s.feeCredited, s.cache.earned, user, credit, fee);
    OthersGrow(fs, s.credited, s.feeCredited, s.signed, s.claimed, user, credit, fee);
  }

  lemma CreditKeepsWorth(s: System, user: nat, credit: nat, fee: nat, value: real)
    requires (Sum(s.credited) + s.feeCredited) as real <= s.worth && (credit + fee) as real <= value
    ensures (Sum(s.credited[user := Get(s.credited, user) + credit]) + (s.feeCredited + fee)) as real <= s.worth + value
  {
    SumPut(s.credited, user, Get(s.credited, user) + credit);
    WorthGrows(Sum(s.credited) + s.feeCredited, credit + fee, s.worth, value);
  }

  lemma CreditKeepsSolvent(fs: nat, s: System, user: nat, credit: nat, fee: nat, value: real)
    requires Solvent(fs, s) && credit > 0 && (credit + fee) as real <= value
    ensures Solvent(fs, Credited(s, user, credit, fee, value))
  {
    CreditedParts(s, user, credit, fee, value);
    CreditKeepsBounds(fs, s, user, credit, fee);
    CreditKeepsWorth(s, user, credit, fee, value);
  }

  lemma ShareKeepsSolvent(fs: nat, s: System, user: nat, pps: PpsInputs, difficulty: nat, feeLands: bool)
    requires Solvent(fs, s) && Sane(pps)
    ensures Solvent(fs, AfterShare(s, user, pps, difficulty, feeLands))
  {
    ShareWorth(pps, difficulty);
    var (credit, fee, value) := ShareParts(pps, difficulty);
    if credit > 0 { CreditKeepsSolvent(fs, s, user, credit, if feeLands && fee > 0 then fee else 0, value); }
  }

  /** Signing within the cached totals. */
  lemma IssueKeepsSolvent(fs: nat, s: System, user: nat, read: nat, requested: Option<int>)
    requires Solvent(fs, s)
    ensures Solvent(fs, Apply(fs, s, IssueTo(user, read, requested)))
  {
    DecideExact(Get(s.cache.earned, user), Get(s.cache.lastVoucher, user), ClampClaimed(read), requested);
  }

  lemma TickKeepsSolvent(fs: nat, s: System, maxSwap: nat, walletCap: Option<nat>)
    requires Solvent(fs, s)
    ensures Solvent(fs, Apply(fs, s, FeeTick(maxSwap, walletCap)))
  {
    SwapNeverPassesAccrual(s.cache.feeAccrued, Get(s.claimed, fs), maxSwap, walletCap);
  }

  /** Rebuilding the cache from a signed voucher. */
  lemma ReplayKeepsSolvent(fs: nat, s: System, v: Signed)
    requires Solvent(fs, s) && v in s.signed
    ensures Solvent(fs, s.(cache := Restore(s.cache, v.user, v.cumulative)))
  {
  }

  lemma ClaimKeepsClaimed(fs: nat, credited: map<nat, nat>, fees: nat, signed: set<Signed>, claimed: map<nat, nat>, v: Signed)
    requires SignedWithin(fs, credited, fees, signed) && ClaimedWithin(fs, credited, fees, claimed)
    requires v in signed && v.cumulative > 0
    ensures ClaimedWithin(fs, credited, fees, claimed[v.user := v.cumulative])
  {
  }

  /** Minting a signed voucher. */
  lemma ClaimKeepsSolvent(fs: nat, s: System, v: Signed)
    requires Solvent(fs, s) && v in s.signed && v.cumulative > Get(s.claimed, v.user)
    ensures Solvent(fs, Apply(fs, s, ClaimOnChain(v)))
  {
    SumPut(s.claimed, v.user, v.cumulative);
    ClaimKeepsClaimed(fs, s.credited, s.feeCredited, s.signed, s.claimed, v);
  }

  lemma LossKeepsSolvent(fs: nat, s: System, a: Action)
    requires Solvent(fs, s) && (a.LoseEarned? || a.LoseVoucher? || a.LoseFees? || a.LoseAll? || a.IssueCut?)
    ensures Solvent(fs, Apply(fs, s, a))
  {
  }

  lemma StepKeepsSolvent(fs: nat, s: System, a: Action)
    requires Solvent(fs, s) && Enabled(s, a)
    ensures Solvent(fs, Apply(fs, s, a))
  {
    if a.Share? { ShareKeepsSolvent(fs, s, a.user, a.pps, a.difficulty, a.feeLands); }
    else if a.IssueTo? { IssueKeepsSolvent(fs, s, a.user, a.claimedRead, a.requested); }
    else if a.FeeTick? { TickKeepsSolvent(fs, s, a.maxSwap, a.walletCap); }
    else if a.Replay? { ReplayKeepsSolvent(fs, s, a.voucher); }
    else if a.ClaimOnChain? { ClaimKeepsSolvent(fs, s, a.voucher); }
    else { LossKeepsSolvent(fs, s, a); }
  }

  lemma {:induction false} SolventAt(fs: nat, run: seq<System>, i: nat)
    requires Run(fs, run) && i < |run|
    ensures Solvent(fs, run[i])
  {
    if i > 0 {
      SolventAt(fs, run, i - 1);
      assert Next(fs, run[i - 1], run[i]);
      var a :| Enabled(run[i - 1], a) && run[i] == Apply(fs, run[i - 1], a);
      StepKeepsSolvent(fs, run[i - 1], a);
    }
  }

  /** Over every run, with keys expiring independently, the whole cache lost, vouchers replayed and
      chain reads failing: nothing is signed or claimed beyond what was credited to its address, and
      all tokens minted are covered by the raw value of the credited shares. */
  lemma MintCovered(fs: nat, run: seq<System>, i: nat)
    requires Run(fs, run) && i < |run|
    ensures var s := run[i];
            && (forall v :: v in s.signed ==> v.cumulative <= Due(fs, s, v.user))
            && (forall u :: u in s.claimed ==> s.claimed[u] <= Due(fs, s, u))
            && s.minted as real <= s.worth
  {
    SolventAt(fs, run, i);
    var s := run[i];
    var due := s.credited[fs := Due(fs, s, fs)];
    SumPut(s.credited, fs, Due(fs, s, fs));
    SumMonotone(s.claimed, due);
  }

  // ---------------------------------------------------------------- claims

  /** The contract on one voucher: mint the difference, or revert. */
  function ClaimOne(claimed: nat, cumulative: nat): (r: (nat, nat)) {
    if cumulative > claimed then (cumulative, cumulative - claimed) else (claimed, 0)
  }

  /** Presenting vouchers of one user in a given order: the final watermark and the total minted. */
  function ClaimAll(claimed: nat, vouchers: seq<nat>): (nat, nat) {
    if vouchers == [] then (claimed, 0)
    else
      var (c, m) := ClaimAll(claimed, vouchers[..|vouchers| - 1]);
      var (c', m') := ClaimOne(c, vouchers[|vouchers| - 1]);
      (c', m + m')
  }

  /** In whatever order, with whatever repeats and omissions, the vouchers presented mint exactly
      what the largest of them is worth beyond the starting watermark. */
  lemma {:induction false} ClaimsMintLargest(claimed: nat, vouchers: seq<nat>)
    ensures var (c, m) := ClaimAll(claimed, vouchers);
            && m == c - claimed
            && (c == claimed || c in vouchers)
            && forall i :: 0 <= i < |vouchers| ==> vouchers[i] <= c
  {
    if vouchers != [] {
      var init := vouchers[..|vouchers| - 1];
      ClaimsMintLargest(claimed, init);
      assert forall i :: 0 <= i < |init| ==> vouchers[i] == init[i];
      var (c, m) := ClaimAll(claimed, init);
      if c in init { assert c in vouchers; }
    }
  }

  // ---------------------------------------------------------------- no loss, no shortfall

  predicate Lossless(a: Action) { !a.LoseEarned? && !a.LoseVoucher? && !a.LoseFees? && !a.LoseAll? }

  ghost predicate LosslessNext(fs: nat, s: System, s': System) {
    exists a :: Lossless(a) && Enabled(s, a) && s' == Apply(fs, s, a)
  }

  /** The cache holds exactly what was credited, and remembers the highest voucher signed. */
  ghost predicate Faithful(fs: nat, s: System) {
    && (forall u :: u != fs ==> Get(s.cache.earned, u) == Get(s.credited, u))
    && (forall v :: v in s.signed && v.user != fs ==> v.cumulative <= Get(s.cache.lastVoucher, v.user))
    && (forall u :: u != fs ==> Get(s.cache.lastVoucher, u) <= Get(s.cache.earned, u))
  }

  lemma CreditKeepsFaithful(fs: nat, s: System, user: nat, credit: nat, fee: nat, value: real)
    requires Faithful(fs, s) && credit > 0
    ensures Faithful(fs, Credited(s, user, credit, fee, value))
  {
    var s' := Credited(s, user, credit, fee, value);
    CreditedParts(s, user, credit, fee, value);
    forall u | u != fs
      ensures Get(s'.cache.earned, u) == Get(s'.credited, u) && Get(s'.cache.lastVoucher, u) <= Get(s'.cache.earned, u)
    {
      assert Get(s.cache.earned, u) == Get(s.credited, u) && Get(s.cache.lastVoucher, u) <= Get(s.cache.earned, u);
    }
  }

  lemma ShareKeepsFaithful(fs: nat, s: System, user: nat, pps: PpsInputs, difficulty: nat, feeLands: bool)
    requires Faithful(fs, s)
    ensures Faithful(fs, AfterShare(s, user, pps, difficulty, feeLands))
  {
    var (credit, fee, value) := ShareParts(pps, difficulty);
    if credit > 0 { CreditKeepsFaithful(fs, s, user, credit, if feeLands && fee > 0 then fee else 0, value); }
  }

  lemma IssueKeepsFaithful(fs: nat, s: System, a: Action)
    requires Faithful(fs, s) && (a.IssueTo? || a.IssueCut?)
    ensures Faithful(fs, Apply(fs, s, a))
  {
    DecideExact(Get(s.cache.earned, a.user), Get(s.cache.lastVoucher, a.user), ClampClaimed(a.claimedRead), a.requested);
  }

  lemma LosslessKeepsFaithful(fs: nat, s: System, a: Action)
    requires Faithful(fs, s) && Lossless(a) && Enabled(s, a)
    ensures Faithful(fs, Apply(fs, s, a))
  {
    if a.Share? { ShareKeepsFaithful(fs, s, a.user, a.pps, a.difficulty, a.feeLands); }
    else if a.IssueTo? || a.IssueCut? { IssueKeepsFaithful(fs, s, a); }
  }

  lemma {:induction false} FaithfulAt(fs: nat, run: seq<System>, i: nat)
    requires |run| > 0 && Init(run[0]) && i < |run|
    requires forall k :: 0 < k < |run| ==> LosslessNext(fs, run[k - 1], run[k])
    ensures Faithful(fs, run[i])
  {
    if i > 0 {
      FaithfulAt(fs, run, i - 1);
      assert LosslessNext(fs, run[i - 1], run[i]);
      var a :| Lossless(a) && Enabled(run[i - 1], a) && run[i] == Apply(fs, run[i - 1], a);
      LosslessKeepsFaithful(fs, run[i - 1], a);
    }
  }

  /** Without loss a miner who asks for everything gets exactly everything credited, unless the
      watermark or the chain already stands there. */
  lemma LosslessPaysInFull(fs: nat, run: seq<System>, i: nat, user: nat, read: nat)
    requires |run| > 0 && Init(run[0]) && i < |run| && user != fs
    requires forall k :: 0 < k < |run| ==> LosslessNext(fs, run[k - 1], run[k])
    ensures var s := run[i];
            var d := IssueDecision(s.cache, user, read, None);
            if Max(Get(s.cache.lastVoucher, user), ClampClaimed(read)) < Get(s.credited, user)
            then d.Issue? && d.cumulative == Get(s.credited, user)
            else d == Refuse(Nothing)
  {
    FaithfulAt(fs, run, i);
    var s := run[i];
    DecideExact(Get(s.cache.earned, user), Get(s.cache.lastVoucher, user), ClampClaimed(read), None);
  }

  predicate Undisturbed(a: Action) { Lossless(a) && !a.IssueCut? }

  ghost predicate UndisturbedNext(fs: nat, s: System, s': System) {
    exists a :: Undisturbed(a) && Enabled(s, a) && s' == Apply(fs, s, a)
  }

  /** Every watermark is that of a voucher that was signed. */
  ghost predicate WatermarksSigned(fs: nat, s: System) {
    forall u :: u != fs && Get(s.cache.lastVoucher, u) > 0 ==> Signed(u, Get(s.cache.lastVoucher, u)) in s.signed
  }

  lemma UndisturbedKeepsSigned(fs: nat, s: System, a: Action)
    requires Faithful(fs, s) && WatermarksSigned(fs, s) && Undisturbed(a) && Enabled(s, a)
    ensures WatermarksSigned(fs, Apply(fs, s, a))
  {
    var s' := Apply(fs, s, a);
    if a.IssueTo? {
      IssueKeepsSigned(fs, s, a.user, a.claimedRead, a.requested);
    } else if a.Replay? {
      forall u | u != fs && Get(s'.cache.lastVoucher, u) > 0 ensures Signed(u, Get(s'.cache.lastVoucher, u)) in s'.signed {
        assert u != a.voucher.user ==> Get(s'.cache.lastVoucher, u) == Get(s.cache.lastVoucher, u);
      }
    } else {
      assert s'.cache.lastVoucher == s.cache.lastVoucher && s.signed <= s'.signed;
    }
  }

  lemma IssueKeepsSigned(fs: nat, s: System, user: nat, read: nat, requested: Option<int>)
    requires WatermarksSigned(fs, s)
    ensures WatermarksSigned(fs, Apply(fs, s, IssueTo(user, read, requested)))
  {
    var s' := Apply(fs, s, IssueTo(user, read, requested));
    forall u | u != fs && Get(s'.cache.lastVoucher, u) > 0 ensures Signed(u, Get(s'.cache.lastVoucher, u)) in s'.signed {
      assert u != user ==> Get(s'.cache.lastVoucher, u) == Get(s.cache.lastVoucher, u);
    }
  }

  lemma {:induction false} WatermarksSignedAt(fs: nat, run: seq<System>, i: nat)
    requires |run| > 0 && Init(run[0]) && i < |run|
    requires forall k :: 0 < k < |run| ==> UndisturbedNext(fs, run[k - 1], run[k])
    ensures Faithful(fs, run[i]) && WatermarksSigned(fs, run[i])
  {
    if i > 0 {
      WatermarksSignedAt(fs, run, i - 1);
      assert UndisturbedNext(fs, run[i - 1], run[i]);
      var a :| Undisturbed(a) && Enabled(run[i - 1], a) && run[i] == Apply(fs, run[i - 1], a);
      LosslessKeepsFaithful(fs, run[i - 1], a);
      UndisturbedKeepsSigned(fs, run[i - 1], a);
    }
  }

  /** All that was credited to the miner is covered by a signed voucher, or claimed. */
  ghost predicate AllSigned(s: System, user: nat, read: nat) {
    || Get(s.credited, user) <= ClampClaimed(read)
    || exists v :: v in s.signed && v.user == user && v.cumulative >= Get(s.credited, user)
  }

  /** If moreover no request is cut off between watermark and signature, a miner who asks for
      everything is refused if and only if all of it is already signed or claimed, and else is signed
      exactly all of it. */
  lemma UndisturbedSignsInFull(fs: nat, run: seq<System>, i: nat, user: nat, read: nat)
    requires |run| > 0 && Init(run[0]) && i < |run| && user != fs
    requires forall k :: 0 < k < |run| ==> UndisturbedNext(fs, run[k - 1], run[k])
    ensures var s := run[i];
            var d := IssueDecision(s.cache, user, read, None);
            if AllSigned(s, user, read) then d == Refuse(Nothing) else d.Issue? && d.cumulative == Get(s.credited, user)
  {
    WatermarksSignedAt(fs, run, i);
    var s := run[i];
    var mark := Get(s.cache.lastVoucher, user);
    if mark > 0 { assert Signed(user, mark) in s.signed; }
    DecideExact(Get(s.cache.earned, user), mark, ClampClaimed(read), None);
  }

  /** A request cut off there strands what it asked for: nothing is signed, and asking again is
      refused, whatever the chain says, until more is credited. */
  lemma CutIssueStrands(fs: nat, s: System, user: nat, read: nat, again: nat)
    requires IssueDecision(s.cache, user, read, None).Issue?
    ensures var s' := Apply(fs, s, IssueCut(user, read, None));
            s'.signed == s.signed && IssueDecision(s'.cache, user, again, None) == Refuse(Nothing)
  {
    DecideExact(Get(s.cache.earned, user), Get(s.cache.lastVoucher, user), ClampClaimed(read), None);
  }

  // ---------------------------------------------------------------- loss and restore

  /** Credit the cache does not show. */
  function Missing(s: System, user: nat): int { Get(s.credited, user) - Get(s.cache.earned, user) }

  /** Neither loses the miner's credit nor replays a voucher of theirs. */
  predicate Quiet(a: Action, user: nat) {
    !a.LoseAll? && !(a.LoseEarned? && a.user == user) && !(a.Replay? && a.voucher.user == user)
  }

  ghost predicate QuietNext(fs: nat, user: nat, s: System, s': System) {
    exists a :: Quiet(a, user) && Enabled(s, a) && s' == Apply(fs, s, a)
  }

  lemma QuietKeepsMissing(fs: nat, s: System, a: Action, user: nat)
    requires Quiet(a, user) && Enabled(s, a)
    ensures Missing(Apply(fs, s, a), user) == Missing(s, user)
  {
    if a.Share? { var parts := ShareParts(a.pps, a.difficulty); }
  }

  lemma {:induction false} QuietRunKeepsMissing(fs: nat, run: seq<System>, user: nat, i: nat)
    requires i < |run| && forall k :: 0 < k < |run| ==> QuietNext(fs, user, run[k - 1], run[k])
    ensures Missing(run[i], user) == Missing(run[0], user)
  {
    if i > 0 {
      QuietRunKeepsMissing(fs, run, user, i - 1);
      assert QuietNext(fs, user, run[i - 1], run[i]);
      var a :| Quiet(a, user) && Enabled(run[i - 1], a) && run[i] == Apply(fs, run[i - 1], a);
      QuietKeepsMissing(fs, run[i - 1], a, user);
    }
  }

  /** A replay leaves missing whatever the larger of cache and voucher does not cover. */
  lemma ReplayMissing(s: System, v: Signed)
    ensures var s' := s.(cache := Restore(s.cache, v.user, v.cumulative));
            Missing(s', v.user) == Min(Missing(s, v.user), Get(s.credited, v.user) - v.cumulative)
  {
  }

  /** A miner's credit is lost with `before` credited, `since` is credited after that, and then a
      voucher from before the loss is replayed. What stays missing is what was unsigned at the loss,
      and what was credited since, as far as the voucher covers it: so the replay brings everything
      back if and only if everything was signed and nothing was credited in between. */
  lemma RestoredIff(fs: nat, run: seq<System>, v: Signed, before: nat, since: nat)
    requires |run| > 0 && forall k :: 0 < k < |run| ==> QuietNext(fs, v.user, run[k - 1], run[k])
    requires Get(run[0].cache.earned, v.user) == 0 && Get(run[0].credited, v.user) == before
    requires Get(run[|run| - 1].credited, v.user) == before + since && v.cumulative <= before
    ensures var s := run[|run| - 1];
            var s' := s.(cache := Restore(s.cache, v.user, v.cumulative));
            && Missing(s', v.user) == (before - v.cumulative) + Min(since, v.cumulative)
            && (Missing(s', v.user) == 0 <==> v.cumulative == before && (since == 0 || before == 0))
  {
    QuietRunKeepsMissing(fs, run, v.user, |run| - 1);
    ReplayMissing(run[|run| - 1], v);
  }

  /** As long as no more was credited since than the voucher is worth, asking after the replay is
      refused, whatever the chain says. */
  lemma SwallowedIsRefused(s: System, v: Signed, read: nat)
    requires Get(s.cache.earned, v.user) <= v.cumulative
    ensures IssueDecision(Restore(s.cache, v.user, v.cumulative), v.user, read, None) == Refuse(Nothing)
  {
  }

  /** Losing the fee counter never re-mints swept fees: the swap waits until new accruals pass the
      on-chain watermark, and then stops at the counter. */
  lemma SwapNeverPassesAccrual(accrued: nat, minted: nat, maxSwap: nat, cap: Option<nat>)
    ensures var d := SwapDelta(accrued, minted, maxSwap, cap);
            && minted + d <= Max(accrued, minted) && d <= maxSwap
            && (cap.Some? ==> d <= cap.value)
            && (d == 0 <==> accrued <= minted || maxSwap == 0 || cap == Some(0))
  {
  }
}
