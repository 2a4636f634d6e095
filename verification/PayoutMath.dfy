/** Pro-rata payout arithmetic: what one redemption is worth against the wallet. */
module PayoutMath {
  import opened Prelude
  import opened Stamp

  const U128_MAX: nat := 0xFFFF_FFFF_FFFF_FFFF_FFFF_FFFF_FFFF_FFFF

  const MAX_SNAPSHOT_AGE: nat := 120

  function SatAdd(a: nat, b: nat): nat { Min(a + b, U128_MAX) }

  function SatMul(a: nat, b: nat): nat { Min(a * b, U128_MAX) }

  /** The treasury snapshot: the wallet, what of it is spendable, the token supply, and how
      long ago (or ahead) it was taken. */
  datatype Snapshot = Snapshot(balance: nat, unlocked: nat, supply: nat, ageSecs: int)

  predicate Fits128(snap: Snapshot) {
    snap.balance <= U128_MAX && snap.unlocked <= U128_MAX && snap.supply <= U128_MAX
  }

  /** The balance the formula may distribute: the wallet, capped at the issued value plus the
      configured premium in basis points. */
  function EffectiveBalance(balance: nat, denom: nat, premiumBp: nat): nat {
    Min(balance, SatAdd(denom, SatMul(denom, premiumBp) / 10_000))
  }

  /** Both factors fit in 128 bits, so the 256-bit product of the source is exact. */
  function Payout(amount: nat, effective: nat, denom: nat): nat
    requires denom > 0
  {
    amount * effective / denom
  }

  datatype Decision = Defer | Empty | Overflow | Dust | Locked | Pay(stamped: nat)

  /** Everything the consumer decides between claiming an id and sending a transfer. */
  function Decide(amount: nat, id: nat, snapshot: Option<Snapshot>, pending: nat, premiumBp: nat): Decision {
    if snapshot.None? then Defer
    else
      var snap := snapshot.value;
      if snap.ageSecs > MAX_SNAPSHOT_AGE || -snap.ageSecs > MAX_SNAPSHOT_AGE then Defer
      else
        var denom := SatAdd(snap.supply, pending);
        if denom == 0 || snap.balance == 0 then Empty
        else
          var payout := Payout(amount, EffectiveBalance(snap.balance, denom, premiumBp), denom);
          if payout > U128_MAX then Overflow
          else if payout < STAMP_MOD then Dust
          else if payout > snap.unlocked then Locked
          else Pay(StampAmount(payout, id))
  }

  /** A payout never exceeds the burned amount plus the premium. */
  lemma PayoutWithinPremium(amount: nat, balance: nat, denom: nat, premiumBp: nat)
    requires denom > 0
    ensures 10_000 * Payout(amount, EffectiveBalance(balance, denom, premiumBp), denom) <= amount * (10_000 + premiumBp)
  {
    var eff := EffectiveBalance(balance, denom, premiumBp);
    var p := Payout(amount, eff, denom);
    assert 10_000 * eff <= denom * (10_000 + premiumBp);
    DivMul(amount * eff, denom);
    calc {
      10_000 * p * denom;
    <=  10_000 * (amount * eff);
    ==  amount * (10_000 * eff);
    <=  { MulMonotone(amount, 10_000 * eff, denom * (10_000 + premiumBp)); }
        amount * (denom * (10_000 + premiumBp));
    ==  (amount * (10_000 + premiumBp)) * denom;
    }
    CancelLe(10_000 * p, amount * (10_000 + premiumBp), denom);
  }

  lemma DivMul(a: nat, d: nat)
    requires d > 0
    ensures a / d * d <= a
  {
  }

  lemma MulMonotone(k: nat, a: int, b: int)
    requires a <= b
    ensures k * a <= k * b
  {
  }

  lemma ExactDivision(a: nat, d: nat)
    requires d > 0
    ensures a * d / d == a
  {
    var q := a * d / d;
    CancelLe(q, a, d);
    assert a * d < (q + 1) * d;
    if a > q { MulMonotone(d, q + 1, a); }
  }

  lemma AddScaled(p: nat, s: nat, d: nat, k: nat, a: nat, e: nat)
    requires p * d <= k * e && s * d <= a * e
    ensures (p + s) * d <= (k + a) * e
  {
  }

  /** When the denominator covers the entry's own amount the payout fits the distributable
      balance, so the 128-bit overflow branch is unreachable. */
  lemma CoveredNeverOverflows(amount: nat, id: nat, snap: Snapshot, pending: nat, premiumBp: nat)
    requires amount <= pending && amount <= U128_MAX && Fits128(snap)
    ensures Decide(amount, id, Some(snap), pending, premiumBp) != Overflow
  {
    var denom := SatAdd(snap.supply, pending);
    var eff := EffectiveBalance(snap.balance, denom, premiumBp);
    if denom > 0 {
      DivMul(amount * eff, denom);
      MulMonotone(eff, amount, denom);
      CancelLe(Payout(amount, eff, denom), eff, denom);
    }
  }

  /** Nor is it reachable for an amount of 64 bits under a premium of 32, whatever is pending. */
  lemma CappedNeverOverflows(amount: nat, id: nat, snap: Snapshot, pending: nat, premiumBp: nat)
    requires amount <= U64_MAX && premiumBp <= U32_MAX
    ensures Decide(amount, id, Some(snap), pending, premiumBp) != Overflow
  {
    var denom := SatAdd(snap.supply, pending);
    if denom > 0 {
      PayoutWithinPremium(amount, snap.balance, denom, premiumBp);
      MulMonotone(10_000 + premiumBp, amount, U64_MAX);
      MulMonotone(U64_MAX, 10_000 + premiumBp, 10_000 + U32_MAX);
    }
  }

  /** The payouts of a set of redemptions at one snapshot. */
  ghost function Payouts(amounts: map<nat, nat>, effective: nat, denom: nat): map<nat, nat>
    requires denom > 0
  {
    map id | id in amounts :: Payout(amounts[id], effective, denom)
  }

  /** `x` is at most `y` scaled by `e / d`. */
  predicate Scaled(x: nat, y: nat, d: nat, e: nat) { x * d <= y * e }

  lemma ScaledAdds(x: nat, y: nat, x': nat, y': nat, d: nat, e: nat)
    requires Scaled(x, y, d, e) && Scaled(x', y', d, e)
    ensures Scaled(x + x', y + y', d, e)
  {
    AddScaled(x, x', d, y, y', e);
  }

  lemma {:induction false} SumScales(p: map<nat, nat>, a: map<nat, nat>, d: nat, e: nat)
    requires p.Keys == a.Keys && forall k :: k in p ==> Scaled(p[k], a[k], d, e)
    ensures Scaled(Sum(p), Sum(a), d, e)
    decreases |p|
  {
    if p == map[] {
      assert p.Keys == {} && a == map[];
    } else {
      var k := Pick(p);
      KeyGone(p, a, k);
      SumScales(p - {k}, a - {k}, d, e);
      SumRemove(p, k);
      SumRemove(a, k);
      ScaledAdds(p[k], a[k], Sum(p - {k}), Sum(a - {k}), d, e);
    }
  }

  lemma KeyGone(p: map<nat, nat>, a: map<nat, nat>, k: nat)
    requires p.Keys == a.Keys && k in p
    ensures (p - {k}).Keys == (a - {k}).Keys && |p - {k}| < |p|
  {
    assert (p - {k}).Keys == p.Keys - {k} == (a - {k}).Keys;
  }

  lemma PayoutsScale(amounts: map<nat, nat>, effective: nat, denom: nat)
    requires denom > 0
    ensures Scaled(Sum(Payouts(amounts, effective, denom)), Sum(amounts), denom, effective)
  {
    var p := Payouts(amounts, effective, denom);
    forall k | k in p ensures Scaled(p[k], amounts[k], denom, effective) {
      DivMul(amounts[k] * effective, denom);
    }
    SumScales(p, amounts, denom, effective);
  }

  /** All redemptions the denominator covers, priced at one snapshot, together fit both the
      wallet and the capped value of everything issued. */
  lemma PayoutsFitWallet(amounts: map<nat, nat>, balance: nat, denom: nat, premiumBp: nat)
    requires denom > 0 && Sum(amounts) <= denom
    ensures var total := Sum(Payouts(amounts, EffectiveBalance(balance, denom, premiumBp), denom));
            total <= balance && 10_000 * total <= denom * (10_000 + premiumBp)
  {
    var eff := EffectiveBalance(balance, denom, premiumBp);
    PayoutsScale(amounts, eff, denom);
    MulMonotone(eff, Sum(amounts), denom);
    CancelLe(Sum(Payouts(amounts, eff, denom)), eff, denom);
    assert 10_000 * eff <= denom * (10_000 + premiumBp);
  }

  /** Without a premium, a wallet that covers everything issued pays burned amounts exactly. */
  lemma FullyBackedPaysExactly(amount: nat, balance: nat, denom: nat)
    requires 0 < denom <= U128_MAX && balance >= denom
    ensures Payout(amount, EffectiveBalance(balance, denom, 0), denom) == amount
  {
    assert SatMul(denom, 0) == 0;
    ExactDivision(amount, denom);
  }

  // ---------------------------------------------------------------- backing over runs

  /** The wallet against the tokens it backs: circulating supply plus unsettled burns. */
  datatype Treasury = Treasury(balance: nat, backed: nat)

  /** One settlement, priced against a recorded denominator that covers what is backed: the
      redemption is paid its stamped share, or settled without payment. */
  ghost predicate Settles(t: Treasury, t': Treasury, premiumBp: nat) {
    exists amount: nat, id: nat, denom: nat ::
      SettlesOne(t, t', premiumBp, amount, id, denom)
  }

  ghost predicate SettlesOne(t: Treasury, t': Treasury, premiumBp: nat, amount: nat, id: nat, denom: nat) {
    && amount <= t.backed <= denom && denom > 0
    && t'.backed == t.backed - amount
    && var payout := Payout(amount, EffectiveBalance(t.balance, denom, premiumBp), denom);
       || t'.balance == t.balance
       || (payout >= STAMP_MOD && t'.balance as int == t.balance - StampAmount(payout, id))
  }

  /** `t` is backed at least as well in `t'`: the ratios compared by cross-multiplication. */
  ghost predicate BackedNoWorse(t: Treasury, t': Treasury) {
    t.balance * t'.backed <= t'.balance * t.backed
  }

  lemma SettlementKeepsBacking(t: Treasury, t': Treasury, premiumBp: nat, amount: nat, id: nat, denom: nat)
    requires SettlesOne(t, t', premiumBp, amount, id, denom)
    ensures BackedNoWorse(t, t')
  {
    var eff := EffectiveBalance(t.balance, denom, premiumBp);
    var payout := Payout(amount, eff, denom);
    var paid := t.balance - t'.balance;
    if payout >= STAMP_MOD { StampIsLargest(payout, id); }
    if t'.balance != t.balance {
      DivMul(amount * eff, denom);
      calc {
        paid * t.backed;
      <=  { MulMonotone(t.backed, paid, payout); }
          payout * t.backed;
      <=  { MulMonotone(payout, t.backed, denom); }
          payout * denom;
      <=  amount * eff;
      <=  { MulMonotone(amount, eff, t.balance); }
          amount * t.balance;
      }
      Distribute(t.balance, t.backed, amount, paid);
    } else {
      MulMonotone(t.balance, t'.backed, t.backed);
    }
  }

  lemma Distribute(b: int, d: int, a: int, p: int)
    requires p * d <= a * b
    ensures b * (d - a) <= (b - p) * d
  {
  }

  lemma BackingTransitive(a: Treasury, b: Treasury, c: Treasury)
    requires BackedNoWorse(a, b) && BackedNoWorse(b, c) && c.backed <= b.backed
    ensures BackedNoWorse(a, c)
  {
    if b.backed > 0 {
      MulMonotone(c.backed, a.balance * b.backed, b.balance * a.backed);
      MulMonotone(a.backed, b.balance * c.backed, c.balance * b.backed);
      calc {
        (a.balance * c.backed) * b.backed;
      ==  c.backed * (a.balance * b.backed);
      <=  c.backed * (b.balance * a.backed);
      ==  a.backed * (b.balance * c.backed);
      <=  a.backed * (c.balance * b.backed);
      ==  (c.balance * a.backed) * b.backed;
      }
      CancelLe(a.balance * c.backed, c.balance * a.backed, b.backed);
    }
  }

  /** Through any sequence of settlements the backing ratio never falls. */
  lemma {:induction false} BackingNeverFalls(run: seq<Treasury>, premiumBp: nat)
    requires |run| > 0
    requires forall i :: 0 < i < |run| ==> Settles(run[i - 1], run[i], premiumBp)
    ensures BackedNoWorse(run[0], run[|run| - 1])
  {
    var n := |run| - 1;
    if n > 0 {
      var init := run[..n];
      assert forall i :: 0 < i < |init| ==> Settles(init[i - 1], init[i], premiumBp);
      BackingNeverFalls(init, premiumBp);
      assert Settles(run[n - 1], run[n], premiumBp);
      var amount: nat, id: nat, denom: nat :| SettlesOne(run[n - 1], run[n], premiumBp, amount, id, denom);
      SettlementKeepsBacking(run[n - 1], run[n], premiumBp, amount, id, denom);
      BackingTransitive(run[0], run[n - 1], run[n]);
    }
  }

  /** A payment lowers the ratio exactly when it exceeds the share computed against what is backed. */
  lemma DilutesIff(t: Treasury, amount: nat, paid: nat)
    requires amount <= t.backed && t.backed > 0 && paid <= t.balance
    ensures BackedNoWorse(t, Treasury(t.balance - paid, t.backed - amount)) <==> paid <= Payout(amount, t.balance, t.backed)
  {
    var fair := Payout(amount, t.balance, t.backed);
    FloorBounds(amount * t.balance, t.backed);
    CrossMultiplied(t.balance, t.backed, amount, paid);
    if paid <= fair {
      MulMonotone(t.backed, paid, fair);
    } else {
      MulMonotone(t.backed, fair + 1, paid);
    }
  }

  lemma FloorBounds(a: nat, d: nat)
    requires d > 0
    ensures a / d * d <= a < (a / d + 1) * d
  {
  }

  lemma CrossMultiplied(b: int, d: int, a: int, p: int)
    ensures b * (d - a) <= (b - p) * d <==> p * d <= a * b
  {
    Expand(b, d, a, p);
  }

  lemma Expand(b: int, d: int, a: int, p: int)
    ensures (b - p) * d - b * (d - a) == a * b - p * d
  {
  }

  /** Why the recorded denominator must cover what is backed: priced against any under-count that
      raises the payout over the fair share by a stamp unit, one redeemer is paid out of the others'
      shares; one that does not raise it does no harm. */
  lemma UnderCountDilutes(t: Treasury, amount: nat, id: nat, denom: nat, premiumBp: nat)
    requires amount <= t.backed && t.backed > 0 && denom > 0
    requires var payout := Payout(amount, EffectiveBalance(t.balance, denom, premiumBp), denom);
             STAMP_MOD <= payout <= t.balance
    ensures var payout := Payout(amount, EffectiveBalance(t.balance, denom, premiumBp), denom);
            var fair, paid := Payout(amount, t.balance, t.backed), StampAmount(payout, id);
            && paid <= t.balance
            && (BackedNoWorse(t, Treasury(t.balance - paid, t.backed - amount)) <==> paid <= fair)
            && (payout >= fair + STAMP_MOD ==> paid > fair) && (payout <= fair ==> paid <= fair)
  {
    var payout := Payout(amount, EffectiveBalance(t.balance, denom, premiumBp), denom);
    StampIsLargest(payout, id);
    DilutesIff(t, amount, StampAmount(payout, id));
  }
}
