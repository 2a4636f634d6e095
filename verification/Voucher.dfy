/** Cumulative vouchers: choosing what to sign, the miner balances they are signed against, and
    the signer service. */
module Voucher {
  import opened Prelude

  datatype VoucherError = NonPositive | Insufficient(requested: int, available: int) | Nothing

  datatype Decision = Issue(cumulative: int, marginal: int) | Refuse(error: VoucherError)

  /** `requested` is the marginal amount asked for; `None` asks for everything available. */
  function Decide(earned: int, lastVoucher: int, onChainClaimed: int, requested: Option<int>): Decision {
    var base := Max(Max(lastVoucher, onChainClaimed), 0);
    var available := Max(earned, 0) - base;
    if available <= 0 then Refuse(Nothing)
    else
      var amount := if requested.Some? then requested.value else available;
      if amount <= 0 then Refuse(NonPositive)
      else if amount > available then Refuse(Insufficient(amount, available))
      else Issue(base + amount, amount)
  }

  /** A voucher is signed exactly for a positive slice of what is earned beyond both watermarks;
      it then stacks on the higher watermark and never exceeds what was earned. */
  lemma DecideExact(earned: int, lastVoucher: int, claimed: int, requested: Option<int>)
    ensures var d := Decide(earned, lastVoucher, claimed, requested);
            var base := Max(Max(lastVoucher, claimed), 0);
            && (d.Issue? <==> base < earned && (requested.Some? ==> 0 < requested.value <= earned - base))
            && (d.Issue? ==> base < d.cumulative <= earned && d.cumulative - base == d.marginal)
            && (d.Issue? && requested.None? ==> d.cumulative == earned)
            && (d.Issue? && requested.Some? ==> d.marginal == requested.value)
  {
  }

  /** Slices issued one after the other compose: two vouchers are worth one for their sum. */
  lemma SlicesCompose(earned: int, lastVoucher: int, claimed: int, a: int, b: int)
    requires a > 0 && b > 0
    ensures var first := Decide(earned, lastVoucher, claimed, Some(a));
            var both := Decide(earned, lastVoucher, claimed, Some(a + b));
            first.Issue? ==>
              var second := Decide(earned, first.cumulative, claimed, Some(b));
              && (second.Issue? <==> both.Issue?)
              && (second.Issue? ==> second.cumulative == both.cumulative)
  {
  }

  /** A 256-bit on-chain value read into the signer's 64-bit integers. */
  function ClampClaimed(v: nat): nat { if v > I64_MAX then I64_MAX else v }

  // ---------------------------------------------------------------- balances

  /** The miner balance cache: two independently expiring keys per miner, and the fee counter. */
  datatype Balances = Balances(earned: map<nat, nat>, lastVoucher: map<nat, nat>, feeAccrued: nat)

  const NO_BALANCES: Balances := Balances(map[], map[], 0)

  /** Add a miner's credit and, only when that is positive, the pool's fee. */
  function AddCredit(b: Balances, user: nat, credit: int, fee: int): Balances {
    if credit <= 0 then b
    else
      var b1 := b.(earned := b.earned[user := Get(b.earned, user) + credit]);
      if fee > 0 then b1.(feeAccrued := b.feeAccrued + fee) else b1
  }

  /** The accountant's crediting of one accepted share: rates times difficulty, rounded down. */
  function CreditShare(b: Balances, user: nat, rate: real, feeRate: real, difficulty: nat): Balances {
    AddCredit(b, user, (rate * difficulty as real).Floor, (feeRate * difficulty as real).Floor)
  }

  function Raise(m: map<nat, nat>, k: nat, v: nat): map<nat, nat> { m[k := Max(Get(m, k), v)] }

  /** Raise both of a miner's watermarks to a signed cumulative; never lower either. */
  function Restore(b: Balances, user: nat, cumulative: nat): Balances {
    b.(earned := Raise(b.earned, user, cumulative), lastVoucher := Raise(b.lastVoucher, user, cumulative))
  }

  /** Replaying vouchers is idempotent, and their order is irrelevant. */
  lemma RestoreMerges(b: Balances, user: nat, v: nat, w: nat)
    ensures Restore(Restore(b, user, v), user, v) == Restore(b, user, v)
    ensures Restore(Restore(b, user, v), user, w) == Restore(Restore(b, user, w), user, v)
    ensures Restore(Restore(b, user, v), user, w) == Restore(b, user, Max(v, w))
  {
    RaiseMerges(b.earned, user, v, w);
    RaiseMerges(b.lastVoucher, user, v, w);
  }

  lemma RaiseMerges(m: map<nat, nat>, k: nat, v: nat, w: nat)
    ensures Raise(Raise(m, k, v), k, v) == Raise(m, k, v)
    ensures Raise(Raise(m, k, v), k, w) == Raise(m, k, Max(v, w)) == Raise(Raise(m, k, w), k, v)
  {
  }

  datatype Signed = Signed(user: nat, cumulative: nat)

  /** What `issue` does to the cache and what it signs, given the chain read it got. */
  function IssueDecision(b: Balances, user: nat, claimedRead: nat, requested: Option<int>): Decision {
    Decide(Get(b.earned, user), Get(b.lastVoucher, user), ClampClaimed(claimedRead), requested)
  }

  function AfterIssue(b: Balances, user: nat, d: Decision): Balances {
    if d.Issue? then b.(lastVoucher := b.lastVoucher[user := Max(d.cumulative, 0)]) else b
  }

  class Service {
    var earned: map<nat, nat>
    var lastVoucher: map<nat, nat>
    var feeAccrued: nat
    /** Every voucher this pool's key has signed: what a replayed signature is checked against. */
    var signed: set<Signed>

    function Contents(): Balances
      reads this
    {
      Balances(earned, lastVoucher, feeAccrued)
    }

    constructor ()
      ensures Contents() == NO_BALANCES && signed == {}
    {
      earned, lastVoucher, feeAccrued, signed := map[], map[], 0, {};
    }

    method Credit(user: nat, rate: real, feeRate: real, difficulty: nat) returns (credit: nat)
      modifies this`earned, this`feeAccrued
      ensures Contents() == CreditShare(old(Contents()), user, rate, feeRate, difficulty)
      ensures Get(earned, user) == Get(old(earned), user) + credit
    {
      var c := (rate * difficulty as real).Floor;
      if c <= 0 { return 0; }
      credit := c;
      earned := earned[user := (if user in earned then earned[user] else 0) + credit];
      var fee := (feeRate * difficulty as real).Floor;
      if fee > 0 { feeAccrued := feeAccrued + fee; }
    }

    /** Reserve the new watermark, then sign it. A failed chain read counts as zero claimed. */
    method IssueVoucher(user: nat, claimedRead: Option<nat>, requested: Option<int>) returns (d: Decision)
      modifies this`lastVoucher, this`signed
      ensures d == IssueDecision(old(Contents()), user, if claimedRead.Some? then claimedRead.value else 0, requested)
      ensures Contents() == AfterIssue(old(Contents()), user, d)
      ensures signed == old(signed) + (if d.Issue? then {Signed(user, Max(d.cumulative, 0))} else {})
      ensures d.Issue? ==> 0 < d.cumulative <= Get(earned, user)
    {
      var claimed := ClampClaimed(if claimedRead.Some? then claimedRead.value else 0);
      var e := if user in earned then earned[user] else 0;
      var l := if user in lastVoucher then lastVoucher[user] else 0;
      d := Decide(e, l, claimed, requested);
      if d.Issue? {
        lastVoucher := lastVoucher[user := d.cumulative];
        signed := signed + {Signed(user, d.cumulative)};
      }
    }

    /** Rebuild lost credit from a voucher this pool signed; anything else is refused. */
    method RestoreVoucher(user: nat, cumulative: int) returns (ok: bool)
      modifies this`earned, this`lastVoucher
      ensures ok <==> cumulative > 0 && Signed(user, cumulative) in signed
      ensures Contents() == if ok then Restore(old(Contents()), user, cumulative) else old(Contents())
    {
      ok := cumulative > 0 && Signed(user, cumulative) in signed;
      if !ok { return; }
      var e := if user in earned then earned[user] else 0;
      if cumulative > e { e := cumulative; }
      earned := earned[user := e];
      var l := if user in lastVoucher then lastVoucher[user] else 0;
      if cumulative > l { l := cumulative; }
      lastVoucher := lastVoucher[user := l];
    }

    /** What the miner could still ask a voucher for. */
    method Available(user: nat, claimedRead: Option<nat>) returns (available: nat)
      ensures available > 0 <==>
              IssueDecision(Contents(), user, if claimedRead.Some? then claimedRead.value else 0, None).Issue?
      ensures available > 0 ==>
              IssueDecision(Contents(), user, if claimedRead.Some? then claimedRead.value else 0, None).marginal == available
    {
      var claimed := ClampClaimed(if claimedRead.Some? then claimedRead.value else 0);
      var e := if user in earned then earned[user] else 0;
      var l := if user in lastVoucher then lastVoucher[user] else 0;
      available := Max(e - Max(l, claimed), 0);
    }
  }
}
