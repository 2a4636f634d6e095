/** Where at-most-once ends: each of the things the stamp scan relies on is needed. A run that lacks
    any one of them can lose Redis and pay a redemption again. */
module PayoutLimits {
  import opened Prelude
  import opened Stamp
  import opened RedemptionStore
  import opened PayoutMath
  import opened PayoutProtocol
  import opened PayoutSafety
  import opened PayoutLedger

  // ---------------------------------------------------------------- reaching a state

  ghost predicate Path(c: Config, run: seq<System>, s: System, s': System) {
    Run(c, run) && run[0] == s && run[|run| - 1] == s'
  }

  ghost predicate Reaches(c: Config, s: System, s': System) {
    exists run :: Path(c, run, s, s')
  }

  lemma Here(c: Config, s: System)
    ensures Reaches(c, s, s)
  {
    assert Path(c, [s], s, s);
  }

  lemma Then(c: Config, s0: System, s: System, a: Action) returns (s': System)
    requires Reaches(c, s0, s) && Enabled(c, s, a)
    ensures s' == Apply(c, s, a) && Reaches(c, s0, s')
  {
    var run :| Path(c, run, s0, s);
    s' := Apply(c, s, a);
    var run' := run + [s'];
    forall i: nat | i + 1 < |run'| ensures StepAt(c, run', i) {
      if i + 1 < |run| { assert StepAt(c, run, i); }
    }
    assert Path(c, run', s0, s');
  }

  const START: System := System([], {}, {}, {}, [], 0, EMPTY, multiset{}, Idle, Resting)

  // ---------------------------------------------------------------- parts of a pass

  /** The consumer takes up the only entry of the stream. */
  lemma Taken(c: Config, s0: System, s: System, e: Entry) returns (s': System)
    requires Reaches(c, s0, s) && s.redis.stream == multiset{e} && s.batch == multiset{} && s.consumer.Idle?
    ensures Reaches(c, s0, s') && s' == s.(consumer := CheckCap(e))
  {
    s' := Then(c, s0, s, Fetch(multiset{e}));
    s' := Then(c, s0, s', Take(e));
    assert s'.batch == multiset{};
  }

  /** Below the cap and not flagged, it goes on to look into the wallet. */
  lemma Unflagged(c: Config, s0: System, s: System, e: Entry) returns (s': System)
    requires Reaches(c, s0, s) && s.consumer == CheckCap(e) && e.amount <= c.cap && e.id !in s.processed
    ensures s' == s.(consumer := ReadTip(e)) && Reaches(c, s0, s')
  {
    s' := Then(c, s0, s, Work(Go));
    if c.marker { s' := Then(c, s0, s', Work(Go)); }
  }

  /** A reply that may be given and shows nothing in scope of the id. */
  ghost predicate Blind(c: Config, w: seq<Tx>, tip: nat, id: nat, h: History) {
    && StampMatch(h, id, ScanFloor(tip)).NoMatch?
    && (c.honestHistory ==> Complete(w, h)) && (c.lateTransfers || Answered(w, id))
    && Truthful(w, h) && OwnStamps(w, id, ScanFloor(tip))
  }

  lemma Unseen(c: Config, s0: System, s: System, e: Entry, h: History) returns (s': System)
    requires Reaches(c, s0, s) && s.consumer == ReadTip(e) && Blind(c, s.wallet, s.tip, e.id, h)
    ensures s' == s.(consumer := ClaimSlot(e)) && Reaches(c, s0, s')
  {
    s' := Then(c, s0, s, Work(Height(s.tip)));
    s' := Then(c, s0, s', Work(Reply(h)));
  }

  /** The slot is claimed and the entry priced. */
  lemma Claimed(c: Config, s0: System, s: System, e: Entry) returns (s': System)
    requires Reaches(c, s0, s) && s.consumer == ClaimSlot(e) && Free(s.redis, e.id)
    ensures Reaches(c, s0, s') && s' == s.(redis := s'.redis, consumer := Price(e))
    ensures s'.redis == SetState(s.redis, e.id, InFlight)
  {
    s' := Then(c, s0, s, Work(Go));
  }

  /** ... and the wallet is asked for the transfer. */
  lemma Asked(c: Config, s0: System, s: System, e: Entry, snap: Snapshot, stamped: nat) returns (s': System)
    requires Reaches(c, s0, s) && s.consumer == Price(e) && Fits128(snap)
    requires Decide(e.amount, e.id, Some(snap), PendingAtomic(s.redis), c.premiumBp) == Pay(stamped)
    ensures Reaches(c, s0, s')
    ensures s' == s.(consumer := Await(e, |s.wallet|), wallet := s.wallet + [Tx(Some(e.id), stamped, Requested)])
  {
    s' := Then(c, s0, s, Work(Snap(Some(snap))));
    s' := Then(c, s0, s', Work(Go));
  }

  // ---------------------------------------------------------------- a redemption that can be paid

  /** Some amount below the cap is worth a stamp unit, the least the pool pays. */
  predicate Payable(c: Config) { c.cap * (10_000 + c.premiumBp) >= STAMP_MOD * 10_000 }

  /** The poller turns pages. */
  predicate Operable(c: Config) { Payable(c) && c.chunk >= 1 }

  function FirstId(c: Config): nat { Max(c.startId, 1) }

  function Amount(c: Config): nat { Min(c.cap, STAMP_MOD) }

  function First(c: Config): Entry { Entry(FirstId(c), Amount(c)) }

  /** Burns up to the first id the poller looks at. */
  function Burnt(c: Config, n: nat): seq<nat> { seq(n, _ => Amount(c)) }

  const SNAPSHOT: Snapshot := Snapshot(STAMP_MOD, STAMP_MOD, 0, 0)

  /** What the wallet is asked for: one stamp unit, stamped. */
  function Paid(c: Config): nat { StampAmount(STAMP_MOD, FirstId(c)) }

  lemma WorthAUnit(cap: nat, premiumBp: nat, amount: nat)
    requires cap * (10_000 + premiumBp) >= STAMP_MOD * 10_000 && amount == Min(cap, STAMP_MOD)
    ensures 0 < amount && EffectiveBalance(STAMP_MOD, amount, premiumBp) == STAMP_MOD
  {
    if cap < STAMP_MOD {
      assert cap * (10_000 + premiumBp) == 10_000 * cap + cap * premiumBp;
      assert cap * premiumBp >= 10_000 * (STAMP_MOD - cap);
    }
  }

  lemma Priced(c: Config)
    requires Payable(c)
    ensures Decide(Amount(c), FirstId(c), Some(SNAPSHOT), Amount(c), c.premiumBp) == Pay(Paid(c))
  {
    WorthAUnit(c.cap, c.premiumBp, Amount(c));
    ExactDivision(STAMP_MOD, Amount(c));
    assert Payout(Amount(c), STAMP_MOD, Amount(c)) == STAMP_MOD;
  }

  lemma {:induction false} Burned(c: Config, n: nat) returns (s: System)
    ensures Reaches(c, START, s) && s == START.(burns := Burnt(c, n))
  {
    if n == 0 {
      Here(c, START);
      s := START;
    } else {
      s := Burned(c, n - 1);
      s := Then(c, START, s, Burn(Amount(c)));
      assert s.burns == Burnt(c, n);
    }
  }

  /** The last of the burns is the first the poller looks at. */
  predicate BurntTo(c: Config, s: System) { |s.burns| == FirstId(c) && s.burns[FirstId(c) - 1] <= I64_MAX }

  /** The poller claims and publishes it. */
  lemma Published(c: Config, s0: System, s: System) returns (s': System)
    requires c.chunk >= 1 && Reaches(c, s0, s) && BurntTo(c, s) && s.redis == EMPTY && s.poller.Resting?
    ensures Reaches(c, s0, s') && s' == s.(redis := s'.redis, poller := Advancing(FirstId(c), FirstId(c)))
    ensures var e := Entry(FirstId(c), s.burns[FirstId(c) - 1]);
            Free(s'.redis, e.id) && PendingAtomic(s'.redis) == e.amount && s'.redis.stream == multiset{e}
  {
    assert PollRange(EMPTY, s.burns, c.startId, c.chunk) == (FirstId(c), FirstId(c));
    s' := Then(c, s0, s, PollStart);
    assert s'.poller == Fetching(FirstId(c), FirstId(c));
    s' := Then(c, s0, s', PollFetch);
    s' := Then(c, s0, s', PollPublish);
  }

  lemma Enqueued(c: Config, s0: System, s: System) returns (s': System)
    requires c.chunk >= 1 && Reaches(c, s0, s) && BurntTo(c, s) && s.redis == EMPTY && s.poller.Resting?
    ensures Reaches(c, s0, s') && s' == s.(redis := s'.redis)
    ensures var e := Entry(FirstId(c), s.burns[FirstId(c) - 1]);
            Free(s'.redis, e.id) && PendingAtomic(s'.redis) == e.amount && s'.redis.stream == multiset{e}
  {
    s' := Published(c, s0, s);
    s' := Then(c, s0, s', PollStop);
  }

  predicate AtRest(s: System) { s.batch == multiset{} && s.consumer.Idle? && s.poller.Resting? }

  /** From a lost Redis to the checks on the redemption. */
  lemma TakenAgain(c: Config, s0: System, s: System) returns (s': System)
    requires Operable(c) && Reaches(c, s0, s) && AtRest(s) && s.burns == Burnt(c, FirstId(c)) && s.redis == EMPTY
    requires FirstId(c) !in s.processed
    ensures Reaches(c, s0, s') && Free(s'.redis, FirstId(c)) && PendingAtomic(s'.redis) == Amount(c)
    ensures s' == s.(redis := s'.redis, consumer := ReadTip(First(c)))
  {
    s' := Enqueued(c, s0, s);
    s' := Taken(c, s0, s', First(c));
    s' := Unflagged(c, s0, s', First(c));
  }

  /** ... and from there to an open request for it, if no trace of an earlier one is seen. */
  lemma AskedUnseen(c: Config, s0: System, s: System, h: History) returns (s': System)
    requires Payable(c) && Reaches(c, s0, s) && s.consumer == ReadTip(First(c)) && Blind(c, s.wallet, s.tip, FirstId(c), h)
    requires Free(s.redis, FirstId(c)) && PendingAtomic(s.redis) == Amount(c)
    ensures Reaches(c, s0, s')
    ensures s' == s.(redis := s'.redis, consumer := Await(First(c), |s.wallet|),
                     wallet := s.wallet + [Tx(Some(FirstId(c)), Paid(c), Requested)])
  {
    Priced(c);
    s' := Unseen(c, s0, s, First(c), h);
    s' := Claimed(c, s0, s', First(c));
    s' := Asked(c, s0, s', First(c), SNAPSHOT, Paid(c));
  }

  const NOTHING: History := History([], [], [])

  // ---------------------------------------------------------------- paid once

  /** A state that differs from the start in what the first payout has left behind. */
  function After(c: Config, s: System, flags: set<nat>, t: Tx, p: Consumer): System {
    START.(burns := Burnt(c, FirstId(c)), flags := flags, wallet := [t], redis := s.redis, consumer := p)
  }

  function FirstTx(c: Config, status: TxStatus): Tx { Tx(Some(FirstId(c)), Paid(c), status) }

  lemma FirstAsked(c: Config) returns (s: System)
    requires Operable(c)
    ensures Reaches(c, START, s) && s == After(c, s, {}, FirstTx(c, Requested), Await(First(c), 0))
  {
    s := Burned(c, FirstId(c));
    s := TakenAgain(c, START, s);
    s := AskedUnseen(c, START, s, NOTHING);
  }

  lemma PaidFits(c: Config)
    ensures Paid(c) <= U64_MAX
  {
    StampIsLargest(STAMP_MOD, FirstId(c));
  }

  /** The wallet executes the request; the consumer stops before it records that. */
  lemma FirstPaid(c: Config) returns (s: System)
    requires Operable(c)
    ensures Reaches(c, START, s) && s == After(c, s, {}, FirstTx(c, Mempool), Idle)
  {
    PaidFits(c);
    s := FirstAsked(c);
    s := Then(c, START, s, Execute(0));
    s := Then(c, START, s, Stop);
  }

  lemma FirstMined(c: Config) returns (s: System)
    requires Operable(c)
    ensures Reaches(c, START, s) && s == After(c, s, {}, FirstTx(c, Mined(0)), Await(First(c), 0))
  {
    PaidFits(c);
    s := FirstAsked(c);
    s := Then(c, START, s, Execute(0));
    s := Then(c, START, s, Mine(0));
  }

  lemma Confirmed(c: Config, s: System, e: Entry) returns (s': System)
    requires c.marker && Reaches(c, START, s) && s.consumer == Await(e, 0) && |s.wallet| == 1 && s.wallet[0].status.Mined?
    ensures Reaches(c, START, s') && s' == s.(redis := s'.redis, consumer := FlagPaid(e))
  {
    s' := Then(c, START, s, Work(Go));
    s' := Then(c, START, s', Work(Go));
    s' := Then(c, START, s', Work(Go));
  }

  /** The first payout is mined and its flag is on the way when the consumer stops. */
  lemma FirstFlagged(c: Config) returns (s: System)
    requires Operable(c) && c.marker
    ensures Reaches(c, START, s) && s == After(c, s, {FirstId(c)}, FirstTx(c, Mined(0)), Idle)
  {
    s := FirstMined(c);
    s := Confirmed(c, s, First(c));
    s := Then(c, START, s, Work(Go));
    s := Then(c, START, s, Stop);
  }

  // ---------------------------------------------------------------- paid twice

  /** Two transfers for one redemption, both on their way or mined. */
  ghost predicate PaidTwice(w: seq<Tx>) {
    exists i, j :: 0 <= i < j < |w| && w[i].owner.Some? && w[i].owner == w[j].owner && Live(w[i]) && Live(w[j])
  }

  /** A second request after Redis was lost, executed while the first is there. */
  lemma PaysAgain(c: Config, s: System, h: History) returns (s': System)
    requires Operable(c) && c.wipes && Reaches(c, START, s) && AtRest(s)
    requires s.burns == Burnt(c, FirstId(c)) && FirstId(c) !in s.processed
    requires |s.wallet| == 1 && Blind(c, s.wallet, s.tip, FirstId(c), h)
    ensures Reaches(c, START, s') && s'.wallet == s.wallet + [FirstTx(c, Mempool)]
  {
    PaidFits(c);
    s' := Then(c, START, s, Wipe(EMPTY));
    s' := TakenAgain(c, START, s');
    s' := AskedUnseen(c, START, s', h);
    s' := Then(c, START, s', Execute(1));
  }

  lemma TwoLive(c: Config, w: seq<Tx>, t: Tx)
    requires Live(t) && t.owner == Some(FirstId(c)) && w == [t] + [FirstTx(c, Mempool)]
    ensures PaidTwice(w)
  {
    assert w[0] == t && w[1] == FirstTx(c, Mempool);
  }

  /** A request still unanswered at the next scan of its id is invisible to it. */
  lemma LateTransferPaysTwice(c: Config) returns (s: System)
    requires Operable(c) && c.wipes && c.lateTransfers
    ensures Reaches(c, START, s) && PaidTwice(s.wallet)
  {
    PaidFits(c);
    s := FirstAsked(c);
    s := Then(c, START, s, Stop);
    s := PaysAgain(c, s, NOTHING);
    s := Then(c, START, s, Execute(0));
    assert s.wallet == [FirstTx(c, Mempool)] + [FirstTx(c, Mempool)];
    TwoLive(c, s.wallet, FirstTx(c, Mempool));
  }

  /** A reply without a result is read as an empty history. */
  lemma EmptyReplyPaysTwice(c: Config) returns (s: System)
    requires Operable(c) && c.wipes && !c.honestHistory
    ensures Reaches(c, START, s) && PaidTwice(s.wallet)
  {
    s := FirstPaid(c);
    s := PaysAgain(c, s, NOTHING);
    TwoLive(c, s.wallet, FirstTx(c, Mempool));
  }

  /** The complete history of a wallet whose one payout was mined at height 0. */
  function Old(c: Config): History { History([Listed(Paid(c), 0, 0)], [], []) }

  lemma OldIsUnseen(c: Config)
    ensures Blind(c, [FirstTx(c, Mined(0))], RECONCILE_WINDOW + 1, FirstId(c), Old(c))
  {
    assert HitsIn(Old(c).out, FirstId(c), ScanFloor(RECONCILE_WINDOW + 1), true) == [];
  }

  /** A payout that was never flagged, because its confirmation was not waited for, leaves the
      window; the code does nothing to prevent it. */
  lemma AgedPayoutPaysTwice(c: Config) returns (s: System)
    requires Operable(c) && c.wipes && !c.agesSettled
    ensures Reaches(c, START, s) && PaidTwice(s.wallet)
  {
    s := FirstPaid(c);
    s := Then(c, START, s, Mine(0));
    s := Then(c, START, s, AdvanceTip(RECONCILE_WINDOW + 1));
    OldIsUnseen(c);
    s := PaysAgain(c, s, Old(c));
    TwoLive(c, s.wallet, FirstTx(c, Mined(0)));
  }

  lemma AgesNow(c: Config, s: System, id: nat) returns (s': System)
    requires Reaches(c, START, s) && !c.steadyChecks && s.flags == {id} && s.processed == {} && s.tip == 0
    requires |s.wallet| == 1 && s.wallet[0].owner == Some(id)
    ensures Reaches(c, START, s') && s' == s.(flags := {}, processed := {id}, tip := RECONCILE_WINDOW + 1)
  {
    s' := Then(c, START, s, LandFlag(id));
    s' := Then(c, START, s', AdvanceTip(RECONCILE_WINDOW + 1));
    assert s'.flags == {} && s'.processed == {id};
  }

  /** Between the reading of the flag and the scan, the flag lands and the payout leaves the window:
      the consumer has seen neither. */
  lemma AgedMidCheckPaysTwice(c: Config) returns (s: System)
    requires Operable(c) && c.wipes && c.marker && !c.steadyChecks
    ensures Reaches(c, START, s) && PaidTwice(s.wallet)
  {
    PaidFits(c);
    s := FirstFlagged(c);
    s := Then(c, START, s, Wipe(EMPTY));
    s := TakenAgain(c, START, s);
    s := AgesNow(c, s, FirstId(c));
    OldIsUnseen(c);
    s := AskedUnseen(c, START, s, Old(c));
    s := Then(c, START, s, Execute(1));
    TwoLive(c, s.wallet, FirstTx(c, Mined(0)));
  }

  // ---------------------------------------------------------------- nothing to pay

  /** Nothing was ever asked of the wallet. */
  ghost predicate NothingAsked(s: System) {
    !s.consumer.Send? && forall i :: 0 <= i < |s.wallet| ==> s.wallet[i].owner.None?
  }

  /** Where no amount below the cap is worth a stamp unit, no price leads to a transfer. */
  lemma NeverSends(c: Config, s: System, inp: Input)
    requires !Payable(c) && Answers(c, s, inp) && CapKept(c, s.consumer)
    ensures !GoesTo(c, s, inp).Send?
  {
    if s.consumer.Price? && inp.snapshot.Some? {
      UnpayableNeverPays(c, s.consumer.e, inp.snapshot.value, PendingAtomic(s.redis));
    }
  }

  lemma UnpayableNeverPays(c: Config, e: Entry, snap: Snapshot, pending: nat)
    requires !Payable(c) && e.amount <= c.cap
    ensures !Decide(e.amount, e.id, Some(snap), pending, c.premiumBp).Pay?
  {
    var denom := SatAdd(snap.supply, pending);
    if denom > 0 {
      PayoutWithinPremium(e.amount, snap.balance, denom, c.premiumBp);
      MulMonotone(10_000 + c.premiumBp, e.amount, c.cap);
    }
  }

  lemma StepAsksNothing(c: Config, s: System, a: Action)
    requires !Payable(c) && NothingAsked(s) && CapKept(c, s.consumer) && Enabled(c, s, a)
    ensures NothingAsked(Apply(c, s, a))
  {
    if a.Work? { NeverSends(c, s, a.input); }
  }

  lemma RunAsksNothing(c: Config, run: seq<System>, i: nat)
    requires !Payable(c) && Run(c, run) && i + 1 < |run| && NothingAsked(run[i]) && CapKept(c, run[i].consumer)
    ensures NothingAsked(run[i + 1])
  {
    assert StepAt(c, run, i);
    var a :| Enabled(c, run[i], a) && run[i + 1] == Apply(c, run[i], a);
    StepAsksNothing(c, run[i], a);
  }

  lemma {:induction false} NothingAskedAt(c: Config, run: seq<System>, i: nat)
    requires !Payable(c) && Run(c, run) && Init(run[0]) && i < |run|
    ensures NothingAsked(run[i])
  {
    if i > 0 {
      NothingAskedAt(c, run, i - 1);
      CapKeptAt(c, run, i - 1);
      RunAsksNothing(c, run, i - 1);
    }
  }

  // ---------------------------------------------------------------- exactly when

  ghost predicate AtMostOnce(c: Config) {
    forall run: seq<System>, i :: Run(c, run) && Init(run[0]) && 0 <= i < |run| ==> PaidAtMostOnce(run[i].wallet)
  }

  lemma AtMostOnceIf(c: Config)
    requires !c.wipes || Trusting(c) || !Payable(c)
    ensures AtMostOnce(c)
  {
    forall run: seq<System>, i | Run(c, run) && Init(run[0]) && 0 <= i < |run| ensures PaidAtMostOnce(run[i].wallet) {
      if !c.wipes { ClaimedOnce(c, run); }
      else if Trusting(c) { NeverPaidTwice(c, run); }
      else { NothingAskedAt(c, run, i); }
    }
  }

  lemma PaysTwiceIf(c: Config) returns (s: System)
    requires Operable(c) && c.wipes && !Trusting(c)
    ensures Reaches(c, START, s) && PaidTwice(s.wallet)
  {
    if c.lateTransfers { s := LateTransferPaysTwice(c); }
    else if !c.honestHistory { s := EmptyReplyPaysTwice(c); }
    else if !c.agesSettled { s := AgedPayoutPaysTwice(c); }
    else { s := AgedMidCheckPaysTwice(c); }
  }

  /** Exactly when the pool pays at most once: Redis is never lost, everything the stamp scan relies
      on holds, or the settings let nothing be paid at all. */
  lemma AtMostOnceIff(c: Config)
    requires c.chunk >= 1
    ensures AtMostOnce(c) <==> !c.wipes || Trusting(c) || !Payable(c)
  {
    if !c.wipes || Trusting(c) || !Payable(c) {
      AtMostOnceIf(c);
    } else {
      var s := PaysTwiceIf(c);
      var run: seq<System> :| Path(c, run, START, s);
      assert !PaidAtMostOnce(run[|run| - 1].wallet);
    }
  }
}
