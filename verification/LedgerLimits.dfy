/** Where the ledger's guarantees end. When Redis is lost, or falls back to an older copy, what the
    consumer and the poller are in the middle of decides whether the total stays right: exactly the
    harmless states of `PayoutLedger` keep it so. */
module LedgerLimits {
  import opened Prelude
  import opened Stamp
  import opened RedemptionStore
  import opened PayoutMath
  import opened PayoutProtocol
  import opened PayoutLedger
  import opened PayoutLimits

  /** The ledger holds in every state reached from `s`. */
  ghost predicate LedgerKept(c: Config, s: System) {
    forall s' :: Reaches(c, s, s') ==> LedgerHolds(c, s'.redis)
  }

  /** A record reopened without being owed is missing from the total. */
  lemma ReopenedIsMissing(r: Redis, id: nat, st: RedemptionState)
    requires Unsettled(st) && id !in Owed(r)
    ensures !AllOwed(SetState(r, id, st))
  {
    var r' := SetState(r, id, st);
    assert r'.state[id] == st && id !in Owed(r');
  }

  // ---------------------------------------------------------------- the consumer reopens

  lemma RollbackBreaks(c: Config, s0: System, s: System) returns (s': System)
    requires Reaches(c, s0, s) && (s.consumer.Rollback? || s.consumer.Unpark? || s.consumer.Park? || s.consumer.ParkLocked?)
    requires s.consumer.e.id !in Owed(s.redis)
    ensures Reaches(c, s0, s') && !AllOwed(s'.redis)
  {
    s' := Then(c, s0, s, Work(Go));
    ReopenedIsMissing(s.redis, s.consumer.e.id, if s.consumer.Rollback? || s.consumer.Unpark? then Pending else Paused);
  }

  /** A request that was refused, or may yet be, is rolled back. */
  lemma RefusalBreaks(c: Config, s0: System, s: System) returns (s': System)
    requires Reaches(c, s0, s) && s.consumer.Await? && MayBeRefused(s.wallet, s.consumer.tx)
    requires s.consumer.e.id !in Owed(s.redis)
    ensures Reaches(c, s0, s') && !AllOwed(s'.redis)
  {
    s' := s;
    if s.wallet[s.consumer.tx].status.Requested? { s' := Then(c, s0, s, Refuse(s.consumer.tx)); }
    s' := Then(c, s0, s', Work(Fail));
    s' := RollbackBreaks(c, s0, s');
  }

  lemma SlotBreaks(c: Config, s0: System, s: System) returns (s': System)
    requires Reaches(c, s0, s) && Reopens(s.consumer) && s.consumer.e.id !in Owed(s.redis)
    ensures Reaches(c, s0, s') && !AllOwed(s'.redis)
  {
    if s.consumer.Price? {
      s' := Then(c, s0, s, Work(Snap(None)));
      s' := RollbackBreaks(c, s0, s');
    } else if s.consumer.Send? {
      s' := Then(c, s0, s, Work(Go));
      s' := RefusalBreaks(c, s0, s');
    } else {
      s' := RollbackBreaks(c, s0, s);
    }
  }

  /** An entry above the cap is parked, counted or not. */
  lemma ParkingBreaks(c: Config, s0: System, s: System) returns (s': System)
    requires Reaches(c, s0, s) && s.consumer.CheckCap? && !EntrySafe(c, s.redis, s.consumer.e)
    ensures Reaches(c, s0, s') && !AllOwed(s'.redis)
  {
    s' := Then(c, s0, s, Work(Go));
    ReopenedIsMissing(s.redis, s.consumer.e.id, Paused);
  }

  // ---------------------------------------------------------------- a fetched entry comes up

  /** The pass has its scan before it. */
  predicate BeforeScan(p: Consumer) { p.CheckCap? || p.CheckFlag? || p.ReadTip? || p.Scan? }

  /** The height its scan is bounded by, if the tip is read as it is. */
  function FloorOf(s: System): nat { if s.consumer.Scan? then s.consumer.minHeight else ScanFloor(s.tip) }

  ghost predicate Conclusive(c: Config, s: System, e: Entry, minHeight: nat, h: History) {
    ScanAllowed(c, s.(consumer := Scan(e, minHeight)), h) && StampMatch(h, e.id, minHeight) != Ambiguous
  }

  /** If the pass has its scan before it, some reply to it may be given that is not ambiguous. */
  ghost predicate MayGoOn(c: Config, s: System) {
    BeforeScan(s.consumer) ==> exists h :: Conclusive(c, s, s.consumer.e, FloorOf(s), h)
  }

  /** Steps a pass is at most away from its end, when it goes on at every turn. */
  function Rank(p: Consumer): nat {
    match p
    case Idle => 0 case Rollback(_) => 0
    case Ack(_) => 1 case Unpark(_) => 1
    case RecordSettled(_) => 2 case Park(_) => 2 case ParkLocked(_) => 2 case RecordDead(_) => 2 case FlagPaid(_) => 2
    case FlagDead(_) => 3 case Confirm(_, _) => 3 case Reconcile(_, _, _) => 3 case Price(_) => 3
    case RecordSent(_, _) => 4 case ClaimSlot(_) => 4
    case Await(_, _) => 5 case Scan(_, _) => 5
    case Send(_, _) => 6 case ReadTip(_) => 6
    case CheckFlag(_) => 7
    case CheckCap(_) => 8
  }

  const NO_FUNDS: Snapshot := Snapshot(0, 0, 0, 0)

  /** Outside a scan, the answer that lets the pass go on. */
  function Onward(s: System): Input {
    match s.consumer
    case ReadTip(_) => Height(s.tip)
    case Price(_) => Snap(Some(NO_FUNDS))
    case Confirm(_, _) => Fail
    case _ => Go
  }

  lemma GoesOn(c: Config, s: System)
    requires !s.consumer.Idle? && !s.consumer.Scan? && !s.consumer.Rollback?
    requires s.consumer.Await? ==> s.consumer.tx < |s.wallet| && !s.wallet[s.consumer.tx].status.Requested?
    ensures Answers(c, s, Onward(s))
    ensures var p, p' := s.consumer, GoesTo(c, s, Onward(s));
            && Rank(p') < Rank(p) && !p'.Rollback? && !BreaksOff(p, p')
            && (BeforeScan(p') ==> BeforeScan(p) && p'.e == p.e && (p'.Scan? ==> p'.minHeight == ScanFloor(s.tip)))
  {
  }

  lemma ScanGoesOn(c: Config, s: System, h: History)
    requires s.consumer.Scan? && Conclusive(c, s, s.consumer.e, s.consumer.minHeight, h)
    ensures Enabled(c, s, Work(Reply(h)))
    ensures var p, p' := s.consumer, GoesTo(c, s, Reply(h));
            Rank(p') < Rank(p) && !p'.Rollback? && !BreaksOff(p, p') && !BeforeScan(p')
  {
    assert s.(consumer := Scan(s.consumer.e, s.consumer.minHeight)) == s;
  }

  lemma StillConclusive(c: Config, s: System, s': System)
    requires MayGoOn(c, s) && s'.wallet == s.wallet && s'.tip == s.tip
    requires BeforeScan(s'.consumer) ==> BeforeScan(s.consumer) && s'.consumer.e == s.consumer.e && FloorOf(s') == FloorOf(s)
    ensures MayGoOn(c, s')
  {
    if BeforeScan(s'.consumer) {
      var h :| Conclusive(c, s, s.consumer.e, FloorOf(s), h);
      assert Conclusive(c, s', s'.consumer.e, FloorOf(s'), h);
    }
  }

  /** One turn of a pass that goes on. */
  lemma Turned(c: Config, s0: System, s: System) returns (s': System)
    requires Reaches(c, s0, s) && PassFormed(c, s.wallet, s.consumer) && MayGoOn(c, s)
    requires !s.consumer.Idle? && !s.consumer.Rollback?
    ensures Reaches(c, s0, s') && PassFormed(c, s'.wallet, s'.consumer) && MayGoOn(c, s') && !s'.consumer.Rollback?
    ensures s'.batch == s.batch && s'.redis.amount == s.redis.amount && Rank(s'.consumer) < Rank(s.consumer)
  {
    var p := s.consumer;
    if p.Scan? {
      var h :| Conclusive(c, s, p.e, p.minHeight, h);
      ScanGoesOn(c, s, h);
      PassStays(c, s, Reply(h));
      WritesKeep(c, s.redis, p, Reply(h));
      s' := Then(c, s0, s, Work(Reply(h)));
    } else {
      s' := s;
      if p.Await? && s.wallet[p.tx].status.Requested? { s' := Then(c, s0, s, Refuse(p.tx)); }
      s' := TurnedOnward(c, s0, s');
    }
  }

  lemma TurnedOnward(c: Config, s0: System, s: System) returns (s': System)
    requires Reaches(c, s0, s) && PassFormed(c, s.wallet, s.consumer) && MayGoOn(c, s)
    requires !s.consumer.Idle? && !s.consumer.Scan? && !s.consumer.Rollback?
    requires s.consumer.Await? ==> !s.wallet[s.consumer.tx].status.Requested?
    ensures Reaches(c, s0, s') && PassFormed(c, s'.wallet, s'.consumer) && MayGoOn(c, s') && !s'.consumer.Rollback?
    ensures s'.batch == s.batch && s'.redis.amount == s.redis.amount && Rank(s'.consumer) < Rank(s.consumer)
  {
    GoesOn(c, s);
    PassStays(c, s, Onward(s));
    WritesKeep(c, s.redis, s.consumer, Onward(s));
    s' := Then(c, s0, s, Work(Onward(s)));
    if BeforeScan(s'.consumer) { StillConclusive(c, s, s'); }
  }

  /** A pass that may go on can come to its end, with the amounts and the fetched entries as they
      were. */
  lemma {:induction false} Drained(c: Config, s0: System, s: System) returns (s': System)
    requires Reaches(c, s0, s) && PassFormed(c, s.wallet, s.consumer) && MayGoOn(c, s) && !s.consumer.Rollback?
    ensures Reaches(c, s0, s') && s'.consumer.Idle? && s'.batch == s.batch && s'.redis.amount == s.redis.amount
    decreases Rank(s.consumer)
  {
    if s.consumer.Idle? {
      s' := s;
    } else {
      s' := Turned(c, s0, s);
      s' := Drained(c, s0, s');
    }
  }

  lemma EntryBreaks(c: Config, s0: System, s: System, e: Entry) returns (s': System)
    requires Reaches(c, s0, s) && s.consumer.Idle? && e in s.batch && !EntrySafe(c, s.redis, e)
    ensures Reaches(c, s0, s') && !AllOwed(s'.redis)
  {
    s' := Then(c, s0, s, Take(e));
    s' := ParkingBreaks(c, s0, s');
  }

  lemma BatchBreaks(c: Config, s0: System, s: System, e: Entry) returns (s': System)
    requires Reaches(c, s0, s) && PassFormed(c, s.wallet, s.consumer) && MayGoOn(c, s) && !s.consumer.Rollback?
    requires e in s.batch && !EntrySafe(c, s.redis, e)
    ensures Reaches(c, s0, s') && !AllOwed(s'.redis)
  {
    s' := Drained(c, s0, s);
    s' := EntryBreaks(c, s0, s', e);
  }

  // ---------------------------------------------------------------- the poller moves on

  lemma CursorBreaks(c: Config, s0: System, s: System) returns (s': System)
    requires Reaches(c, s0, s) && s.poller.Advancing? && !CoveredTo(c, s.redis, s.poller.id)
    ensures Reaches(c, s0, s') && s'.redis.cursor == Some(s.poller.id) && !CoveredTo(c, s'.redis, s.poller.id)
  {
    s' := Then(c, s0, s, PollAdvance);
    assert s'.redis.state == s.redis.state;
  }

  lemma PublishingBreaks(c: Config, s0: System, s: System) returns (s': System)
    requires Reaches(c, s0, s) && InPage(s.burns, s.poller) && s.poller.Publishing? && !CoveredTo(c, s.redis, s.poller.id)
    ensures Reaches(c, s0, s') && !LedgerHolds(c, s'.redis)
  {
    s' := Then(c, s0, s, PollPublish);
    assert s'.redis.state == s.redis.state;
    s' := CursorBreaks(c, s0, s');
  }

  lemma FetchingBreaks(c: Config, s0: System, s: System) returns (s': System)
    requires Reaches(c, s0, s) && InPage(s.burns, s.poller) && s.poller.Fetching?
    requires s.burns[s.poller.id - 1] <= I64_MAX && !CoveredTo(c, s.redis, s.poller.id - 1)
    ensures Reaches(c, s0, s') && !LedgerHolds(c, s'.redis)
  {
    var id := s.poller.id;
    s' := Then(c, s0, s, PollFetch);
    GapStays(c, s.redis, id, s.burns[id - 1]);
    if id in s.redis.state { s' := CursorBreaks(c, s0, s'); } else { s' := PublishingBreaks(c, s0, s'); }
  }

  lemma GapStays(c: Config, r: Redis, id: nat, amount: nat)
    requires id >= 1 && !CoveredTo(c, r, id - 1)
    ensures !CoveredTo(c, Claim(r, id, amount), id)
  {
    var k :| Max(c.startId, 1) <= k <= id - 1 && k !in r.state;
    assert k !in Claim(r, id, amount).state;
  }

  /** An uncounted burn above the cap is published, handed out and parked. */
  lemma PublishedBreaks(c: Config, s0: System, s: System) returns (s': System)
    requires Reaches(c, s0, s) && InPage(s.burns, s.poller) && s.poller.Publishing?
    requires !EntrySafe(c, s.redis, Entry(s.poller.id, s.burns[s.poller.id - 1]))
    ensures Reaches(c, s0, s') && !AllOwed(s'.redis)
  {
    var e := Entry(s.poller.id, s.burns[s.poller.id - 1]);
    s' := Then(c, s0, s, PollPublish);
    s' := Then(c, s0, s', Stop);
    assert e in s'.redis.stream && multiset{e} <= s'.redis.stream;
    s' := Then(c, s0, s', Fetch(multiset{e}));
    s' := EntryBreaks(c, s0, s', e);
  }

  // ---------------------------------------------------------------- exactly when

  lemma ConsumerBreaks(c: Config, s: System) returns (s': System)
    requires Reaches(c, s, s) && !ConsumerHarmless(c, s.redis, s.wallet, s.consumer)
    ensures Reaches(c, s, s') && !LedgerHolds(c, s'.redis)
  {
    if s.consumer.CheckCap? { s' := ParkingBreaks(c, s, s); }
    else if s.consumer.Await? { s' := RefusalBreaks(c, s, s); }
    else { s' := SlotBreaks(c, s, s); }
  }

  lemma PollerBreaks(c: Config, s: System) returns (s': System)
    requires Reaches(c, s, s) && InPage(s.burns, s.poller) && !PollerHarmless(c, s.redis, s.burns, s.poller)
    ensures Reaches(c, s, s') && !LedgerHolds(c, s'.redis)
  {
    if s.poller.Fetching? { s' := FetchingBreaks(c, s, s); }
    else if s.poller.Advancing? { s' := CursorBreaks(c, s, s); }
    else if !CoveredTo(c, s.redis, s.poller.id) { s' := PublishingBreaks(c, s, s); }
    else { s' := PublishedBreaks(c, s, s); }
  }

  lemma HarmBreaks(c: Config, s: System) returns (s': System)
    requires WellFormed(c, s) && !Harmless(c, s) && (AllSafe(c, s.redis, s.batch) || MayGoOn(c, s))
    ensures Reaches(c, s, s') && !LedgerHolds(c, s'.redis)
  {
    Here(c, s);
    if !ConsumerHarmless(c, s.redis, s.wallet, s.consumer) { s' := ConsumerBreaks(c, s); }
    else if !PollerHarmless(c, s.redis, s.burns, s.poller) { s' := PollerBreaks(c, s); }
    else {
      var e :| e in s.batch && !EntrySafe(c, s.redis, e);
      s' := BatchBreaks(c, s, s, e);
    }
  }

  /** From a store in order — lost altogether, or an older copy — the total stays exact and the
      cursor gapless in every state reached without a further loss, if and only if nothing under way
      is harmful. */
  lemma LedgerKeptIff(c: Config, s: System)
    requires !c.wipes && WellFormed(c, s) && StoreInv(c, s.redis, s.burns)
    requires AllSafe(c, s.redis, s.batch) || MayGoOn(c, s)
    ensures LedgerKept(c, s) <==> Harmless(c, s)
  {
    if Harmless(c, s) {
      forall s' | Reaches(c, s, s') ensures LedgerHolds(c, s'.redis) {
        var run: seq<System> :| Path(c, run, s, s');
        LedgerInvAt(c, run, |run| - 1);
      }
    } else {
      var s' := HarmBreaks(c, s);
    }
  }

  /** The condition spelled out for a store that was lost altogether. */
  lemma HarmlessWhenLost(c: Config, s: System)
    requires WellFormed(c, s) && s.redis == EMPTY
    ensures var first := Max(c.startId, 1);
            Harmless(c, s) <==>
              && (forall e :: e in s.batch ==> e.amount <= c.cap)
              && (s.consumer.CheckCap? ==> s.consumer.e.amount <= c.cap)
              && !Reopens(s.consumer) && !(s.consumer.Await? && MayBeRefused(s.wallet, s.consumer.tx))
              && (match s.poller
                  case Resting => true
                  case Fetching(id, _) => id <= first || s.burns[id - 1] > I64_MAX
                  case Publishing(id, _) => id < first && s.burns[id - 1] <= c.cap
                  case Advancing(id, _) => id < first)
  {
    forall last: nat ensures CoveredTo(c, EMPTY, last) <==> last < Max(c.startId, 1) {
      if last >= Max(c.startId, 1) { assert Max(c.startId, 1) !in EMPTY.state; }
    }
  }

  /** Everything at rest is harmless. */
  lemma AtRestIsHarmless(c: Config, s: System)
    requires AllOnChain(s.burns, s.redis.stream) && StoreInv(c, s.redis, s.burns)
    requires s.batch == multiset{} && s.consumer.Idle? && s.poller.Resting?
    ensures LedgerInv(c, s)
  {
  }

  // ---------------------------------------------------------------- harm is reachable

  /** Lost between the claim of a slot and its rollback. */
  lemma LostMidPass(c: Config) returns (s: System)
    requires Operable(c) && c.wipes
    ensures Reaches(c, START, s) && s.redis == EMPTY && WellFormed(c, s) && !Harmless(c, s)
    ensures s.consumer == Rollback(First(c)) && s.batch == multiset{} && s.poller.Resting?
  {
    s := Burned(c, FirstId(c));
    s := Enqueued(c, START, s);
    s := PricedNext(c, s, First(c));
    s := Then(c, START, s, Work(Snap(None)));
    s := Then(c, START, s, Wipe(EMPTY));
  }

  /** Lost while the poller is between enqueuing an id and moving the cursor onto it. */
  lemma LostMidPage(c: Config) returns (s: System)
    requires c.chunk >= 1 && c.wipes
    ensures Reaches(c, START, s) && s.redis == EMPTY && WellFormed(c, s) && !Harmless(c, s)
    ensures s.poller == Advancing(FirstId(c), FirstId(c)) && s.batch == multiset{} && s.consumer.Idle?
  {
    s := Burned(c, FirstId(c));
    s := Published(c, START, s);
    s := Then(c, START, s, Wipe(EMPTY));
    assert FirstId(c) !in s.redis.state;
  }

  /** Lost while a fetched entry above the cap waits to be parked. */
  lemma LostWithBatch(c: Config) returns (s: System)
    requires c.chunk >= 1 && c.wipes && c.cap < I64_MAX
    ensures Reaches(c, START, s) && s.redis == EMPTY && WellFormed(c, s) && !Harmless(c, s)
    ensures s.batch == multiset{Entry(FirstId(c), c.cap + 1)} && s.consumer.Idle? && s.poller.Resting?
  {
    s := Burned(c, FirstId(c) - 1);
    s := Then(c, START, s, Burn(c.cap + 1));
    s := Enqueued(c, START, s);
    s := LostAfterFetch(c, s, Entry(FirstId(c), c.cap + 1));
    assert Entry(FirstId(c), c.cap + 1) in s.batch;
  }

  lemma LostAfterFetch(c: Config, s: System, e: Entry) returns (s': System)
    requires c.wipes && Reaches(c, START, s) && AtRest(s) && s.redis.stream == multiset{e}
    ensures Reaches(c, START, s') && s' == s.(redis := EMPTY, batch := multiset{e})
  {
    s' := Then(c, START, s, Fetch(multiset{e}));
    s' := Then(c, START, s', Wipe(EMPTY));
    assert s'.batch == multiset{e};
  }

  // ---------------------------------------------------------------- burns not yet polled

  const FOUR_UNITS: nat := 262144

  /** With nothing in the wallet the only entry of the stream comes to be priced. */
  lemma PricedNext(c: Config, s: System, e: Entry) returns (s': System)
    requires Reaches(c, START, s) && AtRest(s) && s.redis.stream == multiset{e} && Free(s.redis, e.id)
    requires e.amount <= c.cap && e.id !in s.processed && s.wallet == []
    ensures Reaches(c, START, s') && s' == s.(redis := SetState(s.redis, e.id, InFlight), consumer := Price(e))
  {
    s' := Taken(c, START, s, e);
    s' := Unflagged(c, START, s', e);
    s' := Unseen(c, START, s', e, NOTHING);
    s' := Claimed(c, START, s', e);
  }

  /** A redemption about to be priced, while a second burn of the same amount waits for the poller. */
  lemma PricedBeforePolled(c: Config) returns (s: System)
    requires c.chunk >= 1 && c.cap >= FOUR_UNITS
    ensures Reaches(c, START, s) && s.consumer == Price(Entry(FirstId(c), FOUR_UNITS)) && PendingAtomic(s.redis) == FOUR_UNITS
    ensures |s.burns| == FirstId(c) + 1 && s.burns[FirstId(c) - 1] == s.burns[FirstId(c)] == FOUR_UNITS
  {
    s := Burned(c, FirstId(c) - 1);
    s := Then(c, START, s, Burn(FOUR_UNITS));
    s := Published(c, START, s);
    s := Then(c, START, s, PollStop);
    s := PricedNext(c, s, Entry(FirstId(c), FOUR_UNITS));
    s := Then(c, START, s, Burn(FOUR_UNITS));
  }

  /** The ledger is in order there, yet the total is half of what is backed: a wallet that covers the
      one burn but not both pays the first redeemer out of the second one's share. */
  lemma UnpolledBurnDilutes(c: Config) returns (s: System, stamped: nat)
    requires !c.wipes && c.chunk >= 1 && c.cap >= FOUR_UNITS
    ensures Reaches(c, START, s) && LedgerHolds(c, s.redis) && s.consumer.Price?
    ensures var e := s.consumer.e;
            && Decide(e.amount, e.id, Some(Snapshot(FOUR_UNITS, FOUR_UNITS, 0, 0)), PendingAtomic(s.redis), c.premiumBp) == Pay(stamped)
            && stamped <= FOUR_UNITS
            && !BackedNoWorse(Treasury(FOUR_UNITS, 2 * FOUR_UNITS), Treasury(FOUR_UNITS - stamped, FOUR_UNITS))
  {
    s := PricedBeforePolled(c);
    var run: seq<System> :| Path(c, run, START, s);
    InitLedger(c, START);
    LedgerInvAt(c, run, |run| - 1);
    stamped := StampAmount(FOUR_UNITS, FirstId(c));
    PricedInFull(FirstId(c), c.premiumBp);
  }

  lemma PricedInFull(id: nat, premiumBp: nat)
    ensures Decide(FOUR_UNITS, id, Some(Snapshot(FOUR_UNITS, FOUR_UNITS, 0, 0)), FOUR_UNITS, premiumBp) ==
            Pay(StampAmount(FOUR_UNITS, id))
    ensures var stamped := StampAmount(FOUR_UNITS, id);
            && stamped <= FOUR_UNITS
            && !BackedNoWorse(Treasury(FOUR_UNITS, 2 * FOUR_UNITS), Treasury(FOUR_UNITS - stamped, FOUR_UNITS))
  {
    assert EffectiveBalance(FOUR_UNITS, FOUR_UNITS, premiumBp) == FOUR_UNITS;
    assert Payout(FOUR_UNITS, FOUR_UNITS, FOUR_UNITS) == FOUR_UNITS;
    UnderCountDilutes(Treasury(FOUR_UNITS, 2 * FOUR_UNITS), FOUR_UNITS, id, FOUR_UNITS, premiumBp);
  }
}
