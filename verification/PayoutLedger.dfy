/** Between losses of Redis, the running total of unpaid redemptions: it is exact, so it never
    under-counts and pricing against it is safe, and the poller leaves no gap behind its cursor —
    if nothing was under way that the store no longer knows of. `LedgerLimits` shows that condition
    to be exact. */
module PayoutLedger {
  import opened Prelude
  import opened RedemptionStore
  import opened PayoutMath
  import opened PayoutProtocol

  // ---------------------------------------------------------------- what is at stake

  ghost predicate CoveredTo(c: Config, r: Redis, last: nat) {
    forall id :: Max(c.startId, 1) <= id <= last ==> id in r.state
  }

  /** The total is exact and covers everything unpaid, and no burn behind the cursor was skipped. */
  ghost predicate LedgerHolds(c: Config, r: Redis) {
    Counted(r) && (r.cursor.Some? ==> CoveredTo(c, r, r.cursor.value))
  }

  // ---------------------------------------------------------------- what is always so

  /** An entry tells the amount burned on chain under its id. */
  predicate OnChain(burns: seq<nat>, e: Entry) { 1 <= e.id <= |burns| && burns[e.id - 1] == e.amount }

  predicate PastCap(p: Consumer) { !p.Idle? && !p.CheckCap? && !p.Ack? }

  predicate CapKept(c: Config, p: Consumer) { PastCap(p) ==> p.e.amount <= c.cap }

  predicate InPage(burns: seq<nat>, q: Poller) { q.Resting? || 1 <= q.id <= q.last <= |burns| }

  ghost predicate AllOnChain(burns: seq<nat>, entries: multiset<Entry>) { forall e :: e in entries ==> OnChain(burns, e) }

  ghost predicate EntriesOnChain(s: System) {
    && AllOnChain(s.burns, s.redis.stream) && AllOnChain(s.burns, s.batch)
    && (!s.consumer.Idle? ==> OnChain(s.burns, s.consumer.e))
  }

  predicate PassFormed(c: Config, w: seq<Tx>, p: Consumer) { CapKept(c, p) && (p.Await? ==> p.tx < |w|) }

  ghost predicate WellFormed(c: Config, s: System) {
    EntriesOnChain(s) && PassFormed(c, s.wallet, s.consumer) && InPage(s.burns, s.poller)
  }

  /** A pass stays with its entry, and goes on only below the cap. */
  lemma PassStays(c: Config, s: System, inp: Input)
    requires Answers(c, s, inp) && CapKept(c, s.consumer)
    ensures var p' := GoesTo(c, s, inp);
            && (!p'.Idle? ==> p'.e == s.consumer.e) && CapKept(c, p')
            && (p'.Await? ==> p'.tx < |Asks(s.wallet, s.consumer)|)
  {
  }

  lemma WorkKeepsForm(c: Config, s: System, inp: Input)
    requires WellFormed(c, s) && Answers(c, s, inp)
    ensures WellFormed(c, WorkStep(c, s, inp))
  {
    PassStays(c, s, inp);
    WritesKeep(c, s.redis, s.consumer, inp);
  }

  lemma StepKeepsPage(c: Config, s: System, a: Action)
    requires InPage(s.burns, s.poller) && Enabled(c, s, a)
    ensures InPage(Apply(c, s, a).burns, Apply(c, s, a).poller)
  {
  }

  lemma StepKeepsPass(c: Config, s: System, a: Action)
    requires PassFormed(c, s.wallet, s.consumer) && Enabled(c, s, a) && !a.Work?
    ensures PassFormed(c, Apply(c, s, a).wallet, Apply(c, s, a).consumer)
  {
  }

  lemma HandedOut(burns: seq<nat>, stream: multiset<Entry>, batch: multiset<Entry>, entries: multiset<Entry>)
    requires AllOnChain(burns, stream) && AllOnChain(burns, batch) && entries <= stream
    ensures AllOnChain(burns, batch + entries)
  {
    forall e | e in batch + entries ensures OnChain(burns, e) { assert e in batch || e in stream; }
  }

  lemma QueueKeepsEntries(c: Config, s: System, a: Action)
    requires EntriesOnChain(s) && Enabled(c, s, a) && (a.PollPublish? || a.Take? || a.Wipe?)
    requires a.Wipe? ==> AllOnChain(s.burns, a.redis.stream)
    ensures EntriesOnChain(Apply(c, s, a))
  {
  }

  /** All other steps leave the entries where they are. */
  lemma EntriesStay(c: Config, s: System, a: Action)
    requires Enabled(c, s, a) && !a.Work? && !a.Burn? && !a.Fetch? && !a.PollPublish? && !a.Take? && !a.Wipe?
    ensures var s' := Apply(c, s, a);
            && s'.burns == s.burns && s'.redis.stream == s.redis.stream && (s'.batch == s.batch || s'.batch == multiset{})
            && (s'.consumer == s.consumer || s'.consumer.Idle?)
  {
  }

  lemma StepKeepsEntries(c: Config, s: System, a: Action)
    requires EntriesOnChain(s) && Enabled(c, s, a) && !a.Work?
    requires a.Wipe? ==> AllOnChain(s.burns, a.redis.stream)
    ensures EntriesOnChain(Apply(c, s, a))
  {
    if a.Fetch? { HandedOut(s.burns, s.redis.stream, s.batch, a.entries); }
    else if a.Burn? { BurnKeepsEntries(s, a.amount); }
    else if a.PollPublish? || a.Take? || a.Wipe? { QueueKeepsEntries(c, s, a); }
    else { EntriesStay(c, s, a); }
  }

  lemma BurnKeepsEntries(s: System, amount: nat)
    requires EntriesOnChain(s)
    ensures EntriesOnChain(s.(burns := s.burns + [amount]))
  {
    assert forall e :: OnChain(s.burns, e) ==> OnChain(s.burns + [amount], e);
  }

  lemma StepKeepsForm(c: Config, s: System, a: Action)
    requires WellFormed(c, s) && Enabled(c, s, a) && (a.Wipe? ==> AllOnChain(s.burns, a.redis.stream))
    ensures WellFormed(c, Apply(c, s, a))
  {
    if a.Work? {
      WorkKeepsForm(c, s, a.input);
    } else {
      StepKeepsPage(c, s, a);
      StepKeepsPass(c, s, a);
      StepKeepsEntries(c, s, a);
    }
  }

  lemma RunKeepsForm(c: Config, run: seq<System>, i: nat)
    requires Run(c, run) && i + 1 < |run| && WellFormed(c, run[i]) && AllOnChain(run[i + 1].burns, run[i + 1].redis.stream)
    ensures WellFormed(c, run[i + 1])
  {
    assert StepAt(c, run, i);
    var a :| Enabled(c, run[i], a) && run[i + 1] == Apply(c, run[i], a);
    StepKeepsForm(c, run[i], a);
  }

  /** In every run in which Redis comes back empty or with entries the poller once wrote, whatever is
      under way is about burns on chain. */
  lemma {:induction false} WellFormedAt(c: Config, run: seq<System>, i: nat)
    requires Run(c, run) && Init(run[0]) && i < |run|
    requires forall k :: 0 <= k < |run| ==> AllOnChain(run[k].burns, run[k].redis.stream)
    ensures WellFormed(c, run[i])
  {
    if i > 0 {
      WellFormedAt(c, run, i - 1);
      RunKeepsForm(c, run, i - 1);
    }
  }

  // ---------------------------------------------------------------- the cap alone

  lemma StepKeepsCap(c: Config, s: System, a: Action)
    requires CapKept(c, s.consumer) && Enabled(c, s, a)
    ensures CapKept(c, Apply(c, s, a).consumer)
  {
    if a.Work? { PassStays(c, s, a.input); }
  }

  lemma RunKeepsCap(c: Config, run: seq<System>, i: nat)
    requires Run(c, run) && i + 1 < |run| && CapKept(c, run[i].consumer)
    ensures CapKept(c, run[i + 1].consumer)
  {
    assert StepAt(c, run, i);
    var a :| Enabled(c, run[i], a) && run[i + 1] == Apply(c, run[i], a);
    StepKeepsCap(c, run[i], a);
  }

  lemma {:induction false} CapKeptAt(c: Config, run: seq<System>, i: nat)
    requires Run(c, run) && Init(run[0]) && i < |run|
    ensures CapKept(c, run[i].consumer)
  {
    if i > 0 {
      CapKeptAt(c, run, i - 1);
      RunKeepsCap(c, run, i - 1);
    }
  }

  /** In every run, whatever happens to Redis and whatever the snapshot and the total say, the
      overflow branch is not taken: the cap is a 64-bit and the premium a 32-bit setting. */
  lemma PricingNeverOverflows(c: Config, run: seq<System>, i: nat, snap: Snapshot)
    requires Run(c, run) && Init(run[0]) && i < |run| && c.cap <= U64_MAX && c.premiumBp <= U32_MAX
    requires run[i].consumer.Price?
    ensures var e := run[i].consumer.e;
            Decide(e.amount, e.id, Some(snap), PendingAtomic(run[i].redis), c.premiumBp) != Overflow
  {
    CapKeptAt(c, run, i);
    CappedNeverOverflows(run[i].consumer.e.amount, run[i].consumer.e.id, snap, PendingAtomic(run[i].redis), c.premiumBp);
  }

  // ---------------------------------------------------------------- harmless beginnings

  /** Parking this entry, if it comes to that, parks a counted redemption. */
  predicate EntrySafe(c: Config, r: Redis, e: Entry) { e.amount <= c.cap || e.id in r.amount }

  ghost predicate AllSafe(c: Config, r: Redis, entries: multiset<Entry>) { forall e :: e in entries ==> EntrySafe(c, r, e) }

  /** May still write its id back to `pending` or `paused`. */
  predicate Reopens(p: Consumer) { p.Price? || p.Park? || p.ParkLocked? || p.Unpark? || p.Rollback? || p.Send? }

  predicate MayBeRefused(w: seq<Tx>, tx: nat) { tx < |w| && (w[tx].status.Requested? || w[tx].status.Rejected?) }

  ghost predicate ConsumerHarmless(c: Config, r: Redis, w: seq<Tx>, p: Consumer) {
    && (p.CheckCap? ==> EntrySafe(c, r, p.e))
    && (Reopens(p) || (p.Await? && MayBeRefused(w, p.tx)) ==> p.e.id in Owed(r))
  }

  ghost predicate PollerHarmless(c: Config, r: Redis, burns: seq<nat>, q: Poller)
    requires InPage(burns, q)
  {
    match q
    case Resting => true
    case Fetching(id, _) => burns[id - 1] > I64_MAX || CoveredTo(c, r, id - 1)
    case Publishing(id, _) => CoveredTo(c, r, id) && EntrySafe(c, r, Entry(id, burns[id - 1]))
    case Advancing(id, _) => CoveredTo(c, r, id)
  }

  /** Nothing under way will reopen a redemption the store does not count, or move the cursor past
      one it does not have. What was fetched with a pass that is about to break off is dropped. */
  ghost predicate Harmless(c: Config, s: System)
    requires InPage(s.burns, s.poller)
  {
    && (AllSafe(c, s.redis, s.batch) || s.consumer.Rollback?)
    && ConsumerHarmless(c, s.redis, s.wallet, s.consumer)
    && PollerHarmless(c, s.redis, s.burns, s.poller)
  }

  /** Recorded amounts are those burned on chain. */
  ghost predicate AmountsMatch(r: Redis, burns: seq<nat>) {
    forall id :: id in r.amount ==> 1 <= id <= |burns| && r.amount[id] == burns[id - 1] <= I64_MAX
  }

  ghost predicate DebitsCapped(r: Redis, cap: nat) {
    forall i :: 0 <= i < |r.debits| ==> Get(r.amount, r.debits[i]) <= cap
  }

  /** The store itself is in order: an empty one is, and so is an older copy of one that was. */
  ghost predicate StoreInv(c: Config, r: Redis, burns: seq<nat>) {
    LedgerHolds(c, r) && AmountsMatch(r, burns) && DebitsCapped(r, c.cap) && AllSafe(c, r, r.stream)
  }

  ghost predicate LedgerInv(c: Config, s: System) {
    WellFormed(c, s) && StoreInv(c, s.redis, s.burns) && Harmless(c, s)
  }

  lemma EmptyStore(c: Config, burns: seq<nat>)
    ensures StoreInv(c, EMPTY, burns)
  {
    EmptyCounted();
  }

  /** So the ledger is in order from the start. */
  lemma InitLedger(c: Config, s: System)
    requires Init(s)
    ensures LedgerInv(c, s)
  {
    EmptyStore(c, s.burns);
  }

  // ---------------------------------------------------------------- the consumer

  /** The records of the store only grow under the consumer's writes. */
  lemma PerformedKeeps(r: Redis, e: Entry, w: Write)
    ensures var r' := Performed(r, e, w);
            && r'.amount == r.amount && r'.cursor == r.cursor && (forall id :: id in r.state ==> id in r'.state)
            && (forall x :: x in r'.stream ==> x in r.stream)
  {
  }

  lemma WritesKeep(c: Config, r: Redis, p: Consumer, inp: Input)
    ensures var r' := Writes(c, r, p, inp);
            && r'.amount == r.amount && r'.cursor == r.cursor && (forall id :: id in r.state ==> id in r'.state)
            && (forall x :: x in r'.stream ==> x in r.stream)
  {
    if !p.Idle? { PerformedKeeps(r, p.e, WriteOf(c, r, p, inp)); }
  }

  /** A parked entry above the cap is recorded, and was never debited. */
  lemma OverCapOwed(c: Config, r: Redis, burns: seq<nat>, e: Entry)
    requires StoreInv(c, r, burns) && EntrySafe(c, r, e) && OnChain(burns, e) && e.amount > c.cap
    ensures e.id in Owed(r)
  {
    assert forall i :: 0 <= i < |r.debits| ==> r.debits[i] != e.id;
  }

  /** A write that reopens its id finds it owed. */
  predicate Counting(r: Redis, e: Entry, w: Write) { w.Put? && Unsettled(w.state) ==> e.id in r.amount && e.id !in r.debits }

  /** No raw write of a pass reopens what is not owed. */
  lemma WritesOwed(c: Config, r: Redis, burns: seq<nat>, w: seq<Tx>, p: Consumer, inp: Input)
    requires StoreInv(c, r, burns) && ConsumerHarmless(c, r, w, p) && !p.Idle? && OnChain(burns, p.e)
    ensures Counting(r, p.e, WriteOf(c, r, p, inp)) && (WriteOf(c, r, p, inp).Settle? ==> PastCap(p))
  {
    if p.CheckCap? && p.e.amount > c.cap { OverCapOwed(c, r, burns, p.e); }
    else if p.ClaimSlot? && Free(r, p.e.id) { assert p.e.id in Owed(r); }
  }

  /** A counting write keeps the total exact and appends at most one new debit. */
  lemma PerformedCounted(r: Redis, e: Entry, w: Write)
    requires Counted(r) && Counting(r, e, w)
    ensures var r' := Performed(r, e, w);
            && Counted(r')
            && (r'.debits == r.debits || (w.Settle? && e.id !in r.debits && r'.debits == r.debits + [e.id]))
  {
    match w
    case NoWrite =>
    case Put(st) => SetStateCounted(r, e.id, st);
    case Settle(tx) => MarkSentCounted(r, e.id, tx);
    case Acknowledgement => assert Owed(Acknowledge(r, e)) == Owed(r);
  }

  /** Every write of a pass keeps the total exact and appends at most one new debit. */
  lemma WritesKeepCounted(c: Config, r: Redis, burns: seq<nat>, w: seq<Tx>, p: Consumer, inp: Input)
    requires StoreInv(c, r, burns) && ConsumerHarmless(c, r, w, p) && !p.Idle? && OnChain(burns, p.e)
    ensures Counted(Writes(c, r, p, inp))
    ensures var d, d' := r.debits, Writes(c, r, p, inp).debits;
            d' == d || (p.e.id !in d && d' == d + [p.e.id] && PastCap(p))
  {
    WritesOwed(c, r, burns, w, p, inp);
    PerformedCounted(r, p.e, WriteOf(c, r, p, inp));
  }

  lemma DebitsStayCapped(r: Redis, r': Redis, e: Entry, cap: nat)
    requires r'.amount == r.amount && DebitsCapped(r, cap)
    requires r'.debits == r.debits || (r'.debits == r.debits + [e.id] && Get(r.amount, e.id) <= cap)
    ensures DebitsCapped(r', cap)
  {
  }

  lemma SettledIsCapped(r: Redis, burns: seq<nat>, e: Entry, cap: nat)
    requires AmountsMatch(r, burns) && OnChain(burns, e) && e.amount <= cap
    ensures Get(r.amount, e.id) <= cap
  {
  }

  lemma RecordsStay(c: Config, r: Redis, r': Redis, burns: seq<nat>)
    requires r'.amount == r.amount && r'.cursor == r.cursor && (forall id :: id in r.state ==> id in r'.state)
    requires forall x :: x in r'.stream ==> x in r.stream
    requires AmountsMatch(r, burns) && AllSafe(c, r, r.stream) && (r.cursor.Some? ==> CoveredTo(c, r, r.cursor.value))
    ensures AmountsMatch(r', burns) && AllSafe(c, r', r'.stream) && (r'.cursor.Some? ==> CoveredTo(c, r', r'.cursor.value))
  {
  }

  lemma WritesKeepStore(c: Config, r: Redis, burns: seq<nat>, w: seq<Tx>, p: Consumer, inp: Input)
    requires StoreInv(c, r, burns) && ConsumerHarmless(c, r, w, p) && !p.Idle? && OnChain(burns, p.e) && CapKept(c, p)
    ensures StoreInv(c, Writes(c, r, p, inp), burns)
  {
    var r' := Writes(c, r, p, inp);
    WritesKeep(c, r, p, inp);
    RecordsStay(c, r, r', burns);
    WritesKeepCounted(c, r, burns, w, p, inp);
    if PastCap(p) { SettledIsCapped(r, burns, p.e, c.cap); }
    DebitsStayCapped(r, r', p.e, c.cap);
  }

  /** Where a pass may reopen its id, it held it before, or has just claimed it. */
  lemma ReopensFrom(c: Config, s: System, inp: Input)
    requires Answers(c, s, inp)
    ensures var p, p' := s.consumer, GoesTo(c, s, inp);
            && !p'.CheckCap? && !p.Idle?
            && (Reopens(p') || p'.Await? ==>
                  && (Reopens(p) || (p.ClaimSlot? && Free(s.redis, p.e.id)) || (p.Await? && MayBeRefused(s.wallet, p.tx)))
                  && p'.e == p.e && !p.Rollback? && !p.Unpark?)
  {
  }

  lemma WritesKeepOwed(c: Config, r: Redis, p: Consumer, inp: Input)
    requires (Reopens(p) || p.ClaimSlot? || p.Await?) && p.e.id in Owed(r)
    ensures p.e.id in Owed(Writes(c, r, p, inp))
  {
    assert !WriteOf(c, r, p, inp).Settle?;
  }

  lemma WorkKeepsHarmless(c: Config, s: System, inp: Input)
    requires LedgerInv(c, s) && Answers(c, s, inp)
    ensures var s' := WorkStep(c, s, inp); ConsumerHarmless(c, s'.redis, s'.wallet, s'.consumer)
  {
    ReopensFrom(c, s, inp);
    var p, p' := s.consumer, GoesTo(c, s, inp);
    if Reopens(p') || p'.Await? { WritesKeepOwed(c, s.redis, p, inp); }
  }

  lemma WorkKeepsLedger(c: Config, s: System, inp: Input)
    requires LedgerInv(c, s) && Answers(c, s, inp)
    ensures LedgerInv(c, WorkStep(c, s, inp))
  {
    WritesKeep(c, s.redis, s.consumer, inp);
    WorkKeepsForm(c, s, inp);
    ReopensFrom(c, s, inp);
    WritesKeepStore(c, s.redis, s.burns, s.wallet, s.consumer, inp);
    WorkKeepsHarmless(c, s, inp);
  }

  // ---------------------------------------------------------------- the poller

  lemma ClaimGrows(r: Redis, id: nat, amount: nat)
    requires r.amount.Keys <= r.state.Keys
    ensures var r' := Claim(r, id, amount);
            && r.state.Keys <= r'.state.Keys && r.amount.Keys <= r'.amount.Keys && id in r'.state
            && (forall k :: k in r.amount ==> r'.amount[k] == r.amount[k])
            && (forall k :: k in r'.amount ==> k in r.amount || (k == id && r'.amount[k] == amount))
            && r'.stream == r.stream && r'.cursor == r.cursor && r'.debits == r.debits
            && (id !in r.state ==> id in r'.amount)
  {
  }

  lemma FetchKeepsStore(c: Config, r: Redis, burns: seq<nat>, id: nat)
    requires StoreInv(c, r, burns) && 1 <= id <= |burns| && burns[id - 1] <= I64_MAX
    ensures StoreInv(c, Claim(r, id, burns[id - 1]), burns)
  {
    ClaimCounted(r, id, burns[id - 1]);
    ClaimGrows(r, id, burns[id - 1]);
  }

  /** A claim leaves harmless what was. */
  lemma ClaimKeepsHarmless(c: Config, r: Redis, w: seq<Tx>, p: Consumer, batch: multiset<Entry>, id: nat, amount: nat)
    requires r.amount.Keys <= r.state.Keys && ConsumerHarmless(c, r, w, p)
    ensures ConsumerHarmless(c, Claim(r, id, amount), w, p)
    ensures AllSafe(c, r, batch) ==> AllSafe(c, Claim(r, id, amount), batch)
  {
    ClaimGrows(r, id, amount);
  }

  lemma FetchKeepsPoller(c: Config, r: Redis, burns: seq<nat>, id: nat, last: nat)
    requires 1 <= id <= last <= |burns| && r.amount.Keys <= r.state.Keys && CoveredTo(c, r, id - 1)
    ensures var r' := Claim(r, id, burns[id - 1]);
            && PollerHarmless(c, r', burns, Advancing(id, last))
            && (id !in r.state ==> PollerHarmless(c, r', burns, Publishing(id, last)))
  {
    ClaimGrows(r, id, burns[id - 1]);
    assert CoveredTo(c, Claim(r, id, burns[id - 1]), id);
  }

  /** The ledger after a claim, whatever the poller does next. */
  lemma ClaimKeepsLedger(c: Config, s: System, q: Poller)
    requires LedgerInv(c, s) && s.poller.Fetching? && s.burns[s.poller.id - 1] <= I64_MAX && InPage(s.burns, q)
    requires var r' := Claim(s.redis, s.poller.id, s.burns[s.poller.id - 1]); PollerHarmless(c, r', s.burns, q)
    ensures LedgerInv(c, s.(redis := Claim(s.redis, s.poller.id, s.burns[s.poller.id - 1]), poller := q))
  {
    var r, id, amount := s.redis, s.poller.id, s.burns[s.poller.id - 1];
    FetchKeepsStore(c, r, s.burns, id);
    ClaimKeepsHarmless(c, r, s.wallet, s.consumer, s.batch, id, amount);
    ClaimGrows(r, id, amount);
  }

  lemma RestingKeepsLedger(c: Config, s: System)
    requires LedgerInv(c, s)
    ensures LedgerInv(c, s.(poller := Resting))
  {
  }

  lemma FetchKnownKeepsLedger(c: Config, s: System)
    requires LedgerInv(c, s) && s.poller.Fetching? && s.poller.id in s.redis.state && s.burns[s.poller.id - 1] <= I64_MAX
    ensures LedgerInv(c, s.(redis := Claim(s.redis, s.poller.id, s.burns[s.poller.id - 1]),
                            poller := Advancing(s.poller.id, s.poller.last)))
  {
    FetchKeepsPoller(c, s.redis, s.burns, s.poller.id, s.poller.last);
    ClaimKeepsLedger(c, s, Advancing(s.poller.id, s.poller.last));
  }

  lemma FetchNewKeepsLedger(c: Config, s: System)
    requires LedgerInv(c, s) && s.poller.Fetching? && s.poller.id !in s.redis.state && s.burns[s.poller.id - 1] <= I64_MAX
    ensures LedgerInv(c, s.(redis := Claim(s.redis, s.poller.id, s.burns[s.poller.id - 1]),
                            poller := Publishing(s.poller.id, s.poller.last)))
  {
    FetchKeepsPoller(c, s.redis, s.burns, s.poller.id, s.poller.last);
    ClaimKeepsLedger(c, s, Publishing(s.poller.id, s.poller.last));
  }

  lemma FetchKeepsLedger(c: Config, s: System)
    requires LedgerInv(c, s) && Enabled(c, s, PollFetch)
    ensures LedgerInv(c, Apply(c, s, PollFetch))
  {
    if s.burns[s.poller.id - 1] > I64_MAX { RestingKeepsLedger(c, s); }
    else if s.poller.id in s.redis.state { FetchKnownKeepsLedger(c, s); }
    else { FetchNewKeepsLedger(c, s); }
  }

  lemma PublishKeepsStore(c: Config, r: Redis, burns: seq<nat>, id: nat, amount: nat)
    requires StoreInv(c, r, burns) && EntrySafe(c, r, Entry(id, amount))
    ensures StoreInv(c, Publish(r, id, amount), burns)
  {
    assert Owed(Publish(r, id, amount)) == Owed(r);
  }

  lemma PublishKeepsLedger(c: Config, s: System)
    requires LedgerInv(c, s) && Enabled(c, s, PollPublish)
    ensures LedgerInv(c, Apply(c, s, PollPublish))
  {
    StepKeepsForm(c, s, PollPublish);
    PublishKeepsStore(c, s.redis, s.burns, s.poller.id, s.burns[s.poller.id - 1]);
  }

  lemma AdvanceKeepsStore(c: Config, r: Redis, burns: seq<nat>, id: nat)
    requires StoreInv(c, r, burns) && CoveredTo(c, r, id)
    ensures StoreInv(c, SetCursor(r, id), burns)
  {
    assert Owed(SetCursor(r, id)) == Owed(r);
  }

  lemma AdvanceKeepsLedger(c: Config, s: System)
    requires LedgerInv(c, s) && Enabled(c, s, PollAdvance)
    ensures LedgerInv(c, Apply(c, s, PollAdvance))
  {
    StepKeepsForm(c, s, PollAdvance);
    AdvanceKeepsStore(c, s.redis, s.burns, s.poller.id);
  }

  // ---------------------------------------------------------------- every step

  /** The wallet's own steps answer requests; they leave none that may be refused where there was none. */
  lemma WalletKeepsLedger(c: Config, s: System, a: Action)
    requires LedgerInv(c, s) && Enabled(c, s, a) && (a.Execute? || a.Refuse? || a.Mine? || a.Drop? || a.ForeignTransfer?)
    ensures LedgerInv(c, Apply(c, s, a))
  {
    StepKeepsForm(c, s, a);
    var p, w, w' := s.consumer, s.wallet, Apply(c, s, a).wallet;
    assert p.Await? && MayBeRefused(w', p.tx) ==> MayBeRefused(w, p.tx);
  }

  lemma StepKeepsLedger(c: Config, s: System, a: Action)
    requires !c.wipes && LedgerInv(c, s) && Enabled(c, s, a)
    ensures LedgerInv(c, Apply(c, s, a))
  {
    if a.Work? { WorkKeepsLedger(c, s, a.input); }
    else if a.PollFetch? { FetchKeepsLedger(c, s); }
    else if a.PollPublish? { PublishKeepsLedger(c, s); }
    else if a.PollAdvance? { AdvanceKeepsLedger(c, s); }
    else if a.Execute? || a.Refuse? || a.Mine? || a.Drop? || a.ForeignTransfer? { WalletKeepsLedger(c, s, a); }
    else if a.Burn? { BurnKeepsLedger(c, s, a.amount); }
    else if a.Fetch? || a.Take? || a.Stop? { QueueKeepsLedger(c, s, a); }
    else if a.PollStart? || a.PollStop? { PollerKeepsLedger(c, s, a); }
    else { RestKeepsLedger(c, s, a); }
  }

  lemma BurnKeepsLedger(c: Config, s: System, amount: nat)
    requires LedgerInv(c, s)
    ensures LedgerInv(c, Apply(c, s, Burn(amount)))
  {
    StepKeepsForm(c, s, Burn(amount));
    assert forall i :: 0 <= i < |s.burns| ==> (s.burns + [amount])[i] == s.burns[i];
  }

  lemma HandedOutSafe(c: Config, r: Redis, batch: multiset<Entry>, entries: multiset<Entry>)
    requires AllSafe(c, r, r.stream) && AllSafe(c, r, batch) && entries <= r.stream
    ensures AllSafe(c, r, batch + entries)
  {
    forall e | e in batch + entries ensures EntrySafe(c, r, e) { assert e in batch || e in r.stream; }
  }

  lemma QueueKeepsLedger(c: Config, s: System, a: Action)
    requires LedgerInv(c, s) && Enabled(c, s, a) && (a.Fetch? || a.Take? || a.Stop?)
    ensures LedgerInv(c, Apply(c, s, a))
  {
    StepKeepsForm(c, s, a);
    if a.Fetch? { HandedOutSafe(c, s.redis, s.batch, a.entries); }
  }

  lemma PageStarts(c: Config, r: Redis, burns: seq<nat>)
    requires r.cursor.Some? ==> CoveredTo(c, r, r.cursor.value)
    ensures CoveredTo(c, r, PollRange(r, burns, c.startId, c.chunk).0 - 1)
  {
  }

  lemma PollerKeepsLedger(c: Config, s: System, a: Action)
    requires LedgerInv(c, s) && Enabled(c, s, a) && (a.PollStart? || a.PollStop?)
    ensures LedgerInv(c, Apply(c, s, a))
  {
    StepKeepsForm(c, s, a);
    PageStarts(c, s.redis, s.burns);
  }

  lemma RestKeepsLedger(c: Config, s: System, a: Action)
    requires LedgerInv(c, s) && Enabled(c, s, a) && (a.AdvanceTip? || a.LandFlag?)
    ensures LedgerInv(c, Apply(c, s, a))
  {
  }

  lemma RunKeepsLedger(c: Config, run: seq<System>, i: nat)
    requires !c.wipes && Run(c, run) && i + 1 < |run| && LedgerInv(c, run[i])
    ensures LedgerInv(c, run[i + 1])
  {
    assert StepAt(c, run, i);
    var a :| Enabled(c, run[i], a) && run[i + 1] == Apply(c, run[i], a);
    StepKeepsLedger(c, run[i], a);
  }

  lemma {:induction false} LedgerInvAt(c: Config, run: seq<System>, i: nat)
    requires !c.wipes && Run(c, run) && LedgerInv(c, run[0]) && i < |run|
    ensures LedgerInv(c, run[i])
  {
    if i > 0 {
      LedgerInvAt(c, run, i - 1);
      RunKeepsLedger(c, run, i - 1);
    }
  }

  /** From a harmless beginning, in every state of every run without a loss of Redis: every unpaid
      record has its amount in the total, which is exact; no id is debited twice; and no burn behind
      the cursor was skipped. */
  lemma TotalsNeverUnderCount(c: Config, run: seq<System>, i: nat)
    requires !c.wipes && Run(c, run) && LedgerInv(c, run[0]) && i < |run|
    ensures var r := run[i].redis;
            && LedgerHolds(c, r) && Sum(Obligations(r)) <= PendingAtomic(r)
            && (forall id :: id in r.state && Unsettled(r.state[id]) ==> id in Obligations(r))
  {
    LedgerInvAt(c, run, i);
    NeverUnderCounts(run[i].redis);
  }

  /** At one snapshot, paying every outstanding redemption its computed share stays inside the
      wallet and inside the capped value of everything issued. */
  lemma OutstandingFitsWallet(c: Config, run: seq<System>, i: nat, snap: Snapshot)
    requires !c.wipes && Run(c, run) && LedgerInv(c, run[0]) && i < |run|
    requires PendingAtomic(run[i].redis) <= U128_MAX && SatAdd(snap.supply, PendingAtomic(run[i].redis)) > 0
    ensures var r := run[i].redis;
            var denom := SatAdd(snap.supply, PendingAtomic(r));
            var total := Sum(Payouts(Obligations(r), EffectiveBalance(snap.balance, denom, c.premiumBp), denom));
            total <= snap.balance && 10_000 * total <= denom * (10_000 + c.premiumBp)
  {
    TotalsNeverUnderCount(c, run, i);
    var r := run[i].redis;
    PayoutsFitWallet(Obligations(r), snap.balance, SatAdd(snap.supply, PendingAtomic(r)), c.premiumBp);
  }
}
