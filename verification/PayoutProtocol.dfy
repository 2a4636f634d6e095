/** The redemption payout protocol as a transition system: the token contract, the Monero
    wallet, Redis, the id poller and the one payout consumer, each await of the source a step of
    its own. The consumer and the poller may stop at any step; a process crash is both stopping. */
module PayoutProtocol {
  import opened Prelude
  import opened Stamp
  import opened RedemptionStore
  import opened PayoutMath

  /** Blocks a confirmed payout stays in scope of the reconciliation scan. */
  const RECONCILE_WINDOW: nat := 4320

  /** The operator's settings, and which faults a run may contain.
      `wipes`: Redis may be lost, or come back with any other contents.
      `honestHistory`: every `get_transfers` reply is complete.
      `agesSettled`: a payout leaves the scan's window only once flagged on chain.
      `steadyChecks`: no payout leaves it while the consumer, having read the flag, checks its id.
      `lateTransfers`: a request may still be unanswered when its own id is next scanned.
      `truthfulHistory`: what a reply shows as mined is so in the wallet.
      `ownStamps`: of the mined transfers in scope of a scan, only the id's own carry its stamp. */
  datatype Config = Config(
    cap: nat, premiumBp: nat, marker: bool, startId: nat, chunk: nat,
    wipes: bool, honestHistory: bool, agesSettled: bool, steadyChecks: bool, lateTransfers: bool,
    truthfulHistory: bool, ownStamps: bool)

  /** `Requested`: the wallet has the request and has not answered. A rejected request was never
      broadcast; a dropped transaction left the mempool unmined for good. */
  datatype TxStatus = Requested | Rejected | Mempool | Mined(height: nat) | Dropped

  /** A wallet transfer and the redemption it pays, if any. Its txid is its index. */
  datatype Tx = Tx(owner: Option<nat>, amount: nat, status: TxStatus)

  /** Where the consumer is inside `drain_once`, with its local variables. */
  datatype Consumer =
    | Idle
    | CheckCap(e: Entry)
    | CheckFlag(e: Entry)
    | RecordSettled(e: Entry)
    | ReadTip(e: Entry)
    | Scan(e: Entry, minHeight: nat)
    | Reconcile(e: Entry, tx: nat, confirmed: bool)
    | ClaimSlot(e: Entry)
    | Price(e: Entry)
    | Park(e: Entry)
    | ParkLocked(e: Entry)
    | Unpark(e: Entry)
    | Rollback(e: Entry)
    | FlagDead(e: Entry)
    | RecordDead(e: Entry)
    | Send(e: Entry, stamped: nat)
    | Await(e: Entry, tx: nat)
    | RecordSent(e: Entry, tx: nat)
    | Confirm(e: Entry, tx: nat)
    | FlagPaid(e: Entry)
    | Ack(e: Entry)

  datatype Poller = Resting | Fetching(id: nat, last: nat) | Publishing(id: nat, last: nat) | Advancing(id: nat, last: nat)

  /** `burns[i]` is the amount of redemption `i + 1`; `flags` are the `markProcessed` transactions
      sent and not yet landed, `dead` those that say nothing was paid; `batch` is the consumer's fetched,
      unprocessed entries. */
  datatype System = System(
    burns: seq<nat>, processed: set<nat>, flags: set<nat>, dead: set<nat>,
    wallet: seq<Tx>, tip: nat,
    redis: Redis, batch: multiset<Entry>, consumer: Consumer, poller: Poller)

  /** Answers the consumer gets from outside, as far as the step it is at needs one. */
  datatype Input = Go | Fail | Height(h: nat) | Reply(history: History) | Snap(snapshot: Option<Snapshot>)

  datatype Action =
    // environment
    | Burn(amount: nat) | Execute(tx: nat) | Refuse(tx: nat) | Mine(tx: nat) | Drop(tx: nat)
    | ForeignTransfer(amount: nat) | AdvanceTip(height: nat) | LandFlag(id: nat) | Wipe(redis: Redis)
    // poller
    | PollStart | PollFetch | PollPublish | PollAdvance | PollStop
    // consumer
    | Fetch(entries: multiset<Entry>) | Take(entry: Entry) | Work(input: Input) | Stop

  predicate Init(s: System) {
    s == System([], {}, {}, {}, [], 0, EMPTY, multiset{}, Idle, Resting)
  }

  // ---------------------------------------------------------------- wallet

  predicate Live(t: Tx) { t.status.Mempool? || t.status.Mined? }

  predicate Open(t: Tx) { t.status.Requested? || Live(t) }

  predicate Broadcast(t: Tx) { Live(t) || t.status.Dropped? }

  predicate Pays(t: Tx, id: nat) { t.owner == Some(id) }

  /** In scope of a scan bounded below by `minHeight`. */
  predicate InScope(t: Tx, minHeight: nat) {
    t.status.Mempool? || (t.status.Mined? && t.status.height >= minHeight)
  }

  function ScanFloor(tip: nat): nat { Max(tip - RECONCILE_WINDOW, 0) }

  /** A reply that omits none of the wallet's live transfers. */
  ghost predicate Complete(wallet: seq<Tx>, h: History) {
    forall i :: 0 <= i < |wallet| && Live(wallet[i]) ==>
      var t := wallet[i];
      if t.status.Mined? then Listed(t.amount, t.status.height, i) in h.out
      else exists height :: Listed(t.amount, height, i) in h.pending || Listed(t.amount, height, i) in h.pool
  }

  /** A reply that shows as mined only what is. */
  ghost predicate Truthful(wallet: seq<Tx>, h: History) {
    forall t :: t in h.out ==> t.txid < |wallet| && wallet[t.txid].status == Mined(t.height) && wallet[t.txid].amount == t.amount
  }

  /** The id's stamp is on no mined transfer in scope but its own. */
  ghost predicate OwnStamps(wallet: seq<Tx>, id: nat, minHeight: nat) {
    forall i :: 0 <= i < |wallet| && wallet[i].status.Mined? && InScope(wallet[i], minHeight) && MatchesStamp(wallet[i].amount, id) ==>
      Pays(wallet[i], id)
  }

  function SetStatus(wallet: seq<Tx>, i: nat, st: TxStatus): seq<Tx>
    requires i < |wallet|
  {
    wallet[i := wallet[i].(status := st)]
  }

  /** Every request for the id has been answered. */
  ghost predicate Answered(wallet: seq<Tx>, id: nat) {
    forall i :: 0 <= i < |wallet| && Pays(wallet[i], id) ==> !wallet[i].status.Requested?
  }

  /** Has passed the on-chain check for `id` and not yet acted on it. */
  predicate Checking(p: Consumer, id: nat) { (p.ReadTip? || p.Scan?) && p.e.id == id }

  /** The chain grows past a mined payout's window only once that payout is flagged processed. */
  ghost predicate AgesOnlySettled(s: System, tip: nat) {
    forall i :: 0 <= i < |s.wallet| && s.wallet[i].owner.Some? && s.wallet[i].status.Mined? ==>
      s.wallet[i].status.height >= ScanFloor(tip) || s.wallet[i].owner.value in s.processed
  }

  /** It does not grow past the window of a payout whose id is being checked. */
  ghost predicate ChecksStaySteady(s: System, tip: nat) {
    forall i :: 0 <= i < |s.wallet| && s.wallet[i].owner.Some? && Checking(s.consumer, s.wallet[i].owner.value) ==>
      InScope(s.wallet[i], ScanFloor(s.tip)) ==> InScope(s.wallet[i], ScanFloor(tip))
  }

  // ---------------------------------------------------------------- consumer

  predicate Answers(c: Config, s: System, inp: Input) {
    match s.consumer
    case Idle => false
    case ReadTip(_) => inp.Height? && inp.h <= s.tip
    case Scan(_, _) => inp.Reply? || inp.Fail?
    case Price(_) => inp.Snap? && (inp.snapshot.Some? ==> Fits128(inp.snapshot.value))
    case Await(_, tx) => (inp.Go? || inp.Fail?) && tx < |s.wallet| && !s.wallet[tx].status.Requested?
    case Confirm(_, tx) => inp.Fail? || (inp.Go? && tx < |s.wallet| && s.wallet[tx].status.Mined?)
    case _ => inp.Go? || inp.Fail?
  }

  /** One await of `drain_once`: where control goes next. */
  function GoesTo(c: Config, s: System, inp: Input): Consumer
    requires Answers(c, s, inp)
  {
    match s.consumer
    case CheckCap(e) => if e.amount > c.cap then Ack(e) else if c.marker then CheckFlag(e) else ReadTip(e)
    case CheckFlag(e) => if inp.Fail? then Idle else if e.id in s.processed then RecordSettled(e) else ReadTip(e)
    case RecordSettled(e) => Ack(e)
    case ReadTip(e) => Scan(e, ScanFloor(inp.h))
    case Scan(e, minHeight) =>
      if inp.Fail? then Idle
      else
        (match StampMatch(inp.history, e.id, minHeight)
         case NoMatch => ClaimSlot(e)
         case Match(f) => Reconcile(e, f.txid, f.confirmed)
         case Ambiguous => Idle)
    case Reconcile(e, tx, confirmed) => if confirmed && c.marker then FlagPaid(e) else Ack(e)
    case ClaimSlot(e) => if Free(s.redis, e.id) then Price(e) else Ack(e)
    case Price(e) =>
      (match Decide(e.amount, e.id, inp.snapshot, PendingAtomic(s.redis), c.premiumBp)
       case Defer => Rollback(e)
       case Empty => Park(e)
       case Overflow => Park(e)
       case Dust => FlagDead(e)
       case Locked => ParkLocked(e)
       case Pay(stamped) => Send(e, stamped))
    case Park(e) => Ack(e)
    case ParkLocked(e) => Unpark(e)
    case Unpark(e) => Idle
    case Rollback(e) => Idle
    case FlagDead(e) => RecordDead(e)
    case RecordDead(e) => Ack(e)
    case Send(e, stamped) => Await(e, |s.wallet|)
    case Await(e, tx) =>
      if s.wallet[tx].status.Rejected? then if inp.Go? then FlagDead(e) else Rollback(e) else RecordSent(e, tx)
    case RecordSent(e, tx) => if c.marker then Confirm(e, tx) else Ack(e)
    case Confirm(e, tx) => if inp.Go? then FlagPaid(e) else Ack(e)
    case FlagPaid(e) => Ack(e)
    case Ack(e) => Idle
  }

  /** A command to Redis about the entry in hand. */
  datatype Write = NoWrite | Put(state: RedemptionState) | Settle(tx: nat) | Acknowledgement

  /** What it writes to Redis. */
  function WriteOf(c: Config, r: Redis, p: Consumer, inp: Input): Write {
    match p
    case CheckCap(e) => if e.amount > c.cap then Put(Paused) else NoWrite
    case RecordSettled(_) => Put(Sent)
    case Reconcile(_, tx, _) => if inp.Go? then Settle(tx) else NoWrite
    case ClaimSlot(e) => if Free(r, e.id) then Put(InFlight) else NoWrite
    case Park(_) => Put(Paused)
    case ParkLocked(_) => Put(Paused)
    case Unpark(_) => Put(Pending)
    case Rollback(_) => Put(Pending)
    case RecordDead(_) => if inp.Go? then Put(Failed) else NoWrite
    case RecordSent(_, tx) => Settle(tx)
    case Ack(_) => Acknowledgement
    case _ => NoWrite
  }

  function Performed(r: Redis, e: Entry, w: Write): Redis {
    match w
    case NoWrite => r
    case Put(st) => SetState(r, e.id, st)
    case Settle(tx) => MarkSent(r, e.id, tx)
    case Acknowledgement => Acknowledge(r, e)
  }

  function Writes(c: Config, r: Redis, p: Consumer, inp: Input): Redis {
    if p.Idle? then r else Performed(r, p.e, WriteOf(c, r, p, inp))
  }

  /** What it asks of the wallet. */
  function Asks(wallet: seq<Tx>, p: Consumer): seq<Tx> {
    if p.Send? then wallet + [Tx(Some(p.e.id), p.stamped, Requested)] else wallet
  }

  /** A `markProcessed` transaction that went out may land now, later or never. */
  function Marks(c: Config, flags: set<nat>, p: Consumer, inp: Input): set<nat> {
    if (p.FlagPaid? || p.FlagDead?) && c.marker && inp.Go? then flags + {p.e.id} else flags
  }

  /** Which of those say that nothing was paid. */
  function DeadLetters(c: Config, dead: set<nat>, p: Consumer, inp: Input): set<nat> {
    if p.FlagDead? && c.marker && inp.Go? then dead + {p.e.id} else dead
  }

  /** The pass breaks off: what was fetched with it is dropped, and fetched again from the stream. */
  predicate BreaksOff(p: Consumer, p': Consumer) { p'.Idle? && (p.CheckFlag? || p.Scan? || p.Rollback?) }

  function WorkStep(c: Config, s: System, inp: Input): System
    requires Answers(c, s, inp)
  {
    var p' := GoesTo(c, s, inp);
    s.(consumer := p', redis := Writes(c, s.redis, s.consumer, inp), wallet := Asks(s.wallet, s.consumer),
       flags := Marks(c, s.flags, s.consumer, inp), dead := DeadLetters(c, s.dead, s.consumer, inp),
       batch := if BreaksOff(s.consumer, p') then multiset{} else s.batch)
  }

  // ---------------------------------------------------------------- steps

  ghost predicate ScanAllowed(c: Config, s: System, h: History)
    requires s.consumer.Scan?
  {
    && (c.honestHistory ==> Complete(s.wallet, h))
    && (c.truthfulHistory ==> Truthful(s.wallet, h))
    && (c.lateTransfers || Answered(s.wallet, s.consumer.e.id))
    && (c.ownStamps ==> OwnStamps(s.wallet, s.consumer.e.id, s.consumer.minHeight))
  }

  ghost predicate Enabled(c: Config, s: System, a: Action) {
    match a
    case Execute(tx) =>
      tx < |s.wallet| && s.wallet[tx].status.Requested? && s.wallet[tx].amount <= U64_MAX
    case Refuse(tx) => tx < |s.wallet| && s.wallet[tx].status.Requested?
    case Mine(tx) => tx < |s.wallet| && s.wallet[tx].status.Mempool?
    case Drop(tx) => tx < |s.wallet| && s.wallet[tx].status.Mempool?
    case AdvanceTip(h) =>
      s.tip <= h && (c.agesSettled ==> AgesOnlySettled(s, h)) && (c.steadyChecks ==> ChecksStaySteady(s, h))
    case LandFlag(id) => id in s.flags
    case Wipe(_) => c.wipes
    case PollStart => s.poller.Resting?
    case PollFetch => s.poller.Fetching? && 1 <= s.poller.id <= |s.burns|
    case PollPublish => s.poller.Publishing? && 1 <= s.poller.id <= |s.burns|
    case PollAdvance => s.poller.Advancing?
    case Fetch(entries) => s.consumer.Idle? && entries <= s.redis.stream
    case Take(e) => s.consumer.Idle? && e in s.batch
    case Work(inp) => Answers(c, s, inp) && (s.consumer.Scan? && inp.Reply? ==> ScanAllowed(c, s, inp.history))
    case _ => true
  }

  ghost function Apply(c: Config, s: System, a: Action): System
    requires Enabled(c, s, a)
  {
    match a
    case Burn(amount) => s.(burns := s.burns + [amount])
    case Execute(tx) => s.(wallet := SetStatus(s.wallet, tx, Mempool))
    case Refuse(tx) => s.(wallet := SetStatus(s.wallet, tx, Rejected))
    case Mine(tx) => s.(wallet := SetStatus(s.wallet, tx, Mined(s.tip)))
    case Drop(tx) => s.(wallet := SetStatus(s.wallet, tx, Dropped))
    case ForeignTransfer(amount) => s.(wallet := s.wallet + [Tx(None, amount, Mempool)])
    case AdvanceTip(h) => s.(tip := h)
    case LandFlag(id) => s.(flags := s.flags - {id}, processed := s.processed + {id})
    case Wipe(r) => s.(redis := r)
    case PollStart =>
      var (lo, hi) := PollRange(s.redis, s.burns, c.startId, c.chunk);
      s.(poller := if lo <= hi then Fetching(lo, hi) else Resting)
    case PollFetch =>
      var (id, last) := (s.poller.id, s.poller.last);
      if s.burns[id - 1] > I64_MAX then s.(poller := Resting)
      else s.(redis := Claim(s.redis, id, s.burns[id - 1]),
              poller := if id in s.redis.state then Advancing(id, last) else Publishing(id, last))
    case PollPublish =>
      var (id, last) := (s.poller.id, s.poller.last);
      s.(redis := Publish(s.redis, id, s.burns[id - 1]), poller := Advancing(id, last))
    case PollAdvance =>
      var (id, last) := (s.poller.id, s.poller.last);
      s.(redis := SetCursor(s.redis, id), poller := if id < last then Fetching(id + 1, last) else Resting)
    case PollStop => s.(poller := Resting)
    case Fetch(entries) => s.(batch := s.batch + entries)
    case Take(e) => s.(batch := s.batch - multiset{e}, consumer := CheckCap(e))
    case Work(inp) => WorkStep(c, s, inp)
    case Stop => s.(batch := multiset{}, consumer := Idle)
  }

  ghost predicate Next(c: Config, s: System, s': System) {
    exists a :: Enabled(c, s, a) && s' == Apply(c, s, a)
  }

  ghost predicate StepAt(c: Config, run: seq<System>, i: nat)
    requires i + 1 < |run|
  {
    Next(c, run[i], run[i + 1])
  }

  /** A run from a given first state. */
  ghost predicate Run(c: Config, run: seq<System>) {
    && |run| > 0
    && forall i: nat :: i + 1 < |run| ==> StepAt(c, run, i)
  }
}
