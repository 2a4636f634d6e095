/** The redemption half of the Redis store: the per-id state hash, the recorded amounts, the
    running totals of what is owed, the work stream and the poller's cursor. Each Lua script is
    a function on the stored value; the class runs the same scripts as updates in place. */
module RedemptionStore {
  import opened Prelude

  datatype RedemptionState = Pending | InFlight | Sent | Paused | Failed

  /** A stream entry as the consumer parses it. */
  datatype Entry = Entry(id: nat, amount: nat)

  /** `stream` may hold an entry more than once. `debits` is history: the ids whose amount was ever
      taken off the totals, in order. */
  datatype Redis = Redis(
    state: map<nat, RedemptionState>,
    txid: map<nat, nat>,
    amount: map<nat, nat>,
    pendingAtomic: int,
    pendingCount: int,
    stream: multiset<Entry>,
    cursor: Option<nat>,
    debits: seq<nat>)

  const EMPTY: Redis := Redis(map[], map[], map[], 0, 0, multiset{}, None, [])

  // ---------------------------------------------------------------- scripts

  /** The enqueue script: claims the id's slot once and adds its amount to the totals. */
  function Claim(r: Redis, id: nat, amount: nat): Redis {
    if id in r.state then r
    else r.(state := r.state[id := Pending], amount := r.amount[id := amount],
            pendingAtomic := r.pendingAtomic + amount, pendingCount := r.pendingCount + 1)
  }

  function Publish(r: Redis, id: nat, amount: nat): Redis {
    r.(stream := r.stream + multiset{Entry(id, amount)})
  }

  function Enqueue(r: Redis, id: nat, amount: nat): Redis {
    if id in r.state then r else Publish(Claim(r, id, amount), id, amount)
  }

  predicate Free(r: Redis, id: nat) { id in r.state && r.state[id] == Pending }

  /** Compare-and-set `pending -> in_flight`. */
  function TryInFlight(r: Redis, id: nat): Redis {
    if Free(r, id) then SetState(r, id, InFlight) else r
  }

  /** An unconditional write of one field of the state hash. */
  function SetState(r: Redis, id: nat, s: RedemptionState): Redis { r.(state := r.state[id := s]) }

  predicate Debits(r: Redis, id: nat) {
    id in r.state && r.state[id] in {Pending, InFlight} && Get(r.amount, id) > 0
  }

  function MarkSent(r: Redis, id: nat, txid: nat): Redis {
    if id in r.state && r.state[id] == Sent then r
    else
      var r' := r.(state := r.state[id := Sent], txid := r.txid[id := txid]);
      if Debits(r, id)
      then r'.(pendingAtomic := r.pendingAtomic - r.amount[id], pendingCount := r.pendingCount - 1,
               debits := r.debits + [id])
      else r'
  }

  function Acknowledge(r: Redis, e: Entry): Redis { r.(stream := r.stream - multiset{e}) }

  function SetCursor(r: Redis, id: nat): Redis { r.(cursor := Some(id)) }

  /** The total the payout formula reads: never negative. */
  function PendingAtomic(r: Redis): nat { Max(r.pendingAtomic, 0) }

  // ---------------------------------------------------------------- accounting

  predicate Unsettled(s: RedemptionState) { s in {Pending, InFlight, Paused} }

  /** What each recorded id still contributes to the total. */
  ghost function Owed(r: Redis): map<nat, nat> {
    map id | id in r.amount && id !in r.debits :: r.amount[id]
  }

  /** The amounts of every redemption that is still to be paid. */
  ghost function Obligations(r: Redis): map<nat, nat> {
    map id | id in r.state && Unsettled(r.state[id]) && id in r.amount :: r.amount[id]
  }

  /** Every redemption still to be paid has its amount in the total. */
  ghost predicate AllOwed(r: Redis) {
    forall id :: id in r.state && Unsettled(r.state[id]) ==> id in Owed(r)
  }

  ghost predicate DebitedOnce(r: Redis) {
    && (forall i :: 0 <= i < |r.debits| ==> r.debits[i] in r.amount)
    && (forall i, j :: 0 <= i < j < |r.debits| ==> r.debits[i] != r.debits[j])
  }

  /** The total is exact: it is the sum of the recorded amounts not debited yet, among them those of
      all redemptions still to be paid, and no id is debited twice. A settled record may lack an
      amount: the consumer can write one for an id the store has lost. */
  ghost predicate Counted(r: Redis) {
    && r.amount.Keys <= r.state.Keys
    && r.pendingAtomic == Sum(Owed(r))
    && AllOwed(r)
    && DebitedOnce(r)
  }

  lemma EmptyCounted()
    ensures Counted(EMPTY)
  {
    assert Owed(EMPTY) == map[];
  }

  lemma ClaimCounted(r: Redis, id: nat, amount: nat)
    requires Counted(r)
    ensures Counted(Claim(r, id, amount))
  {
    if id !in r.state {
      var r' := Claim(r, id, amount);
      assert id !in r.debits;
      assert Owed(r') == Owed(r)[id := amount];
      SumPut(Owed(r), id, amount);
    }
  }

  /** Settling an id takes exactly its amount off the total, and only the first time. */
  lemma MarkSentCounted(r: Redis, id: nat, txid: nat)
    requires Counted(r)
    ensures Counted(MarkSent(r, id, txid))
    ensures MarkSent(r, id, txid).debits == r.debits || (id !in r.debits && MarkSent(r, id, txid).debits == r.debits + [id])
  {
    var r' := MarkSent(r, id, txid);
    if Debits(r, id) {
      assert id in Owed(r);
      SumRemove(Owed(r), id);
      assert Owed(r') == Owed(r) - {id};
    } else {
      assert Owed(r') == Owed(r);
    }
  }

  /** A raw write keeps the total exact if and only if it does not reopen an id that is not owed. */
  lemma SetStateCounted(r: Redis, id: nat, s: RedemptionState)
    requires Counted(r)
    ensures Counted(SetState(r, id, s)) <==> (Unsettled(s) ==> id in Owed(r))
  {
    var r' := SetState(r, id, s);
    assert Owed(r') == Owed(r);
    assert r'.state[id] == s;
  }

  /** The reported total never under-counts the outstanding obligations. */
  lemma NeverUnderCounts(r: Redis)
    requires Counted(r)
    ensures Sum(Obligations(r)) <= PendingAtomic(r)
    ensures forall id :: id in r.state && Unsettled(r.state[id]) ==> id in r.amount && r.amount[id] <= PendingAtomic(r)
  {
    SumMonotone(Obligations(r), Owed(r));
    forall id | id in r.state && Unsettled(r.state[id]) ensures id in r.amount && r.amount[id] <= PendingAtomic(r) {
      assert id in Owed(r);
      SumAtLeast(Owed(r), id);
    }
  }

  // ---------------------------------------------------------------- polling

  /** One id of a poll: enqueue, then move the cursor onto it. */
  function PollOne(r: Redis, id: nat, amount: nat): Redis { SetCursor(Enqueue(r, id, amount), id) }

  function Polled(r: Redis, burns: seq<nat>, lo: nat, hi: nat): Redis
    requires 1 <= lo && (hi < lo || hi <= |burns|)
    decreases hi
  {
    if hi < lo then r else PollOne(Polled(r, burns, lo, hi - 1), hi, burns[hi - 1])
  }

  /** The poller stops before the first id whose on-chain amount does not fit its integers. */
  function LastFitting(burns: seq<nat>, lo: nat, hi: nat): (last: nat)
    requires 1 <= lo && (hi < lo || hi <= |burns|)
    ensures hi >= lo ==> lo - 1 <= last <= hi
    decreases hi
  {
    if hi < lo then lo - 1
    else
      var m := LastFitting(burns, lo, hi - 1);
      if m == hi - 1 && burns[hi - 1] <= I64_MAX then hi else m
  }

  lemma {:induction false} LastFittingStops(burns: seq<nat>, lo: nat, hi: nat)
    requires 1 <= lo && (hi < lo || hi <= |burns|)
    ensures var last := LastFitting(burns, lo, hi);
            && (lo <= hi && last != hi ==> burns[last] > I64_MAX)
            && (forall i :: lo <= hi && lo - 1 <= i < last ==> burns[i] <= I64_MAX)
    decreases hi
  {
    if lo <= hi { LastFittingStops(burns, lo, hi - 1); }
  }

  /** The range of ids one tick looks at; empty when the cursor has caught up. */
  function PollRange(r: Redis, burns: seq<nat>, startId: nat, chunk: nat): (range: (nat, nat))
    ensures 1 <= range.0 && (range.1 < range.0 || range.1 <= |burns|)
  {
    var cur := if r.cursor.Some? then r.cursor.value else Max(startId - 1, 0);
    (cur + 1, if |burns| <= cur then cur else Min(cur + chunk, |burns|))
  }

  /** The number of ids of `lo..hi` not yet in the store. */
  function Fresh(r: Redis, lo: nat, hi: nat): nat
    decreases hi
  {
    if hi < lo || hi == 0 then 0 else Fresh(r, lo, hi - 1) + (if hi in r.state then 0 else 1)
  }

  /** Polling a range leaves no gap behind the cursor, keeps every earlier record, and never
      enqueues an id a second time. */
  lemma {:induction false} PolledCovers(r: Redis, burns: seq<nat>, lo: nat, hi: nat)
    requires 1 <= lo && (hi < lo || hi <= |burns|)
    ensures var r' := Polled(r, burns, lo, hi);
            && (forall id :: id in r'.state <==> id in r.state || lo <= id <= hi)
            && (forall id :: id in r.state ==> r'.state[id] == r.state[id])
            && r'.cursor == (if hi < lo then r.cursor else Some(hi))
    decreases hi
  {
    if lo <= hi { PolledCovers(r, burns, lo, hi - 1); }
  }

  predicate Queued(r: Redis, id: nat, amount: nat) {
    Free(r, id) && Get(r.amount, id) == amount && Entry(id, amount) in r.stream
  }

  /** One more poll queues a new id, and leaves what is queued. */
  lemma PollOneQueues(r: Redis, r': Redis, k: nat, a: nat, id: nat, amount: nat)
    requires r' == PollOne(r, k, a)
    requires if k == id then a == amount && id !in r.state else Queued(r, id, amount)
    ensures Queued(r', id, amount)
  {
  }

  lemma PolledUnfolds(r: Redis, burns: seq<nat>, lo: nat, hi: nat)
    requires 1 <= lo <= hi <= |burns|
    ensures Polled(r, burns, lo, hi) == PollOne(Polled(r, burns, lo, hi - 1), hi, burns[hi - 1])
  {
  }

  /** Each new id is pending, with its burned amount, and on the stream. */
  lemma {:induction false} PolledEnqueues(r: Redis, burns: seq<nat>, lo: nat, hi: nat, id: nat, after: Redis)
    requires 1 <= lo <= id <= hi <= |burns| && id !in r.state && after == Polled(r, burns, lo, hi)
    ensures Queued(after, id, burns[id - 1])
    decreases hi
  {
    var before := Polled(r, burns, lo, hi - 1);
    PolledUnfolds(r, burns, lo, hi);
    if id < hi { PolledEnqueues(r, burns, lo, hi - 1, id, before); } else { LaterUntouched(r, burns, lo, hi - 1, hi); }
    PollOneQueues(before, after, hi, burns[hi - 1], id, burns[id - 1]);
  }

  /** Each new id is counted once. */
  lemma {:induction false} PolledCounts(r: Redis, burns: seq<nat>, lo: nat, hi: nat)
    requires 1 <= lo && (hi < lo || hi <= |burns|)
    ensures var r' := Polled(r, burns, lo, hi);
            r'.pendingCount == r.pendingCount + Fresh(r, lo, hi) && r'.debits == r.debits
    decreases hi
  {
    if lo <= hi {
      PolledCounts(r, burns, lo, hi - 1);
      LaterUntouched(r, burns, lo, hi - 1, hi);
    }
  }

  lemma PollOneCounted(r: Redis, id: nat, amount: nat)
    requires Counted(r)
    ensures Counted(PollOne(r, id, amount))
  {
    ClaimCounted(r, id, amount);
    assert Owed(PollOne(r, id, amount)) == Owed(Claim(r, id, amount));
  }

  /** The totals stay exact. */
  lemma {:induction false} PolledCounted(r: Redis, burns: seq<nat>, lo: nat, hi: nat)
    requires 1 <= lo && (hi < lo || hi <= |burns|) && Counted(r)
    ensures Counted(Polled(r, burns, lo, hi))
    decreases hi
  {
    if lo <= hi {
      PolledCounted(r, burns, lo, hi - 1);
      PollOneCounted(Polled(r, burns, lo, hi - 1), hi, burns[hi - 1]);
    }
  }

  // ---------------------------------------------------------------- the store object

  class Store {
    var state: map<nat, RedemptionState>
    var txid: map<nat, nat>
    var amount: map<nat, nat>
    var pendingAtomic: int
    var pendingCount: int
    var stream: multiset<Entry>
    var cursor: Option<nat>
    ghost var debits: seq<nat>

    ghost function Contents(): Redis
      reads this
    {
      Redis(state, txid, amount, pendingAtomic, pendingCount, stream, cursor, debits)
    }

    constructor ()
      ensures Contents() == EMPTY
    {
      state, txid, amount := map[], map[], map[];
      pendingAtomic, pendingCount, stream, cursor := 0, 0, multiset{}, None;
      debits := [];
    }

    method EnqueueRedemption(id: nat, atomicAmount: nat) returns (inserted: bool)
      modifies this
      ensures inserted == (id !in old(state))
      ensures Contents() == Enqueue(old(Contents()), id, atomicAmount)
    {
      if id in state { return false; }
      state := state[id := Pending];
      amount := amount[id := atomicAmount];
      pendingAtomic := pendingAtomic + atomicAmount;
      pendingCount := pendingCount + 1;
      stream := stream + multiset{Entry(id, atomicAmount)};
      return true;
    }

    method TryMarkInFlight(id: nat) returns (claimed: bool)
      modifies this
      ensures claimed == Free(old(Contents()), id)
      ensures Contents() == TryInFlight(old(Contents()), id)
    {
      if id in state && state[id] == Pending {
        state := state[id := InFlight];
        return true;
      }
      return false;
    }

    method MarkRedemptionSent(id: nat, tx: nat)
      modifies this
      ensures Contents() == MarkSent(old(Contents()), id, tx)
    {
      if id in state && state[id] == Sent { return; }
      var open := id in state && (state[id] == Pending || state[id] == InFlight);
      state := state[id := Sent];
      txid := txid[id := tx];
      if open {
        var amt := if id in amount then amount[id] else 0;
        if amt > 0 {
          pendingAtomic := pendingAtomic - amt;
          pendingCount := pendingCount - 1;
          debits := debits + [id];
        }
      }
    }

    method PollId(id: nat, atomicAmount: nat) returns (inserted: bool)
      modifies this
      ensures inserted == (id !in old(state))
      ensures Contents() == PollOne(old(Contents()), id, atomicAmount)
    {
      inserted := EnqueueRedemption(id, atomicAmount);
      cursor := Some(id);
    }

    /** The ids of one page, in order, moving the cursor id by id. Stops with an error at an amount
        too large to store. */
    method PollPage(burns: seq<nat>, lo: nat, hi: nat) returns (ok: bool, enqueued: nat)
      requires 1 <= lo && (hi < lo || hi <= |burns|)
      modifies this
      ensures var last := LastFitting(burns, lo, hi);
              && Contents() == Polled(old(Contents()), burns, lo, last)
              && enqueued == Fresh(old(Contents()), lo, last)
              && (ok <==> last == hi || hi < lo)
    {
      ghost var was := Contents();
      ok, enqueued := true, 0;
      var id := lo;
      while id <= hi
        invariant lo <= id && id <= Max(hi, lo - 1) + 1
        invariant LastFitting(burns, lo, id - 1) == id - 1
        invariant Contents() == Polled(was, burns, lo, id - 1)
        invariant enqueued == Fresh(was, lo, id - 1)
      {
        if burns[id - 1] > I64_MAX {
          StopsHere(burns, lo, id, hi);
          ok := false;
          return;
        }
        PolledNext(was, burns, lo, id);
        var inserted := PollId(id, burns[id - 1]);
        if inserted { enqueued := enqueued + 1; }
        id := id + 1;
      }
    }

    /** One tick of the id poller: read the cursor and page through at most `chunk` new ids. */
    method PollTick(burns: seq<nat>, startId: nat, chunk: nat) returns (ok: bool, enqueued: nat)
      modifies this
      ensures var (lo, hi) := PollRange(old(Contents()), burns, startId, chunk);
              var last := LastFitting(burns, lo, hi);
              && Contents() == Polled(old(Contents()), burns, lo, last)
              && enqueued == Fresh(old(Contents()), lo, last)
              && (ok <==> last == hi)
    {
      var cur := match cursor case Some(c) => c case None => Max(startId - 1, 0);
      ghost var was := Contents();
      var hi := if |burns| <= cur then cur else Min(cur + chunk, |burns|);
      assert PollRange(was, burns, startId, chunk) == (cur + 1, hi);
      if |burns| <= cur { return true, 0; }
      ok, enqueued := PollPage(burns, cur + 1, hi);
    }
  }

  lemma PolledNext(r: Redis, burns: seq<nat>, lo: nat, id: nat)
    requires 1 <= lo <= id <= |burns| && LastFitting(burns, lo, id - 1) == id - 1 && burns[id - 1] <= I64_MAX
    ensures LastFitting(burns, lo, id) == id
    ensures Polled(r, burns, lo, id) == PollOne(Polled(r, burns, lo, id - 1), id, burns[id - 1])
    ensures Fresh(r, lo, id) == Fresh(r, lo, id - 1) + if id in Polled(r, burns, lo, id - 1).state then 0 else 1
  {
    LaterUntouched(r, burns, lo, id - 1, id);
  }

  lemma {:induction false} LaterUntouched(r: Redis, burns: seq<nat>, lo: nat, hi: nat, id: nat)
    requires 1 <= lo && (hi < lo || hi <= |burns|) && hi < id
    ensures id in Polled(r, burns, lo, hi).state <==> id in r.state
    decreases hi
  {
    if lo <= hi { LaterUntouched(r, burns, lo, hi - 1, id); }
  }

  lemma {:induction false} StopsHere(burns: seq<nat>, lo: nat, id: nat, hi: nat)
    requires 1 <= lo <= id <= hi <= |burns|
    requires LastFitting(burns, lo, id - 1) == id - 1 && burns[id - 1] > I64_MAX
    ensures LastFitting(burns, lo, hi) == id - 1
    decreases hi
  {
    if id < hi { StopsHere(burns, lo, id, hi - 1); }
  }
}
