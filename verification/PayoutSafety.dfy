/** At-most-once payout, twice over: across Redis wipes, from the on-chain flag and the stamp scan;
    and without wipes, from the compare-and-set alone. */
module PayoutSafety {
  import opened Stamp
  import opened RedemptionStore
  import opened PayoutMath
  import opened PayoutProtocol

  /** What the stamp scan relies on: complete wallet replies, no payout leaving its window before it
      is flagged on chain nor between the reading of the flag and the scan, and no request still
      unanswered at the next scan of its own id. */
  predicate Trusting(c: Config) {
    c.honestHistory && c.agesSettled && (c.marker ==> c.steadyChecks) && !c.lateTransfers
  }

  /** No redemption has two transfers that are, or may still become, real payments. */
  ghost predicate PaidAtMostOnce(w: seq<Tx>) {
    forall i, j :: 0 <= i < j < |w| && w[i].owner.Some? && w[i].owner == w[j].owner ==> !(Open(w[i]) && Open(w[j]))
  }

  // ---------------------------------------------------------------- with wipes

  ghost predicate NoneOpen(w: seq<Tx>, id: nat) {
    forall i :: 0 <= i < |w| && Pays(w[i], id) ==> !Open(w[i])
  }

  ghost predicate Stamped(w: seq<Tx>) {
    forall i :: 0 <= i < |w| && w[i].owner.Some? ==> w[i].amount > 0 && MatchesStamp(w[i].amount, w[i].owner.value)
  }

  /** A live payout is in scope of the scan, or its redemption is flagged processed. */
  ghost predicate Traceable(w: seq<Tx>, tip: nat, processed: set<nat>) {
    forall i :: 0 <= i < |w| && w[i].owner.Some? && Live(w[i]) ==>
      InScope(w[i], ScanFloor(tip)) || w[i].owner.value in processed
  }

  ghost predicate AllInScope(w: seq<Tx>, tip: nat, id: nat) {
    forall i :: 0 <= i < |w| && Pays(w[i], id) && Live(w[i]) ==> InScope(w[i], ScanFloor(tip))
  }

  /** What the consumer knows about its entry at each point of its pass. */
  ghost predicate Knows(w: seq<Tx>, tip: nat, p: Consumer) {
    && (p.ReadTip? || p.Scan? ==> AllInScope(w, tip, p.e.id))
    && (p.Scan? ==> p.minHeight <= ScanFloor(tip))
    && (p.ClaimSlot? || p.Price? || p.Send? ==> NoneOpen(w, p.e.id))
    && (p.Send? ==> p.stamped > 0 && MatchesStamp(p.stamped, p.e.id))
  }

  ghost predicate WipeInv(s: System) {
    && PaidAtMostOnce(s.wallet)
    && Stamped(s.wallet)
    && Traceable(s.wallet, s.tip, s.processed)
    && Knows(s.wallet, s.tip, s.consumer)
  }

  /** Without the marker nothing is ever flagged on chain. */
  predicate FlagsNeedMarker(c: Config, s: System) { c.marker || (s.processed == {} && s.flags == {}) }

  /** A complete history shows every live payout in scope to the scan of its id. */
  lemma LiveIsFound(w: seq<Tx>, i: nat, id: nat, minHeight: nat, h: History)
    requires Stamped(w) && Complete(w, h)
    requires i < |w| && Pays(w[i], id) && InScope(w[i], minHeight)
    ensures StampMatch(h, id, minHeight) != NoMatch
  {
    var t := w[i];
    if t.status.Mined? {
      var f := InViewIsFound(h, id, minHeight, Listed(t.amount, t.status.height, i));
    } else {
      var height :| Listed(t.amount, height, i) in h.pending || Listed(t.amount, height, i) in h.pool;
      var f := InViewIsFound(h, id, minHeight, Listed(t.amount, height, i));
    }
  }

  /** A clean, complete scan of everything in scope means the redemption is unpaid. */
  lemma CleanScan(w: seq<Tx>, tip: nat, id: nat, minHeight: nat, h: History)
    requires Stamped(w) && AllInScope(w, tip, id) && minHeight <= ScanFloor(tip)
    requires Answered(w, id) && Complete(w, h) && StampMatch(h, id, minHeight) == NoMatch
    ensures NoneOpen(w, id)
  {
    forall i | 0 <= i < |w| && Pays(w[i], id) ensures !Live(w[i]) {
      if Live(w[i]) { LiveIsFound(w, i, id, minHeight, h); }
    }
  }

  /** Every step of a pass but the transfer request leaves wallet, tip and flags alone. */
  lemma WorkFrame(c: Config, s: System, inp: Input)
    requires Answers(c, s, inp)
    ensures var s' := WorkStep(c, s, inp);
            && s'.tip == s.tip && s'.processed == s.processed && s'.burns == s.burns
            && s'.poller == s.poller && (s'.batch == s.batch || s'.batch == multiset{})
            && (!s.consumer.Send? ==> s'.wallet == s.wallet)
  {
  }

  lemma PricedIsStamped(c: Config, s: System, inp: Input)
    requires s.consumer.Price? && Answers(c, s, inp)
    ensures var p := WorkStep(c, s, inp).consumer;
            && p.e == s.consumer.e
            && (p.Send? ==> p.stamped > 0 && MatchesStamp(p.stamped, p.e.id))
  {
    var e := s.consumer.e;
    if Decide(e.amount, e.id, inp.snapshot, PendingAtomic(s.redis), c.premiumBp).Pay? {
      var snap := inp.snapshot.value;
      var denom := SatAdd(snap.supply, PendingAtomic(s.redis));
      StampIsLargest(Payout(e.amount, EffectiveBalance(snap.balance, denom, c.premiumBp), denom), e.id);
    }
  }

  /** What a pass knows further on, it knew before or has just found out. */
  lemma WorkKnows(c: Config, s: System, inp: Input)
    requires Trusting(c) && FlagsNeedMarker(c, s)
    requires WipeInv(s) && Enabled(c, s, Work(inp)) && !s.consumer.Send?
    ensures Knows(s.wallet, s.tip, GoesTo(c, s, inp))
  {
    var p, p' := s.consumer, GoesTo(c, s, inp);
    if p.Scan? {
      if inp.Reply? && StampMatch(inp.history, p.e.id, p.minHeight) == NoMatch {
        CleanScan(s.wallet, s.tip, p.e.id, p.minHeight, inp.history);
      }
    } else if p.Price? {
      PricedIsStamped(c, s, inp);
    } else if p'.ReadTip? {
      assert AllInScope(s.wallet, s.tip, p.e.id);
    }
  }

  lemma WorkKeepsWipeInv(c: Config, s: System, inp: Input)
    requires Trusting(c) && FlagsNeedMarker(c, s)
    requires WipeInv(s) && Enabled(c, s, Work(inp))
    ensures WipeInv(WorkStep(c, s, inp))
  {
    if s.consumer.Send? { SendKeepsWipeInv(c, s, inp); } else { WorkKnows(c, s, inp); }
  }

  lemma SendKeepsWipeInv(c: Config, s: System, inp: Input)
    requires WipeInv(s) && s.consumer.Send? && Answers(c, s, inp)
    ensures WipeInv(WorkStep(c, s, inp))
  {
    var w, w' := s.wallet, WorkStep(c, s, inp).wallet;
    assert forall i :: 0 <= i < |w| ==> w'[i] == w[i];
  }

  /** What the wallet does on its own: it opens no payout that was closed, and moves none out of
      scope; new transfers are not payouts. */
  ghost predicate Evolved(w: seq<Tx>, w': seq<Tx>, tip: nat) {
    && |w| <= |w'|
    && (forall i :: 0 <= i < |w| ==> EvolvedTx(w[i], w'[i], tip))
    && (forall i :: |w| <= i < |w'| ==> w'[i].owner.None?)
  }

  ghost predicate EvolvedTx(t: Tx, t': Tx, tip: nat) {
    && t'.owner == t.owner && t'.amount == t.amount
    && (Open(t') ==> Open(t))
    && (t.status.Rejected? ==> t'.status.Rejected?)
    && (Live(t') && !InScope(t', ScanFloor(tip)) ==> t' == t)
  }

  lemma WalletEvolves(c: Config, s: System, a: Action)
    requires Enabled(c, s, a) && (a.Execute? || a.Refuse? || a.Mine? || a.Drop? || a.ForeignTransfer?)
    ensures Evolved(s.wallet, Apply(c, s, a).wallet, s.tip)
  {
  }

  lemma EvolvedKeepsPayouts(w: seq<Tx>, w': seq<Tx>, tip: nat)
    requires Evolved(w, w', tip) && PaidAtMostOnce(w) && Stamped(w)
    ensures PaidAtMostOnce(w') && Stamped(w')
  {
    assert forall i :: 0 <= i < |w'| && w'[i].owner.Some? ==> i < |w| && EvolvedTx(w[i], w'[i], tip);
  }

  lemma EvolvedKeepsScope(w: seq<Tx>, w': seq<Tx>, tip: nat, processed: set<nat>, p: Consumer)
    requires Evolved(w, w', tip) && Traceable(w, tip, processed) && Knows(w, tip, p)
    ensures Traceable(w', tip, processed) && Knows(w', tip, p)
  {
    assert forall i :: 0 <= i < |w'| && w'[i].owner.Some? ==> i < |w| && EvolvedTx(w[i], w'[i], tip);
  }

  lemma WalletKeepsWipeInv(c: Config, s: System, a: Action)
    requires WipeInv(s) && Enabled(c, s, a)
    requires a.Execute? || a.Refuse? || a.Mine? || a.Drop? || a.ForeignTransfer?
    ensures WipeInv(Apply(c, s, a))
  {
    var w' := Apply(c, s, a).wallet;
    WalletEvolves(c, s, a);
    EvolvedKeepsPayouts(s.wallet, w', s.tip);
    EvolvedKeepsScope(s.wallet, w', s.tip, s.processed, s.consumer);
  }

  lemma StepKeepsWipeInv(c: Config, s: System, a: Action)
    requires Trusting(c) && FlagsNeedMarker(c, s)
    requires WipeInv(s) && Enabled(c, s, a)
    ensures WipeInv(Apply(c, s, a))
  {
    if a.Work? { WorkKeepsWipeInv(c, s, a.input); }
    else if a.Execute? || a.Refuse? || a.Mine? || a.Drop? || a.ForeignTransfer? { WalletKeepsWipeInv(c, s, a); }
  }

  lemma StepKeepsFlags(c: Config, s: System, a: Action)
    requires FlagsNeedMarker(c, s) && Enabled(c, s, a)
    ensures FlagsNeedMarker(c, Apply(c, s, a))
  {
  }

  lemma RunKeepsWipeInv(c: Config, run: seq<System>, i: nat)
    requires Trusting(c) && Run(c, run) && i + 1 < |run| && WipeInv(run[i]) && FlagsNeedMarker(c, run[i])
    ensures WipeInv(run[i + 1]) && FlagsNeedMarker(c, run[i + 1])
  {
    assert StepAt(c, run, i);
    var a :| Enabled(c, run[i], a) && run[i + 1] == Apply(c, run[i], a);
    StepKeepsWipeInv(c, run[i], a);
    StepKeepsFlags(c, run[i], a);
  }

  lemma {:induction false} WipeInvAt(c: Config, run: seq<System>, i: nat)
    requires Trusting(c) && Run(c, run) && Init(run[0]) && i < |run|
    ensures WipeInv(run[i]) && FlagsNeedMarker(c, run[i])
  {
    if i > 0 {
      WipeInvAt(c, run, i - 1);
      RunKeepsWipeInv(c, run, i - 1);
    }
  }

  /** Over every run — Redis lost or coming back with any contents, crashes between any two awaits,
      transfers executed long after their caller stopped, foreign transfers, dropped transactions —
      no redemption is ever paid twice, provided the scan can rely on what it needs. */
  lemma NeverPaidTwice(c: Config, run: seq<System>)
    requires Trusting(c)
    requires Run(c, run) && Init(run[0])
    ensures forall i :: 0 <= i < |run| ==> PaidAtMostOnce(run[i].wallet)
  {
    forall i | 0 <= i < |run| ensures PaidAtMostOnce(run[i].wallet) { WipeInvAt(c, run, i); }
  }

  // ---------------------------------------------------------------- without wipes

  type States = map<nat, RedemptionState>

  /** At most one request per redemption was ever not turned down. */
  ghost predicate TriedAtMostOnce(w: seq<Tx>) {
    forall i, j :: 0 <= i < j < |w| && w[i].owner.Some? && w[i].owner == w[j].owner ==>
      w[i].status.Rejected? || w[j].status.Rejected?
  }

  ghost predicate NoneTried(w: seq<Tx>, id: nat) {
    forall i :: 0 <= i < |w| && Pays(w[i], id) ==> w[i].status.Rejected?
  }

  ghost predicate Closed(state: States, id: nat) { id in state && state[id] != Pending }

  /** A redemption with a request that was not turned down is never free to be claimed. */
  ghost predicate TriedIsClosed(w: seq<Tx>, state: States) {
    forall i :: 0 <= i < |w| && w[i].owner.Some? && !w[i].status.Rejected? ==> Closed(state, w[i].owner.value)
  }

  predicate HoldsSlot(p: Consumer) {
    p.Price? || p.Park? || p.ParkLocked? || p.Unpark? || p.Rollback? || p.FlagDead? || p.RecordDead? || p.Send?
  }

  /** Writes its own id back to `pending`. */
  predicate GivesUp(p: Consumer) { p.Unpark? || p.Rollback? }

  /** Between claiming a slot and asking for the transfer, nothing has been tried; while waiting,
      nothing but the request waited for. */
  ghost predicate SlotInv(w: seq<Tx>, state: States, p: Consumer) {
    && (HoldsSlot(p) ==> NoneTried(w, p.e.id) && Closed(state, p.e.id))
    && (p.Await? ==>
          && p.tx < |w| && Pays(w[p.tx], p.e.id) && Closed(state, p.e.id)
          && forall i :: 0 <= i < |w| && i != p.tx && Pays(w[i], p.e.id) ==> w[i].status.Rejected?)
  }

  ghost predicate CasInv(s: System) {
    && TriedAtMostOnce(s.wallet)
    && TriedIsClosed(s.wallet, s.redis.state)
    && SlotInv(s.wallet, s.redis.state, s.consumer)
  }

  /** How one step of a pass may change the state of an id: never back to `pending`, except to
      roll back the consumer's own claim. */
  lemma WorkStates(c: Config, s: System, inp: Input)
    requires Answers(c, s, inp)
    ensures var p, st, st' := s.consumer, s.redis.state, WorkStep(c, s, inp).redis.state;
            forall id :: Closed(st, id) && !(GivesUp(p) && p.e.id == id) ==> Closed(st', id)
  {
    PutsPending(c, s.redis, s.consumer, inp);
    PerformedCloses(s.redis, s.consumer.e, WriteOf(c, s.redis, s.consumer, inp));
  }

  lemma PutsPending(c: Config, r: Redis, p: Consumer, inp: Input)
    ensures WriteOf(c, r, p, inp) == Put(Pending) <==> GivesUp(p)
  {
  }

  lemma PerformedCloses(r: Redis, e: Entry, w: Write)
    ensures forall id :: Closed(r.state, id) && !(w == Put(Pending) && e.id == id) ==> Closed(Performed(r, e, w).state, id)
  {
  }

  lemma SendKeepsCasInv(c: Config, s: System, inp: Input)
    requires CasInv(s) && Answers(c, s, inp) && s.consumer.Send?
    ensures CasInv(WorkStep(c, s, inp))
  {
    var w, w' := s.wallet, WorkStep(c, s, inp).wallet;
    assert forall i :: 0 <= i < |w| ==> w'[i] == w[i];
  }

  lemma WorkKeepsClosed(c: Config, s: System, inp: Input)
    requires CasInv(s) && Answers(c, s, inp) && !s.consumer.Send?
    ensures TriedIsClosed(s.wallet, WorkStep(c, s, inp).redis.state)
  {
    WorkStates(c, s, inp);
  }

  /** Where a pass that holds the slot came from. */
  lemma SlotFrom(c: Config, s: System, inp: Input)
    requires Answers(c, s, inp) && !s.consumer.Send?
    ensures var p, p' := s.consumer, WorkStep(c, s, inp).consumer;
            && !p'.Await?
            && (HoldsSlot(p') ==>
                  && p'.e == p.e && !GivesUp(p) && (p.ClaimSlot? ==> Free(s.redis, p.e.id))
                  && (HoldsSlot(p) || p.ClaimSlot? || (p.Await? && s.wallet[p.tx].status.Rejected?)))
  {
  }

  lemma ClaimCloses(c: Config, s: System, inp: Input)
    requires Answers(c, s, inp) && s.consumer.ClaimSlot?
    ensures WorkStep(c, s, inp).redis.state == if Free(s.redis, s.consumer.e.id) then s.redis.state[s.consumer.e.id := InFlight] else s.redis.state
  {
  }

  /** A slot is only claimed for an id nothing was tried for, and given up only by its holder. */
  lemma WorkKeepsSlot(c: Config, s: System, inp: Input)
    requires CasInv(s) && Answers(c, s, inp) && !s.consumer.Send?
    ensures var s' := WorkStep(c, s, inp); SlotInv(s.wallet, s'.redis.state, s'.consumer)
  {
    SlotFrom(c, s, inp);
    WorkStates(c, s, inp);
    if s.consumer.ClaimSlot? { ClaimCloses(c, s, inp); }
  }

  lemma WorkKeepsCasInv(c: Config, s: System, inp: Input)
    requires CasInv(s) && Answers(c, s, inp)
    ensures CasInv(WorkStep(c, s, inp))
  {
    if s.consumer.Send? {
      SendKeepsCasInv(c, s, inp);
    } else {
      WorkFrame(c, s, inp);
      WorkKeepsClosed(c, s, inp);
      WorkKeepsSlot(c, s, inp);
    }
  }

  lemma EvolvedKeepsCas(w: seq<Tx>, w': seq<Tx>, tip: nat, state: States, p: Consumer)
    requires Evolved(w, w', tip) && TriedAtMostOnce(w) && TriedIsClosed(w, state) && SlotInv(w, state, p)
    ensures TriedAtMostOnce(w') && TriedIsClosed(w', state) && SlotInv(w', state, p)
  {
    assert forall i :: 0 <= i < |w'| && w'[i].owner.Some? ==> i < |w| && EvolvedTx(w[i], w'[i], tip);
  }

  lemma WalletKeepsCasInv(c: Config, s: System, a: Action)
    requires CasInv(s) && Enabled(c, s, a)
    requires a.Execute? || a.Refuse? || a.Mine? || a.Drop? || a.ForeignTransfer?
    ensures CasInv(Apply(c, s, a))
  {
    WalletEvolves(c, s, a);
    EvolvedKeepsCas(s.wallet, Apply(c, s, a).wallet, s.tip, s.redis.state, s.consumer);
  }

  lemma StepKeepsCasInv(c: Config, s: System, a: Action)
    requires !c.wipes && CasInv(s) && Enabled(c, s, a)
    ensures CasInv(Apply(c, s, a))
  {
    if a.Work? { WorkKeepsCasInv(c, s, a.input); }
    else if a.Execute? || a.Refuse? || a.Mine? || a.Drop? || a.ForeignTransfer? { WalletKeepsCasInv(c, s, a); }
    else {
      var s' := Apply(c, s, a);
      assert s'.wallet == s.wallet;
      assert forall id :: Closed(s.redis.state, id) ==> Closed(s'.redis.state, id);
    }
  }

  lemma RunKeepsCasInv(c: Config, run: seq<System>, i: nat)
    requires !c.wipes && Run(c, run) && i + 1 < |run| && CasInv(run[i])
    ensures CasInv(run[i + 1])
  {
    assert StepAt(c, run, i);
    var a :| Enabled(c, run[i], a) && run[i + 1] == Apply(c, run[i], a);
    StepKeepsCasInv(c, run[i], a);
  }

  lemma {:induction false} CasInvAt(c: Config, run: seq<System>, i: nat)
    requires !c.wipes && Run(c, run) && Init(run[0]) && i < |run|
    ensures CasInv(run[i])
  {
    if i > 0 {
      CasInvAt(c, run, i - 1);
      RunKeepsCasInv(c, run, i - 1);
    }
  }

  ghost predicate WentOut(w: seq<Tx>, id: nat) {
    exists i :: 0 <= i < |w| && Pays(w[i], id) && Broadcast(w[i])
  }

  lemma StepKeepsWentOut(c: Config, s: System, a: Action, id: nat)
    requires Enabled(c, s, a) && WentOut(s.wallet, id)
    ensures WentOut(Apply(c, s, a).wallet, id)
  {
    var s' := Apply(c, s, a);
    if a.Work? { WorkFrame(c, s, a.input); }
    var i :| 0 <= i < |s.wallet| && Pays(s.wallet[i], id) && Broadcast(s.wallet[i]);
    assert Pays(s'.wallet[i], id) && Broadcast(s'.wallet[i]);
  }

  lemma RunKeepsWentOut(c: Config, run: seq<System>, i: nat, id: nat)
    requires Run(c, run) && i + 1 < |run| && WentOut(run[i].wallet, id)
    ensures WentOut(run[i + 1].wallet, id)
  {
    assert StepAt(c, run, i);
    var a :| Enabled(c, run[i], a) && run[i + 1] == Apply(c, run[i], a);
    StepKeepsWentOut(c, run[i], a, id);
  }

  lemma {:induction false} WentOutStays(c: Config, run: seq<System>, i: nat, j: nat, id: nat)
    requires Run(c, run) && i <= j < |run| && WentOut(run[i].wallet, id)
    ensures WentOut(run[j].wallet, id)
    decreases j
  {
    if i < j {
      WentOutStays(c, run, i, j - 1, id);
      RunKeepsWentOut(c, run, j - 1, id);
    }
  }

  /** Without wipes the compare-and-set alone is enough, whatever the marker, the wallet's replies
      and late executions do: at most one request per redemption is ever not turned down, and from
      the moment a transfer went out its redemption is never `pending` again. */
  lemma ClaimedOnce(c: Config, run: seq<System>)
    requires !c.wipes && Run(c, run) && Init(run[0])
    ensures forall i :: 0 <= i < |run| ==> TriedAtMostOnce(run[i].wallet) && PaidAtMostOnce(run[i].wallet)
    ensures forall i, j, id :: 0 <= i <= j < |run| && WentOut(run[i].wallet, id) ==> Closed(run[j].redis.state, id)
  {
    forall i | 0 <= i < |run| ensures TriedAtMostOnce(run[i].wallet) && PaidAtMostOnce(run[i].wallet) {
      CasInvAt(c, run, i);
    }
    forall i, j, id | 0 <= i <= j < |run| && WentOut(run[i].wallet, id) ensures Closed(run[j].redis.state, id) {
      WentOutStays(c, run, i, j, id);
      CasInvAt(c, run, j);
    }
  }
}
