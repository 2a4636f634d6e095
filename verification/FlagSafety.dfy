/** The dual of at-most-once: no redemption is flagged processed on chain without having been paid,
    unless it was dead-lettered. Exactly when the wallet's replies and stamps can be trusted. */
module FlagSafety {
  import opened Stamp
  import opened RedemptionStore
  import opened PayoutProtocol
  import opened PayoutSafety
  import opened PayoutLimits

  /** A transfer of the redemption is mined. */
  ghost predicate PaidFor(w: seq<Tx>, id: nat) {
    exists i :: 0 <= i < |w| && Pays(w[i], id) && w[i].status.Mined?
  }

  /** Whatever is flagged, or about to be, was paid or dead-lettered. */
  ghost predicate FlagsTrue(s: System) {
    forall id :: id in s.processed || id in s.flags ==> id in s.dead || PaidFor(s.wallet, id)
  }

  // ---------------------------------------------------------------- every run

  predicate WaitsFor(p: Consumer) { p.Await? || p.RecordSent? || p.Confirm? }

  /** What the consumer knows of the transfer it is about to flag. */
  ghost predicate KnowsPaid(w: seq<Tx>, p: Consumer) {
    && (WaitsFor(p) ==> p.tx < |w| && Pays(w[p.tx], p.e.id))
    && (p.FlagPaid? || (p.Reconcile? && p.confirmed) ==> PaidFor(w, p.e.id))
  }

  ghost predicate FlagInv(s: System) { FlagsTrue(s) && KnowsPaid(s.wallet, s.consumer) }

  /** A single confirmed match is a transfer the reply shows as mined. */
  lemma ConfirmedIsListed(h: History, id: nat, minHeight: nat, f: Found) returns (t: Listed)
    requires StampMatch(h, id, minHeight) == Match(f) && f.confirmed
    ensures t in h.out && t.txid == f.txid && Hits(t, id, minHeight, true)
  {
    assert f in AllHits(h, id, minHeight);
    HitsInExact(h.pending, id, minHeight, false, f);
    HitsInExact(h.pool, id, minHeight, false, f);
    HitsInExact(h.out, id, minHeight, true, f);
    var i :| 0 <= i < |h.out| && h.out[i].txid == f.txid && Hits(h.out[i], id, minHeight, true);
    t := h.out[i];
  }

  /** So with true replies and stamps of its own, it is the redemption's. */
  lemma MatchIsPaid(w: seq<Tx>, h: History, id: nat, minHeight: nat, f: Found)
    requires Truthful(w, h) && OwnStamps(w, id, minHeight) && StampMatch(h, id, minHeight) == Match(f) && f.confirmed
    ensures PaidFor(w, id)
  {
    var t := ConfirmedIsListed(h, id, minHeight, f);
    assert w[t.txid].status.Mined? && Pays(w[t.txid], id);
  }

  /** Payouts stay where they are, and mined ones stay mined. */
  ghost predicate Kept(w: seq<Tx>, w': seq<Tx>) {
    && |w| <= |w'|
    && forall i :: 0 <= i < |w| ==> w'[i].owner == w[i].owner && (w[i].status.Mined? ==> w'[i].status.Mined?)
  }

  lemma KeptPays(w: seq<Tx>, w': seq<Tx>, id: nat)
    requires Kept(w, w') && PaidFor(w, id)
    ensures PaidFor(w', id)
  {
    var i :| 0 <= i < |w| && Pays(w[i], id) && w[i].status.Mined?;
    assert Pays(w'[i], id) && w'[i].status.Mined?;
  }

  lemma StepKeeps(c: Config, s: System, a: Action)
    requires Enabled(c, s, a)
    ensures Kept(s.wallet, Apply(c, s, a).wallet)
  {
  }

  /** Where a pass that waits for a transfer, or is about to flag one, came from. */
  lemma PaidFrom(c: Config, s: System, inp: Input)
    requires Answers(c, s, inp) && !s.consumer.Send?
    ensures var p, p' := s.consumer, GoesTo(c, s, inp);
            && (WaitsFor(p') ==> WaitsFor(p) && p'.e == p.e && p'.tx == p.tx)
            && (p'.FlagPaid? ==>
                  p'.e == p.e && ((p.Reconcile? && p.confirmed) || (p.Confirm? && s.wallet[p.tx].status.Mined?)))
            && (p'.Reconcile? && p'.confirmed ==>
                  && p'.e == p.e && p.Scan? && inp.Reply?
                  && StampMatch(inp.history, p.e.id, p.minHeight) == Match(Found(p'.tx, true)))
  {
  }

  lemma WorkKnowsPaid(c: Config, s: System, inp: Input)
    requires c.truthfulHistory && c.ownStamps && KnowsPaid(s.wallet, s.consumer) && Enabled(c, s, Work(inp)) && !s.consumer.Send?
    ensures KnowsPaid(s.wallet, GoesTo(c, s, inp))
  {
    var p, p' := s.consumer, GoesTo(c, s, inp);
    PaidFrom(c, s, inp);
    if p'.Reconcile? && p'.confirmed { MatchIsPaid(s.wallet, inp.history, p.e.id, p.minHeight, Found(p'.tx, true)); }
    else if p'.FlagPaid? && p.Confirm? { assert Pays(s.wallet[p.tx], p.e.id); }
  }

  lemma SendKnowsPaid(c: Config, s: System, inp: Input)
    requires Answers(c, s, inp) && s.consumer.Send?
    ensures KnowsPaid(Asks(s.wallet, s.consumer), GoesTo(c, s, inp))
  {
  }

  /** Where a step keeps the wallet and flags only what was paid or is dead-lettered, flags stay true. */
  lemma FlagsStayTrue(s: System, s': System)
    requires FlagsTrue(s) && Kept(s.wallet, s'.wallet) && s.dead <= s'.dead
    requires forall id :: id in s'.processed || id in s'.flags ==>
               id in s.processed || id in s.flags || id in s'.dead || PaidFor(s.wallet, id)
    ensures FlagsTrue(s')
  {
    forall id | id in s'.processed || id in s'.flags ensures id in s'.dead || PaidFor(s'.wallet, id) {
      if PaidFor(s.wallet, id) { KeptPays(s.wallet, s'.wallet, id); }
    }
  }

  lemma WorkKeepsFlags(c: Config, s: System, inp: Input)
    requires c.truthfulHistory && c.ownStamps && FlagInv(s) && Enabled(c, s, Work(inp))
    ensures FlagInv(WorkStep(c, s, inp))
  {
    if s.consumer.Send? { SendKnowsPaid(c, s, inp); } else { WorkKnowsPaid(c, s, inp); }
    StepKeeps(c, s, Work(inp));
    FlagsStayTrue(s, WorkStep(c, s, inp));
  }

  /** Other steps leave the pass as it is or end it, and flag nothing new. */
  lemma RestFrame(c: Config, s: System, a: Action)
    requires Enabled(c, s, a) && !a.Work?
    ensures var s' := Apply(c, s, a);
            && (s'.consumer == s.consumer || s'.consumer.Idle? || s'.consumer.CheckCap?) && s'.dead == s.dead
            && forall id :: id in s'.processed || id in s'.flags ==> id in s.processed || id in s.flags
  {
  }

  lemma RestKeepsFlags(c: Config, s: System, a: Action)
    requires FlagInv(s) && Enabled(c, s, a) && !a.Work?
    ensures FlagInv(Apply(c, s, a))
  {
    var s' := Apply(c, s, a);
    StepKeeps(c, s, a);
    RestFrame(c, s, a);
    FlagsStayTrue(s, s');
    if s.consumer.FlagPaid? || s.consumer.Reconcile? {
      if PaidFor(s.wallet, s.consumer.e.id) { KeptPays(s.wallet, s'.wallet, s.consumer.e.id); }
    }
  }

  lemma RunKeepsFlags(c: Config, run: seq<System>, i: nat)
    requires c.truthfulHistory && c.ownStamps && Run(c, run) && i + 1 < |run| && FlagInv(run[i])
    ensures FlagInv(run[i + 1])
  {
    assert StepAt(c, run, i);
    var a :| Enabled(c, run[i], a) && run[i + 1] == Apply(c, run[i], a);
    if a.Work? { WorkKeepsFlags(c, run[i], a.input); } else { RestKeepsFlags(c, run[i], a); }
  }

  lemma {:induction false} FlagInvAt(c: Config, run: seq<System>, i: nat)
    requires c.truthfulHistory && c.ownStamps && Run(c, run) && Init(run[0]) && i < |run|
    ensures FlagInv(run[i])
  {
    if i > 0 {
      FlagInvAt(c, run, i - 1);
      RunKeepsFlags(c, run, i - 1);
    }
  }

  lemma RunUnmarked(c: Config, run: seq<System>, i: nat)
    requires Run(c, run) && i + 1 < |run| && FlagsNeedMarker(c, run[i])
    ensures FlagsNeedMarker(c, run[i + 1])
  {
    assert StepAt(c, run, i);
    var a :| Enabled(c, run[i], a) && run[i + 1] == Apply(c, run[i], a);
    StepKeepsFlags(c, run[i], a);
  }

  /** Without the marker nothing is flagged. */
  lemma {:induction false} UnmarkedAt(c: Config, run: seq<System>, i: nat)
    requires Run(c, run) && Init(run[0]) && i < |run|
    ensures FlagsNeedMarker(c, run[i])
  {
    if i > 0 {
      UnmarkedAt(c, run, i - 1);
      RunUnmarked(c, run, i - 1);
    }
  }

  /** Inside one span of 2^16 ids, with no lookalike among other transfers, an id's stamp is its own. */
  lemma SpanIsOwn(w: seq<Tx>, id: nat, lo: nat, minHeight: nat)
    requires Stamped(w) && lo <= id < lo + STAMP_MOD
    requires forall i :: 0 <= i < |w| && w[i].status.Mined? && InScope(w[i], minHeight) ==>
               if w[i].owner.Some? then lo <= w[i].owner.value < lo + STAMP_MOD else !MatchesStamp(w[i].amount, id)
    ensures OwnStamps(w, id, minHeight)
  {
    forall i | 0 <= i < |w| && w[i].status.Mined? && InScope(w[i], minHeight) && MatchesStamp(w[i].amount, id)
      ensures Pays(w[i], id)
    {
      if w[i].owner.value != id { SameResidueApart(w[i].owner.value, id); }
    }
  }

  // ---------------------------------------------------------------- a false flag

  /** Some amount with the stamp of the id, shown as mined. */
  function Shown(c: Config): History { History([Listed(Paid(c), 0, 0)], [], []) }

  lemma ShownMatches(c: Config)
    ensures StampMatch(Shown(c), FirstId(c), 0) == Match(Found(0, true))
  {
    StampIsLargest(STAMP_MOD, FirstId(c));
    assert HitsIn(Shown(c).out, FirstId(c), 0, true) == [Found(0, true)];
    assert AllHits(Shown(c), FirstId(c), 0) == [Found(0, true)];
  }

  /** A burn of nothing, which any cap lets pass, is enqueued and taken up. */
  lemma NothingTaken(c: Config, s: System) returns (s': System)
    requires c.chunk >= 1 && Reaches(c, START, s) && AtRest(s) && s.redis == EMPTY && s.processed == {}
    requires |s.burns| == FirstId(c) && s.burns[FirstId(c) - 1] == 0
    ensures Reaches(c, START, s') && s' == s.(redis := s'.redis, consumer := ReadTip(Entry(FirstId(c), 0)))
  {
    s' := Enqueued(c, START, s);
    s' := Taken(c, START, s', Entry(FirstId(c), 0));
    s' := Unflagged(c, START, s', Entry(FirstId(c), 0));
  }

  /** The scan takes what it is shown for the payout, and flags it. */
  lemma Misflagged(c: Config, s: System) returns (s': System)
    requires c.marker && Reaches(c, START, s) && s.consumer == ReadTip(Entry(FirstId(c), 0)) && s.tip == 0
    requires ScanAllowed(c, s.(consumer := Scan(s.consumer.e, 0)), Shown(c))
    ensures Reaches(c, START, s') && FirstId(c) in s'.flags && s'.dead == s.dead && s'.wallet == s.wallet
  {
    ShownMatches(c);
    s' := Then(c, START, s, Work(Height(0)));
    s' := Then(c, START, s', Work(Reply(Shown(c))));
    assert s'.consumer == Reconcile(s.consumer.e, 0, true);
    s' := Reconciled(c, s');
  }

  lemma Reconciled(c: Config, s: System) returns (s': System)
    requires c.marker && Reaches(c, START, s) && s.consumer.Reconcile? && s.consumer.confirmed
    ensures Reaches(c, START, s') && s.consumer.e.id in s'.flags && s'.dead == s.dead && s'.wallet == s.wallet
  {
    s' := Then(c, START, s, Work(Go));
    s' := Then(c, START, s', Work(Go));
  }

  lemma BurnsNothing(c: Config) returns (s: System)
    ensures Reaches(c, START, s) && s == START.(burns := s.burns) && |s.burns| == FirstId(c) && s.burns[FirstId(c) - 1] == 0
  {
    s := Burned(c, FirstId(c) - 1);
    s := Then(c, START, s, Burn(0));
  }

  /** A reply that shows a transfer the wallet never made. */
  lemma InventedTransferFlags(c: Config) returns (s: System)
    requires c.marker && c.chunk >= 1 && !c.truthfulHistory
    ensures Reaches(c, START, s) && !FlagsTrue(s)
  {
    s := BurnsNothing(c);
    s := NothingTaken(c, s);
    s := Misflagged(c, s);
    assert !PaidFor(s.wallet, FirstId(c));
  }

  /** A transfer that pays nobody and carries the stamp by chance. */
  lemma LookalikeFlags(c: Config) returns (s: System)
    requires c.marker && c.chunk >= 1 && !c.ownStamps
    ensures Reaches(c, START, s) && !FlagsTrue(s)
  {
    s := BurnsNothing(c);
    s := Then(c, START, s, ForeignTransfer(Paid(c)));
    s := Then(c, START, s, Mine(0));
    s := NothingTaken(c, s);
    s := Misflagged(c, s);
    assert !PaidFor(s.wallet, FirstId(c));
  }

  // ---------------------------------------------------------------- exactly when

  ghost predicate NeverFalselyFlags(c: Config) {
    forall s :: Reaches(c, START, s) ==> FlagsTrue(s)
  }

  /** No flag is ever false, over every run and whatever happens to Redis, if and only if there is no
      marker to set one, or replies are true and stamps are the redemptions' own. */
  lemma NeverFalselyFlagsIff(c: Config)
    requires c.chunk >= 1
    ensures NeverFalselyFlags(c) <==> !c.marker || (c.truthfulHistory && c.ownStamps)
  {
    if !c.marker || (c.truthfulHistory && c.ownStamps) {
      forall s | Reaches(c, START, s) ensures FlagsTrue(s) {
        var run: seq<System> :| Path(c, run, START, s);
        if !c.marker { UnmarkedAt(c, run, |run| - 1); } else { FlagInvAt(c, run, |run| - 1); }
      }
    } else if !c.truthfulHistory {
      var s := InventedTransferFlags(c);
    } else {
      var s := LookalikeFlags(c);
    }
  }
}
