/** Hiding a redemption id in the low 16 bits of a payout, and finding it again in a
    wallet's history. */
module Stamp {
  const STAMP_MOD: nat := 65536

  function StampTag(id: nat): nat { id % STAMP_MOD }

  /** `payout & !0xFFFF` clears the low bits and `| tag` fills them, so the two bit
      operations are a round-down and an addition. */
  function StampAmount(payout: nat, id: nat): nat
    requires payout >= STAMP_MOD
  {
    var base := payout - payout % STAMP_MOD;
    var stamped := base + StampTag(id);
    if stamped > payout then stamped - STAMP_MOD else stamped
  }

  predicate MatchesStamp(amount: nat, id: nat) { amount % STAMP_MOD == StampTag(id) }

  /** The stamped amount is the largest value not above the payout that carries the id;
      it is positive and costs the redeemer less than one stamp unit. */
  lemma StampIsLargest(payout: nat, id: nat)
    requires payout >= STAMP_MOD
    ensures var s := StampAmount(payout, id);
            && 0 < s <= payout < s + STAMP_MOD
            && MatchesStamp(s, id)
            && forall v: nat :: v <= payout && MatchesStamp(v, id) ==> v <= s
  {
    var s := StampAmount(payout, id);
    var base := payout - payout % STAMP_MOD;
    assert base == payout / STAMP_MOD * STAMP_MOD;
    Residue(payout / STAMP_MOD, StampTag(id));
    Residue(payout / STAMP_MOD - 1, StampTag(id));
    forall v: nat | v <= payout && MatchesStamp(v, id) ensures v <= s {
      if v > s { SameResidueApart(v, s); }
    }
  }

  lemma Residue(q: int, r: nat)
    requires r < STAMP_MOD
    ensures (q * STAMP_MOD + r) % STAMP_MOD == r
  {
    assert q * STAMP_MOD + r == STAMP_MOD * q + r;
  }

  /** Two numbers with one residue are equal or at least a stamp unit apart. */
  lemma SameResidueApart(a: nat, b: nat)
    requires a % STAMP_MOD == b % STAMP_MOD && a != b
    ensures a >= b + STAMP_MOD || b >= a + STAMP_MOD
  {
    assert a == a / STAMP_MOD * STAMP_MOD + a % STAMP_MOD;
    assert b == b / STAMP_MOD * STAMP_MOD + b % STAMP_MOD;
  }

  /** One transfer in a `get_transfers` reply. */
  datatype Listed = Listed(amount: nat, height: nat, txid: nat)

  /** The reply: mined transfers, and two lists of transfers still in flight. A missing
      list reads as empty. */
  datatype History = History(out: seq<Listed>, pending: seq<Listed>, pool: seq<Listed>)

  datatype Found = Found(txid: nat, confirmed: bool)

  datatype ScanResult = NoMatch | Match(found: Found) | Ambiguous

  predicate Hits(t: Listed, id: nat, minHeight: nat, confirmed: bool) {
    && (confirmed ==> t.height >= minHeight)
    && t.amount > 0
    && MatchesStamp(t.amount, id)
  }

  function HitsIn(l: seq<Listed>, id: nat, minHeight: nat, confirmed: bool): seq<Found> {
    if l == [] then []
    else
      HitsIn(l[..|l| - 1], id, minHeight, confirmed) +
      (if Hits(l[|l| - 1], id, minHeight, confirmed) then [Found(l[|l| - 1].txid, confirmed)] else [])
  }

  function AllHits(h: History, id: nat, minHeight: nat): seq<Found> {
    HitsIn(h.out, id, minHeight, true) + HitsIn(h.pending, id, minHeight, false) + HitsIn(h.pool, id, minHeight, false)
  }

  function StampMatch(h: History, id: nat, minHeight: nat): ScanResult {
    var found := AllHits(h, id, minHeight);
    if |found| == 0 then NoMatch else if |found| == 1 then Match(found[0]) else Ambiguous
  }

  /** One pass over a list, pushing its hits. */
  method PushHits(found: seq<Found>, l: seq<Listed>, id: nat, minHeight: nat, confirmed: bool) returns (r: seq<Found>)
    ensures r == found + HitsIn(l, id, minHeight, confirmed)
  {
    r := found;
    for i := 0 to |l|
      invariant r == found + HitsIn(l[..i], id, minHeight, confirmed)
    {
      var t := l[i];
      assert l[..i + 1][..i] == l[..i];
      if confirmed && t.height < minHeight { continue; }
      if t.amount > 0 && MatchesStamp(t.amount, id) {
        r := r + [Found(t.txid, confirmed)];
      }
    }
    assert l[..|l|] == l;
  }

  /** The three passes of the source, pushing into one list. */
  method StampMatchInResult(h: History, id: nat, minHeight: nat) returns (r: ScanResult)
    ensures r == StampMatch(h, id, minHeight)
  {
    var found := PushHits([], h.out, id, minHeight, true);
    found := PushHits(found, h.pending, id, minHeight, false);
    found := PushHits(found, h.pool, id, minHeight, false);
    r := if |found| == 0 then NoMatch else if |found| == 1 then Match(found[0]) else Ambiguous;
  }

  /** A hit is reported for exactly the transfers that pass the filter. */
  lemma {:induction false} HitsInExact(l: seq<Listed>, id: nat, minHeight: nat, confirmed: bool, f: Found)
    ensures f in HitsIn(l, id, minHeight, confirmed) <==>
            f.confirmed == confirmed &&
            exists i :: 0 <= i < |l| && l[i].txid == f.txid && Hits(l[i], id, minHeight, confirmed)
  {
    if l != [] {
      var init, last := l[..|l| - 1], l[|l| - 1];
      HitsInExact(init, id, minHeight, confirmed, f);
      var tail := if Hits(last, id, minHeight, confirmed) then [Found(last.txid, confirmed)] else [];
      assert f in HitsIn(l, id, minHeight, confirmed) <==>
             f in HitsIn(init, id, minHeight, confirmed) || f in tail;
      assert forall i :: 0 <= i < |init| ==> l[i] == init[i];
      if f in HitsIn(l, id, minHeight, confirmed) && f in tail { assert l[|l| - 1].txid == f.txid; }
    }
  }

  ghost predicate Listing(h: History, t: Listed) { t in h.out || t in h.pending || t in h.pool }

  /** `owner` says which redemption a listed transfer pays, if any. Every payout carries its
      redemption's stamp, and the redemptions in view, together with the one looked for, fit in one
      span of 2^16 ids. */
  ghost predicate OneSpan(h: History, owner: map<nat, nat>, id: nat, lo: nat) {
    && lo <= id < lo + STAMP_MOD
    && forall t :: Listing(h, t) && t.txid in owner ==>
         && lo <= owner[t.txid] < lo + STAMP_MOD
         && t.amount > 0 && MatchesStamp(t.amount, owner[t.txid])
  }

  ghost predicate InView(h: History, minHeight: nat, t: Listed) {
    (t in h.out && t.height >= minHeight) || t in h.pending || t in h.pool
  }

  ghost predicate PaysIt(owner: map<nat, nat>, t: Listed, id: nat) { t.txid in owner && owner[t.txid] == id }

  /** No redemption is paid by two of the listed transfers. */
  ghost predicate PaidOnce(h: History, owner: map<nat, nat>) {
    var l := h.out + h.pending + h.pool;
    forall i, j :: 0 <= i < j < |l| && l[i].txid in owner && l[j].txid in owner ==> owner[l[i].txid] != owner[l[j].txid]
  }

  /** A transfer in view that pays no redemption but happens to carry the stamp. */
  ghost predicate Lookalike(h: History, owner: map<nat, nat>, id: nat, minHeight: nat, t: Listed) {
    InView(h, minHeight, t) && t.txid !in owner && t.amount > 0 && MatchesStamp(t.amount, id)
  }

  /** The scan reports a match exactly when a transfer of that redemption is in view, and then that
      transfer; it is never ambiguous. */
  ghost predicate ScanExact(h: History, owner: map<nat, nat>, id: nat, minHeight: nat) {
    var r := StampMatch(h, id, minHeight);
    && r != Ambiguous
    && (r.Match? <==> exists t :: InView(h, minHeight, t) && PaysIt(owner, t, id))
    && (r.Match? ==> exists t :: InView(h, minHeight, t) && PaysIt(owner, t, id) && t.txid == r.found.txid)
  }

  /** Within a span a stamp names its redemption. */
  lemma StampIsOwner(h: History, owner: map<nat, nat>, id: nat, lo: nat)
    requires OneSpan(h, owner, id, lo)
    ensures forall t :: Listing(h, t) && t.txid in owner ==> (MatchesStamp(t.amount, id) <==> owner[t.txid] == id)
  {
    forall t | Listing(h, t) && t.txid in owner && owner[t.txid] != id ensures !MatchesStamp(t.amount, id) {
      if MatchesStamp(t.amount, id) { SameResidueApart(owner[t.txid], id); }
    }
  }

  lemma InViewIsFound(h: History, id: nat, minHeight: nat, t: Listed) returns (f: Found)
    requires InView(h, minHeight, t) && t.amount > 0 && MatchesStamp(t.amount, id)
    ensures f in AllHits(h, id, minHeight) && f.txid == t.txid
  {
    f := Found(t.txid, t in h.out && t.height >= minHeight);
    if f.confirmed { HitsInExact(h.out, id, minHeight, true, f); }
    else if t in h.pending { HitsInExact(h.pending, id, minHeight, false, f); }
    else { HitsInExact(h.pool, id, minHeight, false, f); }
  }

  lemma FoundIsInView(h: History, id: nat, minHeight: nat, f: Found) returns (t: Listed)
    requires f in AllHits(h, id, minHeight)
    ensures InView(h, minHeight, t) && t.txid == f.txid && t.amount > 0 && MatchesStamp(t.amount, id)
  {
    var l, confirmed := h.pool, false;
    if f in HitsIn(h.out, id, minHeight, true) { l, confirmed := h.out, true; }
    else if f in HitsIn(h.pending, id, minHeight, false) { l := h.pending; }
    HitsInExact(l, id, minHeight, confirmed, f);
    var i :| 0 <= i < |l| && l[i].txid == f.txid && Hits(l[i], id, minHeight, confirmed);
    t := l[i];
  }

  /** Two transfers with one stamp make the scan ambiguous. */
  lemma TwoAreAmbiguous(h: History, id: nat, minHeight: nat, t: Listed, u: Listed)
    requires InView(h, minHeight, t) && t.amount > 0 && MatchesStamp(t.amount, id)
    requires InView(h, minHeight, u) && u.amount > 0 && MatchesStamp(u.amount, id) && t.txid != u.txid
    ensures StampMatch(h, id, minHeight) == Ambiguous
  {
    var f := InViewIsFound(h, id, minHeight, t);
    var g := InViewIsFound(h, id, minHeight, u);
    var found := AllHits(h, id, minHeight);
    var i :| 0 <= i < |found| && found[i] == f;
    var j :| 0 <= j < |found| && found[j] == g;
  }

  /** A hit at a place in the three lists put together. */
  predicate HitAt(a: seq<Listed>, l: seq<Listed>, id: nat, minHeight: nat, i: nat)
    requires i < |l|
  {
    Hits(l[i], id, minHeight, i < |a|)
  }

  lemma HitIsOwn(h: History, owner: map<nat, nat>, id: nat, lo: nat, minHeight: nat, i: nat)
    requires OneSpan(h, owner, id, lo) && forall t :: !Lookalike(h, owner, id, minHeight, t)
    requires i < |h.out + h.pending + h.pool| && HitAt(h.out, h.out + h.pending + h.pool, id, minHeight, i)
    ensures PaysIt(owner, (h.out + h.pending + h.pool)[i], id)
  {
    var t := (h.out + h.pending + h.pool)[i];
    StampIsOwner(h, owner, id, lo);
    assert i < |h.out| ==> t in h.out;
    assert i >= |h.out| ==> t in h.pending || t in h.pool;
    assert !Lookalike(h, owner, id, minHeight, t);
  }

  lemma AtMostOneHit(h: History, owner: map<nat, nat>, id: nat, lo: nat, minHeight: nat)
    requires OneSpan(h, owner, id, lo) && PaidOnce(h, owner) && forall t :: !Lookalike(h, owner, id, minHeight, t)
    ensures |AllHits(h, id, minHeight)| <= 1
  {
    var l := h.out + h.pending + h.pool;
    forall i, j | 0 <= i < j < |l| ensures !(HitAt(h.out, l, id, minHeight, i) && HitAt(h.out, l, id, minHeight, j)) {
      if HitAt(h.out, l, id, minHeight, i) && HitAt(h.out, l, id, minHeight, j) {
        HitIsOwn(h, owner, id, lo, minHeight, i);
        HitIsOwn(h, owner, id, lo, minHeight, j);
      }
    }
    OneHitOfThree(h.out, h.pending, h.pool, id, minHeight);
  }

  lemma OneHitOfThree(a: seq<Listed>, b: seq<Listed>, c: seq<Listed>, id: nat, minHeight: nat)
    requires var l := a + b + c;
             forall i, j :: 0 <= i < j < |l| ==> !(HitAt(a, l, id, minHeight, i) && HitAt(a, l, id, minHeight, j))
    ensures |HitsIn(a, id, minHeight, true)| + |HitsIn(b, id, minHeight, false)| + |HitsIn(c, id, minHeight, false)| <= 1
  {
    HitsPlaced(a, b, c, id, minHeight);
    HitsCount(a, id, minHeight, true);
    HitsCount(b, id, minHeight, false);
    HitsCount(c, id, minHeight, false);
  }

  lemma HitsPlaced(a: seq<Listed>, b: seq<Listed>, c: seq<Listed>, id: nat, minHeight: nat)
    ensures var l := a + b + c;
            && (forall i :: 0 <= i < |a| ==> (Hits(a[i], id, minHeight, true) <==> HitAt(a, l, id, minHeight, i)))
            && (forall i :: 0 <= i < |b| ==> (Hits(b[i], id, minHeight, false) <==> HitAt(a, l, id, minHeight, |a| + i)))
            && (forall i :: 0 <= i < |c| ==> (Hits(c[i], id, minHeight, false) <==> HitAt(a, l, id, minHeight, |a| + |b| + i)))
  {
  }

  lemma {:induction false} HitsCount(l: seq<Listed>, id: nat, minHeight: nat, confirmed: bool)
    requires forall i, j :: 0 <= i < j < |l| ==> !(Hits(l[i], id, minHeight, confirmed) && Hits(l[j], id, minHeight, confirmed))
    ensures |HitsIn(l, id, minHeight, confirmed)| <= 1
    ensures HitsIn(l, id, minHeight, confirmed) != [] ==> exists i :: 0 <= i < |l| && Hits(l[i], id, minHeight, confirmed)
  {
    if l != [] {
      var init := l[..|l| - 1];
      HitsCount(init, id, minHeight, confirmed);
      if HitsIn(init, id, minHeight, confirmed) != [] {
        var i :| 0 <= i < |init| && Hits(init[i], id, minHeight, confirmed);
        assert Hits(l[i], id, minHeight, confirmed);
      } else if HitsIn(l, id, minHeight, confirmed) != [] {
        assert Hits(l[|l| - 1], id, minHeight, confirmed);
      }
    }
  }

  lemma ScanFindsOwn(h: History, owner: map<nat, nat>, id: nat, lo: nat, minHeight: nat)
    requires OneSpan(h, owner, id, lo) && PaidOnce(h, owner) && forall t :: !Lookalike(h, owner, id, minHeight, t)
    ensures ScanExact(h, owner, id, minHeight)
  {
    StampIsOwner(h, owner, id, lo);
    AtMostOneHit(h, owner, id, lo, minHeight);
    var found := AllHits(h, id, minHeight);
    forall t | InView(h, minHeight, t) && PaysIt(owner, t, id) ensures found != [] {
      assert Listing(h, t);
      var f := InViewIsFound(h, id, minHeight, t);
    }
    if found != [] {
      var t := FoundIsInView(h, id, minHeight, found[0]);
      assert Listing(h, t) && !Lookalike(h, owner, id, minHeight, t);
      assert PaysIt(owner, t, id);
    }
  }

  lemma LookalikeMisleads(h: History, owner: map<nat, nat>, id: nat, lo: nat, minHeight: nat, t: Listed)
    requires OneSpan(h, owner, id, lo) && Lookalike(h, owner, id, minHeight, t)
    ensures !ScanExact(h, owner, id, minHeight)
  {
    StampIsOwner(h, owner, id, lo);
    var f := InViewIsFound(h, id, minHeight, t);
    if u :| InView(h, minHeight, u) && PaysIt(owner, u, id) {
      assert Listing(h, u);
      TwoAreAmbiguous(h, id, minHeight, t, u);
    }
  }

  /** Inside one span the scan identifies exactly a redemption's own transfer if and only if no
      transfer in view that pays nobody carries its stamp. */
  lemma ScanExactIff(h: History, owner: map<nat, nat>, id: nat, lo: nat, minHeight: nat)
    requires OneSpan(h, owner, id, lo) && PaidOnce(h, owner)
    ensures ScanExact(h, owner, id, minHeight) <==> forall t :: !Lookalike(h, owner, id, minHeight, t)
  {
    if t :| Lookalike(h, owner, id, minHeight, t) { LookalikeMisleads(h, owner, id, lo, minHeight, t); }
    else { ScanFindsOwn(h, owner, id, lo, minHeight); }
  }
}
