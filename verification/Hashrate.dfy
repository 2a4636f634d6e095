/** The two-minute hashrate window: a ring of 24 five-second buckets that agrees with the full log of
    shares to within one bucket. Times are clock readings in milliseconds. */
module Hashrate {
  const WINDOW: nat := 120_000
  const BUCKET: nat := 5_000
  const NUM_BUCKETS: nat := 24

  datatype Bucket = Bucket(start: nat, work: nat)

  datatype Share = Share(at: nat, work: nat)

  // ---------------------------------------------------------------- the simple form

  /** Every bucket ever opened, behind the sentinels the ring starts with. */
  function Buckets(epoch: nat, log: seq<Share>): (bs: seq<Bucket>)
    ensures |bs| > NUM_BUCKETS
  {
    if log == [] then seq(NUM_BUCKETS + 1, _ => Bucket(epoch, 0))
    else Observed(Buckets(epoch, log[..|log| - 1]), log[|log| - 1])
  }

  /** A share joins the last bucket while that is young enough, else opens a new one. */
  function Observed(bs: seq<Bucket>, s: Share): (bs': seq<Bucket>)
    requires |bs| > 0
    ensures |bs'| >= |bs|
  {
    var last := bs[|bs| - 1];
    if s.at < last.start + BUCKET then bs[|bs| - 1 := last.(work := last.work + s.work)]
    else bs + [Bucket(s.at, s.work)]
  }

  function Weight(b: Bucket, cutoff: nat): nat { if b.start >= cutoff then b.work else 0 }

  /** The work in buckets that started at or after the cutoff. */
  function WorkFrom(bs: seq<Bucket>, cutoff: nat): nat {
    if bs == [] then 0 else WorkFrom(bs[..|bs| - 1], cutoff) + Weight(bs[|bs| - 1], cutoff)
  }

  /** The work of shares at or after a time, straight from the log. */
  function LoggedSince(log: seq<Share>, since: nat): nat {
    if log == [] then 0
    else LoggedSince(log[..|log| - 1], since) + (if log[|log| - 1].at >= since then log[|log| - 1].work else 0)
  }

  ghost predicate Ordered(epoch: nat, log: seq<Share>) {
    && (forall i, j :: 0 <= i < j < |log| ==> log[i].at <= log[j].at)
    && (forall i :: 0 <= i < |log| ==> log[i].at >= epoch)
  }

  /** Bucket starts never pass the log, and real buckets are at least a bucket apart. */
  ghost predicate Spaced(epoch: nat, bs: seq<Bucket>, latest: nat) {
    && |bs| > NUM_BUCKETS && bs[|bs| - 1].start <= latest
    && (forall i :: 0 <= i < NUM_BUCKETS ==> bs[i].work == 0)
    && (forall i, j :: NUM_BUCKETS <= i <= j < |bs| ==> bs[i].start + BUCKET * (j - i) <= bs[j].start)
  }

  lemma {:induction false} BucketsSpaced(epoch: nat, log: seq<Share>)
    requires Ordered(epoch, log)
    ensures Spaced(epoch, Buckets(epoch, log), if log == [] then epoch else log[|log| - 1].at)
  {
    if log != [] {
      var init := log[..|log| - 1];
      BucketsSpaced(epoch, init);
      var bs, bs' := Buckets(epoch, init), Buckets(epoch, log);
      forall i, j | NUM_BUCKETS <= i <= j < |bs'| ensures bs'[i].start + BUCKET * (j - i) <= bs'[j].start {
        if j == |bs| && i < j { assert bs[i].start + BUCKET * (|bs| - 1 - i) <= bs[|bs| - 1].start; }
      }
    }
  }

  lemma {:induction false} WorkFromSplit(a: seq<Bucket>, b: seq<Bucket>, cutoff: nat)
    ensures WorkFrom(a + b, cutoff) == WorkFrom(a, cutoff) + WorkFrom(b, cutoff)
  {
    if b == [] {
      assert a + b == a;
    } else {
      WorkFromSplit(a, b[..|b| - 1], cutoff);
      assert (a + b)[..|a + b| - 1] == a + b[..|b| - 1];
    }
  }

  /** The start of the bucket a share ends up in. */
  function StartFor(bs: seq<Bucket>, s: Share): nat
    requires |bs| > 0
  {
    var last := bs[|bs| - 1];
    if s.at < last.start + BUCKET then last.start else s.at
  }

  lemma ObservedAdds(bs: seq<Bucket>, s: Share, cutoff: nat)
    requires |bs| > 0
    ensures WorkFrom(Observed(bs, s), cutoff) == WorkFrom(bs, cutoff) + (if StartFor(bs, s) >= cutoff then s.work else 0)
  {
    var last := bs[|bs| - 1];
    if s.at < last.start + BUCKET {
      assert Observed(bs, s)[..|bs| - 1] == bs[..|bs| - 1];
    } else {
      assert (bs + [Bucket(s.at, s.work)])[..|bs|] == bs;
    }
  }

  /** Bucketing displaces a share by less than one bucket, and never counts one twice or not at all. */
  lemma {:induction false} BucketsMatchLog(epoch: nat, log: seq<Share>, cutoff: nat)
    requires Ordered(epoch, log)
    ensures LoggedSince(log, cutoff + BUCKET - 1) <= WorkFrom(Buckets(epoch, log), cutoff) <= LoggedSince(log, cutoff)
  {
    if log == [] {
      NoWork(Buckets(epoch, log), cutoff);
    } else {
      var init, s := log[..|log| - 1], log[|log| - 1];
      BucketsMatchLog(epoch, init, cutoff);
      LastStart(epoch, log);
      ObservedAdds(Buckets(epoch, init), s, cutoff);
    }
  }

  lemma LastStart(epoch: nat, log: seq<Share>)
    requires Ordered(epoch, log) && log != []
    ensures var s := log[|log| - 1];
            var start := StartFor(Buckets(epoch, log[..|log| - 1]), s);
            start <= s.at < start + BUCKET
  {
    BucketsSpaced(epoch, log[..|log| - 1]);
  }

  lemma {:induction false} NoWork(bs: seq<Bucket>, cutoff: nat)
    requires forall i :: 0 <= i < |bs| ==> Weight(bs[i], cutoff) == 0
    ensures WorkFrom(bs, cutoff) == 0
  {
    if bs != [] { NoWork(bs[..|bs| - 1], cutoff); }
  }

  // ---------------------------------------------------------------- the ring

  /** The ring holds the last 24 buckets, each in the slot of its number. */
  ghost predicate RingOf(ring: seq<Bucket>, head: nat, bs: seq<Bucket>) {
    && |ring| == NUM_BUCKETS < |bs| && head == (|bs| - 1) % NUM_BUCKETS
    && forall i :: |bs| - NUM_BUCKETS <= i < |bs| ==> ring[i % NUM_BUCKETS] == bs[i]
  }

  /** The sum of `n` slots from a given one on, around the ring. */
  function Around(ring: seq<Bucket>, start: nat, n: nat, cutoff: nat): nat
    requires |ring| == NUM_BUCKETS
  {
    if n == 0 then 0 else Around(ring, start, n - 1, cutoff) + Weight(ring[(start + n - 1) % NUM_BUCKETS], cutoff)
  }

  /** A full turn sums to the same wherever it starts. */
  lemma {:induction false} FullTurn(ring: seq<Bucket>, start: nat, cutoff: nat)
    requires |ring| == NUM_BUCKETS
    ensures Around(ring, start, NUM_BUCKETS, cutoff) == Around(ring, 0, NUM_BUCKETS, cutoff)
  {
    if start > 0 {
      AroundShift(ring, start - 1, NUM_BUCKETS, cutoff);
      FullTurn(ring, start - 1, cutoff);
      assert (start - 1 + NUM_BUCKETS) % NUM_BUCKETS == (start - 1) % NUM_BUCKETS;
    }
  }

  lemma {:induction false} AroundShift(ring: seq<Bucket>, start: nat, n: nat, cutoff: nat)
    requires |ring| == NUM_BUCKETS
    ensures Around(ring, start, n, cutoff) + Weight(ring[(start + n) % NUM_BUCKETS], cutoff) ==
            Weight(ring[start % NUM_BUCKETS], cutoff) + Around(ring, start + 1, n, cutoff)
  {
    if n > 0 { AroundShift(ring, start, n - 1, cutoff); }
  }

  lemma {:induction false} AroundIsTail(ring: seq<Bucket>, head: nat, bs: seq<Bucket>, n: nat, cutoff: nat)
    requires RingOf(ring, head, bs) && n <= NUM_BUCKETS
    ensures var lo := |bs| - NUM_BUCKETS; Around(ring, lo, n, cutoff) == WorkFrom(bs[lo..lo + n], cutoff)
  {
    if n > 0 {
      var lo := |bs| - NUM_BUCKETS;
      AroundIsTail(ring, head, bs, n - 1, cutoff);
      assert bs[lo..lo + n][..n - 1] == bs[lo..lo + n - 1];
    }
  }

  /** Summing the slots in array order is summing the last 24 buckets. */
  lemma RingIsTail(ring: seq<Bucket>, head: nat, bs: seq<Bucket>, cutoff: nat)
    requires RingOf(ring, head, bs)
    ensures Around(ring, 0, NUM_BUCKETS, cutoff) == WorkFrom(bs[|bs| - NUM_BUCKETS..], cutoff)
  {
    var lo := |bs| - NUM_BUCKETS;
    FullTurn(ring, lo, cutoff);
    AroundIsTail(ring, head, bs, NUM_BUCKETS, cutoff);
    assert bs[lo..lo + NUM_BUCKETS] == bs[lo..];
  }

  /** Slots that were overwritten started a full window before the newest bucket, so the ring's sum
      lies between that of all buckets after the cutoff and that of all buckets at or after it. */
  lemma RingSum(epoch: nat, ring: seq<Bucket>, head: nat, bs: seq<Bucket>, now: nat)
    requires RingOf(ring, head, bs) && Spaced(epoch, bs, now) && now >= WINDOW
    ensures var total, cutoff := Around(ring, 0, NUM_BUCKETS, now - WINDOW), now - WINDOW;
            WorkFrom(bs, cutoff + 1) <= total <= WorkFrom(bs, cutoff)
  {
    var cutoff := now - WINDOW;
    RingIsTail(ring, head, bs, cutoff);
    OverwrittenIsOld(epoch, bs, now);
    TailSum(bs, |bs| - NUM_BUCKETS, cutoff);
  }

  lemma TailSum(bs: seq<Bucket>, lo: nat, cutoff: nat)
    requires lo <= |bs| && WorkFrom(bs[..lo], cutoff + 1) == 0
    ensures WorkFrom(bs, cutoff + 1) <= WorkFrom(bs[lo..], cutoff) <= WorkFrom(bs, cutoff)
  {
    assert bs[..lo] + bs[lo..] == bs;
    WorkFromSplit(bs[..lo], bs[lo..], cutoff);
    WorkFromSplit(bs[..lo], bs[lo..], cutoff + 1);
    WorkFromAntitone(bs[lo..], cutoff);
  }

  lemma OverwrittenIsOld(epoch: nat, bs: seq<Bucket>, now: nat)
    requires Spaced(epoch, bs, now) && now >= WINDOW
    ensures WorkFrom(bs[..|bs| - NUM_BUCKETS], now - WINDOW + 1) == 0
  {
    var old', n := bs[..|bs| - NUM_BUCKETS], |bs| - 1;
    forall i | 0 <= i < |old'| ensures Weight(old'[i], now - WINDOW + 1) == 0 {
      if i >= NUM_BUCKETS { assert bs[i].start + BUCKET * (n - i) <= bs[n].start; }
    }
    NoWork(old', now - WINDOW + 1);
  }

  lemma {:induction false} WorkFromAntitone(bs: seq<Bucket>, cutoff: nat)
    ensures WorkFrom(bs, cutoff + 1) <= WorkFrom(bs, cutoff)
  {
    if bs != [] { WorkFromAntitone(bs[..|bs| - 1], cutoff); }
  }

  /** Writing the head slot is joining the last bucket. */
  lemma RingJoin(ring: seq<Bucket>, head: nat, bs: seq<Bucket>, b: Bucket)
    requires RingOf(ring, head, bs)
    ensures ring[head] == bs[|bs| - 1] && RingOf(ring[head := b], head, bs[|bs| - 1 := b])
  {
    var n := |bs|;
    assert ring[(n - 1) % NUM_BUCKETS] == bs[n - 1];
    forall i | n - NUM_BUCKETS <= i < n ensures ring[head := b][i % NUM_BUCKETS] == bs[n - 1 := b][i] {
      assert ring[i % NUM_BUCKETS] == bs[i];
      if i < n - 1 { NotCongruent(i, n - 1); }
    }
  }

  /** Writing the slot after the head is opening a bucket, over the oldest one. */
  lemma RingRoll(ring: seq<Bucket>, head: nat, bs: seq<Bucket>, b: Bucket)
    requires RingOf(ring, head, bs)
    ensures var next := (head + 1) % NUM_BUCKETS; RingOf(ring[next := b], next, bs + [b])
  {
    var n, next := |bs|, (head + 1) % NUM_BUCKETS;
    assert next == n % NUM_BUCKETS;
    forall i | n + 1 - NUM_BUCKETS <= i < n + 1 ensures ring[next := b][i % NUM_BUCKETS] == (bs + [b])[i] {
      if i < n {
        assert ring[i % NUM_BUCKETS] == bs[i];
        NotCongruent(i, n);
      }
    }
  }

  lemma NotCongruent(i: nat, n: nat)
    requires i < n < i + NUM_BUCKETS
    ensures i % NUM_BUCKETS != n % NUM_BUCKETS
  {
  }

  /** What the ring reports lies between the last 115 and the last 120 seconds of the log. */
  lemma RingMatchesLog(epoch: nat, log: seq<Share>, ring: seq<Bucket>, head: nat, now: nat)
    requires RingOf(ring, head, Buckets(epoch, log)) && Ordered(epoch, log) && now >= WINDOW
    requires now >= epoch && (log != [] ==> now >= log[|log| - 1].at)
    ensures LoggedSince(log, now - WINDOW + BUCKET) <= Around(ring, 0, NUM_BUCKETS, now - WINDOW) <= LoggedSince(log, now - WINDOW)
  {
    BucketsSpaced(epoch, log);
    RingSum(epoch, ring, head, Buckets(epoch, log), now);
    BucketsMatchLog(epoch, log, now - WINDOW);
    BucketsMatchLog(epoch, log, now - WINDOW + 1);
  }

  lemma BucketsThen(epoch: nat, log: seq<Share>, s: Share)
    ensures Buckets(epoch, log + [s]) == Observed(Buckets(epoch, log), s)
  {
    assert (log + [s])[..|log|] == log;
  }

  class WindowedHashrate {
    const buckets: array<Bucket>
    var head: nat
    /** When the window was set up, less a window; and every share observed since. */
    ghost const epoch: nat
    ghost var log: seq<Share>

    ghost predicate Valid()
      reads this, buckets
    {
      buckets.Length == NUM_BUCKETS && RingOf(buckets[..], head, Buckets(epoch, log))
    }

    constructor (now: nat)
      requires now >= WINDOW
      ensures Valid() && fresh(buckets) && epoch == now - WINDOW && log == []
    {
      var e := now - WINDOW;
      buckets := new Bucket[NUM_BUCKETS](_ => Bucket(e, 0));
      head, epoch, log := 0, e, [];
    }

    method Observe(work: nat, now: nat)
      requires Valid()
      modifies this, buckets
      ensures Valid() && log == old(log) + [Share(now, work)]
    {
      ghost var ring, s := buckets[..], Share(now, work);
      ghost var bs := Buckets(epoch, log);
      BucketsThen(epoch, log, s);
      var h := buckets[head];
      RingJoin(ring, head, bs, Bucket(h.start, h.work + work));
      if now < h.start + BUCKET {
        buckets[head] := Bucket(h.start, h.work + work);
        assert buckets[..] == ring[head := Bucket(h.start, h.work + work)];
      } else {
        RingRoll(ring, head, bs, Bucket(now, work));
        head := (head + 1) % NUM_BUCKETS;
        buckets[head] := Bucket(now, work);
        assert buckets[..] == ring[head := Bucket(now, work)];
      }
      log := log + [s];
    }

    /** The rate over the window, read from the ring alone: it counts every share of the last 115
        seconds and none older than 120. */
    method Read(now: nat) returns (rate: real, total: nat)
      requires Valid() && Ordered(epoch, log) && (log != [] ==> now >= log[|log| - 1].at) && now >= epoch
      ensures rate == total as real / 120.0
      ensures now < WINDOW ==> total == 0
      ensures now >= WINDOW ==> LoggedSince(log, now - WINDOW + BUCKET) <= total <= LoggedSince(log, now - WINDOW)
    {
      total := 0;
      if now < WINDOW { return 0.0, 0; }
      var cutoff := now - WINDOW;
      for k := 0 to NUM_BUCKETS
        invariant total == Around(buckets[..], 0, k, cutoff)
      {
        if buckets[k].start >= cutoff { total := total + buckets[k].work; }
      }
      rate := total as real / 120.0;
      RingMatchesLog(epoch, log, buckets[..], head, now);
    }
  }
}
