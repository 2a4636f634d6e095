/** Deciding by quorum over an unordered set of votes: the network difficulty from monerod samples,
    and the confirmed block of the RPC committee. Outcomes are specified on the multiset of votes, so
    that neither the order in which votes arrive nor the order in which a hash map is walked matters. */
module Quorum {
  import opened Prelude

  // ---------------------------------------------------------------- counting

  /** The members of a committee that cast the vote `v`. */
  ghost function Voters<T(!new)>(votes: seq<T>, v: T): set<nat> {
    set i: nat | i < |votes| && votes[i] == v
  }

  lemma {:induction false} CountIsVoters<T(!new)>(votes: seq<T>, v: T)
    ensures multiset(votes)[v] == |Voters(votes, v)|
  {
    if votes != [] {
      var n := |votes| - 1;
      CountIsVoters(votes[..n], v);
      assert votes == votes[..n] + [votes[n]];
      assert Voters(votes, v) == Voters(votes[..n], v) + if votes[n] == v then {n} else {};
    }
  }

  lemma {:induction false} Contained<T>(a: set<T>, b: set<T>)
    requires a <= b
    ensures |a| <= |b|
  {
    if a != {} {
      var x :| x in a;
      Contained(a - {x}, b - {x});
    }
  }

  /** With fewer liars than the quorum, whatever a quorum backs was said by an honest member. */
  lemma BackedByHonest<T(!new)>(votes: seq<T>, liars: set<nat>, quorum: nat, v: T)
    requires |liars| < quorum <= multiset(votes)[v]
    ensures exists i: nat :: i < |votes| && i !in liars && votes[i] == v
  {
    CountIsVoters(votes, v);
    if Voters(votes, v) <= liars {
      Contained(Voters(votes, v), liars);
    } else {
      var i :| i in Voters(votes, v) && i !in liars;
      assert votes[i] == v;
    }
  }

  method CountVotes<T(==, !new)>(votes: seq<T>) returns (counts: map<T, nat>)
    ensures forall v :: v in counts <==> v in votes
    ensures forall v :: v in counts ==> counts[v] == multiset(votes)[v]
  {
    counts := map[];
    for i := 0 to |votes|
      invariant forall v :: v in counts <==> v in votes[..i]
      invariant forall v :: v in counts ==> counts[v] == multiset(votes[..i])[v]
    {
      assert votes[..i + 1] == votes[..i] + [votes[i]];
      counts := counts[votes[i] := (if votes[i] in counts then counts[votes[i]] else 0) + 1];
    }
    assert votes[..|votes|] == votes;
  }

  // ---------------------------------------------------------------- sorting

  ghost predicate Descending(s: seq<nat>) {
    forall i, j :: 0 <= i < j < |s| ==> s[i] >= s[j]
  }

  method Insert(s: seq<nat>, x: nat) returns (r: seq<nat>)
    requires Descending(s)
    ensures Descending(r) && multiset(r) == multiset(s) + multiset{x}
  {
    var k := 0;
    while k < |s| && s[k] >= x
      invariant k <= |s| && forall i :: 0 <= i < k ==> s[i] >= x
    {
      k := k + 1;
    }
    InsertDescends(s, k, x);
    InsertAdds(s, k, x);
    r := s[..k] + [x] + s[k..];
  }

  lemma InsertDescends(s: seq<nat>, k: nat, x: nat)
    requires Descending(s) && k <= |s| && (forall i :: 0 <= i < k ==> s[i] >= x) && (k < |s| ==> s[k] < x)
    ensures Descending(s[..k] + [x] + s[k..])
  {
    var r := s[..k] + [x] + s[k..];
    forall i, j | 0 <= i < j < |r| ensures r[i] >= r[j] {
      assert r[i] == if i < k then s[i] else if i == k then x else s[i - 1];
      assert r[j] == if j < k then s[j] else if j == k then x else s[j - 1];
    }
  }

  lemma InsertAdds(s: seq<nat>, k: nat, x: nat)
    requires k <= |s|
    ensures multiset(s[..k] + [x] + s[k..]) == multiset(s) + multiset{x}
  {
    assert s == s[..k] + s[k..];
  }

  method SortDescending(s: seq<nat>) returns (r: seq<nat>)
    ensures Descending(r) && multiset(r) == multiset(s)
  {
    r := [];
    for i := 0 to |s|
      invariant Descending(r) && multiset(r) == multiset(s[..i])
    {
      assert s[..i + 1] == s[..i] + [s[i]];
      r := Insert(r, s[i]);
    }
    assert s[..|s|] == s;
  }

  // ---------------------------------------------------------------- the difficulty quorum

  datatype Sample = Sample(height: nat, difficulty: nat)

  datatype Verdict = Difficulty(value: nat) | NoSamples | Ambiguous(height: nat) | NoQuorum

  ghost predicate Backed(votes: multiset<Sample>, quorum: nat, h: nat, d: nat) {
    Sample(h, d) in votes && votes[Sample(h, d)] >= quorum
  }

  ghost predicate NoneBackedAt(votes: multiset<Sample>, quorum: nat, h: nat) {
    forall d :: !Backed(votes, quorum, h, d)
  }

  ghost predicate NoneBackedAbove(votes: multiset<Sample>, quorum: nat, h: nat) {
    forall g, d :: g > h ==> !Backed(votes, quorum, g, d)
  }

  ghost predicate OnlyBackedAt(votes: multiset<Sample>, quorum: nat, h: nat, d: nat) {
    && Backed(votes, quorum, h, d)
    && NoneBackedAbove(votes, quorum, h)
    && forall e :: Backed(votes, quorum, h, e) ==> e == d
  }

  /** What the pool should conclude from `votes`: the one backed difficulty at the highest height
      that has a backed difficulty at all. */
  ghost predicate Decided(votes: multiset<Sample>, quorum: nat, v: Verdict) {
    match v
    case Difficulty(d) => exists h :: OnlyBackedAt(votes, quorum, h, d)
    case NoSamples => votes == multiset{}
    case Ambiguous(h) =>
      && NoneBackedAbove(votes, quorum, h)
      && exists d, e :: d != e && Backed(votes, quorum, h, d) && Backed(votes, quorum, h, e)
    case NoQuorum => votes != multiset{} && forall h, d :: !Backed(votes, quorum, h, d)
  }

  /** At most one verdict fits a multiset of votes, so `DecideQuorum` depends on nothing else. */
  lemma VerdictUnique(votes: multiset<Sample>, quorum: nat, v: Verdict, w: Verdict)
    requires Decided(votes, quorum, v) && Decided(votes, quorum, w)
    ensures v == w
  {
    if v.Difficulty? && w.Difficulty? {
      var h :| OnlyBackedAt(votes, quorum, h, v.value);
      var g :| OnlyBackedAt(votes, quorum, g, w.value);
      assert Backed(votes, quorum, h, v.value) && Backed(votes, quorum, g, w.value);
    }
  }

  /** With fewer than `quorum` lying nodes, the answer is a sample of an honest node. */
  lemma AnswerIsHonest(samples: seq<Sample>, liars: set<nat>, quorum: nat, d: nat)
    requires |liars| < quorum && Decided(multiset(samples), quorum, Difficulty(d))
    ensures exists i: nat :: i < |samples| && i !in liars && samples[i].difficulty == d
  {
    var h :| OnlyBackedAt(multiset(samples), quorum, h, d);
    BackedByHonest(samples, liars, quorum, Sample(h, d));
  }

  /** Honest nodes on one chain give one difficulty per height. */
  ghost predicate OneChain(samples: seq<Sample>, liars: set<nat>) {
    forall i: nat, j: nat :: i < |samples| && j < |samples| && i !in liars && j !in liars && samples[i].height == samples[j].height
      ==> samples[i].difficulty == samples[j].difficulty
  }

  /** Fewer than `quorum` liars cannot make honest nodes on one chain look split. */
  lemma NeverAmbiguous(samples: seq<Sample>, liars: set<nat>, quorum: nat, v: Verdict)
    requires |liars| < quorum && OneChain(samples, liars) && Decided(multiset(samples), quorum, v)
    ensures !v.Ambiguous?
  {
    if v.Ambiguous? {
      var d, e :| d != e && Backed(multiset(samples), quorum, v.height, d) && Backed(multiset(samples), quorum, v.height, e);
      BackedByHonest(samples, liars, quorum, Sample(v.height, d));
      BackedByHonest(samples, liars, quorum, Sample(v.height, e));
    }
  }

  /** ... nor keep a quorum of honest nodes that agree from being heard. */
  lemma AgreeingHonestDecide(samples: seq<Sample>, liars: set<nat>, quorum: nat, p: Sample, v: Verdict)
    requires |liars| < quorum <= multiset(samples)[p]
    requires forall i: nat :: i < |samples| && i !in liars ==> samples[i] == p
    requires Decided(multiset(samples), quorum, v)
    ensures v == Difficulty(p.difficulty)
  {
    var votes := multiset(samples);
    assert Backed(votes, quorum, p.height, p.difficulty);
    forall g, d | Backed(votes, quorum, g, d) ensures Sample(g, d) == p {
      BackedByHonest(samples, liars, quorum, Sample(g, d));
    }
    assert OnlyBackedAt(votes, quorum, p.height, p.difficulty);
    VerdictUnique(votes, quorum, v, Difficulty(p.difficulty));
  }

  /** The bound is exact: `quorum` liars above every honest height dictate the answer. */
  lemma QuorumOfLiarsDictates(honest: multiset<Sample>, quorum: nat, lie: Sample)
    requires quorum >= 1 && forall s :: s in honest ==> s.height < lie.height
    ensures Decided(honest + multiset{}[lie := quorum], quorum, Difficulty(lie.difficulty))
  {
    var votes := honest + multiset{}[lie := quorum];
    assert forall s :: s in votes ==> s in honest || s == lie;
    assert OnlyBackedAt(votes, quorum, lie.height, lie.difficulty);
  }

  type Buckets = map<nat, seq<(Sample, nat)>>

  ghost predicate Grouped(groups: Buckets, counts: map<Sample, nat>, taken: set<Sample>)
    requires taken <= counts.Keys
  {
    && (forall p :: p in taken ==> p.height in groups && (p, counts[p]) in groups[p.height])
    && (forall h, j :: h in groups && 0 <= j < |groups[h]| ==> InBucket(groups[h][j], counts, taken, h))
    && (forall h :: h in groups ==> Apart(groups[h]))
  }

  ghost predicate InBucket(e: (Sample, nat), counts: map<Sample, nat>, taken: set<Sample>, h: nat)
    requires taken <= counts.Keys
  {
    e.0 in taken && e.0.height == h && e.1 == counts[e.0]
  }

  ghost predicate Apart(bucket: seq<(Sample, nat)>) {
    forall i, j :: 0 <= i < j < |bucket| ==> bucket[i].0 != bucket[j].0
  }

  method GroupByHeight(counts: map<Sample, nat>) returns (groups: Buckets)
    ensures Grouped(groups, counts, counts.Keys)
  {
    groups := map[];
    var rest := counts.Keys;
    while rest != {}
      invariant rest <= counts.Keys && Grouped(groups, counts, counts.Keys - rest)
    {
      var p :| p in rest;
      ghost var taken := counts.Keys - rest;
      var bucket := (if p.height in groups then groups[p.height] else []) + [(p, counts[p])];
      assert Apart(bucket);
      groups := groups[p.height := bucket];
      rest := rest - {p};
      assert counts.Keys - rest == taken + {p};
    }
    assert counts.Keys - rest == counts.Keys;
  }

  method QuorumDiffs(bucket: seq<(Sample, nat)>, quorum: nat, h: nat) returns (diffs: seq<nat>)
    requires Apart(bucket) && forall e :: e in bucket ==> e.0.height == h
    ensures forall d :: d in diffs <==> exists n :: (Sample(h, d), n) in bucket && n >= quorum
    ensures forall i, j :: 0 <= i < j < |diffs| ==> diffs[i] != diffs[j]
  {
    diffs := [];
    for k := 0 to |bucket|
      invariant forall d :: d in diffs <==> exists n :: (Sample(h, d), n) in bucket[..k] && n >= quorum
      invariant forall i, j :: 0 <= i < j < |diffs| ==> diffs[i] != diffs[j]
    {
      var e := bucket[k];
      assert bucket[..k + 1] == bucket[..k] + [e];
      assert e == (Sample(h, e.0.difficulty), e.1);
      if e.1 >= quorum {
        diffs := diffs + [e.0.difficulty];
      }
    }
    assert bucket[..|bucket|] == bucket;
  }

  /** The keys of a map, in whatever order the map is walked. */
  method Listed(keys: set<nat>) returns (s: seq<nat>)
    ensures forall k :: k in s <==> k in keys
  {
    s := [];
    var rest := keys;
    while rest != {}
      invariant rest <= keys && forall k :: k in s <==> k in keys - rest
    {
      var k :| k in rest;
      s := s + [k];
      rest := rest - {k};
    }
  }

  ghost predicate Counts(counts: map<Sample, nat>, votes: multiset<Sample>) {
    && (forall p :: p in counts <==> p in votes)
    && (forall p :: p in counts ==> counts[p] == votes[p])
  }

  /** A bucket entry that meets the quorum is a backed difficulty, and each backed one is there. */
  lemma BucketMeans(groups: Buckets, counts: map<Sample, nat>, votes: multiset<Sample>, quorum: nat, h: nat, d: nat)
    requires Grouped(groups, counts, counts.Keys) && Counts(counts, votes)
    ensures Backed(votes, quorum, h, d)
       <==> h in groups && exists n :: (Sample(h, d), n) in groups[h] && n >= quorum
  {
    var p := Sample(h, d);
    if Backed(votes, quorum, h, d) {
      assert p in counts.Keys && (p, counts[p]) in groups[h];
    } else if h in groups {
      forall n | (p, n) in groups[h] ensures n < quorum {
        var j :| 0 <= j < |groups[h]| && groups[h][j] == (p, n);
        assert InBucket(groups[h][j], counts, counts.Keys, h);
      }
    }
  }

  method DecideQuorum(samples: seq<Sample>, quorum: nat) returns (v: Verdict)
    ensures Decided(multiset(samples), quorum, v)
  {
    if |samples| == 0 {
      return NoSamples;
    }
    var counts := CountVotes(samples);
    var groups := GroupByHeight(counts);
    var keys := Listed(groups.Keys);
    var heights := SortDescending(keys);
    ghost var votes := multiset(samples);
    SameMembers(heights, keys);
    assert samples[0] in votes;
    v := Scan(groups, heights, quorum, counts, votes);
  }

  lemma SameMembers(a: seq<nat>, b: seq<nat>)
    requires multiset(a) == multiset(b)
    ensures forall x :: x in a <==> x in b
  {
    forall x ensures x in a <==> x in b {
      assert x in a <==> x in multiset(a);
      assert x in b <==> x in multiset(b);
    }
  }

  /** The loop over the heights, highest first. */
  method Scan(groups: Buckets, heights: seq<nat>, quorum: nat, ghost counts: map<Sample, nat>, ghost votes: multiset<Sample>)
    returns (v: Verdict)
    requires Grouped(groups, counts, counts.Keys) && Counts(counts, votes) && votes != multiset{}
    requires Descending(heights) && forall h :: h in heights <==> h in groups
    ensures Decided(votes, quorum, v)
  {
    for i := 0 to |heights|
      invariant forall k :: 0 <= k < i ==> NoneBackedAt(votes, quorum, heights[k])
    {
      var h := heights[i];
      var diffs := QuorumDiffs(groups[h], quorum, h);
      forall d ensures d in diffs <==> Backed(votes, quorum, h, d) {
        BucketMeans(groups, counts, votes, quorum, h, d);
      }
      NothingHigher(groups, counts, votes, quorum, heights, i);
      if |diffs| == 1 {
        assert diffs[0] in diffs && OnlyBackedAt(votes, quorum, h, diffs[0]);
        return Difficulty(diffs[0]);
      }
      if |diffs| > 1 {
        assert diffs[0] in diffs && diffs[1] in diffs;
        return Ambiguous(h);
      }
    }
    forall h, d ensures !Backed(votes, quorum, h, d) {
      BucketMeans(groups, counts, votes, quorum, h, d);
      assert h in groups ==> exists k :: 0 <= k < |heights| && heights[k] == h && NoneBackedAt(votes, quorum, heights[k]);
    }
    v := NoQuorum;
  }

  lemma NothingHigher(groups: Buckets, counts: map<Sample, nat>, votes: multiset<Sample>, quorum: nat, heights: seq<nat>, i: nat)
    requires Grouped(groups, counts, counts.Keys) && Counts(counts, votes)
    requires Descending(heights) && (forall h :: h in heights <==> h in groups) && i < |heights|
    requires forall k :: 0 <= k < i ==> NoneBackedAt(votes, quorum, heights[k])
    ensures NoneBackedAbove(votes, quorum, heights[i])
  {
    forall g, d | Backed(votes, quorum, g, d) ensures g <= heights[i] {
      BucketMeans(groups, counts, votes, quorum, g, d);
      var k :| 0 <= k < |heights| && heights[k] == g;
    }
  }

  // ---------------------------------------------------------------- the committee

  /** `n` members returned the hash `h`, that is a quorum, and no hash was returned more often. */
  ghost predicate Agreed(votes: multiset<nat>, quorum: nat, h: nat, n: nat) {
    h in votes && votes[h] == n >= quorum && forall g :: g in votes ==> votes[g] <= n
  }

  method QuorumHash(votes: seq<nat>, quorum: nat) returns (r: Option<(nat, nat)>)
    ensures r.Some? ==> Agreed(multiset(votes), quorum, r.value.0, r.value.1)
    ensures r.None? ==> forall h :: h in votes ==> multiset(votes)[h] < quorum
  {
    var counts := CountVotes(votes);
    var rest := counts.Keys;
    r := None;
    while rest != {}
      invariant rest <= counts.Keys
      invariant r.None? ==> rest == counts.Keys
      invariant r.Some? ==> r.value.0 in counts && counts[r.value.0] == r.value.1
      invariant r.Some? ==> forall h :: h in counts.Keys - rest ==> counts[h] <= r.value.1
    {
      var h :| h in rest;
      rest := rest - {h};
      if r.None? || counts[h] >= r.value.1 {
        r := Some((h, counts[h]));
      }
    }
    if r.Some? && r.value.1 < quorum {
      r := None;
    }
  }

  /** When two quorums do not fit into the votes, they single out at most one hash and one count:
      neither the order of the votes nor the order of the map's walk shows. */
  lemma AgreedUnique(votes: multiset<nat>, quorum: nat, h: nat, n: nat, g: nat, m: nat)
    requires 2 * quorum > |votes| && Agreed(votes, quorum, h, n) && Agreed(votes, quorum, g, m)
    ensures h == g && n == m
  {
    if h != g { TwoFit(votes, h, g); }
  }

  lemma TwoFit(votes: multiset<nat>, h: nat, g: nat)
    requires h != g
    ensures votes[h] + votes[g] <= |votes|
  {
    var both := multiset{}[h := votes[h]][g := votes[g]];
    assert both <= votes;
    assert |votes| == |votes - both| + |both|;
  }

  /** Otherwise they need not: for every such committee some votes leave two answers. */
  lemma TieWithin(n: nat, quorum: nat) returns (votes: multiset<nat>, h: nat, g: nat)
    requires 1 <= quorum && 2 * quorum <= n
    ensures |votes| == n && h != g && Agreed(votes, quorum, h, n / 2) && Agreed(votes, quorum, g, n / 2)
  {
    h, g := 1, 2;
    votes := multiset{}[h := n / 2][g := n / 2][3 := n % 2];
  }

  /** How many of the reported heights are `t` or more. */
  function AtLeast(tips: seq<nat>, t: nat): nat {
    if tips == [] then 0 else (if tips[0] >= t then 1 else 0) + AtLeast(tips[1..], t)
  }

  lemma {:induction false} AtLeastSplit(a: seq<nat>, b: seq<nat>, t: nat)
    ensures AtLeast(a + b, t) == AtLeast(a, t) + AtLeast(b, t)
  {
    if a == [] {
      assert a + b == b;
    } else {
      assert (a + b)[1..] == a[1..] + b;
      AtLeastSplit(a[1..], b, t);
    }
  }

  lemma {:induction false} AtLeastPermuted(a: seq<nat>, b: seq<nat>, t: nat)
    requires multiset(a) == multiset(b)
    ensures AtLeast(a, t) == AtLeast(b, t)
  {
    if a == [] {
      assert |multiset(b)| == 0;
    } else {
      assert a[0] in multiset(b);
      var i :| 0 <= i < |b| && b[i] == a[0];
      assert a == [a[0]] + a[1..];
      assert b == b[..i] + ([b[i]] + b[i + 1..]);
      assert multiset(a[1..]) == multiset(b[..i] + b[i + 1..]) by { SameRest(a, b, i); }
      AtLeastPermuted(a[1..], b[..i] + b[i + 1..], t);
      AtLeastSplit(b[..i], b[i + 1..], t);
      AtLeastSplit(b[..i], [b[i]] + b[i + 1..], t);
      AtLeastSplit([b[i]], b[i + 1..], t);
    }
  }

  lemma SameRest(a: seq<nat>, b: seq<nat>, i: nat)
    requires multiset(a) == multiset(b) && a != [] && i < |b| && b[i] == a[0]
    ensures multiset(a[1..]) == multiset(b[..i] + b[i + 1..])
  {
    assert a == [a[0]] + a[1..];
    assert b == b[..i] + [b[i]] + b[i + 1..];
    assert multiset(a[1..]) == multiset(a) - multiset{a[0]};
    assert multiset(b[..i] + b[i + 1..]) == multiset(b) - multiset{b[i]};
  }

  lemma {:induction false} AtLeastAll(s: seq<nat>, t: nat)
    requires forall i :: 0 <= i < |s| ==> s[i] >= t
    ensures AtLeast(s, t) == |s|
  {
    if s != [] { AtLeastAll(s[1..], t); }
  }

  lemma {:induction false} AtLeastNone(s: seq<nat>, t: nat)
    requires forall i :: 0 <= i < |s| ==> s[i] < t
    ensures AtLeast(s, t) == 0
  {
    if s != [] { AtLeastNone(s[1..], t); }
  }

  lemma {:induction false} AtLeastBounded(s: seq<nat>, t: nat)
    ensures AtLeast(s, t) <= |s|
  {
    if s != [] { AtLeastBounded(s[1..], t); }
  }

  /** In descending order the `quorum`-th entry is the threshold: `quorum` members reach `t` if and
      only if it does. */
  lemma ThresholdEntry(s: seq<nat>, quorum: nat, t: nat)
    requires Descending(s) && 1 <= quorum <= |s|
    ensures AtLeast(s, t) >= quorum <==> s[quorum - 1] >= t
  {
    var k := if s[quorum - 1] >= t then quorum else quorum - 1;
    assert s == s[..k] + s[k..];
    AtLeastSplit(s[..k], s[k..], t);
    if s[quorum - 1] >= t {
      AtLeastAll(s[..k], t);
    } else {
      AtLeastBounded(s[..k], t);
      AtLeastNone(s[k..], t);
    }
  }

  /** `None` exactly when fewer than `quorum` members answered; otherwise the largest height that at
      least `quorum` of them reach. A quorum of zero is refused: the source would index below zero. */
  method QuorumTip(tips: seq<nat>, quorum: nat) returns (r: Option<nat>)
    requires quorum >= 1
    ensures r.None? <==> |tips| < quorum
    ensures r.Some? ==> r.value in tips && forall t: nat :: AtLeast(tips, t) >= quorum <==> t <= r.value
  {
    if |tips| < quorum {
      return None;
    }
    var s := SortDescending(tips);
    assert |s| == |multiset(s)| == |tips|;
    forall t: nat ensures AtLeast(tips, t) >= quorum <==> s[quorum - 1] >= t {
      AtLeastPermuted(tips, s, t);
      ThresholdEntry(s, quorum, t);
    }
    SameMembers(s, tips);
    assert s[quorum - 1] in s;
    r := Some(s[quorum - 1]);
  }

  // One member's answers: its tip, the height it holds final, and its hash of the block asked for.
  datatype Vote = Vote(tip: Option<nat>, final: Option<nat>, hash: Option<nat>)

  datatype Confirmed = Confirmed(hash: nat, tip: nat, confirmations: nat, quorum: nat, final: nat)

  datatype Refusal = NoTip | Unconfirmed | NoFinal | NotFinal | NoHash

  datatype Answer = Yes(block: Confirmed) | No(why: Refusal)

  function Given(xs: seq<Option<nat>>): seq<nat> {
    if xs == [] then [] else (match xs[0] case Some(x) => [x] case None => []) + Given(xs[1..])
  }

  function Tips(votes: seq<Vote>): seq<nat> { Given(seq(|votes|, i requires 0 <= i < |votes| => votes[i].tip)) }

  function Finals(votes: seq<Vote>): seq<nat> { Given(seq(|votes|, i requires 0 <= i < |votes| => votes[i].final)) }

  function HashAnswers(votes: seq<Vote>): seq<Option<nat>> { seq(|votes|, i requires 0 <= i < |votes| => votes[i].hash) }

  function Hashes(votes: seq<Vote>): seq<nat> { Given(HashAnswers(votes)) }

  lemma {:induction false} GivenCounts(xs: seq<Option<nat>>, x: nat)
    ensures multiset(Given(xs))[x] == multiset(xs)[Some(x)]
  {
    if xs != [] {
      GivenCounts(xs[1..], x);
      assert multiset(xs) == multiset{xs[0]} + multiset(xs[1..]) by { assert xs == [xs[0]] + xs[1..]; }
      var rest := Given(xs[1..]);
      if xs[0].Some? {
        assert multiset(Given(xs)) == multiset{xs[0].value} + multiset(rest);
      } else {
        assert Given(xs) == rest;
      }
    }
  }

  /** The committee vouches for the block: a quorum of tips is deep enough past it, a quorum holds it
      final where that is asked for, and a quorum agrees on its hash. */
  ghost predicate Vouched(votes: seq<Vote>, quorum: nat, block: nat, minConf: nat, mandateFinal: bool) {
    && AtLeast(Tips(votes), block + minConf) >= quorum
    && (mandateFinal ==> AtLeast(Finals(votes), block) >= quorum)
    && exists h :: multiset(Hashes(votes))[h] >= quorum
  }

  method FetchConfirmed(votes: seq<Vote>, quorum: nat, block: nat, minConf: nat, mandateFinal: bool) returns (r: Answer)
    requires quorum >= 1
    ensures r.Yes? <==> Vouched(votes, quorum, block, minConf, mandateFinal)
    ensures r.Yes? ==>
      && Agreed(multiset(Hashes(votes)), quorum, r.block.hash, r.block.quorum)
      && r.block.confirmations == r.block.tip - block >= minConf
      && (forall t: nat :: AtLeast(Tips(votes), t) >= quorum <==> t <= r.block.tip)
      && (mandateFinal ==> forall t: nat :: AtLeast(Finals(votes), t) >= quorum <==> t <= r.block.final)
    ensures r == No(NoTip) <==> |Tips(votes)| < quorum
    ensures r == No(Unconfirmed) <==> |Tips(votes)| >= quorum > AtLeast(Tips(votes), block + minConf)
    ensures r == No(NoFinal) <==>
      AtLeast(Tips(votes), block + minConf) >= quorum && mandateFinal && |Finals(votes)| < quorum
    ensures r == No(NotFinal) <==>
      && AtLeast(Tips(votes), block + minConf) >= quorum && mandateFinal
      && |Finals(votes)| >= quorum > AtLeast(Finals(votes), block)
  {
    AtLeastBounded(Tips(votes), block + minConf);
    AtLeastBounded(Finals(votes), block);
    var tip := QuorumTip(Tips(votes), quorum);
    if tip.None? { return No(NoTip); }
    if block + minConf > tip.value { return No(Unconfirmed); }
    var final := 0;
    if mandateFinal {
      var f := QuorumTip(Finals(votes), quorum);
      if f.None? { return No(NoFinal); }
      if f.value < block { return No(NotFinal); }
      final := f.value;
    }
    var agreed := QuorumHash(Hashes(votes), quorum);
    if agreed.None? { return No(NoHash); }
    r := Yes(Confirmed(agreed.value.0, tip.value, tip.value - block, agreed.value.1, final));
  }

  /** Fewer than `quorum` lying members: the confirmed hash is one an honest member returned. */
  lemma ConfirmedHashIsHonest(votes: seq<Vote>, liars: set<nat>, quorum: nat, h: nat, n: nat)
    requires |liars| < quorum && Agreed(multiset(Hashes(votes)), quorum, h, n)
    ensures exists i: nat :: i < |votes| && i !in liars && votes[i].hash == Some(h)
  {
    var answers := HashAnswers(votes);
    GivenCounts(answers, h);
    BackedByHonest<Option<nat>>(answers, liars, quorum, Some(h));
    var i: nat :| i < |answers| && i !in liars && answers[i] == Some(h);
    assert votes[i].hash == Some(h);
  }
}
