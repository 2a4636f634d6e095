/** The ring of recent jobs and the registry of accepted nonces: cross-session replay protection in
    bounded memory. Times are clock readings in any integer unit. */
module JobStore {
  import opened Prelude

  const RING_SIZE: nat := 32

  datatype Job = Job(id: string, blobHex: string, seedHex: string, upstreamDiff: nat, height: Option<nat>)

  /** `supersededAt` is unset while the job is current. */
  datatype JobEntry = JobEntry(job: Job, supersededAt: Option<int>, seen: set<string>)

  datatype Outcome = UnknownJob | Stale | Duplicate | Accepted(job: Job)

  function LowerChar(c: char): char {
    if 'A' <= c <= 'Z' then (c as int - 'A' as int + 'a' as int) as char else c
  }

  /** `to_ascii_lowercase`. */
  function Lower(s: string): string { seq(|s|, i requires 0 <= i < |s| => LowerChar(s[i])) }

  // ---------------------------------------------------------------- publishing

  function Supersede(e: JobEntry, now: int): JobEntry {
    if e.supersededAt.None? then e.(supersededAt := Some(now)) else e
  }

  /** The previous back is superseded, the job appended, and the oldest entries dropped. */
  function Publish(entries: seq<JobEntry>, job: Job, now: int): seq<JobEntry> {
    var n := |entries|;
    var marked := if n == 0 then [] else entries[..n - 1] + [Supersede(entries[n - 1], now)];
    var grown := marked + [JobEntry(job, None, {})];
    if |grown| > RING_SIZE then grown[|grown| - RING_SIZE..] else grown
  }

  // ---------------------------------------------------------------- submissions

  /** Index of the first entry with the id, or the length. */
  function Find(entries: seq<JobEntry>, id: string): (k: nat)
    ensures k <= |entries|
    ensures forall i :: 0 <= i < k ==> entries[i].job.id != id
    ensures k < |entries| ==> entries[k].job.id == id
  {
    if entries == [] then 0 else if entries[0].job.id == id then 0 else 1 + Find(entries[1..], id)
  }

  function CurrentHeight(entries: seq<JobEntry>): Option<nat> {
    if entries == [] then None else entries[|entries| - 1].job.height
  }

  /** Superseded and either past the grace window or behind the current height. */
  predicate IsStale(e: JobEntry, current: Option<nat>, now: int, grace: nat) {
    && e.supersededAt.Some?
    && (Max(now - e.supersededAt.value, 0) > grace ||
        (e.job.height.Some? && current.Some? && e.job.height.value < current.value))
  }

  function Record(entries: seq<JobEntry>, id: string, nonce: string, now: int, grace: nat): (r: (seq<JobEntry>, Outcome)) {
    var k := Find(entries, id);
    if k == |entries| then (entries, UnknownJob)
    else
      var e := entries[k];
      if IsStale(e, CurrentHeight(entries), now, grace) then (entries[k := e.(seen := {})], Stale)
      else if Lower(nonce) in e.seen then (entries, Duplicate)
      else (entries[k := e.(seen := e.seen + {Lower(nonce)})], Accepted(e.job))
  }

  /** The shared store. Each method is one critical section. */
  class Jobs {
    var entries: seq<JobEntry>

    constructor ()
      ensures entries == []
    {
      entries := [];
    }

    method PublishJob(job: Job, now: int)
      modifies this
      ensures entries == Publish(old(entries), job, now)
    {
      var n := |entries|;
      if n > 0 {
        var prev := entries[n - 1];
        if prev.supersededAt.None? { entries := entries[n - 1 := prev.(supersededAt := Some(now))]; }
      }
      entries := entries + [JobEntry(job, None, {})];
      ghost var grown := entries;
      assert n > 0 ==> grown == old(entries)[..n - 1] + [Supersede(old(entries)[n - 1], now)] + [JobEntry(job, None, {})];
      while |entries| > RING_SIZE
        invariant |entries| <= |grown| && entries == grown[|grown| - |entries|..]
        invariant |entries| >= Min(|grown|, RING_SIZE)
      {
        entries := entries[1..];
      }
    }

    method RecordSubmission(id: string, nonce: string, now: int, grace: nat) returns (outcome: Outcome)
      modifies this
      ensures (entries, outcome) == Record(old(entries), id, nonce, now, grace)
    {
      var nonceNorm := Lower(nonce);
      var k := 0;
      while k < |entries| && entries[k].job.id != id
        invariant 0 <= k <= |entries|
        invariant forall i :: 0 <= i < k ==> entries[i].job.id != id
      {
        k := k + 1;
      }
      if k == |entries| { return UnknownJob; }
      var e := entries[k];
      if IsStale(e, CurrentHeight(entries), now, grace) {
        entries := entries[k := e.(seen := {})];
        return Stale;
      }
      if nonceNorm in e.seen { return Duplicate; }
      entries := entries[k := e.(seen := e.seen + {nonceNorm})];
      return Accepted(e.job);
    }
  }

  // ---------------------------------------------------------------- whole runs

  datatype Event = PublishEvent(job: Job, at: int) | SubmitEvent(id: string, nonce: string, at: int)

  datatype Pair = Pair(id: string, nonce: string)

  /** The ring with the history of the run so far: ids published, pairs accepted in order, the
      latest clock reading, and whether any acceptance repeated an earlier one. */
  datatype Trace = Trace(entries: seq<JobEntry>, published: set<string>, accepted: set<Pair>, now: int, replayed: bool)

  const START: Trace := Trace([], {}, {}, 0, false)

  function Step(t: Trace, ev: Event, grace: nat): Trace {
    match ev
    case PublishEvent(job, at) =>
      t.(entries := Publish(t.entries, job, at), published := t.published + {job.id}, now := at)
    case SubmitEvent(id, nonce, at) =>
      var (entries, outcome) := Record(t.entries, id, nonce, at, grace);
      var pair := Pair(id, Lower(nonce));
      if outcome.Accepted?
      then t.(entries := entries, accepted := t.accepted + {pair}, now := at, replayed := t.replayed || pair in t.accepted)
      else t.(entries := entries, now := at)
  }

  function Exec(events: seq<Event>, grace: nat): Trace {
    if events == [] then START
    else Step(Exec(events[..|events| - 1], grace), events[|events| - 1], grace)
  }

  /** What the upstream and the clock promise: fresh job ids, heights present and never falling,
      time never running backwards. */
  ghost predicate Orderly(t: Trace, ev: Event) {
    && t.now <= ev.at
    && (ev.PublishEvent? ==>
          && ev.job.id !in t.published && ev.job.height.Some?
          && (CurrentHeight(t.entries).Some? ==> CurrentHeight(t.entries).value <= ev.job.height.value))
  }

  ghost predicate OrderlyRun(events: seq<Event>, grace: nat)
    decreases |events|
  {
    events == [] ||
    var n := |events| - 1;
    OrderlyRun(events[..n], grace) && Orderly(Exec(events[..n], grace), events[n])
  }

  ghost predicate RingInv(t: Trace, grace: nat) {
    && !t.replayed
    && |t.entries| <= RING_SIZE
    && (forall i :: 0 <= i < |t.entries| ==> t.entries[i].job.id in t.published && t.entries[i].job.height.Some?)
    && (forall i, j :: 0 <= i < j < |t.entries| ==> t.entries[i].job.id != t.entries[j].job.id)
    && (forall i :: 0 <= i < |t.entries| - 1 ==> t.entries[i].supersededAt.Some?)
    && (forall p :: p in t.accepted ==> p.id in t.published)
    && (forall i :: 0 <= i < |t.entries| ==> SeenExact(t.entries[i], CurrentHeight(t.entries), t.now, t.accepted, grace))
  }

  /** An entry remembers exactly the nonces accepted for it, or can never accept again. */
  ghost predicate SeenExact(e: JobEntry, current: Option<nat>, now: int, accepted: set<Pair>, grace: nat) {
    || IsStale(e, current, now, grace)
    || forall n :: n in e.seen <==> Pair(e.job.id, n) in accepted
  }

  /** Staleness is for good: later clock readings and higher current heights keep it. */
  lemma StaleForGood(e: JobEntry, current: Option<nat>, now: int, current': Option<nat>, now': int, grace: nat)
    requires IsStale(e, current, now, grace) && now <= now'
    requires current.Some? ==> current'.Some? && current.value <= current'.value
    ensures IsStale(e, current', now', grace)
  {
  }

  lemma PublishKeepsRing(t: Trace, job: Job, at: int, grace: nat)
    requires RingInv(t, grace) && Orderly(t, PublishEvent(job, at))
    ensures RingInv(Step(t, PublishEvent(job, at), grace), grace)
  {
    var ring := Publish(t.entries, job, at);
    PublishShifts(t.entries, job, at);
    forall i | 0 <= i < |ring| ensures SeenExact(ring[i], CurrentHeight(ring), at, t.accepted, grace) {
      if i < |ring| - 1 {
        var k := i + Max(|t.entries| + 1 - RING_SIZE, 0);
        SupersededKeepsSeen(t.entries[k], ring[i], CurrentHeight(t.entries), t.now, CurrentHeight(ring), at, t.accepted, grace);
      }
    }
  }

  /** Where the entries of the old ring are in the new one. */
  lemma PublishShifts(entries: seq<JobEntry>, job: Job, at: int)
    requires |entries| <= RING_SIZE
    ensures var ring, drop := Publish(entries, job, at), Max(|entries| + 1 - RING_SIZE, 0);
            && |ring| == |entries| + 1 - drop && ring[|ring| - 1] == JobEntry(job, None, {})
            && forall i :: 0 <= i < |ring| - 1 ==>
                 ring[i] == if i + drop == |entries| - 1 then Supersede(entries[i + drop], at) else entries[i + drop]
  {
  }

  lemma SupersededKeepsSeen(e: JobEntry, e': JobEntry, current: Option<nat>, now: int,
      current': Option<nat>, now': int, accepted: set<Pair>, grace: nat)
    requires SeenExact(e, current, now, accepted, grace) && (e' == e || e' == Supersede(e, now')) && now <= now'
    requires current.Some? ==> current'.Some? && current.value <= current'.value
    ensures SeenExact(e', current', now', accepted, grace)
  {
    if IsStale(e, current, now, grace) { StaleForGood(e, current, now, current', now', grace); }
  }

  /** With exact nonce sets a submission is accepted exactly when its job is there, not stale, and
      the pair is new. */
  lemma AcceptsIffNew(t: Trace, id: string, nonce: string, at: int, grace: nat)
    requires RingInv(t, grace) && t.now <= at
    ensures var k := Find(t.entries, id);
            Record(t.entries, id, nonce, at, grace).1.Accepted? <==>
            && k < |t.entries|
            && !IsStale(t.entries[k], CurrentHeight(t.entries), at, grace)
            && Pair(id, Lower(nonce)) !in t.accepted
  {
    var k, current := Find(t.entries, id), CurrentHeight(t.entries);
    if k < |t.entries| {
      SupersededKeepsSeen(t.entries[k], t.entries[k], current, t.now, current, at, t.accepted, grace);
    }
  }

  lemma RecordKeepsSeen(t: Trace, id: string, nonce: string, at: int, grace: nat, i: nat)
    requires RingInv(t, grace) && t.now <= at && i < |t.entries|
    ensures var t', current := Step(t, SubmitEvent(id, nonce, at), grace), CurrentHeight(t.entries);
            SeenExact(t'.entries[i], current, at, t'.accepted, grace)
  {
    var current := CurrentHeight(t.entries);
    SupersededKeepsSeen(t.entries[i], t.entries[i], current, t.now, current, at, t.accepted, grace);
  }

  /** A submission changes nothing but nonces. */
  lemma RecordFrame(entries: seq<JobEntry>, id: string, nonce: string, at: int, grace: nat)
    ensures var ring := Record(entries, id, nonce, at, grace).0;
            && |ring| == |entries| && CurrentHeight(ring) == CurrentHeight(entries)
            && forall i :: 0 <= i < |entries| ==> ring[i].job == entries[i].job && ring[i].supersededAt == entries[i].supersededAt
  {
  }

  lemma SubmitKeepsRing(t: Trace, id: string, nonce: string, at: int, grace: nat)
    requires RingInv(t, grace) && Orderly(t, SubmitEvent(id, nonce, at))
    ensures RingInv(Step(t, SubmitEvent(id, nonce, at), grace), grace)
  {
    var t' := Step(t, SubmitEvent(id, nonce, at), grace);
    AcceptsIffNew(t, id, nonce, at, grace);
    RecordFrame(t.entries, id, nonce, at, grace);
    forall i | 0 <= i < |t'.entries|
      ensures SeenExact(t'.entries[i], CurrentHeight(t'.entries), at, t'.accepted, grace)
    {
      RecordKeepsSeen(t, id, nonce, at, grace, i);
    }
  }

  lemma {:induction false} RingInvHolds(events: seq<Event>, grace: nat)
    requires OrderlyRun(events, grace)
    ensures RingInv(Exec(events, grace), grace)
    decreases |events|
  {
    if events != [] {
      var n := |events| - 1;
      RingInvHolds(events[..n], grace);
      match events[n]
      case PublishEvent(job, at) => PublishKeepsRing(Exec(events[..n], grace), job, at, grace);
      case SubmitEvent(id, nonce, at) => SubmitKeepsRing(Exec(events[..n], grace), id, nonce, at, grace);
    }
  }

  /** Over every orderly run, across all sessions, a submission is accepted exactly when its job is
      in the ring and not stale and the pair was never accepted before: in particular no pair is
      accepted twice, even after stale entries drop their nonces and jobs leave the ring. */
  lemma AcceptedExactlyOnce(events: seq<Event>, grace: nat, id: string, nonce: string, at: int)
    requires OrderlyRun(events, grace) && Exec(events, grace).now <= at
    ensures var t := Exec(events, grace);
            var k := Find(t.entries, id);
            && !t.replayed && |t.entries| <= RING_SIZE
            && (Record(t.entries, id, nonce, at, grace).1.Accepted? <==>
                  && k < |t.entries|
                  && !IsStale(t.entries[k], CurrentHeight(t.entries), at, grace)
                  && Pair(id, Lower(nonce)) !in t.accepted)
  {
    RingInvHolds(events, grace);
    AcceptsIffNew(Exec(events, grace), id, nonce, at, grace);
  }

  /** Letter case does not make a nonce new. */
  lemma LowerIdempotent(s: string)
    ensures Lower(Lower(s)) == Lower(s)
  {
    forall i | 0 <= i < |s| ensures LowerChar(LowerChar(s[i])) == LowerChar(s[i]) {}
  }

  // ---------------------------------------------------------------- each promise is needed

  lemma ExecThen(events: seq<Event>, ev: Event, grace: nat)
    ensures Exec(events + [ev], grace) == Step(Exec(events, grace), ev, grace)
  {
    assert (events + [ev])[..|events|] == events;
  }

  lemma FirstAccepted(job: Job, nonce: string, at: int, grace: nat)
    ensures Exec([PublishEvent(job, at), SubmitEvent(job.id, nonce, at)], grace) ==
            Trace([JobEntry(job, None, {Lower(nonce)})], {job.id}, {Pair(job.id, Lower(nonce))}, at, false)
  {
    var e1, e2 := PublishEvent(job, at), SubmitEvent(job.id, nonce, at);
    ExecThen([], e1, grace);
    ExecThen([e1], e2, grace);
    assert [] + [e1] == [e1] && [e1] + [e2] == [e1, e2];
    var ring := [JobEntry(job, None, {})];
    assert Exec([e1], grace) == Trace(ring, {job.id}, {}, at, false);
    assert Find(ring, job.id) == 0;
    assert {} + {Lower(nonce)} == {Lower(nonce)};
    assert ring[0 := JobEntry(job, None, {Lower(nonce)})] == [JobEntry(job, None, {Lower(nonce)})];
  }

  /** One nonce accepted for a job, which is then superseded. */
  function Overtaken(job: Job, next: Job, nonce: string, at: int): seq<Event> {
    [PublishEvent(job, at), SubmitEvent(job.id, nonce, at), PublishEvent(next, at)]
  }

  lemma OvertakenRing(job: Job, next: Job, nonce: string, at: int, grace: nat)
    requires job.id != next.id
    ensures Exec(Overtaken(job, next, nonce, at), grace) ==
            Trace([JobEntry(job, Some(at), {Lower(nonce)}), JobEntry(next, None, {})],
                  {job.id, next.id}, {Pair(job.id, Lower(nonce))}, at, false)
  {
    var first, publish := [PublishEvent(job, at), SubmitEvent(job.id, nonce, at)], PublishEvent(next, at);
    FirstAccepted(job, nonce, at, grace);
    ExecThen(first, publish, grace);
    assert first + [publish] == Overtaken(job, next, nonce, at);
  }

  /** A stale submission drops the nonces; if the entry is not stale at the next one, that is a replay. */
  lemma ForgottenReplays(t: Trace, id: string, nonce: string, grace: nat, now: int)
    requires var k := Find(t.entries, id);
             && k < |t.entries| && t.entries[k].seen == {} && Pair(id, Lower(nonce)) in t.accepted
             && !IsStale(t.entries[k], CurrentHeight(t.entries), now, grace)
    ensures Step(t, SubmitEvent(id, nonce, now), grace).replayed
  {
  }

  lemma StaleForgets(job: Job, next: Job, nonce: string, at: int, now: int, grace: nat)
    requires job.id != next.id && IsStale(JobEntry(job, Some(at), {Lower(nonce)}), next.height, now, grace)
    ensures Exec(Overtaken(job, next, nonce, at) + [SubmitEvent(job.id, nonce, now)], grace) ==
            Trace([JobEntry(job, Some(at), {}), JobEntry(next, None, {})],
                  {job.id, next.id}, {Pair(job.id, Lower(nonce))}, now, false)
  {
    OvertakenRing(job, next, nonce, at, grace);
    ExecThen(Overtaken(job, next, nonce, at), SubmitEvent(job.id, nonce, now), grace);
    var ring := [JobEntry(job, Some(at), {Lower(nonce)}), JobEntry(next, None, {})];
    assert Find(ring, job.id) == 0 && CurrentHeight(ring) == next.height;
    assert ring[0 := JobEntry(job, Some(at), {})] == [JobEntry(job, Some(at), {}), JobEntry(next, None, {})];
  }

  lemma PublishedThird(job: Job, next: Job, last: Job, at: int, now: int)
    ensures Publish([JobEntry(job, Some(at), {}), JobEntry(next, None, {})], last, now) ==
            [JobEntry(job, Some(at), {}), JobEntry(next, Some(now), {}), JobEntry(last, None, {})]
  {
  }

  /** Heights must not fall or go missing: for every job overtaken by a higher one and then followed,
      within the grace window, by one not higher than it, or of unknown height. */
  lemma HeightDropReplays(overtaken: Job, higher: Job, last: Job, nonce: string, at: int, now: int, grace: nat)
    requires overtaken.height.Some? && higher.height.Some? && overtaken.height.value < higher.height.value
    requires last.height.None? || last.height.value <= overtaken.height.value
    requires overtaken.id != higher.id && at <= now <= at + grace
    ensures Exec(Overtaken(overtaken, higher, nonce, at) +
                 [SubmitEvent(overtaken.id, nonce, now)] + [PublishEvent(last, now)] + [SubmitEvent(overtaken.id, nonce, now)],
                 grace).replayed
  {
    var submit, publish := SubmitEvent(overtaken.id, nonce, now), PublishEvent(last, now);
    var stale := Overtaken(overtaken, higher, nonce, at) + [submit];
    StaleForgets(overtaken, higher, nonce, at, now, grace);
    ExecThen(stale, publish, grace);
    ExecThen(stale + [publish], submit, grace);
    var ring := [JobEntry(overtaken, Some(at), {}), JobEntry(higher, Some(now), {}), JobEntry(last, None, {})];
    PublishedThird(overtaken, higher, last, at, now);
    assert ring[0].job.id == overtaken.id && Find(ring, overtaken.id) == 0;
    ForgottenReplays(Exec(stale + [publish], grace), overtaken.id, nonce, grace, now);
  }

  /** The clock must not run back: for every job superseded longer than the grace window ago. */
  lemma ClockBackReplays(job: Job, next: Job, nonce: string, at: int, now: int, grace: nat)
    requires job.id != next.id && now > at + grace
    requires job.height.Some? && next.height.Some? ==> next.height.value <= job.height.value
    ensures Exec(Overtaken(job, next, nonce, at) + [SubmitEvent(job.id, nonce, now)] + [SubmitEvent(job.id, nonce, at)],
                 grace).replayed
  {
    var stale := Overtaken(job, next, nonce, at) + [SubmitEvent(job.id, nonce, now)];
    StaleForgets(job, next, nonce, at, now, grace);
    ExecThen(stale, SubmitEvent(job.id, nonce, at), grace);
    ForgottenReplays(Exec(stale, grace), job.id, nonce, grace, at);
  }

  function PublishAll(jobs: seq<Job>, at: int): seq<Event> {
    if jobs == [] then [] else PublishAll(jobs[..|jobs| - 1], at) + [PublishEvent(jobs[|jobs| - 1], at)]
  }

  /** The ring after publishing all of `jobs`. */
  function PublishedOn(entries: seq<JobEntry>, jobs: seq<Job>, at: int): seq<JobEntry> {
    if jobs == [] then entries else Publish(PublishedOn(entries, jobs[..|jobs| - 1], at), jobs[|jobs| - 1], at)
  }

  lemma {:induction false} ExecPublishAll(events: seq<Event>, jobs: seq<Job>, at: int, grace: nat)
    ensures var t, t' := Exec(events, grace), Exec(events + PublishAll(jobs, at), grace);
            t'.entries == PublishedOn(t.entries, jobs, at) && t'.accepted == t.accepted
    decreases |jobs|
  {
    if jobs == [] {
      assert events + PublishAll(jobs, at) == events;
    } else {
      var n := |jobs| - 1;
      var before := events + PublishAll(jobs[..n], at);
      ExecPublishAll(events, jobs[..n], at, grace);
      ExecThen(before, PublishEvent(jobs[n], at), grace);
      assert before + [PublishEvent(jobs[n], at)] == events + PublishAll(jobs, at);
    }
  }

  ghost predicate EndsWith(ring: seq<JobEntry>, jobs: seq<Job>) {
    |jobs| <= |ring| <= RING_SIZE && forall i :: 0 <= i < |jobs| ==> ring[|ring| - |jobs| + i].job == jobs[i]
  }

  lemma PublishExtends(ring: seq<JobEntry>, jobs: seq<Job>, at: int)
    requires 0 < |jobs| <= RING_SIZE && EndsWith(ring, jobs[..|jobs| - 1])
    ensures EndsWith(Publish(ring, jobs[|jobs| - 1], at), jobs)
  {
    var n := |jobs| - 1;
    var next := Publish(ring, jobs[n], at);
    PublishShifts(ring, jobs[n], at);
    forall i | 0 <= i < n ensures next[|next| - |jobs| + i].job == jobs[i] {
      assert ring[|ring| - n + i].job == jobs[..n][i];
    }
  }

  /** Publishing fills the ring from the back. */
  lemma {:induction false} PublishedLast(entries: seq<JobEntry>, jobs: seq<Job>, at: int)
    requires |jobs| <= RING_SIZE && |entries| <= RING_SIZE
    ensures EndsWith(PublishedOn(entries, jobs, at), jobs)
    decreases |jobs|
  {
    if jobs != [] {
      var n := |jobs| - 1;
      PublishedLast(entries, jobs[..n], at);
      PublishExtends(PublishedOn(entries, jobs[..n], at), jobs, at);
    }
  }

  /** Once a ring of others was published, a job published again is found with no nonces. */
  lemma PublishedAnew(entries: seq<JobEntry>, others: seq<Job>, job: Job, at: int)
    requires |entries| <= RING_SIZE && |others| == RING_SIZE && forall i :: 0 <= i < |others| ==> others[i].id != job.id
    ensures var ring := Publish(PublishedOn(entries, others, at), job, at);
            var k := Find(ring, job.id);
            k < |ring| && ring[k] == JobEntry(job, None, {})
  {
    var old', ring := PublishedOn(entries, others, at), Publish(PublishedOn(entries, others, at), job, at);
    PublishedLast(entries, others, at);
    PublishShifts(old', job, at);
    forall i | 0 <= i < |ring| - 1 ensures ring[i].job.id != job.id { assert old'[i + 1].job == others[i + 1]; }
    OnlyLast(ring, job.id);
  }

  /** Job ids must be fresh: for every job published again once a ring of others has pushed it out. */
  lemma ReusedIdReplays(job: Job, others: seq<Job>, nonce: string, at: int, grace: nat)
    requires |others| == RING_SIZE && forall i :: 0 <= i < |others| ==> others[i].id != job.id
    ensures Exec([PublishEvent(job, at), SubmitEvent(job.id, nonce, at)] + PublishAll(others, at) +
                 [PublishEvent(job, at)] + [SubmitEvent(job.id, nonce, at)], grace).replayed
  {
    var first := [PublishEvent(job, at), SubmitEvent(job.id, nonce, at)];
    var full := first + PublishAll(others, at);
    FirstAccepted(job, nonce, at, grace);
    ExecPublishAll(first, others, at, grace);
    PublishedAnew(Exec(first, grace).entries, others, job, at);
    ExecThen(full, PublishEvent(job, at), grace);
    ExecThen(full + [PublishEvent(job, at)], SubmitEvent(job.id, nonce, at), grace);
    ForgottenReplays(Exec(full + [PublishEvent(job, at)], grace), job.id, nonce, grace, at);
  }

  lemma OnlyLast(entries: seq<JobEntry>, id: string)
    requires entries != [] && entries[|entries| - 1].job.id == id
    requires forall i :: 0 <= i < |entries| - 1 ==> entries[i].job.id != id
    ensures Find(entries, id) == |entries| - 1
  {
  }
}
