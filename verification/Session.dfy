/** A miner session: the difficulty advertised with each job, the judging of a submitted share
    against it, and the credit that follows. */
module Session {
  import opened Prelude
  import V = Vardiff
  import J = JobStore
  import T = Targets

  const ADVERTISED_CAP: nat := 16

  /** A job id and the difficulty it was served at. */
  datatype Offer = Offer(id: string, diff: nat)

  predicate Offered(adv: seq<Offer>, id: string) { exists i :: 0 <= i < |adv| && adv[i].id == id }

  /** First writer wins; the oldest offers are forgotten. */
  function NoteAdvertised(adv: seq<Offer>, id: string, diff: nat): seq<Offer> {
    if Offered(adv, id) then adv
    else
      var w := adv + [Offer(id, diff)];
      if |w| > ADVERTISED_CAP then w[|w| - ADVERTISED_CAP..] else w
  }

  /** The most recent offer for the id, if still remembered. */
  function AdvertisedDiff(adv: seq<Offer>, id: string): (d: Option<nat>)
    ensures d.Some? ==> Offer(id, d.value) in adv
    ensures d.Some? <==> Offered(adv, id)
  {
    if adv == [] then None
    else if adv[|adv| - 1].id == id then Some(adv[|adv| - 1].diff)
    else
      var r := AdvertisedDiff(adv[..|adv| - 1], id);
      assert Offered(adv, id) <==> Offered(adv[..|adv| - 1], id) by {
        if Offered(adv, id) {
          var i :| 0 <= i < |adv| && adv[i].id == id;
          assert adv[..|adv| - 1][i].id == id;
        }
      }
      r
  }

  // ---------------------------------------------------------------- judging

  datatype ShareOutcome = Accepted(forwarded: bool) | BelowDifficulty | BadBlob

  /** A share counts at the session difficulty, and is forwarded when it also meets upstream's. */
  function Judge(leading: nat, sessionDiff: nat, upstreamDiff: nat): ShareOutcome {
    if !T.MeetsDifficulty(leading, sessionDiff) then BelowDifficulty
    else Accepted(T.MeetsDifficulty(leading, upstreamDiff))
  }

  /** Spot-check skipped: the claimed result stands in for the hash. */
  function AcceptClaimedResult(resultHex: string, sessionDiff: nat, upstreamDiff: nat): ShareOutcome {
    var hash := T.DecodeHex(resultHex);
    if hash.Some? && |hash.value| == 32 then Judge(T.Leading(hash.value), sessionDiff, upstreamDiff) else BadBlob
  }

  /** The hash function, on a seed and a blob; it may fail. */
  type HashFunction = (seq<T.Byte>, seq<T.Byte>) -> Option<seq<T.Byte>>

  function Seed(job: J.Job): seq<T.Byte> {
    var s := T.DecodeHex(job.seedHex);
    if s.Some? && |s.value| == 32 then s.value else seq(32, _ => 0)
  }

  /** Full verification; `None` when it errs out without an outcome. */
  function VerifyShare(hash: HashFunction, job: J.Job, nonceHex: string, sessionDiff: nat): Option<ShareOutcome> {
    var nonce := T.DecodeHex(nonceHex);
    if nonce.None? then None
    else if |nonce.value| != T.NONCE_LEN then Some(BadBlob)
    else
      var blob := T.AssembleBlob(job.blobHex, nonceHex);
      if !blob.Blob? then Some(BadBlob)
      else
        var h := hash(Seed(job), blob.bytes);
        if h.None? || |h.value| != 32 then None
        else Some(Judge(T.Leading(h.value), sessionDiff, job.upstreamDiff))
  }

  /** A submission as the session sees it once its job is known, fresh and unreplayed. */
  datatype Submission = Submission(job: J.Job, nonceHex: string, resultHex: string, verify: bool)

  function Outcome(hash: HashFunction, sub: Submission, sessionDiff: nat): Option<ShareOutcome> {
    if sub.verify then VerifyShare(hash, sub.job, sub.nonceHex, sessionDiff)
    else Some(AcceptClaimedResult(sub.resultHex, sessionDiff, sub.job.upstreamDiff))
  }

  /** The leading bits of the hash a submission stands on: the computed one when verified in full,
      else the claimed one. `None` when it is malformed or cannot be hashed. */
  function ShareHash(hash: HashFunction, sub: Submission): Option<nat> {
    var claimed := T.DecodeHex(sub.resultHex);
    var nonce := T.DecodeHex(sub.nonceHex);
    if !sub.verify then if claimed.Some? && |claimed.value| == 32 then Some(T.Leading(claimed.value)) else None
    else if nonce.None? || |nonce.value| != T.NONCE_LEN then None
    else
      var blob := T.AssembleBlob(sub.job.blobHex, sub.nonceHex);
      var h := if blob.Blob? then hash(Seed(sub.job), blob.bytes) else None;
      if h.Some? && |h.value| == 32 then Some(T.Leading(h.value)) else None
  }

  // ---------------------------------------------------------------- session state

  /** `told` and `ceiling` are history: the difficulty last sent to the miner with each job, and the
      upstream difficulty each job had when it was noted. */
  datatype State = State(
    loggedIn: bool, vd: V.State, adv: seq<Offer>, verified: nat, told: map<string, nat>, ceiling: map<string, nat>)

  datatype Reply = NotLoggedIn | Broken | Credited(difficulty: nat, forwarded: bool) | Rejected(close: bool)

  ghost predicate Usable(g: V.Settings, s: State) {
    V.Configured(g) && V.Positive(s.vd.window) && g.min <= s.vd.current
  }

  /** Cap at the job's upstream difficulty, then retarget. */
  function Adjusted(g: V.Settings, s: State, job: J.Job, now: real): V.State
    requires Usable(g, s)
  {
    var capped := V.SetCap(g, s.vd, job.upstreamDiff);
    V.Retarget(g, capped, RealMax(now - capped.lastSubmit, 0.0), now)
  }

  /** Send the job at the adjusted difficulty, and note that unless the job is noted already. */
  function Serve(g: V.Settings, s: State, job: J.Job, now: real): State
    requires Usable(g, s)
  {
    var vd := Adjusted(g, s, job, now);
    s.(vd := vd, adv := NoteAdvertised(s.adv, job.id, vd.current), told := s.told[job.id := vd.current],
       ceiling := if Offered(s.adv, job.id) then s.ceiling else s.ceiling[job.id := job.upstreamDiff])
  }

  function AfterLogin(g: V.Settings, s: State, current: Option<J.Job>, now: real): State
    requires Usable(g, s)
  {
    var s1 := s.(loggedIn := true);
    if current.Some? then Serve(g, s1, current.value, now) else s1
  }

  function AfterPush(g: V.Settings, s: State, job: J.Job, now: real): State
    requires Usable(g, s)
  {
    if s.loggedIn then Serve(g, s, job, now) else s
  }

  /** The difficulty a share is judged and credited at: what is noted for its job, or the floor. */
  function CheckDiff(g: V.Settings, s: State, job: J.Job): nat {
    var d := AdvertisedDiff(s.adv, job.id);
    if d.Some? then d.value else g.min
  }

  function AfterSubmit(g: V.Settings, s: State, hash: HashFunction, sub: Submission, now: real): (State, Reply)
    requires g.sampleSize >= 1
  {
    if !s.loggedIn then (s, NotLoggedIn)
    else
      var diff := CheckDiff(g, s, sub.job);
      match Outcome(hash, sub, diff)
      case None => (s, Broken)
      case Some(Accepted(forwarded)) =>
        (s.(vd := V.OnShare(g, s.vd, now), verified := if sub.verify then Min(s.verified + 1, U32_MAX) else s.verified),
         Credited(diff, forwarded))
      case Some(_) => (s.(verified := 0), Rejected(sub.verify && s.verified == 0))
  }

  class MinerSession {
    const vardiff: V.Controller
    var loggedIn: bool
    var advertised: seq<Offer>
    var verifiedCount: nat
    ghost var told: map<string, nat>
    ghost var ceiling: map<string, nat>

    ghost function St(): State
      reads this, vardiff
    {
      State(loggedIn, vardiff.St(), advertised, verifiedCount, told, ceiling)
    }

    ghost predicate Valid()
      reads this, vardiff
    {
      vardiff.Valid() && V.Workable(vardiff.g)
    }

    constructor (g: V.Settings, now: real)
      requires V.Workable(g)
      ensures Valid() && fresh(vardiff) && vardiff.g == g
      ensures St() == State(false, V.State(Max(Min(2 * g.min, U64_MAX), g.min), U64_MAX, now, []), [], 0, map[], map[])
    {
      vardiff := new V.Controller(g, Min(2 * g.min, U64_MAX), now);
      loggedIn, advertised, verifiedCount, told, ceiling := false, [], 0, map[], map[];
    }

    method ServeJob(job: J.Job, now: real) returns (diff: nat)
      requires Valid()
      modifies this, vardiff
      ensures Valid() && vardiff.Capped() && St() == Serve(vardiff.g, old(St()), job, now) && diff == vardiff.current
    {
      vardiff.SetUpstreamCap(job.upstreamDiff);
      diff := vardiff.RetargetNow(now);
      told := told[job.id := diff];
      if !Offered(advertised, job.id) {
        ceiling := ceiling[job.id := job.upstreamDiff];
        advertised := advertised + [Offer(job.id, diff)];
        if |advertised| > ADVERTISED_CAP { advertised := advertised[|advertised| - ADVERTISED_CAP..]; }
      }
    }

    method Login(current: Option<J.Job>, now: real)
      requires Valid()
      modifies this, vardiff
      ensures Valid() && St() == AfterLogin(vardiff.g, old(St()), current, now)
    {
      loggedIn := true;
      if current.Some? { var d := ServeJob(current.value, now); }
    }

    method PushJob(job: J.Job, now: real)
      requires Valid()
      modifies this, vardiff
      ensures Valid() && St() == AfterPush(vardiff.g, old(St()), job, now)
    {
      if loggedIn { var d := ServeJob(job, now); }
    }

    method Submit(hash: HashFunction, sub: Submission, now: real) returns (reply: Reply)
      requires Valid()
      modifies this, vardiff
      ensures Valid() && (St(), reply) == AfterSubmit(vardiff.g, old(St()), hash, sub, now)
    {
      if !loggedIn { return NotLoggedIn; }
      var d := AdvertisedDiff(advertised, sub.job.id);
      var diff := if d.Some? then d.value else vardiff.g.min;
      var outcome := Outcome(hash, sub, diff);
      if outcome.None? { return Broken; }
      match outcome.value
      case Accepted(forwarded) =>
        if sub.verify { verifiedCount := Min(verifiedCount + 1, U32_MAX); }
        vardiff.RecordShare(now);
        reply := Credited(diff, forwarded);
      case _ =>
        reply := Rejected(sub.verify && verifiedCount == 0);
        verifiedCount := 0;
    }
  }

  // ---------------------------------------------------------------- whole sessions

  datatype Event =
    | LoginEvent(current: Option<J.Job>, now: real)
    | PushEvent(job: J.Job, now: real)
    | SubmitEvent(sub: Submission, now: real)

  predicate WithinJob(g: V.Settings, d: nat, upstream: nat) { g.min <= d <= Max(g.min, upstream) }

  ghost predicate SessionInv(g: V.Settings, s: State) {
    && Usable(g, s) && s.vd.current <= U64_MAX
    && (forall o :: o in s.adv ==> o.id in s.ceiling && WithinJob(g, o.diff, s.ceiling[o.id]) && o.diff <= U64_MAX)
    && (forall id :: id in s.told ==> g.min <= s.told[id] <= U64_MAX)
  }

  function Step(g: V.Settings, s: State, hash: HashFunction, ev: Event): (State, Option<Reply>)
    requires Usable(g, s)
  {
    match ev
    case LoginEvent(current, now) => (AfterLogin(g, s, current, now), None)
    case PushEvent(job, now) => (AfterPush(g, s, job, now), None)
    case SubmitEvent(sub, now) => var (s', r) := AfterSubmit(g, s, hash, sub, now); (s', Some(r))
  }

  lemma ServeKeepsInv(g: V.Settings, s: State, job: J.Job, now: real)
    requires SessionInv(g, s)
    ensures SessionInv(g, Serve(g, s, job, now))
  {
    var capped := V.SetCap(g, s.vd, job.upstreamDiff);
    V.RetargetInRange(g, capped, RealMax(now - capped.lastSubmit, 0.0), now);
    var s' := Serve(g, s, job, now);
    forall o | o in s'.adv ensures o.id in s'.ceiling && WithinJob(g, o.diff, s'.ceiling[o.id]) && o.diff <= U64_MAX {
      assert o in s.adv || o == Offer(job.id, s'.vd.current);
      if o in s.adv && o.id == job.id { assert Offered(s.adv, job.id); }
    }
  }

  lemma SubmitKeepsInv(g: V.Settings, s: State, hash: HashFunction, sub: Submission, now: real)
    requires SessionInv(g, s)
    ensures SessionInv(g, AfterSubmit(g, s, hash, sub, now).0)
  {
    var dt := RealMax(RealMax(now - s.vd.lastSubmit, 0.0), 0.001);
    assert dt > 0.0;
  }

  /** The job's id is not noted with a higher upstream difficulty than it has now. */
  predicate NotLowered(s: State, job: J.Job) {
    Offered(s.adv, job.id) && job.id in s.ceiling ==> s.ceiling[job.id] <= job.upstreamDiff
  }

  /** Whatever the ring of offers forgot or a re-login re-noted, the judging difficulty is at least
      the floor, and at most the upstream difficulty of the job as it was noted; so at most that of the
      job as it is now, unless its id was issued again with a lower one. */
  lemma CheckDiffWithinJob(g: V.Settings, s: State, job: J.Job)
    requires SessionInv(g, s)
    ensures var check := CheckDiff(g, s, job);
            && g.min <= check <= U64_MAX
            && (Offered(s.adv, job.id) ==> job.id in s.ceiling && WithinJob(g, check, s.ceiling[job.id]))
            && (NotLowered(s, job) ==> WithinJob(g, check, job.upstreamDiff))
            && (WithinJob(g, check, job.upstreamDiff) <==>
                  !Offered(s.adv, job.id) || AdvertisedDiff(s.adv, job.id).value <= Max(g.min, job.upstreamDiff))
  {
  }

  /** A run of one session from any state its invariant allows, a fresh controller among them. */
  ghost predicate SessionRun(g: V.Settings, hash: HashFunction, run: seq<State>, events: seq<Event>) {
    && |run| == |events| + 1 && SessionInv(g, run[0])
    && forall i :: 0 <= i < |events| ==>
         Usable(g, run[i]) ==> run[i + 1] == Step(g, run[i], hash, events[i]).0
  }

  lemma {:induction false} SessionInvAt(g: V.Settings, hash: HashFunction, run: seq<State>, events: seq<Event>, i: nat)
    requires SessionRun(g, hash, run, events) && i < |run|
    ensures SessionInv(g, run[i])
  {
    if i > 0 {
      SessionInvAt(g, hash, run, events, i - 1);
      var s, ev := run[i - 1], events[i - 1];
      match ev
      case LoginEvent(current, now) =>
        if current.Some? { ServeKeepsInv(g, s.(loggedIn := true), current.value, now); }
      case PushEvent(job, now) => if s.loggedIn { ServeKeepsInv(g, s, job, now); }
      case SubmitEvent(sub, now) => SubmitKeepsInv(g, s, hash, sub, now);
    }
  }

  /** In every session, every credit is at a difficulty between the floor and what upstream paid for
      the job when it was noted, and its hash meets it; it is forwarded exactly when the hash meets
      upstream's difficulty. Unless the job's id was issued again with a lower one, and the floor
      permitting, such a share is always credited and forwarded, never turned down as below the local
      difficulty. */
  lemma CreditsWithinUpstream(g: V.Settings, hash: HashFunction, run: seq<State>, events: seq<Event>,
                              i: nat, sub: Submission, now: real)
    requires SessionRun(g, hash, run, events) && i < |run|
    ensures var (reply, upstream, leading) := (AfterSubmit(g, run[i], hash, sub, now).1, sub.job.upstreamDiff, ShareHash(hash, sub));
            && (reply.Credited? ==>
                  && g.min <= reply.difficulty
                  && (Offered(run[i].adv, sub.job.id) ==>
                        sub.job.id in run[i].ceiling && WithinJob(g, reply.difficulty, run[i].ceiling[sub.job.id]))
                  && (NotLowered(run[i], sub.job) ==> WithinJob(g, reply.difficulty, upstream))
                  && leading.Some? && T.MeetsDifficulty(leading.value, reply.difficulty)
                  && (reply.forwarded <==> T.MeetsDifficulty(leading.value, upstream)))
            && (run[i].loggedIn && NotLowered(run[i], sub.job) && g.min <= upstream ==>
                  leading.Some? && T.MeetsDifficulty(leading.value, upstream) ==> reply.Credited? && reply.forwarded)
  {
    SessionInvAt(g, hash, run, events, i);
    CheckDiffWithinJob(g, run[i], sub.job);
    var diff, upstream, leading := CheckDiff(g, run[i], sub.job), sub.job.upstreamDiff, ShareHash(hash, sub);
    OutcomeIsJudged(hash, sub, diff);
    if diff <= upstream && leading.Some? && T.MeetsDifficulty(leading.value, upstream) {
      T.MeetsIsAntitone(leading.value, diff, upstream);
    }
  }

  /** Whichever way a submission is checked, it is accepted only on its hash. */
  lemma OutcomeIsJudged(hash: HashFunction, sub: Submission, diff: nat)
    ensures var (o, leading) := (Outcome(hash, sub, diff), ShareHash(hash, sub));
            if leading.Some? then o == Some(Judge(leading.value, diff, sub.job.upstreamDiff))
            else o == None || o == Some(BadBlob)
  {
  }

  // ---------------------------------------------------------------- what the miner was told

  /** Every hash good for the told target is accepted. */
  ghost predicate AllAccepted(told: nat, check: nat, upstream: nat)
    requires told <= U64_MAX
  {
    forall leading: nat :: T.MeetsTold(leading, told) ==> Judge(leading, check, upstream).Accepted?
  }

  lemma AllAcceptedIff(told: nat, check: nat, upstream: nat)
    requires told <= U64_MAX && check <= U64_MAX
    ensures AllAccepted(told, check, upstream) <==> check <= T.Advertised(told)
  {
    T.ToldMeetsIff(told, check);
    forall leading: nat ensures Judge(leading, check, upstream).Accepted? <==> T.MeetsDifficulty(leading, check) {}
  }

  /** A miner that works at the difficulty last told for a job has all its hashes accepted if and only
      if the judging difficulty is at most what that target says. */
  lemma ToldIsAcceptedIff(g: V.Settings, s: State, job: J.Job)
    requires SessionInv(g, s) && job.id in s.told
    ensures AllAccepted(s.told[job.id], CheckDiff(g, s, job), job.upstreamDiff) <==>
            CheckDiff(g, s, job) <= T.Advertised(s.told[job.id])
  {
    AllAcceptedIff(s.told[job.id], CheckDiff(g, s, job), job.upstreamDiff);
  }

  /** Every job still noted is noted at the difficulty last told for it. */
  ghost predicate Consistent(s: State) {
    forall id :: id in s.told && Offered(s.adv, id) ==> AdvertisedDiff(s.adv, id) == Some(s.told[id])
  }

  /** The job an event sends to the miner, if any. */
  function Sent(s: State, ev: Event): Option<J.Job> {
    match ev
    case LoginEvent(current, _) => current
    case PushEvent(job, _) => if s.loggedIn then Some(job) else None
    case SubmitEvent(_, _) => None
  }

  /** The event does not send a noted job again at another difficulty. */
  ghost predicate TellsOnce(g: V.Settings, s: State, ev: Event)
    requires Usable(g, s)
  {
    var job := Sent(s, ev);
    job.Some? && Offered(s.adv, job.value.id) ==>
      AdvertisedDiff(s.adv, job.value.id) == Some(Adjusted(g, s, job.value, ev.now).current)
  }

  /** The most recent offer of two stretches is that of the later one, if it has any. */
  lemma {:induction false} LaterOffer(a: seq<Offer>, b: seq<Offer>, id: string)
    ensures AdvertisedDiff(a + b, id) == if Offered(b, id) then AdvertisedDiff(b, id) else AdvertisedDiff(a, id)
    decreases |b|
  {
    if b == [] {
      assert a + b == a;
    } else {
      var n := |b| - 1;
      assert (a + b)[..|a + b| - 1] == a + b[..n];
      LaterOffer(a, b[..n], id);
    }
  }

  lemma RecentOffer(adv: seq<Offer>, k: nat, id: string)
    requires k <= |adv| && Offered(adv[k..], id)
    ensures Offered(adv, id) && AdvertisedDiff(adv[k..], id) == AdvertisedDiff(adv, id)
  {
    assert adv == adv[..k] + adv[k..];
    LaterOffer(adv[..k], adv[k..], id);
  }

  /** Noting a job leaves the other notes as they are, or forgets them. */
  lemma NotedOthers(adv: seq<Offer>, id: string, diff: nat, other: string)
    requires other != id && Offered(NoteAdvertised(adv, id, diff), other)
    ensures Offered(adv, other) && AdvertisedDiff(NoteAdvertised(adv, id, diff), other) == AdvertisedDiff(adv, other)
  {
    if !Offered(adv, id) {
      var w := adv + [Offer(id, diff)];
      if |w| > ADVERTISED_CAP { RecentOffer(w, |w| - ADVERTISED_CAP, other); }
      LaterOffer(adv, [Offer(id, diff)], other);
      assert !Offered([Offer(id, diff)], other);
    }
  }

  lemma NotedItself(adv: seq<Offer>, id: string, diff: nat)
    ensures AdvertisedDiff(NoteAdvertised(adv, id, diff), id) == if Offered(adv, id) then AdvertisedDiff(adv, id) else Some(diff)
  {
  }

  lemma ServeConsistentIff(g: V.Settings, s: State, job: J.Job, now: real)
    requires Usable(g, s) && Consistent(s)
    ensures Consistent(Serve(g, s, job, now)) <==>
            (Offered(s.adv, job.id) ==> AdvertisedDiff(s.adv, job.id) == Some(Adjusted(g, s, job, now).current))
  {
    var s', diff := Serve(g, s, job, now), Adjusted(g, s, job, now).current;
    NotedItself(s.adv, job.id, diff);
    assert Offered(s'.adv, job.id);
    forall id | id != job.id && id in s'.told && Offered(s'.adv, id) ensures AdvertisedDiff(s'.adv, id) == Some(s'.told[id]) {
      NotedOthers(s.adv, job.id, diff, id);
    }
  }

  lemma StepConsistentIff(g: V.Settings, s: State, hash: HashFunction, ev: Event)
    requires Usable(g, s) && Consistent(s)
    ensures Consistent(Step(g, s, hash, ev).0) <==> TellsOnce(g, s, ev)
  {
    var job := Sent(s, ev);
    if job.Some? { ServeConsistentIff(g, s.(loggedIn := true), job.value, ev.now); }
  }

  ghost predicate AlwaysTellsOnce(g: V.Settings, run: seq<State>, events: seq<Event>)
    requires |run| == |events| + 1
  {
    forall i :: 0 <= i < |events| ==> Usable(g, run[i]) && TellsOnce(g, run[i], events[i])
  }

  lemma {:induction false} ConsistentAt(g: V.Settings, hash: HashFunction, run: seq<State>, events: seq<Event>, i: nat)
    requires SessionRun(g, hash, run, events) && Consistent(run[0]) && i < |run|
    requires AlwaysTellsOnce(g, run, events)
    ensures Consistent(run[i])
  {
    if i > 0 {
      ConsistentAt(g, hash, run, events, i - 1);
      StepConsistentIff(g, run[i - 1], hash, events[i - 1]);
    }
  }

  /** Over a whole session the notes agree with what the miner was last told if and only if no event
      sent a noted job again at another difficulty. */
  lemma ConsistentIff(g: V.Settings, hash: HashFunction, run: seq<State>, events: seq<Event>)
    requires SessionRun(g, hash, run, events) && Consistent(run[0])
    ensures (forall i :: 0 <= i < |run| ==> Consistent(run[i])) <==> AlwaysTellsOnce(g, run, events)
  {
    if AlwaysTellsOnce(g, run, events) {
      forall i | 0 <= i < |run| ensures Consistent(run[i]) { ConsistentAt(g, hash, run, events, i); }
    }
    if forall i :: 0 <= i < |run| ==> Consistent(run[i]) {
      forall i | 0 <= i < |events| ensures Usable(g, run[i]) && TellsOnce(g, run[i], events[i]) {
        SessionInvAt(g, hash, run, events, i);
        assert Consistent(run[i]) && Consistent(run[i + 1]);
        StepConsistentIff(g, run[i], hash, events[i]);
      }
    }
  }

  /** A session that never sends a noted job again is one. */
  lemma FreshSendsTellOnce(g: V.Settings, hash: HashFunction, run: seq<State>, events: seq<Event>)
    requires SessionRun(g, hash, run, events)
    requires forall i :: 0 <= i < |events| ==>
               var job := Sent(run[i], events[i]); job.Some? ==> !Offered(run[i].adv, job.value.id)
    ensures AlwaysTellsOnce(g, run, events)
  {
    forall i | 0 <= i < |events| ensures Usable(g, run[i]) && TellsOnce(g, run[i], events[i]) {
      SessionInvAt(g, hash, run, events, i);
    }
  }

  /** The job is the one sent last. */
  ghost predicate LastSent(g: V.Settings, s: State, job: J.Job) {
    job.id in s.told && s.told[job.id] == s.vd.current && s.vd.cap == job.upstreamDiff && V.InRange(g, s.vd.cap, s.vd.current)
  }

  lemma ServeIsLast(g: V.Settings, s: State, job: J.Job, now: real)
    requires Usable(g, s)
    ensures LastSent(g, Serve(g, s, job, now), job)
  {
    var capped := V.SetCap(g, s.vd, job.upstreamDiff);
    V.RetargetInRange(g, capped, RealMax(now - capped.lastSubmit, 0.0), now);
  }

  lemma SubmitKeepsLast(g: V.Settings, s: State, job: J.Job, hash: HashFunction, sub: Submission, now: real)
    requires g.sampleSize >= 1 && LastSent(g, s, job)
    ensures LastSent(g, AfterSubmit(g, s, hash, sub, now).0, job)
  {
  }

  /** Sending the last job again is harmless if and only if the retarget rests. */
  lemma ResendTellsOnceIff(g: V.Settings, s: State, job: J.Job, now: real)
    requires V.Tuned(g) && Usable(g, s) && Consistent(s) && LastSent(g, s, job) && Offered(s.adv, job.id)
    ensures TellsOnce(g, s, LoginEvent(Some(job), now)) <==> V.Rests(g, s.vd, RealMax(now - s.vd.lastSubmit, 0.0))
  {
    assert V.SetCap(g, s.vd, job.upstreamDiff) == s.vd;
    V.RetargetRestsIff(g, s.vd, RealMax(now - s.vd.lastSubmit, 0.0), now);
  }

  /** In such a session a share whose hash meets the target last told for a noted job is credited at
      exactly the told difficulty; for a job no longer noted it is credited at the floor. */
  lemma ToldIsHonoured(g: V.Settings, hash: HashFunction, run: seq<State>, events: seq<Event>,
                       i: nat, sub: Submission, now: real)
    requires SessionRun(g, hash, run, events) && Consistent(run[0]) && AlwaysTellsOnce(g, run, events)
    requires i < |run| && run[i].loggedIn && sub.job.id in run[i].told
    requires var told := run[i].told[sub.job.id];
             told <= U64_MAX && ShareHash(hash, sub).Some? && T.MeetsTold(ShareHash(hash, sub).value, told)
    ensures var reply := AfterSubmit(g, run[i], hash, sub, now).1;
            && reply.Credited?
            && reply.difficulty == if Offered(run[i].adv, sub.job.id) then run[i].told[sub.job.id] else g.min
  {
    ConsistentAt(g, hash, run, events, i);
    SessionInvAt(g, hash, run, events, i);
    var told, check, leading := run[i].told[sub.job.id], CheckDiff(g, run[i], sub.job), ShareHash(hash, sub).value;
    OutcomeIsJudged(hash, sub, check);
    T.MeetsIsAntitone(leading, check, T.Advertised(told));
  }

  /** The settings of deploy/pool.mainnet.toml. */
  const MAINNET: V.Settings := V.Settings(10_000, U64_MAX / 2, 20.0, 16, 0.3, 2.0, 0.7)

  const FRESH: State := State(false, V.State(20_000, U64_MAX, 0.0, []), [], 0, map[], map[])

  /** After the first login, and after a second one 100 s later. */
  function Once(job: J.Job): State {
    State(true, V.State(20_000, job.upstreamDiff, 0.0, []), [Offer(job.id, 20_000)], 0, map[job.id := 20_000],
          map[job.id := job.upstreamDiff])
  }

  function Twice(job: J.Job): State {
    State(true, V.State(14_000, job.upstreamDiff, 100.0, []), [Offer(job.id, 20_000)], 0, map[job.id := 14_000],
          map[job.id := job.upstreamDiff])
  }

  lemma FirstLogin(job: J.Job)
    requires job.upstreamDiff >= 20_000
    ensures AfterLogin(MAINNET, FRESH, Some(job), 0.0) == Once(job)
  {
  }

  lemma SecondLogin(job: J.Job)
    requires job.upstreamDiff >= 20_000
    ensures Adjusted(MAINNET, Once(job), job, 100.0) == V.State(14_000, job.upstreamDiff, 100.0, [])
    ensures AfterLogin(MAINNET, Once(job), Some(job), 100.0) == Twice(job)
  {
    IdleDrop(job.upstreamDiff);
    assert V.SetCap(MAINNET, Once(job).vd, job.upstreamDiff) == Once(job).vd;
    var old' := [Offer(job.id, 20_000)];
    assert old'[0].id == job.id && Offered(old', job.id);
  }

  /** The failing input: a second login 100 s after the first, on the same job. The miner is told
      14000, the note still says 20000, and a hash good for the former is turned down. */
  lemma SecondLoginMisjudges(job: J.Job)
    requires job.upstreamDiff >= 20_000
    ensures AfterLogin(MAINNET, AfterLogin(MAINNET, FRESH, Some(job), 0.0), Some(job), 100.0) == Twice(job)
    ensures CheckDiff(MAINNET, Twice(job), job) == 20_000 && !AllAccepted(14_000, 20_000, job.upstreamDiff)
  {
    FirstLogin(job);
    SecondLogin(job);
    AllAcceptedIff(14_000, 20_000, job.upstreamDiff);
    Told14000();
  }

  /** An id issued again with a lower upstream difficulty: while the first issue is noted, hashes good
      for upstream are turned down. */
  lemma ReissueMisjudges(job: J.Job, again: J.Job) returns (leading: nat)
    requires again.id == job.id && 10_000 <= again.upstreamDiff < 20_000 <= job.upstreamDiff
    ensures CheckDiff(MAINNET, Once(job), again) == 20_000 && !NotLowered(Once(job), again)
    ensures T.MeetsDifficulty(leading, again.upstreamDiff) && Judge(leading, 20_000, again.upstreamDiff) == BelowDifficulty
  {
    var old' := [Offer(job.id, 20_000)];
    assert old'[0].id == again.id && Offered(old', again.id);
    leading := T.MissedBy(again.upstreamDiff, 20_000);
  }

  lemma IdleDrop(upstream: nat)
    requires upstream >= 20_000
    ensures V.Retarget(MAINNET, V.State(20_000, upstream, 0.0, []), 100.0, 100.0) == V.State(14_000, upstream, 100.0, [])
  {
    assert V.Measured(MAINNET, [], 100.0) == Some(100.0);
    assert V.Wish(MAINNET, 20_000, 100.0) == 4_000;
  }

  lemma Told14000()
    ensures T.Advertised(14_000) < 20_000
  {
    T.TargetRoundTrip(14_000);
    assert T.Target(14_000) == 306_783;
    if T.Advertised(14_000) >= 20_000 { T.QuotientAntitone(U32_MAX, 20_000, T.Advertised(14_000)); }
  }
}
