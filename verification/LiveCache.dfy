/** The live-source cache behind the state bundle: pollers and pool workers interleave, one lock
    section at a time, over a cache, an in-flight table and the cached documents themselves.

    A run is a sequence of steps; every interleaving of any number of pollers and workers is a run.
    The pool's width is not modelled, so runs include schedules with more than two workers. */
module LiveCache {
  import opened Prelude

  const LIVE_CACHE_TTL := 5.0
  const MAX_LIVE_AGE_SECONDS := 10.0

  /** A cache entry. `doc` names the cached dictionary object in `State.docs`: replies share it. */
  datatype Entry = Entry(doc: nat, expiry: real, fetchedAt: real, fallback: bool) {
    predicate FreshAt(now: real) {
      now < expiry && now - fetchedAt < MAX_LIVE_AGE_SECONDS
    }

    function AgeAt(now: real): real {
      now - fetchedAt
    }
  }

  /** A cached dictionary: the time its entry records, and the is_fresh field that every stale reply
      rewrites in place. A fetch returns a new dictionary each time. */
  datatype Document = Document(fetchedAt: real, isFresh: bool)

  /** Where a background refresh stands. A job leaves the table when it clears its in-flight flag. */
  datatype Job =
    | Queued(name: string)
    | Fetched(name: string, now: real, ok: bool)
    | Stored(name: string)

  datatype Reply = Hit(entry: Entry) | Stale(entry: Entry) | Placeholder

  /** Where one call of the polling function stands; `now` is its single clock reading. */
  datatype Poll =
    | Started(name: string, now: real)
    | Looked(name: string, now: real, cached: Option<Entry>)
    | Submitted(name: string, now: real, cached: Option<Entry>)
    | Replied(name: string, now: real, reply: Reply)

  datatype State = State(
    clock: real,
    cache: map<string, Entry>,
    inFlight: set<string>,
    jobs: map<nat, Job>,
    polls: map<nat, Poll>,
    docs: map<nat, Document>)

  datatype Step =
    | Tick(now: real)
    | PollStart(poll: nat, name: string)
    | PollLook(poll: nat)
    | PollSubmit(poll: nat, job: nat)
    | PollReply(poll: nat)
    | JobFetch(job: nat, ok: bool)
    | JobStore(job: nat, doc: nat)
    | JobRelease(job: nat)

  function Init(start: real): State {
    State(start, map[], {}, map[], map[], map[])
  }

  /** A released job has stored a result or an error; the Queued case is a fetch that died of
      something outside Exception, where only the finally block runs. */
  predicate Enabled(s: State, step: Step) {
    match step
    case Tick(now) => s.clock <= now
    case PollStart(p, _) => p !in s.polls
    case PollLook(p) => p in s.polls && s.polls[p].Started?
    case PollSubmit(p, j) => p in s.polls && s.polls[p].Looked? && j !in s.jobs
    case PollReply(p) => p in s.polls && s.polls[p].Submitted?
    case JobFetch(j, _) => j in s.jobs && s.jobs[j].Queued?
    case JobStore(j, d) => j in s.jobs && s.jobs[j].Fetched? && d !in s.docs
    case JobRelease(j) => j in s.jobs && !s.jobs[j].Fetched?
  }

  function Lookup(cache: map<string, Entry>, name: string): Option<Entry> {
    if name in cache then Some(cache[name]) else None
  }

  function Apply(s: State, step: Step): State
    requires Enabled(s, step)
  {
    match step
    case Tick(now) => s.(clock := now)
    case PollStart(p, name) => s.(polls := s.polls[p := Started(name, s.clock)])
    case PollLook(p) =>
      var Started(name, now) := s.polls[p];
      var cached := Lookup(s.cache, name);
      if cached.Some? && cached.value.FreshAt(now)
      then s.(polls := s.polls[p := Replied(name, now, Hit(cached.value))])
      else s.(polls := s.polls[p := Looked(name, now, cached)])
    case PollSubmit(p, j) =>
      var Looked(name, now, cached) := s.polls[p];
      var s1 := s.(polls := s.polls[p := Submitted(name, now, cached)]);
      if name in s.inFlight then s1
      else s1.(inFlight := s.inFlight + {name}, jobs := s.jobs[j := Queued(name)])
    case PollReply(p) =>
      var Submitted(name, now, cached) := s.polls[p];
      (match cached
       case None => s.(polls := s.polls[p := Replied(name, now, Placeholder)])
       case Some(e) =>
         s.(polls := s.polls[p := Replied(name, now, Stale(e))],
            docs := s.docs[e.doc := Document(e.fetchedAt, e.AgeAt(now) < MAX_LIVE_AGE_SECONDS)]))
    case JobFetch(j, ok) => s.(jobs := s.jobs[j := Fetched(s.jobs[j].name, s.clock, ok)])
    case JobStore(j, d) =>
      var Fetched(name, now, ok) := s.jobs[j];
      s.(cache := s.cache[name := Entry(d, now + LIVE_CACHE_TTL, now, !ok)],
         docs := s.docs[d := Document(now, ok)],
         jobs := s.jobs[j := Stored(name)])
    case JobRelease(j) => s.(inFlight := s.inFlight - {s.jobs[j].name}, jobs := s.jobs - {j})
  }

  predicate ValidRun(s: State, run: seq<Step>)
    decreases |run|
  {
    run == [] || (Enabled(s, run[0]) && ValidRun(Apply(s, run[0]), run[1..]))
  }

  function After(s: State, run: seq<Step>): State
    requires ValidRun(s, run)
    decreases |run|
  {
    if run == [] then s else After(Apply(s, run[0]), run[1..])
  }

  // ----- the inductive invariant

  /** The refreshes queued or running for a source. */
  function JobsFor(s: State, name: string): set<nat> {
    set j | j in s.jobs && s.jobs[j].name == name
  }

  ghost predicate SingleFlight(s: State) {
    && (forall j :: j in s.jobs ==> s.jobs[j].name in s.inFlight)
    && (forall j, k :: j in s.jobs && k in s.jobs && s.jobs[j].name == s.jobs[k].name ==> j == k)
    && (forall name :: name in s.inFlight ==> JobsFor(s, name) != {})
  }

  ghost predicate EntryOk(s: State, e: Entry) {
    && e.doc in s.docs
    && s.docs[e.doc].fetchedAt == e.fetchedAt <= s.clock
    && e.expiry == e.fetchedAt + LIVE_CACHE_TTL
  }

  ghost predicate TimesOk(s: State) {
    && (forall name :: name in s.cache ==> EntryOk(s, s.cache[name]))
    && (forall j :: j in s.jobs && s.jobs[j].Fetched? ==>
          s.jobs[j].now <= s.clock
          && (s.jobs[j].name in s.cache ==> s.cache[s.jobs[j].name].fetchedAt <= s.jobs[j].now))
  }

  /** A poll that goes on to its second lock section, or has replied stale, found no entry under the TTL. */
  ghost predicate PollOk(s: State, q: Poll) {
    q.now <= s.clock &&
    match q
    case Started(_, _) => true
    case Looked(_, now, cached) =>
      cached.Some? ==> EntryOk(s, cached.value) && cached.value.AgeAt(now) >= LIVE_CACHE_TTL
    case Submitted(_, now, cached) =>
      cached.Some? ==> EntryOk(s, cached.value) && cached.value.AgeAt(now) >= LIVE_CACHE_TTL
    case Replied(_, now, Hit(e)) => EntryOk(s, e) && e.FreshAt(now)
    case Replied(_, now, Stale(e)) => EntryOk(s, e) && e.AgeAt(now) >= LIVE_CACHE_TTL
    case Replied(_, _, Placeholder) => true
  }

  /** Poll p has replied with document d and stamped it, its age being e.AgeAt(now). */
  predicate Stamped(s: State, p: nat, d: nat) {
    p in s.polls && s.polls[p].Replied? && s.polls[p].reply.Stale? && s.polls[p].reply.entry.doc == d
  }

  predicate Young(q: Poll)
    requires q.Replied? && !q.reply.Placeholder?
  {
    q.reply.entry.AgeAt(q.now) < MAX_LIVE_AGE_SECONDS
  }

  /** Entries sharing a document are the same entry, and a document that reads fresh although some
      poll has stamped it was stamped fresh by some poll. */
  ghost predicate MarksOk(s: State) {
    forall d, p :: d in s.docs && s.docs[d].isFresh && Stamped(s, p, d) ==>
      exists q :: Stamped(s, q, d) && Young(s.polls[q])
  }

  ghost predicate Inv(s: State) {
    && SingleFlight(s)
    && TimesOk(s)
    && (forall p :: p in s.polls ==> PollOk(s, s.polls[p]))
    && MarksOk(s)
  }

  lemma SameJobsSingleFlight(s: State, t: State)
    requires SingleFlight(s) && t.inFlight == s.inFlight && t.jobs.Keys == s.jobs.Keys
    requires forall j :: j in s.jobs ==> t.jobs[j].name == s.jobs[j].name
    ensures SingleFlight(t)
  {
    forall name | name in t.inFlight
      ensures JobsFor(t, name) != {}
    {
      assert JobsFor(t, name) == JobsFor(s, name);
    }
  }

  lemma SubmitSingleFlight(s: State, t: State, name: string, j: nat)
    requires SingleFlight(s) && name !in s.inFlight && j !in s.jobs
    requires t.inFlight == s.inFlight + {name} && t.jobs == s.jobs[j := Queued(name)]
    ensures SingleFlight(t)
  {
    assert j in JobsFor(t, name);
    forall other | other in s.inFlight
      ensures JobsFor(t, other) != {}
    {
      assert JobsFor(t, other) == JobsFor(s, other);
    }
  }

  lemma ReleaseSingleFlight(s: State, t: State, j: nat)
    requires SingleFlight(s) && j in s.jobs
    requires t.inFlight == s.inFlight - {s.jobs[j].name} && t.jobs == s.jobs - {j}
    ensures SingleFlight(t)
  {
    forall other | other in t.inFlight
      ensures JobsFor(t, other) != {}
    {
      assert JobsFor(t, other) == JobsFor(s, other);
    }
  }

  lemma SingleFlightStep(s: State, step: Step)
    requires SingleFlight(s) && Enabled(s, step)
    ensures SingleFlight(Apply(s, step))
  {
    var t := Apply(s, step);
    if step.PollSubmit? && s.polls[step.poll].name !in s.inFlight {
      SubmitSingleFlight(s, t, s.polls[step.poll].name, step.job);
    } else if step.JobRelease? {
      ReleaseSingleFlight(s, t, step.job);
    } else {
      SameJobsSingleFlight(s, t);
    }
  }

  lemma EntriesStep(s: State, step: Step)
    requires TimesOk(s) && Enabled(s, step)
    requires forall p :: p in s.polls ==> PollOk(s, s.polls[p])
    ensures forall name :: name in Apply(s, step).cache ==> EntryOk(Apply(s, step), Apply(s, step).cache[name])
  {
    var t := Apply(s, step);
    forall name | name in t.cache
      ensures EntryOk(t, t.cache[name])
    {
      if step.PollReply? {
        assert PollOk(s, s.polls[step.poll]);
      }
      if !step.JobStore? || name != s.jobs[step.job].name {
        assert EntryOk(s, s.cache[name]);
      }
    }
  }

  lemma JobTimesStep(s: State, step: Step, j: nat)
    requires SingleFlight(s) && TimesOk(s) && Enabled(s, step)
    requires j in Apply(s, step).jobs && Apply(s, step).jobs[j].Fetched?
    ensures var t := Apply(s, step);
      && t.jobs[j].now <= t.clock
      && (t.jobs[j].name in t.cache ==> t.cache[t.jobs[j].name].fetchedAt <= t.jobs[j].now)
  {
    if step.JobFetch? && step.job == j {
      assert s.jobs[j].name in s.cache ==> EntryOk(s, s.cache[s.jobs[j].name]);
      hide SingleFlight, TimesOk;
    } else {
      assert s.jobs[j] == Apply(s, step).jobs[j];
      hide EntryOk;
      if step.JobStore? {
        assert s.jobs[step.job].name != s.jobs[j].name;
        hide SingleFlight;
      }
    }
  }

  lemma TimesStep(s: State, step: Step)
    requires SingleFlight(s) && TimesOk(s) && Enabled(s, step)
    requires forall p :: p in s.polls ==> PollOk(s, s.polls[p])
    ensures TimesOk(Apply(s, step))
  {
    EntriesStep(s, step);
    forall j | j in Apply(s, step).jobs && Apply(s, step).jobs[j].Fetched?
      ensures Apply(s, step).jobs[j].now <= Apply(s, step).clock
      ensures Apply(s, step).jobs[j].name in Apply(s, step).cache ==>
        Apply(s, step).cache[Apply(s, step).jobs[j].name].fetchedAt <= Apply(s, step).jobs[j].now
    {
      JobTimesStep(s, step, j);
    }
    hide Apply, EntryOk, PollOk, SingleFlight;
  }

  lemma PollsStep(s: State, step: Step)
    requires TimesOk(s) && Enabled(s, step)
    requires forall p :: p in s.polls ==> PollOk(s, s.polls[p])
    ensures forall p :: p in Apply(s, step).polls ==> PollOk(Apply(s, step), Apply(s, step).polls[p])
  {
  }

  lemma MarksStep(s: State, step: Step)
    requires Enabled(s, step) && MarksOk(s)
    requires forall p :: p in s.polls ==> PollOk(s, s.polls[p])
    ensures MarksOk(Apply(s, step))
  {
    var t := Apply(s, step);
    forall d, p | d in t.docs && t.docs[d].isFresh && Stamped(t, p, d)
      ensures exists q :: Stamped(t, q, d) && Young(t.polls[q])
    {
      if step.PollReply? && Stamped(t, step.poll, d) {
        assert Young(t.polls[step.poll]);
      } else {
        assert PollOk(s, s.polls[p]);
        hide PollOk;
        assert Stamped(s, p, d);
        var q :| Stamped(s, q, d) && Young(s.polls[q]);
        assert Stamped(t, q, d) && Young(t.polls[q]);
      }
    }
  }

  lemma StepInv(s: State, step: Step)
    requires Inv(s) && Enabled(s, step)
    ensures Inv(Apply(s, step))
  {
    SingleFlightStep(s, step);
    TimesStep(s, step);
    PollsStep(s, step);
    MarksStep(s, step);
  }

  lemma InvHolds(s: State, run: seq<Step>)
    requires Inv(s) && ValidRun(s, run)
    ensures Inv(After(s, run))
    decreases |run|
  {
    if run != [] {
      StepInv(s, run[0]);
      InvHolds(Apply(s, run[0]), run[1..]);
    }
  }

  // ----- results over every run

  /** The in-flight flag of a source is set exactly when one refresh is queued or running; there are
      never two. */
  lemma SingleFlightAlways(start: real, run: seq<Step>, name: string)
    requires ValidRun(Init(start), run)
    ensures var s := After(Init(start), run);
      |JobsFor(s, name)| == if name in s.inFlight then 1 else 0
  {
    InvHolds(Init(start), run);
    var s := After(Init(start), run);
    if name in s.inFlight {
      var j :| j in JobsFor(s, name);
      assert JobsFor(s, name) == {j};
    } else {
      assert JobsFor(s, name) == {};
    }
  }

  lemma FetchTimesMonotone(s: State, run: seq<Step>, name: string)
    requires Inv(s) && ValidRun(s, run) && name in s.cache
    ensures name in After(s, run).cache
    ensures s.cache[name].fetchedAt <= After(s, run).cache[name].fetchedAt
    decreases |run|
  {
    if run != [] {
      StepInv(s, run[0]);
      FetchTimesMonotone(Apply(s, run[0]), run[1..], name);
    }
  }

  /** Cached fetch times never go backwards between any two moments of a run, and an entry is never
      dropped. */
  lemma FetchTimesNeverGoBack(start: real, before: seq<Step>, run: seq<Step>, name: string)
    requires ValidRun(Init(start), before) && ValidRun(After(Init(start), before), run)
    requires name in After(Init(start), before).cache
    ensures var s := After(Init(start), before);
      && name in After(s, run).cache
      && s.cache[name].fetchedAt <= After(s, run).cache[name].fetchedAt
  {
    InvHolds(Init(start), before);
    FetchTimesMonotone(After(Init(start), before), run, name);
  }

  /** A poll that was no fresh hit leaves a refresh outstanding when it leaves its second lock
      section, and it queued that refresh itself exactly when none was outstanding before. */
  lemma MissLeavesRefreshOutstanding(start: real, run: seq<Step>, poll: nat, job: nat)
    requires ValidRun(Init(start), run) && Enabled(After(Init(start), run), PollSubmit(poll, job))
    ensures var s := After(Init(start), run);
      var name := s.polls[poll].name;
      var t := Apply(s, PollSubmit(poll, job));
      && |JobsFor(t, name)| == 1
      && (job in JobsFor(t, name) <==> JobsFor(s, name) == {})
  {
    InvHolds(Init(start), run);
    var s := After(Init(start), run);
    var name := s.polls[poll].name;
    var t := Apply(s, PollSubmit(poll, job));
    SingleFlightStep(s, PollSubmit(poll, job));
    var j :| j in JobsFor(t, name);
    assert JobsFor(t, name) == {j};
    if name in s.inFlight {
      var k :| k in JobsFor(s, name);
    }
  }

  /** What a reply's is_fresh field says later. A fresh hit is always under the TTL old. A stale reply
      whose document reads fresh is under the maximum age at its own clock reading, or else a poll
      with a strictly earlier clock reading has stamped the same document. */
  lemma FreshReplyIsYoung(start: real, run: seq<Step>, p: nat)
    requires ValidRun(Init(start), run)
    requires var s := After(Init(start), run);
      p in s.polls && s.polls[p].Replied? && !s.polls[p].reply.Placeholder?
    ensures var s := After(Init(start), run);
      var Replied(_, now, reply) := s.polls[p];
      && reply.entry.doc in s.docs
      && s.docs[reply.entry.doc].fetchedAt == reply.entry.fetchedAt
      && (reply.Hit? ==> now - reply.entry.fetchedAt < 5.0)
      && (s.docs[reply.entry.doc].isFresh ==>
            || now - reply.entry.fetchedAt < 10.0
            || exists q :: Stamped(s, q, reply.entry.doc) && s.polls[q].now < now)
  {
    InvHolds(Init(start), run);
    var s := After(Init(start), run);
    var Replied(_, now, reply) := s.polls[p];
    assert PollOk(s, s.polls[p]);
    if reply.Stale? && s.docs[reply.entry.doc].isFresh && !Young(s.polls[p]) {
      assert Stamped(s, p, reply.entry.doc);
      var q :| Stamped(s, q, reply.entry.doc) && Young(s.polls[q]);
      assert PollOk(s, s.polls[q]);
    }
  }

  predicate Restamps(s: State, step: Step, d: nat)
    requires Enabled(s, step)
  {
    step.PollReply? && Stamped(Apply(s, step), step.poll, d)
  }

  predicate Unstamped(s: State, run: seq<Step>, d: nat)
    requires ValidRun(s, run)
    decreases |run|
  {
    run == [] || (!Restamps(s, run[0], d) && Unstamped(Apply(s, run[0]), run[1..], d))
  }

  lemma UnstampedStep(s: State, step: Step, d: nat)
    requires Enabled(s, step) && d in s.docs && !Restamps(s, step, d)
    ensures d in Apply(s, step).docs && Apply(s, step).docs[d] == s.docs[d]
  {
    assert step.PollReply? ==> Stamped(Apply(s, step), step.poll, d) == Restamps(s, step, d);
  }

  lemma UnstampedKeeps(s: State, run: seq<Step>, d: nat)
    requires Inv(s) && ValidRun(s, run) && d in s.docs && Unstamped(s, run, d)
    ensures d in After(s, run).docs && After(s, run).docs[d] == s.docs[d]
    decreases |run|
  {
    if run != [] {
      UnstampedStep(s, run[0], d);
      StepInv(s, run[0]);
      UnstampedKeeps(Apply(s, run[0]), run[1..], d);
    }
  }

  /** As long as no other poll stamps the same document in between, a stale reply reads fresh exactly
      when its entry is under the maximum age at that poll's clock reading. */
  lemma FreshExactlyWhenYoung(start: real, before: seq<Step>, poll: nat, e: Entry, run: seq<Step>)
    requires ValidRun(Init(start), before) && Enabled(After(Init(start), before), PollReply(poll))
    requires After(Init(start), before).polls[poll].cached == Some(e)
    requires var t := Apply(After(Init(start), before), PollReply(poll));
      ValidRun(t, run) && Unstamped(t, run, e.doc)
    ensures var s := After(Init(start), before);
      var u := After(Apply(s, PollReply(poll)), run);
      e.doc in u.docs && (u.docs[e.doc].isFresh <==> s.polls[poll].now - e.fetchedAt < 10.0)
  {
    InvHolds(Init(start), before);
    var s := After(Init(start), before);
    StepInv(s, PollReply(poll));
    UnstampedKeeps(Apply(s, PollReply(poll)), run, e.doc);
  }

  lemma RunAppend(s: State, a: seq<Step>, b: seq<Step>)
    requires ValidRun(s, a) && ValidRun(After(s, a), b)
    ensures ValidRun(s, a + b) && After(s, a + b) == After(After(s, a), b)
    decreases |a|
  {
    if a == [] {
      assert a + b == b;
    } else {
      assert (a + b)[1..] == a[1..] + b;
      RunAppend(Apply(s, a[0]), a[1..], b);
    }
  }

  lemma RunTwo(s: State, a: Step, b: Step)
    requires Enabled(s, a) && Enabled(Apply(s, a), b)
    ensures ValidRun(s, [a, b]) && After(s, [a, b]) == Apply(Apply(s, a), b)
  {
    assert [a, b][1..] == [b] && [b][1..] == [];
    var t := Apply(s, a);
    assert ValidRun(t, [b]) && After(t, [b]) == After(Apply(t, b), []);
  }

  lemma RunFour(s: State, a: Step, b: Step, c: Step, d: Step)
    requires Enabled(s, a) && Enabled(Apply(s, a), b)
    requires Enabled(Apply(Apply(s, a), b), c) && Enabled(Apply(Apply(Apply(s, a), b), c), d)
    ensures ValidRun(s, [a, b, c, d])
    ensures After(s, [a, b, c, d]) == Apply(Apply(Apply(Apply(s, a), b), c), d)
  {
    RunTwo(s, a, b);
    RunTwo(Apply(Apply(s, a), b), c, d);
    RunAppend(s, [a, b], [c, d]);
    assert [a, b] + [c, d] == [a, b, c, d];
  }

  lemma RefreshAt0(ok: bool) returns (run: seq<Step>, s: State)
    ensures ValidRun(Init(0.0), run) && s == After(Init(0.0), run)
    ensures s.clock == 0.0 && Mt5At0(s, !ok)
    ensures 1 !in s.polls && 2 !in s.polls && 1 !in s.jobs && 2 !in s.jobs
  {
    var s0 := Init(0.0);
    var first := [PollStart(0, "mt5"), PollLook(0), PollSubmit(0, 0), JobFetch(0, ok)];
    RunFour(s0, first[0], first[1], first[2], first[3]);
    var s1 := After(s0, first);
    var second := [JobStore(0, 7), JobRelease(0), Tick(0.0), Tick(0.0)];
    RunFour(s1, second[0], second[1], second[2], second[3]);
    RunAppend(s0, first, second);
    run, s := first + second, After(s1, second);
  }

  /** Without that proviso the reading can be wrong. Two polls reuse an entry fetched at 0, poll 1
      with clock reading 6 and poll 2 with 20, and poll 1 stamps last. */
  lemma LateStampMisleads() returns (run: seq<Step>)
    ensures ValidRun(Init(0.0), run)
    ensures var s := After(Init(0.0), run);
      && Stamped(s, 2, 7) && 7 in s.docs && s.docs[7].isFresh
      && s.polls[2].now - s.polls[2].reply.entry.fetchedAt == 20.0
  {
    var warm, s0 := RefreshAt0(true);
    var a, s1 := PollAt6(s0, false);
    var b, s2 := PollAt20(s1);
    RunAppend(Init(0.0), warm, a);
    RunAppend(Init(0.0), warm + a, b);
    run := warm + a + b;
  }

  /** A fetch that fails at 0 is cached as a fallback. A poll with clock reading 6 finds it expired but
      under the maximum age, and its reply, the error, reads fresh. */
  lemma CachedErrorReadsFresh() returns (run: seq<Step>)
    ensures ValidRun(Init(0.0), run)
    ensures var s := After(Init(0.0), run);
      && Stamped(s, 1, 7) && s.polls[1].reply.entry.fallback
      && 7 in s.docs && s.docs[7].isFresh
  {
    var warm, s0 := RefreshAt0(false);
    var a, s1 := PollAt6(s0, true);
    RunTwo(s1, PollReply(1), Tick(6.0));
    RunAppend(Init(0.0), warm, a);
    RunAppend(Init(0.0), warm + a, [PollReply(1), Tick(6.0)]);
    run := warm + a + [PollReply(1), Tick(6.0)];
  }

  predicate Mt5At0(s: State, fallback: bool) {
    s.cache == map["mt5" := Entry(7, LIVE_CACHE_TTL, 0.0, fallback)] && 7 in s.docs
  }

  /** A poll with clock reading 6 has been through its second lock section with this entry. */
  predicate HasSubmitted(s: State, p: nat, e: Entry) {
    p in s.polls && s.polls[p] == Submitted("mt5", 6.0, Some(e))
  }

  lemma PollAt6(s: State, fallback: bool) returns (run: seq<Step>, t: State)
    requires s.clock == 0.0 && Mt5At0(s, fallback)
    requires 1 !in s.polls && 2 !in s.polls && 1 !in s.jobs && 2 !in s.jobs
    ensures ValidRun(s, run) && t == After(s, run) && t.clock == 6.0 && Mt5At0(t, fallback)
    ensures HasSubmitted(t, 1, Entry(7, LIVE_CACHE_TTL, 0.0, fallback)) && 2 !in t.polls && 2 !in t.jobs
  {
    run := [Tick(6.0), PollStart(1, "mt5"), PollLook(1), PollSubmit(1, 1)];
    RunFour(s, run[0], run[1], run[2], run[3]);
    t := After(s, run);
  }

  lemma PollAt20(s: State) returns (run: seq<Step>, u: State)
    requires s.clock == 6.0 && Mt5At0(s, false)
    requires HasSubmitted(s, 1, Entry(7, LIVE_CACHE_TTL, 0.0, false)) && 2 !in s.polls && 2 !in s.jobs
    ensures ValidRun(s, run) && u == After(s, run)
    ensures 2 in u.polls && u.polls[2] == Replied("mt5", 20.0, Stale(Entry(7, LIVE_CACHE_TTL, 0.0, false)))
    ensures 7 in u.docs && u.docs[7] == Document(0.0, true)
  {
    var a := [Tick(20.0), PollStart(2, "mt5"), PollLook(2), PollSubmit(2, 2)];
    RunFour(s, a[0], a[1], a[2], a[3]);
    var t := After(s, a);
    assert t.polls[2] == Submitted("mt5", 20.0, Some(s.cache["mt5"]));
    RunTwo(t, PollReply(2), PollReply(1));
    u := After(t, [PollReply(2), PollReply(1)]);
    RunAppend(s, a, [PollReply(2), PollReply(1)]);
    run := a + [PollReply(2), PollReply(1)];
  }

  // ----- the module-level tables, one method per atomic section

  /** The shared tables. A method is one lock section, or one lock-free update of a shared document,
      of the call or job named by its arguments; between methods any other one may run. */
  class LiveSources {
    var clock: real
    var cache: map<string, Entry>
    var inFlight: set<string>
    var jobs: map<nat, Job>
    var polls: map<nat, Poll>
    var docs: map<nat, Document>

    ghost function View(): State
      reads this
    {
      State(clock, cache, inFlight, jobs, polls, docs)
    }

    constructor (start: real)
      ensures View() == Init(start)
    {
      clock, cache, inFlight, jobs, polls, docs := start, map[], {}, map[], map[], map[];
    }

    /** The cache read of a poll and the freshness test on what it read. */
    method Look(poll: nat) returns (reply: Option<Entry>)
      requires Enabled(View(), PollLook(poll))
      modifies `polls
      ensures View() == Apply(old(View()), PollLook(poll))
      ensures reply.Some? <==> polls[poll].Replied?
      ensures reply.Some? ==> polls[poll].reply == Hit(reply.value)
    {
      var now, name := polls[poll].now, polls[poll].name;
      var cached := None;
      if name in cache {
        cached := Some(cache[name]);
      }
      if cached.Some? {
        if now < cached.value.expiry && now - cached.value.fetchedAt < MAX_LIVE_AGE_SECONDS {
          polls := polls[poll := Replied(name, now, Hit(cached.value))];
          return cached;
        }
      }
      polls := polls[poll := Looked(name, now, cached)];
      return None;
    }

    /** The deduplicated submission of a background refresh. */
    method SubmitOnce(poll: nat, job: nat)
      requires Enabled(View(), PollSubmit(poll, job))
      modifies `polls, `inFlight, `jobs
      ensures View() == Apply(old(View()), PollSubmit(poll, job))
    {
      var q := polls[poll];
      if q.name !in inFlight {
        inFlight := inFlight + {q.name};
        jobs := jobs[job := Queued(q.name)];
      }
      polls := polls[poll := Submitted(q.name, q.now, q.cached)];
    }

    /** The reply of a poll that was no fresh hit: it stamps the shared document without the lock. */
    method ReplyStale(poll: nat)
      requires Enabled(View(), PollReply(poll))
      modifies `polls, `docs
      ensures View() == Apply(old(View()), PollReply(poll))
    {
      var q := polls[poll];
      if q.cached.Some? {
        var e := q.cached.value;
        var age := q.now - e.fetchedAt;
        docs := docs[e.doc := Document(e.fetchedAt, age < MAX_LIVE_AGE_SECONDS)];
        polls := polls[poll := Replied(q.name, q.now, Stale(e))];
      } else {
        polls := polls[poll := Replied(q.name, q.now, Placeholder)];
      }
    }

    /** The cache write of a worker, after a fetch that returned or raised. */
    method Store(job: nat, doc: nat)
      requires Enabled(View(), JobStore(job, doc))
      modifies `cache, `docs, `jobs
      ensures View() == Apply(old(View()), JobStore(job, doc))
    {
      var j := jobs[job];
      docs := docs[doc := Document(j.now, j.ok)];
      cache := cache[j.name := Entry(doc, j.now + LIVE_CACHE_TTL, j.now, !j.ok)];
      jobs := jobs[job := Stored(j.name)];
    }

    /** The finally block of a worker. */
    method Release(job: nat)
      requires Enabled(View(), JobRelease(job))
      modifies `inFlight, `jobs
      ensures View() == Apply(old(View()), JobRelease(job))
    {
      inFlight := inFlight - {jobs[job].name};
      jobs := jobs - {job};
    }
  }
}
