/** What the live-source cache says of a cached error: when it reads fresh, and who made it so. */
module CachedErrors {
  import opened Prelude
  import opened LiveCache

  /** Whether a poll has stamped the document. */
  ghost predicate EverStamped(s: State, d: nat) {
    exists q :: Stamped(s, q, d)
  }

  /** Until some poll stamps it, an entry's document reads fresh exactly when the fetch succeeded. */
  ghost predicate AsStored(s: State, e: Entry) {
    e.doc in s.docs && (!EverStamped(s, e.doc) ==> (s.docs[e.doc].isFresh <==> !e.fallback))
  }

  /** The entry a poll holds or has replied with. */
  function Held(q: Poll): Option<Entry> {
    match q
    case Started(_, _) => None
    case Looked(_, _, cached) => cached
    case Submitted(_, _, cached) => cached
    case Replied(_, _, Hit(e)) => Some(e)
    case Replied(_, _, Stale(e)) => Some(e)
    case Replied(_, _, Placeholder) => None
  }

  ghost predicate AllAsStored(s: State) {
    && (forall name :: name in s.cache ==> AsStored(s, s.cache[name]))
    && (forall p :: p in s.polls && Held(s.polls[p]).Some? ==> AsStored(s, Held(s.polls[p]).value))
  }

  lemma StampsStay(s: State, step: Step, d: nat)
    requires Enabled(s, step)
    ensures EverStamped(s, d) ==> EverStamped(Apply(s, step), d)
    ensures step.PollReply? && s.polls[step.poll].cached.Some? ==>
      EverStamped(Apply(s, step), s.polls[step.poll].cached.value.doc)
  {
    var t := Apply(s, step);
    if EverStamped(s, d) {
      var q :| Stamped(s, q, d);
      assert Stamped(t, q, d);
    }
    if step.PollReply? && s.polls[step.poll].cached.Some? {
      assert Stamped(t, step.poll, s.polls[step.poll].cached.value.doc);
    }
  }

  /** No step but a stamp touches a document that is there. */
  lemma EntryStaysAsStored(s: State, step: Step, e: Entry)
    requires Enabled(s, step) && AsStored(s, e)
    ensures AsStored(Apply(s, step), e)
  {
    StampsStay(s, step, e.doc);
    hide EverStamped;
  }

  lemma StoredEntryIsAsStored(s: State, step: Step)
    requires Enabled(s, step) && step.JobStore? && forall p :: p in s.polls ==> PollOk(s, s.polls[p])
    ensures AsStored(Apply(s, step), Apply(s, step).cache[s.jobs[step.job].name])
  {
  }

  lemma StepAsStored(s: State, step: Step)
    requires Enabled(s, step) && Inv(s) && AllAsStored(s)
    ensures AllAsStored(Apply(s, step))
  {
    var t := Apply(s, step);
    hide AsStored;
    forall name | name in t.cache
      ensures AsStored(t, t.cache[name])
    {
      if step.JobStore? && name == s.jobs[step.job].name {
        StoredEntryIsAsStored(s, step);
      } else {
        EntryStaysAsStored(s, step, s.cache[name]);
      }
    }
    forall p | p in t.polls && Held(t.polls[p]).Some?
      ensures AsStored(t, Held(t.polls[p]).value)
    {
      HeldBefore(s, step, p);
      EntryStaysAsStored(s, step, Held(t.polls[p]).value);
    }
  }

  /** A poll holds what it held before, or what it has just read from the cache. */
  lemma HeldBefore(s: State, step: Step, p: nat)
    requires Enabled(s, step) && AllAsStored(s)
    requires p in Apply(s, step).polls && Held(Apply(s, step).polls[p]).Some?
    ensures AsStored(s, Held(Apply(s, step).polls[p]).value)
  {
    hide AsStored;
  }

  lemma RunAsStored(s: State, run: seq<Step>)
    requires Inv(s) && AllAsStored(s) && ValidRun(s, run)
    ensures AllAsStored(After(s, run))
    decreases |run|
  {
    if run != [] {
      hide Apply, Enabled, AllAsStored, Inv;
      StepInv(s, run[0]);
      StepAsStored(s, run[0]);
      RunAsStored(Apply(s, run[0]), run[1..]);
    }
  }

  /** Over every run a reply whose document no poll has stamped reads fresh exactly when its fetch
      succeeded; and an error, replied as a hit or stale, that reads fresh has been stamped by a poll that
      found it under the maximum age. */
  lemma ErrorReadsFreshOnlyWhenStamped(start: real, run: seq<Step>, p: nat)
    requires ValidRun(Init(start), run)
    requires var s := After(Init(start), run);
      p in s.polls && s.polls[p].Replied? && !s.polls[p].reply.Placeholder?
    ensures var s := After(Init(start), run);
      var e := s.polls[p].reply.entry;
      && e.doc in s.docs
      && (!EverStamped(s, e.doc) ==> (s.docs[e.doc].isFresh <==> !e.fallback))
      && (e.fallback && s.docs[e.doc].isFresh ==> exists q :: Stamped(s, q, e.doc) && Young(s.polls[q]))
  {
    InvHolds(Init(start), run);
    RunAsStored(Init(start), run);
    var s := After(Init(start), run);
    var e := s.polls[p].reply.entry;
    assert Held(s.polls[p]) == Some(e);
    assert AsStored(s, e);
  }
}
