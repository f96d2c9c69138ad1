/** Exactly when a poll of the live-source cache is a fresh hit, and what follows for refreshes and stamps. */
module FreshHits {
  import opened Prelude
  import opened LiveCache
  import opened CachedErrors

  /** Over every run: a poll that looks replies with an entry as a fresh hit exactly when the cache holds
      that entry for its source and its clock reading is less than 5 s after the entry's fetch. Otherwise
      it goes on to its second lock section with what the cache holds. */
  lemma HitIff(start: real, run: seq<Step>, p: nat, e: Entry)
    requires ValidRun(Init(start), run) && Enabled(After(Init(start), run), PollLook(p))
    ensures var s := After(Init(start), run);
      var Started(name, now) := s.polls[p];
      var q := Apply(s, PollLook(p)).polls[p];
      && (q == Replied(name, now, Hit(e)) <==> name in s.cache && s.cache[name] == e && now - e.fetchedAt < 5.0)
      && ((name in s.cache ==> now - s.cache[name].fetchedAt >= 5.0) <==> q.Looked?)
      && (q.Looked? ==> q.name == name && q.now == now && q.cached == Lookup(s.cache, name))
  {
    InvHolds(Init(start), run);
  }

  /** Once replied, a poll takes no further step: its reply stays. */
  lemma {:induction false} RepliesStay(s: State, run: seq<Step>, p: nat)
    requires ValidRun(s, run) && p in s.polls && s.polls[p].Replied?
    ensures p in After(s, run).polls && After(s, run).polls[p] == s.polls[p]
    ensures forall k: nat, j :: k < |run| ==> run[k] != PollSubmit(p, j) && run[k] != PollReply(p)
    decreases |run|
  {
    if run != [] {
      RepliesStay(Apply(s, run[0]), run[1..], p);
      assert forall k: nat :: 0 < k < |run| ==> run[k] == run[1..][k - 1];
    }
  }

  /** A poll less than 5 s after the fetch it finds in the cache queues no refresh and stamps no document,
      then or later: looking changes nothing but the poll's own state, and no other step of it follows. */
  lemma YoungHitQueuesNothing(start: real, before: seq<Step>, p: nat, run: seq<Step>)
    requires ValidRun(Init(start), before) && Enabled(After(Init(start), before), PollLook(p))
    requires var s := After(Init(start), before);
      s.polls[p].name in s.cache && s.polls[p].now - s.cache[s.polls[p].name].fetchedAt < 5.0
    requires ValidRun(Apply(After(Init(start), before), PollLook(p)), run)
    ensures var s := After(Init(start), before);
      var t := Apply(s, PollLook(p));
      && t == s.(polls := t.polls)
      && t.polls[p] == Replied(s.polls[p].name, s.polls[p].now, Hit(s.cache[s.polls[p].name]))
      && p in After(t, run).polls && After(t, run).polls[p] == t.polls[p]
      && forall k: nat, j :: k < |run| ==> run[k] != PollSubmit(p, j) && run[k] != PollReply(p)
  {
    var s := After(Init(start), before);
    HitIff(start, before, p, s.cache[s.polls[p].name]);
    RepliesStay(Apply(s, PollLook(p)), run, p);
  }

  /** What a poll that missed holds or replies: the entry it found, or a placeholder if it found none. */
  ghost predicate MissedWith(q: Poll, name: string, now: real, found: Option<Entry>) {
    && q.name == name && q.now == now
    && match q
       case Started(_, _) => false
       case Looked(_, _, cached) => cached == found
       case Submitted(_, _, cached) => cached == found
       case Replied(_, _, reply) => reply == if found.Some? then Stale(found.value) else Placeholder
  }

  lemma {:induction false} MissStays(s: State, run: seq<Step>, p: nat, name: string, now: real, found: Option<Entry>)
    requires ValidRun(s, run) && p in s.polls && MissedWith(s.polls[p], name, now, found)
    ensures p in After(s, run).polls && MissedWith(After(s, run).polls[p], name, now, found)
    decreases |run|
  {
    if run != [] {
      MissStays(Apply(s, run[0]), run[1..], p, name, now, found);
    }
  }

  /** A poll's reply is decided when it looks, whatever others do before it replies: a hit on what the
      cache holds then if that is under 5 s old, the same entry as a stale reply if it is older, a
      placeholder if there is none. */
  lemma ReplyIsDecidedAtLook(start: real, before: seq<Step>, p: nat, run: seq<Step>)
    requires ValidRun(Init(start), before) && Enabled(After(Init(start), before), PollLook(p))
    requires ValidRun(Apply(After(Init(start), before), PollLook(p)), run)
    requires var u := After(Apply(After(Init(start), before), PollLook(p)), run);
      p in u.polls && u.polls[p].Replied?
    ensures var s := After(Init(start), before);
      var Started(name, now) := s.polls[p];
      After(Apply(s, PollLook(p)), run).polls[p] == Replied(name, now,
        if name !in s.cache then Placeholder
        else if now - s.cache[name].fetchedAt < 5.0 then Hit(s.cache[name])
        else Stale(s.cache[name]))
  {
    var s := After(Init(start), before);
    var Started(name, now) := s.polls[p];
    var t := Apply(s, PollLook(p));
    HitIff(start, before, p, if name in s.cache then s.cache[name] else Entry(0, 0.0, 0.0, false));
    if t.polls[p].Looked? {
      MissStays(t, run, p, name, now, Lookup(s.cache, name));
    } else {
      RepliesStay(t, run, p);
    }
  }

  /** Over every run a poll that has stamped a document read the clock at least 5 s after that document's
      fetch. */
  lemma StampsAreLate(start: real, run: seq<Step>, q: nat, d: nat)
    requires ValidRun(Init(start), run) && Stamped(After(Init(start), run), q, d)
    ensures var s := After(Init(start), run);
      d in s.docs && 5.0 <= s.polls[q].now - s.docs[d].fetchedAt <= s.clock - s.docs[d].fetchedAt
  {
    InvHolds(Init(start), run);
    assert PollOk(After(Init(start), run), After(Init(start), run).polls[q]);
  }

  /** So for the first 5 s after its fetch every reply reads as it was cached: an error, although it is a
      fresh hit, reads not fresh. */
  lemma YoungReplyReadsAsCached(start: real, run: seq<Step>, p: nat)
    requires ValidRun(Init(start), run)
    requires var s := After(Init(start), run);
      && p in s.polls && s.polls[p].Replied? && !s.polls[p].reply.Placeholder?
      && s.clock - s.polls[p].reply.entry.fetchedAt < 5.0
    ensures var s := After(Init(start), run);
      var e := s.polls[p].reply.entry;
      s.polls[p].reply.Hit? && e.doc in s.docs && (s.docs[e.doc].isFresh <==> !e.fallback)
  {
    var s := After(Init(start), run);
    var e := s.polls[p].reply.entry;
    FreshReplyIsYoung(start, run, p);
    ErrorReadsFreshOnlyWhenStamped(start, run, p);
    if EverStamped(s, e.doc) {
      var q :| Stamped(s, q, e.doc);
      StampsAreLate(start, run, q, e.doc);
    }
    if s.polls[p].reply.Stale? {
      assert Stamped(s, p, e.doc);
    }
  }
}
