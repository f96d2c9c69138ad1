/** The sliding-window rate limiter. Calls are modelled one after the other, each with the clock
    reading it made; the code reads the clock before it takes the lock, so readings need not arrive in
    order, and the results say where they rely on a nondecreasing clock. */
module RateLimiter {
  import opened Prelude

  datatype Config = Config(maxRequests: int, window: real)

  datatype Call = Ask(client: string, now: real) | Peek(client: string, now: real)

  /** Drops expired timestamps from the front. */
  function Prune(times: seq<real>, cutoff: real): seq<real> {
    if times != [] && times[0] < cutoff then Prune(times[1..], cutoff) else times
  }

  predicate Allows(cfg: Config, times: seq<real>, now: real) {
    |Prune(times, now - cfg.window)| < cfg.maxRequests
  }

  function Handle(cfg: Config, times: seq<real>, call: Call): seq<real> {
    var kept := Prune(times, call.now - cfg.window);
    if call.Ask? && Allows(cfg, times, call.now) then kept + [call.now] else kept
  }

  function Times(windows: map<string, seq<real>>, client: string): seq<real> {
    if client in windows then windows[client] else []
  }

  function Free(cfg: Config, used: nat): int {
    if cfg.maxRequests > used then cfg.maxRequests - used else 0
  }

  function Remaining(cfg: Config, times: seq<real>, now: real): int {
    Free(cfg, |Prune(times, now - cfg.window)|)
  }

  class Limiter {
    const cfg: Config
    var windows: map<string, seq<real>>

    constructor (cfg: Config)
      ensures this.cfg == cfg && windows == map[]
    {
      this.cfg := cfg;
      windows := map[];
    }

    /** Removes the client's expired timestamps. */
    method Expire(client: string, cutoff: real)
      requires client in windows
      modifies `windows
      ensures windows == old(windows)[client := Prune(old(windows[client]), cutoff)]
    {
      var times := windows[client];
      while times != [] && times[0] < cutoff
        invariant Prune(times, cutoff) == Prune(windows[client], cutoff)
      {
        times := times[1..];
      }
      windows := windows[client := times];
    }

    method IsAllowed(client: string, now: real) returns (allowed: bool)
      modifies `windows
      ensures allowed <==> Allows(cfg, Times(old(windows), client), now)
      ensures windows == old(windows)[client := Handle(cfg, Times(old(windows), client), Ask(client, now))]
    {
      if client !in windows {
        windows := windows[client := []];
      }
      Expire(client, now - cfg.window);
      var window := windows[client];
      if |window| >= cfg.maxRequests {
        return false;
      }
      windows := windows[client := window + [now]];
      return true;
    }

    method RemainingFor(client: string, now: real) returns (free: int)
      modifies `windows
      ensures free == Remaining(cfg, Times(old(windows), client), now)
      ensures windows == if client in old(windows)
        then old(windows)[client := Handle(cfg, Times(old(windows), client), Peek(client, now))]
        else old(windows)
    {
      var count := 0;
      if client in windows {
        Expire(client, now - cfg.window);
        count := |windows[client]|;
      }
      free := if cfg.maxRequests - count > 0 then cfg.maxRequests - count else 0;
    }
  }

  // ----- runs

  function Run(cfg: Config, calls: seq<Call>): map<string, seq<real>> {
    if calls == [] then map[]
    else
      var before, call := Run(cfg, calls[..|calls| - 1]), calls[|calls| - 1];
      if call.Peek? && call.client !in before then before
      else before[call.client := Handle(cfg, Times(before, call.client), call)]
  }

  /** What one more call of the client adds to its accepted requests, given its window. */
  function Accept(cfg: Config, accepted: seq<real>, kept: seq<real>, call: Call): seq<real> {
    if call.Ask? && Allows(cfg, kept, call.now) then accepted + [call.now] else accepted
  }

  /** The times at which the client's requests were accepted, in order. */
  function Accepted(cfg: Config, calls: seq<Call>, client: string): seq<real> {
    if calls == [] then []
    else
      var before, call := calls[..|calls| - 1], calls[|calls| - 1];
      var accepted := Accepted(cfg, before, client);
      if call.client == client then Accept(cfg, accepted, Times(Run(cfg, before), client), call) else accepted
  }

  lemma RunStep(cfg: Config, before: seq<Call>, call: Call, calls: seq<Call>, client: string)
    requires calls != [] && before == calls[..|calls| - 1] && call == calls[|calls| - 1]
    ensures Times(Run(cfg, calls), client)
         == if call.client == client then Handle(cfg, Times(Run(cfg, before), client), call)
            else Times(Run(cfg, before), client)
    ensures Accepted(cfg, calls, client)
         == if call.client == client
            then Accept(cfg, Accepted(cfg, before, client), Times(Run(cfg, before), client), call)
            else Accepted(cfg, before, client)
  {
    hide Accept, Allows;
  }

  ghost predicate Nondecreasing(calls: seq<Call>) {
    forall i, j :: 0 <= i < j < |calls| ==> calls[i].now <= calls[j].now
  }

  function CountIn(times: seq<real>, lo: real, hi: real): nat {
    if times == [] then 0
    else CountIn(times[..|times| - 1], lo, hi) + if lo <= times[|times| - 1] <= hi then 1 else 0
  }

  ghost predicate Ascending(times: seq<real>) {
    forall i, j :: 0 <= i < j < |times| ==> times[i] <= times[j]
  }

  /** What the limiter keeps of the accepted times: a suffix, the rest being older than the window at
      any clock reading from `now` on. */
  ghost predicate Keeps(cfg: Config, accepted: seq<real>, kept: seq<real>, now: real) {
    && Ascending(accepted)
    && (accepted != [] ==> accepted[|accepted| - 1] <= now)
    && |kept| <= |accepted|
    && kept == accepted[|accepted| - |kept|..]
    && forall i :: 0 <= i < |accepted| - |kept| ==> accepted[i] < now - cfg.window
  }

  lemma {:induction false} PruneOfSorted(times: seq<real>, cutoff: real)
    requires Ascending(times)
    ensures var kept := Prune(times, cutoff);
      && |kept| <= |times| && kept == times[|times| - |kept|..]
      && (forall i :: 0 <= i < |times| - |kept| ==> times[i] < cutoff)
      && (forall i :: |times| - |kept| <= i < |times| ==> cutoff <= times[i])
  {
    if times != [] && times[0] < cutoff {
      PruneOfSorted(times[1..], cutoff);
      assert forall i :: 0 < i < |times| ==> times[i] == times[1..][i - 1];
    }
  }

  lemma PruneOfKept(cfg: Config, accepted: seq<real>, kept: seq<real>, now: real, later: real)
    requires Keeps(cfg, accepted, kept, now) && now <= later
    ensures var d := |accepted| - |Prune(kept, later - cfg.window)|;
      && 0 <= d && Prune(kept, later - cfg.window) == accepted[d..]
      && (forall i :: 0 <= i < d ==> accepted[i] < later - cfg.window)
      && (forall i :: d <= i < |accepted| ==> later - cfg.window <= accepted[i])
  {
    var d := |accepted| - |kept|;
    assert forall i :: 0 <= i < |kept| ==> kept[i] == accepted[d + i];
    PruneOfSorted(kept, later - cfg.window);
    hide Prune;
    assert forall i :: d <= i < |accepted| ==> accepted[i] == kept[i - d];
  }

  /** Pruning at a later reading keeps exactly the accepted times of the last window. */
  lemma PruneKeeps(cfg: Config, accepted: seq<real>, kept: seq<real>, now: real, later: real)
    requires Keeps(cfg, accepted, kept, now) && now <= later
    ensures Keeps(cfg, accepted, Prune(kept, later - cfg.window), later)
    ensures |Prune(kept, later - cfg.window)| == CountIn(accepted, later - cfg.window, later)
  {
    hide Prune;
    PruneOfKept(cfg, accepted, kept, now, later);
    CountSplit(accepted, |accepted| - |Prune(kept, later - cfg.window)|, later - cfg.window, later);
    hide CountIn;
  }

  lemma {:induction false} CountSplit(times: seq<real>, d: nat, lo: real, hi: real)
    requires d <= |times|
    requires forall i :: 0 <= i < d ==> times[i] < lo
    requires forall i :: d <= i < |times| ==> lo <= times[i] <= hi
    ensures CountIn(times, lo, hi) == |times| - d
  {
    if times != [] {
      if d == |times| {
        CountNone(times, lo, hi);
      } else {
        CountSplit(times[..|times| - 1], d, lo, hi);
      }
    }
  }

  lemma {:induction false} CountNone(times: seq<real>, lo: real, hi: real)
    requires forall i :: 0 <= i < |times| ==> times[i] < lo
    ensures CountIn(times, lo, hi) == 0
  {
    if times != [] {
      CountNone(times[..|times| - 1], lo, hi);
    }
  }

  /** Along every run with a nondecreasing clock the limiter keeps the accepted times of the window. */
  lemma {:induction false} RunKeeps(cfg: Config, calls: seq<Call>, client: string, now: real)
    requires Nondecreasing(calls) && (calls != [] ==> calls[|calls| - 1].now <= now)
    ensures Keeps(cfg, Accepted(cfg, calls, client), Times(Run(cfg, calls), client), now)
  {
    if calls != [] {
      hide Prune, Allows, Handle, Accept, Run, Accepted, Keeps, Nondecreasing;
      OrderedPrefix(calls);
      var before, call := calls[..|calls| - 1], calls[|calls| - 1];
      RunKeeps(cfg, before, client, call.now);
      RunStep(cfg, before, call, calls, client);
      var accepted, kept := Accepted(cfg, before, client), Times(Run(cfg, before), client);
      if call.client == client {
        HandleKeeps(cfg, accepted, kept, call);
      }
      KeepsLater(cfg, Accepted(cfg, calls, client), Times(Run(cfg, calls), client), call.now, now);
    }
  }

  lemma KeepsLater(cfg: Config, accepted: seq<real>, kept: seq<real>, now: real, later: real)
    requires Keeps(cfg, accepted, kept, now) && now <= later
    ensures Keeps(cfg, accepted, kept, later)
  {
  }

  lemma HandleKeeps(cfg: Config, accepted: seq<real>, kept: seq<real>, call: Call)
    requires Keeps(cfg, accepted, kept, call.now)
    ensures Keeps(cfg, Accept(cfg, accepted, kept, call), Handle(cfg, kept, call), call.now)
  {
    hide Prune, Allows, Keeps, CountIn;
    PruneKeeps(cfg, accepted, kept, call.now, call.now);
    KeepsAppend(cfg, accepted, Prune(kept, call.now - cfg.window), call.now);
  }

  lemma KeepsAppend(cfg: Config, accepted: seq<real>, kept: seq<real>, now: real)
    requires Keeps(cfg, accepted, kept, now)
    ensures Keeps(cfg, accepted + [now], kept + [now], now)
  {
    var all := accepted + [now];
    forall i, j | 0 <= i < j < |all|
      ensures all[i] <= all[j]
    {
      assert i < |accepted| ==> accepted[i] <= accepted[|accepted| - 1];
    }
  }

  lemma OrderedPrefix(calls: seq<Call>)
    requires Nondecreasing(calls) && calls != []
    ensures Nondecreasing(calls[..|calls| - 1])
    ensures |calls| > 1 ==> calls[|calls| - 2].now <= calls[|calls| - 1].now
  {
  }

  /** A request is refused exactly when the last window, both ends included, already holds the maximum
      number of accepted requests of that client. */
  lemma RefusedExactlyWhenFull(cfg: Config, calls: seq<Call>, client: string, now: real)
    requires Nondecreasing(calls + [Ask(client, now)])
    ensures !Allows(cfg, Times(Run(cfg, calls), client), now)
       <==> CountIn(Accepted(cfg, calls, client), now - cfg.window, now) >= cfg.maxRequests
  {
    hide Run, Accepted, Prune, Keeps;
    BeforeNext(calls, Ask(client, now));
    RunKeeps(cfg, calls, client, now);
    PruneKeeps(cfg, Accepted(cfg, calls, client), Times(Run(cfg, calls), client), now, now);
  }

  /** The reported remainder is what the last window leaves free, so it is positive exactly when a
      request at the same time would be accepted. */
  lemma RemainingAgrees(cfg: Config, calls: seq<Call>, client: string, now: real)
    requires Nondecreasing(calls + [Peek(client, now)])
    ensures var free := Remaining(cfg, Times(Run(cfg, calls), client), now);
      && (free > 0 <==> Allows(cfg, Times(Run(cfg, calls + [Peek(client, now)]), client), now))
      && free == Free(cfg, CountIn(Accepted(cfg, calls, client), now - cfg.window, now))
  {
    hide *;
    BeforeNext(calls, Peek(client, now));
    RunKeeps(cfg, calls, client, now);
    PruneKeeps(cfg, Accepted(cfg, calls, client), Times(Run(cfg, calls), client), now, now);
    PeekPrunes(cfg, calls, client, now);
    FreeExactlyWhenAllowed(cfg, Times(Run(cfg, calls), client), now);
  }

  lemma PeekPrunes(cfg: Config, calls: seq<Call>, client: string, now: real)
    ensures Times(Run(cfg, calls + [Peek(client, now)]), client)
         == Prune(Times(Run(cfg, calls), client), now - cfg.window)
  {
    var all := calls + [Peek(client, now)];
    assert all[..|calls|] == calls && all[|calls|] == Peek(client, now);
    hide Run, Prune, Accepted;
    RunStep(cfg, calls, Peek(client, now), all, client);
  }

  lemma FreeExactlyWhenAllowed(cfg: Config, times: seq<real>, now: real)
    ensures var used := |Prune(times, now - cfg.window)|;
      && Remaining(cfg, times, now) == Free(cfg, used)
      && (Free(cfg, used) > 0 <==> Allows(cfg, Prune(times, now - cfg.window), now))
  {
    hide Prune;
    PruneTwice(times, now - cfg.window);
  }

  lemma {:induction false} PruneTwice(times: seq<real>, cutoff: real)
    ensures Prune(Prune(times, cutoff), cutoff) == Prune(times, cutoff)
  {
    if times != [] && times[0] < cutoff {
      PruneTwice(times[1..], cutoff);
    }
  }

  lemma BeforeNext(calls: seq<Call>, call: Call)
    requires Nondecreasing(calls + [call])
    ensures Nondecreasing(calls) && (calls != [] ==> calls[|calls| - 1].now <= call.now)
  {
    var all := calls + [call];
    assert forall i :: 0 <= i < |calls| ==> calls[i] == all[i];
    assert calls != [] ==> all[|calls| - 1].now <= all[|calls|].now;
  }

  // ----- no interval holds too many

  /** No call of the client has a reading more than d behind an earlier one. */
  ghost predicate LateBy(calls: seq<Call>, client: string, d: real) {
    forall i, j :: 0 <= i < j < |calls| && calls[i].client == client && calls[j].client == client ==>
      calls[i].now <= calls[j].now + d
  }

  ghost predicate ReadingsUpTo(calls: seq<Call>, client: string, top: real) {
    forall i :: 0 <= i < |calls| && calls[i].client == client ==> calls[i].now <= top
  }

  /** Whatever the order of the readings, what is kept is a suffix of what was accepted, and what was
      dropped is older than the window before any bound on the readings. */
  ghost predicate KeepsSuffix(cfg: Config, accepted: seq<real>, kept: seq<real>, top: real) {
    && |kept| <= |accepted|
    && kept == accepted[|accepted| - |kept|..]
    && forall i :: 0 <= i < |accepted| - |kept| ==> accepted[i] < top - cfg.window
  }

  lemma {:induction false} PruneIsSuffix(times: seq<real>, cutoff: real)
    ensures var kept := Prune(times, cutoff);
      && |kept| <= |times| && kept == times[|times| - |kept|..]
      && forall i :: 0 <= i < |times| - |kept| ==> times[i] < cutoff
  {
    if times != [] && times[0] < cutoff {
      PruneIsSuffix(times[1..], cutoff);
      assert forall i :: 0 < i < |times| ==> times[i] == times[1..][i - 1];
    }
  }

  lemma PruneKeepsSuffix(cfg: Config, accepted: seq<real>, kept: seq<real>, now: real, top: real)
    requires KeepsSuffix(cfg, accepted, kept, top) && now <= top
    ensures KeepsSuffix(cfg, accepted, Prune(kept, now - cfg.window), top)
  {
    PruneIsSuffix(kept, now - cfg.window);
    hide Prune;
    var d := |accepted| - |kept|;
    assert forall i :: 0 <= i < |kept| ==> kept[i] == accepted[d + i];
    assert forall i :: d <= i < |accepted| ==> accepted[i] == kept[i - d];
  }

  lemma {:induction false} RunKeepsSuffix(cfg: Config, calls: seq<Call>, client: string, top: real)
    requires ReadingsUpTo(calls, client, top)
    ensures KeepsSuffix(cfg, Accepted(cfg, calls, client), Times(Run(cfg, calls), client), top)
  {
    if calls != [] {
      hide Run, Accepted, Accept, Handle, Prune, Allows, KeepsSuffix;
      var before, call := calls[..|calls| - 1], calls[|calls| - 1];
      RunKeepsSuffix(cfg, before, client, top);
      RunStep(cfg, before, call, calls, client);
      if call.client == client {
        HandleKeepsSuffix(cfg, Accepted(cfg, before, client), Times(Run(cfg, before), client), call, top);
      }
    } else {
      assert Accepted(cfg, calls, client) == Times(Run(cfg, calls), client) == [];
    }
  }

  lemma HandleKeepsSuffix(cfg: Config, accepted: seq<real>, kept: seq<real>, call: Call, top: real)
    requires KeepsSuffix(cfg, accepted, kept, top) && call.now <= top
    ensures KeepsSuffix(cfg, Accept(cfg, accepted, kept, call), Handle(cfg, kept, call), top)
  {
    hide Prune, Allows, KeepsSuffix;
    PruneKeepsSuffix(cfg, accepted, kept, call.now, top);
    AppendKeepsSuffix(cfg, accepted, Prune(kept, call.now - cfg.window), call.now, top);
  }

  lemma AppendKeepsSuffix(cfg: Config, accepted: seq<real>, kept: seq<real>, now: real, top: real)
    requires KeepsSuffix(cfg, accepted, kept, top)
    ensures KeepsSuffix(cfg, accepted + [now], kept + [now], top)
  {
  }

  lemma {:induction false} CountAtMost(times: seq<real>, n: nat, lo: real, hi: real)
    requires n <= |times| && forall i :: 0 <= i < n ==> times[i] < lo
    ensures CountIn(times, lo, hi) <= |times| - n
  {
    if times != [] {
      CountAtMost(times[..|times| - 1], if n == |times| then n - 1 else n, lo, hi);
    }
  }

  /** An accepted request leaves room for itself: what was dropped before it is older than any interval of
      length window - d that it is in. */
  lemma AcceptFits(cfg: Config, accepted: seq<real>, kept: seq<real>, now: real, d: real, t: real)
    requires d >= 0.0 && KeepsSuffix(cfg, accepted, kept, now + d) && Allows(cfg, kept, now)
    requires t <= now <= t + (cfg.window - d)
    ensures CountIn(accepted, t, t + (cfg.window - d)) < cfg.maxRequests
  {
    PruneKeepsSuffix(cfg, accepted, kept, now, now + d);
    var pruned := Prune(kept, now - cfg.window);
    hide Prune, CountIn;
    CountAtMost(accepted, |accepted| - |pruned|, t, t + (cfg.window - d));
  }

  lemma CountGrows(times: seq<real>, x: real, lo: real, hi: real)
    ensures CountIn(times + [x], lo, hi) == CountIn(times, lo, hi) + if lo <= x <= hi then 1 else 0
  {
    assert (times + [x])[..|times|] == times;
  }

  lemma LatePrefix(calls: seq<Call>, client: string, d: real)
    requires calls != [] && LateBy(calls, client, d)
    ensures LateBy(calls[..|calls| - 1], client, d)
    ensures calls[|calls| - 1].client == client ==>
      ReadingsUpTo(calls[..|calls| - 1], client, calls[|calls| - 1].now + d)
  {
  }

  /** If no reading of a client is more than d behind an earlier one, no closed interval of the window's
      length less d ever holds more than the maximum number of accepted requests of that client. */
  lemma {:induction false} NoIntervalOverfullWhenLate(cfg: Config, calls: seq<Call>, client: string, d: real, t: real)
    requires d >= 0.0 && LateBy(calls, client, d)
    ensures CountIn(Accepted(cfg, calls, client), t, t + (cfg.window - d)) <= Free(cfg, 0)
  {
    if calls == [] {
      assert Accepted(cfg, calls, client) == [];
    } else {
      hide Run, Accepted, KeepsSuffix, CountIn, Prune, LateBy, ReadingsUpTo;
      LatePrefix(calls, client, d);
      var before, call := calls[..|calls| - 1], calls[|calls| - 1];
      NoIntervalOverfullWhenLate(cfg, before, client, d, t);
      RunStep(cfg, before, call, calls, client);
      var accepted, kept := Accepted(cfg, before, client), Times(Run(cfg, before), client);
      if call.client == client && call.Ask? && Allows(cfg, kept, call.now) {
        RunKeepsSuffix(cfg, before, client, call.now + d);
        CountGrows(accepted, call.now, t, t + (cfg.window - d));
        if t <= call.now <= t + (cfg.window - d) {
          AcceptFits(cfg, accepted, kept, call.now, d, t);
        }
      }
    }
  }

  /** With a nondecreasing clock, no closed interval of the window's length ever holds more than the
      maximum number of accepted requests of a client. */
  lemma NoIntervalOverfull(cfg: Config, calls: seq<Call>, client: string, t: real)
    requires Nondecreasing(calls)
    ensures CountIn(Accepted(cfg, calls, client), t, t + cfg.window)
         <= if cfg.maxRequests > 0 then cfg.maxRequests else 0
  {
    NoIntervalOverfullWhenLate(cfg, calls, client, 0.0, t);
    hide CountIn, Accepted;
    assert t + (cfg.window - 0.0) == t + cfg.window;
  }

  // ----- clients do not affect each other

  function CallsOf(calls: seq<Call>, client: string): seq<Call> {
    if calls == [] then []
    else
      var before := CallsOf(calls[..|calls| - 1], client);
      if calls[|calls| - 1].client == client then before + [calls[|calls| - 1]] else before
  }

  /** A client's window and accepted requests are those of its own calls alone. */
  lemma {:induction false} ClientsAreIndependent(cfg: Config, calls: seq<Call>, client: string)
    ensures Times(Run(cfg, calls), client) == Times(Run(cfg, CallsOf(calls, client)), client)
    ensures Accepted(cfg, calls, client) == Accepted(cfg, CallsOf(calls, client), client)
  {
    if calls != [] {
      hide Run, Accepted, Handle, Accept;
      var before, call := calls[..|calls| - 1], calls[|calls| - 1];
      ClientsAreIndependent(cfg, before, client);
      RunStep(cfg, before, call, calls, client);
      if call.client == client {
        RunStep(cfg, CallsOf(before, client), call, CallsOf(calls, client), client);
      }
    }
  }

  // ----- readings out of order

  lemma AskNext(cfg: Config, calls: seq<Call>, client: string, now: real)
    ensures var all, kept := calls + [Ask(client, now)], Times(Run(cfg, calls), client);
      && Times(Run(cfg, all), client) == Handle(cfg, kept, Ask(client, now))
      && Accepted(cfg, all, client) == Accept(cfg, Accepted(cfg, calls, client), kept, Ask(client, now))
  {
    assert (calls + [Ask(client, now)])[..|calls|] == calls;
    RunStep(cfg, calls, Ask(client, now), calls + [Ask(client, now)], client);
  }

  /** The bound needs the readings in order: with two requests per 10 seconds, a call that read the
      clock at 5 but took the lock after one at 20 is the third accepted request of [0, 10]. */
  lemma LateReadingOverfills()
    ensures var calls := [Ask("c", 0.0), Ask("c", 1.0), Ask("c", 20.0), Ask("c", 5.0)];
      CountIn(Accepted(Config(2, 10.0), calls, "c"), 0.0, 10.0) == 3
  {
    var cfg := Config(2, 10.0);
    var c1, c2, c3 := [Ask("c", 0.0)], [Ask("c", 0.0), Ask("c", 1.0)], [Ask("c", 0.0), Ask("c", 1.0), Ask("c", 20.0)];
    AskNext(cfg, [], "c", 0.0);
    assert [] + [Ask("c", 0.0)] == c1 && Times(Run(cfg, c1), "c") == [0.0];
    AskNext(cfg, c1, "c", 1.0);
    assert Times(Run(cfg, c2), "c") == [0.0, 1.0];
    AskNext(cfg, c2, "c", 20.0);
    assert Prune([0.0, 1.0], 10.0) == [] by {
      assert [0.0, 1.0][1..] == [1.0] && [1.0][1..] == [];
    }
    assert Times(Run(cfg, c3), "c") == [20.0];
    AskNext(cfg, c3, "c", 5.0);
    var a := [0.0, 1.0, 20.0, 5.0];
    assert Accepted(cfg, c3 + [Ask("c", 5.0)], "c") == a;
    assert a[..3] == [0.0, 1.0, 20.0] && a[..3][..2] == [0.0, 1.0] && [0.0, 1.0][..1] == [0.0] && [0.0][..0] == [];
    assert CountIn([0.0, 1.0], 0.0, 10.0) == 2 && CountIn(a[..3], 0.0, 10.0) == 2 && CountIn(a, 0.0, 10.0) == 3;
    assert c3 + [Ask("c", 5.0)] == [Ask("c", 0.0), Ask("c", 1.0), Ask("c", 20.0), Ask("c", 5.0)];
  }

  /** With a limit of one request: one at 0, then a look at a time after the window has passed. */
  lemma WindowPasses(window: real, later: real)
    requires 0.0 <= window < later
    ensures var cfg, calls := Config(1, window), [Ask("c", 0.0), Peek("c", later)];
      Times(Run(cfg, calls), "c") == [] && Accepted(cfg, calls, "c") == [0.0]
  {
    var cfg := Config(1, window);
    var c1, c2 := [Ask("c", 0.0)], [Ask("c", 0.0), Peek("c", later)];
    AskNext(cfg, [], "c", 0.0);
    assert [] + [Ask("c", 0.0)] == c1 && [] + [0.0] == [0.0];
    assert Times(Run(cfg, c1), "c") == [0.0] && Accepted(cfg, c1, "c") == [0.0];
    assert c2[..1] == c1;
    hide Run, Accepted;
    RunStep(cfg, c1, Peek("c", later), c2, "c");
    assert Prune([0.0], later - window) == [];
  }

  lemma ThenAccepted(window: real, later: real, late: real)
    requires 0.0 <= window < later
    ensures var calls := [Ask("c", 0.0), Peek("c", later), Ask("c", late)];
      Accepted(Config(1, window), calls, "c") == [0.0, late]
  {
    var c2 := [Ask("c", 0.0), Peek("c", later)];
    WindowPasses(window, later);
    AskNext(Config(1, window), c2, "c", late);
    assert c2 + [Ask("c", late)] == [Ask("c", 0.0), Peek("c", later), Ask("c", late)];
    assert [0.0] + [late] == [0.0, late];
    hide Run, Accepted;
  }

  lemma CountOfTwo(a: real, b: real, hi: real)
    requires 0.0 <= a <= hi && 0.0 <= b <= hi
    ensures CountIn([a, b], 0.0, hi) == 2
  {
    assert [a, b][..1] == [a] && [a][..0] == [];
    assert CountIn([a], 0.0, hi) == 1;
  }

  /** The interval cannot be longer: for a limit of one request, any lateness up to the window and any
      excess over its length less that lateness, two accepted requests fit. */
  lemma LateBoundIsTight(window: real, d: real, excess: real)
    requires 0.0 <= d <= window && excess > 0.0
    ensures var cfg, late := Config(1, window), window + excess - d;
      var calls := [Ask("c", 0.0), Peek("c", window + excess), Ask("c", late)];
      LateBy(calls, "c", d) && CountIn(Accepted(cfg, calls, "c"), 0.0, window - d + excess) == 2
  {
    var late := window + excess - d;
    var calls := [Ask("c", 0.0), Peek("c", window + excess), Ask("c", late)];
    assert LateBy(calls, "c", d);
    hide *;
    ThenAccepted(window, window + excess, late);
    CountOfTwo(0.0, late, window - d + excess);
  }
}
