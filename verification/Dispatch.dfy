/** Coordinating workflow dispatches after a release merge: existing runs are reused, missing ones
    dispatched one at a time, and a delayed run is never dispatched twice. */
module Dispatch {
  import opened Options
  import opened Ordering

  /** One reading of a run. `trusted` gathers the identity checks: repository, workflow, path,
      branch, event, title and first attempt. */
  datatype RunView = RunView(trusted: bool, completed: bool, success: bool)

  /** GitHub and the clock, as answers to the `t`-th call: which runs carry the title, how a run
      looks, whether the dispatch command succeeds, and how long the call takes. */
  datatype GitHub = GitHub(listing: nat -> seq<int>, view: (int, nat) -> RunView, accepts: nat -> bool,
                           delay: nat -> nat)

  datatype Clock = Clock(now: nat, calls: nat)

  datatype Event = Listed(ids: seq<int>, at: nat) | Confirmed(id: int, at: nat) | Dispatched

  datatype Stop = Untrusted | ProducerFailed | WaitedTooLong | TooLateToDispatch | CommandFailed | NeverVisible

  datatype Outcome = Returned(ids: seq<int>) | Stopped(reason: Stop)

  const POLL := 30
  const SEARCH_POLL := 10
  const DEADLINE := 10800
  const DISCOVERY := 300

  function Tick(c: Clock, g: GitHub, sleep: nat): Clock { Clock(c.now + g.delay(c.calls) + sleep, c.calls + 1) }

  // ---------------------------------------------------------- the protocol, as a machine

  datatype Phase = Starting | Confirming | Searching

  /** `found` holds the listings that counted: the first, and each one that showed a new run. */
  datatype State = State(phase: Phase, found: seq<seq<int>>, awaiting: seq<int>, completed: seq<int>, dispatches: nat)

  function Added(ids: seq<int>, previous: seq<int>): (r: seq<int>)
    ensures forall x :: x in r <==> x in ids && x !in previous
  {
    if ids == [] then []
    else
      var front, last := ids[..|ids| - 1], ids[|ids| - 1];
      assert ids == front + [last];
      Added(front, previous) + if last in previous then [] else [last]
  }

  function Next(s: State, e: Event, count: int): Option<State> {
    match e
    case Listed(ids, _) =>
      if s.phase.Starting? then Some(State(Confirming, [ids], ids, [], 0))
      else if s.phase.Searching? && s.found != [] then
        var added := Added(ids, s.found[|s.found| - 1]);
        if added == [] then Some(s) else Some(s.(phase := Confirming, found := s.found + [ids], awaiting := added))
      else None
    case Confirmed(id, _) =>
      if s.phase.Confirming? && s.awaiting != [] && s.awaiting[0] == id
      then Some(s.(awaiting := s.awaiting[1..], completed := s.completed + [id]))
      else None
    case Dispatched =>
      if s.phase.Confirming? && s.awaiting == [] && |s.completed| < count
      then Some(s.(phase := Searching, dispatches := s.dispatches + 1))
      else None
  }

  /** The state the machine is in after a log it accepts. */
  function After(log: seq<Event>, count: int): Option<State> {
    if log == [] then Some(State(Starting, [], [], [], 0))
    else
      var before := After(log[..|log| - 1], count);
      if before.None? then None else Next(before.value, log[|log| - 1], count)
  }

  lemma AfterOneMore(log: seq<Event>, e: Event, count: int)
    requires After(log, count).Some?
    ensures After(log + [e], count) == Next(After(log, count).value, e, count)
  {
    assert (log + [e])[..|log|] == log;
  }

  /** The event is what GitHub said at that call: a listing as given, a confirmation of a trusted
      first attempt that completed successfully. */
  ghost predicate Seen(e: Event, g: GitHub) {
    match e
    case Listed(ids, at) => ids == g.listing(at)
    case Confirmed(id, at) => var v := g.view(id, at); v.trusted && v.completed && v.success
    case Dispatched => true
  }

  ghost predicate Witnessed(log: seq<Event>, g: GitHub) { forall k | 0 <= k < |log| :: Seen(log[k], g) }

  // ------------------------------------------------------- the coordinator, as functions

  datatype Waited = Done | Failed(reason: Stop)

  datatype Polled = Polled(result: Waited, clock: Clock, at: nat)

  datatype Confirmation = Confirmation(result: Waited, clock: Clock, log: seq<Event>)

  datatype Found = Found(runs: seq<int>, added: seq<int>, clock: Clock, log: seq<Event>)

  datatype Ended = Ended(outcome: Outcome, log: seq<Event>)

  /** Poll one run until it completes, cannot be trusted, or the deadline passes. */
  function Poll(g: GitHub, id: int, deadline: nat, clock: Clock): Polled
    decreases if clock.now < deadline then deadline - clock.now else 0
  {
    if clock.now >= deadline then Polled(Failed(WaitedTooLong), clock, clock.calls)
    else
      var run := g.view(id, clock.calls);
      if !run.trusted then Polled(Failed(Untrusted), Tick(clock, g, 0), clock.calls)
      else if run.completed then
        Polled(if run.success then Done else Failed(ProducerFailed), Tick(clock, g, 0), clock.calls)
      else Poll(g, id, deadline, Tick(clock, g, POLL))
  }

  function Confirm(g: GitHub, ids: seq<int>, deadline: nat, clock: Clock, log: seq<Event>): Confirmation
    decreases |ids|
  {
    if ids == [] then Confirmation(Done, clock, log)
    else
      var p := Poll(g, ids[0], deadline, clock);
      if p.result.Failed? then Confirmation(p.result, p.clock, log)
      else Confirm(g, ids[1..], deadline, p.clock, log + [Confirmed(ids[0], p.at)])
  }

  /** Read listings until one shows a run that `previous` does not; `added` is empty when none did in time. */
  function Search(g: GitHub, previous: seq<int>, limit: nat, clock: Clock, log: seq<Event>): Found
    decreases if clock.now < limit then limit - clock.now else 0
  {
    if clock.now >= limit then Found([], [], clock, log)
    else
      var runs := g.listing(clock.calls);
      var added := Added(runs, previous);
      if added != [] then Found(runs, added, Tick(clock, g, 0), log + [Listed(runs, clock.calls)])
      else Search(g, previous, limit, Tick(clock, g, SEARCH_POLL), log + [Listed(runs, clock.calls)])
  }

  function SearchLimit(clock: Clock, deadline: nat): nat {
    if clock.now + DISCOVERY < deadline then clock.now + DISCOVERY else deadline
  }

  /** Dispatch, wait until the new run shows, and confirm it, until there are enough. */
  function Fill(g: GitHub, count: int, deadline: nat, clock: Clock, runs: seq<int>, completed: seq<int>,
                log: seq<Event>): Ended
    decreases count - |completed|
  {
    if |completed| >= count then Ended(Returned(completed), log)
    else if clock.now >= deadline then Ended(Stopped(TooLateToDispatch), log)
    else if !g.accepts(clock.calls) then Ended(Stopped(CommandFailed), log + [Dispatched])
    else
      var sent := Tick(clock, g, 0);
      var f := Search(g, runs, SearchLimit(sent, deadline), sent, log + [Dispatched]);
      if f.added == [] then Ended(Stopped(NeverVisible), f.log)
      else
        var w := Confirm(g, f.added, deadline, f.clock, f.log);
        if w.result.Failed? then Ended(Stopped(w.result.reason), w.log)
        else Fill(g, count, deadline, w.clock, f.runs, completed + f.added, w.log)
  }

  function Coordinate(g: GitHub, count: int, start: Clock): Ended {
    var clock := Tick(start, g, 0);
    var runs := g.listing(clock.calls);
    var w := Confirm(g, runs, clock.now + DEADLINE, Tick(clock, g, 0), [Listed(runs, clock.calls)]);
    if w.result.Failed? then Ended(Stopped(w.result.reason), w.log)
    else Fill(g, count, clock.now + DEADLINE, w.clock, runs, runs, w.log)
  }

  // ------------------------------------------------------------------- the methods

  /** `wait_run`. */
  method WaitRun(g: GitHub, id: int, deadline: nat, clock: Clock) returns (r: Waited, after: Clock, at: nat)
    ensures Polled(r, after, at) == Poll(g, id, deadline, clock)
    ensures r.Done? ==> var v := g.view(id, at); v.trusted && v.completed && v.success
    ensures r == Failed(Untrusted) ==> !g.view(id, at).trusted
    ensures r == Failed(ProducerFailed) ==> var v := g.view(id, at); v.trusted && v.completed && !v.success
    ensures r == Failed(WaitedTooLong) ==> after.now >= deadline
    ensures r.Failed? ==> r.reason in {Untrusted, ProducerFailed, WaitedTooLong}
  {
    after := clock;
    while after.now < deadline
      invariant Poll(g, id, deadline, after) == Poll(g, id, deadline, clock)
      decreases deadline - after.now
    {
      at := after.calls;
      var run := g.view(id, at);
      if !run.trusted { return Failed(Untrusted), Tick(after, g, 0), at; }
      if run.completed {
        if !run.success { return Failed(ProducerFailed), Tick(after, g, 0), at; }
        return Done, Tick(after, g, 0), at;
      }
      after := Tick(after, g, POLL);
    }
    return Failed(WaitedTooLong), after, after.calls;
  }

  /** Confirm runs one after the other, adding to the log of what was done. */
  method WaitAll(g: GitHub, ids: seq<int>, deadline: nat, clock: Clock, before: seq<Event>)
    returns (r: Waited, after: Clock, log: seq<Event>)
    ensures Confirmation(r, after, log) == Confirm(g, ids, deadline, clock, before)
  {
    hide Poll;
    after, log := clock, before;
    assert ids[0..] == ids;
    for k := 0 to |ids|
      invariant Confirm(g, ids[k..], deadline, after, log) == Confirm(g, ids, deadline, clock, before)
    {
      var waited, next, at := WaitRun(g, ids[k], deadline, after);
      assert ids[k..][0] == ids[k] && ids[k..][1..] == ids[k + 1..];
      if waited.Failed? { return waited, next, log; }
      after := next;
      log := log + [Confirmed(ids[k], at)];
    }
    return Done, after, log;
  }

  /** `ensure_runs`. Whatever GitHub answers, the log of what was done is one the machine accepts,
      also when the method stops early. */
  method EnsureRuns(g: GitHub, count: int, start: Clock) returns (r: Outcome, log: seq<Event>)
    ensures Ended(r, log) == Coordinate(g, count, start)
    ensures After(log, count).Some? && Witnessed(log, g)
    ensures r.Returned? ==> Returnable(log, count, r.ids)
    ensures r == Stopped(NeverVisible) ==> After(log, count).value.phase.Searching?
  {
    hide After, Witnessed, Returnable, Confirm;
    CoordinateAccepted(g, count, start);
    var clock := Tick(start, g, 0);
    var deadline := clock.now + DEADLINE;
    var runs := g.listing(clock.calls);
    log := [Listed(runs, clock.calls)];
    clock := Tick(clock, g, 0);
    var waited;
    waited, clock, log := WaitAll(g, runs, deadline, clock, log);
    if waited.Failed? { return Stopped(waited.reason), log; }
    var completed := runs;
    while |completed| < count
      invariant Fill(g, count, deadline, clock, runs, completed, log) == Coordinate(g, count, start)
      decreases count - |completed|
    {
      if clock.now >= deadline { return Stopped(TooLateToDispatch), log; }
      var previous := runs;
      log := log + [Dispatched];
      var accepted := g.accepts(clock.calls);
      clock := Tick(clock, g, 0);
      if !accepted { return Stopped(CommandFailed), log; }
      var limit := SearchLimit(clock, deadline);
      var added: seq<int> := [];
      ghost var goal := Search(g, previous, limit, clock, log);
      while clock.now < limit && added == []
        invariant goal == if added == [] then Search(g, previous, limit, clock, log) else Found(runs, added, clock, log)
        decreases added == [], if clock.now < limit then limit - clock.now else 0
      {
        runs := g.listing(clock.calls);
        added := Added(runs, previous);
        log := log + [Listed(runs, clock.calls)];
        clock := Tick(clock, g, if added == [] then SEARCH_POLL else 0);
      }
      if added == [] { return Stopped(NeverVisible), log; }
      waited, clock, log := WaitAll(g, added, deadline, clock, log);
      if waited.Failed? { return Stopped(waited.reason), log; }
      completed := completed + added;
    }
    return Returned(completed), log;
  }

  // ---------------------------------------------------- what it does is always accepted

  /** All the machine says of a log after which the coordinator returns `ids`. */
  ghost predicate Returnable(log: seq<Event>, count: int, ids: seq<int>) {
    && After(log, count).Some? && |ids| >= count
    && var s := After(log, count).value; s.phase.Confirming? && s.awaiting == [] && s.completed == ids
  }

  lemma OneMoreEvent(log: seq<Event>, e: Event, count: int, g: GitHub)
    requires After(log, count).Some? && Next(After(log, count).value, e, count).Some? && Witnessed(log, g) && Seen(e, g)
    ensures After(log + [e], count) == Next(After(log, count).value, e, count) && Witnessed(log + [e], g)
  {
    AfterOneMore(log, e, count);
  }

  lemma {:induction false} PollSeen(g: GitHub, id: int, deadline: nat, clock: Clock)
    ensures var p := Poll(g, id, deadline, clock);
            && (p.result.Done? ==> Seen(Confirmed(id, p.at), g))
            && (p.result.Failed? ==> p.result.reason in {Untrusted, ProducerFailed, WaitedTooLong})
    decreases if clock.now < deadline then deadline - clock.now else 0
  {
    if clock.now < deadline && g.view(id, clock.calls).trusted && !g.view(id, clock.calls).completed {
      PollSeen(g, id, deadline, Tick(clock, g, POLL));
    }
  }

  lemma {:induction false} ConfirmAccepted(g: GitHub, ids: seq<int>, deadline: nat, clock: Clock, log: seq<Event>,
                                           count: int)
    requires After(log, count).Some? && Witnessed(log, g)
    requires var s := After(log, count).value; s.phase.Confirming? && s.awaiting == ids
    ensures var w := Confirm(g, ids, deadline, clock, log);
            && After(w.log, count).Some? && Witnessed(w.log, g)
            && (w.result.Failed? ==> w.result.reason in {Untrusted, ProducerFailed, WaitedTooLong})
            && (w.result.Done? ==>
                  var s := After(log, count).value;
                  After(w.log, count).value == s.(awaiting := [], completed := s.completed + ids))
    decreases |ids|
  {
    hide After, Witnessed, Poll, Seen;
    var s := After(log, count).value;
    if ids == [] {
      assert s.completed + ids == s.completed;
    } else {
      var p := Poll(g, ids[0], deadline, clock);
      PollSeen(g, ids[0], deadline, clock);
      if p.result.Done? {
        OneMoreEvent(log, Confirmed(ids[0], p.at), count, g);
        ConfirmAccepted(g, ids[1..], deadline, p.clock, log + [Confirmed(ids[0], p.at)], count);
        assert s.completed + [ids[0]] + ids[1..] == s.completed + ids;
      }
    }
  }

  lemma {:induction false} SearchAccepted(g: GitHub, previous: seq<int>, limit: nat, clock: Clock, log: seq<Event>,
                                          count: int)
    requires After(log, count).Some? && Witnessed(log, g)
    requires var s := After(log, count).value; s.phase.Searching? && s.found != [] && s.found[|s.found| - 1] == previous
    ensures var f := Search(g, previous, limit, clock, log);
            && After(f.log, count).Some? && Witnessed(f.log, g)
            && var s := After(log, count).value;
               After(f.log, count).value ==
               if f.added == [] then s else s.(phase := Confirming, found := s.found + [f.runs], awaiting := f.added)
    decreases if clock.now < limit then limit - clock.now else 0
  {
    hide After, Witnessed;
    if clock.now < limit {
      var runs := g.listing(clock.calls);
      OneMoreEvent(log, Listed(runs, clock.calls), count, g);
      if Added(runs, previous) == [] {
        SearchAccepted(g, previous, limit, Tick(clock, g, SEARCH_POLL), log + [Listed(runs, clock.calls)], count);
      }
    }
  }

  ghost predicate EndsWell(e: Ended, count: int, g: GitHub) {
    && After(e.log, count).Some? && Witnessed(e.log, g)
    && (e.outcome.Returned? ==> Returnable(e.log, count, e.outcome.ids))
    && (e.outcome == Stopped(NeverVisible) ==> After(e.log, count).value.phase.Searching?)
  }

  lemma {:induction false} FillAccepted(g: GitHub, count: int, deadline: nat, clock: Clock, runs: seq<int>,
                                        completed: seq<int>, log: seq<Event>)
    requires After(log, count).Some? && Witnessed(log, g)
    requires var s := After(log, count).value;
             && s.phase.Confirming? && s.awaiting == [] && s.completed == completed
             && s.found != [] && s.found[|s.found| - 1] == runs
    ensures EndsWell(Fill(g, count, deadline, clock, runs, completed, log), count, g)
    decreases count - |completed|
  {
    hide After, Witnessed, Search, Confirm;
    if |completed| < count && clock.now < deadline {
      OneMoreEvent(log, Dispatched, count, g);
      if g.accepts(clock.calls) {
        var sent := Tick(clock, g, 0);
        var f := Search(g, runs, SearchLimit(sent, deadline), sent, log + [Dispatched]);
        SearchAccepted(g, runs, SearchLimit(sent, deadline), sent, log + [Dispatched], count);
        if f.added != [] {
          ConfirmAccepted(g, f.added, deadline, f.clock, f.log, count);
          var w := Confirm(g, f.added, deadline, f.clock, f.log);
          if w.result.Done? { FillAccepted(g, count, deadline, w.clock, f.runs, completed + f.added, w.log); }
        }
      }
    }
  }

  lemma CoordinateAccepted(g: GitHub, count: int, start: Clock)
    ensures EndsWell(Coordinate(g, count, start), count, g)
  {
    hide Fill, Confirm;
    var clock := Tick(start, g, 0);
    var runs := g.listing(clock.calls);
    var first := [Listed(runs, clock.calls)];
    assert first[..0] == [];
    assert After(first, count) == Some(State(Confirming, [runs], runs, [], 0));
    ConfirmAccepted(g, runs, clock.now + DEADLINE, Tick(clock, g, 0), first, count);
    var w := Confirm(g, runs, clock.now + DEADLINE, Tick(clock, g, 0), first);
    assert [] + runs == runs;
    if w.result.Done? { FillAccepted(g, count, clock.now + DEADLINE, w.clock, runs, runs, w.log); }
  }

  // -------------------------------------------------------------- every accepted log

  function Existing(s: State): nat { if s.found == [] then 0 else |s.found[0]| }

  /** What confirming every counted listing in turn amounts to. */
  function Completed(found: seq<seq<int>>): seq<int> {
    if found == [] then []
    else if |found| == 1 then found[0]
    else Completed(found[..|found| - 1]) + Added(found[|found| - 1], found[|found| - 2])
  }

  ghost predicate Sound(s: State, count: int) {
    && (s.phase.Starting? <==> s.found == [])
    && s.completed + s.awaiting == Completed(s.found)
    && (s.phase.Searching? ==> s.awaiting == [] && s.dispatches > 0)
    && |s.completed| + |s.awaiting| + (if s.phase.Searching? then 1 else 0) >= Existing(s) + s.dispatches
    && (s.dispatches > 0 ==> Existing(s) + s.dispatches <= count)
  }

  lemma {:induction false} AlwaysSound(log: seq<Event>, count: int)
    requires After(log, count).Some?
    ensures Sound(After(log, count).value, count)
  {
    hide Sound, Next;
    if log == [] { StartSound(count); }
    else {
      AlwaysSound(log[..|log| - 1], count);
      NextSound(After(log[..|log| - 1], count).value, log[|log| - 1], count);
    }
  }

  lemma StartSound(count: int)
    ensures Sound(State(Starting, [], [], [], 0), count)
  {
  }

  lemma NextSound(s: State, e: Event, count: int)
    requires Sound(s, count) && Next(s, e, count).Some?
    ensures Sound(Next(s, e, count).value, count)
  {
    match e
    case Listed(ids, at) =>
      if s.phase.Starting? { FirstListed(s, ids, at, count); } else { LaterListed(s, ids, at, count); }
    case Confirmed(id, at) => ConfirmedSound(s, id, at, count);
    case Dispatched => DispatchedSound(s, count);
  }

  lemma FirstListed(s: State, ids: seq<int>, at: nat, count: int)
    requires Sound(s, count) && s.phase.Starting?
    ensures Sound(Next(s, Listed(ids, at), count).value, count)
  {
    assert [] + ids == ids;
  }

  lemma LaterListed(s: State, ids: seq<int>, at: nat, count: int)
    requires Sound(s, count) && !s.phase.Starting? && Next(s, Listed(ids, at), count).Some?
    ensures Sound(Next(s, Listed(ids, at), count).value, count)
  {
    hide Added;
    CompletedExtends(s.found, ids);
    assert s.completed + [] == s.completed;
  }

  lemma CompletedExtends(found: seq<seq<int>>, ids: seq<int>)
    requires found != []
    ensures Completed(found + [ids]) == Completed(found) + Added(ids, found[|found| - 1])
  {
    hide Added;
    assert (found + [ids])[..|found|] == found;
  }

  lemma ConfirmedSound(s: State, id: int, at: nat, count: int)
    requires Sound(s, count) && Next(s, Confirmed(id, at), count).Some?
    ensures Sound(Next(s, Confirmed(id, at), count).value, count)
  {
    hide Completed, Added;
    assert s.completed + [id] + s.awaiting[1..] == s.completed + s.awaiting;
  }

  lemma DispatchedSound(s: State, count: int)
    requires Sound(s, count) && Next(s, Dispatched, count).Some?
    ensures Sound(Next(s, Dispatched, count).value, count)
  {
    hide Completed, Added;
  }

  /** No more dispatches than runs were missing at the start. */
  lemma FewDispatches(log: seq<Event>, count: int)
    requires After(log, count).Some?
    ensures var s := After(log, count).value;
            s.dispatches <= if count > Existing(s) then count - Existing(s) else 0
  {
    AlwaysSound(log, count);
  }

  /** A new run, absent from the listings before the dispatch at `i`, was confirmed by position `m`. */
  ghost predicate NewRunConfirmed(log: seq<Event>, i: nat, m: nat, previous: seq<int>) {
    exists k | i < k < m && k < |log| :: log[k].Confirmed? && log[k].id !in previous
  }

  ghost predicate StillOwed(s: State, previous: seq<int>) {
    && s.found != []
    && (|| (s.phase.Searching? && s.found[|s.found| - 1] == previous)
        || (s.phase.Confirming? && s.awaiting != [] && forall x | x in s.awaiting :: x !in previous))
  }

  lemma {:induction false} AcceptedPrefix(log: seq<Event>, m: nat, count: int)
    requires m <= |log| && After(log, count).Some?
    ensures After(log[..m], count).Some?
    decreases |log|
  {
    if m < |log| {
      AcceptedPrefix(log[..|log| - 1], m, count);
      assert log[..|log| - 1][..m] == log[..m];
    } else { assert log[..m] == log; }
  }

  lemma {:induction false} SinceDispatch(log: seq<Event>, i: nat, m: nat, count: int, previous: seq<int>)
    requires i < m <= |log| && After(log, count).Some? && log[i].Dispatched?
    requires After(log[..i], count).Some?
    requires var s := After(log[..i], count).value; s.found != [] && s.found[|s.found| - 1] == previous
    ensures || NewRunConfirmed(log, i, m, previous)
            || (After(log[..m], count).Some? && StillOwed(After(log[..m], count).value, previous))
    decreases m
  {
    hide StillOwed, Next;
    AcceptedPrefix(log, m, count);
    assert log[..m][..m - 1] == log[..m - 1];
    if m == i + 1 { FirstOwed(After(log[..i], count).value, count, previous); }
    else {
      SinceDispatch(log, i, m - 1, count, previous);
      if !NewRunConfirmed(log, i, m - 1, previous) {
        OwedStep(After(log[..m - 1], count).value, log[m - 1], count, previous);
      }
    }
  }

  lemma FirstOwed(s: State, count: int, previous: seq<int>)
    requires s.found != [] && s.found[|s.found| - 1] == previous && Next(s, Dispatched, count).Some?
    ensures StillOwed(Next(s, Dispatched, count).value, previous)
  {
  }

  lemma OwedStep(s: State, e: Event, count: int, previous: seq<int>)
    requires StillOwed(s, previous) && Next(s, e, count).Some?
    ensures (e.Confirmed? && e.id !in previous) || StillOwed(Next(s, e, count).value, previous)
  {
    assert s.awaiting != [] ==> s.awaiting[0] in s.awaiting;
  }

  lemma DispatchAt(log: seq<Event>, i: nat, count: int)
    requires i < |log| && After(log, count).Some? && log[i].Dispatched?
    ensures After(log[..i], count).Some? && Next(After(log[..i], count).value, Dispatched, count).Some?
  {
    AcceptedPrefix(log, i + 1, count);
    assert log[..i + 1][..i] == log[..i];
  }

  lemma OwedForbids(s: State, count: int, previous: seq<int>)
    requires StillOwed(s, previous)
    ensures Next(s, Dispatched, count).None?
  {
  }

  lemma FoundBeforeDispatch(log: seq<Event>, count: int)
    requires After(log, count).Some? && Next(After(log, count).value, Dispatched, count).Some?
    ensures After(log, count).value.found != []
  {
    AlwaysSound(log, count);
  }

  /** Between two dispatches a run that was not there before the first one has been seen and has
      succeeded: no lost response or delayed run is answered with a second dispatch. */
  lemma NoBlindRetry(log: seq<Event>, i: nat, j: nat, count: int)
    requires i < j < |log| && After(log, count).Some? && log[i].Dispatched? && log[j].Dispatched?
    ensures After(log[..i], count).Some? && After(log[..i], count).value.found != []
    ensures var found := After(log[..i], count).value.found; NewRunConfirmed(log, i, j, found[|found| - 1])
  {
    hide StillOwed, Sound, After, Next;
    DispatchAt(log, i, count);
    DispatchAt(log, j, count);
    var s := After(log[..i], count).value;
    FoundBeforeDispatch(log[..i], count);
    SinceDispatch(log, i, j, count, s.found[|s.found| - 1]);
    if After(log[..j], count).Some? && StillOwed(After(log[..j], count).value, s.found[|s.found| - 1]) {
      OwedForbids(After(log[..j], count).value, count, s.found[|s.found| - 1]);
    }
  }

  /** Every returned run was confirmed. */
  lemma {:induction false} CompletedWereConfirmed(log: seq<Event>, count: int, id: int)
    requires After(log, count).Some? && id in After(log, count).value.completed
    ensures exists k | 0 <= k < |log| :: log[k].Confirmed? && log[k].id == id
  {
    if log != [] {
      var front, last := log[..|log| - 1], log[|log| - 1];
      if id in After(front, count).value.completed {
        CompletedWereConfirmed(front, count, id);
        var k :| 0 <= k < |front| && front[k].Confirmed? && front[k].id == id;
        assert log[k] == front[k];
      } else { assert log[|log| - 1].id == id; }
    }
  }

  // ------------------------------------------------------------- one run counted twice

  /** No run is gone from one counted listing and back in the next. */
  ghost predicate NeverReappears(found: seq<seq<int>>) { forall i: int, j: int, x: int :: !Back(found, i, j, x) }

  predicate Back(found: seq<seq<int>>, i: int, j: int, x: int) {
    0 <= i < j - 1 < |found| - 1 && x in found[i] && x in found[j] && x !in found[j - 1]
  }

  predicate KeptAt(found: seq<seq<int>>, j: int, x: int) { 0 < j < |found| && x in found[j - 1] ==> x in found[j] }

  ghost predicate ListedOnce(found: seq<seq<int>>) {
    && (found != [] ==> Distinct(found[0]))
    && forall j: int :: OnceAt(found, j)
  }

  ghost predicate OnceAt(found: seq<seq<int>>, j: int) { 0 < j < |found| ==> Distinct(Added(found[j], found[j - 1])) }

  lemma ListedOnceStep(found: seq<seq<int>>)
    requires |found| > 1
    ensures ListedOnce(found) <==>
            ListedOnce(found[..|found| - 1]) && Distinct(Added(found[|found| - 1], found[|found| - 2]))
  {
    hide Added;
    var n := |found|;
    var front := found[..n - 1];
    if ListedOnce(found) {
      assert OnceAt(found, n - 1);
      forall j ensures OnceAt(front, j) { assert OnceAt(found, j); }
    }
    if ListedOnce(front) && Distinct(Added(found[n - 1], found[n - 2])) {
      forall j ensures OnceAt(found, j) { assert OnceAt(front, j); }
    }
  }

  lemma {:induction false} InCompleted(found: seq<seq<int>>, x: int)
    ensures x in Completed(found) <==> exists i | 0 <= i < |found| :: x in found[i]
  {
    if |found| > 1 {
      var front := found[..|found| - 1];
      InCompleted(front, x);
      assert forall i | 0 <= i < |front| :: front[i] == found[i];
      assert x in found[|found| - 2] ==> x in front[|front| - 1];
    }
  }

  predicate Apart(a: seq<int>, b: seq<int>) { forall x | x in a :: x !in b }

  lemma DistinctJoin(a: seq<int>, b: seq<int>)
    ensures Distinct(a + b) <==> Distinct(a) && Distinct(b) && Apart(a, b)
  {
    var c := a + b;
    if Distinct(c) {
      forall i, j | 0 <= i < j < |a| ensures a[i] != a[j] { assert c[i] != c[j]; }
      forall i, j | 0 <= i < j < |b| ensures b[i] != b[j] { assert c[|a| + i] != c[|a| + j]; }
      forall i, j | 0 <= i < |a| && 0 <= j < |b| ensures a[i] != b[j] { assert c[i] != c[|a| + j]; }
    }
    if Distinct(a) && Distinct(b) && Apart(a, b) {
      forall i, j | 0 <= i < j < |c| ensures c[i] != c[j] {
        if i < |a| <= j { assert c[i] in a && c[j] == b[j - |a|]; }
      }
    }
  }

  lemma FewListings(found: seq<seq<int>>)
    requires |found| <= 1
    ensures NeverReappears(found) && (ListedOnce(found) <==> Distinct(Completed(found)))
  {
  }

  /** The returned runs are distinct exactly when no listing repeats a run and none is listed
      again after a counted listing left it out. */
  lemma {:induction false} DistinctIff(found: seq<seq<int>>)
    ensures Distinct(Completed(found)) <==> ListedOnce(found) && NeverReappears(found)
  {
    if |found| <= 1 { FewListings(found); }
    else {
      hide ListedOnce, NeverReappears, Added, Apart;
      var n := |found|;
      var front, added := found[..n - 1], Added(found[n - 1], found[n - 2]);
      assert found == front + [found[n - 1]];
      DistinctIff(front);
      DistinctJoin(Completed(front), added);
      LastReappears(found);
      ListedOnceStep(found);
    }
  }

  lemma LastReappears(found: seq<seq<int>>)
    requires |found| > 1
    ensures var n := |found|;
            NeverReappears(found) <==>
            (NeverReappears(found[..n - 1]) && Apart(Completed(found[..n - 1]), Added(found[n - 1], found[n - 2])))
  {
    hide Completed, Added;
    var n := |found|;
    var front := found[..n - 1];
    forall x ensures x in Completed(front) <==> exists i | 0 <= i < n - 1 :: x in found[i] {
      InCompleted(front, x);
      assert forall i | 0 <= i < n - 1 :: front[i] == found[i];
    }
    if NeverReappears(found) {
      forall i, j, x ensures !Back(front, i, j, x) { assert !Back(found, i, j, x); }
      forall x | x in Completed(front) ensures x !in Added(found[n - 1], found[n - 2]) {
        var i :| 0 <= i < n - 1 && x in found[i];
        assert !Back(found, i, n - 1, x);
      }
    }
    if NeverReappears(front) && Apart(Completed(front), Added(found[n - 1], found[n - 2])) {
      forall i, j, x ensures !Back(found, i, j, x) {
        assert !Back(front, i, j, x);
        assert j == n - 1 && Back(found, i, j, x) ==> x in Completed(front);
      }
    }
  }

  /** When every counted listing keeps the runs of the one before, each run is counted once and
      the returned runs are all the runs of the last listing. */
  lemma MonotoneListings(found: seq<seq<int>>)
    requires found != [] && (forall l | l in found :: Distinct(l))
    requires forall j: int, x: int :: KeptAt(found, j, x)
    ensures Distinct(Completed(found)) && Elements(Completed(found)) == Elements(found[|found| - 1])
  {
    hide Completed, Added;
    forall i, j, x | 0 <= i <= j < |found| && x in found[i] ensures x in found[j] { Keeps(found, i, j, x); }
    forall j | 0 < j < |found| ensures OnceAt(found, j) { AddedDistinct(found[j], found[j - 1]); }
    DistinctIff(found);
    forall x ensures x in Completed(found) <==> x in found[|found| - 1] { InCompleted(found, x); }
  }

  lemma {:induction false} Keeps(found: seq<seq<int>>, i: nat, j: nat, x: int)
    requires forall j: int, x: int :: KeptAt(found, j, x)
    requires i <= j < |found| && x in found[i]
    ensures x in found[j]
  {
    if i < j { Keeps(found, i, j - 1, x); assert KeptAt(found, j, x); }
  }

  lemma {:induction false} AddedDistinct(ids: seq<int>, previous: seq<int>)
    requires Distinct(ids)
    ensures Distinct(Added(ids, previous))
  {
    if ids != [] {
      var front, last := ids[..|ids| - 1], ids[|ids| - 1];
      AddedDistinct(front, previous);
      DistinctJoin(Added(front, previous), if last in previous then [] else [last]);
    }
  }

  // --------------------------------------------- distinct exactly for up to two runs

  ghost predicate ListsOnce(g: GitHub) { forall t: nat :: Distinct(g.listing(t)) }

  ghost predicate NoRepeats(log: seq<Event>) { forall k | 0 <= k < |log| && log[k].Listed? :: Distinct(log[k].ids) }

  ghost predicate FewFound(s: State) {
    && (forall l | l in s.found :: Distinct(l))
    && |s.found| <= s.dispatches + if s.phase.Searching? then 0 else 1
  }

  lemma {:induction false} AlwaysFewFound(log: seq<Event>, count: int)
    requires After(log, count).Some? && NoRepeats(log)
    ensures FewFound(After(log, count).value)
  {
    hide FewFound, Next;
    if log == [] { StartFewFound(); }
    else {
      var front, e := log[..|log| - 1], log[|log| - 1];
      assert forall k | 0 <= k < |front| :: front[k] == log[k];
      AlwaysFewFound(front, count);
      NextFewFound(After(front, count).value, e, count);
    }
  }

  lemma StartFewFound()
    ensures FewFound(State(Starting, [], [], [], 0))
  {
  }

  lemma NextFewFound(s: State, e: Event, count: int)
    requires FewFound(s) && (e.Listed? ==> Distinct(e.ids)) && Next(s, e, count).Some?
    ensures FewFound(Next(s, e, count).value)
  {
    hide Added, Distinct;
  }

  /** With at most two runs asked for, two counted listings can differ but no run comes back:
      either there is no third one, or the first was empty. */
  lemma DistinctUpToTwo(log: seq<Event>, count: int)
    requires count <= 2 && After(log, count).Some? && NoRepeats(log)
    ensures Distinct(After(log, count).value.completed)
  {
    hide After, Completed, Distinct, Added, Next;
    var s := After(log, count).value;
    AlwaysSound(log, count);
    AlwaysFewFound(log, count);
    FoundOnce(s.found);
    forall i, j, x ensures !Back(s.found, i, j, x) {}
    DistinctIff(s.found);
    DistinctJoin(s.completed, s.awaiting);
  }

  lemma FoundOnce(found: seq<seq<int>>)
    requires forall l | l in found :: Distinct(l)
    ensures ListedOnce(found)
  {
    hide Added, Distinct;
    forall j ensures OnceAt(found, j) {
      if 0 < j < |found| { AddedDistinct(found[j], found[j - 1]); }
    }
  }

  /** A GitHub that answers at once, trusts every run, and for `n` existing runs hides them in the
      listing after the first dispatch and shows one again after the second. */
  function Flickering(n: nat): GitHub {
    GitHub(t => if t == 1 then seq(n, i => i) else if t == n + 3 then [n] else [0, n],
           (id, t) => RunView(true, true, true), t => true, t => 0)
  }

  ghost predicate Obliging(g: GitHub) {
    forall t: nat :: g.accepts(t) && g.delay(t) == 0 && forall id :: g.view(id, t) == RunView(true, true, true)
  }

  lemma {:induction false} ConfirmsAll(g: GitHub, ids: seq<int>, deadline: nat, clock: Clock, log: seq<Event>)
    requires Obliging(g) && clock.now < deadline
    ensures var w := Confirm(g, ids, deadline, clock, log);
            w.result.Done? && w.clock == Clock(clock.now, clock.calls + |ids|)
    decreases |ids|
  {
    if ids != [] {
      var p := Poll(g, ids[0], deadline, clock);
      assert p == Polled(Done, Clock(clock.now, clock.calls + 1), clock.calls);
      ConfirmsAll(g, ids[1..], deadline, p.clock, log + [Confirmed(ids[0], p.at)]);
    }
  }

  /** One round: a dispatch, one listing with something new, and its confirmation. */
  lemma FillsOne(g: GitHub, count: int, deadline: nat, clock: Clock, runs: seq<int>, completed: seq<int>,
                 log: seq<Event>)
    returns (after: seq<Event>)
    requires Obliging(g) && clock.now < deadline && |completed| < count
    requires Added(g.listing(clock.calls + 1), runs) != []
    ensures var shown := g.listing(clock.calls + 1);
            var added := Added(shown, runs);
            Fill(g, count, deadline, clock, runs, completed, log) ==
            Fill(g, count, deadline, Clock(clock.now, clock.calls + 2 + |added|), shown, completed + added, after)
  {
    hide Confirm, Added;
    var sent := Tick(clock, g, 0);
    assert sent == Clock(clock.now, clock.calls + 1);
    var f := Search(g, runs, SearchLimit(sent, deadline), sent, log + [Dispatched]);
    assert f.runs == g.listing(clock.calls + 1) && f.added == Added(f.runs, runs)
           && f.clock == Clock(clock.now, clock.calls + 2);
    ConfirmsAll(g, f.added, deadline, f.clock, f.log);
    after := Confirm(g, f.added, deadline, f.clock, f.log).log;
  }

  lemma FlickeringFacts(n: nat)
    requires n > 0
    ensures ListsOnce(Flickering(n)) && Obliging(Flickering(n))
    ensures Added([n], seq(n, i => i)) == [n] && Added([0, n], [n]) == [0]
  {
    assert [n][..0] == [] && [0, n][..1] == [0] && [0][..0] == [];
    assert Added([0], [n]) == [0];
  }

  /** Asked for three runs or more, the coordinator can return one of them twice. */
  lemma FlickerReturnsTwice(count: int)
    requires count >= 3
    ensures ListsOnce(Flickering(count - 2))
    ensures var r := Coordinate(Flickering(count - 2), count, Clock(0, 0)).outcome;
            r.Returned? && |r.ids| == count && r.ids[0] == r.ids[count - 1]
  {
    hide Confirm, Fill, Added;
    var n := count - 2;
    var g := Flickering(n);
    FlickeringFacts(n);
    var runs := seq(n, i => i);
    assert g.listing(1) == runs && g.listing(n + 3) == [n] && g.listing(n + 6) == [0, n];
    var first := [Listed(runs, 1)];
    ConfirmsAll(g, runs, DEADLINE, Clock(0, 2), first);
    var log0 := Confirm(g, runs, DEADLINE, Clock(0, 2), first).log;
    assert Coordinate(g, count, Clock(0, 0)) == Fill(g, count, DEADLINE, Clock(0, n + 2), runs, runs, log0);
    var log1 := FillsOne(g, count, DEADLINE, Clock(0, n + 2), runs, runs, log0);
    var log2 := FillsOne(g, count, DEADLINE, Clock(0, n + 5), [n], runs + [n], log1);
    FillEnds(g, count, DEADLINE, Clock(0, n + 8), [0, n], runs + [n] + [0], log2);
  }

  lemma FillEnds(g: GitHub, count: int, deadline: nat, clock: Clock, runs: seq<int>, completed: seq<int>,
                 log: seq<Event>)
    requires |completed| >= count
    ensures Fill(g, count, deadline, clock, runs, completed, log) == Ended(Returned(completed), log)
  {
  }

  /** For every GitHub whose single listings repeat no run, and every clock: what the coordinator
      returns is free of repetitions exactly when it is asked for at most two runs, the most the
      release ever asks for. */
  lemma ReturnedDistinctIff(count: int)
    ensures (forall g, start | ListsOnce(g) && Coordinate(g, count, start).outcome.Returned? ::
               Distinct(Coordinate(g, count, start).outcome.ids)) <==> count <= 2
  {
    hide Coordinate, After;
    if count <= 2 {
      forall g, start | ListsOnce(g) && Coordinate(g, count, start).outcome.Returned?
        ensures Distinct(Coordinate(g, count, start).outcome.ids)
      {
        CoordinateAccepted(g, count, start);
        DistinctUpToTwo(Coordinate(g, count, start).log, count);
      }
    } else {
      FlickerReturnsTwice(count);
      var r := Coordinate(Flickering(count - 2), count, Clock(0, 0)).outcome;
      assert !Distinct(r.ids);
    }
  }

  /** The same for every log the machine accepts, finished or not. */
  lemma LoggedDistinctIff(count: int)
    ensures (forall log | After(log, count).Some? && NoRepeats(log) ::
               Distinct(After(log, count).value.completed)) <==> count <= 2
  {
    hide Coordinate, After;
    if count <= 2 {
      forall log | After(log, count).Some? && NoRepeats(log) ensures Distinct(After(log, count).value.completed) {
        DistinctUpToTwo(log, count);
      }
    } else {
      FlickerReturnsTwice(count);
      var e := Coordinate(Flickering(count - 2), count, Clock(0, 0));
      CoordinateAccepted(Flickering(count - 2), count, Clock(0, 0));
      assert NoRepeats(e.log);
      assert !Distinct(e.outcome.ids);
    }
  }
}
