/** How long the coordinator waits: which reading of a run or of a listing decides, and a run of the
    coordinator as a chain of rounds, each ended by the first listing that shows a new run. */
module DispatchRounds {
  import opened Options
  import opened Dispatch

  // ----------------------------------------------------------- the readings of a loop

  /** When a loop that starts at `clock` and sleeps between its calls makes its call number `k`. */
  function TimeAt(g: GitHub, clock: Clock, sleep: nat, k: nat): nat
    decreases k
  {
    if k == 0 then clock.now else TimeAt(g, clock, sleep, k - 1) + g.delay(clock.calls + k - 1) + sleep
  }

  predicate InTime(g: GitHub, clock: Clock, sleep: nat, limit: nat, k: nat) { TimeAt(g, clock, sleep, k) < limit }

  /** What the loop waits for, by call number, is there at its call number `k`. */
  predicate HitAt(hit: nat -> bool, clock: Clock, k: nat) { hit(clock.calls + k) }

  /** Call number `k` is made in time and is the first to find what the loop waits for. */
  ghost predicate FirstHit(g: GitHub, hit: nat -> bool, clock: Clock, sleep: nat, limit: nat, k: nat) {
    InTime(g, clock, sleep, limit, k) && HitAt(hit, clock, k) && forall j | 0 <= j < k :: !HitAt(hit, clock, j)
  }

  /** No call made in time finds it. */
  ghost predicate NoHit(g: GitHub, hit: nat -> bool, clock: Clock, sleep: nat, limit: nat) {
    forall k: nat | InTime(g, clock, sleep, limit, k) :: !HitAt(hit, clock, k)
  }

  lemma {:induction false} TimeShift(g: GitHub, clock: Clock, sleep: nat, k: nat)
    ensures TimeAt(g, Tick(clock, g, sleep), sleep, k) == TimeAt(g, clock, sleep, k + 1)
    decreases k
  {
    if k > 0 { TimeShift(g, clock, sleep, k - 1); }
  }

  lemma {:induction false} TimeGrows(g: GitHub, clock: Clock, sleep: nat, j: nat, k: nat)
    requires j <= k
    ensures TimeAt(g, clock, sleep, j) <= TimeAt(g, clock, sleep, k)
    decreases k
  {
    if j < k { TimeGrows(g, clock, sleep, j, k - 1); }
  }

  lemma TooLate(g: GitHub, hit: nat -> bool, clock: Clock, sleep: nat, limit: nat)
    requires clock.now >= limit
    ensures NoHit(g, hit, clock, sleep, limit)
  {
    forall k: nat | InTime(g, clock, sleep, limit, k) ensures false { TimeGrows(g, clock, sleep, 0, k); }
  }

  /** After a call without a hit the rest of the loop decides. */
  lemma LaterHit(g: GitHub, hit: nat -> bool, clock: Clock, sleep: nat, limit: nat)
    requires !hit(clock.calls)
    ensures NoHit(g, hit, clock, sleep, limit) <==> NoHit(g, hit, Tick(clock, g, sleep), sleep, limit)
    ensures forall k: nat | FirstHit(g, hit, clock, sleep, limit, k) ::
              k > 0 && FirstHit(g, hit, Tick(clock, g, sleep), sleep, limit, k - 1)
  {
    hide TimeAt;
    var next := Tick(clock, g, sleep);
    forall k: nat
      ensures InTime(g, next, sleep, limit, k) <==> InTime(g, clock, sleep, limit, k + 1)
      ensures HitAt(hit, next, k) <==> HitAt(hit, clock, k + 1)
    {
      TimeShift(g, clock, sleep, k);
      assert next.calls + k == clock.calls + (k + 1);
    }
    forall k: nat | k > 0
      ensures InTime(g, next, sleep, limit, k - 1) <==> InTime(g, clock, sleep, limit, k)
      ensures HitAt(hit, next, k - 1) <==> HitAt(hit, clock, k)
    {
      assert k == (k - 1) + 1;
    }
    assert !HitAt(hit, clock, 0);
  }

  /** Some call finds it in time, or a first one does. */
  lemma FirstExists(g: GitHub, hit: nat -> bool, clock: Clock, sleep: nat, limit: nat)
    ensures NoHit(g, hit, clock, sleep, limit) <==> !exists k: nat :: FirstHit(g, hit, clock, sleep, limit, k)
  {
    if k: nat :| InTime(g, clock, sleep, limit, k) && HitAt(hit, clock, k) {
      var first := Least(hit, clock, k);
      TimeGrows(g, clock, sleep, first, k);
      assert FirstHit(g, hit, clock, sleep, limit, first);
    }
  }

  lemma {:induction false} Least(hit: nat -> bool, clock: Clock, k: nat) returns (first: nat)
    requires HitAt(hit, clock, k)
    ensures first <= k && HitAt(hit, clock, first) && forall j | 0 <= j < first :: !HitAt(hit, clock, j)
    decreases k
  {
    if j: nat :| j < k && HitAt(hit, clock, j) { first := Least(hit, clock, j); } else { first := k; }
  }

  // ------------------------------------------------------------- waiting for one run

  /** The reading settles the wait: the run is not to be trusted, or completed. */
  function Settling(g: GitHub, id: int): nat -> bool {
    (t: nat) => !g.view(id, t).trusted || g.view(id, t).completed
  }

  /** The wait ended at its call number `k`, with what that reading says. */
  predicate PolledAt(g: GitHub, id: int, clock: Clock, k: nat, p: Polled) {
    var v := g.view(id, clock.calls + k);
    && p.at == clock.calls + k
    && p.clock == Clock(TimeAt(g, clock, 30, k) + g.delay(clock.calls + k), clock.calls + k + 1)
    && p.result == (if !v.trusted then Failed(Untrusted) else if v.success then Done else Failed(ProducerFailed))
  }

  /** The wait times out exactly when no reading before the deadline, half a minute apart, settles
      it. Otherwise it ends at the first one that does. */
  lemma {:induction false} PollIff(g: GitHub, id: int, deadline: nat, clock: Clock)
    ensures Poll(g, id, deadline, clock).result == Failed(WaitedTooLong) <==>
            NoHit(g, Settling(g, id), clock, 30, deadline)
    ensures forall k: nat | FirstHit(g, Settling(g, id), clock, 30, deadline, k) ::
              PolledAt(g, id, clock, k, Poll(g, id, deadline, clock))
    decreases if clock.now < deadline then deadline - clock.now else 0
  {
    hide NoHit, FirstHit, PolledAt;
    var hit := Settling(g, id);
    FirstExists(g, hit, clock, 30, deadline);
    if clock.now >= deadline {
      TooLate(g, hit, clock, 30, deadline);
    } else if hit(clock.calls) {
      HitAtOnce(g, hit, clock, 30, deadline);
      PolledAtOnce(g, id, deadline, clock);
    } else {
      PollIff(g, id, deadline, Tick(clock, g, 30));
      LaterHit(g, hit, clock, 30, deadline);
      forall k: nat | FirstHit(g, hit, clock, 30, deadline, k)
        ensures PolledAt(g, id, clock, k, Poll(g, id, deadline, clock))
      {
        PolledLater(g, id, clock, k, Poll(g, id, deadline, clock));
      }
    }
  }

  lemma PolledAtOnce(g: GitHub, id: int, deadline: nat, clock: Clock)
    requires clock.now < deadline && Settling(g, id)(clock.calls)
    ensures PolledAt(g, id, clock, 0, Poll(g, id, deadline, clock))
  {
  }

  lemma PolledLater(g: GitHub, id: int, clock: Clock, k: nat, p: Polled)
    requires k > 0 && PolledAt(g, id, Tick(clock, g, 30), k - 1, p)
    ensures PolledAt(g, id, clock, k, p)
  {
    TimeShift(g, clock, 30, k - 1);
    assert Tick(clock, g, 30).calls + (k - 1) == clock.calls + k;
  }

  lemma HitAtOnce(g: GitHub, hit: nat -> bool, clock: Clock, sleep: nat, limit: nat)
    requires clock.now < limit && hit(clock.calls)
    ensures forall k: nat :: FirstHit(g, hit, clock, sleep, limit, k) <==> k == 0
    ensures !NoHit(g, hit, clock, sleep, limit)
  {
    assert InTime(g, clock, sleep, limit, 0) && HitAt(hit, clock, 0);
  }

  // -------------------------------------------------------- waiting for a listing

  /** What a listing adds, run by run and in its order. */
  lemma {:induction false} AddedJoin(a: seq<int>, b: seq<int>, previous: seq<int>)
    ensures Added(a + b, previous) == Added(a, previous) + Added(b, previous)
    decreases b
  {
    if b == [] {
      assert a + b == a;
    } else {
      var front, last := b[..|b| - 1], b[|b| - 1];
      assert (a + b)[..|a + b| - 1] == a + front && (a + b)[|a + b| - 1] == last;
      AddedJoin(a, front, previous);
    }
  }

  lemma AddedOne(x: int, previous: seq<int>)
    ensures Added([x], previous) == if x in previous then [] else [x]
  {
    assert [x][..0] == [];
  }

  predicate Shows(listing: seq<int>, previous: seq<int>) { exists x | x in listing :: x !in previous }

  /** The listing shows a run that `previous` lacks. */
  function Showing(g: GitHub, previous: seq<int>): nat -> bool { (t: nat) => Shows(g.listing(t), previous) }

  lemma ShowsIff(listing: seq<int>, previous: seq<int>)
    ensures Shows(listing, previous) <==> Added(listing, previous) != []
  {
    var added := Added(listing, previous);
    if added != [] { assert added[0] in added; }
    if x :| x in listing && x !in previous { assert x in added; }
  }

  /** The search ended at its call number `k`, with the runs that reading adds. */
  predicate FoundAt(g: GitHub, previous: seq<int>, clock: Clock, k: nat, f: Found) {
    var shown := g.listing(clock.calls + k);
    && f.runs == shown && f.added == Added(shown, previous)
    && f.clock == Clock(TimeAt(g, clock, 10, k) + g.delay(clock.calls + k), clock.calls + k + 1)
  }

  /** The search gives up exactly when no listing read before the limit, ten seconds apart, shows a
      new run, and then the limit has passed. Otherwise it stops at the first one that does. */
  lemma {:induction false} SearchIff(g: GitHub, previous: seq<int>, limit: nat, clock: Clock, log: seq<Event>)
    ensures Search(g, previous, limit, clock, log).added == [] <==> NoHit(g, Showing(g, previous), clock, 10, limit)
    ensures NoHit(g, Showing(g, previous), clock, 10, limit) ==>
              Search(g, previous, limit, clock, log).clock.now >= limit
    ensures forall k: nat | FirstHit(g, Showing(g, previous), clock, 10, limit, k) ::
              FoundAt(g, previous, clock, k, Search(g, previous, limit, clock, log))
    decreases if clock.now < limit then limit - clock.now else 0
  {
    hide NoHit, FirstHit, Added, Shows, FoundAt;
    var hit := Showing(g, previous);
    FirstExists(g, hit, clock, 10, limit);
    ShowsIff(g.listing(clock.calls), previous);
    if clock.now >= limit {
      TooLate(g, hit, clock, 10, limit);
    } else if hit(clock.calls) {
      HitAtOnce(g, hit, clock, 10, limit);
      FoundAtOnce(g, previous, limit, clock, log);
    } else {
      var next, later := Tick(clock, g, 10), log + [Listed(g.listing(clock.calls), clock.calls)];
      SearchIff(g, previous, limit, next, later);
      LaterHit(g, hit, clock, 10, limit);
      forall k: nat | FirstHit(g, hit, clock, 10, limit, k)
        ensures FoundAt(g, previous, clock, k, Search(g, previous, limit, clock, log))
      {
        FoundLater(g, previous, clock, k, Search(g, previous, limit, next, later));
      }
    }
  }

  lemma FoundAtOnce(g: GitHub, previous: seq<int>, limit: nat, clock: Clock, log: seq<Event>)
    requires clock.now < limit && Added(g.listing(clock.calls), previous) != []
    ensures FoundAt(g, previous, clock, 0, Search(g, previous, limit, clock, log))
  {
  }

  lemma FoundLater(g: GitHub, previous: seq<int>, clock: Clock, k: nat, f: Found)
    requires k > 0 && FoundAt(g, previous, Tick(clock, g, 10), k - 1, f)
    ensures FoundAt(g, previous, clock, k, f)
  {
    TimeShift(g, clock, 10, k - 1);
    assert Tick(clock, g, 10).calls + (k - 1) == clock.calls + k;
  }

  // ---------------------------------------------------------------- rounds of a run

  /** Between two dispatches: the clock, the listing that counts and the runs confirmed so far. */
  datatype Round = Round(clock: Clock, runs: seq<int>, completed: seq<int>)

  /** More runs are wanted and a dispatch at this point is accepted. */
  predicate Dispatches(g: GitHub, count: int, deadline: nat, a: Round) {
    |a.completed| < count && a.clock.now < deadline && g.accepts(a.clock.calls)
  }

  /** The clock once the dispatch is sent. */
  function Sent(g: GitHub, a: Round): Clock { Clock(a.clock.now + g.delay(a.clock.calls), a.clock.calls + 1) }

  /** Five minutes after the dispatch, or the deadline if that is earlier. */
  function Until(g: GitHub, deadline: nat, a: Round): nat {
    if Sent(g, a).now + 300 < deadline then Sent(g, a).now + 300 else deadline
  }

  /** The dispatched run does not show in any listing read in time. */
  ghost predicate StaysHidden(g: GitHub, deadline: nat, a: Round) {
    NoHit(g, Showing(g, a.runs), Sent(g, a), 10, Until(g, deadline, a))
  }

  /** Reading number `k` after the dispatch is the first to show a new run. */
  ghost predicate ShowsAt(g: GitHub, deadline: nat, a: Round, k: nat) {
    FirstHit(g, Showing(g, a.runs), Sent(g, a), 10, Until(g, deadline, a), k)
  }

  /** How the runs that reading adds are confirmed, one after the other. */
  function Confirming(g: GitHub, deadline: nat, a: Round, k: nat): Confirmation {
    var sent := Sent(g, a);
    Confirm(g, Added(g.listing(sent.calls + k), a.runs), deadline,
            Clock(TimeAt(g, sent, 10, k) + g.delay(sent.calls + k), sent.calls + k + 1), [])
  }

  /** One round: a dispatch, the first listing that shows a new run, and its runs confirmed. */
  ghost predicate Leads(g: GitHub, count: int, deadline: nat, a: Round, b: Round) {
    && Dispatches(g, count, deadline, a)
    && exists k: nat ::
         && ShowsAt(g, deadline, a, k) && Confirming(g, deadline, a, k).result.Done?
         && b.clock == Confirming(g, deadline, a, k).clock && b.runs == g.listing(Sent(g, a).calls + k)
         && b.completed == a.completed + Added(b.runs, a.runs)
  }

  /** How a run ends at `a`. */
  ghost predicate Ends(g: GitHub, count: int, deadline: nat, a: Round, outcome: Outcome) {
    if |a.completed| >= count then outcome == Returned(a.completed)
    else if a.clock.now >= deadline then outcome == Stopped(TooLateToDispatch)
    else if !g.accepts(a.clock.calls) then outcome == Stopped(CommandFailed)
    else if StaysHidden(g, deadline, a) then outcome == Stopped(NeverVisible)
    else exists k: nat ::
           && ShowsAt(g, deadline, a, k) && Confirming(g, deadline, a, k).result.Failed?
           && outcome == Stopped(Confirming(g, deadline, a, k).result.reason)
  }

  function FillFrom(g: GitHub, count: int, deadline: nat, a: Round, log: seq<Event>): Outcome {
    Fill(g, count, deadline, a.clock, a.runs, a.completed, log).outcome
  }

  lemma {:induction false} ConfirmLogFree(g: GitHub, ids: seq<int>, deadline: nat, clock: Clock, log: seq<Event>,
                                          other: seq<Event>)
    ensures var a, b := Confirm(g, ids, deadline, clock, log), Confirm(g, ids, deadline, clock, other);
            a.result == b.result && a.clock == b.clock
    decreases |ids|
  {
    hide Poll;
    if ids != [] {
      var p := Poll(g, ids[0], deadline, clock);
      if p.result.Done? {
        ConfirmLogFree(g, ids[1..], deadline, p.clock, log + [Confirmed(ids[0], p.at)],
                       other + [Confirmed(ids[0], p.at)]);
      }
    }
  }

  /** A round that stays hidden ends the run. */
  lemma HiddenEnds(g: GitHub, count: int, deadline: nat, a: Round, log: seq<Event>)
    requires Dispatches(g, count, deadline, a) && StaysHidden(g, deadline, a)
    ensures FillFrom(g, count, deadline, a, log) == Stopped(NeverVisible)
  {
    hide Search, NoHit, FirstHit, Showing;
    SearchIff(g, a.runs, Until(g, deadline, a), Sent(g, a), log + [Dispatched]);
    assert Tick(a.clock, g, 0) == Sent(g, a);
  }

  /** A round that shows something is confirmed, and the run goes on or stops there. */
  lemma ShownGoesOn(g: GitHub, count: int, deadline: nat, a: Round, k: nat, log: seq<Event>) returns (later: seq<Event>)
    requires Dispatches(g, count, deadline, a) && ShowsAt(g, deadline, a, k)
    ensures var w, shown := Confirming(g, deadline, a, k), g.listing(Sent(g, a).calls + k);
            FillFrom(g, count, deadline, a, log) ==
            if w.result.Failed? then Stopped(w.result.reason)
            else FillFrom(g, count, deadline, Round(w.clock, shown, a.completed + Added(shown, a.runs)), later)
  {
    hide Search, NoHit, FirstHit, Showing, Confirm, Added;
    var sent, limit := Sent(g, a), Until(g, deadline, a);
    SearchIff(g, a.runs, limit, sent, log + [Dispatched]);
    FirstExists(g, Showing(g, a.runs), sent, 10, limit);
    assert Tick(a.clock, g, 0) == sent && SearchLimit(sent, deadline) == limit;
    var f := Search(g, a.runs, limit, sent, log + [Dispatched]);
    ConfirmLogFree(g, f.added, deadline, f.clock, f.log, []);
    later := Confirm(g, f.added, deadline, f.clock, f.log).log;
  }

  ghost predicate Chain(g: GitHub, count: int, deadline: nat, rounds: seq<Round>) {
    rounds != [] && forall i | 0 <= i < |rounds| - 1 :: Leads(g, count, deadline, rounds[i], rounds[i + 1])
  }

  /** From any point the run is a chain of rounds, and its last round decides how it ends. */
  lemma {:induction false} FillIsRounds(g: GitHub, count: int, deadline: nat, a: Round, log: seq<Event>)
    returns (rounds: seq<Round>)
    ensures Chain(g, count, deadline, rounds) && rounds[0] == a
    ensures Ends(g, count, deadline, rounds[|rounds| - 1], FillFrom(g, count, deadline, a, log))
    decreases count - |a.completed|
  {
    hide StaysHidden, ShowsAt, Confirming, Sent;
    rounds := [a];
    if Dispatches(g, count, deadline, a) {
      if StaysHidden(g, deadline, a) {
        HiddenEnds(g, count, deadline, a, log);
      } else {
        var k := SomethingShows(g, deadline, a);
        var later := ShownGoesOn(g, count, deadline, a, k, log);
        var w, shown := Confirming(g, deadline, a, k), g.listing(Sent(g, a).calls + k);
        if w.result.Done? {
          var b := Round(w.clock, shown, a.completed + Added(shown, a.runs));
          assert Leads(g, count, deadline, a, b);
          var rest := FillIsRounds(g, count, deadline, b, later);
          rounds := [a] + rest;
          ChainOneMore(g, count, deadline, a, rest);
        }
      }
    }
  }

  lemma SomethingShows(g: GitHub, deadline: nat, a: Round) returns (k: nat)
    requires !StaysHidden(g, deadline, a)
    ensures ShowsAt(g, deadline, a, k)
    ensures Added(g.listing(Sent(g, a).calls + k), a.runs) != []
  {
    hide NoHit, FirstHit, Shows;
    FirstExists(g, Showing(g, a.runs), Sent(g, a), 10, Until(g, deadline, a));
    k :| FirstHit(g, Showing(g, a.runs), Sent(g, a), 10, Until(g, deadline, a), k);
    ShownAdds(g, a, Until(g, deadline, a), k);
  }

  lemma ShownAdds(g: GitHub, a: Round, limit: nat, k: nat)
    requires FirstHit(g, Showing(g, a.runs), Sent(g, a), 10, limit, k)
    ensures Added(g.listing(Sent(g, a).calls + k), a.runs) != []
  {
    ShowsIff(g.listing(Sent(g, a).calls + k), a.runs);
  }

  lemma ChainOneMore(g: GitHub, count: int, deadline: nat, a: Round, rest: seq<Round>)
    requires Chain(g, count, deadline, rest) && Leads(g, count, deadline, a, rest[0])
    ensures Chain(g, count, deadline, [a] + rest)
  {
    hide Leads;
    var all := [a] + rest;
    forall i | 0 <= i < |all| - 1 ensures Leads(g, count, deadline, all[i], all[i + 1]) {
      if i > 0 { assert all[i] == rest[i - 1] && all[i + 1] == rest[i]; }
    }
  }

  // ------------------------------------------------------------------ whole runs

  /** The runs there are at the start, and how they are confirmed. */
  function Started(start: Clock, g: GitHub): Clock { Clock(start.now + g.delay(start.calls), start.calls + 1) }

  function Deadline(start: Clock, g: GitHub): nat { Started(start, g).now + 10800 }

  function ConfirmingFirst(g: GitHub, start: Clock): Confirmation {
    var at := Started(start, g);
    Confirm(g, g.listing(at.calls), Deadline(start, g), Clock(at.now + g.delay(at.calls), at.calls + 1), [])
  }

  function FirstRound(g: GitHub, start: Clock): Round {
    var runs := g.listing(Started(start, g).calls);
    Round(ConfirmingFirst(g, start).clock, runs, runs)
  }

  lemma CoordinateFills(g: GitHub, count: int, start: Clock) returns (log: seq<Event>)
    ensures var w, outcome := ConfirmingFirst(g, start), Coordinate(g, count, start).outcome;
            outcome == if w.result.Failed? then Stopped(w.result.reason)
                       else FillFrom(g, count, Deadline(start, g), FirstRound(g, start), log)
  {
    hide Fill, Confirm;
    var at := Started(start, g);
    var runs := g.listing(at.calls);
    var next := Clock(at.now + g.delay(at.calls), at.calls + 1);
    assert Tick(start, g, 0) == at && Tick(at, g, 0) == next;
    ConfirmLogFree(g, runs, Deadline(start, g), next, [Listed(runs, at.calls)], []);
    log := Confirm(g, runs, Deadline(start, g), next, [Listed(runs, at.calls)]).log;
  }

  /** Every run of the coordinator: it stops while confirming what was there, or goes through a
      chain of rounds whose last one decides how it ends. */
  lemma EveryRunIsRounds(g: GitHub, count: int, start: Clock) returns (rounds: seq<Round>)
    ensures var w, outcome := ConfirmingFirst(g, start), Coordinate(g, count, start).outcome;
            if w.result.Failed? then outcome == Stopped(w.result.reason)
            else
              && Chain(g, count, Deadline(start, g), rounds) && rounds[0] == FirstRound(g, start)
              && Ends(g, count, Deadline(start, g), rounds[|rounds| - 1], outcome)
  {
    hide ConfirmingFirst, Coordinate, Ends, Chain;
    var log := CoordinateFills(g, count, start);
    rounds := FillIsRounds(g, count, Deadline(start, g), FirstRound(g, start), log);
  }

  lemma {:induction false} ConfirmReasons(g: GitHub, ids: seq<int>, deadline: nat, clock: Clock, log: seq<Event>)
    ensures var w := Confirm(g, ids, deadline, clock, log);
            w.result.Failed? ==> w.result.reason in {Untrusted, ProducerFailed, WaitedTooLong}
    decreases |ids|
  {
    hide Poll;
    if ids != [] {
      PollSeen(g, ids[0], deadline, clock);
      var p := Poll(g, ids[0], deadline, clock);
      ConfirmReasons(g, ids[1..], deadline, p.clock, log + [Confirmed(ids[0], p.at)]);
    }
  }

  lemma {:induction false} ChainEnd(g: GitHub, count: int, deadline: nat, rounds: seq<Round>, log: seq<Event>)
    returns (later: seq<Event>)
    requires Chain(g, count, deadline, rounds)
    ensures FillFrom(g, count, deadline, rounds[0], log) ==
            FillFrom(g, count, deadline, rounds[|rounds| - 1], later)
    decreases |rounds|
  {
    hide FillFrom, ShowsAt, Confirming, Dispatches, Sent;
    later := log;
    if |rounds| > 1 {
      var a, b := rounds[0], rounds[1];
      assert Leads(g, count, deadline, a, b);
      var k: nat :| ShowsAt(g, deadline, a, k) && Confirming(g, deadline, a, k).result.Done?
                    && b.clock == Confirming(g, deadline, a, k).clock && b.runs == g.listing(Sent(g, a).calls + k)
                    && b.completed == a.completed + Added(b.runs, a.runs);
      var after := ShownGoesOn(g, count, deadline, a, k, log);
      assert b == Round(b.clock, b.runs, b.completed);
      RestIsChain(g, count, deadline, rounds);
      later := ChainEnd(g, count, deadline, rounds[1..], after);
    }
  }

  lemma RestIsChain(g: GitHub, count: int, deadline: nat, rounds: seq<Round>)
    requires Chain(g, count, deadline, rounds) && |rounds| > 1
    ensures Chain(g, count, deadline, rounds[1..])
  {
    hide Leads;
    var rest := rounds[1..];
    forall i | 0 <= i < |rest| - 1 ensures Leads(g, count, deadline, rest[i], rest[i + 1]) {
      assert rest[i] == rounds[i + 1] && rest[i + 1] == rounds[i + 2];
    }
  }

  /** The run reaches a round in which a dispatch is sent and no listing read within five minutes,
      or before the deadline, shows a run that the listing before did not. */
  ghost predicate ReachesHidden(g: GitHub, count: int, start: Clock) {
    exists rounds: seq<Round> ::
      && Chain(g, count, Deadline(start, g), rounds) && rounds[0] == FirstRound(g, start)
      && Dispatches(g, count, Deadline(start, g), rounds[|rounds| - 1])
      && StaysHidden(g, Deadline(start, g), rounds[|rounds| - 1])
  }

  /** The coordinator gives a dispatched run up exactly when it stays hidden for the whole window. */
  lemma NeverVisibleIff(g: GitHub, count: int, start: Clock)
    ensures Coordinate(g, count, start).outcome == Stopped(NeverVisible) <==>
            ConfirmingFirst(g, start).result.Done? && ReachesHidden(g, count, start)
  {
    hide Coordinate, Leads, StaysHidden, ShowsAt, Confirming, FirstRound, Deadline, ConfirmingFirst, FillFrom;
    var deadline := Deadline(start, g);
    var log := CoordinateFills(g, count, start);
    FirstReasons(g, start);
    if ConfirmingFirst(g, start).result.Done? {
      var rounds := EveryRunIsRounds(g, count, start);
      var last := rounds[|rounds| - 1];
      forall k: nat | Confirming(g, deadline, last, k).result.Failed?
        ensures Confirming(g, deadline, last, k).result.reason != NeverVisible
      {
        RoundReasons(g, deadline, last, k);
      }
      if ReachesHidden(g, count, start) {
        var hidden: seq<Round> :| Chain(g, count, deadline, hidden) && hidden[0] == FirstRound(g, start)
                                  && Dispatches(g, count, deadline, hidden[|hidden| - 1])
                                  && StaysHidden(g, deadline, hidden[|hidden| - 1]);
        var later := ChainEnd(g, count, deadline, hidden, log);
        HiddenEnds(g, count, deadline, hidden[|hidden| - 1], later);
      }
    }
  }

  lemma FirstReasons(g: GitHub, start: Clock)
    ensures ConfirmingFirst(g, start).result.Failed? ==> ConfirmingFirst(g, start).result.reason != NeverVisible
  {
    var at := Started(start, g);
    ConfirmReasons(g, g.listing(at.calls), Deadline(start, g), Clock(at.now + g.delay(at.calls), at.calls + 1), []);
    hide Confirm;
  }

  lemma RoundReasons(g: GitHub, deadline: nat, a: Round, k: nat)
    ensures Confirming(g, deadline, a, k).result.Failed? ==> Confirming(g, deadline, a, k).result.reason != NeverVisible
  {
    var sent := Sent(g, a);
    ConfirmReasons(g, Added(g.listing(sent.calls + k), a.runs), deadline,
                   Clock(TimeAt(g, sent, 10, k) + g.delay(sent.calls + k), sent.calls + k + 1), []);
    hide Confirm, Added, TimeAt;
  }

  // ------------------------------------------------------- delayed runs are found

  lemma {:induction false} SteadyTime(g: GitHub, clock: Clock, k: nat)
    requires Obliging(g)
    ensures TimeAt(g, clock, 10, k) == clock.now + 10 * k
    decreases k
  {
    if k > 0 { SteadyTime(g, clock, k - 1); }
  }

  /** Where calls take no time and every run is trusted and succeeds: a run that some reading in the
      window shows is found and confirmed, with the first listing that shows a new one. */
  lemma VisibleRunIsFound(g: GitHub, count: int, deadline: nat, a: Round, k: nat) returns (b: Round)
    requires Obliging(g) && Dispatches(g, count, deadline, a)
    requires Sent(g, a).now + 10 * k < Until(g, deadline, a) && Shows(g.listing(Sent(g, a).calls + k), a.runs)
    ensures Leads(g, count, deadline, a, b) && |b.completed| > |a.completed|
    ensures exists j: nat | j <= k :: ShowsAt(g, deadline, a, j) && b.runs == g.listing(Sent(g, a).calls + j)
  {
    hide Confirm, Added, Shows;
    var sent, limit, hit := Sent(g, a), Until(g, deadline, a), Showing(g, a.runs);
    SteadyTime(g, sent, k);
    assert HitAt(hit, sent, k);
    var j := Least(hit, sent, k);
    SteadyTime(g, sent, j);
    assert FirstHit(g, hit, sent, 10, limit, j);
    ShownAdds(g, a, limit, j);
    var shown := g.listing(sent.calls + j);
    var clock := Clock(TimeAt(g, sent, 10, j) + g.delay(sent.calls + j), sent.calls + j + 1);
    ConfirmsAll(g, Added(shown, a.runs), deadline, clock, []);
    b := Round(Confirming(g, deadline, a, j).clock, shown, a.completed + Added(shown, a.runs));
    assert ShowsAt(g, deadline, a, j) && Confirming(g, deadline, a, j).result.Done?;
  }

  /** Nothing runs at the start; the run the dispatch starts is listed from the reading `n` after it. */
  function Delayed(n: nat): GitHub {
    GitHub(t => if t < 3 + n then [] else [7], (id, t) => RunView(true, true, true), t => true, t => 0)
  }

  /** A run that shows after `10 * n` seconds is returned if that is within five minutes, and given
      up otherwise. */
  lemma DelayedRun(n: nat)
    ensures Coordinate(Delayed(n), 1, Clock(0, 0)).outcome ==
            if 10 * n < 300 then Returned([7]) else Stopped(NeverVisible)
  {
    hide FirstHit, NoHit, Confirm, Added, Fill, Shows;
    var g, start := Delayed(n), Clock(0, 0);
    var log := CoordinateFills(g, 1, start);
    ConfirmsAll(g, [], 10800, Clock(0, 2), []);
    var a := FirstRound(g, start);
    assert g.listing(1) == [] && a == Round(Clock(0, 2), [], []) && Sent(g, a) == Clock(0, 3);
    if 10 * n < 300 {
      assert g.listing(3 + n) == [7];
      DelayedFirst(n, a);
      var later := ShownGoesOn(g, 1, 10800, a, n, log);
      AddedOne(7, []);
      ConfirmsAll(g, [7], 10800, Clock(10 * n, 4 + n), []);
      assert Confirming(g, 10800, a, n) == Confirm(g, [7], 10800, Clock(10 * n, 4 + n), []) && [] + [7] == [7];
      FillEnds(g, 1, 10800, Clock(10 * n, 5 + n), [7], [7], later);
    } else {
      DelayedHidden(n, a);
      HiddenEnds(g, 1, 10800, a, log);
    }
  }

  lemma DelayedFirst(n: nat, a: Round)
    requires 10 * n < 300 && a == Round(Clock(0, 2), [], [])
    ensures ShowsAt(Delayed(n), 10800, a, n) && TimeAt(Delayed(n), Clock(0, 3), 10, n) == 10 * n
  {
    var g := Delayed(n);
    SteadyTime(g, Clock(0, 3), n);
    assert 7 in g.listing(3 + n);
    assert HitAt(Showing(g, []), Clock(0, 3), n);
  }

  lemma DelayedHidden(n: nat, a: Round)
    requires 10 * n >= 300 && a == Round(Clock(0, 2), [], [])
    ensures StaysHidden(Delayed(n), 10800, a)
  {
    var g := Delayed(n);
    forall k: nat | InTime(g, Clock(0, 3), 10, 300, k) ensures !HitAt(Showing(g, []), Clock(0, 3), k) {
      SteadyTime(g, Clock(0, 3), k);
    }
  }
}
