/**
 Request tracking while the process drains: the shutdown check, the atomic counter and the wait
 group of the graceful-shutdown middleware, under any interleaving of requests, cancellation and
 the waiting goroutine of `Shutdown`.
 */
module RequestDrain {
  import opened Schedules

  /** Where a request is, between the atomic operations of the middleware. */
  datatype Place =
    | Arriving   // before the shutdown check
    | Rejected   // answered 503
    | Admitted   // past the check, not yet counted
    | Counted    // after atomic.AddInt64(+1), before requestWg.Add
    | Serving    // after requestWg.Add, in the handler
    | Uncounted  // after atomic.AddInt64(-1), before requestWg.Done
    | Finished

  datatype State = State(
    requests: map<nat, Place>,
    active: int,      // a.activeRequests
    waitGroup: int,   // the counter of a.requestWg
    cancelled: bool,  // a.shutdownCtx is done
    drained: bool)    // requestWg.Wait() has returned in Shutdown

  datatype Step = Moves(r: nat) | Cancel | WaitReturns

  function Init(requests: set<nat>): State { State(map r | r in requests :: Arriving, 0, 0, false, false) }

  function Move(s: State, r: nat): State
    requires r in s.requests
  {
    match s.requests[r]
    case Arriving => s.(requests := s.requests[r := if s.cancelled then Rejected else Admitted])
    case Admitted => s.(requests := s.requests[r := Counted], active := s.active + 1)
    case Counted => s.(requests := s.requests[r := Serving], waitGroup := s.waitGroup + 1)
    case Serving => s.(requests := s.requests[r := Uncounted], active := s.active - 1)
    case Uncounted => s.(requests := s.requests[r := Finished], waitGroup := s.waitGroup - 1)
    case Rejected => s
    case Finished => s
  }

  /** `Wait` is called after the cancellation and returns only when it finds the counter at zero. */
  function Do(s: State, step: Step): State {
    match step
    case Moves(r) => if r in s.requests then Move(s, r) else s
    case Cancel => s.(cancelled := true)
    case WaitReturns => if s.cancelled && s.waitGroup == 0 then s.(drained := true) else s
  }

  function In(s: State, places: set<Place>): set<nat> { set r | r in s.requests && s.requests[r] in places }

  const HAS_INCREMENTED: set<Place> := {Counted, Serving}
  const HAS_ADDED: set<Place> := {Serving, Uncounted}
  const IN_FLIGHT: set<Place> := {Admitted, Counted, Serving, Uncounted}
  const EVER_ADMITTED: set<Place> := {Admitted, Counted, Serving, Uncounted, Finished}
  const IN_WINDOW: set<Place> := {Admitted, Counted}

  /** Each counter is the number of requests between their own increment and decrement. */
  predicate CountersExact(s: State) {
    && s.active == |In(s, HAS_INCREMENTED)|
    && s.waitGroup == |In(s, HAS_ADDED)|
  }

  /** How a set of places gains or loses the moving request. */
  lemma MoveChangesOne(s: State, r: nat, places: set<Place>)
    requires r in s.requests
    ensures var before, after, n := s.requests[r] in places, Move(s, r).requests[r] in places, Move(s, r);
            && (before == after ==> In(n, places) == In(s, places))
            && (before && !after ==> In(s, places) == In(n, places) + {r} && |In(s, places)| == |In(n, places)| + 1)
            && (!before && after ==> In(n, places) == In(s, places) + {r} && |In(n, places)| == |In(s, places)| + 1)
  {
    var n := Move(s, r);
    forall q ensures q in In(n, places) <==> if q == r then n.requests[r] in places else q in In(s, places) {}
    if s.requests[r] in places && n.requests[r] !in places { assert In(s, places) == In(n, places) + {r}; }
    if s.requests[r] !in places && n.requests[r] in places { assert In(n, places) == In(s, places) + {r}; }
    if (s.requests[r] in places) == (n.requests[r] in places) { assert In(n, places) == In(s, places); }
  }

  function Indicator(b: bool): int { if b then 1 else 0 }

  /** A move adds to a counter what it adds to the request's own place. */
  lemma MoveCounts(s: State, r: nat)
    requires r in s.requests
    ensures var n, p := Move(s, r), s.requests[r];
            var q := n.requests[r];
            && n.active - s.active == Indicator(q in HAS_INCREMENTED) - Indicator(p in HAS_INCREMENTED)
            && n.waitGroup - s.waitGroup == Indicator(q in HAS_ADDED) - Indicator(p in HAS_ADDED)
  {}

  lemma MoveKeepsCounters(s: State, r: nat)
    requires r in s.requests && CountersExact(s)
    ensures CountersExact(Move(s, r))
  {
    MoveCounts(s, r);
    MoveChangesOne(s, r, HAS_INCREMENTED);
    MoveChangesOne(s, r, HAS_ADDED);
  }

  lemma StepKeepsCounters(s: State, step: Step)
    requires CountersExact(s)
    ensures CountersExact(Do(s, step))
  {
    if step.Moves? && step.r in s.requests {
      MoveKeepsCounters(s, step.r);
    } else {
      assert Do(s, step).requests == s.requests;
      assert In(Do(s, step), HAS_INCREMENTED) == In(s, HAS_INCREMENTED);
      assert In(Do(s, step), HAS_ADDED) == In(s, HAS_ADDED);
    }
  }

  lemma {:induction false} ExecutionKeepsCounters(s: State, schedule: seq<Step>)
    requires CountersExact(s)
    ensures CountersExact(Execute(Do, s, schedule))
    decreases |schedule|
  {
    if schedule != [] {
      StepKeepsCounters(s, schedule[0]);
      ExecutionKeepsCounters(Do(s, schedule[0]), schedule[1..]);
    }
  }

  /** In every interleaving both counters are exact, hence never negative. */
  lemma CountersAlwaysExact(requests: set<nat>, schedule: seq<Step>)
    ensures var s := Execute(Do, Init(requests), schedule);
            CountersExact(s) && s.active >= 0 && s.waitGroup >= 0
  {
    assert In(Init(requests), HAS_INCREMENTED) == {} && In(Init(requests), HAS_ADDED) == {};
    ExecutionKeepsCounters(Init(requests), schedule);
  }

  /** Before the cancellation a request that arrives is served and leaves: on its own it takes five steps, and the counters are as before. */
  lemma RequestsAreServed(s: State, r: nat)
    requires r in s.requests && s.requests[r] == Arriving && !s.cancelled
    ensures exists u :: Leads(Do, s, u) && u == s.(requests := s.requests[r := Finished])
    ensures exists u :: Leads(Do, s, u) && r in u.requests && u.requests[r] == Serving && u.active == s.active + 1 && u.waitGroup == s.waitGroup + 1
  {
    var a := Do(s, Moves(r));
    var b := Do(a, Moves(r));
    var c := Do(b, Moves(r));
    var d := Do(c, Moves(r));
    var e := Do(d, Moves(r));
    LeadsNowhere(Do, s);
    LeadsOneMore(Do, s, s, Moves(r));
    LeadsOneMore(Do, s, a, Moves(r));
    LeadsOneMore(Do, s, b, Moves(r));
    LeadsOneMore(Do, s, c, Moves(r));
    LeadsOneMore(Do, s, d, Moves(r));
    assert e == s.(requests := s.requests[r := Finished]);
  }

  /** After it, one that arrives is turned away at its first step, uncounted. */
  lemma RequestsAreRejected(s: State, r: nat)
    requires r in s.requests && s.requests[r] == Arriving && s.cancelled
    ensures Do(s, Moves(r)) == s.(requests := s.requests[r := Rejected])
  {}

  // ---------- draining ----------

  lemma {:induction false} ExecutionOnlyDrains(s: State, schedule: seq<Step>)
    requires s.cancelled
    ensures Execute(Do, s, schedule).cancelled && Execute(Do, s, schedule).requests.Keys == s.requests.Keys
    ensures In(Execute(Do, s, schedule), IN_FLIGHT) <= In(s, IN_FLIGHT)
    ensures In(Execute(Do, s, schedule), EVER_ADMITTED) <= In(s, EVER_ADMITTED)
    decreases |schedule|
  {
    if schedule != [] {
      var n := Do(s, schedule[0]);
      ExecutionOnlyDrains(n, schedule[1..]);
      assert In(n, IN_FLIGHT) <= In(s, IN_FLIGHT);
      assert In(n, EVER_ADMITTED) <= In(s, EVER_ADMITTED);
    }
  }

  /**
   From the cancellation on, whatever happens: no new request gets in flight, so the set of those
   in flight only shrinks, and a request that has not been checked yet is never admitted.
   */
  lemma AfterCancelOnlyDrains(requests: set<nat>, before: seq<Step>, after: seq<Step>)
    requires Execute(Do, Init(requests), before).cancelled
    ensures var s := Execute(Do, Init(requests), before);
            var n := Execute(Do, s, after);
            && In(n, IN_FLIGHT) <= In(s, IN_FLIGHT) && |In(n, IN_FLIGHT)| <= |In(s, IN_FLIGHT)|
            && forall r | r in s.requests && s.requests[r] == Arriving ::
                 r in n.requests && (n.requests[r].Arriving? || n.requests[r].Rejected?)
  {
    var s := Execute(Do, Init(requests), before);
    ExecutionOnlyDrains(s, after);
    var n := Execute(Do, s, after);
    SubsetSize(In(n, IN_FLIGHT), In(s, IN_FLIGHT));
    forall r | r in s.requests && s.requests[r] == Arriving
      ensures r in n.requests && (n.requests[r].Arriving? || n.requests[r].Rejected?)
    {
      assert r !in In(s, EVER_ADMITTED);
      assert r !in In(n, EVER_ADMITTED);
      assert n.requests[r] !in EVER_ADMITTED;
    }
  }

  lemma {:induction false} SubsetSize(a: set<nat>, b: set<nat>)
    requires a <= b
    ensures |a| <= |b|
  {
    assert b == a + (b - a);
  }

  /** When `Wait` can return, only requests between their check and their `Add` can still be in flight. */
  lemma WaitSeesAllButWindow(requests: set<nat>, schedule: seq<Step>)
    ensures var s := Execute(Do, Init(requests), schedule);
            s.waitGroup == 0 ==> In(s, IN_FLIGHT) == In(s, IN_WINDOW)
  {
    CountersAlwaysExact(requests, schedule);
    var s := Execute(Do, Init(requests), schedule);
    if s.waitGroup == 0 {
      assert In(s, HAS_ADDED) == {};
      forall r | r in In(s, IN_FLIGHT) ensures r in In(s, IN_WINDOW) {
        assert r !in In(s, HAS_ADDED);
      }
    }
  }

  ghost predicate CanServeLater(s: State) {
    exists later: seq<Step> :: In(Execute(Do, s, later), {Serving}) != {}
  }

  /**
   The wait of `Shutdown` is not a barrier: after it has returned, a request can still be served
   exactly when one was in the window between its check and its `Add` at that moment.
   */
  lemma ServedAfterWaitIffInWindow(requests: set<nat>, schedule: seq<Step>)
    requires Execute(Do, Init(requests), schedule).cancelled && Execute(Do, Init(requests), schedule).waitGroup == 0
    ensures var s := Do(Execute(Do, Init(requests), schedule), WaitReturns);
            s.drained && (CanServeLater(s) <==> In(s, IN_WINDOW) != {})
  {
    var s0 := Execute(Do, Init(requests), schedule);
    var s := Do(s0, WaitReturns);
    WaitSeesAllButWindow(requests, schedule);
    assert In(s, IN_WINDOW) == In(s0, IN_WINDOW) && In(s, IN_FLIGHT) == In(s0, IN_FLIGHT);
    if CanServeLater(s) {
      var later: seq<Step> :| In(Execute(Do, s, later), {Serving}) != {};
      var r :| r in In(Execute(Do, s, later), {Serving});
      ExecutionOnlyDrains(s, later);
      assert r in In(Execute(Do, s, later), IN_FLIGHT);
    }
    if In(s, IN_WINDOW) != {} {
      var r :| r in In(s, IN_WINDOW);
      ServeFromWindow(s, r);
    }
  }

  lemma ServeFromWindow(s: State, r: nat)
    requires r in In(s, IN_WINDOW)
    ensures CanServeLater(s)
  {
    var n := Do(s, Moves(r));
    LeadsNowhere(Do, s);
    LeadsOneMore(Do, s, s, Moves(r));
    LeadsOneMore(Do, s, n, Moves(r));
    var u := if s.requests[r] == Counted then n else Do(n, Moves(r));
    assert Leads(Do, s, u) && r in In(u, {Serving});
  }

  /** The window is real: a request admitted just before the cancellation is served after the wait. */
  lemma ServedAfterWaitHappens(r: nat)
    ensures exists schedule: seq<Step> ::
              var s := Execute(Do, Init({r}), schedule);
              s.cancelled && s.waitGroup == 0 && In(s, IN_WINDOW) != {}
  {
    var s := Init({r});
    var n := Do(s, Moves(r));
    LeadsNowhere(Do, s);
    LeadsOneMore(Do, s, s, Moves(r));
    LeadsOneMore(Do, s, n, Cancel);
    assert r in In(Do(n, Cancel), IN_WINDOW);
  }
}
