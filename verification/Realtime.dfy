/**
 The lifecycle of the realtime components: `Start` launches one goroutine per component, the
 first `Shutdown` cancels, closes the components in a goroutine of its own, waits for the
 launched goroutines in another, and leaves its select loop. A schedule is any sequence of steps;
 a step that is not enabled changes nothing.
 */
module Realtime {
  import opened Schedules

  /** The winning call of `Start`, past its locked section; component `next` is handled next. */
  datatype Starting = NotStarted | Adding(next: nat) | Launching(next: nat) | StartReturned

  /** One component goroutine. */
  datatype Runner = Absent | Running | Failing | Leaving | Gone

  /** The call of `Shutdown` that runs the once-only body. */
  datatype Body =
    | NotEntered | ReadingCancel | Cancelling(have: bool) | SpawningCloser | SpawningWaiter | Looping | Left(exit: Exit)

  datatype Exit = ByWaited | ByContext

  /** The closing goroutine; it closes component `left - 1` next. */
  datatype Closer = CloserAbsent | Closing(left: nat) | Sent

  datatype Waiting = WaiterAbsent | WaiterWaits | WaiterSignalled

  /** The starting half: what Start and the component goroutines write. */
  datatype Launch = Launch(
    starting: Starting,
    haveCancel: bool,       // d.cancel != nil
    runners: seq<Runner>,
    failed: set<nat>,       // the keys of d.runErrs
    waitGroup: int)

  /** The stopping half: what Shutdown and its goroutines write. */
  datatype Stop = Stop(
    body: Body,
    cancelled: bool,        // the run context is done
    blocked: nat,           // later Shutdown calls waiting in stopOnce.Do
    returned: nat,          // later Shutdown calls that have returned
    closer: Closer,
    closeLog: seq<nat>,     // history: the components closed so far
    buffered: bool,         // the closed channel holds the closing result
    closedIsNil: bool,      // the select loop has set its channel variable to nil
    waiting: Waiting,
    rounds: nat)            // history: select statements taken by the loop

  /** `n` components, as `NewRealtimeDependencies` built them. */
  datatype State = State(n: nat, launch: Launch, stop: Stop)

  function Init(n: nat): State {
    State(n, Launch(NotStarted, false, seq(n, _ => Absent), {}, 0),
          Stop(NotEntered, false, 0, 0, CloserAbsent, [], false, false, WaiterAbsent, 0))
  }

  datatype LaunchStep = CallStart | StartMoves | RunReturns(i: nat, failure: bool) | RunnerMoves(i: nat)

  datatype StopStep =
    | CallShutdown | BodyMoves | BlockedReturns | CloserMoves | WaiterMoves | TakeClosed | TakeWaited | TakeContext

  datatype Step = Launches(l: LaunchStep) | Stops(s: StopStep)

  function DoLaunch(s: Launch, step: LaunchStep): Launch {
    match step
    case CallStart =>
      // A second call finds d.started set and returns an error.
      if s.starting.NotStarted? then s.(starting := Adding(0), haveCancel := true) else s
    case StartMoves =>
      (match s.starting
       case Adding(i) =>
         if i == |s.runners| then s.(starting := StartReturned)
         else s.(starting := Launching(i), waitGroup := s.waitGroup + 1)
       case Launching(i) =>
         if i < |s.runners| then s.(starting := Adding(i + 1), runners := s.runners[i := Running]) else s
       case _ => s)
    case RunReturns(i, failure) =>
      if i < |s.runners| && s.runners[i].Running? then
        s.(runners := s.runners[i := if failure then Failing else Leaving])
      else s
    case RunnerMoves(i) =>
      if i < |s.runners| && s.runners[i].Failing? then s.(runners := s.runners[i := Leaving], failed := s.failed + {i})
      else if i < |s.runners| && s.runners[i].Leaving? then s.(runners := s.runners[i := Gone], waitGroup := s.waitGroup - 1)
      else s
  }

  function MoveBody(s: Stop, n: nat, launch: Launch): Stop {
    match s.body
    case ReadingCancel => s.(body := Cancelling(launch.haveCancel))
    case Cancelling(have) => s.(body := SpawningCloser, cancelled := s.cancelled || have)
    case SpawningCloser => s.(body := SpawningWaiter, closer := Closing(n))
    case SpawningWaiter => s.(body := Looping, waiting := WaiterWaits)
    case _ => s
  }

  function MoveCloser(s: Stop): Stop {
    match s.closer
    case Closing(left) =>
      if left == 0 then s.(closer := Sent, buffered := true)
      else s.(closer := Closing(left - 1), closeLog := s.closeLog + [left - 1])
    case _ => s
  }

  function DoStop(s: Stop, n: nat, launch: Launch, step: StopStep): Stop {
    match step
    case CallShutdown =>
      if s.body.NotEntered? then s.(body := ReadingCancel)
      else s.(blocked := s.blocked + 1)
    case BlockedReturns =>
      if s.blocked > 0 && s.body.Left? then s.(blocked := s.blocked - 1, returned := s.returned + 1) else s
    case BodyMoves => MoveBody(s, n, launch)
    case CloserMoves => MoveCloser(s)
    case WaiterMoves =>
      if s.waiting.WaiterWaits? && launch.waitGroup == 0 then s.(waiting := WaiterSignalled) else s
    case TakeClosed =>
      if s.body.Looping? && !s.closedIsNil && s.buffered then
        s.(buffered := false, closedIsNil := true, rounds := s.rounds + 1)
      else s
    case TakeWaited =>
      if s.body.Looping? && s.waiting.WaiterSignalled? then
        s.(body := Left(ByWaited), rounds := s.rounds + 1, buffered := s.buffered && s.closedIsNil)
      else s
    case TakeContext =>
      if s.body.Looping? then s.(body := Left(ByContext), rounds := s.rounds + 1) else s
  }

  function Do(s: State, step: Step): State {
    match step
    case Launches(l) => s.(launch := DoLaunch(s.launch, l))
    case Stops(t) => s.(stop := DoStop(s.stop, s.n, s.launch, t))
  }

  // ---------- invariants ----------

  predicate Live(r: Runner) { r.Running? || r.Failing? || r.Leaving? }

  /** Components whose goroutine is counted by the wait group. */
  function Counted(s: Launch): set<nat> {
    set i | 0 <= i < |s.runners| && (Live(s.runners[i]) || s.starting == Launching(i))
  }

  predicate LaunchedUpTo(s: Launch, k: nat) {
    k <= |s.runners| && forall i | 0 <= i < |s.runners| :: s.runners[i].Absent? <==> k <= i
  }

  predicate LaunchOk(s: Launch) {
    && s.waitGroup == |Counted(s)|
    && (s.haveCancel <==> !s.starting.NotStarted?)
    && match s.starting
       case NotStarted => LaunchedUpTo(s, 0)
       case Adding(k) => LaunchedUpTo(s, k)
       case Launching(k) => k < |s.runners| && LaunchedUpTo(s, k)
       case StartReturned => LaunchedUpTo(s, |s.runners|)
  }

  predicate BeforeCloser(b: Body) { b.NotEntered? || b.ReadingCancel? || b.Cancelling? || b.SpawningCloser? }

  /** Components are closed one by one from the last to the first, each once. */
  predicate CloseOk(s: Stop, n: nat) {
    && |s.closeLog| <= n
    && (forall i | 0 <= i < |s.closeLog| :: s.closeLog[i] == n - 1 - i)
    && (s.closer.CloserAbsent? ==> s.closeLog == [] && !s.buffered)
    && (s.closer.Closing? ==> s.closer.left == n - |s.closeLog| && !s.buffered)
    && (s.closer.Sent? ==> |s.closeLog| == n)
    && (s.closer.CloserAbsent? <==> BeforeCloser(s.body))
  }

  predicate LoopOk(s: Stop) {
    && (s.body.Looping? ==> s.rounds == if s.closedIsNil then 1 else 0)
    && (s.body.Left? ==> s.rounds == if s.closedIsNil then 2 else 1)
    && (!s.body.Looping? && !s.body.Left? ==> s.rounds == 0 && !s.closedIsNil && s.waiting.WaiterAbsent?)
    && (s.closedIsNil ==> s.closer.Sent? && !s.buffered)
    && (s.body == Left(ByWaited) ==> s.waiting.WaiterSignalled?)
    && (s.returned > 0 ==> s.body.Left?)
  }

  predicate Inv(s: State) {
    && |s.launch.runners| == s.n
    && LaunchOk(s.launch) && CloseOk(s.stop, s.n) && LoopOk(s.stop)
  }

  lemma StopKeepsClose(s: Stop, n: nat, launch: Launch, step: StopStep)
    requires CloseOk(s, n)
    ensures CloseOk(DoStop(s, n, launch, step), n)
  {}

  lemma StopKeepsLoop(s: Stop, n: nat, launch: Launch, step: StopStep)
    requires CloseOk(s, n) && LoopOk(s)
    ensures LoopOk(DoStop(s, n, launch, step))
  {}

  lemma StartCounts(s: Launch)
    requires LaunchOk(s)
    ensures DoLaunch(s, StartMoves).waitGroup == |Counted(DoLaunch(s, StartMoves))|
  {
    var before, after := Counted(s), Counted(DoLaunch(s, StartMoves));
    if s.starting.Adding? && s.starting.next < |s.runners| {
      var k := s.starting.next;
      assert s.runners[k].Absent?;
      assert after == before + {k} && k !in before;
    } else {
      assert after == before;
    }
  }

  /** Replacing the state of a launched component. */
  lemma CountedAfter(s: Launch, i: nat, r: Runner)
    requires i < |s.runners| && s.starting != Launching(i)
    ensures Counted(s.(runners := s.runners[i := r])) == if Live(r) then Counted(s) + {i} else Counted(s) - {i}
  {}

  lemma RunnerCounts(s: Launch, i: nat)
    requires LaunchOk(s)
    ensures DoLaunch(s, RunnerMoves(i)).waitGroup == |Counted(DoLaunch(s, RunnerMoves(i)))|
  {
    if i < |s.runners| && (s.runners[i].Failing? || s.runners[i].Leaving?) {
      assert s.starting != Launching(i);
      assert i in Counted(s);
      CountedAfter(s, i, if s.runners[i].Failing? then Leaving else Gone);
      assert Counted(s) + {i} == Counted(s);
      assert |Counted(s) - {i}| == |Counted(s)| - 1;
      assert Counted(DoLaunch(s, RunnerMoves(i))) == Counted(s.(runners := DoLaunch(s, RunnerMoves(i)).runners));
    }
  }

  /** A launch step counts one goroutine more, one less, or the same. */
  lemma LaunchCounts(s: Launch, step: LaunchStep)
    requires LaunchOk(s)
    ensures DoLaunch(s, step).waitGroup == |Counted(DoLaunch(s, step))|
  {
    match step
    case CallStart => assert Counted(DoLaunch(s, step)) == Counted(s);
    case StartMoves => StartCounts(s);
    case RunReturns(_, _) => assert Counted(DoLaunch(s, step)) == Counted(s);
    case RunnerMoves(i) => RunnerCounts(s, i);
  }

  lemma LaunchKeepsLaunch(s: Launch, step: LaunchStep)
    requires LaunchOk(s)
    ensures LaunchOk(DoLaunch(s, step)) && |DoLaunch(s, step).runners| == |s.runners|
  {
    LaunchCounts(s, step);
  }

  lemma StepKeepsInv(s: State, step: Step)
    requires Inv(s)
    ensures Inv(Do(s, step))
  {
    match step
    case Launches(l) => LaunchKeepsLaunch(s.launch, l);
    case Stops(t) =>
      StopKeepsClose(s.stop, s.n, s.launch, t);
      StopKeepsLoop(s.stop, s.n, s.launch, t);
  }

  lemma {:induction false} ExecutionKeepsInv(s: State, schedule: seq<Step>)
    requires Inv(s)
    ensures Inv(Execute(Do, s, schedule))
    decreases |schedule|
  {
    if schedule != [] {
      StepKeepsInv(s, schedule[0]);
      ExecutionKeepsInv(Do(s, schedule[0]), schedule[1..]);
    }
  }

  lemma InitInv(n: nat)
    ensures Inv(Init(n))
  {
    assert Counted(Init(n).launch) == {};
  }

  // ---------- theorems ----------

  /** However Start, Shutdown calls and goroutines interleave, components are closed at most once and last built first. */
  lemma ClosedOnceInReverse(n: nat, schedule: seq<Step>)
    ensures var log := Execute(Do, Init(n), schedule).stop.closeLog;
            && |log| <= n && (forall i | 0 <= i < |log| :: log[i] == n - 1 - i)
            && (forall i, j | 0 <= i < j < |log| :: log[i] > log[j])
  {
    InitInv(n);
    ExecutionKeepsInv(Init(n), schedule);
    SizeFixed(Init(n), schedule);
  }

  /** The select loop takes at most two rounds, and no other Shutdown call returns before the body has left it. */
  lemma LoopBounded(n: nat, schedule: seq<Step>)
    ensures var s := Execute(Do, Init(n), schedule);
            s.stop.rounds <= 2 && s.launch.waitGroup >= 0 && (s.stop.returned > 0 ==> s.stop.body.Left?)
  {
    InitInv(n);
    ExecutionKeepsInv(Init(n), schedule);
  }

  lemma {:induction false} SizeFixed(s: State, schedule: seq<Step>)
    ensures Execute(Do, s, schedule).n == s.n
    decreases |schedule|
  {
    if schedule != [] { SizeFixed(Do(s, schedule[0]), schedule[1..]); }
  }

  // ---------- failures ----------

  /** What is on record about component `i`, once its `Run` has returned: its failure, from the moment it is written down. */
  predicate Recorded(s: State, i: nat, failure: bool)
    requires i < |s.launch.runners|
  {
    var r := s.launch.runners[i];
    if failure then r.Failing? || ((r.Leaving? || r.Gone?) && i in s.launch.failed)
    else (r.Leaving? || r.Gone?) && i !in s.launch.failed
  }

  lemma {:induction false} StaysRecorded(s: State, schedule: seq<Step>, i: nat, failure: bool)
    requires i < |s.launch.runners| && Recorded(s, i, failure)
    requires s.launch.starting != Launching(i) && LaunchOk(s.launch)
    ensures var n := Execute(Do, s, schedule); i < |n.launch.runners| && Recorded(n, i, failure)
    decreases |schedule|
  {
    if schedule != [] {
      var n := Do(s, schedule[0]);
      if schedule[0].Launches? { LaunchKeepsLaunch(s.launch, schedule[0].l); }
      StaysRecorded(n, schedule[1..], i, failure);
    }
  }

  /**
   When the `Run` of a component returns, with a failure or without, its error is recorded by the time its goroutine
   is gone if and only if it failed, whatever else happens.
   */
  lemma FailureRecordedIff(n: nat, before: seq<Step>, i: nat, failure: bool, later: seq<Step>)
    requires var s := Execute(Do, Init(n), before); i < |s.launch.runners| && s.launch.runners[i].Running?
    ensures var u := Execute(Do, Do(Execute(Do, Init(n), before), Launches(RunReturns(i, failure))), later);
            i < |u.launch.runners| && (u.launch.runners[i].Gone? ==> (i in u.launch.failed <==> failure))
  {
    var s := Execute(Do, Init(n), before);
    InitInv(n);
    ExecutionKeepsInv(Init(n), before);
    var v := Do(s, Launches(RunReturns(i, failure)));
    LaunchKeepsLaunch(s.launch, RunReturns(i, failure));
    RunningIsUnrecorded(n, before, i);
    StaysRecorded(v, later, i, failure);
  }

  lemma {:induction false} UnrecordedWhileRunning(s: State, schedule: seq<Step>)
    requires FailuresReturned(s) && LaunchOk(s.launch)
    ensures FailuresReturned(Execute(Do, s, schedule))
    decreases |schedule|
  {
    if schedule != [] {
      if schedule[0].Launches? { LaunchKeepsLaunch(s.launch, schedule[0].l); }
      UnrecordedWhileRunning(Do(s, schedule[0]), schedule[1..]);
    }
  }

  /** Only components whose `Run` has returned are on record. */
  predicate FailuresReturned(s: State) {
    forall i | i in s.launch.failed :: i < |s.launch.runners| && (s.launch.runners[i].Leaving? || s.launch.runners[i].Gone?)
  }

  /** So nothing is on record of a component that is running. */
  lemma RunningIsUnrecorded(n: nat, schedule: seq<Step>, i: nat)
    requires var s := Execute(Do, Init(n), schedule); i < |s.launch.runners| && s.launch.runners[i].Running?
    ensures i !in Execute(Do, Init(n), schedule).launch.failed
  {
    InitInv(n);
    UnrecordedWhileRunning(Init(n), schedule);
  }

  // ---------- what the wait of Shutdown waits for ----------

  predicate AllGone(s: Launch) { forall i | 0 <= i < |s.runners| :: s.runners[i].Gone? }

  /** No component is left for `Start` to add to the wait group. */
  predicate Covered(s: Launch) { forall i | 0 <= i < |s.runners| :: s.runners[i].Absent? ==> s.starting == Launching(i) }

  /** What entering `Shutdown` with every component covered keeps true. */
  predicate CoveredOk(s: State) {
    && Covered(s.launch)
    && (s.stop.waiting.WaiterSignalled? ==> AllGone(s.launch))
    && (s.n > 0 ==> s.launch.haveCancel)
    && (s.n > 0 && s.stop.body.Cancelling? ==> s.stop.body.have)
    && (s.n > 0 && !s.stop.body.NotEntered? && !s.stop.body.ReadingCancel? && !s.stop.body.Cancelling? ==> s.stop.cancelled)
  }

  /** With every component covered, a wait group at zero means that every goroutine is gone. */
  lemma ZeroMeansGone(s: Launch)
    requires LaunchOk(s) && Covered(s) && s.waitGroup == 0
    ensures AllGone(s)
  {
    forall i | 0 <= i < |s.runners| ensures s.runners[i].Gone? {
      assert i !in Counted(s);
    }
  }

  lemma StepKeepsCovered(s: State, step: Step)
    requires Inv(s) && CoveredOk(s)
    ensures CoveredOk(Do(s, step))
  {
    if step == Stops(WaiterMoves) && s.launch.waitGroup == 0 { ZeroMeansGone(s.launch); }
  }

  lemma {:induction false} ExecutionKeepsCovered(s: State, schedule: seq<Step>)
    requires Inv(s) && CoveredOk(s)
    ensures CoveredOk(Execute(Do, s, schedule))
    decreases |schedule|
  {
    if schedule != [] {
      StepKeepsInv(s, schedule[0]);
      StepKeepsCovered(s, schedule[0]);
      ExecutionKeepsCovered(Do(s, schedule[0]), schedule[1..]);
    }
  }

  /** The state in which the first call of `Shutdown` enters the once-only body. */
  predicate Enters(s: State) { Inv(s) && s.stop.body.NotEntered? }

  lemma ReachedEnters(n: nat, before: seq<Step>)
    requires Execute(Do, Init(n), before).stop.body.NotEntered?
    ensures var s := Execute(Do, Init(n), before); Enters(s) && s.n == n
  {
    InitInv(n);
    ExecutionKeepsInv(Init(n), before);
    SizeFixed(Init(n), before);
  }

  /**
   If every component had been launched, or was being launched, when the first Shutdown entered, its
   leaving through the waited branch means that every goroutine is gone, and that they had been cancelled.
   */
  lemma WaitedMeansGone(n: nat, before: seq<Step>, later: seq<Step>)
    requires var s := Execute(Do, Init(n), before); s.stop.body.NotEntered? && Covered(s.launch)
    ensures var u := Execute(Do, Do(Execute(Do, Init(n), before), Stops(CallShutdown)), later);
            u.stop.body == Left(ByWaited) ==> AllGone(u.launch) && (n > 0 ==> u.stop.cancelled)
  {
    var s := Execute(Do, Init(n), before);
    ReachedEnters(n, before);
    var entered := Do(s, Stops(CallShutdown));
    StepKeepsInv(s, Stops(CallShutdown));
    assert n > 0 ==> !s.launch.runners[0].Absent? || s.launch.starting == Launching(0);
    ExecutionKeepsInv(entered, later);
    ExecutionKeepsCovered(entered, later);
    SizeFixed(entered, later);
  }

  /** In that case nothing is closed before the components have been cancelled. */
  lemma ClosedAfterCancel(n: nat, before: seq<Step>, later: seq<Step>)
    requires var s := Execute(Do, Init(n), before); s.stop.body.NotEntered? && Covered(s.launch)
    ensures var u := Execute(Do, Do(Execute(Do, Init(n), before), Stops(CallShutdown)), later);
            u.stop.closeLog != [] ==> u.stop.cancelled
  {
    var s := Execute(Do, Init(n), before);
    ReachedEnters(n, before);
    var entered := Do(s, Stops(CallShutdown));
    StepKeepsInv(s, Stops(CallShutdown));
    assert n > 0 ==> !s.launch.runners[0].Absent? || s.launch.starting == Launching(0);
    ExecutionKeepsInv(entered, later);
    ExecutionKeepsCovered(entered, later);
    SizeFixed(entered, later);
  }

  /** `Shutdown` has left through the waited branch and a component goroutine has not ended. */
  predicate LeavesRunners(s: State) {
    s.stop.body == Left(ByWaited) && exists i | 0 <= i < |s.launch.runners| :: Live(s.launch.runners[i])
  }

  ghost predicate CanLeaveRunners(s: State) { exists later: seq<Step> :: LeavesRunners(Execute(Do, s, later)) }

  /**
   Exactly when, as the first Shutdown enters, some component is absent and not the one being launched,
   can it go on to leave through the waited branch with a goroutine left behind.
   */
  lemma WaitedCanLeaveRunners(n: nat, before: seq<Step>)
    requires Execute(Do, Init(n), before).stop.body.NotEntered?
    ensures var s := Execute(Do, Init(n), before);
            && |s.launch.runners| == n
            && (CanLeaveRunners(Do(s, Stops(CallShutdown)))
                <==> exists i | 0 <= i < n :: s.launch.runners[i].Absent? && s.launch.starting != Launching(i))
  {
    var s := Execute(Do, Init(n), before);
    ReachedEnters(n, before);
    if Covered(s.launch) {
      forall later: seq<Step> ensures !LeavesRunners(Execute(Do, Do(s, Stops(CallShutdown)), later)) {
        WaitedMeansGone(n, before, later);
      }
    } else {
      LeftBehind(s);
    }
  }

  // ---------- a schedule that leaves a goroutine behind ----------

  /** Component `i` ends. */
  lemma RunnerEnds(s: State, i: nat) returns (u: State)
    requires Inv(s) && i < s.n && Live(s.launch.runners[i])
    ensures Leads(Do, s, u) && Inv(u) && u.stop == s.stop && u.n == s.n && u.launch.starting == s.launch.starting
    ensures u.launch.waitGroup == s.launch.waitGroup - 1
  {
    u := s;
    LeadsNowhere(Do, s);
    if u.launch.runners[i].Running? { u := Take(s, u, Launches(RunReturns(i, false))); }
    if u.launch.runners[i].Failing? { u := Take(s, u, Launches(RunnerMoves(i))); }
    u := Take(s, u, Launches(RunnerMoves(i)));
  }

  /** One more step. */
  lemma Take(s: State, v: State, step: Step) returns (u: State)
    requires Leads(Do, s, v) && Inv(v)
    ensures u == Do(v, step) && Leads(Do, s, u) && Inv(u)
  {
    LeadsOneMore(Do, s, v, step);
    StepKeepsInv(v, step);
    u := Do(v, step);
  }

  /** When none is being launched, all goroutines can end. */
  lemma {:induction false} RunnersEnd(s: State) returns (u: State)
    requires Inv(s) && !s.launch.starting.Launching?
    ensures Leads(Do, s, u) && Inv(u) && u.stop == s.stop && u.n == s.n && u.launch.starting == s.launch.starting
    ensures u.launch.waitGroup == 0
    decreases s.launch.waitGroup
  {
    LeadsNowhere(Do, s);
    u := s;
    if s.launch.waitGroup != 0 {
      var i :| i in Counted(s.launch);
      var v := RunnerEnds(s, i);
      u := RunnersEnd(v);
      LeadsThrough(Do, s, v, u);
    }
  }

  /** The body goes on to its select loop, and the waiter finds the wait group at zero. */
  lemma WaiterSignals(s: State) returns (u: State)
    requires Inv(s) && s.stop.body.ReadingCancel? && s.launch.waitGroup == 0
    ensures Leads(Do, s, u) && Inv(u) && u.launch == s.launch && u.n == s.n
    ensures u.stop.body.Looping? && u.stop.waiting.WaiterSignalled? && u.stop.rounds == s.stop.rounds
  {
    LeadsNowhere(Do, s);
    u := Take(s, s, Stops(BodyMoves));
    u := Take(s, u, Stops(BodyMoves));
    u := Take(s, u, Stops(BodyMoves));
    u := Take(s, u, Stops(BodyMoves));
    u := Take(s, u, Stops(WaiterMoves));
  }

  /** `Start` launches one more component, and `Shutdown` leaves. */
  lemma LaunchesOneMore(s: State) returns (u: State)
    requires Inv(s) && s.stop.body.Looping? && s.stop.waiting.WaiterSignalled?
    requires s.launch.starting.NotStarted? || s.launch.starting.Adding?
    requires s.launch.starting.NotStarted? ==> s.n > 0
    requires s.launch.starting.Adding? ==> s.launch.starting.next < s.n
    ensures Leads(Do, s, u) && LeavesRunners(u)
  {
    LeadsNowhere(Do, s);
    u := s;
    if u.launch.starting.NotStarted? { u := Take(s, u, Launches(CallStart)); }
    var k := u.launch.starting.next;
    u := Take(s, u, Launches(StartMoves));
    u := Take(s, u, Launches(StartMoves));
    u := Take(s, u, Stops(TakeWaited));
    assert Live(u.launch.runners[k]);
  }

  /** The context ends the loop from wherever it is. */
  lemma ContextEndsLoop(s: State)
    requires s.stop.body.Looping?
    ensures Do(s, Stops(TakeContext)).stop.body == Left(ByContext)
  {}

  /** Shutdown can leave by the wait, after a single round. */
  lemma ShutdownEnds(n: nat) returns (u: State)
    ensures Leads(Do, Init(n), u) && u.stop.body == Left(ByWaited) && u.stop.rounds == 1
  {
    var s := Init(n);
    InitInv(n);
    LeadsNowhere(Do, s);
    var v := Take(s, s, Stops(CallShutdown));
    var w := WaiterSignals(v);
    LeadsThrough(Do, s, v, w);
    u := Take(s, w, Stops(TakeWaited));
  }

  lemma LeftBehind(s: State)
    requires Enters(s) && !Covered(s.launch)
    ensures CanLeaveRunners(Do(s, Stops(CallShutdown)))
  {
    var entered := Do(s, Stops(CallShutdown));
    StepKeepsInv(s, Stops(CallShutdown));
    LeadsNowhere(Do, entered);
    var a := entered;
    if a.launch.starting.Launching? { a := Take(entered, a, Launches(StartMoves)); }
    var b := RunnersEnd(a);
    LeadsThrough(Do, entered, a, b);
    var c := WaiterSignals(b);
    LeadsThrough(Do, entered, b, c);
    var d := LaunchesOneMore(c);
    LeadsThrough(Do, entered, c, d);
  }
}
