/**
 The server-start signal: an RW lock, a channel that every HTTP start replaces, and any number of
 starters and waiters. A schedule is any sequence of steps; a step that is not enabled changes
 nothing, so the schedules are all the interleavings.
 */
module ServerStart {
  import opened Schedules

  /** `realtime`: there are realtime dependencies, whose `Start` refuses a second call; `http`: the role serves HTTP. */
  datatype Setup = Setup(realtime: bool, http: bool)

  /** A call of `App.Start`, up to the lock. */
  datatype Call = Calling | Refused | WorksOnly | AtLock

  /** From `a.serverMu.Lock()` to `close(serverStarted)`; `own` is the channel this starter made. */
  datatype Starter =
    | Idle | Locked | ClosedOld | MadeNew(own: nat) | Created(own: nat) | Unlocked(own: nat) | Started(own: nat)

  /** A call of `WaitForServerStart`; `channel` is the one it captured. */
  datatype Waiter =
    | Entering | Reading | Waiting(channel: nat) | Woken | Checking | ReturnedBySignal(ok: bool) | ReturnedByContext

  /** The lock, the channels, and where starters and waiters stand. */
  datatype Server = Server(
    starters: map<nat, Starter>,
    waiters: map<nat, Waiter>,
    writer: set<nat>,    // the starter holding the write lock
    readers: set<nat>,   // the waiters holding a read lock
    current: nat,        // the channel in a.serverStarted
    closed: set<nat>,    // the closed channels
    server: bool,        // a.server != nil
    panicked: bool,      // a channel was closed twice
    makers: seq<nat>,    // history: the starter that made channel 1, 2, ...
    closer: nat)         // history: the starter that closed a channel last

  datatype State = State(setup: Setup, launched: bool, calls: map<nat, Call>, server: Server)

  datatype Step = StarterMoves(t: nat) | WaiterMoves(w: nat) | ContextExpires(w: nat)

  function Init(setup: Setup, starters: set<nat>, waiters: set<nat>): State {
    State(setup, false, map t | t in starters :: Calling,
          Server(map t | t in starters :: Idle, map w | w in waiters :: Entering, {}, {}, 0, {}, false, false, [], 0))
  }

  /** `close(c)` by starter `t`. */
  function Close(s: Server, t: nat, c: nat): Server {
    if c in s.closed then s.(panicked := true) else s.(closed := s.closed + {c}, closer := t)
  }

  function At(s: Server, t: nat, pc: Starter): Server { s.(starters := s.starters[t := pc]) }
  function WaiterAt(s: Server, w: nat, pc: Waiter): Server { s.(waiters := s.waiters[w := pc]) }

  function MoveStarter(s: Server, t: nat): Server
    requires t in s.starters
  {
    match s.starters[t]
    case Idle => if s.writer == {} && s.readers == {} then At(s, t, Locked).(writer := {t}) else s
    case Locked => var c := Close(s, t, s.current); if c.panicked then c else At(c, t, ClosedOld)
    case ClosedOld => At(s, t, MadeNew(s.current + 1)).(current := s.current + 1, makers := s.makers + [t])
    case MadeNew(own) => At(s, t, Created(own)).(server := true)
    case Created(own) => At(s, t, Unlocked(own)).(writer := {})
    case Unlocked(own) => var c := Close(s, t, own); if c.panicked then c else At(c, t, Started(own))
    case _ => s
  }

  function MoveWaiter(s: Server, w: nat): Server
    requires w in s.waiters
  {
    match s.waiters[w]
    case Entering => if s.writer == {} then WaiterAt(s, w, Reading).(readers := s.readers + {w}) else s
    case Reading => WaiterAt(s, w, Waiting(s.current)).(readers := s.readers - {w})
    case Waiting(c) => if c in s.closed then WaiterAt(s, w, Woken) else s
    case Woken => if s.writer == {} then WaiterAt(s, w, Checking).(readers := s.readers + {w}) else s
    case Checking => WaiterAt(s, w, ReturnedBySignal(s.server)).(readers := s.readers - {w})
    case _ => s
  }

  function Advance(s: Server, step: Step): Server {
    if s.panicked then s
    else match step
      case StarterMoves(t) => if t in s.starters then MoveStarter(s, t) else s
      case WaiterMoves(w) => if w in s.waiters then MoveWaiter(s, w) else s
      case ContextExpires(w) =>
        if w in s.waiters && s.waiters[w].Waiting? then WaiterAt(s, w, ReturnedByContext) else s
  }

  /** Before the lock: the realtime dependencies start, or refuse to; only the HTTP role goes on. */
  function Enter(s: State, t: nat): State {
    if s.setup.realtime && s.launched then s.(calls := s.calls[t := Refused])
    else s.(launched := s.setup.realtime, calls := s.calls[t := if s.setup.http then AtLock else WorksOnly])
  }

  function Do(s: State, step: Step): State {
    if step.StarterMoves? && step.t in s.calls && !s.calls[step.t].AtLock? then
      if s.calls[step.t].Calling? && !s.server.panicked then Enter(s, step.t) else s
    else s.(server := Advance(s.server, step))
  }

  // ---------- invariants ----------

  predicate Holds(pc: Starter) { pc.Locked? || pc.ClosedOld? || pc.MadeNew? || pc.Created? }
  predicate Owns(pc: Starter) { pc.MadeNew? || pc.Created? || pc.Unlocked? || pc.Started? }

  /** The lock: one writer or readers, and who holds it is where it holds it. */
  ghost predicate LockOk(s: Server) {
    && (forall t :: t in s.writer <==> t in s.starters && Holds(s.starters[t]))
    && (forall t, u | t in s.writer && u in s.writer :: t == u)
    && (forall w :: w in s.readers <==> w in s.waiters && (s.waiters[w].Reading? || s.waiters[w].Checking?))
    && (s.writer == {} || s.readers == {})
  }

  /** A closed channel means a server, except to the starter still holding the lock. */
  ghost predicate SignalOk(s: Server) {
    && (s.closed != {} && s.writer == {} ==> s.server)
    && (forall t | t in s.starters :: (s.starters[t].Created? || s.starters[t].Unlocked? || s.starters[t].Started?) ==> s.server)
    && (forall w | w in s.waiters :: (s.waiters[w].Woken? || s.waiters[w].Checking?) ==> s.closed != {})
    && (forall w | w in s.waiters :: s.waiters[w].ReturnedBySignal? ==> s.waiters[w].ok)
  }

  /** What the place of one starter says about the channels. */
  predicate StarterOk(s: Server, t: nat)
    requires t in s.starters
  {
    var pc := s.starters[t];
    && (Owns(pc) ==> 1 <= pc.own <= |s.makers| && s.makers[pc.own - 1] == t)
    && (pc.MadeNew? || pc.Created? ==> pc.own == s.current)
    && (pc.ClosedOld? ==> s.current in s.closed && s.closer == t)
    && (pc.Started? ==> pc.own == s.current && s.current in s.closed && s.closer == t)
  }

  /** Channel `c` was made by a starter that has gone on from there. */
  predicate Made(s: Server, c: nat) {
    && 1 <= c <= |s.makers| && s.makers[c - 1] in s.starters
    && var pc := s.starters[s.makers[c - 1]]; Owns(pc) && pc.own == c
  }

  predicate ClosedOk(s: Server) {
    && |s.makers| == s.current
    && (forall c | c in s.closed :: c <= s.current)
    && (forall c | 0 <= c < s.current :: c in s.closed)
  }

  predicate CloserOk(s: Server) {
    s.current in s.closed ==>
      s.closer in s.starters && (s.starters[s.closer].ClosedOld? || s.starters[s.closer].Started?)
  }

  predicate ChannelsOk(s: Server) {
    && ClosedOk(s) && CloserOk(s)
    && (forall t | t in s.starters :: StarterOk(s, t))
    && (forall c | 1 <= c <= s.current :: Made(s, c))
  }

  ghost predicate TwoStarters(s: Server) {
    exists t, u :: t != u && t in s.starters && u in s.starters && !s.starters[t].Idle? && !s.starters[u].Idle?
  }

  ghost predicate Inv(s: Server) {
    && (!s.panicked ==> LockOk(s) && SignalOk(s) && ChannelsOk(s))
    && (s.panicked ==> TwoStarters(s))
    && (forall w | w in s.waiters :: s.waiters[w].ReturnedBySignal? ==> s.waiters[w].ok)
  }

  lemma StarterKeepsLock(s: Server, t: nat)
    requires Inv(s) && !s.panicked && t in s.starters
    ensures !MoveStarter(s, t).panicked ==> LockOk(MoveStarter(s, t))
  {
    assert t in s.writer <==> Holds(s.starters[t]);
  }

  lemma StarterKeepsSignal(s: Server, t: nat)
    requires Inv(s) && !s.panicked && t in s.starters
    ensures !MoveStarter(s, t).panicked ==> SignalOk(MoveStarter(s, t))
  {
    assert t in s.writer <==> Holds(s.starters[t]);
  }

  lemma OtherStarterOk(s: Server, t: nat, u: nat)
    requires Inv(s) && !s.panicked && t in s.starters && u in s.starters && !MoveStarter(s, t).panicked && u != t
    ensures StarterOk(MoveStarter(s, t), u)
  {
    assert StarterOk(s, t) && StarterOk(s, u) && (t in s.writer <==> Holds(s.starters[t]));
    assert Holds(s.starters[t]) ==> !Holds(s.starters[u]);
  }

  lemma MovedStarterOk(s: Server, t: nat)
    requires Inv(s) && !s.panicked && t in s.starters && !MoveStarter(s, t).panicked
    ensures StarterOk(MoveStarter(s, t), t)
  {
    assert StarterOk(s, t);
  }

  lemma MoveStarterMovesOne(s: Server, t: nat, u: nat)
    requires t in s.starters
    ensures var n := MoveStarter(s, t);
            && (u in n.starters <==> u in s.starters)
            && (u in s.starters && u != t ==> n.starters[u] == s.starters[u])
  {
    match s.starters[t]
    case Idle =>
    case Locked =>
    case ClosedOld =>
    case MadeNew(own) =>
    case Created(own) =>
    case Unlocked(own) =>
    case Started(_) =>
  }

  /** A starter keeps the channel it made, and the list of makers only grows. */
  lemma MoveStarterKeepsOwn(s: Server, t: nat)
    requires t in s.starters
    ensures var n := MoveStarter(s, t);
            && s.makers <= n.makers
            && (Owns(s.starters[t]) ==> Owns(n.starters[t]) && n.starters[t].own == s.starters[t].own)
  {}

  lemma MadeAfter(s: Server, t: nat, c: nat)
    requires Inv(s) && !s.panicked && t in s.starters && !MoveStarter(s, t).panicked
    requires 1 <= c <= MoveStarter(s, t).current
    ensures Made(MoveStarter(s, t), c)
  {
    assert StarterOk(s, t);
    if c <= s.current {
      assert Made(s, c);
      MoveStarterMovesOne(s, t, s.makers[c - 1]);
      MoveStarterKeepsOwn(s, t);
    }
  }

  lemma StarterKeepsClosed(s: Server, t: nat)
    requires Inv(s) && !s.panicked && t in s.starters && !MoveStarter(s, t).panicked
    ensures ClosedOk(MoveStarter(s, t)) && CloserOk(MoveStarter(s, t))
  {
    assert StarterOk(s, t);
  }

  lemma StarterKeepsChannels(s: Server, t: nat)
    requires Inv(s) && !s.panicked && t in s.starters && !MoveStarter(s, t).panicked
    ensures ChannelsOk(MoveStarter(s, t))
  {
    var n := MoveStarter(s, t);
    StarterKeepsClosed(s, t);
    forall u | u in n.starters ensures StarterOk(n, u) {
      if u == t { MovedStarterOk(s, t); } else { OtherStarterOk(s, t, u); }
    }
    forall c | 1 <= c <= n.current ensures Made(n, c) { MadeAfter(s, t, c); }
  }

  /** A second close needs a second starter. */
  lemma PanicNeedsTwo(s: Server, t: nat)
    requires Inv(s) && !s.panicked && t in s.starters && MoveStarter(s, t).panicked
    ensures TwoStarters(MoveStarter(s, t))
  {
    assert StarterOk(s, t);
    var u := if s.current in s.closed then s.closer else s.makers[s.current - 1];
    assert s.current > 0 ==> Made(s, s.current);
    assert t != u && u in s.starters && !s.starters[u].Idle? && !s.starters[t].Idle?;
  }

  lemma StarterKeepsInv(s: Server, t: nat)
    requires Inv(s) && !s.panicked && t in s.starters
    ensures Inv(MoveStarter(s, t))
  {
    StarterKeepsLock(s, t);
    StarterKeepsSignal(s, t);
    if MoveStarter(s, t).panicked { PanicNeedsTwo(s, t); } else { StarterKeepsChannels(s, t); }
  }

  /** What a waiter's step leaves alone is all that the channel invariant speaks of. */
  lemma ChannelsUntouched(s: Server, n: Server)
    requires ChannelsOk(s)
    requires n.starters == s.starters && n.closed == s.closed && n.current == s.current
    requires n.makers == s.makers && n.closer == s.closer
    ensures ChannelsOk(n)
  {
    forall t | t in n.starters ensures StarterOk(n, t) { assert StarterOk(s, t); }
    forall c | 1 <= c <= n.current ensures Made(n, c) { assert Made(s, c); }
  }

  lemma WaiterKeepsInv(s: Server, w: nat)
    requires Inv(s) && !s.panicked && w in s.waiters
    ensures Inv(MoveWaiter(s, w))
  {
    var n := MoveWaiter(s, w);
    assert w in s.readers <==> (s.waiters[w].Reading? || s.waiters[w].Checking?);
    ChannelsUntouched(s, n);
    assert SignalOk(n);
    assert LockOk(n);
  }

  lemma ContextKeepsInv(s: Server, w: nat)
    requires Inv(s)
    ensures Inv(Advance(s, ContextExpires(w)))
  {
    var n := Advance(s, ContextExpires(w));
    if !s.panicked {
      ChannelsUntouched(s, n);
      assert SignalOk(n);
      assert LockOk(n);
    }
  }

  lemma StepKeepsInv(s: Server, step: Step)
    requires Inv(s)
    ensures Inv(Advance(s, step))
  {
    match step
    case StarterMoves(t) => if !s.panicked && t in s.starters { StarterKeepsInv(s, t); }
    case WaiterMoves(w) => if !s.panicked && w in s.waiters { WaiterKeepsInv(s, w); }
    case ContextExpires(w) => ContextKeepsInv(s, w);
  }

  lemma {:induction false} ExecutionKeepsInv(s: State, schedule: seq<Step>)
    requires Inv(s.server) && EntryOk(s)
    ensures var n := Execute(Do, s, schedule); Inv(n.server) && EntryOk(n)
    decreases |schedule|
  {
    if schedule != [] {
      StepKeepsInv(s.server, schedule[0]);
      StepKeepsEntry(s, schedule[0]);
      ExecutionKeepsInv(Do(s, schedule[0]), schedule[1..]);
    }
  }

  lemma InitInv(setup: Setup, starters: set<nat>, waiters: set<nat>)
    ensures var s := Init(setup, starters, waiters); Inv(s.server) && EntryOk(s)
  {}

  // ---------- the way to the lock ----------

  predicate Past(s: State, t: nat) { t in s.calls && s.calls[t].AtLock? }

  ghost predicate TwoPast(s: State) { exists t, u :: t != u && Past(s, t) && Past(s, u) }

  /** Only with the HTTP role does a call come to the lock, and with realtime dependencies only the first does. */
  ghost predicate EntryOk(s: State) {
    && s.server.starters.Keys == s.calls.Keys
    && (forall t | t in s.calls && !s.server.starters[t].Idle? :: Past(s, t))
    && (forall t | Past(s, t) :: s.setup.http && (s.setup.realtime ==> s.launched))
    && (s.setup.realtime ==> !TwoPast(s))
  }

  lemma EnterKeepsEntry(s: State, t: nat)
    requires EntryOk(s) && t in s.calls && s.calls[t].Calling?
    ensures EntryOk(Enter(s, t))
  {
    var n := Enter(s, t);
    assert forall u | u != t :: Past(n, u) <==> Past(s, u);
    if s.setup.realtime && Past(n, t) { assert forall u | u != t :: !Past(n, u); }
  }

  /** At the lock, a step moves the starter it names and no other. */
  lemma AdvanceMovesOne(s: Server, step: Step, u: nat)
    ensures var n := Advance(s, step);
            && (u in n.starters <==> u in s.starters)
            && (u in s.starters && step != StarterMoves(u) ==> n.starters[u] == s.starters[u])
  {
    if step.StarterMoves? && step.t in s.starters && !s.panicked { MoveStarterMovesOne(s, step.t, u); }
  }

  lemma StepKeepsEntry(s: State, step: Step)
    requires EntryOk(s)
    ensures EntryOk(Do(s, step))
  {
    var n := Do(s, step);
    if n.calls == s.calls {
      forall u { AdvanceMovesOne(s.server, step, u); }
      assert forall u :: Past(n, u) <==> Past(s, u);
    } else {
      EnterKeepsEntry(s, step.t);
    }
  }

  lemma {:induction false} SetupFixed(s: State, schedule: seq<Step>)
    ensures var n := Execute(Do, s, schedule); n.calls.Keys == s.calls.Keys && n.setup == s.setup
    decreases |schedule|
  {
    if schedule != [] { SetupFixed(Do(s, schedule[0]), schedule[1..]); }
  }

  // ---------- theorems ----------

  /**
   Whatever the interleaving and the number of starters, a waiter that saw its channel closed,
   whichever one it had captured, returns true; false comes from the context alone.
   */
  lemma SignalledWaitersReturnTrue(setup: Setup, starters: set<nat>, waiters: set<nat>, schedule: seq<Step>)
    ensures var s := Execute(Do, Init(setup, starters, waiters), schedule).server;
            forall w | w in s.waiters :: s.waiters[w].ReturnedBySignal? ==> s.waiters[w].ok
  {
    InitInv(setup, starters, waiters);
    ExecutionKeepsInv(Init(setup, starters, waiters), schedule);
  }

  /** Two starts never both get through: one of them is refused, or closes a channel that is closed already. */
  lemma AtMostOneStartCompletes(setup: Setup, starters: set<nat>, waiters: set<nat>, schedule: seq<Step>, t: nat, u: nat)
    requires var s := Execute(Do, Init(setup, starters, waiters), schedule).server;
             && !s.panicked && t in s.starters && u in s.starters
             && s.starters[t].Started? && s.starters[u].Started?
    ensures t == u
  {
    InitInv(setup, starters, waiters);
    ExecutionKeepsInv(Init(setup, starters, waiters), schedule);
    var s := Execute(Do, Init(setup, starters, waiters), schedule).server;
    assert StarterOk(s, t) && StarterOk(s, u);
  }

  /** And it does return: with the lock free for readers, three of its own steps after its channel is closed; an expired context ends its wait at once. */
  lemma SignalledWaitersReturn(s: State, w: nat)
    requires Inv(s.server) && !s.server.panicked && s.server.writer == {}
    requires w in s.server.waiters && s.server.waiters[w].Waiting?
    ensures Do(s, ContextExpires(w)).server.waiters[w] == ReturnedByContext
    ensures s.server.waiters[w].channel in s.server.closed ==>
              Do(Do(Do(s, WaiterMoves(w)), WaiterMoves(w)), WaiterMoves(w)).server.waiters[w] == ReturnedBySignal(true)
    ensures s.server.waiters[w].channel !in s.server.closed ==> Do(s, WaiterMoves(w)) == s
  {}

  predicate Safe(setup: Setup, starters: set<nat>) { setup.realtime || !setup.http || |starters| <= 1 }

  lemma SafeNeverPanics(setup: Setup, starters: set<nat>, waiters: set<nat>, schedule: seq<Step>)
    requires Safe(setup, starters)
    ensures !Execute(Do, Init(setup, starters, waiters), schedule).server.panicked
  {
    var s0 := Init(setup, starters, waiters);
    var s := Execute(Do, s0, schedule);
    InitInv(setup, starters, waiters);
    ExecutionKeepsInv(s0, schedule);
    SetupFixed(s0, schedule);
    if s.server.panicked {
      var t, u :| t != u && t in s.server.starters && u in s.server.starters
                  && !s.server.starters[t].Idle? && !s.server.starters[u].Idle?;
      assert Past(s, t) && Past(s, u) && s0.calls.Keys == starters;
      TwoIsMoreThanOne(starters, t, u);
    }
  }

  lemma TwoIsMoreThanOne(starters: set<nat>, t: nat, u: nat)
    requires t in starters && u in starters && t != u
    ensures |starters| >= 2
  {
    assert starters == {t, u} + (starters - {t, u});
  }

  /** The lock is free, and starter `t` has not been called yet. */
  predicate Fresh(s: State, t: nat) {
    && !s.setup.realtime && s.setup.http && t in s.calls && s.calls[t].Calling?
    && t in s.server.starters && s.server.starters[t].Idle?
    && !s.server.panicked && s.server.writer == {} && s.server.readers == {}
  }

  /** A first start runs through: its channel is the current one, and closed. */
  lemma StartRunsThrough(s: State, t: nat) returns (n: State)
    requires Fresh(s, t) && s.server.current == 0 && s.server.closed == {}
    ensures Leads(Do, s, n) && n.setup == s.setup && n.calls == s.calls[t := AtLock]
    ensures forall u | u != t && u in s.server.starters :: u in n.server.starters && n.server.starters[u] == s.server.starters[u]
    ensures !n.server.panicked && n.server.writer == {} && n.server.readers == {} && n.server.current in n.server.closed
  {
    LeadsNowhere(Do, s);
    LeadsOneMore(Do, s, s, StarterMoves(t));
    n := Do(s, StarterMoves(t));
    var places := [Idle, Locked, ClosedOld, MadeNew(1), Created(1), Unlocked(1), Started(1)];
    for i := 0 to 6
      invariant Leads(Do, s, n) && n.setup == s.setup && n.calls == s.calls[t := AtLock]
      invariant n.server.starters == s.server.starters[t := places[i]]
      invariant !n.server.panicked && n.server.readers == {} && n.server.writer == if 1 <= i <= 4 then {t} else {}
      invariant n.server.current == if i < 3 then 0 else 1
      invariant n.server.closed == if i < 2 then {} else if i < 6 then {0} else {0, 1}
    {
      LeadsOneMore(Do, s, n, StarterMoves(t));
      n := Do(n, StarterMoves(t));
    }
  }

  /** A start that comes to the lock after a completed one panics at its first close. */
  lemma NextStartPanics(s: State, u: nat) returns (n: State)
    requires Fresh(s, u) && s.server.current in s.server.closed
    ensures Leads(Do, s, n) && n.server.panicked
  {
    var move := StarterMoves(u);
    var a := Do(s, move);
    var b := Do(a, move);
    n := Do(b, move);
    LeadsNowhere(Do, s);
    LeadsOneMore(Do, s, s, move);
    LeadsOneMore(Do, s, a, move);
    LeadsOneMore(Do, s, b, move);
  }

  /** With two starters, the HTTP role and no realtime dependencies, starting one after the other panics. */
  lemma SecondStartPanics(setup: Setup, starters: set<nat>, waiters: set<nat>)
    requires !Safe(setup, starters)
    ensures exists schedule: seq<Step> :: Execute(Do, Init(setup, starters, waiters), schedule).server.panicked
  {
    var t :| t in starters;
    assert starters != {t};
    var u :| u in starters && u != t;
    var s := Init(setup, starters, waiters);
    var v := StartRunsThrough(s, t);
    var n := NextStartPanics(v, u);
    LeadsThrough(Do, s, v, n);
  }

  /**
   `Start` never closes a channel twice, on any schedule, exactly when there are realtime dependencies
   to refuse the second call, the role does not serve HTTP, or at most one thread calls it.
   */
  lemma NoPanicIffAtMostOneStarter(setup: Setup, starters: set<nat>, waiters: set<nat>)
    ensures (forall schedule: seq<Step> :: !Execute(Do, Init(setup, starters, waiters), schedule).server.panicked)
            <==> setup.realtime || !setup.http || |starters| <= 1
  {
    if Safe(setup, starters) {
      forall schedule: seq<Step> ensures !Execute(Do, Init(setup, starters, waiters), schedule).server.panicked {
        SafeNeverPanics(setup, starters, waiters, schedule);
      }
    } else {
      SecondStartPanics(setup, starters, waiters);
    }
  }
}
