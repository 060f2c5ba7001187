/** What every run of writes does to the timeline, to the recomputation queue and to list statuses. */
module Timeline {
  import opened Automations
  import opened TimelineEntries
  import opened Triggers

  /** A row write with its time, or any change to the automation tables from outside: activation, identification, a journey's end. */
  datatype Op = Statement(write: Write, now: int) | Outside(registry: Registry)

  function Do(t: Tables, op: Op): Tables {
    match op
    case Statement(w, now) => Settled(t, [w], now)
    case Outside(r) => t.(registry := r)
  }

  /** The tables after the operations, each with its whole cascade. */
  function Run(t: Tables, ops: seq<Op>): Tables
    decreases |ops|
  {
    if ops == [] then t else Do(Run(t, ops[..|ops| - 1]), ops[|ops| - 1])
  }

  // ---------- cascades are finite ----------

  /** What running one write issues. */
  function Issued(t: Tables, w: Write, now: int): seq<Write> { if Applies(t, w) then Fired(t, w, now) else [] }

  function Replaced(p: seq<Write>, j: nat, more: seq<Write>): seq<Write>
    requires j < |p|
  {
    p[..j] + more + p[j + 1..]
  }

  /**
   Some pending write is run, at any place of the list and on any tables with at most `n` automations
   installed; what its triggers issue takes its place.
   */
  ghost predicate Unfolds(p: seq<Write>, q: seq<Write>, n: nat) {
    exists j: nat, t: Tables, now: int | j < |p| && |t.registry.triggers| <= n :: q == Replaced(p, j, Issued(t, p[j], now))
  }

  lemma ReplacingIsLighter(p: seq<Write>, j: nat, more: seq<Write>, n: nat)
    requires j < |p| && TotalWeight(more, n) < Weight(p[j], n)
    ensures TotalWeight(Replaced(p, j, more), n) < TotalWeight(p, n)
  {
    TotalWeightOfJoin(p[..j], more, n);
    TotalWeightOfJoin(p[..j] + more, p[j + 1..], n);
    TotalWeightOfJoin(p[..j], p[j..], n);
    assert p == p[..j] + p[j..] && p[j..][1..] == p[j + 1..];
  }

  lemma IssuedIsLighter(t: Tables, w: Write, now: int, n: nat)
    requires |t.registry.triggers| <= n
    ensures TotalWeight(Issued(t, w, now), n) < Weight(w, n)
  {
    if Applies(t, w) { FiredIsLighter(t, w, now, n); }
  }

  lemma {:induction false} TotalWeightBound(p: seq<Write>, n: nat)
    ensures TotalWeight(p, n) <= (19 + 24 * n) * |p|
  {
    if p != [] {
      TotalWeightBound(p[1..], n);
      assert (19 + 24 * n) * |p| == (19 + 24 * n) + (19 + 24 * n) * |p[1..]|;
    }
  }

  /**
   Whatever order the triggers run in, a statement that writes k rows, with at most n automations installed,
   leads to at most (19 + 24n)k row writes and runs of automation triggers in all.
   */
  lemma {:induction false} CascadesEnd(run: seq<seq<Write>>, n: nat)
    requires run != [] && forall i | 0 <= i < |run| - 1 :: Unfolds(run[i], run[i + 1], n)
    ensures |run| - 1 <= TotalWeight(run[0], n) <= (19 + 24 * n) * |run[0]|
  {
    TotalWeightBound(run[0], n);
    if |run| > 1 {
      assert Unfolds(run[0], run[1], n);
      var j: nat, t: Tables, now: int :|
        j < |run[0]| && |t.registry.triggers| <= n && run[1] == Replaced(run[0], j, Issued(t, run[0][j], now));
      IssuedIsLighter(t, run[0][j], now, n);
      ReplacingIsLighter(run[0], j, Issued(t, run[0][j], now), n);
      forall i | 0 <= i < |run[1..]| - 1
        ensures Unfolds(run[1..][i], run[1..][i + 1], n)
      {
        assert Unfolds(run[i + 1], run[i + 2], n);
      }
      CascadesEnd(run[1..], n);
    }
  }

  // ---------- the queue ----------

  predicate Recomputes(entry: Entry, email: string) { entry.email == email && !SegmentKind(entry.kind) }

  predicate SomeRecomputes(s: seq<Entry>, from: nat, email: string) {
    exists i | from <= i < |s| :: Recomputes(s[i], email)
  }

  predicate TouchesQueue(w: Write) { w.Enqueue? || w.Dequeue? }

  predicate NoneTouchQueue(ws: seq<Write>) { forall i | 0 <= i < |ws| :: !TouchesQueue(ws[i]) }

  lemma NoneTouchJoin(a: seq<Write>, b: seq<Write>)
    requires NoneTouchQueue(a) && NoneTouchQueue(b)
    ensures NoneTouchQueue(a + b)
  {}

  /** Besides the cascade of an append, no trigger writes the queue. */
  lemma FiredLeavesQueueAlone(t: Tables, w: Write, now: int)
    requires Applies(t, w) && !w.Append?
    ensures NoneTouchQueue(Fired(t, w, now))
  {}

  lemma {:induction false} EnrolmentsLeaveQueueAlone(triggers: seq<Automation>, entry: Entry)
    ensures NoneTouchQueue(Enrolments(triggers, entry))
    decreases |triggers|
  {
    if triggers != [] { EnrolmentsLeaveQueueAlone(triggers[..|triggers| - 1], entry); }
  }

  lemma ExecutedQueue(t: Tables, w: Write, now: int)
    requires Applies(t, w) && !w.Append? && !TouchesQueue(w)
    ensures Executed(t, w, now).queue == t.queue && Executed(t, w, now).timeline == t.timeline
  {}

  /** `u` comes after `t`: the timeline has grown, and the queue by the emails of the new entries that recompute. */
  ghost predicate QueueGrew(t: Tables, u: Tables, email: string) {
    && t.timeline <= u.timeline
    && (email in u.queue <==> email in t.queue || SomeRecomputes(u.timeline, |t.timeline|, email))
  }

  lemma QueueGrewTwice(t: Tables, v: Tables, u: Tables, email: string)
    requires QueueGrew(t, v, email) && QueueGrew(v, u, email)
    ensures QueueGrew(t, u, email)
  {
    if SomeRecomputes(v.timeline, |t.timeline|, email) {
      var i :| |t.timeline| <= i < |v.timeline| && Recomputes(v.timeline[i], email);
      assert u.timeline[i] == v.timeline[i];
    }
    if SomeRecomputes(u.timeline, |t.timeline|, email) {
      var i :| |t.timeline| <= i < |u.timeline| && Recomputes(u.timeline[i], email);
      if i < |v.timeline| { assert v.timeline[i] == u.timeline[i]; }
    }
  }

  /** The entry is there, the queue is not yet written: writing it catches up. */
  lemma RequeueCatchesUp(t: Tables, entry: Entry, v: Tables, now: int, email: string)
    requires QueueGrew(t.(timeline := t.timeline + [entry]), v, email)
    ensures QueueGrew(t, Settled(v, Requeue(entry), now), email)
  {
    SettledRequeue(v, entry, now);
    var t1 := t.(timeline := t.timeline + [entry]);
    assert v.timeline[|t.timeline|] == entry;
    if SomeRecomputes(v.timeline, |t.timeline|, email) && !SomeRecomputes(v.timeline, |t1.timeline|, email) {
      var i :| |t.timeline| <= i < |v.timeline| && Recomputes(v.timeline[i], email);
      assert i == |t.timeline|;
    }
  }

  /** A cascade only appends to the timeline, and queues exactly the emails of the entries it appends that are not about segments. */
  lemma {:induction false} QueueFollowsTimeline(t: Tables, pending: seq<Write>, now: int, email: string)
    requires NoneTouchQueue(pending)
    ensures QueueGrew(t, Settled(t, pending, now), email)
    decreases Load(t, pending)
  {
    if pending != [] {
      var w, rest := pending[0], pending[1..];
      assert pending == [w] + rest;
      if !Applies(t, w) {
        SettledHead(t, w, rest, now);
        QueueFollowsTimeline(t, rest, now, email);
      } else if w.Append? {
        var v := Settled(t, [w], now);
        SettledJoin(t, [w], rest, now);
        AppendGrowsQueue(t, w.entry, rest, now, email);
        SettledKeepsTriggers(t, [w], now);
        QueueFollowsTimeline(v, rest, now, email);
        QueueGrewTwice(t, v, Settled(v, rest, now), email);
      } else {
        SettledHead(t, w, rest, now);
        NextIsLighter(t, w, rest, now);
        FiredLeavesQueueAlone(t, w, now);
        NoneTouchJoin(Fired(t, w, now), rest);
        ExecutedQueue(t, w, now);
        QueueFollowsTimeline(Executed(t, w, now), Fired(t, w, now) + rest, now, email);
      }
    }
  }

  lemma {:induction false} AppendGrowsQueue(t: Tables, entry: Entry, rest: seq<Write>, now: int, email: string)
    ensures QueueGrew(t, Settled(t, [Append(entry)], now), email)
    decreases Load(t, [Append(entry)] + rest), 0
  {
    var t1, more := t.(timeline := t.timeline + [entry]), Enrolments(t.registry.triggers, entry);
    SettledAppend(t, entry, now);
    EnrolmentsLeaveQueueAlone(t.registry.triggers, entry);
    EnrolmentsWeighLess(t, entry, rest);
    QueueFollowsTimeline(t1, more, now, email);
    RequeueCatchesUp(t, entry, Settled(t1, more, now), now, email);
  }

  lemma EnrolmentsWeighLess(t: Tables, entry: Entry, rest: seq<Write>)
    ensures Load(t, Enrolments(t.registry.triggers, entry)) < Load(t, [Append(entry)] + rest)
  {
    EnrolmentsLight(t.registry.triggers, entry, |t.registry.triggers|);
    assert ([Append(entry)] + rest)[1..] == rest;
  }

  lemma {:induction false} SettledKeepsTriggers(t: Tables, pending: seq<Write>, now: int)
    ensures var r := Settled(t, pending, now).registry; r == t.registry.(journeys := r.journeys)
    decreases Load(t, pending)
  {
    if pending != [] {
      var w, rest := pending[0], pending[1..];
      if !Applies(t, w) {
        SettledKeepsTriggers(t, rest, now);
      } else {
        NextIsLighter(t, w, rest, now);
        ExecutedKeepsTriggers(t, w, now);
        SettledKeepsTriggers(Executed(t, w, now), Fired(t, w, now) + rest, now);
      }
    }
  }

  predicate Puts(op: Op, email: string) { op.Statement? && op.write.Enqueue? && op.write.email == email }

  predicate Takes(op: Op, email: string) { op.Statement? && op.write.Dequeue? && op.write.email == email }

  /** Operation j of the run queues the email: it leads to a recomputing entry, or puts the contact back. */
  predicate Queues(t: Tables, ops: seq<Op>, j: nat, email: string)
    requires j < |ops|
  {
    Puts(ops[j], email) || SomeRecomputes(Run(t, ops[..j + 1]).timeline, |Run(t, ops[..j]).timeline|, email)
  }

  predicate QueuedSince(t: Tables, ops: seq<Op>, j: nat, email: string)
    requires j < |ops|
  {
    Queues(t, ops, j, email) && forall k | j < k < |ops| :: !Takes(ops[k], email)
  }

  lemma OneOpAndQueue(t: Tables, op: Op, email: string)
    ensures var u := Do(t, op);
            && t.timeline <= u.timeline
            && (email in u.queue <==>
                  || Puts(op, email)
                  || SomeRecomputes(u.timeline, |t.timeline|, email)
                  || (email in t.queue && !Takes(op, email)))
  {
    if op.Statement? {
      if TouchesQueue(op.write) {
        SettledOne(t, op.write, op.now);
      } else {
        QueueFollowsTimeline(t, [op.write], op.now, email);
      }
    }
  }

  /** Some operation queued the email and none has taken it out since. */
  predicate Due(t: Tables, ops: seq<Op>, email: string) {
    exists j | 0 <= j < |ops| :: QueuedSince(t, ops, j, email)
  }

  lemma EarlierQueuedSince(t: Tables, ops: seq<Op>, j: nat, email: string)
    requires j < |ops| - 1
    ensures QueuedSince(t, ops, j, email)
            <==> QueuedSince(t, ops[..|ops| - 1], j, email) && !Takes(ops[|ops| - 1], email)
  {
    var before := ops[..|ops| - 1];
    assert before[..j] == ops[..j] && before[..j + 1] == ops[..j + 1];
    assert forall k | j < k < |ops| - 1 :: ops[k] == before[k];
  }

  lemma DueSplit(t: Tables, ops: seq<Op>, email: string)
    requires ops != []
    ensures var n := |ops| - 1;
            Due(t, ops, email) <==> Queues(t, ops, n, email) || (Due(t, ops[..n], email) && !Takes(ops[n], email))
  {
    var n := |ops| - 1;
    assert Queues(t, ops, n, email) <==> QueuedSince(t, ops, n, email);
    if Due(t, ops[..n], email) {
      var j: nat :| j < n && QueuedSince(t, ops[..n], j, email);
      EarlierQueuedSince(t, ops, j, email);
    }
    if Due(t, ops, email) {
      var j: nat :| j < |ops| && QueuedSince(t, ops, j, email);
      if j < n { EarlierQueuedSince(t, ops, j, email); }
    }
  }

  /**
   No recomputation is lost: on every run from an empty queue, an email is queued (once: the table is
   keyed by email) exactly when some operation queued it and none has taken it out since.
   */
  lemma {:induction false} QueuedIffDue(t: Tables, ops: seq<Op>, email: string)
    requires email !in t.queue
    ensures email in Run(t, ops).queue <==> Due(t, ops, email)
    decreases |ops|
  {
    if ops != [] {
      var n := |ops| - 1;
      QueuedIffDue(t, ops[..n], email);
      OneOpAndQueue(Run(t, ops[..n]), ops[n], email);
      assert ops[..n + 1] == ops;
      DueSplit(t, ops, email);
    }
  }

  lemma RunOne(t: Tables, op: Op)
    ensures Run(t, [op]) == Do(t, op)
  {
    assert [op][..0] == [];
  }

  lemma {:induction false} RunJoin(t: Tables, a: seq<Op>, b: seq<Op>)
    ensures Run(t, a + b) == Run(Run(t, a), b)
    decreases |b|
  {
    if b == [] {
      assert a + b == a;
    } else {
      assert (a + b)[..|a + b| - 1] == a + b[..|b| - 1];
      RunJoin(t, a, b[..|b| - 1]);
    }
  }

  // ---------- segment writes and all others ----------

  predicate SegmentWrite(w: Write) { w.JoinSegment? || w.LeaveSegment? }

  /** Neither about segments nor appending an entry about segments. */
  predicate Ordinary(w: Write) { !SegmentWrite(w) && (w.Append? ==> !SegmentKind(w.entry.kind)) }

  predicate AllOrdinary(ws: seq<Write>) { forall i | 0 <= i < |ws| :: Ordinary(ws[i]) }

  lemma OrdinaryJoin(a: seq<Write>, b: seq<Write>)
    requires AllOrdinary(a) && AllOrdinary(b)
    ensures AllOrdinary(a + b)
  {}

  /** What triggers issue, but for the entries of segment writes and of enrolments. */
  predicate Routine(w: Write) {
    w.SetStatus? || w.Enroll? || w.Enqueue? || (w.Append? && !SegmentKind(w.entry.kind) && !w.entry.kind.AutomationStarted?)
  }

  predicate AllRoutine(ws: seq<Write>) { forall i | 0 <= i < |ws| :: Routine(ws[i]) }

  lemma RoutineJoin(a: seq<Write>, b: seq<Write>)
    requires AllRoutine(a) && AllRoutine(b)
    ensures AllRoutine(a + b)
  {}

  lemma MessageEntriesAreRoutine(id: string, o: Message, n: Message)
    ensures AllRoutine(MessageEntries(id, o, n))
  {
    var a, b, c := MarkEntries(id, o, n, Opened), MarkEntries(id, o, n, Clicked), MarkEntries(id, o, n, Bounce);
    var d, e, f := MarkEntries(id, o, n, Complaint), MarkEntries(id, o, n, Unsubscribe), InfoEntries(id, o, n);
    RoutineJoin(a, b); RoutineJoin(a + b, c); RoutineJoin(a + b + c, d);
    RoutineJoin(a + b + c + d, e); RoutineJoin(a + b + c + d + e, f);
  }

  lemma {:induction false} EnrolmentsAreRoutine(triggers: seq<Automation>, entry: Entry)
    ensures AllRoutine(Enrolments(triggers, entry))
    decreases |triggers|
  {
    if triggers != [] { EnrolmentsAreRoutine(triggers[..|triggers| - 1], entry); }
  }

  lemma FiredAreRoutine(t: Tables, w: Write, now: int)
    requires Applies(t, w) && !SegmentWrite(w) && !w.Enroll?
    ensures AllRoutine(Fired(t, w, now))
  {
    if w.UpdateMessage? {
      var o := t.messages[w.id];
      var a, b, c := MessageEntries(w.id, o, w.message), ComplaintStatement(o, w.message), BounceStatement(o, w.message);
      MessageEntriesAreRoutine(w.id, o, w.message);
      RoutineJoin(a, b);
      RoutineJoin(a + b, c);
    } else if w.Append? {
      EnrolmentsAreRoutine(t.registry.triggers, w.entry);
      RoutineJoin(Enrolments(t.registry.triggers, w.entry), Requeue(w.entry));
    }
  }

  lemma ExecutedTimeline(t: Tables, w: Write, now: int)
    requires Applies(t, w)
    ensures Executed(t, w, now).timeline == t.timeline + (if w.Append? then [w.entry] else [])
  {}

  /** Every entry that any other write leads to is one that queues its contact. */
  lemma {:induction false} OtherWritesAlwaysQueue(t: Tables, pending: seq<Write>, now: int)
    requires AllOrdinary(pending)
    ensures var u := Settled(t, pending, now);
            |t.timeline| <= |u.timeline| && forall i | |t.timeline| <= i < |u.timeline| :: !SegmentKind(u.timeline[i].kind)
    decreases Load(t, pending)
  {
    if pending != [] {
      var w, rest := pending[0], pending[1..];
      if !Applies(t, w) {
        OtherWritesAlwaysQueue(t, rest, now);
      } else {
        var v, next := Executed(t, w, now), Fired(t, w, now) + rest;
        ExecutedTimeline(t, w, now);
        if !w.Enroll? { FiredAreRoutine(t, w, now); }
        OrdinaryJoin(Fired(t, w, now), rest);
        NextIsLighter(t, w, rest, now);
        OtherWritesAlwaysQueue(v, next, now);
        EarlierEntriesStay(v, next, now);
      }
    }
  }

  lemma {:induction false} EarlierEntriesStay(t: Tables, pending: seq<Write>, now: int)
    ensures t.timeline <= Settled(t, pending, now).timeline
    decreases Load(t, pending)
  {
    if pending != [] {
      var w, rest := pending[0], pending[1..];
      if !Applies(t, w) {
        EarlierEntriesStay(t, rest, now);
      } else {
        NextIsLighter(t, w, rest, now);
        EarlierEntriesStay(Executed(t, w, now), Fired(t, w, now) + rest, now);
      }
    }
  }
}
