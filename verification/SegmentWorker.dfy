/** The worker that takes contacts off the recomputation queue and rewrites their segment memberships. */
module SegmentWorker {
  import opened SegmentRequeue
  import opened Timeline
  import opened Triggers

  /** A segment; without stored SQL it is never evaluated. */
  datatype Segment = Segment(id: string, version: int, active: bool, hasQuery: bool)

  /** Which segments a contact matches, and which of its membership writes go through; failures are only logged. */
  datatype Answers = Answers(matches: (string, string) -> bool, written: (string, string) -> bool)

  /** The active segments with stored SQL that the contact matches come out of one query. */
  predicate Matched(s: Segment, email: string, answers: Answers) { s.hasQuery && answers.matches(email, s.id) }

  function Rewrite(email: string, s: Segment, answers: Answers, now: int): seq<Op> {
    if !answers.written(email, s.id) then []
    else [Statement(if Matched(s, email, answers) then JoinSegment(email, s.id, s.version) else LeaveSegment(email, s.id), now)]
  }

  function Rewrites(email: string, segments: seq<Segment>, answers: Answers, now: int): seq<Op>
    decreases |segments|
  {
    if segments == [] then []
    else var n := |segments| - 1; Rewrites(email, segments[..n], answers, now) + Rewrite(email, segments[n], answers, now)
  }

  predicate SomeQuery(segments: seq<Segment>) { exists j | 0 <= j < |segments| :: segments[j].hasQuery }

  /** `processContact` over the active segments: nothing at all when none of them has a query. */
  function ContactOps(email: string, segments: seq<Segment>, answers: Answers, now: int): seq<Op> {
    if !SomeQuery(segments) then [] else Rewrites(email, segments, answers, now)
  }

  /** A claim of one contact, or a segment write. */
  predicate WorkerOp(op: Op) { op.Statement? && (op.write.Dequeue? || SegmentWrite(op.write)) }

  predicate WorkerRun(ops: seq<Op>) { forall i | 0 <= i < |ops| :: WorkerOp(ops[i]) }

  predicate Claiming(t: Tables, op: Op) { op.Statement? && op.write.Dequeue? && op.write.email in t.queue }

  predicate Returning(t: Tables, op: Op) { op.Statement? && SegmentWrite(op.write) && Returns(t, op.write, op.now) }

  /** How many contacts the run takes off the queue. */
  function Claims(t: Tables, ops: seq<Op>): nat
    decreases |ops|
  {
    if ops == [] then 0
    else var n := |ops| - 1; Claims(t, ops[..n]) + (if Claiming(Run(t, ops[..n]), ops[n]) then 1 else 0)
  }

  /** How many contacts the run's own segment writes put back that were not queued. */
  function Comebacks(t: Tables, ops: seq<Op>): nat
    decreases |ops|
  {
    if ops == [] then 0
    else
      var n := |ops| - 1;
      var v := Run(t, ops[..n]);
      Comebacks(t, ops[..n]) + (if Returning(v, ops[n]) && ops[n].write.email !in v.queue then 1 else 0)
  }

  lemma WorkerOpAndQueue(t: Tables, op: Op)
    requires WorkerOp(op)
    ensures var u := Do(t, op);
            && (!Returning(t, op) ==> u.queue.Keys <= t.queue.Keys)
            && |u.queue| + (if Claiming(t, op) then 1 else 0)
               == |t.queue| + (if Returning(t, op) && op.write.email !in t.queue then 1 else 0)
  {
    if op.write.Dequeue? {
      DequeueOne(t, op.write.email, op.now);
      if op.write.email in t.queue { SmallerByOne(t.queue, op.write.email); }
    } else {
      SegmentWriteQueuesIff(t, op.write, op.now);
      if Returning(t, op) { LargerByOne(t.queue, op.write.email, op.now); }
    }
  }

  lemma SmallerByOne(queue: map<string, int>, email: string)
    requires email in queue
    ensures |queue - {email}| == |queue| - 1 && (queue - {email}).Keys <= queue.Keys
  {
    var rest := queue - {email};
    assert rest.Keys == queue.Keys - {email};
    assert |rest| == |rest.Keys| && |queue| == |queue.Keys|;
  }

  lemma LargerByOne(queue: map<string, int>, email: string, now: int)
    ensures |queue[email := now]| == |queue| + if email in queue then 0 else 1
  {
    var more := queue[email := now];
    assert more.Keys == queue.Keys + {email};
    assert |more| == |more.Keys| && |queue| == |queue.Keys|;
    if email in queue { assert more.Keys == queue.Keys; }
  }

  /**
   With no outside writes, whatever the interleaving of claims and segment writes, of one worker or of many:
   the queue holds what it held, less the claims, plus the comebacks through automations.
   */
  lemma {:induction false} QueueBalance(t: Tables, ops: seq<Op>)
    requires WorkerRun(ops)
    ensures |Run(t, ops).queue| + Claims(t, ops) == |t.queue| + Comebacks(t, ops)
    decreases |ops|
  {
    if ops != [] {
      QueueBalance(t, ops[..|ops| - 1]);
      WorkerOpAndQueue(Run(t, ops[..|ops| - 1]), ops[|ops| - 1]);
    }
  }

  predicate NothingReturns(t: Tables, ops: seq<Op>) { forall j | 0 <= j < |ops| :: !ReturnsAt(t, ops, j) }

  predicate ReturnsAt(t: Tables, ops: seq<Op>, j: nat)
    requires j < |ops|
  {
    Returning(Run(t, ops[..j]), ops[j])
  }

  lemma NothingReturnsBefore(t: Tables, ops: seq<Op>)
    requires ops != [] && NothingReturns(t, ops)
    ensures NothingReturns(t, ops[..|ops| - 1]) && !Returning(Run(t, ops[..|ops| - 1]), ops[|ops| - 1])
  {
    var before := ops[..|ops| - 1];
    forall j: nat | j < |before| ensures !ReturnsAt(t, before, j) {
      assert before[..j] == ops[..j] && !ReturnsAt(t, ops, j);
    }
    assert !ReturnsAt(t, ops, |ops| - 1);
  }

  /**
   When no segment write of the run returns its contact, nothing is put back: the queue shrinks by every claim,
   and is empty after as many as it held.
   */
  lemma {:induction false} QueueDrains(t: Tables, ops: seq<Op>)
    requires WorkerRun(ops) && NothingReturns(t, ops)
    ensures Run(t, ops).queue.Keys <= t.queue.Keys
    ensures |Run(t, ops).queue| + Claims(t, ops) == |t.queue|
    ensures Claims(t, ops) == |t.queue| <==> Run(t, ops).queue == map[]
    decreases |ops|
  {
    if ops != [] {
      NothingReturnsBefore(t, ops);
      QueueDrains(t, ops[..|ops| - 1]);
      WorkerOpAndQueue(Run(t, ops[..|ops| - 1]), ops[|ops| - 1]);
    }
  }

  lemma NothingReturnsYet(t: Tables, ops: seq<Op>)
    requires ops != [] && NothingReturns(t, ops[..|ops| - 1]) && !Returning(Run(t, ops[..|ops| - 1]), ops[|ops| - 1])
    ensures NothingReturns(t, ops)
  {
    var n := |ops| - 1;
    forall j: nat | j < |ops| ensures !ReturnsAt(t, ops, j) {
      if j < n { assert ops[..n][..j] == ops[..j] && !ReturnsAt(t, ops[..n], j); }
    }
  }

  /** That is so as long as no live automation is on a segment. */
  lemma {:induction false} WithoutSegmentListenersNothingReturns(t: Tables, ops: seq<Op>)
    requires WorkerRun(ops) && NoSegmentListener(t.registry)
    ensures NothingReturns(t, ops) && NoSegmentListener(Run(t, ops).registry)
    decreases |ops|
  {
    if ops != [] {
      var n := |ops| - 1;
      var v := Run(t, ops[..n]);
      WithoutSegmentListenersNothingReturns(t, ops[..n]);
      SettledKeepsTriggers(v, [ops[n].write], ops[n].now);
      if SegmentWrite(ops[n].write) { NoListenerNoReturn(v, ops[n].write, ops[n].now); }
      NothingReturnsYet(t, ops);
    }
  }

  // ---------- what a rewrite leaves ----------

  type Memberships = map<(string, string), int>

  function RewriteOne(m: Memberships, email: string, s: Segment, answers: Answers): Memberships {
    if !answers.written(email, s.id) then m
    else if Matched(s, email, answers) then m[(email, s.id) := s.version]
    else m - {(email, s.id)}
  }

  function Rewritten(m: Memberships, email: string, segments: seq<Segment>, answers: Answers): Memberships
    decreases |segments|
  {
    if segments == [] then m
    else RewriteOne(Rewritten(m, email, segments[..|segments| - 1], answers), email, segments[|segments| - 1], answers)
  }

  lemma RewriteRuns(t: Tables, email: string, s: Segment, answers: Answers, now: int)
    ensures Run(t, Rewrite(email, s, answers, now)).segments == RewriteOne(t.segments, email, s, answers)
  {
    if answers.written(email, s.id) {
      var op := Rewrite(email, s, answers, now)[0];
      RunOne(t, op);
      SegmentWriteQueuesIff(t, op.write, now);
    }
  }

  lemma {:induction false} RewritesRun(t: Tables, email: string, segments: seq<Segment>, answers: Answers, now: int)
    ensures Run(t, Rewrites(email, segments, answers, now)).segments == Rewritten(t.segments, email, segments, answers)
    decreases |segments|
  {
    if segments != [] {
      var n := |segments| - 1;
      var before := Rewrites(email, segments[..n], answers, now);
      RewritesRun(t, email, segments[..n], answers, now);
      RewriteRuns(Run(t, before), email, segments[n], answers, now);
      RunJoin(t, before, Rewrite(email, segments[n], answers, now));
    }
  }

  /** What rewriting has come to for one segment. */
  predicate DecidedAt(before: Memberships, after: Memberships, email: string, s: Segment, answers: Answers) {
    var k := (email, s.id);
    if !answers.written(email, s.id) then (k in after <==> k in before) && (k in before ==> after[k] == before[k])
    else if Matched(s, email, answers) then k in after && after[k] == s.version
    else k !in after
  }

  lemma {:induction false} RewrittenAt(m: Memberships, email: string, segments: seq<Segment>, answers: Answers, i: nat)
    requires i < |segments| && DistinctIDs(segments)
    ensures DecidedAt(m, Rewritten(m, email, segments, answers), email, segments[i], answers)
    decreases |segments|
  {
    var n := |segments| - 1;
    if i < n {
      RewrittenAt(m, email, segments[..n], answers, i);
    } else {
      RewrittenElsewhere(m, email, segments[..n], answers, (email, segments[n].id));
    }
  }

  lemma {:induction false} RewrittenElsewhere(
      m: Memberships, email: string, segments: seq<Segment>, answers: Answers, k: (string, string))
    requires k.0 != email || forall i | 0 <= i < |segments| :: segments[i].id != k.1
    ensures var u := Rewritten(m, email, segments, answers); (k in u <==> k in m) && (k in m ==> u[k] == m[k])
    decreases |segments|
  {
    if segments != [] { RewrittenElsewhere(m, email, segments[..|segments| - 1], answers, k); }
  }

  /** Segments whose ids differ. */
  predicate DistinctIDs(segments: seq<Segment>) { forall i, j | 0 <= i < j < |segments| :: segments[i].id != segments[j].id }

  /**
   Once rewritten, a contact is in exactly the matching ones of these segments, at their current version,
   but for those whose write failed; no other membership has moved.
   */
  lemma RewriteDecidesMemberships(t: Tables, email: string, segments: seq<Segment>, answers: Answers, now: int)
    requires DistinctIDs(segments)
    ensures var u := Run(t, Rewrites(email, segments, answers, now));
            && (forall i | 0 <= i < |segments| :: DecidedAt(t.segments, u.segments, email, segments[i], answers))
            && forall k: (string, string) | k.0 != email || forall i | 0 <= i < |segments| :: segments[i].id != k.1 ::
                 (k in u.segments <==> k in t.segments) && (k in t.segments ==> u.segments[k] == t.segments[k])
  {
    RewritesRun(t, email, segments, answers, now);
    forall i | 0 <= i < |segments|
      ensures DecidedAt(t.segments, Rewritten(t.segments, email, segments, answers), email, segments[i], answers)
    {
      RewrittenAt(t.segments, email, segments, answers, i);
    }
    forall k: (string, string) | k.0 != email || forall i | 0 <= i < |segments| :: segments[i].id != k.1
      ensures var u := Rewritten(t.segments, email, segments, answers);
              (k in u <==> k in t.segments) && (k in t.segments ==> u[k] == t.segments[k])
    {
      RewrittenElsewhere(t.segments, email, segments, answers, k);
    }
  }

  // ---------- one pass ----------

  /**
   What a pass meets: the segments, or a failure to load them; what the database answers; which contacts
   fail; after how many it is cancelled; whether putting contacts back works.
   */
  datatype Circumstances = Circumstances(
    loaded: bool, segments: seq<Segment>, answers: Answers, fails: string -> bool, cutoff: nat, putBack: bool, now: int)

  function ActiveAmong(segments: seq<Segment>): seq<Segment>
    decreases |segments|
  {
    if segments == [] then []
    else
      var rest := ActiveAmong(segments[..|segments| - 1]);
      if segments[|segments| - 1].active then rest + [segments[|segments| - 1]] else rest
  }

  function Each(emails: seq<string>, write: string -> Write, now: int): seq<Op> {
    seq(|emails|, i requires 0 <= i < |emails| => Statement(write(emails[i]), now))
  }

  function Dequeues(emails: seq<string>, now: int): seq<Op> { Each(emails, e => Dequeue(e), now) }

  function Enqueues(emails: seq<string>, now: int): seq<Op> { Each(emails, e => Enqueue(e), now) }

  /** The contacts among the first n claimed that fail, in order. */
  function FailedUpTo(claimed: seq<string>, fails: string -> bool, n: nat): seq<string>
    requires n <= |claimed|
  {
    if n == 0 then []
    else if fails(claimed[n - 1]) then FailedUpTo(claimed, fails, n - 1) + [claimed[n - 1]]
    else FailedUpTo(claimed, fails, n - 1)
  }

  function WorkUpTo(claimed: seq<string>, c: Circumstances, n: nat): seq<Op>
    requires n <= |claimed|
  {
    if n == 0 then []
    else if c.fails(claimed[n - 1]) then WorkUpTo(claimed, c, n - 1)
    else WorkUpTo(claimed, c, n - 1) + ContactOps(claimed[n - 1], ActiveAmong(c.segments), c.answers, c.now)
  }

  function Reached(claimed: seq<string>, c: Circumstances): nat { if c.cutoff < |claimed| then c.cutoff else |claimed| }

  /** What is to go back on the queue. */
  function Unfinished(claimed: seq<string>, c: Circumstances): seq<string> {
    if !c.loaded then claimed
    else if ActiveAmong(c.segments) == [] then []
    else FailedUpTo(claimed, c.fails, Reached(claimed, c)) + claimed[Reached(claimed, c)..]
  }

  function PutBack(claimed: seq<string>, c: Circumstances): seq<string> { if c.putBack then Unfinished(claimed, c) else [] }

  /** The segment writes of a pass. */
  function Work(claimed: seq<string>, c: Circumstances): seq<Op> {
    if c.loaded && ActiveAmong(c.segments) != [] then WorkUpTo(claimed, c, Reached(claimed, c)) else []
  }

  /** `ProcessQueue` once the batch is chosen. */
  function PassOps(claimed: seq<string>, c: Circumstances): seq<Op> {
    Dequeues(claimed, c.now) + Work(claimed, c) + Enqueues(PutBack(claimed, c), c.now)
  }

  /** A pass, stage by stage. */
  lemma PassOpsJoin(t: Tables, claimed: seq<string>, c: Circumstances)
    ensures Run(t, PassOps(claimed, c))
            == Run(Run(Run(t, Dequeues(claimed, c.now)), Work(claimed, c)), Enqueues(PutBack(claimed, c), c.now))
  {
    RunJoin(t, Dequeues(claimed, c.now), Work(claimed, c));
    RunJoin(t, Dequeues(claimed, c.now) + Work(claimed, c), Enqueues(PutBack(claimed, c), c.now));
  }

  lemma DequeueOne(t: Tables, email: string, now: int)
    ensures Settled(t, [Dequeue(email)], now) == t.(queue := t.queue - {email})
  {
    SettledOne(t, Dequeue(email), now);
    if email !in t.queue { assert t.queue - {email} == t.queue; }
  }

  lemma RemovedOneMore(queue: map<string, int>, emails: seq<string>)
    requires emails != []
    ensures var n := |emails| - 1;
            queue - (set e | e in emails[..n]) - {emails[n]} == queue - set e | e in emails
  {
    assert forall e :: e in emails <==> e in emails[..|emails| - 1] || e == emails[|emails| - 1];
  }

  lemma {:induction false} DequeuesRun(t: Tables, emails: seq<string>, now: int)
    ensures Run(t, Dequeues(emails, now)).queue == t.queue - (set e | e in emails)
    decreases |emails|
  {
    if emails == [] {
      assert t.queue - {} == t.queue;
    } else {
      var n := |emails| - 1;
      var ops := Dequeues(emails, now);
      assert ops[..n] == Dequeues(emails[..n], now);
      DequeuesRun(t, emails[..n], now);
      DequeueOne(Run(t, ops[..n]), emails[n], now);
      RemovedOneMore(t.queue, emails);
    }
  }

  lemma EnqueueOne(t: Tables, email: string, now: int)
    ensures Settled(t, [Enqueue(email)], now) == t.(queue := t.queue[email := now])
  {
    SettledOne(t, Enqueue(email), now);
  }

  /** The queue once these emails are on it with this time. */
  function Stamped(queue: map<string, int>, emails: set<string>, now: int): map<string, int> {
    queue + map e | e in emails :: now
  }

  lemma StampedOneMore(queue: map<string, int>, emails: set<string>, email: string, now: int)
    ensures Stamped(queue, emails, now)[email := now] == Stamped(queue, emails + {email}, now)
  {}

  lemma EmailsOneMore(emails: seq<string>)
    requires emails != []
    ensures var n := |emails| - 1; (set e | e in emails[..n]) + {emails[n]} == set e | e in emails
  {
    assert emails == emails[..|emails| - 1] + [emails[|emails| - 1]];
  }

  lemma EnqueuesOneMore(t: Tables, emails: seq<string>, now: int)
    requires emails != []
    ensures var n := |emails| - 1;
            Run(t, Enqueues(emails, now)) == Settled(Run(t, Enqueues(emails[..n], now)), [Enqueue(emails[n])], now)
  {
    assert Enqueues(emails, now)[..|emails| - 1] == Enqueues(emails[..|emails| - 1], now);
  }

  lemma {:induction false} EnqueuesRun(t: Tables, emails: seq<string>, now: int)
    ensures Run(t, Enqueues(emails, now)).queue == Stamped(t.queue, (set e | e in emails), now)
    decreases |emails|
  {
    if emails != [] {
      var n := |emails| - 1;
      EnqueuesRun(t, emails[..n], now);
      EnqueuesOneMore(t, emails, now);
      EnqueueOne(Run(t, Enqueues(emails[..n], now)), emails[n], now);
      StampedOneMore(t.queue, (set e | e in emails[..n]), emails[n], now);
      EmailsOneMore(emails);
    } else {
      assert Stamped(t.queue, {}, now) == t.queue;
    }
  }

  predicate SegmentOps(ops: seq<Op>, now: int) {
    forall i | 0 <= i < |ops| :: ops[i].Statement? && SegmentWrite(ops[i].write) && ops[i].now == now
  }

  /** The contacts that segment writes of the run return to the queue. */
  function Returned(t: Tables, ops: seq<Op>): set<string>
    decreases |ops|
  {
    if ops == [] then {} else var n := |ops| - 1; Returned(t, ops[..n]) + Back(Run(t, ops[..n]), ops[n])
  }

  function Back(t: Tables, op: Op): set<string> { if Returning(t, op) then {op.write.email} else {} }

  lemma SegmentOpQueue(t: Tables, op: Op, queue: map<string, int>, emails: set<string>)
    requires op.Statement? && SegmentWrite(op.write) && t.queue == Stamped(queue, emails, op.now)
    ensures Do(t, op).queue == Stamped(queue, emails + Back(t, op), op.now)
  {
    SegmentWriteQueuesIff(t, op.write, op.now);
    if Returning(t, op) {
      StampedOneMore(queue, emails, op.write.email, op.now);
    } else {
      assert emails + {} == emails;
    }
  }

  lemma {:induction false} SegmentOpsQueue(t: Tables, ops: seq<Op>, now: int)
    requires SegmentOps(ops, now)
    ensures Run(t, ops).queue == Stamped(t.queue, Returned(t, ops), now)
    decreases |ops|
  {
    if ops != [] {
      var n := |ops| - 1;
      SegmentOpsQueue(t, ops[..n], now);
      SegmentOpQueue(Run(t, ops[..n]), ops[n], t.queue, Returned(t, ops[..n]));
    }
  }

  lemma SegmentOpsJoin(a: seq<Op>, b: seq<Op>, now: int)
    requires SegmentOps(a, now) && SegmentOps(b, now)
    ensures SegmentOps(a + b, now)
  {}

  lemma {:induction false} RewritesAreSegmentOps(email: string, segments: seq<Segment>, answers: Answers, now: int)
    ensures SegmentOps(Rewrites(email, segments, answers, now), now)
    decreases |segments|
  {
    if segments != [] {
      var n := |segments| - 1;
      RewritesAreSegmentOps(email, segments[..n], answers, now);
      SegmentOpsJoin(Rewrites(email, segments[..n], answers, now), Rewrite(email, segments[n], answers, now), now);
    }
  }

  lemma {:induction false} WorkIsSegmentOps(claimed: seq<string>, c: Circumstances, n: nat)
    requires n <= |claimed|
    ensures SegmentOps(WorkUpTo(claimed, c, n), c.now)
  {
    if n > 0 {
      WorkIsSegmentOps(claimed, c, n - 1);
      RewritesAreSegmentOps(claimed[n - 1], ActiveAmong(c.segments), c.answers, c.now);
      SegmentOpsJoin(WorkUpTo(claimed, c, n - 1), ContactOps(claimed[n - 1], ActiveAmong(c.segments), c.answers, c.now), c.now);
    }
  }

  /**
   Queued after a pass are the contacts that were and are not in the batch, those its segment writes returned
   through an automation, and, unless putting back fails, those it did not finish.
   */
  lemma PassQueue(t: Tables, claimed: seq<string>, c: Circumstances)
    ensures var returned := Returned(Run(t, Dequeues(claimed, c.now)), Work(claimed, c));
            Run(t, PassOps(claimed, c)).queue
            == Stamped(Stamped(t.queue - (set e | e in claimed), returned, c.now), (set e | e in PutBack(claimed, c)), c.now)
  {
    var a := Run(t, Dequeues(claimed, c.now));
    PassOpsJoin(t, claimed, c);
    DequeuesRun(t, claimed, c.now);
    WorkIsSegmentOps(claimed, c, Reached(claimed, c));
    SegmentOpsQueue(a, Work(claimed, c), c.now);
    EnqueuesRun(Run(a, Work(claimed, c)), Unfinished(claimed, c), c.now);
  }

  lemma {:induction false} QueueOpsKeepSegments(t: Tables, ops: seq<Op>)
    requires forall i | 0 <= i < |ops| :: ops[i].Statement? && TouchesQueue(ops[i].write)
    ensures Run(t, ops).segments == t.segments
    decreases |ops|
  {
    if ops != [] {
      var n := |ops| - 1;
      QueueOpsKeepSegments(t, ops[..n]);
      if ops[n].write.Enqueue? {
        EnqueueOne(Run(t, ops[..n]), ops[n].write.email, ops[n].now);
      } else {
        DequeueOne(Run(t, ops[..n]), ops[n].write.email, ops[n].now);
      }
    }
  }

  /** The contact is in exactly the matching ones of the segments, but for those whose write failed. */
  ghost predicate Decided(m: Memberships, email: string, segments: seq<Segment>, answers: Answers) {
    forall j | 0 <= j < |segments| && answers.written(email, segments[j].id) ::
      (email, segments[j].id) in m <==> Matched(segments[j], email, answers)
  }

  lemma RewrittenDecides(m: Memberships, email: string, segments: seq<Segment>, answers: Answers)
    requires DistinctIDs(segments)
    ensures Decided(Rewritten(m, email, segments, answers), email, segments, answers)
  {
    forall j | 0 <= j < |segments| && answers.written(email, segments[j].id)
      ensures (email, segments[j].id) in Rewritten(m, email, segments, answers) <==> Matched(segments[j], email, answers)
    {
      RewrittenAt(m, email, segments, answers, j);
    }
  }

  lemma RewrittenKeepsDecided(m: Memberships, other: string, email: string, segments: seq<Segment>, answers: Answers)
    requires other != email && Decided(m, email, segments, answers)
    ensures Decided(Rewritten(m, other, segments, answers), email, segments, answers)
  {
    forall j | 0 <= j < |segments|
      ensures (email, segments[j].id) in Rewritten(m, other, segments, answers) <==> (email, segments[j].id) in m
    {
      RewrittenElsewhere(m, other, segments, answers, (email, segments[j].id));
    }
  }

  /** The memberships after the first n claimed. */
  function WorkedUpTo(m: Memberships, claimed: seq<string>, fails: string -> bool, segments: seq<Segment>,
                      answers: Answers, n: nat): Memberships
    requires n <= |claimed|
  {
    if n == 0 then m
    else
      var before := WorkedUpTo(m, claimed, fails, segments, answers, n - 1);
      if fails(claimed[n - 1]) then before else Rewritten(before, claimed[n - 1], segments, answers)
  }

  lemma {:induction false} WorkSegments(t: Tables, claimed: seq<string>, c: Circumstances, n: nat)
    requires n <= |claimed| && SomeQuery(ActiveAmong(c.segments))
    ensures Run(t, WorkUpTo(claimed, c, n)).segments
            == WorkedUpTo(t.segments, claimed, c.fails, ActiveAmong(c.segments), c.answers, n)
  {
    if n > 0 {
      WorkSegments(t, claimed, c, n - 1);
      var last := claimed[n - 1];
      if !c.fails(last) {
        RunJoin(t, WorkUpTo(claimed, c, n - 1), ContactOps(last, ActiveAmong(c.segments), c.answers, c.now));
        RewritesRun(Run(t, WorkUpTo(claimed, c, n - 1)), last, ActiveAmong(c.segments), c.answers, c.now);
      }
    }
  }

  predicate DistinctEmails(claimed: seq<string>) { forall a, b | 0 <= a < b < |claimed| :: claimed[a] != claimed[b] }

  lemma {:induction false} WorkedDecides(m: Memberships, claimed: seq<string>, fails: string -> bool, segments: seq<Segment>,
                                         answers: Answers, n: nat, i: nat)
    requires i < n <= |claimed| && !fails(claimed[i]) && DistinctEmails(claimed) && DistinctIDs(segments)
    ensures Decided(WorkedUpTo(m, claimed, fails, segments, answers, n), claimed[i], segments, answers)
    decreases n
  {
    var before := WorkedUpTo(m, claimed, fails, segments, answers, n - 1);
    if i == n - 1 {
      RewrittenDecides(before, claimed[i], segments, answers);
    } else {
      WorkedDecides(m, claimed, fails, segments, answers, n - 1, i);
      RewrittenKeepsDecided(before, claimed[n - 1], claimed[i], segments, answers);
    }
  }

  /** Where no segment has a query, contacts are left alone. */
  lemma {:induction false} NoQueryNoWork(claimed: seq<string>, c: Circumstances, n: nat)
    requires n <= |claimed| && !SomeQuery(ActiveAmong(c.segments))
    ensures WorkUpTo(claimed, c, n) == []
  {
    if n > 0 { NoQueryNoWork(claimed, c, n - 1); }
  }

  /** The memberships after a pass are those after its work. */
  lemma PassSegments(t: Tables, claimed: seq<string>, c: Circumstances)
    ensures var a := Run(t, Dequeues(claimed, c.now));
            a.segments == t.segments && Run(t, PassOps(claimed, c)).segments == Run(a, Work(claimed, c)).segments
  {
    var a := Run(t, Dequeues(claimed, c.now));
    PassOpsJoin(t, claimed, c);
    QueueOpsKeepSegments(t, Dequeues(claimed, c.now));
    QueueOpsKeepSegments(Run(a, Work(claimed, c)), Enqueues(PutBack(claimed, c), c.now));
  }

  /**
   A pass leaves every contact it reached, and that did not fail, in exactly its matching segments, but for failed
   writes; when no active segment has stored SQL it leaves all memberships as they were.
   */
  lemma PassDecides(t: Tables, claimed: seq<string>, c: Circumstances, i: nat)
    requires c.loaded && i < Reached(claimed, c) && !c.fails(claimed[i])
    requires DistinctEmails(claimed) && DistinctIDs(ActiveAmong(c.segments))
    ensures var u, active := Run(t, PassOps(claimed, c)), ActiveAmong(c.segments);
            if SomeQuery(active) then Decided(u.segments, claimed[i], active, c.answers) else u.segments == t.segments
  {
    var a, active := Run(t, Dequeues(claimed, c.now)), ActiveAmong(c.segments);
    PassSegments(t, claimed, c);
    if SomeQuery(active) {
      WorkSegments(a, claimed, c, Reached(claimed, c));
      WorkedDecides(a.segments, claimed, c.fails, active, c.answers, Reached(claimed, c), i);
    } else {
      NoQueryNoWork(claimed, c, Reached(claimed, c));
    }
  }

  lemma {:induction false} WorkedElsewhere(m: Memberships, claimed: seq<string>, fails: string -> bool, segments: seq<Segment>,
                                           answers: Answers, n: nat, k: (string, string))
    requires n <= |claimed| && forall i | 0 <= i < n :: fails(claimed[i]) || claimed[i] != k.0
    ensures var u := WorkedUpTo(m, claimed, fails, segments, answers, n); (k in u <==> k in m) && (k in m ==> u[k] == m[k])
    decreases n
  {
    if n > 0 {
      WorkedElsewhere(m, claimed, fails, segments, answers, n - 1, k);
      if !fails(claimed[n - 1]) {
        RewrittenElsewhere(WorkedUpTo(m, claimed, fails, segments, answers, n - 1), claimed[n - 1], segments, answers, k);
      }
    }
  }

  /** Contacts outside the batch, those not reached and those that fail keep their memberships. */
  lemma PassMovesNoOther(t: Tables, claimed: seq<string>, c: Circumstances, k: (string, string))
    requires forall i | 0 <= i < Reached(claimed, c) :: c.fails(claimed[i]) || claimed[i] != k.0
    ensures var u := Run(t, PassOps(claimed, c));
            (k in u.segments <==> k in t.segments) && (k in t.segments ==> u.segments[k] == t.segments[k])
  {
    var a, active := Run(t, Dequeues(claimed, c.now)), ActiveAmong(c.segments);
    PassSegments(t, claimed, c);
    if c.loaded && SomeQuery(active) {
      WorkSegments(a, claimed, c, Reached(claimed, c));
      WorkedElsewhere(a.segments, claimed, c.fails, active, c.answers, Reached(claimed, c), k);
    } else if c.loaded {
      NoQueryNoWork(claimed, c, Reached(claimed, c));
    }
  }
}
