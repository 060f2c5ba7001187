/** Why the recomputation queue drains although the worker's own writes can refill it. */
module SegmentDrain {
  import opened SegmentRequeue
  import opened SegmentWorker
  import opened Timeline
  import opened Triggers

  /** A verdict for every contact and segment: in or out. */
  type Verdict = (string, string) -> bool

  predicate Obeys(op: Op, verdict: Verdict) {
    op.Statement? && SegmentWrite(op.write) ==> (op.write.JoinSegment? <==> verdict(op.write.email, op.write.segment))
  }

  predicate AllObey(ops: seq<Op>, verdict: Verdict) { forall i | 0 <= i < |ops| :: Obeys(ops[i], verdict) }

  /** The memberships a run writes. */
  function Written(ops: seq<Op>): set<(string, string)>
    decreases |ops|
  {
    if ops == [] then {} else var n := |ops| - 1; Written(ops[..n]) + WrittenBy(ops[n])
  }

  function WrittenBy(op: Op): set<(string, string)> {
    if op.Statement? && SegmentWrite(op.write) then {(op.write.email, op.write.segment)} else {}
  }

  /** Those among them that the verdict wants otherwise than they are. */
  function Wrong(m: Memberships, ops: seq<Op>, verdict: Verdict): set<(string, string)> {
    set k | k in Written(ops) && (k in m <==> !verdict(k.0, k.1))
  }

  /** Every membership written once is as the verdict wants it, and stays so; the others have not moved. */
  lemma {:induction false} VerdictReached(t: Tables, ops: seq<Op>, verdict: Verdict, k: (string, string))
    requires WorkerRun(ops) && AllObey(ops, verdict)
    ensures k in Run(t, ops).segments <==> if k in Written(ops) then verdict(k.0, k.1) else k in t.segments
    decreases |ops|
  {
    if ops != [] {
      var n := |ops| - 1;
      var v := Run(t, ops[..n]);
      VerdictReached(t, ops[..n], verdict, k);
      if ops[n].write.Dequeue? {
        DequeueOne(v, ops[n].write.email, ops[n].now);
      } else {
        SegmentWriteQueuesIff(v, ops[n].write, ops[n].now);
      }
    }
  }

  /** A write that returns its contact is the first to put a wrong membership right. */
  lemma ReturningRights(t: Tables, ops: seq<Op>, verdict: Verdict)
    requires ops != [] && WorkerRun(ops) && AllObey(ops, verdict) && Returning(Run(t, ops[..|ops| - 1]), ops[|ops| - 1])
    ensures var n := |ops| - 1;
            var k := (ops[n].write.email, ops[n].write.segment);
            k !in Wrong(t.segments, ops[..n], verdict) && Wrong(t.segments, ops, verdict) == Wrong(t.segments, ops[..n], verdict) + {k}
  {
    var n := |ops| - 1;
    VerdictReached(t, ops[..n], verdict, (ops[n].write.email, ops[n].write.segment));
  }

  lemma {:induction false} ComebacksBounded(t: Tables, ops: seq<Op>, verdict: Verdict)
    requires WorkerRun(ops) && AllObey(ops, verdict)
    ensures Comebacks(t, ops) <= |Wrong(t.segments, ops, verdict)|
    decreases |ops|
  {
    if ops != [] {
      var n := |ops| - 1;
      var before, after := Wrong(t.segments, ops[..n], verdict), Wrong(t.segments, ops, verdict);
      ComebacksBounded(t, ops[..n], verdict);
      if Returning(Run(t, ops[..n]), ops[n]) {
        ReturningRights(t, ops, verdict);
      } else {
        assert before <= after;
        FewerInSubset(before, after);
      }
    }
  }

  lemma {:induction false} FewerInSubset<T>(a: set<T>, b: set<T>)
    requires a <= b
    ensures |a| <= |b|
  {
    if a != {} {
      var x :| x in a;
      FewerInSubset(a - {x}, b - {x});
    }
  }

  /**
   With automations on segments and no outside writes the queue still drains: as long as the answers stay the
   same, a run of any number of workers claims at most as many contacts as were queued and memberships were
   wrong, and where it claims that many the queue is empty.
   */
  lemma ClaimsBounded(t: Tables, ops: seq<Op>, verdict: Verdict)
    requires WorkerRun(ops) && AllObey(ops, verdict)
    ensures var most := |t.queue| + |Wrong(t.segments, ops, verdict)|;
            && |Run(t, ops).queue| + Claims(t, ops) <= most
            && (Claims(t, ops) == most ==> Run(t, ops).queue == map[])
  {
    QueueBalance(t, ops);
    ComebacksBounded(t, ops, verdict);
  }

  /** What the answers say of the active segments. */
  predicate InSegment(segments: seq<Segment>, answers: Answers, email: string, id: string) {
    exists j | 0 <= j < |segments| :: segments[j].id == id && Matched(segments[j], email, answers)
  }

  function VerdictOf(segments: seq<Segment>, answers: Answers): Verdict { (email, id) => InSegment(segments, answers, email, id) }

  lemma AllObeyJoin(a: seq<Op>, b: seq<Op>, verdict: Verdict)
    requires AllObey(a, verdict) && AllObey(b, verdict)
    ensures AllObey(a + b, verdict)
  {}

  lemma {:induction false} RewritesObey(email: string, segments: seq<Segment>, answers: Answers, now: int, n: nat)
    requires n <= |segments| && DistinctIDs(segments)
    ensures AllObey(Rewrites(email, segments[..n], answers, now), VerdictOf(segments, answers))
  {
    if n > 0 {
      RewritesObey(email, segments, answers, now, n - 1);
      assert segments[..n][..n - 1] == segments[..n - 1];
      AllObeyJoin(Rewrites(email, segments[..n - 1], answers, now), Rewrite(email, segments[n - 1], answers, now),
                  VerdictOf(segments, answers));
    }
  }

  lemma {:induction false} WorkObeys(claimed: seq<string>, c: Circumstances, n: nat)
    requires n <= |claimed| && DistinctIDs(ActiveAmong(c.segments))
    ensures AllObey(WorkUpTo(claimed, c, n), VerdictOf(ActiveAmong(c.segments), c.answers))
  {
    if n > 0 {
      var active := ActiveAmong(c.segments);
      WorkObeys(claimed, c, n - 1);
      RewritesObey(claimed[n - 1], active, c.answers, c.now, |active|);
      assert active[..|active|] == active;
      AllObeyJoin(WorkUpTo(claimed, c, n - 1), ContactOps(claimed[n - 1], active, c.answers, c.now), VerdictOf(active, c.answers));
    }
  }

  /** Every pass obeys the verdict of its answers, and where it puts nothing back it is such a run. */
  lemma PassObeys(claimed: seq<string>, c: Circumstances)
    requires DistinctIDs(ActiveAmong(c.segments))
    ensures AllObey(PassOps(claimed, c), VerdictOf(ActiveAmong(c.segments), c.answers))
    ensures PutBack(claimed, c) == [] ==> WorkerRun(PassOps(claimed, c))
  {
    var verdict := VerdictOf(ActiveAmong(c.segments), c.answers);
    WorkObeys(claimed, c, Reached(claimed, c));
    WorkIsSegmentOps(claimed, c, Reached(claimed, c));
    AllObeyJoin(Dequeues(claimed, c.now), Work(claimed, c), verdict);
    AllObeyJoin(Dequeues(claimed, c.now) + Work(claimed, c), Enqueues(PutBack(claimed, c), c.now), verdict);
  }
}
