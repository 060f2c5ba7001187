/** One pass of the segment worker, told by contact and segment: who is rewritten, and who goes back on the queue. */
module SegmentPass {
  import opened SegmentWorker
  import opened Timeline
  import opened Triggers

  /** The worker evaluates the active segments and no others. */
  lemma {:induction false} ActiveAmongHolds(segments: seq<Segment>)
    ensures forall s :: s in ActiveAmong(segments) <==> s in segments && s.active
    decreases |segments|
  {
    if segments != [] {
      var n := |segments| - 1;
      ActiveAmongHolds(segments[..n]);
      assert segments == segments[..n] + [segments[n]];
    }
  }

  lemma {:induction false} ActiveAmongDistinct(segments: seq<Segment>)
    requires DistinctIDs(segments)
    ensures DistinctIDs(ActiveAmong(segments))
    decreases |segments|
  {
    if segments != [] {
      var n := |segments| - 1;
      ActiveAmongDistinct(segments[..n]);
      ActiveAmongHolds(segments[..n]);
      forall s | s in ActiveAmong(segments[..n]) ensures s.id != segments[n].id {
        assert s in segments[..n];
        var j :| 0 <= j < n && segments[j] == s;
      }
    }
  }

  predicate SameAt(m: Memberships, n: Memberships, k: (string, string)) { (k in n <==> k in m) && (k in m ==> n[k] == m[k]) }

  /** Later contacts leave the memberships of one that was worked on alone. */
  lemma {:induction false} WorkedStays(m: Memberships, claimed: seq<string>, fails: string -> bool, segments: seq<Segment>,
                                       answers: Answers, n: nat, i: nat, k: (string, string))
    requires i < n <= |claimed| && !fails(claimed[i]) && DistinctEmails(claimed) && k.0 == claimed[i]
    ensures SameAt(Rewritten(WorkedUpTo(m, claimed, fails, segments, answers, i), claimed[i], segments, answers),
                   WorkedUpTo(m, claimed, fails, segments, answers, n), k)
    decreases n
  {
    if i < n - 1 {
      WorkedStays(m, claimed, fails, segments, answers, n - 1, i, k);
      if !fails(claimed[n - 1]) {
        RewrittenElsewhere(WorkedUpTo(m, claimed, fails, segments, answers, n - 1), claimed[n - 1], segments, answers, k);
      }
    }
  }

  /** What a pass makes of one membership of a contact it reaches: nothing for inactive segments and failed writes. */
  predicate Verdict(m: Memberships, n: Memberships, email: string, s: Segment, answers: Answers) {
    var k := (email, s.id);
    if !s.active || !answers.written(email, s.id) then SameAt(m, n, k)
    else if s.hasQuery && answers.matches(email, s.id) then k in n && n[k] == s.version
    else k !in n
  }

  lemma ActiveVerdict(m: Memberships, claimed: seq<string>, c: Circumstances, i: nat, s: Segment)
    requires i < |claimed| && DistinctEmails(claimed) && DistinctIDs(c.segments) && s in c.segments && s.active
    ensures var active := ActiveAmong(c.segments);
            Verdict(m, Rewritten(WorkedUpTo(m, claimed, c.fails, active, c.answers, i), claimed[i], active, c.answers), claimed[i], s, c.answers)
  {
    var active := ActiveAmong(c.segments);
    ActiveAmongHolds(c.segments);
    ActiveAmongDistinct(c.segments);
    var j: nat :| j < |active| && active[j] == s;
    WorkedElsewhere(m, claimed, c.fails, active, c.answers, i, (claimed[i], s.id));
    RewrittenAt(WorkedUpTo(m, claimed, c.fails, active, c.answers, i), claimed[i], active, c.answers, j);
  }

  lemma InactiveVerdict(m: Memberships, claimed: seq<string>, c: Circumstances, i: nat, s: Segment)
    requires i < |claimed| && DistinctEmails(claimed) && DistinctIDs(c.segments) && s in c.segments && !s.active
    ensures var active := ActiveAmong(c.segments);
            Verdict(m, Rewritten(WorkedUpTo(m, claimed, c.fails, active, c.answers, i), claimed[i], active, c.answers), claimed[i], s, c.answers)
  {
    var active := ActiveAmong(c.segments);
    ActiveAmongHolds(c.segments);
    var p :| 0 <= p < |c.segments| && c.segments[p] == s;
    forall j | 0 <= j < |active| ensures active[j].id != s.id {
      assert active[j] in active && active[j] in c.segments;
      var q :| 0 <= q < |c.segments| && c.segments[q] == active[j];
    }
    WorkedElsewhere(m, claimed, c.fails, active, c.answers, i, (claimed[i], s.id));
    RewrittenElsewhere(WorkedUpTo(m, claimed, c.fails, active, c.answers, i), claimed[i], active, c.answers, (claimed[i], s.id));
  }

  /** Some segment is active and has stored SQL. */
  predicate Evaluates(c: Circumstances) { exists j | 0 <= j < |c.segments| :: c.segments[j].active && c.segments[j].hasQuery }

  lemma EvaluatesActive(c: Circumstances)
    requires Evaluates(c)
    ensures SomeQuery(ActiveAmong(c.segments))
  {
    var j :| 0 <= j < |c.segments| && c.segments[j].active && c.segments[j].hasQuery;
    ActiveAmongHolds(c.segments);
    assert c.segments[j] in ActiveAmong(c.segments);
  }

  /**
   A contact that a pass reaches, and that does not fail, is afterwards in a segment exactly when the segment is
   active, has stored SQL and matches, and then at the segment's version; inactive segments and failed writes
   leave the membership as it was.
   */
  lemma PassVerdict(t: Tables, claimed: seq<string>, c: Circumstances, i: nat, s: Segment)
    requires c.loaded && i < |claimed| && i < c.cutoff && !c.fails(claimed[i]) && Evaluates(c)
    requires DistinctEmails(claimed) && DistinctIDs(c.segments) && s in c.segments
    ensures Verdict(t.segments, Run(t, PassOps(claimed, c)).segments, claimed[i], s, c.answers)
  {
    var active, n := ActiveAmong(c.segments), Reached(claimed, c);
    var a := Run(t, Dequeues(claimed, c.now));
    EvaluatesActive(c);
    PassSegments(t, claimed, c);
    WorkSegments(a, claimed, c, n);
    WorkedStays(t.segments, claimed, c.fails, active, c.answers, n, i, (claimed[i], s.id));
    if s.active { ActiveVerdict(t.segments, claimed, c, i, s); } else { InactiveVerdict(t.segments, claimed, c, i, s); }
  }

  lemma QueryMeansEvaluates(c: Circumstances)
    requires SomeQuery(ActiveAmong(c.segments))
    ensures Evaluates(c)
  {
    var active := ActiveAmong(c.segments);
    var j :| 0 <= j < |active| && active[j].hasQuery;
    ActiveAmongHolds(c.segments);
    assert active[j] in active;
    var i :| 0 <= i < |c.segments| && c.segments[i] == active[j];
  }

  /** A pass that finds no segment to evaluate, or cannot load them, leaves every membership as it was. */
  lemma IdlePass(t: Tables, claimed: seq<string>, c: Circumstances)
    requires !c.loaded || !Evaluates(c)
    ensures Run(t, PassOps(claimed, c)).segments == t.segments
  {
    PassSegments(t, claimed, c);
    if c.loaded {
      if SomeQuery(ActiveAmong(c.segments)) { QueryMeansEvaluates(c); }
      NoQueryNoWork(claimed, c, Reached(claimed, c));
    }
  }

  // ---------- who goes back ----------

  lemma {:induction false} FailedHolds(claimed: seq<string>, fails: string -> bool, n: nat, e: string)
    requires n <= |claimed|
    ensures e in FailedUpTo(claimed, fails, n) <==> fails(e) && exists i | 0 <= i < n :: claimed[i] == e
  {
    if n > 0 { FailedHolds(claimed, fails, n - 1, e); }
  }

  /** The contact in this place of the batch is not finished: segments did not load, it was not reached, or it failed. */
  predicate LeftOver(claimed: seq<string>, c: Circumstances, i: nat)
    requires i < |claimed|
  {
    !c.loaded || ((exists s | s in c.segments :: s.active) && (i >= c.cutoff || c.fails(claimed[i])))
  }

  /** Put back are exactly the contacts that are left over, unless putting back fails. */
  lemma PutBackIff(claimed: seq<string>, c: Circumstances, e: string)
    ensures e in PutBack(claimed, c) <==> c.putBack && exists i: nat | i < |claimed| :: claimed[i] == e && LeftOver(claimed, c, i)
  {
    var n := Reached(claimed, c);
    ActiveAmongHolds(c.segments);
    FailedHolds(claimed, c.fails, n, e);
    assert ActiveAmong(c.segments) == [] <==> !exists s | s in c.segments :: s.active by {
      if ActiveAmong(c.segments) != [] { assert ActiveAmong(c.segments)[0] in ActiveAmong(c.segments); }
    }
    if c.putBack && c.loaded && ActiveAmong(c.segments) != [] {
      UnreachedHolds(claimed, n, e);
    }
  }

  lemma UnreachedHolds(claimed: seq<string>, n: nat, e: string)
    requires n <= |claimed|
    ensures e in claimed[n..] <==> exists i | n <= i < |claimed| :: claimed[i] == e
  {
    if e in claimed[n..] {
      var j :| 0 <= j < |claimed[n..]| && claimed[n..][j] == e;
      assert claimed[n + j] == e;
    }
    if exists i | n <= i < |claimed| :: claimed[i] == e {
      var i :| n <= i < |claimed| && claimed[i] == e;
      assert claimed[n..][i - n] == e;
    }
  }

  /** On the queue after a pass: whoever was and is not in the batch, whom a segment write returned, and whoever is put back. */
  lemma QueuedAfterPass(t: Tables, claimed: seq<string>, c: Circumstances, e: string)
    ensures var u := Run(t, PassOps(claimed, c));
            && (e in u.queue <==>
                  || (e in t.queue && e !in claimed)
                  || e in Returned(Run(t, Dequeues(claimed, c.now)), Work(claimed, c))
                  || e in PutBack(claimed, c))
            && (e in PutBack(claimed, c) ==> u.queue[e] == c.now)
  {
    PassQueue(t, claimed, c);
  }
}
