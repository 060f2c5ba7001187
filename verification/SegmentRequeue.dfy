/** When a segment write puts its contact back on the queue: only by way of an automation that enrols it. */
module SegmentRequeue {
  import opened Automations
  import opened Sequences
  import opened Timeline
  import opened TimelineEntries
  import opened Triggers
  import opened Wrappers

  /** The entry a segment write logs: none when it only refreshes a row, or finds none to delete. */
  function LoggedEntry(t: Tables, w: Write, now: int): Option<Entry>
    requires SegmentWrite(w)
  {
    var known := (w.email, w.segment) in t.segments;
    if w.JoinSegment? then (if known then None else Some(JoinedEntry(w.email, w.segment, w.version, now)))
    else if known then Some(LeftEntry(w.email, w.segment, t.segments[(w.email, w.segment)], now))
    else None
  }

  function SegmentsAfter(t: Tables, w: Write): map<(string, string), int>
    requires SegmentWrite(w)
  {
    if w.JoinSegment? then t.segments[(w.email, w.segment) := w.version] else t.segments - {(w.email, w.segment)}
  }

  /** The tables the automations' triggers find: the row is written and its entry is on the timeline. */
  function Witnessed(t: Tables, w: Write, now: int): Tables
    requires SegmentWrite(w)
  {
    var entry := LoggedEntry(t, w, now);
    t.(segments := SegmentsAfter(t, w), timeline := t.timeline + if entry.Some? then [entry.value] else [])
  }

  predicate ListensTo(a: Automation, w: Write)
    requires SegmentWrite(w)
  {
    a.listener == OnSegment(w.JoinSegment?, w.segment)
  }

  /** The write inserts or deletes its row, and some live automation on that move and segment still enrols the contact. */
  predicate Returns(t: Tables, w: Write, now: int)
    requires SegmentWrite(w)
  {
    && LoggedEntry(t, w, now).Some?
    && exists i | 0 <= i < |t.registry.triggers| ::
         ListensTo(t.registry.triggers[i], w) && Enrols(Witnessed(t, w, now), t.registry.triggers[i], w.email, now)
  }

  // ---------- the automations' triggers, one after the other ----------

  predicate TakesIn(t: Tables, i: nat, entry: Entry, now: int)
    requires i < |t.registry.triggers|
  {
    Hears(t.registry.triggers[i].listener, entry) && Enrols(t, t.registry.triggers[i], entry.email, now)
  }

  predicate SomeTakesIn(t: Tables, m: nat, entry: Entry, now: int)
    requires m <= |t.registry.triggers|
  {
    exists i | 0 <= i < m :: TakesIn(t, i, entry, now)
  }

  /** Nothing that decides the enrolments of later automations has changed. */
  ghost predicate Undisturbed(t: Tables, u: Tables, m: nat)
    requires m <= |t.registry.triggers|
  {
    && FactsOf(u) == FactsOf(t) && u.registry.live == t.registry.live && u.registry.owners == t.registry.owners
    && forall id, c | (forall i | 0 <= i < m :: t.registry.triggers[i].id != id) ::
         JourneyOf(u.registry, id, c) == JourneyOf(t.registry, id, c)
  }

  /** What the first m automations leave. */
  ghost predicate Passed(t: Tables, u: Tables, m: nat, entry: Entry, now: int)
    requires m <= |t.registry.triggers|
  {
    && u.segments == t.segments && u.registry.triggers == t.registry.triggers
    && u.queue == (if SomeTakesIn(t, m, entry, now) then t.queue[entry.email := now] else t.queue)
    && (!SomeTakesIn(t, m, entry, now) ==> Undisturbed(t, u, m))
  }

  /** While no automation has taken the contact, the next one decides as it would have at the start. */
  lemma UndisturbedDecides(t: Tables, u: Tables, m: nat, email: string, now: int)
    requires m < |t.registry.triggers| && Undisturbed(t, u, m)
    ensures var a := t.registry.triggers[m];
            Reaches(u, a, email) == Reaches(t, a, email) && Enrols(u, a, email, now) == Enrols(t, a, email, now)
  {}

  lemma SomeTakesInSplit(t: Tables, m: nat, entry: Entry, now: int)
    requires m < |t.registry.triggers|
    ensures SomeTakesIn(t, m + 1, entry, now) <==> SomeTakesIn(t, m, entry, now) || TakesIn(t, m, entry, now)
  {}

  /** An automation that does not take the contact leaves at most its own once-only record. */
  lemma RefusalDisturbsNoOther(t: Tables, u: Tables, m: nat, email: string, now: int)
    requires m < |t.registry.triggers| && Undisturbed(t, u, m) && !Enrols(u, t.registry.triggers[m], email, now)
    ensures var v := Settled(u, [Enroll(t.registry.triggers[m], email)], now);
            Undisturbed(t, v, m + 1) && v.queue == u.queue && v.segments == u.segments && v.registry.triggers == u.registry.triggers
  {
    SettledEnroll(u, t.registry.triggers[m], email, now);
  }

  lemma EnrollQueues(u: Tables, a: Automation, email: string, now: int)
    ensures var v := Settled(u, [Enroll(a, email)], now);
            && v.segments == u.segments && v.registry.triggers == u.registry.triggers
            && v.queue == if Enrols(u, a, email, now) then u.queue[email := now] else u.queue
  {
    SettledEnroll(u, a, email, now);
    if Reaches(u, a, email) { ExecutedKeepsTriggers(u, Enroll(a, email), now); }
  }

  /** One more automation. */
  lemma PassOneMore(t: Tables, u: Tables, m: nat, entry: Entry, now: int)
    requires m < |t.registry.triggers| && Passed(t, u, m, entry, now)
    ensures var a := t.registry.triggers[m];
            Passed(t, if Hears(a.listener, entry) then Settled(u, [Enroll(a, entry.email)], now) else u, m + 1, entry, now)
  {
    var a := t.registry.triggers[m];
    SomeTakesInSplit(t, m, entry, now);
    if Hears(a.listener, entry) {
      EnrollQueues(u, a, entry.email, now);
      if !SomeTakesIn(t, m, entry, now) {
        UndisturbedDecides(t, u, m, entry.email, now);
        if !Enrols(u, a, entry.email, now) { RefusalDisturbsNoOther(t, u, m, entry.email, now); }
      }
    }
  }

  lemma SettledOneMore(t: Tables, triggers: seq<Automation>, m: nat, entry: Entry, now: int)
    requires m < |triggers|
    ensures var u := Settled(t, Enrolments(triggers[..m], entry), now);
            Settled(t, Enrolments(triggers[..m + 1], entry), now)
            == if Hears(triggers[m].listener, entry) then Settled(u, [Enroll(triggers[m], entry.email)], now) else u
  {
    PrefixOneMore(triggers, m);
    SettledJoin(t, Enrolments(triggers[..m], entry), [Enroll(triggers[m], entry.email)], now);
  }

  lemma {:induction false} AllPass(t: Tables, m: nat, entry: Entry, now: int)
    requires m <= |t.registry.triggers|
    ensures Passed(t, Settled(t, Enrolments(t.registry.triggers[..m], entry), now), m, entry, now)
  {
    if m > 0 {
      AllPass(t, m - 1, entry, now);
      PassOneMore(t, Settled(t, Enrolments(t.registry.triggers[..m - 1], entry), now), m - 1, entry, now);
      SettledOneMore(t, t.registry.triggers, m - 1, entry, now);
    }
  }

  lemma AppendedSegmentEntry(t: Tables, entry: Entry, now: int)
    requires SegmentKind(entry.kind)
    ensures var t1 := t.(timeline := t.timeline + [entry]);
            Passed(t1, Settled(t, [Append(entry)], now), |t1.registry.triggers|, entry, now)
  {
    var t1 := t.(timeline := t.timeline + [entry]);
    SettledAppend(t, entry, now);
    AllPass(t1, |t1.registry.triggers|, entry, now);
    assert t1.registry.triggers[..|t1.registry.triggers|] == t.registry.triggers;
    SettledRequeue(Settled(t1, Enrolments(t.registry.triggers, entry), now), entry, now);
  }

  lemma TakesInIff(t: Tables, w: Write, now: int, i: nat)
    requires SegmentWrite(w) && LoggedEntry(t, w, now).Some? && i < |t.registry.triggers|
    ensures var u := Witnessed(t, w, now);
            TakesIn(u, i, LoggedEntry(t, w, now).value, now)
            <==> ListensTo(t.registry.triggers[i], w) && Enrols(u, t.registry.triggers[i], w.email, now)
  {
    SegmentEntryHeardIff(t.registry.triggers[i].listener, LoggedEntry(t, w, now).value);
  }

  /**
   A segment write puts its contact on the queue exactly when it inserts or deletes the row and some live
   automation on that move and segment still enrols the contact; it writes no other row of the queue.
   */
  lemma SegmentWriteQueuesIff(t: Tables, w: Write, now: int)
    requires SegmentWrite(w)
    ensures var u := Settled(t, [w], now);
            && u.queue == (if Returns(t, w, now) then t.queue[w.email := now] else t.queue)
            && u.segments == SegmentsAfter(t, w)
  {
    SettledOne(t, w, now);
    var entry := LoggedEntry(t, w, now);
    if entry.Some? {
      var v := Executed(t, w, now);
      AppendedSegmentEntry(v, entry.value, now);
      forall i | 0 <= i < |t.registry.triggers|
        ensures TakesIn(Witnessed(t, w, now), i, entry.value, now)
                <==> ListensTo(t.registry.triggers[i], w) && Enrols(Witnessed(t, w, now), t.registry.triggers[i], w.email, now)
      {
        TakesInIff(t, w, now, i);
      }
      assert v.(timeline := v.timeline + [entry.value]) == Witnessed(t, w, now);
    } else if w.LeaveSegment? {
      assert t.segments - {(w.email, w.segment)} == t.segments;
    }
  }

  /** No installed trigger of a live automation is about a segment. */
  predicate NoSegmentListener(r: Registry) {
    forall i | 0 <= i < |r.triggers| :: r.triggers[i].id in r.live ==> !r.triggers[i].listener.OnSegment?
  }

  lemma NoListenerNoReturn(t: Tables, w: Write, now: int)
    requires SegmentWrite(w) && NoSegmentListener(t.registry)
    ensures !Returns(t, w, now)
  {}

  /** With an automation on joining a segment, the worker's own write queues the contact it has just taken off. */
  lemma SegmentWriteCanRequeue()
    ensures var a := Automation("a", "r", OnSegment(true, "s"), (f, e) => true, false, EntryGuard(false, 0, 0));
            var t := Tables(map[], map[], map[], map[], map[], [], map[],
                            Registry([a], {"a"}, map["e" := Owner("c", true)], map[]));
            "e" !in t.queue && "e" in Settled(t, [JoinSegment("e", "s", 1)], 0).queue
  {
    var a := Automation("a", "r", OnSegment(true, "s"), (f, e) => true, false, EntryGuard(false, 0, 0));
    var t := Tables(map[], map[], map[], map[], map[], [], map[], Registry([a], {"a"}, map["e" := Owner("c", true)], map[]));
    var w := JoinSegment("e", "s", 1);
    SegmentWriteQueuesIff(t, w, 0);
    assert t.registry.triggers[0] == a && ListensTo(a, w) && Enrols(Witnessed(t, w, 0), a, "e", 0);
  }
}
