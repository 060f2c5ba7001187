/**
 Delivery events of messages, as the message store writes them: each sets its column once, and the list
 statuses that come of them depend on which events there were, not on their order, grouping or repetition.
 */
module MessageEvents {
  import opened ChangeLog
  import opened JsonValues
  import opened ListStatus
  import opened TimelineEntries
  import opened TimelineText
  import opened Triggers
  import opened Wrappers

  datatype MessageEvent = Delivered | Failed | Engaged(mark: Mark) | Unsupported(text: string)

  datatype EventUpdate = EventUpdate(id: string, event: MessageEvent, at: int, info: Option<string>)

  /** An update with the time of its statement. */
  datatype Report = Report(update: EventUpdate, now: int)

  /** The column of the event is still null. */
  predicate Unset(m: Message, event: MessageEvent) {
    match event
    case Delivered => DeliveredAt !in m.info
    case Failed => FailedAt !in m.info
    case Engaged(mark) => mark !in m.marks
    case Unsupported(_) => false
  }

  /** The row the statement leaves: the column of the event, the status text cut to 255 characters, the time. */
  function WithEvent(m: Message, u: EventUpdate, now: int): Message {
    var marked :=
      match u.event
      case Delivered => m.(info := m.info[DeliveredAt := Stamp(u.at)])
      case Failed => m.(info := m.info[FailedAt := Stamp(u.at)])
      case Engaged(mark) => m.(marks := m.marks[mark := u.at])
      case Unsupported(_) => m;
    var told := if u.info.None? then marked else marked.(info := marked.info[StatusInfo := Text(Cut(u.info.value))]);
    told.(updatedAt := now)
  }

  function Cut(info: string): string { if |info| <= 255 then info else info[..255] }

  /** `UPDATE message_history ... WHERE id = ... AND <column> IS NULL`. */
  function Issue(t: Tables, r: Report): seq<Write> {
    var id := r.update.id;
    if id in t.messages && Unset(t.messages[id], r.update.event)
    then [UpdateMessage(id, WithEvent(t.messages[id], r.update, r.now))]
    else []
  }

  /** The tables after the updates, each with its cascade. */
  function Play(t: Tables, reports: seq<Report>): Tables
    decreases |reports|
  {
    if reports == [] then t
    else
      var n := |reports| - 1;
      var v := Play(t, reports[..n]);
      Settled(v, Issue(v, reports[n]), reports[n].now)
  }

  lemma {:induction false} PlayJoin(t: Tables, a: seq<Report>, b: seq<Report>)
    ensures Play(t, a + b) == Play(Play(t, a), b)
    decreases |b|
  {
    if b == [] {
      assert a + b == a;
    } else {
      assert (a + b)[..|a + b| - 1] == a + b[..|b| - 1];
      PlayJoin(t, a, b[..|b| - 1]);
    }
  }

  // ---------- the events a sequence of updates reports ----------

  /** The engagement events, by message. */
  function Marks(reports: seq<Report>): set<(string, Mark)>
    decreases |reports|
  {
    if reports == [] then {} else Marks(reports[..|reports| - 1]) + MarksOf(reports[|reports| - 1].update)
  }

  function MarksOf(u: EventUpdate): set<(string, Mark)> { if u.event.Engaged? then {(u.id, u.event.mark)} else {} }

  /** The same message as far as its list goes, with the marks it had and those reported. */
  predicate Follows(o: Message, n: Message, id: string, marks: set<(string, Mark)>) {
    && n.email == o.email && n.list == o.list
    && forall mark: Mark :: mark in n.marks <==> mark in o.marks || (id, mark) in marks
  }

  lemma ReportMessages(t: Tables, r: Report)
    ensures Settled(t, Issue(t, r), r.now).messages
            == if Issue(t, r) == [] then t.messages
               else t.messages[r.update.id := WithEvent(t.messages[r.update.id], r.update, r.now)]
  {
    if Issue(t, r) != [] { UpdateMessageMessages(t, Issue(t, r)[0], r.now); }
  }

  lemma ReportFollows(o: Message, n: Message, id: string, marks: set<(string, Mark)>, r: Report)
    requires Follows(o, n, id, marks)
    ensures Follows(o, if r.update.id == id && Unset(n, r.update.event) then WithEvent(n, r.update, r.now) else n,
                    id, marks + MarksOf(r.update))
  {}

  /** Messages neither come nor go, and gather exactly the reported marks. */
  lemma {:induction false} PlayMessages(t: Tables, reports: seq<Report>, id: string)
    ensures var u := Play(t, reports);
            && (id in u.messages <==> id in t.messages)
            && (id in t.messages ==> Follows(t.messages[id], u.messages[id], id, Marks(reports)))
    decreases |reports|
  {
    if reports != [] {
      var n := |reports| - 1;
      var v := Play(t, reports[..n]);
      PlayMessages(t, reports[..n], id);
      ReportMessages(v, reports[n]);
      if id in t.messages { ReportFollows(t.messages[id], v.messages[id], id, Marks(reports[..n]), reports[n]); }
    }
  }

  /** The other columns after an update: the time of a delivery or failure, and the status text cut to 255 characters, when there is one. */
  function InfoAfter(info: Row<StatusColumn>, u: EventUpdate): Row<StatusColumn> {
    var timed := if u.event.Delivered? then info[DeliveredAt := Number(u.at as real)]
                 else if u.event.Failed? then info[FailedAt := Number(u.at as real)] else info;
    if u.info.None? then timed else timed[StatusInfo := Text(if |u.info.value| <= 255 then u.info.value else u.info.value[..255])]
  }

  /** The update finds its message with the column of its event still null. */
  predicate Writes(t: Tables, u: EventUpdate) {
    u.id in t.messages && match u.event
                          case Delivered => DeliveredAt !in t.messages[u.id].info
                          case Failed => FailedAt !in t.messages[u.id].info
                          case Engaged(mark) => mark !in t.messages[u.id].marks
                          case Unsupported(_) => false
  }

  /** Then it leaves this row; otherwise it changes nothing at all. */
  lemma RowAfter(t: Tables, r: Report)
    ensures var u, id, event := Settled(t, Issue(t, r), r.now), r.update.id, r.update.event;
            if !Writes(t, r.update) then u == t
            else
              var o := t.messages[id];
              u.messages == t.messages[id := o.(marks := if event.Engaged? then o.marks[event.mark := r.update.at] else o.marks,
                                                info := InfoAfter(o.info, r.update), updatedAt := r.now)]
  {
    ReportMessages(t, r);
  }

  // ---------- the status they lead to ----------

  /** A message of this contact and list that has no such mark yet. */
  predicate Open(t: Tables, id: string, e: string, l: string, mark: Mark) {
    id in t.messages && mark !in t.messages[id].marks && t.messages[id].email == e && t.messages[id].list == Some(l)
  }

  /** Some reported event is a new one for the contact and list, judged on the tables before all of them. */
  ghost predicate Reports(t: Tables, marks: set<(string, Mark)>, e: string, l: string, mark: Mark) {
    exists id: string :: (id, mark) in marks && Open(t, id, e, l, mark)
  }

  lemma ReportsOneMore(t: Tables, reports: seq<Report>, e: string, l: string, mark: Mark)
    requires reports != []
    ensures var n := |reports| - 1;
            var v, u := Play(t, reports[..n]), reports[n].update;
            Reports(t, Marks(reports), e, l, mark)
            <==> Reports(t, Marks(reports[..n]), e, l, mark) || (u.event == Engaged(mark) && Open(v, u.id, e, l, mark))
  {
    var n := |reports| - 1;
    PlayMessages(t, reports[..n], reports[n].update.id);
  }

  /** An update hits the membership when it is a new event of this kind. */
  lemma IssueHits(t: Tables, r: Report, e: string, l: string, mark: Mark)
    requires Issue(t, r) != []
    ensures Hits(t, Issue(t, r)[0], e, l, mark) <==> r.update.event == Engaged(mark) && Open(t, r.update.id, e, l, mark)
  {}

  lemma ReportBecomesWorst(t: Tables, r: Report, e: string, l: string)
    requires (e, l) in t.memberships
    ensures var u := r.update;
            Becomes(t, Settled(t, Issue(t, r), r.now), e, l,
                    Worst(StatusOf(t, e, l), u.event == Engaged(Bounce) && Open(t, u.id, e, l, Bounce),
                          u.event == Engaged(Complaint) && Open(t, u.id, e, l, Complaint)))
  {
    if Issue(t, r) != [] {
      UpdateBecomesWorst(t, Issue(t, r)[0], r.now, e, l);
      IssueHits(t, r, e, l, Bounce);
      IssueHits(t, r, e, l, Complaint);
    }
  }

  /**
   Whatever events arrive, in whatever order and however often, a status ends at the join of where it started
   and the new bounces and complaints among them; it logs at most one entry for each step up.
   */
  lemma {:induction false} StatusAfterReports(t: Tables, reports: seq<Report>, e: string, l: string)
    requires (e, l) in t.memberships
    ensures var u := Play(t, reports);
            && (e, l) in u.memberships
            && StatusOf(u, e, l) == Worst(StatusOf(t, e, l), Reports(t, Marks(reports), e, l, Bounce), Reports(t, Marks(reports), e, l, Complaint))
            && Logged(u, e, l) - Logged(t, e, l) <= Severity(StatusOf(u, e, l)) - Severity(StatusOf(t, e, l))
    decreases |reports|
  {
    if reports != [] {
      var n := |reports| - 1;
      StatusAfterReports(t, reports[..n], e, l);
      ReportBecomesWorst(Play(t, reports[..n]), reports[n], e, l);
      ReportsOneMore(t, reports, e, l, Bounce);
      ReportsOneMore(t, reports, e, l, Complaint);
    }
  }

  /**
   Two sequences that report the same events of the same messages, in any order, with any repetitions and at
   any times, end every list membership at the same status.
   */
  lemma StatusOrderIrrelevant(t: Tables, reports: seq<Report>, other: seq<Report>, e: string, l: string)
    requires (e, l) in t.memberships && Marks(reports) == Marks(other)
    ensures (e, l) in Play(t, reports).memberships && (e, l) in Play(t, other).memberships
    ensures StatusOf(Play(t, reports), e, l) == StatusOf(Play(t, other), e, l)
  {
    StatusAfterReports(t, reports, e, l);
    StatusAfterReports(t, other, e, l);
  }

  lemma {:induction false} MarksAreTheSet(reports: seq<Report>, k: (string, Mark))
    ensures k in Marks(reports) <==> exists r :: r in reports && r.update.id == k.0 && r.update.event == Engaged(k.1)
    decreases |reports|
  {
    if reports != [] {
      var n := |reports| - 1;
      MarksAreTheSet(reports[..n], k);
      assert reports == reports[..n] + [reports[n]];
    }
  }

  /** Permuting updates and repeating them leaves what they report. */
  lemma SameUpdatesSameMarks(reports: seq<Report>, other: seq<Report>)
    requires forall r :: r in reports <==> r in other
    ensures Marks(reports) == Marks(other)
  {
    forall k: (string, Mark) ensures k in Marks(reports) <==> k in Marks(other) {
      MarksAreTheSet(reports, k);
      MarksAreTheSet(other, k);
    }
  }

  // ---------- one batch ----------

  predicate Supported(event: MessageEvent) { !event.Unsupported? }

  function AtTime(updates: seq<EventUpdate>, now: int): seq<Report> {
    seq(|updates|, i requires 0 <= i < |updates| => Report(updates[i], now))
  }

  /** The updates of one event, in the order of the batch. */
  function GroupOf(updates: seq<EventUpdate>, event: MessageEvent): seq<EventUpdate>
    decreases |updates|
  {
    if updates == [] then []
    else
      var n := |updates| - 1;
      GroupOf(updates[..n], event) + if updates[n].event == event then [updates[n]] else []
  }

  /** The groups one after the other. */
  function Grouped(updates: seq<EventUpdate>, order: seq<MessageEvent>): seq<EventUpdate>
    decreases |order|
  {
    if order == [] then [] else Grouped(updates, order[..|order| - 1]) + GroupOf(updates, order[|order| - 1])
  }

  lemma {:induction false} GroupHolds(updates: seq<EventUpdate>, event: MessageEvent, u: EventUpdate)
    ensures u in GroupOf(updates, event) <==> u in updates && u.event == event
    decreases |updates|
  {
    if updates != [] {
      var n := |updates| - 1;
      GroupHolds(updates[..n], event, u);
      assert updates == updates[..n] + [updates[n]];
    }
  }

  lemma {:induction false} GroupedHolds(updates: seq<EventUpdate>, order: seq<MessageEvent>, u: EventUpdate)
    ensures u in Grouped(updates, order) <==> u in updates && u.event in order
    decreases |order|
  {
    if order != [] {
      var n := |order| - 1;
      GroupedHolds(updates, order[..n], u);
      GroupHolds(updates, order[n], u);
      assert order == order[..n] + [order[n]];
    }
  }

  /** Some update of the batch is of this event. */
  predicate Occurs(updates: seq<EventUpdate>, event: MessageEvent) { GroupOf(updates, event) != [] }

  predicate Distinct(order: seq<MessageEvent>) { forall i, j | 0 <= i < j < |order| :: order[i] != order[j] }

  lemma DistinctOneMore(order: seq<MessageEvent>, event: MessageEvent)
    requires Distinct(order) && event !in order
    ensures Distinct(order + [event]) && forall other :: other in order + [event] <==> other in order || other == event
  {}

  /** Some events of a batch, each once, in some order. */
  ghost predicate OrderOf(updates: seq<EventUpdate>, order: seq<MessageEvent>) {
    Distinct(order) && forall event | event in order :: Occurs(updates, event)
  }

  ghost predicate Complete(updates: seq<EventUpdate>, order: seq<MessageEvent>) {
    forall event | Occurs(updates, event) :: event in order
  }

  predicate AllSupported(updates: seq<EventUpdate>) { forall u | u in updates :: Supported(u.event) }

  lemma SupportedByEvent(updates: seq<EventUpdate>)
    ensures AllSupported(updates) <==> forall event | Occurs(updates, event) :: Supported(event)
  {
    forall u | u in updates ensures Occurs(updates, u.event) { GroupHolds(updates, u.event, u); }
    forall event | Occurs(updates, event) ensures exists u :: u in updates && u.event == event {
      var u := GroupOf(updates, event)[0];
      GroupHolds(updates, event, u);
    }
  }

  /** A status after a whole batch: the grouping leaves no trace. */
  lemma BatchStatus(t: Tables, updates: seq<EventUpdate>, order: seq<MessageEvent>, now: int, e: string, l: string)
    requires (e, l) in t.memberships && Complete(updates, order)
    ensures AfterBatch(t, Play(t, AtTime(Grouped(updates, order), now)), updates, now, e, l)
  {
    var a, b := AtTime(Grouped(updates, order), now), AtTime(updates, now);
    forall r ensures r in a <==> r in b {
      GroupHolds(updates, r.update.event, r.update);
      GroupedHolds(updates, order, r.update);
      AtTimeHolds(Grouped(updates, order), now, r);
      AtTimeHolds(updates, now, r);
    }
    SameUpdatesSameMarks(a, b);
    StatusAfterReports(t, a, e, l);
  }

  /** What a batch makes of one membership. */
  ghost predicate AfterBatch(t: Tables, u: Tables, updates: seq<EventUpdate>, now: int, e: string, l: string)
    requires (e, l) in t.memberships
  {
    && (e, l) in u.memberships
    && StatusOf(u, e, l) == Worst(StatusOf(t, e, l), Reports(t, Marks(AtTime(updates, now)), e, l, Bounce),
                                  Reports(t, Marks(AtTime(updates, now)), e, l, Complaint))
  }

  lemma GroupedOneMore(updates: seq<EventUpdate>, order: seq<MessageEvent>, event: MessageEvent, now: int, t: Tables)
    ensures Play(t, AtTime(Grouped(updates, order + [event]), now))
            == Play(Play(t, AtTime(Grouped(updates, order), now)), AtTime(GroupOf(updates, event), now))
  {
    assert (order + [event])[..|order|] == order;
    AtTimeJoin(Grouped(updates, order), GroupOf(updates, event), now);
    PlayJoin(t, AtTime(Grouped(updates, order), now), AtTime(GroupOf(updates, event), now));
  }

  lemma AtTimeHolds(updates: seq<EventUpdate>, now: int, r: Report)
    ensures r in AtTime(updates, now) <==> r.update in updates && r.now == now
  {
    if r.update in updates && r.now == now {
      var i :| 0 <= i < |updates| && updates[i] == r.update;
      assert AtTime(updates, now)[i] == r;
    }
  }

  lemma PlayOneMore(t: Tables, group: seq<EventUpdate>, i: nat, now: int)
    requires i < |group|
    ensures var v := Play(t, AtTime(group[..i], now));
            Play(t, AtTime(group[..i + 1], now)) == Settled(v, Issue(v, Report(group[i], now)), now)
  {
    assert AtTime(group[..i + 1], now)[..i] == AtTime(group[..i], now);
  }

  lemma AtTimeJoin(a: seq<EventUpdate>, b: seq<EventUpdate>, now: int)
    ensures AtTime(a + b, now) == AtTime(a, now) + AtTime(b, now)
  {}
}
