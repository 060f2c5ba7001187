/**
 The tables of a workspace and the triggers between them. A `Write` is one row write, or one run of an
 automation's trigger function; `Fired` is what it issues in turn, and `Settled` runs the whole cascade,
 depth first, in trigger order: the automations' triggers come before the queue's.
 */
module Triggers {
  import opened Automations
  import opened ChangeLog
  import opened Sequences
  import opened TimelineEntries
  import opened Wrappers

  datatype Tables = Tables(
    contacts: map<string, Contact>,
    memberships: map<(string, string), Membership>,
    messages: map<string, Message>,
    events: map<(string, string), Event>,
    segments: map<(string, string), int>,
    timeline: seq<Entry>,
    queue: map<string, int>,
    registry: Registry)

  datatype Write =
    | InsertContact(email: string, contact: Contact)
    | UpdateContact(email: string, contact: Contact)
    | InsertMembership(email: string, list: string, membership: Membership)
    | UpdateMembership(email: string, list: string, membership: Membership)
    | SetStatus(email: string, list: string, status: Status, spared: seq<Status>, at: int)
    | InsertMessage(id: string, message: Message)
    | UpdateMessage(id: string, message: Message)
    | InsertInbound(inbound: Inbound)
    | InsertEvent(name: string, externalID: string, event: Event)
    | UpdateEvent(name: string, externalID: string, event: Event)
    | JoinSegment(email: string, segment: string, version: int)
    | LeaveSegment(email: string, segment: string)
    | Append(entry: Entry)
    | Enroll(automation: Automation, email: string)
    | Enqueue(email: string)
    | Dequeue(email: string)

  // ---------- what each trigger function appends ----------

  function ContactEntries(email: string, o: Option<Contact>, n: Contact): seq<Write> {
    if o.None? then [Append(Entry(email, Insert, ContactCreated, None, Nothing, n.createdAt))]
    else
      var changes := Diff(o.value.columns, n.columns);
      if changes == map[] then [] else [Append(Entry(email, Update, ContactUpdated, None, Contacted(changes), n.updatedAt))]
  }

  function InitialChange(status: Status): ListChange {
    match status
    case Active => Joined
    case Pending => JoinedPending
    case Unsubscribed => LeftList
    case Bounced => BouncedOff
    case Complained => ComplainedOff
    case OtherStatus(_) => Joined
  }

  function Transition(o: Status, n: Status): ListChange {
    match n
    case Active => if o.Pending? then Confirmed else if o.Unsubscribed? || o.Bounced? || o.Complained? then Rejoined else Joined
    case Unsubscribed => LeftList
    case Bounced => BouncedOff
    case Complained => ComplainedOff
    case Pending => JoinedPending
    case OtherStatus(_) => Moved
  }

  function MembershipEntries(email: string, list: string, o: Option<Membership>, n: Membership, now: int): seq<Write> {
    if o.None? then
      [Append(Entry(email, Insert, ListKind(InitialChange(n.status)), Some(list), Enlisted(list, n.status), now))]
    else if o.value.deletedAt != n.deletedAt && n.deletedAt.Some? then
      [Append(Entry(email, Update, ListKind(Removed), Some(list), Delisted(o.value.deletedAt, n.deletedAt), now))]
    else if o.value.status != n.status then
      [Append(Entry(email, Update, ListKind(Transition(o.value.status, n.status)), Some(list), Restated(o.value.status, n.status), now))]
    else []
  }

  function MarkAt(m: Message, mark: Mark): Option<int> { if mark in m.marks then Some(m.marks[mark]) else None }

  /** The entry for one engagement time stamp that was set or moved. */
  function MarkEntries(id: string, o: Message, n: Message, mark: Mark): seq<Write> {
    if MarkAt(o, mark) != MarkAt(n, mark) && MarkAt(n, mark).Some? then
      [Append(Entry(n.email, Update, MarkedOn(n.channel, mark), Some(id), Marked(mark, MarkAt(o, mark), MarkAt(n, mark)), n.updatedAt))]
    else []
  }

  function InfoEntries(id: string, o: Message, n: Message): seq<Write> {
    var changes := Diff(o.info, n.info);
    if changes == map[] then [] else [Append(Entry(n.email, Update, UpdatedOn(n.channel), Some(id), Informed(changes), n.updatedAt))]
  }

  function SentEntry(id: string, n: Message): Entry {
    Entry(n.email, Insert, SentOn(n.channel), Some(id), Sent(n), n.updatedAt)
  }

  function MessageEntries(id: string, o: Message, n: Message): seq<Write> {
    MarkEntries(id, o, n, Opened) + MarkEntries(id, o, n, Clicked) + MarkEntries(id, o, n, Bounce)
    + MarkEntries(id, o, n, Complaint) + MarkEntries(id, o, n, Unsubscribe) + InfoEntries(id, o, n)
  }

  predicate NewlyMarked(o: Message, n: Message, mark: Mark) { mark in n.marks && mark !in o.marks }

  /** The statement `update_contact_lists_on_status_change` issues for one of its two marks. */
  function StatusStatement(o: Message, n: Message, mark: Mark, status: Status, spared: seq<Status>): seq<Write> {
    if NewlyMarked(o, n, mark) && n.list.Some? then [SetStatus(n.email, n.list.value, status, spared, n.marks[mark])] else []
  }

  function ComplaintStatement(o: Message, n: Message): seq<Write> { StatusStatement(o, n, Complaint, Complained, [Complained]) }

  function BounceStatement(o: Message, n: Message): seq<Write> { StatusStatement(o, n, Bounce, Bounced, [Complained, Bounced]) }

  function InboundKind(kind: string): Kind {
    if kind == "reply" then Replied else if kind == "auto_reply" then AutoReplied else OtherInbound
  }

  /** The details that are not empty. */
  function Details(i: Inbound): map<Detail, string> { map d | d in i.details && i.details[d] != "" :: i.details[d] }

  function InboundEntry(i: Inbound, now: int): Entry {
    Entry(i.recipient, Insert, InboundKind(i.kind), Some(if i.messageID.Some? then i.messageID.value else i.id),
          Received(i.kind, i.source, Details(i)), now)
  }

  function JoinedEntry(email: string, segment: string, version: int, now: int): Entry {
    Entry(email, Insert, SegmentJoined, Some(segment), Entered(segment, version, now), now)
  }

  function LeftEntry(email: string, segment: string, version: int, now: int): Entry {
    Entry(email, Delete, SegmentLeft, Some(segment), Exited(segment, version), now)
  }

  function EventInserted(name: string, externalID: string, n: Event): Entry {
    Entry(n.email, Insert, CustomEvent(name), Some(externalID), Occurred(name, externalID, n.goals), n.occurredAt)
  }

  function EventUpdated(name: string, externalID: string, o: Event, n: Event): Entry
    requires o.properties.Object? && n.properties.Object?
  {
    Entry(n.email, Update, CustomEvent(name), Some(externalID),
          Reoccurred(Diff(o.properties.fields, n.properties.fields), o.occurredAt, n.occurredAt, Diff(o.goals, n.goals)), n.occurredAt)
  }

  // ---------- automations ----------

  function FactsOf(t: Tables): Facts { Facts(t.contacts, t.memberships, t.messages, t.events, t.segments, t.timeline) }

  /** The trigger function gets as far as the enrolment record. */
  predicate Reaches(t: Tables, a: Automation, email: string) {
    a.condition(FactsOf(t), email) && email in t.registry.owners && a.id in t.registry.live
  }

  /** The trigger function enrols the contact. */
  predicate Enrols(t: Tables, a: Automation, email: string, now: int) {
    && Reaches(t, a, email)
    && Admits(a, JourneyOf(t.registry, a.id, t.registry.owners[email].customer), t.registry.owners[email].direct, now)
  }

  /** The automations whose `WHEN` the entry meets, in trigger order. */
  function Enrolments(triggers: seq<Automation>, entry: Entry): seq<Write>
    ensures |Enrolments(triggers, entry)| <= |triggers|
    decreases |triggers|
  {
    if triggers == [] then []
    else
      var n := |triggers| - 1;
      var before := Enrolments(triggers[..n], entry);
      if Hears(triggers[n].listener, entry) then before + [Enroll(triggers[n], entry.email)] else before
  }

  function Requeue(entry: Entry): seq<Write> { if SegmentKind(entry.kind) then [] else [Enqueue(entry.email)] }

  // ---------- row writes and cascades ----------

  /** The write finds its row, or a free key, and its triggers do not raise. */
  predicate Applies(t: Tables, w: Write) {
    match w
    case InsertContact(e, _) => e !in t.contacts
    case UpdateContact(e, _) => e in t.contacts
    case InsertMembership(e, l, _) => (e, l) !in t.memberships
    case UpdateMembership(e, l, _) => (e, l) in t.memberships
    case SetStatus(e, l, _, spared, _) => (e, l) in t.memberships && t.memberships[(e, l)].status !in spared
    case InsertMessage(id, _) => id !in t.messages
    case UpdateMessage(id, _) => id in t.messages
    case InsertInbound(_) => true
    case InsertEvent(n, x, _) => (n, x) !in t.events
    case UpdateEvent(n, x, e) => (n, x) in t.events && t.events[(n, x)].properties.Object? && e.properties.Object?
    case JoinSegment(_, _, _) => true
    case LeaveSegment(e, s) => (e, s) in t.segments
    case Append(_) => true
    case Enroll(a, e) => Reaches(t, a, e)
    case Enqueue(_) => true
    case Dequeue(e) => e in t.queue
  }

  /** The tables after the row write alone. */
  function Executed(t: Tables, w: Write, now: int): Tables
    requires Applies(t, w)
  {
    match w
    case InsertContact(e, c) => t.(contacts := t.contacts[e := c])
    case UpdateContact(e, c) => t.(contacts := t.contacts[e := c])
    case InsertMembership(e, l, m) => t.(memberships := t.memberships[(e, l) := m])
    case UpdateMembership(e, l, m) => t.(memberships := t.memberships[(e, l) := m])
    case SetStatus(e, l, s, _, at) =>
      t.(memberships := t.memberships[(e, l) := t.memberships[(e, l)].(status := s, updatedAt := at)])
    case InsertMessage(id, m) => t.(messages := t.messages[id := m])
    case UpdateMessage(id, m) => t.(messages := t.messages[id := m])
    case InsertInbound(_) => t
    case InsertEvent(n, x, e) => t.(events := t.events[(n, x) := e])
    case UpdateEvent(n, x, e) => t.(events := t.events[(n, x) := e])
    case JoinSegment(e, s, v) => t.(segments := t.segments[(e, s) := v])
    case LeaveSegment(e, s) => t.(segments := t.segments - {(e, s)})
    case Append(entry) => t.(timeline := t.timeline + [entry])
    case Enroll(a, e) =>
      var o := t.registry.owners[e];
      var j := JourneyOf(t.registry, a.id, o.customer);
      t.(registry := WithJourney(t.registry, a.id, o.customer, Recorded(a, j, o.direct, now)))
    case Enqueue(e) => t.(queue := t.queue[e := now])
    case Dequeue(e) => t.(queue := t.queue - {e})
  }

  /** The writes its triggers issue, in order. */
  function Fired(t: Tables, w: Write, now: int): seq<Write>
    requires Applies(t, w)
  {
    match w
    case InsertContact(e, c) => ContactEntries(e, None, c)
    case UpdateContact(e, c) => ContactEntries(e, Some(t.contacts[e]), c)
    case InsertMembership(e, l, m) => MembershipEntries(e, l, None, m, now)
    case UpdateMembership(e, l, m) => MembershipEntries(e, l, Some(t.memberships[(e, l)]), m, now)
    case SetStatus(e, l, s, _, at) =>
      var o := t.memberships[(e, l)];
      MembershipEntries(e, l, Some(o), o.(status := s, updatedAt := at), now)
    case InsertMessage(id, m) => [Append(SentEntry(id, m))]
    case UpdateMessage(id, m) =>
      MessageEntries(id, t.messages[id], m) + ComplaintStatement(t.messages[id], m) + BounceStatement(t.messages[id], m)
    case InsertInbound(i) => [Append(InboundEntry(i, now))]
    case InsertEvent(n, x, e) => [Append(EventInserted(n, x, e))]
    case UpdateEvent(n, x, e) => [Append(EventUpdated(n, x, t.events[(n, x)], e))]
    case JoinSegment(e, s, v) => if (e, s) in t.segments then [] else [Append(JoinedEntry(e, s, v, now))]
    case LeaveSegment(e, s) => [Append(LeftEntry(e, s, t.segments[(e, s)], now))]
    case Append(entry) => Enrolments(t.registry.triggers, entry) + Requeue(entry)
    case Enroll(a, e) => if Enrols(t, a, e, now) then [Append(StartEntry(a, e, t.registry.owners[e].customer, now))] else []
    case Enqueue(_) => []
    case Dequeue(_) => []
  }

  /** At most how many steps a write leads to, itself included, where `n` automations are installed. */
  function Weight(w: Write, n: nat): nat {
    match w
    case UpdateMessage(_, _) => 19 + 24 * n
    case Append(entry) => if entry.kind.AutomationStarted? then 2 else 2 + 3 * n
    case Enroll(_, _) => 3
    case Enqueue(_) => 1
    case Dequeue(_) => 1
    case _ => 3 + 3 * n
  }

  function TotalWeight(ws: seq<Write>, n: nat): nat { if ws == [] then 0 else Weight(ws[0], n) + TotalWeight(ws[1..], n) }

  lemma {:induction false} TotalWeightOfJoin(a: seq<Write>, b: seq<Write>, n: nat)
    ensures TotalWeight(a + b, n) == TotalWeight(a, n) + TotalWeight(b, n)
  {
    if a == [] {
      assert a + b == b;
    } else {
      assert (a + b)[1..] == a[1..] + b;
      TotalWeightOfJoin(a[1..], b, n);
    }
  }

  lemma TotalWeightOfOne(w: Write, n: nat)
    ensures TotalWeight([w], n) == Weight(w, n)
  {
    assert [w][1..] == [];
  }

  lemma AppendsLight(ws: seq<Write>, n: nat)
    requires |ws| <= 1 && forall i :: 0 <= i < |ws| ==> ws[i].Append?
    ensures TotalWeight(ws, n) <= 2 + 3 * n
  {
    if ws != [] {
      assert ws[0].Append? && ws[1..] == [];
    }
  }

  /** Each trigger function appends at most one entry, but for message updates. */
  lemma MessageEntriesLight(id: string, o: Message, m: Message, n: nat)
    ensures TotalWeight(MessageEntries(id, o, m), n) <= 12 + 18 * n
  {
    var a, b, c := MarkEntries(id, o, m, Opened), MarkEntries(id, o, m, Clicked), MarkEntries(id, o, m, Bounce);
    var d, e, f := MarkEntries(id, o, m, Complaint), MarkEntries(id, o, m, Unsubscribe), InfoEntries(id, o, m);
    AppendsLight(a, n); AppendsLight(b, n); AppendsLight(c, n); AppendsLight(d, n); AppendsLight(e, n); AppendsLight(f, n);
    TotalWeightOfJoin(a, b, n); TotalWeightOfJoin(a + b, c, n); TotalWeightOfJoin(a + b + c, d, n);
    TotalWeightOfJoin(a + b + c + d, e, n); TotalWeightOfJoin(a + b + c + d + e, f, n);
  }

  lemma StatusStatementLight(o: Message, m: Message, mark: Mark, status: Status, spared: seq<Status>, n: nat)
    ensures TotalWeight(StatusStatement(o, m, mark, status, spared), n) <= 3 + 3 * n
  {
    var ws := StatusStatement(o, m, mark, status, spared);
    assert ws == [] || ws[1..] == [];
  }

  lemma UpdateMessageLight(id: string, o: Message, m: Message, n: nat)
    ensures TotalWeight(MessageEntries(id, o, m) + ComplaintStatement(o, m) + BounceStatement(o, m), n) <= 18 + 24 * n
  {
    MessageEntriesLight(id, o, m, n);
    StatusStatementLight(o, m, Complaint, Complained, [Complained], n);
    StatusStatementLight(o, m, Bounce, Bounced, [Complained, Bounced], n);
    TotalWeightOfJoin(MessageEntries(id, o, m), ComplaintStatement(o, m), n);
    TotalWeightOfJoin(MessageEntries(id, o, m) + ComplaintStatement(o, m), BounceStatement(o, m), n);
  }

  lemma {:induction false} EnrolmentsLight(triggers: seq<Automation>, entry: Entry, n: nat)
    ensures TotalWeight(Enrolments(triggers, entry), n) <= 3 * |triggers|
    ensures entry.kind.AutomationStarted? ==> Enrolments(triggers, entry) == []
    decreases |triggers|
  {
    if triggers != [] {
      var k := |triggers| - 1;
      EnrolmentsLight(triggers[..k], entry, n);
      if entry.kind.AutomationStarted? { StartIsNotHeard(triggers[k].listener, entry); }
      TotalWeightOfJoin(Enrolments(triggers[..k], entry), [Enroll(triggers[k], entry.email)], n);
      TotalWeightOfOne(Enroll(triggers[k], entry.email), n);
    }
  }

  lemma AppendLight(t: Tables, entry: Entry, n: nat)
    requires |t.registry.triggers| <= n
    ensures TotalWeight(Enrolments(t.registry.triggers, entry) + Requeue(entry), n) < Weight(Append(entry), n)
  {
    EnrolmentsLight(t.registry.triggers, entry, n);
    TotalWeightOfJoin(Enrolments(t.registry.triggers, entry), Requeue(entry), n);
    if !SegmentKind(entry.kind) { TotalWeightOfOne(Enqueue(entry.email), n); }
  }

  /** What a write issues weighs less than the write, as long as no more than `n` automations are installed. */
  lemma FiredIsLighter(t: Tables, w: Write, now: int, n: nat)
    requires Applies(t, w) && |t.registry.triggers| <= n
    ensures TotalWeight(Fired(t, w, now), n) < Weight(w, n)
  {
    if w.UpdateMessage? {
      UpdateMessageLight(w.id, t.messages[w.id], w.message, n);
    } else if w.Append? {
      AppendLight(t, w.entry, n);
    } else if w.Enroll? {
      if Enrols(t, w.automation, w.email, now) {
        TotalWeightOfOne(Append(StartEntry(w.automation, w.email, t.registry.owners[w.email].customer, now)), n);
      }
    } else if !w.Enqueue? && !w.Dequeue? {
      AppendsLight(Fired(t, w, now), n);
    }
  }

  /** Triggers write nothing of the registry but journeys. */
  lemma ExecutedKeepsTriggers(t: Tables, w: Write, now: int)
    requires Applies(t, w)
    ensures var r := Executed(t, w, now).registry; r == t.registry.(journeys := r.journeys)
  {}

  /** The weight of pending writes, with the automations that are installed. */
  function Load(t: Tables, pending: seq<Write>): nat { TotalWeight(pending, |t.registry.triggers|) }

  /** Running the first pending write leaves a lighter list. */
  lemma NextIsLighter(t: Tables, w: Write, rest: seq<Write>, now: int)
    requires Applies(t, w)
    ensures Load(Executed(t, w, now), Fired(t, w, now) + rest) < Weight(w, |t.registry.triggers|) + Load(t, rest)
  {
    ExecutedKeepsTriggers(t, w, now);
    FiredIsLighter(t, w, now, |t.registry.triggers|);
    TotalWeightOfJoin(Fired(t, w, now), rest, |t.registry.triggers|);
  }

  /** Runs the pending writes and everything they cascade to. */
  function Settled(t: Tables, pending: seq<Write>, now: int): Tables
    decreases Load(t, pending)
  {
    if pending == [] then t
    else
      var w, rest := pending[0], pending[1..];
      if !Applies(t, w) then Settled(t, rest, now)
      else
        NextIsLighter(t, w, rest, now);
        Settled(Executed(t, w, now), Fired(t, w, now) + rest, now)
  }

  /** One round: the first pending write, then what it issues before the rest. */
  lemma SettledHead(t: Tables, w: Write, rest: seq<Write>, now: int)
    ensures Settled(t, [w] + rest, now)
            == if Applies(t, w) then Settled(Executed(t, w, now), Fired(t, w, now) + rest, now) else Settled(t, rest, now)
  {
    assert ([w] + rest)[0] == w && ([w] + rest)[1..] == rest;
  }

  lemma {:induction false} SettledJoin(t: Tables, a: seq<Write>, b: seq<Write>, now: int)
    ensures Settled(t, a + b, now) == Settled(Settled(t, a, now), b, now)
    decreases Load(t, a)
  {
    if a == [] {
      assert a + b == b;
    } else {
      var w, rest := a[0], a[1..];
      assert a == [w] + rest;
      Reassociated([w], rest, b);
      SettledHead(t, w, rest, now);
      SettledHead(t, w, rest + b, now);
      if Applies(t, w) {
        NextIsLighter(t, w, rest, now);
        SettledJoin(Executed(t, w, now), Fired(t, w, now) + rest, b, now);
        Reassociated(Fired(t, w, now), rest, b);
      } else {
        SettledJoin(t, rest, b, now);
      }
    }
  }

  /** One write: its row, then what its triggers issue. */
  lemma SettledOne(t: Tables, w: Write, now: int)
    ensures Settled(t, [w], now) == if Applies(t, w) then Settled(Executed(t, w, now), Fired(t, w, now), now) else t
  {
    assert [w][1..] == [];
    if Applies(t, w) {
      assert Fired(t, w, now) + [] == Fired(t, w, now);
    } else {
      assert Settled(t, [w][1..], now) == t;
    }
  }

  /** Appending an entry: its row, the automations that hear it, then the queue unless it is about segments. */
  lemma SettledAppend(t: Tables, entry: Entry, now: int)
    ensures Settled(t, [Append(entry)], now)
            == Settled(Settled(t.(timeline := t.timeline + [entry]), Enrolments(t.registry.triggers, entry), now), Requeue(entry), now)
  {
    SettledOne(t, Append(entry), now);
    SettledJoin(t.(timeline := t.timeline + [entry]), Enrolments(t.registry.triggers, entry), Requeue(entry), now);
  }

  lemma SettledRequeue(t: Tables, entry: Entry, now: int)
    ensures Settled(t, Requeue(entry), now)
            == t.(queue := if SegmentKind(entry.kind) then t.queue else t.queue[entry.email := now])
  {
    if !SegmentKind(entry.kind) { SettledOne(t, Enqueue(entry.email), now); }
  }

  /** An enrolment's entry only queues the contact. */
  lemma SettledStart(t: Tables, entry: Entry, now: int)
    requires entry.kind.AutomationStarted?
    ensures Settled(t, [Append(entry)], now) == t.(timeline := t.timeline + [entry], queue := t.queue[entry.email := now])
  {
    SettledAppend(t, entry, now);
    EnrolmentsLight(t.registry.triggers, entry, 0);
    SettledRequeue(t.(timeline := t.timeline + [entry]), entry, now);
  }

  /** One run of an automation's trigger function: the record of it, then the entry when the contact is let in. */
  lemma SettledTrigger(t: Tables, a: Automation, email: string, owner: Owner, j: Journey, now: int)
    requires Reaches(t, a, email) && owner == t.registry.owners[email] && j == JourneyOf(t.registry, a.id, owner.customer)
    ensures var v := t.(registry := WithJourney(t.registry, a.id, owner.customer, Recorded(a, j, owner.direct, now)));
            Settled(t, [Enroll(a, email)], now)
            == if Admits(a, j, owner.direct, now) then Settled(v, [Append(StartEntry(a, email, owner.customer, now))], now) else v
  {
    SettledOne(t, Enroll(a, email), now);
  }

  /** The same, with the entry and its effect on the queue. */
  lemma SettledEnroll(t: Tables, a: Automation, email: string, now: int)
    ensures var u := Settled(t, [Enroll(a, email)], now);
            if !Reaches(t, a, email) then u == t
            else
              var v := Executed(t, Enroll(a, email), now);
              u == if !Enrols(t, a, email, now) then v
                   else v.(timeline := t.timeline + [StartEntry(a, email, t.registry.owners[email].customer, now)],
                           queue := t.queue[email := now])
  {
    SettledOne(t, Enroll(a, email), now);
    if Reaches(t, a, email) && Enrols(t, a, email, now) {
      SettledStart(Executed(t, Enroll(a, email), now), StartEntry(a, email, t.registry.owners[email].customer, now), now);
    }
  }

  /** A message update: its entries, then the complaint statement, then the bounce statement. */
  lemma UpdateMessageSettles(t: Tables, id: string, m: Message, now: int)
    requires id in t.messages
    ensures var o := t.messages[id];
            Settled(t, [UpdateMessage(id, m)], now)
            == Settled(Settled(Settled(t.(messages := t.messages[id := m]), MessageEntries(id, o, m), now),
                               ComplaintStatement(o, m), now), BounceStatement(o, m), now)
  {
    var o, u := t.messages[id], t.(messages := t.messages[id := m]);
    SettledOne(t, UpdateMessage(id, m), now);
    SettledJoin(u, MessageEntries(id, o, m) + ComplaintStatement(o, m), BounceStatement(o, m), now);
    SettledJoin(u, MessageEntries(id, o, m), ComplaintStatement(o, m), now);
  }

  lemma UpdateEventSettles(t: Tables, name: string, externalID: string, e: Event, now: int)
    requires Applies(t, UpdateEvent(name, externalID, e))
    ensures Settled(t, [UpdateEvent(name, externalID, e)], now)
            == Settled(t.(events := t.events[(name, externalID) := e]),
                       [Append(EventUpdated(name, externalID, t.events[(name, externalID)], e))], now)
  {
    SettledOne(t, UpdateEvent(name, externalID, e), now);
  }

  lemma SettledSix(t: Tables, a: seq<Write>, b: seq<Write>, c: seq<Write>, d: seq<Write>, e: seq<Write>, f: seq<Write>, now: int)
    ensures Settled(t, a + b + c + d + e + f, now)
            == Settled(Settled(Settled(Settled(Settled(Settled(t, a, now), b, now), c, now), d, now), e, now), f, now)
  {
    SettledJoin(t, a, b, now);
    SettledJoin(t, a + b, c, now);
    SettledJoin(t, a + b + c, d, now);
    SettledJoin(t, a + b + c + d, e, now);
    SettledJoin(t, a + b + c + d + e, f, now);
  }
}
