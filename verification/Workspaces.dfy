/** The workspace tables as mutable state: each row write runs its trigger functions in place. */
module Workspaces {
  import opened Automations
  import opened ChangeLog
  import opened MessageEvents
  import opened SegmentWorker
  import opened Sequences
  import opened Timeline
  import opened TimelineEntries
  import opened TimelineText
  import opened Triggers
  import opened Wrappers

  /** The columns `track_contact_changes` compares, in its order. */
  const CONTACT_COLUMNS: seq<ContactColumn> := [
    ExternalID, Timezone, Language, FirstName, LastName, FullName, Phone,
    AddressLine1, AddressLine2, Country, Postcode, Region, JobTitle,
    CustomField(OfString, 1), CustomField(OfString, 2), CustomField(OfString, 3), CustomField(OfString, 4), CustomField(OfString, 5),
    CustomField(OfNumber, 1), CustomField(OfNumber, 2), CustomField(OfNumber, 3), CustomField(OfNumber, 4), CustomField(OfNumber, 5),
    CustomField(OfDatetime, 1), CustomField(OfDatetime, 2), CustomField(OfDatetime, 3), CustomField(OfDatetime, 4), CustomField(OfDatetime, 5),
    CustomField(OfJson, 1), CustomField(OfJson, 2), CustomField(OfJson, 3), CustomField(OfJson, 4), CustomField(OfJson, 5)]

  /** Where a column stands in that list. */
  function Place(c: ContactColumn): nat {
    match c
    case ExternalID => 0 case Timezone => 1 case Language => 2 case FirstName => 3 case LastName => 4 case FullName => 5 case Phone => 6
    case AddressLine1 => 7 case AddressLine2 => 8 case Country => 9 case Postcode => 10 case Region => 11 case JobTitle => 12
    case CustomField(OfString, n) => 12 + n case CustomField(OfNumber, n) => 17 + n
    case CustomField(OfDatetime, n) => 22 + n case CustomField(OfJson, n) => 27 + n
  }

  lemma EveryContactColumn()
    ensures forall c: ContactColumn :: c in CONTACT_COLUMNS
  {
    forall c: ContactColumn ensures c in CONTACT_COLUMNS { assert CONTACT_COLUMNS[Place(c)] == c; }
  }

  class Workspace {
    var contacts: map<string, Contact>
    var memberships: map<(string, string), Membership>
    var messages: map<string, Message>
    var events: map<(string, string), Event>
    var segments: map<(string, string), int>
    var timeline: seq<Entry>
    var queue: map<string, int>
    var registry: Registry

    function Snapshot(): Tables
      reads this
    {
      Tables(contacts, memberships, messages, events, segments, timeline, queue, registry)
    }

    constructor ()
      ensures Snapshot() == Tables(map[], map[], map[], map[], map[], [], map[], Registry([], {}, map[], map[]))
    {
      contacts, memberships, messages, events, segments := map[], map[], map[], map[], map[];
      timeline, queue, registry := [], map[], Registry([], {}, map[], map[]);
    }

    // ---------- timeline and queue ----------

    /** `queue_contact_for_segment_recomputation`. */
    method QueueForRecomputation(entry: Entry, now: int)
      modifies this`queue
      ensures queue == if SegmentKind(entry.kind) then old(queue) else old(queue)[entry.email := now]
    {
      SegmentKindIffText(entry.kind);
      var kind := KindText(entry.kind);
      if kind == "segment.joined" || kind == "segment.left" { return; }
      queue := queue[entry.email := now];
    }

    /** Inserting into `contact_timeline`: the automations' triggers, by name, then the queue's. */
    method AppendEntry(entry: Entry, now: int)
      modifies this`timeline, this`registry, this`queue
      ensures Snapshot() == Settled(old(Snapshot()), [Append(entry)], now)
      decreases if entry.kind.AutomationStarted? then 0 else 2
    {
      SettledAppend(Snapshot(), entry, now);
      timeline := timeline + [entry];
      ghost var t := Snapshot();
      var triggers := registry.triggers;
      for i := 0 to |triggers|
        invariant Snapshot() == Settled(t, Enrolments(triggers[..i], entry), now)
      {
        PrefixOneMore(triggers, i);
        if Hears(triggers[i].listener, entry) {
          if entry.kind.AutomationStarted? { StartIsNotHeard(triggers[i].listener, entry); }
          SettledJoin(t, Enrolments(triggers[..i], entry), [Enroll(triggers[i], entry.email)], now);
          RunTrigger(triggers[i], entry.email, now);
        }
      }
      WholePrefix(triggers);
      SettledRequeue(Snapshot(), entry, now);
      QueueForRecomputation(entry, now);
    }

    /** The trigger function of one automation. */
    method RunTrigger(a: Automation, email: string, now: int)
      modifies this`timeline, this`registry, this`queue
      ensures Snapshot() == Settled(old(Snapshot()), [Enroll(a, email)], now)
      decreases 1
    {
      if !a.condition(FactsOf(Snapshot()), email) || email !in registry.owners || a.id !in registry.live {
        SettledOne(Snapshot(), Enroll(a, email), now);
        return;
      }
      var owner := registry.owners[email];
      SettledTrigger(Snapshot(), a, email, owner, JourneyOf(registry, a.id, owner.customer), now);
      var admitted := EnrollCustomer(a, owner, now);
      if admitted { AppendEntry(StartEntry(a, email, owner.customer, now), now); }
    }

    /** `automation_enroll_customer`, up to the entry it appends: the once-only record, the guard, the journey. */
    method EnrollCustomer(a: Automation, owner: Owner, now: int) returns (admitted: bool)
      modifies this`registry
      ensures var j := JourneyOf(old(registry), a.id, owner.customer);
              && admitted == Admits(a, j, owner.direct, now)
              && registry == WithJourney(old(registry), a.id, owner.customer, Recorded(a, j, owner.direct, now))
    {
      var j := JourneyOf(registry, a.id, owner.customer);
      if a.once {
        if j.onceUsed { return false; }
        j := j.(onceUsed := true);
        registry := WithJourney(registry, a.id, owner.customer, j);
      }
      if owner.direct && !GuardAdmits(a.guard, j, now) { return false; }
      var latest := if j.latest.Some? && j.latest.value > now then j.latest.value else now;
      registry := WithJourney(registry, a.id, owner.customer, j.(active := j.active + 1, latest := Some(latest)));
      return true;
    }

    // ---------- contacts ----------

    /** `track_contact_changes`. */
    method TrackContactChanges(email: string, o: Option<Contact>, n: Contact, now: int)
      modifies this`timeline, this`registry, this`queue
      ensures Snapshot() == Settled(old(Snapshot()), ContactEntries(email, o, n), now)
    {
      if o.None? {
        AppendEntry(Entry(email, Insert, ContactCreated, None, Nothing, n.createdAt), now);
      } else {
        var changes := DiffColumns(o.value.columns, n.columns, CONTACT_COLUMNS);
        EveryContactColumn();
        assert Restricted(o.value.columns, CONTACT_COLUMNS) == o.value.columns && Restricted(n.columns, CONTACT_COLUMNS) == n.columns;
        if changes == map[] { return; }
        AppendEntry(Entry(email, Update, ContactUpdated, None, Contacted(changes), n.updatedAt), now);
      }
    }

    method InsertContact(email: string, contact: Contact, now: int)
      modifies this`contacts, this`timeline, this`registry, this`queue
      ensures Snapshot() == Settled(old(Snapshot()), [Write.InsertContact(email, contact)], now)
    {
      SettledOne(Snapshot(), Write.InsertContact(email, contact), now);
      if email in contacts { return; }
      contacts := contacts[email := contact];
      TrackContactChanges(email, None, contact, now);
    }

    method UpdateContact(email: string, contact: Contact, now: int)
      modifies this`contacts, this`timeline, this`registry, this`queue
      ensures Snapshot() == Settled(old(Snapshot()), [Write.UpdateContact(email, contact)], now)
    {
      SettledOne(Snapshot(), Write.UpdateContact(email, contact), now);
      if email !in contacts { return; }
      var o := contacts[email];
      contacts := contacts[email := contact];
      TrackContactChanges(email, Some(o), contact, now);
    }

    // ---------- list memberships ----------

    /** `track_contact_list_changes`. */
    method TrackMembershipChanges(email: string, list: string, o: Option<Membership>, n: Membership, now: int)
      modifies this`timeline, this`registry, this`queue
      ensures Snapshot() == Settled(old(Snapshot()), MembershipEntries(email, list, o, n, now), now)
    {
      var operation, change, changes := Insert, InitialChange(n.status), Enlisted(list, n.status);
      if o.Some? {
        operation := Update;
        if o.value.deletedAt != n.deletedAt && n.deletedAt.Some? {
          change, changes := Removed, Delisted(o.value.deletedAt, n.deletedAt);
        } else if o.value.status != n.status {
          change, changes := Transition(o.value.status, n.status), Restated(o.value.status, n.status);
        } else {
          return;
        }
      }
      AppendEntry(Entry(email, operation, ListKind(change), Some(list), changes, now), now);
    }

    method InsertMembership(email: string, list: string, membership: Membership, now: int)
      modifies this`memberships, this`timeline, this`registry, this`queue
      ensures Snapshot() == Settled(old(Snapshot()), [Write.InsertMembership(email, list, membership)], now)
    {
      SettledOne(Snapshot(), Write.InsertMembership(email, list, membership), now);
      if (email, list) in memberships { return; }
      memberships := memberships[(email, list) := membership];
      TrackMembershipChanges(email, list, None, membership, now);
    }

    method UpdateMembership(email: string, list: string, membership: Membership, now: int)
      modifies this`memberships, this`timeline, this`registry, this`queue
      ensures Snapshot() == Settled(old(Snapshot()), [Write.UpdateMembership(email, list, membership)], now)
    {
      SettledOne(Snapshot(), Write.UpdateMembership(email, list, membership), now);
      if (email, list) !in memberships { return; }
      var o := memberships[(email, list)];
      memberships := memberships[(email, list) := membership];
      TrackMembershipChanges(email, list, Some(o), membership, now);
    }

    /** The guarded `UPDATE contact_lists` of the status trigger. */
    method SetStatus(email: string, list: string, status: Status, spared: seq<Status>, at: int, now: int)
      modifies this`memberships, this`timeline, this`registry, this`queue
      ensures Snapshot() == Settled(old(Snapshot()), [Write.SetStatus(email, list, status, spared, at)], now)
    {
      SettledOne(Snapshot(), Write.SetStatus(email, list, status, spared, at), now);
      if (email, list) !in memberships || memberships[(email, list)].status in spared { return; }
      var o := memberships[(email, list)];
      memberships := memberships[(email, list) := o.(status := status, updatedAt := at)];
      TrackMembershipChanges(email, list, Some(o), o.(status := status, updatedAt := at), now);
    }

    // ---------- messages ----------

    method TrackMark(id: string, o: Message, n: Message, mark: Mark, now: int)
      modifies this`timeline, this`registry, this`queue
      ensures Snapshot() == Settled(old(Snapshot()), MarkEntries(id, o, n, mark), now)
    {
      var before, after := MarkAt(o, mark), MarkAt(n, mark);
      if before != after && after.Some? {
        AppendEntry(Entry(n.email, Update, MarkedOn(n.channel, mark), Some(id), Marked(mark, before, after), n.updatedAt), now);
      }
    }

    method TrackInfo(id: string, o: Message, n: Message, now: int)
      modifies this`timeline, this`registry, this`queue
      ensures Snapshot() == Settled(old(Snapshot()), InfoEntries(id, o, n), now)
    {
      var columns := [DeliveredAt, FailedAt, StatusInfo];
      var changes := DiffColumns(o.info, n.info, columns);
      assert forall c: StatusColumn :: c in columns by {
        forall c: StatusColumn ensures c in columns {
          match c
          case DeliveredAt => assert columns[0] == c;
          case FailedAt => assert columns[1] == c;
          case StatusInfo => assert columns[2] == c;
        }
      }
      assert Restricted(o.info, columns) == o.info && Restricted(n.info, columns) == n.info;
      if changes != map[] {
        AppendEntry(Entry(n.email, Update, UpdatedOn(n.channel), Some(id), Informed(changes), n.updatedAt), now);
      }
    }

    /** The update branch of `track_message_history_changes`. */
    method TrackMessageChanges(id: string, o: Message, n: Message, now: int)
      modifies this`timeline, this`registry, this`queue
      ensures Snapshot() == Settled(old(Snapshot()), MessageEntries(id, o, n), now)
    {
      ghost var t := Snapshot();
      TrackMark(id, o, n, Opened, now);
      TrackMark(id, o, n, Clicked, now);
      TrackMark(id, o, n, Bounce, now);
      TrackMark(id, o, n, Complaint, now);
      TrackMark(id, o, n, Unsubscribe, now);
      TrackInfo(id, o, n, now);
      SettledSix(t, MarkEntries(id, o, n, Opened), MarkEntries(id, o, n, Clicked), MarkEntries(id, o, n, Bounce),
                 MarkEntries(id, o, n, Complaint), MarkEntries(id, o, n, Unsubscribe), InfoEntries(id, o, n), now);
    }

    /** `update_contact_lists_on_status_change`: complaints first, then bounces. */
    method UpdateListsOnStatusChange(o: Message, n: Message, now: int)
      modifies this`memberships, this`timeline, this`registry, this`queue
      ensures Snapshot() == Settled(Settled(old(Snapshot()), ComplaintStatement(o, n), now), BounceStatement(o, n), now)
    {
      if Complaint in n.marks && Complaint !in o.marks {
        if n.list.Some? {
          SetStatus(n.email, n.list.value, Complained, [Complained], n.marks[Complaint], now);
        }
      }
      if Bounce in n.marks && Bounce !in o.marks {
        if n.list.Some? {
          SetStatus(n.email, n.list.value, Bounced, [Complained, Bounced], n.marks[Bounce], now);
        }
      }
    }

    method InsertMessage(id: string, message: Message, now: int)
      modifies this`messages, this`timeline, this`registry, this`queue
      ensures Snapshot() == Settled(old(Snapshot()), [Write.InsertMessage(id, message)], now)
    {
      SettledOne(Snapshot(), Write.InsertMessage(id, message), now);
      if id in messages { return; }
      messages := messages[id := message];
      AppendEntry(SentEntry(id, message), now);
    }

    method UpdateMessage(id: string, message: Message, now: int)
      modifies this`messages, this`memberships, this`timeline, this`registry, this`queue
      ensures Snapshot() == Settled(old(Snapshot()), [Write.UpdateMessage(id, message)], now)
    {
      if id !in messages {
        SettledOne(Snapshot(), Write.UpdateMessage(id, message), now);
        return;
      }
      UpdateMessageSettles(Snapshot(), id, message, now);
      var o := messages[id];
      messages := messages[id := message];
      TrackMessageChanges(id, o, message, now);
      UpdateListsOnStatusChange(o, message, now);
    }

    /** One row of the statement of `SetStatusesIfNotSet`. */
    method SetStatusIfNotSet(u: EventUpdate, now: int)
      modifies this`messages, this`memberships, this`timeline, this`registry, this`queue
      ensures Snapshot() == Settled(old(Snapshot()), Issue(old(Snapshot()), Report(u, now)), now)
    {
      if u.id !in messages || !Unset(messages[u.id], u.event) { return; }
      UpdateMessage(u.id, WithEvent(messages[u.id], u, now), now);
    }

    /** The statement for one event. */
    method SetGroup(group: seq<EventUpdate>, now: int)
      modifies this`messages, this`memberships, this`timeline, this`registry, this`queue
      ensures Snapshot() == Play(old(Snapshot()), AtTime(group, now))
    {
      for i := 0 to |group|
        invariant Snapshot() == Play(old(Snapshot()), AtTime(group[..i], now))
      {
        PlayOneMore(old(Snapshot()), group, i, now);
        SetStatusIfNotSet(group[i], now);
      }
      WholePrefix(group);
    }

    /**
     `SetStatusesIfNotSet`: one statement per event, in the random order in which the map of groups is visited; an
     event without a column ends it. Whatever the order, a status is the join of the old one and the new events.
     */
    method SetStatusesIfNotSet(updates: seq<EventUpdate>, now: int) returns (ok: bool, ghost order: seq<MessageEvent>)
      modifies this`messages, this`memberships, this`timeline, this`registry, this`queue
      ensures OrderOf(updates, order)
      ensures Snapshot() == Play(old(Snapshot()), AtTime(Grouped(updates, order), now))
      ensures ok <==> AllSupported(updates)
      ensures ok ==> Complete(updates, order)
      ensures ok ==> forall e, l | (e, l) in old(memberships) :: AfterBatch(old(Snapshot()), Snapshot(), updates, now, e, l)
    {
      ghost var t := Snapshot();
      var groups := GroupByEvent(updates);
      SupportedByEvent(updates);
      var pending := groups.Keys;
      order := [];
      while pending != {}
        invariant pending <= groups.Keys && Distinct(order)
        invariant forall event :: event in order <==> event in groups && event !in pending
        invariant forall event | event in order :: Supported(event)
        invariant Snapshot() == Play(t, AtTime(Grouped(updates, order), now))
        decreases pending
      {
        var event :| event in pending;
        if !Supported(event) { return false, order; }
        GroupedOneMore(updates, order, event, now, t);
        DistinctOneMore(order, event);
        SetGroup(groups[event], now);
        order := order + [event];
        pending := pending - {event};
      }
      forall e, l | (e, l) in t.memberships ensures AfterBatch(t, Snapshot(), updates, now, e, l) {
        BatchStatus(t, updates, order, now, e, l);
      }
      ok := true;
    }

    method InsertInbound(inbound: Inbound, now: int)
      modifies this`timeline, this`registry, this`queue
      ensures Snapshot() == Settled(old(Snapshot()), [Write.InsertInbound(inbound)], now)
    {
      SettledOne(Snapshot(), Write.InsertInbound(inbound), now);
      AppendEntry(InboundEntry(inbound, now), now);
    }

    // ---------- custom events ----------

    method InsertEvent(name: string, externalID: string, event: Event, now: int)
      modifies this`events, this`timeline, this`registry, this`queue
      ensures Snapshot() == Settled(old(Snapshot()), [Write.InsertEvent(name, externalID, event)], now)
    {
      SettledOne(Snapshot(), Write.InsertEvent(name, externalID, event), now);
      if (name, externalID) in events { return; }
      events := events[(name, externalID) := event];
      AppendEntry(EventInserted(name, externalID, event), now);
    }

    /** The update branch of `track_custom_event_timeline`. */
    method TrackEventChanges(name: string, externalID: string, o: Event, n: Event, now: int)
      requires o.properties.Object? && n.properties.Object?
      modifies this`timeline, this`registry, this`queue
      ensures Snapshot() == Settled(old(Snapshot()), [Append(EventUpdated(name, externalID, o, n))], now)
    {
      var properties := DiffProperties(o.properties.fields, n.properties.fields);
      var columns := [GoalType, GoalValue, GoalName];
      var goals := DiffColumns(o.goals, n.goals, columns);
      assert forall c: Goal :: c in columns by {
        forall c: Goal ensures c in columns {
          match c
          case GoalType => assert columns[0] == c;
          case GoalValue => assert columns[1] == c;
          case GoalName => assert columns[2] == c;
        }
      }
      assert Restricted(o.goals, columns) == o.goals && Restricted(n.goals, columns) == n.goals;
      AppendEntry(Entry(n.email, Update, CustomEvent(name), Some(externalID),
                        Reoccurred(properties, o.occurredAt, n.occurredAt, goals), n.occurredAt), now);
    }

    /** Properties that are not an object make the trigger raise, which aborts the statement. */
    method UpdateEvent(name: string, externalID: string, event: Event, now: int)
      modifies this`events, this`timeline, this`registry, this`queue
      ensures Snapshot() == Settled(old(Snapshot()), [Write.UpdateEvent(name, externalID, event)], now)
    {
      if (name, externalID) !in events || !events[(name, externalID)].properties.Object? || !event.properties.Object? {
        SettledOne(Snapshot(), Write.UpdateEvent(name, externalID, event), now);
        return;
      }
      UpdateEventSettles(Snapshot(), name, externalID, event, now);
      var o := events[(name, externalID)];
      events := events[(name, externalID) := event];
      TrackEventChanges(name, externalID, o, event, now);
    }

    // ---------- segment memberships ----------

    /** `AddContactToSegment`: an upsert, logged only when it inserts. */
    method JoinSegment(email: string, segment: string, version: int, now: int)
      modifies this`segments, this`timeline, this`registry, this`queue
      ensures Snapshot() == Settled(old(Snapshot()), [Write.JoinSegment(email, segment, version)], now)
    {
      SettledOne(Snapshot(), Write.JoinSegment(email, segment, version), now);
      var known := (email, segment) in segments;
      segments := segments[(email, segment) := version];
      if !known { AppendEntry(JoinedEntry(email, segment, version, now), now); }
    }

    method LeaveSegment(email: string, segment: string, now: int)
      modifies this`segments, this`timeline, this`registry, this`queue
      ensures Snapshot() == Settled(old(Snapshot()), [Write.LeaveSegment(email, segment)], now)
    {
      SettledOne(Snapshot(), Write.LeaveSegment(email, segment), now);
      if (email, segment) !in segments { return; }
      var version := segments[(email, segment)];
      segments := segments - {(email, segment)};
      AppendEntry(LeftEntry(email, segment, version, now), now);
    }

    // ---------- the segment worker ----------

    /** The statement of `claimBatch`, once the database has chosen the batch. */
    method Claim(claimed: seq<string>, now: int)
      modifies this`queue
      ensures Snapshot() == Run(old(Snapshot()), Dequeues(claimed, now))
    {
      for i := 0 to |claimed|
        invariant Snapshot() == Run(old(Snapshot()), Dequeues(claimed[..i], now))
      {
        assert Dequeues(claimed[..i + 1], now)[..i] == Dequeues(claimed[..i], now);
        DequeueOne(Snapshot(), claimed[i], now);
        queue := queue - {claimed[i]};
      }
      assert claimed[..|claimed|] == claimed;
    }

    /** The statement of `requeueBatch`. */
    method Requeue(emails: seq<string>, now: int)
      modifies this`queue
      ensures Snapshot() == Run(old(Snapshot()), Enqueues(emails, now))
    {
      for i := 0 to |emails|
        invariant Snapshot() == Run(old(Snapshot()), Enqueues(emails[..i], now))
      {
        assert Enqueues(emails[..i + 1], now)[..i] == Enqueues(emails[..i], now);
        EnqueueOne(Snapshot(), emails[i], now);
        queue := queue[emails[i] := now];
      }
      assert emails[..|emails|] == emails;
    }

    /** One round of the loop of `processContact`; a write that fails is only logged. */
    method RewriteSegment(email: string, s: Segment, answers: Answers, now: int)
      modifies this`segments, this`timeline, this`registry, this`queue
      ensures Snapshot() == Run(old(Snapshot()), Rewrite(email, s, answers, now))
    {
      if !answers.written(email, s.id) { return; }
      RunOne(Snapshot(), Rewrite(email, s, answers, now)[0]);
      if Matched(s, email, answers) {
        JoinSegment(email, s.id, s.version, now);
      } else {
        LeaveSegment(email, s.id, now);
      }
    }

    /** `processContact`. */
    method ProcessContact(email: string, active: seq<Segment>, answers: Answers, now: int)
      modifies this`segments, this`timeline, this`registry, this`queue
      ensures Snapshot() == Run(old(Snapshot()), ContactOps(email, active, answers, now))
    {
      if !SomeQuery(active) { return; }
      ghost var t := Snapshot();
      for i := 0 to |active|
        invariant Snapshot() == Run(t, Rewrites(email, active[..i], answers, now))
      {
        PrefixOneMore(active, i);
        RunJoin(t, Rewrites(email, active[..i], answers, now), Rewrite(email, active[i], answers, now));
        RewriteSegment(email, active[i], answers, now);
      }
      WholePrefix(active);
    }

    /** `ProcessQueue`: contacts that fail, or that cancellation leaves unreached, go back on the queue. */
    method ProcessQueue(claimed: seq<string>, c: Circumstances) returns (processed: nat)
      modifies this`segments, this`timeline, this`registry, this`queue
      ensures Snapshot() == Run(old(Snapshot()), PassOps(claimed, c))
      ensures processed == |claimed| - |Unfinished(claimed, c)|
    {
      ghost var t := Snapshot();
      Claim(claimed, c.now);
      var active: seq<Segment> := [];
      if c.loaded { active := SelectActive(c.segments); }
      var failed: seq<string> := if c.loaded then [] else claimed;
      if active != [] {
        var i := 0;
        while i < |claimed| && i != c.cutoff
          invariant 0 <= i <= Reached(claimed, c)
          invariant failed == FailedUpTo(claimed, c.fails, i) && |failed| <= i
          invariant Snapshot() == Run(Run(t, Dequeues(claimed, c.now)), WorkUpTo(claimed, c, i))
        {
          if c.fails(claimed[i]) {
            failed := failed + [claimed[i]];
          } else {
            RunJoin(Run(t, Dequeues(claimed, c.now)), WorkUpTo(claimed, c, i), ContactOps(claimed[i], active, c.answers, c.now));
            ProcessContact(claimed[i], active, c.answers, c.now);
          }
          i := i + 1;
        }
        failed := failed + claimed[i..];
      }
      if c.putBack { Requeue(failed, c.now); }
      PassOpsJoin(t, claimed, c);
      processed := |claimed| - |failed|;
    }
  }

  method GroupByEvent(updates: seq<EventUpdate>) returns (groups: map<MessageEvent, seq<EventUpdate>>)
    ensures forall event :: event in groups <==> Occurs(updates, event)
    ensures forall event | event in groups :: groups[event] == GroupOf(updates, event)
  {
    groups := map[];
    for i := 0 to |updates|
      invariant forall event | event in groups :: groups[event] != []
      invariant forall event :: GroupOf(updates[..i], event) == if event in groups then groups[event] else []
    {
      PrefixOneMore(updates, i);
      var event := updates[i].event;
      groups := groups[event := (if event in groups then groups[event] else []) + [updates[i]]];
    }
    WholePrefix(updates);
  }

  method SelectActive(segments: seq<Segment>) returns (active: seq<Segment>)
    ensures active == ActiveAmong(segments)
  {
    active := [];
    for i := 0 to |segments|
      invariant active == ActiveAmong(segments[..i])
    {
      assert segments[..i + 1][..i] == segments[..i];
      if segments[i].active { active := active + [segments[i]]; }
    }
    assert segments[..|segments|] == segments;
  }
}
