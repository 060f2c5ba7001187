/** The timeline as a log: replaying and undoing it, and the list statuses it accounts for. */
module TimelineHistory {
  import opened Automations
  import opened ChangeLog
  import opened JsonValues
  import opened Sequences
  import opened Timeline
  import opened TimelineEntries
  import opened Triggers
  import opened Wrappers

  /** Whose entries: updates of a contact, any entry of a list membership, updates of a custom event. */
  datatype Topic = ContactOf(email: string) | MembershipOf(email: string, list: string) | EventOf(name: string, externalID: string)

  predicate About(entry: Entry, topic: Topic) {
    match topic
    case ContactOf(e) => entry.kind.ContactUpdated? && entry.email == e
    case MembershipOf(e, l) => entry.kind.ListKind? && entry.email == e && entry.entityID == Some(l)
    case EventOf(n, x) => entry.kind == CustomEvent(n) && entry.operation.Update? && entry.entityID == Some(x)
  }

  /** The entries on a topic, in append order. */
  function Select(s: seq<Entry>, topic: Topic): seq<Entry>
    decreases |s|
  {
    if s == [] then []
    else
      var rest := Select(s[..|s| - 1], topic);
      if About(s[|s| - 1], topic) then rest + [s[|s| - 1]] else rest
  }

  lemma SelectOneMore(s: seq<Entry>, entry: Entry, topic: Topic)
    ensures Select(s + [entry], topic) == if About(entry, topic) then Select(s, topic) + [entry] else Select(s, topic)
  {
    assert (s + [entry])[..|s|] == s;
  }

  /** Neither the write nor anything it leads to is on the topic or changes its row. */
  predicate Silent(w: Write, topic: Topic) {
    match w
    case UpdateContact(e, _) => topic != ContactOf(e)
    case InsertMembership(e, l, _) => topic != MembershipOf(e, l)
    case UpdateMembership(e, l, _) => topic != MembershipOf(e, l)
    case SetStatus(e, l, _, _, _) => topic != MembershipOf(e, l)
    case UpdateMessage(_, _) => !topic.MembershipOf?
    case UpdateEvent(n, x, _) => topic != EventOf(n, x)
    case Append(entry) => !About(entry, topic)
    case _ => true
  }

  predicate SameSubject(t: Tables, u: Tables, topic: Topic) {
    match topic
    case ContactOf(e) => e in t.contacts ==> e in u.contacts && u.contacts[e] == t.contacts[e]
    case MembershipOf(e, l) => (e, l) in t.memberships ==> (e, l) in u.memberships && u.memberships[(e, l)] == t.memberships[(e, l)]
    case EventOf(n, x) => (n, x) in t.events ==> (n, x) in u.events && u.events[(n, x)] == t.events[(n, x)]
  }

  predicate AllSilent(ws: seq<Write>, topic: Topic) { forall i | 0 <= i < |ws| :: Silent(ws[i], topic) }

  lemma SilentJoin(a: seq<Write>, b: seq<Write>, topic: Topic)
    requires AllSilent(a, topic) && AllSilent(b, topic)
    ensures AllSilent(a + b, topic)
  {}

  lemma MarkEntriesAreSilent(id: string, o: Message, n: Message, mark: Mark, topic: Topic)
    ensures AllSilent(MarkEntries(id, o, n, mark), topic)
  {}

  lemma InfoEntriesAreSilent(id: string, o: Message, n: Message, topic: Topic)
    ensures AllSilent(InfoEntries(id, o, n), topic)
  {}

  lemma MessageEntriesAreSilent(id: string, o: Message, n: Message, topic: Topic)
    ensures AllSilent(MessageEntries(id, o, n), topic)
  {
    forall mark ensures AllSilent(MarkEntries(id, o, n, mark), topic) { MarkEntriesAreSilent(id, o, n, mark, topic); }
    InfoEntriesAreSilent(id, o, n, topic);
    var a, b, c := MarkEntries(id, o, n, Opened), MarkEntries(id, o, n, Clicked), MarkEntries(id, o, n, Bounce);
    var d, e, f := MarkEntries(id, o, n, Complaint), MarkEntries(id, o, n, Unsubscribe), InfoEntries(id, o, n);
    SilentJoin(a, b, topic); SilentJoin(a + b, c, topic); SilentJoin(a + b + c, d, topic);
    SilentJoin(a + b + c + d, e, topic); SilentJoin(a + b + c + d + e, f, topic);
  }

  lemma FiredAreSilent(t: Tables, w: Write, now: int, topic: Topic)
    requires Applies(t, w) && Silent(w, topic)
    ensures AllSilent(Fired(t, w, now), topic)
  {
    if w.UpdateMessage? {
      var o := t.messages[w.id];
      MessageEntriesAreSilent(w.id, o, w.message, topic);
      SilentJoin(MessageEntries(w.id, o, w.message), ComplaintStatement(o, w.message), topic);
      SilentJoin(MessageEntries(w.id, o, w.message) + ComplaintStatement(o, w.message), BounceStatement(o, w.message), topic);
    } else if w.Append? {
      EnrolmentsAreSilent(t.registry.triggers, w.entry, topic);
      SilentJoin(Enrolments(t.registry.triggers, w.entry), Requeue(w.entry), topic);
    }
  }

  lemma {:induction false} EnrolmentsAreSilent(triggers: seq<Automation>, entry: Entry, topic: Topic)
    ensures AllSilent(Enrolments(triggers, entry), topic)
    decreases |triggers|
  {
    if triggers != [] { EnrolmentsAreSilent(triggers[..|triggers| - 1], entry, topic); }
  }

  lemma ExecutedKeepsSubject(t: Tables, w: Write, now: int, topic: Topic)
    requires Applies(t, w) && Silent(w, topic)
    ensures SameSubject(t, Executed(t, w, now), topic)
    ensures Select(Executed(t, w, now).timeline, topic) == Select(t.timeline, topic)
  {
    if w.Append? { SelectOneMore(t.timeline, w.entry, topic); }
  }

  lemma {:induction false} SilentKeeps(t: Tables, pending: seq<Write>, now: int, topic: Topic)
    requires AllSilent(pending, topic)
    ensures var u := Settled(t, pending, now);
            SameSubject(t, u, topic) && Select(u.timeline, topic) == Select(t.timeline, topic)
    decreases Load(t, pending)
  {
    if pending != [] {
      var w, rest := pending[0], pending[1..];
      if !Applies(t, w) {
        SilentKeeps(t, rest, now, topic);
      } else {
        NextIsLighter(t, w, rest, now);
        FiredAreSilent(t, w, now, topic);
        ExecutedKeepsSubject(t, w, now, topic);
        SilentKeeps(Executed(t, w, now), Fired(t, w, now) + rest, now, topic);
      }
    }
  }

  // ---------- contact columns ----------

  function OfContact(c: Changed): Changes<ContactColumn> { if c.Contacted? then c.columns else map[] }

  function OfEvent(c: Changed): Changes<string> { if c.Reoccurred? then c.properties else map[] }

  /** The differences the entries hold. */
  function Differences<K>(s: seq<Entry>, of: Changed -> Changes<K>): seq<Changes<K>>
    ensures |Differences(s, of)| == |s|
  {
    seq(|s|, i requires 0 <= i < |s| => of(s[i].changes))
  }

  /** Only triggers write entries on the topic. */
  predicate Unforged(w: Write, topic: Topic) { w.Append? ==> !About(w.entry, topic) }

  predicate AllUnforged(ops: seq<Op>, topic: Topic) { forall i | 0 <= i < |ops| :: ops[i].Statement? ==> Unforged(ops[i].write, topic) }

  /** Appending an entry on the topic: what its automations and the queue then do says nothing more on it. */
  lemma AppendOnTopic(t: Tables, entry: Entry, now: int, topic: Topic)
    ensures var u := Settled(t, [Append(entry)], now);
            SameSubject(t, u, topic) && Select(u.timeline, topic) == Select(t.timeline + [entry], topic)
  {
    var t1 := t.(timeline := t.timeline + [entry]);
    var v := Settled(t1, Enrolments(t.registry.triggers, entry), now);
    SettledAppend(t, entry, now);
    EnrolmentsAreSilent(t.registry.triggers, entry, topic);
    SilentKeeps(t1, Enrolments(t.registry.triggers, entry), now, topic);
    SettledRequeue(v, entry, now);
  }

  lemma SilentWriteKeeps(t: Tables, w: Write, now: int, topic: Topic)
    requires Silent(w, topic)
    ensures var u := Settled(t, [w], now);
            SameSubject(t, u, topic) && Select(u.timeline, topic) == Select(t.timeline, topic)
  {
    assert AllSilent([w], topic);
    SilentKeeps(t, [w], now, topic);
  }

  lemma DifferencesOneMore<K>(s: seq<Entry>, entry: Entry, of: Changed -> Changes<K>)
    ensures Differences(s + [entry], of) == Differences(s, of) + [of(entry.changes)]
  {}

  function ContactLog(t: Tables, email: string): seq<Changes<ContactColumn>> { Differences(Select(t.timeline, ContactOf(email)), OfContact) }

  /** What an update logs: nothing when no column changed. */
  function Step(o: Row<ContactColumn>, n: Row<ContactColumn>): seq<Changes<ContactColumn>> { if Diff(o, n) == map[] then [] else [Diff(o, n)] }

  lemma OneContactUpdate(t: Tables, w: Write, now: int, email: string)
    requires email in t.contacts && w.UpdateContact? && w.email == email
    ensures var u := Settled(t, [w], now);
            && email in u.contacts && u.contacts[email] == w.contact
            && ContactLog(u, email) == ContactLog(t, email) + Step(t.contacts[email].columns, w.contact.columns)
  {
    SettledOne(t, w, now);
    var v := t.(contacts := t.contacts[email := w.contact]);
    var d := Diff(t.contacts[email].columns, w.contact.columns);
    if d != map[] {
      var entry := Entry(email, Update, ContactUpdated, None, Contacted(d), w.contact.updatedAt);
      AppendOnTopic(v, entry, now, ContactOf(email));
      LogOneMore(t.timeline, entry, ContactOf(email), OfContact);
    }
  }

  function View(t: Tables, email: string): Row<ContactColumn>
    requires email in t.contacts
  {
    t.contacts[email].columns
  }

  /** `news` leads from the row `a` to the row `b` and back. */
  ghost predicate Leads<K(!new)>(a: Row<K>, news: seq<Changes<K>>, b: Row<K>) {
    Same(Replayed(a, news), b) && Same(Unwound(b, news), a)
  }

  lemma LeadsOneMore<K(!new)>(a: Row<K>, news: seq<Changes<K>>, b: Row<K>, c: Row<K>)
    requires Leads(a, news, b)
    ensures Leads(a, news + [Diff(b, c)], c)
  {
    var d := Diff(b, c);
    var all := news + [d];
    assert all[..|all| - 1] == news;
    RedoOneDiff(Replayed(a, news), b, c);
    UndoOneDiff(c, b, c);
    UnwoundSame(Undo(c, d), b, news);
  }

  /** From `t` to `u` the contact's log grew by `news`, which leads from its columns in `t` to those in `u` and back. */
  ghost predicate ContactTold(t: Tables, u: Tables, email: string, news: seq<Changes<ContactColumn>>) {
    && email in t.contacts && email in u.contacts
    && ContactLog(u, email) == ContactLog(t, email) + news
    && Leads(View(t, email), news, View(u, email))
  }

  lemma LeadsFurther(a: Row<ContactColumn>, news: seq<Changes<ContactColumn>>, b: Row<ContactColumn>, c: Row<ContactColumn>)
    requires Leads(a, news, b)
    ensures Leads(a, news + Step(b, c), c)
  {
    DiffEmptyIffEqual(b, c);
    if Diff(b, c) == map[] { assert news + [] == news; } else { LeadsOneMore(a, news, b, c); }
  }

  lemma ContactStep(t: Tables, v: Tables, op: Op, email: string, news: seq<Changes<ContactColumn>>)
    returns (more: seq<Changes<ContactColumn>>)
    requires ContactTold(t, v, email, news) && (op.Statement? ==> Unforged(op.write, ContactOf(email)))
    ensures ContactTold(t, Do(v, op), email, more)
  {
    if op.Outside? { return news; }
    var w := op.write;
    if w.UpdateContact? && w.email == email {
      OneContactUpdate(v, w, op.now, email);
      var b, c := View(v, email), w.contact.columns;
      LeadsFurther(View(t, email), news, b, c);
      more := news + Step(b, c);
      Reassociated(ContactLog(t, email), news, Step(b, c));
    } else {
      OtherWriteKeepsContact(v, w, op.now, email);
      more := news;
    }
  }

  lemma OtherWriteKeepsContact(t: Tables, w: Write, now: int, email: string)
    requires email in t.contacts && Unforged(w, ContactOf(email)) && !(w.UpdateContact? && w.email == email)
    ensures var u := Settled(t, [w], now);
            email in u.contacts && u.contacts[email] == t.contacts[email] && ContactLog(u, email) == ContactLog(t, email)
  {
    SilentWriteKeeps(t, w, now, ContactOf(email));
  }

  /**
   Over every run: replaying the differences logged for a contact, in append order, on its columns
   before the run gives its columns after it, and taking them back gives the columns before it.
   As the run is any run, this holds from the insertion on and back to every earlier state.
   */
  lemma {:induction false} ContactLogReplays(t: Tables, ops: seq<Op>, email: string) returns (news: seq<Changes<ContactColumn>>)
    requires email in t.contacts && AllUnforged(ops, ContactOf(email))
    ensures ContactTold(t, Run(t, ops), email, news)
    decreases |ops|
  {
    if ops == [] {
      news := [];
    } else {
      var n := |ops| - 1;
      var before := ContactLogReplays(t, ops[..n], email);
      news := ContactStep(t, Run(t, ops[..n]), ops[n], email, before);
    }
  }

  // ---------- custom event properties ----------

  function EventLog(t: Tables, name: string, externalID: string): seq<Changes<string>> {
    Differences(Select(t.timeline, EventOf(name, externalID)), OfEvent)
  }

  predicate UpdatesEvent(t: Tables, w: Write, name: string, externalID: string) {
    w.UpdateEvent? && w.name == name && w.externalID == externalID && Applies(t, w)
  }

  lemma LogOneMore<K>(s: seq<Entry>, entry: Entry, topic: Topic, of: Changed -> Changes<K>)
    requires About(entry, topic)
    ensures Differences(Select(s + [entry], topic), of) == Differences(Select(s, topic), of) + [of(entry.changes)]
  {
    SelectOneMore(s, entry, topic);
    DifferencesOneMore(Select(s, topic), entry, of);
  }

  /** An event update always logs one entry, be its property difference empty or not. */
  lemma OneEventUpdate(t: Tables, w: Write, now: int, name: string, externalID: string)
    requires UpdatesEvent(t, w, name, externalID)
    ensures var u := Settled(t, [w], now);
            && (name, externalID) in u.events && u.events[(name, externalID)] == w.event
            && EventLog(u, name, externalID) == EventLog(t, name, externalID)
                 + [Diff(t.events[(name, externalID)].properties.fields, w.event.properties.fields)]
  {
    var entry := EventUpdated(name, externalID, t.events[(name, externalID)], w.event);
    UpdateEventSettles(t, name, externalID, w.event, now);
    AppendOnTopic(t.(events := t.events[(name, externalID) := w.event]), entry, now, EventOf(name, externalID));
    LogOneMore(t.timeline, entry, EventOf(name, externalID), OfEvent);
  }

  lemma OtherWriteKeepsEvent(t: Tables, w: Write, now: int, name: string, externalID: string)
    requires (name, externalID) in t.events && Unforged(w, EventOf(name, externalID)) && !UpdatesEvent(t, w, name, externalID)
    ensures var u := Settled(t, [w], now);
            && (name, externalID) in u.events && u.events[(name, externalID)] == t.events[(name, externalID)]
            && EventLog(u, name, externalID) == EventLog(t, name, externalID)
  {
    if Silent(w, EventOf(name, externalID)) {
      SilentWriteKeeps(t, w, now, EventOf(name, externalID));
    } else {
      SettledOne(t, w, now);
    }
  }

  predicate HasProperties(t: Tables, name: string, externalID: string) {
    (name, externalID) in t.events && t.events[(name, externalID)].properties.Object?
  }

  function Properties(t: Tables, name: string, externalID: string): Row<string>
    requires HasProperties(t, name, externalID)
  {
    t.events[(name, externalID)].properties.fields
  }

  /** The same for an event. */
  ghost predicate EventTold(t: Tables, u: Tables, name: string, externalID: string, news: seq<Changes<string>>) {
    && HasProperties(t, name, externalID) && HasProperties(u, name, externalID)
    && EventLog(u, name, externalID) == EventLog(t, name, externalID) + news
    && Leads(Properties(t, name, externalID), news, Properties(u, name, externalID))
  }

  lemma EventStep(t: Tables, v: Tables, op: Op, name: string, externalID: string, news: seq<Changes<string>>)
    returns (more: seq<Changes<string>>)
    requires EventTold(t, v, name, externalID, news) && (op.Statement? ==> Unforged(op.write, EventOf(name, externalID)))
    ensures EventTold(t, Do(v, op), name, externalID, more)
  {
    if op.Outside? { return news; }
    if UpdatesEvent(v, op.write, name, externalID) {
      OneEventUpdate(v, op.write, op.now, name, externalID);
      var b, c := Properties(v, name, externalID), op.write.event.properties.fields;
      LeadsOneMore(Properties(t, name, externalID), news, b, c);
      more := news + [Diff(b, c)];
    } else {
      OtherWriteKeepsEvent(v, op.write, op.now, name, externalID);
      more := news;
    }
  }

  /** Over every run, the logged property differences of a custom event replay and undo in the same way. */
  lemma {:induction false} EventLogReplays(t: Tables, ops: seq<Op>, name: string, externalID: string) returns (news: seq<Changes<string>>)
    requires HasProperties(t, name, externalID) && AllUnforged(ops, EventOf(name, externalID))
    ensures EventTold(t, Run(t, ops), name, externalID, news)
    decreases |ops|
  {
    if ops == [] {
      news := [];
    } else {
      var n := |ops| - 1;
      var before := EventLogReplays(t, ops[..n], name, externalID);
      news := EventStep(t, Run(t, ops[..n]), ops[n], name, externalID, before);
    }
  }
}
