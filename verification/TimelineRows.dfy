/** The rows of `contact_timeline` that one statement writes, told in the texts of the stored row. */
module TimelineRows {
  import opened Automations
  import opened ChangeLog
  import opened JsonValues
  import opened ListStatus
  import opened SegmentRequeue
  import opened Sequences
  import opened Timeline
  import opened TimelineEntries
  import opened TimelineText
  import opened Triggers
  import opened Wrappers

  datatype StoredRow = StoredRow(email: string, operation: string, kind: string, entityID: Option<string>, changes: Option<map<string, Json>>, createdAt: int)

  function OperationText(o: Operation): string { match o case Insert => "insert" case Update => "update" case Delete => "delete" }

  /** An entry as stored. */
  function Stored(e: Entry): StoredRow { StoredRow(e.email, OperationText(e.operation), KindText(e.kind), e.entityID, Rendered(e.changes), e.at) }

  /** Which entries a law is about: all but those of enrolments, and maybe not those of lists. */
  predicate Selected(e: Entry, lists: bool) { !e.kind.AutomationStarted? && (lists || !e.kind.ListKind?) }

  function Rows(s: seq<Entry>, lists: bool): seq<StoredRow>
    decreases |s|
  {
    if s == [] then []
    else
      var n := |s| - 1;
      Rows(s[..n], lists) + if Selected(s[n], lists) then [Stored(s[n])] else []
  }

  lemma RowsOneMore(s: seq<Entry>, e: Entry, lists: bool)
    ensures Rows(s + [e], lists) == Rows(s, lists) + if Selected(e, lists) then [Stored(e)] else []
  {
    assert (s + [e])[..|s|] == s;
  }

  /** From `t` to `u` the timeline has gained these rows, besides those of enrolments. */
  ghost predicate Gains(t: Tables, u: Tables, rows: seq<StoredRow>) { Rows(u.timeline, true) == Rows(t.timeline, true) + rows }

  /** The same, leaving rows about lists aside. */
  ghost predicate GainsBesidesLists(t: Tables, u: Tables, rows: seq<StoredRow>) { Rows(u.timeline, false) == Rows(t.timeline, false) + rows }

  // ---------- what pending writes append ----------

  /** Entries, status writes and enrolments: what triggers issue. */
  predicate Issues(w: Write, lists: bool) { w.Append? || w.Enroll? || w.Enqueue? || (w.SetStatus? && !lists) }

  predicate AllIssues(ws: seq<Write>, lists: bool) { forall i | 0 <= i < |ws| :: Issues(ws[i], lists) }

  function Appended(w: Write, lists: bool): seq<StoredRow> { if w.Append? && Selected(w.entry, lists) then [Stored(w.entry)] else [] }

  function AllAppended(ws: seq<Write>, lists: bool): seq<StoredRow> { if ws == [] then [] else Appended(ws[0], lists) + AllAppended(ws[1..], lists) }

  lemma {:induction false} EnrolmentsAddNoRow(t: Tables, triggers: seq<Automation>, entry: Entry, now: int, lists: bool)
    ensures Rows(Settled(t, Enrolments(triggers, entry), now).timeline, lists) == Rows(t.timeline, lists)
    decreases |triggers|
  {
    if triggers != [] {
      var n := |triggers| - 1;
      var before := Enrolments(triggers[..n], entry);
      EnrolmentsAddNoRow(t, triggers[..n], entry, now, lists);
      SettledJoin(t, before, [Enroll(triggers[n], entry.email)], now);
      EnrollAddsNoRow(Settled(t, before, now), triggers[n], entry.email, now, lists);
    }
  }

  lemma EnrollAddsNoRow(t: Tables, a: Automation, email: string, now: int, lists: bool)
    ensures Rows(Settled(t, [Enroll(a, email)], now).timeline, lists) == Rows(t.timeline, lists)
  {
    SettledEnroll(t, a, email, now);
    if Reaches(t, a, email) && Enrols(t, a, email, now) {
      RowsOneMore(t.timeline, StartEntry(a, email, t.registry.owners[email].customer, now), lists);
    }
  }

  lemma AppendAddsRow(t: Tables, entry: Entry, now: int, lists: bool)
    ensures Rows(Settled(t, [Append(entry)], now).timeline, lists) == Rows(t.timeline, lists) + Appended(Append(entry), lists)
  {
    var t1 := t.(timeline := t.timeline + [entry]);
    SettledAppend(t, entry, now);
    RowsOneMore(t.timeline, entry, lists);
    EnrolmentsAddNoRow(t1, t.registry.triggers, entry, now, lists);
    SettledRequeue(Settled(t1, Enrolments(t.registry.triggers, entry), now), entry, now);
  }

  lemma SetStatusAddsListRow(t: Tables, w: Write, now: int)
    requires w.SetStatus?
    ensures Rows(Settled(t, [w], now).timeline, false) == Rows(t.timeline, false)
  {
    SettledOne(t, w, now);
    if Applies(t, w) {
      var entries := Fired(t, w, now);
      if entries != [] {
        assert entries == [Append(entries[0].entry)];
        AppendAddsRow(Executed(t, w, now), entries[0].entry, now, false);
      }
    }
  }

  lemma IssuedAddsRow(t: Tables, w: Write, now: int, lists: bool)
    requires Issues(w, lists)
    ensures Rows(Settled(t, [w], now).timeline, lists) == Rows(t.timeline, lists) + Appended(w, lists)
  {
    if w.Append? { AppendAddsRow(t, w.entry, now, lists); }
    else if w.Enroll? { EnrollAddsNoRow(t, w.automation, w.email, now, lists); }
    else if w.Enqueue? { SettledOne(t, w, now); }
    else { SetStatusAddsListRow(t, w, now); }
  }

  lemma IssuedTail(ws: seq<Write>, lists: bool)
    requires ws != [] && AllIssues(ws, lists)
    ensures Issues(ws[0], lists) && AllIssues(ws[1..], lists) && ws == [ws[0]] + ws[1..]
  {}

  /** A list of them adds their entries, in order. */
  lemma {:induction false} IssuedAddRows(t: Tables, pending: seq<Write>, now: int, lists: bool)
    requires AllIssues(pending, lists)
    ensures Rows(Settled(t, pending, now).timeline, lists) == Rows(t.timeline, lists) + AllAppended(pending, lists)
    decreases |pending|
  {
    if pending != [] {
      var w, rest := pending[0], pending[1..];
      IssuedTail(pending, lists);
      SettledJoin(t, [w], rest, now);
      IssuedAddsRow(t, w, now, lists);
      IssuedAddRows(Settled(t, [w], now), rest, now, lists);
      Reassociated(Rows(t.timeline, lists), Appended(w, lists), AllAppended(rest, lists));
    }
  }

  lemma {:induction false} AllAppendedJoin(a: seq<Write>, b: seq<Write>, lists: bool)
    ensures AllAppended(a + b, lists) == AllAppended(a, lists) + AllAppended(b, lists)
  {
    if a == [] {
      assert a + b == b;
    } else {
      assert (a + b)[1..] == a[1..] + b;
      AllAppendedJoin(a[1..], b, lists);
    }
  }

  lemma OneAppended(w: Write, lists: bool)
    ensures AllAppended([w], lists) == Appended(w, lists)
  {
    assert [w][1..] == [];
  }

  /** The tables with triggers on them are alike: `u` differs in timeline, queue and journeys at most. */
  predicate SameRows(t: Tables, u: Tables) {
    u.contacts == t.contacts && u.memberships == t.memberships && u.messages == t.messages && u.events == t.events && u.segments == t.segments
  }

  lemma {:induction false} EnrolmentsKeepRows(t: Tables, triggers: seq<Automation>, entry: Entry, now: int)
    ensures SameRows(t, Settled(t, Enrolments(triggers, entry), now))
    decreases |triggers|
  {
    if triggers != [] {
      var n := |triggers| - 1;
      var before := Enrolments(triggers[..n], entry);
      EnrolmentsKeepRows(t, triggers[..n], entry, now);
      SettledJoin(t, before, [Enroll(triggers[n], entry.email)], now);
      EnrollKeepsRows(Settled(t, before, now), triggers[n], entry.email, now);
    }
  }

  lemma EnrollKeepsRows(t: Tables, a: Automation, email: string, now: int)
    ensures SameRows(t, Settled(t, [Enroll(a, email)], now))
  {
    SettledEnroll(t, a, email, now);
  }

  lemma AppendKeepsRows(t: Tables, entry: Entry, now: int)
    ensures SameRows(t, Settled(t, [Append(entry)], now))
  {
    var t1 := t.(timeline := t.timeline + [entry]);
    SettledAppend(t, entry, now);
    EnrolmentsKeepRows(t1, t.registry.triggers, entry, now);
    SettledRequeue(Settled(t1, Enrolments(t.registry.triggers, entry), now), entry, now);
  }

  /** The email is on the queue, with this time. */
  predicate QueuedAt(u: Tables, email: string, now: int) { email in u.queue && u.queue[email] == now }

  /** A write whose triggers append one entry. */
  lemma OneEntry(t: Tables, w: Write, entry: Entry, now: int)
    requires Applies(t, w) && !w.Append? && Fired(t, w, now) == [Append(entry)] && !entry.kind.AutomationStarted?
    ensures var u := Settled(t, [w], now);
            && Gains(t, u, [Stored(entry)]) && (!entry.kind.ListKind? ==> GainsBesidesLists(t, u, [Stored(entry)]))
            && (!SegmentKind(entry.kind) ==> QueuedAt(u, entry.email, now))
            && SameRows(Executed(t, w, now), u)
  {
    var v := Executed(t, w, now);
    AppendKeepsRows(v, entry, now);
    SettledOne(t, w, now);
    ExecutedTimeline(t, w, now);
    AppendAddsRow(v, entry, now, true);
    AppendAddsRow(v, entry, now, false);
    SettledAppend(v, entry, now);
    SettledRequeue(Settled(v.(timeline := v.timeline + [entry]), Enrolments(v.registry.triggers, entry), now), entry, now);
  }

  /** A write whose triggers append none. */
  lemma NoEntry(t: Tables, w: Write, now: int)
    requires Applies(t, w) && !w.Append? && Fired(t, w, now) == []
    ensures Settled(t, [w], now) == Executed(t, w, now) && Executed(t, w, now).timeline == t.timeline
  {
    SettledOne(t, w, now);
    ExecutedTimeline(t, w, now);
  }

  /** A cell as JSON; SQL NULL reads as null. */
  function Cell<K(==,!new)>(r: ChangeLog.Row<K>, k: K): Json { if k in r then r[k] else Null }

  /** Two cells differ; SQL NULL differs from every value, JSON null included. */
  predicate Differs<K(==,!new)>(o: ChangeLog.Row<K>, n: ChangeLog.Row<K>, k: K) { (k in o) != (k in n) || (k in o && o[k] != n[k]) }

  /** `changes` holds what `head` does, and the values of `m` under the names of their columns, and nothing more. */
  ghost predicate Tells<K(!new)>(changes: map<string, Json>, head: map<string, Json>, m: map<K, Json>, name: K -> string) {
    && (forall s | s in head :: s in changes && changes[s] == head[s])
    && (forall k: K :: if k in m then name(k) in changes && changes[name(k)] == m[k] else name(k) !in changes)
    && forall s | s in changes :: s in head || exists k :: k in m && s == name(k)
  }

  lemma RenamedTells<K(!new)>(head: map<string, Json>, m: map<K, Json>, name: K -> string)
    requires (forall a, b | name(a) == name(b) :: a == b) && forall k: K :: name(k) !in head
    ensures Tells(head + Renamed(m, name), head, m, name)
  {
    var changes := head + Renamed(m, name);
    forall k: K ensures if k in m then name(k) in changes && changes[name(k)] == m[k] else name(k) !in changes { RenamedAt(m, name, k); }
  }

  /** The names of the columns. */
  lemma ColumnNames()
    ensures [InfoName(DeliveredAt), InfoName(FailedAt), InfoName(StatusInfo)] == ["delivered_at", "failed_at", "status_info"]
    ensures [DetailName(BounceType), DetailName(BounceCategory), DetailName(BounceDiagnostic), DetailName(ComplaintFeedback)]
            == ["bounce_type", "bounce_category", "bounce_diagnostic", "complaint_feedback_type"]
    ensures [GoalColumn(GoalType), GoalColumn(GoalValue), GoalColumn(GoalName)] == ["goal_type", "goal_value", "goal_name"]
  {}

  // ---------- contacts ----------

  lemma ContactInserted(t: Tables, email: string, n: Contact, now: int)
    requires email !in t.contacts
    ensures var u := Settled(t, [InsertContact(email, n)], now);
            && SameRows(t.(contacts := t.contacts[email := n]), u)
            && Gains(t, u, [StoredRow(email, "insert", "contact.created", None, None, n.createdAt)]) && QueuedAt(u, email, now)
  {
    OneEntry(t, InsertContact(email, n), Entry(email, Insert, ContactCreated, None, Nothing, n.createdAt), now);
  }

  /** `changes` holds the old and new value of exactly the columns that differ, under their names. */
  ghost predicate TellsColumns(changes: map<string, Json>, o: ChangeLog.Row<ContactColumn>, n: ChangeLog.Row<ContactColumn>) {
    forall c: ContactColumn ::
      if Differs(o, n, c)
      then ColumnText(c) in changes && changes[ColumnText(c)] == Object(map["old" := Cell(o, c), "new" := Cell(n, c)])
      else ColumnText(c) !in changes
  }

  lemma DiffTold(o: ChangeLog.Row<ContactColumn>, n: ChangeLog.Row<ContactColumn>)
    ensures TellsColumns(Encoded(Named(Diff(o, n))).fields, o, n)
  {
    var changes := Encoded(Named(Diff(o, n))).fields;
    forall c: ContactColumn
      ensures ColumnText(c) in changes <==> Differs(o, n, c)
      ensures ColumnText(c) in changes ==> changes[ColumnText(c)] == Object(map["old" := Cell(o, c), "new" := Cell(n, c)])
    {
      NamesDiffer();
      RenamedAt(Diff(o, n), ColumnText, c);
    }
  }

  lemma LoggedUpdate(t: Tables, email: string, n: Contact, d: Changes<ContactColumn>, now: int)
    requires email in t.contacts && d == Diff(t.contacts[email].columns, n.columns) && d != map[]
    ensures var u := Settled(t, [UpdateContact(email, n)], now);
            && SameRows(t.(contacts := t.contacts[email := n]), u)
            && Gains(t, u, [StoredRow(email, "update", "contact.updated", None, Some(Encoded(Named(d)).fields), n.updatedAt)])
            && QueuedAt(u, email, now)
  {
    var entry := Entry(email, Update, TimelineEntries.ContactUpdated, None, Contacted(d), n.updatedAt);
    OneEntry(t, UpdateContact(email, n), entry, now);
  }

  /**
   A contact update in which some column changed, whichever it is, adds one row with the old and new values of
   all that changed and queues the contact; one in which none did adds nothing and queues nobody.
   */
  lemma ContactUpdated(t: Tables, email: string, n: Contact, now: int) returns (changes: map<string, Json>)
    requires email in t.contacts
    ensures TellsColumns(changes, t.contacts[email].columns, n.columns)
    ensures var o, u := t.contacts[email], Settled(t, [UpdateContact(email, n)], now);
            if o.columns == n.columns then u == t.(contacts := t.contacts[email := n])
            else
              && SameRows(t.(contacts := t.contacts[email := n]), u)
              && Gains(t, u, [StoredRow(email, "update", "contact.updated", None, Some(changes), n.updatedAt)]) && QueuedAt(u, email, now)
  {
    var o := t.contacts[email];
    var d := Diff(o.columns, n.columns);
    changes := Encoded(Named(d)).fields;
    DiffTold(o.columns, n.columns);
    DiffEmptyIffEqual(o.columns, n.columns);
    if d == map[] { NoEntry(t, UpdateContact(email, n), now); } else { LoggedUpdate(t, email, n, d, now); }
  }

  // ---------- list memberships ----------

  function StatusName(s: Status): string { StatusText(s).text }

  /** The kind of a new membership, by its status. */
  function NewMembershipKind(status: string): string {
    if status == "pending" then "list.pending"
    else if status == "unsubscribed" then "list.unsubscribed"
    else if status == "bounced" then "list.bounced"
    else if status == "complained" then "list.complained"
    else "list.subscribed"
  }

  /** The kind of a status change, by both statuses. */
  function StatusChangeKind(before: string, after: string): string {
    if after == "active" then
      if before == "pending" then "list.confirmed"
      else if before == "unsubscribed" || before == "bounced" || before == "complained" then "list.resubscribed"
      else "list.subscribed"
    else if after == "pending" then "list.pending"
    else if after == "unsubscribed" then "list.unsubscribed"
    else if after == "bounced" then "list.bounced"
    else if after == "complained" then "list.complained"
    else "list.status_changed"
  }

  lemma MembershipInserted(t: Tables, email: string, list: string, n: Membership, now: int)
    requires (email, list) !in t.memberships
    ensures var u := Settled(t, [InsertMembership(email, list, n)], now);
            && SameRows(t.(memberships := t.memberships[(email, list) := n]), u)
            && Gains(t, u, [StoredRow(email, "insert", NewMembershipKind(StatusName(n.status)), Some(list),
                                      Some(map["list_id" := New(Text(list)), "status" := New(Text(StatusName(n.status)))]), now)])
            && QueuedAt(u, email, now)
  {
    var entry := Entry(email, Insert, ListKind(InitialChange(n.status)), Some(list), Enlisted(list, n.status), now);
    OneEntry(t, InsertMembership(email, list, n), entry, now);
    InitialKind(n.status);
  }

  lemma NameTells(s: Status)
    ensures StatusName(s) == "active" <==> s.Active?
    ensures StatusName(s) == "pending" <==> s.Pending?
    ensures StatusName(s) == "unsubscribed" <==> s.Unsubscribed?
    ensures StatusName(s) == "bounced" <==> s.Bounced?
    ensures StatusName(s) == "complained" <==> s.Complained?
  {
    assert "active"[0] == 'a' && "pending"[0] == 'p' && "unsubscribed"[0] == 'u' && "bounced"[0] == 'b' && "complained"[0] == 'c';
  }

  lemma InitialKind(s: Status)
    ensures KindText(ListKind(InitialChange(s))) == NewMembershipKind(StatusName(s))
  {
    NameTells(s);
  }

  lemma ChangeKind(o: Status, n: Status)
    ensures KindText(ListKind(Transition(o, n))) == StatusChangeKind(StatusName(o), StatusName(n))
  {
    NameTells(o);
    NameTells(n);
  }

  /** Setting the deletion time is told first, else a change of status, else nothing. */
  function MembershipRows(email: string, list: string, o: Membership, n: Membership, now: int): seq<StoredRow> {
    if n.deletedAt.Some? && o.deletedAt != n.deletedAt then
      [StoredRow(email, "update", "list.removed", Some(list), Some(map["deleted_at" := OldNew(StampOf(o.deletedAt), StampOf(n.deletedAt))]), now)]
    else if o.status != n.status then
      [StoredRow(email, "update", StatusChangeKind(StatusName(o.status), StatusName(n.status)), Some(list),
                 Some(map["status" := OldNew(Text(StatusName(o.status)), Text(StatusName(n.status)))]), now)]
    else []
  }

  lemma MembershipRowsAreEntries(email: string, list: string, o: Membership, n: Membership, now: int)
    ensures var rows, entries := MembershipRows(email, list, o, n, now), MembershipEntries(email, list, Some(o), n, now);
            if rows == [] then entries == []
            else entries == [Append(entries[0].entry)] && rows == [Stored(entries[0].entry)]
                 && entries[0].entry.kind.ListKind? && entries[0].entry.email == email
  {
    ChangeKind(o.status, n.status);
    assert StatusText(o.status) == Text(StatusName(o.status)) && StatusText(n.status) == Text(StatusName(n.status));
  }

  lemma MembershipUpdated(t: Tables, email: string, list: string, n: Membership, now: int)
    requires (email, list) in t.memberships
    ensures var rows, u := MembershipRows(email, list, t.memberships[(email, list)], n, now), Settled(t, [UpdateMembership(email, list, n)], now);
            && SameRows(t.(memberships := t.memberships[(email, list) := n]), u)
            && Gains(t, u, rows) && (if rows == [] then u.queue == t.queue else QueuedAt(u, email, now))
  {
    var o, w := t.memberships[(email, list)], UpdateMembership(email, list, n);
    MembershipRowsAreEntries(email, list, o, n, now);
    if MembershipRows(email, list, o, n, now) == [] {
      NoEntry(t, w, now);
    } else {
      OneEntry(t, w, MembershipEntries(email, list, Some(o), n, now)[0].entry, now);
    }
  }

  // ---------- messages ----------

  lemma MessageInserted(t: Tables, id: string, n: Message, now: int)
    requires id !in t.messages
    ensures var u := Settled(t, [InsertMessage(id, n)], now);
            && SameRows(t.(messages := t.messages[id := n]), u)
            && Gains(t, u, [StoredRow(n.email, "insert", n.channel + ".sent", Some(id),
                                      Some(map["template_id" := New(Text(n.template)), "template_version" := New(Number(n.templateVersion as real)),
                                               "channel" := New(Text(n.channel)), "broadcast_id" := New(TextOf(n.broadcast)),
                                               "sent_at" := New(Stamp(n.sentAt))]), n.updatedAt)])
            && QueuedAt(u, n.email, now)
  {
    var entry := SentEntry(id, n);
    OneEntry(t, InsertMessage(id, n), entry, now);
  }

  /** The row for one time stamp, when it is set or moved. */
  function StampRow(id: string, n: Message, before: Option<int>, after: Option<int>, column: string, part: string): seq<StoredRow> {
    if after.Some? && before != after then
      [StoredRow(n.email, "update", n.channel + "." + part, Some(id), Some(map[column := OldNew(StampOf(before), StampOf(after))]), n.updatedAt)]
    else []
  }

  function At(m: Message, mark: Mark): Option<int> { if mark in m.marks then Some(m.marks[mark]) else None }

  /** The old and new values of what differs. */
  function Differing<K(==,!new)>(o: ChangeLog.Row<K>, n: ChangeLog.Row<K>): map<K, Json> {
    map k | k in o.Keys + n.Keys && Differs(o, n, k) :: Object(map["old" := Cell(o, k), "new" := Cell(n, k)])
  }

  /** One document for the other columns, with exactly those that differ. */
  ghost predicate TellsInfo(changes: map<string, Json>, o: Message, n: Message) {
    Tells(changes, map[], Differing(o.info, n.info), InfoName)
  }

  function MessageRows(id: string, o: Message, n: Message, changes: map<string, Json>): seq<StoredRow> {
    StampRow(id, n, At(o, Opened), At(n, Opened), "opened_at", "opened")
    + StampRow(id, n, At(o, Clicked), At(n, Clicked), "clicked_at", "clicked")
    + StampRow(id, n, At(o, Bounce), At(n, Bounce), "bounced_at", "bounced")
    + StampRow(id, n, At(o, Complaint), At(n, Complaint), "complained_at", "complained")
    + StampRow(id, n, At(o, Unsubscribe), At(n, Unsubscribe), "unsubscribed_at", "unsubscribed")
    + (if changes == map[] then [] else [StoredRow(n.email, "update", n.channel + ".updated", Some(id), Some(changes), n.updatedAt)])
  }

  lemma MarkRow(id: string, o: Message, n: Message, mark: Mark, column: string, part: string)
    requires (mark, column, part) in {(Opened, "opened_at", "opened"), (Clicked, "clicked_at", "clicked"), (Bounce, "bounced_at", "bounced"),
                                      (Complaint, "complained_at", "complained"), (Unsubscribe, "unsubscribed_at", "unsubscribed")}
    ensures AllAppended(MarkEntries(id, o, n, mark), false) == StampRow(id, n, At(o, mark), At(n, mark), column, part)
  {
    var ws := MarkEntries(id, o, n, mark);
    if ws != [] {
      assert ws == [Append(ws[0].entry)];
      OneAppended(ws[0], false);
    }
  }

  lemma InfoRow(id: string, o: Message, n: Message)
    ensures var d := Diff(o.info, n.info);
            AllAppended(InfoEntries(id, o, n), false)
            == if d == map[] then []
               else [StoredRow(n.email, "update", n.channel + ".updated", Some(id), Some(RenderedInfo(d)), n.updatedAt)]
  {
    var ws := InfoEntries(id, o, n);
    if ws != [] {
      assert ws == [Append(ws[0].entry)];
      OneAppended(ws[0], false);
    }
  }

  lemma EmptyHead<K, V>(m: map<K, V>)
    ensures map[] + m == m
  {}

  lemma InfoTells(o: Message, n: Message)
    ensures TellsInfo(RenderedInfo(Diff(o.info, n.info)), o, n)
    ensures RenderedInfo(Diff(o.info, n.info)) == map[] <==> Diff(o.info, n.info) == map[]
  {
    var d, m := Diff(o.info, n.info), Differing(o.info, n.info);
    SameDifferences(o.info, n.info);
    InfoNamesDiffer();
    RenamedTells(map[], m, InfoName);
    EmptyHead(Renamed(m, InfoName));
    RenamedEmpty(m, InfoName);
  }

  lemma SameDifferences<K(!new)>(o: ChangeLog.Row<K>, n: ChangeLog.Row<K>)
    ensures var d := Diff(o, n);
            OldNews(d) == Differing(o, n) && (d == map[] <==> Differing(o, n) == map[])
  {
    var d := Diff(o, n);
    assert d.Keys == Differing(o, n).Keys;
  }

  lemma RenamedEmpty<K(!new)>(m: map<K, Json>, name: K -> string)
    requires forall a, b | name(a) == name(b) :: a == b
    ensures Renamed(m, name) == map[] <==> m == map[]
  {
    if m != map[] {
      var k :| k in m;
      assert name(k) in Renamed(m, name);
    }
  }

  lemma MessageEntriesAreIssued(id: string, o: Message, n: Message)
    ensures AllIssues(MessageEntries(id, o, n), false)
  {
    MessageEntriesAreRoutine(id, o, n);
  }

  lemma MessageEntriesRows(id: string, o: Message, n: Message) returns (changes: map<string, Json>)
    ensures TellsInfo(changes, o, n) && AllAppended(MessageEntries(id, o, n), false) == MessageRows(id, o, n, changes)
  {
    var a, b, c := MarkEntries(id, o, n, Opened), MarkEntries(id, o, n, Clicked), MarkEntries(id, o, n, Bounce);
    var d, e, f := MarkEntries(id, o, n, Complaint), MarkEntries(id, o, n, Unsubscribe), InfoEntries(id, o, n);
    MarkRow(id, o, n, Opened, "opened_at", "opened");
    MarkRow(id, o, n, Clicked, "clicked_at", "clicked");
    MarkRow(id, o, n, Bounce, "bounced_at", "bounced");
    MarkRow(id, o, n, Complaint, "complained_at", "complained");
    MarkRow(id, o, n, Unsubscribe, "unsubscribed_at", "unsubscribed");
    InfoRow(id, o, n);
    InfoTells(o, n);
    changes := RenderedInfo(Diff(o.info, n.info));
    AllAppendedJoin(a, b, false); AllAppendedJoin(a + b, c, false); AllAppendedJoin(a + b + c, d, false);
    AllAppendedJoin(a + b + c + d, e, false); AllAppendedJoin(a + b + c + d + e, f, false);
  }

  lemma {:induction false} StatementsAddNoRow(t: Tables, ws: seq<Write>, now: int)
    requires |ws| <= 1 && forall i | 0 <= i < |ws| :: ws[i].SetStatus?
    ensures Rows(Settled(t, ws, now).timeline, false) == Rows(t.timeline, false)
  {
    if ws != [] {
      assert ws == [ws[0]];
      SetStatusAddsListRow(t, ws[0], now);
    }
  }

  lemma MessageUpdateAdds(t: Tables, id: string, n: Message, now: int)
    requires id in t.messages
    ensures GainsBesidesLists(t, Settled(t, [UpdateMessage(id, n)], now), AllAppended(MessageEntries(id, t.messages[id], n), false))
  {
    var o := t.messages[id];
    var v := t.(messages := t.messages[id := n]);
    UpdateMessageSettles(t, id, n, now);
    MessageEntriesAreIssued(id, o, n);
    IssuedAddRows(v, MessageEntries(id, o, n), now, false);
    var v1 := Settled(v, MessageEntries(id, o, n), now);
    StatementsAddNoRow(v1, ComplaintStatement(o, n), now);
    StatementsAddNoRow(Settled(v1, ComplaintStatement(o, n), now), BounceStatement(o, n), now);
  }

  /** A message update adds, besides rows about lists, one row for each mark set or moved, in order, then one for the rest. */
  lemma MessageUpdated(t: Tables, id: string, n: Message, now: int) returns (changes: map<string, Json>)
    requires id in t.messages
    ensures TellsInfo(changes, t.messages[id], n)
    ensures var u := Settled(t, [UpdateMessage(id, n)], now);
            u.messages == t.messages[id := n] && GainsBesidesLists(t, u, MessageRows(id, t.messages[id], n, changes))
  {
    UpdateMessageMessages(t, UpdateMessage(id, n), now);
    MessageUpdateAdds(t, id, n, now);
    changes := MessageEntriesRows(id, t.messages[id], n);
  }

  lemma {:induction false} AppendsKeepRows(t: Tables, pending: seq<Write>, now: int)
    requires forall i | 0 <= i < |pending| :: pending[i].Append?
    ensures SameRows(t, Settled(t, pending, now))
    decreases |pending|
  {
    if pending != [] {
      var w, rest := pending[0], pending[1..];
      assert pending == [w] + rest;
      SettledJoin(t, [w], rest, now);
      AppendKeepsRows(t, w.entry, now);
      AppendsKeepRows(Settled(t, [w], now), rest, now);
    }
  }

  /** A status statement writes the membership it finds, unless its status is spared. */
  lemma StatusSet(t: Tables, w: Write, now: int)
    requires w.SetStatus?
    ensures var k := (w.email, w.list);
            Settled(t, [w], now).memberships
            == if k in t.memberships && t.memberships[k].status !in w.spared
               then t.memberships[k := t.memberships[k].(status := w.status, updatedAt := w.at)] else t.memberships
  {
    SettledOne(t, w, now);
    if Applies(t, w) { AppendsKeepRows(Executed(t, w, now), Fired(t, w, now), now); }
  }

  lemma StatementSets(t: Tables, o: Message, n: Message, mark: Mark, status: Status, spared: seq<Status>, now: int)
    ensures Settled(t, StatusStatement(o, n, mark, status, spared), now).memberships
            == if mark in n.marks && mark !in o.marks && n.list.Some? && (n.email, n.list.value) in t.memberships
                  && t.memberships[(n.email, n.list.value)].status !in spared
               then t.memberships[(n.email, n.list.value) :=
                      t.memberships[(n.email, n.list.value)].(status := status, updatedAt := n.marks[mark])]
               else t.memberships
  {
    var ws := StatusStatement(o, n, mark, status, spared);
    if ws != [] {
      assert ws == [ws[0]];
      StatusSet(t, ws[0], now);
    }
  }

  lemma MessageEntriesAppend(id: string, o: Message, n: Message)
    ensures forall i | 0 <= i < |MessageEntries(id, o, n)| :: MessageEntries(id, o, n)[i].Append?
  {}

  /** A membership after the marks of its message: complaints beat all else, bounces all but complaints; each leaves its time. */
  function Marked(m: Membership, o: Message, n: Message): Membership {
    var m1 := if Complaint in n.marks && Complaint !in o.marks && m.status != Complained
              then m.(status := Complained, updatedAt := n.marks[Complaint]) else m;
    if Bounce in n.marks && Bounce !in o.marks && m1.status != Complained && m1.status != Bounced
    then m1.(status := Bounced, updatedAt := n.marks[Bounce]) else m1
  }

  /** A message update changes no membership but that of its contact in its list, and that as its marks say. */
  lemma MembershipAfterMarks(t: Tables, id: string, n: Message, now: int)
    requires id in t.messages
    ensures var u := Settled(t, [UpdateMessage(id, n)], now);
            u.memberships
            == if n.list.Some? && (n.email, n.list.value) in t.memberships
               then t.memberships[(n.email, n.list.value) := Marked(t.memberships[(n.email, n.list.value)], t.messages[id], n)]
               else t.memberships
  {
    var o, v := t.messages[id], t.(messages := t.messages[id := n]);
    UpdateMessageSettles(t, id, n, now);
    MessageEntriesAppend(id, o, n);
    AppendsKeepRows(v, MessageEntries(id, o, n), now);
    var v1 := Settled(v, MessageEntries(id, o, n), now);
    StatementSets(v1, o, n, Complaint, Complained, [Complained], now);
    StatementSets(Settled(v1, ComplaintStatement(o, n), now), o, n, Bounce, Bounced, [Complained, Bounced], now);
  }

  /** What the inbound row tells: type, source, and those details that are not empty. */
  ghost predicate TellsInbound(changes: map<string, Json>, i: Inbound) {
    Tells(changes, map["type" := New(Text(i.kind)), "source" := New(Text(i.source))],
          map d | d in i.details && i.details[d] != "" :: New(Text(i.details[d])), DetailName)
  }

  lemma DetailNamesApart(d: Detail)
    ensures DetailName(d) != "type" && DetailName(d) != "source"
  {
    assert |DetailName(d)| > 6;
  }

  lemma InboundTold(i: Inbound)
    ensures TellsInbound(RenderedInbound(i.kind, i.source, Details(i)), i)
  {
    var details := Details(i);
    DetailNamesDiffer();
    forall d: Detail ensures DetailName(d) != "type" && DetailName(d) != "source" { DetailNamesApart(d); }
    var m := map d | d in i.details && i.details[d] != "" :: New(Text(i.details[d]));
    assert m == map k | k in details :: New(Text(details[k]));
    RenamedTells(map["type" := New(Text(i.kind)), "source" := New(Text(i.source))], m, DetailName);
  }

  lemma StoredInbound(i: Inbound, now: int)
    ensures var e := InboundEntry(i, now);
            Stored(e) == StoredRow(i.recipient, "insert",
                                   if i.kind == "reply" then "email.replied" else if i.kind == "auto_reply" then "email.auto_reply"
                                   else "insert_inbound_webhook_event",
                                   if i.messageID.Some? then i.messageID else Some(i.id), Rendered(e.changes), now)
  {}

  lemma RenderedInboundEntry(i: Inbound, now: int)
    ensures Rendered(InboundEntry(i, now).changes) == Some(RenderedInbound(i.kind, i.source, Details(i)))
  {
    var details := Details(i);
    assert InboundEntry(i, now).changes == Received(i.kind, i.source, details);
    RenderedReceived(i.kind, i.source, details);
  }

  lemma RenderedReceived(kind: string, source: string, details: map<Detail, string>)
    ensures Rendered(Received(kind, source, details)) == Some(RenderedInbound(kind, source, details))
  {}

  /** An inbound event adds a row of the reply, auto-reply or general kind, on its message or else on itself, and queues the recipient. */
  lemma InboundInserted(t: Tables, i: Inbound, now: int) returns (changes: map<string, Json>)
    ensures TellsInbound(changes, i)
    ensures var u := Settled(t, [InsertInbound(i)], now);
            && SameRows(t, u)
            && Gains(t, u, [StoredRow(i.recipient, "insert",
                                      if i.kind == "reply" then "email.replied" else if i.kind == "auto_reply" then "email.auto_reply"
                                      else "insert_inbound_webhook_event",
                                      if i.messageID.Some? then i.messageID else Some(i.id), Some(changes), now)])
            && QueuedAt(u, i.recipient, now)
  {
    InboundTold(i);
    RenderedInboundEntry(i, now);
    StoredInbound(i, now);
    OneEntry(t, InsertInbound(i), InboundEntry(i, now), now);
    changes := Stored(InboundEntry(i, now)).changes.value;
  }

  /** A new row under a taken key, or an update that finds no row. */
  predicate Misses(t: Tables, w: Write) {
    match w
    case InsertContact(e, _) => e in t.contacts
    case UpdateContact(e, _) => e !in t.contacts
    case InsertMembership(e, l, _) => (e, l) in t.memberships
    case UpdateMembership(e, l, _) => (e, l) !in t.memberships
    case InsertMessage(id, _) => id in t.messages
    case UpdateMessage(id, _) => id !in t.messages
    case InsertEvent(n, x, _) => (n, x) in t.events
    case UpdateEvent(n, x, _) => (n, x) !in t.events
    case _ => false
  }

  lemma MissesChangeNothing(t: Tables, w: Write, now: int)
    requires Misses(t, w)
    ensures Settled(t, [w], now) == t
  {
    SettledOne(t, w, now);
  }

  // ---------- segments ----------

  function JoinedRow(email: string, segment: string, version: int, now: int): StoredRow {
    StoredRow(email, "insert", "segment.joined", Some(segment),
              Some(map["segment_id" := New(Text(segment)), "version" := New(Number(version as real)), "matched_at" := New(Stamp(now))]), now)
  }

  function LeftRow(email: string, segment: string, version: int, now: int): StoredRow {
    StoredRow(email, "delete", "segment.left", Some(segment),
              Some(map["segment_id" := Old(Text(segment)), "version" := Old(Number(version as real))]), now)
  }

  lemma StoredSegmentRows(email: string, segment: string, version: int, now: int)
    ensures Stored(JoinedEntry(email, segment, version, now)) == JoinedRow(email, segment, version, now)
    ensures Stored(LeftEntry(email, segment, version, now)) == LeftRow(email, segment, version, now)
  {}

  /** Joining is told once, when the row is new; refreshing it is not told. */
  lemma SegmentJoinedRow(t: Tables, email: string, segment: string, version: int, now: int)
    ensures var u := Settled(t, [JoinSegment(email, segment, version)], now);
            && (email, segment) in u.segments && u.segments[(email, segment)] == version
            && Gains(t, u, if (email, segment) in t.segments then [] else [JoinedRow(email, segment, version, now)])
  {
    var w := JoinSegment(email, segment, version);
    SegmentWriteSegments(t, w, now);
    StoredSegmentRows(email, segment, version, now);
    if (email, segment) in t.segments { NoEntry(t, w, now); } else { OneEntry(t, w, JoinedEntry(email, segment, version, now), now); }
  }

  lemma SegmentLeftRow(t: Tables, email: string, segment: string, now: int)
    ensures var u := Settled(t, [LeaveSegment(email, segment)], now);
            && (email, segment) !in u.segments
            && Gains(t, u, if (email, segment) !in t.segments then []
                           else [LeftRow(email, segment, t.segments[(email, segment)], now)])
  {
    var w := LeaveSegment(email, segment);
    SegmentWriteSegments(t, w, now);
    if (email, segment) in t.segments {
      StoredSegmentRows(email, segment, t.segments[(email, segment)], now);
      OneEntry(t, w, LeftEntry(email, segment, t.segments[(email, segment)], now), now);
    } else {
      SettledOne(t, w, now);
    }
  }

  lemma SegmentWriteSegments(t: Tables, w: Write, now: int)
    requires SegmentWrite(w)
    ensures Settled(t, [w], now).segments == SegmentsAfter(t, w)
  {
    SegmentWriteQueuesIff(t, w, now);
  }

  // ---------- custom events ----------

  /** What the row of a new event tells: name, external id, and the goal columns that are set. */
  ghost predicate TellsNewEvent(changes: map<string, Json>, name: string, externalID: string, goals: ChangeLog.Row<Goal>) {
    Tells(changes, map["event_name" := New(Text(name)), "external_id" := New(Text(externalID))],
          map g | g in goals :: New(goals[g]), GoalColumn)
  }

  lemma GoalNamesApart(g: Goal)
    ensures GoalColumn(g) != "event_name" && GoalColumn(g) != "external_id"
    ensures GoalColumn(g) != "properties" && GoalColumn(g) != "occurred_at"
  {
    assert GoalColumn(g)[0] == 'g';
    assert "event_name"[0] == 'e' && "external_id"[0] == 'e' && "properties"[0] == 'p' && "occurred_at"[0] == 'o';
  }

  lemma NewEventTold(name: string, externalID: string, goals: ChangeLog.Row<Goal>)
    ensures TellsNewEvent(RenderedNewEvent(name, externalID, goals), name, externalID, goals)
  {
    GoalNamesDiffer();
    forall g: Goal ensures GoalColumn(g) != "event_name" && GoalColumn(g) != "external_id" { GoalNamesApart(g); }
    RenamedTells(map["event_name" := New(Text(name)), "external_id" := New(Text(externalID))],
                 map g | g in goals :: New(goals[g]), GoalColumn);
  }

  lemma StoredNewEvent(name: string, externalID: string, n: Event)
    ensures Stored(EventInserted(name, externalID, n))
            == StoredRow(n.email, "insert", "custom_event." + name, Some(externalID), Some(RenderedNewEvent(name, externalID, n.goals)), n.occurredAt)
  {}

  lemma EventInsertedRow(t: Tables, name: string, externalID: string, n: Event, now: int) returns (changes: map<string, Json>)
    requires (name, externalID) !in t.events
    ensures TellsNewEvent(changes, name, externalID, n.goals)
    ensures var u := Settled(t, [InsertEvent(name, externalID, n)], now);
            && SameRows(t.(events := t.events[(name, externalID) := n]), u)
            && Gains(t, u, [StoredRow(n.email, "insert", "custom_event." + name, Some(externalID), Some(changes), n.occurredAt)])
            && QueuedAt(u, n.email, now)
  {
    NewEventTold(name, externalID, n.goals);
    StoredNewEvent(name, externalID, n);
    OneEntry(t, InsertEvent(name, externalID, n), EventInserted(name, externalID, n), now);
    changes := Stored(EventInserted(name, externalID, n)).changes.value;
  }

  /** The document of an event update: the properties that differ, both times, and the goals that differ. */
  ghost predicate TellsEvent(changes: map<string, Json>, properties: map<string, Json>, o: Event, n: Event)
    requires o.properties.Object? && n.properties.Object?
  {
    && TellsProperties(properties, o.properties.fields, n.properties.fields)
    && Tells(changes, map["properties" := Object(properties), "occurred_at" := OldNew(Stamp(o.occurredAt), Stamp(n.occurredAt))],
             Differing(o.goals, n.goals), GoalColumn)
  }

  ghost predicate TellsProperties(properties: map<string, Json>, o: map<string, Json>, n: map<string, Json>) {
    forall k: string ::
      if Differs(o, n, k) then k in properties && properties[k] == Object(map["old" := Cell(o, k), "new" := Cell(n, k)]) else k !in properties
  }

  lemma PropertiesTold(o: map<string, Json>, n: map<string, Json>)
    ensures TellsProperties(Encoded(Diff(o, n)).fields, o, n)
  {}

  lemma GoalChangesTold(o: Event, n: Event, head: map<string, Json>)
    requires forall g: Goal :: GoalColumn(g) !in head
    ensures Tells(head + RenderedGoalChanges(Diff(o.goals, n.goals)), head, Differing(o.goals, n.goals), GoalColumn)
  {
    GoalNamesDiffer();
    SameDifferences(o.goals, n.goals);
    RenamedTells(head, OldNews(Diff(o.goals, n.goals)), GoalColumn);
  }

  lemma EventTold(o: Event, n: Event)
    requires o.properties.Object? && n.properties.Object?
    ensures var d := Diff(o.properties.fields, n.properties.fields);
            TellsEvent(RenderedEvent(d, o.occurredAt, n.occurredAt, Diff(o.goals, n.goals)), Encoded(d).fields, o, n)
  {
    var d := Diff(o.properties.fields, n.properties.fields);
    PropertiesTold(o.properties.fields, n.properties.fields);
    forall g: Goal ensures GoalColumn(g) != "properties" && GoalColumn(g) != "occurred_at" { GoalNamesApart(g); }
    GoalChangesTold(o, n, map["properties" := Encoded(d), "occurred_at" := OldNew(Stamp(o.occurredAt), Stamp(n.occurredAt))]);
  }

  lemma StoredEvent(name: string, externalID: string, o: Event, n: Event)
    requires o.properties.Object? && n.properties.Object?
    ensures var e := EventUpdated(name, externalID, o, n);
            && Stored(e) == StoredRow(n.email, "update", "custom_event." + name, Some(externalID), Rendered(e.changes), n.occurredAt)
            && Rendered(e.changes)
               == Some(RenderedEvent(Diff(o.properties.fields, n.properties.fields), o.occurredAt, n.occurredAt, Diff(o.goals, n.goals)))
  {}

  lemma EventLogged(t: Tables, name: string, externalID: string, n: Event, now: int)
    requires (name, externalID) in t.events && t.events[(name, externalID)].properties.Object? && n.properties.Object?
    ensures var o, u := t.events[(name, externalID)], Settled(t, [UpdateEvent(name, externalID, n)], now);
            && SameRows(t.(events := t.events[(name, externalID) := n]), u)
            && Gains(t, u, [Stored(EventUpdated(name, externalID, o, n))]) && QueuedAt(u, n.email, now)
  {
    OneEntry(t, UpdateEvent(name, externalID, n), EventUpdated(name, externalID, t.events[(name, externalID)], n), now);
  }

  /** An update with object properties on both sides adds one row; any other is refused and changes nothing. */
  lemma EventUpdatedRow(t: Tables, name: string, externalID: string, n: Event, now: int)
    returns (changes: map<string, Json>, properties: map<string, Json>)
    requires (name, externalID) in t.events
    ensures var o, u := t.events[(name, externalID)], Settled(t, [UpdateEvent(name, externalID, n)], now);
            if o.properties.Object? && n.properties.Object? then
              && SameRows(t.(events := t.events[(name, externalID) := n]), u)
              && TellsEvent(changes, properties, o, n)
              && Gains(t, u, [StoredRow(n.email, "update", "custom_event." + name, Some(externalID), Some(changes), n.occurredAt)])
              && QueuedAt(u, n.email, now)
            else u == t
  {
    var o := t.events[(name, externalID)];
    if o.properties.Object? && n.properties.Object? {
      var d := Diff(o.properties.fields, n.properties.fields);
      EventTold(o, n);
      StoredEvent(name, externalID, o, n);
      EventLogged(t, name, externalID, n, now);
      changes, properties := Stored(EventUpdated(name, externalID, o, n)).changes.value, Encoded(d).fields;
    } else {
      changes, properties := map[], map[];
      SettledOne(t, UpdateEvent(name, externalID, n), now);
    }
  }
}
