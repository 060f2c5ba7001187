/** How timeline entries read as stored: the dotted kind and the `changes` document. */
module TimelineText {
  import opened ChangeLog
  import opened JsonValues
  import opened TimelineEntries
  import opened Wrappers

  // ---------- kinds ----------

  function ListText(c: ListChange): string {
    match c
    case Joined => "list.subscribed"
    case JoinedPending => "list.pending"
    case LeftList => "list.unsubscribed"
    case BouncedOff => "list.bounced"
    case ComplainedOff => "list.complained"
    case Confirmed => "list.confirmed"
    case Rejoined => "list.resubscribed"
    case Removed => "list.removed"
    case Moved => "list.status_changed"
  }

  function MarkText(m: Mark): string {
    match m
    case Opened => "opened"
    case Clicked => "clicked"
    case Bounce => "bounced"
    case Complaint => "complained"
    case Unsubscribe => "unsubscribed"
  }

  function KindText(k: Kind): string {
    match k
    case ContactCreated => "contact.created"
    case ContactUpdated => "contact.updated"
    case ListKind(c) => ListText(c)
    case SentOn(channel) => channel + ".sent"
    case MarkedOn(channel, m) => channel + "." + MarkText(m)
    case UpdatedOn(channel) => channel + ".updated"
    case Replied => "email.replied"
    case AutoReplied => "email.auto_reply"
    case OtherInbound => "insert_inbound_webhook_event"
    case SegmentJoined => "segment.joined"
    case SegmentLeft => "segment.left"
    case CustomEvent(name) => "custom_event." + name
    case AutomationStarted => "automation.start"
    case Elsewhere(text) => text
  }

  /** Texts that agree up to their last dot and after it. */
  lemma LastPartEqual(a: string, b: string, c: string, d: string)
    requires a + "." + b == c + "." + d && '.' !in b && '.' !in d
    ensures b == d
  {
    var s := a + "." + b;
    assert s[|a|] == '.' && s[|c|] == '.';
    assert b == s[|a| + 1..] && d == s[|c| + 1..];
  }

  /** A channel's kind is no segment kind, whatever the channel is called. */
  lemma ChannelKindIsNoSegmentKind(channel: string, part: string)
    requires '.' !in part && part != "joined" && part != "left"
    ensures channel + "." + part != "segment.joined" && channel + "." + part != "segment.left"
  {
    if channel + "." + part == "segment.joined" {
      assert "segment.joined" == "segment" + "." + "joined";
      LastPartEqual(channel, part, "segment", "joined");
    }
    if channel + "." + part == "segment.left" {
      assert "segment.left" == "segment" + "." + "left";
      LastPartEqual(channel, part, "segment", "left");
    }
  }

  /** The two texts the queue trigger tests for are those of the two segment kinds and of no other. */
  lemma SegmentKindIffText(k: Kind)
    ensures SegmentKind(k) <==> KindText(k) == "segment.joined" || KindText(k) == "segment.left"
  {
    match k
    case SentOn(channel) =>
      ChannelKindIsNoSegmentKind(channel, "sent");
      assert channel + "." + "sent" == channel + ".sent";
    case MarkedOn(channel, m) =>
      ChannelKindIsNoSegmentKind(channel, MarkText(m));
    case UpdatedOn(channel) =>
      ChannelKindIsNoSegmentKind(channel, "updated");
      assert channel + "." + "updated" == channel + ".updated";
    case ListKind(c) => assert KindText(k)[0] == 'l';
    case CustomEvent(name) => assert KindText(k)[0] == 'c';
    case _ =>
  }

  // ---------- changes ----------

  function Stamp(t: int): Json { Number(t as real) }

  function StampOf(t: Option<int>): Json { if t.Some? then Stamp(t.value) else Null }

  function TextOf(s: Option<string>): Json { if s.Some? then Text(s.value) else Null }

  function StatusText(s: Status): Json {
    Text(match s
         case Active => "active" case Pending => "pending" case Unsubscribed => "unsubscribed"
         case Bounced => "bounced" case Complained => "complained" case OtherStatus(t) => t)
  }

  function DetailName(d: Detail): string {
    match d
    case BounceType => "bounce_type" case BounceCategory => "bounce_category"
    case BounceDiagnostic => "bounce_diagnostic" case ComplaintFeedback => "complaint_feedback_type"
  }

  function CustomText(content: CustomType): string {
    match content case OfString => "string" case OfNumber => "number" case OfDatetime => "datetime" case OfJson => "json"
  }

  function SlotText(slot: Slot): string { if slot == 1 then "1" else if slot == 2 then "2" else if slot == 3 then "3" else if slot == 4 then "4" else "5" }

  /** The name of a contact column. */
  function ColumnText(c: ContactColumn): string {
    match c
    case ExternalID => "external_id" case Timezone => "timezone" case Language => "language"
    case FirstName => "first_name" case LastName => "last_name" case FullName => "full_name" case Phone => "phone"
    case AddressLine1 => "address_line_1" case AddressLine2 => "address_line_2" case Country => "country"
    case Postcode => "postcode" case Region => "state" case JobTitle => "job_title"
    case CustomField(content, slot) => "custom_" + CustomText(content) + "_" + SlotText(slot)
  }

  /** What tells a column's name: its length, its first, its eighth from the end, and its last character. */
  function Shape(s: string): (nat, char, char, char)
    requires |s| >= 5
  {
    (|s|, s[0], if |s| >= 8 then s[|s| - 8] else ' ', s[|s| - 1])
  }

  lemma ColumnShape(c: ContactColumn)
    ensures |ColumnText(c)| >= 5
    ensures Shape(ColumnText(c)) ==
            match c
            case ExternalID => (11, 'e', 'e', 'd') case Timezone => (8, 't', 't', 'e') case Language => (8, 'l', 'l', 'e')
            case FirstName => (10, 'f', 'r', 'e') case LastName => (9, 'l', 'a', 'e') case FullName => (9, 'f', 'u', 'e')
            case Phone => (5, 'p', ' ', 'e') case AddressLine1 => (14, 'a', 's', '1') case AddressLine2 => (14, 'a', 's', '2')
            case Country => (7, 'c', ' ', 'y') case Postcode => (8, 'p', 'p', 'e') case Region => (5, 's', ' ', 'e')
            case JobTitle => (9, 'j', 'o', 'e')
            case CustomField(OfString, n) => (15, 'c', 's', SlotText(n)[0]) case CustomField(OfNumber, n) => (15, 'c', 'n', SlotText(n)[0])
            case CustomField(OfDatetime, n) => (17, 'c', 't', SlotText(n)[0]) case CustomField(OfJson, n) => (13, 'c', 'm', SlotText(n)[0])
  {
    if c.CustomField? {
      var s := ColumnText(c);
      assert |SlotText(c.slot)| == 1 && s[|s| - 1] == SlotText(c.slot)[0];
    }
  }

  lemma ColumnTextInjective(c: ContactColumn, d: ContactColumn)
    requires ColumnText(c) == ColumnText(d)
    ensures c == d
  {
    ColumnShape(c);
    ColumnShape(d);
  }

  lemma NamesDiffer()
    ensures forall c, d | ColumnText(c) == ColumnText(d) :: c == d
  {
    forall c, d | ColumnText(c) == ColumnText(d) ensures c == d { ColumnTextInjective(c, d); }
  }

  /** A difference with its columns named. */
  function Named(changes: Changes<ContactColumn>): Changes<string> {
    NamesDiffer();
    Renamed(changes, ColumnText)
  }

  lemma NamedInjective(a: Changes<ContactColumn>, b: Changes<ContactColumn>)
    requires Named(a) == Named(b)
    ensures a == b
  {
    NamesDiffer();
    forall c: ContactColumn ensures (c in a <==> c in b) && (c in a ==> a[c] == b[c]) {
      RenamedAt(a, ColumnText, c);
      RenamedAt(b, ColumnText, c);
    }
  }

  lemma InfoNamesDiffer()
    ensures forall c, d | InfoName(c) == InfoName(d) :: c == d
  {
    assert InfoName(DeliveredAt)[0] == 'd' && InfoName(FailedAt)[0] == 'f' && InfoName(StatusInfo)[0] == 's';
  }

  lemma DetailNamesDiffer()
    ensures forall c, d | DetailName(c) == DetailName(d) :: c == d
  {
    assert |DetailName(BounceType)| == 11 && |DetailName(BounceCategory)| == 15;
    assert |DetailName(BounceDiagnostic)| == 17 && |DetailName(ComplaintFeedback)| == 23;
  }

  lemma GoalNamesDiffer()
    ensures forall c, d | GoalColumn(c) == GoalColumn(d) :: c == d
  {
    assert GoalColumn(GoalType)[5] == 't' && GoalColumn(GoalValue)[5] == 'v' && GoalColumn(GoalName)[5] == 'n';
  }

  function InfoName(c: StatusColumn): string {
    match c case DeliveredAt => "delivered_at" case FailedAt => "failed_at" case StatusInfo => "status_info"
  }

  function GoalColumn(g: Goal): string {
    match g case GoalType => "goal_type" case GoalValue => "goal_value" case GoalName => "goal_name"
  }

  function New(v: Json): Json { Object(map["new" := v]) }

  function Old(v: Json): Json { Object(map["old" := v]) }

  function OldNew(o: Json, n: Json): Json { Object(map["old" := o, "new" := n]) }

  function OldNews<K(!new)>(c: Changes<K>): map<K, Json> { map k | k in c :: OldNew(c[k].before, c[k].after) }

  function MarkColumn(mark: Mark): string {
    match mark
    case Opened => "opened_at" case Clicked => "clicked_at" case Bounce => "bounced_at"
    case Complaint => "complained_at" case Unsubscribe => "unsubscribed_at"
  }

  function RenderedSent(m: Message): map<string, Json> {
    map["template_id" := New(Text(m.template)), "template_version" := New(Number(m.templateVersion as real)),
        "channel" := New(Text(m.channel)), "broadcast_id" := New(TextOf(m.broadcast)), "sent_at" := New(Stamp(m.sentAt))]
  }

  function RenderedInfo(info: Changes<StatusColumn>): map<string, Json> {
    InfoNamesDiffer();
    Renamed(OldNews(info), InfoName)
  }

  function RenderedDetails(details: map<Detail, string>): map<string, Json> {
    DetailNamesDiffer();
    Renamed(map k | k in details :: New(Text(details[k])), DetailName)
  }

  function RenderedGoals(goals: Row<Goal>): map<string, Json> {
    GoalNamesDiffer();
    Renamed(map k | k in goals :: New(goals[k]), GoalColumn)
  }

  function RenderedGoalChanges(goals: Changes<Goal>): map<string, Json> {
    GoalNamesDiffer();
    Renamed(OldNews(goals), GoalColumn)
  }

  function RenderedInbound(kind: string, source: string, details: map<Detail, string>): map<string, Json> {
    map["type" := New(Text(kind)), "source" := New(Text(source))] + RenderedDetails(details)
  }

  function RenderedSegment(segment: string, version: int, at: int): map<string, Json> {
    map["segment_id" := New(Text(segment)), "version" := New(Number(version as real)), "matched_at" := New(Stamp(at))]
  }

  function RenderedNewEvent(name: string, externalID: string, goals: Row<Goal>): map<string, Json> {
    map["event_name" := New(Text(name)), "external_id" := New(Text(externalID))] + RenderedGoals(goals)
  }

  function RenderedEvent(properties: Changes<string>, earlier: int, later: int, goals: Changes<Goal>): map<string, Json> {
    map["properties" := Encoded(properties), "occurred_at" := OldNew(Stamp(earlier), Stamp(later))] + RenderedGoalChanges(goals)
  }

  function RenderedStart(automation: string, root: string, customer: string): map<string, Json> {
    map["automation_id" := New(Text(automation)), "root_node_id" := New(Text(root)), "customer_id" := New(Text(customer))]
  }

  /** The stored `changes`: SQL NULL, or a JSON object. */
  function Rendered(c: Changed): Option<map<string, Json>> {
    match c
    case Nothing => None
    case Contacted(columns) => Some(Encoded(Named(columns)).fields)
    case Enlisted(list, status) => Some(map["list_id" := New(Text(list)), "status" := New(StatusText(status))])
    case Delisted(before, after) => Some(map["deleted_at" := OldNew(StampOf(before), StampOf(after))])
    case Restated(was, becomes) => Some(map["status" := OldNew(StatusText(was), StatusText(becomes))])
    case Sent(m) => Some(RenderedSent(m))
    case Marked(mark, before, after) => Some(map[MarkColumn(mark) := OldNew(StampOf(before), StampOf(after))])
    case Informed(info) => Some(RenderedInfo(info))
    case Received(kind, source, details) => Some(RenderedInbound(kind, source, details))
    case Entered(segment, version, at) => Some(RenderedSegment(segment, version, at))
    case Exited(segment, version) => Some(map["segment_id" := Old(Text(segment)), "version" := Old(Number(version as real))])
    case Occurred(name, externalID, goals) => Some(RenderedNewEvent(name, externalID, goals))
    case Reoccurred(properties, earlier, later, goals) => Some(RenderedEvent(properties, earlier, later, goals))
    case Started(automation, root, customer) => Some(RenderedStart(automation, root, customer))
    case Described(document) => Some(document)
  }

  /** The stored documents give back the logged differences of contacts and of event properties. */
  lemma DifferencesReadBack(c: Changed)
    ensures c.Contacted? ==> Decoded(Object(Rendered(c).value)) == Named(c.columns)
    ensures c.Reoccurred? ==> Decoded(Member(Object(Rendered(c).value), "properties")) == c.properties
  {
    if c.Contacted? {
      DecodedEncoded(Named(c.columns));
    } else if c.Reoccurred? {
      DecodedEncoded(c.properties);
      forall g: Goal
        ensures GoalColumn(g) != "properties"
      {
        assert GoalColumn(g)[0] == 'g';
      }
      assert "properties" !in RenderedGoalChanges(c.goalChanges);
      assert Rendered(c).value["properties"] == Encoded(c.properties);
    }
  }

  /** So entries with the same document tell the same changes of a contact. */
  lemma ContactDocumentsDiffer(a: Changes<ContactColumn>, b: Changes<ContactColumn>)
    requires Rendered(Contacted(a)) == Rendered(Contacted(b))
    ensures a == b
  {
    DifferencesReadBack(Contacted(a));
    DifferencesReadBack(Contacted(b));
    NamedInjective(a, b);
  }
}
