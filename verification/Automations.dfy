/**
 Live automations: the timeline triggers they install, and when the enrolment function lets a contact in.
 A trigger's `WHEN` looks at the new entry alone; its conditions, the automation's status, the once-only
 record and the entry guard are looked up when the trigger runs.
 */
module Automations {
  import opened TimelineEntries
  import opened TimelineText
  import opened Wrappers

  datatype ContactEvent =
    | Created | Updated(fields: set<string>) | Deleted | ProfileCreated | ProfileUpdated | Tagged(tag: string) | Untagged(tag: string)

  datatype ListEvent =
    Subscribed | Unsubscribes | Confirms | Resubscribed | Bounces | Complains | Pends | Removes

  /** What `ValidEventKinds` admits; list, segment and tag events name their list, segment and tag. */
  datatype Listener =
    | OnContact(event: ContactEvent)
    | OnList(change: ListEvent, list: string)
    | OnSegment(joined: bool, segment: string)
    | OnEmail(mark: Mark)
    | OnCustomEvent(name: string)

  function ContactEventText(e: ContactEvent): string {
    match e
    case Created => "contact.created" case Updated(_) => "contact.updated" case Deleted => "contact.deleted"
    case ProfileCreated => "contact.profile_created" case ProfileUpdated => "contact.profile_updated"
    case Tagged(_) => "contact.tagged" case Untagged(_) => "contact.untagged"
  }

  function ListEventText(e: ListEvent): string {
    match e
    case Subscribed => "list.subscribed" case Unsubscribes => "list.unsubscribed" case Confirms => "list.confirmed"
    case Resubscribed => "list.resubscribed" case Bounces => "list.bounced" case Complains => "list.complained"
    case Pends => "list.pending" case Removes => "list.removed"
  }

  /** The timeline kind the `WHEN` clause compares with. */
  function ListenerText(l: Listener): string {
    match l
    case OnContact(e) => ContactEventText(e)
    case OnList(c, _) => ListEventText(c)
    case OnSegment(joined, _) => if joined then "segment.joined" else "segment.left"
    case OnEmail(m) => "email." + MarkText(m)
    case OnCustomEvent(name) => "custom_event." + name
  }

  /** `NEW.changes ? field`, for the contact fields a filter may name. */
  predicate ChangesField(c: Changed, field: string) {
    match c
    case Contacted(columns) => exists column | column in columns :: ColumnText(column) == field
    case Described(document) => field in document
    case _ => false
  }

  /** The `WHEN` clause. */
  predicate Hears(l: Listener, entry: Entry) {
    && KindText(entry.kind) == ListenerText(l)
    && match l
       case OnList(_, list) => entry.entityID == Some(list)
       case OnSegment(_, segment) => entry.entityID == Some(segment)
       case OnContact(Tagged(tag)) => entry.entityID == Some(tag)
       case OnContact(Untagged(tag)) => entry.entityID == Some(tag)
       case OnContact(Updated(fields)) => fields == {} || exists f | f in fields :: ChangesField(entry.changes, f)
       case _ => true
  }

  /** An enrolment's own entry is no event kind. */
  lemma StartIsNotHeard(l: Listener, entry: Entry)
    requires entry.kind.AutomationStarted?
    ensures !Hears(l, entry)
  {
    assert ListenerText(l)[0] != 'a';
  }

  /** Segment entries are heard by the listeners on that move and that segment, and by no others. */
  lemma SegmentEntryHeardIff(l: Listener, entry: Entry)
    requires SegmentKind(entry.kind)
    ensures Hears(l, entry) <==> l.OnSegment? && l.joined == entry.kind.SegmentJoined? && entry.entityID == Some(l.segment)
  {
    if l.OnSegment? {
      assert "segment.joined"[8] != "segment.left"[8];
    } else {
      assert ListenerText(l)[0] != 's';
    }
  }

  // ---------- enrolment ----------

  /** The tables conditions may query. */
  datatype Facts = Facts(
    contacts: map<string, Contact>, memberships: map<(string, string), Membership>, messages: map<string, Message>,
    events: map<(string, string), Event>, segments: map<(string, string), int>, timeline: seq<Entry>)

  datatype EntryGuard = EntryGuard(enabled: bool, cooldown: int, maxConcurrent: int)

  /** One installed trigger. */
  datatype Automation = Automation(
    id: string, root: string, listener: Listener, condition: (Facts, string) -> bool, once: bool, guard: EntryGuard)

  /** Whom an address stands for; `direct` when a contact has exactly this address, so that the guard is passed on. */
  datatype Owner = Owner(customer: string, direct: bool)

  /** What is on record for one automation and customer: a once-only enrolment, running instances, the latest start. */
  datatype Journey = Journey(onceUsed: bool, active: nat, latest: Option<int>)

  /** The installed triggers in name order; names, hence the ids behind them, are unique in a database. */
  type Installed = s: seq<Automation> | DistinctAutomations(s) witness []

  predicate DistinctAutomations(s: seq<Automation>) { forall i, j | 0 <= i < j < |s| :: s[i].id != s[j].id }

  /**
   The automation tables: the triggers on the timeline, the ids that are live, whom an address resolves to
   when it enrols, and the journeys by automation id and customer.
   */
  datatype Registry = Registry(
    triggers: Installed, live: set<string>, owners: map<string, Owner>, journeys: map<(string, string), Journey>)

  function JourneyOf(r: Registry, id: string, customer: string): Journey {
    if (id, customer) in r.journeys then r.journeys[(id, customer)] else Journey(false, 0, None)
  }

  function WithJourney(r: Registry, id: string, customer: string, j: Journey): Registry {
    r.(journeys := r.journeys[(id, customer) := j])
  }

  predicate GuardAdmits(g: EntryGuard, j: Journey, now: int) {
    g.enabled ==>
      && !(g.maxConcurrent > 0 && j.active >= g.maxConcurrent)
      && !(g.cooldown > 0 && j.latest.Some? && j.latest.value + g.cooldown > now)
  }

  /** `automation_enroll_customer` for an entry that has just been appended, past its lookups. */
  predicate Admits(a: Automation, j: Journey, direct: bool, now: int) {
    !(a.once && j.onceUsed) && (direct ==> GuardAdmits(a.guard, j, now))
  }

  /** A once-only record is made even when the guard then turns the contact away. */
  function Recorded(a: Automation, j: Journey, direct: bool, now: int): Journey {
    if Admits(a, j, direct, now) then
      Journey(j.onceUsed || a.once, j.active + 1, Some(if j.latest.Some? && j.latest.value > now then j.latest.value else now))
    else j.(onceUsed := j.onceUsed || a.once)
  }

  function StartEntry(a: Automation, email: string, customer: string, now: int): Entry {
    Entry(email, Insert, AutomationStarted, Some(a.id), Started(a.id, a.root, customer), now)
  }
}
