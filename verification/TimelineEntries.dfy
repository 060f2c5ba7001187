/** The rows the workspace triggers read and the timeline entries they write. */
module TimelineEntries {
  import opened ChangeLog
  import opened JsonValues
  import opened Wrappers

  datatype CustomType = OfString | OfNumber | OfDatetime | OfJson

  type Slot = n: int | 1 <= n <= 5 witness 1

  /** The contact columns whose changes are logged. */
  datatype ContactColumn =
    | ExternalID | Timezone | Language | FirstName | LastName | FullName | Phone
    | AddressLine1 | AddressLine2 | Country | Postcode | Region | JobTitle
    | CustomField(content: CustomType, slot: Slot)

  /** `others` holds the columns whose changes are not logged. */
  datatype Contact = Contact(columns: Row<ContactColumn>, others: Row<string>, createdAt: int, updatedAt: int)

  type OtherStatusText = s: string |
    s != "active" && s != "pending" && s != "unsubscribed" && s != "bounced" && s != "complained" witness ""

  datatype Status = Active | Pending | Unsubscribed | Bounced | Complained | OtherStatus(text: OtherStatusText)

  datatype Membership = Membership(status: Status, deletedAt: Option<int>, updatedAt: int)

  /** The time stamps of a message that get their own timeline kind. */
  datatype Mark = Opened | Clicked | Bounce | Complaint | Unsubscribe

  /** The columns of a message that share the generic `updated` kind. */
  datatype StatusColumn = DeliveredAt | FailedAt | StatusInfo

  /** `marks` and `info` hold the columns that are not null. */
  datatype Message = Message(
    email: string, list: Option<string>, channel: string, template: string, templateVersion: int, broadcast: Option<string>,
    sentAt: int, marks: map<Mark, int>, info: Row<StatusColumn>, updatedAt: int)

  datatype Detail = BounceType | BounceCategory | BounceDiagnostic | ComplaintFeedback

  datatype Inbound = Inbound(
    id: string, messageID: Option<string>, recipient: string, kind: string, source: string, details: map<Detail, string>)

  datatype Goal = GoalType | GoalValue | GoalName

  datatype Event = Event(email: string, properties: Json, occurredAt: int, goals: Row<Goal>)

  datatype ListChange = Joined | JoinedPending | LeftList | BouncedOff | ComplainedOff | Confirmed | Rejoined | Removed | Moved

  /** The kinds of entries that other writers append: profiles, tags, endpoints, web visits. */
  type OtherText = s: string | s != "segment.joined" && s != "segment.left" && s != "automation.start" witness ""

  datatype Kind =
    | ContactCreated | ContactUpdated
    | ListKind(change: ListChange)
    | SentOn(channel: string) | MarkedOn(channel: string, mark: Mark) | UpdatedOn(channel: string)
    | Replied | AutoReplied | OtherInbound
    | SegmentJoined | SegmentLeft
    | CustomEvent(name: string)
    | AutomationStarted
    | Elsewhere(text: OtherText)

  datatype Operation = Insert | Update | Delete

  /** The `changes` column, by what it records; `Rendered` is the stored document. */
  datatype Changed =
    | Nothing
    | Contacted(columns: Changes<ContactColumn>)
    | Enlisted(list: string, status: Status)
    | Delisted(before: Option<int>, after: Option<int>)
    | Restated(was: Status, becomes: Status)
    | Sent(message: Message)
    | Marked(mark: Mark, before: Option<int>, after: Option<int>)
    | Informed(info: Changes<StatusColumn>)
    | Received(kind: string, source: string, details: map<Detail, string>)
    | Entered(segment: string, version: int, matchedAt: int)
    | Exited(segment: string, version: int)
    | Occurred(name: string, externalID: string, goals: Row<Goal>)
    | Reoccurred(properties: Changes<string>, earlier: int, later: int, goalChanges: Changes<Goal>)
    | Started(automation: string, root: string, customer: string)
    | Described(document: map<string, Json>)

  /** A row of `contact_timeline`. */
  datatype Entry = Entry(
    email: string, operation: Operation, kind: Kind, entityID: Option<string>, changes: Changed, at: int)

  /** The kinds `queue_contact_for_segment_recomputation` skips. */
  predicate SegmentKind(kind: Kind) { kind.SegmentJoined? || kind.SegmentLeft? }
}
