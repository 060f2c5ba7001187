/** What one update leaves in every field of a broadcast, and the reasons for which it is refused. */
module BroadcastOutcome {
  import opened Broadcast
  import opened JsonValues
  import opened Texts
  import opened Wrappers

  // ---------- fields ----------

  /** A key that was sent is stored, one that was left out keeps what was there. */
  lemma SettingsStored(b: State, r: Request, now: int)
    ensures var n := Patched(b, r, now);
            && n.name == r.name && n.updatedAt == now
            && n.workspaceID == b.workspaceID && n.id == b.id && n.status == b.status
            && (if r.omitted.schedule then n.schedule == b.schedule else n.schedule == r.schedule)
            && (if r.omitted.testSettings then n.testSettings == b.testSettings else n.testSettings == r.testSettings)
            && (if r.utm.None? then n.utm == b.utm else n.utm == r.utm)
            && (if r.metadata.None? then n.metadata == b.metadata else n.metadata == r.metadata)
  {}

  /** The same for the segments and the exclusion of the unsubscribed. */
  lemma FiltersStored(b: State, r: Request, now: int)
    ensures var n, o, s := Patched(b, r, now).audience, r.omitted, r.audience;
            && (if o.segments then n.segments == b.audience.segments else n.segments == s.segments)
            && (if o.excludeUnsubscribed then n.excludeUnsubscribed == b.audience.excludeUnsubscribed
                else n.excludeUnsubscribed == s.excludeUnsubscribed)
  {}

  /**
   List and audience put each other out: a list that was sent clears audience, version and build unless these
   were sent as well; an audience that was sent clears the list. Whatever touches the recipients drops the
   snapshot, but for the list sent as it was.
   */
  lemma RecipientsStored(b: State, r: Request, now: int)
    ensures var a, n, o, s := b.audience, Patched(b, r, now).audience, r.omitted, r.audience;
            var listSent, audienceSent := !o.list && s.list != "", !o.audienceID && s.audienceID != "";
            && n.list == (if audienceSent then "" else if o.list then a.list else s.list)
            && n.audienceID == (if !o.audienceID then s.audienceID else if listSent then "" else a.audienceID)
            && n.audienceVersion == (if !o.audienceVersion then s.audienceVersion else if listSent then 0 else a.audienceVersion)
            && n.audienceBuildID == (if !o.audienceBuildID then s.audienceBuildID else if listSent then "" else a.audienceBuildID)
            && n.campaignRunID == (if o.audienceID && o.audienceVersion && o.audienceBuildID && (o.list || s.list == a.list) then a.campaignRunID else "")
  {}

  /** Feed settings that were sent are stored, the others kept; fetched data stays, unless a live global feed is sent as disabled. */
  lemma FeedStored(b: State, r: Request, now: int)
    ensures var n := Patched(b, r, now).dataFeed;
            && (r.dataFeed.None? ==> n == b.dataFeed) && (b.dataFeed.None? ==> n == r.dataFeed)
            && (r.dataFeed.Some? && b.dataFeed.Some? ==>
                  var was, sent := b.dataFeed.value, r.dataFeed.value;
                  var off := was.globalFeed.Some? && was.globalFeed.value.enabled && sent.globalFeed.Some? && !sent.globalFeed.value.enabled;
                  n == Some(DataFeed(if sent.globalFeed.Some? then sent.globalFeed else was.globalFeed,
                                     if off then None else was.globalData, if off then None else was.fetchedAt,
                                     if sent.recipientFeed.Some? then sent.recipientFeed else was.recipientFeed)))
  {}

  /** The audience of a body; null and absent read as an empty one. */
  function SentAudience(sent: JsonObject): Json { if Member(sent, "audience").Null? then EMPTY else Member(sent, "audience") }

  /** The flags of a decoded body: set exactly for the keys that are absent or null, of the body or of its audience. */
  lemma FlagsRead(sent: JsonObject)
    ensures Flags(sent).Some? <==> SentAudience(sent).Object?
    ensures Flags(sent).Some? ==>
              && Flags(sent).value.schedule == Member(sent, "schedule").Null?
              && Flags(sent).value.testSettings == Member(sent, "test_settings").Null?
  {}

  lemma RecipientFlagsRead(sent: JsonObject)
    requires SentAudience(sent).Object?
    ensures var o, a := Flags(sent).value, SentAudience(sent);
            && o.list == Member(a, "list").Null? && o.audienceID == Member(a, "audience_id").Null?
            && o.audienceVersion == Member(a, "audience_version").Null? && o.audienceBuildID == Member(a, "audience_build_id").Null?
  {}

  lemma FilterFlagsRead(sent: JsonObject)
    requires SentAudience(sent).Object?
    ensures var o, a := Flags(sent).value, SentAudience(sent);
            o.segments == Member(a, "segments").Null? && o.excludeUnsubscribed == Member(a, "exclude_unsubscribed").Null?
  {}

  // ---------- reasons ----------

  datatype Which = GlobalFeed | RecipientFeed

  datatype Reason =
    | NoWorkspace | NoName | LongName | UnknownStatus
    | SampleOutOfRange | TooFewVariations | TooManyVariations | DurationOutOfRange | MetricInvalid | NoTemplate(i: nat)
    | NoRecipients | TwoRecipients | NegativeVersion
    | NoScheduleTime | BadDate | BadTime | UnknownTimezone
    | NoFeedURL(feed: Which) | BadFeedURL(feed: Which) | PlainFeedURL | BadFeedHeader(feed: Which, i: nat)

  function FeedOf(b: State, feed: Which): Option<Feed> {
    if b.dataFeed.None? then None else if feed.GlobalFeed? then b.dataFeed.value.globalFeed else b.dataFeed.value.recipientFeed
  }

  predicate FeedRefused(f: Feed, c: Checks, r: Reason) {
    f.enabled && match r
                 case NoFeedURL(_) => f.url == ""
                 case BadFeedURL(_) => f.url != "" && !c.feedURL(f.url)
                 case PlainFeedURL => !c.httpsURL(f.url)
                 case BadFeedHeader(_, i) => i < |f.headers| && (f.headers[i].name == "" || f.headers[i].value == "")
                 case _ => false
  }

  predicate TestRefused(t: TestSettings, r: Reason) {
    t.enabled && match r
                 case SampleOutOfRange => t.samplePercentage < 1 || t.samplePercentage > 100
                 case TooFewVariations => |t.templateIDs| < 2
                 case TooManyVariations => |t.templateIDs| > 8
                 case DurationOutOfRange => t.autoSendWinner && (t.durationHours < 1 || t.durationHours > 168)
                 case MetricInvalid => t.autoSendWinner && t.metric != OpenRate && t.metric != ClickRate
                 case NoTemplate(i) => i < |t.templateIDs| && t.templateIDs[i] == ""
                 case _ => false
  }

  predicate ScheduleRefused(s: Schedule, c: Checks, r: Reason) {
    s.isScheduled && match r
                     case NoScheduleTime => s.date == "" || s.time == ""
                     case BadDate => s.date != "" && !c.date(s.date)
                     case BadTime => s.time != "" && !c.time(s.time)
                     case UnknownTimezone => s.timezone != "" && !c.timezone(s.timezone)
                     case _ => false
  }

  /** The broadcast is refused for this reason. */
  predicate RefusedFor(b: State, c: Checks, r: Reason) {
    match r
    case NoWorkspace => b.workspaceID == ""
    case NoName => b.name == ""
    case LongName => Utf8Length(b.name) > 255
    case UnknownStatus => b.status.Other?
    case NoRecipients => b.audience.list == "" && b.audience.audienceID == ""
    case TwoRecipients => b.audience.list != "" && b.audience.audienceID != ""
    case NegativeVersion => b.audience.audienceVersion < 0
    case NoFeedURL(feed) => FeedOf(b, feed).Some? && FeedRefused(FeedOf(b, feed).value, c, r)
    case BadFeedURL(feed) => FeedOf(b, feed).Some? && FeedRefused(FeedOf(b, feed).value, c, r)
    case PlainFeedURL => FeedOf(b, RecipientFeed).Some? && FeedRefused(FeedOf(b, RecipientFeed).value, c, r)
    case BadFeedHeader(feed, i) => FeedOf(b, feed).Some? && FeedRefused(FeedOf(b, feed).value, c, r)
    case _ => TestRefused(b.testSettings, r) || ScheduleRefused(b.schedule, c, r)
  }

  lemma TestReason(t: TestSettings) returns (r: Reason)
    requires !ValidTest(t)
    ensures TestRefused(t, r)
  {
    if t.samplePercentage < 1 || t.samplePercentage > 100 { r := SampleOutOfRange; }
    else if |t.templateIDs| < 2 { r := TooFewVariations; }
    else if |t.templateIDs| > 8 { r := TooManyVariations; }
    else if t.autoSendWinner && (t.durationHours < 1 || t.durationHours > 168) { r := DurationOutOfRange; }
    else if t.autoSendWinner && t.metric != OpenRate && t.metric != ClickRate { r := MetricInvalid; }
    else {
      var i :| 0 <= i < |t.templateIDs| && t.templateIDs[i] == "";
      r := NoTemplate(i);
    }
  }

  lemma ScheduleReason(s: Schedule, c: Checks) returns (r: Reason)
    requires !ValidSchedule(s, c)
    ensures ScheduleRefused(s, c, r)
  {
    r := if s.date == "" || s.time == "" then NoScheduleTime
         else if !c.date(s.date) then BadDate
         else if !c.time(s.time) then BadTime
         else UnknownTimezone;
  }

  lemma FeedReason(f: Feed, c: Checks, feed: Which) returns (r: Reason)
    requires !ValidFeed(f, c, feed.RecipientFeed?)
    ensures FeedRefused(f, c, r)
    ensures r == NoFeedURL(feed) || r == BadFeedURL(feed) || (r == PlainFeedURL && feed == RecipientFeed) || (r.BadFeedHeader? && r.feed == feed)
  {
    if f.url == "" { r := NoFeedURL(feed); }
    else if !c.feedURL(f.url) { r := BadFeedURL(feed); }
    else if feed.RecipientFeed? && !c.httpsURL(f.url) { r := PlainFeedURL; }
    else {
      var i :| 0 <= i < |f.headers| && (f.headers[i].name == "" || f.headers[i].value == "");
      r := BadFeedHeader(feed, i);
    }
  }

  lemma SomeReason(b: State, c: Checks) returns (r: Reason)
    requires !Valid(b, c)
    ensures RefusedFor(b, c, r)
  {
    if b.workspaceID == "" { r := NoWorkspace; }
    else if b.name == "" { r := NoName; }
    else if Utf8Length(b.name) > 255 { r := LongName; }
    else if b.status.Other? { r := UnknownStatus; }
    else if !ValidTest(b.testSettings) { r := TestReason(b.testSettings); }
    else if b.audience.list == "" && b.audience.audienceID == "" { r := NoRecipients; }
    else if b.audience.list != "" && b.audience.audienceID != "" { r := TwoRecipients; }
    else if b.audience.audienceVersion < 0 { r := NegativeVersion; }
    else if !ValidSchedule(b.schedule, c) { r := ScheduleReason(b.schedule, c); }
    else if FeedOf(b, GlobalFeed).Some? && !ValidFeed(FeedOf(b, GlobalFeed).value, c, false) {
      r := FeedReason(FeedOf(b, GlobalFeed).value, c, GlobalFeed);
    } else {
      r := FeedReason(FeedOf(b, RecipientFeed).value, c, RecipientFeed);
    }
  }

  lemma ValidHasNoReason(b: State, c: Checks, r: Reason)
    requires Valid(b, c)
    ensures !RefusedFor(b, c, r)
  {}

  ghost predicate Refused(b: State, c: Checks) { exists r: Reason :: RefusedFor(b, c, r) }

  /** A broadcast passes validation exactly when there is no reason to refuse it. */
  lemma ValidIffNoReason(b: State, c: Checks)
    ensures Valid(b, c) <==> !Refused(b, c)
  {
    if Valid(b, c) {
      forall r: Reason ensures !RefusedFor(b, c, r) { ValidHasNoReason(b, c, r); }
    } else {
      var r := SomeReason(b, c);
    }
  }

  /**
   An update is accepted exactly when it names the broadcast, which is a draft, scheduled or paused, and what it
   leaves is not refused; so one without a name never is.
   */
  lemma AcceptedIff(b: State, r: Request, c: Checks, now: int)
    ensures Accepted(b, r, c) <==>
              && r.workspaceID == b.workspaceID && r.id == b.id
              && b.status in {Draft, Scheduled, Paused}
              && !Refused(Patched(b, r, now), c)
    ensures r.name == "" || Utf8Length(r.name) > 255 ==> !Accepted(b, r, c)
  {
    ValidIffNoReason(Patched(b, r, now), c);
    assert Valid(Patched(b, r, now), c) == Valid(Patched(b, r, 0), c);
  }
}
