/** Patching a stored broadcast: which keys a body carries, what an update writes, and what runs of updates keep. */
module Broadcast {
  import opened JsonValues
  import opened Texts
  import opened Wrappers

  datatype Status =
    | Draft | Scheduled | Processing | Paused | Processed | Cancelled | Failed
    | Testing | TestCompleted | WinnerSelected | Other(text: string)

  datatype Audience = Audience(
    list: string, segments: seq<string>, excludeUnsubscribed: bool,
    audienceID: string, audienceVersion: int, audienceBuildID: string, campaignRunID: string)

  datatype Schedule = Schedule(isScheduled: bool, date: string, time: string, timezone: string, recipientTimezone: bool)

  datatype Metric = NoMetric | OpenRate | ClickRate | OtherMetric(text: string)

  datatype TestSettings = TestSettings(
    enabled: bool, samplePercentage: int, autoSendWinner: bool, metric: Metric, durationHours: int, templateIDs: seq<string>)

  datatype Header = Header(name: string, value: string)
  datatype Feed = Feed(enabled: bool, url: string, headers: seq<Header>)

  datatype DataFeed = DataFeed(
    globalFeed: Option<Feed>, globalData: Option<Json>, fetchedAt: Option<int>, recipientFeed: Option<Feed>)

  /** The fields of a stored broadcast that an update reads or writes. */
  datatype State = State(
    workspaceID: string, id: string, name: string, status: Status, audience: Audience, schedule: Schedule,
    testSettings: TestSettings, utm: Option<Json>, metadata: Option<Json>, dataFeed: Option<DataFeed>, updatedAt: int)

  /** `true` where the body left the key out. */
  datatype Omitted = Omitted(
    schedule: bool, testSettings: bool, list: bool, segments: bool, excludeUnsubscribed: bool,
    audienceID: bool, audienceVersion: bool, audienceBuildID: bool)

  datatype Request = Request(
    workspaceID: string, id: string, name: string, audience: Audience, schedule: Schedule,
    testSettings: TestSettings, utm: Option<Json>, metadata: Option<Json>, dataFeed: Option<DataFeed>, omitted: Omitted)

  // ---------- decoding ----------

  /** `jsonKeyOmitted`: absent or null. */
  predicate KeyOmitted(sent: JsonObject, key: string) { Member(sent, key).Null? }

  /** The omission flags `UnmarshalJSON` records, unless the audience is not an object. */
  function Flags(sent: JsonObject): Option<Omitted> {
    var audience := if KeyOmitted(sent, "audience") then EMPTY else Member(sent, "audience");
    if !audience.Object? then None
    else Some(Omitted(
      KeyOmitted(sent, "schedule"), KeyOmitted(sent, "test_settings"),
      KeyOmitted(audience, "list"), KeyOmitted(audience, "segments"), KeyOmitted(audience, "exclude_unsubscribed"),
      KeyOmitted(audience, "audience_id"), KeyOmitted(audience, "audience_version"), KeyOmitted(audience, "audience_build_id")))
  }

  // ---------- validation ----------

  /** Format and network checks made by library code. */
  datatype Checks = Checks(
    date: string -> bool, time: string -> bool, timezone: string -> bool, feedURL: string -> bool, httpsURL: string -> bool)

  predicate ValidTest(t: TestSettings) {
    t.enabled ==>
      && 0 < t.samplePercentage <= 100 && 2 <= |t.templateIDs| <= 8
      && (t.autoSendWinner ==> 0 < t.durationHours <= 168 && (t.metric.OpenRate? || t.metric.ClickRate?))
      && forall i | 0 <= i < |t.templateIDs| :: t.templateIDs[i] != ""
  }

  predicate ValidAudience(a: Audience) { (a.list == "") != (a.audienceID == "") && a.audienceVersion >= 0 }

  predicate ValidSchedule(s: Schedule, c: Checks) {
    s.isScheduled ==>
      && s.date != "" && s.time != "" && c.date(s.date) && c.time(s.time)
      && (s.timezone != "" ==> c.timezone(s.timezone))
  }

  predicate ValidFeed(f: Feed, c: Checks, https: bool) {
    f.enabled ==>
      && f.url != "" && c.feedURL(f.url) && (https ==> c.httpsURL(f.url))
      && forall i | 0 <= i < |f.headers| :: f.headers[i].name != "" && f.headers[i].value != ""
  }

  predicate ValidDataFeed(d: DataFeed, c: Checks) {
    && (d.globalFeed.Some? ==> ValidFeed(d.globalFeed.value, c, false))
    && (d.recipientFeed.Some? ==> ValidFeed(d.recipientFeed.value, c, true))
  }

  /** `Broadcast.Validate`. */
  predicate Valid(b: State, c: Checks) {
    && b.workspaceID != "" && b.name != "" && Utf8Length(b.name) <= 255 && !b.status.Other?
    && ValidTest(b.testSettings) && ValidAudience(b.audience) && ValidSchedule(b.schedule, c)
    && (b.dataFeed.Some? ==> ValidDataFeed(b.dataFeed.value, c))
  }

  // ---------- the merge ----------

  function PatchList(a: Audience, r: Audience, omitted: Omitted): Audience {
    if omitted.list then a
    else
      var kept := if a.list != r.list then a.(campaignRunID := "", list := r.list) else a;
      if r.list != "" then kept.(audienceID := "", audienceVersion := 0, audienceBuildID := "") else kept
  }

  function PatchFilters(a: Audience, r: Audience, omitted: Omitted): Audience {
    a.(segments := if omitted.segments then a.segments else r.segments,
       excludeUnsubscribed := if omitted.excludeUnsubscribed then a.excludeUnsubscribed else r.excludeUnsubscribed)
  }

  function PatchAudienceID(a: Audience, r: Audience, omitted: Omitted): Audience {
    if omitted.audienceID then a
    else a.(audienceID := r.audienceID, list := if r.audienceID != "" then "" else a.list, campaignRunID := "")
  }

  function PatchBuild(a: Audience, r: Audience, omitted: Omitted): Audience {
    a.(audienceVersion := if omitted.audienceVersion then a.audienceVersion else r.audienceVersion,
       audienceBuildID := if omitted.audienceBuildID then a.audienceBuildID else r.audienceBuildID,
       campaignRunID := if omitted.audienceVersion && omitted.audienceBuildID then a.campaignRunID else "")
  }

  function PatchAudience(a: Audience, r: Audience, omitted: Omitted): Audience {
    PatchBuild(PatchAudienceID(PatchFilters(PatchList(a, r, omitted), r, omitted), r, omitted), r, omitted)
  }

  predicate Live(f: Option<Feed>) { f.Some? && f.value.enabled }

  /** The save that switches a live global feed off. */
  predicate SwitchesOff(stored: Option<DataFeed>, sent: Option<DataFeed>) {
    && stored.Some? && sent.Some? && Live(stored.value.globalFeed)
    && sent.value.globalFeed.Some? && !sent.value.globalFeed.value.enabled
  }

  function OrElse<T>(sent: Option<T>, stored: Option<T>): Option<T> { if sent.Some? then sent else stored }

  function PatchFeed(stored: Option<DataFeed>, sent: Option<DataFeed>): Option<DataFeed> {
    if sent.None? then stored
    else if stored.None? then sent
    else
      var off := SwitchesOff(stored, sent);
      Some(DataFeed(
        OrElse(sent.value.globalFeed, stored.value.globalFeed),
        if off then None else stored.value.globalData,
        if off then None else stored.value.fetchedAt,
        OrElse(sent.value.recipientFeed, stored.value.recipientFeed)))
  }

  function Patched(b: State, r: Request, now: int): State {
    b.(name := r.name,
       audience := PatchAudience(b.audience, r.audience, r.omitted),
       schedule := if r.omitted.schedule then b.schedule else r.schedule,
       testSettings := if r.omitted.testSettings then b.testSettings else r.testSettings,
       utm := OrElse(r.utm, b.utm),
       metadata := OrElse(r.metadata, b.metadata),
       dataFeed := PatchFeed(b.dataFeed, r.dataFeed),
       updatedAt := now)
  }

  /** What is checked before anything is written. */
  predicate Applicable(b: State, r: Request) {
    r.workspaceID == b.workspaceID && r.id == b.id && (b.status.Draft? || b.status.Scheduled? || b.status.Paused?)
  }

  predicate Accepted(b: State, r: Request, c: Checks) { Applicable(b, r) && Valid(Patched(b, r, 0), c) }

  /** A stored broadcast; an update writes its fields one after the other. */
  class StoredBroadcast {
    var workspaceID: string
    var id: string
    var name: string
    var status: Status
    var audience: Audience
    var schedule: Schedule
    var testSettings: TestSettings
    var utm: Option<Json>
    var metadata: Option<Json>
    var dataFeed: Option<DataFeed>
    var updatedAt: int

    function Current(): State
      reads this
    {
      State(workspaceID, id, name, status, audience, schedule, testSettings, utm, metadata, dataFeed, updatedAt)
    }

    constructor (s: State)
      ensures Current() == s
    {
      workspaceID, id, name, status, audience := s.workspaceID, s.id, s.name, s.status, s.audience;
      schedule, testSettings, utm, metadata := s.schedule, s.testSettings, s.utm, s.metadata;
      dataFeed, updatedAt := s.dataFeed, s.updatedAt;
    }

    /** `Broadcast.Validate`, in the order of the source. */
    method Validate(c: Checks) returns (ok: bool)
      ensures ok == Valid(Current(), c)
    {
      if workspaceID == "" || name == "" || Utf8Length(name) > 255 { return false; }
      if status.Other? { return false; }
      if testSettings.enabled {
        if testSettings.samplePercentage <= 0 || testSettings.samplePercentage > 100 { return false; }
        if |testSettings.templateIDs| < 2 || |testSettings.templateIDs| > 8 { return false; }
        if testSettings.autoSendWinner {
          if testSettings.durationHours <= 0 || testSettings.durationHours > 168 { return false; }
          match testSettings.metric {
            case OpenRate => case ClickRate => case _ => return false;
          }
        }
        for i := 0 to |testSettings.templateIDs|
          invariant forall j | 0 <= j < i :: testSettings.templateIDs[j] != ""
        {
          if testSettings.templateIDs[i] == "" { return false; }
        }
      }
      if audience.list == "" && audience.audienceID == "" { return false; }
      if audience.list != "" && audience.audienceID != "" { return false; }
      if audience.audienceVersion < 0 { return false; }
      if !ValidSchedule(schedule, c) { return false; }
      ok := dataFeed.None? || ValidDataFeed(dataFeed.value, c);
    }

    /** `UpdateBroadcastRequest.Validate`: a rejection after the early checks leaves the patch written. */
    method Update(r: Request, c: Checks, now: int) returns (ok: bool)
      modifies this
      ensures ok == Accepted(old(Current()), r, c)
      ensures Current() == if Applicable(old(Current()), r) then Patched(old(Current()), r, now) else old(Current())
    {
      if r.workspaceID != workspaceID { return false; }
      if r.id != id { return false; }
      if !status.Draft? && !status.Scheduled? && !status.Paused? { return false; }
      Write(r, now);
      ok := Validate(c);
    }

    method Write(r: Request, now: int)
      modifies this
      ensures Current() == Patched(old(Current()), r, now)
    {
      name := r.name;
      UpdateList(r);
      UpdateRecipients(r);
      UpdateSettings(r);
      UpdateFeed(r);
      updatedAt := now;
    }

    method UpdateSettings(r: Request)
      modifies this`schedule, this`testSettings, this`utm, this`metadata
      ensures schedule == if r.omitted.schedule then old(schedule) else r.schedule
      ensures testSettings == if r.omitted.testSettings then old(testSettings) else r.testSettings
      ensures utm == OrElse(r.utm, old(utm)) && metadata == OrElse(r.metadata, old(metadata))
    {
      if !r.omitted.schedule { schedule := r.schedule; }
      if !r.omitted.testSettings { testSettings := r.testSettings; }
      if r.utm.Some? { utm := r.utm; }
      if r.metadata.Some? { metadata := r.metadata; }
    }

    method UpdateList(r: Request)
      modifies this`audience
      ensures audience == PatchFilters(PatchList(old(audience), r.audience, r.omitted), r.audience, r.omitted)
    {
      if !r.omitted.list {
        if audience.list != r.audience.list { audience := audience.(campaignRunID := ""); }
        audience := audience.(list := r.audience.list);
        if r.audience.list != "" {
          audience := audience.(audienceID := "");
          audience := audience.(audienceVersion := 0);
          audience := audience.(audienceBuildID := "");
        }
      }
      if !r.omitted.segments { audience := audience.(segments := r.audience.segments); }
      if !r.omitted.excludeUnsubscribed {
        audience := audience.(excludeUnsubscribed := r.audience.excludeUnsubscribed);
      }
    }

    method UpdateRecipients(r: Request)
      modifies this`audience
      ensures audience == PatchBuild(PatchAudienceID(old(audience), r.audience, r.omitted), r.audience, r.omitted)
    {
      if !r.omitted.audienceID {
        audience := audience.(audienceID := r.audience.audienceID);
        if r.audience.audienceID != "" { audience := audience.(list := ""); }
        audience := audience.(campaignRunID := "");
      }
      if !r.omitted.audienceVersion {
        audience := audience.(audienceVersion := r.audience.audienceVersion);
        audience := audience.(campaignRunID := "");
      }
      if !r.omitted.audienceBuildID {
        audience := audience.(audienceBuildID := r.audience.audienceBuildID);
        audience := audience.(campaignRunID := "");
      }
    }

    method UpdateFeed(r: Request)
      modifies this`dataFeed
      ensures dataFeed == PatchFeed(old(dataFeed), r.dataFeed)
    {
      if r.dataFeed.None? { return; }
      if dataFeed.None? { dataFeed := r.dataFeed; return; }
      var data, fetchedAt := dataFeed.value.globalData, dataFeed.value.fetchedAt;
      var wasEnabled := dataFeed.value.globalFeed.Some? && dataFeed.value.globalFeed.value.enabled;
      if wasEnabled && r.dataFeed.value.globalFeed.Some? && !r.dataFeed.value.globalFeed.value.enabled {
        data, fetchedAt := None, None;
      }
      var feed := dataFeed.value;
      if r.dataFeed.value.globalFeed.Some? { feed := feed.(globalFeed := r.dataFeed.value.globalFeed); }
      if r.dataFeed.value.recipientFeed.Some? { feed := feed.(recipientFeed := r.dataFeed.value.recipientFeed); }
      feed := feed.(globalData := data);
      feed := feed.(fetchedAt := fetchedAt);
      dataFeed := Some(feed);
    }
  }

  // ---------- one update ----------

  lemma AudienceIdempotent(a: Audience, r: Audience, omitted: Omitted)
    ensures PatchAudience(PatchAudience(a, r, omitted), r, omitted) == PatchAudience(a, r, omitted)
  {}

  lemma FeedIdempotent(stored: Option<DataFeed>, sent: Option<DataFeed>)
    ensures PatchFeed(PatchFeed(stored, sent), sent) == PatchFeed(stored, sent)
  {}

  /** Applying a patch twice is applying it once, but for the time stamp; and the second time is accepted too. */
  lemma PatchIdempotent(b: State, r: Request, c: Checks, now: int, later: int)
    ensures Patched(Patched(b, r, now), r, later) == Patched(b, r, later)
    ensures Accepted(b, r, c) ==> Accepted(Patched(b, r, now), r, c)
  {
    AudienceIdempotent(b.audience, r.audience, r.omitted);
    FeedIdempotent(b.dataFeed, r.dataFeed);
    if Accepted(b, r, c) {
      assert Patched(Patched(b, r, now), r, 0) == Patched(b, r, 0);
    }
  }

  /** Keys a body leaves out, or sends as null, keep their stored value. */
  lemma OmittedKeysKept(b: State, r: Request, now: int, sent: JsonObject)
    requires Flags(sent) == Some(r.omitted)
    ensures var n, audience := Patched(b, r, now), Member(sent, "audience");
            && (Member(sent, "schedule").Null? ==> n.schedule == b.schedule)
            && (Member(sent, "test_settings").Null? ==> n.testSettings == b.testSettings)
            && (audience.Null? ==> n.audience == b.audience)
            && (audience.Object? ==>
                  && (Member(audience, "segments").Null? ==> n.audience.segments == b.audience.segments)
                  && (Member(audience, "exclude_unsubscribed").Null? ==>
                        n.audience.excludeUnsubscribed == b.audience.excludeUnsubscribed)
                  && (Member(audience, "list").Null? && Member(audience, "audience_id").Null? ==>
                        n.audience.list == b.audience.list && n.audience.audienceID == b.audience.audienceID))
  {}

  // ---------- runs of updates ----------

  /** Who the broadcast reaches: a list, or one build of one audience version. */
  datatype Source = List(id: string) | Built(audienceID: string, version: int, buildID: string)

  function SourceOf(a: Audience): Source {
    if a.list != "" then List(a.list) else Built(a.audienceID, a.audienceVersion, a.audienceBuildID)
  }

  datatype Update = Update(request: Request, now: int)

  /** The broadcast after the updates. */
  function After(b: State, updates: seq<Update>): State
    decreases |updates|
  {
    if updates == [] then b else After(Patched(b, updates[0].request, updates[0].now), updates[1..])
  }

  /** Every update of the run is accepted where it is made. */
  predicate AcceptedRun(b: State, updates: seq<Update>, c: Checks)
    decreases |updates|
  {
    updates == [] || (Accepted(b, updates[0].request, c)
                      && AcceptedRun(Patched(b, updates[0].request, updates[0].now), updates[1..], c))
  }

  lemma OneUpdateKeepsSource(a: Audience, r: Audience, omitted: Omitted)
    requires ValidAudience(a) && ValidAudience(PatchAudience(a, r, omitted))
    ensures PatchAudience(a, r, omitted).campaignRunID != "" ==>
              && PatchAudience(a, r, omitted).campaignRunID == a.campaignRunID
              && SourceOf(PatchAudience(a, r, omitted)) == SourceOf(a)
  {}

  /**
   Over any run of accepted updates from a valid broadcast: a snapshot run id that is still there
   is the one it started with, and the recipient source is what it was at every point on the way.
   */
  lemma {:induction false} SnapshotKeepsSource(b: State, updates: seq<Update>, c: Checks, k: nat)
    requires Valid(b, c) && AcceptedRun(b, updates, c) && k <= |updates|
    requires After(b, updates).audience.campaignRunID != ""
    ensures After(b, updates).audience.campaignRunID == b.audience.campaignRunID
    ensures SourceOf(After(b, updates[..k]).audience) == SourceOf(b.audience)
    decreases |updates|
  {
    if updates != [] {
      var u := updates[0];
      var next := Patched(b, u.request, u.now);
      SnapshotKeepsSource(next, updates[1..], c, if k == 0 then 0 else k - 1);
      OneUpdateKeepsSource(b.audience, u.request.audience, u.request.omitted);
      if k > 0 { assert updates[..k][1..] == updates[1..][..k - 1]; }
    }
  }

  /** Some update of the run switches a feed off that is live at that point. */
  predicate SomeSwitchOff(b: State, updates: seq<Update>)
    decreases |updates|
  {
    updates != [] && (SwitchesOff(b.dataFeed, updates[0].request.dataFeed)
                      || SomeSwitchOff(Patched(b, updates[0].request, updates[0].now), updates[1..]))
  }

  /** Once its data is gone, a feed gets none back from updates. */
  lemma {:induction false} NoDataStays(b: State, updates: seq<Update>)
    requires b.dataFeed.Some? && b.dataFeed.value.globalData.None? && b.dataFeed.value.fetchedAt.None?
    ensures var d := After(b, updates).dataFeed; d.Some? && d.value.globalData.None? && d.value.fetchedAt.None?
    decreases |updates|
  {
    if updates != [] { NoDataStays(Patched(b, updates[0].request, updates[0].now), updates[1..]); }
  }

  /** Fetched feed data survives exactly the runs in which no update switches a live feed off; it is gone after the others. */
  lemma {:induction false} FeedDataSurvivesIffNotSwitchedOff(b: State, updates: seq<Update>)
    requires b.dataFeed.Some?
    ensures var d := After(b, updates).dataFeed;
            && d.Some?
            && (!SomeSwitchOff(b, updates) ==>
                  d.value.globalData == b.dataFeed.value.globalData && d.value.fetchedAt == b.dataFeed.value.fetchedAt)
            && (SomeSwitchOff(b, updates) ==> d.value.globalData.None? && d.value.fetchedAt.None?)
    decreases |updates|
  {
    if updates != [] {
      var next := Patched(b, updates[0].request, updates[0].now);
      if SwitchesOff(b.dataFeed, updates[0].request.dataFeed) {
        NoDataStays(next, updates[1..]);
      } else {
        FeedDataSurvivesIffNotSwitchedOff(next, updates[1..]);
      }
    }
  }
}
