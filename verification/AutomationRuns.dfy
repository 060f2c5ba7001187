/**
 What every run keeps about one automation and one customer: starts are apart, few at a time, or once only;
 and which entries an automation hears.
 */
module AutomationRuns {
  import opened Automations
  import opened Timeline
  import opened TimelineEntries
  import opened TimelineText
  import opened Triggers
  import opened Wrappers

  // ---------- one run of a trigger ----------

  /** The limits of the entry guard leave room: fewer running than allowed, and the last start long enough ago. */
  predicate HasRoom(g: EntryGuard, j: Journey, now: int) {
    && (g.maxConcurrent <= 0 || j.active < g.maxConcurrent)
    && (g.cooldown <= 0 || j.latest.None? || j.latest.value + g.cooldown <= now)
  }

  /** The contact is let in: its address is known, the automation live and its condition met, it is not used up, and a guard that applies has room. */
  predicate LetIn(t: Tables, a: Automation, email: string, now: int) {
    && a.condition(FactsOf(t), email) && a.id in t.registry.live && email in t.registry.owners
    && var o := t.registry.owners[email];
       var j := JourneyOf(t.registry, a.id, o.customer);
       !(a.once && j.onceUsed) && (o.direct && a.guard.enabled ==> HasRoom(a.guard, j, now))
  }

  /**
   Exactly then the run appends an entry; it queues the contact, counts one more running instance and remembers
   the start. Otherwise timeline, queue, instances and starts are as they were.
   */
  lemma StartsIffLetIn(t: Tables, a: Automation, email: string, now: int)
    ensures var u := Settled(t, [Enroll(a, email)], now);
            if !LetIn(t, a, email, now) then
              && u.timeline == t.timeline && u.queue == t.queue
              && forall id, c :: JourneyOf(u.registry, id, c).active == JourneyOf(t.registry, id, c).active
                                 && JourneyOf(u.registry, id, c).latest == JourneyOf(t.registry, id, c).latest
                                 && (JourneyOf(t.registry, id, c).onceUsed ==> JourneyOf(u.registry, id, c).onceUsed)
            else
              var customer := t.registry.owners[email].customer;
              var j, k := JourneyOf(t.registry, a.id, customer), JourneyOf(u.registry, a.id, customer);
              && u.timeline == t.timeline + [Entry(email, Insert, AutomationStarted, Some(a.id), Started(a.id, a.root, customer), now)]
              && u.queue == t.queue[email := now]
              && k.active == j.active + 1 && (a.once ==> k.onceUsed)
              && k.latest.Some? && now <= k.latest.value && (j.latest.Some? ==> j.latest.value <= k.latest.value)
              && forall id, c | (id, c) != (a.id, customer) :: JourneyOf(u.registry, id, c) == JourneyOf(t.registry, id, c)
  {
    SettledEnroll(t, a, email, now);
  }

  // ---------- runs ----------

  /** The entry of a start of the automation for the customer. */
  predicate StartOf(e: Entry, a: Automation, customer: string) {
    e.kind.AutomationStarted? && e.changes.Started? && e.changes.automation == a.id && e.changes.customer == customer
  }

  /** The automation is installed under its id or not at all, and every known address is some contact's own. */
  ghost predicate Installs(r: Registry, a: Automation) {
    && (forall i | 0 <= i < |r.triggers| :: r.triggers[i].id == a.id ==> r.triggers[i] == a)
    && forall e | e in r.owners :: r.owners[e].direct
  }

  /** A change from outside that ends instances at most: no start is forgotten, none is added. */
  ghost predicate EndsOnly(r: Registry, n: Registry, a: Automation, customer: string) {
    var j, k := JourneyOf(r, a.id, customer), JourneyOf(n, a.id, customer);
    Installs(n, a) && k.active <= j.active && k.latest == j.latest && (j.onceUsed ==> k.onceUsed)
  }

  /** No write forges the entry of a start; enrolments are those of installed automations. */
  ghost predicate Regular(t: Tables, w: Write) {
    && (w.Append? ==> !w.entry.kind.AutomationStarted?)
    && (w.Enroll? ==> exists i | 0 <= i < |t.registry.triggers| :: t.registry.triggers[i] == w.automation)
  }

  ghost predicate AllRegular(t: Tables, ws: seq<Write>) { forall i | 0 <= i < |ws| :: Regular(t, ws[i]) }

  /** Past the first `m` entries: what the starts keep. */
  ghost predicate Ruled(t: Tables, m: nat, a: Automation, customer: string, most: nat, used: bool) {
    && Installs(t.registry, a) && m <= |t.timeline|
    && (a.guard.enabled && a.guard.cooldown > 0 ==> Apart(t, m, a, customer))
    && (a.guard.enabled && a.guard.maxConcurrent > 0 ==> JourneyOf(t.registry, a.id, customer).active <= most)
    && (a.once ==> OnceOnly(t, m, a, customer, used))
  }

  /** Starts are at least the cooldown apart, and none is later than the latest on record. */
  ghost predicate Apart(t: Tables, m: nat, a: Automation, customer: string) {
    && (forall i | m <= i < |t.timeline| && StartOf(t.timeline[i], a, customer) ::
          JourneyOf(t.registry, a.id, customer).latest.Some? && t.timeline[i].at <= JourneyOf(t.registry, a.id, customer).latest.value)
    && (forall i, j | m <= i < j < |t.timeline| && StartOf(t.timeline[i], a, customer) && StartOf(t.timeline[j], a, customer) ::
          t.timeline[i].at + a.guard.cooldown <= t.timeline[j].at)
  }

  /** There is one start at most, none if there was a record before, and a record of it. */
  ghost predicate OnceOnly(t: Tables, m: nat, a: Automation, customer: string, used: bool) {
    && (used ==> JourneyOf(t.registry, a.id, customer).onceUsed)
    && (forall i | m <= i < |t.timeline| && StartOf(t.timeline[i], a, customer) :: JourneyOf(t.registry, a.id, customer).onceUsed && !used)
    && (forall i, j | m <= i < j < |t.timeline| :: !(StartOf(t.timeline[i], a, customer) && StartOf(t.timeline[j], a, customer)))
  }

  lemma EnrollKeepsApart(t: Tables, b: Automation, email: string, now: int, m: nat, a: Automation, customer: string)
    requires Installs(t.registry, a) && m <= |t.timeline| && (b.id == a.id ==> b == a) && a.guard.enabled && a.guard.cooldown > 0
    requires Apart(t, m, a, customer)
    ensures Apart(Settled(t, [Enroll(b, email)], now), m, a, customer)
  {
    StartsIffLetIn(t, b, email, now);
  }

  lemma EnrollKeepsCount(t: Tables, b: Automation, email: string, now: int, a: Automation, customer: string, most: nat)
    requires Installs(t.registry, a) && (b.id == a.id ==> b == a) && a.guard.enabled && 0 < a.guard.maxConcurrent <= most
    requires JourneyOf(t.registry, a.id, customer).active <= most
    ensures JourneyOf(Settled(t, [Enroll(b, email)], now).registry, a.id, customer).active <= most
  {
    StartsIffLetIn(t, b, email, now);
  }

  lemma EnrollKeepsOnce(t: Tables, b: Automation, email: string, now: int, m: nat, a: Automation, customer: string, used: bool)
    requires m <= |t.timeline| && (b.id == a.id ==> b == a) && a.once && OnceOnly(t, m, a, customer, used)
    ensures OnceOnly(Settled(t, [Enroll(b, email)], now), m, a, customer, used)
  {
    StartsIffLetIn(t, b, email, now);
  }

  lemma EnrollKeepsRule(t: Tables, b: Automation, email: string, now: int, m: nat, a: Automation, customer: string, most: nat, used: bool)
    requires Ruled(t, m, a, customer, most, used) && (b.id == a.id ==> b == a) && a.guard.maxConcurrent <= most
    ensures Ruled(Settled(t, [Enroll(b, email)], now), m, a, customer, most, used)
  {
    SettledKeepsTriggers(t, [Enroll(b, email)], now);
    EarlierEntriesStay(t, [Enroll(b, email)], now);
    if a.guard.enabled && a.guard.cooldown > 0 { EnrollKeepsApart(t, b, email, now, m, a, customer); }
    if a.guard.enabled && a.guard.maxConcurrent > 0 { EnrollKeepsCount(t, b, email, now, a, customer, most); }
    if a.once { EnrollKeepsOnce(t, b, email, now, m, a, customer, used); }
  }

  lemma OtherKeepsRule(t: Tables, w: Write, now: int, m: nat, a: Automation, customer: string, most: nat, used: bool)
    requires Ruled(t, m, a, customer, most, used) && Applies(t, w) && !w.Enroll? && Regular(t, w)
    ensures Ruled(Executed(t, w, now), m, a, customer, most, used)
  {
    ExecutedTimeline(t, w, now);
  }

  lemma FiredAreRegular(t: Tables, w: Write, now: int)
    requires Applies(t, w) && !w.Enroll?
    ensures AllRegular(t, Fired(t, w, now))
  {
    if w.Append? {
      EnrolmentsAreRegular(t, |t.registry.triggers|, w.entry);
      assert t.registry.triggers[..|t.registry.triggers|] == t.registry.triggers;
      RegularJoin(t, Enrolments(t.registry.triggers, w.entry), Requeue(w.entry));
    } else if !SegmentWrite(w) {
      FiredAreRoutine(t, w, now);
      NoneEnroll(t, w, now);
    }
  }

  lemma NoneEnroll(t: Tables, w: Write, now: int)
    requires Applies(t, w) && !w.Append?
    ensures forall i | 0 <= i < |Fired(t, w, now)| :: !Fired(t, w, now)[i].Enroll?
  {}

  lemma RegularJoin(t: Tables, a: seq<Write>, b: seq<Write>)
    requires AllRegular(t, a) && AllRegular(t, b)
    ensures AllRegular(t, a + b)
  {}

  lemma {:induction false} EnrolmentsAreRegular(t: Tables, n: nat, entry: Entry)
    requires n <= |t.registry.triggers|
    ensures AllRegular(t, Enrolments(t.registry.triggers[..n], entry))
  {
    if n > 0 {
      assert t.registry.triggers[..n][..n - 1] == t.registry.triggers[..n - 1];
      EnrolmentsAreRegular(t, n - 1, entry);
    }
  }

  lemma RegularStays(t: Tables, u: Tables, ws: seq<Write>)
    requires AllRegular(t, ws) && u.registry.triggers == t.registry.triggers
    ensures AllRegular(u, ws)
  {}

  lemma {:induction false} CascadeKeepsRule(t: Tables, pending: seq<Write>, now: int, m: nat, a: Automation, customer: string, most: nat, used: bool)
    requires Ruled(t, m, a, customer, most, used) && AllRegular(t, pending) && a.guard.maxConcurrent <= most
    ensures Ruled(Settled(t, pending, now), m, a, customer, most, used)
    decreases Load(t, pending)
  {
    if pending != [] {
      var w, rest := pending[0], pending[1..];
      assert pending == [w] + rest;
      if !Applies(t, w) {
        CascadeKeepsRule(t, rest, now, m, a, customer, most, used);
      } else if w.Enroll? {
        var v := Settled(t, [w], now);
        SettledJoin(t, [w], rest, now);
        SettledKeepsTriggers(t, [w], now);
        EnrollKeepsRule(t, w.automation, w.email, now, m, a, customer, most, used);
        RegularStays(t, v, rest);
        CascadeKeepsRule(v, rest, now, m, a, customer, most, used);
      } else {
        var v := Executed(t, w, now);
        NextIsLighter(t, w, rest, now);
        ExecutedKeepsTriggers(t, w, now);
        OtherKeepsRule(t, w, now, m, a, customer, most, used);
        FiredAreRegular(t, w, now);
        RegularJoin(t, Fired(t, w, now), rest);
        RegularStays(t, v, Fired(t, w, now) + rest);
        CascadeKeepsRule(v, Fired(t, w, now) + rest, now, m, a, customer, most, used);
      }
    }
  }

  /** Statements other than forged starts, and outside changes that end instances at most. */
  ghost predicate Admissible(t: Tables, ops: seq<Op>, a: Automation, customer: string)
    decreases |ops|
  {
    ops == [] ||
    (var n := |ops| - 1;
     && Admissible(t, ops[..n], a, customer)
     && match ops[n]
        case Statement(w, _) => !w.Enroll? && (w.Append? ==> !w.entry.kind.AutomationStarted?)
        case Outside(r) => EndsOnly(Run(t, ops[..n]).registry, r, a, customer))
  }

  lemma {:induction false} RunKeepsRule(t: Tables, ops: seq<Op>, m: nat, a: Automation, customer: string, most: nat, used: bool)
    requires Ruled(t, m, a, customer, most, used) && Admissible(t, ops, a, customer) && a.guard.maxConcurrent <= most
    ensures Ruled(Run(t, ops), m, a, customer, most, used)
    decreases |ops|
  {
    if ops != [] {
      var n := |ops| - 1;
      RunKeepsRule(t, ops[..n], m, a, customer, most, used);
      if ops[n].Statement? {
        CascadeKeepsRule(Run(t, ops[..n]), [ops[n].write], ops[n].now, m, a, customer, most, used);
      }
    }
  }

  /** Two starts of a guarded automation for one customer are at least its cooldown apart, whatever the run. */
  lemma StartsAreApart(t: Tables, ops: seq<Op>, a: Automation, customer: string, i: nat, j: nat)
    requires Installs(t.registry, a) && Admissible(t, ops, a, customer) && a.guard.enabled && a.guard.cooldown > 0
    requires |t.timeline| <= i < j < |Run(t, ops).timeline|
    requires StartOf(Run(t, ops).timeline[i], a, customer) && StartOf(Run(t, ops).timeline[j], a, customer)
    ensures Run(t, ops).timeline[i].at + a.guard.cooldown <= Run(t, ops).timeline[j].at
  {
    RunOfRule(t, ops, a, customer);
  }

  /** The instances of a customer never come to more than the maximum, unless they were more at the start. */
  lemma InstancesBounded(t: Tables, ops: seq<Op>, a: Automation, customer: string)
    requires Installs(t.registry, a) && Admissible(t, ops, a, customer) && a.guard.enabled && a.guard.maxConcurrent > 0
    ensures var before := JourneyOf(t.registry, a.id, customer).active;
            JourneyOf(Run(t, ops).registry, a.id, customer).active <= if before > a.guard.maxConcurrent then before else a.guard.maxConcurrent
  {
    RunOfRule(t, ops, a, customer);
  }

  /** A once-only automation starts at most once for a customer, and never again where it is on record. */
  lemma StartsOnce(t: Tables, ops: seq<Op>, a: Automation, customer: string, i: nat, j: nat)
    requires Installs(t.registry, a) && Admissible(t, ops, a, customer) && a.once
    requires |t.timeline| <= i < |Run(t, ops).timeline| && |t.timeline| <= j < |Run(t, ops).timeline|
    requires StartOf(Run(t, ops).timeline[i], a, customer) && StartOf(Run(t, ops).timeline[j], a, customer)
    ensures i == j && !JourneyOf(t.registry, a.id, customer).onceUsed
  {
    RunOfRule(t, ops, a, customer);
  }

  lemma RunOfRule(t: Tables, ops: seq<Op>, a: Automation, customer: string)
    requires Installs(t.registry, a) && Admissible(t, ops, a, customer)
    ensures var j := JourneyOf(t.registry, a.id, customer);
            var most := if j.active > a.guard.maxConcurrent then j.active else a.guard.maxConcurrent;
            Ruled(Run(t, ops), |t.timeline|, a, customer, most, j.onceUsed)
  {
    var j := JourneyOf(t.registry, a.id, customer);
    var most := if j.active > a.guard.maxConcurrent then j.active else a.guard.maxConcurrent;
    RunKeepsRule(t, ops, |t.timeline|, a, customer, most, j.onceUsed);
  }

  // ---------- which entries are heard ----------

  /** The change of list a list event stands for. */
  function ChangeOf(e: ListEvent): ListChange {
    match e
    case Subscribed => Joined case Unsubscribes => LeftList case Confirms => Confirmed case Resubscribed => Rejoined
    case Bounces => BouncedOff case Complains => ComplainedOff case Pends => JoinedPending case Removes => Removed
  }

  lemma FirstLetters(l: Listener)
    ensures l.OnList? <==> ListenerText(l)[0] == 'l'
    ensures l.OnSegment? <==> ListenerText(l)[0] == 's'
    ensures l.OnEmail? <==> ListenerText(l)[0] == 'e'
    ensures |ListenerText(l)| > 1 && (l.OnCustomEvent? <==> ListenerText(l)[0] == 'c' && ListenerText(l)[1] == 'u')
  {}

  /** A list entry is heard by the automations on that change and that list, and by no others. */
  lemma ListEntryHeardIff(l: Listener, entry: Entry)
    requires entry.kind.ListKind?
    ensures Hears(l, entry) <==> l.OnList? && ChangeOf(l.change) == entry.kind.change && entry.entityID == Some(l.list)
  {
    FirstLetters(l);
    assert KindText(entry.kind)[0] == 'l';
    if l.OnList? { ListEventTexts(l.change, entry.kind.change); }
  }

  lemma ListEventTexts(e: ListEvent, c: ListChange)
    ensures ListEventText(e) == ListText(c) <==> ChangeOf(e) == c
  {
    ListTextShape(c);
    ListTextShape(ChangeOf(e));
  }

  lemma ListTextShape(c: ListChange)
    ensures var s := ListText(c);
            && |s| >= 9
            && (|s|, s[5], s[8]) == match c
                                    case Joined => (15, 's', 's') case JoinedPending => (12, 'p', 'd') case LeftList => (17, 'u', 'u')
                                    case BouncedOff => (12, 'b', 'n') case ComplainedOff => (15, 'c', 'p') case Confirmed => (14, 'c', 'f')
                                    case Rejoined => (17, 'r', 'u') case Removed => (12, 'r', 'o') case Moved => (19, 's', 't')
  {}

  /** The entry of a new contact is heard by the automations on new contacts alone. */
  lemma NewContactHeardIff(l: Listener, entry: Entry)
    requires entry.kind.ContactCreated?
    ensures Hears(l, entry) <==> l == OnContact(Created)
  {
    FirstLetters(l);
    if l.OnContact? { ContactEventShape(l.event); }
  }

  lemma ContactEventShape(e: ContactEvent)
    ensures var s := ContactEventText(e);
            && |s| >= 12
            && (|s|, s[8], s[11]) == match e
                                     case Created => (15, 'c', 'a') case Updated(_) => (15, 'u', 'a') case Deleted => (15, 'd', 'e')
                                     case ProfileCreated => (23, 'p', 'f') case ProfileUpdated => (23, 'p', 'f')
                                     case Tagged(_) => (14, 't', 'g') case Untagged(_) => (16, 'u', 'a')
  {}

  /** The entry of a contact update is heard by the automations on any update, or on one of the columns that changed. */
  lemma ContactUpdateHeardIff(l: Listener, entry: Entry)
    requires entry.kind.ContactUpdated? && entry.changes.Contacted?
    ensures Hears(l, entry) <==>
              && l.OnContact? && l.event.Updated?
              && (l.event.fields == {} || exists column | column in entry.changes.columns :: ColumnText(column) in l.event.fields)
  {
    FirstLetters(l);
    if l.OnContact? { ContactEventShape(l.event); }
  }

  /** A custom event is heard by the automations on events of that name alone. */
  lemma CustomEventHeardIff(l: Listener, entry: Entry)
    requires entry.kind.CustomEvent?
    ensures Hears(l, entry) <==> l == OnCustomEvent(entry.kind.name)
  {
    FirstLetters(l);
    assert KindText(entry.kind)[..13] == "custom_event." && KindText(entry.kind)[13..] == entry.kind.name;
    if l.OnCustomEvent? { assert ListenerText(l)[..13] == "custom_event." && ListenerText(l)[13..] == l.name; }
  }

  /** A mark on an e-mail is heard by the automations on that mark alone. */
  lemma EmailMarkHeardIff(l: Listener, entry: Entry)
    requires entry.kind.MarkedOn? && entry.kind.channel == "email"
    ensures Hears(l, entry) <==> l == OnEmail(entry.kind.mark)
  {
    FirstLetters(l);
    assert KindText(entry.kind)[0] == 'e';
    if l.OnEmail? { MarkTextsDiffer(l.mark, entry.kind.mark); }
  }

  lemma MarkTextsDiffer(a: Mark, b: Mark)
    ensures "email." + MarkText(a) == "email" + "." + MarkText(b) <==> a == b
  {
    assert ("email." + MarkText(a))[6..] == MarkText(a) && ("email" + "." + MarkText(b))[6..] == MarkText(b);
    assert MarkText(Opened)[0] == 'o' && MarkText(Bounce)[0] == 'b' && MarkText(Unsubscribe)[0] == 'u';
    assert MarkText(Clicked)[1] == 'l' && MarkText(Complaint)[1] == 'o' && MarkText(Bounce)[1] == 'o';
  }

  /** A condition is judged on the tables as they are when the trigger runs, the entry that woke it included. */
  lemma ConditionsSeeTheEntry(t: Tables, entry: Entry)
    ensures var f := FactsOf(t.(timeline := t.timeline + [entry]));
            && f.timeline == t.timeline + [entry] && f.contacts == t.contacts && f.memberships == t.memberships
            && f.messages == t.messages && f.events == t.events && f.segments == t.segments
  {}

  /** With one automation installed, appending an entry is the entry, then a start exactly if it is heard and the contact let in. */
  lemma SoleAutomation(t: Tables, a: Automation, entry: Entry, now: int)
    requires t.registry.triggers == [a] && !entry.kind.AutomationStarted?
    ensures var v := t.(timeline := t.timeline + [entry]);
            Settled(t, [Append(entry)], now).timeline
            == v.timeline + if Hears(a.listener, entry) && LetIn(v, a, entry.email, now)
                            then [Entry(entry.email, Insert, AutomationStarted, Some(a.id),
                                        Started(a.id, a.root, t.registry.owners[entry.email].customer), now)]
                            else []
  {
    var v := t.(timeline := t.timeline + [entry]);
    SettledAppend(t, entry, now);
    assert [a][..0] == [];
    assert Enrolments([a], entry) == if Hears(a.listener, entry) then [Enroll(a, entry.email)] else [];
    StartsIffLetIn(v, a, entry.email, now);
    SettledRequeue(Settled(v, Enrolments(t.registry.triggers, entry), now), entry, now);
  }
}
