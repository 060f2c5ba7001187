/** What bounces and complaints make of a list membership's status, and how the timeline counts it. */
module ListStatus {
  import opened Timeline
  import opened TimelineEntries
  import opened TimelineHistory
  import opened Triggers
  import opened Wrappers

  /** Others below bounced below complained. */
  function Severity(s: Status): nat { if s.Complained? then 2 else if s.Bounced? then 1 else 0 }

  /** The least status at or above `s` and the events seen. */
  function Worst(s: Status, bounced: bool, complained: bool): Status {
    if complained || s.Complained? then Complained
    else if bounced || s.Bounced? then Bounced
    else s
  }

  function StatusOf(t: Tables, e: string, l: string): Status
    requires (e, l) in t.memberships
  {
    t.memberships[(e, l)].status
  }

  /** How many entries the timeline holds on the membership. */
  function Logged(t: Tables, e: string, l: string): nat { |Select(t.timeline, MembershipOf(e, l))| }

  /** The write sets the mark on a message of this contact and list, which did not have it. */
  predicate Hits(t: Tables, w: Write, e: string, l: string, mark: Mark) {
    && w.UpdateMessage? && w.id in t.messages && NewlyMarked(t.messages[w.id], w.message, mark)
    && w.message.email == e && w.message.list == Some(l)
  }

  /** Left to the triggers: nothing writes the membership or its entries directly. */
  predicate Indirect(w: Write, e: string, l: string) { w.UpdateMessage? || Silent(w, MembershipOf(e, l)) }

  /** `u` is `t` with the membership at `status`, and one entry more exactly when that is a change. */
  ghost predicate Becomes(t: Tables, u: Tables, e: string, l: string, status: Status) {
    && (e, l) in t.memberships && (e, l) in u.memberships
    && StatusOf(u, e, l) == status
    && Logged(u, e, l) == Logged(t, e, l) + (if status == StatusOf(t, e, l) then 0 else 1)
  }

  lemma SetStatusBecomes(t: Tables, w: Write, now: int)
    requires w.SetStatus? && (w.email, w.list) in t.memberships && w.status in w.spared
    ensures var s := StatusOf(t, w.email, w.list);
            Becomes(t, Settled(t, [w], now), w.email, w.list, if s in w.spared then s else w.status)
  {
    SettledOne(t, w, now);
    var o := t.memberships[(w.email, w.list)];
    if o.status !in w.spared {
      var entry := Entry(w.email, Update, ListKind(Transition(o.status, w.status)), Some(w.list), Restated(o.status, w.status), now);
      AppendOnTopic(Executed(t, w, now), entry, now, MembershipOf(w.email, w.list));
      SelectOneMore(t.timeline, entry, MembershipOf(w.email, w.list));
    }
  }

  /** One of the two statements of the status trigger, seen from the membership of e in l. */
  lemma StatementBecomes(t: Tables, o: Message, n: Message, mark: Mark, status: Status, spared: seq<Status>, now: int, e: string, l: string)
    requires (e, l) in t.memberships && status in spared
    ensures var s := StatusOf(t, e, l);
            Becomes(t, Settled(t, StatusStatement(o, n, mark, status, spared), now), e, l,
                    if NewlyMarked(o, n, mark) && n.email == e && n.list == Some(l) && s !in spared then status else s)
  {
    var ws := StatusStatement(o, n, mark, status, spared);
    if ws != [] {
      if n.email == e && n.list == Some(l) {
        SetStatusBecomes(t, ws[0], now);
      } else {
        SilentWriteKeeps(t, ws[0], now, MembershipOf(e, l));
      }
    }
  }

  /** One message update: a complaint wins over everything, a bounce over all but a complaint. */
  lemma UpdateBecomesWorst(t: Tables, w: Write, now: int, e: string, l: string)
    requires w.UpdateMessage? && w.id in t.messages && (e, l) in t.memberships
    ensures Becomes(t, Settled(t, [w], now), e, l, Worst(StatusOf(t, e, l), Hits(t, w, e, l, Bounce), Hits(t, w, e, l, Complaint)))
  {
    var o, n := t.messages[w.id], w.message;
    UpdateMessageSettles(t, w.id, n, now);
    var t0 := t.(messages := t.messages[w.id := n]);
    MessageEntriesAreSilent(w.id, o, n, MembershipOf(e, l));
    SilentKeeps(t0, MessageEntries(w.id, o, n), now, MembershipOf(e, l));
    var t1 := Settled(t0, MessageEntries(w.id, o, n), now);
    StatementBecomes(t1, o, n, Complaint, Complained, [Complained], now, e, l);
    var t2 := Settled(t1, ComplaintStatement(o, n), now);
    StatementBecomes(t2, o, n, Bounce, Bounced, [Complained, Bounced], now, e, l);
  }

  lemma OneOpBecomesWorst(t: Tables, w: Write, now: int, e: string, l: string)
    requires (e, l) in t.memberships && Indirect(w, e, l)
    ensures Becomes(t, Settled(t, [w], now), e, l, Worst(StatusOf(t, e, l), Hits(t, w, e, l, Bounce), Hits(t, w, e, l, Complaint)))
  {
    if w.UpdateMessage? {
      if w.id in t.messages { UpdateBecomesWorst(t, w, now, e, l); } else { SettledOne(t, w, now); }
    } else {
      SilentWriteKeeps(t, w, now, MembershipOf(e, l));
    }
  }

  predicate AllIndirect(ops: seq<Op>, e: string, l: string) { forall i | 0 <= i < |ops| :: ops[i].Statement? ==> Indirect(ops[i].write, e, l) }

  predicate HitsAt(t: Tables, ops: seq<Op>, j: nat, e: string, l: string, mark: Mark)
    requires j < |ops|
  {
    ops[j].Statement? && Hits(Run(t, ops[..j]), ops[j].write, e, l, mark)
  }

  predicate SomeHit(t: Tables, ops: seq<Op>, e: string, l: string, mark: Mark) {
    exists j | 0 <= j < |ops| :: HitsAt(t, ops, j, e, l, mark)
  }

  lemma SomeHitSplit(t: Tables, ops: seq<Op>, e: string, l: string, mark: Mark)
    requires ops != []
    ensures var n := |ops| - 1;
            SomeHit(t, ops, e, l, mark) <==> SomeHit(t, ops[..n], e, l, mark) || HitsAt(t, ops, n, e, l, mark)
  {
    var n := |ops| - 1;
    forall j: nat | j < n
      ensures HitsAt(t, ops[..n], j, e, l, mark) == HitsAt(t, ops, j, e, l, mark)
    {
      assert ops[..n][..j] == ops[..j];
    }
    if SomeHit(t, ops[..n], e, l, mark) {
      var j: nat :| j < n && HitsAt(t, ops[..n], j, e, l, mark);
      assert HitsAt(t, ops, j, e, l, mark);
    }
  }

  /** Status changes over the run, counted operation by operation. */
  function StatusChanges(t: Tables, ops: seq<Op>, e: string, l: string): nat
    decreases |ops|
  {
    if ops == [] then 0
    else
      var n := |ops| - 1;
      var v, u := Run(t, ops[..n]), Run(t, ops);
      StatusChanges(t, ops[..n], e, l)
      + (if (e, l) in v.memberships && (e, l) in u.memberships && StatusOf(v, e, l) != StatusOf(u, e, l) then 1 else 0)
  }

  /**
   Over every run that leaves the membership to the triggers, its status ends at the join of where it
   started and the events it saw; each change of status logs one entry, and there are at most two.
   */
  lemma {:induction false} StatusIsJoin(t: Tables, ops: seq<Op>, e: string, l: string)
    requires (e, l) in t.memberships && AllIndirect(ops, e, l)
    ensures var u := Run(t, ops);
            && (e, l) in u.memberships
            && StatusOf(u, e, l) == Worst(StatusOf(t, e, l), SomeHit(t, ops, e, l, Bounce), SomeHit(t, ops, e, l, Complaint))
            && Logged(u, e, l) == Logged(t, e, l) + StatusChanges(t, ops, e, l)
            && StatusChanges(t, ops, e, l) <= Severity(StatusOf(u, e, l)) - Severity(StatusOf(t, e, l)) <= 2
    decreases |ops|
  {
    if ops != [] {
      var n := |ops| - 1;
      StatusIsJoin(t, ops[..n], e, l);
      if ops[n].Statement? { OneOpBecomesWorst(Run(t, ops[..n]), ops[n].write, ops[n].now, e, l); }
      SomeHitSplit(t, ops, e, l, Bounce);
      SomeHitSplit(t, ops, e, l, Complaint);
    }
  }

  // ---------- the messages ----------

  predicate LeavesMessages(w: Write) { !w.InsertMessage? && !w.UpdateMessage? }

  predicate AllLeaveMessages(ws: seq<Write>) { forall i | 0 <= i < |ws| :: LeavesMessages(ws[i]) }

  lemma {:induction false} MessagesStay(t: Tables, pending: seq<Write>, now: int)
    requires AllLeaveMessages(pending)
    ensures Settled(t, pending, now).messages == t.messages
    decreases Load(t, pending)
  {
    if pending != [] {
      var w, rest := pending[0], pending[1..];
      if !Applies(t, w) {
        MessagesStay(t, rest, now);
      } else {
        NextIsLighter(t, w, rest, now);
        FiredLeaveMessages(t, w, now);
        MessagesStay(Executed(t, w, now), Fired(t, w, now) + rest, now);
      }
    }
  }

  lemma FiredLeaveMessages(t: Tables, w: Write, now: int)
    requires Applies(t, w)
    ensures AllLeaveMessages(Fired(t, w, now))
  {
    if SegmentWrite(w) || w.Enroll? {
      assert |Fired(t, w, now)| <= 1;
    } else {
      FiredAreRoutine(t, w, now);
    }
  }

  lemma UpdateMessageMessages(t: Tables, w: Write, now: int)
    requires w.UpdateMessage?
    ensures Settled(t, [w], now).messages == if w.id in t.messages then t.messages[w.id := w.message] else t.messages
  {
    SettledOne(t, w, now);
    if w.id in t.messages {
      FiredLeaveMessages(t, w, now);
      MessagesStay(Executed(t, w, now), Fired(t, w, now), now);
    }
  }
}
