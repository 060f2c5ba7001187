/** The status machine of a delivery intent, and what every run of it keeps. */
module Delivery {

  datatype Status =
    | Planned | Reserved | Queued | Submitting | ProviderAccepted | Confirmed
    | Suppressed | Deferred | TransientFailed | TerminalFailed | Unknown | Cancelled
    | Other(text: string)

  /** `deliveryStatusTransitions`. */
  const TRANSITIONS: map<Status, set<Status>> := map[
    Planned := {Reserved, Suppressed, Deferred, Cancelled},
    Reserved := {Queued, Suppressed, Deferred, Cancelled},
    Queued := {Submitting, Suppressed, Deferred, TransientFailed, Cancelled},
    Submitting := {ProviderAccepted, TransientFailed, TerminalFailed, Unknown},
    ProviderAccepted := {Confirmed, TerminalFailed, Unknown},
    Deferred := {Queued, Cancelled},
    TransientFailed := {Queued, TerminalFailed, Cancelled},
    Unknown := {ProviderAccepted, Confirmed, TerminalFailed, Cancelled}
  ]

  predicate Valid(s: Status) { !s.Other? }

  predicate CanTransitionTo(s: Status, next: Status) {
    Valid(s) && Valid(next) && s != next && s in TRANSITIONS && next in TRANSITIONS[s]
  }

  /** The same table read the other way: where each status is entered from. */
  function EnteredFrom(next: Status): set<Status> {
    match next
    case Planned => {}
    case Reserved => {Planned}
    case Queued => {Reserved, Deferred, TransientFailed}
    case Submitting => {Queued}
    case ProviderAccepted => {Submitting, Unknown}
    case Confirmed => {ProviderAccepted, Unknown}
    case Suppressed => {Planned, Reserved, Queued}
    case Deferred => {Planned, Reserved, Queued}
    case TransientFailed => {Queued, Submitting}
    case TerminalFailed => {Submitting, ProviderAccepted, TransientFailed, Unknown}
    case Unknown => {Submitting, ProviderAccepted}
    case Cancelled => {Planned, Reserved, Queued, Deferred, TransientFailed, Unknown}
    case Other(_) => {}
  }

  lemma EnteredIff(s: Status, next: Status)
    ensures CanTransitionTo(s, next) <==> s in EnteredFrom(next)
  {}

  /** A run of the machine: it starts planned and takes allowed transitions only. */
  predicate Run(run: seq<Status>) {
    && run != [] && run[0] == Planned
    && forall i | 0 <= i < |run| - 1 :: CanTransitionTo(run[i], run[i + 1])
  }

  predicate Terminal(s: Status) { s in {Confirmed, Suppressed, TerminalFailed, Cancelled} }

  predicate Settled(s: Status) { Terminal(s) || s in {ProviderAccepted, Unknown} }

  /** The statuses nothing leaves are the four terminal ones. */
  lemma TerminalIffNoExit(s: Status)
    requires Valid(s)
    ensures Terminal(s) <==> forall next :: !CanTransitionTo(s, next)
  {
    if !Terminal(s) {
      var next := match s
        case Planned => Reserved case Reserved => Queued case Queued => Submitting
        case Submitting => Unknown case ProviderAccepted => Confirmed case Deferred => Queued
        case TransientFailed => Queued case _ => Confirmed;
      assert CanTransitionTo(s, next);
    }
  }

  /** Once accepted, unknown or terminal, a delivery is never queued or submitted again. */
  lemma {:induction false} SettledStaysSettled(run: seq<Status>, i: nat, j: nat)
    requires Run(run) && i <= j < |run| && Settled(run[i])
    ensures Settled(run[j]) && run[j] !in {Queued, Submitting}
    decreases j
  {
    if i < j {
      SettledStaysSettled(run, i, j - 1);
      assert CanTransitionTo(run[j - 1], run[j]);
    }
  }

  /** Every submission but the last is immediately followed by a transient failure. */
  lemma ResubmittedOnlyAfterTransientFailure(run: seq<Status>, i: nat, j: nat)
    requires Run(run) && i < j < |run| && run[i] == Submitting && run[j] == Submitting
    ensures run[i + 1] == TransientFailed
  {
    assert CanTransitionTo(run[i], run[i + 1]);
    if Settled(run[i + 1]) { SettledStaysSettled(run, i + 1, j); }
  }

  /** Acceptance, confirmation and the unknown outcome are reached only after queued, then submitting. */
  lemma {:induction false} OutcomeNeedsSubmission(run: seq<Status>, j: nat) returns (i: nat)
    requires Run(run) && j < |run| && run[j] in {ProviderAccepted, Unknown, Confirmed}
    ensures i + 1 < j && run[i] == Queued && run[i + 1] == Submitting
    decreases j
  {
    assert j > 0 && CanTransitionTo(run[j - 1], run[j]);
    if run[j - 1] == Submitting {
      assert j > 1 && CanTransitionTo(run[j - 2], run[j - 1]);
      i := j - 2;
    } else {
      i := OutcomeNeedsSubmission(run, j - 1);
    }
  }

  function Visits(run: seq<Status>, s: Status): nat {
    if run == [] then 0 else Visits(run[..|run| - 1], s) + if run[|run| - 1] == s then 1 else 0
  }

  /** There is at most one submission more than there are transient failures, and none more while the next one is still ahead. */
  lemma {:induction false} SubmissionsBounded(run: seq<Status>)
    requires Run(run)
    ensures Visits(run, Submitting) <= Visits(run, TransientFailed) + 1
    ensures !Settled(run[|run| - 1]) && run[|run| - 1] != Submitting ==>
              Visits(run, Submitting) <= Visits(run, TransientFailed)
  {
    var n := |run|;
    if n > 1 {
      assert CanTransitionTo(run[n - 2], run[n - 1]);
      var before := run[..n - 1];
      forall i | 0 <= i < n - 2 ensures CanTransitionTo(before[i], before[i + 1]) {
        assert CanTransitionTo(run[i], run[i + 1]);
      }
      SubmissionsBounded(before);
    } else {
      assert run[..0] == [];
    }
  }

  /** There is no bound on retries: some run submits `n` times. */
  lemma {:induction false} RetriesUnbounded(n: nat) returns (run: seq<Status>)
    ensures Run(run) && run[|run| - 1] in {Reserved, TransientFailed} && Visits(run, Submitting) == n
  {
    if n == 0 {
      run := [Planned, Reserved];
      assert run[..1] == [Planned] && [Planned][..0] == [];
    } else {
      var before := RetriesUnbounded(n - 1);
      VisitsAppend(before, Queued, Submitting);
      VisitsAppend(before + [Queued], Submitting, Submitting);
      VisitsAppend(before + [Queued] + [Submitting], TransientFailed, Submitting);
      run := before + [Queued] + [Submitting] + [TransientFailed];
      var m := |before|;
      forall i | 0 <= i < |run| - 1 ensures CanTransitionTo(run[i], run[i + 1]) {
        if i < m - 1 { assert run[i] == before[i] && run[i + 1] == before[i + 1]; }
        else if i == m - 1 { assert run[i] == before[m - 1] && run[i + 1] == Queued; }
        else if i == m { assert run[i] == Queued && run[i + 1] == Submitting; }
        else { assert run[i] == Submitting && run[i + 1] == TransientFailed; }
      }
    }
  }

  lemma VisitsAppend(run: seq<Status>, last: Status, s: Status)
    ensures Visits(run + [last], s) == Visits(run, s) + if last == s then 1 else 0
  {
    assert (run + [last])[..|run|] == run;
  }
}
