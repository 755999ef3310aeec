/** The record kept about attaching a remote session: a flag that is stored before
    session/new is sent and cleared once its outcome is stored. */
module Attachment {
  import opened Text

  datatype Saved = Saved(sessionID: string, indeterminate: bool)

  function SavedID(s: Option<Saved>): string {
    if s.Some? then s.value.sessionID else ""
  }

  predicate Flagged(s: Option<Saved>) {
    s.Some? && s.value.indeterminate
  }

  datatype Event = Started | SentNew | RecordedOutcome | WroteState | Yielded | ResetByUser | Restarted

  /** The attachment state right after an event: in the live session, in the durable
      one, and whether a session/new was sent whose outcome is not recorded. */
  datatype Moment = Moment(event: Event, live: Option<Saved>, durable: Option<Saved>, doubt: bool)

  /** With protection on, a doubt is on record, and so it is after a restart. */
  predicate Guarded(m: Moment) {
    m.doubt ==> Flagged(m.live) && Flagged(m.durable)
  }

  /** What each event changes. A session/new is only sent when there is no doubt, and only
      recording its outcome or a reset ends a doubt. */
  predicate Follows(before: Moment, after: Moment) {
    && after.event != Started
    && (after.event == SentNew ==>
          !before.doubt && after.doubt && after.live == before.live && after.durable == before.durable)
    && (after.event == RecordedOutcome ==>
          !after.doubt && !Flagged(after.live) && after.durable == before.durable)
    && (after.event == WroteState ==> after.doubt == before.doubt && after.durable == before.durable)
    && (after.event == Yielded ==> after.doubt == before.doubt && after.live == before.live)
    && (after.event == Restarted ==>
          after.doubt == before.doubt && after.durable == before.durable && after.live == after.durable)
    && (before.doubt && !after.doubt ==> after.event == RecordedOutcome || after.event == ResetByUser)
    && (!before.doubt && after.doubt ==> after.event == SentNew)
  }

  ghost predicate SafeHistory(history: seq<Moment>) {
    && history != []
    && (forall i :: 0 <= i < |history| ==> Guarded(history[i]))
    && (forall i :: 0 < i < |history| ==> Follows(history[i - 1], history[i]))
  }

  lemma HistoryGrows(history: seq<Moment>, m: Moment)
    requires SafeHistory(history) && Guarded(m) && Follows(history[|history| - 1], m)
    ensures SafeHistory(history + [m])
  {
  }

  /** A stop after any event, and a restart from the durable state, stay safe: the
      doubt there was is on record where the restart finds it. */
  lemma StopAnywhere(history: seq<Moment>, n: nat)
    requires SafeHistory(history) && 0 < n <= |history|
    ensures var stopped := history[n - 1];
      SafeHistory(history[..n] + [Moment(Restarted, stopped.durable, stopped.durable, stopped.doubt)])
  {
    assert SafeHistory(history[..n]);
    HistoryGrows(history[..n], Moment(Restarted, history[n - 1].durable, history[n - 1].durable, history[n - 1].doubt));
  }

  lemma {:induction false} DoubtEnds(history: seq<Moment>, i: nat, j: nat) returns (k: nat)
    requires SafeHistory(history) && i < j < |history| && history[i].doubt && !history[j].doubt
    ensures i < k <= j && (history[k].event == RecordedOutcome || history[k].event == ResetByUser)
  {
    assert Follows(history[j - 1], history[j]);
    if history[j - 1].doubt {
      k := j;
    } else {
      k := DoubtEnds(history, i, j - 1);
    }
  }

  /** Main result: at most one attachment is ever in doubt. Between two requests for a
      new session the outcome of the first was recorded or the user reset the state,
      and at every moment of a doubt the flag is stored both live and durably. */
  lemma OneAttachmentInDoubt(history: seq<Moment>, i: nat, j: nat) returns (k: nat)
    requires SafeHistory(history) && i < j < |history| && history[i].event == SentNew && history[j].event == SentNew
    requires i > 0
    ensures i < k < j && (history[k].event == RecordedOutcome || history[k].event == ResetByUser)
    ensures forall m :: 0 <= m < |history| && history[m].doubt ==>
      Flagged(history[m].live) && Flagged(history[m].durable)
  {
    assert Follows(history[i - 1], history[i]) && Follows(history[j - 1], history[j]);
    k := DoubtEnds(history, i, j - 1);
    forall m | 0 <= m < |history| && history[m].doubt ensures Flagged(history[m].live) && Flagged(history[m].durable) {
      assert Guarded(history[m]);
    }
  }
}
