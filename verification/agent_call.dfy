/** One call of the agent on one ADK session, and what it shares: the model registry,
    which other calls use at the same time, the session operations of the client, the
    stored attachment state, and the requests it has sent to the agent process. The
    process may answer anything, and other calls may take registry steps at any time. */
module AgentCalls {
  import opened Text
  import opened Descriptor
  import opened Protocol
  import opened RegistrySpec
  import opened Requests
  import opened Attachment
  import opened Outcomes
  import Cfg = SessionConfig

  /** What every holder keeps to: recorded controls come from a valid descriptor, and
      a confirmed model is never empty. */
  predicate GoodAction(action: Action) {
    match action
    case ConfirmControl(control, _) => control.Some? ==> control.value.WellFormed()
    case Observe(control) => control.Some? ==> control.value.WellFormed()
    case Confirm(model, _) => model != ""
    case Release => true
    case Replace(_) => true
    case Invalidate => true
    case Unverify => true
  }

  predicate GoodOp(op: Op) {
    op.Act? ==> GoodAction(op.action)
  }

  predicate GoodEntry(e: Entry) {
    e.control.Some? ==> e.control.value.WellFormed()
  }

  ghost predicate GoodAt(s: Registry, k: SessionKey)
    requires k in s.entries
  {
    GoodEntry(s.entries[k])
  }

  ghost predicate Good(s: Registry) {
    Inv(s) && forall k {:trigger GoodAt(s, k)} :: k in s.entries ==> GoodAt(s, k)
  }

  lemma ActOnGood(e: Entry, construction: string, action: Action)
    requires GoodEntry(e) && GoodAction(action)
    ensures GoodEntry(ActOn(e, construction, action).0)
  {
  }

  lemma StepKeepsGood(s: Registry, construction: string, op: Op)
    requires Good(s) && GoodOp(op)
    ensures Good(Step(s, construction, op).0)
  {
    StepKeepsInv(s, construction, op);
    var t := Step(s, construction, op).0;
    forall k | k in t.entries ensures GoodAt(t, k) {
      if k in s.entries {
        assert GoodAt(s, k);
        if op.Act? { ActOnGood(s.entries[k], construction, op.action); }
      }
    }
  }

  /** The stored session id, or else the one attached in this process. */
  function TargetOf(live: Option<Saved>, e: Entry): string {
    if Blank(SavedID(live)) then e.attachmentID else Trim(SavedID(live))
  }

  /** What an inspection comes to when nothing is observed yet and nothing else goes wrong. */
  predicate Inspected(
      id: string, resumes: bool, slots: set<string>, before: seq<Rpc>, after: seq<Rpc>, snapshot: Snapshot)
  {
    if id == "" || !resumes then snapshot == NotAttached && after == before
    else if id in slots then snapshot == BeginSnapshot(OperationActive) && after == before
    else if Blank(id) then snapshot == NotAttached && after == before
    else
      && |after| == |before| + 1 && before <= after
      && after[|before|].Resume? && after[|before|].sessionID == Trim(id)
      && snapshot == SnapshotAfter(after[|before|].resumed)
  }

  const NotAttached := NoControl(Unavailable, "attachment_unavailable")

  function SnapshotAfter(answer: Result<Shape, Fault>): Snapshot {
    match answer
    case Ok(shape) =>
      if Classify(shape.options).Some? then SnapshotOf(Classify(shape.options).value)
      else NoControl(ControlStatus.Failed, "descriptor_invalid")
    case Err(f) =>
      if f.Transport? && f.canceled then NoControl(ControlStatus.Failed, "canceled")
      else if f.MethodNotFound() then NoControl(Unavailable, "resume_unsupported")
      else if f.ResumeUnknownSession() then NoControl(Unavailable, "unknown_session")
      else NotAttached
  }

  /** Whether a desired model is in place, by what was last shown since the `n`th request. */
  predicate InPlace(log: seq<Rpc>, n: nat, id: string, desired: string) {
    desired == "" || Vouched(log, n, id, desired)
  }

  /** The attachment id after an inspection that resumed `id` at most. Where the method is
      unknown nothing is concluded about the session. */
  function AttachedSince(before: seq<Rpc>, after: seq<Rpc>, id: string, attached: string): string {
    if |after| <= |before| || !after[|before|].Resume? then attached
    else if after[|before|].resumed.Err? && after[|before|].resumed.error.MethodNotFound() then attached
    else AttachedAfter(after[|before|].resumed, id, attached)
  }

  /** What the only set request of a change, or the model that is current already, decides. */
  predicate ChangedBy(c: Change, seen: Control, model: string, sets: nat, log: seq<Rpc>) {
    if seen.currentModel == model then c == Change(Applied, model, Some(SnapshotOf(seen)), "") && Sets(log) == sets
    else
      && Sets(log) == sets + 1 && log != [] && log[|log| - 1].Config? && log[|log| - 1].call.SetOption?
      && c == ChangeOf(log[|log| - 1].call.answer, model)
  }

  /** The class of a reconciliation in which nothing else went wrong. */
  function DesiredOutcome(
      shown: Option<Control>, desired: string, before: seq<Rpc>, after: seq<Rpc>): Option<CallError>
  {
    if desired == "" then None
    else if shown.None? then Some(DescriptorInvalid)
    else if !shown.value.HasModel(desired) then Some(DesiredModelRejected)
    else if shown.value.currentModel == desired then None
    else if |after| > |before| && after[|before|].Config? && after[|before|].call.SetOption? then
      SetOutcome(after[|before|].call.answer, desired)
    else Some(DesiredModelUncertain)
  }

  /** A smooth reconciliation succeeds exactly when the desired model is in place then. */
  lemma DesiredDecides(
      before: seq<Rpc>, after: seq<Rpc>, from: nat, id: string, options: seq<ConfigOption>, desired: string)
    requires LastOptions(before, from, id) == Some(options) && Reconciled(before, after, id, Classify(options), desired)
    requires |after| > |before| <==> NeedsSet(Classify(options), desired)
    ensures DesiredOutcome(Classify(options), desired, before, after).None? <==> InPlace(after, from, id, desired)
  {
    if |after| > |before| {
      SetDecides(before, after, from, id, options, desired);
    }
  }

  /** How a session was come by: the requests before and after, and the values a new or
      resumed session was set up with. */
  datatype Path = Path(before: seq<Rpc>, after: seq<Rpc>, values: seq<Cfg.ConfigValue>, steps: seq<Cfg.Step>)

  const NoPath := Path([], [], [], [])

  /** One try to get a session and to prompt it: the session, or why there is none, and
      how the prompt ended, if the run came to it; `log` are the requests sent by then. */
  datatype Attempt = Attempt(
    remote: Option<Result<Remote, CallError>>, path: Path, prompted: Option<PromptEnd>, log: seq<Rpc>)
  {
    predicate HasSession() {
      remote.Some? && remote.value.Ok?
    }

    /** Only a session that was got and set up is prompted. */
    predicate IsSound() {
      && (prompted.Some? ==> HasSession() && remote.value.value.configError.None?)
      && if HasSession() then IsAsked(path.after, log, remote.value.value.id, prompted) else log == path.after
    }

    predicate LostSession() {
      prompted.Some? && IsLost(prompted.value)
    }

    /** The prompts so far, with the one of this try. */
    function After(prompts: seq<string>): seq<string> {
      if HasSession() then Prompted(prompts, remote.value.value.id, prompted) else prompts
    }

    /** The try ran its course: the session, if it was set up, was prompted and answered,
        or could not be prompted because it has no id or its slot was taken. */
    predicate IsComplete(slots: set<string>) {
      && remote.Some?
      && (HasSession() && remote.value.value.configError.None? ==>
            && prompted.Some?
            && (if Blank(remote.value.value.id) || remote.value.value.id in slots then prompted.value.NotSent?
                else prompted.value.Answered?))
    }

    /** The session is what is durable in the end. */
    predicate IsAnnounced(durable: Option<Saved>) {
      HasSession() && !Blank(remote.value.value.id) ==> durable == Some(Saved(remote.value.value.id, false))
    }

    function End(): RunEnd {
      if remote.None? then NotStarted
      else if remote.value.Err? then NoSession(remote.value.error)
      else if remote.value.value.configError.Some? then ConfigRefused(remote.value.value.configError.value)
      else if prompted.None? then RunEnd.Abandoned
      else PromptEndOf(prompted.value)
    }
  }

  const NoAttempt := Attempt(None, NoPath, None, [])

  /** The process does not know the session any more. */
  predicate IsLost(prompted: PromptEnd) {
    prompted.Answered? && prompted.fault.Some? && prompted.fault.value.SessionNotFound()
  }

  function PromptEndOf(prompted: PromptEnd): RunEnd {
    match prompted
    case NotSent(_) => PromptFailed
    case GivenUp => PromptFailed
    case ConsumerStopped => RunEnd.Abandoned
    case Answered(fault) => if fault.Some? then PromptFailed else TurnComplete
  }

  function Prompted(prompts: seq<string>, id: string, prompted: Option<PromptEnd>): seq<string> {
    if prompted.Some? && !prompted.value.NotSent? then prompts + [id] else prompts
  }

  /** The requests grew by the prompt, if it was sent. */
  predicate IsAsked(before: seq<Rpc>, after: seq<Rpc>, id: string, prompted: Option<PromptEnd>) {
    if prompted.Some? && !prompted.value.NotSent? then IsNext(before, Prompt(id), after) else after == before
  }

  function Held(id: string, prompted: Option<PromptEnd>): set<string> {
    if prompted.Some? && !prompted.value.NotSent? then {id} else {}
  }

  /** How a run ends that made these tries: the second counts if the first lost its session. */
  function EndOf(one: Attempt, two: Attempt): RunEnd {
    if one.LostSession() then two.End() else one.End()
  }

  /** There is a second try only if the first was prompted and lost its session. */
  predicate AreSound(one: Attempt, two: Attempt) {
    one.IsSound() && two.IsSound() && (two.remote.Some? ==> one.LostSession())
  }

  /** The tries ran their course, and the last session is durable. */
  predicate AreComplete(one: Attempt, two: Attempt, slots: set<string>, durable: Option<Saved>) {
    && one.IsComplete(slots) && (one.LostSession() ==> two.IsComplete(slots))
    && (if one.LostSession() then two.IsAnnounced(durable) else one.IsAnnounced(durable))
  }

  /** The process answered a resume that it does not know the session. */
  predicate IsReplaced(answer: Result<Shape, Fault>) {
    answer.Err? && !answer.error.SessionAlreadyExists() && answer.error.ResumeUnknownSession()
  }

  /** What is in place by what was shown since a later request is so since an earlier one. */
  lemma InPlaceEarlier(log: seq<Rpc>, n: nat, m: nat, id: string, desired: string)
    requires n <= m && InPlace(log, m, id, desired)
    ensures InPlace(log, n, id, desired)
  {
    if desired != "" { LastEarlier(log, n, m, id); }
  }

  class AgentCall {
    const key: SessionKey
    const construction: string  // the configured model; empty for none
    const resumes: bool         // the process offers session/resume
    const protects: bool        // attachment protection is on
    const configured: seq<Cfg.ConfigValue>
    var registry: Registry
    var live: Option<Saved>
    ghost var entry: Entry      // the registry's entry for `key`, while it is held
    var slots: set<string>      // session operations this call holds in the client
    ghost var log: seq<Rpc>
    var durable: Option<Saved>  // what the service has stored
    var doubt: bool             // a session/new was sent whose outcome is not recorded
    var history: seq<Moment>    // what the stored attachment went through
    var over: bool              // the context of the call, or the time for its set-up, is over
    ghost var trouble: nat      // how often something else than a request went wrong

    /** Anything outside the requests may go wrong at any time: a cancellation, a write
        that fails, a consumer that stops. A call in which nothing does is smooth. */
    method Mishap() returns (bad: bool)
      modifies this`trouble
      ensures trouble == old(trouble) + if bad then 1 else 0
    {
      bad := *;
      trouble := trouble + if bad then 1 else 0;
    }

    /** The call holds its session in the registry. */
    ghost predicate Holding()
      reads this`registry, this`entry
    {
      && Good(registry) && key in registry.held && key in registry.entries
      && registry.entries[key] == entry && GoodEntry(entry)
    }

    ghost predicate Tracked()
      reads this`live, this`durable, this`doubt, this`history
    {
      protects ==>
        && SafeHistory(history)
        && history[|history| - 1].live == live && history[|history| - 1].durable == durable
        && history[|history| - 1].doubt == doubt
    }

    /** Any steps of other calls; they leave a held key alone. */
    method Interfere()
      requires Holding()
      modifies this`registry
      ensures Holding()
    {
      var n: nat := *;
      while n > 0
        invariant Holding()
      {
        var op: Op := *;
        if GoodOp(op) && (op.Act? ==> op.key != key) {
          OthersLeaveHeldEntry(registry, construction, op, key);
          StepKeepsGood(registry, construction, op);
          var (after, _) := Step(registry, construction, op);
          registry := after;
        }
        n := n - 1;
      }
    }

    /** A locked section on this call's own admission. */
    method Act(action: Action) returns (outcome: Outcome)
      requires Holding() && !action.Release? && GoodAction(action)
      modifies this`registry, this`entry
      ensures Holding()
      ensures (entry, outcome) == ActOn(old(entry), construction, action)
    {
      Interfere();
      StepKeepsGood(registry, construction, RegistrySpec.Act(key, action));
      var (after, result) := ActStep(registry, construction, key, action);
      assert GoodAt(after, key);
      registry, outcome := after, result;
      entry := registry.entries[key];
    }

    /** Asks the registry for the session, after any steps of other calls. */
    method Acquire() returns (outcome: Outcome)
      requires Good(registry)
      modifies this`registry, this`entry
      ensures outcome in {Outcome.Admitted, Outcome.Busy, Outcome.Full, Outcome.Closed}
      ensures if outcome == Outcome.Admitted then Holding() else entry == old(entry)
      ensures Good(registry)
    {
      var n: nat := *;
      while n > 0
        invariant Good(registry) && entry == old(entry)
      {
        var op: Op := *;
        if GoodOp(op) {
          StepKeepsGood(registry, construction, op);
          var (after, _) := Step(registry, construction, op);
          registry := after;
        }
        n := n - 1;
      }
      StepKeepsGood(registry, construction, RegistrySpec.Acquire(key));
      var (after, result) := AcquireStep(registry, key);
      registry, outcome := after, result;
      if outcome == Outcome.Admitted {
        entry := registry.entries[key];
        assert GoodAt(registry, key);
      }
    }

    /** Whether the context is over by now. */
    method IsOver() returns (yes: bool)
      modifies this`over, this`trouble
      ensures yes == over && (old(over) ==> over)
      ensures trouble == old(trouble) + if yes then 1 else 0
    {
      var ends: bool := *;
      over := over || ends;
      yes := over;
      trouble := trouble + if yes then 1 else 0;
    }

    /** Claims the client's slot for a session id; other calls may have it. */
    method Begin(id: string) returns (err: Option<BeginError>)
      modifies this`slots, this`trouble
      ensures id == "" ==> err == Some(SessionIDRequired)
      ensures id in old(slots) ==> err.Some?
      ensures slots == if err.None? then old(slots) + {id} else old(slots)
      ensures trouble >= old(trouble)
      ensures err.None? ==> trouble == old(trouble)
      ensures trouble == old(trouble) && id != "" ==>
        err == if id in old(slots) then Some(OperationActive) else None
    {
      if id == "" {
        return Some(SessionIDRequired);
      }
      var closed := Mishap();
      if closed {
        return Some(OperationsClosed);
      }
      var taken := Mishap();
      if taken || id in slots {
        return Some(OperationActive);
      }
      slots := slots + {id};
      return None;
    }

    method EndOperation(id: string)
      modifies this`slots
      ensures slots == old(slots) - {id}
    {
      slots := slots - {id};
    }

    /** The ids of the configured values. */
    ghost function Required(): set<string> {
      Cfg.IdsOf(Cfg.Normalize(configured))
    }

    /** No set request, none for a new session, no prompt and none that ends a set-up came in
        between. */
    ghost predicate SameCounts(before: seq<Rpc>, after: seq<Rpc>) {
      && Sets(after) == Sets(before) && News(after) == News(before) && Extends(before, after)
      && Endings(after, Required()) == Endings(before, Required())
    }

    method SendResume(id: string) returns (answer: Result<Shape, Fault>)
      modifies this`log
      ensures if Blank(id) then answer == Err(Transport(false)) && log == old(log)
              else IsNext(old(log), Resume(Trim(id), answer), log)
      ensures SameCounts(old(log), log)
    {
      if Blank(id) {
        return Err(Transport(false));
      }
      answer := *;
      CountAppend(log, Resume(Trim(id), answer), Required());
      log := log + [Resume(Trim(id), answer)];
    }

    method SetModel(id: string, optionID: string, model: string) returns (answer: Result<seq<ConfigOption>, Fault>)
      modifies this`log
      ensures log == old(log) + [Config(Cfg.SetOption(id, optionID, Cfg.Choose(model), answer))]
      ensures Sets(log) == old(Sets(log)) + 1
    {
      answer := *;
      ghost var sent := Config(Cfg.SetOption(id, optionID, Cfg.Choose(model), answer));
      CountAppend(log, sent, {});
      log := log + [sent];
    }

    /** Reads the stored state; reading may fail for reasons not modelled. */
    method ResolveConfig() returns (cfg: Option<AttachConfig>)
      modifies this`trouble
      ensures trouble == old(trouble) + if cfg.None? then 1 else 0
      ensures cfg.Some? ==> cfg.value.sessionID == Trim(SavedID(live)) && cfg.value.indeterminate == Flagged(live)
    {
      var unreadable := Mishap();
      if unreadable {
        return None;
      }
      var values: seq<Cfg.ConfigValue> := *;
      return Some(AttachConfig(Trim(SavedID(live)), values, Flagged(live)));
    }

    method AttachedRemoteID() returns (id: string)
      requires Holding()
      modifies this`registry
      ensures Holding() && id == entry.attachmentID
    {
      Interfere();
      id := registry.entries[key].attachmentID;
    }

    method Observed() returns (control: Option<Control>)
      requires Holding()
      modifies this`registry
      ensures Holding() && control == entry.Observed()
      ensures control.Some? ==> control.value.WellFormed()
    {
      Interfere();
      control := registry.entries[key].Observed();
    }

    method AttachmentToken() returns (token: nat)
      requires Holding()
      modifies this`registry
      ensures Holding() && token == entry.attachmentToken
    {
      Interfere();
      token := registry.entries[key].attachmentToken;
    }

    method ReplaceAttachment(id: string) returns (token: nat)
      requires Holding()
      modifies this`registry, this`entry
      ensures Holding() && entry == old(entry).Replaced(id) && token == entry.attachmentToken
    {
      var _ := Act(Replace(id));
      token := registry.entries[key].attachmentToken;
    }

    method Desired() returns (model: string)
      requires Holding()
      modifies this`registry
      ensures Holding() && model == entry.Desired(construction)
    {
      Interfere();
      model := registry.entries[key].Desired(construction);
    }

    // ------------------------------------------------------------ inspection

    /** Admission, inspection, release. At most a resume request is sent. `before` is the
        registry's entry at admission. */
    method Inspect() returns (snapshot: Snapshot, ghost outcome: Option<Outcome>, ghost before: Entry)
      requires Good(registry)
      modifies this`registry, this`entry, this`log, this`slots, this`over, this`trouble
      ensures Good(registry) && ResumedAtMost(old(log), log) && Sets(log) == old(Sets(log)) && slots == old(slots)
      ensures outcome == Some(Outcome.Admitted) ==> IsReleased()
      ensures trouble >= old(trouble) && (trouble == old(trouble) ==> outcome.Some?)
      ensures outcome.Some? && outcome.value != Outcome.Admitted ==> snapshot == AdmissionSnapshot(outcome.value)
      ensures outcome == Some(Outcome.Admitted) && trouble == old(trouble) ==>
        IsSeen(snapshot, live, before, slots, old(log), log)
    {
      outcome, before := None, entry;
      var unusable := Mishap();
      if unusable {
        var canceled: bool := *;
        return NoControl(ControlStatus.Failed, if canceled then "canceled" else "invalid_session"), None, entry;
      }
      var admission := Acquire();
      outcome, before := Some(admission), entry;
      if admission != Outcome.Admitted {
        return AdmissionSnapshot(admission), outcome, entry;
      }
      snapshot := InspectHeld();
      ReleaseAdmission();
    }

    /** What a smooth inspection sees: what was observed before it, or else what it finds. */
    ghost predicate IsSeen(
        snapshot: Snapshot, live: Option<Saved>, entry: Entry, slots: set<string>, before: seq<Rpc>, after: seq<Rpc>)
    {
      if entry.Observed().Some? then snapshot == SnapshotOf(entry.Observed().value) && after == before
      else Inspected(TargetOf(live, entry), resumes, slots, before, after, snapshot)
    }

    /** Looks at the session's model control, resuming the session if need be. No
        set request is sent and no override changes. An available snapshot is exactly
        what the registry has observed: before the call, or in the answer to the resume
        request that the call ended with. */
    method InspectHeld() returns (snapshot: Snapshot)
      requires Holding()
      modifies this`registry, this`entry, this`log, this`slots, this`over, this`trouble
      ensures Holding() && Sets(log) == old(Sets(log)) && slots == old(slots) && trouble >= old(trouble)
      ensures ResumedAtMost(old(log), log)
      ensures entry.liveDesired == old(entry.liveDesired)
      ensures snapshot.status == Available ==>
        entry.Observed().Some? && snapshot == SnapshotOf(entry.Observed().value) && entry.Observed().value.WellFormed()
      ensures old(entry.Observed()).Some? ==> log == old(log) && entry == old(entry)
      ensures old(entry.Observed()).Some? && trouble == old(trouble) ==> snapshot.status == Available
      ensures old(entry.Observed()).None? ==>
        if snapshot.status == Available then EndsWithResume(log, entry.Observed()) else entry.Observed() == None
      ensures trouble == old(trouble) ==> IsSeen(snapshot, live, old(entry), old(slots), old(log), log)
      ensures old(entry.Observed()).None? && trouble == old(trouble) ==>
        entry.attachmentID == AttachedSince(old(log), log, TargetOf(live, old(entry)), old(entry.attachmentID))
    {
      var uninitialized := Mishap();
      if uninitialized {
        var canceled: bool := *;
        if canceled {
          return NoControl(ControlStatus.Failed, "canceled");
        }
        var lifecycleDone: bool := *;
        if lifecycleDone {
          return NoControl(ControlStatus.Closed, "closed");
        }
        return NoControl(ControlStatus.Failed, "initialization_failed");
      }
      var cfg := ResolveConfig();
      if cfg.None? {
        return NoControl(ControlStatus.Failed, "invalid_state");
      }
      var id := cfg.value.sessionID;
      if id == "" {
        id := AttachedRemoteID();
      }
      var control := Observed();
      if control.Some? {
        return SnapshotOf(control.value);
      }
      snapshot := InspectAfresh(id);
    }

    /** The rest of it, when nothing is observed. */
    method InspectAfresh(id: string) returns (snapshot: Snapshot)
      requires Holding() && entry.Observed() == None
      modifies this`registry, this`entry, this`log, this`slots, this`over, this`trouble
      ensures Holding() && Sets(log) == old(Sets(log)) && slots == old(slots) && trouble >= old(trouble)
      ensures ResumedAtMost(old(log), log)
      ensures entry.liveDesired == old(entry.liveDesired)
      ensures snapshot.status == Available ==>
        entry.Observed().Some? && snapshot == SnapshotOf(entry.Observed().value) && entry.Observed().value.WellFormed()
      ensures if snapshot.status == Available then EndsWithResume(log, entry.Observed()) else entry.Observed() == None
      ensures trouble == old(trouble) ==>
        && Inspected(id, resumes, old(slots), old(log), log, snapshot)
        && entry.attachmentID == AttachedSince(old(log), log, id, old(entry.attachmentID))
    {
      if id == "" || !resumes {
        return NoControl(Unavailable, "attachment_unavailable");
      }
      var err := Begin(id);
      if err.Some? {
        return BeginSnapshot(err.value);
      }
      snapshot := ResumeAndInspect(id);
      EndOperation(id);
    }

    method ResumeAndInspect(id: string) returns (snapshot: Snapshot)
      requires Holding()
      modifies this`registry, this`entry, this`log, this`over, this`trouble
      ensures Holding() && Sets(log) == old(Sets(log)) && trouble >= old(trouble)
      ensures ResumedAtMost(old(log), log)
      ensures entry.liveDesired == old(entry.liveDesired)
      ensures snapshot.status == Available ==>
        entry.Observed().Some? && snapshot == SnapshotOf(entry.Observed().value) && entry.Observed().value.WellFormed()
      ensures if snapshot.status == Available then EndsWithResume(log, entry.Observed()) else entry.Observed() == None
      ensures trouble == old(trouble) ==>
        && (if Blank(id) then snapshot == NotAttached && log == old(log)
            else Inspected(id, true, {}, old(log), log, snapshot))
        && entry.attachmentID == AttachedSince(old(log), log, id, old(entry.attachmentID))
    {
      var answer := SendResume(id);
      if answer.Err? {
        snapshot := ResumeRefused(answer.error);
        return snapshot;
      }
      var attachment := ReplaceAttachment(id);
      var control := ClassifyModelDescriptor(answer.value.options);
      if control.None? {
        return NoControl(ControlStatus.Failed, "descriptor_invalid");
      }
      var confirmed := Act(ConfirmControl(control, attachment));
      if confirmed != Accepted {
        return NoControl(ControlStatus.Failed, "attachment_unavailable");
      }
      return SnapshotOf(control.value);
    }

    method ResumeRefused(fault: Fault) returns (snapshot: Snapshot)
      requires Holding()
      modifies this`registry, this`entry, this`over, this`trouble
      ensures Holding() && entry.liveDesired == old(entry.liveDesired) && entry.Observed() == None
      ensures snapshot.status != Available && trouble >= old(trouble)
      ensures trouble == old(trouble) ==> snapshot == SnapshotAfter(Err(fault))
      ensures trouble == old(trouble) && !fault.MethodNotFound() ==>
        entry.attachmentID == AttachedAfter(Err(fault), "", old(entry.attachmentID))
      ensures trouble == old(trouble) && fault.MethodNotFound() ==> entry.attachmentID == old(entry.attachmentID)
    {
      var _ := Act(Unverify);
      var canceled := IsOver();
      if canceled || (fault.Transport? && fault.canceled) {
        return NoControl(ControlStatus.Failed, "canceled");
      }
      if fault.MethodNotFound() {
        return NoControl(Unavailable, "resume_unsupported");
      }
      if fault.ResumeUnknownSession() {
        var _ := Act(Invalidate);
        return NoControl(Unavailable, "unknown_session");
      }
      return NoControl(Unavailable, "attachment_unavailable");
    }

    /** Supported exactly when the observed control offers the model, incompatible exactly
        when it does not; the other outcomes are those of the inspection. */
    method ValidateHeld(model: string) returns (v: Validation)
      requires Holding()
      modifies this`registry, this`entry, this`log, this`slots, this`over, this`trouble
      ensures Holding() && Sets(log) == old(Sets(log)) && slots == old(slots) && trouble >= old(trouble)
      ensures entry.liveDesired == old(entry.liveDesired)
      ensures v.snapshot.status == Available ==>
        entry.Observed().Some? && v.snapshot == SnapshotOf(entry.Observed().value)
          && entry.Observed().value.WellFormed()
      ensures v.outcome == OutcomeOf(v.snapshot, Trim(model))
      ensures trouble == old(trouble) ==> IsSeen(v.snapshot, live, old(entry), old(slots), old(log), log)
    {
      var snapshot := InspectHeld();
      match snapshot.status
      case Available =>
        var offered := Offers(snapshot.models, Trim(model));
        if offered {
          return Validation(Supported, snapshot, "");
        }
        return Validation(ValidationOutcome.Incompatible, snapshot, "unknown_model");
      case Busy => return Validation(ValidationOutcome.Busy, snapshot, snapshot.code);
      case Closed => return Validation(ValidationOutcome.Closed, snapshot, snapshot.code);
      case Failed => return Validation(ValidationOutcome.Failed, snapshot, snapshot.code);
      case Unavailable => return Validation(ValidationOutcome.Unsupported, snapshot, snapshot.code);
    }

    method Offers(models: seq<SessionModel>, wanted: string) returns (offered: bool)
      ensures offered <==> exists i :: 0 <= i < |models| && models[i].id == wanted
    {
      for i := 0 to |models|
        invariant forall j :: 0 <= j < i ==> models[j].id != wanted
      {
        if models[i].id == wanted {
          return true;
        }
      }
      return false;
    }

    // ---------------------------------------------------------- model change

    /** Changes the model of the session: admission, validation, at most one set
        request, release. `before` is the registry's entry at admission. */
    method ChangeModel(model: string)
      returns (
        c: Change, ghost outcome: Option<Outcome>, ghost before: Entry, ghost v: Option<Validation>,
        ghost seen: seq<Rpc>)
      requires Good(registry)
      modifies this`registry, this`entry, this`log, this`slots, this`over, this`trouble
      ensures Good(registry) && slots == old(slots) && trouble >= old(trouble)
      ensures Certain(c, Trim(model), construction, before, entry, Sets(log) - old(Sets(log)))
      ensures Sets(log) > old(Sets(log)) ==> log != [] && AsksFor(log[|log| - 1], Trim(model), c.outcome == Applied)
      ensures outcome != Some(Outcome.Admitted) ==> before == entry == old(entry) && log == old(log)
      ensures outcome == Some(Outcome.Admitted) ==> IsReleased()
      ensures v.Some? <==> outcome == Some(Outcome.Admitted)
      ensures outcome.Some? && v.None? ==> c == ChangeFrom(AdmissionValidation(outcome.value))
      ensures trouble == old(trouble) ==> outcome.Some?
      ensures v.Some? ==> Changed(c, v.value, Trim(model), old(slots), old(Sets(log)), log, trouble == old(trouble))
      ensures v.Some? && v.value.outcome != Supported ==> log == seen
      ensures v.Some? && trouble == old(trouble) ==>
        seen <= log && IsSeen(v.value.snapshot, live, before, old(slots), old(log), seen)
    {
      seen := log;
      var unusable := Mishap();
      if unusable {
        var canceled: bool := *;
        return Failure(if canceled then "canceled" else "invalid_session"), None, entry, None, log;
      }
      var admission := Acquire();
      outcome := Some(admission);
      if admission != Outcome.Admitted {
        return ChangeFrom(AdmissionValidation(admission)), outcome, entry, None, log;
      }
      before := entry;
      var validation;
      c, validation, seen := ChangeModelHeld(model);
      v := Some(validation);
      ReleaseAdmission();
    }

    /** The session has been given back, with the entry as the call left it. */
    ghost predicate IsReleased()
      reads this`registry, this`entry
    {
      && key !in registry.held
      && (!registry.closed ==> key in registry.entries && registry.entries[key] == entry.Released())
    }

    method ReleaseAdmission()
      requires Holding()
      modifies this`registry
      ensures Good(registry) && IsReleased()
    {
      Interfere();
      StepKeepsGood(registry, construction, RegistrySpec.Act(key, Release));
      assert EntryOk(registry, key);
      registry := ReleaseStep(registry, key);
    }

    /** What became of a change, given what the validation said: unless that was supported
        it decides; otherwise, if nothing else goes wrong and the slot is free, the model is
        applied already or exactly one set request is sent, whose answer decides. */
    ghost predicate Changed(
        c: Change, v: Validation, model: string, slots: set<string>, sets: nat, log: seq<Rpc>, smooth: bool)
      reads this`live, this`entry
    {
      if v.outcome != Supported then c == ChangeFrom(v) && Sets(log) == sets
      else smooth && TargetOf(live, entry) != "" && TargetOf(live, entry) !in slots ==>
        if v.snapshot.currentModel == model then
          c == Change(Applied, model, Some(v.snapshot), "") && Sets(log) == sets
        else
          && Sets(log) == sets + 1 && log != [] && log[|log| - 1].Config? && log[|log| - 1].call.SetOption?
          && c == ChangeOf(log[|log| - 1].call.answer, model)
    }

    method ChangeModelHeld(model: string) returns (c: Change, v: Validation, ghost seen: seq<Rpc>)
      requires Holding()
      modifies this`registry, this`entry, this`log, this`slots, this`over, this`trouble
      ensures Holding() && slots == old(slots) && trouble >= old(trouble)
      ensures Certain(c, Trim(model), construction, old(entry), entry, Sets(log) - old(Sets(log)))
      ensures Sets(log) > old(Sets(log)) ==> log != [] && AsksFor(log[|log| - 1], Trim(model), c.outcome == Applied)
      ensures Changed(c, v, Trim(model), old(slots), old(Sets(log)), log, trouble == old(trouble))
      ensures v.outcome == OutcomeOf(v.snapshot, Trim(model))
      ensures v.outcome != Supported ==> log == seen
      ensures trouble == old(trouble) ==>
        seen <= log && IsSeen(v.snapshot, live, old(entry), old(slots), old(log), seen)
    {
      v := ValidateHeld(model);
      seen := log;
      if v.outcome != Supported {
        UnsentIsCertain(ChangeFrom(v), Trim(model), construction, old(entry), entry);
        return ChangeFrom(v), v, log;
      }
      c := ChangeValidated(Trim(model));
    }

    method ChangeValidated(model: string) returns (c: Change)
      requires Holding() && entry.Observed().Some? && entry.Observed().value.HasModel(model)
      modifies this`registry, this`entry, this`log, this`slots, this`over, this`trouble
      ensures Holding() && slots == old(slots) && old(log) <= log && trouble >= old(trouble)
        && entry.attachmentID == old(entry.attachmentID)
      ensures Certain(c, model, construction, old(entry), entry, Sets(log) - old(Sets(log)))
      ensures Sets(log) > old(Sets(log)) ==> log != [] && AsksFor(log[|log| - 1], model, c.outcome == Applied)
      ensures trouble == old(trouble) && TargetOf(live, entry) != "" && TargetOf(live, entry) !in old(slots) ==>
        ChangedBy(c, old(entry.Observed()).value, model, old(Sets(log)), log)
    {
      var id := TargetID();
      if id.None? {
        var _ := Act(Unverify);
        return Failure("invalid_state");
      }
      c := ChangeClaiming(id.value, model);
    }

    method ChangeClaiming(id: string, model: string) returns (c: Change)
      requires Holding() && entry.Observed().Some? && entry.Observed().value.HasModel(model)
      modifies this`registry, this`entry, this`log, this`slots, this`over, this`trouble
      ensures Holding() && slots == old(slots) && old(log) <= log && trouble >= old(trouble)
        && entry.attachmentID == old(entry.attachmentID)
      ensures Certain(c, model, construction, old(entry), entry, Sets(log) - old(Sets(log)))
      ensures Sets(log) > old(Sets(log)) ==> log != [] && AsksFor(log[|log| - 1], model, c.outcome == Applied)
      ensures trouble == old(trouble) && id != "" && id !in old(slots) ==>
        ChangedBy(c, old(entry.Observed()).value, model, old(Sets(log)), log)
    {
      var err := Begin(id);
      if err.Some? {
        UnsentIsCertain(BeginChange(err.value), model, construction, entry, entry);
        return BeginChange(err.value);
      }
      c := ChangeModelBegun(model);
      EndOperation(id);
    }

    method TargetID() returns (id: Option<string>)
      requires Holding()
      modifies this`registry, this`trouble
      ensures Holding() && trouble >= old(trouble)
      ensures trouble == old(trouble) ==> id.Some?
      ensures id.Some? ==> id.value == TargetOf(live, entry)
    {
      var cfg := ResolveConfig();
      if cfg.None? {
        return None;
      }
      if cfg.value.sessionID != "" {
        return Some(cfg.value.sessionID);
      }
      var attached := AttachedRemoteID();
      return Some(attached);
    }

    /** Reads the session again after its operation has begun, then asks for the model
        if it is not current already. The request goes to the session's own id and to
        the option that was observed to offer the model. */
    method ChangeModelBegun(model: string) returns (c: Change)
      requires Holding()
      modifies this`registry, this`entry, this`log, this`over, this`trouble
      ensures Holding() && old(log) <= log && trouble >= old(trouble) && entry.attachmentID == old(entry.attachmentID)
      ensures Certain(c, model, construction, old(entry), entry, Sets(log) - old(Sets(log)))
      ensures Sets(log) > old(Sets(log)) ==> log != [] && AsksFor(log[|log| - 1], model, c.outcome == Applied)
      ensures Sets(log) > old(Sets(log)) ==>
        WellAddressed(log[|log| - 1], TargetOf(live, old(entry)), old(entry.Observed()), model)
      ensures trouble == old(trouble) && old(entry.Observed()).Some? && old(entry.Observed()).value.HasModel(model) ==>
        ChangedBy(c, old(entry.Observed()).value, model, old(Sets(log)), log)
    {
      var id, control := ReadAgain();
      if control.None? {
        return Failure("stale_snapshot");
      }
      if !control.value.HasModel(model) {
        return Change(ChangeOutcome.Incompatible, "", None, "unknown_model");
      }
      c := ChangeOffered(id, control.value, model);
    }

    /** The session id and the control as they are now; no control if the state cannot be read. */
    method ReadAgain() returns (id: string, control: Option<Control>)
      requires Holding()
      modifies this`registry, this`trouble
      ensures Holding() && trouble >= old(trouble)
      ensures trouble == old(trouble) ==> control == entry.Observed()
      ensures control.Some? ==>
        control == entry.Observed() && control.value.WellFormed() && id == TargetOf(live, entry)
          && trouble == old(trouble)
    {
      var cfg := ResolveConfig();
      id := if cfg.Some? then cfg.value.sessionID else "";
      if id == "" {
        id := AttachedRemoteID();
      }
      control := Observed();
      if cfg.None? {
        return id, None;
      }
    }

    /** The same once a control was read that offers the model. */
    method ChangeOffered(id: string, control: Control, model: string) returns (c: Change)
      requires Holding() && entry.Observed() == Some(control) && control.WellFormed() && control.HasModel(model)
      modifies this`registry, this`entry, this`log, this`over, this`trouble
      ensures Holding() && old(log) <= log && trouble >= old(trouble) && entry.attachmentID == old(entry.attachmentID)
      ensures Certain(c, model, construction, old(entry), entry, Sets(log) - old(Sets(log)))
      ensures Sets(log) > old(Sets(log)) ==>
        && log != [] && AsksFor(log[|log| - 1], model, c.outcome == Applied)
        && WellAddressed(log[|log| - 1], id, Some(control), model)
      ensures trouble == old(trouble) ==> ChangedBy(c, control, model, old(Sets(log)), log)
      ensures old(over) && control.currentModel != model ==> c == Failure("canceled") && log == old(log)
    {
      if control.currentModel == model {
        var confirmed := ConfirmBoth(control, model);
        if !confirmed {
          return Failure("stale_snapshot");
        }
        return Change(Applied, model, Some(SnapshotOf(control)), "");
      }
      var canceled := IsOver();
      if canceled {
        return Failure("canceled");
      }
      c := RequestModel(id, control.modelOptionID, model);
    }

    method RequestModel(id: string, optionID: string, model: string) returns (c: Change)
      requires Holding() && model != ""
      modifies this`registry, this`entry, this`log, this`over, this`trouble
      ensures Holding() && log != [] && log[..|log| - 1] == old(log) && Sets(log) == old(Sets(log)) + 1
      ensures trouble >= old(trouble) && entry.attachmentID == old(entry.attachmentID)
      ensures Certain(c, model, construction, old(entry), entry, 1)
      ensures AsksFor(log[|log| - 1], model, c.outcome == Applied)
      ensures log[|log| - 1].call.sessionID == id && log[|log| - 1].call.configID == optionID
      ensures trouble == old(trouble) ==> c == ChangeOf(log[|log| - 1].call.answer, model)
    {
      var answer := SetModel(id, optionID, model);
      if answer.Err? {
        var _ := Act(Unverify);
        c := RefusedChange(model, answer);
        return;
      }
      c := ChangeAnswered(model, answer.value);
    }

    /** The class of a change whose request was answered with an error. */
    method RefusedChange(model: string, answer: Result<seq<ConfigOption>, Fault>) returns (c: Change)
      requires answer.Err?
      modifies this`over, this`trouble
      ensures trouble == old(trouble) + if over then 1 else 0
      ensures c == if over then Change(Ambiguous, "", None, "response_uncertain") else ChangeOf(answer, model)
    {
      var fault := answer.error;
      var canceled := IsOver();
      if canceled {
        return Change(Ambiguous, "", None, "response_uncertain");
      }
      if fault.MethodNotFound() {
        return Change(ChangeOutcome.Unsupported, "", None, "method_unsupported");
      }
      if fault.Request? {
        if fault.code == RequestCanceledCode {
          return Change(Ambiguous, "", None, "response_uncertain");
        }
        if fault.code == InvalidRequestCode || fault.code == InvalidParamsCode {
          return Change(Rejected, "", None, "request_rejected");
        }
      }
      return Change(Ambiguous, "", None, "response_uncertain");
    }

    /** Takes what the answer shows as authoritative. The last branch stands for an
        attachment that changed since the token was read, which cannot happen. */
    method ChangeAnswered(model: string, options: seq<ConfigOption>) returns (c: Change)
      requires Holding() && model != ""
      modifies this`registry, this`entry
      ensures Holding() && entry.attachmentID == old(entry.attachmentID)
      ensures c == ChangeOf(Ok(options), model)
      ensures Certain(c, model, construction, old(entry), entry, 1)
    {
      var control := ClassifyModelDescriptor(options);
      if control.None? {
        var _ := Act(Unverify);
        return Change(Ambiguous, "", None, "invalid_response");
      }
      var snapshot := SnapshotOf(control.value);
      if control.value.currentModel != model {
        var _ := Act(Unverify);
        return Change(Rejected, control.value.currentModel, Some(snapshot), "not_applied");
      }
      var confirmed := ConfirmBoth(control.value, model);
      if !confirmed {
        return Failure("stale_snapshot");
      }
      return Change(Applied, model, Some(snapshot), "");
    }

    /** Records the control and the model under the token read just before. */
    method ConfirmBoth(control: Control, model: string) returns (confirmed: bool)
      requires Holding() && model != "" && control.WellFormed()
      modifies this`registry, this`entry
      ensures Holding() && confirmed && entry.attachmentID == old(entry.attachmentID)
      ensures entry.Observed() == Some(control) && entry.Desired(construction) == model
    {
      var attachment := AttachmentToken();
      var first := Act(ConfirmControl(Some(control), attachment));
      if first != Accepted {
        return false;
      }
      var second := Act(Confirm(model, attachment));
      return second == Accepted;
    }

    // ------------------------------------------------------- desired model

    method ApplyDesiredModelHeld(id: string, options: seq<ConfigOption>, ghost from: nat)
      returns (control: Option<Control>, err: Option<CallError>)
      requires Holding() && LastOptions(log, from, id) == Some(options)
      modifies this`registry, this`entry, this`log, this`over, this`trouble
      ensures Holding() && Extends(old(log), log) && trouble >= old(trouble) && News(log) == old(News(log))
      ensures entry.Desired(construction) == old(entry.Desired(construction))
      ensures entry.attachmentID == id && entry.attachmentToken == old(entry.attachmentToken) + 1
      ensures err.None? ==> Endings(log, Required()) == old(Endings(log, Required())) && trouble == old(trouble)
      ensures trouble == old(trouble) ==> (err.None? <==> InPlace(log, from, id, entry.Desired(construction)))
    {
      var attachment := ReplaceAttachment(id);
      control, err := ApplyDesired(id, options, attachment, from);
    }

    /** What the reconciliation says of the model that was last shown. */
    method ApplyDesired(id: string, options: seq<ConfigOption>, attachment: nat, ghost from: nat)
      returns (control: Option<Control>, err: Option<CallError>)
      requires Holding() && attachment == entry.attachmentToken && LastOptions(log, from, id) == Some(options)
      modifies this`registry, this`entry, this`log, this`over, this`trouble
      ensures Holding() && Extends(old(log), log) && trouble >= old(trouble) && News(log) == old(News(log))
      ensures entry.Desired(construction) == old(entry.Desired(construction))
      ensures entry.attachmentID == old(entry.attachmentID) && entry.attachmentToken == attachment
      ensures err.None? ==> Endings(log, Required()) == old(Endings(log, Required())) && trouble == old(trouble)
      ensures trouble == old(trouble) ==> (err.None? <==> InPlace(log, from, id, entry.Desired(construction)))
    {
      control, err := ApplyDesiredModelCurrentHeld(id, options, attachment);
      if trouble == old(trouble) {
        DesiredDecides(old(log), log, from, id, options, entry.Desired(construction));
      }
    }

    /** Reconciles the desired model with one authoritative set of options. The token
        is the current one, so confirming under it cannot fail. One set request is sent
        when the options offer the model and show another, and none otherwise. Success
        means that the model shown is the desired one, and is observed; after a failure
        nothing is. */
    method ApplyDesiredModelCurrentHeld(id: string, options: seq<ConfigOption>, attachment: nat)
      returns (control: Option<Control>, err: Option<CallError>)
      requires Holding() && attachment == entry.attachmentToken
      modifies this`registry, this`entry, this`log, this`over, this`trouble
      ensures Holding() && trouble >= old(trouble) && News(log) == old(News(log)) && Extends(old(log), log)
      ensures entry.Desired(construction) == old(entry.Desired(construction))
      ensures entry.attachmentID == old(entry.attachmentID) && entry.attachmentToken == attachment
      ensures Reconciled(old(log), log, id, Classify(options), entry.Desired(construction))
      ensures trouble == old(trouble) ==>
        && (|log| > |old(log)| <==> NeedsSet(Classify(options), entry.Desired(construction)))
        && err == DesiredOutcome(Classify(options), entry.Desired(construction), old(log), log)
      ensures old(over) ==> log == old(log)
      ensures err != Some(DesiredModelUnavailable)
      ensures err.None? ==> Endings(log, Required()) == old(Endings(log, Required())) && trouble == old(trouble)
      ensures if err.Some? then entry.Observed() == None else entry.Observed() == control
      ensures err.None? && entry.Desired(construction) != "" ==>
        control.Some? && control.value.currentModel == entry.Desired(construction)
    {
      control := ClassifyModelDescriptor(options);
      ConfirmShown(control, attachment);
      control, err := ReconcileShown(id, control, attachment);
    }

    /** The same once the control state was recorded. */
    method ReconcileShown(id: string, shown: Option<Control>, attachment: nat)
      returns (control: Option<Control>, err: Option<CallError>)
      requires Holding() && attachment == entry.attachmentToken
      requires entry.Observed() == shown && (shown.Some? ==> shown.value.WellFormed())
      modifies this`registry, this`entry, this`log, this`over, this`trouble
      ensures Holding() && trouble >= old(trouble) && News(log) == old(News(log)) && Extends(old(log), log)
      ensures entry.Desired(construction) == old(entry.Desired(construction))
      ensures entry.attachmentID == old(entry.attachmentID) && entry.attachmentToken == attachment
      ensures Reconciled(old(log), log, id, shown, entry.Desired(construction))
      ensures trouble == old(trouble) ==>
        && (|log| > |old(log)| <==> NeedsSet(shown, entry.Desired(construction)))
        && err == DesiredOutcome(shown, entry.Desired(construction), old(log), log)
      ensures old(over) ==> log == old(log)
      ensures err != Some(DesiredModelUnavailable)
      ensures err.None? ==> Endings(log, Required()) == old(Endings(log, Required())) && trouble == old(trouble)
      ensures if err.Some? then entry.Observed() == None else entry.Observed() == control
      ensures err.None? && entry.Desired(construction) != "" ==>
        control.Some? && control.value.currentModel == entry.Desired(construction)
    {
      var desired := Desired();
      if desired == "" {
        return shown, None;
      }
      control, err := Reconcile(id, shown, desired, attachment);
    }

    method ConfirmShown(control: Option<Control>, attachment: nat)
      requires Holding() && attachment == entry.attachmentToken && (control.Some? ==> control.value.WellFormed())
      modifies this`registry, this`entry
      ensures Holding() && entry.Observed() == control && entry.liveDesired == old(entry.liveDesired)
      ensures entry.attachmentID == old(entry.attachmentID) && entry.attachmentToken == attachment
    {
      var _ := Act(ConfirmControl(control, attachment));
    }

    /** The same when a model is desired. */
    method Reconcile(id: string, shown: Option<Control>, desired: string, attachment: nat)
      returns (control: Option<Control>, err: Option<CallError>)
      requires Holding() && attachment == entry.attachmentToken && desired == entry.Desired(construction) != ""
      requires entry.Observed() == shown && (shown.Some? ==> shown.value.WellFormed())
      modifies this`registry, this`entry, this`log, this`over, this`trouble
      ensures Holding() && trouble >= old(trouble) && News(log) == old(News(log)) && Extends(old(log), log)
      ensures entry.Desired(construction) == desired
      ensures entry.attachmentID == old(entry.attachmentID) && entry.attachmentToken == attachment
      ensures Reconciled(old(log), log, id, shown, desired)
      ensures trouble == old(trouble) ==>
        && (|log| > |old(log)| <==> NeedsSet(shown, desired))
        && err == DesiredOutcome(shown, desired, old(log), log)
      ensures old(over) ==> log == old(log)
      ensures err != Some(DesiredModelUnavailable)
      ensures err.None? ==> Endings(log, Required()) == old(Endings(log, Required())) && trouble == old(trouble)
      ensures err.Some? ==> entry.Observed() == None
      ensures err.None? ==> control.Some? && control.value.currentModel == desired && entry.Observed() == control
    {
      control := shown;
      if control.None? {
        var _ := Act(Unverify);
        return None, Some(DescriptorInvalid);
      }
      if !control.value.HasModel(desired) {
        var _ := Act(Unverify);
        return control, Some(DesiredModelRejected);
      }
      if control.value.currentModel == desired {
        var confirmed := Act(Confirm(desired, attachment));
        if confirmed != Accepted {
          return None, Some(DesiredModelUnavailable);
        }
        return control, None;
      }
      control, err := ReconcileBySet(id, shown, desired, attachment);
    }

    /** The same when the options offer the model and show another. */
    method ReconcileBySet(id: string, shown: Option<Control>, desired: string, attachment: nat)
      returns (control: Option<Control>, err: Option<CallError>)
      requires Holding() && attachment == entry.attachmentToken && desired == entry.Desired(construction) != ""
      requires NeedsSet(shown, desired)
      modifies this`registry, this`entry, this`log, this`over, this`trouble
      ensures Holding() && trouble >= old(trouble) && News(log) == old(News(log)) && Extends(old(log), log)
      ensures entry.Desired(construction) == desired
      ensures entry.attachmentID == old(entry.attachmentID) && entry.attachmentToken == attachment
      ensures Reconciled(old(log), log, id, shown, desired)
      ensures trouble == old(trouble) ==>
        |log| > |old(log)| && log[|old(log)|].Config? && log[|old(log)|].call.SetOption?
        && err == SetOutcome(log[|old(log)|].call.answer, desired)
      ensures old(over) ==> err == Some(ContextDone) && log == old(log)
      ensures err != Some(DesiredModelUnavailable)
      ensures err.None? ==> Endings(log, Required()) == old(Endings(log, Required())) && trouble == old(trouble)
      ensures err.Some? ==> entry.Observed() == None
      ensures err.None? ==> control.Some? && control.value.currentModel == desired && entry.Observed() == control
    {
      var canceled := IsOver();
      if canceled {
        var _ := Act(Unverify);
        return shown, Some(ContextDone);
      }
      control, err := SetDesiredModel(id, shown, desired, attachment);
      SetCounts(old(log), log, Required());
    }

    /** The one set request, and what its answer means. */
    method SetDesiredModel(id: string, control: Option<Control>, desired: string, attachment: nat)
      returns (verified: Option<Control>, err: Option<CallError>)
      requires Holding() && attachment == entry.attachmentToken && desired == entry.Desired(construction) != ""
        && control.Some?
      modifies this`registry, this`entry, this`log
      ensures Holding() && |log| == |old(log)| + 1 && old(log) <= log
      ensures IsSet(log[|old(log)|], id, control.value.modelOptionID, desired)
      ensures entry.Desired(construction) == desired
      ensures entry.attachmentID == old(entry.attachmentID) && entry.attachmentToken == attachment
      ensures err == SetOutcome(log[|old(log)|].call.answer, desired)
      ensures err.Some? ==> entry.Observed() == None
      ensures err.None? ==> verified.Some? && verified.value.currentModel == desired && entry.Observed() == verified
    {
      var answer := SetModel(id, control.value.modelOptionID, desired);
      if answer.Err? {
        verified := control;
        err := SetRefused(answer, desired);
      } else {
        verified, err := SetAnswered(answer.value, desired, attachment);
      }
    }

    /** The class of an error answer; nothing is observed after it. */
    method SetRefused(answer: Result<seq<ConfigOption>, Fault>, desired: string) returns (err: Option<CallError>)
      requires Holding() && answer.Err?
      modifies this`registry, this`entry
      ensures Holding() && entry.Observed() == None && entry.Desired(construction) == old(entry.Desired(construction))
      ensures entry.attachmentID == old(entry.attachmentID) && entry.attachmentToken == old(entry.attachmentToken)
      ensures err == SetOutcome(answer, desired)
    {
      var _ := Act(Unverify);
      return Some(if answer.error.DefinitiveModelRejection() then DesiredModelRejected else DesiredModelUncertain);
    }

    method SetAnswered(options: seq<ConfigOption>, desired: string, attachment: nat)
      returns (verified: Option<Control>, err: Option<CallError>)
      requires Holding() && attachment == entry.attachmentToken && desired == entry.Desired(construction) != ""
      modifies this`registry, this`entry
      ensures Holding() && entry.Desired(construction) == desired
      ensures entry.attachmentID == old(entry.attachmentID) && entry.attachmentToken == attachment
      ensures err == SetOutcome(Ok(options), desired)
      ensures err.Some? ==> entry.Observed() == None
      ensures err.None? ==> verified.Some? && verified.value.currentModel == desired && entry.Observed() == verified
    {
      verified := ClassifyModelDescriptor(options);
      if verified.None? {
        var _ := Act(Unverify);
        return None, Some(DesiredModelUncertain);
      }
      if verified.value.currentModel != desired {
        var _ := Act(Unverify);
        return verified, Some(DesiredModelRejected);
      }
      var first := Act(ConfirmControl(verified, attachment));
      if first != Accepted {
        return None, Some(DesiredModelUnavailable);
      }
      var second := Act(Confirm(desired, attachment));
      if second != Accepted {
        return None, Some(DesiredModelUnavailable);
      }
      return verified, None;
    }

    // ----------------------------------------------------- stored attachment

    method Note(event: Event)
      requires protects ==> SafeHistory(history)
      requires protects ==>
        && Follows(history[|history| - 1], Moment(event, live, durable, doubt))
        && Guarded(Moment(event, live, durable, doubt))
      modifies this`history
      ensures Tracked()
    {
      if protects {
        HistoryGrows(history, Moment(event, live, durable, doubt));
      }
      history := history + [Moment(event, live, durable, doubt)];
    }

    /** Writes the live session's state, which may fail. */
    method WriteLive(saved: Saved) returns (ok: bool)
      requires Tracked() && (protects && doubt ==> saved.indeterminate)
      modifies this`live, this`history, this`trouble
      ensures Tracked() && live == if ok then Some(saved) else old(live)
      ensures trouble == old(trouble) + if ok then 0 else 1
    {
      var failed := Mishap();
      if !failed {
        live := Some(saved);
        Note(WroteState);
      }
      return !failed;
    }

    /** Writes the outcome of a session/new, which ends the doubt about it. */
    method WriteOutcome(saved: Saved) returns (ok: bool)
      requires Tracked() && !saved.indeterminate
      modifies this`live, this`doubt, this`history, this`trouble
      ensures Tracked() && live == (if ok then Some(saved) else old(live))
        && doubt == (if ok then false else old(doubt))
      ensures trouble == old(trouble) + if ok then 0 else 1
    {
      var failed := Mishap();
      if !failed {
        live := Some(saved);
        doubt := false;
        Note(RecordedOutcome);
      }
      return !failed;
    }

    /** Hands an event with the state to the runner; once the consumer goes on it is
        durable, and it may be even when the consumer stops. */
    method Yield(saved: Saved) returns (ok: bool)
      requires Tracked() && (protects && doubt ==> saved.indeterminate)
      modifies this`durable, this`history, this`trouble
      ensures Tracked() && (ok ==> durable == Some(saved))
      ensures trouble == old(trouble) + if ok then 0 else 1
    {
      var stopped := Mishap();
      var stored: bool := *;
      if !stopped || stored {
        durable := Some(saved);
        Note(Yielded);
      }
      return !stopped;
    }

    method SendNew() returns (answer: Result<Shape, Fault>)
      requires Tracked() && (protects ==> !doubt && Flagged(live) && Flagged(durable))
      modifies this`log, this`doubt, this`history
      ensures Tracked() && doubt && IsNext(old(log), New(answer), log)
      ensures News(log) == old(News(log)) + 1 && Endings(log, Required()) == old(Endings(log, Required()))
      ensures Extends(old(log), log)
    {
      doubt := true;
      Note(SentNew);
      answer := *;
      CountAppend(log, New(answer), Required());
      log := log + [New(answer)];
    }

    method PersistBinding(id: string) returns (ok: bool)
      requires Tracked() && (protects ==> !doubt)
      modifies this`live, this`history, this`trouble
      ensures Tracked() && live == (if ok && !Blank(id) then Some(Saved(id, false)) else old(live))
      ensures trouble == old(trouble) + if ok then 0 else 1
    {
      if Blank(id) {
        return true;
      }
      ok := WriteLive(Saved(id, false));
    }

    /** The write-ahead flag: stored live and durably before session/new is sent. */
    method PersistPending(id: string) returns (err: Option<CallError>)
      requires Tracked()
      modifies this`live, this`durable, this`history, this`trouble
      ensures Tracked() && (err.None? ==> live == durable == Some(Saved(id, true)))
      ensures trouble == old(trouble) + if err.Some? then 1 else 0
    {
      var written := WriteLive(Saved(id, true));
      if !written {
        return Some(StateNotWritten);
      }
      var consumed := Yield(Saved(id, true));
      return if consumed then None else Some(ContextDone);
    }

    method PersistOutcome(id: string) returns (err: Option<CallError>)
      requires Tracked()
      modifies this`live, this`durable, this`doubt, this`history, this`trouble
      ensures Tracked() && (err.None? ==> !doubt && live == durable == Some(Saved(id, false)))
      ensures err.Some? ==> err.value == StateNotWritten || err.value == ContextDone
      ensures trouble == old(trouble) + if err.Some? then 1 else 0
    {
      var written := WriteOutcome(Saved(id, false));
      if !written {
        return Some(StateNotWritten);
      }
      var consumed := Yield(Saved(id, false));
      return if consumed then None else Some(ContextDone);
    }

    /** Applies the configuration: `steps` records which of the values were asked for and
        how that was answered. The options it ends with are what was last shown. */
    method ApplyConfig(id: string, values: seq<Cfg.ConfigValue>, shape: Shape, ghost from: nat)
      returns (options: seq<ConfigOption>, err: Option<Cfg.ConfigError>, ghost steps: seq<Cfg.Step>)
      requires from <= |log| && LastOptions(log, from, id) == Some(shape.options)
      modifies this`log
      ensures Extends(old(log), log) && LastOptions(log, from, id) == Some(options)
      ensures SetUp(old(log), log, id, Required(), values, shape, steps) && err == Cfg.Failure(steps)
      ensures News(log) == old(News(log))
      ensures err.None? ==> Endings(log, Required()) == old(Endings(log, Required()))
    {
      var collected;
      collected, options, err, steps :=
        Cfg.ApplySessionConfig(id, values, Cfg.Setup(shape.options, shape.mode), configured);
      ghost var calls := CallsOf(steps);
      ApplyBrings(log, from, id, Required(), Cfg.Normalize(values), Cfg.Setup(shape.options, shape.mode), steps);
      CountCalls(log, id, Required(), Cfg.Normalize(values), Cfg.Setup(shape.options, shape.mode), steps);
      log := log + calls;
    }

    // ------------------------------------------------------- the remote session

    /** What getting a remote session promises: the session returned is the one stored; a
        desired model was last shown for it, since the `n`th request; unless its
        configuration failed, no further request ended a set-up than the `endings` before
        it; and no doubt is left about an attachment. */
    ghost predicate Ready(r: Result<Remote, CallError>, n: nat, endings: nat)
      reads this`log, this`entry, this`doubt, this`live
    {
      r.Ok? ==>
        && (!Blank(r.value.id) ==> live == Some(Saved(r.value.id, false)))
        && InPlace(log, n, r.value.id, entry.Desired(construction))
        && (r.value.configError.None? ==> Endings(log, Required()) == endings)
        && (protects ==> !doubt)
    }

    /** Makes a new session. If nothing else goes wrong exactly one session/new is sent,
        and the session is returned if and only if the process created it, its slot was
        free, the desired model is in place and its configuration was not canceled. It is
        asked for the stored values, overridden by the configured ones. */
    method CreateRemote(cfg: AttachConfig) returns (r: Result<Remote, CallError>, ghost steps: seq<Cfg.Step>)
      requires Holding() && Tracked() && (protects ==> !doubt)
      modifies this`registry, this`entry, this`log, this`slots, this`live, this`durable, this`doubt, this`history
      modifies this`over, this`trouble
      ensures Holding() && Tracked() && Extends(old(log), log) && slots == old(slots) && trouble >= old(trouble)
      ensures entry.Desired(construction) == old(entry.Desired(construction))
        && Ready(r, |old(log)|, old(Endings(log, Required())))
      ensures r.Ok? ==> entry.attachmentID == r.value.id && trouble == old(trouble)
      ensures News(log) <= old(News(log)) + 1
      ensures trouble == old(trouble) ==>
        IsNew(entry.Desired(construction), r, old(slots), old(log), log, cfg.values, steps)
      ensures old(over) ==> r == Err(ContextDone) && log == old(log) && live == old(live) && durable == old(durable)
      ensures entry.attachmentID == old(entry.attachmentID) || LastOptions(log, |old(log)|, entry.attachmentID).Some?
    {
      steps := [];
      var canceled := IsOver();
      if canceled {
        return Err(ContextDone), [];
      }
      if protects {
        var err := PersistPending(cfg.sessionID);
        if err.Some? {
          return Err(err.value), [];
        }
      }
      r, steps := AskNew(cfg);
    }

    method AskNew(cfg: AttachConfig) returns (r: Result<Remote, CallError>, ghost steps: seq<Cfg.Step>)
      requires Holding() && Tracked() && (protects ==> !doubt && Flagged(live) && Flagged(durable))
      modifies this`registry, this`entry, this`log, this`slots, this`live, this`durable, this`doubt, this`history
      modifies this`over, this`trouble
      ensures Holding() && Tracked() && Extends(old(log), log) && slots == old(slots) && trouble >= old(trouble)
      ensures entry.Desired(construction) == old(entry.Desired(construction))
      ensures Ready(r, |old(log)|, old(Endings(log, Required())))
      ensures r.Ok? ==> entry.attachmentID == r.value.id && trouble == old(trouble)
      ensures News(log) == old(News(log)) + 1
      ensures trouble == old(trouble) ==>
        IsNew(entry.Desired(construction), r, old(slots), old(log), log, cfg.values, steps)
      ensures entry.attachmentID == old(entry.attachmentID) || LastOptions(log, |old(log)|, entry.attachmentID).Some?
    {
      steps := [];
      var answer := SendNew();
      if answer.Err? {
        r := NewFailed(cfg, answer.error);
        return;
      }
      r, steps := TakeNew(cfg, answer, old(log));
    }

    /** The process created a session: its slot is claimed, and it is set up. */
    method TakeNew(cfg: AttachConfig, answer: Result<Shape, Fault>, ghost before: seq<Rpc>)
      returns (r: Result<Remote, CallError>, ghost steps: seq<Cfg.Step>)
      requires Holding() && Tracked() && answer.Ok? && IsNext(before, New(answer), log)
      requires Endings(log, Required()) == Endings(before, Required())
      modifies this`registry, this`entry, this`log, this`slots, this`live, this`durable, this`doubt, this`history
      modifies this`over, this`trouble
      ensures Holding() && Tracked() && Extends(old(log), log) && slots == old(slots) && trouble >= old(trouble)
      ensures entry.Desired(construction) == old(entry.Desired(construction))
      ensures Ready(r, |before|, Endings(before, Required()))
      ensures r.Ok? ==> entry.attachmentID == r.value.id && trouble == old(trouble)
      ensures News(log) == old(News(log))
      ensures trouble == old(trouble) ==>
        IsNew(entry.Desired(construction), r, old(slots), before, log, cfg.values, steps)
      ensures entry.attachmentID == old(entry.attachmentID) || LastOptions(log, |before|, entry.attachmentID).Some?
    {
      var id := answer.value.sessionID;
      var begun := Begin(id);
      if begun.Some? {
        return Err(OperationRefused(begun.value)), [];
      }
      LastNext(before, New(answer), log, |before|, id);
      r, steps := SetUpNew(cfg, answer.value, |before|);
      LastStays(old(log), log, |before|, id);
      FirstStays(before, New(answer), old(log), log);
      EndOperation(id);
    }

    method NewFailed(cfg: AttachConfig, fault: Fault) returns (r: Result<Remote, CallError>)
      requires Tracked()
      modifies this`live, this`durable, this`doubt, this`history, this`over, this`trouble
      ensures Tracked() && r.Err? && trouble >= old(trouble)
      ensures trouble == old(trouble) ==> r == Err(RequestFailed(fault))
      ensures over <==> r.error == ContextDone
      ensures over ==>
        live == old(live) && durable == old(durable) && doubt == old(doubt) && history == old(history)
      ensures protects && r.error.RequestFailed? ==> !doubt && live == durable == Some(Saved(cfg.sessionID, false))
    {
      var canceled := IsOver();
      if canceled {
        return Err(ContextDone);
      }
      if protects {
        var err := PersistOutcome(cfg.sessionID);
        if err.Some? {
          return Err(OutcomeNotStored(fault));
        }
      }
      return Err(RequestFailed(fault));
    }

    method SetUpNew(cfg: AttachConfig, shape: Shape, ghost from: nat)
      returns (r: Result<Remote, CallError>, ghost steps: seq<Cfg.Step>)
      requires Holding() && Tracked() && from + 1 == |log|
        && LastOptions(log, from, shape.sessionID) == Some(shape.options)
      requires log[from].New?
      modifies this`registry, this`entry, this`log, this`live, this`durable, this`doubt, this`history
      modifies this`over, this`trouble
      ensures Holding() && Tracked() && Extends(old(log), log) && trouble >= old(trouble)
      ensures entry.Desired(construction) == old(entry.Desired(construction))
      ensures Ready(r, from, old(Endings(log, Required())))
      ensures News(log) == old(News(log))
      ensures r.Ok? ==> r.value == Remote(shape.sessionID, true, Cfg.Failure(steps)) && trouble == old(trouble)
      ensures entry.attachmentID == old(entry.attachmentID) || entry.attachmentID == shape.sessionID
      ensures trouble == old(trouble) ==> entry.attachmentID == shape.sessionID
      ensures trouble == old(trouble) ==>
        SetUp(old(log), log, shape.sessionID, Required(), Cfg.Merge(cfg.values, configured), shape, steps)
      ensures trouble == old(trouble) ==>
        (r.Ok? <==>
          !IsCanceled(Cfg.Failure(steps)) && InPlace(log, from, shape.sessionID, entry.Desired(construction)))
    {
      steps := [];
      var id := shape.sessionID;
      if protects {
        var err := PersistOutcome(id);
        if err.Some? {
          return Err(err.value), [];
        }
      }
      var values := Cfg.MergeValues(cfg.values, configured);
      var options, configErr;
      options, configErr, steps := ApplyConfig(id, values, shape, from);
      ghost var applied := log;
      r := BindNew(id, options, configErr, from, old(Endings(log, Required())));
      SetUpStays(old(log), applied, log, id, Required(), values, shape, steps);
    }

    /** Attaches a new session, reconciles its model and stores it, unless that fails. */
    method BindNew(
        id: string, options: seq<ConfigOption>, configErr: Option<Cfg.ConfigError>, ghost n: nat, ghost endings: nat)
      returns (r: Result<Remote, CallError>)
      requires Holding() && Tracked() && (protects ==> !doubt) && LastOptions(log, n, id) == Some(options)
      requires configErr.None? ==> Endings(log, Required()) == endings
      modifies this`registry, this`entry, this`log, this`live, this`history, this`over, this`trouble
      ensures Holding() && Tracked() && Extends(old(log), log) && trouble >= old(trouble)
      ensures entry.Desired(construction) == old(entry.Desired(construction)) && Ready(r, n, endings)
      ensures News(log) == old(News(log)) && entry.attachmentID == id
      ensures r.Ok? ==> r.value == Remote(id, true, configErr) && trouble == old(trouble)
      ensures trouble == old(trouble) ==>
        (r.Ok? <==> !IsCanceled(configErr) && InPlace(log, n, id, entry.Desired(construction)))
    {
      var _, modelErr := ApplyDesiredModelHeld(id, options, n);
      if modelErr.Some? {
        return Err(modelErr.value);
      }
      r := Bind(id, true, configErr);
    }

    /** Stores the binding and reports a configuration error, if there was one. */
    method Bind(id: string, isNew: bool, configErr: Option<Cfg.ConfigError>) returns (r: Result<Remote, CallError>)
      requires Tracked() && (protects ==> !doubt)
      modifies this`live, this`history, this`trouble
      ensures Tracked() && trouble >= old(trouble)
      ensures r.Ok? && !Blank(id) ==> live == Some(Saved(id, false))
      ensures r.Ok? ==> r.value == Remote(id, isNew, configErr) && trouble == old(trouble)
      ensures IsCanceled(configErr) ==> r.Err?
      ensures trouble == old(trouble) && !IsCanceled(configErr) ==> r.Ok?
    {
      var bound := PersistBinding(id);
      if !bound {
        return Err(StateNotWritten);
      }
      if configErr.Some? && configErr.value.Refused? && configErr.value.fault.Transport?
        && configErr.value.fault.canceled {
        return Err(ConfigFailed(configErr.value));
      }
      return Ok(Remote(id, isNew, configErr));
    }

    /** Reconciles the desired model of a session and stores the session, unless that fails. */
    method ReconcileAndBind(
        id: string, options: seq<ConfigOption>, attachment: nat, configErr: Option<Cfg.ConfigError>,
        ghost n: nat, ghost endings: nat)
      returns (r: Result<Remote, CallError>)
      requires Holding() && Tracked() && (protects ==> !doubt) && LastOptions(log, n, id) == Some(options)
      requires attachment == entry.attachmentToken && (configErr.None? ==> Endings(log, Required()) == endings)
      modifies this`registry, this`entry, this`log, this`live, this`history, this`over, this`trouble
      ensures Holding() && Tracked() && Extends(old(log), log) && trouble >= old(trouble)
      ensures entry.Desired(construction) == old(entry.Desired(construction)) && Ready(r, n, endings)
      ensures News(log) == old(News(log)) && entry.attachmentID == old(entry.attachmentID)
      ensures r.Ok? ==> r.value == Remote(id, false, configErr) && trouble == old(trouble)
      ensures trouble == old(trouble) ==>
        (r.Ok? <==> !IsCanceled(configErr) && InPlace(log, n, id, entry.Desired(construction)))
    {
      var _, modelErr := ApplyDesired(id, options, attachment, n);
      if modelErr.Some? {
        return Err(modelErr.value);
      }
      r := Bind(id, false, configErr);
    }

    /** An existing session is only good for prompts if its model can be verified, which
        takes a session operation of its own and a resume. If nothing else goes wrong it
        is returned exactly when no model is desired or the answer, or the set request
        after it, shows the one desired. */
    method VerifyExisting(id: string) returns (r: Result<Remote, CallError>)
      requires Holding() && Tracked() && (protects ==> !doubt)
      requires !Blank(id) ==> live == Some(Saved(id, false))
      modifies this`registry, this`entry, this`log, this`slots, this`live, this`history, this`over, this`trouble
      ensures Holding() && Tracked() && Extends(old(log), log) && slots == old(slots) && trouble >= old(trouble)
      ensures entry.Desired(construction) == old(entry.Desired(construction))
        && Ready(r, |old(log)|, old(Endings(log, Required())))
      ensures News(log) == old(News(log))
      ensures id in old(slots) && entry.Desired(construction) != "" ==> r.Err?
      ensures id in old(slots) || entry.Desired(construction) == "" ==> entry == old(entry) && log == old(log)
      ensures r.Ok? ==> r.value == Remote(id, false, None) && trouble == old(trouble)
      ensures entry.Desired(construction) == "" ==> r.Ok? && trouble == old(trouble)
      ensures trouble == old(trouble) ==> (r.Ok? <==> InPlace(log, |old(log)|, id, entry.Desired(construction)))
      ensures trouble == old(trouble) ==>
        if Resumable(entry.Desired(construction), id, old(slots)) then
          && IsResumed(old(log), log, id)
          && entry.attachmentID == AttachedAfter(log[|old(log)|].resumed, id, old(entry.attachmentID))
        else log == old(log)
    {
      var desired := Desired();
      if desired == "" {
        return Ok(Remote(id, false, None));
      }
      r := VerifyDesired(id);
    }

    method VerifyDesired(id: string) returns (r: Result<Remote, CallError>)
      requires Holding() && Tracked() && (protects ==> !doubt) && entry.Desired(construction) != ""
      modifies this`registry, this`entry, this`log, this`slots, this`live, this`history, this`over, this`trouble
      ensures Holding() && Tracked() && Extends(old(log), log) && slots == old(slots) && trouble >= old(trouble)
      ensures entry.Desired(construction) == old(entry.Desired(construction))
      ensures Ready(r, |old(log)|, old(Endings(log, Required()))) && News(log) == old(News(log))
      ensures id in old(slots) ==> r.Err? && entry == old(entry) && log == old(log)
      ensures r.Ok? ==> r.value == Remote(id, false, None) && trouble == old(trouble)
      ensures trouble == old(trouble) ==> (r.Ok? <==> Vouched(log, |old(log)|, id, entry.Desired(construction)))
      ensures trouble == old(trouble) ==>
        if Resumable(entry.Desired(construction), id, old(slots)) then
          && IsResumed(old(log), log, id)
          && entry.attachmentID == AttachedAfter(log[|old(log)|].resumed, id, old(entry.attachmentID))
        else log == old(log)
    {
      NothingShown(log, id);
      if !resumes {
        return Err(DesiredModelUnavailable);
      }
      var begun := Begin(id);
      if begun.Some? {
        return Err(OperationRefused(begun.value));
      }
      r := VerifyBegun(id);
      EndOperation(id);
    }

    method VerifyBegun(id: string) returns (r: Result<Remote, CallError>)
      requires Holding() && Tracked() && (protects ==> !doubt) && entry.Desired(construction) != ""
      modifies this`registry, this`entry, this`log, this`live, this`history, this`over, this`trouble
      ensures Holding() && Tracked() && Extends(old(log), log) && trouble >= old(trouble)
      ensures entry.Desired(construction) == old(entry.Desired(construction))
        && Ready(r, |old(log)|, old(Endings(log, Required())))
      ensures News(log) == old(News(log))
      ensures r.Ok? ==> r.value == Remote(id, false, None) && trouble == old(trouble)
      ensures trouble == old(trouble) ==> (r.Ok? <==> Vouched(log, |old(log)|, id, entry.Desired(construction)))
      ensures trouble == old(trouble) && !Blank(id) ==>
        IsResumed(old(log), log, id)
        && entry.attachmentID == AttachedAfter(log[|old(log)|].resumed, id, old(entry.attachmentID))
      ensures Blank(id) ==> log == old(log)
    {
      var answer := SendResume(id);
      if answer.Err? {
        RefusalShowsNothing(old(log), id, answer, log);
        var refusal := VerifyRefused(answer.error);
        return Err(refusal);
      }
      ghost var resumed := log;
      LastNext(old(log), Resume(Trim(id), answer), resumed, |old(log)|, id);
      r := VerifyAnswered(id, answer.value.options, |old(log)|);
      FirstStays(old(log), Resume(Trim(id), answer), resumed, log);
    }

    method VerifyRefused(fault: Fault) returns (err: CallError)
      requires Holding()
      modifies this`registry, this`entry, this`over, this`trouble
      ensures Holding() && entry.liveDesired == old(entry.liveDesired) && entry.Observed() == None
      ensures trouble == old(trouble) + if over then 1 else 0
      ensures err == if over then ContextDone else DesiredModelUnavailable
      ensures entry.attachmentID == if !over && fault.ResumeUnknownSession() then "" else old(entry.attachmentID)
    {
      var canceled := IsOver();
      if canceled {
        var _ := Act(Unverify);
        return ContextDone;
      }
      var _ := Act(if fault.ResumeUnknownSession() then Invalidate else Unverify);
      return DesiredModelUnavailable;
    }

    method VerifyAnswered(id: string, options: seq<ConfigOption>, ghost n: nat)
      returns (r: Result<Remote, CallError>)
      requires Holding() && Tracked() && (protects ==> !doubt) && LastOptions(log, n, id) == Some(options)
      requires entry.Desired(construction) != ""
      modifies this`registry, this`entry, this`log, this`live, this`history, this`over, this`trouble
      ensures Holding() && Tracked() && Extends(old(log), log) && trouble >= old(trouble)
      ensures entry.Desired(construction) == old(entry.Desired(construction))
      ensures Ready(r, n, old(Endings(log, Required())))
      ensures News(log) == old(News(log)) && entry.attachmentID == id
      ensures r.Ok? ==> r.value == Remote(id, false, None) && trouble == old(trouble)
      ensures trouble == old(trouble) ==> (r.Ok? <==> Vouched(log, n, id, entry.Desired(construction)))
    {
      var attachment := ReplaceAttachment(id);
      r := ReconcileAndBind(id, options, attachment, None, n, old(Endings(log, Required())));
    }

    /** While an attachment is in doubt this refuses without sending anything. The stored
        session, or else the attached one, is used as it is and never replaced by a new
        one; only where there is none a new one is made. */
    method EnsureRemoteHeld()
      returns (r: Result<Remote, CallError>, ghost values: seq<Cfg.ConfigValue>, ghost steps: seq<Cfg.Step>)
      requires Holding() && Tracked()
      modifies this`registry, this`entry, this`log, this`slots, this`live, this`durable, this`doubt, this`history
      modifies this`over, this`trouble
      ensures Holding() && Tracked() && Extends(old(log), log) && slots == old(slots) && trouble >= old(trouble)
      ensures entry.Desired(construction) == old(entry.Desired(construction))
        && Ready(r, |old(log)|, old(Endings(log, Required())))
      ensures old(Flagged(live)) ==>
        && r.Err? && (trouble == old(trouble) ==> r.error == AttachmentIndeterminate)
        && log == old(log) && entry == old(entry)
        && live == old(live) && durable == old(durable) && doubt == old(doubt) && history == old(history)
      ensures old(TargetOf(live, entry)) != "" ==>
        News(log) == old(News(log)) && (r.Ok? ==> r.value == Remote(old(TargetOf(live, entry)), false, None))
      ensures trouble == old(trouble) ==>
        Obtained(entry.Desired(construction), old(live), old(entry), r, old(slots), old(log), log, values, steps)
      ensures r.Ok? ==> trouble == old(trouble)
      ensures News(log) <= old(News(log)) + 1
    {
      values, steps := [], [];
      var cfg := ResolveConfig();
      if cfg.None? {
        return Err(ConfigUnreadable), [], [];
      }
      if cfg.value.indeterminate {
        return Err(AttachmentIndeterminate), [], [];
      }
      var id := cfg.value.sessionID;
      if id == "" {
        id := AttachedRemoteID();
      }
      if id != "" {
        r := UseExisting(id);
      } else {
        r, values, steps := MakeNew(cfg.value, old(log));
      }
    }

    /** What a smooth call for a session comes to: a refusal while an attachment is in doubt,
        the session that is known if its model can be verified, or else a new one. */
    ghost predicate Obtained(
        desired: string, live: Option<Saved>, entry: Entry, r: Result<Remote, CallError>, slots: set<string>,
        before: seq<Rpc>, after: seq<Rpc>, values: seq<Cfg.ConfigValue>, steps: seq<Cfg.Step>)
    {
      if Flagged(live) then r == Err(AttachmentIndeterminate) && after == before
      else if TargetOf(live, entry) != "" then IsKnown(desired, r, TargetOf(live, entry), slots, before, after)
      else IsNew(desired, r, slots, before, after, values, steps)
    }

    /** What a smooth verification of a session that is known already comes to. */
    ghost predicate IsKnown(
        desired: string, r: Result<Remote, CallError>, id: string, slots: set<string>, before: seq<Rpc>,
        after: seq<Rpc>)
    {
      && (r.Ok? <==> InPlace(after, |before|, id, desired)) && (r.Ok? ==> r.value == Remote(id, false, None))
      && if Resumable(desired, id, slots) then IsResumed(before, after, id) else after == before
    }

    /** A session that is known already is stored and verified. */
    method UseExisting(id: string) returns (r: Result<Remote, CallError>)
      requires Holding() && Tracked() && (protects ==> !doubt)
      modifies this`registry, this`entry, this`log, this`slots, this`live, this`history, this`over, this`trouble
      ensures Holding() && Tracked() && Extends(old(log), log) && slots == old(slots) && trouble >= old(trouble)
      ensures entry.Desired(construction) == old(entry.Desired(construction))
      ensures Ready(r, |old(log)|, old(Endings(log, Required()))) && News(log) == old(News(log))
      ensures id in old(slots) || entry.Desired(construction) == "" ==> entry == old(entry) && log == old(log)
      ensures r.Ok? ==> r.value == Remote(id, false, None) && trouble == old(trouble)
      ensures trouble == old(trouble) ==> IsKnown(entry.Desired(construction), r, id, old(slots), old(log), log)
    {
      var bound := PersistBinding(id);
      if !bound {
        return Err(StateNotWritten);
      }
      r := VerifyExisting(id);
    }

    /** A verification of the session would resume it. */
    predicate Resumable(desired: string, id: string, slots: set<string>) {
      desired != "" && resumes && !Blank(id) && id !in slots
    }

    /** The process created a session whose slot is free. */
    predicate Usable(created: Result<Shape, Fault>, slots: set<string>) {
      created.Ok? && created.value.sessionID != "" && created.value.sessionID !in slots
    }

    /** The set-up of a session that was created, or resumed, by the request after `before`. */
    ghost predicate IsSetUp(
        before: seq<Rpc>, after: seq<Rpc>, answer: Result<Shape, Fault>, values: seq<Cfg.ConfigValue>,
          steps: seq<Cfg.Step>)
    {
      && answer.Ok? && |before| < |after| && before <= after
      && SetUp(after[..|before| + 1], after, answer.value.sessionID, Required(), values, answer.value, steps)
    }

    /** What a smooth creation of a session comes to, and any that succeeds. */
    ghost predicate IsNew(
        desired: string, r: Result<Remote, CallError>, slots: set<string>, before: seq<Rpc>, after: seq<Rpc>,
        values: seq<Cfg.ConfigValue>, steps: seq<Cfg.Step>)
    {
      && |after| > |before| && after[|before|].New?
      && var created := after[|before|].created;
      && (Usable(created, slots) ==> IsSetUp(before, after, created, Cfg.Merge(values, configured), steps))
      && (r.Ok? <==>
            && Usable(created, slots) && !IsCanceled(Cfg.Failure(steps))
            && InPlace(after, |before|, created.value.sessionID, desired))
      && (r.Ok? ==> r.value == Remote(created.value.sessionID, true, Cfg.Failure(steps)))
    }

    /** A resumed session is asked for the configured values and returned if the desired
        model is in place and the configuration was not canceled. */
    method RecoverResumed(id: string, shape: Shape, ghost n: nat)
      returns (r: Result<Remote, CallError>, ghost steps: seq<Cfg.Step>)
      requires Holding() && Tracked() && (protects ==> !doubt) && n <= |log|
      requires LastOptions(log, n, id) == Some(shape.options)
      modifies this`registry, this`entry, this`log, this`live, this`history, this`over, this`trouble
      ensures Holding() && Tracked() && Extends(old(log), log) && trouble >= old(trouble)
      ensures entry.Desired(construction) == old(entry.Desired(construction))
      ensures Ready(r, n, old(Endings(log, Required())))
      ensures News(log) == old(News(log)) && entry.attachmentID == id
      ensures r.Ok? ==> r.value == Remote(id, false, Cfg.Failure(steps)) && trouble == old(trouble)
      ensures SetUp(old(log), log, id, Required(), configured, shape, steps)
      ensures trouble == old(trouble) ==>
        (r.Ok? <==> !IsCanceled(Cfg.Failure(steps)) && InPlace(log, n, id, entry.Desired(construction)))
    {
      var attachment := ReplaceAttachment(id);
      var options, configErr;
      options, configErr, steps := ApplyConfig(id, configured, shape, n);
      ghost var applied := log;
      r := ReconcileAndBind(id, options, attachment, configErr, n, old(Endings(log, Required())));
      SetUpStays(old(log), applied, log, id, Required(), configured, shape, steps);
    }

    /** The process says it still has the session. Its operation is held here, so with
        a desired model the verification that follows is refused. */
    method RecoverExisting(id: string) returns (r: Result<Remote, CallError>)
      requires Holding() && Tracked() && (protects ==> !doubt) && id in slots
      modifies this`registry, this`entry, this`log, this`slots, this`live, this`history, this`over, this`trouble
      ensures Holding() && Tracked() && Extends(old(log), log) && slots == old(slots) && trouble >= old(trouble)
      ensures entry.Desired(construction) == old(entry.Desired(construction))
        && Ready(r, |old(log)|, old(Endings(log, Required())))
      ensures entry == old(entry) && log == old(log)
      ensures entry.Desired(construction) != "" ==> r.Err?
      ensures r.Ok? ==> r.value == Remote(id, false, None) && trouble == old(trouble)
      ensures trouble == old(trouble) && entry.Desired(construction) == "" ==> r.Ok?
    {
      r := UseExisting(id);
    }

    /** The resume half of recovery; `None` means a new session is to be made. */
    method RecoverByResume(id: string, invalidated: bool)
      returns (r: Option<Result<Remote, CallError>>, ghost steps: seq<Cfg.Step>)
      requires Holding() && Tracked() && (protects ==> !doubt) && !Blank(id)
      modifies this`registry, this`entry, this`log, this`slots, this`live, this`history, this`over, this`trouble
      ensures Holding() && Tracked() && Extends(old(log), log) && slots == old(slots) && trouble >= old(trouble)
      ensures entry.Desired(construction) == old(entry.Desired(construction))
      ensures News(log) == old(News(log)) && (r.Some? ==> Ready(r.value, |old(log)|, old(Endings(log, Required()))))
      ensures r.None? ==> protects ==> !doubt
      ensures r.None? ==> Endings(log, Required()) == old(Endings(log, Required())) && |log| == |old(log)| + 1
      ensures trouble == old(trouble) && id !in old(slots) ==>
        IsResumed(old(log), log, id) && Recovers(entry.Desired(construction), r, id, old(log), log, steps)
      ensures id in old(slots) ==> r.Some? && r.value.Err? && log == old(log)
      ensures entry.attachmentID in {old(entry.attachmentID), ""}
        || LastOptions(log, |old(log)|, entry.attachmentID).Some?
    {
      steps := [];
      var begun := Begin(id);
      if begun.Some? {
        return Some(Err(OperationRefused(begun.value))), [];
      }
      r, steps := RecoverBegun(id, invalidated);
      EndOperation(id);
    }

    method RecoverBegun(id: string, invalidated: bool)
      returns (r: Option<Result<Remote, CallError>>, ghost steps: seq<Cfg.Step>)
      requires Holding() && Tracked() && (protects ==> !doubt) && !Blank(id) && id in slots
      modifies this`registry, this`entry, this`log, this`slots, this`live, this`history, this`over, this`trouble
      ensures Holding() && Tracked() && Extends(old(log), log) && slots == old(slots) && trouble >= old(trouble)
      ensures entry.Desired(construction) == old(entry.Desired(construction))
      ensures News(log) == old(News(log)) && (r.Some? ==> Ready(r.value, |old(log)|, old(Endings(log, Required()))))
      ensures r.None? ==> protects ==> !doubt
      ensures r.None? ==> Endings(log, Required()) == old(Endings(log, Required())) && |log| == |old(log)| + 1
      ensures IsResumed(old(log), log, id)
        && (trouble == old(trouble) ==> Recovers(entry.Desired(construction), r, id, old(log), log, steps))
      ensures entry.attachmentID in {old(entry.attachmentID), ""}
        || LastOptions(log, |old(log)|, entry.attachmentID).Some?
    {
      var answer := SendResume(id);
      r, steps := RecoverAnswered(id, answer, invalidated, old(log));
    }

    /** What a smooth recovery by resuming comes to: a session that answers is set up with
        the configured values; one that is still there is good if no model is desired; one
        that is unknown is to be replaced; any other error ends the recovery. */
    ghost predicate Recovers(
        desired: string, r: Option<Result<Remote, CallError>>, id: string, before: seq<Rpc>, after: seq<Rpc>,
        steps: seq<Cfg.Step>)
      requires IsResumed(before, after, id)
    {
      match after[|before|].resumed
      case Ok(shape) =>
        && r.Some? && SetUp(after[..|before| + 1], after, id, Required(), configured, shape, steps)
        && (r.value.Ok? <==>
              !IsCanceled(Cfg.Failure(steps)) && InPlace(after, |before|, id, desired))
        && (r.value.Ok? ==> r.value.value == Remote(id, false, Cfg.Failure(steps)))
      case Err(f) =>
        if f.SessionAlreadyExists() then
          r.Some? && (r.value.Ok? <==> desired == "")
            && (r.value.Ok? ==> r.value.value == Remote(id, false, None))
        else if f.ResumeUnknownSession() then r.None?
        else r == Some(Err(RequestFailed(f)))
    }

    method RecoverAnswered(id: string, answer: Result<Shape, Fault>, invalidated: bool, ghost before: seq<Rpc>)
      returns (r: Option<Result<Remote, CallError>>, ghost steps: seq<Cfg.Step>)
      requires Holding() && Tracked() && (protects ==> !doubt) && id in slots
      requires IsNext(before, Resume(Trim(id), answer), log) && Endings(log, Required()) == Endings(before, Required())
      modifies this`registry, this`entry, this`log, this`slots, this`live, this`history, this`over, this`trouble
      ensures Holding() && Tracked() && Extends(old(log), log) && slots == old(slots) && trouble >= old(trouble)
      ensures entry.Desired(construction) == old(entry.Desired(construction))
      ensures News(log) == old(News(log)) && (r.Some? ==> Ready(r.value, |before|, Endings(before, Required())))
      ensures r.None? ==> log == old(log) && (protects ==> !doubt)
      ensures IsResumed(before, log, id)
      ensures trouble == old(trouble) ==> Recovers(entry.Desired(construction), r, id, before, log, steps)
      ensures trouble == old(trouble) && r.None? ==>
        entry.attachmentID == if invalidated then old(entry.attachmentID) else ""
      ensures entry.attachmentID in {old(entry.attachmentID), ""}
        || LastOptions(log, |before|, entry.attachmentID).Some?
    {
      steps := [];
      LastNext(before, Resume(Trim(id), answer), log, |before|, id);
      if answer.Ok? {
        var one;
        one, steps := RecoverResumed(id, answer.value, |before|);
        LastStays(old(log), log, |before|, id);
        FirstStays(before, Resume(Trim(id), answer), old(log), log);
        return Some(one), steps;
      }
      var canceled := IsOver();
      if canceled {
        return Some(Err(ContextDone)), [];
      }
      if answer.error.SessionAlreadyExists() {
        var one := RecoverExisting(id);
        if one.Ok? { InPlaceEarlier(log, |before|, |log|, id, entry.Desired(construction)); }
        return Some(one), [];
      }
      if !answer.error.ResumeUnknownSession() {
        return Some(Err(RequestFailed(answer.error))), [];
      }
      if !invalidated {
        var _ := Act(Invalidate);
      }
      return None, [];
    }

    /** Recovery after a prompt failed. A stored session is resumed first, where that is
        offered; a new one is made if there is none, or the process does not know it. */
    method RecoverRemoteHeld(sessionMissing: bool)
      returns (r: Result<Remote, CallError>, ghost values: seq<Cfg.ConfigValue>, ghost steps: seq<Cfg.Step>)
      requires Holding() && Tracked() && (protects ==> !doubt)
      modifies this`registry, this`entry, this`log, this`slots, this`live, this`durable, this`doubt, this`history
      modifies this`over, this`trouble
      ensures Holding() && Tracked() && Extends(old(log), log) && slots == old(slots) && trouble >= old(trouble)
      ensures entry.Desired(construction) == old(entry.Desired(construction))
        && Ready(r, |old(log)|, old(Endings(log, Required())))
      ensures trouble == old(trouble) ==>
        Recovered(entry.Desired(construction), r, Trim(SavedID(old(live))), old(slots), old(log), log, values, steps)
      ensures trouble == old(trouble) && sessionMissing ==>
        entry.attachmentID == "" || LastOptions(log, |old(log)|, entry.attachmentID).Some?
    {
      values, steps := [], [];
      var cfg := ResolveConfig();
      if cfg.None? {
        return Err(ConfigUnreadable), [], [];
      }
      Forget(sessionMissing);
      r, values, steps := RecoverResolved(cfg.value, sessionMissing);
    }

    method RecoverResolved(cfg: AttachConfig, sessionMissing: bool)
      returns (r: Result<Remote, CallError>, ghost values: seq<Cfg.ConfigValue>, ghost steps: seq<Cfg.Step>)
      requires Holding() && Tracked() && (protects ==> !doubt) && Trimmed(cfg.sessionID)
      modifies this`registry, this`entry, this`log, this`slots, this`live, this`durable, this`doubt, this`history
      modifies this`over, this`trouble
      ensures Holding() && Tracked() && Extends(old(log), log) && slots == old(slots) && trouble >= old(trouble)
      ensures entry.Desired(construction) == old(entry.Desired(construction))
      ensures Ready(r, |old(log)|, old(Endings(log, Required())))
      ensures trouble == old(trouble) ==>
        Recovered(entry.Desired(construction), r, cfg.sessionID, old(slots), old(log), log, values, steps)
      ensures entry.attachmentID in {old(entry.attachmentID), ""}
        || LastOptions(log, |old(log)|, entry.attachmentID).Some?
    {
      if cfg.sessionID != "" && resumes {
        r, values, steps := RecoverStored(cfg, sessionMissing);
      } else {
        r, values, steps := MakeNew(cfg, old(log));
      }
    }

    /** The attachment is given up if the process lost the session. */
    method Forget(sessionMissing: bool)
      requires Holding()
      modifies this`registry, this`entry
      ensures Holding() && entry.liveDesired == old(entry.liveDesired)
      ensures entry.attachmentID == if sessionMissing then "" else old(entry.attachmentID)
    {
      if sessionMissing {
        var _ := Act(Invalidate);
      }
    }

    method RecoverStored(cfg: AttachConfig, sessionMissing: bool)
      returns (r: Result<Remote, CallError>, ghost values: seq<Cfg.ConfigValue>, ghost steps: seq<Cfg.Step>)
      requires Holding() && Tracked() && (protects ==> !doubt) && !Blank(cfg.sessionID) && Trimmed(cfg.sessionID)
      modifies this`registry, this`entry, this`log, this`slots, this`live, this`durable, this`doubt, this`history
      modifies this`over, this`trouble
      ensures Holding() && Tracked() && Extends(old(log), log) && slots == old(slots) && trouble >= old(trouble)
      ensures entry.Desired(construction) == old(entry.Desired(construction))
      ensures Ready(r, |old(log)|, old(Endings(log, Required())))
      ensures trouble == old(trouble) ==>
        Resumed(entry.Desired(construction), r, cfg.sessionID, old(slots), old(log), log, values, steps)
      ensures entry.attachmentID in {old(entry.attachmentID), ""}
        || LastOptions(log, |old(log)|, entry.attachmentID).Some?
    {
      values := [];
      var resumed;
      ghost var settled;
      resumed, settled := RecoverByResume(cfg.sessionID, sessionMissing);
      steps := settled;
      if resumed.Some? {
        if trouble == old(trouble) && cfg.sessionID !in old(slots) {
          ResumedOnly(entry.Desired(construction), resumed.value, cfg.sessionID, old(slots), old(log), log, [], steps);
        }
        return resumed.value, [], steps;
      }
      ghost var before, attached := log, entry.attachmentID;
      r, values, steps := MakeNew(cfg, old(log));
      if trouble == old(trouble) {
        ResumedThenNew(
          entry.Desired(construction), r, cfg.sessionID, old(slots), old(log), before, log, values, settled, steps);
      }
      if LastOptions(before, |old(log)|, attached).Some? { LastStays(before, log, |old(log)|, attached); }
    }

    lemma ResumedOnly(
        desired: string, r: Result<Remote, CallError>, stored: string, slots: set<string>, before: seq<Rpc>,
        after: seq<Rpc>, values: seq<Cfg.ConfigValue>, steps: seq<Cfg.Step>)
      requires stored !in slots && IsResumed(before, after, stored) && News(after) == News(before)
      requires Recovers(desired, Some(r), stored, before, after, steps)
      ensures Resumed(desired, r, stored, slots, before, after, values, steps)
    {
    }

    lemma ResumedThenNew(
        desired: string, r: Result<Remote, CallError>, stored: string, slots: set<string>, before: seq<Rpc>,
        resumed: seq<Rpc>, after: seq<Rpc>, values: seq<Cfg.ConfigValue>, settled: seq<Cfg.Step>, steps: seq<Cfg.Step>)
      requires stored !in slots && IsResumed(before, resumed, stored) && |resumed| == |before| + 1 && resumed <= after
      requires Recovers(desired, None, stored, before, resumed, settled)
        && IsNew(desired, r, slots, resumed, after, values, steps)
      ensures Resumed(desired, r, stored, slots, before, after, values, steps)
    {
      assert after[..|before| + 1] == resumed;
    }

    /** Makes a new session where there is none, or after a resume of one that the process
        did not know. */
    method MakeNew(cfg: AttachConfig, ghost before: seq<Rpc>)
      returns (r: Result<Remote, CallError>, ghost values: seq<Cfg.ConfigValue>, ghost steps: seq<Cfg.Step>)
      requires Holding() && Tracked() && (protects ==> !doubt) && before <= log
      requires Endings(log, Required()) == Endings(before, Required())
      modifies this`registry, this`entry, this`log, this`slots, this`live, this`durable, this`doubt, this`history
      modifies this`over, this`trouble
      ensures Holding() && Tracked() && Extends(old(log), log) && slots == old(slots) && trouble >= old(trouble)
      ensures entry.Desired(construction) == old(entry.Desired(construction))
      ensures Ready(r, |before|, Endings(before, Required())) && (r.Ok? ==> trouble == old(trouble))
      ensures News(log) <= old(News(log)) + 1
      ensures trouble == old(trouble) ==>
        IsNew(entry.Desired(construction), r, old(slots), old(log), log, values, steps)
      ensures entry.attachmentID == old(entry.attachmentID) || LastOptions(log, |before|, entry.attachmentID).Some?
    {
      values, steps := [], [];
      var uninstructed := Mishap();
      if uninstructed {
        return Err(InstructionsFailed), [], [];
      }
      values := cfg.values;
      r, steps := CreateRemote(cfg);
      if r.Ok? { InPlaceEarlier(log, |before|, |old(log)|, r.value.id, entry.Desired(construction)); }
      if LastOptions(log, |old(log)|, entry.attachmentID).Some? {
        LastEarlier(log, |before|, |old(log)|, entry.attachmentID);
      }
    }

    /** What a smooth recovery comes to. */
    ghost predicate Recovered(
        desired: string, r: Result<Remote, CallError>, stored: string, slots: set<string>, before: seq<Rpc>,
        after: seq<Rpc>, values: seq<Cfg.ConfigValue>, steps: seq<Cfg.Step>)
    {
      if stored == "" || !resumes then IsNew(desired, r, slots, before, after, values, steps)
      else Resumed(desired, r, stored, slots, before, after, values, steps)
    }

    ghost predicate Resumed(
        desired: string, r: Result<Remote, CallError>, stored: string, slots: set<string>, before: seq<Rpc>,
        after: seq<Rpc>, values: seq<Cfg.ConfigValue>, steps: seq<Cfg.Step>)
    {
      if stored in slots then r.Err? && after == before
      else
        && IsResumed(before, after, stored)
        && if IsReplaced(after[|before|].resumed) then
             IsNew(desired, r, slots, after[..|before| + 1], after, values, steps)
           else News(after) == News(before) && Recovers(desired, Some(r), stored, before, after, steps)
    }

    // ------------------------------------------------------------------- run

    /** Sends one prompt and follows its updates. The operation stays claimed, unless
        the prompt was not sent; the last option update that maps to an event is
        returned as the control now shown. */
    method PromptOnce(id: string)
      returns (end: PromptEnd, update: Option<Option<Control>>, ghost shown: seq<seq<ConfigOption>>)
      modifies this`log, this`slots, this`over, this`trouble
      ensures if end.NotSent? then log == old(log) && slots == old(slots)
              else log == old(log) + [Prompt(id)] && slots == old(slots) + {id} && id !in old(slots)
      ensures update == LastShown(shown) && (update.Some? && update.value.Some? ==> update.value.value.WellFormed())
      ensures trouble >= old(trouble)
      ensures trouble == old(trouble) ==>
        if Blank(id) || id in old(slots) then end.NotSent? else end.Answered?
    {
      update, shown := None, [];
      if Blank(id) {
        return NotSent(SessionIDRequired), None, [];
      }
      var begun := Begin(id);
      if begun.Some? {
        return NotSent(begun.value), None, [];
      }
      log := log + [Prompt(id)];
      end, update, shown := FollowUpdates();
    }

    /** What the last of the option updates shows, if there were any. */
    function LastShown(shown: seq<seq<ConfigOption>>): Option<Option<Control>> {
      if shown == [] then None else Some(Classify(shown[|shown| - 1]))
    }

    /** `shown` are the option updates that came and mapped to an event, in order. */
    method FollowUpdates()
      returns (end: PromptEnd, update: Option<Option<Control>>, ghost shown: seq<seq<ConfigOption>>)
      modifies this`over, this`trouble
      ensures !end.NotSent? && trouble >= old(trouble)
      ensures trouble == old(trouble) ==> end.Answered?
      ensures update == LastShown(shown) && (update.Some? && update.value.Some? ==> update.value.value.WellFormed())
    {
      update, shown := None, [];
      var events: nat := *;
      while events > 0
        invariant update == LastShown(shown)
        invariant update.Some? && update.value.Some? ==> update.value.value.WellFormed()
        invariant trouble >= old(trouble)
      {
        events := events - 1;
        var canceled := IsOver();
        if canceled {
          return GivenUp, update, shown;
        }
        var mapped: bool := *;
        if !mapped {
          continue;
        }
        var options: Option<seq<ConfigOption>> := *;
        if options.Some? {
          shown := shown + [options.value];
          var control := ClassifyModelDescriptor(options.value);
          update := Some(control);
        }
        var stopped := Mishap();
        if stopped {
          return ConsumerStopped, update, shown;
        }
      }
      var fault: Option<Fault> := *;
      end := Answered(fault);
    }

    method TakeUpdate(update: Option<Option<Control>>)
      requires Holding() && (update.Some? && update.value.Some? ==> update.value.value.WellFormed())
      modifies this`registry, this`entry
      ensures Holding() && entry.liveDesired == old(entry.liveDesired)
      ensures if update.Some? then entry.Observed() == update.value && entry.attachmentID == old(entry.attachmentID)
        else entry == old(entry)
    {
      if update.Some? {
        var _ := Act(if update.value.Some? then Observe(update.value) else Unverify);
      }
    }

    /** Every prompt since the `n`th request was sent to a session that was last shown with
        the desired model, and after a set-up that no refusal ended. */
    ghost predicate Fit(n: nat, endings: nat)
      reads this`log, this`entry
    {
      n <= |log| && Fits(log, n, entry.Desired(construction), Required(), endings)
    }

    /** Announces the state of a session that is ready, and prompts it. What the last
        option update showed is what the registry observes afterwards. */
    method PromptReady(remote: Remote, ghost n: nat, ghost endings: nat)
      returns (end: Option<PromptEnd>, ghost shown: seq<seq<ConfigOption>>)
      requires Holding() && Tracked() && (protects ==> !doubt) && Fit(n, endings)
      requires InPlace(log, n, remote.id, entry.Desired(construction)) && Endings(log, Required()) == endings
      modifies this`registry, this`entry, this`log, this`slots, this`durable, this`history, this`over, this`trouble
      ensures Holding() && Tracked() && entry.Desired(construction) == old(entry.Desired(construction))
      ensures Fit(n, endings) && Endings(log, Required()) == endings
      ensures slots == old(slots) + Held(remote.id, end) && old(log) <= log
      ensures end.Some? && !end.value.NotSent? ==> remote.id !in old(slots)
      ensures if shown == [] then entry == old(entry)
        else entry.Observed() == LastShown(shown).value && entry.attachmentID == old(entry.attachmentID)
      ensures Prompts(log, n) == Prompted(old(Prompts(log, n)), remote.id, end)
      ensures IsAsked(old(log), log, remote.id, end)
      ensures end.Some? && !Blank(remote.id) ==> durable == Some(Saved(remote.id, false))
      ensures trouble >= old(trouble)
      ensures trouble == old(trouble) ==>
        end.Some? && if Blank(remote.id) || remote.id in old(slots) then end.value.NotSent? else end.value.Answered?
    {
      var consumed := Announce(remote.id);
      if !consumed {
        return None, [];
      }
      var one, update;
      one, update, shown := SendPrompt(remote.id, n, endings);
      assert Tracked();
      TakeUpdate(update);
      end := Some(one);
    }

    /** The prompt itself, with what it leaves of the log. */
    method SendPrompt(id: string, ghost n: nat, ghost endings: nat)
      returns (end: PromptEnd, update: Option<Option<Control>>, ghost shown: seq<seq<ConfigOption>>)
      requires Fit(n, endings) && InPlace(log, n, id, entry.Desired(construction))
        && Endings(log, Required()) == endings
      modifies this`log, this`slots, this`over, this`trouble
      ensures Fit(n, endings) && Endings(log, Required()) == endings
      ensures old(log) <= log && slots == old(slots) + Held(id, Some(end)) && (!end.NotSent? ==> id !in old(slots))
      ensures Prompts(log, n) == Prompted(old(Prompts(log, n)), id, Some(end))
      ensures IsAsked(old(log), log, id, Some(end))
      ensures update == LastShown(shown) && (update.Some? && update.value.Some? ==> update.value.value.WellFormed())
      ensures trouble >= old(trouble)
      ensures trouble == old(trouble) ==>
        if Blank(id) || id in old(slots) then end.NotSent? else end.Answered?
    {
      PromptFits(log, n, id, entry.Desired(construction), Required(), endings);
      end, update, shown := PromptOnce(id);
    }

    /** A whole run on the session, up to its last event. Before every prompt it sends,
        the options this run was last shown for the session had the desired model as
        current in the only valid Model descriptor, and no refusal had ended a set-up. It
        prompts the session it got, unless getting it or configuring it failed, and once
        more the one recovered when the process had lost the first. */
    method RunHeld() returns (end: RunEnd, ghost one: Attempt, ghost two: Attempt)
      requires Holding() && Tracked()
      modifies this`registry, this`entry, this`log, this`slots, this`live, this`durable, this`doubt, this`history
      modifies this`over, this`trouble
      ensures Holding() && Tracked() && slots == old(slots) && trouble >= old(trouble)
      ensures entry.Desired(construction) == old(entry.Desired(construction))
      ensures Fit(|old(log)|, old(Endings(log, Required())))
      ensures end == EndOf(one, two)
      ensures Prompts(log, |old(log)|) == two.After(one.After([])) && old(log) <= log
      ensures AreSound(one, two) && (trouble == old(trouble) ==> AreComplete(one, two, old(slots), durable))
      ensures log == if one.remote.None? then old(log) else EndLog(one, two)
      ensures Secured(
        one, entry.Desired(construction), old(live), old(entry), old(slots), old(log), trouble == old(trouble))
      ensures trouble == old(trouble) && one.LostSession() ==>
        Regained(
          two, entry.Desired(construction), entry.attachmentID, Trim(one.remote.value.value.id), old(slots), one.log)
    {
      one, two := NoAttempt, NoAttempt;
      var unready := Mishap();
      if unready {
        return NotStarted, NoAttempt, NoAttempt;
      }
      ghost var n, endings := |log|, Endings(log, Required());
      var r;
      ghost var values, steps;
      r, values, steps := EnsureRemoteHeld();
      FitsStill(old(log), log, n, entry.Desired(construction), Required(), endings);
      end, one, two := Proceed(r, Path(old(log), log, values, steps), n, endings);
    }

    /** The requests sent when both tries are over. */
    function EndLog(one: Attempt, two: Attempt): seq<Rpc> {
      if one.LostSession() then two.log else one.log
    }

    /** How the first session was got. While an attachment is in doubt there is none, and
        a session that is known is never replaced. */
    ghost predicate Secured(
        one: Attempt, desired: string, live: Option<Saved>, entry: Entry, slots: set<string>, before: seq<Rpc>,
        smooth: bool)
    {
      one.remote.Some? ==>
        && one.path.before == before
        && (Flagged(live) ==> one.remote.value.Err? && one.path.after == before)
        && (TargetOf(live, entry) != "" ==>
              && News(one.path.after) == News(before)
              && (one.HasSession() ==> one.remote.value.value == Remote(TargetOf(live, entry), false, None)))
        && (smooth ==> Obtained(
              desired, live, entry, one.remote.value, slots, before, one.path.after, one.path.values, one.path.steps))
    }

    /** How the second one was recovered, after the first that was stored is lost: that is
        not attached any more, only what was shown since can be. */
    ghost predicate Regained(
        two: Attempt, desired: string, attached: string, stored: string, slots: set<string>, before: seq<Rpc>)
    {
      && two.remote.Some? && two.path.before == before
      && (attached == "" || LastOptions(two.path.after, |before|, attached).Some?)
      && Recovered(
           desired, two.remote.value, stored, slots, before, two.path.after, two.path.values, two.path.steps)
    }

    /** What the run does with the session it got, or did not get. */
    method Proceed(r: Result<Remote, CallError>, ghost path: Path, ghost n: nat, ghost endings: nat)
      returns (end: RunEnd, ghost one: Attempt, ghost two: Attempt)
      requires Holding() && Tracked() && Fit(n, endings) && Ready(r, n, endings) && path.after == log
      modifies this`registry, this`entry, this`log, this`slots, this`live, this`durable, this`doubt, this`history
      modifies this`over, this`trouble
      ensures Holding() && Tracked() && slots == old(slots) && trouble >= old(trouble) && old(log) <= log
      ensures entry.Desired(construction) == old(entry.Desired(construction)) && Fit(n, endings)
      ensures one.remote == Some(r) && one.path == path && end == EndOf(one, two)
        && Prompts(log, n) == two.After(one.After(old(Prompts(log, n))))
      ensures AreSound(one, two) && (trouble == old(trouble) ==> AreComplete(one, two, old(slots), durable))
      ensures log == EndLog(one, two)
      ensures trouble == old(trouble) && one.LostSession() ==>
        Regained(two, entry.Desired(construction), entry.attachmentID, Trim(r.value.id), old(slots), one.log)
    {
      one, two := Attempt(Some(r), path, None, log), NoAttempt;
      if r.Err? {
        return NoSession(r.error), one, NoAttempt;
      }
      if r.value.configError.Some? {
        var _ := Announce(r.value.id);
        return ConfigRefused(r.value.configError.value), one, NoAttempt;
      }
      end, one, two := PromptSession(r.value, path, n, endings);
    }

    /** A session was got and set up: it is prompted. */
    method PromptSession(remote: Remote, ghost path: Path, ghost n: nat, ghost endings: nat)
      returns (end: RunEnd, ghost one: Attempt, ghost two: Attempt)
      requires Holding() && Tracked() && (protects ==> !doubt) && Fit(n, endings) && remote.configError.None?
      requires InPlace(log, n, remote.id, entry.Desired(construction)) && Endings(log, Required()) == endings
      requires path.after == log && (!Blank(remote.id) ==> live == Some(Saved(remote.id, false)))
      modifies this`registry, this`entry, this`log, this`slots, this`live, this`durable, this`doubt, this`history
      modifies this`over, this`trouble
      ensures Holding() && Tracked() && slots == old(slots) && trouble >= old(trouble)
      ensures entry.Desired(construction) == old(entry.Desired(construction)) && Fit(n, endings)
      ensures old(log) <= log && one.remote == Some(Ok(remote)) && one.path == path && end == EndOf(one, two)
      ensures Prompts(log, n) == two.After(one.After(old(Prompts(log, n)))) && log == EndLog(one, two)
      ensures AreSound(one, two) && (trouble == old(trouble) ==> AreComplete(one, two, old(slots), durable))
      ensures trouble == old(trouble) && one.LostSession() ==>
        Regained(two, entry.Desired(construction), entry.attachmentID, Trim(remote.id), old(slots), one.log)
    {
      var prompted, _ := PromptReady(remote, n, endings);
      one, two := Attempt(Some(Ok(remote)), path, prompted, log), NoAttempt;
      if prompted.None? {
        return RunEnd.Abandoned, one, NoAttempt;
      }
      end, two := Conclude(remote.id, prompted.value, old(slots), n, endings);
    }

    /** What follows the first prompt: recovery when its session is gone, or the end. */
    method Conclude(id: string, prompted: PromptEnd, ghost free: set<string>, ghost n: nat, ghost endings: nat)
      returns (end: RunEnd, ghost two: Attempt)
      requires Holding() && Tracked() && (protects ==> !doubt) && Fit(n, endings) && Endings(log, Required()) == endings
      requires slots == free + Held(id, Some(prompted)) && (!prompted.NotSent? ==> id !in free)
      modifies this`registry, this`entry, this`log, this`slots, this`live, this`durable, this`doubt, this`history
      modifies this`over, this`trouble
      ensures Holding() && Tracked() && slots == free
      ensures entry.Desired(construction) == old(entry.Desired(construction)) && Fit(n, endings)
        && trouble >= old(trouble)
      ensures two.IsSound() && Prompts(log, n) == two.After(old(Prompts(log, n))) && old(log) <= log
      ensures if IsLost(prompted) then end == two.End() else end == PromptEndOf(prompted) && two == NoAttempt
      ensures log == if IsLost(prompted) then two.log else old(log)
      ensures trouble == old(trouble) && IsLost(prompted) ==>
        && two.IsComplete(free) && two.IsAnnounced(durable)
        && Regained(two, entry.Desired(construction), entry.attachmentID, Trim(SavedID(old(live))), free, old(log))
      ensures trouble == old(trouble) && !IsLost(prompted) && old(durable) == Some(Saved(id, false)) ==>
        durable == old(durable)
    {
      if IsLost(prompted) {
        EndOperation(id);
        assert slots == free;
        end, two := RecoverAndPrompt(n, endings);
      } else {
        end := FinishRun(id, prompted);
        two := NoAttempt;
      }
    }

    method FinishRun(id: string, prompted: PromptEnd) returns (end: RunEnd)
      requires Tracked() && (protects ==> !doubt)
      modifies this`slots, this`durable, this`history, this`trouble
      ensures Tracked() && slots == (if prompted.NotSent? then old(slots) else old(slots) - {id})
      ensures trouble >= old(trouble) && end == PromptEndOf(prompted)
      ensures if prompted != Answered(None) || Blank(id) then durable == old(durable)
        else trouble == old(trouble) ==> durable == Some(Saved(id, false))
    {
      end := match prompted
        case NotSent(_) => PromptFailed
        case GivenUp => PromptFailed
        case ConsumerStopped => RunEnd.Abandoned
        case Answered(fault) => if fault.Some? then PromptFailed else TurnComplete;
      if end == TurnComplete {
        var _ := Announce(id);
      }
      if !prompted.NotSent? {
        EndOperation(id);
      }
    }

    method RecoverAndPrompt(ghost n: nat, ghost endings: nat) returns (end: RunEnd, ghost two: Attempt)
      requires Holding() && Tracked() && (protects ==> !doubt) && Fit(n, endings) && Endings(log, Required()) == endings
      modifies this`registry, this`entry, this`log, this`slots, this`live, this`durable, this`doubt, this`history
      modifies this`over, this`trouble
      ensures Holding() && Tracked() && slots == old(slots) && trouble >= old(trouble)
      ensures entry.Desired(construction) == old(entry.Desired(construction)) && Fit(n, endings)
      ensures two.IsSound() && Prompts(log, n) == two.After(old(Prompts(log, n))) && end == two.End()
      ensures old(log) <= log
      ensures log == two.log
      ensures trouble == old(trouble) ==>
        && two.IsComplete(old(slots)) && two.IsAnnounced(durable)
        && Regained(
             two, entry.Desired(construction), entry.attachmentID, Trim(SavedID(old(live))), old(slots), old(log))
    {
      var r;
      ghost var values, steps;
      r, values, steps := RecoverRemoteHeld(true);
      FitsStill(old(log), log, n, entry.Desired(construction), Required(), endings);
      if r.Ok? { InPlaceEarlier(log, n, |old(log)|, r.value.id, entry.Desired(construction)); }
      end, two := ProceedOnce(r, Path(old(log), log, values, steps), n, endings);
    }

    /** What the run does with the session it recovered, or did not recover. */
    method ProceedOnce(r: Result<Remote, CallError>, ghost path: Path, ghost n: nat, ghost endings: nat)
      returns (end: RunEnd, ghost two: Attempt)
      requires Holding() && Tracked() && Fit(n, endings) && Ready(r, n, endings) && path.after == log
      modifies this`registry, this`entry, this`log, this`slots, this`live, this`durable, this`doubt, this`history
      modifies this`over, this`trouble
      ensures Holding() && Tracked() && slots == old(slots) && trouble >= old(trouble) && old(log) <= log
      ensures entry.Desired(construction) == old(entry.Desired(construction)) && Fit(n, endings)
      ensures two.remote == Some(r) && two.path == path && two.IsSound() && end == two.End() && log == two.log
      ensures Prompts(log, n) == two.After(old(Prompts(log, n)))
      ensures trouble == old(trouble) ==> two.IsComplete(old(slots)) && two.IsAnnounced(durable)
      ensures entry.attachmentID == old(entry.attachmentID)
    {
      two := Attempt(Some(r), path, None, log);
      if r.Err? {
        return NoSession(r.error), two;
      }
      if r.value.configError.Some? {
        var _ := Announce(r.value.id);
        return ConfigRefused(r.value.configError.value), two;
      }
      var prompted, _ := PromptReady(r.value, n, endings);
      two := Attempt(Some(r), path, prompted, log);
      if prompted.None? {
        return RunEnd.Abandoned, two;
      }
      end := FinishRun(r.value.id, prompted.value);
    }

    /** An event that opens or closes a turn carries the state. */
    method Announce(id: string) returns (ok: bool)
      requires Tracked() && (protects ==> !doubt)
      modifies this`durable, this`history, this`trouble
      ensures Tracked() && trouble == old(trouble) + if ok then 0 else 1
      ensures if Blank(id) then durable == old(durable) && ok else ok ==> durable == Some(Saved(id, false))
    {
      if Blank(id) {
        return true;
      }
      ok := Yield(Saved(id, false));
    }

    // -------------------------------------------------------------- lifetime

    constructor (
        key: SessionKey, construction: string, resumes: bool, protects: bool,
        configured: seq<Cfg.ConfigValue>, registry: Registry)
      requires Good(registry)
      ensures this.registry == registry && this.construction == construction && this.key == key
      ensures Tracked() && log == [] && slots == {} && live == None
    {
      this.key, this.construction, this.resumes, this.protects, this.configured :=
        key, construction, resumes, protects, configured;
      this.registry, live, slots := registry, None, {};
      entry := Entry(0, 0, 0, "", 0, false, "", None, 0);
      log, durable, doubt, history := [], None, false, [Moment(Started, None, None, false)];
      over, trouble := false, 0;
    }

    /** What a run on the session comes to: how it tried, and the requests it sent. */
    ghost predicate Carried(
        one: Attempt, two: Attempt, desired: string, attached: string, live: Option<Saved>, before: Entry,
        slots: set<string>, sent: seq<Rpc>, log: seq<Rpc>, smooth: bool)
    {
      && sent <= log && Gated(log, |sent|, desired) && Configured(log, |sent|, Required())
      && AreSound(one, two) && Prompts(log, |sent|) == two.After(one.After([]))
      && log == (if one.remote.None? then sent else EndLog(one, two))
      && Secured(one, desired, live, before, slots, sent, smooth)
      && (smooth && one.LostSession() ==>
            Regained(two, desired, attached, Trim(one.remote.value.value.id), slots, one.log))
    }

    method RunGated() returns (end: RunEnd, ghost one: Attempt, ghost two: Attempt)
      requires Holding() && Tracked()
      modifies this`registry, this`entry, this`log, this`slots, this`live, this`durable, this`doubt, this`history
      modifies this`over, this`trouble
      ensures Holding() && Tracked() && slots == old(slots) && trouble >= old(trouble)
      ensures Carried(
        one, two, entry.Desired(construction), entry.attachmentID, old(live), old(entry), slots, old(log), log,
        trouble == old(trouble))
      ensures end == EndOf(one, two) && (trouble == old(trouble) ==> AreComplete(one, two, slots, durable))
    {
      end, one, two := RunHeld();
      assert log[..|old(log)|] == old(log);
      FitsExactly(log, |old(log)|, entry.Desired(construction), Required());
    }

    /** One run: refused by the registry, or carried out while the session is held. */
    method Run()
      returns (outcome: Outcome, end: Option<RunEnd>, ghost before: Entry, ghost one: Attempt, ghost two: Attempt)
      requires Good(registry) && Tracked()
      modifies this`registry, this`entry, this`log, this`slots, this`live, this`durable, this`doubt, this`history
      modifies this`over, this`trouble
      ensures Good(registry) && Tracked() && slots == old(slots) && trouble >= old(trouble)
      ensures outcome != Outcome.Admitted ==> log == old(log) && end.None?
      ensures outcome == Outcome.Admitted ==>
        && IsReleased() && end == Some(EndOf(one, two))
        && (trouble == old(trouble) ==> AreComplete(one, two, slots, durable))
        && Carried(
             one, two, entry.Desired(construction), entry.attachmentID, old(live), before, slots, old(log), log,
             trouble == old(trouble))
    {
      before := entry;
      end, one, two := None, NoAttempt, NoAttempt;
      outcome := Acquire();
      if outcome == Outcome.Admitted {
        before := entry;
        var ended;
        ended, one, two := RunGated();
        end := Some(ended);
        ReleaseAdmission();
      }
    }

    /** The user resets the stored state. */
    method Reset(saved: Option<Saved>)
      requires Tracked()
      modifies this`live, this`durable, this`doubt, this`history
      ensures Tracked() && live == saved
    {
      live, durable, doubt := saved, saved, false;
      Note(ResetByUser);
    }

    /** The process stopped right after the `n`th event, in the middle of a call or not,
        and a new one starts from what is durable. */
    method Restart(n: nat)
      requires Tracked() && 0 < n <= |history|
      modifies this
      ensures Good(registry) && Tracked() && registry == Empty && slots == {} && log == []
      ensures var stopped := old(history)[n - 1];
        live == durable == stopped.durable && doubt == stopped.doubt
        && history == old(history)[..n] + [Moment(Restarted, live, durable, doubt)]
    {
      var stopped := history[n - 1];
      if protects {
        StopAnywhere(history, n);
      }
      live, durable, doubt := history[n - 1].durable, history[n - 1].durable, stopped.doubt;
      history := history[..n] + [Moment(Restarted, live, durable, doubt)];
      registry, slots, log := Empty, {}, [];
    }

    /** Any life of the session: runs, model changes, inspections, resets, and stops
        after any event followed by a restart, in any order. The record of attachments
        stays safe throughout. */
    method Live()
      requires Good(registry) && Tracked()
      modifies this
      ensures Good(registry) && Tracked()
    {
      var n: nat := *;
      while n > 0
        invariant Good(registry) && Tracked()
      {
        n := n - 1;
        var choice: nat := *;
        if choice == 0 {
          var _, _, _, _, _ := Run();
        } else if choice == 1 {
          var model: string := *;
          var _, _, _, _, _ := ChangeModel(model);
        } else if choice == 2 {
          var _, _, _ := Inspect();
        } else if choice == 3 {
          var saved: Option<Saved> := *;
          Reset(saved);
        } else {
          var stop: nat := *;
          if 0 < stop <= |history| {
            Restart(stop);
          }
        }
      }
    }
  }
}
