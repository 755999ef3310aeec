/** What the operations on a session report: snapshots, validations, model changes
    and errors, and what each class of change promises. */
module Outcomes {
  import opened Text
  import opened Descriptor
  import opened Protocol
  import opened RegistrySpec
  import Cfg = SessionConfig

  datatype BeginError = OperationActive | SessionIDRequired | OperationsClosed

  datatype AttachConfig = AttachConfig(sessionID: string, values: seq<Cfg.ConfigValue>, indeterminate: bool)

  datatype ControlStatus = Available | Unavailable | Busy | Failed | Closed

  datatype Snapshot = Snapshot(status: ControlStatus, currentModel: string, models: seq<SessionModel>, code: string)

  function SnapshotOf(c: Control): Snapshot {
    Snapshot(Available, c.currentModel, c.models, "")
  }

  function NoControl(status: ControlStatus, code: string): Snapshot {
    Snapshot(status, "", [], code)
  }

  function BeginSnapshot(err: BeginError): Snapshot {
    match err
    case OperationActive => NoControl(ControlStatus.Busy, "busy")
    case OperationsClosed => NoControl(ControlStatus.Closed, "closed")
    case SessionIDRequired => NoControl(ControlStatus.Failed, "admission_failed")
  }

  function AdmissionSnapshot(outcome: Outcome): Snapshot {
    if outcome == Outcome.Busy || outcome == Full then NoControl(ControlStatus.Busy, "busy")
    else if outcome == Outcome.Closed then NoControl(ControlStatus.Closed, "closed")
    else NoControl(ControlStatus.Failed, "invalid_session")
  }

  datatype ValidationOutcome = Supported | Unsupported | Incompatible | Busy | Failed | Closed

  datatype Validation = Validation(outcome: ValidationOutcome, snapshot: Snapshot, code: string)

  datatype ChangeOutcome = Applied | Unsupported | Incompatible | Rejected | Busy | Failed | Ambiguous | Closed

  datatype Change = Change(outcome: ChangeOutcome, effectiveModel: string, snapshot: Option<Snapshot>, code: string)

  /** Validation never yields the outcomes that stand for a sent request. */
  function ChangeFrom(v: Validation): (c: Change)
    ensures c.outcome !in {Applied, Rejected, Ambiguous}
  {
    var outcome :=
      match v.outcome
      case Unsupported => ChangeOutcome.Unsupported
      case Incompatible => ChangeOutcome.Incompatible
      case Busy => ChangeOutcome.Busy
      case Closed => ChangeOutcome.Closed
      case Supported => ChangeOutcome.Failed
      case Failed => ChangeOutcome.Failed;
    Change(outcome, "", Some(v.snapshot), v.code)
  }

  function BeginChange(err: BeginError): Change {
    match err
    case OperationActive => Change(ChangeOutcome.Busy, "", None, "busy")
    case OperationsClosed => Change(ChangeOutcome.Closed, "", None, "closed")
    case SessionIDRequired => Change(ChangeOutcome.Failed, "", None, "admission_failed")
  }

  function Failure(code: string): Change {
    Change(ChangeOutcome.Failed, "", None, code)
  }

  function AdmissionValidation(outcome: Outcome): Validation {
    var snapshot := AdmissionSnapshot(outcome);
    var result :=
      match snapshot.status
      case Busy => ValidationOutcome.Busy
      case Closed => ValidationOutcome.Closed
      case Available => ValidationOutcome.Failed
      case Unavailable => ValidationOutcome.Failed
      case Failed => ValidationOutcome.Failed;
    Validation(result, snapshot, snapshot.code)
  }

  /** However a call is refused admission, an inspection, a validation and a change all say
      so in the same way: busy for a session in use and for a full registry, closed for a
      closed one. */
  lemma RefusalsAgree(outcome: Outcome)
    requires outcome in {Outcome.Busy, Full, Outcome.Closed}
    ensures AdmissionSnapshot(outcome).status ==
      if outcome == Outcome.Closed then ControlStatus.Closed else ControlStatus.Busy
    ensures AdmissionValidation(outcome).outcome ==
      if outcome == Outcome.Closed then ValidationOutcome.Closed else ValidationOutcome.Busy
    ensures ChangeFrom(AdmissionValidation(outcome)).outcome ==
      if outcome == Outcome.Closed then ChangeOutcome.Closed else ChangeOutcome.Busy
    ensures ChangeFrom(AdmissionValidation(outcome)).snapshot == Some(AdmissionSnapshot(outcome))
  {
  }

  /** A change that validation decides has the class and the code of the validation. */
  lemma ValidationsCarryOver(v: Validation)
    ensures ChangeFrom(v).code == v.code && ChangeFrom(v).snapshot == Some(v.snapshot)
      && ChangeFrom(v).effectiveModel == ""
    ensures v.outcome == ValidationOutcome.Unsupported <==> ChangeFrom(v).outcome == ChangeOutcome.Unsupported
    ensures v.outcome == ValidationOutcome.Incompatible <==> ChangeFrom(v).outcome == ChangeOutcome.Incompatible
    ensures v.outcome == ValidationOutcome.Busy <==> ChangeFrom(v).outcome == ChangeOutcome.Busy
    ensures v.outcome == ValidationOutcome.Closed <==> ChangeFrom(v).outcome == ChangeOutcome.Closed
    ensures v.outcome == ValidationOutcome.Failed ==> ChangeFrom(v).outcome == ChangeOutcome.Failed
  {
  }

  /** And so does the refusal of a session's slot, where an id that is missing is a failure. */
  lemma SlotRefusalsAgree(err: BeginError)
    ensures BeginSnapshot(err).status ==
      match err
      case OperationActive => ControlStatus.Busy
      case OperationsClosed => ControlStatus.Closed
      case SessionIDRequired => ControlStatus.Failed
    ensures BeginChange(err).outcome ==
      match err
      case OperationActive => ChangeOutcome.Busy
      case OperationsClosed => ChangeOutcome.Closed
      case SessionIDRequired => ChangeOutcome.Failed
  {
  }

  /** What the outcome of a change says about the set requests sent, `sent`, and about
      what the registry holds for the session before and after. */
  ghost predicate Certain(c: Change, model: string, construction: string, before: Entry, after: Entry, sent: int) {
    && (c.outcome in {ChangeOutcome.Failed, ChangeOutcome.Busy, ChangeOutcome.Closed, ChangeOutcome.Incompatible} ==>
          sent == 0 && after.liveDesired == before.liveDesired)
    && (c.outcome in {Rejected, Ambiguous} ==>
          sent == 1 && after.liveDesired == before.liveDesired && after.Observed() == None)
    && (c.outcome == ChangeOutcome.Unsupported ==>
          0 <= sent <= 1 && after.liveDesired == before.liveDesired && (sent == 1 ==> after.Observed() == None))
    && (c.outcome == Applied ==>
          && 0 <= sent <= 1 && c.effectiveModel == model && after.Desired(construction) == model
          && after.Observed().Some? && after.Observed().value.currentModel == model)
  }

  lemma UnsentIsCertain(c: Change, model: string, construction: string, before: Entry, after: Entry)
    requires c.outcome !in {Applied, Rejected, Ambiguous} && after.liveDesired == before.liveDesired
    ensures Certain(c, model, construction, before, after, 0)
  {
  }

  datatype CallError =
    | ConfigUnreadable
    | AttachmentIndeterminate
    | StateNotWritten
    | InstructionsFailed
    | ContextDone
    | OperationRefused(begin: BeginError)
    | DescriptorInvalid
    | DesiredModelUnavailable
    | DesiredModelUncertain
    | DesiredModelRejected
    | RequestFailed(fault: Fault)
    | OutcomeNotStored(fault: Fault)
    | ConfigFailed(config: Cfg.ConfigError)

  /** A remote session ready for prompts. */
  datatype Remote = Remote(id: string, isNew: bool, configError: Option<Cfg.ConfigError>)

  /** How one prompt ended: never sent, given up, stopped by the consumer, or answered.
      An error that is reported as a provider error counts as an answer without fault. */
  datatype PromptEnd = NotSent(begin: BeginError) | GivenUp | ConsumerStopped | Answered(fault: Option<Fault>)

  /** How a run ended, as it tells the runner: not started, with an error before a prompt
      was answered, with the error of the configuration, because the consumer stopped, or
      with the final event. */
  datatype RunEnd =
    | NotStarted
    | NoSession(error: CallError)
    | ConfigRefused(config: Cfg.ConfigError)
    | Abandoned
    | PromptFailed
    | TurnComplete

  /** The class of an answer to the set request for the desired model. */
  function SetOutcome(answer: Result<seq<ConfigOption>, Fault>, desired: string): Option<CallError> {
    match answer
    case Err(f) => Some(if f.DefinitiveModelRejection() then DesiredModelRejected else DesiredModelUncertain)
    case Ok(options) =>
      if Classify(options).None? then Some(DesiredModelUncertain)
      else if Classify(options).value.currentModel != desired then Some(DesiredModelRejected)
      else None
  }

  /** What a validation says on a snapshot. */
  function OutcomeOf(snapshot: Snapshot, model: string): ValidationOutcome {
    match snapshot.status
    case Available =>
      if exists i :: 0 <= i < |snapshot.models| && snapshot.models[i].id == model then Supported
      else ValidationOutcome.Incompatible
    case Busy => ValidationOutcome.Busy
    case Closed => ValidationOutcome.Closed
    case Failed => ValidationOutcome.Failed
    case Unavailable => ValidationOutcome.Unsupported
  }

  /** What an answer to the set request of a model change comes to. */
  function ChangeOf(answer: Result<seq<ConfigOption>, Fault>, model: string): Change {
    match answer
    case Err(f) =>
      if f.MethodNotFound() then Change(ChangeOutcome.Unsupported, "", None, "method_unsupported")
      else if f.DefinitiveModelRejection() then Change(Rejected, "", None, "request_rejected")
      else Change(Ambiguous, "", None, "response_uncertain")
    case Ok(options) =>
      var shown := Classify(options);
      if shown.None? then Change(Ambiguous, "", None, "invalid_response")
      else if shown.value.currentModel != model then
        Change(Rejected, shown.value.currentModel, Some(SnapshotOf(shown.value)), "not_applied")
      else Change(Applied, model, Some(SnapshotOf(shown.value)), "")
  }

  /** A change asked for and a desired model asked for agree on every answer: it is taken
      exactly when the only valid descriptor in it shows the model, refused for good by
      three error codes or a valid descriptor that shows another, and uncertain otherwise. */
  lemma AnswersAgree(answer: Result<seq<ConfigOption>, Fault>, model: string)
    ensures ChangeOf(answer, model).outcome == Applied <==> SetOutcome(answer, model) == None
    ensures ChangeOf(answer, model).outcome in {ChangeOutcome.Unsupported, Rejected} <==>
      SetOutcome(answer, model) == Some(DesiredModelRejected)
    ensures ChangeOf(answer, model).outcome == Ambiguous <==> SetOutcome(answer, model) == Some(DesiredModelUncertain)
    ensures SetOutcome(answer, model) == None <==> answer.Ok? && Shows(answer.value, model)
    ensures SetOutcome(answer, model) == Some(DesiredModelRejected) <==>
      match answer
      case Ok(options) => Classify(options).Some? && !Shows(options, model)
      case Err(f) => f.Request? && f.code in {-32601, -32600, -32602}
    ensures ChangeOf(answer, model).outcome == ChangeOutcome.Unsupported <==>
      answer.Err? && answer.error.Request? && answer.error.code == -32601
    ensures answer.Ok? && Classify(answer.value).Some? ==>
      && ChangeOf(answer, model).snapshot == Some(SnapshotOf(Classify(answer.value).value))
      && ChangeOf(answer, model).effectiveModel == Classify(answer.value).value.currentModel
  {
  }

  /** The configuration stopped because its request was canceled. */
  predicate IsCanceled(err: Option<Cfg.ConfigError>) {
    err.Some? && err.value.Refused? && err.value.fault.Transport? && err.value.fault.canceled
  }
}
