/** The requests a call sends to the agent process, with their answers, and what a log
    of them proves: which options came for which session, and that no prompt went out
    before the desired model was seen in place. */
module Requests {
  import opened Text
  import opened Descriptor
  import opened Protocol
  import Cfg = SessionConfig

  datatype Shape = Shape(sessionID: string, options: seq<ConfigOption>, mode: Option<string>)

  /** A request that was sent, with its answer. */
  datatype Rpc =
    | Resume(sessionID: string, resumed: Result<Shape, Fault>)
    | New(created: Result<Shape, Fault>)
    | Config(call: Cfg.Call)
    | Prompt(promptID: string)

  /** How many set requests there are. */
  function Sets(log: seq<Rpc>): nat {
    if log == [] then 0 else Sets(log[..|log| - 1]) + (if log[|log| - 1].Config? then 1 else 0)
  }

  /** The options the answer shows for the session that `sessionID` names, if any. */
  function OptionsIn(rpc: Rpc, sessionID: string): Option<seq<ConfigOption>> {
    match rpc
    case Resume(id, answer) => if answer.Ok? && id == Trim(sessionID) then Some(answer.value.options) else None
    case New(answer) => if answer.Ok? && answer.value.sessionID == sessionID then Some(answer.value.options) else None
    case Config(call) =>
      if call.SetOption? && call.answer.Ok? && call.sessionID == sessionID then Some(call.answer.value) else None
    case Prompt(_) => None
  }

  /** The options that the last answer since `from` that showed any showed for the session. */
  function LastOptions(log: seq<Rpc>, from: nat, sessionID: string): Option<seq<ConfigOption>> {
    if |log| <= from then None
    else
      var last := OptionsIn(log[|log| - 1], sessionID);
      if last.Some? then last else LastOptions(log[..|log| - 1], from, sessionID)
  }

  /** What was last shown for the session since `from` has `model` as the current one in
      the only valid Model descriptor. */
  predicate Vouched(log: seq<Rpc>, from: nat, sessionID: string, model: string) {
    LastOptions(log, from, sessionID).Some? && Descriptor.Shows(LastOptions(log, from, sessionID).value, model)
  }

  /** If there is a model to wait for: before every prompt from `from` on, what was last
      shown for its session since `from` has `model` as the current one. */
  ghost predicate Gated(log: seq<Rpc>, from: nat, model: string) {
    model != "" ==> forall p :: from <= p < |log| && log[p].Prompt? ==> Vouched(log[..p], from, log[p].promptID, model)
  }

  lemma LastAppend(log: seq<Rpc>, rpc: Rpc, from: nat, sessionID: string)
    requires from <= |log|
    ensures LastOptions(log + [rpc], from, sessionID) ==
      if OptionsIn(rpc, sessionID).Some? then OptionsIn(rpc, sessionID) else LastOptions(log, from, sessionID)
  {
    assert (log + [rpc])[..|log|] == log;
  }

  /** How many prompts there are. */
  function PromptCount(log: seq<Rpc>): nat {
    if log == [] then 0 else PromptCount(log[..|log| - 1]) + (if log[|log| - 1].Prompt? then 1 else 0)
  }

  /** `after` continues `before` without a prompt. */
  predicate Extends(before: seq<Rpc>, after: seq<Rpc>) {
    before <= after && PromptCount(after) == PromptCount(before)
  }

  lemma {:induction false} PromptsGrow(before: seq<Rpc>, after: seq<Rpc>)
    requires before <= after
    ensures PromptCount(before) <= PromptCount(after)
  {
    if |before| < |after| {
      PromptsGrow(before, after[..|after| - 1]);
    } else {
      assert before == after;
    }
  }

  /** The last request resumed a session, and its answer shows `control`. */
  predicate EndsWithResume(log: seq<Rpc>, control: Option<Control>) {
    && log != [] && log[|log| - 1].Resume? && log[|log| - 1].resumed.Ok?
    && Classify(log[|log| - 1].resumed.value.options) == control
  }

  /** Nothing was sent in between, or one request to resume a session. */
  predicate ResumedAtMost(before: seq<Rpc>, after: seq<Rpc>) {
    after == before || (|after| == |before| + 1 && before <= after && after[|before|].Resume?)
  }

  function CallsOf(steps: seq<Cfg.Step>): seq<Rpc> {
    if steps == [] then []
    else
      var front, last := CallsOf(steps[..|steps| - 1]), steps[|steps| - 1];
      if last.call.Some? then front + [Config(last.call.value)] else front
  }

  /** Whatever options a configured session ends with are what was last shown for it. */
  lemma {:induction false} ApplyBrings(
      log: seq<Rpc>, from: nat, id: string, required: set<string>,
      values: seq<Cfg.ConfigValue>, start: Cfg.Setup, steps: seq<Cfg.Step>)
    requires from <= |log| && LastOptions(log, from, id) == Some(start.options)
    requires Cfg.HandlesFirst(id, required, values, start, steps)
    ensures Extends(log, log + CallsOf(steps))
    ensures LastOptions(log + CallsOf(steps), from, id) == Some(Cfg.End(start, steps).options)
  {
    if steps == [] {
      assert log + [] == log;
    } else {
      var front, last := steps[..|steps| - 1], steps[|steps| - 1];
      ApplyBrings(log, from, id, required, values, start, front);
      var before := log + CallsOf(front);
      if last.call.Some? {
        assert log + CallsOf(steps) == before + [Config(last.call.value)];
        LastAppend(before, Config(last.call.value), from, id);
        CountAppend(before, Config(last.call.value), required);
      }
    }
  }

  /** A set request to the session `id`, for the option that `control` describes, which
      offers the model. */
  predicate WellAddressed(rpc: Rpc, id: string, control: Option<Control>, model: string) {
    && rpc.Config? && rpc.call.SetOption? && rpc.call.sessionID == id
    && control.Some? && control.value.HasModel(model) && rpc.call.configID == control.value.modelOptionID
  }

  /** A set request for `model`; if it was `applied` the answer shows that model. */
  predicate AsksFor(rpc: Rpc, model: string, applied: bool) {
    && rpc.Config? && rpc.call.SetOption? && rpc.call.wanted == Cfg.Choose(model)
    && (applied ==> rpc.call.answer.Ok? && Descriptor.Shows(rpc.call.answer.value, model))
  }

  // ------------------------------------------------- which requests were sent

  lemma {:induction false} LastEarlier(log: seq<Rpc>, from: nat, n: nat, sessionID: string)
    requires from <= n && LastOptions(log, n, sessionID).Some?
    ensures LastOptions(log, from, sessionID) == LastOptions(log, n, sessionID)
  {
    if OptionsIn(log[|log| - 1], sessionID).None? {
      LastEarlier(log[..|log| - 1], from, n, sessionID);
    }
  }

  lemma {:induction false} LastStays(before: seq<Rpc>, after: seq<Rpc>, n: nat, sessionID: string)
    requires before <= after && LastOptions(before, n, sessionID).Some?
    ensures LastOptions(after, n, sessionID).Some?
  {
    if |before| < |after| {
      LastStays(before, after[..|after| - 1], n, sessionID);
    } else {
      assert before == after;
    }
  }

  /** How many requests for a new session there are. */
  function News(log: seq<Rpc>): nat {
    if log == [] then 0 else News(log[..|log| - 1]) + (if log[|log| - 1].New? then 1 else 0)
  }

  /** The prompts among the requests from `n` on. */
  function Prompts(log: seq<Rpc>, n: nat): seq<string> {
    if |log| <= n then []
    else
      var rest, last := Prompts(log[..|log| - 1], n), log[|log| - 1];
      if last.Prompt? then rest + [last.promptID] else rest
  }

  lemma PromptsAppend(log: seq<Rpc>, n: nat, id: string)
    requires n <= |log|
    ensures Prompts(log + [Prompt(id)], n) == Prompts(log, n) + [id]
  {
    assert (log + [Prompt(id)])[..|log|] == log;
  }

  // -------------------------------------------------------------- the set-up

  /** The id of the value that a configuration request is about. */
  function ValueID(call: Cfg.Call): string {
    if call.SetOption? then call.configID else "mode"
  }

  /** A configuration request whose refusal ends the set-up: it is about a required value,
      or was refused for another reason than that the method is unknown. */
  predicate EndsSetup(rpc: Rpc, required: set<string>) {
    && rpc.Config? && Cfg.RefusalOf(rpc.call).Some?
    && (ValueID(rpc.call) in required || !Cfg.RefusalOf(rpc.call).value.MethodNotFound())
  }

  /** How many such requests there are. */
  function Endings(log: seq<Rpc>, required: set<string>): nat {
    if log == [] then 0
    else Endings(log[..|log| - 1], required) + (if EndsSetup(log[|log| - 1], required) then 1 else 0)
  }

  /** Before every prompt from `from` on, no request since `from` ended the set-up. */
  ghost predicate Configured(log: seq<Rpc>, from: nat, required: set<string>) {
    from <= |log| &&
    forall p :: from <= p < |log| && log[p].Prompt? ==> Endings(log[..p], required) == Endings(log[..from], required)
  }

  /** What the counts say of the log itself. */
  lemma {:induction false} ConfiguredExactly(log: seq<Rpc>, from: nat, p: nat, required: set<string>)
    requires from <= p <= |log|
    ensures Endings(log[..p], required) == Endings(log[..from], required) <==>
      forall i :: from <= i < p ==> !EndsSetup(log[i], required)
  {
    if from < p {
      assert log[..p][..p - 1] == log[..p - 1];
      EndingsGrow(log, from, p - 1, required);
      ConfiguredExactly(log, from, p - 1, required);
    }
  }

  lemma {:induction false} EndingsGrow(log: seq<Rpc>, from: nat, p: nat, required: set<string>)
    requires from <= p <= |log|
    ensures Endings(log[..from], required) <= Endings(log[..p], required)
  {
    if from < p {
      assert log[..p][..p - 1] == log[..p - 1];
      EndingsGrow(log, from, p - 1, required);
    }
  }

  lemma CountAppend(log: seq<Rpc>, rpc: Rpc, required: set<string>)
    ensures News(log + [rpc]) == News(log) + (if rpc.New? then 1 else 0)
    ensures Endings(log + [rpc], required) == Endings(log, required) + (if EndsSetup(rpc, required) then 1 else 0)
    ensures Sets(log + [rpc]) == Sets(log) + (if rpc.Config? then 1 else 0)
    ensures PromptCount(log + [rpc]) == PromptCount(log) + (if rpc.Prompt? then 1 else 0)
  {
    assert (log + [rpc])[..|log|] == log;
  }

  /** After `before` came the requests that ask for these values, as `steps` records them. */
  ghost predicate SetUp(
      before: seq<Rpc>, after: seq<Rpc>, id: string, required: set<string>,
      values: seq<Cfg.ConfigValue>, shape: Shape, steps: seq<Cfg.Step>)
  {
    && Cfg.Handles(id, required, Cfg.Normalize(values), Cfg.Setup(shape.options, shape.mode), steps)
    && before + CallsOf(steps) <= after
  }

  /** A set-up makes no session, and none of its requests ends it unless it fails. */
  lemma {:induction false} CountCalls(
      log: seq<Rpc>, id: string, required: set<string>, values: seq<Cfg.ConfigValue>, start: Cfg.Setup,
        steps: seq<Cfg.Step>)
    requires Cfg.HandlesFirst(id, required, values, start, steps)
    ensures News(log + CallsOf(steps)) == News(log)
    ensures Cfg.Failure(steps) == None ==> Endings(log + CallsOf(steps), required) == Endings(log, required)
  {
    if steps == [] {
      assert log + [] == log;
    } else {
      var front, last := steps[..|steps| - 1], steps[|steps| - 1];
      CountCalls(log, id, required, values, start, front);
      if last.call.Some? {
        assert log + CallsOf(steps) == (log + CallsOf(front)) + [Config(last.call.value)];
        CountAppend(log + CallsOf(front), Config(last.call.value), required);
        if last.error.None? { StepUndisturbed(id, required, last); }
      }
    }
  }

  lemma StepUndisturbed(id: string, required: set<string>, step: Cfg.Step)
    requires Cfg.Obeys(id, required, step) && step.error == None && step.call.Some?
    ensures !EndsSetup(Config(step.call.value), required)
  {
  }

  /** A desired model takes a set request exactly when it is offered and another is shown. */
  predicate NeedsSet(shown: Option<Control>, desired: string) {
    desired != "" && shown.Some? && shown.value.HasModel(desired) && shown.value.currentModel != desired
  }

  /** Nothing was sent, or the one set request. */
  predicate Reconciled(before: seq<Rpc>, after: seq<Rpc>, id: string, shown: Option<Control>, desired: string) {
    || after == before
    || (&& |after| == |before| + 1 && before <= after && NeedsSet(shown, desired)
        && IsSet(after[|before|], id, shown.value.modelOptionID, desired))
  }

  /** The attachment id after a resume was answered so. */
  function AttachedAfter(answer: Result<Shape, Fault>, id: string, before: string): string {
    match answer
    case Ok(_) => id
    case Err(f) => if f.ResumeUnknownSession() then "" else before
  }

  /** A request to the session `id` to set the option to `model`. */
  predicate IsSet(rpc: Rpc, id: string, optionID: string, model: string) {
    && rpc.Config? && rpc.call.SetOption?
    && rpc.call.sessionID == id && rpc.call.configID == optionID && rpc.call.wanted == Cfg.Choose(model)
  }

  /** What the one set request decides: the model is in place exactly when the answer shows
      it, since it was not before. */
  lemma SetDecides(
      before: seq<Rpc>, after: seq<Rpc>, from: nat, id: string, options: seq<ConfigOption>, desired: string)
    requires |after| == |before| + 1 && Reconciled(before, after, id, Classify(options), desired)
    requires LastOptions(before, from, id) == Some(options)
    ensures Vouched(after, from, id, desired) <==>
      after[|before|].call.answer.Ok? && Descriptor.Shows(after[|before|].call.answer.value, desired)
  {
    LastNext(before, after[|before|], after, from, id);
  }

  lemma SetCounts(before: seq<Rpc>, after: seq<Rpc>, required: set<string>)
    requires |after| == |before| + 1 && before <= after && after[|before|].Config?
    ensures News(after) == News(before) && Extends(before, after)
    ensures Cfg.RefusalOf(after[|before|].call).None? ==> Endings(after, required) == Endings(before, required)
  {
    assert after == before + [after[|before|]];
    CountAppend(before, after[|before|], required);
  }

  // ------------------------------------------------------ gluing calls together

  /** A resume of `id` came first. */
  predicate IsResumed(before: seq<Rpc>, after: seq<Rpc>, id: string) {
    |before| < |after| && before <= after && after[|before|].Resume? && after[|before|].sessionID == Trim(id)
  }

  /** `after` is `before` and one request more. */
  predicate IsNext(before: seq<Rpc>, rpc: Rpc, after: seq<Rpc>) {
    |after| == |before| + 1 && before <= after && after[|before|] == rpc
  }

  /** What the next request shows, if it shows anything, is what was last shown. */
  lemma LastNext(before: seq<Rpc>, rpc: Rpc, after: seq<Rpc>, from: nat, sessionID: string)
    requires IsNext(before, rpc, after) && from <= |before|
    ensures LastOptions(after, from, sessionID) ==
      if OptionsIn(rpc, sessionID).Some? then OptionsIn(rpc, sessionID) else LastOptions(before, from, sessionID)
  {
    assert after == before + [rpc];
    LastAppend(before, rpc, from, sessionID);
  }

  /** It stays the first of all that come after. */
  lemma FirstStays(before: seq<Rpc>, rpc: Rpc, next: seq<Rpc>, after: seq<Rpc>)
    requires IsNext(before, rpc, next) && next <= after
    ensures |before| < |after| && before <= after && after[|before|] == rpc && after[..|before| + 1] == next
  {
  }

  lemma NothingShown(log: seq<Rpc>, id: string)
    ensures LastOptions(log, |log|, id) == None
  {
  }

  /** A resume that is refused, or is not sent at all, shows nothing. */
  lemma RefusalShowsNothing(before: seq<Rpc>, id: string, answer: Result<Shape, Fault>, after: seq<Rpc>)
    requires answer.Err?
    requires if Blank(id) then after == before else IsNext(before, Resume(Trim(id), answer), after)
    ensures LastOptions(after, |before|, id) == None
  {
    NothingShown(before, id);
    if !Blank(id) { LastNext(before, Resume(Trim(id), answer), after, |before|, id); }
  }

  lemma SetUpStays(
      before: seq<Rpc>, applied: seq<Rpc>, after: seq<Rpc>, id: string, required: set<string>,
      values: seq<Cfg.ConfigValue>, shape: Shape, steps: seq<Cfg.Step>)
    requires SetUp(before, applied, id, required, values, shape, steps) && applied <= after
    ensures SetUp(before, after, id, required, values, shape, steps)
  {
  }

  /** The same, prompt after prompt, with the number of requests that ended a set-up. */
  predicate Fits(log: seq<Rpc>, n: nat, model: string, required: set<string>, endings: nat) {
    |log| <= n ||
    (var front, last := log[..|log| - 1], log[|log| - 1];
     && Fits(front, n, model, required, endings)
     && (last.Prompt? ==>
          (model != "" ==> Vouched(front, n, last.promptID, model)) && Endings(front, required) == endings))
  }

  /** Prompts that fit come after what they are to come after. */
  lemma {:induction false} FitsExactly(log: seq<Rpc>, n: nat, model: string, required: set<string>)
    requires n <= |log|
    ensures Fits(log, n, model, required, Endings(log[..n], required)) <==>
      Gated(log, n, model) && Configured(log, n, required)
  {
    if n < |log| {
      var front := log[..|log| - 1];
      FitsExactly(front, n, model, required);
      assert front[..n] == log[..n];
      forall p | n <= p < |front| ensures front[p] == log[p] && front[..p] == log[..p] {
      }
      if Gated(log, n, model) && Configured(log, n, required) {
        assert log[|log| - 1].Prompt? ==> log[..|log| - 1] == front;
        forall p | n <= p < |front| && front[p].Prompt?
          ensures (model != "" ==> Vouched(front[..p], n, front[p].promptID, model))
          ensures Endings(front[..p], required) == Endings(front[..n], required)
        {
          assert log[p].Prompt?;
        }
      }
      if Fits(log, n, model, required, Endings(log[..n], required)) {
        forall p | n <= p < |log| && log[p].Prompt?
          ensures (model != "" ==> Vouched(log[..p], n, log[p].promptID, model))
          ensures Endings(log[..p], required) == Endings(log[..n], required)
        {
          if p < |front| { assert front[p].Prompt?; }
        }
      }
    }
  }

  lemma PromptFits(log: seq<Rpc>, n: nat, id: string, model: string, required: set<string>, endings: nat)
    requires n <= |log| && Fits(log, n, model, required, endings)
    requires (model != "" ==> Vouched(log, n, id, model)) && Endings(log, required) == endings
    ensures Fits(log + [Prompt(id)], n, model, required, endings)
    ensures Endings(log + [Prompt(id)], required) == endings
    ensures Prompts(log + [Prompt(id)], n) == Prompts(log, n) + [id]
  {
    CountAppend(log, Prompt(id), required);
    PromptsAppend(log, n, id);
    assert (log + [Prompt(id)])[..|log|] == log;
  }

  lemma {:induction false} FitsStill(
      before: seq<Rpc>, after: seq<Rpc>, n: nat, model: string, required: set<string>, endings: nat)
    requires n <= |before| && Fits(before, n, model, required, endings) && Extends(before, after)
    ensures Fits(after, n, model, required, endings) && Prompts(after, n) == Prompts(before, n)
  {
    if |before| < |after| {
      PromptsGrow(before, after[..|after| - 1]);
      FitsStill(before, after[..|after| - 1], n, model, required, endings);
    } else {
      assert before == after;
    }
  }
}
