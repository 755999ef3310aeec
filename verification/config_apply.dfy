/** Merging the stored values with the configured ones and applying the result to an
    exact server leaves every configured value in place. */
module ConfigApply {
  import opened Text
  import opened Descriptor
  import opened SessionConfig

  /** No two options go by the same id. */
  predicate UniqueIds(options: seq<ConfigOption>) {
    forall i, j :: 0 <= i < j < |options| && !options[i].Unsupported? && !options[j].Unsupported? ==>
      Trim(options[i].id) != Trim(options[j].id)
  }

  function Changed(option: ConfigOption, wanted: Wanted): ConfigOption {
    match option
    case Select(_, _, _, _) => if wanted.Choose? then option.(current := wanted.value) else option
    case Boolean(_, _, _) => if wanted.Switch? then option.(on := wanted.on) else option
    case Unsupported => option
  }

  /** `after` is `before` with the option called `id` changed as asked, and no other. */
  ghost predicate ExactChange(before: seq<ConfigOption>, id: string, wanted: Wanted, after: seq<ConfigOption>) {
    && |after| == |before|
    && forall i :: 0 <= i < |before| ==>
         after[i] == if Names(before[i], id) then Changed(before[i], wanted) else before[i]
  }

  /** Whenever the server accepts a request it changes exactly what was asked. */
  ghost predicate ExactServer(steps: seq<Step>) {
    forall i :: 0 <= i < |steps| ==> ExactAnswer(steps[i])
  }

  ghost predicate ExactAnswer(step: Step) {
    step.call.Some? && step.call.value.SetOption? && step.call.value.answer.Ok? ==>
      ExactChange(step.before.options, step.call.value.configID, step.call.value.wanted, step.call.value.answer.value)
  }

  /** The value a session shows for `id`. */
  function Reading(s: Setup, id: string): Option<ConfigValue> {
    match Find(s.options, id)
    case Some(option) => Some(Shown(option))
    case None => if id == "mode" && s.mode.Some? then Some(ConfigValue("mode", Trim(s.mode.value), None)) else None
  }

  /** The first option with the id is found. */
  lemma {:induction false} FindFirst(options: seq<ConfigOption>, id: string, i: nat)
    requires i < |options| && Names(options[i], id) && forall j :: 0 <= j < i ==> !Names(options[j], id)
    ensures Find(options, id) == Some(options[i])
  {
    if i > 0 {
      assert !Names(options[0], id);
      FindFirst(options[1..], id, i - 1);
    }
  }

  lemma FindIs(options: seq<ConfigOption>, id: string, i: nat)
    requires UniqueIds(options) && i < |options| && Names(options[i], id)
    ensures Find(options, id) == Some(options[i])
  {
    FindFirst(options, id, i);
  }

  lemma {:induction false} FindNone(options: seq<ConfigOption>, id: string)
    requires forall i :: 0 <= i < |options| ==> !Names(options[i], id)
    ensures Find(options, id) == None
  {
    if options != [] {
      FindNone(options[1..], id);
    }
  }

  lemma {:induction false} FindWitness(options: seq<ConfigOption>, id: string) returns (i: nat)
    requires Find(options, id).Some?
    ensures i < |options| && Names(options[i], id) && Find(options, id) == Some(options[i])
  {
    if Names(options[0], id) {
      i := 0;
    } else {
      i := FindWitness(options[1..], id);
      i := i + 1;
    }
  }

  lemma FindNoneWitness(options: seq<ConfigOption>, id: string)
    requires Find(options, id) == None
    ensures forall i :: 0 <= i < |options| ==> !Names(options[i], id)
  {
    if options != [] {
      FindNoneWitness(options[1..], id);
      forall i | 0 <= i < |options| ensures !Names(options[i], id) {
        if i > 0 { assert options[i] == options[1..][i - 1]; }
      }
    }
  }

  /** An exact change keeps names, and so uniqueness and what other ids show. */
  lemma {:induction false} ExactChangeFind(before: seq<ConfigOption>, id: string, wanted: Wanted,
      after: seq<ConfigOption>, other: string)
    requires UniqueIds(before) && ExactChange(before, id, wanted, after)
    ensures UniqueIds(after)
    ensures Find(after, other) ==
      match Find(before, other) case None => None case Some(o) => Some(if other == id then Changed(o, wanted) else o)
  {
    forall i | 0 <= i < |before|
      ensures after[i].Unsupported? == before[i].Unsupported?
        && (!before[i].Unsupported? ==> after[i].id == before[i].id)
    {
    }
    if Find(before, other).Some? {
      var i := FindWitness(before, other);
      assert after[i] == if Names(before[i], id) then Changed(before[i], wanted) else before[i];
      FindIs(after, other, i);
    } else {
      FindNoneWitness(before, other);
      forall i | 0 <= i < |after| ensures !Names(after[i], other) {
        assert !Names(before[i], other);
      }
      FindNone(after, other);
    }
  }

  /** The session has a place for a value with this id. */
  predicate Offered(s: Setup, id: string) {
    Find(s.options, id).Some? || (id == "mode" && s.mode.Some?)
  }

  /** And the value is of the kind that this place takes. */
  predicate Takes(sessionID: string, s: Setup, v: ConfigValue) {
    match Find(s.options, v.id)
    case Some(option) => option.Boolean? <==> v.boolValue.Some?
    case None => v.id == "mode" && s.mode.Some? && v.boolValue.None? && !Blank(sessionID)
  }

  /** The request that asks for the value. */
  predicate AsksFor(call: Call, sessionID: string, s: Setup, v: ConfigValue) {
    if Find(s.options, v.id).Some? then
      && call.SetOption? && call.sessionID == sessionID && call.configID == v.id
      && call.wanted == (if v.boolValue.Some? then Switch(v.boolValue.value) else Choose(v.value))
    else
      call.SetMode? && call.sessionID == sessionID && call.modeID == v.value
  }

  predicate IsRefused(step: Step) {
    step.call.Some? && RefusalOf(step.call.value).Some?
  }

  /** Main result on one value, required or not. What the session shows already is not
      asked for again. Anything else it has a fitting place for is asked for. Where there
      is none the value is passed over if it is optional and has no place at all, and is
      an error otherwise. A refusal is an error too, unless the method is unknown and the
      value optional, and changes nothing. */
  lemma StepExactly(sessionID: string, required: set<string>, step: Step)
    requires Obeys(sessionID, required, step) && IsNormal(step.value)
    ensures step.call.Some? <==>
      Reading(step.before, step.value.id) != Some(step.value) && Takes(sessionID, step.before, step.value)
    ensures step.call.Some? ==> AsksFor(step.call.value, sessionID, step.before, step.value)
    ensures step.call.None? || IsRefused(step) ==> step.after == step.before
    ensures step.call.None? ==>
      (step.error.None? <==>
        || Reading(step.before, step.value.id) == Some(step.value)
        || (!Offered(step.before, step.value.id) && step.value.id !in required))
    ensures step.call.Some? ==>
      (step.error.None? <==>
        IsRefused(step) ==> RefusalOf(step.call.value).value.MethodNotFound() && step.value.id !in required)
  {
    var v := step.value;
    match Find(step.before.options, v.id)
    case Some(option) => MatchesExactly(v, option);
    case None =>
  }

  lemma MatchesExactly(v: ConfigValue, option: ConfigOption)
    requires IsNormal(v) && Names(option, v.id)
    ensures OptionMatches(v, option) <==> Shown(option) == v
    ensures AskFor(v, option).Ask? <==> (option.Boolean? <==> v.boolValue.Some?)
    ensures AskFor(v, option).Stop? <==> !AskFor(v, option).Ask?
    ensures AskFor(v, option).Ask? ==>
      AskFor(v, option).wanted == if v.boolValue.Some? then Switch(v.boolValue.value) else Choose(v.value)
  {
  }

  /** Against an exact server, one value handled without an error: it shows afterwards if
      it has a place and was not refused, and nothing else moves. */
  lemma StepReading(sessionID: string, required: set<string>, step: Step, other: string)
    requires Obeys(sessionID, required, step) && IsNormal(step.value) && step.error == None
    requires UniqueIds(step.before.options) && ExactAnswer(step)
    ensures UniqueIds(step.after.options)
    ensures Reading(step.after, other) ==
      if other == step.value.id && Offered(step.before, other) && !IsRefused(step) then Some(step.value)
      else Reading(step.before, other)
    ensures Offered(step.after, other) == Offered(step.before, other)
    ensures step.value.id in required ==> Offered(step.before, step.value.id) && !IsRefused(step)
  {
    StepExactly(sessionID, required, step);
    if step.call.Some? && step.call.value.SetOption? && step.call.value.answer.Ok? {
      var call := step.call.value;
      ExactChangeFind(step.before.options, call.configID, call.wanted, call.answer.value, other);
      ChangedShows(Find(step.before.options, step.value.id).value, step.value);
    }
  }

  lemma ChangedShows(option: ConfigOption, v: ConfigValue)
    requires IsNormal(v) && Names(option, v.id) && (option.Boolean? <==> v.boolValue.Some?)
    ensures Shown(Changed(option, if v.boolValue.Some? then Switch(v.boolValue.value) else Choose(v.value))) == v
  {
  }

  /** What shows for `id` in the end: the last value for it that was not refused, if it has
      a place, and otherwise what showed at the start. */
  function ReadsAfter(start: Setup, steps: seq<Step>, id: string): Option<ConfigValue> {
    if steps == [] then Reading(start, id)
    else
      var last := steps[|steps| - 1];
      if last.value.id == id && Offered(start, id) && !IsRefused(last) then Some(last.value)
      else ReadsAfter(start, steps[..|steps| - 1], id)
  }

  lemma {:induction false} AllReadings(
      sessionID: string, required: set<string>, values: seq<ConfigValue>, start: Setup, steps: seq<Step>, id: string)
    requires HandlesFirst(sessionID, required, values, start, steps) && AllNormal(values)
    requires Failure(steps) == None && UniqueIds(start.options) && ExactServer(steps)
    ensures UniqueIds(End(start, steps).options) && Offered(End(start, steps), id) == Offered(start, id)
    ensures Reading(End(start, steps), id) == ReadsAfter(start, steps, id)
  {
    if steps != [] {
      var n := |steps| - 1;
      AllReadings(sessionID, required, values, start, steps[..n], id);
      assert ExactAnswer(steps[n]);
      StepReading(sessionID, required, steps[n], id);
    }
  }

  /** No request for this id was refused. */
  predicate NeverRefused(steps: seq<Step>, id: string) {
    forall i :: 0 <= i < |steps| && steps[i].value.id == id ==> !IsRefused(steps[i])
  }

  lemma NotRefused(sessionID: string, required: set<string>, step: Step)
    requires Obeys(sessionID, required, step) && step.error == None && step.value.id in required
    ensures !IsRefused(step)
  {
  }

  lemma NextNeverRefused(steps: seq<Step>, step: Step, id: string)
    requires NeverRefused(steps, id) && (step.value.id == id ==> !IsRefused(step))
    ensures NeverRefused(steps + [step], id)
  {
  }

  /** A required value is never refused, or there was an error. */
  lemma {:induction false} RequiredNeverRefused(
      sessionID: string, required: set<string>, values: seq<ConfigValue>, start: Setup, steps: seq<Step>, id: string)
    requires HandlesFirst(sessionID, required, values, start, steps) && Failure(steps) == None && id in required
    ensures NeverRefused(steps, id)
  {
    if steps != [] {
      var n := |steps| - 1;
      RequiredNeverRefused(sessionID, required, values, start, steps[..n], id);
      if steps[n].value.id == id { NotRefused(sessionID, required, steps[n]); }
      FrontAndLast(steps);
      NextNeverRefused(steps[..n], steps[n], id);
    }
  }

  /** And it always has a place. */
  lemma {:induction false} RequiredInPlace(
      sessionID: string, required: set<string>, values: seq<ConfigValue>, start: Setup, steps: seq<Step>, id: string)
    requires HandlesFirst(sessionID, required, values, start, steps) && AllNormal(values)
    requires Failure(steps) == None && UniqueIds(start.options) && ExactServer(steps) && id in required
    ensures Last(values[..|steps|], id).Some? ==> Offered(start, id)
  {
    if steps != [] {
      var n := |steps| - 1;
      RequiredInPlace(sessionID, required, values, start, steps[..n], id);
      AllReadings(sessionID, required, values, start, steps[..n], id);
      assert ExactAnswer(steps[n]);
      StepReading(sessionID, required, steps[n], id);
      NextLast(values, n, id);
    }
  }

  lemma NextLast(values: seq<ConfigValue>, n: nat, id: string)
    requires n < |values|
    ensures Last(values[..n + 1], id) == if values[n].id == id then Some(values[n]) else Last(values[..n], id)
  {
    assert values[..n + 1] == values[..n] + [values[n]];
    LastAppend(values[..n], values[n], id);
  }

  lemma {:induction false} UnrefusedReads(
      sessionID: string, required: set<string>, values: seq<ConfigValue>, start: Setup, steps: seq<Step>, id: string)
    requires HandlesFirst(sessionID, required, values, start, steps)
    requires Offered(start, id) && NeverRefused(steps, id)
    ensures ReadsAfter(start, steps, id) ==
      if Last(values[..|steps|], id).Some? then Last(values[..|steps|], id) else Reading(start, id)
  {
    if steps != [] {
      var n := |steps| - 1;
      NextLast(values, n, id);
      assert forall i :: 0 <= i < n ==> steps[..n][i] == steps[i];
      UnrefusedReads(sessionID, required, values, start, steps[..n], id);
    }
  }

  lemma {:induction false} UntouchedReads(
      sessionID: string, required: set<string>, values: seq<ConfigValue>, start: Setup, steps: seq<Step>, id: string)
    requires HandlesFirst(sessionID, required, values, start, steps) && Last(values[..|steps|], id) == None
    ensures ReadsAfter(start, steps, id) == Reading(start, id)
  {
    if steps != [] {
      var n := |steps| - 1;
      NextLast(values, n, id);
      UntouchedReads(sessionID, required, values, start, steps[..n], id);
    }
  }

  lemma ListedAppend(options: seq<ConfigOption>, option: ConfigOption)
    ensures Listed(options + [option]) ==
      if IsListed(option) then Listed(options) + [Shown(option)] else Listed(options)
  {
    assert (options + [option])[..|options|] == options;
  }

  lemma LastAppend(values: seq<ConfigValue>, v: ConfigValue, id: string)
    ensures Last(values + [v], id) == if v.id == id then Some(v) else Last(values, id)
  {
    LastIndexAppend(values, v, id);
  }

  lemma {:induction false} ListedLast(options: seq<ConfigOption>, id: string)
    requires UniqueIds(options) && id != ""
    ensures Last(Listed(options), id) ==
      match Find(options, id) case None => None case Some(o) => if IsListed(o) then Some(Shown(o)) else None
  {
    if options != [] {
      var front, last := options[..|options| - 1], options[|options| - 1];
      FrontAndLast(options);
      ListedLast(front, id);
      ListedAppend(front, last);
      FindAppend(front, last, id);
      if IsListed(last) {
        LastAppend(Listed(front), Shown(last), id);
      }
      if Names(last, id) {
        FindNone(front, id);
      }
    }
  }

  lemma {:induction false} FindAppend(options: seq<ConfigOption>, option: ConfigOption, id: string)
    ensures Find(options + [option], id) ==
      if Find(options, id).Some? then Find(options, id) else if Names(option, id) then Some(option) else None
  {
    if options != [] {
      assert (options + [option])[1..] == options[1..] + [option];
      FindAppend(options[1..], option, id);
    }
  }

  /** What a session collects for an id: what it shows for it, unless that is blank. The
      mode stands in also for an option of that name whose value is blank. */
  lemma {:induction false} CollectReads(s: Setup, id: string)
    requires UniqueIds(s.options) && id != ""
    ensures Last(Collect(s), id) ==
      if Find(s.options, id).Some? && IsListed(Find(s.options, id).value) then Reading(s, id)
      else if id == "mode" && s.mode.Some? && !Blank(s.mode.value) then
        Some(ConfigValue("mode", Trim(s.mode.value), None))
      else None
  {
    ListedLast(s.options, id);
    ListedLast(s.options, "mode");
    var listed := Listed(s.options);
    LastInIds(listed, "mode");
    if s.mode.Some? {
      LastAppend(listed, ConfigValue("mode", Trim(s.mode.value), None), id);
    }
  }

  lemma LastInIds(values: seq<ConfigValue>, id: string)
    ensures id in IdsOf(values) <==> Last(values, id).Some?
  {
    if id in IdsOf(values) {
      var v :| v in values && v.id == id;
      var i :| 0 <= i < |values| && values[i] == v;
    }
  }

  /** Main result: when applying the merged values succeeds, the values collected give
      its last value to every id that is configured, and to every other merged id that
      has a place in the session and was not refused; that is the last configured value,
      or else the last stored one. Whatever duplicates either list holds, and whether or
      not the mode had to stand in for an option. No other id moves. */
  lemma MergeThenApply(
      sessionID: string, stored: seq<ConfigValue>, desired: seq<ConfigValue>, start: Setup,
      steps: seq<Step>, id: string)
    requires UniqueIds(start.options) && ExactServer(steps)
    requires Handles(sessionID, IdsOf(Normalize(desired)), Normalize(Merge(stored, desired)), start, steps)
    requires Failure(steps) == None
    ensures id in IdsOf(Normalize(desired)) ==> Offered(start, id) && NeverRefused(steps, id)
    ensures id in IdsOf(Merge(stored, desired)) && Offered(start, id) && NeverRefused(steps, id) ==>
      Last(Collect(End(start, steps)), id) ==
        if id in IdsOf(Normalize(desired)) then Last(Normalize(desired), id) else Last(Normalize(stored), id)
    ensures id !in IdsOf(Merge(stored, desired)) ==> Reading(End(start, steps), id) == Reading(start, id)
  {
    var values, required := Merge(stored, desired), IdsOf(Normalize(desired));
    MergeNormal(Normalize(stored), Normalize(desired));
    MergedValue(stored, desired, id);
    LastInIds(Normalize(desired), id);
    LastInIds(values, id);
    assert values[..|steps|] == values;
    AllReadings(sessionID, required, values, start, steps, id);
    if id in required {
      RequiredNeverRefused(sessionID, required, values, start, steps, id);
      RequiredInPlace(sessionID, required, values, start, steps, id);
    }
    if Last(values, id).None? {
      UntouchedReads(sessionID, required, values, start, steps, id);
    } else if Offered(start, id) && NeverRefused(steps, id) {
      UnrefusedReads(sessionID, required, values, start, steps, id);
      ReadIsCollected(End(start, steps), Last(values, id).value);
    }
  }

  lemma ReadIsCollected(s: Setup, v: ConfigValue)
    requires UniqueIds(s.options) && IsNormal(v) && Reading(s, v.id) == Some(v)
    ensures Last(Collect(s), v.id) == Some(v)
  {
    CollectReads(s, v.id);
  }
}
