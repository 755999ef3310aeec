/** Session configuration values: how they are normalised and merged, and how they
    are applied to a session whose options the server reports. */
module SessionConfig {
  import opened Text
  import opened Descriptor
  import opened Protocol

  datatype ConfigValue = ConfigValue(id: string, value: string, boolValue: Option<bool>)

  // ------------------------------------------------------ normalise and merge

  /** A value with its id and text trimmed, unless nothing useful is left. */
  function Normal(v: ConfigValue): Option<ConfigValue> {
    if Blank(v.id) then None
    else if v.boolValue.Some? then Some(ConfigValue(Trim(v.id), "", v.boolValue))
    else if Blank(v.value) then None
    else Some(ConfigValue(Trim(v.id), Trim(v.value), None))
  }

  predicate IsNormal(v: ConfigValue) {
    && v.id != "" && Trimmed(v.id)
    && (if v.boolValue.Some? then v.value == "" else v.value != "" && Trimmed(v.value))
  }

  predicate AllNormal(values: seq<ConfigValue>) {
    forall i :: 0 <= i < |values| ==> IsNormal(values[i])
  }

  function Normalize(values: seq<ConfigValue>): (r: seq<ConfigValue>)
    ensures AllNormal(r) && |r| <= |values|
    ensures AllNormal(values) ==> r == values
  {
    if values == [] then []
    else
      var rest, last := Normalize(values[..|values| - 1]), Normal(values[|values| - 1]);
      if last.Some? then rest + [last.value] else rest
  }

  method NormalizeValues(values: seq<ConfigValue>) returns (normalized: seq<ConfigValue>)
    ensures normalized == Normalize(values)
  {
    normalized := [];
    for n := 0 to |values|
      invariant normalized == Normalize(values[..n])
    {
      var value := values[n];
      assert values[..n + 1][..n] == values[..n];
      var id := Trim(value.id);
      if id == "" {
        continue;
      }
      if value.boolValue.Some? {
        normalized := normalized + [ConfigValue(id, "", value.boolValue)];
        continue;
      }
      var text := Trim(value.value);
      if text == "" {
        continue;
      }
      normalized := normalized + [ConfigValue(id, text, None)];
    }
    assert values[..|values|] == values;
  }

  /** Something is left of the value once it is trimmed. */
  predicate IsUseful(v: ConfigValue) {
    !Blank(v.id) && (v.boolValue.Some? || !Blank(v.value))
  }

  /** Each value is normalised on its own: a useful one keeps its trimmed id, and its
      boolean or else its trimmed text; any other is left out. */
  lemma NormalizeOne(v: ConfigValue)
    ensures Normalize([v]) ==
      if IsUseful(v) then [ConfigValue(Trim(v.id), if v.boolValue.Some? then "" else Trim(v.value), v.boolValue)]
      else []
  {
    assert [v][..0] == [];
  }

  lemma {:induction false} NormalizeAppend(values: seq<ConfigValue>, more: seq<ConfigValue>)
    ensures Normalize(values + more) == Normalize(values) + Normalize(more)
  {
    if more == [] {
      assert values + more == values;
    } else {
      var front, v := more[..|more| - 1], more[|more| - 1];
      FrontAndLast(more);
      assert values + (front + [v]) == (values + front) + [v];
      NormalizeAppend(values, front);
      NormalizeNext(values + front, v);
      NormalizeNext(front, v);
    }
  }

  lemma NormalizeNext(values: seq<ConfigValue>, v: ConfigValue)
    ensures Normalize(values + [v]) == Normalize(values) + Normalize([v])
  {
    assert (values + [v])[..|values|] == values;
    assert [v][..0] == [];
  }

  /** Where `id` occurs last. */
  function LastIndex(values: seq<ConfigValue>, id: string): (i: Option<nat>)
    ensures i.Some? ==>
      && i.value < |values| && values[i.value].id == id
      && forall j :: i.value < j < |values| ==> values[j].id != id
    ensures i.None? ==> forall j :: 0 <= j < |values| ==> values[j].id != id
  {
    if values == [] then None
    else if values[|values| - 1].id == id then Some(|values| - 1)
    else LastIndex(values[..|values| - 1], id)
  }

  /** The last value given for `id`. */
  function Last(values: seq<ConfigValue>, id: string): Option<ConfigValue> {
    match LastIndex(values, id)
    case Some(i) => Some(values[i])
    case None => None
  }

  /** Replaces the last value with the same id, or appends. */
  function Put(values: seq<ConfigValue>, v: ConfigValue): seq<ConfigValue> {
    match LastIndex(values, v.id)
    case Some(i) => values[i := v]
    case None => values + [v]
  }

  function PutAll(values: seq<ConfigValue>, more: seq<ConfigValue>): seq<ConfigValue> {
    if more == [] then values else Put(PutAll(values, more[..|more| - 1]), more[|more| - 1])
  }

  function Merge(defaults: seq<ConfigValue>, overrides: seq<ConfigValue>): seq<ConfigValue> {
    PutAll(Normalize(defaults), Normalize(overrides))
  }

  /** `index` knows the last position of every id in `values`. */
  ghost predicate Indexes(index: map<string, nat>, values: seq<ConfigValue>) {
    forall id :: if id in index then LastIndex(values, id) == Some(index[id]) else LastIndex(values, id) == None
  }

  lemma LastIndexIs(values: seq<ConfigValue>, id: string, i: nat)
    requires i < |values| && values[i].id == id && forall j :: i < j < |values| ==> values[j].id != id
    ensures LastIndex(values, id) == Some(i)
  {
  }

  lemma LastIndexAppend(values: seq<ConfigValue>, v: ConfigValue, id: string)
    ensures LastIndex(values + [v], id) == if v.id == id then Some(|values|) else LastIndex(values, id)
  {
    assert (values + [v])[..|values|] == values;
  }

  lemma LastIndexReplace(values: seq<ConfigValue>, i: nat, v: ConfigValue, id: string)
    requires i < |values| && values[i].id == v.id
    ensures LastIndex(values[i := v], id) == LastIndex(values, id)
  {
    var replaced := values[i := v];
    match LastIndex(values, id)
    case Some(k) => LastIndexIs(replaced, id, k);
    case None => assert forall j :: 0 <= j < |replaced| ==> replaced[j].id != id;
  }

  method MergeValues(defaults: seq<ConfigValue>, overrides: seq<ConfigValue>) returns (merged: seq<ConfigValue>)
    ensures merged == Merge(defaults, overrides)
  {
    merged := NormalizeValues(defaults);
    ghost var base := merged;
    var index := IndexValues(merged);
    var more := NormalizeValues(overrides);
    for n := 0 to |more|
      invariant merged == PutAll(base, more[..n])
      invariant Indexes(index, merged)
    {
      var value := more[n];
      PutAllNext(base, more, n);
      PutIndexed(index, merged, value);
      if value.id in index {
        merged := merged[index[value.id] := value];
        continue;
      }
      index := At(index, value.id, |merged|);
      merged := merged + [value];
    }
    assert more[..|more|] == more;
  }

  lemma PutAllNext(values: seq<ConfigValue>, more: seq<ConfigValue>, n: nat)
    requires n < |more|
    ensures PutAll(values, more[..n + 1]) == Put(PutAll(values, more[..n]), more[n])
  {
    assert more[..n + 1][..n] == more[..n];
  }

  function At(index: map<string, nat>, id: string, i: nat): map<string, nat> {
    index[id := i]
  }

  method IndexValues(values: seq<ConfigValue>) returns (index: map<string, nat>)
    ensures Indexes(index, values)
  {
    index := map[];
    for i := 0 to |values|
      invariant Indexes(index, values[..i])
    {
      assert values[..i + 1] == values[..i] + [values[i]];
      PutIndexed(index, values[..i], values[i]);
      index := At(index, values[i].id, i);
    }
    assert values[..|values|] == values;
  }

  /** What the index says of a value that is replaced, or else appended. */
  lemma PutIndexed(index: map<string, nat>, values: seq<ConfigValue>, v: ConfigValue)
    requires Indexes(index, values)
    ensures v.id in index ==>
      index[v.id] < |values| && Put(values, v) == values[index[v.id] := v] && Indexes(index, Put(values, v))
    ensures v.id !in index ==> Put(values, v) == values + [v]
    ensures Indexes(At(index, v.id, |values|), values + [v])
  {
    forall id { LastIndexAppend(values, v, id); }
    assert v.id in index ==> LastIndex(values, v.id) == Some(index[v.id]);
    assert v.id !in index ==> LastIndex(values, v.id) == None;
    if v.id in index {
      forall id { LastIndexReplace(values, index[v.id], v, id); }
    }
  }

  lemma PutLast(values: seq<ConfigValue>, v: ConfigValue, id: string)
    ensures Last(Put(values, v), id) == if id == v.id then Some(v) else Last(values, id)
  {
    match LastIndex(values, v.id)
    case Some(i) => LastIndexReplace(values, i, v, id);
    case None => LastIndexAppend(values, v, id);
  }

  /** Merging keeps, for every id, the last override, or else the last default. */
  lemma {:induction false} PutAllLast(values: seq<ConfigValue>, more: seq<ConfigValue>, id: string)
    ensures Last(PutAll(values, more), id) == if Last(more, id).Some? then Last(more, id) else Last(values, id)
  {
    if more != [] {
      var front, v := more[..|more| - 1], more[|more| - 1];
      PutAllLast(values, front, id);
      PutLast(PutAll(values, front), v, id);
      assert more == front + [v];
      LastIndexAppend(front, v, id);
    }
  }

  lemma MergedValue(defaults: seq<ConfigValue>, overrides: seq<ConfigValue>, id: string)
    ensures Last(Merge(defaults, overrides), id) ==
      if Last(Normalize(overrides), id).Some? then Last(Normalize(overrides), id) else Last(Normalize(defaults), id)
  {
    PutAllLast(Normalize(defaults), Normalize(overrides), id);
  }

  lemma {:induction false} MergeNormal(values: seq<ConfigValue>, more: seq<ConfigValue>)
    requires AllNormal(values) && AllNormal(more)
    ensures AllNormal(PutAll(values, more))
  {
    if more != [] {
      MergeNormal(values, more[..|more| - 1]);
    }
  }

  predicate HasID(values: seq<ConfigValue>, id: string) {
    LastIndex(values, id).Some?
  }

  /** The ids of `more` that `values` lacks, in the order in which they come up. */
  function NewIDs(values: seq<ConfigValue>, more: seq<ConfigValue>): seq<string> {
    if more == [] then []
    else
      var ids, id := NewIDs(values, more[..|more| - 1]), more[|more| - 1].id;
      if HasID(values, id) || id in ids then ids else ids + [id]
  }

  /** Every value keeps its place, those that were merged in come behind, and of several
      with one id only the last is replaced. */
  ghost predicate InPlace(values: seq<ConfigValue>, ids: seq<string>, merged: seq<ConfigValue>) {
    && |merged| == |values| + |ids|
    && (forall i :: 0 <= i < |values| ==> merged[i].id == values[i].id)
    && (forall i :: 0 <= i < |values| && LastIndex(values, values[i].id) != Some(i) ==> merged[i] == values[i])
    && (forall i :: 0 <= i < |ids| ==> merged[|values| + i].id == ids[i] && !HasID(values, ids[i]))
    && (forall i, j :: 0 <= i < j < |ids| ==> ids[i] != ids[j])
  }

  lemma ReplacedInPlace(values: seq<ConfigValue>, ids: seq<string>, merged: seq<ConfigValue>, v: ConfigValue)
    requires InPlace(values, ids, merged) && HasID(merged, v.id)
    ensures HasID(values, v.id) || v.id in ids
    ensures InPlace(values, ids, Put(merged, v))
  {
    var k := LastIndex(merged, v.id).value;
    if k < |values| {
      LastIndexIs(values, v.id, k);
    } else {
      assert ids[k - |values|] == v.id;
    }
  }

  lemma AppendedInPlace(values: seq<ConfigValue>, ids: seq<string>, merged: seq<ConfigValue>, v: ConfigValue)
    requires InPlace(values, ids, merged) && !HasID(merged, v.id)
    ensures !HasID(values, v.id) && v.id !in ids
    ensures InPlace(values, ids + [v.id], Put(merged, v))
  {
    assert forall i :: 0 <= i < |values| ==> values[i].id == merged[i].id != v.id;
    assert forall i :: 0 <= i < |ids| ==> ids[i] == merged[|values| + i].id != v.id;
  }

  lemma {:induction false} MergedInPlace(values: seq<ConfigValue>, more: seq<ConfigValue>)
    ensures InPlace(values, NewIDs(values, more), PutAll(values, more))
  {
    if more != [] {
      var ids, merged, v := NewIDs(values, more[..|more| - 1]), PutAll(values, more[..|more| - 1]), more[|more| - 1];
      MergedInPlace(values, more[..|more| - 1]);
      if HasID(merged, v.id) {
        ReplacedInPlace(values, ids, merged, v);
      } else {
        AppendedInPlace(values, ids, merged, v);
      }
    }
  }

  // ------------------------------------------------------------------- apply

  /** What the server shows of a session: its options and, if it has any, its mode. */
  datatype Setup = Setup(options: seq<ConfigOption>, mode: Option<string>)

  datatype Wanted = Choose(value: string) | Switch(on: bool)

  datatype Call =
    | SetOption(sessionID: string, configID: string, wanted: Wanted, answer: Result<seq<ConfigOption>, Fault>)
    | SetMode(sessionID: string, modeID: string, refusal: Option<Fault>)

  /** How the request was refused, if it was. */
  function RefusalOf(call: Call): Option<Fault> {
    match call
    case SetOption(_, _, _, answer) => if answer.Err? then Some(answer.error) else None
    case SetMode(_, _, refusal) => refusal
  }

  datatype ConfigError =
    | NeedsBoolean
    | NeedsSelect
    | ModeRequired
    | SessionRequired
    | Unavailable
    | Refused(fault: Fault)

  datatype Decision = Keep | Ask(wanted: Wanted) | AskMode(modeID: string) | Stop(error: ConfigError)

  predicate Names(option: ConfigOption, id: string) {
    !option.Unsupported? && Trim(option.id) == id
  }

  function Find(options: seq<ConfigOption>, id: string): (option: Option<ConfigOption>)
    ensures option.Some? ==> Names(option.value, id) && option.value in options
  {
    if options == [] then None
    else if Names(options[0], id) then Some(options[0])
    else Find(options[1..], id)
  }

  method FindOption(options: seq<ConfigOption>, id: string) returns (option: Option<ConfigOption>)
    ensures option == Find(options, Trim(id))
  {
    for n := 0 to |options|
      invariant Find(options, Trim(id)) == Find(options[n..], Trim(id))
    {
      if Names(options[n], Trim(id)) {
        return Some(options[n]);
      }
      assert options[n..][1..] == options[n + 1..];
    }
    return None;
  }

  predicate OptionMatches(v: ConfigValue, option: ConfigOption) {
    match option
    case Boolean(_, _, on) => v.boolValue == Some(on)
    case Select(_, _, current, _) => v.boolValue == None && Trim(current) == Trim(v.value)
    case Unsupported => false
  }

  /** What the option is asked to become, or why it cannot be asked. */
  function AskFor(v: ConfigValue, option: ConfigOption): Decision
    requires !option.Unsupported?
  {
    if option.Boolean? then
      (if v.boolValue.Some? then Ask(Switch(v.boolValue.value)) else Stop(NeedsBoolean))
    else
      (if Blank(v.value) then Stop(NeedsSelect) else Ask(Choose(Trim(v.value))))
  }

  function Decide(sessionID: string, v: ConfigValue, s: Setup, required: set<string>): Decision {
    match Find(s.options, v.id)
    case Some(option) => if OptionMatches(v, option) then Keep else AskFor(v, option)
    case None =>
      if v.id == "mode" && s.mode.Some? then
        if Blank(v.value) then Stop(ModeRequired)
        else if Trim(s.mode.value) == Trim(v.value) then Keep
        else if Blank(sessionID) then Stop(SessionRequired)
        else AskMode(Trim(v.value))
      else if v.id in required then Stop(Unavailable)
      else Keep
  }

  /** A refusal stops the setup, unless the method is unknown and the value optional. */
  function RefusalError(fault: Fault, id: string, required: set<string>): Option<ConfigError> {
    if fault.MethodNotFound() && id !in required then None else Some(Refused(fault))
  }

  /** One value handled: the state before and after, the request sent, if any, and
      the error that ended the setup, if any. */
  datatype Step = Step(value: ConfigValue, before: Setup, call: Option<Call>, after: Setup, error: Option<ConfigError>)

  predicate Obeys(sessionID: string, required: set<string>, step: Step) {
    match Decide(sessionID, step.value, step.before, required)
    case Keep => step.call == None && step.after == step.before && step.error == None
    case Stop(e) => step.call == None && step.after == step.before && step.error == Some(e)
    case Ask(wanted) =>
      && step.call.Some? && step.call.value.SetOption?
      && step.call.value.sessionID == sessionID && step.call.value.configID == step.value.id
      && step.call.value.wanted == wanted
      && (match step.call.value.answer
          case Ok(options) => step.after == step.before.(options := options) && step.error == None
          case Err(f) => step.after == step.before && step.error == RefusalError(f, step.value.id, required))
    case AskMode(modeID) =>
      && step.call.Some? && step.call.value.SetMode?
      && step.call.value.sessionID == sessionID && step.call.value.modeID == modeID
      && (match step.call.value.refusal
          case None => step.after == step.before.(mode := Some(modeID)) && step.error == None
          case Some(f) => step.after == step.before && step.error == RefusalError(f, step.value.id, required))
  }

  function End(start: Setup, steps: seq<Step>): Setup {
    if steps == [] then start else steps[|steps| - 1].after
  }

  function Failure(steps: seq<Step>): Option<ConfigError> {
    if steps == [] then None else steps[|steps| - 1].error
  }

  /** `steps` handle the first values in order from `start`; only the last may fail. */
  ghost predicate HandlesFirst(
      sessionID: string, required: set<string>, values: seq<ConfigValue>, start: Setup, steps: seq<Step>)
  {
    steps == [] ||
    (var front, last := steps[..|steps| - 1], steps[|steps| - 1];
     && HandlesFirst(sessionID, required, values, start, front)
     && |steps| <= |values| && Failure(front) == None
     && last.value == values[|steps| - 1] && last.before == End(start, front) && Obeys(sessionID, required, last))
  }

  /** `steps` handle all of `values`, or those up to the first that fails. */
  ghost predicate Handles(
      sessionID: string, required: set<string>, values: seq<ConfigValue>, start: Setup, steps: seq<Step>)
  {
    && HandlesFirst(sessionID, required, values, start, steps)
    && (Failure(steps) == None ==> |steps| == |values|)
  }

  function IdsOf(values: seq<ConfigValue>): set<string> {
    set v | v in values :: v.id
  }

  method Handle(sessionID: string, v: ConfigValue, s: Setup, required: set<string>)
    returns (t: Setup, err: Option<ConfigError>, step: Step)
    requires IsNormal(v)
    ensures Obeys(sessionID, required, step) && step.value == v && step.before == s && step.after == t
      && step.error == err
  {
    t, err := s, None;
    step := Step(v, s, None, s, None);
    var option := FindOption(s.options, v.id);
    if option.Some? {
      if OptionMatches(v, option.value) {
        return;
      }
      var request := AskFor(v, option.value);
      if request.Stop? {
        return t, Some(request.error), step.(error := Some(request.error));
      }
      var answer: Result<seq<ConfigOption>, Fault> := *;
      step := step.(call := Some(SetOption(sessionID, v.id, request.wanted, answer)));
      if answer.Err? {
        if answer.error.MethodNotFound() && v.id !in required {
          return;
        }
        return t, Some(Refused(answer.error)), step.(error := Some(Refused(answer.error)));
      }
      t := s.(options := answer.value);
      return t, None, step.(after := t);
    }
    if v.id == "mode" && s.mode.Some? {
      var mode := Trim(v.value);
      if mode == "" {
        return t, Some(ModeRequired), step.(error := Some(ModeRequired));
      }
      if Trim(s.mode.value) == mode {
        return;
      }
      if Blank(sessionID) {
        return t, Some(SessionRequired), step.(error := Some(SessionRequired));
      }
      var refusal: Option<Fault> := *;
      step := step.(call := Some(SetMode(sessionID, mode, refusal)));
      if refusal.Some? {
        if refusal.value.MethodNotFound() && v.id !in required {
          return;
        }
        return t, Some(Refused(refusal.value)), step.(error := Some(Refused(refusal.value)));
      }
      t := s.(mode := Some(mode));
      return t, None, step.(after := t);
    }
    if v.id in required {
      return t, Some(Unavailable), step.(error := Some(Unavailable));
    }
  }

  /** The returned steps are the record of what was asked and answered. */
  method ApplySessionConfig(sessionID: string, values: seq<ConfigValue>, start: Setup, required: seq<ConfigValue>)
    returns (collected: seq<ConfigValue>, options: seq<ConfigOption>, err: Option<ConfigError>, steps: seq<Step>)
    ensures Handles(sessionID, IdsOf(Normalize(required)), Normalize(values), start, steps)
    ensures collected == Collect(End(start, steps)) && options == End(start, steps).options && err == Failure(steps)
  {
    var normalized := NormalizeValues(required);
    var requiredIDs := IdsOf(normalized);
    var current := start;
    var wanted := NormalizeValues(values);
    steps, err := [], None;
    for n := 0 to |wanted|
      invariant |steps| == n && Failure(steps) == None && current == End(start, steps) && err == None
      invariant HandlesFirst(sessionID, requiredIDs, wanted, start, steps)
    {
      var step;
      current, err, step := Handle(sessionID, wanted[n], current, requiredIDs);
      assert (steps + [step])[..n] == steps;
      steps := steps + [step];
      if err.Some? {
        break;
      }
    }
    collected := CollectValues(current);
    options := current.options;
  }

  // ----------------------------------------------------------------- collect

  /** The value an option shows. */
  function Shown(option: ConfigOption): ConfigValue
    requires !option.Unsupported?
  {
    if option.Select? then ConfigValue(Trim(option.id), Trim(option.current), None)
    else ConfigValue(Trim(option.id), "", Some(option.on))
  }

  predicate IsListed(option: ConfigOption) {
    !option.Unsupported? && !Blank(option.id) && (option.Select? ==> !Blank(option.current))
  }

  function Listed(options: seq<ConfigOption>): (r: seq<ConfigValue>)
    ensures AllNormal(r)
  {
    if options == [] then []
    else
      var rest, last := Listed(options[..|options| - 1]), options[|options| - 1];
      if IsListed(last) then rest + [Shown(last)] else rest
  }

  /** The values a session shows; the mode is one unless an option has that id. */
  function Collect(s: Setup): (r: seq<ConfigValue>)
    ensures AllNormal(r)
  {
    var listed := Listed(s.options);
    if s.mode.Some? && !Blank(s.mode.value) && "mode" !in IdsOf(listed) then
      listed + [ConfigValue("mode", Trim(s.mode.value), None)]
    else
      listed
  }

  method CollectValues(s: Setup) returns (values: seq<ConfigValue>)
    ensures values == Collect(s)
  {
    values := [];
    var seen: set<string> := {};
    for n := 0 to |s.options|
      invariant values == Listed(s.options[..n]) && seen == IdsOf(values)
    {
      assert s.options[..n + 1][..n] == s.options[..n];
      ghost var before := values;
      match s.options[n]
      case Select(optionID, _, current, _) =>
        var id, value := Trim(optionID), Trim(current);
        if id == "" || value == "" {
          continue;
        }
        values := values + [ConfigValue(id, value, None)];
        seen := seen + {id};
        IdsAppend(before, ConfigValue(id, value, None));
      case Boolean(optionID, _, on) =>
        var id := Trim(optionID);
        if id == "" {
          continue;
        }
        values := values + [ConfigValue(id, "", Some(on))];
        seen := seen + {id};
        IdsAppend(before, ConfigValue(id, "", Some(on)));
      case Unsupported =>
    }
    assert s.options[..|s.options|] == s.options;
    if s.mode.Some? {
      var mode := Trim(s.mode.value);
      if mode != "" && "mode" !in seen {
        values := values + [ConfigValue("mode", mode, None)];
      }
    }
  }

  lemma IdsAppend(values: seq<ConfigValue>, v: ConfigValue)
    ensures IdsOf(values + [v]) == IdsOf(values) + {v.id}
  {
    assert v in values + [v];
    assert forall w :: w in values ==> w in values + [v];
  }
}
