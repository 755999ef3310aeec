/** The semantic Model descriptor: how the configuration options a server reports
    are classified into model control for one session. */
module Descriptor {
  import opened Text

  const MaxControlModels := 64
  const MaxControlStringBytes := 256

  datatype Category = Model | OtherCategory(name: string)

  datatype Choice = Choice(value: string, name: string)

  /** Select choices: an ungrouped list, a list of groups, both, or neither. */
  datatype Choices = Choices(ungrouped: Option<seq<Choice>>, grouped: Option<seq<seq<Choice>>>)

  datatype ConfigOption =
    | Select(id: string, category: Option<Category>, current: string, choices: Choices)
    | Boolean(id: string, category: Option<Category>, on: bool)
    | Unsupported

  datatype SessionModel = SessionModel(id: string, name: string)

  datatype Control = Control(modelOptionID: string, currentModel: string, models: seq<SessionModel>)
  {
    predicate HasModel(model: string) {
      exists i :: 0 <= i < |models| && models[i].id == model
    }

    /** What every control state that classification produces satisfies. */
    predicate WellFormed() {
      && modelOptionID != ""
      && 0 < |models| <= MaxControlModels
      && (forall i :: 0 <= i < |models| ==> models[i].id != "" && Trimmed(models[i].id))
      && (forall i, j :: 0 <= i < j < |models| ==> models[i].id != models[j].id)
      && HasModel(currentModel)
    }
  }

  predicate Bounded(s: string) {
    Trim(s) != "" && ByteLength(Trim(s)) <= MaxControlStringBytes
  }

  predicate IsModelOption(option: ConfigOption) {
    !option.Unsupported? && option.category == Some(Model)
  }

  function ModelOptions(options: seq<ConfigOption>): seq<ConfigOption> {
    if options == [] then []
    else
      var rest := ModelOptions(options[..|options| - 1]);
      var last := options[|options| - 1];
      if IsModelOption(last) then rest + [last] else rest
  }

  function Concat(groups: seq<seq<Choice>>): seq<Choice> {
    if groups == [] then [] else Concat(groups[..|groups| - 1]) + groups[|groups| - 1]
  }

  function AllChoices(choices: Choices): seq<Choice> {
    (if choices.ungrouped.Some? then choices.ungrouped.value else [])
    + (if choices.grouped.Some? then Concat(choices.grouped.value) else [])
  }

  function ModelOf(choice: Choice): SessionModel {
    SessionModel(Trim(choice.value), Trim(choice.name))
  }

  function ModelsOf(raw: seq<Choice>): seq<SessionModel> {
    seq(|raw|, i requires 0 <= i < |raw| => ModelOf(raw[i]))
  }

  predicate Clean(raw: seq<Choice>) {
    && (forall i :: 0 <= i < |raw| ==> Bounded(raw[i].value) && Bounded(raw[i].name))
    && (forall i, j :: 0 <= i < j < |raw| ==> Trim(raw[i].value) != Trim(raw[j].value))
  }

  /** The models a select offers; empty when any choice is unusable, two choices
      share an id, or there are too many. */
  function Models(choices: Choices): seq<SessionModel> {
    var raw := AllChoices(choices);
    if |raw| <= MaxControlModels && Clean(raw) then ModelsOf(raw) else []
  }

  lemma ModelsWellFormed(choices: Choices)
    ensures |Models(choices)| <= MaxControlModels
    ensures forall i :: 0 <= i < |Models(choices)| ==> Models(choices)[i].id != "" && Trimmed(Models(choices)[i].id)
    ensures forall i, j :: 0 <= i < j < |Models(choices)| ==> Models(choices)[i].id != Models(choices)[j].id
  {
  }

  /** The control state a select stands for, if it is usable and shows one of its
      own choices. */
  function ControlOf(option: ConfigOption): Option<Control>
    requires option.Select?
  {
    var state := Control(Trim(option.id), Trim(option.current), Models(option.choices));
    if Bounded(option.id) && Bounded(option.current) && state.models != [] && state.HasModel(state.currentModel)
    then Some(state)
    else None
  }

  /** The control state of a set of options: defined by the only Model option. */
  function Classify(options: seq<ConfigOption>): Option<Control> {
    var found := ModelOptions(options);
    if |found| == 1 && found[0].Select? then ControlOf(found[0]) else None
  }

  lemma ControlWellFormed(option: ConfigOption)
    requires option.Select? && ControlOf(option).Some?
    ensures ControlOf(option).value.WellFormed()
  {
    ModelsWellFormed(option.choices);
  }

  /** Every control state that a set of options stands for is well formed. */
  lemma ClassifiedWellFormed(options: seq<ConfigOption>)
    requires Classify(options).Some?
    ensures Classify(options).value.WellFormed()
  {
    ControlWellFormed(ModelOptions(options)[0]);
  }

  /** The options show `model` as the current one in a single valid descriptor. */
  predicate Shows(options: seq<ConfigOption>, model: string) {
    Classify(options).Some? && Classify(options).value.currentModel == model
  }

  lemma {:induction false} ConcatPrefix(groups: seq<seq<Choice>>, k: nat)
    requires k <= |groups|
    ensures |Concat(groups[..k])| <= |Concat(groups)|
  {
    if k < |groups| {
      assert groups[..|groups| - 1][..k] == groups[..k];
      ConcatPrefix(groups[..|groups| - 1], k);
    } else {
      assert groups[..k] == groups;
    }
  }

  /** The first half of flattening: all choices in order, unless there are too many. */
  method CollectChoices(choices: Choices) returns (raw: Option<seq<Choice>>)
    ensures raw == if |AllChoices(choices)| <= MaxControlModels then Some(AllChoices(choices)) else None
  {
    var all: seq<Choice> := [];
    if choices.ungrouped.Some? {
      if |choices.ungrouped.value| > MaxControlModels {
        return None;
      }
      all := all + choices.ungrouped.value;
    }
    ghost var base := all;
    if choices.grouped.Some? {
      var groups := choices.grouped.value;
      var g := 0;
      while g < |groups|
        invariant 0 <= g <= |groups|
        invariant all == base + Concat(groups[..g])
        invariant |all| <= MaxControlModels
      {
        assert groups[..g + 1][..g] == groups[..g];
        if |groups[g]| > MaxControlModels - |all| {
          ConcatPrefix(groups, g + 1);
          return None;
        }
        all := all + groups[g];
        g := g + 1;
      }
      assert groups[..g] == groups;
    }
    assert all == AllChoices(choices);
    raw := Some(all);
  }

  lemma BoundedTrim(s: string)
    ensures Bounded(Trim(s)) == Bounded(s)
  {
  }

  method FlattenSessionModels(choices: Choices) returns (models: seq<SessionModel>)
    ensures models == Models(choices)
  {
    var collected := CollectChoices(choices);
    if collected.None? {
      return [];
    }
    models := DistinctModels(collected.value);
  }

  function Ids(raw: seq<Choice>): set<string> {
    set c | c in raw :: Trim(c.value)
  }

  lemma CleanExtends(raw: seq<Choice>, n: nat)
    requires n < |raw|
    ensures Ids(raw[..n + 1]) == Ids(raw[..n]) + {Trim(raw[n].value)}
    ensures ModelsOf(raw[..n + 1]) == ModelsOf(raw[..n]) + [ModelOf(raw[n])]
    ensures Clean(raw[..n]) && Bounded(raw[n].value) && Bounded(raw[n].name) && Trim(raw[n].value) !in Ids(raw[..n])
      ==> Clean(raw[..n + 1])
  {
    var front, last := raw[..n], raw[n];
    assert raw[..n + 1] == front + [last];
    IdsAppend(front, last);
    ModelsAppend(front, last);
    CleanAppend(front, last);
  }

  lemma IdsAppend(front: seq<Choice>, last: Choice)
    ensures Ids(front + [last]) == Ids(front) + {Trim(last.value)}
  {
    assert last in front + [last] && forall c :: c in front ==> c in front + [last];
  }

  lemma ModelsAppend(front: seq<Choice>, last: Choice)
    ensures ModelsOf(front + [last]) == ModelsOf(front) + [ModelOf(last)]
  {
  }

  lemma CleanAppend(front: seq<Choice>, last: Choice)
    ensures Clean(front) && Bounded(last.value) && Bounded(last.name) && Trim(last.value) !in Ids(front) ==>
      Clean(front + [last])
  {
    forall i | 0 <= i < |front| ensures Trim(front[i].value) in Ids(front) {
      assert front[i] in front;
    }
  }

  lemma DuplicateIsUnclean(raw: seq<Choice>, n: nat)
    requires n < |raw| && Trim(raw[n].value) in Ids(raw[..n])
    ensures !Clean(raw)
  {
    var c :| c in raw[..n] && Trim(c.value) == Trim(raw[n].value);
    var i :| 0 <= i < n && raw[i] == c;
  }

  /** The second half of flattening: trim, bound and deduplicate. */
  method DistinctModels(raw: seq<Choice>) returns (models: seq<SessionModel>)
    ensures models == if Clean(raw) then ModelsOf(raw) else []
  {
    models := [];
    var seen: set<string> := {};
    for n := 0 to |raw|
      invariant Clean(raw[..n])
      invariant models == ModelsOf(raw[..n])
      invariant seen == Ids(raw[..n])
    {
      var id, name := Trim(raw[n].value), Trim(raw[n].name);
      BoundedTrim(raw[n].value);
      BoundedTrim(raw[n].name);
      if !Bounded(id) || !Bounded(name) {
        return [];
      }
      if id in seen {
        DuplicateIsUnclean(raw, n);
        return [];
      }
      CleanExtends(raw, n);
      seen := seen + {id};
      models := models + [SessionModel(id, name)];
    }
    assert raw[..|raw|] == raw;
  }

  /** The scan over the options: how many carry the Model category, and the first
      select among them. */
  method FindModelOption(options: seq<ConfigOption>) returns (modelCount: nat, selected: Option<ConfigOption>)
    ensures modelCount == |ModelOptions(options)|
    ensures selected.None? ==> forall o :: o in ModelOptions(options) ==> !o.Select?
    ensures selected.Some? ==> selected.value in ModelOptions(options) && selected.value.Select?
  {
    selected, modelCount := None, 0;
    for n := 0 to |options|
      invariant modelCount == |ModelOptions(options[..n])|
      invariant selected.None? ==> forall o :: o in ModelOptions(options[..n]) ==> !o.Select?
      invariant selected.Some? ==> selected.value in ModelOptions(options[..n]) && selected.value.Select?
    {
      var option := options[n];
      assert options[..n + 1][..n] == options[..n];
      if option.Select? && option.category == Some(Model) {
        modelCount := modelCount + 1;
        if selected.None? {
          selected := Some(option);
        }
      }
      if option.Boolean? && option.category == Some(Model) {
        modelCount := modelCount + 1;
      }
    }
    assert options[..|options|] == options;
  }

  /** The checks on the one select found. */
  method BuildControl(option: ConfigOption) returns (control: Option<Control>)
    requires option.Select?
    ensures control == ControlOf(option)
  {
    if !Bounded(option.id) || !Bounded(option.current) {
      return None;
    }
    var models := FlattenSessionModels(option.choices);
    ModelsWellFormed(option.choices);
    if |models| == 0 || |models| > MaxControlModels {
      return None;
    }
    var state := Control(Trim(option.id), Trim(option.current), models);
    if !state.HasModel(state.currentModel) {
      return None;
    }
    return Some(state);
  }

  method ClassifyModelDescriptor(options: seq<ConfigOption>) returns (control: Option<Control>)
    ensures control == Classify(options) && (control.Some? ==> control.value.WellFormed())
  {
    var modelCount, selected := FindModelOption(options);
    if modelCount != 1 || selected.None? {
      return None;
    }
    assert ModelOptions(options)[0] == selected.value;
    control := BuildControl(selected.value);
    if control.Some? { ClassifiedWellFormed(options); }
  }

  /** A valid descriptor exists exactly when one option alone carries the Model
      category and that option is a bounded select whose choices are bounded,
      pairwise distinct, at most 64, and include the current value. */
  lemma ClassifyExact(options: seq<ConfigOption>)
    ensures Classify(options).Some? <==>
      exists i :: 0 <= i < |options| && OnlyUsableModelOption(options, i)
  {
    if Classify(options).Some? {
      var i := ClassifiedOption(options);
    }
    if i :| 0 <= i < |options| && OnlyUsableModelOption(options, i) {
      ClassifiedControl(options, i);
    }
  }

  lemma ClassifiedOption(options: seq<ConfigOption>) returns (i: nat)
    requires Classify(options).Some?
    ensures i < |options| && OnlyUsableModelOption(options, i)
  {
    ModelOptionsMembers(options);
    var found := ModelOptions(options)[0];
    assert found in options;
    i :| 0 <= i < |options| && options[i] == found;
    forall j | 0 <= j < |options| && j != i ensures !IsModelOption(options[j]) {
      if IsModelOption(options[j]) {
        TwoModelOptions(options, i, j);
      }
    }
    UsableExactly(options[i]);
  }

  /** A select is usable exactly when there is a control state for it. */
  lemma UsableExactly(option: ConfigOption)
    requires option.Select?
    ensures ControlOf(option).Some? <==> UsableSelect(option)
  {
    ShowsOwnChoice(option);
    SameModels("", Trim(option.id), Trim(option.current), Models(option.choices), Trim(option.current));
    CleanExactly(AllChoices(option.choices));
  }

  lemma CleanExactly(raw: seq<Choice>)
    ensures Clean(raw) <==>
      && (forall m :: 0 <= m < |raw| ==> IsShort(raw[m].value) && IsShort(raw[m].name))
      && (forall m, n :: 0 <= m < n < |raw| ==> Trim(raw[m].value) != Trim(raw[n].value))
  {
  }

  /** The control state says what the select shows: its trimmed id and current value,
      and its choices, trimmed and in order, as the models. */
  predicate Tells(c: Control, option: ConfigOption)
    requires option.Select?
  {
    var raw := AllChoices(option.choices);
    && c.modelOptionID == Trim(option.id) && c.currentModel == Trim(option.current)
    && |c.models| == |raw|
    && forall m :: 0 <= m < |raw| ==> c.models[m].id == Trim(raw[m].value) && c.models[m].name == Trim(raw[m].name)
  }

  /** The control state is that of the only Model option, and tells what it shows. */
  lemma ClassifiedControl(options: seq<ConfigOption>, i: nat)
    requires i < |options| && OnlyUsableModelOption(options, i)
    ensures Classify(options).Some? && Tells(Classify(options).value, options[i])
  {
    OneModelOption(options, i);
    UsableControl(options[i]);
  }

  lemma UsableControl(option: ConfigOption)
    requires UsableSelect(option)
    ensures ControlOf(option).Some? && Tells(ControlOf(option).value, option)
  {
    UsableExactly(option);
    TellsModels(option);
    assert ControlOf(option)
      == Some(Control(Trim(option.id), Trim(option.current), ModelsOf(AllChoices(option.choices))));
  }

  lemma TellsModels(option: ConfigOption)
    requires option.Select?
    ensures Tells(Control(Trim(option.id), Trim(option.current), ModelsOf(AllChoices(option.choices))), option)
  {
  }

  lemma SameModels(a: string, b: string, current: string, models: seq<SessionModel>, model: string)
    ensures Control(a, current, models).HasModel(model) == Control(b, current, models).HasModel(model)
  {
    if i :| 0 <= i < |models| && models[i].id == model {
      assert Control(a, current, models).models[i].id == model;
      assert Control(b, current, models).models[i].id == model;
    }
  }

  /** How many choices the first `g` groups hold. */
  function Before(groups: seq<seq<Choice>>, g: nat): nat
    requires g <= |groups|
  {
    if g == 0 then 0 else Before(groups, g - 1) + |groups[g - 1]|
  }

  lemma {:induction false} ConcatAt(groups: seq<seq<Choice>>, g: nat, j: nat)
    requires g < |groups| && j < |groups[g]|
    ensures Before(groups, g) + j < |Concat(groups)| && Concat(groups)[Before(groups, g) + j] == groups[g][j]
  {
    var front := groups[..|groups| - 1];
    ConcatLength(front, |front|);
    BeforePrefix(groups, front, if g < |front| then g else |front|);
    if g < |front| {
      ConcatAt(front, g, j);
    } else {
      assert front[..|front|] == front;
    }
  }

  lemma {:induction false} BeforePrefix(groups: seq<seq<Choice>>, front: seq<seq<Choice>>, g: nat)
    requires front <= groups && g <= |front|
    ensures Before(groups, g) == Before(front, g)
  {
    if g > 0 { BeforePrefix(groups, front, g - 1); }
  }

  lemma {:induction false} ConcatLength(groups: seq<seq<Choice>>, g: nat)
    requires g <= |groups|
    ensures |Concat(groups[..g])| == Before(groups, g)
  {
    if g > 0 {
      assert groups[..g][..g - 1] == groups[..g - 1];
      ConcatLength(groups, g - 1);
    }
  }

  function Plain(choices: Choices): seq<Choice> {
    if choices.ungrouped.Some? then choices.ungrouped.value else []
  }

  function Groups(choices: Choices): seq<seq<Choice>> {
    if choices.grouped.Some? then choices.grouped.value else []
  }

  /** All choices: the ungrouped ones in order, and nothing else without groups. */
  lemma PlainInOrder(choices: Choices)
    ensures |AllChoices(choices)| == |Plain(choices)| + Before(Groups(choices), |Groups(choices)|)
    ensures Plain(choices) <= AllChoices(choices)
  {
    assert Groups(choices)[..|Groups(choices)|] == Groups(choices);
    ConcatLength(Groups(choices), |Groups(choices)|);
  }

  /** Then those of one group after the other. */
  lemma GroupedInOrder(choices: Choices, g: nat, j: nat)
    requires g < |Groups(choices)| && j < |Groups(choices)[g]|
    ensures var at := |Plain(choices)| + Before(Groups(choices), g) + j;
      at < |AllChoices(choices)| && AllChoices(choices)[at] == Groups(choices)[g][j]
  {
    ConcatAt(Groups(choices), g, j);
  }

  lemma ShowsOwnChoice(option: ConfigOption)
    requires option.Select?
    ensures (Models(option.choices) != []
      && Control("", Trim(option.current), Models(option.choices)).HasModel(Trim(option.current)))
      <==> (&& |AllChoices(option.choices)| <= MaxControlModels && Clean(AllChoices(option.choices))
            && exists m :: 0 <= m < |AllChoices(option.choices)|
                 && Trim(AllChoices(option.choices)[m].value) == Trim(option.current))
  {
    var raw, models := AllChoices(option.choices), Models(option.choices);
    if |raw| <= MaxControlModels && Clean(raw) {
      assert forall m :: 0 <= m < |raw| ==> models[m].id == Trim(raw[m].value);
    }
  }

  predicate OnlyUsableModelOption(options: seq<ConfigOption>, i: nat)
    requires i < |options|
  {
    && UsableSelect(options[i]) && options[i].category == Some(Model)
    && forall j :: 0 <= j < |options| && j != i ==> options[j].Unsupported? || options[j].category != Some(Model)
  }

  /** Not blank, and at most 256 bytes once trimmed. */
  predicate IsShort(s: string) {
    !Blank(s) && ByteLength(Trim(s)) <= 256
  }

  predicate UsableSelect(option: ConfigOption) {
    && option.Select? && IsShort(option.id) && IsShort(option.current)
    && var raw := AllChoices(option.choices);
    && |raw| <= 64
    && (forall m :: 0 <= m < |raw| ==> IsShort(raw[m].value) && IsShort(raw[m].name))
    && (forall m, n :: 0 <= m < n < |raw| ==> Trim(raw[m].value) != Trim(raw[n].value))
    && exists m :: 0 <= m < |AllChoices(option.choices)|
         && Trim(AllChoices(option.choices)[m].value) == Trim(option.current)
  }

  lemma ModelOptionsMembers(options: seq<ConfigOption>)
    ensures forall o :: o in ModelOptions(options) ==> IsModelOption(o) && o in options
  {
    if options != [] {
      ModelOptionsMembers(options[..|options| - 1]);
    }
  }

  lemma {:induction false} OneModelOption(options: seq<ConfigOption>, i: nat)
    requires i < |options| && IsModelOption(options[i])
    requires forall j :: 0 <= j < |options| && j != i ==> !IsModelOption(options[j])
    ensures ModelOptions(options) == [options[i]]
  {
    var front := options[..|options| - 1];
    if i < |front| {
      OneModelOption(front, i);
    } else {
      NoModelOption(front);
    }
  }

  lemma NoModelOption(options: seq<ConfigOption>)
    requires forall j :: 0 <= j < |options| ==> !IsModelOption(options[j])
    ensures ModelOptions(options) == []
  {
  }

  lemma {:induction false} TwoModelOptions(options: seq<ConfigOption>, i: nat, j: nat)
    requires i < |options| && j < |options| && i != j
    requires IsModelOption(options[i]) && IsModelOption(options[j])
    ensures |ModelOptions(options)| >= 2
  {
    var front := options[..|options| - 1];
    if i < |front| && j < |front| {
      TwoModelOptions(front, i, j);
    } else {
      SomeModelOption(front, if i < |front| then i else j);
    }
  }

  lemma {:induction false} SomeModelOption(options: seq<ConfigOption>, i: nat)
    requires i < |options| && IsModelOption(options[i])
    ensures |ModelOptions(options)| >= 1
  {
    if i < |options| - 1 {
      SomeModelOption(options[..|options| - 1], i);
    }
  }
}
