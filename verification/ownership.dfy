/** Several agents sharing one session state: who owns the remote session id in it,
    what is parked for the others, and what each of them reads back. */
module Ownership {
  import opened Text
  import opened SessionConfig
  import opened ConfigState
  import opened Parked

  datatype ParkedField = Slots(slots: map<string, Slot>) | NotSlots

  /** The fields of the stored object that matter here; each may be missing.
      `modelOption` is the option id of a control snapshot an older version stored. */
  datatype State = State(
    sessionID: Option<Any>,
    configValues: Option<Any>,
    indeterminate: Option<Any>,
    modelOption: Option<string>,
    meta: Option<Any>,
    owner: Option<Any>,
    parked: Option<ParkedField>)

  const EmptyState := State(None, None, None, None, None, None, None)

  datatype Stored = Unset | NotAnObject | Live(state: State)

  function OptionalText(a: Option<Any>): string {
    if a.Some? then TextOf(a.value) else ""
  }

  predicate OptionalFlag(a: Option<Any>) {
    a.Some? && IsSet(a.value)
  }

  function PrintedOrNone(values: seq<ConfigValue>): Option<Any> {
    if values == [] then None else Some(Objects(PrintEach(values)))
  }

  /** The state written for a session, before it is stamped. */
  function Built(id: string, values: seq<ConfigValue>, meta: Option<Any>, flagged: bool): State {
    State(
      Some(Txt(id)), PrintedOrNone(Normalize(values)), if flagged then Some(Flag(true)) else None,
      None, meta, None, None)
  }

  function WithoutID(values: seq<ConfigValue>, id: string): seq<ConfigValue> {
    if values == [] then []
    else
      var rest, last := WithoutID(values[..|values| - 1], id), values[|values| - 1];
      if last.id == id then rest else rest + [last]
  }

  function WithoutModel(values: seq<ConfigValue>, modelOption: Option<string>): seq<ConfigValue> {
    if modelOption.Some? then WithoutID(Normalize(values), modelOption.value) else Normalize(values)
  }

  // ------------------------------------------------------------------- stamp

  function ParkedIn(current: Stored): map<string, Slot> {
    if current.Live? && current.state.parked.Some? && current.state.parked.value.Slots?
    then current.state.parked.value.slots
    else map[]
  }

  predicate MustPark(current: Stored, owner: string) {
    && current.Live?
    && OptionalText(current.state.owner) != "" && OptionalText(current.state.owner) != owner
    && !Blank(OptionalText(current.state.sessionID))
  }

  function SlotFor(state: State, now: string): Slot {
    var values :=
      if state.configValues.Some? && Parse(state.configValues.value).Ok? then
        WithoutModel(Parse(state.configValues.value).value, state.modelOption)
      else [];
    Slot(
      Some(Txt(OptionalText(state.sessionID))),
      if values == [] then None else Some(Objects(PrintEach(Normalize(values)))),
      if OptionalFlag(state.indeterminate) then Some(Flag(true)) else None,
      Some(Txt(now)))
  }

  /** The slots to carry forward, before their number is bounded. */
  function Carried(owner: string, current: Stored, now: string): map<string, Slot> {
    var parked := ParkedIn(current);
    (if MustPark(current, owner) then parked[OptionalText(current.state.owner) := SlotFor(current.state, now)]
      else parked) - {owner}
  }

  ghost function Owned(owner: string, current: Stored, state: State, now: string): State {
    if owner == "" || state == EmptyState then state
    else
      var kept := KeepNewest(Carried(owner, current, now), MaxParkedSessions);
      state.(owner := Some(Txt(owner)), parked := if kept == map[] then None else Some(Slots(kept)))
  }

  /** The stamp. A stored state may hold a slot with an empty name; then which of the
      slots are dropped depends on the order of iteration, but nothing else does. */
  method OwnedState(owner: string, current: Stored, state: State, now: string) returns (stamped: State)
    ensures if owner == "" || state == EmptyState then stamped == state
      else
        && stamped == state.(owner := Some(Txt(owner)), parked := stamped.parked)
        && BoundedPart(stamped.parked, Carried(owner, current, now))
    ensures "" !in Carried(owner, current, now) ==> stamped == Owned(owner, current, state, now)
  {
    if owner == "" || state == EmptyState {
      return state;
    }
    var parked: map<string, Slot> := map[];
    if current.Live? {
      if current.state.parked.Some? && current.state.parked.value.Slots? {
        parked := current.state.parked.value.slots;
      }
      var currentOwner, currentID := OptionalText(current.state.owner), OptionalText(current.state.sessionID);
      if currentOwner != "" && currentOwner != owner && Trim(currentID) != "" {
        var slot := MakeSlot(current.state, currentID, now);
        parked := parked[currentOwner := slot];
      }
    }
    parked := parked - {owner};
    ghost var carried := parked;
    parked := DropOldestParked(parked, MaxParkedSessions);
    if "" !in carried {
      NewestUnique(carried, MaxParkedSessions, parked, KeepNewest(carried, MaxParkedSessions));
    }
    stamped := state.(owner := Some(Txt(owner)));
    if |parked| > 0 {
      stamped := stamped.(parked := Some(Slots(parked)));
    } else {
      stamped := stamped.(parked := None);
    }
  }

  /** The field holds some of the slots, all of them unless there are too many, and is
      left out when there are none. */
  predicate BoundedPart(field: Option<ParkedField>, carried: map<string, Slot>) {
    if field.None? then carried == map[]
    else
      && field.value.Slots? && var kept := field.value.slots;
      && |kept| == (if |carried| <= MaxParkedSessions then |carried| else MaxParkedSessions) > 0
      && kept.Keys <= carried.Keys && forall name :: name in kept ==> kept[name] == carried[name]
  }

  method MakeSlot(state: State, id: string, now: string) returns (slot: Slot)
    requires id == OptionalText(state.sessionID)
    ensures slot == SlotFor(state, now)
  {
    slot := Slot(Some(Txt(id)), None, None, None);
    if state.configValues.Some? {
      var parsed := ParseValues(state.configValues.value);
      if parsed.Ok? {
        var values := WithoutModel(parsed.value, state.modelOption);
        if |values| > 0 {
          var printed := PrintValues(values);
          slot := slot.(configValues := Some(printed));
        }
      }
    }
    if OptionalFlag(state.indeterminate) {
      slot := slot.(indeterminate := Some(Flag(true)));
    }
    slot := slot.(parkedAt := Some(Txt(now)));
  }

  // ----------------------------------------------------------------- resolve

  datatype Resolved = Resolved(sessionID: string, configValues: seq<ConfigValue>, indeterminate: bool)

  datatype ResolveError = BadState | BadMeta | BadSessionID | BadConfigValues(error: ParseError) | BadOwner

  const Nothing := Resolved("", [], false)

  /** Drops what belongs to another agent, and restores what is parked for this one. */
  function Foreign(owner: string, cfg: Resolved, state: State): Result<Resolved, ResolveError> {
    if state.owner.Some? && !state.owner.value.Txt? then Err(BadOwner)
    else if OptionalText(state.owner) == "" || OptionalText(state.owner) == owner then Ok(cfg)
    else if Blank(OptionalText(state.sessionID)) then Ok(Nothing)
    else if owner !in ParkedIn(Live(state)) || !ParkedIn(Live(state))[owner].Slot? then Ok(Nothing)
    else
      var slot := ParkedIn(Live(state))[owner];
      if Blank(OptionalText(slot.sessionID)) then Ok(Nothing)
      else if slot.configValues.Some? && Parse(slot.configValues.value).Err? then Ok(Nothing)
      else
        Ok(Resolved(
          Trim(OptionalText(slot.sessionID)),
          if slot.configValues.Some? then Parse(slot.configValues.value).value else [],
          OptionalFlag(slot.indeterminate)))
  }

  method ApplyForeignOwnership(owner: string, resolved: Resolved, state: State)
    returns (r: Result<Resolved, ResolveError>)
    ensures r == Foreign(owner, resolved, state)
  {
    var cfg := resolved;
    var stateOwner := "";
    if state.owner.Some? {
      if !state.owner.value.Txt? {
        return Err(BadOwner);
      }
      stateOwner := state.owner.value.text;
    }
    if stateOwner == "" || stateOwner == owner {
      return Ok(cfg);
    }
    cfg := cfg.(sessionID := "");
    cfg := cfg.(configValues := []);
    cfg := cfg.(indeterminate := false);
    if Blank(OptionalText(state.sessionID)) {
      return Ok(cfg);
    }
    if state.parked.None? || !state.parked.value.Slots? || owner !in state.parked.value.slots
      || !state.parked.value.slots[owner].Slot? {
      return Ok(cfg);
    }
    var slot := state.parked.value.slots[owner];
    if Blank(OptionalText(slot.sessionID)) {
      return Ok(cfg);
    }
    var values := [];
    if slot.configValues.Some? {
      var parsed := ParseValues(slot.configValues.value);
      if parsed.Err? {
        return Ok(cfg);
      }
      values := parsed.value;
    }
    cfg := cfg.(sessionID := Trim(OptionalText(slot.sessionID)));
    cfg := cfg.(configValues := values);
    cfg := cfg.(indeterminate := OptionalFlag(slot.indeterminate));
    return Ok(cfg);
  }

  function Resolve(owner: string, stored: Stored): Result<Resolved, ResolveError> {
    match stored
    case Unset => Ok(Nothing)
    case NotAnObject => Err(BadState)
    case Live(state) =>
      if state.meta.Some? && !state.meta.value.Object? then Err(BadMeta)
      else if state.sessionID.Some? && !state.sessionID.value.Txt? then Err(BadSessionID)
      else if state.configValues.Some? && Parse(state.configValues.value).Err? then
        Err(BadConfigValues(Parse(state.configValues.value).error))
      else
        Foreign(owner, Resolved(
          Trim(OptionalText(state.sessionID)),
          if state.configValues.Some? then Parse(state.configValues.value).value else [],
          OptionalFlag(state.indeterminate)), state)
  }

  // ------------------------------------------------------ states of any kind

  lemma {:induction false} WithoutIDLast(values: seq<ConfigValue>, id: string, other: string)
    ensures Last(WithoutID(values, id), other) == if other == id then None else Last(values, other)
  {
    if values != [] {
      var front, last := values[..|values| - 1], values[|values| - 1];
      WithoutIDLast(front, id, other);
      LastIndexAppend(WithoutID(front, id), last, other);
      FrontAndLast(values);
      LastIndexAppend(front, last, other);
    }
  }

  /** Which slots a stamp carries forward: those that are parked already, but not the
      writer's own; and the current session in the name of its owner, if it has a session
      id and an owner and that is not the writer. A state without owner is not parked. */
  lemma CarriedSlots(owner: string, current: Stored, now: string, name: string)
    ensures var parks := && current.Live? && OptionalText(current.state.owner) == name != ""
                         && !Blank(OptionalText(current.state.sessionID));
      && (name in Carried(owner, current, now) <==> name != owner && (parks || name in ParkedIn(current)))
      && (name in Carried(owner, current, now) ==>
            Carried(owner, current, now)[name] ==
              if parks then SlotFor(current.state, now) else ParkedIn(current)[name])
  {
  }

  /** Every field of the state can be read: a meta object, a text id, a list of values and
      a text owner, as far as they are there. */
  predicate Readable(state: State) {
    && (state.meta.Some? ==> state.meta.value.Object?)
    && (state.sessionID.Some? ==> state.sessionID.value.Txt?)
    && (state.configValues.Some? ==> Parse(state.configValues.value).Ok?)
    && (state.owner.Some? ==> state.owner.value.Txt?)
  }

  /** The state's own fields, as they are read by the agent they belong to. */
  function OwnFields(state: State): Resolved
    requires state.configValues.Some? ==> Parse(state.configValues.value).Ok?
  {
    Resolved(
      Trim(OptionalText(state.sessionID)),
      if state.configValues.Some? then Parse(state.configValues.value).value else [],
      OptionalFlag(state.indeterminate))
  }

  /** Any stored state: it is refused exactly when something in it cannot be read; a state
      without owner is everybody's; and to whom a state is foreign a damaged slot, a slot
      without id, or no slot at all reads as nothing, without an error. */
  lemma ResolvesExactly(owner: string, stored: Stored)
    ensures Resolve(owner, stored).Err? <==> stored.NotAnObject? || (stored.Live? && !Readable(stored.state))
    ensures stored == Unset ==> Resolve(owner, stored) == Ok(Nothing)
    ensures stored.Live? && Readable(stored.state) ==>
      var at, slots := OptionalText(stored.state.owner), ParkedIn(stored);
      if at == "" || at == owner then Resolve(owner, stored) == Ok(OwnFields(stored.state))
      else if !Blank(OptionalText(stored.state.sessionID)) && owner in slots && IsIntact(slots[owner]) then
        Resolve(owner, stored) == Ok(SlotFields(slots[owner]))
      else Resolve(owner, stored) == Ok(Nothing)
  {
  }

  /** The slot has a session id, and values that can be read if it has any. */
  predicate IsIntact(slot: Slot) {
    && slot.Slot? && !Blank(OptionalText(slot.sessionID))
    && (slot.configValues.Some? ==> Parse(slot.configValues.value).Ok?)
  }

  function SlotFields(slot: Slot): Resolved
    requires IsIntact(slot)
  {
    Resolved(
      Trim(OptionalText(slot.sessionID)),
      if slot.configValues.Some? then Parse(slot.configValues.value).value else [],
      OptionalFlag(slot.indeterminate))
  }

  /** What is parked of any current state that belongs to another agent and has a session:
      read back later it is what that agent would have read before, less the value of the
      model option that an older version noted. */
  lemma ParkedAsRead(state: State, now: string)
    requires Readable(state) && !Blank(OptionalText(state.sessionID))
    ensures IsIntact(SlotFor(state, now)) && SlotFor(state, now).At() == now
    ensures SlotFields(SlotFor(state, now)) ==
      OwnFields(state).(configValues := WithoutModel(OwnFields(state).configValues, state.modelOption))
  {
    var values := WithoutModel(OwnFields(state).configValues, state.modelOption);
    WithoutModelNormal(OwnFields(state).configValues, state.modelOption);
    PrintParseRoundTrip(values);
  }

  lemma {:induction false} WithoutIDNormal(values: seq<ConfigValue>, id: string)
    requires AllNormal(values)
    ensures AllNormal(WithoutID(values, id))
  {
    if values != [] { WithoutIDNormal(values[..|values| - 1], id); }
  }

  lemma WithoutModelNormal(values: seq<ConfigValue>, modelOption: Option<string>)
    ensures AllNormal(WithoutModel(values, modelOption))
  {
    if modelOption.Some? { WithoutIDNormal(Normalize(values), modelOption.value); }
  }
}
