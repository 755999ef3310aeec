/** What agents that share one session state can rely on, over any sequence of their
    writes and of resets. */
module OwnershipRuns {
  import opened Text
  import opened SessionConfig
  import opened ConfigState
  import opened Parked
  import opened Ownership

  datatype Op =
    | Write(owner: string, id: string, values: seq<ConfigValue>, flagged: bool, now: string)
    | ClearID(text: string)  // a reset: the stored session id is replaced by a blank one
    | Delete                 // a reset: the whole state goes

  /** Owner keys are never empty, and a reset leaves no session id. */
  predicate Sensible(op: Op) {
    match op
    case Write(owner, _, _, _, _) => owner != ""
    case ClearID(text) => Blank(text)
    case Delete => true
  }

  /** The state a write leaves: built, stamped and with the others parked. */
  ghost function Put(op: Op, stored: Stored): State
    requires op.Write?
  {
    Owned(op.owner, stored, Built(op.id, op.values, None, op.flagged), op.now)
  }

  ghost function After(ops: seq<Op>): Stored {
    if ops == [] then Unset
    else
      var before := After(ops[..|ops| - 1]);
      match ops[|ops| - 1]
      case Write(_, _, _, _, _) => Live(Put(ops[|ops| - 1], before))
      case ClearID(text) => if before.Live? then Live(before.state.(sessionID := Some(Txt(text)))) else before
      case Delete => Unset
  }

  // ------------------------------------------------- never a foreign session

  /** `owner` wrote `id` at some point. */
  predicate Wrote(ops: seq<Op>, owner: string, id: string) {
    exists i :: 0 <= i < |ops| && ops[i].Write? && ops[i].owner == owner && Trim(ops[i].id) == id
  }

  /** An id that is blank or was written by `owner`. */
  ghost predicate OwnID(ops: seq<Op>, owner: string, raw: Option<Any>) {
    raw.Some? && raw.value.Txt? && (Blank(raw.value.text) || Wrote(ops, owner, Trim(raw.value.text)))
  }

  ghost predicate OwnSlot(ops: seq<Op>, slots: map<string, Slot>, name: string)
    requires name in slots
  {
    name != "" && slots[name].Slot? && OwnID(ops, name, slots[name].sessionID)
  }

  /** Every id in the state was written by the owner it is filed under. */
  ghost predicate Attributed(ops: seq<Op>, stored: Stored) {
    !stored.NotAnObject? &&
    (stored.Live? ==>
      && stored.state.owner.Some? && stored.state.owner.value.Txt? && stored.state.owner.value.text != ""
      && OwnID(ops, stored.state.owner.value.text, stored.state.sessionID)
      && forall name {:trigger OwnSlot(ops, ParkedIn(stored), name)} :: name in ParkedIn(stored) ==>
           OwnSlot(ops, ParkedIn(stored), name))
  }

  lemma WroteMore(ops: seq<Op>, op: Op, owner: string, id: string)
    requires Wrote(ops, owner, id)
    ensures Wrote(ops + [op], owner, id)
  {
    var i :| 0 <= i < |ops| && ops[i].Write? && ops[i].owner == owner && Trim(ops[i].id) == id;
    assert (ops + [op])[i] == ops[i];
  }

  lemma AttributedMore(ops: seq<Op>, op: Op, stored: Stored)
    requires Attributed(ops, stored)
    ensures Attributed(ops + [op], stored)
  {
    if stored.Live? {
      forall owner, id | Wrote(ops, owner, id) ensures Wrote(ops + [op], owner, id) { WroteMore(ops, op, owner, id); }
      forall name | name in ParkedIn(stored) ensures OwnSlot(ops + [op], ParkedIn(stored), name) {
        assert OwnSlot(ops, ParkedIn(stored), name);
      }
    }
  }

  lemma CarriedAttributed(ops: seq<Op>, stored: Stored, owner: string, now: string, name: string)
    requires Attributed(ops, stored) && name in Carried(owner, stored, now)
    ensures OwnSlot(ops, Carried(owner, stored, now), name)
  {
    if name in ParkedIn(stored) { assert OwnSlot(ops, ParkedIn(stored), name); }
  }

  /** Stamping sets the owner and the parked slots, and no other field. */
  lemma StampedFields(owner: string, current: Stored, state: State, now: string)
    requires owner != "" && state.sessionID.Some?
    ensures var stamped := Owned(owner, current, state, now);
      && stamped == state.(owner := Some(Txt(owner)), parked := stamped.parked)
      && ParkedIn(Live(stamped)) == KeepNewest(Carried(owner, current, now), MaxParkedSessions)
  {
  }

  lemma WriteAttributed(ops: seq<Op>, stored: Stored, op: Op)
    requires Attributed(ops, stored) && op in ops && op.Write? && Sensible(op)
    ensures Attributed(ops, Live(Put(op, stored)))
  {
    var carried := Carried(op.owner, stored, op.now);
    StampedFields(op.owner, stored, Built(op.id, op.values, None, op.flagged), op.now);
    var kept := ParkedIn(Live(Put(op, stored)));
    forall name | name in kept ensures OwnSlot(ops, kept, name) {
      assert kept[name] == carried[name];
      CarriedAttributed(ops, stored, op.owner, op.now, name);
    }
    var i :| 0 <= i < |ops| && ops[i] == op;
    assert Wrote(ops, op.owner, Trim(op.id));
  }

  lemma {:induction false} RunAttributed(ops: seq<Op>)
    requires forall i :: 0 <= i < |ops| ==> Sensible(ops[i])
    ensures Attributed(ops, After(ops))
  {
    if ops != [] {
      var front, op := ops[..|ops| - 1], ops[|ops| - 1];
      RunAttributed(front);
      AttributedMore(front, op, After(front));
      assert ops == front + [op];
      if op.Write? {
        WriteAttributed(ops, After(front), op);
      } else if op.ClearID? && After(front).Live? {
        assert ParkedIn(After(ops)) == ParkedIn(After(front));
      }
    }
  }

  /** Where a session id that is read back can come from. */
  lemma ReadFrom(owner: string, state: State)
    requires Resolve(owner, Live(state)).Ok?
    ensures var id := Resolve(owner, Live(state)).value.sessionID;
      || id == ""
      || (id == Trim(OptionalText(state.sessionID)) && OptionalText(state.owner) in {"", owner})
      || (owner in ParkedIn(Live(state)) && ParkedIn(Live(state))[owner].Slot?
          && id == Trim(OptionalText(ParkedIn(Live(state))[owner].sessionID)))
  {
  }

  /** Main result: for any number of owners and any sequence of writes and resets,
      an owner reads back no session id, or one that it wrote itself. */
  lemma NeverForeignSession(ops: seq<Op>, owner: string)
    requires forall i :: 0 <= i < |ops| ==> Sensible(ops[i])
    ensures var r := Resolve(owner, After(ops)); r.Ok? ==>
      r.value.sessionID == "" || Wrote(ops, owner, r.value.sessionID)
  {
    RunAttributed(ops);
    AttributedRead(ops, After(ops), owner);
  }

  lemma AttributedRead(ops: seq<Op>, stored: Stored, owner: string)
    requires Attributed(ops, stored)
    ensures var r := Resolve(owner, stored); r.Ok? ==> r.value.sessionID == "" || Wrote(ops, owner, r.value.sessionID)
  {
    if stored.Live? && Resolve(owner, stored).Ok? {
      ReadFrom(owner, stored.state);
      if owner in ParkedIn(stored) {
        assert OwnSlot(ops, ParkedIn(stored), owner);
      }
    }
  }

  // ----------------------------------------------------------- stamping twice

  lemma FewStay(slots: map<string, Slot>)
    requires |slots| <= MaxParkedSessions
    ensures KeepNewest(slots, MaxParkedSessions) == slots
  {
    var kept := KeepNewest(slots, MaxParkedSessions);
    assert |kept.Keys| == |slots.Keys|;
    SubsetOfSameSize(kept.Keys, slots.Keys);
  }

  /** A state that was written is stamped once more when it is announced; that second
      stamp, at whatever time, changes nothing. */
  lemma StampingIsIdempotent(owner: string, current: Stored, state: State, now: string, later: string)
    ensures var stamped := Owned(owner, current, state, now); Owned(owner, Live(stamped), stamped, later) == stamped
  {
    if owner != "" && state != EmptyState {
      var stamped := Owned(owner, current, state, now);
      var kept := KeepNewest(Carried(owner, current, now), MaxParkedSessions);
      assert ParkedIn(Live(stamped)) == kept;
      assert Carried(owner, Live(stamped), later) == kept;
      FewStay(kept);
    }
  }

  // -------------------------------------------------------- what is read back

  /** The writes that still matter: a deletion ends all before it, and a cleared session
      id counts as if the last write had had the blank one. */
  function Effective(ops: seq<Op>): seq<Op> {
    if ops == [] then []
    else
      var e := Effective(ops[..|ops| - 1]);
      match ops[|ops| - 1]
      case Write(_, _, _, _, _) => e + [ops[|ops| - 1]]
      case ClearID(text) => if e == [] || !e[|e| - 1].Write? then e else e[..|e| - 1] + [e[|e| - 1].(id := text)]
      case Delete => []
  }

  /** Only writes, by nonempty owners. */
  predicate OnlyWrites(ops: seq<Op>) {
    forall i :: 0 <= i < |ops| ==> ops[i].Write? && ops[i].owner != ""
  }

  lemma AfterAppend(e: seq<Op>, op: Op)
    requires op.Write?
    ensures After(e + [op]) == Live(Put(op, After(e)))
  {
    assert (e + [op])[..|e|] == e;
  }

  /** Clearing the id a write stored leaves what writing a blank id would have left. */
  lemma ClearedPut(op: Op, stored: Stored, text: string)
    requires op.Write? && op.owner != ""
    ensures Put(op, stored).(sessionID := Some(Txt(text))) == Put(op.(id := text), stored)
  {
    StampedFields(op.owner, stored, Built(op.id, op.values, None, op.flagged), op.now);
    StampedFields(op.owner, stored, Built(text, op.values, None, op.flagged), op.now);
  }

  /** A run with resets leaves the state of its effective writes. */
  lemma {:induction false} EffectiveState(ops: seq<Op>)
    requires forall i :: 0 <= i < |ops| ==> Sensible(ops[i])
    ensures OnlyWrites(Effective(ops)) && After(ops) == After(Effective(ops))
  {
    if ops != [] {
      var front, op := ops[..|ops| - 1], ops[|ops| - 1];
      EffectiveState(front);
      var e := Effective(front);
      if op.Write? {
        AfterAppend(e, op);
      } else if op.ClearID? && e != [] {
        ClearedLast(e, op.text);
      }
    }
  }

  lemma ClearedLast(e: seq<Op>, text: string)
    requires OnlyWrites(e) && e != []
    ensures After(e).Live?
    ensures Live(After(e).state.(sessionID := Some(Txt(text)))) == After(e[..|e| - 1] + [e[|e| - 1].(id := text)])
  {
    var before, last := e[..|e| - 1], e[|e| - 1];
    AfterAppend(before, last.(id := text));
    ClearedPut(last, After(before), text);
  }

  function Writers(ops: seq<Op>): set<string> {
    set i | 0 <= i < |ops| && ops[i].Write? :: ops[i].owner
  }

  /** The last write of `owner`. */
  function LastWrite(ops: seq<Op>, owner: string): (w: Option<Op>)
    ensures w.Some? ==> w.value in ops && w.value.Write? && w.value.owner == owner
    ensures w.None? <==> owner !in Writers(ops)
  {
    if ops == [] then None
    else if ops[|ops| - 1].Write? && ops[|ops| - 1].owner == owner then
      assert ops[|ops| - 1].owner in Writers(ops);
      Some(ops[|ops| - 1])
    else
      assert owner in Writers(ops) <==> owner in Writers(ops[..|ops| - 1]) by { OthersWrote(ops, owner); }
      LastWrite(ops[..|ops| - 1], owner)
  }

  lemma OthersWrote(ops: seq<Op>, owner: string)
    requires ops != [] && !(ops[|ops| - 1].Write? && ops[|ops| - 1].owner == owner)
    ensures owner in Writers(ops) <==> owner in Writers(ops[..|ops| - 1])
  {
    var front := ops[..|ops| - 1];
    if owner in Writers(front) {
      var i :| 0 <= i < |front| && front[i].Write? && front[i].owner == owner;
      assert ops[i] == front[i];
    }
  }

  /** The owner's last write has a session id. */
  predicate HasID(e: seq<Op>, owner: string) {
    LastWrite(e, owner).Some? && !Blank(LastWrite(e, owner).value.id)
  }

  /** When the owner is parked: at the write after its last one. */
  function ParkedAt(e: seq<Op>, owner: string): string
    requires OnlyWrites(e)
  {
    if |e| < 2 || e[|e| - 1].owner == owner then ""
    else if e[|e| - 2].owner == owner then e[|e| - 1].now
    else ParkedAt(e[..|e| - 1], owner)
  }

  /** `a` was parked before `b`; owners parked at the same time are told apart by name. */
  predicate ParkedBefore(e: seq<Op>, a: string, b: string)
    requires OnlyWrites(e)
  {
    Less(ParkedAt(e, a), ParkedAt(e, b)) || (ParkedAt(e, a) == ParkedAt(e, b) && Less(a, b))
  }

  /** Read off the writes alone: some write since the owner's last one found eight others
      that keep their slots and were parked later. */
  predicate Displaced(e: seq<Op>, owner: string)
    requires OnlyWrites(e)
    decreases |e|, 1
  {
    e != [] && e[|e| - 1].owner != owner
    && (Displaced(e[..|e| - 1], owner) || |Ahead(e, owner)| >= MaxParkedSessions)
  }

  /** The owners that the last write, by none of them, parks or leaves parked and that
      were parked later than `owner`. */
  function Ahead(e: seq<Op>, owner: string): set<string>
    requires OnlyWrites(e) && e != []
    decreases |e|, 0
  {
    var front, op := e[..|e| - 1], e[|e| - 1];
    set other |
      other in Writers(front) && other != op.owner && Retained(front, other) && ParkedBefore(e, owner, other)
  }

  /** The owner's last write has a session id, and no later write displaced it. */
  predicate Retained(e: seq<Op>, owner: string)
    requires OnlyWrites(e)
    decreases |e|, 2
  {
    HasID(e, owner) && !Displaced(e, owner)
  }

  lemma LastRetained(e: seq<Op>)
    requires OnlyWrites(e) && e != []
    ensures LastWrite(e, e[|e| - 1].owner) == Some(e[|e| - 1])
    ensures Retained(e, e[|e| - 1].owner) <==> !Blank(e[|e| - 1].id)
  {
  }

  lemma OtherRetained(e: seq<Op>, owner: string)
    requires OnlyWrites(e) && e != [] && owner != e[|e| - 1].owner
    ensures LastWrite(e, owner) == LastWrite(e[..|e| - 1], owner)
    ensures Retained(e, owner) <==> Retained(e[..|e| - 1], owner) && |Ahead(e, owner)| < MaxParkedSessions
  {
  }

  /** The slot holds what `op` wrote. */
  ghost predicate Holds(slot: Slot, op: Op)
    requires op.Write?
  {
    && slot.Slot? && slot.sessionID == Some(Txt(op.id))
    && slot.configValues == PrintedOrNone(Normalize(op.values))
    && slot.indeterminate == (if op.flagged then Some(Flag(true)) else None)
  }

  /** There is a slot exactly for what is `retained`, and it holds the write `w`. */
  ghost predicate Keeps(slots: map<string, Slot>, owner: string, retained: bool, w: Option<Op>)
    requires w.Some? ==> w.value.Write?
  {
    if retained then w.Some? && owner in slots && Holds(slots[owner], w.value) else owner !in slots
  }

  ghost predicate Remembers(ops: seq<Op>, slots: map<string, Slot>, owner: string)
    requires OnlyWrites(ops)
  {
    Keeps(slots, owner, Retained(ops, owner), LastWrite(ops, owner))
  }

  /** The state's own fields are those of `op`. */
  ghost predicate Records(state: State, op: Op)
    requires op.Write?
  {
    && state.owner == Some(Txt(op.owner)) && state.meta == None && state.modelOption == None
    && state.sessionID == Some(Txt(op.id))
    && state.configValues == PrintedOrNone(Normalize(op.values))
    && state.indeterminate == (if op.flagged then Some(Flag(true)) else None)
  }

  /** The state shows the last write, and remembers every other owner. */
  ghost predicate AllKept(ops: seq<Op>, stored: Stored)
    requires OnlyWrites(ops)
  {
    if ops == [] then stored == Unset
    else
      var last := ops[|ops| - 1];
      && stored.Live? && Records(stored.state, last)
      && last.owner !in ParkedIn(stored)
      && forall owner {:trigger Remembers(ops, ParkedIn(stored), owner)} :: owner != last.owner ==>
           Remembers(ops, ParkedIn(stored), owner)
  }

  lemma ParseStored(values: seq<ConfigValue>)
    ensures PrintedOrNone(Normalize(values)).Some? ==>
      Parse(PrintedOrNone(Normalize(values)).value) == Ok(Normalize(values))
  {
    PrintParseRoundTrip(values);
  }

  /** A write parked for its owner keeps its id, values and flag. */
  lemma SlotHolds(state: State, op: Op, now: string)
    requires op.Write? && Records(state, op)
    ensures Holds(SlotFor(state, now), op)
  {
    ParseStored(op.values);
  }

  lemma PutRecords(op: Op, stored: Stored)
    requires op.Write? && op.owner != ""
    ensures Records(Put(op, stored), op)
    ensures ParkedIn(Live(Put(op, stored))) == KeepNewest(Carried(op.owner, stored, op.now), MaxParkedSessions)
    ensures op.owner !in ParkedIn(Live(Put(op, stored)))
  {
    StampedFields(op.owner, stored, Built(op.id, op.values, None, op.flagged), op.now);
  }

  /** What `op` wrote, as its owner reads it. */
  function ReadBack(op: Op): Resolved
    requires op.Write?
  {
    Resolved(Trim(op.id), Normalize(op.values), op.flagged)
  }

  lemma ResolveOwn(state: State, op: Op)
    requires op.Write? && Records(state, op)
    ensures Resolve(op.owner, Live(state)) == Ok(ReadBack(op))
  {
    ParseStored(op.values);
  }

  lemma ResolveParked(state: State, last: Op, owner: string, op: Op)
    requires last.Write? && Records(state, last) && last.owner != "" && last.owner != owner && !Blank(last.id)
    requires op.Write? && owner in ParkedIn(Live(state)) && Holds(ParkedIn(Live(state))[owner], op) && !Blank(op.id)
    ensures Resolve(owner, Live(state)) == Ok(ReadBack(op))
  {
    ParseStored(last.values);
    ParseStored(op.values);
  }

  lemma ResolveUnparked(state: State, last: Op, owner: string)
    requires last.Write? && Records(state, last) && last.owner != "" && last.owner != owner
    requires owner !in ParkedIn(Live(state))
    ensures Resolve(owner, Live(state)) == Ok(Nothing)
  {
    ParseStored(last.values);
  }

  lemma WritersGrow(ops: seq<Op>)
    requires ops != [] && ops[|ops| - 1].Write?
    ensures Writers(ops) == Writers(ops[..|ops| - 1]) + {ops[|ops| - 1].owner}
  {
    var front, op := ops[..|ops| - 1], ops[|ops| - 1];
    forall owner ensures owner in Writers(ops) <==> owner in Writers(front) || owner == op.owner {
      if owner in Writers(front) {
        var i :| 0 <= i < |front| && front[i].Write? && front[i].owner == owner;
        assert ops[i] == front[i];
      }
    }
  }

  /** The last writer's slot joins those there were, unless its id is blank. */
  lemma CarriedKeeps(stored: Stored, last: Op, owner: string, now: string, other: string, retained: bool, w: Option<Op>)
    requires last.Write? && last.owner != "" && stored.Live? && Records(stored.state, last)
    requires last.owner !in ParkedIn(stored) && other != owner && (w.Some? ==> w.value.Write?)
    requires if other == last.owner then w == Some(last) && (retained <==> !Blank(last.id))
             else Keeps(ParkedIn(stored), other, retained, w)
    ensures Keeps(Carried(owner, stored, now), other, retained, w)
  {
    if other == last.owner {
      SlotHolds(stored.state, last, now);
    }
  }

  lemma CarriedRemembers(ops: seq<Op>, stored: Stored, owner: string, now: string, other: string)
    requires OnlyWrites(ops) && ops != [] && AllKept(ops, stored) && other != owner
    ensures Remembers(ops, Carried(owner, stored, now), other)
  {
    var last := ops[|ops| - 1];
    if other == last.owner {
      LastRetained(ops);
    } else {
      assert Remembers(ops, ParkedIn(stored), other);
    }
    CarriedKeeps(stored, last, owner, now, other, Retained(ops, other), LastWrite(ops, other));
  }

  // --------------------------------------------------------- who is displaced

  /** A slot is dropped exactly when there are enough newer ones. */
  lemma DroppedExactly(slots: map<string, Slot>, limit: nat, name: string)
    requires name in slots
    ensures name !in KeepNewest(slots, limit) <==> |Newer(slots, name)| >= limit
  {
    var kept, newer := KeepNewest(slots, limit), Newer(slots, name);
    if name in kept {
      forall k | k in newer ensures k in kept - {name} {
        if k !in kept { OlderAsymmetric(slots, name, k); }
        OlderTotal(slots, name, k);
      }
      SubsetOfSameSize(newer, kept.Keys - {name});
    } else {
      if |slots| <= limit { SubsetOfSameSize(kept.Keys, slots.Keys); }
      SubsetOfSameSize(kept.Keys, newer);
    }
  }

  function Newer(slots: map<string, Slot>, name: string): set<string>
    requires name in slots
  {
    set k | k in slots && Older(slots, name, k)
  }

  /** The slot of the last writer gets the time of the stamp; the others keep theirs. */
  lemma CarriedAt(stored: Stored, last: Op, owner: string, now: string, name: string)
    requires last.Write? && stored.Live? && Records(stored.state, last) && last.owner !in ParkedIn(stored)
    requires name in Carried(owner, stored, now)
    ensures name != last.owner ==> name in ParkedIn(stored)
    ensures Carried(owner, stored, now)[name].At() == if name == last.owner then now else ParkedIn(stored)[name].At()
  {
  }

  /** Every parked slot has the time its owner was parked at. */
  ghost predicate Stamped(e: seq<Op>, slots: map<string, Slot>)
    requires OnlyWrites(e)
  {
    forall name :: name in slots ==> slots[name].At() == ParkedAt(e, name)
  }

  lemma CarriedStamped(e: seq<Op>)
    requires OnlyWrites(e) && e != [] && Stamped(e[..|e| - 1], ParkedIn(After(e[..|e| - 1])))
    ensures var op := e[|e| - 1]; Stamped(e, Carried(op.owner, After(e[..|e| - 1]), op.now))
  {
    var front, op := e[..|e| - 1], e[|e| - 1];
    if front != [] {
      var last, stored := front[|front| - 1], After(front);
      PutRecords(last, After(front[..|front| - 1]));
      assert last == e[|e| - 2];
      forall name | name in Carried(op.owner, stored, op.now)
        ensures Carried(op.owner, stored, op.now)[name].At() == ParkedAt(e, name)
      {
        CarriedAt(stored, last, op.owner, op.now, name);
      }
    }
  }

  lemma {:induction false} RunStamps(e: seq<Op>)
    requires OnlyWrites(e)
    ensures Stamped(e, ParkedIn(After(e)))
  {
    if e != [] {
      RunStamps(e[..|e| - 1]);
      CarriedStamped(e);
      PutRecords(e[|e| - 1], After(e[..|e| - 1]));
    }
  }

  /** The slots carried forward are those of the owners retained so far. */
  lemma CarriedExactly(e: seq<Op>, stored: Stored, owner: string, now: string)
    requires OnlyWrites(e) && AllKept(e, stored)
    ensures forall other :: other in Carried(owner, stored, now) <==> other != owner && Retained(e, other)
  {
    forall other ensures other in Carried(owner, stored, now) <==> other != owner && Retained(e, other) {
      if e != [] && other != owner {
        CarriedRemembers(e, stored, owner, now, other);
      }
    }
  }

  lemma NewerAreAhead(e: seq<Op>, owner: string)
    requires OnlyWrites(e) && e != [] && AllKept(e[..|e| - 1], After(e[..|e| - 1]))
    requires var op := e[|e| - 1]; owner in Carried(op.owner, After(e[..|e| - 1]), op.now)
    ensures var op := e[|e| - 1]; Newer(Carried(op.owner, After(e[..|e| - 1]), op.now), owner) == Ahead(e, owner)
  {
    var front, op := e[..|e| - 1], e[|e| - 1];
    var carried := Carried(op.owner, After(front), op.now);
    CarriedExactly(front, After(front), op.owner, op.now);
    RunStamps(front);
    CarriedStamped(e);
  }

  lemma StillRemembers(ops: seq<Op>, stored: Stored, owner: string)
    requires ops != [] && OnlyWrites(ops) && stored == After(ops[..|ops| - 1]) && AllKept(ops[..|ops| - 1], stored)
    requires owner != ops[|ops| - 1].owner
    ensures Remembers(ops, ParkedIn(Live(Put(ops[|ops| - 1], stored))), owner)
  {
    var front, op := ops[..|ops| - 1], ops[|ops| - 1];
    var carried := Carried(op.owner, stored, op.now);
    PutRecords(op, stored);
    CarriedExactly(front, stored, op.owner, op.now);
    OtherRetained(ops, owner);
    if front != [] { CarriedRemembers(front, stored, op.owner, op.now, owner); }
    if owner in carried {
      NewerAreAhead(ops, owner);
      DroppedExactly(carried, MaxParkedSessions, owner);
    }
    StillKept(carried, owner, Retained(front, owner), Retained(ops, owner), LastWrite(ops, owner));
  }

  lemma StillKept(carried: map<string, Slot>, owner: string, before: bool, retained: bool, w: Option<Op>)
    requires w.Some? ==> w.value.Write?
    requires Keeps(carried, owner, before, w)
    requires retained <==> before && owner in KeepNewest(carried, MaxParkedSessions)
    ensures Keeps(KeepNewest(carried, MaxParkedSessions), owner, retained, w)
  {
  }

  lemma {:induction false} RunKeeps(ops: seq<Op>)
    requires OnlyWrites(ops)
    ensures AllKept(ops, After(ops))
  {
    if ops != [] {
      var front, op := ops[..|ops| - 1], ops[|ops| - 1];
      RunKeeps(front);
      PutRecords(op, After(front));
      forall owner | owner != op.owner ensures Remembers(ops, ParkedIn(After(ops)), owner) {
        StillRemembers(ops, After(front), owner);
      }
    }
  }
}
