/** The model registry as the adapter runs it: a map of mutable entries, admissions
    that point into it, and one locked section per method. Every method is proved
    to take the step that `RegistrySpec` defines. */
module ModelRegistryClass {
  import opened Text
  import opened Descriptor
  import opened RegistrySpec

  datatype AdmissionError = ContextDone | NoIdentity | ClientClosed | RegistryFull | SessionBusy

  class EntryCell {
    const entryToken: nat
    const insertSequence: nat
    var attachmentToken: nat
    var attachmentID: string
    var refs: nat
    var busy: bool
    var liveDesired: string
    var control: Option<Control>
    var controlToken: nat

    ghost function View(): Entry
      reads this
    {
      Entry(entryToken, insertSequence, attachmentToken, attachmentID, refs, busy, liveDesired, control, controlToken)
    }

    constructor (entryToken: nat, insertSequence: nat)
      ensures View() == Entry(entryToken, insertSequence, 1, "", 0, false, "", None, 0)
    {
      this.entryToken, this.insertSequence := entryToken, insertSequence;
      attachmentToken, attachmentID := 1, "";
      refs, busy, liveDesired := 0, false, "";
      control, controlToken := None, 0;
    }

    method Reference()
      modifies this
      ensures View() == old(View()).Acquired()
    {
      busy := true;
      refs := refs + 1;
    }

    method Unreference()
      modifies this
      ensures View() == old(View()).Released()
    {
      if refs > 0 {
        refs := refs - 1;
      }
      busy := false;
    }

    /** The body of the holder's locked section. */
    method Apply(construction: string, action: Action) returns (outcome: Outcome)
      requires !action.Release?
      modifies this
      ensures (View(), outcome) == ActOn(old(View()), construction, action)
    {
      outcome := Accepted;
      match action
      case Release =>
      case Replace(remoteID) =>
        attachmentToken := attachmentToken + 1;
        attachmentID := remoteID;
        control := None;
        controlToken := 0;
      case Invalidate =>
        attachmentToken := attachmentToken + 1;
        attachmentID := "";
        control := None;
        controlToken := 0;
      case ConfirmControl(verified, attachment) =>
        if attachment != attachmentToken {
          return Stale;
        }
        control := verified;
        controlToken := attachment;
      case Observe(seen) =>
        control := seen;
        controlToken := attachmentToken;
      case Unverify =>
        control := None;
        controlToken := 0;
      case Confirm(model, attachment) =>
        if attachment != attachmentToken {
          return Stale;
        }
        if model == construction {
          liveDesired := "";
        } else {
          liveDesired := model;
        }
    }
  }

  class Admission {
    const registry: ModelRegistry
    const key: SessionKey
    const entry: EntryCell
    const token: nat
    var released: bool

    constructor (registry: ModelRegistry, key: SessionKey, entry: EntryCell, token: nat)
      ensures this.registry == registry && this.key == key && this.entry == entry && this.token == token && !released
    {
      this.registry, this.key, this.entry, this.token, released := registry, key, entry, token, false;
    }

    /** Runs at most once; further calls change nothing. */
    method Release()
      requires registry.Valid() && (released || registry.Holds(this))
      modifies registry`entries, registry`holder, registry`state, entry, this
      ensures registry.Valid() && released
      ensures old(released) ==> registry.holder == old(registry.holder) && registry.state == old(registry.state)
      ensures !old(released) ==> registry.holder == old(registry.holder) - {key}
      ensures !old(released) ==> registry.state == ReleaseStep(old(registry.state), key)
    {
      if released {
        return;
      }
      released := true;
      registry.ReleaseEntry(this);
    }

    /** Any other use the holder makes of its admission. */
    method Act(construction: string, action: Action) returns (outcome: Outcome)
      requires registry.Valid() && registry.Holds(this) && !action.Release?
      modifies registry`state, entry
      ensures registry.Valid()
      ensures (registry.state, outcome) == ActStep(old(registry.state), construction, key, action)
    {
      registry.HeldEntry(this);
      outcome := registry.ApplyAt(key, entry, construction, action);
      registry.Acted(this, construction, action);
    }

    method Desired(construction: string) returns (model: string)
      requires registry.Valid() && registry.Holds(this)
      ensures model == registry.state.entries[key].Desired(construction)
    {
      registry.HeldEntry(this);
      if entry.liveDesired != "" {
        return entry.liveDesired;
      }
      return construction;
    }

    method Observed() returns (control: Option<Control>)
      requires registry.Valid() && registry.Holds(this)
      ensures control == registry.state.entries[key].Observed()
    {
      registry.HeldEntry(this);
      if entry.controlToken != entry.attachmentToken {
        return None;
      }
      return entry.control;
    }
  }

  ghost predicate Owned(entries: map<SessionKey, EntryCell>, cells: set<EntryCell>) {
    forall k :: k in entries ==> entries[k] in cells
  }

  ghost predicate Mirrors(entries: map<SessionKey, EntryCell>, cells: set<EntryCell>, t: map<SessionKey, Entry>)
    requires Owned(entries, cells)
    reads cells
  {
    t.Keys == entries.Keys && forall k {:trigger Agree(entries, t, k)} :: k in entries ==> Agree(entries, t, k)
  }

  ghost predicate Agree(entries: map<SessionKey, EntryCell>, t: map<SessionKey, Entry>, k: SessionKey)
    requires k in entries && k in t
    reads entries[k]
  {
    entries[k].View() == t[k]
  }

  /** Each holder's admission points at the entry mapped at its key. */
  ghost predicate HoldersFit(
      r: ModelRegistry, holder: map<SessionKey, Admission>, entries: map<SessionKey, EntryCell>)
  {
    forall k {:trigger Fits(r, holder, entries, k)} :: k in holder ==> Fits(r, holder, entries, k)
  }

  ghost predicate Fits(r: ModelRegistry, holder: map<SessionKey, Admission>, entries: map<SessionKey, EntryCell>,
      k: SessionKey)
    requires k in holder
  {
    && k in entries && holder[k].key == k && holder[k].registry == r
    && holder[k].entry == entries[k] && holder[k].token == entries[k].entryToken
  }

  class ModelRegistry {
    var entries: map<SessionKey, EntryCell>
    var nextEntryToken: nat
    var nextSequence: nat
    var closed: bool
    ghost var state: Registry  // what the fields and entries amount to
    ghost var holder: map<SessionKey, Admission>  // the unreleased admission of each held key
    ghost var cells: set<EntryCell>  // every entry object ever mapped

    ghost predicate Valid()
      reads this, cells
      ensures Valid() ==> Owns()
    {
      Owns() && Inv(state) && Amounts(state) && HeldBy(state.held)
    }

    ghost predicate Owns()
      reads this`entries, this`cells
    {
      Owned(entries, cells)
    }

    /** The fields and entries amount to `t`. */
    ghost predicate Amounts(t: Registry)
      requires Owns()
      reads this`entries, this`nextEntryToken, this`nextSequence, this`closed, this`cells, cells
    {
      && Mirrors(entries, cells, t.entries)
      && t.nextEntryToken == nextEntryToken && t.nextSequence == nextSequence && t.closed == closed
    }

    ghost predicate Holds(a: Admission)
      reads this`holder
    {
      a.key in holder && holder[a.key] == a
    }

    /** `holder` maps each of `keys` to an admission for the entry mapped there. */
    ghost predicate HeldBy(keys: set<SessionKey>)
      reads this`holder, this`entries
    {
      keys == holder.Keys && HoldersFit(this, holder, entries)
    }

    constructor ()
      ensures Valid() && fresh(cells) && state == Empty
    {
      entries, nextEntryToken, nextSequence, closed := map[], 0, 0, false;
      state, holder, cells := Empty, map[], {};
    }

    lemma DistinctEntries(key: SessionKey)
      requires Owns() && Inv(state) && Amounts(state) && key in entries
      ensures forall k :: k in entries && k != key ==> entries[k] != entries[key]
    {
      forall k | k in entries && k != key ensures entries[k] != entries[key] {
        assert Apart(state.entries, k, key) && Agree(entries, state.entries, k) && Agree(entries, state.entries, key);
      }
    }

    lemma HeldEntry(a: Admission)
      requires Valid() && Holds(a)
      ensures a.key in state.held && a.key in entries && a.key in state.entries && EntryOk(state, a.key)
      ensures a.entry == entries[a.key] && a.token == a.entry.entryToken && state.entries[a.key] == a.entry.View()
      ensures forall k :: k in entries && k != a.key ==> entries[k] != a.entry
    {
      assert EntryOk(state, a.key) && Agree(entries, state.entries, a.key) && Fits(this, holder, entries, a.key);
      DistinctEntries(a.key);
    }

    /** Brings the ghost state up to date. */
    ghost method Settle(t: Registry)
      requires Owns() && Inv(t) && Amounts(t) && HeldBy(t.held)
      modifies this`state
      ensures Valid() && state == t
    {
      state := t;
    }

    /** As `Settle`, after the holder's action on its own entry. */
    ghost method Acted(a: Admission, construction: string, action: Action)
      requires Owns() && Inv(state) && HeldBy(state.held)
      requires Holds(a) && !action.Release? && a.key in state.entries
      requires Amounts(state.(entries := state.entries[a.key := ActOn(state.entries[a.key], construction, action).0]))
      modifies this`state
      ensures Valid() && state == ActStep(old(state), construction, a.key, action).0
    {
      ActKeepsInv(state, construction, a.key, action);
      Settle(ActStep(state, construction, a.key, action).0);
    }

    method ApplyAt(key: SessionKey, entry: EntryCell, construction: string, action: Action) returns (outcome: Outcome)
      requires Owns() && Amounts(state) && key in entries && entries[key] == entry && !action.Release?
      requires forall k :: k in entries && k != key ==> entries[k] != entry
      modifies entry
      ensures Owns()
        && Amounts(state.(entries := state.entries[key := ActOn(state.entries[key], construction, action).0]))
      ensures outcome == ActOn(state.entries[key], construction, action).1
    {
      assert Agree(entries, state.entries, key);
      outcome := entry.Apply(construction, action);
      ghost var t := state.entries[key := ActOn(state.entries[key], construction, action).0];
      forall k | k in entries ensures Agree(entries, t, k) { assert old(Agree(entries, state.entries, k)); }
    }

    /** The evictable entry inserted first, whatever order the map is walked in. */
    method FindOldest() returns (oldest: Option<SessionKey>)
      requires Owns() && Amounts(state) && forall j, k :: Apart(state.entries, j, k)
      ensures oldest == Victim(state.entries)
    {
      oldest := None;
      var todo := entries.Keys;
      while todo != {}
        invariant todo <= entries.Keys
        invariant oldest.Some? ==>
          oldest.value in entries && oldest.value !in todo && state.entries[oldest.value].Evictable()
        invariant forall k :: k in entries && k !in todo && state.entries[k].Evictable() ==>
          oldest.Some? && state.entries[oldest.value].insertSequence <= state.entries[k].insertSequence
        decreases todo
      {
        var key :| key in todo;
        var entry := entries[key];
        assert Agree(entries, state.entries, key);
        assert oldest.Some? ==> Agree(entries, state.entries, oldest.value);
        if entry.refs == 0 && !entry.busy && entry.liveDesired == ""
            && (oldest.None? || entry.insertSequence < entries[oldest.value].insertSequence) {
          oldest := Some(key);
        }
        todo := todo - {key};
      }
      if oldest.Some? {
        assert Oldest(state.entries, oldest.value) by {
          forall k | k in entries && k != oldest.value ensures Apart(state.entries, oldest.value, k) {}
        }
      }
    }

    /** Deletes the oldest evictable entry, if there is one. */
    method EvictOne() returns (evicted: bool)
      requires Valid() && !closed
      modifies this`entries, this`state
      ensures Valid()
      ensures evicted <==> Victim(old(state).entries).Some?
      ensures state == if evicted then Evicted(old(state)) else old(state)
    {
      var oldest := FindOldest();
      if oldest.None? {
        return false;
      }
      EvictedKeepsInv(state);
      Drop(oldest.value, state.entries);
      Settle(Evicted(state));
      return true;
    }

    method Drop(key: SessionKey, ghost t: map<SessionKey, Entry>)
      requires Owns() && Mirrors(entries, cells, t) && key !in holder && HoldersFit(this, holder, entries)
      modifies this`entries
      ensures Owns() && entries == old(entries) - {key} && Mirrors(entries, cells, t - {key})
        && HoldersFit(this, holder, entries)
    {
      entries := entries - {key};
      forall k | k in entries ensures Agree(entries, t - {key}, k) { assert Agree(old(entries), t, k); }
      forall k | k in holder ensures Fits(this, holder, entries, k) { assert Fits(this, holder, old(entries), k); }
    }

    /** Maps `key` to a new idle entry. */
    method AddEntry(key: SessionKey) returns (entry: EntryCell)
      requires Valid() && !closed && key !in entries && |state.entries| < MaxEntries
      modifies this`entries, this`nextEntryToken, this`nextSequence, this`cells, this`state
      ensures Valid() && fresh(entry) && cells == old(cells) + {entry}
      ensures state == IdleAdded(old(state), key)
    {
      IdleAddedKeepsInv(state, key);
      nextEntryToken := nextEntryToken + 1;
      nextSequence := nextSequence + 1;
      entry := new EntryCell(nextEntryToken, nextSequence);
      Map(key, entry, state.entries);
      Settle(IdleAdded(state, key));
    }

    method Map(key: SessionKey, entry: EntryCell, ghost t: map<SessionKey, Entry>)
      requires Owns() && Mirrors(entries, cells, t) && key !in holder && HoldersFit(this, holder, entries)
      modifies this`entries, this`cells
      ensures cells == old(cells) + {entry}
      ensures Owns() && Mirrors(entries, cells, t[key := entry.View()]) && HoldersFit(this, holder, entries)
    {
      entries := entries[key := entry];
      cells := cells + {entry};
      forall k | k in entries ensures Agree(entries, t[key := entry.View()], k) {
        assert k != key ==> Agree(old(entries), t, k);
      }
      forall k | k in holder ensures Fits(this, holder, entries, k) { assert Fits(this, holder, old(entries), k); }
    }

    /** Evicts if need be, so that `key` can be mapped. */
    method MakeRoom(ghost key: SessionKey) returns (ok: bool)
      requires Valid() && !closed && key !in entries
      modifies this`entries, this`state
      ensures Valid() && key !in entries
      ensures ok <==> AcquireStep(old(state), key).1 != Full
      ensures ok ==> |state.entries| < MaxEntries && AcquireStep(state, key) == AcquireStep(old(state), key)
      ensures !ok ==> state == old(state) == AcquireStep(old(state), key).0
    {
      RoomFacts(state, key);
      ok := true;
      if |entries| >= MaxEntries {
        ok := EvictOne();
      }
    }

    /** Finds the entry mapped at `key`, or makes one if there is room. */
    method Lookup(key: SessionKey) returns (ok: bool, ghost added: set<EntryCell>)
      requires Valid() && !closed
      modifies this`entries, this`nextEntryToken, this`nextSequence, this`cells, this`state
      ensures Valid() && fresh(added) && cells == old(cells) + added
      ensures ok <==> AcquireStep(old(state), key).1 != Full
      ensures ok ==> key in entries && AcquireStep(state, key) == AcquireStep(old(state), key)
      ensures !ok ==> state == old(state) == AcquireStep(old(state), key).0
    {
      ok, added := true, {};
      if key !in entries {
        ok := MakeRoom(key);
        if ok {
          IdleThenAdmit(state, key);
          var entry := AddEntry(key);
          added := {entry};
        }
      }
    }

    /** Admits the caller to an existing entry, unless another holds it. */
    method AdmitTo(key: SessionKey) returns (a: Admission?)
      requires Valid() && !closed && key in entries
      modifies this`holder, this`state, entries[key]
      ensures Valid()
      ensures state == AcquireStep(old(state), key).0
      ensures a == null <==> AcquireStep(old(state), key).1 == Busy
      ensures a == null ==> holder == old(holder)
      ensures a != null ==>
        fresh(a) && Holds(a) && holder == old(holder)[key := a] && a.key == key && a.registry == this
    {
      assert EntryOk(state, key) && Agree(entries, state.entries, key);
      DistinctEntries(key);
      var entry := entries[key];
      if entry.busy {
        return null;
      }
      AcquireKeepsInv(state, key);
      Reference(key, entry, state.entries[key := state.entries[key].Acquired()]);
      a := new Admission(this, key, entry, entry.entryToken);
      AddHolder(key, a);
      Settle(AcquireStep(state, key).0);
    }

    method Reference(key: SessionKey, entry: EntryCell, ghost t: map<SessionKey, Entry>)
      requires Owns() && Amounts(state) && key in entries && entries[key] == entry
      requires forall k :: k in entries && k != key ==> entries[k] != entry
      requires t == state.entries[key := state.entries[key].Acquired()]
      modifies entry
      ensures Owns() && Mirrors(entries, cells, t)
    {
      assert Agree(entries, state.entries, key);
      entry.Reference();
      forall k | k in entries ensures Agree(entries, t, k) { assert old(Agree(entries, state.entries, k)); }
    }

    ghost method AddHolder(key: SessionKey, a: Admission)
      requires HoldersFit(this, holder, entries) && key !in holder && key in entries
      requires a.registry == this && a.key == key && a.entry == entries[key] && a.token == entries[key].entryToken
      modifies this`holder
      ensures holder == old(holder)[key := a] && HoldersFit(this, holder, entries)
    {
      holder := holder[key := a];
      forall k | k in holder ensures Fits(this, holder, entries, k) {
        assert k != key ==> Fits(this, old(holder), entries, k);
      }
    }

    ghost method RemoveHolder(key: SessionKey)
      requires HoldersFit(this, holder, entries)
      modifies this`holder
      ensures holder == old(holder) - {key} && HoldersFit(this, holder, entries)
    {
      holder := holder - {key};
      forall k | k in holder ensures Fits(this, holder, entries, k) { assert Fits(this, old(holder), entries, k); }
    }

    method Acquire(canceledBefore: bool, session: Option<SessionKey>, canceledLocked: bool)
      returns (a: Admission?, err: Option<AdmissionError>)
      requires Valid()
      modifies this, cells
      ensures Valid() && fresh(cells - old(cells)) && old(cells) <= cells
      ensures (a == null) <==> err.Some?
      ensures err == if canceledBefore then Some(ContextDone)
                     else if !HasIdentity(session) then Some(NoIdentity)
                     else if canceledLocked then Some(ContextDone)
                     else Refusal(AcquireStep(old(state), session.value).1)
      ensures state == if canceledBefore || !HasIdentity(session) || canceledLocked then old(state)
                       else AcquireStep(old(state), session.value).0
      ensures a != null ==>
        fresh(a) && Holds(a) && holder == old(holder)[a.key := a] && a.key == session.value && a.registry == this
      ensures a == null ==> holder == old(holder)
    {
      a := null;
      if canceledBefore {
        return null, Some(ContextDone);
      }
      if !HasIdentity(session) {
        return null, Some(NoIdentity);
      }
      var key := session.value;
      if canceledLocked {
        return null, Some(ContextDone);
      }
      if closed {
        return null, Some(ClientClosed);
      }
      var ok, _ := Lookup(key);
      if !ok {
        return null, Some(RegistryFull);
      }
      a := AdmitTo(key);
      if a == null {
        return null, Some(SessionBusy);
      }
      return a, None;
    }

    /** The test for a stale admission never fires: the entry of an unreleased admission
        is the one mapped at its key. */
    method ReleaseEntry(a: Admission)
      requires Valid() && Holds(a)
      modifies this`entries, this`holder, this`state, a.entry
      ensures Valid() && holder == old(holder) - {a.key}
      ensures state == ReleaseStep(old(state), a.key)
    {
      HeldEntry(a);
      if a.key !in entries || entries[a.key] != a.entry || a.entry.entryToken != a.token {
        return;
      }
      ghost var freed := ReleaseFacts(state, a.key);
      Unreference(a.key, a.entry, freed);
      RemoveHolder(a.key);
      MaybeFinalize(a.key, a.entry, freed, ReleaseStep(state, a.key).entries);
      Settle(ReleaseStep(state, a.key));
    }

    method Unreference(key: SessionKey, entry: EntryCell, ghost t: map<SessionKey, Entry>)
      requires Owns() && Amounts(state) && key in entries && entries[key] == entry
      requires forall k :: k in entries && k != key ==> entries[k] != entry
      requires t == state.entries[key := state.entries[key].Released()]
      modifies entry
      ensures Owns() && Mirrors(entries, cells, t)
    {
      assert Agree(entries, state.entries, key);
      entry.Unreference();
      forall k | k in entries ensures Agree(entries, t, k) { assert old(Agree(entries, state.entries, k)); }
    }

    /** Deletes the entry if nobody uses it and the registry is closed. */
    method MaybeFinalize(key: SessionKey, entry: EntryCell, ghost t: map<SessionKey, Entry>,
        ghost next: map<SessionKey, Entry>)
      requires Owns() && Mirrors(entries, cells, t) && HoldersFit(this, holder, entries)
      requires key in entries && entries[key] == entry && (t[key].refs == 0 ==> key !in holder)
      requires next == if closed then Finalized(t, key) else t
      modifies this`entries
      ensures Owns() && HoldersFit(this, holder, entries)
      ensures Mirrors(entries, cells, next)
    {
      assert Agree(entries, t, key);
      if entry.refs != 0 || entry.busy {
        return;
      }
      if closed {
        Drop(key, t);
      }
    }

    method Close()
      requires Valid()
      modifies this`closed, this`entries, this`state
      ensures Valid() && state == CloseStep(old(state))
    {
      CloseKeepsInv(state);
      closed := true;
      Finalize();
      Settle(CloseStep(state));
    }

    /** Deletes every entry nobody uses. */
    method Finalize()
      requires Owns() && Inv(state) && Mirrors(entries, cells, state.entries) && HeldBy(state.held) && closed
      modifies this`entries
      ensures Owns() && Mirrors(entries, cells, CloseStep(state).entries) && HeldBy(state.held)
    {
      var todo := entries.Keys;
      ghost var left := state.entries;
      while todo != {}
        invariant todo <= left.Keys == entries.Keys
        invariant Owns() && Mirrors(entries, cells, left) && HoldersFit(this, holder, entries)
        invariant PartlyFinalized(state.entries, left, todo)
        decreases todo
      {
        var key :| key in todo;
        assert EntryOk(state, key);
        ghost var next := FinalizeNext(state.entries, left, todo, key);
        MaybeFinalize(key, entries[key], left, next);
        left := next;
        todo := todo - {key};
      }
      FinalizeDone(state, left);
    }
  }

  /** `left` is what remains of `all` when all but `todo` have been looked at. */
  ghost predicate PartlyFinalized(all: map<SessionKey, Entry>, left: map<SessionKey, Entry>, todo: set<SessionKey>) {
    && (forall k :: k in left ==> k in all && left[k] == all[k] && (k in todo || all[k].refs != 0 || all[k].busy))
    && (forall k :: k in all && (k in todo || all[k].refs != 0 || all[k].busy) ==> k in left)
  }

  function Finalized(t: map<SessionKey, Entry>, key: SessionKey): map<SessionKey, Entry>
    requires key in t
  {
    if t[key].refs == 0 && !t[key].busy then t - {key} else t
  }

  lemma FinalizeNext(all: map<SessionKey, Entry>, left: map<SessionKey, Entry>, todo: set<SessionKey>, key: SessionKey)
    returns (next: map<SessionKey, Entry>)
    requires PartlyFinalized(all, left, todo) && key in todo && key in left
    ensures next == Finalized(left, key) && PartlyFinalized(all, next, todo - {key})
  {
    next := Finalized(left, key);
  }

  lemma FinalizeDone(s: Registry, left: map<SessionKey, Entry>)
    requires PartlyFinalized(s.entries, left, {})
    ensures left == CloseStep(s).entries
  {
  }

  predicate HasIdentity(session: Option<SessionKey>) {
    session.Some? && session.value.appName != "" && session.value.userID != "" && session.value.sessionID != ""
  }

  lemma ReleaseFacts(s: Registry, key: SessionKey) returns (freed: map<SessionKey, Entry>)
    requires Inv(s) && key in s.held
    ensures Inv(ReleaseStep(s, key)) && freed == s.entries[key := s.entries[key].Released()]
    ensures ReleaseStep(s, key) == s.(held := s.held - {key},
      entries := if s.closed then Finalized(freed, key) else freed)
  {
    ReleaseKeepsInv(s, key);
    freed := s.entries[key := s.entries[key].Released()];
    assert freed - {key} == s.entries - {key};
  }

  function Evicted(s: Registry): Registry
    requires Victim(s.entries).Some?
  {
    s.(entries := s.entries - {Victim(s.entries).value})
  }

  function IdleAdded(s: Registry, key: SessionKey): Registry {
    var added := Entry(s.nextEntryToken + 1, s.nextSequence + 1, 1, "", 0, false, "", None, 0);
    s.(entries := s.entries[key := added], nextEntryToken := s.nextEntryToken + 1, nextSequence := s.nextSequence + 1)
  }

  lemma EvictedKeepsInv(s: Registry)
    requires Inv(s) && !s.closed && Victim(s.entries).Some?
    ensures Inv(Evicted(s)) && |Evicted(s).entries| == |s.entries| - 1 && Victim(s.entries).value !in s.held
  {
    var v, t := Victim(s.entries).value, Evicted(s);
    assert EntryOk(s, v);
    RemovedSize(s.entries, v);
    forall k | k in t.entries ensures EntryOk(t, k) { assert EntryOk(s, k); }
    StayApart(s.entries, t.entries);
  }

  lemma IdleAddedKeepsInv(s: Registry, key: SessionKey)
    requires Inv(s) && !s.closed && key !in s.entries && |s.entries| < MaxEntries
    ensures Inv(IdleAdded(s, key))
  {
    var t := IdleAdded(s, key);
    AddedSize(s.entries, key, t.entries[key]);
    forall k | k in t.entries ensures EntryOk(t, k) {
      if k != key { assert EntryOk(s, k); }
    }
    forall j, k ensures Apart(t.entries, j, k) {
      assert Apart(s.entries, j, k);
      if j in s.entries { assert EntryOk(s, j); }
      if k in s.entries { assert EntryOk(s, k); }
    }
  }

  /** Eviction makes room exactly when the acquire step is not refused as full,
      and does not change what that step comes to. */
  lemma RoomFacts(s: Registry, key: SessionKey)
    requires Inv(s) && !s.closed && key !in s.entries
    ensures |s.entries.Keys| == |s.entries|
    ensures AcquireStep(s, key).1 == Full <==> |s.entries| >= MaxEntries && Victim(s.entries).None?
    ensures AcquireStep(s, key).1 == Full ==> AcquireStep(s, key).0 == s
    ensures |s.entries| >= MaxEntries && Victim(s.entries).Some? ==>
      |Evicted(s).entries| < MaxEntries && AcquireStep(Evicted(s), key) == AcquireStep(s, key)
  {
    if Victim(s.entries).Some? {
      EvictedKeepsInv(s);
    }
  }

  /** Adding an idle entry and admitting to it are one acquire step. */
  lemma IdleThenAdmit(s: Registry, key: SessionKey)
    requires !s.closed && key !in s.entries && |s.entries| < MaxEntries
    ensures AcquireStep(IdleAdded(s, key), key) == AcquireStep(s, key)
  {
    var idle := IdleAdded(s, key);
    assert idle.entries[key := idle.entries[key].Acquired()] == s.entries[key := idle.entries[key].Acquired()];
  }

  function Refusal(outcome: Outcome): Option<AdmissionError> {
    match outcome
    case Closed => Some(ClientClosed)
    case Full => Some(RegistryFull)
    case Busy => Some(SessionBusy)
    case _ => None
  }
}
