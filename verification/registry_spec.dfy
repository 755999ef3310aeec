/** The model registry as a value: every operation as a function on its state, and
    what holds over whole runs of operations by any number of parties.

    An admission is identified by its session key, because at most one unreleased
    admission exists per key. The class `ModelRegistry` is proved to implement these
    functions. */
module RegistrySpec {
  import opened Text
  import opened Descriptor

  const MaxEntries := 64

  datatype SessionKey = SessionKey(appName: string, userID: string, sessionID: string)

  datatype Entry = Entry(
    entryToken: nat,
    insertSequence: nat,
    attachmentToken: nat,
    attachmentID: string,
    refs: nat,
    busy: bool,
    liveDesired: string,
    control: Option<Control>,
    controlToken: nat)
  {
    predicate Evictable() {
      refs == 0 && !busy && liveDesired == ""
    }

    function Desired(construction: string): string {
      if liveDesired != "" then liveDesired else construction
    }

    function Observed(): Option<Control> {
      if controlToken != attachmentToken then None else control
    }

    function Acquired(): Entry {
      this.(busy := true, refs := refs + 1)
    }

    function Released(): Entry {
      this.(busy := false, refs := if refs > 0 then refs - 1 else 0)
    }

    function Replaced(remoteID: string): Entry {
      this.(attachmentToken := attachmentToken + 1, attachmentID := remoteID, control := None, controlToken := 0)
    }

    function Recorded(c: Option<Control>): Entry {
      this.(control := c, controlToken := attachmentToken)
    }

    function Unverified(): Entry {
      this.(control := None, controlToken := 0)
    }

    function Confirmed(model: string, construction: string): Entry {
      this.(liveDesired := if model == construction then "" else model)
    }
  }

  datatype Registry = Registry(
    entries: map<SessionKey, Entry>,
    held: set<SessionKey>,
    nextEntryToken: nat,
    nextSequence: nat,
    closed: bool)

  const Empty := Registry(map[], {}, 0, 0, false)

  /** What the holder of an admission can do with it. */
  datatype Action =
    | Release
    | Replace(remoteID: string)
    | Invalidate
    | ConfirmControl(control: Option<Control>, attachment: nat)
    | Observe(control: Option<Control>)
    | Unverify
    | Confirm(model: string, attachment: nat)

  datatype Op = Acquire(key: SessionKey) | Close | Act(key: SessionKey, action: Action)

  datatype Outcome = Admitted | Busy | Full | Closed | Accepted | Stale | Ignored

  /** `k` is the evictable entry with the smallest insert sequence. */
  predicate Oldest(entries: map<SessionKey, Entry>, k: SessionKey) {
    && k in entries && entries[k].Evictable()
    && forall j :: j in entries && entries[j].Evictable() && j != k ==>
         entries[k].insertSequence < entries[j].insertSequence
  }

  function Victim(entries: map<SessionKey, Entry>): (v: Option<SessionKey>)
    ensures v.Some? ==> Oldest(entries, v.value)
    ensures v.None? ==> forall k :: k in entries ==> !Oldest(entries, k)
  {
    if exists k :: k in entries && Oldest(entries, k) then
      var k :| k in entries && Oldest(entries, k);
      Some(k)
    else
      None
  }

  function Insert(s: Registry, kept: map<SessionKey, Entry>, key: SessionKey): Registry {
    var added := Entry(s.nextEntryToken + 1, s.nextSequence + 1, 1, "", 0, false, "", None, 0);
    Registry(kept[key := added.Acquired()], s.held + {key}, s.nextEntryToken + 1, s.nextSequence + 1, s.closed)
  }

  function AcquireStep(s: Registry, key: SessionKey): (Registry, Outcome) {
    if s.closed then
      (s, Closed)
    else if key in s.entries then
      if s.entries[key].busy then (s, Busy)
      else (s.(entries := s.entries[key := s.entries[key].Acquired()], held := s.held + {key}), Admitted)
    else if |s.entries| < MaxEntries then
      (Insert(s, s.entries, key), Admitted)
    else if Victim(s.entries).Some? then
      (Insert(s, s.entries - {Victim(s.entries).value}, key), Admitted)
    else
      (s, Full)
  }

  function ReleaseStep(s: Registry, key: SessionKey): Registry
    requires key in s.entries
  {
    var released := s.entries[key].Released();
    var entries := if released.refs == 0 && s.closed then s.entries - {key} else s.entries[key := released];
    s.(entries := entries, held := s.held - {key})
  }

  function CloseStep(s: Registry): Registry {
    s.(entries := map k | k in s.entries && (s.entries[k].refs != 0 || s.entries[k].busy) :: s.entries[k],
       closed := true)
  }

  /** The effect of an action other than `Release` on the admission's entry. */
  function ActOn(e: Entry, construction: string, action: Action): (Entry, Outcome) {
    match action
    case Release => (e, Ignored)
    case Replace(remoteID) => (e.Replaced(remoteID), Accepted)
    case Invalidate => (e.Replaced(""), Accepted)
    case ConfirmControl(control, attachment) =>
      if attachment != e.attachmentToken then (e, Stale) else (e.Recorded(control), Accepted)
    case Observe(control) => (e.Recorded(control), Accepted)
    case Unverify => (e.Unverified(), Accepted)
    case Confirm(model, attachment) =>
      if attachment != e.attachmentToken then (e, Stale) else (e.Confirmed(model, construction), Accepted)
  }

  function ActStep(s: Registry, construction: string, key: SessionKey, action: Action): (Registry, Outcome) {
    if key !in s.held || key !in s.entries then
      (s, Ignored)
    else if action.Release? then
      (ReleaseStep(s, key), Accepted)
    else
      var (e, outcome) := ActOn(s.entries[key], construction, action);
      (s.(entries := s.entries[key := e]), outcome)
  }

  /** One locked section of the registry. */
  function Step(s: Registry, construction: string, op: Op): (Registry, Outcome) {
    match op
    case Acquire(key) => AcquireStep(s, key)
    case Close => (CloseStep(s), Accepted)
    case Act(key, action) => ActStep(s, construction, key, action)
  }

  /** The registry after a run of operations from empty. */
  function Run(construction: string, ops: seq<Op>): Registry {
    if ops == [] then Empty
    else Step(Run(construction, ops[..|ops| - 1]), construction, ops[|ops| - 1]).0
  }

  // ---------------------------------------------------------------- admission

  predicate EntryOk(s: Registry, k: SessionKey)
    requires k in s.entries
  {
    var e := s.entries[k];
    && (e.busy <==> k in s.held)
    && e.refs == (if e.busy then 1 else 0)
    && 1 <= e.insertSequence <= s.nextSequence
    && 1 <= e.entryToken <= s.nextEntryToken
    && 1 <= e.attachmentToken
    && (e.controlToken == 0 || e.controlToken <= e.attachmentToken)
  }

  predicate Apart(entries: map<SessionKey, Entry>, j: SessionKey, k: SessionKey) {
    j in entries && k in entries && j != k ==> entries[j].insertSequence != entries[k].insertSequence
  }

  ghost predicate Inv(s: Registry) {
    && |s.entries| <= MaxEntries
    && s.held <= s.entries.Keys
    && (forall k {:trigger EntryOk(s, k)} :: k in s.entries ==> EntryOk(s, k))
    && (forall j, k :: Apart(s.entries, j, k))
    && (s.closed ==> s.entries.Keys == s.held)
  }

  lemma RemovedSize(m: map<SessionKey, Entry>, k: SessionKey)
    requires k in m
    ensures |m - {k}| == |m| - 1
  {
    assert (m - {k}).Keys == m.Keys - {k};
  }

  lemma AddedSize(m: map<SessionKey, Entry>, k: SessionKey, e: Entry)
    ensures |m[k := e]| == if k in m then |m| else |m| + 1
  {
    assert m[k := e].Keys == m.Keys + {k};
    if k in m {
      assert m[k := e].Keys == m.Keys;
    }
  }

  /** An evictable entry means an oldest one, whatever order it is looked for in. */
  lemma {:induction false} EvictableHasOldest(s: Registry, k: SessionKey)
    requires Inv(s) && k in s.entries && s.entries[k].Evictable()
    ensures Victim(s.entries).Some?
    decreases s.entries[k].insertSequence
  {
    if !Oldest(s.entries, k) {
      var j :| j in s.entries && s.entries[j].Evictable() && j != k
        && s.entries[j].insertSequence <= s.entries[k].insertSequence;
      assert Apart(s.entries, j, k);
      EvictableHasOldest(s, j);
    }
  }

  /** Entries that keep their sequence numbers stay apart. */
  lemma StayApart(before: map<SessionKey, Entry>, after: map<SessionKey, Entry>)
    requires forall j, k :: Apart(before, j, k)
    requires forall k :: k in after ==> k in before && after[k].insertSequence == before[k].insertSequence
    ensures forall j, k :: Apart(after, j, k)
  {
    forall j, k ensures Apart(after, j, k) { assert Apart(before, j, k); }
  }

  lemma InsertKeepsInv(s: Registry, kept: map<SessionKey, Entry>, key: SessionKey)
    requires Inv(s) && !s.closed && key !in s.entries && |kept| < MaxEntries
    requires kept.Keys <= s.entries.Keys && s.held <= kept.Keys
    requires forall k :: k in kept ==> kept[k] == s.entries[k]
    ensures Inv(Insert(s, kept, key))
  {
    var t := Insert(s, kept, key);
    AddedSize(kept, key, t.entries[key]);
    forall k | k in t.entries ensures EntryOk(t, k) {
      if k != key { assert EntryOk(s, k); }
    }
    forall j, k ensures Apart(t.entries, j, k) {
      assert Apart(s.entries, j, k);
      if j in kept { assert EntryOk(s, j); }
      if k in kept { assert EntryOk(s, k); }
    }
  }

  lemma MappedAcquireKeepsInv(s: Registry, key: SessionKey)
    requires Inv(s) && !s.closed && key in s.entries
    ensures Inv(AcquireStep(s, key).0)
  {
    assert EntryOk(s, key);
    var t := AcquireStep(s, key).0;
    AddedSize(s.entries, key, s.entries[key].Acquired());
    forall k | k in t.entries ensures EntryOk(t, k) { assert EntryOk(s, k); }
    StayApart(s.entries, t.entries);
  }

  lemma EvictingAcquireKeepsInv(s: Registry, key: SessionKey)
    requires Inv(s) && !s.closed && key !in s.entries && Victim(s.entries).Some?
    ensures Inv(Insert(s, s.entries - {Victim(s.entries).value}, key))
  {
    var v := Victim(s.entries).value;
    RemovedSize(s.entries, v);
    assert EntryOk(s, v);
    InsertKeepsInv(s, s.entries - {v}, key);
  }

  lemma AcquireKeepsInv(s: Registry, key: SessionKey)
    requires Inv(s)
    ensures Inv(AcquireStep(s, key).0)
  {
    if s.closed {
    } else if key in s.entries {
      MappedAcquireKeepsInv(s, key);
    } else if |s.entries| < MaxEntries {
      InsertKeepsInv(s, s.entries, key);
    } else if Victim(s.entries).Some? {
      EvictingAcquireKeepsInv(s, key);
    }
  }

  lemma CloseKeepsInv(s: Registry)
    requires Inv(s)
    ensures Inv(CloseStep(s))
  {
    var t := CloseStep(s);
    assert t.entries.Keys <= s.entries.Keys;
    SubsetSize(t.entries.Keys, s.entries.Keys);
    forall k | k in s.entries ensures k in t.entries <==> k in s.held { assert EntryOk(s, k); }
    forall k | k in t.entries ensures EntryOk(t, k) { assert EntryOk(s, k); }
    StayApart(s.entries, t.entries);
  }

  lemma ReleaseKeepsInv(s: Registry, key: SessionKey)
    requires Inv(s) && key in s.held
    ensures Inv(ReleaseStep(s, key))
  {
    var t := ReleaseStep(s, key);
    assert EntryOk(s, key);
    RemovedSize(s.entries, key);
    AddedSize(s.entries, key, s.entries[key].Released());
    forall k | k in t.entries ensures EntryOk(t, k) { assert EntryOk(s, k); }
    StayApart(s.entries, t.entries);
  }

  /** An action leaves an entry's identity, references and place alone, and its
      token never falls. */
  lemma ActOnFrame(e: Entry, construction: string, action: Action)
    ensures var f := ActOn(e, construction, action).0;
      && f.entryToken == e.entryToken && f.insertSequence == e.insertSequence
      && f.refs == e.refs && f.busy == e.busy
      && f.attachmentToken == e.attachmentToken + (if action.Replace? || action.Invalidate? then 1 else 0)
      && (f.controlToken == e.controlToken || f.controlToken == 0 || f.controlToken == f.attachmentToken)
  {
  }

  lemma PutKeepsInv(s: Registry, key: SessionKey, f: Entry)
    requires Inv(s) && key in s.held && EntryOk(s.(entries := s.entries[key := f]), key)
    requires f.insertSequence == s.entries[key].insertSequence
    ensures Inv(s.(entries := s.entries[key := f]))
  {
    var t := s.(entries := s.entries[key := f]);
    AddedSize(s.entries, key, f);
    assert t.entries.Keys == s.entries.Keys;
    forall k | k in t.entries ensures EntryOk(t, k) { assert EntryOk(s, k); }
    StayApart(s.entries, t.entries);
  }

  lemma ActKeepsInv(s: Registry, construction: string, key: SessionKey, action: Action)
    requires Inv(s) && key in s.held && !action.Release?
    ensures Inv(ActStep(s, construction, key, action).0)
  {
    assert EntryOk(s, key);
    ActOnFrame(s.entries[key], construction, action);
    PutKeepsInv(s, key, ActOn(s.entries[key], construction, action).0);
  }

  /** Admission invariant: every operation keeps it, so at most 64 entries exist,
      `busy` holds exactly for the held keys and exactly when `refs` is 1, a held
      admission's entry is the one mapped at its key, and a closed registry maps
      held keys only. */
  lemma StepKeepsInv(s: Registry, construction: string, op: Op)
    requires Inv(s)
    ensures Inv(Step(s, construction, op).0)
  {
    match op
    case Acquire(key) => AcquireKeepsInv(s, key);
    case Close => CloseKeepsInv(s);
    case Act(key, action) =>
      if key in s.held {
        if action.Release? { ReleaseKeepsInv(s, key); } else { ActKeepsInv(s, construction, key, action); }
      }
  }

  lemma SubsetSize(a: set<SessionKey>, b: set<SessionKey>)
    requires a <= b
    ensures |a| <= |b|
  {
    if a != {} {
      var x :| x in a;
      SubsetSize(a - {x}, b - {x});
    }
  }

  lemma {:induction false} RunKeepsInv(construction: string, ops: seq<Op>)
    ensures Inv(Run(construction, ops))
  {
    if ops != [] {
      RunKeepsInv(construction, ops[..|ops| - 1]);
      StepKeepsInv(Run(construction, ops[..|ops| - 1]), construction, ops[|ops| - 1]);
    }
  }

  /** After close and the last release nothing is left. */
  lemma ClosedAndReleasedIsEmpty(construction: string, ops: seq<Op>)
    requires Run(construction, ops).closed && Run(construction, ops).held == {}
    ensures Run(construction, ops).entries == map[]
  {
    RunKeepsInv(construction, ops);
  }

  /** Whatever a party that does not hold `k` does, the entry at `k` stays put and
      unchanged while `k` is held. */
  lemma OthersLeaveHeldEntry(s: Registry, construction: string, op: Op, k: SessionKey)
    requires Inv(s) && k in s.held
    requires op.Act? ==> op.key != k
    ensures var t := Step(s, construction, op).0; k in t.held && k in t.entries && t.entries[k] == s.entries[k]
  {
    assert EntryOk(s, k);
    if op.Acquire? && Victim(s.entries).Some? {
      assert Oldest(s.entries, Victim(s.entries).value);
    }
  }
}
