/** What the bounded registry promises over whole runs: it behaves like an
    unbounded map from session key to model, and what it reports as observed was
    recorded for the attachment that is still current. */
module RegistryRuns {
  import opened Text
  import opened Descriptor
  import opened RegistrySpec

  // -------------------------------------------- refinement of an unbounded map

  /** The unbounded machine: the last model confirmed for each key, for ever, and
      the keys that are held; to confirm an empty model is to go back to the configured
      one. It knows no entries, no tokens and no eviction. */
  datatype Shadow = Shadow(confirmed: map<SessionKey, string>, held: set<SessionKey>, closed: bool)
  {
    function Desired(construction: string, key: SessionKey): string {
      if key in confirmed then confirmed[key] else construction
    }

    /** The key must not be forgotten: it is held or its model is an override. */
    predicate IsPinned(construction: string, key: SessionKey) {
      key in held || Desired(construction, key) != construction
    }

    function Pinned(construction: string): (keys: set<SessionKey>)
      ensures forall k :: k in keys <==> IsPinned(construction, k)
    {
      set k | k in held + confirmed.Keys && IsPinned(construction, k)
    }

    function Admission(construction: string, key: SessionKey): Outcome {
      if closed then Closed
      else if key in held then Busy
      else if key !in Pinned(construction) && |Pinned(construction)| >= 64 then Full
      else Admitted
    }
  }

  /** `accepted` is whether the registry took a confirmation, which is a matter of
      attachment tokens. */
  function ShadowStep(sh: Shadow, construction: string, op: Op, accepted: bool): Shadow {
    match op
    case Acquire(key) => if sh.Admission(construction, key) == Admitted then sh.(held := sh.held + {key}) else sh
    case Close => sh.(closed := true)
    case Act(key, Release) => sh.(held := sh.held - {key})
    case Act(key, Confirm(model, _)) =>
      if accepted then sh.(confirmed := sh.confirmed[key := if model == "" then construction else model]) else sh
    case Act(_, _) => sh
  }

  function ShadowRun(construction: string, ops: seq<Op>): Shadow {
    if ops == [] then Shadow(map[], {}, false)
    else
      var before, op := ops[..|ops| - 1], ops[|ops| - 1];
      ShadowStep(ShadowRun(construction, before), construction, op,
                 Step(Run(construction, before), construction, op).1 == Accepted)
  }

  predicate EntryMatches(e: Entry, sh: Shadow, construction: string, k: SessionKey) {
    && e.Desired(construction) == sh.Desired(construction, k)
    && (e.liveDesired == "" <==> sh.Desired(construction, k) == construction)
  }

  ghost predicate Matches(s: Registry, sh: Shadow, construction: string) {
    && s.held == sh.held && s.closed == sh.closed
    && (forall k :: k in s.entries ==> EntryMatches(s.entries[k], sh, construction, k))
    && (!s.closed ==> forall k :: sh.IsPinned(construction, k) ==> k in s.entries)
  }

  lemma ProperSubsetSize(a: set<SessionKey>, b: set<SessionKey>, x: SessionKey)
    requires a <= b && x in b && x !in a
    ensures |a| < |b|
  {
    SubsetSize(a, b - {x});
  }

  /** The bounded registry admits, refuses as busy, refuses as full or refuses as
      closed exactly when the unbounded machine does. */
  lemma AdmissionAgrees(s: Registry, sh: Shadow, construction: string, key: SessionKey)
    requires Inv(s) && Matches(s, sh, construction)
    ensures AcquireStep(s, key).1 == sh.Admission(construction, key)
  {
    var pinned := sh.Pinned(construction);
    if s.closed || key in s.held {
      if key in s.held { assert EntryOk(s, key); }
    } else if key in s.entries {
      assert EntryOk(s, key);
      if key !in pinned { ProperSubsetSize(pinned, s.entries.Keys, key); }
    } else {
      SubsetSize(pinned, s.entries.Keys);
      if |s.entries| == MaxEntries {
        if Victim(s.entries).Some? {
          var v := Victim(s.entries).value;
          assert EntryOk(s, v) && v !in pinned;
          ProperSubsetSize(pinned, s.entries.Keys, v);
        } else {
          forall k | k in s.entries ensures k in pinned { PinnedUnlessEvictable(s, sh, construction, k); }
          SubsetSize(s.entries.Keys, pinned);
        }
      }
    }
  }

  lemma PinnedUnlessEvictable(s: Registry, sh: Shadow, construction: string, k: SessionKey)
    requires Inv(s) && Matches(s, sh, construction) && k in s.entries && Victim(s.entries).None?
    ensures k in sh.Pinned(construction)
  {
    assert EntryOk(s, k);
    if s.entries[k].Evictable() {
      EvictableHasOldest(s, k);
    }
  }

  lemma InsertMatches(s: Registry, sh: Shadow, construction: string, kept: map<SessionKey, Entry>, key: SessionKey)
    requires Matches(s, sh, construction) && !s.closed && key !in s.entries
    requires kept.Keys <= s.entries.Keys
    requires forall k :: k in s.entries ==> k in kept || !sh.IsPinned(construction, k)
    requires forall k :: k in kept ==> kept[k] == s.entries[k]
    ensures Matches(Insert(s, kept, key), sh.(held := sh.held + {key}), construction)
  {
    var t, sh' := Insert(s, kept, key), sh.(held := sh.held + {key});
    assert !sh.IsPinned(construction, key);
    forall k | k in t.entries ensures EntryMatches(t.entries[k], sh', construction, k) {
      if k != key { assert EntryMatches(s.entries[k], sh, construction, k); }
    }
    forall k | sh'.IsPinned(construction, k) ensures k in t.entries {
      assert k == key || sh.IsPinned(construction, k);
    }
  }

  lemma AcquireMatches(s: Registry, sh: Shadow, construction: string, key: SessionKey)
    requires Inv(s) && Matches(s, sh, construction)
    ensures Matches(AcquireStep(s, key).0, ShadowStep(sh, construction, Acquire(key), true), construction)
  {
    AdmissionAgrees(s, sh, construction, key);
    if s.closed {
    } else if key in s.entries {
      var t, sh' := AcquireStep(s, key).0, ShadowStep(sh, construction, Acquire(key), true);
      forall k | k in t.entries ensures EntryMatches(t.entries[k], sh', construction, k) {
        assert EntryMatches(s.entries[k], sh, construction, k);
      }
      forall k | sh'.IsPinned(construction, k) ensures k in t.entries {
        assert k == key || sh.IsPinned(construction, k);
      }
    } else if |s.entries| < MaxEntries {
      InsertMatches(s, sh, construction, s.entries, key);
    } else if Victim(s.entries).Some? {
      var v := Victim(s.entries).value;
      assert EntryOk(s, v) && EntryMatches(s.entries[v], sh, construction, v);
      InsertMatches(s, sh, construction, s.entries - {v}, key);
    }
  }

  lemma ReleaseMatches(s: Registry, sh: Shadow, construction: string, key: SessionKey)
    requires Inv(s) && Matches(s, sh, construction) && key in s.held
    ensures Matches(ReleaseStep(s, key), sh.(held := sh.held - {key}), construction)
  {
    var t, sh' := ReleaseStep(s, key), sh.(held := sh.held - {key});
    assert EntryOk(s, key);
    forall k | k in t.entries ensures EntryMatches(t.entries[k], sh', construction, k) {
      assert EntryMatches(s.entries[k], sh, construction, k);
    }
    forall k | !t.closed && sh'.IsPinned(construction, k) ensures k in t.entries {
      assert sh.IsPinned(construction, k);
    }
  }

  lemma ActEntryMatches(e: Entry, sh: Shadow, construction: string, key: SessionKey, action: Action)
    requires EntryMatches(e, sh, construction, key) && !action.Release?
    ensures var (f, outcome) := ActOn(e, construction, action);
      EntryMatches(f, ShadowStep(sh, construction, Act(key, action), outcome == Accepted), construction, key)
  {
  }

  lemma ActMatches(s: Registry, sh: Shadow, construction: string, key: SessionKey, action: Action)
    requires Inv(s) && Matches(s, sh, construction) && key in s.held && !action.Release?
    ensures var (t, outcome) := ActStep(s, construction, key, action);
      Matches(t, ShadowStep(sh, construction, Act(key, action), outcome == Accepted), construction)
  {
    var (t, outcome) := ActStep(s, construction, key, action);
    var sh' := ShadowStep(sh, construction, Act(key, action), outcome == Accepted);
    assert EntryMatches(s.entries[key], sh, construction, key);
    ActEntryMatches(s.entries[key], sh, construction, key, action);
    assert sh'.held == sh.held && sh'.closed == sh.closed;
    assert forall k :: k != key ==> sh'.Desired(construction, k) == sh.Desired(construction, k);
    forall k | k in t.entries ensures EntryMatches(t.entries[k], sh', construction, k) {
      if k != key { assert EntryMatches(s.entries[k], sh, construction, k); }
    }
    forall k | !t.closed && sh'.IsPinned(construction, k) ensures k in t.entries {
      assert k == key || sh.IsPinned(construction, k);
    }
  }

  lemma StepMatches(s: Registry, sh: Shadow, construction: string, op: Op)
    requires Inv(s) && Matches(s, sh, construction)
    ensures var (t, outcome) := Step(s, construction, op);
      Matches(t, ShadowStep(sh, construction, op, outcome == Accepted), construction)
  {
    match op
    case Acquire(key) => AcquireMatches(s, sh, construction, key);
    case Close =>
    case Act(key, action) =>
      if key in s.held {
        if action.Release? {
          ReleaseMatches(s, sh, construction, key);
        } else {
          ActMatches(s, sh, construction, key, action);
        }
      }
  }

  lemma {:induction false} RunMatches(construction: string, ops: seq<Op>)
    ensures Inv(Run(construction, ops)) && Matches(Run(construction, ops), ShadowRun(construction, ops), construction)
  {
    RunKeepsInv(construction, ops);
    if ops != [] {
      var before, op := ops[..|ops| - 1], ops[|ops| - 1];
      RunMatches(construction, before);
      StepMatches(Run(construction, before), ShadowRun(construction, before), construction, op);
    }
  }

  /** Main result: after any run, closed or not, every admission request gets the
      answer of the unbounded machine, and every holder reads the model last
      confirmed for its key. So eviction at 64 entries is never observable here,
      and the only refusal the bound adds is `Full`, exactly when 64 keys other
      than the requested one are held or carry an override. */
  lemma {:induction false} BoundedRegistryRefinesUnboundedMap(construction: string, ops: seq<Op>, key: SessionKey)
    ensures AcquireStep(Run(construction, ops), key).1 == ShadowRun(construction, ops).Admission(construction, key)
    ensures key in Run(construction, ops).held ==>
      && key in Run(construction, ops).entries
      && Run(construction, ops).entries[key].Desired(construction)
           == ShadowRun(construction, ops).Desired(construction, key)
  {
    RunMatches(construction, ops);
    AdmissionAgrees(Run(construction, ops), ShadowRun(construction, ops), construction, key);
  }

  /** In every state, what the holder of an entry confirms under the current token
      reads back exactly when it is nonempty or no model is configured. */
  lemma EmptyConfirmationIsLost(s: Registry, construction: string, key: SessionKey, model: string)
    requires Inv(s) && key in s.held
    ensures key in s.entries
    ensures var (after, outcome) := Step(s, construction, Act(key, Confirm(model, s.entries[key].attachmentToken)));
      && outcome == Accepted && key in after.held && key in after.entries
      && (after.entries[key].Desired(construction) == model <==> model != "" || construction == "")
  {
    assert EntryOk(s, key);
  }

  // -------------------------------------------------- verification history

  /** The operation is one the holder of `k` performs on its attachment or on the
      control recorded for it, and the registry takes it. */
  predicate Touches(s: Registry, op: Op, k: SessionKey) {
    && op.Act? && op.key == k && k in s.held && k in s.entries
    && !op.action.Release? && !op.action.Confirm?
    && (op.action.ConfirmControl? ==> op.action.attachment == s.entries[k].attachmentToken)
  }

  predicate Records(s: Registry, op: Op, k: SessionKey, c: Control) {
    && Touches(s, op, k)
    && (op.action.ConfirmControl? || op.action.Observe?) && op.action.control == Some(c)
  }

  predicate Moves(s: Registry, op: Op, k: SessionKey) {
    Touches(s, op, k) && (op.action.Replace? || op.action.Invalidate?)
  }

  /** `k` is mapped in both states, to the same entry object. */
  predicate SameEntry(s: Registry, t: Registry, k: SessionKey) {
    k in s.entries && k in t.entries && s.entries[k].entryToken == t.entries[k].entryToken
  }

  /** The attachment id that a moving action gives. */
  function MovedTo(action: Action): string {
    if action.Replace? then action.remoteID else ""
  }

  /** The control that a touching action leaves to be observed. */
  function LeftBy(action: Action): Option<Control> {
    if action.ConfirmControl? || action.Observe? then action.control else None
  }

  /** One step leaves the entry at `k` the old one, touched or not, or puts there
      one whose token was never used before. */
  predicate Lineage(s: Registry, op: Op, t: Registry, k: SessionKey)
    requires k in t.entries
  {
    var f := t.entries[k];
    if !SameEntry(s, t, k) then f.entryToken > s.nextEntryToken && f.attachmentID == "" && f.Observed() == None
    else
      var e := s.entries[k];
      && f.attachmentToken == e.attachmentToken + (if Moves(s, op, k) then 1 else 0)
      && f.attachmentID == (if Moves(s, op, k) then MovedTo(op.action) else e.attachmentID)
      && f.Observed() == (if Touches(s, op, k) then LeftBy(op.action) else e.Observed())
  }

  lemma AcquireLineage(s: Registry, key: SessionKey, k: SessionKey)
    requires Inv(s) && k in AcquireStep(s, key).0.entries
    ensures Lineage(s, Acquire(key), AcquireStep(s, key).0, k)
  {
  }

  lemma ActLineage(s: Registry, construction: string, key: SessionKey, action: Action, k: SessionKey)
    requires Inv(s) && k in ActStep(s, construction, key, action).0.entries
    ensures Lineage(s, Act(key, action), ActStep(s, construction, key, action).0, k)
  {
    if k == key && k in s.held && !action.Release? {
      ActOnFrame(s.entries[k], construction, action);
      ActOnAttachment(s.entries[k], construction, action);
    }
  }

  lemma ActOnAttachment(e: Entry, construction: string, action: Action)
    requires !action.Release?
    ensures var (f, outcome) := ActOn(e, construction, action);
      && (outcome == Stale <==> (action.ConfirmControl? || action.Confirm?) && action.attachment != e.attachmentToken)
      && f.Observed() == (if action.Confirm? || outcome == Stale then e.Observed() else LeftBy(action))
      && f.attachmentID == (if action.Replace? || action.Invalidate? then MovedTo(action) else e.attachmentID)
  {
  }

  lemma StepLineage(s: Registry, construction: string, op: Op, k: SessionKey)
    requires Inv(s) && k in Step(s, construction, op).0.entries
    ensures Lineage(s, op, Step(s, construction, op).0, k)
  {
    match op
    case Acquire(key) => AcquireLineage(s, key, k);
    case Close =>
    case Act(key, action) => ActLineage(s, construction, key, action, k);
  }

  /** `trace` is the sequence of states that `ops` lead through from empty. */
  ghost predicate IsRun(construction: string, ops: seq<Op>, trace: seq<Registry>) {
    && |trace| == |ops| + 1 && trace[0] == Empty
    && forall i :: 0 <= i < |ops| ==> trace[i + 1] == Step(trace[i], construction, ops[i]).0
  }

  ghost predicate Follows(s: Registry, op: Op, t: Registry) {
    && s.nextEntryToken <= t.nextEntryToken
    && forall k :: k in t.entries ==> t.entries[k].entryToken <= t.nextEntryToken && Lineage(s, op, t, k)
  }

  lemma StepFollows(s: Registry, construction: string, op: Op)
    requires Inv(s)
    ensures Follows(s, op, Step(s, construction, op).0)
  {
    var t := Step(s, construction, op).0;
    NextTokenGrows(s, construction, op);
    StepKeepsInv(s, construction, op);
    forall k | k in t.entries ensures t.entries[k].entryToken <= t.nextEntryToken && Lineage(s, op, t, k) {
      assert EntryOk(t, k);
      StepLineage(s, construction, op, k);
    }
  }

  ghost predicate HasLineage(ops: seq<Op>, trace: seq<Registry>) {
    && |trace| == |ops| + 1 && trace[0] == Empty
    && forall n :: 0 <= n < |ops| ==> TakesStep(ops, trace, n)
  }

  ghost predicate TakesStep(ops: seq<Op>, trace: seq<Registry>, n: nat)
    requires |trace| == |ops| + 1 && n < |ops|
  {
    Follows(trace[n], ops[n], trace[n + 1])
  }

  lemma {:induction false} TraceInv(construction: string, ops: seq<Op>, trace: seq<Registry>, n: nat)
    requires IsRun(construction, ops, trace) && n <= |ops|
    ensures Inv(trace[n])
  {
    if n > 0 {
      TraceInv(construction, ops, trace, n - 1);
      StepKeepsInv(trace[n - 1], construction, ops[n - 1]);
    }
  }

  lemma RunHasLineage(construction: string, ops: seq<Op>, trace: seq<Registry>)
    requires IsRun(construction, ops, trace)
    ensures HasLineage(ops, trace)
  {
    forall n | 0 <= n < |ops| ensures TakesStep(ops, trace, n) {
      TraceInv(construction, ops, trace, n);
      StepFollows(trace[n], construction, ops[n]);
    }
  }

  lemma NextTokenGrows(s: Registry, construction: string, op: Op)
    ensures Step(s, construction, op).0.nextEntryToken >= s.nextEntryToken
  {
  }

  /** Main result: an observed control is what the last accepted operation on the
      key's attachment recorded, under the attachment token that is current now;
      nothing has replaced, invalidated or overwritten it since. */
  lemma ObservedWasRecorded(
      construction: string, ops: seq<Op>, trace: seq<Registry>, n: nat, k: SessionKey, c: Control) returns (i: nat)
    requires IsRun(construction, ops, trace) && n <= |ops|
    requires k in trace[n].entries && trace[n].entries[k].Observed() == Some(c)
    ensures i < n && Records(trace[i], ops[i], k, c)
    ensures SameEntry(trace[i], trace[n], k)
    ensures trace[i].entries[k].attachmentToken == trace[n].entries[k].attachmentToken
    ensures forall j :: i < j < n ==> !Touches(trace[j], ops[j], k)
  {
    RunHasLineage(construction, ops, trace);
    i := LastRecord(ops, trace, n, k, c);
  }

  lemma {:induction false} LastRecord(ops: seq<Op>, trace: seq<Registry>, n: nat, k: SessionKey, c: Control)
    returns (i: nat)
    requires HasLineage(ops, trace) && n <= |ops|
    requires k in trace[n].entries && trace[n].entries[k].Observed() == Some(c)
    ensures i < n && Records(trace[i], ops[i], k, c)
    ensures SameEntry(trace[i], trace[n], k)
    ensures trace[i].entries[k].attachmentToken == trace[n].entries[k].attachmentToken
    ensures forall j :: i < j < n ==> !Touches(trace[j], ops[j], k)
  {
    assert TakesStep(ops, trace, n - 1);
    if Touches(trace[n - 1], ops[n - 1], k) {
      i := n - 1;
    } else {
      i := LastRecord(ops, trace, n - 1, k, c);
    }
  }

  /** As long as an entry stays mapped its attachment token never falls, and it
      rises exactly when the holder replaces or invalidates the attachment. */
  lemma AttachmentTokensGrow(
      construction: string, ops: seq<Op>, trace: seq<Registry>, i: nat, n: nat, k: SessionKey)
    requires IsRun(construction, ops, trace) && i <= n <= |ops|
    requires SameEntry(trace[i], trace[n], k)
    ensures trace[i].entries[k].attachmentToken <= trace[n].entries[k].attachmentToken
    ensures trace[i].entries[k].attachmentToken < trace[n].entries[k].attachmentToken <==>
      exists j :: i <= j < n && Moves(trace[j], ops[j], k)
  {
    RunHasLineage(construction, ops, trace);
    TokensGrow(ops, trace, i, n, k);
  }

  lemma {:induction false} TokensGrow(ops: seq<Op>, trace: seq<Registry>, i: nat, n: nat, k: SessionKey)
    requires HasLineage(ops, trace) && i <= n <= |ops| && SameEntry(trace[i], trace[n], k)
    ensures trace[i].entries[k].attachmentToken <= trace[n].entries[k].attachmentToken
    ensures trace[i].entries[k].attachmentToken < trace[n].entries[k].attachmentToken <==>
      exists j :: i <= j < n && Moves(trace[j], ops[j], k)
  {
    if i < n {
      assert TakesStep(ops, trace, n - 1);
      EntryTokensNew(ops, trace, i, n - 1, k);
      TokensGrow(ops, trace, i, n - 1, k);
    }
  }

  lemma {:induction false} EntryTokensNew(ops: seq<Op>, trace: seq<Registry>, i: nat, n: nat, k: SessionKey)
    requires HasLineage(ops, trace) && i <= n <= |ops| && k in trace[i].entries
    ensures trace[i].entries[k].entryToken <= trace[n].nextEntryToken
  {
    if n > 0 {
      assert TakesStep(ops, trace, n - 1);
      if i < n {
        EntryTokensNew(ops, trace, i, n - 1, k);
      }
    }
  }

  // --------------------------------------------- what the holder left behind

  lemma {:induction false} SameInBetween(ops: seq<Op>, trace: seq<Registry>, i: nat, m: nat, n: nat, k: SessionKey)
    requires HasLineage(ops, trace) && i <= m <= n <= |ops| && SameEntry(trace[i], trace[n], k)
    ensures SameEntry(trace[i], trace[m], k)
  {
    if m < n {
      assert TakesStep(ops, trace, n - 1);
      EntryTokensNew(ops, trace, i, n - 1, k);
      SameInBetween(ops, trace, i, m, n - 1, k);
    }
  }

  /** Main result: while an entry stays mapped, whoever holds it in turn, its attachment
      id is what the last replacement gave it, nothing after an invalidation, and what it
      was if there was neither. No release, admission or confirmation changes it. */
  lemma AttachmentIDExactly(
      construction: string, ops: seq<Op>, trace: seq<Registry>, i: nat, j: nat, n: nat, k: SessionKey)
    requires IsRun(construction, ops, trace) && i <= j < n <= |ops| && SameEntry(trace[i], trace[n], k)
    ensures (forall m :: i <= m < n ==> !Moves(trace[m], ops[m], k)) ==>
      trace[n].entries[k].attachmentID == trace[i].entries[k].attachmentID
    ensures Moves(trace[j], ops[j], k) && (forall m :: j < m < n ==> !Moves(trace[m], ops[m], k)) ==>
      trace[n].entries[k].attachmentID == MovedTo(ops[j].action)
  {
    RunHasLineage(construction, ops, trace);
    if forall m :: i <= m < n ==> !Moves(trace[m], ops[m], k) {
      IDStays(ops, trace, i, n, k);
    }
    if Moves(trace[j], ops[j], k) && (forall m :: j < m < n ==> !Moves(trace[m], ops[m], k)) {
      SameInBetween(ops, trace, i, j, n, k);
      SameInBetween(ops, trace, i, j + 1, n, k);
      assert TakesStep(ops, trace, j);
      IDStays(ops, trace, j + 1, n, k);
    }
  }

  lemma {:induction false} IDStays(ops: seq<Op>, trace: seq<Registry>, i: nat, n: nat, k: SessionKey)
    requires HasLineage(ops, trace) && i <= n <= |ops| && SameEntry(trace[i], trace[n], k)
    requires forall m :: i <= m < n ==> !Moves(trace[m], ops[m], k)
    ensures trace[n].entries[k].attachmentID == trace[i].entries[k].attachmentID
  {
    if i < n {
      assert TakesStep(ops, trace, n - 1);
      SameInBetween(ops, trace, i, n - 1, n, k);
      IDStays(ops, trace, i, n - 1, k);
    }
  }

  /** Main result, the same for what is observed: what the last operation on the
      attachment or its control left, and what it was if there was none. */
  lemma ObservedExactly(
      construction: string, ops: seq<Op>, trace: seq<Registry>, i: nat, j: nat, n: nat, k: SessionKey)
    requires IsRun(construction, ops, trace) && i <= j < n <= |ops| && SameEntry(trace[i], trace[n], k)
    ensures (forall m :: i <= m < n ==> !Touches(trace[m], ops[m], k)) ==>
      trace[n].entries[k].Observed() == trace[i].entries[k].Observed()
    ensures Touches(trace[j], ops[j], k) && (forall m :: j < m < n ==> !Touches(trace[m], ops[m], k)) ==>
      trace[n].entries[k].Observed() == LeftBy(ops[j].action)
  {
    RunHasLineage(construction, ops, trace);
    if forall m :: i <= m < n ==> !Touches(trace[m], ops[m], k) {
      ObservedStays(ops, trace, i, n, k);
    }
    if Touches(trace[j], ops[j], k) && (forall m :: j < m < n ==> !Touches(trace[m], ops[m], k)) {
      SameInBetween(ops, trace, i, j, n, k);
      SameInBetween(ops, trace, i, j + 1, n, k);
      assert TakesStep(ops, trace, j);
      ObservedStays(ops, trace, j + 1, n, k);
    }
  }

  lemma {:induction false} ObservedStays(ops: seq<Op>, trace: seq<Registry>, i: nat, n: nat, k: SessionKey)
    requires HasLineage(ops, trace) && i <= n <= |ops| && SameEntry(trace[i], trace[n], k)
    requires forall m :: i <= m < n ==> !Touches(trace[m], ops[m], k)
    ensures trace[n].entries[k].Observed() == trace[i].entries[k].Observed()
  {
    if i < n {
      assert TakesStep(ops, trace, n - 1);
      SameInBetween(ops, trace, i, n - 1, n, k);
      ObservedStays(ops, trace, i, n - 1, k);
    }
  }

  // -------------------------------------------------------- who is forgotten

  /** The operation evicts `k` to map another key while the map is at its cap. */
  ghost predicate Evicts(s: Registry, op: Op, k: SessionKey) {
    && op.Acquire? && !s.closed && op.key !in s.entries && |s.entries| == MaxEntries && Oldest(s.entries, k)
  }

  /** An entry is only forgotten by that, by closing while nobody holds it, or by the
      last release after closing. */
  lemma EntryLeaves(s: Registry, construction: string, op: Op, k: SessionKey)
    requires Inv(s) && k in s.entries && !SameEntry(s, Step(s, construction, op).0, k)
    ensures Evicts(s, op, k) || (op == Close && k !in s.held) || (op == Act(k, Release) && s.closed && k in s.held)
  {
    assert EntryOk(s, k);
    match op
    case Acquire(key) =>
    case Close =>
    case Act(key, action) =>
      if key in s.held {
        assert EntryOk(s, key);
        if !action.Release? { ActOnFrame(s.entries[key], construction, action); }
      }
  }

  /** Entry tokens and insert sequences are given out together. */
  predicate SameNumbers(s: Registry) {
    && s.nextSequence == s.nextEntryToken
    && forall k :: k in s.entries ==> s.entries[k].insertSequence == s.entries[k].entryToken
  }

  lemma NumbersStay(s: Registry, construction: string, op: Op)
    requires SameNumbers(s)
    ensures SameNumbers(Step(s, construction, op).0)
  {
    if op.Act? && op.key in s.entries && !op.action.Release? {
      ActOnFrame(s.entries[op.key], construction, op.action);
    }
  }

  lemma {:induction false} TraceNumbers(construction: string, ops: seq<Op>, trace: seq<Registry>, n: nat)
    requires IsRun(construction, ops, trace) && n <= |ops|
    ensures SameNumbers(trace[n])
  {
    if n > 0 {
      TraceNumbers(construction, ops, trace, n - 1);
      NumbersStay(trace[n - 1], construction, ops[n - 1]);
    }
  }

  /** An entry whose token had been given out by then was there, at the same key. */
  lemma {:induction false} WasThere(ops: seq<Op>, trace: seq<Registry>, i: nat, n: nat, k: SessionKey)
    requires HasLineage(ops, trace) && i <= n <= |ops| && k in trace[n].entries
    requires trace[n].entries[k].entryToken <= trace[i].nextEntryToken
    ensures SameEntry(trace[i], trace[n], k)
  {
    if i < n {
      assert TakesStep(ops, trace, n - 1);
      NextTokensGrow(ops, trace, i, n - 1);
      WasThere(ops, trace, i, n - 1, k);
    }
  }

  lemma {:induction false} NextTokensGrow(ops: seq<Op>, trace: seq<Registry>, i: nat, n: nat)
    requires HasLineage(ops, trace) && i <= n <= |ops|
    ensures trace[i].nextEntryToken <= trace[n].nextEntryToken
  {
    if i < n {
      assert TakesStep(ops, trace, n - 1);
      NextTokensGrow(ops, trace, i, n - 1);
    }
  }

  /** Main result: what is evicted was mapped before everything else that could be:
      whenever another evictable entry was there already, the evicted one was too. */
  lemma EvictedWasEarliest(
      construction: string, ops: seq<Op>, trace: seq<Registry>, i: nat, n: nat, k: SessionKey, other: SessionKey)
    requires IsRun(construction, ops, trace) && i <= n < |ops| && Evicts(trace[n], ops[n], k)
    requires SameEntry(trace[i], trace[n], other) && trace[n].entries[other].Evictable()
    ensures SameEntry(trace[i], trace[n], k)
  {
    RunHasLineage(construction, ops, trace);
    TraceNumbers(construction, ops, trace, n);
    TraceInv(construction, ops, trace, i);
    assert EntryOk(trace[i], other);
    WasThere(ops, trace, i, n, k);
  }
}
