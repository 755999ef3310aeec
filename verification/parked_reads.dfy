/** What each of the agents reads back from the shared state after any sequence of
    writes and resets, as a function of the writes alone. */
module ParkedReads {
  import opened Text
  import opened Parked
  import opened Ownership
  import opened OwnershipRuns

  /** The owner gets its last write back: that is the last of all, or both have session
      ids and its slot is not `gone`. */
  predicate Reaches(e: seq<Op>, owner: string, gone: bool)
    requires OnlyWrites(e)
  {
    && LastWrite(e, owner).Some? && e != []
    && (owner == e[|e| - 1].owner || (!Blank(e[|e| - 1].id) && HasID(e, owner) && !gone))
  }

  function Reads(e: seq<Op>, owner: string, gone: bool): Resolved
    requires OnlyWrites(e)
  {
    if Reaches(e, owner, gone) then ReadBack(LastWrite(e, owner).value) else Nothing
  }

  /** Main result: after any run of writes and resets, by any number of owners, every
      owner reads exactly this. If the last effective write is its own, what it wrote,
      a pending attachment without an id included. Otherwise its last write, provided
      that and the last write of all have session ids and no write since displaced its
      slot; and nothing in all other cases. So nobody ever reads anything stale. */
  lemma ReadsExactly(ops: seq<Op>, owner: string)
    requires forall i :: 0 <= i < |ops| ==> Sensible(ops[i])
    ensures OnlyWrites(Effective(ops))
    ensures Resolve(owner, After(ops)) == Ok(Reads(Effective(ops), owner, Displaced(Effective(ops), owner)))
  {
    EffectiveState(ops);
    RunKeeps(Effective(ops));
    KeptRead(Effective(ops), After(ops), owner);
  }

  lemma KeptRead(e: seq<Op>, stored: Stored, owner: string)
    requires OnlyWrites(e) && AllKept(e, stored)
    ensures Resolve(owner, stored) == Ok(Reads(e, owner, Displaced(e, owner)))
  {
    if e != [] {
      var last := e[|e| - 1];
      if owner == last.owner {
        LastRetained(e);
        ResolveOwn(stored.state, last);
      } else {
        assert Remembers(e, ParkedIn(stored), owner);
        ResolveKept(stored.state, last, owner, Retained(e, owner), LastWrite(e, owner));
      }
    }
  }

  /** What an owner reads beside the last writer. */
  lemma ResolveKept(state: State, last: Op, owner: string, retained: bool, w: Option<Op>)
    requires last.Write? && Records(state, last) && last.owner != "" && last.owner != owner
    requires w.Some? ==> w.value.Write?
    requires Keeps(ParkedIn(Live(state)), owner, retained, w) && (retained ==> !Blank(w.value.id))
    ensures Resolve(owner, Live(state)) == Ok(if retained && !Blank(last.id) then ReadBack(w.value) else Nothing)
  {
    if !retained {
      ResolveUnparked(state, last, owner);
    } else if Blank(last.id) {
      ResolveBlank(state, last, owner);
    } else {
      ResolveParked(state, last, owner, w.value);
    }
  }

  lemma ResolveBlank(state: State, last: Op, owner: string)
    requires last.Write? && Records(state, last) && last.owner != "" && last.owner != owner && Blank(last.id)
    ensures Resolve(owner, Live(state)) == Ok(Nothing)
  {
    ParseStored(last.values);
  }

  /** Exactly when a doubt survives: after any run of writes and resets, an owner whose
      last effective write was flagged reads the flag if and only if that write is the
      last of all, or both have session ids and its slot was not displaced. The first
      pending write of an agent has none, so it hides every parked doubt, and its own
      doubt is lost with the next write of another agent. */
  lemma DoubtSurvivesTakeover(ops: seq<Op>, owner: string)
    requires forall i :: 0 <= i < |ops| ==> Sensible(ops[i])
    requires LastWrite(Effective(ops), owner).Some? && LastWrite(Effective(ops), owner).value.flagged
    ensures OnlyWrites(Effective(ops)) && Resolve(owner, After(ops)).Ok?
    ensures Resolve(owner, After(ops)).value.indeterminate <==>
      Reaches(Effective(ops), owner, Displaced(Effective(ops), owner))
  {
    ReadsExactly(ops, owner);
  }

  lemma OneWrite(first: Op)
    requires first.Write? && first.owner != ""
    ensures Resolve(first.owner, After([first])) == Ok(ReadBack(first))
  {
    assert LastWrite([first], first.owner) == Some(first);
    RunKeeps([first]);
    KeptRead([first], After([first]), first.owner);
  }

  /** The shortest such loss: one pending write, one write by another agent. */
  lemma {:induction false} PendingDoubtIsLost(first: Op, second: Op)
    requires first.Write? && second.Write? && first.owner != "" && second.owner != "" && first.owner != second.owner
    requires first.flagged && Blank(first.id)
    ensures Resolve(first.owner, After([first])) == Ok(ReadBack(first)) && ReadBack(first).indeterminate
    ensures Resolve(first.owner, After([first, second])) == Ok(Nothing)
  {
    OneWrite(first);
    var two := [first, second];
    assert two[..1] == [first];
    assert LastWrite(two, first.owner) == LastWrite([first], first.owner) == Some(first);
    RunKeeps(two);
    KeptRead(two, After(two), first.owner);
  }

  // ---------------------------------------------- when the time stamps rise

  /** Every write has a later time stamp than those before it. */
  predicate Rising(e: seq<Op>)
    requires OnlyWrites(e)
  {
    forall i, j :: 0 <= i < j < |e| ==> Less(e[i].now, e[j].now)
  }

  /** `b` wrote after the last write of `a`. */
  predicate WroteAfter(e: seq<Op>, a: string, b: string)
    requires OnlyWrites(e)
  {
    e != [] && e[|e| - 1].owner != a && (e[|e| - 1].owner == b || WroteAfter(e[..|e| - 1], a, b))
  }

  /** The owners whose last write has a session id and comes after that of `owner`. */
  function Followers(e: seq<Op>, owner: string): set<string>
    requires OnlyWrites(e)
  {
    set other | other in Writers(e) && other != owner && HasID(e, other) && WroteAfter(e, owner, other)
  }

  /** At some write since the owner's last one, eight owners other than the writer have a
      session id from a later write. */
  predicate Overtaken(e: seq<Op>, owner: string)
    requires OnlyWrites(e)
  {
    e != [] && e[|e| - 1].owner != owner
    && (Overtaken(e[..|e| - 1], owner) || |Followers(e[..|e| - 1], owner) - {e[|e| - 1].owner}| >= MaxParkedSessions)
  }

  lemma {:induction false} ParkedEarlier(e: seq<Op>, owner: string, now: string)
    requires OnlyWrites(e) && e != [] && forall i :: 0 <= i < |e| ==> Less(e[i].now, now)
    ensures Less(ParkedAt(e, owner), now)
  {
    assert Less(e[0].now, now);
    if |e| > 1 && e[|e| - 1].owner != owner && e[|e| - 2].owner != owner {
      ParkedEarlier(e[..|e| - 1], owner, now);
    }
  }

  /** Who wrote later is parked later. */
  lemma {:induction false} ParkedInOrder(e: seq<Op>, a: string, b: string)
    requires OnlyWrites(e) && Rising(e) && e != [] && a != b
    requires e[|e| - 1].owner != a && e[|e| - 1].owner != b && WroteAfter(e[..|e| - 1], a, b)
    ensures Less(ParkedAt(e, a), ParkedAt(e, b))
  {
    var front, op := e[..|e| - 1], e[|e| - 1];
    assert e[|e| - 2] == front[|front| - 1];
    if front[|front| - 1].owner == b {
      forall i | 0 <= i < |front| ensures Less(front[i].now, op.now) {
        assert Less(e[i].now, e[|e| - 1].now);
      }
      ParkedEarlier(front, a, op.now);
    } else {
      ParkedInOrder(front, a, b);
    }
  }

  lemma {:induction false} OneWroteAfter(e: seq<Op>, a: string, b: string)
    requires OnlyWrites(e) && a != b && a in Writers(e)
    ensures WroteAfter(e, a, b) || WroteAfter(e, b, a)
  {
    if e[|e| - 1].owner != a && e[|e| - 1].owner != b {
      OthersWrote(e, a);
      OneWroteAfter(e[..|e| - 1], a, b);
    }
  }

  lemma BeforeAsymmetric(e: seq<Op>, a: string, b: string)
    requires OnlyWrites(e) && Less(ParkedAt(e, a), ParkedAt(e, b))
    ensures ParkedBefore(e, a, b) && !ParkedBefore(e, b, a)
  {
    LessIrreflexive(ParkedAt(e, a));
    if Less(ParkedAt(e, b), ParkedAt(e, a)) {
      LessTransitive(ParkedAt(e, a), ParkedAt(e, b), ParkedAt(e, a));
    }
  }

  lemma BeforeTransitive(e: seq<Op>, a: string, b: string, c: string)
    requires OnlyWrites(e) && Less(ParkedAt(e, a), ParkedAt(e, b)) && ParkedBefore(e, b, c)
    ensures ParkedBefore(e, a, c)
  {
    if Less(ParkedAt(e, b), ParkedAt(e, c)) {
      LessTransitive(ParkedAt(e, a), ParkedAt(e, b), ParkedAt(e, c));
    }
  }

  /** Who wrote later outlives. */
  lemma {:induction false} Outlives(e: seq<Op>, a: string, b: string)
    requires OnlyWrites(e) && Rising(e) && a != b && WroteAfter(e, a, b) && Displaced(e, b)
    ensures Displaced(e, a)
  {
    var front := e[..|e| - 1];
    if Displaced(front, b) {
      Outlives(front, a, b);
    } else {
      ParkedInOrder(e, a, b);
      forall other | other in Ahead(e, b) ensures other in Ahead(e, a) {
        BeforeTransitive(e, a, b, other);
      }
      SubsetOfSameSize(Ahead(e, b), Ahead(e, a));
    }
  }

  lemma AheadAreFollowers(e: seq<Op>, owner: string)
    requires OnlyWrites(e) && Rising(e) && e != [] && e[|e| - 1].owner != owner
    requires owner in Writers(e[..|e| - 1]) && !Displaced(e[..|e| - 1], owner)
    ensures Ahead(e, owner) == Followers(e[..|e| - 1], owner) - {e[|e| - 1].owner}
  {
    forall other
      ensures other in Ahead(e, owner) <==> other in Followers(e[..|e| - 1], owner) - {e[|e| - 1].owner}
    {
      AheadOrFollows(e, owner, other);
    }
  }

  lemma AheadOrFollows(e: seq<Op>, owner: string, other: string)
    requires OnlyWrites(e) && Rising(e) && e != [] && e[|e| - 1].owner != owner
    requires owner in Writers(e[..|e| - 1]) && !Displaced(e[..|e| - 1], owner)
    ensures other in Ahead(e, owner) <==> other in Followers(e[..|e| - 1], owner) && other != e[|e| - 1].owner
  {
    var front, op := e[..|e| - 1], e[|e| - 1];
    if other == owner {
      LessIrreflexive(ParkedAt(e, owner));
      LessIrreflexive(owner);
    } else if other != op.owner {
      if WroteAfter(front, owner, other) {
        ParkedInOrder(e, owner, other);
        BeforeAsymmetric(e, owner, other);
        if Displaced(front, other) { Outlives(front, owner, other); }
      } else {
        OneWroteAfter(front, owner, other);
        ParkedInOrder(e, other, owner);
        BeforeAsymmetric(e, other, owner);
      }
    }
  }

  /** Main result: when the time stamps rise, an owner's slot is gone if and only if at
      some write since its last one eight other owners had session ids from later writes. */
  lemma {:induction false} DisplacedInOrder(e: seq<Op>, owner: string)
    requires OnlyWrites(e) && Rising(e) && owner in Writers(e)
    ensures Displaced(e, owner) <==> Overtaken(e, owner)
  {
    if e[|e| - 1].owner != owner {
      OthersWrote(e, owner);
      DisplacedInOrder(e[..|e| - 1], owner);
      if !Displaced(e[..|e| - 1], owner) {
        AheadAreFollowers(e, owner);
      }
    }
  }

  /** The stamps are compared as text, and a whole second is written without a fraction:
      it sorts after every later moment of that second. So a clock that rises is not enough. */
  lemma {:induction false} LaterStampSortsBefore(second: string, fraction: string)
    ensures Less(second + "." + fraction + "Z", second + "Z")
  {
    var a, b := second + "." + fraction + "Z", second + "Z";
    if second != "" {
      LaterStampSortsBefore(second[1..], fraction);
      assert a[1..] == second[1..] + "." + fraction + "Z" && b[1..] == second[1..] + "Z";
    }
  }

  /** What every owner reads when the time stamps rise, and so whether it reads a doubt. */
  lemma ReadsInOrder(ops: seq<Op>, owner: string)
    requires (forall i :: 0 <= i < |ops| ==> Sensible(ops[i])) && OnlyWrites(Effective(ops)) && Rising(Effective(ops))
    ensures Resolve(owner, After(ops)) == Ok(Reads(Effective(ops), owner, Overtaken(Effective(ops), owner)))
    ensures Resolve(owner, After(ops)).value.indeterminate <==>
      Reaches(Effective(ops), owner, Overtaken(Effective(ops), owner)) && LastWrite(Effective(ops), owner).value.flagged
  {
    ReadsExactly(ops, owner);
    if owner in Writers(Effective(ops)) {
      DisplacedInOrder(Effective(ops), owner);
    }
  }

  // ------------------------------------------------ when nobody is displaced

  /** The owners other than `owner` whose last write has a session id. */
  function Parkable(e: seq<Op>, owner: string): set<string> {
    set other | other in Writers(e) && other != owner && HasID(e, other)
  }

  /** After each write at most eight other owners have a session id. */
  predicate NeverCrowded(e: seq<Op>)
    requires OnlyWrites(e)
  {
    e == [] || (NeverCrowded(e[..|e| - 1]) && |Parkable(e, e[|e| - 1].owner)| <= MaxParkedSessions)
  }

  /** No write so far has dropped a slot that was carried forward. */
  ghost predicate NobodyDropped(e: seq<Op>)
    requires OnlyWrites(e)
  {
    e == [] || (NobodyDropped(e[..|e| - 1]) && DropsNobody(After(e[..|e| - 1]), e[|e| - 1]))
  }

  ghost predicate DropsNobody(stored: Stored, op: Op)
    requires op.Write?
  {
    ParkedIn(Live(Put(op, stored))) == Carried(op.owner, stored, op.now)
  }

  lemma ParkableBefore(e: seq<Op>)
    requires e != [] && OnlyWrites(e)
    ensures Parkable(e[..|e| - 1], e[|e| - 1].owner) == Parkable(e, e[|e| - 1].owner)
  {
    var front, op := e[..|e| - 1], e[|e| - 1];
    forall other | other != op.owner ensures HasID(e, other) <==> HasID(front, other) {
      OtherRetained(e, other);
    }
  }

  /** Unless nine owners have session ids nobody is displaced. */
  lemma {:induction false} NotDisplaced(e: seq<Op>, owner: string)
    requires OnlyWrites(e) && NeverCrowded(e) && HasID(e, owner)
    ensures !Displaced(e, owner)
  {
    if e[|e| - 1].owner != owner {
      OtherRetained(e, owner);
      NotDisplaced(e[..|e| - 1], owner);
      ParkableBefore(e);
      LessIrreflexive(owner);
      LessIrreflexive(ParkedAt(e, owner));
      SubsetOfSameSize(Ahead(e, owner), Parkable(e, e[|e| - 1].owner) - {owner});
    }
  }

  /** While nobody is displaced, all who have a session id are carried forward. */
  lemma CarriedAreParkable(e: seq<Op>, stored: Stored, owner: string, now: string)
    requires OnlyWrites(e) && AllKept(e, stored) && NeverCrowded(e)
    ensures Carried(owner, stored, now).Keys == Parkable(e, owner)
  {
    CarriedExactly(e, stored, owner, now);
    forall other | HasID(e, other) ensures Retained(e, other) {
      NotDisplaced(e, other);
    }
  }

  /** The exact bound: no slot is ever dropped if and only if after each write at most
      eight owners other than the writer have a session id. */
  lemma {:induction false} ParkingRestoresExactly(e: seq<Op>)
    requires OnlyWrites(e)
    ensures NobodyDropped(e) <==> NeverCrowded(e)
  {
    if e != [] {
      var front, op := e[..|e| - 1], e[|e| - 1];
      ParkingRestoresExactly(front);
      if NeverCrowded(front) {
        RunKeeps(front);
        CarriedAreParkable(front, After(front), op.owner, op.now);
        ParkableBefore(e);
        PutRecords(op, After(front));
        KeptAll(Carried(op.owner, After(front), op.now));
      }
    }
  }

  lemma KeptAll(slots: map<string, Slot>)
    ensures KeepNewest(slots, MaxParkedSessions) == slots <==> |slots.Keys| <= MaxParkedSessions
  {
    if |slots| <= MaxParkedSessions { FewStay(slots); }
  }

  lemma {:induction false} FewNeverCrowded(e: seq<Op>)
    requires OnlyWrites(e) && |Writers(e)| <= MaxParkedSessions + 1
    ensures NeverCrowded(e)
  {
    if e != [] {
      var op := e[|e| - 1];
      WritersGrow(e);
      SubsetOfSameSize(Writers(e[..|e| - 1]), Writers(e));
      FewNeverCrowded(e[..|e| - 1]);
      assert Parkable(e, op.owner) <= Writers(e) - {op.owner};
      SubsetOfSameSize(Parkable(e, op.owner), Writers(e) - {op.owner});
    }
  }

  /** Main result: with at most nine owners, after any interleaving of takeovers, every
      owner reads back its last write with its normalised values and doubt flag, if that
      is the last write of all or both have session ids; and nothing otherwise. */
  lemma ParkingRestores(ops: seq<Op>, owner: string)
    requires OnlyWrites(ops) && |Writers(ops)| <= MaxParkedSessions + 1
    requires LastWrite(ops, owner).Some?
    ensures var w, last := LastWrite(ops, owner).value, ops[|ops| - 1];
      Resolve(owner, After(ops)) ==
        Ok(if owner == last.owner || (!Blank(w.id) && !Blank(last.id)) then ReadBack(w) else Nothing)
  {
    RunKeeps(ops);
    KeptRead(ops, After(ops), owner);
    FewNeverCrowded(ops);
    if HasID(ops, owner) { NotDisplaced(ops, owner); }
  }

  /** The bound cannot be raised: when nine owners other than the last writer have a
      session id, one of them has been displaced and reads nothing. */
  lemma {:induction false} NinthParkedIsDisplaced(e: seq<Op>) returns (owner: string)
    requires OnlyWrites(e) && e != [] && |Parkable(e, e[|e| - 1].owner)| > MaxParkedSessions
    ensures owner in Parkable(e, e[|e| - 1].owner) && Displaced(e, owner) && Resolve(owner, After(e)) == Ok(Nothing)
  {
    var op, state := e[|e| - 1], After(e).state;
    RunKeeps(e);
    PutRecords(op, After(e[..|e| - 1]));
    var slots := ParkedIn(Live(state));
    if Parkable(e, op.owner) <= slots.Keys { SubsetOfSameSize(Parkable(e, op.owner), slots.Keys); }
    owner :| owner in Parkable(e, op.owner) && owner !in slots;
    assert Remembers(e, slots, owner);
    ResolveUnparked(state, op, owner);
  }

  /** The owner, if it wrote at all, reads back its last write. */
  ghost predicate ReadsBack(ops: seq<Op>, owner: string) {
    LastWrite(ops, owner).Some? ==> Resolve(owner, After(ops)) == Ok(ReadBack(LastWrite(ops, owner).value))
  }

  predicate AllHaveIDs(ops: seq<Op>) {
    forall i :: 0 <= i < |ops| ==> ops[i].Write? && !Blank(ops[i].id)
  }

  lemma FewReadBack(ops: seq<Op>, owner: string)
    requires OnlyWrites(ops) && AllHaveIDs(ops) && |Writers(ops)| <= MaxParkedSessions + 1
    ensures ReadsBack(ops, owner)
  {
    if LastWrite(ops, owner).Some? {
      ParkingRestores(ops, owner);
    }
  }

  lemma TenthOwnerDisplaces(ops: seq<Op>) returns (owner: string)
    requires OnlyWrites(ops) && AllHaveIDs(ops) && |Writers(ops)| > MaxParkedSessions + 1
    ensures !ReadsBack(ops, owner)
  {
    var last := ops[|ops| - 1];
    assert Writers(ops) - {last.owner} <= Parkable(ops, last.owner);
    SubsetOfSameSize(Writers(ops) - {last.owner}, Parkable(ops, last.owner));
    owner := NinthParkedIsDisplaced(ops);
  }

  /** In a run whose writes all have session ids every writer reads back its last write
      if and only if there are at most nine of them. */
  lemma NineReadBackExactly(ops: seq<Op>)
    requires OnlyWrites(ops) && AllHaveIDs(ops)
    ensures (forall owner {:trigger ReadsBack(ops, owner)} :: ReadsBack(ops, owner)) <==>
      |Writers(ops)| <= 9
  {
    if |Writers(ops)| <= MaxParkedSessions + 1 {
      forall owner ensures ReadsBack(ops, owner) { FewReadBack(ops, owner); }
    } else {
      var owner := TenthOwnerDisplaces(ops);
    }
  }
}
