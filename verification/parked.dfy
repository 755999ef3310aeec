/** Bounding the parked sessions: the oldest slots are dropped until few enough
    remain. Age is the order of the time stamps as strings, then of the names. */
module Parked {
  import opened Text
  import opened ConfigState

  const MaxParkedSessions := 8

  /** A parked slot: an object with these fields, or something else. */
  datatype Slot =
    | Slot(sessionID: Option<Any>, configValues: Option<Any>, indeterminate: Option<Any>, parkedAt: Option<Any>)
    | NotASlot
  {
    /** A slot without a readable time stamp counts as the oldest. */
    function At(): string {
      if Slot? && parkedAt.Some? then TextOf(parkedAt.value) else ""
    }
  }

  predicate Older(slots: map<string, Slot>, a: string, b: string)
    requires a in slots && b in slots
  {
    Less(slots[a].At(), slots[b].At()) || (slots[a].At() == slots[b].At() && Less(a, b))
  }

  lemma OlderTotal(slots: map<string, Slot>, a: string, b: string)
    requires a in slots && b in slots
    ensures Older(slots, a, b) || a == b || Older(slots, b, a)
    ensures !Older(slots, a, a)
  {
    LessTotal(slots[a].At(), slots[b].At());
    LessTotal(a, b);
    LessIrreflexive(slots[a].At());
    LessIrreflexive(a);
  }

  lemma OlderTransitive(slots: map<string, Slot>, a: string, b: string, c: string)
    requires a in slots && b in slots && c in slots && Older(slots, a, b) && Older(slots, b, c)
    ensures Older(slots, a, c)
  {
    if Less(slots[a].At(), slots[b].At()) && Less(slots[b].At(), slots[c].At()) {
      LessTransitive(slots[a].At(), slots[b].At(), slots[c].At());
    }
    if Less(a, b) && Less(b, c) {
      LessTransitive(a, b, c);
    }
  }

  lemma OlderAsymmetric(slots: map<string, Slot>, a: string, b: string)
    requires a in slots && b in slots && Older(slots, a, b)
    ensures !Older(slots, b, a)
  {
    if Older(slots, b, a) {
      OlderTransitive(slots, a, b, a);
      OlderTotal(slots, a, a);
    }
  }

  /** `oldest` is older than every other of `names`. */
  ghost predicate OldestOf(slots: map<string, Slot>, names: set<string>, oldest: string)
    requires names <= slots.Keys
  {
    oldest in names && forall k :: k in names && k != oldest ==> Older(slots, oldest, k)
  }

  /** `kept` are the newest of `slots`: at most `limit`, each newer than every one dropped. */
  ghost predicate Newest(slots: map<string, Slot>, limit: nat, kept: map<string, Slot>) {
    && kept.Keys <= slots.Keys && (forall k :: k in kept ==> kept[k] == slots[k])
    && |kept| == (if |slots| <= limit then |slots| else limit)
    && forall d, k :: d in slots && d !in kept && k in kept ==> Older(slots, d, k)
  }

  /** One pass over the map in any order. */
  method FindOldestSlot(slots: map<string, Slot>) returns (oldest: string)
    requires slots != map[]
    ensures oldest in slots
    ensures "" !in slots ==> OldestOf(slots, slots.Keys, oldest)
  {
    oldest := "";
    var oldestAt := "";
    var todo := slots.Keys;
    while todo != {}
      invariant todo <= slots.Keys
      invariant oldest in slots.Keys - todo || (oldest == "" && todo == slots.Keys)
      invariant oldest != "" ==> oldestAt == slots[oldest].At()
      invariant "" !in slots && todo != slots.Keys ==> OldestOf(slots, slots.Keys - todo, oldest)
      decreases todo
    {
      var name :| name in todo;
      var at := slots[name].At();
      ghost var seen := slots.Keys - todo;
      todo := todo - {name};
      assert slots.Keys - todo == seen + {name};
      if oldest == "" || Less(at, oldestAt) || (at == oldestAt && Less(name, oldest)) {
        if "" !in slots && oldest != "" { NowOldest(slots, seen, oldest, name); }
        oldest, oldestAt := name, at;
      } else if "" !in slots {
        OlderTotal(slots, oldest, name);
      }
    }
    assert slots.Keys - {} == slots.Keys;
  }

  lemma NowOldest(slots: map<string, Slot>, seen: set<string>, oldest: string, name: string)
    requires seen <= slots.Keys && name in slots && OldestOf(slots, seen, oldest) && Older(slots, name, oldest)
    ensures OldestOf(slots, seen + {name}, name)
  {
    forall k | k in seen && k != oldest ensures Older(slots, name, k) {
      OlderTransitive(slots, name, oldest, k);
    }
  }

  /** Always ends with few enough slots, whatever their names; and for nonempty
      names, which owner names are, with the newest ones. */
  method DropOldestParked(slots: map<string, Slot>, limit: nat) returns (kept: map<string, Slot>)
    ensures kept.Keys <= slots.Keys && (forall k :: k in kept ==> kept[k] == slots[k])
    ensures |kept| == (if |slots| <= limit then |slots| else limit)
    ensures "" !in slots ==> Newest(slots, limit, kept)
  {
    kept := slots;
    while |kept| > limit
      invariant kept.Keys <= slots.Keys && (forall k :: k in kept ==> kept[k] == slots[k])
      invariant |kept| >= (if |slots| <= limit then |slots| else limit)
      invariant "" !in slots ==> forall d, k :: d in slots && d !in kept && k in kept ==> Older(slots, d, k)
      decreases |kept|
    {
      var oldest := FindOldestSlot(kept);
      assert (kept - {oldest}).Keys == kept.Keys - {oldest};
      kept := kept - {oldest};
    }
    SubsetOfSameSize(kept.Keys, slots.Keys);
  }

  lemma SubsetOfSameSize(a: set<string>, b: set<string>)
    requires a <= b
    ensures |a| <= |b| && (|a| == |b| ==> a == b)
  {
    if a != {} {
      var x :| x in a;
      SubsetOfSameSize(a - {x}, b - {x});
    } else if b != {} {
      assert |b| > 0;
    }
  }

  /** The outcome does not depend on the order of iteration: there is only one. */
  lemma NewestUnique(slots: map<string, Slot>, limit: nat, a: map<string, Slot>, b: map<string, Slot>)
    requires Newest(slots, limit, a) && Newest(slots, limit, b)
    ensures a == b
  {
    if k :| k in a && k !in b {
      if b.Keys <= a.Keys {
        SubsetOfSameSize(b.Keys, a.Keys);
      } else {
        var j :| j in b && j !in a;
        OlderAsymmetric(slots, k, j);
      }
    } else {
      SubsetOfSameSize(a.Keys, b.Keys);
    }
  }

  /** One slot fewer than `slots` has, and so on: the newest always exist. */
  lemma {:induction false} NewestExists(slots: map<string, Slot>, limit: nat) returns (kept: map<string, Slot>)
    ensures Newest(slots, limit, kept)
    decreases |slots|
  {
    if |slots| <= limit {
      kept := slots;
    } else {
      var oldest := OldestExists(slots, slots.Keys);
      var rest := slots - {oldest};
      assert rest.Keys == slots.Keys - {oldest};
      kept := NewestExists(rest, limit);
      forall d, k | d in slots && d !in kept && k in kept ensures Older(slots, d, k) {
        if d != oldest { assert Older(rest, d, k); }
      }
    }
  }

  lemma {:induction false} OldestExists(slots: map<string, Slot>, names: set<string>) returns (oldest: string)
    requires names <= slots.Keys && names != {}
    ensures OldestOf(slots, names, oldest)
    decreases names
  {
    var x :| x in names;
    var rest := names - {x};
    assert names == rest + {x};
    if rest == {} {
      oldest := x;
    } else {
      oldest := OldestExists(slots, rest);
      OlderTotal(slots, x, oldest);
      if Older(slots, x, oldest) {
        NowOldest(slots, rest, oldest, x);
        oldest := x;
      }
    }
  }

  /** The newest slots of a bounded number, as the state keeps them. */
  ghost function KeepNewest(slots: map<string, Slot>, limit: nat): (kept: map<string, Slot>)
    ensures Newest(slots, limit, kept)
  {
    assert exists k :: Newest(slots, limit, k) by { var k := NewestExists(slots, limit); }
    var k :| Newest(slots, limit, k);
    k
  }
}
