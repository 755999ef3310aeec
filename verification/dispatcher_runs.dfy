/** What holds in every interleaving of prompts, releases, the dispatcher, the exit of
    the process and Close. */
module DispatcherRuns {
  import opened Dispatcher

  /** `trace` is the sequence of states that `steps` lead through. */
  ghost predicate IsRun(steps: seq<Step>, trace: seq<State>) {
    && |trace| == |steps| + 1 && trace[0] == Start
    && forall n :: 0 <= n < |steps| ==> TakesStep(steps, trace, n)
  }

  ghost predicate TakesStep(steps: seq<Step>, trace: seq<State>, n: nat)
    requires |trace| == |steps| + 1 && n < |steps|
  {
    Enabled(trace[n], steps[n]) && trace[n + 1] == Next(trace[n], steps[n])
  }

  /** What the steps of others leave to rely on, as far as `o` is concerned. */
  predicate Local(s: State, o: nat) {
    WorkerOk(s) && WaiterOk(s) && (o in s.ops ==> PhaseOk(s, o) && ClosesOk(s, o))
  }

  lemma InvIsLocal(s: State, o: nat)
    requires Inv(s)
    ensures Local(s, o)
  {
    assert o in s.ops ==> OpOk(s, o);
  }

  /** The step is one of `o` itself, or the dispatcher or the waiter takes it for `o`. */
  predicate Concerns(s: State, step: Step, o: nat) {
    match step
    case Check(q, _, _) => q == o
    case Admit(q) => q == o
    case Answer(q) => q == o
    case Deactivate(q) => q == o
    case NoticeExit(q) => q == o
    case CloseOwn(q) => q == o
    case Release(q) => q == o
    case Receive(q) => q == o
    case Sweep(q) => q == o
    case MarkDone => s.worker == Marking(o)
    case CloseMarked => s.worker == Closing(o)
    case Send => s.worker.Sending? && s.worker.prompt == o
    case _ => false
  }

  /** The step is one of an operation, its goroutine or its caller. */
  predicate ByCaller(step: Step) {
    step.Check? || step.Admit? || step.Answer? || step.Deactivate? || step.NoticeExit? || step.CloseOwn?
    || step.Release? || step.Receive?
  }

  predicate SameAt(s: State, t: State, o: nat) {
    if o in s.ops then o in t.ops && t.ops[o] == s.ops[o] else o !in t.ops
  }

  lemma UntouchedByCaller(s: State, step: Step, o: nat)
    requires Enabled(s, step) && ByCaller(step) && !Concerns(s, step, o)
    ensures SameAt(s, Next(s, step), o)
  {
  }

  lemma UntouchedByOthers(s: State, step: Step, o: nat)
    requires Enabled(s, step) && !ByCaller(step) && !Concerns(s, step, o)
    ensures SameAt(s, Next(s, step), o)
  {
  }

  lemma Untouched(s: State, step: Step, o: nat)
    requires Enabled(s, step) && !Concerns(s, step, o)
    ensures SameAt(s, Next(s, step), o)
  {
    if ByCaller(step) {
      UntouchedByCaller(s, step, o);
    } else {
      UntouchedByOthers(s, step, o);
    }
  }

  /** What one step makes of an operation. */
  predicate Evolves(p: Operation, q: Operation, step: Step, o: nat) {
    && q.session == p.session && q.prompt == p.prompt
    && (p.Admitted() ==> q.Admitted()) && (q.Admitted() && !p.Admitted() ==> step == Admit(o))
    && (q.released <==> p.released || step == Release(o))
    && (step == Release(o) && p.prompt ==> p.phase == Finished)
    && p.closes <= q.closes <= 1 && (p.closes == 1 ==> q.sent == p.sent)
    && (p.closes < q.closes ==> step == CloseOwn(o) || step == CloseMarked || step == Sweep(o))
    && (step == Sweep(o) && p.prompt ==> q.closes == 1)
    && (p.phase == Finished ==> q.phase == Finished && step != CloseOwn(o) && step != Deactivate(o))
    && (p.phase != Finished && q.phase == Finished ==>
          if step == Deactivate(o) then q.closes == p.closes else step == CloseOwn(o) && q.closes == 1)
    && (step == Deactivate(o) ==> q.phase == Finished)
  }

  lemma ProgressEvolves(s: State, step: Step, o: nat)
    requires Local(s, o) && Enabled(s, step) && o in s.ops
    requires step in {Admit(o), Answer(o), NoticeExit(o), Receive(o)}
    ensures o in Next(s, step).ops && Evolves(s.ops[o], Next(s, step).ops[o], step, o)
  {
  }

  lemma EndEvolves(s: State, step: Step, o: nat)
    requires Local(s, o) && Enabled(s, step) && o in s.ops
    requires step in {Deactivate(o), CloseOwn(o), Release(o)}
    ensures o in Next(s, step).ops && Evolves(s.ops[o], Next(s, step).ops[o], step, o)
  {
  }

  lemma OthersEvolve(s: State, step: Step, o: nat)
    requires Local(s, o) && Enabled(s, step) && o in s.ops && !ByCaller(step) && Concerns(s, step, o)
    ensures o in Next(s, step).ops && Evolves(s.ops[o], Next(s, step).ops[o], step, o)
  {
  }

  lemma OpEvolves(s: State, step: Step, o: nat)
    requires Local(s, o) && Enabled(s, step) && o in s.ops
    ensures o in Next(s, step).ops && Evolves(s.ops[o], Next(s, step).ops[o], step, o)
  {
    if !Concerns(s, step, o) {
      Untouched(s, step, o);
    } else if step in {Deactivate(o), CloseOwn(o), Release(o)} {
      EndEvolves(s, step, o);
    } else if ByCaller(step) {
      ProgressEvolves(s, step, o);
    } else {
      OthersEvolve(s, step, o);
    }
  }

  /** An operation begins by passing the unlocked test. */
  lemma Begins(s: State, step: Step, o: nat)
    requires Enabled(s, step) && o !in s.ops && o in Next(s, step).ops
    ensures step.Check? && step.op == o && !s.closed && !s.closing
    ensures !Next(s, step).ops[o].Admitted()
  {
    if !Concerns(s, step, o) { Untouched(s, step, o); }
  }

  lemma {:induction false} RunKeepsInv(steps: seq<Step>, trace: seq<State>, n: nat)
    requires IsRun(steps, trace) && n <= |steps|
    ensures Inv(trace[n])
  {
    if n > 0 {
      RunKeepsInv(steps, trace, n - 1);
      assert TakesStep(steps, trace, n - 1);
      StepKeepsInv(trace[n - 1], steps[n - 1]);
    }
  }

  lemma RunKeepsLocal(steps: seq<Step>, trace: seq<State>, n: nat, o: nat)
    requires IsRun(steps, trace) && n <= |steps|
    ensures Local(trace[n], o)
  {
    RunKeepsInv(steps, trace, n);
    InvIsLocal(trace[n], o);
  }

  // ----------------------------------------------------------------- streams

  /** Main result: no update is ever sent on a closed stream, and no stream is closed
      twice. */
  lemma NoSendOnClosedStream(steps: seq<Step>, trace: seq<State>, n: nat)
    requires IsRun(steps, trace) && n < |steps|
    ensures steps[n].Send? ==>
      trace[n].worker.Sending? && trace[n].worker.prompt in trace[n].ops
        && trace[n].ops[trace[n].worker.prompt].closes == 0
    ensures forall o :: o in trace[n].ops ==> trace[n].ops[o].closes <= 1
  {
    RunKeepsInv(steps, trace, n);
    assert TakesStep(steps, trace, n);
    forall o | o in trace[n].ops ensures trace[n].ops[o].closes <= 1 { assert OpOk(trace[n], o); }
  }

  lemma ClosedStays(s: State, step: Step, o: nat)
    requires Local(s, o) && Enabled(s, step) && o in s.ops && s.ops[o].closes == 1
    ensures o in Next(s, step).ops && Next(s, step).ops[o].closes == 1 && Next(s, step).ops[o].sent == s.ops[o].sent
  {
    OpEvolves(s, step, o);
  }

  /** Once closed, a stream stays as it is. */
  lemma {:induction false} ClosedStreamIsFinal(steps: seq<Step>, trace: seq<State>, i: nat, n: nat, o: nat)
    requires IsRun(steps, trace) && i <= n <= |steps| && o in trace[i].ops && trace[i].ops[o].closes == 1
    ensures o in trace[n].ops && trace[n].ops[o].closes == 1 && trace[n].ops[o].sent == trace[i].ops[o].sent
  {
    if i < n {
      ClosedStreamIsFinal(steps, trace, i, n - 1, o);
      RunKeepsLocal(steps, trace, n - 1, o);
      assert TakesStep(steps, trace, n - 1);

      ClosedStays(trace[n - 1], steps[n - 1], o);
    }
  }

  /** A prompt that has finished its updates has a closed stream, or one the
      dispatcher still has to close. */
  lemma FinishedIsClosedOrQueued(steps: seq<Step>, trace: seq<State>, n: nat, o: nat)
    requires IsRun(steps, trace) && n <= |steps| && o in trace[n].ops && trace[n].ops[o].phase == Finished
    ensures trace[n].ops[o].closes == 1 || o in trace[n].deactivate
            || trace[n].worker == Marking(o) || trace[n].worker == Closing(o)
  {
    RunKeepsInv(steps, trace, n);
    assert OpOk(trace[n], o);
  }

  // ------------------------------------------------------ ordered delivery

  /** The notifications a prompt's consumer has received. */
  function Received(p: Operation): seq<nat>
    requires p.received <= |p.sent|
  {
    p.sent[..p.received]
  }

  /** Main result: what a prompt receives is an in-order selection of the wire's
      notifications for its session. */
  lemma OrderedDelivery(steps: seq<Step>, trace: seq<State>, n: nat, o: nat)
    requires IsRun(steps, trace) && n <= |steps| && o in trace[n].ops
    ensures var s, p := trace[n], trace[n].ops[o];
      && p.received <= |p.sent| <= p.received + 64
      && (forall i, j :: 0 <= i < j < p.received ==> Received(p)[i] < Received(p)[j])
      && (forall i :: 0 <= i < p.received ==> Received(p)[i] < |s.wire| && s.wire[Received(p)[i]] == p.session)
  {
    RunKeepsInv(steps, trace, n);
    assert OpOk(trace[n], o);
  }

  /** Each notification reaches at most one stream, and that at most once. */
  lemma AtMostOneStream(steps: seq<Step>, trace: seq<State>, n: nat, o: nat, q: nat, i: nat, j: nat)
    requires IsRun(steps, trace) && n <= |steps| && o in trace[n].ops && q in trace[n].ops
    requires i < |trace[n].ops[o].sent| && j < |trace[n].ops[q].sent|
    requires trace[n].ops[o].sent[i] == trace[n].ops[q].sent[j]
    ensures o == q && i == j
  {
    RunKeepsInv(steps, trace, n);
    assert OpOk(trace[n], o) && OpOk(trace[n], q);
  }

  // --------------------------------------------------------------- exclusion

  predicate HasSlot(s: State, o: nat) {
    o in s.ops && s.ops[o].Admitted() && !s.ops[o].released
  }

  /** Main result: until the waiter collects what is active, and so at any time while
      `closed` is open, two operations that are admitted and not released never share
      a session. */
  lemma SessionOperationsExclude(steps: seq<Step>, trace: seq<State>, n: nat, o: nat, q: nat)
    requires IsRun(steps, trace) && n <= |steps| && !Gathered(trace[n])
    requires HasSlot(trace[n], o) && HasSlot(trace[n], q) && trace[n].ops[o].session == trace[n].ops[q].session
    ensures o == q
    ensures !trace[n].closed ==> !Gathered(trace[n])
  {
    RunKeepsInv(steps, trace, n);
    assert OpOk(trace[n], o) && OpOk(trace[n], q);
  }

  lemma SlotIsMapped(s: State, o: nat)
    requires Inv(s) && HasSlot(s, o)
    ensures !s.closed ==> s.ops[o].session in s.active && s.active[s.ops[o].session] == o
  {
    assert OpOk(s, o);
  }

  lemma SlotStep(s: State, step: Step, o: nat)
    requires Local(s, o) && Enabled(s, step) && HasSlot(s, o) && s.ops[o].prompt
    ensures HasSlot(Next(s, step), o) || (step == Release(o) && s.ops[o].phase == Finished)
  {
    OpEvolves(s, step, o);
  }

  /** A held prompt keeps its slot until its request has ended, its updates are
      finished and the caller releases it. */
  lemma HeldPromptKeepsSlot(steps: seq<Step>, trace: seq<State>, n: nat, o: nat)
    requires IsRun(steps, trace) && n < |steps|
    requires HasSlot(trace[n], o) && trace[n].ops[o].prompt
    ensures !trace[n].closed ==>
      trace[n].ops[o].session in trace[n].active && trace[n].active[trace[n].ops[o].session] == o
    ensures HasSlot(trace[n + 1], o) || (steps[n] == Release(o) && trace[n].ops[o].phase == Finished)
  {
    RunKeepsInv(steps, trace, n);
    assert TakesStep(steps, trace, n);
    SlotIsMapped(trace[n], o);
    InvIsLocal(trace[n], o);
    SlotStep(trace[n], steps[n], o);
  }

  lemma RefusedWhileClosing(s: State, o: nat)
    requires Enabled(s, Admit(o)) && s.closing
    ensures !Next(s, Admit(o)).ops[o].Admitted()
  {
  }

  lemma ClosingStep(s: State, step: Step, o: nat)
    requires Local(s, o) && Enabled(s, step) && s.closing
    ensures Next(s, step).closing
    ensures o in Next(s, step).ops && Next(s, step).ops[o].Admitted() ==> o in s.ops && s.ops[o].Admitted()
  {
    if o in s.ops {
      OpEvolves(s, step, o);
      if step == Admit(o) { RefusedWhileClosing(s, o); }
    } else if o in Next(s, step).ops {
      Begins(s, step, o);
    }
  }

  /** Main result: once Close has begun nothing is admitted any more. */
  lemma {:induction false} NothingAdmittedAfterClosing(steps: seq<Step>, trace: seq<State>, i: nat, n: nat, o: nat)
    requires IsRun(steps, trace) && i <= n <= |steps| && trace[i].closing
    requires o in trace[n].ops && trace[n].ops[o].Admitted()
    ensures trace[n].closing && o in trace[i].ops && trace[i].ops[o].Admitted()
  {
    if i < n {
      RunKeepsLocal(steps, trace, n - 1, o);
      assert TakesStep(steps, trace, n - 1);
      StillClosing(steps, trace, i, n - 1);

      ClosingStep(trace[n - 1], steps[n - 1], o);
      NothingAdmittedAfterClosing(steps, trace, i, n - 1, o);
    }
  }

  lemma ClosingStays(s: State, step: Step)
    requires Enabled(s, step) && s.closing
    ensures Next(s, step).closing
  {
  }

  lemma {:induction false} StillClosing(steps: seq<Step>, trace: seq<State>, i: nat, n: nat)
    requires IsRun(steps, trace) && i <= n <= |steps| && trace[i].closing
    ensures trace[n].closing
  {
    if i < n {
      StillClosing(steps, trace, i, n - 1);
      assert TakesStep(steps, trace, n - 1);
      ClosingStays(trace[n - 1], steps[n - 1]);
    }
  }

  // ---------------------------------------------------- what does not hold

  lemma Extend(steps: seq<Step>, trace: seq<State>, step: Step)
    returns (longer: seq<Step>, extended: seq<State>, t: State)
    requires IsRun(steps, trace) && Enabled(trace[|steps|], step)
    ensures IsRun(longer, extended) && longer == steps + [step] && trace <= extended
    ensures t == Next(trace[|steps|], step) == extended[|longer|]
  {
    t := Next(trace[|steps|], step);
    longer, extended := steps + [step], trace + [t];
    forall n | 0 <= n < |longer| ensures TakesStep(longer, extended, n) {
      if n < |steps| { assert TakesStep(steps, trace, n); }
    }
  }

  /** After the exit exclusion can fail: an operation that passed the unlocked test
      before it is admitted beside one that still has its slot. */
  lemma ExclusionEndsWithTheProcess() returns (steps: seq<Step>, trace: seq<State>)
    ensures IsRun(steps, trace)
    ensures var s := trace[|steps|];
      s.closed && HasSlot(s, 0) && HasSlot(s, 1) && s.ops[0].session == s.ops[1].session
  {
    var s;
    steps, trace, s := ExitBesideHolder();
    steps, trace, s := Extend(steps, trace, Stop);
    steps, trace, s := Extend(steps, trace, Collect);
    assert s.active == map[] && s.ops[1].phase == Checked && !s.closing && HasSlot(s, 0) && s.ops[0].session == "s";
    steps, trace, s := Extend(steps, trace, Admit(1));
  }

  lemma ExitBesideHolder() returns (steps: seq<Step>, trace: seq<State>, s: State)
    ensures IsRun(steps, trace) && s == trace[|steps|]
    ensures s.waiter == Waiting && s.worker == Idle && s.closed && !s.closing && HasSlot(s, 0) && 1 in s.ops
    ensures s.ops[0].session == "s" && s.ops[1] == Operation("s", false, Checked, false, false, 0, [], 0)
  {
    steps, trace, s := Extend([], [Start], Check(0, "s", false));
    steps, trace, s := Extend(steps, trace, Admit(0));
    assert HasSlot(s, 0) && s.ops[0].session == "s";
    steps, trace, s := Extend(steps, trace, Check(1, "s", false));
    steps, trace, s := Extend(steps, trace, Exit);
  }

  /** The operations known after the exit are those known at the exit. */
  lemma KnownStep(s: State, step: Step, o: nat)
    requires Local(s, o) && Enabled(s, step) && s.closed && o in Next(s, step).ops
    ensures Next(s, step).closed && o in s.ops
    ensures Next(s, step).ops[o].session == s.ops[o].session && Next(s, step).ops[o].prompt == s.ops[o].prompt
  {
    if o in s.ops {
      OpEvolves(s, step, o);
    } else {
      Begins(s, step, o);
    }
  }

  lemma {:induction false} KnownSince(steps: seq<Step>, trace: seq<State>, i: nat, n: nat, o: nat)
    requires IsRun(steps, trace) && i <= n <= |steps| && trace[i].closed && o in trace[n].ops
    ensures trace[n].closed && o in trace[i].ops
    ensures trace[n].ops[o].session == trace[i].ops[o].session && trace[n].ops[o].prompt == trace[i].ops[o].prompt
  {
    if i < n {
      assert TakesStep(steps, trace, n - 1);
      StillClosed(steps, trace, i, n - 1);
      RunKeepsLocal(steps, trace, n - 1, o);
      KnownStep(trace[n - 1], steps[n - 1], o);
      KnownSince(steps, trace, i, n - 1, o);
    }
  }

  lemma ClosedRemains(s: State, step: Step)
    requires Enabled(s, step) && s.closed
    ensures Next(s, step).closed
  {
  }

  lemma {:induction false} StillClosed(steps: seq<Step>, trace: seq<State>, i: nat, n: nat)
    requires IsRun(steps, trace) && i <= n <= |steps| && trace[i].closed
    ensures trace[n].closed
  {
    if i < n {
      StillClosed(steps, trace, i, n - 1);
      assert TakesStep(steps, trace, n - 1);
      ClosedRemains(trace[n - 1], steps[n - 1]);
    }
  }

  /** After the collection a slot that was not there at it is the mapped one. */
  predicate LateIsMapped(had: bool, s: State, o: nat) {
    && Gathered(s)
    && (HasSlot(s, o) && !had ==> Mapped(s, o))
  }

  predicate Mapped(s: State, o: nat)
    requires o in s.ops
  {
    s.ops[o].session in s.active && s.active[s.ops[o].session] == o
  }

  lemma AdmittedIsMapped(s: State, o: nat)
    requires Enabled(s, Admit(o)) && Next(s, Admit(o)).ops[o].Admitted()
    ensures Mapped(Next(s, Admit(o)), o)
  {
  }

  lemma CallerKeepsActive(s: State, step: Step, session: string)
    requires Enabled(s, step) && ByCaller(step) && session in s.active && step != Release(s.active[session])
    ensures session in Next(s, step).active && Next(s, step).active[session] == s.active[session]
  {
  }

  lemma OthersKeepActive(s: State, step: Step)
    requires Enabled(s, step) && !ByCaller(step) && step != Collect
    ensures Next(s, step).active == s.active
  {
  }

  /** A slot is only given up by its operation, or collected. */
  lemma StaysActive(s: State, step: Step, session: string)
    requires Enabled(s, step) && session in s.active && step != Release(s.active[session]) && step != Collect
    ensures session in Next(s, step).active && Next(s, step).active[session] == s.active[session]
  {
    if ByCaller(step) {
      CallerKeepsActive(s, step, session);
    } else {
      OthersKeepActive(s, step);
    }
  }

  lemma SlotGained(s: State, step: Step, o: nat)
    requires Local(s, o) && Enabled(s, step) && !HasSlot(s, o) && HasSlot(Next(s, step), o)
    ensures step == Admit(o) && Mapped(Next(s, step), o)
  {
    if o in s.ops {
      OpEvolves(s, step, o);
      AdmittedIsMapped(s, o);
    } else {
      Begins(s, step, o);
    }
  }

  lemma SlotStaysMapped(s: State, step: Step, o: nat)
    requires Local(s, o) && Enabled(s, step) && Gathered(s) && HasSlot(s, o) && Mapped(s, o)
      && HasSlot(Next(s, step), o)
    ensures Mapped(Next(s, step), o)
  {
    OpEvolves(s, step, o);
    StaysActive(s, step, s.ops[o].session);
  }

  lemma LateStep(had: bool, s: State, step: Step, o: nat)
    requires Local(s, o) && Enabled(s, step) && LateIsMapped(had, s, o)
    ensures LateIsMapped(had, Next(s, step), o)
  {
    if HasSlot(Next(s, step), o) && !had {
      if HasSlot(s, o) {
        SlotStaysMapped(s, step, o);
      } else {
        SlotGained(s, step, o);
      }
    }
  }

  lemma {:induction false} LateSoFar(steps: seq<Step>, trace: seq<State>, i: nat, n: nat, o: nat)
    requires IsRun(steps, trace) && i < n <= |steps| && steps[i] == Collect
    ensures LateIsMapped(HasSlot(trace[i], o), trace[n], o)
  {
    assert TakesStep(steps, trace, n - 1);
    if i < n - 1 {
      LateSoFar(steps, trace, i, n - 1, o);
      RunKeepsLocal(steps, trace, n - 1, o);
      LateStep(HasSlot(trace[i], o), trace[n - 1], steps[n - 1], o);
    }
  }

  /** Exactly when two operations share a session: never before the waiter collects,
      and afterwards if and only if exactly one of them had its slot at that moment.
      Operations admitted after it exclude each other again. */
  lemma SharedSessionExactly(steps: seq<Step>, trace: seq<State>, i: nat, n: nat, o: nat, q: nat)
    requires IsRun(steps, trace) && i < n <= |steps| && steps[i] == Collect
    requires HasSlot(trace[n], o) && HasSlot(trace[n], q) && trace[n].ops[o].session == trace[n].ops[q].session
    ensures o == q <==> HasSlot(trace[i], o) == HasSlot(trace[i], q)
  {
    assert TakesStep(steps, trace, i);
    RunKeepsInv(steps, trace, i);
    KnownSince(steps, trace, i, n, o);
    KnownSince(steps, trace, i, n, q);
    LateSoFar(steps, trace, i, n, o);
    LateSoFar(steps, trace, i, n, q);
    if HasSlot(trace[i], o) && HasSlot(trace[i], q) {
      SessionOperationsExclude(steps, trace, i, o, q);
    }
  }

  /** So no session is ever shared by three. */
  lemma AtMostTwoShare(steps: seq<Step>, trace: seq<State>, n: nat, o: nat, q: nat, r: nat)
    requires IsRun(steps, trace) && n <= |steps|
    requires HasSlot(trace[n], o) && HasSlot(trace[n], q) && HasSlot(trace[n], r)
    requires trace[n].ops[o].session == trace[n].ops[q].session == trace[n].ops[r].session
    ensures o == q || q == r || o == r
  {
    if Gathered(trace[n]) {
      var i := CollectedAt(steps, trace, n);
      SharedSessionExactly(steps, trace, i, n, o, q);
      SharedSessionExactly(steps, trace, i, n, q, r);
      SharedSessionExactly(steps, trace, i, n, o, r);
    } else {
      SessionOperationsExclude(steps, trace, n, o, q);
    }
  }

  lemma GatheredStep(s: State, step: Step)
    requires Enabled(s, step) && Gathered(Next(s, step))
    ensures Gathered(s) || step == Collect
  {
  }

  lemma {:induction false} CollectedAt(steps: seq<Step>, trace: seq<State>, n: nat) returns (i: nat)
    requires IsRun(steps, trace) && n <= |steps| && Gathered(trace[n])
    ensures i < n && steps[i] == Collect
  {
    assert TakesStep(steps, trace, n - 1);
    GatheredStep(trace[n - 1], steps[n - 1]);
    if steps[n - 1] == Collect {
      i := n - 1;
    } else {
      i := CollectedAt(steps, trace, n - 1);
    }
  }

  predicate ToBeSwept(s: State, o: nat) {
    s.waiter.Sweeping? && o in s.waiter.todo
  }

  lemma CallerKeepsWaiter(s: State, step: Step)
    requires Enabled(s, step) && ByCaller(step)
    ensures Next(s, step).waiter == s.waiter && Next(s, step).worker == s.worker
  {
  }

  /** After the collection only the sweep is left to be done. */
  lemma SweepStep(s: State, step: Step, o: nat)
    requires WaiterOk(s) && Enabled(s, step) && Gathered(s)
    ensures Gathered(Next(s, step)) && Next(s, step).worker == Stopped && step != CloseMarked && step != Collect
    ensures ToBeSwept(Next(s, step), o) <==> ToBeSwept(s, o) && step != Sweep(o)
    ensures step == Sweep(o) ==> ToBeSwept(s, o)
    ensures s.waiter == Over ==> Next(s, step).waiter == Over
  {
    if ByCaller(step) { CallerKeepsWaiter(s, step); }
  }

  /** Nothing closes this stream any more: the dispatcher and the waiter are gone, and
      the operation has finished. */
  predicate LeftOpen(s: State, o: nat) {
    o in s.ops && s.ops[o].prompt && s.ops[o].phase == Finished && s.ops[o].closes == 0 && s.worker == Stopped
      && s.waiter == Over
  }

  lemma LeftOpenStep(s: State, step: Step, o: nat)
    requires Local(s, o) && Enabled(s, step) && LeftOpen(s, o)
    ensures LeftOpen(Next(s, step), o)
  {
    OpEvolves(s, step, o);
    SweepStep(s, step, o);
  }

  lemma {:induction false} LeftOpenForEver(steps: seq<Step>, trace: seq<State>, i: nat, n: nat, o: nat)
    requires IsRun(steps, trace) && i <= n <= |steps| && LeftOpen(trace[i], o)
    ensures LeftOpen(trace[n], o)
  {
    if i < n {
      LeftOpenForEver(steps, trace, i, n - 1, o);
      RunKeepsLocal(steps, trace, n - 1, o);
      assert TakesStep(steps, trace, n - 1);

      LeftOpenStep(trace[n - 1], steps[n - 1], o);
    }
  }

  /** After the exit a stream may stay open: its prompt queued itself for closing and
      gave up its slot before the dispatcher stopped without looking at the queue. */
  lemma StreamCanStayOpen() returns (steps: seq<Step>, trace: seq<State>)
    ensures IsRun(steps, trace) && LeftOpen(trace[|steps|], 0)
  {
    var s;
    steps, trace, s := QueuedAfterExit();
    steps, trace, s := Extend(steps, trace, Release(0));
    steps, trace, s := Extend(steps, trace, Stop);
    steps, trace, s := Extend(steps, trace, Collect);
    assert s.waiter == Sweeping({}) && s.ops[0].closes == 0 && s.ops[0].phase == Finished && s.ops[0].prompt;
    steps, trace, s := Extend(steps, trace, SweepEnd);
  }

  lemma QueuedAfterExit() returns (steps: seq<Step>, trace: seq<State>, s: State)
    ensures IsRun(steps, trace) && s == trace[|steps|]
    ensures s.active == map["s" := 0] && s.worker == Idle && s.waiter == Waiting && s.closed
    ensures 0 in s.ops && s.ops[0] == Operation("s", true, Finished, false, false, 0, [], 0)
  {
    steps, trace, s := Extend([], [Start], Check(0, "s", true));
    steps, trace, s := Extend(steps, trace, Admit(0));
    steps, trace, s := Extend(steps, trace, Answer(0));
    steps, trace, s := Extend(steps, trace, Exit);
    assert s.ops[0] == Operation("s", true, Selecting, false, false, 0, [], 0) && s.active == map["s" := 0];
    steps, trace, s := Extend(steps, trace, Deactivate(0));
  }

  predicate Queued(steps: seq<Step>, i: nat, n: nat, o: nat)
    requires n <= |steps|
  {
    exists j :: i <= j < n && steps[j] == Deactivate(o)
  }

  /** From the collection on, for a prompt that was `admitted` by then or not, with its
      stream `open` or not and its slot `released` or not, and that has `queued` itself
      for closing since or not. */
  predicate Fate(admitted: bool, open: bool, released: bool, queued: bool, s: State, o: nat) {
    && Gathered(s) && o in s.ops && s.ops[o].prompt
    && (if admitted then EarlyFate(open, released, s, o) else LateFate(queued, s, o))
  }

  predicate EarlyFate(open: bool, released: bool, s: State, o: nat)
    requires o in s.ops
  {
    if released then !ToBeSwept(s, o) && s.ops[o].phase == Finished && (s.ops[o].closes == 0 <==> open)
    else s.ops[o].Admitted() && (s.ops[o].closes == 1 || ToBeSwept(s, o))
  }

  predicate LateFate(queued: bool, s: State, o: nat)
    requires o in s.ops
  {
    && !ToBeSwept(s, o)
    && (if s.ops[o].phase == Finished then s.ops[o].closes == 0 <==> queued else s.ops[o].closes == 0 && !queued)
  }

  lemma EarlyStep(open: bool, released: bool, s: State, step: Step, o: nat)
    requires Local(s, o) && Enabled(s, step) && Gathered(s) && o in s.ops && s.ops[o].prompt
      && EarlyFate(open, released, s, o)
    ensures o in Next(s, step).ops && EarlyFate(open, released, Next(s, step), o)
  {
    OpEvolves(s, step, o);
    SweepStep(s, step, o);
  }

  lemma LateFateStep(queued: bool, s: State, step: Step, o: nat)
    requires Local(s, o) && Enabled(s, step) && Gathered(s) && o in s.ops && s.ops[o].prompt && LateFate(queued, s, o)
    ensures o in Next(s, step).ops && LateFate(queued || step == Deactivate(o), Next(s, step), o)
  {
    OpEvolves(s, step, o);
    SweepStep(s, step, o);
  }

  lemma FateStep(admitted: bool, open: bool, released: bool, queued: bool, s: State, step: Step, o: nat)
    requires Local(s, o) && Enabled(s, step) && Fate(admitted, open, released, queued, s, o)
    ensures Fate(admitted, open, released, queued || step == Deactivate(o), Next(s, step), o)
  {
    if admitted {
      EarlyStep(open, released, s, step, o);
    } else {
      LateFateStep(queued, s, step, o);
    }
  }

  lemma FateAtCollect(s: State, o: nat)
    requires Inv(s) && Enabled(s, Collect) && o in s.ops && s.ops[o].prompt
    ensures Fate(s.ops[o].Admitted(), s.ops[o].closes == 0, s.ops[o].released, false, Next(s, Collect), o)
  {
    assert OpOk(s, o);
    assert s.ops[o].Admitted() && !s.ops[o].released ==>
      s.ops[o].session in s.active && s.active[s.ops[o].session] == o;
    if o in Collected(s) {
      var session :| session in s.active && s.active[session] == o;
      assert SlotOk(s, session);
    }
  }

  lemma {:induction false} FateSoFar(steps: seq<Step>, trace: seq<State>, i: nat, n: nat, o: nat)
    requires IsRun(steps, trace) && i < n <= |steps| && steps[i] == Collect
    requires o in trace[i].ops && trace[i].ops[o].prompt
    ensures Fate(trace[i].ops[o].Admitted(), trace[i].ops[o].closes == 0, trace[i].ops[o].released,
                 Queued(steps, i, n, o), trace[n], o)
  {
    assert TakesStep(steps, trace, n - 1);
    if i == n - 1 {
      RunKeepsInv(steps, trace, i);
      FateAtCollect(trace[i], o);
    } else {
      RunKeepsLocal(steps, trace, n - 1, o);
      FateSoFar(steps, trace, i, n - 1, o);
      FateStep(trace[i].ops[o].Admitted(), trace[i].ops[o].closes == 0, trace[i].ops[o].released,
               Queued(steps, i, n - 1, o), trace[n - 1], steps[n - 1], o);
    }
  }

  /** Exactly when a finished prompt's stream stays open once the waiter is over. If the
      prompt was admitted when the waiter collected: if and only if its stream was open
      and its slot already released at that moment. If it was admitted only later: if
      and only if it queued itself for closing instead of noticing the exit. */
  lemma StreamLeftOpenExactly(steps: seq<Step>, trace: seq<State>, i: nat, n: nat, o: nat)
    requires IsRun(steps, trace) && i < n <= |steps| && steps[i] == Collect && trace[n].waiter == Over
    requires o in trace[n].ops && trace[n].ops[o].prompt && trace[n].ops[o].phase == Finished
    ensures o in trace[i].ops
    ensures LeftOpen(trace[n], o) <==>
      if trace[i].ops[o].Admitted() then trace[i].ops[o].closes == 0 && trace[i].ops[o].released
      else Queued(steps, i, n, o)
  {
    assert TakesStep(steps, trace, i);
    RunKeepsInv(steps, trace, i);
    KnownSince(steps, trace, i, n, o);
    FateSoFar(steps, trace, i, n, o);
    RunKeepsInv(steps, trace, n);
    assert trace[n].worker == Stopped;
  }

  /** The second way: a prompt that passed the unlocked test before the exit is admitted
      after the sweep, and queues itself for a dispatcher that is gone. */
  lemma LateStreamCanStayOpen() returns (steps: seq<Step>, trace: seq<State>)
    ensures IsRun(steps, trace) && LeftOpen(trace[|steps|], 0)
    ensures |steps| > 3 && steps[3] == Collect && 0 in trace[3].ops && !trace[3].ops[0].Admitted()
  {
    var s;
    steps, trace, s := AdmittedAfterSweep();
    steps, trace, s := Extend(steps, trace, Answer(0));
    steps, trace, s := Extend(steps, trace, Deactivate(0));
  }

  lemma AdmittedAfterSweep() returns (steps: seq<Step>, trace: seq<State>, s: State)
    ensures IsRun(steps, trace) && s == trace[|steps|] && |steps| == 6
    ensures steps[3] == Collect && 0 in trace[3].ops && !trace[3].ops[0].Admitted()
    ensures s.worker == Stopped && s.waiter == Over && s.deactivate == []
    ensures 0 in s.ops && s.ops[0] == Operation("s", true, Running, false, false, 0, [], 0)
  {
    steps, trace, s := ExitDuringCheck();
    steps, trace, s := Extend(steps, trace, SweepEnd);
    steps, trace, s := Extend(steps, trace, Admit(0));
  }

  lemma ExitDuringCheck() returns (steps: seq<Step>, trace: seq<State>, s: State)
    ensures IsRun(steps, trace) && s == trace[|steps|] && |steps| == 4
    ensures steps[3] == Collect && 0 in trace[3].ops && !trace[3].ops[0].Admitted()
    ensures s.waiter == Sweeping({}) && s.worker == Stopped && s.active == map[] && !s.closing && s.deactivate == []
    ensures 0 in s.ops && s.ops[0] == Operation("s", true, Checked, false, false, 0, [], 0)
  {
    steps, trace, s := Extend([], [Start], Check(0, "s", true));
    steps, trace, s := Extend(steps, trace, Exit);
    steps, trace, s := Extend(steps, trace, Stop);
    steps, trace, s := Extend(steps, trace, Collect);
  }
}
