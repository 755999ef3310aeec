/** What becomes of every notification: dropped as it arrives when the queue is full, or
    looked up in time and delivered to the prompt its session has then. */
module Delivery {
  import opened Dispatcher
  import opened DispatcherRuns

  /** The prompt that takes the notifications for its session. */
  predicate Listens(s: State, o: nat) {
    HasSlot(s, o) && s.ops[o].prompt && !s.ops[o].updatesDone
  }

  /** The notification in the dispatcher's hand is for the session of `o`. */
  predicate IsFor(s: State, o: nat) {
    && o in s.ops && s.worker.Looking? && s.worker.index < |s.wire|
    && s.wire[s.worker.index] == s.ops[o].session
  }

  /** A lookup finds exactly the prompt that listens for the session. */
  lemma LookUpExactly(s: State, o: nat)
    requires Inv(s) && s.worker.Looking?
    ensures Next(s, LookUp).worker == Sending(o, s.worker.index) <==> IsFor(s, o) && Listens(s, o)
  {
    assert o in s.ops ==> OpOk(s, o);
    var session := s.wire[s.worker.index];
    assert session in s.active ==> SlotOk(s, session);
  }

  /** While nothing is collected yet, the locked half of admission refuses exactly when the
      client is closing or somebody has a slot for the session. */
  lemma AdmittedExactly(s: State, o: nat)
    requires Inv(s) && Enabled(s, Admit(o)) && !Gathered(s)
    ensures Next(s, Admit(o)).ops[o].Admitted() <==>
      !s.closing && forall q :: HasSlot(s, q) ==> s.ops[q].session != s.ops[o].session
  {
    var session := s.ops[o].session;
    if session in s.active {
      assert SlotOk(s, session) && HasSlot(s, s.active[session]);
    }
    forall q | HasSlot(s, q) && session !in s.active ensures s.ops[q].session != session {
      assert OpOk(s, q);
    }
  }

  // ------------------------------------------------------------ who listens

  /** The step that lets the prompt `o` take notifications. */
  predicate Opens(s: State, step: Step, o: nat) {
    step == Admit(o) && o in s.ops && s.ops[o].prompt && !s.closing && s.ops[o].session !in s.active
  }

  /** The steps that end it: its release, or the dispatcher marking it as finished, which
      it only does after the prompt was answered and queued for that. */
  predicate Ends(s: State, step: Step, o: nat) {
    step == Release(o) || (step == MarkDone && s.worker == Marking(o))
  }

  lemma CallerListens(s: State, step: Step, o: nat)
    requires Enabled(s, step) && ByCaller(step) && Concerns(s, step, o) && (o in s.ops ==> OpOk(s, o))
    ensures Listens(Next(s, step), o) <==> Opens(s, step, o) || (Listens(s, o) && !Ends(s, step, o))
  {
  }

  lemma OtherListens(s: State, step: Step, o: nat)
    requires Inv(s) && Enabled(s, step) && !ByCaller(step) && Concerns(s, step, o)
    ensures Listens(Next(s, step), o) <==> Listens(s, o) && !Ends(s, step, o)
  {
  }

  lemma ListensStep(s: State, step: Step, o: nat)
    requires Inv(s) && Enabled(s, step)
    ensures Listens(Next(s, step), o) <==> Opens(s, step, o) || (Listens(s, o) && !Ends(s, step, o))
  {
    if !Concerns(s, step, o) {
      Untouched(s, step, o);
    } else if ByCaller(step) {
      assert o in s.ops ==> OpOk(s, o);
      CallerListens(s, step, o);
    } else {
      OtherListens(s, step, o);
    }
  }

  /** The prompt was let in by step `m`, and nothing has ended it by `n`. */
  ghost predicate OpenSince(steps: seq<Step>, trace: seq<State>, m: nat, n: nat, o: nat)
    requires |trace| == |steps| + 1 && m < n <= |steps|
  {
    Opens(trace[m], steps[m], o) && forall j :: m < j < n ==> !Ends(trace[j], steps[j], o)
  }

  /** Main result: a prompt takes notifications from its admission on, for as long as it
      is neither released nor marked, and at no other time. */
  lemma {:induction false} ListensExactly(steps: seq<Step>, trace: seq<State>, n: nat, o: nat)
    requires IsRun(steps, trace) && n <= |steps|
    ensures Listens(trace[n], o) <==> exists m :: 0 <= m < n && OpenSince(steps, trace, m, n, o)
  {
    if n > 0 {
      assert TakesStep(steps, trace, n - 1);
      RunKeepsInv(steps, trace, n - 1);
      ListensStep(trace[n - 1], steps[n - 1], o);
      ListensExactly(steps, trace, n - 1, o);
      SinceStep(steps, trace, n - 1, n, o);
    }
  }

  lemma SinceStep(steps: seq<Step>, trace: seq<State>, p: nat, n: nat, o: nat)
    requires |trace| == |steps| + 1 && n == p + 1 <= |steps|
    ensures (exists m :: 0 <= m < n && OpenSince(steps, trace, m, n, o)) <==>
      || Opens(trace[p], steps[p], o)
      || ((exists m :: 0 <= m < p && OpenSince(steps, trace, m, p, o)) && !Ends(trace[p], steps[p], o))
  {
    if Opens(trace[p], steps[p], o) {
      assert OpenSince(steps, trace, p, n, o);
    } else if m :| 0 <= m < p && OpenSince(steps, trace, m, p, o) && !Ends(trace[p], steps[p], o) {
      assert OpenSince(steps, trace, m, n, o);
    } else {
      forall m | 0 <= m < n ensures !OpenSince(steps, trace, m, n, o) {
        assert m < p ==> !OpenSince(steps, trace, m, p, o) || Ends(trace[p], steps[p], o);
      }
    }
  }

  // ------------------------------------------------------------- the streams

  lemma SentStep(s: State, step: Step, o: nat)
    requires Enabled(s, step) && o in s.ops
    ensures o in Next(s, step).ops
    ensures Next(s, step).ops[o].sent ==
      if step == Send && s.worker.prompt == o then s.ops[o].sent + [s.worker.index] else s.ops[o].sent
  {
    if !Concerns(s, step, o) { Untouched(s, step, o); }
  }

  lemma BeginsUnsent(s: State, step: Step, o: nat)
    requires Enabled(s, step) && o !in s.ops && o in Next(s, step).ops
    ensures Next(s, step).ops[o].sent == []
  {
    Begins(s, step, o);
  }

  lemma CallerKeepsHand(s: State, step: Step)
    requires Enabled(s, step) && ByCaller(step)
    ensures Next(s, step).worker == s.worker && Next(s, step).closed == s.closed
    ensures Next(s, step).updates == s.updates && Next(s, step).wire == s.wire
  {
  }

  /** How the dispatcher comes to send something, and what becomes of it. */
  lemma HandStep(s: State, step: Step, o: nat, i: nat)
    requires Enabled(s, step)
    ensures Next(s, step).worker == Sending(o, i) ==>
      s.worker == Sending(o, i) || (step == LookUp && s.worker == Looking(i))
    ensures s.worker == Sending(o, i) ==> Next(s, step).worker == Sending(o, i) || step == Send || s.closed
    ensures s.closed ==> Next(s, step).closed
  {
    if ByCaller(step) { CallerKeepsHand(s, step); }
  }

  /** Notification `i` was sent to `o`, or the dispatcher is about to. */
  predicate Delivered(s: State, o: nat, i: nat) {
    o in s.ops && (i in s.ops[o].sent || s.worker == Sending(o, i))
  }

  /** It was looked up while `o` listened for its session. */
  predicate LookedUpFor(steps: seq<Step>, trace: seq<State>, m: nat, o: nat, i: nat)
    requires |trace| == |steps| + 1 && m < |steps|
  {
    steps[m] == LookUp && trace[m].worker == Looking(i) && IsFor(trace[m], o) && Listens(trace[m], o)
  }

  /** One step delivers exactly what it looks up for `o`, and before the exit nothing that
      was delivered is taken back. */
  lemma DeliveryStep(s: State, step: Step, o: nat, i: nat)
    requires Inv(s) && Enabled(s, step)
    ensures var found := step == LookUp && s.worker == Looking(i) && IsFor(s, o) && Listens(s, o);
      && (Delivered(Next(s, step), o, i) ==> Delivered(s, o, i) || found)
      && (!Next(s, step).closed && (Delivered(s, o, i) || found) ==> Delivered(Next(s, step), o, i))
  {
    HandStep(s, step, o, i);
    if o in s.ops {
      SentStep(s, step, o);
      if step == Send { assert i in s.ops[o].sent ==> i in Next(s, step).ops[o].sent; }
    } else if o in Next(s, step).ops {
      BeginsUnsent(s, step, o);
    }
    if step == LookUp { LookUpExactly(s, o); }
  }

  /** Main result: until the process exits, a notification is on a prompt's stream, or in
      the dispatcher's hand for it, if and only if it was looked up while the prompt was
      admitted, unreleased and unfinished and had the notification's session. */
  lemma {:induction false} DeliveredExactly(steps: seq<Step>, trace: seq<State>, n: nat, o: nat, i: nat)
    requires IsRun(steps, trace) && n <= |steps| && !trace[n].closed
    ensures Delivered(trace[n], o, i) <==> exists m :: 0 <= m < n && LookedUpFor(steps, trace, m, o, i)
  {
    if n > 0 {
      assert TakesStep(steps, trace, n - 1);
      RunKeepsInv(steps, trace, n - 1);
      HandStep(trace[n - 1], steps[n - 1], o, i);
      DeliveryStep(trace[n - 1], steps[n - 1], o, i);
      DeliveredExactly(steps, trace, n - 1, o, i);
      assert LookedUpFor(steps, trace, n - 1, o, i) ==> exists m :: 0 <= m < n && LookedUpFor(steps, trace, m, o, i);
    }
  }

  // --------------------------------------------------------------- the queue

  /** Notification `i` arrives and finds 256 others waiting. */
  predicate ArrivesLate(steps: seq<Step>, trace: seq<State>, m: nat, i: nat)
    requires |trace| == |steps| + 1 && m < |steps|
  {
    steps[m].Notify? && |trace[m].wire| == i && |trace[m].updates| == 256
  }

  predicate LookedUp(steps: seq<Step>, trace: seq<State>, m: nat, i: nat)
    requires |trace| == |steps| + 1 && m < |steps|
  {
    steps[m] == LookUp && trace[m].worker == Looking(i)
  }

  /** Notification `i` waits, or the dispatcher has just taken it. */
  predicate Waits(s: State, i: nat) {
    i in s.updates || s.worker == Looking(i)
  }

  lemma WaitStep(s: State, step: Step, i: nat)
    requires Inv(s) && Enabled(s, step) && i < |Next(s, step).wire|
    ensures Waits(s, i) && !(step == LookUp && s.worker == Looking(i)) ==> Waits(Next(s, step), i)
    ensures i >= |s.wire| ==> step.Notify? && |s.wire| == i && (|s.updates| < QueueCapacity ==> Waits(Next(s, step), i))
  {
    if ByCaller(step) {
      CallerKeepsHand(s, step);
    } else if step == TakeUpdate {
      assert s.updates == [s.updates[0]] + s.updates[1..];
    } else if step.Notify? {
      assert |s.updates| < QueueCapacity ==> Next(s, step).updates[|s.updates|] == |s.wire|;
    }
  }

  /** Main result: every notification that has arrived waits in the queue, has just been
      taken, has been looked up, or was dropped on arrival because the queue was full. */
  lemma {:induction false} NothingSkipped(steps: seq<Step>, trace: seq<State>, n: nat, i: nat)
    requires IsRun(steps, trace) && n <= |steps| && i < |trace[n].wire|
    ensures Waits(trace[n], i)
      || (exists m :: 0 <= m < n && LookedUp(steps, trace, m, i))
      || (exists m :: 0 <= m < n && ArrivesLate(steps, trace, m, i))
  {
    assert TakesStep(steps, trace, n - 1);
    RunKeepsInv(steps, trace, n - 1);
    WaitStep(trace[n - 1], steps[n - 1], i);
    if i < |trace[n - 1].wire| {
      NothingSkipped(steps, trace, n - 1, i);
      if Waits(trace[n - 1], i) && !Waits(trace[n], i) {
        assert LookedUp(steps, trace, n - 1, i);
      }
    } else if !Waits(trace[n], i) {
      assert ArrivesLate(steps, trace, n - 1, i);
    }
  }

  // ------------------------------------------------------------- no deadlock

  /** The dispatcher, or the consumer it waits for, can take a step. */
  predicate DispatcherMoves(s: State) {
    || Enabled(s, TakeDeactivated) || Enabled(s, MarkDone) || Enabled(s, CloseMarked) || Enabled(s, TakeUpdate)
    || Enabled(s, LookUp) || Enabled(s, Send) || Enabled(s, Abandon) || Enabled(s, Stop)
    || (s.worker.Sending? && Enabled(s, Receive(s.worker.prompt)))
  }

  /** Something waits for the dispatcher, or it is to stop. */
  predicate HasWork(s: State) {
    s.worker != Idle || s.deactivate != [] || s.updates != [] || s.closed
  }

  /** Whatever waits for the dispatcher does not wait for ever behind it: it has work that
      it can do, and a stream that is full can be read from. */
  lemma NeverStuck(steps: seq<Step>, trace: seq<State>, n: nat)
    requires IsRun(steps, trace) && n <= |steps|
    ensures trace[n].worker != Stopped && HasWork(trace[n]) ==> DispatcherMoves(trace[n])
  {
    RunKeepsInv(steps, trace, n);
    if trace[n].worker.Sending? { assert OpOk(trace[n], trace[n].worker.prompt); }
    MovesOn(trace[n]);
  }

  lemma MovesOn(s: State)
    requires WorkerOk(s) && (s.worker.Sending? ==> StreamOk(s, s.worker.prompt))
    ensures s.worker != Stopped && HasWork(s) ==> DispatcherMoves(s)
  {
    match s.worker
    case Idle =>
    case Stopped =>
    case Marking(_) => assert Enabled(s, MarkDone);
    case Closing(_) => assert Enabled(s, CloseMarked);
    case Looking(_) => assert Enabled(s, LookUp);
    case Sending(o, _) => assert Enabled(s, Send) || Enabled(s, Receive(o));
  }

  /** A prompt that is to finish its updates can do so, or the dispatcher moves first. */
  lemma FinishingNeverBlocks(steps: seq<Step>, trace: seq<State>, n: nat, o: nat)
    requires IsRun(steps, trace) && n <= |steps| && o in trace[n].ops
    ensures trace[n].ops[o].phase == Selecting ==>
      Enabled(trace[n], Deactivate(o)) || Enabled(trace[n], NoticeExit(o)) || DispatcherMoves(trace[n])
    ensures trace[n].ops[o].phase == Awaiting ==> Enabled(trace[n], CloseOwn(o)) || DispatcherMoves(trace[n])
  {
    NeverStuck(steps, trace, n);
    RunKeepsInv(steps, trace, n);
    assert OpOk(trace[n], o);
  }
}
