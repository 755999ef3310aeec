/** The client's dispatcher as a step relation. Prompt goroutines, the dispatcher, the
    process waiter, Close and the wire reader each take one step at a time, in any
    order; where a select has several ready cases, any of them may be taken.

    An operation is known by a number. Notifications are known by their position on
    the wire. */
module Dispatcher {
  import opened Text

  const QueueCapacity := 256
  const StreamCapacity := 64

  /** How far the caller, or the goroutine, of an operation has come: it has passed
      the unlocked test, was refused, runs, is about to finish its updates, has seen
      that the process is gone and waits for the dispatcher, or has finished them. */
  datatype Phase = Checked | Refused | Running | Selecting | Awaiting | Finished

  datatype Operation = Operation(
    session: string,
    prompt: bool,      // has an update stream
    phase: Phase,
    released: bool,
    updatesDone: bool,
    closes: nat,       // how often its stream was closed
    sent: seq<nat>,
    received: nat)
  {
    predicate Admitted() {
      phase != Checked && phase != Refused
    }

    /** The slot is given up after the operation, or after the prompt's updates are finished. */
    predicate MayRelease() {
      !released && (if prompt then phase == Finished else phase == Running)
    }

    function ClosedOnce(): Operation {
      if prompt && closes == 0 then this.(closes := 1) else this
    }
  }

  /** The dispatcher: waiting, marking and then closing a finished prompt, looking up
      who a notification it took is for, sending it to the prompt it found, or gone. */
  datatype Worker =
    | Idle
    | Marking(prompt: nat)
    | Closing(prompt: nat)
    | Looking(index: nat)
    | Sending(prompt: nat, index: nat)
    | Stopped

  /** The process waiter: before the exit, waiting for the dispatcher, closing the
      streams it collected, or done. */
  datatype Waiter = Watching | Waiting | Sweeping(todo: set<nat>) | Over

  /** `frontier` and `takenBy` are history: how far the wire was dequeued, and which
      operation each sent notification went to. */
  datatype State = State(
    ops: map<nat, Operation>,
    active: map<string, nat>,
    closing: bool,
    closed: bool,
    deactivate: seq<nat>,
    wire: seq<string>,
    updates: seq<nat>,
    worker: Worker,
    waiter: Waiter,
    frontier: nat,
    takenBy: map<nat, nat>)

  const Start := State(map[], map[], false, false, [], [], [], Idle, Watching, 0, map[])

  datatype Step =
    | Check(op: nat, session: string, prompt: bool)
    | Admit(op: nat)
    | Answer(op: nat)
    | Deactivate(op: nat)
    | NoticeExit(op: nat)
    | CloseOwn(op: nat)
    | Release(op: nat)
    | Receive(op: nat)
    | Notify(session: string)
    | TakeDeactivated
    | MarkDone
    | CloseMarked
    | TakeUpdate
    | LookUp
    | Send
    | Abandon
    | Stop
    | Exit
    | Collect
    | Sweep(op: nat)
    | SweepEnd
    | Close

  predicate Enabled(s: State, step: Step) {
    match step
    case Check(o, session, _) => o !in s.ops && session != "" && !s.closing && !s.closed
    case Admit(o) => o in s.ops && s.ops[o].phase == Checked
    case Answer(o) => o in s.ops && s.ops[o].prompt && s.ops[o].phase == Running
    case Deactivate(o) => o in s.ops && s.ops[o].phase == Selecting && |s.deactivate| < QueueCapacity
    case NoticeExit(o) => o in s.ops && s.ops[o].phase == Selecting && s.closed
    case CloseOwn(o) => o in s.ops && s.ops[o].phase == Awaiting && s.worker == Stopped
    case Release(o) => o in s.ops && s.ops[o].MayRelease()
    case Receive(o) => o in s.ops && s.ops[o].received < |s.ops[o].sent|
    case Notify(_) => true
    case TakeDeactivated => s.worker == Idle && s.deactivate != []
    case MarkDone => s.worker.Marking? && s.worker.prompt in s.ops
    case CloseMarked => s.worker.Closing? && s.worker.prompt in s.ops
    case TakeUpdate => s.worker == Idle && s.updates != []
    case LookUp => s.worker.Looking?
    case Send =>
      && s.worker.Sending? && s.worker.prompt in s.ops
      && |s.ops[s.worker.prompt].sent| < s.ops[s.worker.prompt].received + StreamCapacity
    case Abandon => s.worker.Sending? && s.closed
    case Stop => s.worker == Idle && s.closed
    case Exit => s.waiter == Watching
    case Collect => s.waiter == Waiting && s.worker == Stopped
    case Sweep(o) => s.waiter.Sweeping? && o in s.waiter.todo && o in s.ops
    case SweepEnd => s.waiter.Sweeping? && s.waiter.todo == {}
    case Close => true
  }

  function Put(s: State, o: nat, p: Operation): State {
    s.(ops := s.ops[o := p])
  }

  /** The locked half of admission. */
  function AdmitStep(s: State, o: nat): State
    requires o in s.ops
  {
    if s.closing || s.ops[o].session in s.active then
      Put(s, o, s.ops[o].(phase := Refused))
    else
      Put(s, o, s.ops[o].(phase := Running)).(active := s.active[s.ops[o].session := o])
  }

  function ReleaseStep(s: State, o: nat): State
    requires o in s.ops
  {
    var session := s.ops[o].session;
    Put(s, o, s.ops[o].(released := true)).(
      active := if session in s.active && s.active[session] == o then s.active - {session} else s.active)
  }

  /** The prompt a notification for `session` goes to, if any. */
  function Target(s: State, session: string): Option<nat> {
    if session in s.active && s.active[session] in s.ops
       && s.ops[s.active[session]].prompt && !s.ops[s.active[session]].updatesDone
    then Some(s.active[session])
    else None
  }

  function TakeUpdateStep(s: State): State
    requires s.updates != []
  {
    s.(updates := s.updates[1..], frontier := s.updates[0] + 1, worker := Looking(s.updates[0]))
  }

  /** The locked lookup. */
  function LookUpStep(s: State): State
    requires s.worker.Looking?
  {
    var index := s.worker.index;
    var target := if index < |s.wire| then Target(s, s.wire[index]) else None;
    s.(worker := if target.Some? then Sending(target.value, index) else Idle)
  }

  function SendStep(s: State): State
    requires s.worker.Sending? && s.worker.prompt in s.ops
  {
    var o, index := s.worker.prompt, s.worker.index;
    Put(s, o, s.ops[o].(sent := s.ops[o].sent + [index])).(worker := Idle, takenBy := s.takenBy[index := o])
  }

  function NotifyStep(s: State, session: string): State {
    s.(wire := s.wire + [session],
       updates := if |s.updates| < QueueCapacity then s.updates + [|s.wire|] else s.updates)
  }

  function Collected(s: State): set<nat> {
    set session | session in s.active :: s.active[session]
  }

  function Next(s: State, step: Step): State
    requires Enabled(s, step)
  {
    match step
    case Check(o, session, prompt) => Put(s, o, Operation(session, prompt, Checked, false, false, 0, [], 0))
    case Admit(o) => AdmitStep(s, o)
    case Answer(o) => Put(s, o, s.ops[o].(phase := Selecting))
    case Deactivate(o) => Put(s, o, s.ops[o].(phase := Finished)).(deactivate := s.deactivate + [o])
    case NoticeExit(o) => Put(s, o, s.ops[o].(phase := Awaiting))
    case CloseOwn(o) => Put(s, o, s.ops[o].ClosedOnce().(phase := Finished))
    case Release(o) => ReleaseStep(s, o)
    case Receive(o) => Put(s, o, s.ops[o].(received := s.ops[o].received + 1))
    case Notify(session) => NotifyStep(s, session)
    case TakeDeactivated => s.(deactivate := s.deactivate[1..], worker := Marking(s.deactivate[0]))
    case MarkDone =>
      Put(s, s.worker.prompt, s.ops[s.worker.prompt].(updatesDone := true)).(worker := Closing(s.worker.prompt))
    case CloseMarked => Put(s, s.worker.prompt, s.ops[s.worker.prompt].ClosedOnce()).(worker := Idle)
    case TakeUpdate => TakeUpdateStep(s)
    case LookUp => LookUpStep(s)
    case Send => SendStep(s)
    case Abandon => s.(worker := Idle)
    case Stop => s.(worker := Stopped)
    case Exit => s.(closed := true, waiter := Waiting)
    case Collect => s.(waiter := Sweeping(Collected(s)), active := map[])
    case Sweep(o) => Put(s, o, s.ops[o].ClosedOnce()).(waiter := Sweeping(s.waiter.todo - {o}))
    case SweepEnd => s.(waiter := Over)
    case Close => s.(closing := true)
  }

  // --------------------------------------------------------------- invariant

  predicate Gathered(s: State) {
    s.waiter.Sweeping? || s.waiter.Over?
  }

  /** Everything sent lies below this position. */
  function Bound(s: State): nat {
    if s.worker.Looking? || s.worker.Sending? then s.worker.index else s.frontier
  }

  predicate Increasing(xs: seq<nat>) {
    forall i, j :: 0 <= i < j < |xs| ==> xs[i] < xs[j]
  }

  /** What was sent to `o`: in order, its own notifications, and to nobody else. */
  predicate StreamOk(s: State, o: nat)
    requires o in s.ops
  {
    var p := s.ops[o];
    && Increasing(p.sent)
    && (forall i :: 0 <= i < |p.sent| ==>
          && p.sent[i] < Bound(s) && p.sent[i] < |s.wire| && s.wire[p.sent[i]] == p.session
          && p.sent[i] in s.takenBy && s.takenBy[p.sent[i]] == o)
    && p.received <= |p.sent| <= p.received + StreamCapacity
  }

  predicate PhaseOk(s: State, o: nat)
    requires o in s.ops
  {
    var p := s.ops[o];
    && (p.phase == Selecting || p.phase == Awaiting || p.phase == Finished ==> p.prompt)
    && (p.phase == Awaiting ==> s.closed)
    && (p.released ==> p.Admitted() && (p.prompt ==> p.phase == Finished))
    && (p.Admitted() && !p.released && !Gathered(s) ==> p.session in s.active && s.active[p.session] == o)
    && p.session != ""
  }

  predicate ClosesOk(s: State, o: nat)
    requires o in s.ops
  {
    var p := s.ops[o];
    && p.closes <= 1
    && (p.closes == 1 ==> p.prompt && p.Admitted() && (p.updatesDone || s.worker == Stopped))
    && (p.updatesDone ==> p.prompt && p.phase == Finished)
    && (p.phase == Finished ==>
          p.closes == 1 || o in s.deactivate || s.worker == Marking(o) || s.worker == Closing(o))
  }

  predicate SlotOk(s: State, session: string)
    requires session in s.active
  {
    var o := s.active[session];
    o in s.ops && s.ops[o].session == session && s.ops[o].Admitted() && !s.ops[o].released
  }

  predicate WorkerOk(s: State) {
    match s.worker
    case Idle => true
    case Stopped => s.closed
    case Marking(o) => o in s.ops && s.ops[o].phase == Finished
    case Closing(o) => o in s.ops && s.ops[o].phase == Finished && s.ops[o].updatesDone
    case Looking(index) => index < |s.wire| && s.frontier == index + 1
    case Sending(o, index) =>
      && o in s.ops && s.ops[o].prompt && !s.ops[o].updatesDone && s.ops[o].closes == 0
      && index < |s.wire| && s.wire[index] == s.ops[o].session && s.frontier == index + 1
  }

  predicate QueuesOk(s: State) {
    && |s.deactivate| <= QueueCapacity && |s.updates| <= QueueCapacity
    && (forall i :: 0 <= i < |s.deactivate| ==> s.deactivate[i] in s.ops && s.ops[s.deactivate[i]].phase == Finished)
    && Increasing(s.updates)
    && (forall i :: 0 <= i < |s.updates| ==> s.frontier <= s.updates[i] < |s.wire|)
    && s.frontier <= |s.wire|
  }

  predicate WaiterOk(s: State) {
    && (s.closed <==> s.waiter != Watching)
    && (Gathered(s) ==> s.worker == Stopped && s.closed)
    && (s.waiter.Sweeping? ==> forall o :: o in s.waiter.todo ==> o in s.ops && s.ops[o].Admitted())
  }

  predicate OpOk(s: State, o: nat)
    requires o in s.ops
  {
    StreamOk(s, o) && PhaseOk(s, o) && ClosesOk(s, o)
  }

  predicate PartsOk(s: State) {
    WorkerOk(s) && QueuesOk(s) && WaiterOk(s)
  }

  ghost predicate Inv(s: State) {
    && PartsOk(s)
    && (forall o {:trigger OpOk(s, o)} :: o in s.ops ==> OpOk(s, o))
    && (forall session {:trigger SlotOk(s, session)} :: session in s.active ==> SlotOk(s, session))
  }

  /** What a step may do to the operations other than `o`, and to what they rely on. */
  ghost predicate Touches(s: State, t: State, o: nat) {
    && (forall q :: q in t.ops && q != o ==> q in s.ops && t.ops[q] == s.ops[q])
    && s.wire <= t.wire && Bound(s) <= Bound(t)
    && (forall k :: k in s.takenBy && k < Bound(s) ==> k in t.takenBy && t.takenBy[k] == s.takenBy[k])
    && (s.closed ==> t.closed) && (Gathered(s) ==> Gathered(t)) && (s.worker == Stopped ==> t.worker == Stopped)
    && (forall q :: q in s.deactivate && q != o ==> q in t.deactivate || t.worker == Marking(q))
    && (forall q :: q != o && (s.worker == Marking(q) || s.worker == Closing(q)) ==>
         t.worker == Marking(q) || t.worker == Closing(q))
    && (forall session :: session in s.active && s.active[session] != o && !Gathered(t) ==>
          session in t.active && t.active[session] == s.active[session])
  }

  /** A step that touches at most `o` keeps the invariant, if all else is as it should be. */
  lemma Assemble(s: State, t: State, o: nat)
    requires Inv(s) && Touches(s, t, o) && PartsOk(t) && (o in t.ops ==> OpOk(t, o))
    requires forall session {:trigger SlotOk(t, session)} :: session in t.active ==> SlotOk(t, session)
    ensures Inv(t)
  {
    OthersOk(s, t, o);
  }

  lemma OthersOk(s: State, t: State, o: nat)
    requires Inv(s) && Touches(s, t, o)
    ensures forall q {:trigger OpOk(t, q)} :: q in t.ops && q != o ==> OpOk(t, q)
  {
    forall q | q in t.ops && q != o ensures OpOk(t, q) {
      assert OpOk(s, q);
    }
  }

  /** A step that changes neither the slots nor who may have one. */
  lemma SlotsOk(s: State, t: State, o: nat)
    requires Inv(s) && t.active == s.active
    requires forall q :: q in s.ops && q != o ==> q in t.ops && t.ops[q] == s.ops[q]
    requires o in s.ops ==> o in t.ops && t.ops[o].session == s.ops[o].session && t.ops[o].released == s.ops[o].released
                            && (s.ops[o].Admitted() ==> t.ops[o].Admitted())
    ensures forall session {:trigger SlotOk(t, session)} :: session in t.active ==> SlotOk(t, session)
  {
    forall session | session in t.active ensures SlotOk(t, session) { assert SlotOk(s, session); }
  }

  // The steps of an operation and its caller.

  /** What stays of an operation when only its own progress changes. */
  predicate SameCall(p: Operation, q: Operation) {
    && q.session == p.session && q.prompt == p.prompt && q.released == p.released && q.updatesDone == p.updatesDone
    && q.sent == p.sent && (p.Admitted() ==> q.Admitted()) && (p.phase == Finished ==> q.phase == Finished)
  }

  lemma PutKeeps(s: State, o: nat, p: Operation)
    requires Inv(s) && OpOk(Put(s, o, p), o)
    requires o in s.ops ==> SameCall(s.ops[o], p)
    requires s.worker.Sending? && s.worker.prompt == o ==> p.closes == 0
    ensures Inv(Put(s, o, p))
  {
    var t := Put(s, o, p);
    OthersOk(s, t, o);
    SlotsOk(s, t, o);
  }

  lemma CheckKeeps(s: State, step: Step)
    requires Inv(s) && Enabled(s, step) && step.Check?
    ensures Inv(Next(s, step))
  {
    PutKeeps(s, step.op, Next(s, step).ops[step.op]);
  }

  lemma AdvanceKeeps(s: State, step: Step)
    requires Inv(s) && Enabled(s, step) && (step.Answer? || step.NoticeExit? || step.Receive?)
    ensures Inv(Next(s, step))
  {
    assert OpOk(s, step.op);
    var p := Next(s, step).ops[step.op];
    assert OpOk(Put(s, step.op, p), step.op);
    PutKeeps(s, step.op, p);
  }

  lemma CloseOwnKeeps(s: State, o: nat)
    requires Inv(s) && Enabled(s, CloseOwn(o))
    ensures Inv(Next(s, CloseOwn(o)))
  {
    assert OpOk(s, o);
    PutKeeps(s, o, s.ops[o].ClosedOnce().(phase := Finished));
  }

  lemma DeactivatedOk(s: State, o: nat)
    requires Inv(s) && Enabled(s, Deactivate(o))
    ensures var t := Next(s, Deactivate(o)); OpOk(t, o) && PartsOk(t)
  {
    assert OpOk(s, o);
    assert Next(s, Deactivate(o)).deactivate[|s.deactivate|] == o;
  }

  lemma DeactivateKeeps(s: State, o: nat)
    requires Inv(s) && Enabled(s, Deactivate(o))
    ensures Inv(Next(s, Deactivate(o)))
  {
    var t := Next(s, Deactivate(o));
    DeactivatedOk(s, o);
    SlotsOk(s, t, o);
    Assemble(s, t, o);
  }

  lemma RefuseKeeps(s: State, o: nat)
    requires Inv(s) && Enabled(s, Admit(o)) && (s.closing || s.ops[o].session in s.active)
    ensures Inv(AdmitStep(s, o))
  {
    assert OpOk(s, o);
    PutKeeps(s, o, s.ops[o].(phase := Refused));
  }

  lemma AdmittedOk(s: State, o: nat)
    requires Inv(s) && Enabled(s, Admit(o)) && !s.closing && s.ops[o].session !in s.active
    ensures var t := AdmitStep(s, o); OpOk(t, o) && PartsOk(t) && !t.ops[o].released
  {
    assert OpOk(s, o);
  }

  lemma AdmitKeeps(s: State, o: nat)
    requires Inv(s) && Enabled(s, Admit(o)) && !s.closing && s.ops[o].session !in s.active
    ensures Inv(AdmitStep(s, o))
  {
    var t := AdmitStep(s, o);
    AdmittedOk(s, o);
    forall session | session in t.active ensures SlotOk(t, session) {
      if session != s.ops[o].session { assert SlotOk(s, session); }
    }
    Assemble(s, t, o);
  }

  lemma ReleasedOk(s: State, o: nat)
    requires Inv(s) && Enabled(s, Release(o))
    ensures var t := ReleaseStep(s, o); OpOk(t, o) && PartsOk(t)
  {
    assert OpOk(s, o);
  }

  lemma ReleaseKeeps(s: State, o: nat)
    requires Inv(s) && Enabled(s, Release(o))
    ensures Inv(ReleaseStep(s, o))
  {
    var t := ReleaseStep(s, o);
    ReleasedOk(s, o);
    forall session | session in t.active ensures SlotOk(t, session) {
      assert SlotOk(s, session);
    }
    Assemble(s, t, o);
  }

  // The steps of the dispatcher.

  lemma TakenOk(s: State)
    requires Inv(s) && Enabled(s, TakeDeactivated)
    ensures var t := Next(s, TakeDeactivated); OpOk(t, s.deactivate[0]) && PartsOk(t)
  {
    assert s.deactivate == [s.deactivate[0]] + s.deactivate[1..];
    assert OpOk(s, s.deactivate[0]);
  }

  lemma TakeDeactivatedKeeps(s: State)
    requires Inv(s) && Enabled(s, TakeDeactivated)
    ensures Inv(Next(s, TakeDeactivated))
  {
    var t, o := Next(s, TakeDeactivated), s.deactivate[0];
    assert s.deactivate == [o] + t.deactivate;
    TakenOk(s);
    SlotsOk(s, t, o);
    Assemble(s, t, o);
  }

  lemma MarkedOk(s: State)
    requires Inv(s) && Enabled(s, MarkDone)
    ensures var t := Next(s, MarkDone); OpOk(t, s.worker.prompt) && PartsOk(t)
  {
    assert OpOk(s, s.worker.prompt);
  }

  lemma MarkDoneKeeps(s: State)
    requires Inv(s) && Enabled(s, MarkDone)
    ensures Inv(Next(s, MarkDone))
  {
    var t, o := Next(s, MarkDone), s.worker.prompt;
    MarkedOk(s);
    SlotsOk(s, t, o);
    Assemble(s, t, o);
  }

  lemma ClosedOk(s: State)
    requires Inv(s) && Enabled(s, CloseMarked)
    ensures var t := Next(s, CloseMarked); OpOk(t, s.worker.prompt) && PartsOk(t)
  {
    assert OpOk(s, s.worker.prompt);
  }

  lemma CloseMarkedKeeps(s: State)
    requires Inv(s) && Enabled(s, CloseMarked)
    ensures Inv(Next(s, CloseMarked))
  {
    var t, o := Next(s, CloseMarked), s.worker.prompt;
    ClosedOk(s);
    SlotsOk(s, t, o);
    Assemble(s, t, o);
  }

  /** No operation is touched; each still relies on the same things. */
  lemma WorkerKeeps(s: State, t: State)
    requires Inv(s) && t.ops == s.ops && t.active == s.active && t.deactivate == s.deactivate && t.takenBy == s.takenBy
    requires s.wire <= t.wire && Bound(s) <= Bound(t) && t.closing == s.closing
    requires (s.closed ==> t.closed) && (Gathered(s) <==> Gathered(t)) && (s.worker == Stopped ==> t.worker == Stopped)
    requires s.worker.Marking? || s.worker.Closing? ==> t.worker == s.worker
    requires PartsOk(t)
    ensures Inv(t)
  {
    forall q | q in t.ops ensures OpOk(t, q) { assert OpOk(s, q); }
    forall session | session in t.active ensures SlotOk(t, session) { assert SlotOk(s, session); }
  }

  lemma TakeUpdateKeeps(s: State)
    requires Inv(s) && Enabled(s, TakeUpdate)
    ensures Inv(Next(s, TakeUpdate))
  {
    var t := Next(s, TakeUpdate);
    assert Increasing(t.updates) by {
      forall i, j | 0 <= i < j < |t.updates| ensures t.updates[i] < t.updates[j] {
        assert t.updates[i] == s.updates[i + 1] && t.updates[j] == s.updates[j + 1];
      }
    }
    WorkerKeeps(s, t);
  }

  lemma LookUpKeeps(s: State)
    requires Inv(s) && Enabled(s, LookUp)
    ensures Inv(Next(s, LookUp))
  {
    var target := Target(s, s.wire[s.worker.index]);
    if target.Some? {
      assert SlotOk(s, s.wire[s.worker.index]) && OpOk(s, target.value);
      assert s.ops[target.value].closes == 0;
    }
    WorkerKeeps(s, Next(s, LookUp));
  }

  lemma SentStreamOk(s: State, o: nat, index: nat)
    requires s.worker == Sending(o, index) && WorkerOk(s) && StreamOk(s, o) && Enabled(s, Send)
    ensures StreamOk(SendStep(s), o)
  {
    var p, q := s.ops[o], SendStep(s).ops[o];
    forall i | 0 <= i < |p.sent| ensures q.sent[i] == p.sent[i] < index {}
  }

  lemma SentOk(s: State)
    requires Inv(s) && Enabled(s, Send)
    ensures var t := Next(s, Send); OpOk(t, s.worker.prompt) && PartsOk(t)
  {
    assert OpOk(s, s.worker.prompt);
    SentStreamOk(s, s.worker.prompt, s.worker.index);
  }

  lemma SendKeeps(s: State)
    requires Inv(s) && Enabled(s, Send)
    ensures Inv(Next(s, Send))
  {
    var t, o := Next(s, Send), s.worker.prompt;
    SentOk(s);
    SlotsOk(s, t, o);
    Assemble(s, t, o);
  }

  lemma {:induction false} NotifyKeeps(s: State, session: string)
    requires Inv(s)
    ensures Inv(NotifyStep(s, session))
  {
    WorkerKeeps(s, NotifyStep(s, session));
  }

  // The steps of the waiter and of Close.

  lemma CollectKeeps(s: State)
    requires Inv(s) && Enabled(s, Collect)
    ensures Inv(Next(s, Collect))
  {
    var t := Next(s, Collect);
    forall q | q in t.ops ensures OpOk(t, q) { assert OpOk(s, q); }
    forall o | o in Collected(s) ensures o in t.ops && t.ops[o].Admitted() {
      var session :| session in s.active && s.active[session] == o;
      assert SlotOk(s, session);
    }
  }

  lemma SweptOk(s: State, o: nat)
    requires Inv(s) && Enabled(s, Sweep(o))
    ensures var t := Next(s, Sweep(o)); OpOk(t, o) && PartsOk(t)
  {
    assert OpOk(s, o);
  }

  lemma SweepKeeps(s: State, o: nat)
    requires Inv(s) && Enabled(s, Sweep(o))
    ensures Inv(Next(s, Sweep(o)))
  {
    var t := Next(s, Sweep(o));
    SweptOk(s, o);
    SlotsOk(s, t, o);
    Assemble(s, t, o);
  }

  lemma CloseKeeps(s: State)
    requires Inv(s)
    ensures Inv(Next(s, Close))
  {
    var t := Next(s, Close);
    forall q | q in t.ops ensures OpOk(t, q) { assert OpOk(s, q); }
    forall session | session in t.active ensures SlotOk(t, session) { assert SlotOk(s, session); }
  }

  lemma CallerStepKeeps(s: State, step: Step)
    requires Inv(s) && Enabled(s, step)
    requires step.Check? || step.Admit? || step.Answer? || step.Deactivate? || step.NoticeExit? || step.CloseOwn?
             || step.Release? || step.Receive?
    ensures Inv(Next(s, step))
  {
    if step.Check? { CheckKeeps(s, step); }
    else if step.Admit? {
      if s.closing || s.ops[step.op].session in s.active { RefuseKeeps(s, step.op); } else { AdmitKeeps(s, step.op); }
    }
    else if step.Deactivate? { DeactivateKeeps(s, step.op); }
    else if step.CloseOwn? { CloseOwnKeeps(s, step.op); }
    else if step.Release? { ReleaseKeeps(s, step.op); }
    else { AdvanceKeeps(s, step); }
  }

  lemma WorkerStepKeeps(s: State, step: Step)
    requires Inv(s) && Enabled(s, step)
    requires step in {TakeDeactivated, MarkDone, CloseMarked, TakeUpdate, LookUp, Send}
    ensures Inv(Next(s, step))
  {
    match step
    case TakeDeactivated => TakeDeactivatedKeeps(s);
    case MarkDone => MarkDoneKeeps(s);
    case CloseMarked => CloseMarkedKeeps(s);
    case TakeUpdate => TakeUpdateKeeps(s);
    case LookUp => LookUpKeeps(s);
    case Send => SendKeeps(s);
  }

  /** The dispatcher gives up an update or its work, or the process exits. */
  lemma EndingKeeps(s: State, step: Step)
    requires Inv(s) && Enabled(s, step) && step in {Abandon, Stop, Exit, SweepEnd}
    ensures Inv(Next(s, step))
  {
    WorkerKeeps(s, Next(s, step));
  }

  /** The invariant holds after every step of every party. */
  lemma StepKeepsInv(s: State, step: Step)
    requires Inv(s) && Enabled(s, step)
    ensures Inv(Next(s, step))
  {
    match step
    case Notify(session) => NotifyKeeps(s, session);
    case TakeDeactivated => WorkerStepKeeps(s, step);
    case MarkDone => WorkerStepKeeps(s, step);
    case CloseMarked => WorkerStepKeeps(s, step);
    case TakeUpdate => WorkerStepKeeps(s, step);
    case LookUp => WorkerStepKeeps(s, step);
    case Send => WorkerStepKeeps(s, step);
    case Abandon => EndingKeeps(s, step);
    case Stop => EndingKeeps(s, step);
    case Exit => EndingKeeps(s, step);
    case SweepEnd => EndingKeeps(s, step);
    case Collect => CollectKeeps(s);
    case Sweep(o) => SweepKeeps(s, o);
    case Close => CloseKeeps(s);
    case _ => CallerStepKeeps(s, step);
  }
}
