/** Starting and closing the agent. Any number of callers want the client initialised
    and any number call Close; a gate admits one at a time, and the lifetime of the
    agent can be canceled at any moment. Each step of each of them is one step here. */
module Lifecycle {
  import opened Text

  /** How far a caller of `ensureInitialized` or of `Close` has come. */
  datatype Progress =
    | Queued                      // wants the gate
    | Inside                      // has the gate, before the tests
    | Launching                   // passed the tests: no client yet
    | Initializing(client: nat)   // has started this client
    | Accepting(client: nat)      // initialised, not canceled: about to publish it
    | Returned(ok: bool)
    | CloseQueued                 // lifetime canceled, wants the gate
    | CloseInside                 // has the gate
    | CloseMarked                 // the agent is marked closed
    | CloseReturned
  {
    predicate HasGate() {
      Inside? || Launching? || Initializing? || Accepting? || CloseInside? || CloseMarked?
    }

    /** The client this caller has launched and not yet published or closed. */
    predicate InFlight(id: nat) {
      (Initializing? || Accepting?) && client == id
    }
  }

  datatype State = State(
    callers: map<nat, Progress>,
    gate: Option<nat>,        // who is inside the gate
    canceled: bool,           // the agent's lifetime is over
    closed: bool,
    published: set<nat>,      // every client ever stored in the agent
    launched: set<nat>,
    shut: set<nat>)           // clients whose Close was called

  const Start := State(map[], None, false, false, {}, {}, {})

  datatype Step =
    | Call(caller: nat)
    | Enter(caller: nat)
    | GiveUp(caller: nat)          // canceled while queued
    | Fail(caller: nat)            // closed or canceled, seen inside the gate
    | Ready(caller: nat)           // there is a client already
    | Pass(caller: nat)
    | LaunchFails(caller: nat)
    | Launch(caller: nat, client: nat)
    | Accept(caller: nat)
    | Discard(caller: nat)         // initialisation failed or was canceled
    | Publish(caller: nat)
    | CallClose(caller: nat)
    | EnterClose(caller: nat)
    | MarkClosed(caller: nat)
    | ShutPublished(caller: nat)
    | Cancel                       // by whoever owns the parent context

  predicate At(s: State, c: nat, p: Progress) {
    c in s.callers && s.callers[c] == p
  }

  predicate Enabled(s: State, step: Step) {
    match step
    case Call(c) => c !in s.callers
    case Enter(c) => At(s, c, Queued) && s.gate == None
    case GiveUp(c) => At(s, c, Queued)
    case Fail(c) => At(s, c, Inside)
    case Ready(c) => At(s, c, Inside) && !s.closed && !s.canceled && s.published != {}
    case Pass(c) => At(s, c, Inside) && !s.closed && !s.canceled && s.published == {}
    case LaunchFails(c) => At(s, c, Launching)
    case Launch(c, id) => At(s, c, Launching) && id !in s.launched
    case Accept(c) => c in s.callers && s.callers[c].Initializing? && !s.canceled
    case Discard(c) => c in s.callers && s.callers[c].Initializing?
    case Publish(c) => c in s.callers && s.callers[c].Accepting?
    case CallClose(c) => c !in s.callers
    case EnterClose(c) => At(s, c, CloseQueued) && s.gate == None
    case MarkClosed(c) => At(s, c, CloseInside)
    case ShutPublished(c) => At(s, c, CloseMarked)
    case Cancel => true
  }

  function Move(s: State, c: nat, p: Progress): State {
    s.(callers := s.callers[c := p])
  }

  function Leave(s: State, c: nat, p: Progress): State {
    Move(s, c, p).(gate := None)
  }

  function Next(s: State, step: Step): State
    requires Enabled(s, step)
  {
    match step
    case Call(c) => Move(s, c, Queued)
    case Enter(c) => Move(s, c, Inside).(gate := Some(c))
    case GiveUp(c) => Move(s, c, Returned(false))
    case Fail(c) => Leave(s, c, Returned(false))
    case Ready(c) => Leave(s, c, Returned(true))
    case Pass(c) => Move(s, c, Launching)
    case LaunchFails(c) => Leave(s, c, Returned(false))
    case Launch(c, id) => Move(s, c, Initializing(id)).(launched := s.launched + {id})
    case Accept(c) => Move(s, c, Accepting(s.callers[c].client))
    case Discard(c) => Leave(s, c, Returned(false)).(shut := s.shut + {s.callers[c].client})
    case Publish(c) => Leave(s, c, Returned(true)).(published := s.published + {s.callers[c].client})
    case CallClose(c) => Move(s, c, CloseQueued).(canceled := true)
    case EnterClose(c) => Move(s, c, CloseInside).(gate := Some(c))
    case MarkClosed(c) => Move(s, c, CloseMarked).(closed := true)
    case ShutPublished(c) => Leave(s, c, CloseReturned).(shut := s.shut + s.published)
    case Cancel => s.(canceled := true)
  }

  // --------------------------------------------------------------- invariant

  predicate CallerOk(s: State, c: nat)
    requires c in s.callers
  {
    var p := s.callers[c];
    && (p.HasGate() <==> s.gate == Some(c))
    && (p.Launching? || p.Initializing? || p.Accepting? ==> !s.closed && s.published == {})
    && (p.Initializing? || p.Accepting? ==> p.client in s.launched)
    && (p.CloseMarked? ==> s.closed)
    && (p.CloseReturned? ==> s.closed && s.published <= s.shut)
    && (p == Returned(true) ==> s.published != {})
  }

  /** The client is being started by whoever is inside the gate. */
  predicate InFlight(s: State, id: nat) {
    s.gate.Some? && s.gate.value in s.callers && s.callers[s.gate.value].InFlight(id)
  }

  predicate AccountedFor(s: State, id: nat) {
    id in s.published || id in s.shut || InFlight(s, id)
  }

  ghost predicate Inv(s: State) {
    && (s.gate.Some? ==> s.gate.value in s.callers)
    && (forall c {:trigger CallerOk(s, c)} :: c in s.callers ==> CallerOk(s, c))
    && |s.published| <= 1 && s.published <= s.launched
    && (forall id {:trigger AccountedFor(s, id)} :: id in s.launched ==> AccountedFor(s, id))
  }

  predicate MakesClient(step: Step) {
    step.Launch? || step.Accept? || step.Discard? || step.Publish?
  }

  predicate ClosesAgent(step: Step) {
    step.CallClose? || step.EnterClose? || step.MarkClosed? || step.ShutPublished?
  }

  lemma MakerOk(s: State, step: Step)
    requires Inv(s) && Enabled(s, step) && MakesClient(step)
    ensures CallerOk(Next(s, step), step.caller)
  {
    assert CallerOk(s, step.caller);
  }

  lemma CloserOk(s: State, step: Step)
    requires Inv(s) && Enabled(s, step) && ClosesAgent(step)
    ensures CallerOk(Next(s, step), step.caller)
  {
    assert step.caller in s.callers ==> CallerOk(s, step.caller);
  }

  /** The acting caller ends up as it should. */
  lemma ActorOk(s: State, step: Step)
    requires Inv(s) && Enabled(s, step) && !step.Cancel?
    ensures CallerOk(Next(s, step), step.caller)
  {
    if MakesClient(step) {
      MakerOk(s, step);
    } else if ClosesAgent(step) {
      CloserOk(s, step);
    } else {
      assert step.caller in s.callers ==> CallerOk(s, step.caller);
    }
  }

  /** Whoever does not act relies only on what the gate protects. */
  lemma BystanderOk(s: State, step: Step, q: nat)
    requires Inv(s) && Enabled(s, step) && q in s.callers && (step.Cancel? || q != step.caller)
    ensures CallerOk(Next(s, step), q)
  {
    assert CallerOk(s, q);
    assert !step.Cancel? && step.caller in s.callers ==> CallerOk(s, step.caller);
  }

  lemma ClientsAccountedFor(s: State, step: Step, id: nat)
    requires Inv(s) && Enabled(s, step) && id in Next(s, step).launched
    ensures AccountedFor(Next(s, step), id)
  {
    assert id in s.launched ==> AccountedFor(s, id);
    assert !step.Cancel? && step.caller in s.callers ==> CallerOk(s, step.caller);
  }

  lemma StepKeepsInv(s: State, step: Step)
    requires Inv(s) && Enabled(s, step)
    ensures Inv(Next(s, step))
  {
    var t := Next(s, step);
    forall c | c in t.callers ensures CallerOk(t, c) {
      if step.Cancel? || c != step.caller { BystanderOk(s, step, c); } else { ActorOk(s, step); }
    }
    forall id | id in t.launched ensures AccountedFor(t, id) { ClientsAccountedFor(s, step, id); }
    if step.Publish? {
      assert CallerOk(s, step.caller) && t.published == {s.callers[step.caller].client};
    }
  }

  /** `trace` is the sequence of states that `steps` lead through. */
  ghost predicate IsRun(steps: seq<Step>, trace: seq<State>) {
    && |trace| == |steps| + 1 && trace[0] == Start
    && forall n :: 0 < n <= |steps| ==> Follows(trace[n - 1], steps[n - 1], trace[n])
  }

  ghost predicate Follows(s: State, step: Step, t: State) {
    Enabled(s, step) && t == Next(s, step)
  }

  lemma {:induction false} RunKeepsInv(steps: seq<Step>, trace: seq<State>, n: nat)
    requires IsRun(steps, trace) && n <= |steps|
    ensures Inv(trace[n])
  {
    if n > 0 {
      RunKeepsInv(steps, trace, n - 1);
      assert Follows(trace[n - 1], steps[n - 1], trace[n]);
      StepKeepsInv(trace[n - 1], steps[n - 1]);
    }
  }

  /** Main result: at most one client is ever published, and whenever nobody is inside
      the gate every client that was launched is published or shut. */
  lemma OneClientAndNoneLost(steps: seq<Step>, trace: seq<State>, n: nat)
    requires IsRun(steps, trace) && n <= |steps|
    ensures |trace[n].published| <= 1
    ensures trace[n].gate == None ==> trace[n].launched <= trace[n].published + trace[n].shut
    ensures forall c :: At(trace[n], c, Returned(true)) ==> trace[n].published != {}
  {
    RunKeepsInv(steps, trace, n);
    var s := trace[n];
    forall id | s.gate == None && id in s.launched ensures id in s.published + s.shut { assert AccountedFor(s, id); }
    forall c | At(s, c, Returned(true)) ensures s.published != {} { assert CallerOk(s, c); }
  }

  lemma ReturnedStep(s: State, step: Step, c: nat)
    requires Inv(s) && Enabled(s, step) && At(s, c, CloseReturned)
    ensures At(Next(s, step), c, CloseReturned) && Next(s, step).launched == s.launched
      && Next(s, step).published == s.published
  {
    assert CallerOk(s, c);
    assert !step.Cancel? && step.caller in s.callers ==> CallerOk(s, step.caller);
  }

  /** Main result: from the moment any Close returns, every client that was published
      has been shut, every launched client is published or shut as soon as nobody is
      inside the gate, and no client is launched or published any more. */
  lemma {:induction false} AfterClose(steps: seq<Step>, trace: seq<State>, i: nat, n: nat, c: nat)
    requires IsRun(steps, trace) && i <= n <= |steps| && At(trace[i], c, CloseReturned)
    ensures At(trace[n], c, CloseReturned)
    ensures trace[n].published <= trace[n].shut
    ensures trace[n].launched == trace[i].launched && trace[n].published == trace[i].published
    ensures trace[n].launched <= trace[n].shut
  {
    RunKeepsInv(steps, trace, n);
    if i < n {
      AfterClose(steps, trace, i, n - 1, c);
      RunKeepsInv(steps, trace, n - 1);
      assert Follows(trace[n - 1], steps[n - 1], trace[n]);
      ReturnedStep(trace[n - 1], steps[n - 1], c);
    }
    var s := trace[n];
    assert CallerOk(s, c);
    assert s.gate.Some? ==> CallerOk(s, s.gate.value);
    forall id | id in s.launched ensures id in s.shut { assert AccountedFor(s, id); }
  }

  /** The caller has passed the tests and is starting a client. */
  predicate Starts(s: State, c: nat) {
    c in s.callers && (s.callers[c].Launching? || s.callers[c].Initializing? || s.callers[c].Accepting?)
  }

  lemma CanceledStep(s: State, step: Step, c: nat, id: nat)
    requires Enabled(s, step) && s.canceled
    ensures Next(s, step).canceled
    ensures Starts(Next(s, step), c) ==> Starts(s, c)
    ensures At(Next(s, step), c, Accepting(id)) ==> At(s, c, Accepting(id))
  {
  }

  lemma PublishedStep(s: State, step: Step, id: nat)
    requires Enabled(s, step)
    ensures id in Next(s, step).published ==> id in s.published || (step.Publish? && At(s, step.caller, Accepting(id)))
  {
  }

  /** Main result: once the lifetime is over nobody begins to start a client who had not
      passed the tests by then, and no client is published that had not been accepted. */
  lemma {:induction false} AfterCancel(steps: seq<Step>, trace: seq<State>, i: nat, n: nat, c: nat, id: nat)
    requires IsRun(steps, trace) && i <= n <= |steps| && trace[i].canceled
    ensures trace[n].canceled
    ensures Starts(trace[n], c) ==> Starts(trace[i], c)
    ensures At(trace[n], c, Accepting(id)) ==> At(trace[i], c, Accepting(id))
    ensures id in trace[n].published ==> id in trace[i].published || exists q :: At(trace[i], q, Accepting(id))
  {
    if i < n {
      AfterCancel(steps, trace, i, n - 1, c, id);
      assert Follows(trace[n - 1], steps[n - 1], trace[n]);
      CanceledStep(trace[n - 1], steps[n - 1], c, id);
      PublishedStep(trace[n - 1], steps[n - 1], id);
      if steps[n - 1].Publish? {
        AfterCancel(steps, trace, i, n - 1, steps[n - 1].caller, id);
      }
    }
  }

  /** Whoever is inside the gate can leave it; and unless the agent is closed or canceled
      the tests let a caller through, with the client there is or to start one. */
  lemma GateIsPassed(steps: seq<Step>, trace: seq<State>, n: nat, c: nat)
    requires IsRun(steps, trace) && n <= |steps| && trace[n].gate == Some(c)
    ensures var s := trace[n];
      && (At(s, c, Inside) && !s.closed && !s.canceled ==> Enabled(s, if s.published == {} then Pass(c) else Ready(c)))
      && (Enabled(s, Fail(c)) || Enabled(s, LaunchFails(c)) || Enabled(s, Discard(c)) || Enabled(s, Publish(c))
          || Enabled(s, MarkClosed(c)) || Enabled(s, ShutPublished(c)))
  {
    RunKeepsInv(steps, trace, n);
    assert CallerOk(trace[n], c);
  }

  /** The caller is closing the agent, or has closed it. */
  predicate Closes(s: State, c: nat) {
    c in s.callers
    && (s.callers[c].CloseQueued? || s.callers[c].CloseInside? || s.callers[c].CloseMarked?
        || s.callers[c].CloseReturned?)
  }

  lemma ClosesStep(s: State, step: Step, c: nat)
    requires Enabled(s, step)
    ensures s.canceled ==> Next(s, step).canceled
    ensures Closes(Next(s, step), c) ==> Closes(s, c) || Next(s, step).canceled
  {
  }

  /** Close ends the lifetime as soon as it is called, before it has the gate. */
  lemma {:induction false} CloseCancels(steps: seq<Step>, trace: seq<State>, n: nat, c: nat)
    requires IsRun(steps, trace) && n <= |steps| && Closes(trace[n], c)
    ensures trace[n].canceled
  {
    if n > 0 {
      assert Follows(trace[n - 1], steps[n - 1], trace[n]);
      ClosesStep(trace[n - 1], steps[n - 1], c);
      if Closes(trace[n - 1], c) { CloseCancels(steps, trace, n - 1, c); }
    }
  }
}
