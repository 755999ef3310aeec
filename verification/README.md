# Verification model of the coordination core

The adapter connects an ADK runner to an agent process that speaks the Agent Client
Protocol. This project models the part of it that has to stay right over whole runs:
who may use a session, what is believed about its model, what was sent to the process
and what is stored. The process, the network, the runner and the user are arbitrary:
any answer, any failure, any interleaving and any stop is possible.

| file | what it models |
|---|---|
| `text.dfy`, `protocol.dfy` | strings as Go trims and orders them; the classes of request errors |
| `descriptor.dfy` | classification of configuration options into model control |
| `registry_spec.dfy`, `registry_runs.dfy` | the bounded model registry as a value, one locked section a step, and its properties over runs |
| `model_registry.dfy` | the registry as it is coded: a map of mutable entries and admissions that point into it, proved to take the steps of `registry_spec.dfy` |
| `session_config.dfy`, `config_apply.dfy`, `config_state.dfy` | configuration values: normalising, merging, applying, collecting, printing and parsing |
| `parked.dfy`, `ownership.dfy`, `ownership_runs.dfy`, `parked_reads.dfy` | sessions of several agents in one shared session state |
| `requests.dfy`, `attachment.dfy`, `outcomes.dfy`, `agent_call.dfy` | inspection, model change, getting a remote session, recovery and a whole run, with a log of every request and a history of the stored attachment state |
| `dispatcher.dfy`, `dispatcher_runs.dfy`, `delivery.dfy` | the client's dispatcher, prompt goroutines, process waiter and Close as a step relation; what is excluded, closed and delivered |
| `lifecycle.dfy` | initialisation and Close of the agent as a step relation |
| `wire.dfy`, `utf8.dfy` | line framing of the wire under arbitrary chunking; white space and trimming on bytes and on characters |
| `owner_text.dfy` | the canonical environment and the text an owner key is derived from |

`dafny verify dfyconfig.toml` checks the whole project.

Main results, in short:

- In every run the bounded registry cannot be told from an unbounded map of confirmed
  models, except that it refuses as full, exactly when 64 other keys are held or carry an
  override.
- Every outcome class of a model change fixes how many set requests were sent and what
  the registry believes afterwards; the branch that would report a stale snapshot after
  a request was sent is unreachable.
- While an entry stays mapped its attachment id and what it reports as observed are what
  the last operation on the attachment left; an entry is forgotten only by an eviction at
  the cap, and no evictable entry was mapped before the one that is evicted.
- In a run with a desired model, whatever options the answers of that run last showed for
  a session before a prompt went to it had the desired model as the current one in the
  only valid Model descriptor; and no prompt follows a request that ended a set-up.
- If nothing else than the requests goes wrong, the answers of the process alone decide
  what an inspection, a model change and a whole run come to: which requests are sent,
  for which session and with which values, which session is prompted, and when the run
  recovers.
- Against a server that takes what it is asked for, a set-up without an error ends with
  every merged value that the session offers, configured or only stored, unless the method
  is unknown and the value is not a configured one.
- With attachment protection on, at most one attachment is in doubt, at every moment and
  across stops after any event.
- No interleaving sends on a closed stream, breaks exclusion while the process lives,
  reorders notifications or delivers one twice. Until the exit a notification is delivered
  to a prompt exactly when it is looked up while that prompt listens for its session, and
  one that is not looked up waits or found the queue full. After the exit two operations
  share a session exactly when one had its slot at the collection and the other not, and a
  finished prompt's stream stays open exactly in two cases.
- What each of any number of owners reads back from the shared state is a function of the
  writes and resets alone; it is never another owner's session. When the time stamps rise,
  an owner loses its slot exactly when a later write finds eight other owners, the writer
  not counted, whose last writes have session ids and came after its own.
- To trim the bytes of a text and to trim its characters is the same.
- When no argument holds the bytes 0 and 1 and no environment entry the bytes 0 and 2, two
  backends have the same owner text exactly when they agree in command, directory and
  stable environment, with one ambiguity.

In `agent_call.dfy` the ghost counter `trouble` says how often anything else than a request
went wrong: a context that is over, a write that fails, a consumer that stops, a slot
another call has. Contracts without it hold for every call; those under
`trouble == old(trouble)` say exactly what a call comes to in which nothing of that kind
happens, whatever the process answers.

Where something does not hold, one lemma gives the case and another the exact condition:

| what fails | the case | exactly when |
|---|---|---|
| operations on one session exclude each other | `ExclusionEndsWithTheProcess` | `SharedSessionExactly` |
| a finished prompt's stream is closed | `StreamCanStayOpen`, `LateStreamCanStayOpen` | `StreamLeftOpenExactly` |
| an owner reads back its last write | `NinthParkedIsDisplaced`, `PendingDoubtIsLost` | `ReadsExactly`, and `ReadsInOrder` for rising time stamps |
| a doubt survives a takeover | `PendingDoubtIsLost` | `DoubtSurvivesTakeover`, and `ReadsInOrder` |
| the owner text tells backends apart | `EmptyEntryIsLost`; with the separator bytes `CommandByteCollides`, `EntryByteCollides` | `OwnerTextCanonical`, without those bytes |

Points where the code differs from what one might read into its comments:

- "The same session" holds up to trimming: the id of a fresh session is kept as it came
  (`session.go:338`), while a resume sends it trimmed (`client.go:457`). `Requests.OptionsIn`
  therefore compares a resume with the trimmed id.
- The doubt about an attachment belongs to one owner. A pending attachment that has no
  session id yet is not parked (`session_owner.go:165`), so a write by another agent
  makes its owner forget the doubt.
- The first protected attachment of an agent is such a write (`session.go:320-324`). While
  it is the current one, every other agent reads as after a reset (`session_owner.go:244`):
  no session and no doubt, whatever is parked for it. Its slot stays and is read again
  once a session id has been written.
- An effective environment with no entry and one with a single empty entry give the same
  owner text (`session_owner.go:123`).
- When the process answers a resume after a prompt failure with "already exists" and a
  model is desired, verification asks for a session operation that recovery itself
  holds (`session.go:230-234`, `session.go:281`, `session.go:178`), so recovery fails.
- Exclusion is a property of the time before the process exits: the test of `closed` in
  `client_dispatch.go:17-21` is outside the lock.
- `parked_at` is compared as a string (`session_owner.go:201`), and so is it here. A whole
  second is written without a fraction (`session_owner.go:178`) and so sorts after the
  later moments of that second: a rising clock does not always give rising time stamps.
- A confirmed empty model would read back as the configured one, but no caller confirms one.

## Model

| member | source | states |
|---|---|---|
| `Descriptor.ClassifyModelDescriptor` | session_control.go:393-426 | the scan over the options computes the classification that `ClassifyExact` characterises, on every list of options |
| `Descriptor.FindModelOption` | session_control.go:394-406 | how many options carry the Model category, and that the select kept is one of them if there is any |
| `Descriptor.BuildControl` | session_control.go:407-425 | the bounds, the flattened models and the membership of the current value decide whether there is a control state |
| `Descriptor.CollectChoices` | session_control.go:445-460 | all choices in order, ungrouped before grouped; nothing exactly when there are more than 64 in all |
| `Descriptor.DistinctModels` | session_control.go:461-475 | the trimmed choices exactly when all are bounded and no two share an id, otherwise none |
| `Descriptor.FlattenSessionModels` | session_control.go:445-476 | both halves together |
| `Descriptor.ClassifiedWellFormed` | session_control.go:393-426 | every control state has a nonempty option id, 1 to 64 models with distinct, trimmed, nonempty ids, and shows one of them |
| `Descriptor.ClassifyExact` | session_control.go:393-426 | there is a control state if and only if exactly one option carries the Model category and it is a bounded select with at most 64 bounded, distinct choices that include its current value |
| `Descriptor.ClassifiedControl` | session_control.go:393-425 | if option `i` is the only usable Model option, the control state names its trimmed id, shows its trimmed current value and lists its choices, trimmed, in order |
| `Descriptor.CleanExactly` | session_control.go:461-481 | choices are usable exactly when no value or name trims to nothing or to more than 256 bytes and no two values trim to the same |
| `Descriptor.PlainInOrder` | session_control.go:445-452 | the ungrouped choices come first, in order |
| `Descriptor.GroupedInOrder` | session_control.go:453-460 | where each choice of a group stands: after the ungrouped ones and all earlier groups |
| `Text.TrimExactly` | session_control.go:408-412 | trimming takes white space off both ends and nothing else |
| `Text.LessExactly` | session_owner.go:201 | the first difference decides the order of two strings, and a proper prefix comes first |
| `RegistrySpec.StepKeepsInv` | model_registry.go:60-155 | admission invariant: at most 64 entries; busy exactly when refs is 1 and exactly for the held keys; held keys stay mapped; insert sequences distinct; a closed registry maps held keys only |
| `RegistrySpec.RunKeepsInv` | model_registry.go:60-155 | the admission invariant after any run of operations by any parties |
| `RegistrySpec.EvictableHasOldest` | model_registry.go:132-146 | if any entry is evictable there is one with the strictly smallest insert sequence, so the victim does not depend on iteration order |
| `RegistrySpec.ClosedAndReleasedIsEmpty` | model_registry.go:109-155 | after close and the last release the map is empty |
| `RegistrySpec.OthersLeaveHeldEntry` | model_registry.go:72-155 | no operation of a party that does not hold a key moves, evicts or changes the entry held at it |
| `RegistryRuns.BoundedRegistryRefinesUnboundedMap` | model_registry.go:72-164 | over every run: each admission request gets the answer of an unbounded machine whose only bound is 64 held or overridden keys, and each holder reads the model last confirmed for its key, an empty one standing for the configured model |
| `RegistryRuns.AdmissionAgrees` | model_registry.go:72-107 | admitted, busy, closed and full are answered exactly when the unbounded machine answers them |
| `RegistryRuns.EmptyConfirmationIsLost` | model_registry.go:157-164 | in every state, what a holder confirms under its current token reads back if and only if it is nonempty, as it is for every caller, or no model is configured |
| `RegistryRuns.ObservedWasRecorded` | model_registry.go:201-226 | an observed control was recorded on the same entry under the token current now, and nothing touched the attachment or its control since |
| `RegistryRuns.AttachmentTokensGrow` | model_registry.go:166-187 | while an entry stays mapped its token never falls, and rises exactly when its holder replaces or invalidates the attachment |
| `RegistryRuns.AttachmentIDExactly` | model_registry.go:109-121 | while an entry stays mapped, whoever holds it in turn, its attachment id is what the last replacement gave, nothing after an invalidation, and unchanged if there was neither |
| `RegistryRuns.ObservedExactly` | model_registry.go:201-247 | the same for what is observed: exactly what the last operation on the attachment or its control left |
| `RegistryRuns.EntryLeaves` | model_registry.go:93-155 | an entry is forgotten only by an eviction at the cap, by closing while nobody holds it, or by the last release after closing |
| `RegistryRuns.EvictedWasEarliest` | model_registry.go:132-146 | over whole runs: whenever another evictable entry was mapped already, the evicted one was too |
| `ModelRegistryClass.ModelRegistry.Acquire` | model_registry.go:72-107 | which error is returned and that the new state is the acquire step, for canceled contexts, missing identities, closed, full and busy registries alike; a fresh admission becomes the holder of its key |
| `ModelRegistryClass.ModelRegistry.Lookup` | model_registry.go:91-100 | finds or makes the entry; what the acquire step comes to does not change, and it fails exactly when that step is refused as full |
| `ModelRegistryClass.ModelRegistry.MakeRoom` | model_registry.go:93-95 | evicts only when the map is at its cap; refusal exactly when nothing is evictable |
| `ModelRegistryClass.ModelRegistry.FindOldest` | model_registry.go:132-141 | the unique oldest evictable entry, whatever order the map is walked in |
| `ModelRegistryClass.ModelRegistry.EvictOne` | model_registry.go:132-146 | deletes exactly that entry, or nothing if there is none |
| `ModelRegistryClass.ModelRegistry.AddEntry` | model_registry.go:96-99 | a fresh entry with the next tokens, idle, and every other entry as before |
| `ModelRegistryClass.ModelRegistry.AdmitTo` | model_registry.go:101-106 | refused exactly when busy; otherwise the entry is busy with one reference and the admission points at it |
| `ModelRegistryClass.ModelRegistry.ReleaseEntry` | model_registry.go:109-121 | the release step, which by `RegistryRuns.AttachmentIDExactly` and `ObservedExactly` leaves attachment and control alone; the key has no holder afterwards |
| `ModelRegistryClass.ModelRegistry.MaybeFinalize` | model_registry.go:123-130 | deletes an entry exactly when it is idle and the registry is closed |
| `ModelRegistryClass.ModelRegistry.Close` | model_registry.go:148-155 | exactly the entries in use remain, for every iteration order |
| `ModelRegistryClass.Admission.Release` | model_registry.go:53-58 | takes effect once, however often it is called |
| `ModelRegistryClass.Admission.Act` | model_registry.go:166-247 | every locked section of a holder takes the step the specification defines and keeps the registry valid |
| `ModelRegistryClass.Admission.Desired` | model_registry.go:157-164 | the live override, or the configured model |
| `ModelRegistryClass.Admission.Observed` | model_registry.go:219-226 | the recorded control only under the current token |
| `SessionConfig.NormalizeValues` | session.go:449-468 | the loop yields the normalised list, all of whose values are trimmed and nonempty |
| `SessionConfig.NormalizeOne` | session.go:452-466 | one value: dropped exactly when its id is blank or it has neither a flag nor a nonblank text; otherwise trimmed, with the flag or the text |
| `SessionConfig.NormalizeAppend` | session.go:449-468 | values are normalised one by one, in order |
| `SessionConfig.MergeValues` | session.go:474-489 | the loop with its index map replaces the last value of an id in place or appends, for lists with any duplicates |
| `SessionConfig.MergedValue` | session.go:474-489 | for every id the merge holds the last override, or else the last default |
| `SessionConfig.MergedInPlace` | session.go:474-489 | the defaults keep their places and the ids only the overrides have follow in order of their first occurrence |
| `SessionConfig.FindOption` | client.go:605-615 | the first select or boolean with that trimmed id |
| `SessionConfig.Handle` | client.go:522-578 | one value: kept, asked for, refused, or answered, with the errors of each branch and the mode as fallback, as `ConfigApply.StepExactly` says in terms of what is shown |
| `SessionConfig.ApplySessionConfig` | client.go:513-581 | the values are handled in order up to the first error, each from the options the last accepted answer showed; what is returned is collected from the final state |
| `SessionConfig.CollectValues` | client.go:647-680 | the loop yields the listed values, and the mode exactly when no listed value has that id |
| `ConfigApply.StepExactly` | client.go:522-578 | a value is asked for exactly when it has a place, is not shown already and can be asked for; it is an error exactly when it cannot be, is missing though required, or is refused other than by an unknown method for a value that is not required |
| `ConfigApply.MergeThenApply` | session.go:351-359 | against an exact server a set-up without error ends with the last merged value of every id that is required, or that has a place and was never refused; required ids always are so, and what was not merged stays as it was shown |
| `ConfigApply.StepReading` | client.go:522-578 | against an exact server one handled value that has a place and is not refused shows afterwards, required or not, and no other id moves |
| `ConfigApply.CollectReads` | client.go:647-680 | what is collected for an id is exactly what the session shows for it |
| `ConfigState.PrintValues` | session.go:491-505 | the printed form of the normalised values |
| `ConfigState.ParseValues` | session.go:507-564 | the parser's loops compute the result, or the first error, for all dynamic types |
| `ConfigState.PrintParseRoundTrip` | session.go:491-564 | what is printed parses back to the normalised values, also after JSON has forgotten the element types, and normalising those again changes nothing |
| `ConfigState.ParseSucceedsExactly` | session.go:534-564 | a list of objects parses if and only if every entry has a text id and a value of the kind its type asks for |
| `ConfigState.ParsedFields` | session.go:534-564 | a list that parses yields, in order, the id and the text or flag that each entry holds |
| `ConfigState.ParseFails` | session.go:534-564 | otherwise the first malformed entry decides the error |
| `ConfigState.OlderFormsParse` | session.go:507-522 | typed values and lists of text maps parse to the values they hold |
| `ConfigState.ElseIsRefused` | session.go:523-532 | anything else than a list, and a list of anything else than objects, is refused |
| `Parked.FindOldestSlot` | session_owner.go:197-204 | for nonempty names the slot older than every other in the order of time stamp and name, for every iteration order |
| `Parked.DropOldestParked` | session_owner.go:195-207 | always ends with min(n, limit) of the slots; for nonempty names every kept slot is newer than every dropped one |
| `Parked.NewestUnique` | session_owner.go:195-207 | there is only one such outcome, so it is the same for every iteration order |
| `Ownership.OwnedState` | session_owner.go:150-191 | the stamped state: owner, the current owner's session parked when it is another's and nonblank, the own slot removed; of the slots there are then all or eight, the newest eight unless one has an empty name, and every other field stays |
| `Ownership.CarriedSlots` | session_owner.go:150-182 | which slots a stamp carries: those parked already and the current session of another named owner, never the own one; a state without owner is not parked |
| `Ownership.ParkedAsRead` | session_owner.go:165-180 | what is parked of a readable state reads back as its owner would have read it, less the value of the model option an older version noted |
| `Ownership.ResolvesExactly` | session_owner.go:225-269 | for any stored state: refused exactly when a field cannot be read; a state without owner is everybody's; a foreign one reads as the own slot if that is intact and the state has a session, and as nothing otherwise |
| `Ownership.MakeSlot` | session_owner.go:166-178 | what a parked slot holds |
| `Ownership.ApplyForeignOwnership` | session_owner.go:225-269 | what the agent reads from a state of its own, of another agent, reset, parked or damaged |
| `OwnershipRuns.NeverForeignSession` | session_owner.go:150-281 | for any number of owners, writes and resets an owner reads back no session id or one it wrote itself |
| `OwnershipRuns.StampingIsIdempotent` | session_owner.go:271-281 | the stamp put on an announced state that was stamped when written changes nothing, whatever was stored before |
| `OwnershipRuns.EffectiveState` | session_owner.go:150-191 | a run with resets leaves the state that its effective writes leave: a deletion ends those before it, and clearing the id makes the last one a write of a blank id |
| `OwnershipRuns.DroppedExactly` | session_owner.go:195-207 | a slot is dropped if and only if at least as many slots as may stay are newer |
| `OwnershipRuns.RunKeeps` | session_owner.go:150-191 | after any writes there are slots exactly for the other owners whose last write has a session id and was not displaced, a condition on the writes alone, and each slot holds that last write |
| `ParkedReads.ReadsExactly` | session_owner.go:150-269 | after any run of writes and resets by any number of owners, an owner reads its own last effective write when that is the last of all, or when both have a session id and no write since found eight retained owners that were parked later; and nothing otherwise |
| `ParkedReads.ParkingRestores` | session_owner.go:150-269 | with at most nine owners every owner reads back its last id, its normalised values and its doubt flag exactly when that write is the last of all or both have a session id, and nothing otherwise |
| `ParkedReads.ParkingRestoresExactly` | session_owner.go:26-31 | no slot is ever dropped if and only if after each write at most eight owners other than the writer have a session id |
| `ParkedReads.NinthParkedIsDisplaced` | session_owner.go:195-207 | when nine owners other than the last writer have a session id, one of them reads back nothing |
| `ParkedReads.NineReadBackExactly` | session_owner.go:26-31 | in a run whose writes all have session ids everyone reads back its last write if and only if there are at most nine owners |
| `ParkedReads.DoubtSurvivesTakeover` | session_owner.go:163-180 | after any run of writes and resets an owner whose last effective write was flagged reads the flag if and only if that write is the last of all, or both have a session id and it was not displaced in that sense |
| `ParkedReads.PendingDoubtIsLost` | session_owner.go:165 | two writes are enough to lose a doubt: a flagged one without an id and any one of another owner |
| `ParkedReads.Outlives` | session_owner.go:195-207 | when the time stamps rise, an owner whose last write came later keeps its slot at least as long |
| `ParkedReads.DisplacedInOrder` | session_owner.go:178-207 | when the time stamps rise, a slot is displaced if and only if at some write since its owner's last one eight owners other than the writer had a session id from a later write |
| `ParkedReads.ReadsInOrder` | session_owner.go:150-269 | the exact read-back, and the exact condition for reading the doubt flag, in those terms |
| `ParkedReads.LaterStampSortsBefore` | session_owner.go:178 | the stamp of a moment within a second sorts before the stamp of the whole second |
| `Attachment.OneAttachmentInDoubt` | session.go:312-350 | with protection on, in a safe history the outcome of a session/new is recorded, or the user resets, before the next is sent, and a doubt is flagged live and durably at every moment |
| `Attachment.StopAnywhere` | session.go:318-324 | stopping after any event of a safe history and restarting from the durable state of that moment keeps it safe |
| `AgentCalls.StepKeepsGood` | model_registry.go:201-247 | if every holder records only classified controls and confirms only nonempty models, all entries stay that way |
| `Outcomes.RefusalsAgree` | session_control.go:355-391 | a refused admission reads the same from an inspection, a validation and a change: busy for a session in use or a full registry, closed for a closed one |
| `Outcomes.SlotRefusalsAgree` | session_control.go:526-544 | and so does a refused session operation |
| `Outcomes.ValidationsCarryOver` | session_control.go:546-561 | a change that validation decides has its class, code and snapshot |
| `Outcomes.AnswersAgree` | model_application.go:96-117 | on every answer a model change and a reconciliation agree: taken exactly when the only valid descriptor shows the model, refused for good exactly by the three error codes or a valid descriptor that shows another, uncertain otherwise |
| `AgentCalls.AgentCall.Acquire` | model_registry.go:72-107 | whatever other calls did before, admission gives the call its entry or changes nothing of it |
| `AgentCalls.AgentCall.Act` | model_registry.go:166-247 | whatever other calls do in between, the call's own entry changes exactly as its action says |
| `AgentCalls.AgentCall.Begin` | client_dispatch.go:10-34 | an empty id and an id the call itself holds are refused; otherwise the slot is claimed or refused |
| `AgentCalls.AgentCall.SendResume` | client.go:399-464 | the request carries the trimmed id; for a blank id there is none and the answer is an error |
| `AgentCalls.AgentCall.Inspect` | session_control.go:139-150 | at most a resume request is sent; if nothing else goes wrong the snapshot is what was observed, or the one of `InspectHeld`; a refused admission reads as `Outcomes.RefusalsAgree` says; the session is given back |
| `AgentCalls.AgentCall.InspectHeld` | session_control.go:152-213 | what is observed already is answered without a request and stays; otherwise one resume at most is sent, an available snapshot is the control its answer shows, which is observed afterwards, and any other snapshot leaves nothing observed; if nothing else goes wrong the stored or attached session is resumed exactly when its slot is free, and the answer decides snapshot and attachment |
| `AgentCalls.AgentCall.ResumeAndInspect` | session_control.go:183-212 | the same for the resume itself, whose confirmation cannot be stale; an unknown session is not attached afterwards |
| `AgentCalls.AgentCall.ValidateHeld` | session_control.go:230-252 | supported if and only if the snapshot is available and offers the trimmed model, incompatible if and only if it is available and does not; the other classes are those of the inspection |
| `AgentCalls.AgentCall.ChangeModel` | session_control.go:254-353 | certainty of every outcome: failed, busy, closed and incompatible sent nothing; rejected and ambiguous sent one set request, observe nothing and keep the desired model; applied sent at most one, which asked for the model and was answered with it, and both desired and observed model are the requested one. If nothing else goes wrong the inspection decides whether the model is supported, and then it is applied without a request if it is current, or by one whose answer decides |
| `AgentCalls.AgentCall.ChangeModelHeld` | session_control.go:264-353 | the same between admission and release |
| `AgentCalls.AgentCall.TargetID` | session_control.go:269-276 | the stored session id, trimmed, or else the attached one |
| `AgentCalls.AgentCall.ChangeModelBegun` | session_control.go:283-353 | the same from the moment the session operation has begun; the request goes to the stored or attached session id and to the option that was observed to offer the model |
| `AgentCalls.AgentCall.ChangeOffered` | session_control.go:297-353 | the control read again offers the model: applied at once exactly when it is current; nothing is sent when the context is over |
| `AgentCalls.AgentCall.RequestModel` | session_control.go:308-353 | exactly one set request, to the given session and option; its answer decides, as `Outcomes.AnswersAgree` says |
| `AgentCalls.AgentCall.ChangeAnswered` | session_control.go:338-353 | what the answer shows decides; never failed, so the stale-snapshot branch after a request is unreachable |
| `AgentCalls.AgentCall.RefusedChange` | session_control.go:315-336 | the class of an error answer, exactly; ambiguous once the context is over |
| `AgentCalls.AgentCall.ConfirmBoth` | session_control.go:298-302 | under the token just read both confirmations are accepted |
| `AgentCalls.AgentCall.ApplyDesiredModelHeld` | model_application.go:41-49 | after replacing the attachment: success means, and if nothing else goes wrong is, that the options last shown for this session have the desired model |
| `AgentCalls.AgentCall.ApplyDesiredModelCurrentHeld` | model_application.go:51-109 | under the current token "unavailable" never occurs; one set request is sent exactly when the options offer the desired model and show another; the class of the error is fixed by the options and the answer; success means the desired model was shown and is observed, failure that nothing is observed; the desired model never changes |
| `AgentCalls.AgentCall.Reconcile` | model_application.go:64-108 | the same once a model is desired |
| `AgentCalls.AgentCall.ReconcileBySet` | model_application.go:77-108 | the branch with the request: nothing is sent when the context is over |
| `AgentCalls.DesiredDecides` | model_application.go:51-109 | a reconciliation in which nothing else goes wrong succeeds exactly when the desired model is the one last shown |
| `AgentCalls.AgentCall.SetDesiredModel` | model_application.go:82-108 | exactly one set request, never repeated; success if and only if its answer shows the desired model |
| `AgentCalls.AgentCall.SetAnswered` | model_application.go:96-108 | success if and only if the answer shows the desired model, which is then observed; otherwise nothing is |
| `AgentCalls.AgentCall.PersistPending` | session.go:747-763 | on success the flag is stored live and durably, with the id given |
| `AgentCalls.AgentCall.PersistOutcome` | session.go:747-763 | on success no doubt is left and the unflagged id is stored live and durably |
| `AgentCalls.AgentCall.PersistBinding` | session.go:566-587 | the id is stored unflagged, unless it is blank or writing fails |
| `AgentCalls.AgentCall.SendNew` | session.go:325 | only sent with protection when there is no doubt and the flag is stored live and durably |
| `AgentCalls.AgentCall.CreateRemote` | session.go:312-387 | keeps the attachment history safe at every step; nothing is sent when the context is over; if nothing else goes wrong exactly one session/new is sent, and a session is returned if and only if the process created it with a free slot, its configuration was not canceled and the desired model is in place |
| `AgentCalls.AgentCall.SetUpNew` | session.go:339-387 | a new session is asked for the stored values with the configured ones laid over them, in that order, and then for the desired model |
| `AgentCalls.AgentCall.NewFailed` | session.go:326-337 | when the context is over neither the flag nor the doubt changes; otherwise the refusal is stored, which ends the doubt, and reported |
| `AgentCalls.AgentCall.VerifyExisting` | session.go:170-208 | an existing session is returned as it is, and only if what this run was last shown for it has the desired model, and then always if nothing else goes wrong; it is resumed exactly when a model is desired, resuming is offered and its slot is free |
| `AgentCalls.AgentCall.VerifyBegun` | session.go:177-207 | the same once the operation has begun; the answer to the resume decides what is attached afterwards |
| `AgentCalls.AgentCall.VerifyRefused` | session.go:185-196 | a refused verification leaves nothing observed, and no attachment exactly when the session is unknown and the context not over |
| `AgentCalls.AgentCall.EnsureRemoteHeld` | session.go:135-168 | while the flag is stored nothing is sent and neither the entry nor any stored state changes; a stored or attached session is used as it is and never replaced; a new one is made exactly when there is neither |
| `AgentCalls.AgentCall.RecoverAnswered` | session.go:241-288 | a resumed session is set up with the configured values and returned exactly when the desired model is in place; "already exists" is good exactly when no model is desired; an unknown session is given up, and a new one made; any other error ends the recovery |
| `AgentCalls.AgentCall.RecoverExisting` | session.go:272-282 | its verification is refused by the operation recovery holds |
| `AgentCalls.AgentCall.RecoverResumed` | session.go:241-271 | the resumed session is attached, asked for the configured values, and returned exactly when what was last shown for it has the desired model and the configuration was not canceled |
| `AgentCalls.AgentCall.RecoverRemoteHeld` | session.go:219-310 | if nothing else goes wrong a stored session is resumed first, where that is offered, and a new one is made exactly when there is none or the process does not know it; what is attached afterwards was shown since |
| `AgentCalls.AgentCall.ApplyConfig` | client.go:513-581 | the requests sent are those of the set-up, in order, and whatever options it ends with are what was last shown for this session |
| `AgentCalls.AgentCall.PromptOnce` | agent.go:551-622 | at most one prompt, whose operation stays claimed; it is sent exactly when the id is not blank and the slot free, if nothing else goes wrong; the update returned is what the last option update shows |
| `AgentCalls.AgentCall.TakeUpdate` | agent.go:450-456 | the registry observes what the last option update showed |
| `AgentCalls.AgentCall.PromptReady` | agent.go:440-457 | the session id is durable before the prompt is sent; the prompt keeps the log gated; the registry observes the last option update, and is left alone if there was none |
| `AgentCalls.AgentCall.Proceed` | agent.go:429-536 | a session whose configuration failed is announced and not prompted; one that was set up is prompted; a recovered one only when the first was lost |
| `AgentCalls.AgentCall.RunHeld` | agent.go:418-536 | before every prompt of the run the options last shown for its session have the desired model and no request had ended a set-up; which session is got, by which requests, and how the lost one is recovered; the prompts are exactly those of the sessions got and set up; all operations are given back |
| `AgentCalls.AgentCall.Run` | agent.go:404-536 | the same with admission and release, for the whole request log; a refused run sends nothing, and the session is given back with the entry as the run left it |
| `AgentCalls.AgentCall.Restart` | session.go:312-350 | a stop after any event, between two steps of a call included, and a restart from what was durable then |
| `AgentCalls.AgentCall.Live` | session.go:38-40 | any sequence of runs, model changes, inspections, resets, and stops after any event with a restart, keeps the attachment history safe and the registry good |
| `Requests.ApplyBrings` | client.go:513-581 | by induction over the values: the options a configured session ends with are the last that were shown for it |
| `Requests.FitsExactly` | agent.go:429-449 | the property kept request by request says that every prompt is gated and that none follows a request that ended a set-up |
| `Requests.ConfiguredExactly` | agent.go:433-435 | no prompt follows an ended set-up exactly when no configuration request before it was refused, other than by an unknown method for a value that is not required |
| `Dispatcher.StepKeepsInv` | client_dispatch.go:10-228 | the invariant of streams, slots, queues, dispatcher and waiter is kept by every step of every party; taking an update off the queue and looking up its session are two steps |
| `DispatcherRuns.NoSendOnClosedStream` | client_dispatch.go:36-73 | in every interleaving no update is sent on a closed stream and no stream is closed twice |
| `DispatcherRuns.ClosedStreamIsFinal` | client_dispatch.go:64-73 | a closed stream stays closed and receives nothing more |
| `DispatcherRuns.FinishedIsClosedOrQueued` | client_dispatch.go:50-62 | a finished prompt's stream is closed or the dispatcher still has it |
| `DispatcherRuns.OrderedDelivery` | client_dispatch.go:126-228 | what a prompt receives is an in-order selection of the wire's notifications for its session; at most 64 more are sent than received |
| `DispatcherRuns.AtMostOneStream` | client_dispatch.go:188-228 | each notification reaches at most one stream, once |
| `Delivery.LookUpExactly` | client_dispatch.go:188-215 | a lookup finds exactly the admitted, unreleased and unfinished prompt of the session |
| `Delivery.ListensExactly` | client_dispatch.go:10-62 | a prompt takes notifications from its admission until its release or until the dispatcher marks it as finished, and at no other time |
| `Delivery.DeliveredExactly` | client_dispatch.go:188-228 | until the process exits a notification is on a prompt's stream, or in the dispatcher's hand for it, if and only if it was looked up while the prompt listened for its session |
| `Delivery.NothingSkipped` | client_dispatch.go:126-146 | every notification that arrived waits, was looked up, or found 256 others waiting |
| `Delivery.NeverStuck` | client_dispatch.go:134-228 | while the dispatcher has work it can take a step, or a stream it waits for can be read from |
| `Delivery.FinishingNeverBlocks` | client_dispatch.go:50-62 | a prompt that is to finish its updates can do so, or the dispatcher moves first |
| `Delivery.AdmittedExactly` | client_dispatch.go:22-33 | before the collection the locked half of admission refuses exactly when the client is closing or somebody has a slot for the session |
| `DispatcherRuns.SessionOperationsExclude` | client_dispatch.go:10-48 | until the waiter collects after the exit, two admitted and unreleased operations never share a session |
| `DispatcherRuns.HeldPromptKeepsSlot` | client.go:846-907 | a prompt loses its slot only by release after its request has ended and its updates are finished, and owns the map entry while `closed` is open |
| `DispatcherRuns.NothingAdmittedAfterClosing` | client_close.go:28-31 | once closing is set nothing is admitted any more |
| `DispatcherRuns.ExclusionEndsWithTheProcess` | client_dispatch.go:17-31 | a run in which two operations share a session after the exit |
| `DispatcherRuns.SharedSessionExactly` | client_dispatch.go:10-48 | after the waiter has collected, two operations with slots on one session are the same one if and only if both or neither had the slot at the collection |
| `DispatcherRuns.AtMostTwoShare` | client_dispatch.go:10-48 | at no time do three operations share a session |
| `DispatcherRuns.StreamCanStayOpen` | client_dispatch.go:134-146 | a run after which a finished prompt's stream is never closed |
| `DispatcherRuns.LateStreamCanStayOpen` | client_dispatch.go:17-58 | a second such run: the prompt is admitted after the sweep and queues itself for a dispatcher that is gone |
| `DispatcherRuns.LeftOpenForEver` | client_dispatch.go:134-146 | no later step closes such a stream |
| `DispatcherRuns.StreamLeftOpenExactly` | client_dispatch.go:172-186 | once the waiter is over, a finished prompt's stream stays open if and only if, at the collection, it was admitted, still open and its slot released, or it was not admitted yet and later queued itself for closing |
| `Lifecycle.StepKeepsInv` | agent.go:315-402 | one holder of the gate, at most one published client, every launched client accounted for |
| `Lifecycle.OneClientAndNoneLost` | agent.go:339-402 | at most one client is ever published; whenever nobody is inside the gate every launched client is published or closed |
| `Lifecycle.AfterClose` | agent.go:315-330 | once any Close has returned every launched client has been closed and none is launched or published any more |
| `Lifecycle.AfterCancel` | agent.go:316-372 | once the lifetime is canceled nobody begins to start a client who had not passed the tests by then, and no client is published that had not been accepted |
| `Lifecycle.GateIsPassed` | agent.go:357-372 | whoever is inside the gate can leave it, and unless the agent is closed or canceled the tests let a caller through, with the client there is or to start one |
| `Lifecycle.CloseCancels` | agent.go:316-330 | every Close cancels the lifetime before it waits for the gate |
| `Wire.WireBuffer.Append` | wire.go:84-101 | after every chunk the lines passed on are the trimmed nonempty lines of everything received, and the buffer is what follows the last newline |
| `Wire.WireBuffer.PassOn` | wire.go:94-99 | cuts off one line and passes on what trimming leaves of it |
| `Wire.WireBuffer.AppendAll` | wire.go:84-101 | any split of a stream into chunks amounts to the whole stream |
| `Wire.LinesRebuild` | wire.go:89-95 | the lines and the tail put together again are the stream |
| `Wire.LinesHaveNoNewline` | wire.go:89-95 | no newline is left inside a line or the tail, which with the next row makes the decomposition the only one |
| `Wire.LinesUnique` | wire.go:89-95 | a stream has only one decomposition into lines without newline and a tail |
| `Wire.LinesContinue` | wire.go:88-95 | reading more adds the lines completed by what was read |
| `Wire.TrimSpaceSplits` | wire.go:94 | trimming removes exactly the UTF-8 white space at both ends |
| `Wire.PassedExactly` | wire.go:94-99 | lines are passed on one by one, in order: a line of white space not at all, any other trimmed |
| `Utf8.TrimAgrees` | wire.go:94 | trimming the UTF-8 bytes of a text is trimming its characters |
| `Utf8.SpaceExactly` | wire.go:94 | the byte sequences taken as white space are exactly the encodings of the white-space characters |
| `Utf8.ByteLengthExactly` | session_control.go:478-481 | the length that is limited to 256 is that of the encoding |
| `Utf8.EncodeAllUnique` | session_control.go:478-481 | two texts with one encoding are the same, and each character is decoded from its encoding |
| `OwnerText.StableEnvironment` | session_owner.go:93-108 | the ascending list of the last entries of all names that are not volatile, for every iteration order |
| `OwnerText.NameExactly` | session_owner.go:96-98 | the name of an entry is what comes before the first equals sign, or all there is |
| `OwnerText.LastWinsNames` | session_owner.go:93-103 | a name is kept exactly when it is not volatile and some entry has it |
| `OwnerText.LastWinsExactly` | session_owner.go:93-103 | and then with the last entry that has it |
| `OwnerText.StableFormCanonical` | session_owner.go:93-108 | two stable forms are equal if and only if the last-wins maps agree |
| `OwnerText.HashedTextExactly` | session_owner.go:121-126 | for nonempty commands without the bytes 0 and 1 and entries without the bytes 0 and 2, empty parts included: equal texts if and only if command, directory and stable environment are equal, the last up to having no entry or a single empty one |
| `OwnerText.OwnerTextCanonical` | session_owner.go:121-126 | such backends have equal texts if and only if they agree in command, directory and the last-wins values of the names that are not volatile, up to that one ambiguity |
| `OwnerText.OwnerKeyText` | session_owner.go:121-125 | the text of one backend, with the adapter's own table of volatile names |
| `OwnerText.EmptyEntryIsLost` | session_owner.go:123 | the ambiguity is real: an empty environment and one with a single empty entry differ and have the same text |
| `OwnerText.CommandByteCollides` | session_owner.go:124 | a byte 1 in an argument: what follows it can be moved into the first entry of the environment, and the text stays the same |
| `OwnerText.EntryByteCollides` | session_owner.go:124 | a byte 2 in an entry: what follows it can be moved into the directory, and the text stays the same |

## Left out

- Subprocess start, pipes, signals and timeouts are steps that can happen at any time; durations are not modelled.
- JSON, the protocol SDK and the ADK runner appear as arbitrary answers and as a stored state; which notification a wire line decodes to (`wire.go:103-146`) is an arbitrary step of the dispatcher model.
- The agent layer uses the registry as the value that `ModelRegistryClass` is proved to implement, not the object itself, so aliasing between the two is not part of it.
- Tokens and sequences are unbounded; wrap-around of the 64-bit counters of `model_registry.go:34-36` is not modelled.
- Revision hashes, attachment generations and the SHA-256 of an owner key: nothing proved here depends on their values.
- Control snapshots an older version stored (`session_control.go:577-632`): a parked slot only uses the option id such a snapshot yields.
- The attachment history is that of one owner; other owners appear in `OwnershipRuns`.
- The configuration values and the meta object are not part of the stored attachment in `AgentCalls`; they are covered where they are printed, merged and applied.
- The class of an error is an input; how it is read off a provider's message (`client.go:723-783`) is not part of this model.
- An option of the protocol is a select, a boolean or neither; a value that claims to be both is not modelled.
- A reset by the user happens between calls; one in the middle of a call, which could take the flag away just before session/new is sent, is not modelled.
- AgentCalls.AgentCall.Run: where something else than a request goes wrong the contracts bound what is sent, stored and observed, but not which of the errors is reported.
- Liveness: that a queued stream is closed or a waiting caller admitted eventually.
- `clearActive` and `closeActiveSession` (`client_dispatch.go:75-83`, `client_dispatch.go:158-170`) have no caller in production code.
- Event mapping, content conversion, instructions, permissions, logging and working directories.
