# Goren: verified model of the agent server's core protocols

Goren is an agent server built on one append-only event log per Session. This project models the
logic it keeps apart from its actor framework and proves what that logic is for:

- **Session log and surface** (`Events`, `Surface`, `LogSpec`, `SessionLog`): the log, the
  model-visible surface that events append to or rewrite, atomic batch commit over a shared node
  array, and the incremental message cache, which always equals the plain projection.
- **Exactly-once writes** (`WritePlans`, `ExactlyOnce`, `Lookups`, `LoopWrites`, and `Journal` with `Commands`
  and `Approval`): every kind of write with an identity is in the log once at most, over any interleaving of
  retries, unrelated writers and lost replies, and retries return the original receipt. What each lookup
  answers and which first requests are granted is exact. A command and an approval each leave one ordered pair
  of events that carries what they decided, and both come to their end when nothing gets lost.
- **Agent registry** (`Order`, `RegistryModel`, `Startup`, `Registry`, `Closing`, `CloseProgress`): open
  identities form a forest under re-registration, startup is never stuck, cleanup follows one total
  order, and a close that was requested comes to its end in whatever order requests and replies arrive and
  however often they fail and are made again.
- **Inbox and loop admission** (`InboxModel`, `Inbox`, `Admission`, `ClaimRecovery`, `AgentLoop`): the
  inbox is at all times what rebuilding it from the log gives, staged edits do what they promise,
  uncertain claims are reconciled with the log, and no execution starts once a close has begun.
- **Settings** (`SettingsModel`, `Settings`), **workspaces** (`Workspace`), **compaction**
  (`Compaction`, `ToolPairing`), **middleware** (`Middleware`) and **MCP transports** (`Transport`).

Where the source updates an object in place, the model is a class with those fields; its methods are
proved against functions on values, and the laws are lemmas about those functions. Payloads are typed
values; a payload of another shape than its reader expects is one that does not decode. What other writers
do is a nondeterministic choice or an arbitrary step of a run. Which requests and replies get lost, times,
generated ids, what an answerer says, and what external validators decide are parameters.

Four laws hold only under a condition. A cancelled execution replays without having been woken only if it
was asked to continue while business work was unfinished; the comment at `agentloop/agent.go:36-38` does not
mention that case, and the model follows the code (`Admission.CancelledReplaysExactly`,
`Admission.OnlyStrayContinueArms`, with an agent driven through such a run in
`AgentLoop.StrayContinueReplays`). A prefix of a log that the compaction monitor accepts can be refused; it is
accepted exactly when every turn boundary in it that falls inside an attempt finds, still in the prefix, the
end of inherited history that orphaned that attempt (`Compaction.PrefixAcceptedExactly`, with a refused prefix
in `Compaction.EndSeedExcuses`). A transport whose drain has ended can run an operation exactly if admission
was resumed meanwhile; what ran when the drain began has finished in any case (`Transport.DrainLeavesNothing`,
`Transport.WhatRanHasFinished`, `Transport.ResumeSpoilsDrain`). The retry of a tool, context or command write
returns the original receipt exactly when nothing behind its batch carries the same identity
(`ExactlyOnce.RetryFindsUnlessRepeated`). A permitted rewrite of a tool result does carry the identity of the
result it rewrites, so a later retry of that result's write is refused, without appending anything
(`LoopWrites.RewrittenResultIsRefused`).

What the source asks of its callers is what the model asks: an acknowledgement of an inbox edit names events of
the Session's log and no other inbox write was let in between (`agentloop/agent_admission.go:64-65`), and a
recovery reads a log of the same Session (`agentloop/agent_input_recovery.go:10-12`).

`dafny verify dfyconfig.toml` checks the whole project.

## Model

| member | source | states |
|---|---|---|
| Surface.ValidateProvenance | session/surface.go:139-166 | the one pass over the sources finds a problem exactly when the event fails to cite earlier events, each once, including every node it shadows |
| Surface.ProvenanceIsCitation | session/surface.go:139-166 | the checks in their order accept exactly the citations the requirement allows |
| Surface.PlannedExactly | session/surface.go:73-124 | exactly which events a surface takes: messages and tool results are appended, citing what they draw on, or replace a range they cite; a tool result replaces only one tool result and changes only its text; any other event carries neither operation nor sources and leaves the surface alone |
| Surface.ReplacedInPlace | session/surface.go:126-137 | a replacement puts its event in the place of the range and keeps everything around it in order |
| Surface.ExtendsExactly | session/log.go:258-280 | exactly which events a log may be rebuilt from: at their own position, with a safe time, lossless data and a known operation, and fitting the surface |
| Surface.NoHistoryLost | session/surface.go:73-137 | in every log that replays, events stand at their sequence numbers, surface nodes are distinct eligible events, and every eligible event ever committed is a node or is reached from one along citations that strictly decrease |
| Surface.SameGenerationGrows | session/surface.go:126-137 | between two logs of one history whose surfaces have the same replacement generation, the earlier nodes are a prefix of the later ones, which is what lets a cache be extended |
| Surface.ReplayPrefix | session/log.go:55-71 | a prefix of a log that can be rebuilt can be rebuilt |
| Surface.ProjectionIsShown | session/message_projection.go:10-58 | a projection exists exactly when every node has the payload of its event type, and then lists, in order, the messages of exactly the nodes that are user messages, tool results, or assistant messages with content |
| LogSpec.AppendAllReplays | session/log.go:193-256 | committing drafts one at a time gives a log whose replay is the surface committing maintains |
| LogSpec.AppendAllPlaces | session/log.go:193-256 | accepted drafts become events at consecutive positions behind the log, each with its own content and time |
| SessionLog.SurfaceState.Apply | session/surface.go:126-137 | changes the node array in place, or a grown copy of it, to exactly the surface the transition describes |
| SessionLog.Log.TakeSeeds | session/log.go:55-71 | a seed is accepted exactly when it replays, and then the log is the seed |
| SessionLog.Log.Open | session/log.go:39-88 | a rebuilt log holds the seed, closed by one end-seed marker unless it has one, with the seed's surface and the first live position behind the seed |
| SessionLog.Log.DeriveNext | session/log.go:165-191 | one node more is consumed, or a node that does not decode leaves the cache where it was and fails as the whole projection fails |
| SessionLog.Log.DeriveMessages | session/log.go:165-191 | whatever was cached, it succeeds exactly when every current node has the payload of its event type, and the result is, in order, the messages of exactly the nodes that are user messages, tool results, or assistant messages with content |
| SessionLog.CacheSurvives | session/log.go:165-191 | one accepted change keeps a current cache the projection of the nodes it has consumed, or makes its generation stale |
| SessionLog.BatchKeepsCache | session/log.go:193-256 | so does a whole batch, whatever mix of appends and replacements |
| SessionLog.Log.PlanBatch | session/log.go:193-243 | planning against shared live nodes, or against a copy when more than one draft changes the surface, gives the events and surface of committing one at a time and touches nothing live |
| SessionLog.Log.CommitBatch | session/log.go:193-256 | all or nothing: on success the log and surface are those of committing the drafts one at a time; on failure the events, the live surface object and its node storage are unchanged |
| SessionLog.Log.Commit | session/log_commit.go:12-78 | one request has the outcome, log and surface of its specification, in every branch; when that is a success is said by the members of Lookups and LoopWrites below |
| SessionLog.Log.ReplayCommit | session/log_commit.go:81-97 | a receipt is replayed exactly when it names this log and repeats its own events |
| WritePlans.ScanLog | agentloop/tool_write.go:30-96 | the pass of tool, context and command writes over a log computes the lookup their identity defines |
| WritePlans.InspectLog | agentloop/end_step.go:29-86 | the pass of a step end over a log finds its earlier commit and whether the step is open |
| ExactlyOnce.FindsNothing | agentloop/tool_write.go:30-96 | a plan never reports a commit that is not in the log |
| ExactlyOnce.FindsOnly | agentloop/tool_write.go:120-163 | a plan whose batch stands once in the log returns exactly that batch or refuses to answer |
| ExactlyOnce.RequestOutcome | session/log_commit.go:12-78 | for any plan at all, a request changes nothing, returns events already there, or appends exactly the plan's drafts |
| ExactlyOnce.FirstAttempt | session/log_commit.go:12-78 | the first effective attempt puts the batch at the end of the log, once |
| ExactlyOnce.LaterAttempt | session/log_commit.go:81-97 | a later attempt appends nothing and can only return the original batch |
| ExactlyOnce.CommitsExactlyOnce | session/log_commit.go:12-78 | over every run of attempts, lost replies and unrelated requests, the batch is in the log exactly when some attempt succeeded, then once, and every success names it |
| ExactlyOnce.FindsAppended | agentloop/end_step.go:12-86 | whatever a plan agreed to append it recognizes from then on, on any log that continues with other identities |
| ExactlyOnce.RetryReturnsOriginal | session/log_commit.go:12-78 | after a lost reply a retry, however much later, appends nothing and returns what the first attempt returned |
| ExactlyOnce.RetryFindsUnlessRepeated | agentloop/tool_write.go:37-96 | on a readable log a retry of a tool, context or command write returns its batch exactly when nothing behind the batch carries the same identity; otherwise it is refused as a duplicate and appends nothing |
| ExactlyOnce.SuccessNamesTheLog | session/log_commit.go:81-97 | a success always names events of this log, whatever a foreign plan answers |
| Lookups.IdentityIs | agentloop/tool_write.go:37-75 | what carries a write's identity: an event of its type that names its call, message, command, step or request |
| Lookups.OnlyOwnTypeCounts | agentloop/tool_write.go:37-75 | events of another type say nothing about a write, and what carries an identity carries it at least once |
| Lookups.CallIs | agentloop/tool_write.go:44-71 | the call an event names: a call's own id, or what the last result block of a tool result answers |
| Lookups.PositionIs | agentloop/tool_write.go:40-43 | the step an event belongs to is the one its payload carries |
| Lookups.ScanAnswersExactly | agentloop/tool_write.go:30-96 | the lookup of a tool, context or command write answers exactly on logs in sequence in which every entry of its type can be read and its identity occurs once at most, with the whole batch behind it; and then with that batch, or nothing |
| Lookups.InspectAnswersExactly | agentloop/end_step.go:29-86 | the lookup of a step end answers exactly on logs in sequence in which the step began once at most and ended once at most, by just this event and while it was open; and then with that end and whether the step is open |
| Lookups.RequestAnswersExactly | approval/audit.go:72-92 | the lookup of an approval stops at the first event that carries the request or cannot be read, and refuses one that predates the Turn |
| Lookups.OpenTurnMeans | approval/audit.go:21-47 | the open Turn is the last one begun, unless a Turn has ended since |
| Lookups.FindsOnlyItself | session/log_commit.go:12-78 | whatever a lookup returns is just what the plan writes; an event that carries the identity and says something else is never taken for it |
| Lookups.AnswersOnlyItsLog | agentloop/tool_write.go:30-36 | no lookup answers for another Session, and those of the loop answer only on the complete log in sequence |
| Lookups.ForeignRequestAppendsNothing | session/log_commit.go:12-78 | a request to the log of another Session is refused and appends nothing |
| Lookups.CancelledRequestAppendsNothing | session/log_commit.go:12-78 | a request without a context, or cancelled at any moment, fails and appends nothing, whatever its plan says |
| Lookups.EmptyBatchIsRefused | session/log_commit.go:12-78 | an empty batch is refused |
| Lookups.BatchAppends | session/log_commit.go:12-78 | a batch without an identity is appended wherever there is room, as often as it is requested |
| Lookups.FirstRequestAppends | session/log_commit.go:12-78 | in every readable log of its Session that does not carry its identity and has room, the request of a tool, context or command write succeeds and appends exactly its drafts, each with its own reading of the clock |
| Lookups.StepEndAppendsExactly | agentloop/end_step.go:12-86 | a step that has not ended is ended by its first request exactly while the log has it open |
| LoopWrites.CallWritesAreCoherent | agentloop/agent_tools.go:120-151 | the writes of a tool call, of its result, and of a call cancelled together with its result each carry their identity once, in their first event |
| LoopWrites.StepWritesAreCoherent | agentloop/tool_write.go:105-163 | so do the insertion of a context message and the end of a step |
| LoopWrites.CallWritesAppend | agentloop/agent_tools.go:120-151 | a tool call, its result, and a call cancelled together with its result are each written by their first request in every readable log of their Session that has room |
| LoopWrites.InsertionAppends | agentloop/tool_write.go:105-163 | so is the insertion of a context message |
| LoopWrites.EndAppendsExactly | agentloop/end_step.go:12-86 | and the end of a step is, exactly while the log has that step open |
| LoopWrites.DifferentCallsAreUnrelated | agentloop/tool_write.go:37-75 | writes of different calls never take each other for themselves, so their exactly-once results hold side by side |
| LoopWrites.RewriteCarriesIdentity | session/surface.go:168-197 | a permitted tool-result rewrite replaces one tool result and is, to every tool write, what that result is |
| LoopWrites.RewrittenResultIsRefused | agentloop/tool_write.go:75-77 | once a tool result has been rewritten, every later retry of its write is refused as a duplicate and appends nothing |
| Journal.Journal.Commit | session/log_commit.go:12-78 | whatever others write meanwhile, a request that is not lost has exactly the outcome of committing its plan to the log it reaches, and that is the reply unless the reply is lost; one of two related events stands in the log once at most, stays where it is, and a reply names it, while the other is left alone |
| Journal.RequestStands | approval/audit.go:49-70 | one request adds the event exactly when it is not there and the request succeeds, and nothing if it is there; a success names the one event |
| Journal.RequestSucceeds | session/log_commit.go:12-78 | a command's or an approval's request succeeds in every readable log of its Session that has its event already, and in every other one that its plan may write to and that has room |
| Registry.Registry.CheckAdmission | agent/registry.go:137-154 | the walk to the root ends and refuses exactly when admission has stopped, the identity is not open, or something from it upwards is closing |
| Registry.Registry.Register | agent/registry.go:33-70 | which registrations are refused and why; an accepted one adds a fresh membership under an admitted parent, also where a closed identity was, and the open identities stay a forest |
| Registry.AcceptedExactly | agent/registry.go:33-70 | exactly which registrations are accepted: named, of a known role, not open yet, under an open parent with nothing closing from it upwards, and a companion only under a parent that is none |
| Registry.RegistrationKeepsForest | agent/registry.go:33-70 | registering an identity, new or closed before, under a new parent leaves every open identity with an open, earlier registered parent |
| Registry.AncestorsAreOpen | agent/registry.go:33-70 | everything above an open identity is open and was registered before it, and exactly one identity above it has no parent |
| Registry.CompanionsAreSeparated | agent/registry.go:56-61 | of two companions, one anywhere above the other, the lower one's parent is ordinary and stands between them |
| Registry.CompanionsMayRecur | agent/registry.go:56-61 | more is not promised: four accepted registrations put a companion below another one, with an ordinary identity between them |
| Registry.Registry.Children | agent/registry.go:91-100 | lists exactly the open children, in ascending order |
| Registry.Registry.Remove | agent/registry.go:104-121 | closes an identity exactly when it is closing, owns nothing and has no open children; removing what is not open changes nothing |
| RegistryModel.RemovalKeepsForest | agent/registry.go:104-121 | removing an identity that owes nothing leaves nothing open beneath it |
| Registry.Registry.BeginClose | agent/registry.go:125-133 | marks an open identity as closing and nothing else |
| Registry.Registry.TrackResource | agent/registry_resources.go:44-60 | records a responsibility of an open identity, also while it closes, and refuses values the release order could not tell apart |
| RegistryModel.TrackableExactly | agent/registry_resources.go:44-60 | exactly which responsibilities can be recorded: capabilities numbered from zero, and one unnumbered of every other kind but children |
| RegistryModel.ReleaseOrderIsTotal | agent/registry_resources.go:122-145 | the release order is strict and total on trackable resources and children |
| RegistryModel.PartsStopInOrder | agent/registry_components.go:124-131 | while the responsibility of one part is pending, none that is to be stopped after it is selected: extensions from the last to the first, then commands, tools, prompt and Session, and the agent loop last |
| RegistryModel.ChildrenStopBetween | agent/registry_resources.go:131-145 | children are closed after the extensions and before every other part of their parent |
| RegistryModel.ConfirmedInOrder | agent/registry_resources.go:64-91 | when the registry confirms that a part was stopped, whatever is to be stopped before it is no longer recorded |
| Registry.ExtensionsStopInReverse | agent/registry_components.go:200-211 | an extension is released before whatever its start depended on |
| RegistryModel.TiesAreUntrackable | agent/registry_resources.go:122-145 | exactly when two resources tie in the release order, and that of two different ones that tie one could never have been recorded |
| RegistryModel.FirstIsUnique | agent/registry_resources.go:95-120 | whatever order a ledger is read in, the first responsibility is the same |
| Registry.Registry.FirstRecorded | agent/registry_resources.go:100-106 | the running minimum over a ledger read in any order is its first responsibility |
| Registry.Registry.NextRelease | agent/registry_resources.go:95-120 | selects the first of all responsibilities and open children, and nothing exactly when there are none |
| Registry.Registry.ConfirmRelease | agent/registry_resources.go:64-91 | releases a recorded responsibility only when it is the first of all that are pending; a child is confirmed only when closed under this parent |
| RegistryModel.StepSettlesOne | agent/registry_resources.go:64-91 | a confirmed step below a closing root settles exactly one thing owed and leaves every other |
| RegistryModel.SomeStepEnabled | agent/registry_resources.go:95-120 | while a fully closing subtree owes anything, some step can be confirmed |
| RegistryModel.ClosingSubtreeDrains | agent/registry.go:104-121 | every run of confirmed steps below a fully closing root keeps the forest and, when it cannot go on, has closed everything after exactly as many steps as were owed |
| Startup.ComponentRequirements | agent/registry_components.go:166-212 | the requirement list built in a loop is the dependency chain for every number of extensions, each entry depending only on earlier ones |
| Startup.StartupNames | agent/registry_components.go:166-212 | exactly what an Agent requires: its Session, tools, prompt, models and loop, the command runtime if it takes commands, and each of its extensions |
| Startup.NeverStuck | agent/registry_components.go:61-81 | while a required component is missing, the first missing one has everything it needs |
| Startup.ReadyByCount | agent/registry_components.go:77-79 | as many components are ready as are required exactly when all of them are |
| Startup.StartupCompletes | agent/registry_components.go:85-93 | whatever order components report in, startup can go on exactly until everything is ready, after as many confirmations as components were missing |
| Registry.Registry.BeginInitialization | agent/registry_components.go:43-56 | fixes the whole startup order of an admitted identity that has none yet: what every agent has, the command runtime if it takes commands, and its extensions |
| Registry.Registry.NextComponent | agent/registry_components.go:61-81 | selects the first component that can start and selects none exactly when all are ready; it is never at a loss |
| Registry.Registry.CheckComponent | agent/registry_components.go:148-164 | admits a component exactly when it is required, missing and has its dependencies |
| Registry.Registry.ConfirmComponent | agent/registry_components.go:85-93 | marks exactly such a component ready |
| Registry.Registry.AcquireComponent | agent/registry_components.go:97-131 | succeeds exactly for a component that may start, recording before it does the responsibility of its own kind, such as Conversation for the Session, and otherwise records nothing |
| Registry.Registry.RejectComponent | agent/registry_components.go:114-122 | forgets exactly the responsibility of a refused acquisition |
| Registry.Registry.CompleteInitialization | agent/registry_lifecycle.go:39-58 | publishes an identity exactly when nothing from it upwards is closing and everything it requires is ready |
| Registry.Registry.CheckReady | agent/registry_lifecycle.go:61-70 | an identity is ready exactly when it is admitted and available |
| Registry.Registry.FailInitialization | agent/registry_lifecycle.go:74-85 | keeps the first failure and starts closing, unless the identity is available or closed |
| Closing.Closer.ScheduleClose | agent/registry/grain_close.go:45-66 | for the current creation marks exactly this identity closing, joins the close that runs or runs a new one, and sends no second request while one is in flight; anything else is refused and changes nothing |
| Closing.Closer.RunClose | agent/registry/grain_close.go:68-110 | puts the first pending responsibility in flight exactly when it has a client, removes the identity exactly when nothing is pending, and waits while a component starts |
| Closing.Closer.HandleResult | agent/registry/grain_close.go:112-147 | a stale answer changes nothing and a failed one only stops waiting; a successful one confirms exactly the release in flight, unless the registry refuses it, and runs the close on |
| Closing.ReleaseConfirmedExactly | agent/registry_resources.go:64-91 | exactly which answers confirm a release: a child once it has closed under this parent, a recorded responsibility once it is the first that is pending, and one no longer recorded in any case |
| Closing.Closer.Reserve | agent/registry/grain.go:136-203 | exactly which reservations are accepted: a new one under a current, admitting parent that the registry does not refuse, or one that repeats the reservation that stands and still admits work, which changes nothing; a new one registers the identity, drops the clients of an earlier creation, and gives its parent the client that closes it |
| Closing.Closer.CheckReserved | agent/registry/grain.go:161-176 | a reservation that stands is confirmed exactly for its own creation, parent creation, role and parent while the identity admits work |
| Closing.Closer.RequestStart | agent/registry/grain_create.go:136-166 | records the responsibility of a component, of the kind that belongs to it, and waits for it, exactly while the identity is admitted and the component may start |
| Closing.Closer.FinishCreation | agent/registry/grain_create.go:203-233 | publishes the identity, or begins the close that releases what a failed or overtaken startup had started |
| CloseProgress.CloseStartsDrain | agent/registry/grain_close.go:45-66 | when everything pending below an identity has a client, requesting its close starts a drain, whatever is still running below it and whatever an earlier failure has left idle |
| CloseProgress.FailureKeepsDraining | agent/registry/grain_close.go:112-125 | a failed answer keeps the drain going and leaves exactly one more identity waiting to be requested again |
| CloseProgress.HandlingDrains | agent/registry/grain_close.go:68-147 | below a closing root no handler fails or loses a responsibility, and every one but a failed answer leaves less to do |
| CloseProgress.HandlingOwes | agent/registry/grain_close.go:112-147 | a handler settles exactly one thing owed for each release or removal it confirms, and nothing else |
| CloseProgress.ReadyAt | agent/registry/grain_close.go:68-110 | before everything is closed something other than a failure can happen: whoever waits, waits for a younger identity that does not |
| CloseProgress.StartupsEndInClose | agent/registry/grain_create.go:203-233 | below a closing identity no startup can complete; when it ends, a close begins |
| CloseProgress.CloseDrains | agent/registry/grain_close.go:45-147 | over every run of requests, successful and failed replies and renewed requests, in any order, boundedly many handlers for the number of failures close everything at and below the root, and have then confirmed exactly as many steps as were owed |
| InboxModel.FoldSplits | agent/inbox.go:91-124 | folding a log in two parts, split anywhere, gives what folding it whole gives, effects and errors included |
| InboxModel.AcceptedExactly | agent/inbox.go:268-304 | exactly which splices are accepted: into a known list, within its range, with a known outcome, and leaving all pending messages named and distinct |
| InboxModel.FoldKeepsUnique | agent/inbox.go:268-304 | names stay present and unique across both lists |
| InboxModel.OccurrencesConserved | agent/inbox.go:91-124 | every occurrence that was pending or inserted is pending, claimed or discarded |
| InboxModel.PromisesCompose | agent/inbox.go:206-236 | two staged edits, committed one after the other wherever that is, have the composed effect |
| Inbox.Inbox.NewInbox | agent/inbox.go:58-71 | a rebuilt inbox is the fold of what follows the inherited boundary, or the error of that fold |
| Inbox.Inbox.AddUnique | agent/inbox.go:336-348 | the pass accepts exactly uniquely named messages that repeat no seen name |
| Inbox.Inbox.Validate | agent/inbox.go:268-304 | finds the problem of a splice exactly when its target, range, outcome or names are wrong |
| Inbox.Inbox.Apply | agent/inbox.go:91-124 | applies all events or none; the lists and effects are those of the fold |
| Inbox.Inbox.Locate | agent/inbox.go:323-334 | finds a name exactly when it is pending |
| Inbox.ClampsExactly | agent/inbox.go:131-141 | a requested range is cut to the list: beyond the end is the end, a negative position counts from the end but not beyond the beginning, and no more is removed than there is |
| Inbox.Inbox.PrepareSplice | agent/inbox.go:127-175 | an accepted splice, once committed anywhere, replaces the clamped range with the promised lists and effects; it is refused exactly when names would repeat |
| Inbox.Inbox.PrepareAppend | agent/inbox.go:178-180 | stages a message behind its list |
| Inbox.Inbox.PreparePrepend | agent/inbox.go:183-185 | stages a message before its list |
| Inbox.Inbox.PrepareReplace | agent/inbox.go:188-194 | stages a replacement in place, or nothing when the message is gone |
| Inbox.Inbox.PrepareRemove | agent/inbox.go:197-203 | stages the cancellation of exactly one message, or nothing when it is gone |
| Inbox.Inbox.PrepareClaim | agent/inbox.go:206-221 | takes all next-step messages and, for a turn, at most one next-turn message, in one batch that applies cleanly |
| Inbox.Inbox.PrepareClear | agent/inbox.go:224-236 | cancels everything pending and leaves both lists empty |
| Inbox.Inbox.PrepareMove | agent/inbox.go:462-488 | moves one message behind another list and keeps every other order |
| Admission.CloseIsFinal | agentloop/agent.go:163-185 | once a close has begun, over every interleaving, nothing idle starts running and no release asks for another execution; whatever is busy keeps its input or has been told to stop |
| Admission.WishIsTracked | agentloop/agent_state.go:32-66 | while a cancelled execution or a maintenance lasts, the flag to run again follows the waking admissions and drops since it began, exactly |
| Admission.CancelledReplaysExactly | agentloop/agent_state.go:55-96 | exactly when a cancelled running execution replays |
| Admission.OnlyStrayContinueArms | agentloop/agent_state.go:122-133 | an uncancelled execution becomes set to run again exactly by continuing it with unfinished work and unpreserved pending input |
| Admission.CancelledReplaysOnlyWhenWoken | agentloop/agent_execution.go:223-246 | over every run in which continuing is asked for only between turns, a cancelled execution replays exactly when a wake was confirmed after the cancellation and not dropped, with input pending and not kept for a close |
| Admission.MaintenanceReplaysExactly | agentloop/agent_state.go:95-118 | over every run, cancelled or not, a maintenance runs the Agent at its finish exactly when a waking admission was confirmed since it began and not dropped, with input pending that is not kept for a close |
| Admission.IdleStartsExactly | agentloop/agent_state.go:32-48 | an idle Agent starts executing exactly on a waking admission while it is available, and maintenance exactly on request while it is available and no claim is unconfirmed |
| Admission.UncancelledGoesOnExactly | agentloop/agent_state.go:120-133 | an uncancelled execution goes on to another Turn exactly when it is asked to continue with pending input that is not kept; finishing it leaves the Agent idle |
| Admission.CloseStopsWork | agentloop/agent.go:163-186 | a close releases a running execution nobody executes and nothing is unfinished of, and tells whatever stays busy to stop, keeping an earlier cause, unless it may finish |
| Admission.CancelKeepsFirstCause | agentloop/agent_state.go:55-66 | a cancellation keeps the first cause, stops nothing idle, and is refused before the Agent is available |
| Admission.AvailableExactly | agentloop/agent.go:55-98 | an Agent becomes available by being restored and then initialized, unless a close comes first, and stays so until it is released |
| Admission.KeepIsTracked | agentloop/agent_state.go:30-41 | over every run, the input is kept exactly from a close or a keeping cancellation until new input, a clearing cancellation or the release ends that |
| Admission.ReleasedExactly | agentloop/agent.go:188-210 | an Agent is released exactly when it is closing, idle and without a Turn, and input that is pending is kept |
| Admission.StrayContinueReplays | agentloop/agent_state.go:122-133 | a reachable run of the state machine, with a continue on unfinished work, in which a cancelled execution replays though nothing woke it since |
| AgentLoop.StrayContinueReplays | agentloop/agent_state.go:122-133 | an agent that is restored, admits a message, is asked to continue before its turn has ended, is cancelled with its input kept and ends the turn, runs again |
| AgentLoop.ReactLoopAgent.Restore | agentloop/agent.go:55-81 | succeeds exactly on a complete, contiguous log of this Session whose inbox and turn numbers can be read, and then holds the inbox and turn number that log gives; otherwise the state stays |
| AgentLoop.LastNumberMeans | agentloop/agent.go:55-82 | the last Turn number of a log is that of the last Turn begun, which has to be a positive one, or zero when none was begun |
| AgentLoop.ReactLoopAgent.CheckExecution | agentloop/agent.go:93-98 | admits new work exactly when available and no claim is unconfirmed |
| AgentLoop.ReactLoopAgent.Apply | agentloop/agent.go:131-146 | takes committed events exactly when they have not been applied and can be folded; the inbox then is what rebuilding from the longer log gives, and otherwise nothing changes |
| AgentLoop.ReactLoopAgent.PrepareClose | agentloop/agent.go:163-185 | the control state after a close, and what still keeps the agent from closing |
| AgentLoop.ReactLoopAgent.Drain | agentloop/agent.go:156-161 | the same without cancelling, and only for an initialized agent |
| AgentLoop.ReactLoopAgent.CheckClose | agentloop/agent.go:188-199 | closing is allowed exactly when idle, without a turn, in a closing lifetime, and with no input left that was not kept |
| AgentLoop.ReactLoopAgent.Release | agentloop/agent.go:202-210 | discards everything exactly when closing is allowed |
| AgentLoop.ReactLoopAgent.AcceptExecution | agentloop/agent_state.go:32-53 | the control state after a committed admission is that of the state machine |
| AgentLoop.ReactLoopAgent.ReleaseWork | agentloop/agent_state.go:77-96 | refuses while business work is unfinished, and otherwise reserves another execution exactly when the machine replays |
| AgentLoop.ReactLoopAgent.ContinueExecution | agentloop/agent_state.go:122-133 | continues as the state machine does and reports a replay exactly when it makes one |
| AgentLoop.ReactLoopAgent.BeginMaintenance | agentloop/agent_state.go:99-109 | reserves exactly an idle, available agent |
| AgentLoop.ReactLoopAgent.FinishMaintenance | agentloop/agent_state.go:113-118 | releases maintenance as the state machine does |
| AgentLoop.ReactLoopAgent.Admit | agentloop/agent_admission.go:47-62 | proposes input behind its list, for the next turn when waking a cancelled agent |
| AgentLoop.ReactLoopAgent.ConfirmAdmission | agentloop/agent_admission.go:66-73 | applies exactly a matching acknowledgement that can be folded, with the next position behind it, then admits; otherwise nothing changes, and the inbox stays what rebuilding from the log gives |
| AgentLoop.ReactLoopAgent.Cancel | agentloop/agent_admission.go:77-95 | records the first intent in every branch the code does, and proposes clearing both lists unless input is kept |
| AgentLoop.ReactLoopAgent.Promote | agentloop/agent_admission.go:99-133 | moves one next-turn message forward while busy, or to the back of its list after a cancellation, and says why otherwise |
| AgentLoop.ReactLoopAgent.Remove | agentloop/agent.go:120-128 | proposes cancelling one message, also after a close has begun |
| AgentLoop.ReactLoopAgent.CheckCommit | agentloop/agent_commit.go:19-34 | accepts exactly an acknowledgement of these drafts at consecutive positions of this Session |
| AgentLoop.MatchesExactly | agentloop/agent_commit.go:19-42 | an acknowledgement is accepted exactly when it is the one a log of this Session gives for these drafts at some place |
| AgentLoop.ReactLoopAgent.ConfirmEdit | agentloop/agent_commit.go:12-17 | succeeds exactly on a matching acknowledgement that was not applied and can be folded, and keeps the inbox what rebuilding from the log gives; anything else changes nothing |
| AgentLoop.ReactLoopAgent.PrepareTurn | agentloop/agent_turn.go:13-45 | proposes the next turn number once, and the same turn again until it is confirmed |
| AgentLoop.TurnStartsAs | agentloop/turn_start.go:11-19 | the start of a Turn is recorded as such, with its number |
| AgentLoop.ReactLoopAgent.ConfirmTurn | agentloop/agent_turn.go:49-67 | opens exactly the proposed turn whose start is acknowledged, cancelled or not |
| AgentLoop.ReactLoopAgent.PrepareInput | agentloop/agent_turn.go:86-112 | stages the claim of the first or a later step, and opens the unconfirmed window exactly when it claims anything |
| AgentLoop.ReactLoopAgent.ConfirmInput | agentloop/agent_preparation.go:121-133 | accepts exactly the staged claim while it is unconfirmed, not applied and foldable, and hands on what it claimed; otherwise nothing changes |
| AgentLoop.ReactLoopAgent.PreparePreStep | agentloop/agent_preparation.go:45-81 | offers exactly the confirmed claim for a decision |
| AgentLoop.ReactLoopAgent.AcceptPreStep | agentloop/agent_preparation.go:85-118 | exactly when a decision is due and uncancelled, enters with the decided messages, or settles a started turn as blocked |
| AgentLoop.ReactLoopAgent.AbandonPreparation | agentloop/agent_preparation.go:137-143 | drops context exactly when its claim is confirmed and no step is open |
| AgentLoop.ReactLoopAgent.PrepareTurnEnd | agentloop/agent_settlement.go:21-78 | fixes how a started turn ends, cancellation first, before the first attempt to commit it; every later attempt repeats that end |
| AgentLoop.TurnEndsAs | agentloop/agent_settlement.go:21-80 | exactly how the end of a Turn is recorded: aborted when cancelled or stopped, an error when anything else went wrong or nothing was reached, and otherwise by what was reached, unless tokens had run out before |
| AgentLoop.SettlesExactly | agentloop/agent_settlement.go:21-80 | exactly the Turns that have started and not closed can be settled |
| AgentLoop.ReactLoopAgent.ConfirmTurnEnd | agentloop/agent_settlement.go:82-95 | accepts exactly the acknowledged end, again only at the same place |
| AgentLoop.ReactLoopAgent.ConfirmTurnFlush | agentloop/agent_settlement.go:107-121 | closes the turn exactly when its end is durable in this Session, and gives nothing up before |
| ClaimRecovery.FindClaim | agentloop/agent_input_recovery.go:24-51 | the scan succeeds exactly when the log holds the claim once and no other inbox write behind the boundary, or no inbox write at all |
| ClaimRecovery.SettledReflects | agentloop/agent_input_recovery.go:24-59 | applying a settled claim once, or forgetting an absent one, gives the queues of folding the whole log |
| ClaimRecovery.AppliedSyncs | agentloop/agent.go:131-146 | applying acknowledged events keeps the inbox what rebuilding from the longer log gives |
| ClaimRecovery.SettledIsAcceptable | agentloop/agent_input_recovery.go:24-59 | a claim that the log settles behind everything applied can be applied, whatever other events were applied since it was staged |
| AgentLoop.ReactLoopAgent.ReconcileInput | agentloop/agent_input_recovery.go:13-59 | succeeds exactly when a complete log of this Session says that the claim is absent or stands, alone and once, behind everything applied; it then forgets or applies it once, and the inbox is what rebuilding from that log gives |
| AgentLoop.ReconciledAsPromised | agentloop/agent_input_recovery.go:52-58 | a reconciled claim takes exactly what was staged and hands on exactly those messages |
| SettingsModel.Resolve | settings/config.go:353-405 | the loops give the overlay of complete groups exactly when everything is valid, installed where needed, and companions refer to existing configurations |
| SettingsModel.ResolvesExactly | settings/config.go:300-405 | overrides fit a baseline exactly when every configuration is well named and acceptable for its kind, providers, prompts and tools are overridden only where the baseline has them, and every companion's reference is in force |
| SettingsModel.ResolutionIsByGroup | settings/config.go:353-405 | each group in force is the override if there is one and the baseline otherwise, and nothing else is in force |
| SettingsModel.FollowsIsValid | settings/state.go:71-88 | saving or clearing one group keeps a stored state valid |
| SettingsModel.VersionsGrow | settings/state.go:54-88 | group versions never decrease over any history, clearing included |
| SettingsModel.SameVersionSameValue | settings/service.go:150-161 | between stored states in which a group has the same version its override is the same, so an expected version guards the value |
| Settings.Service.NewService | settings/service.go:28-56 | starts from the latest stored state exactly when it resolves over the baseline |
| Settings.Service.Persist | settings/service.go:197-211 | a success, also one recognized after an uncertain answer, means the new state stands right after the old one in the store |
| Settings.Service.Reload | settings/service.go:212-224 | a conflict puts the latest stored state in force, whose versions are no smaller; a storage failure changes nothing, and comes only from a store that fails or holds what does not resolve |
| Settings.Service.Commit | settings/service.go:163-229 | says when overrides are refused before anything is submitted, which leaves the store untouched; otherwise a reliable store turns them down only when somebody else has saved since, and then the latest stored state is in force, newer than before, so that a retry on its versions is not obsolete; a success changes one group only |
| Settings.Service.Update | settings/service.go:150-161 | refuses an invalid group, a cancelled caller, an obsolete version and whatever the commit would refuse, leaving the store untouched |
| Settings.RefusedExactly | settings/service.go:150-196 | exactly which requests are submitted, or succeed at once because nothing is to change, and for which reason each other one is refused |
| Settings.Service.Save | settings/service.go:86-148 | saves one complete group on exactly its expected version and no other group; it succeeds unless it is refused before it is submitted, the store fails, or somebody else has saved since, whose state it then holds |
| Settings.Service.Reset | settings/service_reset.go:45-50 | clears one override and keeps its version; refuses a group that never existed |
| Workspace.AddGroup | workspace/registry.go:562-612 | one directory's Sessions join its account or a new one, nothing held is moved, and every one of them is held; an account is marked as updated exactly when its Sessions change; it fails exactly when a needed id cannot be generated |
| Workspace.AssignKeepsIndex | workspace/registry.go:556-612 | giving a record Sessions it held or nobody did keeps accounts disjoint and indexed |
| Workspace.BuildGroups | workspace/registry.go:526-555 | one group per directory, the newest first and of equals by path, each listing exactly its Sessions from the newest to the oldest and then by id |
| Workspace.RecordsAreOrdered | workspace/registry.go:626-648 | the display order is strict and total on records with distinct ids |
| Workspace.SortedIsDisplayed | workspace/registry.go:626-648 | sorted by the comparison, records stand in display order: the last used first, and of equals those that had a place before, in that order, and then by id |
| Order.LessIsLexicographic | workspace/registry.go:651-651 | ids are compared at the first character in which they differ, a prefix first |
| Workspace.OrderRecords | workspace/registry.go:613-653 | lists every record once, in display order |
| Workspace.RanksFollowUse | workspace/registry.go:613-653 | a directory ranks by its newest Session, which is where the display order begins |
| Workspace.Bootstrap | workspace/registry.go:518-663 | unless an id cannot be generated, gives a first durable state that is valid: accounts are disjoint and the order names every record once, most recently used first; every stored membership is kept, every header with a directory is accounted, and nothing else is |
| Compaction.InheritedOrphanStarts | compaction/invariant.go:50-68 | the look-ahead yields the starts that were open when inherited history ended |
| Compaction.OrphansMean | compaction/invariant.go:50-68 | a start is orphaned exactly when some end of inherited history finds it open |
| Compaction.InspectLog | compaction/invariant.go:31-48 | the loop computes the monitor |
| Compaction.AcceptedIsLegal | compaction/invariant.go:31-284 | a log is accepted exactly when each event is legal where it stands, said without the monitor's state, and the state is the turn and attempt the log has open |
| Compaction.AcceptedPayloads | compaction/invariant.go:94-200 | in every accepted log each start and end is named and owned by the open turn or by none, and each summary and prune names a range whose ends are the first and the last event it shadows |
| Compaction.CompactionIsAccepted | compaction/invariant.go:94-200 | wherever no attempt is open, a start, a summary of a range, its checkpoint and a successful end that agree are accepted and leave the log as they found it |
| Compaction.FailedAttemptIsAccepted | compaction/invariant.go:94-198 | so are a start and a failed end that agree |
| Compaction.PruneIsAccepted | compaction/invariant.go:199-201 | a prune over a range is accepted at any time |
| Compaction.BoundaryIsAccepted | compaction/invariant.go:270-296 | while no attempt is open a turn boundary is accepted, and the open turn is the one it starts, or none |
| Compaction.OthersAreAccepted | compaction/invariant.go:82-92 | every other event but a replacement by a user message is of no concern |
| Compaction.AttemptsNeverOverlap | compaction/invariant.go:96-109 | between two accepted starts stands an end or the end of inherited history |
| Compaction.EndsMatchStarts | compaction/invariant.go:155-197 | every accepted end matches the id, command and turn of the start before it, inside that turn, and a successful one follows exactly one summary |
| Compaction.BoundariesOnlyCrossOrphans | compaction/invariant.go:70-80 | an accepted turn boundary inside an attempt means inherited history ended inside that attempt |
| Compaction.MonitorContinues | compaction/invariant.go:31-48 | extending a log without an end of inherited history is continuing from the earlier state |
| Compaction.PrefixAcceptedExactly | compaction/invariant.go:31-68 | a prefix of an accepted log is accepted exactly when each turn boundary in it that falls inside an attempt finds, still in the prefix, the end of inherited history that orphaned that attempt |
| Compaction.EndSeedExcuses | compaction/invariant.go:34-38 | an example of that: a log accepted with the end of inherited history whose prefix is refused |
| ToolPairing.BuildToolPairingBoundaries | compaction/tool_pairing.go:18-49 | fails exactly when a node is missing, unreadable or a result precedes its call, and otherwise says of every cut whether calls and results before it are equal |
| ToolPairing.CallsAre | compaction/tool_pairing.go:85-109 | an assistant message makes as many calls as it has call blocks, and nothing else makes any |
| ToolPairing.CutsAre | compaction/tool_pairing.go:111-129 | the cuts before and after a node are balanced exactly when as many results as calls stand before them, and there are none beside what is no node |
| ToolPairing.ReplacementKeepsCuts | compaction/tool_pairing.go:18-49 | a replacement that leaves the excess of calls behind it unchanged keeps the surface paired and every outside cut as it was |
| ToolPairing.BalancedReplacement | session/surface.go:96-137 | replacing a range between balanced cuts by any node that leaves no call open and answers none keeps the surface paired and every outside cut as it was |
| ToolPairing.RewriteChangesNoCut | session/surface.go:168-197 | a permitted tool-result rewrite changes no cut at all |
| Middleware.Chain.NewChain | agent/middleware/chain.go:47-63 | accepts exactly named, distinct registrations |
| Middleware.Chain.Start | agent/middleware/chain.go:65-78 | invokes the first handler once, unless there is none or the call was cancelled |
| Middleware.Chain.Proceed | agent/middleware/chain.go:91-119 | succeeds exactly for the one open handler, once, while uncancelled, and invokes the next in order |
| Middleware.Chain.Finish | agent/middleware/chain.go:121-140 | succeeds exactly for the open handler, cancelled or not, and reopens the handler that called it |
| Middleware.CompletedInReverse | agent/middleware/chain.go:121-140 | in every chain the completed handlers completed in the reverse of the order in which they were invoked, from the outermost inwards |
| Middleware.StepsAreLinear | agent/middleware/chain.go:65-140 | a call of n handlers takes at most 2n + 1 successful steps |
| Middleware.PreStep.Start | agent/middleware/pre_step.go:66-72 | starts with the first handler on the original input, or returns the terminal decision or the cancellation |
| Middleware.PreStep.Continue | agent/middleware/pre_step.go:75-81 | passes the original input on, or returns the terminal decision to the handler that asked |
| Middleware.PreStep.Complete | agent/middleware/pre_step.go:84-101 | returns an outcome to the handler around it, replaced by the cause once cancelled |
| Middleware.PreStep.Cancel | agent/middleware/pre_step.go:127-132 | keeps the first cause |
| Approval.Decision.Resolve | approval/decision.go:48-72 | allowed once exactly if the policy asks, the answerer said so and the caller had not cancelled; cancellation outranks everything and everything else fails closed |
| Approval.Execution.CommitAsked | approval/execution.go:65-71 | moves on only with the asked event confirmed in the log after its turn start, and does so when nothing is lost, the Turn stays open and the audit events can be read |
| Approval.ValidReceiptExactly | approval/audit.go:94-104 | a receipt confirms an audit event exactly when it is the one a log of its Session gives for that event after the start of the Turn |
| Approval.Execution.Ask | approval/execution.go:72-77 | the answerer is asked only with the asked event in the log |
| Approval.DecidedNeedsAsked | approval/audit.go:21-47 | a first request for the decided event succeeds only in the open Turn and with just this question asked before, and otherwise appends nothing |
| Approval.Execution.Decide | approval/execution.go:72-90 | asks at most once and fixes the outcome before anything is written |
| Approval.Execution.CommitDecided | approval/execution.go:91-97 | resolves only with the decided event in the log behind the asked one, and does so when nothing is lost, the Turn stays open and the audit events can be read |
| Approval.Execution.Run | approval/execution.go:60-106 | however often it is retried, one question at most, one asked and one decided event in that order after the turn start, and the outcome returned is the one the log carries; with nothing lost, in an open Turn with readable audit events, it returns the outcome |
| Commands.Command.ConfirmRun | commands/command.go:78-97 | admits the handler exactly on the acknowledged run, or concludes at once a command cancelled meanwhile or given attachments |
| Commands.Command.Resolve | commands/command.go:108-122 | fixes the handler's result unless something concluded the command before |
| Commands.Command.Fail | commands/command.go:125-140 | fixes a failure unless something concluded the command before |
| Commands.Command.Cancel | commands/command.go:197-208 | keeps the first intent before the run is acknowledged, and concludes an admitted command |
| Commands.Command.ConfirmDone | commands/command.go:173-182 | finishes exactly on the acknowledged conclusion |
| Commands.WritesAreCoherent | commands/command_write.go:25-60 | the run and done writes each have an identity of their own and do not touch the other, so the exactly-once results apply to both |
| Commands.AcknowledgementIsAccepted | commands/command_write.go:25-67 | whatever a log acknowledges for a command's write, first time or after lost replies, the command accepts |
| Commands.AcknowledgesExactly | commands/command_write.go:62-67 | a command accepts exactly the acknowledgement a log of its Session gives for its write at some place |
| Commands.Lifecycle.Step | commands/command.go:78-208 | one move: a submission of which nothing is lost is answered by a readable log with room, a reply that arrives admits or finishes the command that waits for it, the first acceptable ending of an admitted command fixes its conclusion, and both events stay where they stand |
| Commands.Lifecycle.Complete | commands/command.go:70-182 | from any stage, with nothing lost from there on and a readable log with room, the command finishes, with the meaning of the ending it is given unless something had concluded it or asked to before |
| Commands.Lifecycle.Live | commands/command.go:78-208 | over every order of requests, late or repeated replies, results, failures and cancellations a conclusion once fixed never changes, and a finished command has one run event and behind it one done event that carries its conclusion |
| Transport.AdmissionIsExact | mcpclient/transport_admission.go:12-96 | under every interleaving the counter equals the unfinished operations, the idle channel is open exactly while there are any, and what is released was closed and has finished its work |
| Transport.StepsSettle | mcpclient/transport_admission.go:12-96 | what each step settles: a close or the end of the stream end the lifetime for good, cleanup is confirmed once, a pause lasts until a resume, and exactly the admitted and unfinished operations run |
| Transport.EnabledExactly | mcpclient/transport_admission.go:67-96 | an operation is admitted exactly while the transport is neither closed nor ended nor paused, and everything can be released exactly once it is closed, its stream has ended and nothing runs |
| Transport.ClosesOpenChannel | mcpclient/transport_admission.go:86-94 | the idle channel is never closed twice |
| Transport.DrainLeavesNothing | mcpclient/transport_admission.go:12-36 | without a resume since it began, a drain's wait is over exactly when no operation is running |
| Transport.WhatRanHasFinished | mcpclient/transport_admission.go:12-47 | resumed or not, whatever ran when a drain began has finished when its wait ends |
| Transport.ResumeSpoilsDrain | mcpclient/transport_admission.go:39-47 | with a resume in between, an operation can be running when the wait ends |
| Transport.Peer.AdmitOne | mcpclient/transport_admission.go:67-96 | admits exactly while available and not draining |
| Transport.Peer.FinishOne | mcpclient/transport_admission.go:86-94 | the last finishing operation, and only it, signals idleness |
| Transport.Peer.DrainBegins | mcpclient/transport_admission.go:12-27 | pauses admission and captures the signal to wait for |
| Transport.Peer.CloseBegins | mcpclient/transport.go:171-180 | freezes admission once and captures the last signal there will be |
| Transport.Peer.CleanedUp | mcpclient/transport.go:181-189 | released only after the stream ended and the captured signal came |
| Transport.Connection.Reconnected | mcpclient/connection.go:104-139 | the new transport is selected, or given up after a close; either way every opened transport is current, kept, or confirmed closed |
| Transport.CloseEach | mcpclient/connection.go:206-225 | the loop from the last transport keeps exactly those that did not close, in order |
| Transport.Connection.ReleaseRetired | mcpclient/connection.go:206-225 | forgets exactly the retired transports whose close was confirmed |
| Transport.Connection.CloseBegins | mcpclient/connection.go:155-169 | freezes the connection and tries to close everything it holds, which stays in its care |
| Transport.Connection.CloseEnds | mcpclient/connection.go:170-176 | forgets what has closed once the running operation has ended, and nothing when that wait is given up |
| Transport.Connection.CloseAll | mcpclient/connection.go:155-177 | both passes of a close, with a reconnection ending in between: complete exactly when each closed everything and the wait for the running operation was not given up, and then no opened transport is unconfirmed; otherwise every one that did not close is kept |

## Left out

- JSON text, strict-field decoding and message codecs: payloads are typed, and decoding fails by shape.
- Clones and detached copies: values give them. Aliasing is modelled only where the log shares its node array.
- The actor framework, mailboxes, contexts and goroutines: each handler or locked section is one step; cancellation is a value.
- Recovery of a panicking write plan in `Log.Commit` (`session/log_commit.go:12-78`): a plan here always answers.
- The `uint64` wrap of the replacement generation: it is an unbounded counter.
- Write plans outside the five kinds modelled, other than through `OtherWrite`, whose answers are arbitrary and for which only `RequestOutcome` and `SuccessNamesTheLog` are claimed.
- Turn start and turn end plans, step settlement and tool-batch scheduling (`agentloop/internal`): a turn's end is one draft with its number and conclusion, and a step is open or not.
- The recorded failure and the retry record of `ReactLoopAgent`: they decide what is reported and resumed, not admission.
- The six update methods of `settings.Service` differ only in the section they name and are one method, `Save`; the model options of a directory, which no override changes, are not modelled.
- Which of two problems of a splice's names (empty or repeated) is reported first: both are one error.
- Titles, timestamps and order moves of workspaces, and path canonicalization: `Bootstrap` takes each header's canonical path as given.
- Preparing an approval (policy lookup and id minting): `Execution` starts from a fixed decision whose id is unused in the log.
- The model, turn-stopping and tool variants of middleware calls repeat the pre-step call over the same chain.
- Deferred replies and cancellation of requests in the registry actor, its restarts, and a component that reports it was never owned: `Registry.RejectComponent` covers the ledger, and `CloseProgress` takes such a report to have come before the drain.
- HTTP, WebSocket, MCP and SQLite adapters: I/O and foreign code; stores and journals appear through what they promise.
- Closing.Closer.ScheduleClose: does not list the children it tells its caller about, because nothing in the protocol depends on the list.
