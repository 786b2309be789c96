# Antimony server: models and proofs

This project models the parts of the Antimony server whose correctness depends on interleavings, on sequences of
operations, or on a transformation that must not change meaning, and proves what they promise. `dafny verify
dfyconfig.toml` checks all of it.

| File | What it models |
|---|---|
| `DeployProtocol.dfy`, `DeployOutcomes.dfy` | Deploying, destroying and node commands of lab instances: replaceable deployment contexts, two mutexes, a state and a destroyed flag, under every interleaving, and what each call leaves behind given the answers it got |
| `CaptureProtocol.dfy`, `CaptureOutcomes.dfy` | Packet captures shared by SSH sessions: a registry of reference-counted streams with asynchronous opening and two locks, under every interleaving, and what each session gets |
| `Schedules.dfy`, `ScheduleRuns.dfy` | The time-ordered queue, its methods and what holds over whole runs of them |
| `LabScheduler.dfy`, `LabStarts.dfy`, `LabEnds.dfy` | The scheduler's two queues, its event handlers and its Run loop, the starts at which it deploys labs and the ends at which it destroys them |
| `YamlRename.dfy`, `YamlMeaning.dfy`, `YamlAnchors.dfy`, `YamlExamples.dfy` | Renaming a topology by rewriting its YAML node graph, what the result means, and topologies whose meant name is missed |
| `Paths.dfy`, `PathWalks.dfy` | Lexical path cleaning, bind file paths and reserved names, and where a path leads, segment by segment |
| `PolicyFindings.dfy`, `PolicyKeys.dfy`, `Policy.dfy` | Findings and their order, the rules about text and keys, and the policy check of a topology |
| `PolicyWords.dfy`, `PolicyFacts.dfy`, `PolicyReports.dfy` | The words the rules compare, when a check finds nothing, and what exactly it reports otherwise |
| `PolicyCache.dfy`, `Ordering.dfy` | The cache of findings, the encoding it is keyed by, and byte-order sorting |
| `CaptureCommand.dfy` | The parser of tcpdump command lines |
| `Rings.dfy` | The value ring and the line ring |
| `TpacketSource.dfy`, `SidecarCapture.dfy` | The two packet sources, read and closed concurrently |

Conventions:

- A protocol is a step system. Every call is a thread with a program counter, one action moves one thread across one
  atomic step, and a run is any sequence of enabled actions. Calls into providers, kernels and pipes have every
  possible outcome.
- Code that changes an object in place is a class. Each method is proved against a function of the old state, and the
  properties are lemmas about that function, alone and over runs.
- A string is its bytes, one character for one byte. `strings.ToLower` and `strings.TrimSpace` act on ASCII.
- Times are Unix seconds, as the queue compares them.

Where the code and its documentation differ:

- `renameDefinition` promises that only the value of the name changes. The key is looked up by its written text, and
  an alias is written as its anchor, so that holds exactly if the first key that is written as `name`, or is an alias
  of it, is both, unless there is nothing to change (`YamlMeaning.RenameChangesTheMeantName`). One topology that
  passes the schema gets the value of another key overwritten (`YamlExamples.AnotherKeyCanBeRenamed`), another one
  gets a second `name` (`YamlExamples.ASecondNameCanBeAdded`). Apart from which value is taken for the name, nothing
  else ever changes (`YamlMeaning.DecodableKeepsItsMeaning`, `YamlMeaning.DecodableOnlyGetsAName`).
- `DestroyLab` deletes the instance of its lab from the map by the lab's id, whichever instance that is. So the map
  holds every live instance exactly as long as no destroy deletes its lab while the map holds a newer instance of it
  (`DeployProtocol.InstancesAreLostExactlyByStaleDeletes`). Overlapping destroys can come to that
  (`DeployProtocol.OverlappingDestroysLoseAnInstance`), serial ones never do
  (`DeployProtocol.SerialDestroysNeverLoseAnInstance`).
- A deleted or manually destroyed lab is to leave the destruction queue (src/main.go:116,
  src/runtime/instance/service.go:153), and a moved lab to get its new end. The queue can hold several entries of a
  lab, since creating it and deploying it both schedule its destruction, and only the newest of them is taken out. So
  every queued destruction is the one scheduled last exactly as long as no event or deployment schedules a lab with
  other times, or calls it off, while another entry of it stays queued (`LabEnds.EndsAreLatestExactlyIfNoneIsLeft`). A
  lab that is destroyed by hand after its scheduled deployment, and then given a later end and deployed again, is
  destroyed at its first end (`LabEnds.ALabCanEndTooEarly`).

## Model

| member | source | states |
|---|---|---|
| DeployProtocol.TraceKeepsInv | src/runtime/instance/service.go:451-799 | locks, contexts, the map and the state of every instance stay consistent in every reachable state |
| DeployProtocol.NobodyIsLeftDeploying | src/runtime/instance/service.go:451-799 | an undestroyed instance whose OperationMutex is free is never stopping; if it is deploying, a destroy waits, a call is about to install or cancel the context, or the owner of the latest, uncancelled context waits |
| DeployProtocol.OnlyTheLatestContextIsAlive | src/runtime/instance/service.go:619-635 | of all contexts ever installed on an instance, only the latest can be uncancelled |
| DeployProtocol.OperationsExcludeEachOther | src/runtime/instance/service.go:629-635 | at most one call works under an instance's OperationMutex, and no deployment runs on a destroyed instance |
| DeployProtocol.DestroyedForever | src/runtime/instance/service.go:519-530 | a destroyed instance is never undestroyed |
| DeployProtocol.NoDeployStartsOnceDestroyed | src/runtime/instance/service.go:629-679 | once an instance is destroyed, no later step starts the provider's Deploy or Redeploy on it |
| DeployProtocol.DestroyedInstancesLeaveTheMap | src/runtime/instance/service.go:519-530 | an instance that is in the map and destroyed still has its destroyer holding the OperationMutex, about to delete it |
| DeployProtocol.AdvanceLowersWork | src/runtime/instance/service.go:194-799 | every step of a call lowers the work that is left, whatever the provider answers, the readings of the context included |
| DeployProtocol.SomeCallAdvances | src/runtime/instance/service.go:194-799 | the two mutexes never deadlock, although owners of OperationMutex wait for DeploymentMutex: as long as a call has not returned, a call on the same instance can take a step |
| DeployProtocol.WaitsEnd | src/runtime/instance/service.go:1122-1178 | a call that cannot take a step is blocked by one that can, or by the owner of OperationMutex that waits for the owner of DeploymentMutex, which can |
| DeployProtocol.EveryCallReturnsAndEveryLabSettles | src/runtime/instance/service.go:194-799 | without new calls, but with any number of listeners that read the context, all calls return after a bounded number of steps, and then every instance is unlocked and destroyed, running or failed, and no destroyed one is in the map; which of these it is, the answers of the provider decide (the next rows) |
| DeployOutcomes.DeploymentsEndAsAnswered | src/runtime/instance/service.go:619-799 | in every interleaving, when DeployLab unlocks: running exactly after the provider accepted the deployment and the inspection and no stream met a cancelled context, failed if an answer was no and the context was alive when the error was looked at, deploying if it was cancelled by then, and as found if the call gave up before it asked |
| DeployOutcomes.DestroysEndAsAnswered | src/runtime/instance/service.go:451-549 | when DestroyLab unlocks, the instance is destroyed if the provider said yes, and otherwise it has failed and is destroyed only if it was before |
| DeployOutcomes.NodeCommandsKeepTheState | src/runtime/instance/service.go:194-380 | a node command leaves the state as it found it, asks the provider exactly if the node is there, fetches the node exactly if that went well, and reads the context once for a start and once for a fetch |
| DeployOutcomes.TheStateSaysWhatRuns | src/runtime/instance/service.go:644-718 | an instance is deploying while the provider deploys or inspects its lab and stopping while it destroys it, and the request is Redeploy exactly if the lab had an instance when the call was made |
| DeployOutcomes.OutcomesStay | src/runtime/instance/service.go:629-635 | an instance keeps its state and its flag from one owner of OperationMutex to the next, whatever other calls do |
| DeployOutcomes.CallsNeedAnInstance | src/runtime/instance/service.go:551-617 | which calls run at all, and that only the deployment of a lab without an instance adds one |
| DeployOutcomes.ReadersOnlyRead | src/runtime/instance/service.go:836-921 | a listener reads the context once and never owns OperationMutex |
| DeployProtocol.StepKeepsAllMapped | src/runtime/instance/service.go:519-530 | a step keeps every live instance in the map exactly if it does not delete a lab for which the map holds another live instance |
| DeployProtocol.InstancesAreLostExactlyByStaleDeletes | src/runtime/instance/service.go:519-530 | over any run, every live instance is the one the map holds for its lab exactly if no destroy ever deletes another live instance than its own |
| DeployProtocol.SerialDestroysNeverLoseAnInstance | src/runtime/instance/service.go:451-549 | if destroys of a lab never overlap, no destroy deletes another instance than its own, and every live instance is the one the map holds for its lab |
| DeployProtocol.OverlappingDestroysLoseAnInstance | src/runtime/instance/service.go:528-530 | a run in which an overlapping destroy removes the instance of a newer deployment from the map |
| CaptureProtocol.TraceKeepsInv | src/sshserver/capture.go:94-257 | locks, receivers, sources and shutdowns stay consistent in every reachable state |
| CaptureProtocol.EverySourceIsClosedOnce | src/sshserver/capture.go:161-185 | no source is closed twice or while its stream lives, and once opening and shutdown have both finished exactly one of them has closed it |
| CaptureProtocol.RegistryHoldsTheLiveStreams | src/sshserver/capture.go:94-158 | whenever the registry lock is free, registered streams are alive, watched and unique per key, a closed service has none, and every other live stream has a thread committed to shutting it down |
| CaptureProtocol.ReceiversAreTheJoinedSessions | src/sshserver/capture.go:189-205 | the receivers of a stream are exactly the sessions that joined and have not left it |
| CaptureProtocol.QuiescentCapturesAreWatched | src/sshserver/capture.go:209-257 | in quiescent states the live streams are exactly the registered and watched ones, and everything else that was opened is closed; that the live ones have a source and a reader is `CaptureOutcomes.LiveStreamsAreRead` |
| CaptureProtocol.CapturesNeverDeadlock | src/sshserver/capture.go:106-158 | taking the registry lock before a stream's lock rules out deadlock |
| CaptureProtocol.AdvanceLowersWork | src/sshserver/capture.go:94-257 | every step but the reading of a packet lowers the work that is left, the threads it starts and the streams it registers included |
| CaptureProtocol.EveryRunSettles | src/sshserver/capture.go:94-257 | after the last call all but a bounded number of steps read packets, and a run that can only read packets or lose sessions of live streams is quiescent in the sense above |
| CaptureOutcomes.CallsRunAsCalled | src/sshserver/capture.go:79-104 | a call of Capture runs as a session of its interface, a call of Close as a closer |
| CaptureOutcomes.SessionsShareTheRegisteredStream | src/sshserver/capture.go:106-142 | a session is turned away exactly if the service is closed, and otherwise joins the registered stream of its interface, or registers a new one that a thread of its own opens |
| CaptureOutcomes.OpeningsEndAsAnswered | src/sshserver/capture.go:161-185 | in every reachable state an opened stream has a source exactly if the provider opened the capture and the stream was not shut down when its opener looked, and it has an error exactly if it has no source |
| CaptureOutcomes.WaitersGetWhatWasOpened | src/sshserver/capture.go:145-158 | a session that stops waiting watches exactly if the opening is over and the stream has a source, and otherwise leaves the stream |
| CaptureOutcomes.WatchedStreamsAreRead | src/sshserver/capture.go:106-230 | who watches is a receiver of an opened stream of its own interface that has a source and exactly one reader, which reads as long as the stream is registered or is about to unregister it |
| CaptureOutcomes.LiveStreamsAreRead | src/sshserver/capture.go:94-257 | when nothing is left to do, every live stream has a source and a reader that reads it, and all its receivers watch it and asked for its interface |
| CaptureOutcomes.CloseWaitsForShutdowns | src/sshserver/capture.go:91-104 | when Close returns, the service is closed, and every stream that was registered when it was closed is shut down, whoever ran the shutdown, with its source closed |
| CaptureOutcomes.ServicesAreClosedByClose | src/sshserver/capture.go:91-104 | the service is closed exactly if some call of Close has got past the registry |
| CaptureOutcomes.ClosedServicesTakeNobody | src/sshserver/capture.go:91-124 | a closed service has nothing registered, no session joins a stream of it, and no stream is added |
| Schedules.Schedule.Schedule | src/utils/schedule.go:34-44 | puts a timed item before all items of its second or later, and ignores an item without a time |
| Schedules.Schedule.Reschedule | src/utils/schedule.go:46-62 | removes the entry of the item's key, then inserts the item |
| Schedules.Schedule.Remove | src/utils/schedule.go:71-76 | removes the entry of a key, if there is one |
| Schedules.Schedule.TryPopAt | src/utils/schedule.go:84-98 | takes the first item if its second has come, and drops its key |
| Schedules.Schedule.RemoveItem | src/utils/schedule.go:106-112 | finds the mapped item in the slice and removes it from slice and map |
| Schedules.Schedule.Index | src/utils/schedule.go:106-112 | the search for a mapped item always finds it, so the slice is never cut at -1 |
| Schedules.Schedule.Search | src/utils/schedule.go:114-129 | the binary search returns the number of items before the given second |
| Schedules.Schedule.InsertItem | src/utils/schedule.go:114-129 | inserts at the place the binary search finds |
| Schedules.InsertKeepsValid | src/utils/schedule.go:114-129 | insertion keeps the slice sorted and timed and the map pointing into it |
| Schedules.DeleteKeepsValid | src/utils/schedule.go:106-112 | removal keeps the slice sorted and the map pointing into it |
| Schedules.PopKeepsValid | src/utils/schedule.go:84-98 | popping keeps the slice sorted and the map pointing into it |
| ScheduleRuns.EveryRunIsValid | src/utils/schedule.go:34-129 | over any run, duplicates included, the slice is sorted by second, nothing in it lacks a time, and every mapped item is in it under its key |
| ScheduleRuns.NothingIsLostOrMadeUp | src/utils/schedule.go:34-129 | inserted equals popped plus removed plus queued, as multisets, over any run |
| ScheduleRuns.PopTakesTheLeadingEntry | src/utils/schedule.go:84-98 | after any run TryPopAt takes the most recently inserted item of the earliest second if that is due, and nothing exactly if nothing queued is due |
| ScheduleRuns.DrainYieldsTheDueItems | src/utils/schedule.go:84-98 | popping until nothing comes yields exactly the due items in nondecreasing order of time |
| LabScheduler.StepKeepsOnePerLab | src/runtime/scheduler/scheduler.go:155-177 | the exact condition under which an event or a tick keeps the deployment queue at one entry per lab |
| LabScheduler.OneEntryPerLab | src/runtime/scheduler/scheduler.go:155-177 | if labs are not created while queued, as their ids are new when they are, the queue has one entry per lab and its map and slice agree |
| LabScheduler.DeployedAtMostOncePerQueueing | src/runtime/scheduler/scheduler.go:100-117 | over any run, a lab is handed to DeployLab at most once per created or moved event, less its entries that are still queued |
| LabScheduler.NeverDeployedOnceCancelled | src/runtime/scheduler/scheduler.go:160-173 | after a deletion or a manual deployment a lab is not deployed until it is created or moved again |
| LabScheduler.Scheduler.OnLabCreated | src/runtime/scheduler/scheduler.go:155-158 | queues one copy for deployment and another for destruction |
| LabScheduler.Scheduler.OnLabDeleted | src/runtime/scheduler/scheduler.go:160-163 | takes the lab out of both queues |
| LabScheduler.Scheduler.OnLabMoved | src/runtime/scheduler/scheduler.go:165-168 | replaces the lab in both queues |
| LabScheduler.Scheduler.OnLabManuallyDeployed | src/runtime/scheduler/scheduler.go:170-173 | cancels the deployment and queues the destruction |
| LabScheduler.Scheduler.OnLabRestored | src/runtime/scheduler/scheduler.go:175-177 | queues the destruction only |
| LabScheduler.Scheduler.Run | src/runtime/scheduler/scheduler.go:100-135 | each pass deploys at most one due lab, queues its destruction, and destroys at most one due lab, where due is said by the fields of the lab in `LabStarts.EarliestStartIsDeployed` and `LabStarts.EarliestEndIsDestroyed` |
| LabScheduler.TickLowersTheBacklog | src/runtime/scheduler/scheduler.go:100-135 | every pass works off a due item although it may add one |
| LabScheduler.TheBacklogIsWorkedOff | src/runtime/scheduler/scheduler.go:100-135 | at a fixed time D due deployments and X due destructions are worked off in at most D + X passes; `LabStarts.StartedLabsAreDeployed` says the same of starts and ends |
| LabScheduler.DeployedLabsAreTracked | src/runtime/scheduler/scheduler.go:100-135 | over any passes, a lab waiting for its destruction waits until it is handed to DestroyLab, and a deployed lab with an end waits from then on |
| LabScheduler.EndedLabsAreDestroyed | src/runtime/scheduler/scheduler.go:100-135 | after D + X passes at a fixed time, every lab that waited for its destruction or was deployed meanwhile, and whose end has come, has been handed to DestroyLab |
| LabStarts.EarliestStartIsDeployed | src/runtime/scheduler/scheduler.go:100-117 | a pass hands a lab to DeployLab exactly if the start of a queued one has come, and then one that starts first |
| LabStarts.EarliestEndIsDestroyed | src/runtime/scheduler/scheduler.go:119-126 | the same for the ends and DestroyLab |
| LabStarts.NothingComesEarly | src/runtime/scheduler/scheduler.go:100-126 | over any run, no lab is deployed before its start and none destroyed before the end it is queued with |
| LabStarts.StartsAreKept | src/runtime/scheduler/scheduler.go:155-168 | a lab that is created or moved waits for its deployment until it is handed over, unless an event of the lab itself comes in between |
| LabStarts.EndsAreKept | src/runtime/scheduler/scheduler.go:100-177 | a lab whose destruction an event or its deployment schedules waits for it until it is handed over, unless it is scheduled again or called off in between |
| LabStarts.TheWaitingLabsAreQueued | src/runtime/scheduler/scheduler.go:155-173 | if labs are not created while they wait, the deployment queue holds exactly the labs that were created or moved and since then neither deleted nor deployed, each once and as last moved |
| LabStarts.CopiesAreNotShared | src/runtime/scheduler/scheduler.go:147-177 | over any run, every entry of the two queues is a copy of its own |
| LabStarts.StartedLabsAreDeployed | src/runtime/scheduler/scheduler.go:100-135 | after as many passes at one time as queued labs have started or ended by then, every queued lab that has started is deployed, none that starts later is, and these still wait |
| LabStarts.EndedLabsAreDestroyedInTime | src/runtime/scheduler/scheduler.go:100-135 | and every queued lab that has ended is destroyed, none that ends later is, and these still wait |
| LabEnds.StepKeepsLatest | src/runtime/scheduler/scheduler.go:100-177 | the same condition for one step |
| LabEnds.EndsAreLatestExactlyIfNoneIsLeft | src/runtime/scheduler/scheduler.go:100-177 | over any run of events and ticks, every queued destruction is as its lab was last scheduled exactly if no step schedules or calls off a lab while another entry of it with other times stays queued |
| LabEnds.LabsAreDestroyedAtTheirLatestEnd | src/runtime/scheduler/scheduler.go:119-126 | in such a run a lab is only handed to DestroyLab as it was last scheduled, and once that end has come |
| LabEnds.DeletedLabsStayOut | src/runtime/scheduler/scheduler.go:160-163 | in such a run a deleted lab has no entry in the destruction queue until it is scheduled again |
| LabEnds.ALabCanEndTooEarly | src/runtime/scheduler/scheduler.go:155-177 | for any lab and any later end, a run that destroys the lab at its first end although it runs with the later one |
| YamlRename.Document.MappingValue | src/utils/yaml.go:44-52 | finds the value of the first key with the given text |
| YamlRename.Document.DetachAliases | src/utils/yaml.go:56-67 | replaces exactly the aliases of the target below a node by copies of it without the anchor, and changes nothing else |
| YamlRename.Document.SetMappingValue | src/utils/yaml.go:11-31 | overwrites the value node in place, keeping its anchor, or appends the key and the value |
| YamlRename.Document.Rename | src/domain/lab/service.go:406-425 | fails without touching the document if it holds no mapping, otherwise sets the name after its aliases became copies |
| YamlRename.DetachingKeepsTheSlot | src/utils/yaml.go:44-67 | copies cannot shadow the name, so both lookups find the same value |
| YamlMeaning.RenamePreservesMeaning | src/domain/lab/service.go:406-425 | for a name that is a string or an alias, with all aliases expanded to any depth the result is the input with only the value in the name's slot replaced, exactly if no alias but the name refers to the root, or the value is the same already |
| YamlMeaning.NamingPreservesMeaning | src/domain/lab/service.go:406-425 | the same for a document in which no key is written as name: only a name is added, exactly if no alias refers to the root |
| YamlMeaning.DecodableKeepsItsMeaning | src/domain/lab/service.go:402-425 | in a document that can be decoded, whatever its name is, only the value that is found for the name changes |
| YamlMeaning.DecodableOnlyGetsAName | src/domain/lab/service.go:402-425 | a document that can be decoded and has no key written as name only gets one |
| YamlMeaning.NoAliasOfTheName | src/domain/lab/service.go:416-422 | after the rename no alias refers to the node that was changed |
| YamlMeaning.EveryAliasGetsItsOwnCopy | src/utils/yaml.go:54-67 | every alias of the name becomes a copy with the old value and without the anchor, and no two aliases share one |
| YamlMeaning.MatchesExpandAlike | src/utils/yaml.go:54-67 | nodes that correspond all the way down, across aliases and copies, have the same expansion |
| YamlMeaning.FindsTheMeantValue | src/utils/yaml.go:44-52 | the lookup finds the value the expanded document has, exactly if the first key that is written as the wanted one or means it does both |
| YamlMeaning.RenameChangesTheMeantName | src/domain/lab/service.go:402-425 | the rename changes the name the expanded document has, or adds one if it has none, and nothing else, exactly if the first key that is written as name or means it does both, or if the value found and the value meant both are the new name already |
| YamlExamples.AnotherKeyCanBeRenamed | src/utils/yaml.go:44-52 | a topology with an alias of an anchor called name as a key: the value of the key it stands for is overwritten, and the name stays |
| YamlExamples.ASecondNameCanBeAdded | src/utils/yaml.go:11-31 | a topology with an alias of the word name as a key: its name is not found, and a second one is added |
| YamlAnchors.ParsedInTextOrder | src/utils/yaml.go:54-67 | a walk through a parsed document visits its nodes in the order of the text |
| YamlAnchors.RenamedAliasesResolve | src/domain/lab/service.go:416-422 | reading the renamed text, for a name that is a string or an alias, every alias still finds its node as the most recent one with its anchor, although anchors repeat and the name's is gone |
| YamlAnchors.NamedAliasesResolve | src/utils/yaml.go:27-30 | the same after a name was added |
| Paths.CleanIsIdempotent | src/storage/manager.go:269-277 | a cleaned path leads to the same place and is cleaned already |
| Paths.NormalizeMeans | src/storage/manager.go:269-277 | a path is accepted exactly if it leads strictly inside the directory it starts from, which `PathWalks.LeadsInsideMeans` says segment by segment, and becomes its components |
| Paths.NormalizeIsIdempotent | src/storage/manager.go:269-277 | a normalized path is normalized already |
| Paths.NormalizeIdentifiesPlaces | src/storage/manager.go:269-277 | two accepted paths become the same exactly if they have the same components |
| Paths.BindFilesStayInside | src/storage/manager.go:305-312 | a bind file has a place exactly if its path leads strictly inside, and that is its topology's directory followed by the path's components |
| Paths.ReservedMeans | src/storage/manager.go:280-291 | a name is reserved exactly if, in lower case, it is one of the fixed names or continues one of the two prefixes |
| Paths.ValidateMeans | src/storage/manager.go:256-267 | validation accepts exactly the paths that lead strictly inside and are not reserved, and its result is accepted unchanged |
| Paths.NamesOrContains | src/policy/engine.go:429-431 | comparing cleaned paths as text, with a slash at the end, is comparing their components |
| PathWalks.LeadsInsideMeans | src/storage/manager.go:269-277 | a path leads strictly inside exactly if it is not rooted, no beginning of it has more `..` than names, and all of it has more names, counted over its segments other than the empty one and `.` |
| PathWalks.SegmentsLeadOn | src/storage/manager.go:269-277 | a name at the end of a path leads to that name below it, and `..` after it leads back |
| PathWalks.UpFromTheStart | src/storage/manager.go:269-277 | `..` at the root stays there, and before any name it leads out |
| PathWalks.FirstSegments | src/storage/manager.go:269-277 | what a single segment leads to, rooted or not |
| PathWalks.LowerMeans | src/storage/manager.go:281-282 | the lower-case form has the small letter for every capital one and all other characters as they are |
| PathWalks.ReservedNamesAre | src/storage/manager.go:222-291 | the reserved names in words: fifteen of them, and all that continue `clab-` or `topology.clab_vars.`, in any case |
| PolicyFindings.SortedKeys | src/policy/engine.go:494-496 | the keys of a map come out in byte order whatever order the map yields them in |
| Policy.Checker.CheckRootKeys | src/policy/engine.go:144-163 | reports the keys of the root in byte order, and below topology those of its sections and definitions |
| Policy.Checker.CheckNodeKeys | src/policy/engine.go:187-204 | reports the denied and the unknown keys of a node definition in byte order |
| Policy.Checker.CheckNodeDefinition | src/policy/engine.go:305-344 | appends the findings of every field of a node definition in order |
| Policy.Checker.CheckStages | src/policy/engine.go:363-402 | reports the commands of every stage whose target is neither empty nor the container, trimmed and in any case (`PolicyReports.FindingsAreReports`), in byte order of the stages |
| Policy.Checker.CheckLinks | src/policy/engine.go:440-476 | reports links that leave the lab |
| Policy.Checker.Run | src/policy/engine.go:90-116 | appends the findings of the text, the keys, the defaults, and all kinds, groups, nodes and links |
| PolicyFacts.OwnFileMeans | src/policy/engine.go:419-432 | over stored paths, a reference is an own file exactly if it does not start with a tilde, leads strictly inside, and its components begin those of a stored file |
| PolicyFacts.MoreFilesOnlyHelp | src/policy/engine.go:405-432 | for every topology, more bind files give a subsequence of the findings, and only foreign-file findings are dropped |
| PolicyFacts.OnlyTheSetOfFilesMatters | src/policy/engine.go:429-431 | findings depend neither on the order of the bind files nor on repetitions |
| PolicyKeys.TextFindingsMean | src/policy/engine.go:118-142 | the text is fine exactly if no two characters next to each other open a template or name a variable |
| PolicyKeys.RootFindingsMean | src/policy/engine.go:144-204 | the keys are fine exactly if the root has a name, a debug flag and a topology at most, the topology has known sections only, and every definition in them has allowed fields only |
| PolicyFacts.NoFindingsMeansSafe | src/policy/engine.go:90-116 | a check finds nothing exactly if the text opens no template and names no variable, all keys are known and allowed, and every node and link is safe, said in literal words: kinds, endpoints, targets and fields |
| PolicyReports.FindingsAreReports | src/policy/engine.go:90-476 | the findings of a check are exactly those that a description without the rules' own words calls for: rule, impact, path and text of each, over every key, field, stage, bind, link and endpoint |
| PolicyKeys.AllowedFieldsAre | src/policy/engine.go:214-256 | the fields a node definition may have, in words |
| PolicyWords.TrimSpaceMeans | src/policy/engine.go:346-402 | what is left after trimming neither begins nor ends with a blank, and the text is blanks, it, and blanks |
| PolicyWords.LoweredSays | src/policy/engine.go:346-402 | comparing the lower-case form with a lower-case word is comparing letter by letter, whatever their case |
| PolicyWords.BeforeMeans | src/policy/engine.go:404-432 | the part before a character has no such character and is followed by it or by the end |
| PolicyCache.FieldsSplit | src/policy/cache.go:69-73 | a length prefix tells where a field ends |
| PolicyCache.StreamDeterminesContent | src/policy/cache.go:56-67 | two hashed streams are equal exactly if the definitions and the multisets of bind files are |
| PolicyCache.HashInput | src/policy/cache.go:56-67 | feeding the hasher field by field hashes the stream of the definition and the sorted bind files |
| PolicyCache.CachedAnswersAreFresh | src/policy/engine.go:65-87 | in every interleaving of lookups, stores and deletions of concurrent checks, what a lookup finds is what a fresh check returns, if no two inputs collide under SHA-256 |
| PolicyCache.ReusedForSameContent | src/policy/cache.go:28-45 | findings are reused exactly while the text stays the same and no bind file is added or removed |
| PolicyCache.Engine.Check | src/policy/engine.go:65-82 | returns what a fresh check returns, and leaves an entry if it found none to use |
| PolicyCache.Engine.Forget | src/policy/engine.go:85-87 | drops the entry of a deleted topology |
| CaptureCommand.ParseCaptureCommand | src/sshserver/utils.go:17-74 | the nested loops compute what a scan of the words by groups of options yields, with the same errors |
| CaptureCommand.ParserFindsTheInterface | src/sshserver/utils.go:17-74 | a name is returned exactly for the interface alone, or for a tcpdump command line, with or without sudo, whose first interface option in any spelling follows only other options and words |
| CaptureCommand.ParserErrorsMean | src/sshserver/utils.go:17-74 | the three errors mean that nothing is left after sudo, that an interface name is followed by more words, and that a tcpdump command line names no interface |
| CaptureCommand.OptionsTakeArguments | src/sshserver/utils.go:10-12 | exactly the options in `BcCEFGijmMQrsTVwWyzZ` take an argument |
| CaptureCommand.BaseMeans | src/sshserver/utils.go:26 | a word is taken for tcpdump exactly if, without slashes at its end, it is `tcpdump` or ends in `/tcpdump` |
| Rings.ValueRing.constructor | src/utils/ring.go:55-61 | a negative capacity is one of zero |
| Rings.ValueRing.Add | src/utils/ring.go:63-75 | the ring shows the last items added since it was cleared, as many as fit |
| Rings.ValueRing.AddMany | src/utils/ring.go:77-81 | adding many is adding each |
| Rings.ValueRing.Items | src/utils/ring.go:83-89 | returns the last items added, oldest first |
| Rings.ValueRing.Clear | src/utils/ring.go:91-98 | forgets everything |
| Rings.ByteRing.Add | src/utils/ring.go:113-119 | keeps the stream without its first complete lines, so that at most maxLines are left |
| Rings.ByteRing.AddMany | src/utils/ring.go:121-125 | the same for many bytes at once |
| Rings.ByteRing.Trim | src/utils/ring.go:128-137 | dropping one line at a time drops all that are too many |
| Rings.KeptForgetsEarly | src/utils/ring.go:113-137 | however a stream is split, the same part of it is kept |
| Rings.KeptMeans | src/utils/ring.go:128-137 | what is kept is the end of the stream from the start of a line on, with as many complete lines as fit |
| TpacketSource.RingIsNeverPolledAfterRelease | src/deployment/containerlab.go:593-620 | under every interleaving the ring is released at most once, never polled after that, and released when a Close has returned |
| TpacketSource.LateReadsEnd | src/deployment/containerlab.go:593-607 | a read that begins after Close set the flag returns the end of the file without polling |
| TpacketSource.ReadsReturnWhatIsPolled | src/deployment/containerlab.go:593-607 | a read returns the one thing its polls yielded, or the end of the file if they yielded nothing and the flag is set |
| TpacketSource.CallsGetToTheirEnd | src/deployment/containerlab.go:593-620 | every step of a read or a Close brings it closer to its end, but for a poll that times out, and one that has no step waits for the lock, whose owner has one |
| TpacketSource.HolderLetsGo | src/deployment/containerlab.go:609-620 | once the flag is set, whoever holds the read lock lets go of it within three steps, so Close waits for one poll at most |
| SidecarCapture.NothingRunsAfterClose | src/deployment/clabernetes.go:1105-1163 | after Close has returned, the installed pipe is closed, stays closed and is never replaced |
| SidecarCapture.OnlyBufferedPacketsFollowClose | src/deployment/clabernetes.go:1140-1163 | after Close has returned, all reads together return at most as many packets as were buffered when it did |
| SidecarCapture.ReadsEndAfterClose | src/deployment/clabernetes.go:1140-1163 | after Close has returned, no read waits for packets: every step brings it closer to its return, with something buffered it returns that, and otherwise it fails without installing a new run |
| SidecarCapture.ReadsGetToTheirEnd | src/deployment/clabernetes.go:1140-1163 | a read that has not returned has a step to take, or waits for the lock of a Close that releases it next |
| SidecarCapture.ClosesGetToTheirEnd | src/deployment/clabernetes.go:1154-1163 | every step of Close brings it closer to its return, with the installed pipe closed, and one that has no step waits for a lock that is released next |
| SidecarCapture.TimeBoundsEndNoRead | src/deployment/clabernetes.go:1140-1153 | a read whose run reaches its time bound goes on with a pipe that was not there before, and returns a packet of that pipe or a newer one, unless the capture is cancelled or something is malformed or fails |
| SidecarCapture.ReadsFailFor | src/deployment/clabernetes.go:1105-1153 | the only reasons for which a read fails |
| SidecarCapture.AccountsBalance | src/deployment/clabernetes.go:1105-1163 | over any run, every item that came out of a pipe was returned once, taken as a header or found malformed, is still buffered, or was lost with a failed header, every read returned once or is running, and the capture is cancelled exactly if its context ended or a Close call cancelled it |

## Left out

- Calls into Docker, Kubernetes, containerlab, netns and afpacket: each has every possible outcome.
- HTTP handlers, authentication, repositories, real files, socket namespaces, status messages and the monitor: they do not affect the modelled state.
- `Service.Close` of the instance service: it stops deployments when the server ends, after which nothing is promised. It takes DeploymentMutex under the mutex of the instances, which no owner of DeploymentMutex waits for.
- Log streams and node details of an instance: the deployment model only counts the nodes whose log streams are started, because that loop can end a deployment early.
- Changing a queued item from outside: the scheduler queues copies, so items do not change while they are queued.
- Packet forwarding and the pcap headers of a capture: delivery, without an effect on the registry.
- SidecarCapture.OnlyBufferedPacketsFollowClose: counts whole buffered items, the header or a packet. That a pcap reader reads its pipe through a buffer is taken from that library, which is not part of this model.
- YAML parsing and encoding, styles, comments and merge tags: the model starts from and ends with the node graph. Numbering the nodes in text order stands for the order in which the parser makes them.
- YamlRename.Document.Rename: does not model a name that contains an alias of itself, because such a topology is rejected when it is decoded, before it is stored (src/domain/schema/service.go:60-66).
- YamlRename.Document.DetachAliases: does not model a target that contains an alias of itself, for the same reason.
- YamlAnchors.RenamedAliasesResolve: does not cover a name that is a mapping or a sequence, which the schema rejects. When such a name is replaced, aliases of what was inside it would be left without their anchor.
- SHA-256: a given function, assumed free of collisions among the inputs that are checked.
- Policy.Checker.Run: message texts are a fixed text and the quoted value, without the quoting of `%q`.
- Unicode in `strings.ToLower`, `strings.TrimSpace` and sorting: bytes only.
- filepath.Clean, filepath.IsLocal and path.Match: their documented rules for Unix, not their code.
- `CreateRing`, `TryPop` and other one-line wrappers: they would only add easy members.
- DummyProvider and the scripts: tooling.
