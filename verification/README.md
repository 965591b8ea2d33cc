# Lumia controller, agent and job sessions

Lumia keeps the machines of a cluster in service. A controller holds one `Minion` record per machine, rebuilds a
machine that galaxy reports as dead by running a removal and then a deployment script on it, and watches all machines
through heartbeats and health queries; agents on the machines check disks and mounts; a job-session engine submits
commands to outside services and polls them to their end. This project models these parts and proves what they keep
over every run.

The parts are event-driven. Every handler runs under a mutex and leaves work behind for later: tasks in thread pools,
RPCs whose replies come back at any time or fail, timers. So each part is first a state machine over values, with one
event per critical section (or per entry, for a handler that loops over a request), and the results quantify over every
sequence of events. The classes hold the same state as fields and update them in place; their methods are proved to
take exactly the steps of the machines. RPC replies, store outcomes, the contents of files and the output of commands
are inputs, so that every outcome is covered.

| files | what they hold |
|---|---|
| `Types`, `Text`, `MultisetSums` | messages, string operations (splitting, searching), weighted sums |
| `MinionRegistry` | the minion set with its three hashed-unique indexes, over shared mutable `Minion` objects |
| `RepairProtocol`, `RepairDiagram` | the repair and deploy protocol and its exact transition tables |
| `RepairIdentity`, `RepairSafety`, `RepairDrain`, `RepairStranding`, `RepairLedger`, `RepairQuarantine`, `Recovery` | what the protocol keeps over runs |
| `QueryRounds`, `Heartbeat` | the health-query rounds, and the heartbeat timers under two locks |
| `Requests` | requests that work on a list, as lists of events and by what they do as a whole |
| `LumiaCtrl`, `Overviews` | the controller class, and what `GetOverview` shows |
| `JobSessions`, `MinionCtrl` | the job-session machine and its class |
| `MountTable`, `AgentHealth`, `CpuUsage` | the mount-table parser, the health check and the cpu ratio of the agent |
| `HealthPipeline` | a check on a machine, end to end into the overview of the controller |

`dafny verify dfyconfig.toml` checks everything.

## How to read the repair protocol

The pending work is a multiset of tokens: queued tasks and RPCs in flight. A repair moves its token from rm task to rm
RPC, init task and init RPC; any number of chains for any addresses interleave with imports, exports, exec requests,
health replies and restarts. Two fields of the state are history and drive nothing: which chains were broken off
(`lost`) and which ids were deleted last (`deleted`). `LostIff` and `DeletedIsLastWrite` say what they hold in terms of
the events of a run. `StateTable`, `WorkTable`, `StoreTable` and `ScriptTable` give the exact effect of every event.

## What the proofs found

- Importing a known id with another ip changes the record but not the index, and later repairs of that machine are
  queued for the new ip. From then on, and only then, some smooth run leaves the machine Reinstalling with nothing
  pending (`MovedIffStrands`); a smooth run is one whose replies carry the address called, without a restart and with
  ips kept. Without such an import no smooth run strands a machine (`SmoothRunsNeverStrand`). `BreaksOffIff` lists the
  other events that can take away the last token of a chain.
- An export does not stop a deployment that is already queued or in flight; the machine comes back into service. An
  exported, failed or unhealthy machine stays out of service if and only if no deployment is under way for it
  (`QuarantineIff`).
- A failed RPC whose reply carries no ip, and a missing script, end a chain without any change of state.
- An import whose hostname or ip belongs to another machine is stored and its initialisation queued although the minion
  set rejects it; after a restart the two tables differ. Memory and store stay in step if and only if every stored
  import is free of such conflicts, or brings a new id no reload can see (`RunsDurableIff`).
- A reload sees only ids between "0" and "~~~~~~~~~" (`ScanRange`); others are lost from memory at a restart.
- A Ping can be undone if it arrives while an offline task of an earlier timer waits for the lock, or when that timer
  is due; otherwise it holds for as long as the node re-arms in time (`PingHoldsIff`).
- A job session whose task list comes back unusable, and no other, is parked: no continuation, no callback, for ever
  (`ParkedIff`). The second failed GET of a reboot, consecutive or not, erases the session and tells nobody.
- The overview can show a machine as in order that the agent reports as not well: exactly when an entry of fstab that is
  not mounted has "/noah" in its mount point, or a file could not be read (`WellIffShownOk`).
- A fresh agent reports not well after seven lost pings, not eleven, as its count starts at four.
- A malformed line ends the reading of a mount table and the result is not looked at, so what follows it is not compared.
- The rates of interrupts and network traffic are taken from zero in every cycle (`LaterCollectorsSeeNoPrevious`).
- `Init` has the scan of devices and the first `DoCheck` commented out. The model covers what they do when run.

## Model

| member | source | states |
|---|---|---|
| MinionRegistry.IndexFinds | src/ctrl/lumia_ctrl_impl.h:35-48 | a hashed lookup by id, hostname or ip finds what a linear scan of the plain list finds |
| MinionRegistry.LookupUnique | src/ctrl/lumia_ctrl_impl.h:38-40 | with unique keys, a lookup by a key of an entry finds that entry and no other |
| MinionRegistry.ScanIsLookup | src/ctrl/lumia_ctrl_impl.h:38-40 | the first match of a scan is the only match |
| MinionRegistry.IndexedUnique | src/ctrl/lumia_ctrl_impl.h:38-40 | three indexes that agree with the list force ids, hostnames and ips to be pairwise unique |
| MinionRegistry.FreshIffNoConflict | src/ctrl/lumia_ctrl_impl.h:38-40 | all three keys are new to their index if and only if the entry clashes with none in the list |
| MinionRegistry.AllExtended | src/ctrl/lumia_ctrl_impl.cc:119-120 | inserting under three new keys keeps all three indexes in agreement with the longer list |
| MinionRegistry.IndexUpdated | src/ctrl/lumia_ctrl_impl.cc:555-556 | overwriting the content of a minion leaves an index as right as it was, since keys are copies |
| MinionRegistry.InsertedUnique | src/ctrl/lumia_ctrl_impl.cc:545-551 | uniqueness survives an insertion, accepted or rejected |
| MinionRegistry.UpdateUnique | src/ctrl/lumia_ctrl_impl.cc:555-556 | uniqueness survives overwriting the content of a minion, whatever hostname and ip it brings |
| MinionRegistry.MinionSet.constructor | src/ctrl/lumia_ctrl_impl.h:147 | an empty, valid set |
| MinionRegistry.MinionSet.Find | src/ctrl/lumia_ctrl_impl.cc:223-226 | the result is the entry of the plain list that carries the key, none if there is none |
| MinionRegistry.MinionSet.Insert | src/ctrl/lumia_ctrl_impl.cc:545-551 | appends to the list and to all three indexes, or on any conflict changes nothing at all |
| MinionRegistry.MinionSet.Update | src/ctrl/lumia_ctrl_impl.cc:555-562 | exactly one entry gets the new content; keys, indexes and every other minion object stay |
| RepairProtocol.EntriesGrown | src/ctrl/lumia_ctrl_impl.cc:209-602 | state diagram: keys of an entry never change, identity only through an import of its id, the state only along the listed moves; new entries are imported and Alive |
| RepairProtocol.StepUnique | src/ctrl/lumia_ctrl_impl.cc:507-569 | ids, hostnames and ips stay pairwise unique over every event |
| RepairProtocol.LoadUnique | src/ctrl/lumia_ctrl_impl.cc:112-123 | a load from any store gives unique keys |
| RepairProtocol.WorkSpends | src/ctrl/lumia_ctrl_impl.cc:247-461 | running a task or handling a reply uses up exactly its own token and leaves at most the successor in the chain |
| RepairDiagram.StateTable | src/ctrl/lumia_ctrl_impl.cc:209-602 | the exact content of every minion after any event, in terms of keys and contents only; and when an entry is added |
| RepairDiagram.WorkTable | src/ctrl/lumia_ctrl_impl.cc:209-602 | for any event and any token: exactly the spent one goes and exactly the queued one comes |
| RepairDiagram.StoreTable | src/ctrl/lumia_ctrl_impl.cc:513-600 | the exact record stored under every id after any event: the one of a stored import, none after a successful export of its host, else the old one |
| RepairDiagram.ScriptTable | src/ctrl/lumia_ctrl_impl.cc:513-528 | scripts in memory and in the store change together, and only through a stored import of that name |
| RepairIdentity.AgreeIff | src/ctrl/lumia_ctrl_impl.cc:545-562 | for id, hostname and ip alike: one event keeps the keys of the entries in agreement with the records if and only if a stored import keeps that key of a known id |
| RepairIdentity.RunsAgreeIff | src/ctrl/lumia_ctrl_impl.cc:105-602 | the same throughout a run, restarts and any replies included: agreement in every state if and only if no import changes the key of a known id |
| RepairIdentity.RunsIdsAgree | src/ctrl/lumia_ctrl_impl.cc:545-562 | over every run the id of an entry is the id of its minion, without any condition |
| RepairIdentity.BootedAgrees | src/ctrl/lumia_ctrl_impl.cc:112-123 | keys and records agree when a process has loaded its tables |
| RepairSafety.RunsStayTracked | src/ctrl/lumia_ctrl_impl.cc:209-602 | over every run, a Reinstalling minion has a pending rm task, rm RPC or init task and an Initing one an init RPC, unless its address is recorded as lost |
| RepairSafety.StepKeepsTracked | src/ctrl/lumia_ctrl_impl.cc:209-602 | the invariant is inductive: kept by each event in any order |
| RepairSafety.RmReplyKeepsTracked | src/ctrl/lumia_ctrl_impl.cc:438-452 | an rm reply keeps the invariant even when it names another machine than the one called, or none |
| RepairSafety.InitReplyKeepsTracked | src/ctrl/lumia_ctrl_impl.cc:424-437 | an init reply keeps it under the same conditions |
| RepairSafety.BootedTracked | src/ctrl/lumia_ctrl_impl.cc:105-136 | it holds when a process has loaded its tables |
| RepairSafety.LostTable | src/ctrl/lumia_ctrl_impl.cc:231-452 | exactly when an address is recorded as lost: a script is missing, a reply to its chain names another machine, the repaired minion was moved to another ip, or it is loaded mid-chain; and exactly what clears it |
| RepairSafety.LostIff | src/ctrl/lumia_ctrl_impl.cc:209-602 | over every run an address is recorded as lost if and only if some event dropped its chain and no later one started it afresh |
| RepairSafety.StrandedOnlyByDrop | src/ctrl/lumia_ctrl_impl.cc:209-602 | the invariant in terms of events alone: a minion that ends a run mid-chain without its token is at an address whose chain some event of the run dropped |
| RepairSafety.SmoothRunsNeverStrand | src/ctrl/lumia_ctrl_impl.cc:209-602 | with ips kept by imports, scripts loaded, replies carrying the address called and no restart, the invariant holds without exception |
| RepairDrain.WorkUsesRank | src/ctrl/lumia_ctrl_impl.cc:247-461 | every task run or reply handled strictly lowers the rank sum of the pending tokens |
| RepairDrain.RankIsChainLength | src/ctrl/lumia_ctrl_impl.cc:247-461 | the rank of a token is the length of the longest chain it can start |
| RepairDrain.WorkIsBounded | src/ctrl/lumia_ctrl_impl.cc:247-461 | without new requests at most that many tasks and replies are handled, in any order, whatever else happens |
| RepairDrain.CanDrain | src/ctrl/lumia_ctrl_impl.cc:247-461 | from every state the work can be run to empty |
| RepairDrain.QuietMeansSettled | src/ctrl/lumia_ctrl_impl.cc:247-461 | with nothing pending, a minion still Reinstalling or Initing is at a lost address |
| RepairDrain.SmoothQuietMeansSettled | src/ctrl/lumia_ctrl_impl.cc:247-461 | after a smooth run, none is |
| RepairStranding.BreaksOffIff | src/ctrl/lumia_ctrl_impl.cc:231-452 | exactly which event, in every state, leaves a mid-chain minion without a token that had one: its last task or RPC is dropped, or it is repaired under an ip that is not its own |
| RepairStranding.MovedMinionStrands | src/ctrl/lumia_ctrl_impl.cc:555-562 | from every state in which nothing is lost and both scripts are loaded, a minion whose record has another ip than the index can be brought, by events the code can receive, to Reinstalling with no task and no RPC pending at all, whether or not another machine has the new ip |
| RepairStranding.MovedIffStrands | src/ctrl/lumia_ctrl_impl.cc:555-562 | after the import of a known id, its machine can be stranded by a smooth run if and only if the import changed its ip |
| RepairLedger.TokensConserved | src/ctrl/lumia_ctrl_impl.cc:209-461 | for every token over every run: pending plus handled equals pending before plus queued; only a restart loses any |
| RepairLedger.RepairsQueue | src/ctrl/lumia_ctrl_impl.cc:231-236 | a dead report queues an rm task for an address exactly when it takes the minion with that ip from Alive to Reinstalling, and no other event does |
| RepairLedger.RmTasksQueued | src/ctrl/lumia_ctrl_impl.cc:231-236 | the events that queue an rm task for an address are the moves from Alive to Reinstalling and the exports of minions with that ip, one each |
| RepairLedger.InitTasksQueued | src/ctrl/lumia_ctrl_impl.cc:449-559 | init tasks come from imports that insert or revive and from handled rm replies, at most one each |
| RepairLedger.NoRequestServedTwice | src/ctrl/lumia_ctrl_impl.cc:235-598 | counted in events: rm RPCs issued never exceed rm tasks pending at the start plus moves from Alive to Reinstalling plus exports; init RPCs never exceed the chain pending at the start plus imports that insert or revive plus the same; what is still pending counts against both |
| RepairLedger.StoreIsLastWrite | src/ctrl/lumia_ctrl_impl.cc:538-597 | over every run, restarts included, the store holds under each id what the last successful store operation of the run left |
| RepairLedger.DeletedIsLastWrite | src/ctrl/lumia_ctrl_impl.cc:592-597 | the ids recorded as deleted are those whose last successful operation since the start of the process was a delete |
| RepairQuarantine.QuarantineHolds | src/ctrl/lumia_ctrl_impl.cc:231-598 | a minion that is Del, Error or Busy with no deployment pending stays so and gets no init RPC over every run without restart in which no stored import names its id or ip and no reply passes it off as another machine |
| RepairQuarantine.RmReplyQueuesNothing | src/ctrl/lumia_ctrl_impl.cc:438-452 | an rm reply from such a machine queues nothing, whatever it says |
| RepairQuarantine.NoDeployStarted | src/ctrl/lumia_ctrl_impl.cc:209-461 | no quiet step queues an init task or issues an init RPC for it |
| RepairQuarantine.InFlightDeployRevives | src/ctrl/lumia_ctrl_impl.cc:424-437 | an init RPC in flight at the time of the export does bring the machine back |
| RepairQuarantine.QueuedDeployRevives | src/ctrl/lumia_ctrl_impl.cc:247-287 | so does a queued init task |
| RepairQuarantine.QuarantineIff | src/ctrl/lumia_ctrl_impl.cc:231-598 | some quiet run brings the machine back if and only if a deployment was under way |
| Requests.DeadReportsRepair | src/ctrl/lumia_ctrl_impl.cc:224-238 | a whole list of agents: exactly the Alive machines listed with state kDead turn Reinstalling, each with one rm task for the ip of its record; nothing else changes |
| Requests.ExportsDone | src/ctrl/lumia_ctrl_impl.cc:585-600 | a whole export: exactly the hosts named turn Del, exactly the records deleted leave the store, and each deletion queues one rm task |
| Requests.ExecsDone | src/ctrl/lumia_ctrl_impl.cc:398-414 | a whole exec request: one exec task for each host named, if the first word of the command is a script, and nothing else |
| Requests.ScriptIsFirstWord | src/ctrl/lumia_ctrl_impl.cc:403-405 | the script is what comes before the first space of the command, or the whole of it |
| Requests.ScriptImportsDone | src/ctrl/lumia_ctrl_impl.cc:513-528 | a whole import of scripts: in memory and in the store, the last one stored under each name, and otherwise what was there |
| Requests.MinionImportsDone | src/ctrl/lumia_ctrl_impl.cc:530-565 | a whole import of minions: in the store the last record stored under each id; known minions have that content, in service again if they were out of it; new ones are Alive, and a stored record is in the set unless its keys clash |
| Requests.MinionImportsQueue | src/ctrl/lumia_ctrl_impl.cc:545-563 | it queues init tasks for the steps that insert or revive, and nothing else |
| Requests.WithoutScript | src/ctrl/lumia_ctrl_impl.cc:405-411 | requests that need a script which is missing change nothing |
| Requests.ExportKeepsKnown | src/ctrl/lumia_ctrl_impl.cc:585-600 | exporting one host keeps every other hostname known |
| Requests.FoundPositions | src/ctrl/lumia_ctrl_impl.cc:871-894 | a lookup of a list of keys finds one minion for each known key, once and in the order of the list, and skips the others |
| Recovery.RunsStayDurable | src/ctrl/lumia_ctrl_impl.cc:105-600 | over every run with harmless imports, crashes and failed store operations included, memory and store stay in step |
| Recovery.RunsDurableIff | src/ctrl/lumia_ctrl_impl.cc:105-600 | they are in step in every state of a run if and only if every stored import in it is harmless |
| Recovery.ImportDurableIff | src/ctrl/lumia_ctrl_impl.cc:532-564 | a stored import keeps them in step if and only if it is free of conflicts, or brings a new id that no reload can see |
| Recovery.ExportKeepsDurable | src/ctrl/lumia_ctrl_impl.cc:585-600 | an export keeps them in step, whether or not its delete succeeds |
| Recovery.ReloadRebuilds | src/ctrl/lumia_ctrl_impl.cc:105-136 | a reload rebuilds exactly the minions in the scan range that were not deleted, with their stored records, and exactly the scripts |
| RepairProtocol.RestartBoots | src/ctrl/lumia_ctrl_impl.cc:59-139 | a restart is a new process on the same store, in the very state the load builds; nothing else of the old one is left |
| RepairProtocol.BootedIdle | src/ctrl/lumia_ctrl_impl.cc:59-139 | a new process has no task queued, no RPC in flight and no delete on record |
| RepairLedger.NothingSurvivesRestart | src/ctrl/lumia_ctrl_impl.cc:59-139 | over every run after a restart, what is handled or pending was queued after it, so no earlier task or reply is ever handled |
| Recovery.BootedDurable | src/ctrl/lumia_ctrl_impl.cc:105-136 | a process started on a consistent store is in step from the start |
| Recovery.LoadInsertsAll | src/ctrl/lumia_ctrl_impl.cc:112-123 | records that do not clash are all inserted, in scan order |
| Recovery.LoadFirstWins | src/ctrl/lumia_ctrl_impl.cc:112-123 | with clashing records too: only records of the scan are loaded, and one that is not clashes with those loaded before it |
| Recovery.PrefixKeepsOrder | src/ctrl/lumia_ctrl_impl.cc:105-125 | a common key prefix plays no part in the order of keys, so ranges can be read off the ids |
| Recovery.ScanRange | src/ctrl/lumia_ctrl_impl.cc:105-108 | exactly which ids a reload can see: those not before "0" with fewer than nine tildes in front of the end or a smaller character |
| Recovery.ScriptScanRange | src/ctrl/lumia_ctrl_impl.cc:124-128 | exactly which scripts a reload can see |
| QueryRounds.RunsStayInStep | src/ctrl/lumia_ctrl_impl.cc:186-203 | over every run the counter equals the RPCs in flight and exactly one of a pending timer and RPCs in flight holds; the guard never fires, so rounds never overlap |
| QueryRounds.ArmedByLastReply | src/ctrl/lumia_ctrl_impl.cc:289-314 | the timer is armed exactly by the last reply of a round, or by a launch that finds no node |
| QueryRounds.EachNodeOnce | src/ctrl/lumia_ctrl_impl.cc:196-199 | each node of the snapshot is queried exactly once in a round |
| QueryRounds.BootsInStep | src/ctrl/lumia_ctrl_impl.cc:137 | the first timer puts the machine in step |
| Heartbeat.RunsStaySound | src/ctrl/lumia_ctrl_impl.cc:604-630 | over all interleavings of the two sections of Ping, timers and offline tasks, every unfired timer is the recorded one and every node has something that will check it |
| Heartbeat.ArmTable | src/ctrl/lumia_ctrl_impl.cc:612-623 | arming leaves the address with one timer, due in 10000 ms, and no other timer is touched |
| Heartbeat.OneTimerPerNode | src/ctrl/lumia_ctrl_impl.cc:612-623 | at most one unfired timer per address |
| Heartbeat.PingingNodeNeverDropped | src/ctrl/lumia_ctrl_impl.cc:608-629 | from its first Ping on, a node whose timer is re-armed less than 10000 ms apart is never taken out, over any number of Pings |
| Heartbeat.LateNodeCanBeDropped | src/ctrl/lumia_ctrl_impl.cc:622-629 | the bound is sharp: a due timer can take the node out |
| Heartbeat.SilentNodeStaysOut | src/ctrl/lumia_ctrl_impl.cc:627-630 | without further Pings a node is out once its timer and offline tasks are done, and stays out |
| Heartbeat.SilentNodeRemoved | src/ctrl/lumia_ctrl_impl.cc:622-630 | from every state a silent node can be out within 10000 ms |
| Heartbeat.PingHoldsIff | src/ctrl/lumia_ctrl_impl.cc:604-630 | the exact condition: a Ping followed by timely re-arms keeps the node in, over every run, if and only if no offline task of an earlier timer is waiting and no such timer is due |
| Heartbeat.PingInWindowIsUndone | src/ctrl/lumia_ctrl_impl.cc:608-629 | a whole Ping that arrives while such a task waits is undone by it although its own timer has not gone off |
| Heartbeat.BootsSound | src/ctrl/lumia_ctrl_impl.cc:604-630 | the empty tables are sound |
| LumiaControl.LumiaCtrl.constructor | src/ctrl/lumia_ctrl_impl.cc:60-64 | the state of a controller before it loads |
| LumiaControl.LumiaCtrl.LoadMinionTable | src/ctrl/lumia_ctrl_impl.cc:112-123 | the loop over the scanned records builds the loaded list |
| LumiaControl.LumiaCtrl.LoadScriptTable | src/ctrl/lumia_ctrl_impl.cc:130-136 | the loop over the scanned scripts builds the loaded table |
| LumiaControl.LumiaCtrl.AcquireLumiaLock | src/ctrl/lumia_ctrl_impl.cc:105-139 | loads both tables and arms the query timer: the booted state of the machines |
| LumiaControl.LumiaCtrl.LaunchQueryGalaxy | src/ctrl/lumia_ctrl_impl.cc:209-245 | takes one dead-report step for each agent listed as dead, in order, and no other; `DeadReportsRepair` says what that does |
| LumiaControl.LumiaCtrl.DeadAgent | src/ctrl/lumia_ctrl_impl.cc:226-237 | is the dead-report step |
| LumiaControl.LumiaCtrl.HandleRemoveGalaxy | src/ctrl/lumia_ctrl_impl.cc:335-362 | is the rm-task step |
| LumiaControl.LumiaCtrl.HandleInitGalaxy | src/ctrl/lumia_ctrl_impl.cc:247-287 | is the init-task step |
| LumiaControl.LumiaCtrl.HandleExecGalaxy | src/ctrl/lumia_ctrl_impl.cc:364-390 | is the exec-task step |
| LumiaControl.LumiaCtrl.InitCallback | src/ctrl/lumia_ctrl_impl.cc:424-437 | is the init-reply step, failure and non-zero status alike |
| LumiaControl.LumiaCtrl.Settle | src/ctrl/lumia_ctrl_impl.cc:425-436 | puts the minion with the given ip, and no other, into a state |
| LumiaControl.LumiaCtrl.RmSucceeded | src/ctrl/lumia_ctrl_impl.cc:439-451 | is the rm-reply step for a good reply |
| LumiaControl.LumiaCtrl.RmCallback | src/ctrl/lumia_ctrl_impl.cc:438-452 | is the rm-reply step |
| LumiaControl.LumiaCtrl.ExecCallback | src/ctrl/lumia_ctrl_impl.cc:416-461 | takes the reply step of the kind of RPC the callback was bound to |
| LumiaControl.BoundNames | src/ctrl/lumia_ctrl_impl.cc:283-438 | the names "init" and "rm" bind a callback to those RPCs, any other name to an exec |
| LumiaControl.LumiaCtrl.ImportOne | src/ctrl/lumia_ctrl_impl.cc:532-564 | is the import step of one minion |
| LumiaControl.LumiaCtrl.ImportScripts | src/ctrl/lumia_ctrl_impl.cc:513-528 | one step per script, failed stores skipped |
| LumiaControl.LumiaCtrl.ImportMinions | src/ctrl/lumia_ctrl_impl.cc:530-565 | one step per minion, in order |
| LumiaControl.LumiaCtrl.ImportData | src/ctrl/lumia_ctrl_impl.cc:507-569 | scripts first, then minions; always answered with success |
| LumiaControl.LumiaCtrl.ExportOne | src/ctrl/lumia_ctrl_impl.cc:586-599 | is the export step of one host |
| LumiaControl.LumiaCtrl.ExportData | src/ctrl/lumia_ctrl_impl.cc:571-602 | one step per host, nothing at all without the removal script, which alone is answered |
| LumiaControl.LumiaCtrl.ExecOne | src/ctrl/lumia_ctrl_impl.cc:399-413 | is the exec request for one host |
| LumiaControl.LumiaCtrl.ExecMinion | src/ctrl/lumia_ctrl_impl.cc:392-415 | one step per host; stops and answers when the script is missing |
| LumiaControl.LumiaCtrl.QueryNodes | src/ctrl/lumia_ctrl_impl.cc:196-199 | one query RPC for each node, counted |
| LumiaControl.LumiaCtrl.LaunchQuery | src/ctrl/lumia_ctrl_impl.cc:190-203 | is the launch step of a round |
| LumiaControl.LumiaCtrl.CountReply | src/ctrl/lumia_ctrl_impl.cc:312-314 | is the reply step of a round |
| LumiaControl.LumiaCtrl.UpdateStatus | src/ctrl/lumia_ctrl_impl.cc:319-331 | is the health step of the protocol |
| LumiaControl.LumiaCtrl.QueryCallBack | src/ctrl/lumia_ctrl_impl.cc:304-333 | every reply counts, only a good one changes a minion |
| LumiaControl.LumiaCtrl.PingJoin | src/ctrl/lumia_ctrl_impl.cc:608-611 | is the first section of Ping, for the rounds and for the heartbeats |
| LumiaControl.LumiaCtrl.PingArm | src/ctrl/lumia_ctrl_impl.cc:612-623 | is the second section |
| LumiaControl.LumiaCtrl.HandleNodeOffline | src/ctrl/lumia_ctrl_impl.cc:627-630 | takes the node out, for the rounds and for the heartbeats |
| LumiaControl.LumiaCtrl.FindAll | src/ctrl/lumia_ctrl_impl.cc:871-878 | the minions found under the given keys, in the order of the keys |
| LumiaControl.LumiaCtrl.GetMinion | src/ctrl/lumia_ctrl_impl.cc:866-896 | by ip, then hostname, then id; unknown keys are skipped |
| LumiaControl.LumiaCtrl.GetOverview | src/ctrl/lumia_ctrl_impl.cc:142-184 | one view for each minion that reports a device, with the two verdicts |
| Overviews.DevicesOk | src/ctrl/lumia_ctrl_impl.cc:160-166 | true exactly when every device is healthy |
| Overviews.MountsOk | src/ctrl/lumia_ctrl_impl.cc:167-176 | true exactly when every mount is mounted or has "/noah" in its mount point |
| Overviews.View | src/ctrl/lumia_ctrl_impl.cc:155-179 | hostname, ip, time and verdicts of the minion |
| Overviews.ListedIff | src/ctrl/lumia_ctrl_impl.cc:150-154 | a minion is listed exactly when it reports a device |
| Overviews.ListedPositions | src/ctrl/lumia_ctrl_impl.cc:150-180 | every minion that reports a device is listed exactly once, in the order of the entries |
| Overviews.ListedCount | src/ctrl/lumia_ctrl_impl.cc:150-181 | as many views as entries that report a device |
| Overviews.ExcusedIff | src/ctrl/lumia_ctrl_impl.cc:168-173 | a mount is excused exactly when it is mounted or "/noah" occurs somewhere in its mount point |
| JobSessionSafety.RunsStaySound | src/ctrl/minion_ctrl.cc:86-361 | over every run: continuations, retry counters, sessions and callbacks of every id match its history |
| JobSessionSafety.CallbackAtMostOnce | src/ctrl/minion_ctrl.cc:137-210 | at most one callback per session id, none while the session is in the map |
| JobSessionSafety.CallbackOnlyOnErase | src/ctrl/minion_ctrl.cc:137-210 | a callback is queued only in the step that erases the session |
| JobSessionSafety.PhaseMoves | src/ctrl/minion_ctrl.cc:102-361 | the moves a step can make; none leads from finishing back to polling |
| JobSessionSafety.PhaseTable | src/ctrl/minion_ctrl.cc:102-361 | exactly which reply, in its literal text, brings a session into which phase |
| JobSessionSafety.CollectsIff | src/ctrl/minion_ctrl.cc:137-150 | over every run a polling session goes on to collect its task list if and only if a poll answers with code 0 and FINISH or CANCELED |
| JobSessionSafety.DeliveredIff | src/ctrl/minion_ctrl.cc:337-360 | over every run the callers of a reboot are told, once and with all hosts, if and only if a reply contains the delivery text |
| JobSessionSafety.RunMoves | src/ctrl/minion_ctrl.cc:102-361 | the same over a run, with GETs and failures counted |
| JobSessionSafety.ExecRetryBounded | src/ctrl/minion_ctrl.cc:154-178 | at most seven task-list GETs and seven failures report (none, all hosts); otherwise the one callback of an erased session is the split of a task list it was sent, or (none, none) for a job without data |
| JobSessionSafety.RunEnding | src/ctrl/minion_ctrl.cc:137-210 | an exec session closed during a run was closed by an event of it: a task list whose split it reports, a job without data, or the seventh failure |
| JobSessionSafety.RebootToleratesOne | src/ctrl/minion_ctrl.cc:337-348 | one failed GET is tolerated over the whole life of a reboot; the second erases it without a callback |
| JobSessionSafety.ParkedIff | src/ctrl/minion_ctrl.cc:181-192 | over every run a session is parked at the end if and only if the run hands it a reply that is neither a failed GET nor a task list |
| JobSessionSafety.ParkedGetsNothing | src/ctrl/minion_ctrl.cc:181-192 | a parked session is never polled again |
| JobSessionSafety.OneContinuation | src/ctrl/minion_ctrl.cc:86-361 | a live session has exactly one continuation unless the run handed it such a reply; then it has none and stays in the map |
| JobSessionSafety.SplitWeaves | src/ctrl/minion_ctrl.cc:193-210 | success and failure lists keep the order, together hold exactly the reported hosts, and a host succeeds exactly when EXITED with code 0 |
| JobSessionSafety.HostPositions | src/ctrl/minion_ctrl.cc:197-207 | each list has the hosts of exactly the tasks that EXITED with code 0, or of exactly the others, each once and in order |
| MinionControl.MinionCtrl.Exec | src/ctrl/minion_ctrl.cc:40-100 | a session is opened exactly when ticket, POST and code 0 are all there |
| MinionControl.MinionCtrl.Reboot | src/ctrl/minion_ctrl.cc:274-324 | the same for a reboot |
| MinionControl.MinionCtrl.CheckExecJob | src/ctrl/minion_ctrl.cc:102-152 | is the poll step |
| MinionControl.MinionCtrl.SplitTasks | src/ctrl/minion_ctrl.cc:195-208 | the loop computes the split of the task list |
| MinionControl.MinionCtrl.TaskListFailed | src/ctrl/minion_ctrl.cc:167-178 | is the collect step for a failed GET: retry or give up |
| MinionControl.MinionCtrl.HandleJobFinished | src/ctrl/minion_ctrl.cc:154-212 | is the collect step, with retry, failure, parking and completion |
| MinionControl.MinionCtrl.CheckRebootJob | src/ctrl/minion_ctrl.cc:326-361 | is the watch step |
| Text.ContainsIff | src/agent/lumia_agent.cc:627-629 | a search succeeds exactly when the text occurs at some position |
| Text.SplitCount | src/agent/lumia_agent.cc:683 | a text has one part more than it has separators |
| Text.SplitJoin | src/agent/lumia_agent.cc:677 | splitting undoes joining, for parts free of the separator |
| Text.JoinSplit | src/agent/lumia_agent.cc:677 | joining undoes splitting, for any text |
| MountTable.ParseTab | src/agent/lumia_agent.cc:674-704 | reads all lines before the first malformed one; the table has each named device with what its first line says; the result tells whether all lines were read |
| MountTable.ParseLine | src/agent/lumia_agent.cc:689-700 | mount point and type are the first non-empty part after the device and the part after that |
| MountTable.MalformedIff | src/agent/lumia_agent.cc:679-687 | a line is malformed exactly when it starts with "/dev/sd" and has fewer than two spaces |
| MountTable.InfoExact | src/agent/lumia_agent.cc:689-700 | what is read from any line at all, well formed or not |
| MountTable.TabulatesUnique | src/agent/lumia_agent.cc:701 | there is only one such table |
| MountTable.TabulatesNext | src/agent/lumia_agent.cc:678-701 | a further line adds its device unless the table has it |
| MountTable.MountReadBack | src/agent/lumia_agent.cc:682-700 | an entry written with any positive number of spaces after the device is read back as it was |
| MountTable.RoundTrip | src/agent/lumia_agent.cc:674-704 | any list of entries and noise lines, printed and parsed, gives exactly the table it stands for and no other fits; the first entry of a device wins |
| AgentHealth.CheckDevice | src/agent/lumia_agent.cc:616-637 | passes exactly when the self-test ran, exited with 0 and printed PASSED or OK |
| AgentHealth.PassedIff | src/agent/lumia_agent.cc:625-635 | a self-test passes exactly when it ran, exited with 0 and printed PASSED or OK somewhere |
| AgentHealth.CompareTabs | src/agent/lumia_agent.cc:656-670 | one mount status per fstab entry, mounted exactly when mtab has the device; all mounted exactly when fstab is covered |
| AgentHealth.CheckMounts | src/agent/lumia_agent.cc:639-672 | the same from the two files, failing exactly when one cannot be read |
| AgentHealth.LumiaAgent.CheckDevices | src/agent/lumia_agent.cc:106-120 | one device status per device, healthy exactly when its check passed |
| AgentHealth.LumiaAgent.DoCheck | src/agent/lumia_agent.cc:103-133 | all is well exactly when every check passed, both files were read and every fstab device is in mtab |
| AgentHealth.LumiaAgent.constructor | src/agent/lumia_agent.cc:52-53 | a fresh agent is not well and has four lost pings on its count |
| AgentHealth.LumiaAgent.KeepAlive | src/agent/lumia_agent.cc:146-158 | when the count of lost pings, cleared by an answered one, exceeds ten the status is not well and empty |
| HealthPipeline.MountsOkIff | src/ctrl/lumia_ctrl_impl.cc:167-177 | the overview finds mounts in order exactly when each fstab entry is mounted or excused |
| HealthPipeline.WellIffShownOk | src/ctrl/lumia_ctrl_impl.cc:151-178 | the verdict of the agent against the two of the overview: equal but for unread files and excused entries |
| HealthPipeline.ReplyStores | src/ctrl/lumia_ctrl_impl.cc:319-331 | a reply stores its status with the minion of that ip, and with no other |
| HealthPipeline.CheckedMachineIsShown | src/ctrl/lumia_ctrl_impl.cc:142-333 | end to end from the checks on a machine to its state and its view; it is listed exactly when it has devices |
| HealthPipeline.SilentAgentIsHidden | src/agent/lumia_agent.cc:146-154 | the status of an agent that lost its pings makes the minion Busy and takes it out of the overview |
| CpuUsage.RunsMeasureConsecutiveSamples | src/agent/lumia_agent.cc:415-559 | over every run of cycles, whatever collectors fail, the ratio is that of the last usable pair of consecutive cpu samples, although the record is shifted in between |
| CpuUsage.UsageIsUsedShare | src/agent/lumia_agent.cc:458-507 | in the nine counters alone: the ratio times all time passed is the used time passed, without idle and waiting time; it is recorded exactly when neither is negative |
| CpuUsage.RunsMeasureUsedShare | src/agent/lumia_agent.cc:415-559 | after any run the ratio is that share between the last two consecutive samples that allow one |
| CpuUsage.CycleTable | src/agent/lumia_agent.cc:511-541 | which counters of the record are new after a cycle, for every combination of failures |
| CpuUsage.UsageInRange | src/agent/lumia_agent.cc:478-507 | the ratio is a number exactly when time has passed, and then in [0, 1] exactly when idle plus iowait did not go down |
| CpuUsage.LastRatioInRange | src/agent/lumia_agent.cc:415-509 | after any run the ratio is in [0, 1] if the counters grew between the last two samples |
| CpuUsage.RatioInRange | src/agent/lumia_agent.cc:415-509 | for growing counters the ratio is in [0, 1] in every state of a run, whichever collectors fail |
| CpuUsage.LaterCollectorsSeeNoPrevious | src/agent/lumia_agent.cc:342-411 | interrupt and network collectors always find zero as their previous counters |
| CpuUsage.SysStat.GetGlobalCpuStat | src/agent/lumia_agent.cc:415-509 | shifts the record and computes the ratio; fails after the shift when a delta is negative |
| CpuUsage.SysStat.GetGlobalIntrStat | src/agent/lumia_agent.cc:342-347 | shifts the record and replaces two counters |
| CpuUsage.SysStat.GetGlobalNetStat | src/agent/lumia_agent.cc:391-412 | shifts the record and replaces four counters |
| CpuUsage.SysStat.CollectSysStat | src/agent/lumia_agent.cc:511-541 | one cycle, stopping at the first collector that fails |

## Left out

- Code between `#if 0` and `#endif`: it is not compiled.
- HTTP, JSON, protobuf, RPC and credential libraries: their outcomes are inputs. Members of a JSON reply are taken to have the types the code reads them with.
- nexus itself, the leader lock and the session timeout: one active controller and an ordered key-value map are assumed, and a failed Put or Delete leaves the map unchanged.
- The thread pool (`thread_pool.h` is not part of this model): a queued task runs once at some later time, and cancelling a timer that has fired changes nothing.
- The firing of timers, the clock and the re-arming of the galaxy query are steps of the environment and have no method; the clock is read, never set, by the class.
- Records loaded at a start are assumed to parse; the loop reads past a record that does not.
- Exporting or executing on an unknown hostname: the code then reads through an end iterator, so the requests are required to name known hosts.
- A finished check of a job without data: the code goes on to read the erased session; the model ends there.
- The command line sent with a removal or deployment, and the hardware fields of a minion: they change no state.
- The iteration order of hashed indexes and of the mount container: `GetOverview` lists in insertion order, `CheckMounts` in any order.
- Handlers that never run their `done` closure, and leaked objects; the missing answer itself is modelled as `None`.
- Widths of machine integers, and rounding in the cpu ratio, which is taken over the reals.
- `CheckSysHealth`, the memory and disk collectors, and the text of `/proc` files: thresholds and scraping without a property across calls.
- `ParseScanDevice` and the other code for finding devices: its only caller is commented out.
- The device scan, script execution and file reading on the agent: system calls. `ReadFile` always succeeds, a missing file reads as empty; the failing branch is modelled as well.
- LumiaControl.LumiaCtrl.LaunchQueryGalaxy: does not model how the list of agents is obtained, only both outcomes of obtaining it.
- The console, the client library and the command-line tools: thin wrappers.
