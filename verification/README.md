# Verified model of the VPN client's core logic

This Dafny project models the parts of the VPN client whose correctness does
not show in any one function: the controller with its daemon link, CIDR
arithmetic, the task scheduler, the server latency prober, the Linux firewall
programs, the QML query language, and three small kernels (ping window,
Internet checksum, encrypted settings file). `dafny verify dfyconfig.toml`
checks everything.

State machines come twice. Functions over a record say what each slot, timer
expiry or message does, and the results quantify over all sequences of such
events. A class with the source's fields, methods and loops is proved to pass
through the same states, so the results hold of it.

| module | models |
|---|---|
| `Controller`, `ControllerLaws`, `ControllerObject` | `src/controller.cpp` with the state part of `src/localsocketcontroller.cpp` |
| `DaemonStream` | line splitting of the daemon socket, `readData` in `src/localsocketcontroller.cpp` |
| `Common` | the option type, filtering as a relation, a few arithmetic facts |
| `Bits`, `IpAddress` | `src/ipaddress.cpp`, over sets of addresses |
| `TaskScheduler` | `src/taskscheduler.cpp` |
| `ServerLatency`, `ServerLatencyOrder`, `ServerLatencyObject` | `src/serverlatency.cpp` |
| `Netfilter` | `linux/netfilter/netfilter.go`, with an interpreter for its rule expressions |
| `QmlPath` | `src/qmlpath.cpp` |
| `PingHelper`, `InetChecksum`, `CryptoSettings` | `src/pinghelper.cpp`, `src/pingsender.cpp`, `src/cryptosettings.cpp` |

Five results show that the code does not do what it says, with the exact
condition under which it does:

- The assert at `src/controller.cpp:231` (the connection clock fires only when
  on) can fail, because `implInitialized` moves to off without stopping the
  clock (`ClockAssertCanFail`, `ClockAssertIff`).
- The settings file header has a 16-bit metadata length, but line 159 of
  `src/cryptosettings.cpp` restores only lengths up to 127 (`FileRoundTrip`,
  `ReadIff`).
- The nonce counter of the settings file is restored only by a successful read.
  A restart that cannot read an encrypted file makes a later write reuse a nonce
  if the key store returns the same key (`LongMetadataRepeats`,
  `LostKeyRepeats`, `PlainFileRepeats`); so does reading a file after a write
  that failed (`FailedWriteRepeats`). `NoncesIncreaseIff` says exactly when none
  is reused. Whether the key stays the same depends on the platform: the store in
  `src/platforms/dummy/dummycryptosettings.h` returns the same key, the one in
  `src/platforms/linux/xdgcryptosettings.cpp` draws a new salt when it did not
  read one; a restart with a new key is an event of the model.
- `readData` keeps its buffer across connections to the daemon, so the rest of a
  line from the old connection is put in front of the first line of the new one
  (`NewConnection`).
- `IPAddress::subnets()` splits a prefix into two halves only if its first host
  bit is zero (`SubnetsPartitionIff`); the exclusion loop fails an assert for
  exactly the prefixes it cannot arrive at by halving (`ExcludeOne`).

Where comments and code disagree the model follows the code: a silent switch is
meant to keep its state, but on desktop builds activate() moves it to
StateConnecting (`src/controller.cpp:1050-1054`).

## Model

| member | source | states |
|---|---|---|
| `Controller.HandshakeTimerSafe` | src/controller.cpp:278-319 | in every run a running handshake timer has a queue [SingleHop], [MultiHopEntry, MultiHopExit] or [MultiHopExit]; the retry count is then at most 8, or 9 with only a late exit hop pending; at most 8 automatic re-activations happen between two clears of the counter; the asserts at 286 and 303 never fail |
| `Controller.OnPartialIsExtension` | src/controller.cpp:737-802 | in every run, whatever account checks are pending, StateOnPartial implies that the initiator is the extension |
| `Controller.StepKeeps` | src/controller.cpp:193-1105 | every event keeps the invariant on queue, retry counter, timer and initiator |
| `Controller.RunKeeps` | src/controller.cpp:193-1105 | every sequence of events keeps that invariant |
| `Controller.OnHandshakeTimeoutKeeps` | src/controller.cpp:282-319 | a timeout of a running timer keeps the invariant: both asserts hold, and it gives up at the ninth attempt |
| `Controller.OnConnectedKeeps` | src/controller.cpp:695-757 | a handshake, expected or not, keeps the invariant, through the next hop or a pending quit |
| `Controller.OnDisconnectedKeeps` | src/controller.cpp:767-802 | a disconnect keeps the invariant, also when it continues into the next activation of a switch |
| `Controller.DoActivateKeeps` | src/controller.cpp:949-1059 | activate() in any state keeps the invariant |
| `Controller.DoDeactivateKeeps` | src/controller.cpp:1061-1105 | an accepted deactivate() restores the timer part of the invariant, a refused one keeps it |
| `Controller.ActivateInternalKeeps` | src/controller.cpp:373-527 | any planned activation leaves a queue of a legal shape whose timer runs |
| `Controller.ImplInitializedKeeps` | src/controller.cpp:193-221 | a backend that reports its status keeps the invariant |
| `Controller.SwitchSendsOneActivate` | src/controller.cpp:919-938 | a switch, accepted unless off, sends the daemon no deactivate, and exactly one activate, for the first hop to the weighted pick of the new location, if no step is pending and servers and a device are available; otherwise nothing |
| `Controller.SilentSwitchSendsOneActivate` | src/controller.cpp:648-688 | the same for a silent switch, from StateOn: with a cool-down to the weighted pick, without one to the recorded servers |
| `Controller.RetrySendsPick` | src/controller.cpp:282-319 | a retry after a handshake timeout sends the first hop to the weighted pick, on port 53 the first time; the ninth attempt sends nothing |
| `Controller.PlanLeads` | src/controller.cpp:384-513 | the hops of an activation, if any, are those that lead to its location: the exit hop, and the entry hop before it, name the recorded server if the policy keeps it and one is recorded, else the weighted pick; port 53 is for a single hop of a single-hop location and for an entry hop |
| `Controller.ChoiceIsWanted` | src/controller.cpp:384-390 | the server chosen for a role is the recorded one, if known, when the policy keeps it and one is recorded, else the weighted pick |
| `Controller.ActivationRecords` | src/controller.cpp:514-527 | when hops lead to the location they are queued, their ends recorded, the timer started, and the client confirming |
| `Controller.ActivationFails` | src/controller.cpp:391-402 | without a server the location is reported unavailable; without a device a disconnect becomes the next step; nothing is sent |
| `Controller.SwitchChain` | src/localsocketcontroller.cpp:135-153 | the chain deactivate, disconnected, activate, which the link runs synchronously for both kinds of switch, sends those messages and no other |
| `Controller.ActivateInternalMessages` | src/controller.cpp:373-527 | an activation sends the first planned hop, or nothing when a server or the device is missing |
| `Controller.ActivationRun` | src/controller.cpp:949-1059 | from off, the request, its account check (failed or not) and the handshakes of the hops to the location lead to on (partly on for the extension), send each hop once and in order, and report one session start |
| `Controller.HandshakesConnect` | src/controller.cpp:695-757 | the handshakes of the pending hops, in order, activate the remaining hops once each and then start the session at the current time |
| `Controller.SessionSurvivesSwitches` | src/controller.cpp:529-535 | once a switch has set isSwitchingServer, the connected-since time never changes and no session start is reported, over every run up to an activate in off or partly on or a backend that initialises as connected |
| `Controller.StepSession` | src/controller.cpp:722-765 | each single event keeps the session in that way |
| `Controller.StartSwitchSession` | src/controller.cpp:925-935 | a switch sets the flag before anything can clear the time, so the session is kept from any state |
| `Controller.StepClock` | src/controller.cpp:230-245 | from a state where the assert at 231 is right (the clock runs only in StateOn or StateOnPartial), an event leads to another such state if and only if it is not one of four while the clock runs: initialize, a failed backend, a status that does not end in StateOn, or a handshake that starts a second hop for the client |
| `Controller.ClockAssertIff` | src/controller.cpp:230-231 | over every run the assert at 231 is right at every point if and only if no event of the run is one of those |
| `Controller.TickFails` | src/controller.cpp:230-231 | the clock firing fails the assert exactly in the other states |
| `Controller.ClockAssertCanFail` | src/controller.cpp:193-231 | from every initial state some run fails the assert at 231: a connection comes up between a lost daemon socket and its renewal, and the daemon then reports itself idle |
| `Controller.StepQuits` | src/controller.cpp:247-264 | per event, exactly when a pending quit is reported with the controller idle, and exactly when it is replaced by another step instead |
| `Controller.QuitHonoured` | src/controller.cpp:804-818 | over every run in which nothing replaces it, a requested quit is reported if and only if an event that reports comes, and is still pending if none does |
| `Controller.QuitCompletes` | src/controller.cpp:247-264 | with the daemon ready, quit() is reported at once or by the daemon reporting the disconnect; from on, partly on and connecting it sends the daemon the deactivate |
| `Controller.UpdateAsked` | src/controller.cpp:357-371 | a required update is reported at once or pending |
| `Controller.BackoffDoubles` | src/localsocketcontroller.cpp:103-117 | consecutive attempts to reach the daemon wait 0.5 s doubled each time, and 16 s from the sixth on |
| `ControllerLaws.DaemonDateKept` | src/controller.cpp:193-221 | a daemon found connected hands over its date as the connected-since time |
| `ControllerLaws.SessionEndReported` | src/controller.cpp:767-802 | a session end is reported exactly when a disconnect neither continues a switch nor ends in a quit or an update, and the connection was not still being confirmed |
| `ControllerLaws.SwitchEndsNothing` | src/controller.cpp:783-794 | in the middle of a switch no session end is reported |
| `ControllerLaws.DisconnectForgets` | src/controller.cpp:767-775 | outside a switch a disconnect leaves no hop, timer, retry or connection time |
| `ControllerLaws.SwitchInitiator` | src/controller.cpp:783-794 | a silent switch keeps the initiator, an ordinary one makes it the client, and the hops to the next location are queued |
| `ControllerLaws.ActivationStarts` | src/controller.cpp:1046-1057 | an activation by the client is being confirmed after its first hop, one by the extension keeps the state; the retries start afresh |
| `ControllerLaws.GivesUp` | src/controller.cpp:315-319 | the ninth attempt reports the location unavailable and leaves everything else |
| `ControllerLaws.UpdateStops` | src/controller.cpp:357-371 | a required update stops a running session through the daemon |
| `ControllerLaws.ExtensionCannotStop` | src/controller.cpp:1061-1068 | the extension cannot stop what the client started; each stops its own through the daemon |
| `ControllerLaws.ActivateAccepted` | src/controller.cpp:949-996 | activate() is accepted in four states, and from off only with a portal to report, no connectivity check, or a reachable network |
| `ControllerLaws.PortalBlocks` | src/controller.cpp:968-975 | off with a captive portal: one warning, and nothing starts |
| `ControllerLaws.StopWarnsOfPortal` | src/controller.cpp:1076-1084 | stopping with a captive portal present warns of it once |
| `ControllerLaws.FailedCheckForgotten` | src/controller.cpp:1010-1023 | an account check that failed after the app left its main state is only forgotten |
| `ControllerLaws.UnexpectedHandshake` | src/controller.cpp:695-707 | a handshake with a server that nothing waits for changes nothing |
| `ControllerLaws.OutsideConnection` | src/controller.cpp:696-702 | one with the exit server and nothing pending turns the controller on; if it was on, time and session starts stay |
| `ControllerLaws.PendingStepStops` | src/controller.cpp:753-756 | a connection that comes up with a step pending is taken down again |
| `ControllerLaws.PendingStepEndsAttempt` | src/controller.cpp:294-297 | so is an attempt that times out |
| `ControllerLaws.NextHopWithoutDevice` | src/controller.cpp:606-613 | a further hop without a device asks for a reset and sends nothing |
| `ControllerLaws.LinkIgnores` | src/localsocketcontroller.cpp:229-301 | handshake and disconnect reports count only once the link is ready, status replies only until then |
| `ControllerLaws.LinkRecovers` | src/localsocketcontroller.cpp:70-117 | after a socket error the timer runs, when it fires the link starts over, and a status reply makes it ready |
| `ControllerLaws.InitializeStarts` | src/localsocketcontroller.cpp:92-117 | initialize() forgets what the link knew and records the location |
| `ControllerObject.EventLoop.Dispatch` | src/controller.cpp:193-1105 | the object, with the source's own fields and re-entrant slots, is after any events where the run of those events leads, and safe: timer, queue, retries, both asserts and initiator as in HandshakeTimerSafe and OnPartialIsExtension |
| `ControllerObject.EventLoop.SwitchTo` | src/controller.cpp:919-938 | on the object: one activate, for the first hop to the weighted pick of the new location, or nothing, never a deactivate; connected-since time and session starts unchanged |
| `ControllerObject.EventLoop.SwitchSilently` | src/controller.cpp:648-688 | the same for the current location, exactly from StateOn and not under a cool-down without another exit server; without a cool-down to the recorded servers |
| `ControllerObject.EventLoop.RequestActivation` | src/controller.cpp:949-1043 | an activation while off sends nothing, stays off, and awaits one more account reply exactly without a captive portal and with the network reachable |
| `ControllerObject.EventLoop.RequestDeactivation` | src/controller.cpp:1061-1105 | an accepted request stops the clock; one by a lower principal or while idle changes nothing |
| `ControllerObject.EventLoop.RequestQuit` | src/controller.cpp:247-264 | a quit is reported at once or pending |
| `ControllerObject.EventLoop.DaemonDisconnects` | src/controller.cpp:767-802 | stops the clock and reports a pending quit |
| `ControllerObject.VpnController.BuildQueue` | src/controller.cpp:430-513 | the queue built hop by hop leads to the location, with the servers the policy wants; it stays empty exactly when no hops lead there |
| `ControllerObject.VpnController.HandshakeTimeout` | src/controller.cpp:282-319 | in every safe state both asserts hold; a retry goes to the servers picked now, on port 53 at the first, seven more without, and the ninth gives up |
| `DaemonStream.ReadsDoNotMatter` | src/localsocketcontroller.cpp:201-227 | for every way of cutting the stream into reads, the commands handed over are those of the whole stream, and the buffer is its unterminated tail |
| `DaemonStream.SplitExact` | src/localsocketcontroller.cpp:201-227 | lines and tail, put back together, are the stream; no line and no tail holds a newline |
| `DaemonStream.SplitAppend` | src/localsocketcontroller.cpp:201-227 | splitting continues from the tail alone |
| `DaemonStream.SocketReader.ReadData` | src/localsocketcontroller.cpp:201-227 | one read hands over the trimmed non-empty lines of buffer and input and keeps the tail |
| `DaemonStream.TrimmedIs` | src/localsocketcontroller.cpp:216-221 | trimming takes the blanks off both ends and nothing else |
| `DaemonStream.CommandsAreLines` | src/localsocketcontroller.cpp:208-226 | each line that is not blank becomes one command, its trimmed text, in order; a blank one becomes none |
| `DaemonStream.NewConnection` | src/localsocketcontroller.cpp:201-227 | the buffer outlives the connection: for every cut into reads the commands of a new stream are its own if and only if what the old connection left unterminated is blank or the new stream completes no line |
| `DaemonStream.TailInFront` | src/localsocketcontroller.cpp:201-227 | a tail in front of a stream leaves its commands as they are exactly then |
| `IpAddress.ExcludeAddresses` | src/ipaddress.cpp:238-258 | for prefixes with any host bits: there is a result if every exclusion fits every source it lies in; a result covers exactly the addresses in some source and no excluded prefix, and stays pairwise disjoint if the sources were, if every source is clear up to the exclusions inside it; canonical lists always give a result, which is right and canonical |
| `IpAddress.PartsInherit` | src/ipaddress.cpp:247-252 | what is left of a source keeps both conditions towards every exclusion |
| `IpAddress.ExcludeOne` | src/ipaddress.cpp:260-286 | for any two prefixes: it ends with no assert failing if and only if halving can arrive at the excluded prefix; the result then is right (one prefix of each length p+1 to q, pairwise disjoint, covering exactly the rest) if no host bit is set before that length, and still holds the excluded address otherwise; canonical in, canonical out |
| `IpAddress.CanonicalReaches` | src/ipaddress.cpp:265-283 | for a canonical prefix the splitting loop arrives exactly at the canonical prefixes strictly inside it |
| `IpAddress.ExcludeFrom` | src/ipaddress.cpp:245-252 | for any two prefixes (disjoint, included either way, equal): no assert fails if and only if the exclusion fits, and the pieces then are disjoint and cover exactly the difference if and only if the prefix is clear up to it |
| `IpAddress.DeadEnd` | src/ipaddress.cpp:265-275 | a turn that finds the excluded prefix in neither half means it cannot be reached at all |
| `IpAddress.ContainsDecidesMembership` | src/ipaddress.cpp:151-186 | the shift code for IPv4 and the byte code for IPv6 both decide membership of the bit-prefix set, length 0 and foreign protocols included |
| `IpAddress.OverlapsDecidesIntersection` | src/ipaddress.cpp:143-149 | true if and only if the address sets meet |
| `IpAddress.SubnetOfDecidesInclusion` | src/ipaddress.cpp:192-201 | true if and only if one address set includes the other |
| `IpAddress.SubnetsPartitionIff` | src/ipaddress.cpp:203-235 | the two halves partition the prefix if and only if the first host bit is zero; halves of a canonical prefix are canonical |
| `IpAddress.HalfMembership` | src/ipaddress.cpp:203-235 | which addresses each half holds, for every prefix, canonical or not |
| `IpAddress.CanonicalUnique` | src/ipaddress.cpp:188-190 | canonical prefixes of one length that meet are equal |
| `IpAddress.SetBitBits` | src/ipaddress.cpp:215-231 | setting the split bit changes that bit of the address and no other |
| `IpAddress.Netmask` | src/ipaddress.cpp:80-99 | exactly the prefix bits are set |
| `IpAddress.Hostmask` | src/ipaddress.cpp:101-121 | exactly the host bits are set |
| `IpAddress.MasksAreComplements` | src/ipaddress.cpp:80-121 | netmask xor hostmask is all ones |
| `IpAddress.BroadcastAddress` | src/ipaddress.cpp:123-141 | a member of the prefix, and its numerically greatest |
| `TaskScheduler.SchedulerSafe` | src/taskscheduler.cpp:74-151 | in every run each scheduled task is in exactly one of queued, running, awaiting its timer, completed and deleted, and nothing else is anywhere; idle implies an empty queue; tasks never rescheduled start in scheduling order |
| `TaskScheduler.DeleteLosesOnly` | src/taskscheduler.cpp:112-151 | a delete discards exactly the listed tasks; without force only deletable ones |
| `TaskScheduler.DeleteSorts` | src/taskscheduler.cpp:112-151 | a delete without force keeps the NonDeletable tasks queued, defers the Reschedulable ones and drops the Deletable ones, each kind exactly, in its order; a running task goes on unless it is Deletable |
| `TaskScheduler.ForcedDeleteClears` | src/taskscheduler.cpp:112-151 | a forced one leaves nothing queued or running and starts nothing |
| `TaskScheduler.ScheduleAppends` | src/taskscheduler.cpp:74-77 | a new task comes after all that was started or queued |
| `TaskScheduler.TimerReturns` | src/taskscheduler.cpp:133-137 | so does a rescheduled one when its timer fires |
| `TaskScheduler.RescheduledWaits` | src/taskscheduler.cpp:74-151 | over every run a rescheduled task does not start while a task that was queued when its timer fired still is |
| `TaskScheduler.SyncTasksDoNotLinger` | src/taskscheduler.cpp:79-110 | in every run a task that completes within its run() is never left running |
| `TaskScheduler.StepKeeps` | src/taskscheduler.cpp:74-151 | every event keeps conservation, order and no idling |
| `TaskScheduler.RunKeeps` | src/taskscheduler.cpp:74-151 | so does every run |
| `TaskScheduler.DrainKeeps` | src/taskscheduler.cpp:79-110 | the recursion of synchronous completions ends, and with a task running or nothing queued |
| `TaskScheduler.DrainFrame` | src/taskscheduler.cpp:79-110 | it takes tasks from the front only, in order, and deletes none |
| `TaskScheduler.PurgeKeeps` | src/taskscheduler.cpp:112-139 | filtering the queue by policy loses no task and keeps the order |
| `TaskScheduler.Scheduler.ScheduleTask` | src/taskscheduler.cpp:20-25 | appends the task and runs what can run |
| `TaskScheduler.Scheduler.ScheduleTaskInternal` | src/taskscheduler.cpp:74-77 | the same for a task that may have been rescheduled |
| `TaskScheduler.Scheduler.MaybeRunTask` | src/taskscheduler.cpp:79-99 | equals the specified drain; its recursion with TaskCompleted terminates |
| `TaskScheduler.Scheduler.TaskCompleted` | src/taskscheduler.cpp:101-110 | records the completion and goes on |
| `TaskScheduler.Scheduler.VisitTask` | src/taskscheduler.cpp:113-139 | one turn of the mutable iterator: removes at most the current element |
| `TaskScheduler.Scheduler.PurgeQueue` | src/taskscheduler.cpp:113-139 | removal in place equals the filter by policy |
| `TaskScheduler.Scheduler.DeleteTasks` | src/taskscheduler.cpp:112-151 | queue and running task under all three policies, forced or not |
| `TaskScheduler.Scheduler.TimerFired` | src/taskscheduler.cpp:133-137 | the rescheduled task comes after all that was started or queued |
| `ServerLatency.RoundSafe` | src/serverlatency.cpp:71-226 | in every run with a monotone clock: at most 8 pings outstanding, sorted by send time; with distinct keys each server is in exactly one of queued, outstanding, finished and is pinged at most 3 times; none is given up before its third ping; at most 3 pings per server in all; the running sum is the sum of the latencies |
| `ServerLatency.RoundEnds` | src/serverlatency.cpp:142-208 | a round that ends by itself has finished every server, each silent one with exactly three pings, and sent no other ping |
| `ServerLatencyOrder.NearestFirst` | src/serverlatency.cpp:105-183 | in every run, for distinct servers, those tried, in the order of their first pings, followed by those still queued, are the round; no server gets its first ping while a strictly nearer one is queued |
| `ServerLatencyOrder.QueueDistances` | src/serverlatency.cpp:107-131 | every queued server carries the distance of a city that lists it |
| `ServerLatencyOrder.InTimeStays` | src/serverlatency.cpp:149-173 | a ping sent less than five seconds ago is neither retried nor given up |
| `ServerLatencyOrder.ProgressIsShare` | src/serverlatency.cpp:320-327 | progress() is the share of the round's servers that are finished, and 1 outside a round |
| `ServerLatencyOrder.StartGuards` | src/serverlatency.cpp:71-90 | start() where it starts nothing: without the feature it forgets the latencies, while the VPN is up it asks for a refresh |
| `ServerLatencyOrder.StopEndsRound` | src/serverlatency.cpp:210-226 | stop() ends the round and keeps the latencies |
| `ServerLatencyOrder.ClearForgets` | src/serverlatency.cpp:237-242 | clear() forgets the latencies and nothing else |
| `ServerLatencyOrder.StepOrdered` | src/serverlatency.cpp:71-301 | every event leaves the queue what remains of the plan, sorted by distance, behind the servers tried |
| `ServerLatency.MaybeSendPingsKeeps` | src/serverlatency.cpp:142-208 | stops if and only if nothing is queued or outstanding; otherwise no outstanding ping has expired and the timer fires within the timeout |
| `ServerLatency.RecvPingRecords` | src/serverlatency.cpp:275-301 | a reply finishes its server and sets its latency, and no other, to the time since that ping; an unknown sequence number changes nothing |
| `ServerLatency.RecvPingKeeps` | src/serverlatency.cpp:275-301 | a reply keeps the round invariant |
| `ServerLatency.SequencesDistinct` | src/serverlatency.cpp:159-187 | with 3·total at most 65536 no two pings of a round share a sequence number |
| `ServerLatency.ProgressNeverFalls` | src/serverlatency.cpp:320-327 | no event during a round lowers progress() |
| `ServerLatency.ExpireFirstProgress` | src/serverlatency.cpp:149-173 | each turn of the timeout loop lowers the number of expired records, so it terminates |
| `ServerLatency.BuildQueueCorrect` | src/serverlatency.cpp:105-131 | the queue is sorted by distance and holds each server as often as the cities list it |
| `ServerLatency.SumSet` | src/serverlatency.cpp:314-318 | replacing one latency changes the sum by the difference |
| `ServerLatency.SetLatencyKeeps` | src/serverlatency.cpp:314-318 | the running sum stays the sum of the map |
| `ServerLatency.AvgLatencyIsMean` | src/serverlatency.cpp:307-312 | in every state of a run with a monotone clock: the mean rounded up, between the least and the greatest latency |
| `ServerLatency.StartKeeps` | src/serverlatency.cpp:71-140 | start(), accepted or not, keeps the invariant |
| `ServerLatency.StepKeeps` | src/serverlatency.cpp:71-301 | every event keeps the invariant |
| `ServerLatency.RunKeeps` | src/serverlatency.cpp:71-301 | so does every run with a monotone clock |
| `ServerLatencyObject.LatencyProber.MaybeSend` | src/serverlatency.cpp:142-208 | the two loops, on the object's own fields, compute the specified expiry and filling; the queue stays what remains of the plan, nearest first, the round keeps its invariant, and while it goes on no outstanding ping has expired |
| `ServerLatencyObject.LatencyProber.Receive` | src/serverlatency.cpp:275-301 | on the object: a reply to an outstanding ping sets the latency of that server only and finishes it, any other changes nothing; the round stays in order |
| `ServerLatencyObject.LatencyProber.StartRound` | src/serverlatency.cpp:71-140 | an accepted start sets out to ping each server as often as the cities list it; every start keeps the round in order |
| `ServerLatencyObject.LatencyProber.Find` | src/serverlatency.cpp:278-282 | the first record with the sequence number |
| `ServerLatencyObject.QueueCities` | src/serverlatency.cpp:107-131 | the nested loops build the specified queue |
| `Netfilter.OutputChainAccepts` | linux/netfilter/netfilter.go:308-408 | after the set-up and any history of calls the output chain accepts a packet if and only if it leaves by loopback or by the VPN interface, is IPv4 UDP to a server now in the set, or carries the mark; it changes no packet |
| `Netfilter.OutputHookAccepts` | linux/netfilter/netfilter.go:433-473 | the whole output hook accepts exactly these and unmarked packets of a cgroup now excluded, and sets packet and connection marks accordingly |
| `Netfilter.ExcludedGetsOut` | linux/netfilter/netfilter.go:410-473 | right after a cgroup of up to 511 bytes is marked, whatever was called before, its unmarked packets get out |
| `Netfilter.OnlyExcludedGetsOut` | linux/netfilter/netfilter.go:410-473 | with one cgroup marked an unmarked packet not for loopback or the tunnel gets out if and only if it comes from that cgroup |
| `Netfilter.ResetEndsExclusion` | linux/netfilter/netfilter.go:921-941 | right after the reset its packets no longer do |
| `Netfilter.InputHooksAccept` | linux/netfilter/netfilter.go:126-306 | prerouting then input accept exactly loopback, the VPN interface, IPv4 UDP from a server now in the set, marked packets and packets of an excluded connection |
| `Netfilter.ExcludedConnectionWorks` | linux/netfilter/netfilter.go:96-204 | an unmarked non-loopback packet of an excluded cgroup gets out, and every reply on its connection gets in, whatever calls follow, the end of the exclusion included |
| `Netfilter.PostroutingMasquerades` | linux/netfilter/netfilter.go:475-494 | exactly the marked packets of an excluded cgroup have their source rewritten; none is dropped |
| `Netfilter.HistoryChains` | linux/netfilter/netfilter.go:810-941 | any history of calls leaves exactly the rules of the cgroups now marked, in order, and exactly the addresses now in the set |
| `Netfilter.KeepRules` | linux/netfilter/netfilter.go:497-514 | deleting by first expression removes exactly the rules of that cgroup |
| `Netfilter.DeletedRulesStartWithMatch` | linux/netfilter/netfilter.go:500-501 | the rules walked over start with a match, so the unchecked index and type test are safe |
| `Netfilter.MarksSound` | linux/netfilter/netfilter.go:433-514 | every remaining rule belongs to a path now excluded |
| `Netfilter.MarksComplete` | linux/netfilter/netfilter.go:433-514 | every path now excluded has a rule |
| `Netfilter.MatchIsExcluded` | linux/netfilter/netfilter.go:410-514 | some rule matches a packet if and only if its cgroup, or an ancestor, is now excluded |
| `Netfilter.HookOrder` | linux/netfilter/netfilter.go:619-664 | by priority the output hook runs cgroup marking, connection marking, filter |
| `Netfilter.FirewallState` | linux/netfilter/netfilter.go:614-715 | all six chains and the address set after the set-up and any history |
| `Netfilter.FilterRun` | linux/netfilter/netfilter.go:206-408 | the four filter rules, as programs, accept exactly their four cases |
| `Netfilter.MarkCgroupRun` | linux/netfilter/netfilter.go:436-473 | the marking program marks exactly unmarked non-loopback packets of the cgroup |
| `Netfilter.MarkRulesRun` | linux/netfilter/netfilter.go:436-473 | so does any list of such rules |
| `Netfilter.CtMarkRun` | linux/netfilter/netfilter.go:99-124 | marks the connection of exactly the marked packets |
| `Netfilter.PrerouteRun` | linux/netfilter/netfilter.go:127-203 | marks exactly server packets and packets of an excluded connection |
| `Netfilter.PathOfInfo` | linux/netfilter/netfilter.go:410-431 | the match structure holds the path itself up to 511 bytes, and the first 511 bytes of a longer one |
| `Netfilter.SameInfo` | linux/netfilter/netfilter.go:410-431 | two match expressions are equal if and only if the paths agree in their first 511 bytes |
| `Netfilter.IfnameInjective` | linux/netfilter/netfilter.go:85-89 | interface names that fit are told apart |
| `Netfilter.DelCgroup` | linux/netfilter/netfilter.go:497-514 | the loop deletes exactly the matching rules |
| `Netfilter.NftContext.Restrict` | linux/netfilter/netfilter.go:710-715 | after creating and marking the tables, from this call on the output hook and the input hooks let exactly the permitted packets through |
| `Netfilter.NftContext.Call` | linux/netfilter/netfilter.go:810-941 | after each later call they let exactly the packets through that the whole history of calls permits |
| `QmlPath.RoundTrip` | src/qmlpath.cpp:13-134 | parsing the printed form of a non-empty block list gives it back if and only if the list is printable |
| `QmlPath.BlocksUndone` | src/qmlpath.cpp:41-134 | the parser undoes the printer on printable lists |
| `QmlPath.BlocksAccepted` | src/qmlpath.cpp:41-134 | whatever the parser accepts is printable |
| `QmlPath.ParseBlock` | src/qmlpath.cpp:41-134 | a successful call consumes input and stops at the end or at a slash |
| `QmlPath.ParseFilter` | src/qmlpath.cpp:68-127 | a successful filter consumes input |
| `QmlPath.IndexIsNumber` | src/qmlpath.cpp:68-95 | text between brackets is an index exactly if it is a number from 0 on |
| `QmlPath.EvaluationCorrect` | src/qmlpath.cpp:163-210 | null if and only if no chain of items satisfies the blocks as described; otherwise the end of the first such chain in traversal order |
| `QmlPath.SelectIff` | src/qmlpath.cpp:174-202 | a block selects exactly the items described: without a key all; else those of the level that bear it, then, if nested, the descendants that do, in walk order; narrowed by each filter in turn |
| `QmlPath.FoundIff` | src/qmlpath.cpp:176-190 | the same for the key alone: in the order of the items and as often |
| `QmlPath.NarrowedIff` | src/qmlpath.cpp:240-287 | an index keeps that item counted from the front; a property filter keeps exactly the items whose property exists and equals the value, if given; a className value is compared with the class |
| `QmlPath.PreorderWalks` | src/qmlpath.cpp:213-237 | the walk lists every position of the tree once, an item before what is below it and that before the items after it |
| `QmlPath.ChildrenFirst` | src/qmlpath.cpp:213-223 | the visual children come first, then those of the content item |
| `QmlPath.EvaluateSound` | src/qmlpath.cpp:163-210 | gives that chain, and no chain comes before it |
| `QmlPath.EvaluateComplete` | src/qmlpath.cpp:163-210 | null leaves no chain |
| `QmlPath.NestedLookup` | src/qmlpath.cpp:176-237 | nested lookup collects exactly the items with the key on the same level or below |
| `QmlPath.FindAmongIsNamed` | src/qmlpath.cpp:226-237 | items with the key, in the order of a walk of the tree |
| `QmlPath.ReadUntil` | src/qmlpath.cpp:61-65 | the scan loop takes the longest text free of delimiters |
| `QmlPath.ReadFilter` | src/qmlpath.cpp:68-127 | one filter, with every malformed case refused, the property text split at its equals signs as the source splits it |
| `QmlPath.PropertyFromFields` | src/qmlpath.cpp:108-121 | the checks on the split text accept exactly name and name=value with a name and a single equals sign |
| `QmlPath.ReadFilters` | src/qmlpath.cpp:67-130 | the filter loop |
| `QmlPath.ReadBlock` | src/qmlpath.cpp:41-134 | one block, nested or not |
| `QmlPath.ReadPath` | src/qmlpath.cpp:13-39 | the whole path; a failure leaves no block |
| `QmlPath.RemoveWithout` | src/qmlpath.cpp:250-287 | removal in place keeps exactly the items with the property |
| `QmlPath.SelectItems` | src/qmlpath.cpp:174-202 | lookup followed by the filters in order |
| `QmlPath.LookupItems` | src/qmlpath.cpp:176-190 | same-level and nested lookup |
| `QmlPath.EvaluateItems` | src/qmlpath.cpp:163-210 | the backtracking search equals its specification |
| `PingHelper.SlotMatches` | src/pinghelper.cpp:106-114 | after any number of pings, past the 16-bit wrap too, the slot test accepts a sequence number if and only if it is one of the last min(n, 32) sent |
| `PingHelper.Helper.Start` | src/pinghelper.cpp:67-73 | empties the window |
| `PingHelper.Helper.NextPing` | src/pinghelper.cpp:89-104 | overwrites the oldest slot and nothing else |
| `PingHelper.Helper.PingReceived` | src/pinghelper.cpp:106-119 | records a reply if and only if it answers a recent ping, in that slot only |
| `PingHelper.Helper.Latency` | src/pinghelper.cpp:121-140 | the mean of the recorded latencies rounded to nearest, between their bounds, cast to 32 bits; 0 without any |
| `PingHelper.Helper.Maximum` | src/pinghelper.cpp:162-175 | an upper bound of the latencies that is attained, or 0 |
| `PingHelper.Helper.Loss` | src/pinghelper.cpp:177-197 | the share of the window that is unanswered and out for more than a second |
| `PingHelper.NearestMean` | src/pinghelper.cpp:137-139 | adding half the divisor rounds to nearest and stays in bounds |
| `PingHelper.ReceivedCounts` | src/pinghelper.cpp:121-131 | the divisor counts exactly the slots with a latency |
| `PingHelper.LostCounts` | src/pinghelper.cpp:177-192 | a ping counts as lost only unanswered and once it has been out for more than a second |
| `PingHelper.TotalUpdate` | src/pinghelper.cpp:121-131 | one record changes the total by its latency, unanswered ones by nothing |
| `InetChecksum.ComputeChecksum` | src/pingsender.cpp:13-48 | for every buffer: the signed 32-bit accumulator overflows exactly when the words add up to more than it holds, and otherwise the result is the complement of their one's-complement sum, odd lengths included |
| `InetChecksum.ShortBuffersFit` | src/pingsender.cpp:24-36 | no buffer of up to 65537 bytes overflows the accumulator |
| `InetChecksum.LongBufferOverflows` | src/pingsender.cpp:24-36 | from 65538 bytes on, for every even length, some buffer does |
| `InetChecksum.FoldedIsOnesSum` | src/pingsender.cpp:43-47 | two folds give the one's-complement sum of the words |
| `InetChecksum.FoldedRepresents` | src/pingsender.cpp:43-46 | two folds suffice for every 31-bit sum |
| `InetChecksum.PaddedWithZero` | src/pingsender.cpp:37-41 | an odd buffer counts as if a zero byte followed it |
| `InetChecksum.StoredChecksumVerifies` | src/pingsender.cpp:13-48 | stored in a zeroed aligned field it makes the recomputed checksum 0 |
| `InetChecksum.ByteOrderIndependent` | src/pingsender.cpp:13-48 | swapping the bytes of every word swaps the result |
| `InetChecksum.OnesSumRepresents` | src/pingsender.cpp:13-48 | the one's-complement sum is the residue modulo 65535, zero only for zero |
| `InetChecksum.SwapAdd` | src/pingsender.cpp:13-48 | byte swapping commutes with one's-complement addition |
| `CryptoSettings.FileRoundTrip` | src/cryptosettings.cpp:143-187 | a written file parses back to its header, metadata, nonce, MAC and ciphertext if and only if the metadata has at most 127 bytes |
| `CryptoSettings.LengthDecodes` | src/cryptosettings.cpp:159-159 | the stored length decodes to itself if and only if it is at most 127 |
| `CryptoSettings.FileLayout` | src/cryptosettings.cpp:313-367 | where the version, the length, the metadata, 12 bytes of nonce, 16 of MAC and the ciphertext stand in the file |
| `CryptoSettings.ReadNeeds` | src/cryptosettings.cpp:189-219 | a file is read only with a key of 32 bytes and only if it holds an object |
| `CryptoSettings.ReadAfterWrite` | src/cryptosettings.cpp:277-370 | reading a written file restores contents and nonce counter |
| `CryptoSettings.ReadIff` | src/cryptosettings.cpp:143-225 | a written file reads back to its contents and nonce if its metadata has at most 127 bytes, and not at all otherwise |
| `CryptoSettings.NonceRoundTrip` | src/cryptosettings.cpp:298-300 | counter to nonce bytes and back |
| `CryptoSettings.CounterSteps` | src/cryptosettings.cpp:290-296 | the counter goes up by one; short of its greatest value the key is reset and it starts from 0 |
| `CryptoSettings.StepGood` | src/cryptosettings.cpp:221-296 | an event leaves the counter covering the pairs used, of files or of encryptions, if and only if it does not fall behind: restart without reading an encrypted file of the current key while that key stays, or read a file older than the last encryption |
| `CryptoSettings.NoncesIncreaseIff` | src/cryptosettings.cpp:290-300 | over every run the (key epoch, nonce) pairs strictly increase, up to every point and in any write added there, if and only if no event of the run falls behind; for completed files and for all encryptions |
| `CryptoSettings.FilesFallBehind` | src/cryptosettings.cpp:221-222 | for files only a restart that cannot read the file and keeps the key of the last one falls behind |
| `CryptoSettings.SuccessfulRun` | src/cryptosettings.cpp:290-300 | a run of completed encrypted writes with at most 127 bytes of metadata, and of reads and restarts that have the key, never falls behind |
| `CryptoSettings.FreshRun` | src/cryptosettings.cpp:290-300 | from a fresh installation, pairs increase over every run that never falls behind |
| `CryptoSettings.LongMetadataRepeats` | src/cryptosettings.cpp:159-159 | with 128 bytes of metadata and a key store that returns the same key after the failed read, a write, a restart and a write complete two files under one key and nonce |
| `CryptoSettings.LostKeyRepeats` | src/cryptosettings.cpp:189-197 | so does a key that cannot be read at the restart and then comes back unchanged |
| `CryptoSettings.PlainFileRepeats` | src/cryptosettings.cpp:252-275 | so does a plain-text file that has replaced the encrypted one before the restart |
| `CryptoSettings.FailedWriteRepeats` | src/cryptosettings.cpp:349-367 | a write the device refuses, followed by reading the older file, makes the next write encrypt under the same key and nonce |
| `CryptoSettings.Settings.WriteEncrypted` | src/cryptosettings.cpp:277-370 | advances the counter even when it fails, completes exactly for a good key, version, length and device, writes the specified file, and seals under a fresh pair if and only if the counter covers the pairs used |
| `CryptoSettings.Settings.ReadEncrypted` | src/cryptosettings.cpp:143-225 | consumes the device as specified; the counter moves only on success |

## Left out

Not modelled:

- User interface, QML, themes, notifications, addons, scripts, wasm, qtglean.
- Network requests and telemetry plumbing; the controller keeps only that an account check completed or failed, and session starts and ends.
- `src/mozillavpn.cpp`, server choice by weight, device, key and settings models: their answers are inputs of the events.
- Mobile and iOS branches; the desktop build is modelled.
- Controller: the ping canary, the confirming timer, log retrieval, connection time queries, and address range computation for the peers.
- Controller: signals are taken not to re-enter the controller synchronously; the deactivation caused by a reset for a missing device is a later event. The re-entrant deactivate, disconnected, activate chain is modelled as it runs.
- Daemon link: response timeouts (a socket error event stands for them), JSON parsing (a well-formedness flag stands for it), and whether a written message arrives.
- IP addresses: parsing from text, the null address, scope identifiers.
- Task scheduler: scheduleTaskNow, stop and the destructor; cancel() is taken not to report completion itself; a task that schedules or deletes others from its run() is modelled by later events.
- Latency prober: score signals, cool-downs, refresh and progress timers; the clock is taken to be monotone; distances are reals.
- Firewall: NDP, DHCP, DNS, prefixes, IPv6 isolation, cgroup v1, removal of tables and reset of all cgroups; commits are taken to succeed; addresses arrive as four bytes; the host is little-endian; cgroup paths hold no NUL.
- QML paths: the items are a finite tree of values, without identity; toInt is a parameter known only to read decimal numerals of an int and to refuse what is out of range; the collection of root objects and the class-name clean-up are inputs.
- Ping helper: standard deviation, and the choice of a sender.
- Settings file: JSON and key storage are parameters. The cipher is a parameter with two laws: what was encrypted under a writer's header decrypts, and what decrypts has a header that the writer makes. char is signed, integers are little-endian; a write that fails leaves the previous file in place; a file of an earlier key does not decrypt.

Stated less strongly than it might be:

- IpAddress.ExcludeAddresses: gives its two conditions one way; an exclusion that does not fit, or is not clear, may lie in a part that an earlier one has removed. For a single pair of prefixes `ExcludeFrom` states both exactly.
- InetChecksum.StoredChecksumVerifies: speaks of the checksum as a function of the bytes; `ComputeChecksum` returns it wherever the accumulator does not overflow.
- ServerLatency.SequencesDistinct: speaks of up to 21845 servers; beyond that the 16-bit counter wraps.
