# hopbox in Dafny

A model of hopbox, a control plane that drives compute boxes from spec to running and then suspends
or reaps them, and proofs of what it keeps over whole runs. `dafny verify dfyconfig.toml` checks it.

The model is a transition system. A state is the stored rows and the instances compute holds; a step
is one Attach, release, destroy request, agent report, metadata command, reconciler tick, drain or
restart, each one atomic read-modify-write of the store. A tick takes the answers of compute and of
the host hooks as an argument, so every statement over runs holds for all of them; the clock is an
integer and may do anything unless a statement says it is monotone. The port contract assumed of
compute is that a successful Provision replaces the workspace's previous instance under a ref no
other workspace holds, and a failed one adds none; `Safety.OrphanIffLeftBehind` says what happens
when a failed one does. The classes (store, reconciler, engine, hub, microVM provider, ingress,
fleet backend) are imperative and are proved to take exactly the steps of the transition systems,
calls to compute included.

| file | part |
|---|---|
| `Common` | failure values and string operations |
| `Phases`, `Boxes` | the phase table, the row, lifetime and idle decisions |
| `Usernames` | the SSH username grammar |
| `Lifecycle` | the transition system |
| `Safety`, `Progress`, `Histories`, `Sessions` | invariants, termination measure and reap bound, history properties, session ownership |
| `Stores`, `Reconciler`, `Engine` | the code that takes those steps |
| `Decisions`, `Settings` | a second account of every step in terms of rows, clock and answers alone, and of the settings over runs |
| `Hub`, `HubStore` | the agent hub as interleaved loops, and together with the store |
| `Addresses`, `MicroVM`, `Lives` | the /24 allocator, the provider, and the provider over any number of restarts |
| `DrainRestart`, `DaemonLives` | rows and provider together: shutdown to resume, in one life and over any number of lives |
| `ExecFrames`, `Streams` | exec frames, stream opening, stdin |
| `Routes`, `RouteRuns` | ingress hooks and the route table, over runs |
| `Fleet` | fleet.apply |

Where the code and its comments disagree the code is followed. A comment in `spec.go` speaks of a bare
trailing plus sign forcing a fresh box: the parser records it, `Engine.Attach` ignores it
(`Sessions.PlusIsIgnored`). A restart resets only Attached, and the route table is lost while
endpoints persist: `HubStore.RestartAgreesIff` and `RouteRuns.RestartAgreesIff` say exactly when the
two sides still agree afterwards.

## Model

| member | source | states |
|---|---|---|
| `Usernames.ParseSpecIsTheGrammar` | internal/core/box/spec.go:31-81 | the parser returns a non-special spec exactly when the username is a derivation of that spec in an independently stated grammar (optional backend, image, flavor and one trailing modifier); so every accepted username gives a well-formed spec |
| `Usernames.PrintParse` | internal/core/box/spec.go:31-81 | parsing the canonical print (always ending in a plus sign or a plus sign and a duration) of any well-formed spec gives that spec back |
| `Usernames.ParsePrintParse` | internal/core/box/spec.go:31-81 | every accepted non-special username parses to a well-formed spec, and parse, print, parse equals parse |
| `Usernames.PlainParses` | internal/core/box/spec.go:64-80 | name or name:image without modifier characters parses to just that name and image |
| `Usernames.SpecialsParse` | internal/core/box/spec.go:31-43 | cli, sudo, _ and session- followed by an id parse to their specials, the empty username to an error |
| `Usernames.OnlyThoseAreSpecial` | internal/core/box/spec.go:31-43 | no other username is special |
| `Stores.Store.Get` | internal/core/boxsqlite/boxsqlite.go:150-160 | reads the row of an id, or nothing |
| `Stores.Store.Create` | internal/core/boxsqlite/boxsqlite.go:216-225 | inserts exactly when the id and the (tenant, owner, name) are free, and keeps names unique |
| `Stores.Store.Update` | internal/core/boxsqlite/boxsqlite.go:227-241 | writes an existing row, never inserts, never changes the identity columns |
| `Stores.WrittenIs` | internal/core/boxsqlite/boxsqlite.go:227-241 | an update keeps tenant, owner, name and creation time of the row and takes everything else as given |
| `Stores.Store.Delete` | internal/core/boxsqlite/boxsqlite.go:243-246 | removes the row of an id and nothing else |
| `Stores.Store.List` | internal/core/boxsqlite/boxsqlite.go:174-193 | lists each row of the tenant exactly once; the empty tenant lists all |
| `Reconcilers.Reconciler.SetPhase` | internal/core/box/reconcile.go:347-357 | writes the phase exactly when the table allows it, starting the idle clock on a first Running |
| `Reconcilers.Reconciler.Fail` | internal/core/box/reconcile.go:359-364 | marks the row Failed whatever its phase |
| `Reconcilers.Reconciler.Provision` | internal/core/box/reconcile.go:231-279 | the new row, the instances compute holds afterwards and the calls made, for a hook failure, a failed and a successful Provision |
| `Reconcilers.Reconciler.HealIfDead` | internal/core/box/reconcile.go:304-316 | rebuilds a Running box without an agent exactly when it has no instance or compute says it is dead |
| `Reconcilers.Reconciler.CheckAlive` | internal/core/box/reconcile.go:318-330 | fails a Provisioning box exactly when its instance is dead |
| `Reconcilers.Reconciler.Destroy` | internal/core/box/reconcile.go:332-345 | deletes the row exactly when there was no instance or its Destroy succeeded; the pre-destroy hook comes first |
| `Reconcilers.Reconciler.ReconcileLifetime` | internal/core/box/reconcile.go:281-302 | reap, set or clear the deadline, and whether the tick ends there |
| `Reconcilers.Reconciler.Serve` | internal/core/box/reconcile.go:139-146 | a connected box gets its post-running hook, a disconnected one is checked and healed |
| `Reconcilers.Reconciler.Suspend` | internal/core/box/reconcile.go:181-189 | the row becomes Suspended and disconnected exactly when the snapshot succeeded |
| `Reconcilers.Reconciler.Resume` | internal/core/box/reconcile.go:217-229 | resumes through compute, or rebuilds when compute cannot suspend |
| `Reconcilers.Reconciler.ReconcileRunning` | internal/core/box/reconcile.go:128-146 | the Running branch: lifetime, suspend, heal, serve, in that order |
| `Reconcilers.Reconciler.ReconcileOne` | internal/core/box/reconcile.go:115-167 | one tick is one step of the transition system on rows and instances, with exactly the calls that step asks for |
| `Reconcilers.Reconciler.Sweep` | internal/core/box/reconcile.go:82-106 | a sweep ticks every stored row exactly once: it is a run of that many steps, with exactly the calls of those steps |
| `Reconcilers.Reconciler.Drain` | internal/core/box/reconcile.go:194-215 | a drain asks compute to suspend each Running persistent box of the tenant once and no other, and is one step: exactly those whose Suspend succeeded become Suspended |
| `Reconcilers.ResetSessions` | cmd/boxd/main.go:109-120 | a restart clears Attached on every row of the tenant and touches nothing else |
| `Decisions.TickAsks` | internal/core/box/reconcile.go:115-167 | what a tick asks of the host and of compute, for every phase, as an if and only if on the row, the clock and the answers alone: build, check, snapshot, resume, serve, tear down |
| `Decisions.TickPhase` | internal/core/box/reconcile.go:115-364 | when a tick deletes the row, and the phase it leaves otherwise, in the same terms |
| `Decisions.TickSettings` | internal/core/box/reconcile.go:115-364 | a tick keeps identity, tier, owner session, load and every setting of the owner |
| `Decisions.TickInstance` | internal/core/box/reconcile.go:273-278 | instance ref and ip change exactly on a build that succeeds; the agent flag falls exactly then and on a suspend |
| `Decisions.TickClocks` | internal/core/box/lifetime.go:25-51 | the deadline is set, kept or cleared as owner, grace and cap say; the activity mark is set only by a first start |
| `Decisions.TickOthers` | internal/core/box/reconcile.go:115-119 | a tick touches no other row |
| `Decisions.TickInstances` | internal/core/box/reconcile.go:231-345 | which instances compute holds after a tick, ref by ref, for every answer |
| `Decisions.HealedIff` | internal/core/box/reconcile.go:304-316 | a Running box, persistent or attached within its cap, is rebuilt if and only if its agent is gone and it has no instance or compute says that is dead |
| `Decisions.UnsureChangesNothing` | internal/core/box/reconcile.go:308-315 | when Status errors or says alive the whole world stays as it was, but for the deadline of an ephemeral box whose owner is back |
| `Decisions.TickCalls` | internal/core/box/reconcile.go:115-345 | which calls a tick makes, each as an if and only if, at most once, and always about the own instance of the row |
| `Decisions.TickCallOrder` | internal/core/box/reconcile.go:247-345 | compute is asked before it is changed; PreProvision comes right before Provision, PreDestroy right before Destroy |
| `Engines.Engine.ByOwnerName` | internal/core/box/engine.go:126-137 | finds the one row of that tenant, owner and name, or none |
| `Engines.Engine.Attach` | internal/core/box/engine.go:77-112 | reuses the named box of the owner, creates it, or is refused; the rows afterwards are the attach step of the transition system |
| `Engines.Engine.Release` | internal/core/box/engine.go:142-155 | clears Attached and restarts the idle clock of that id; nothing if the row is gone |
| `Engines.Engine.Destroy` | internal/core/box/engine.go:166-177 | flags an existing row Destroying from any phase |
| `Engines.Engine.SetAgentConnected` | cmd/boxd/main.go:284-294 | writes the flag of an existing row and nothing else |
| `Engines.Engine.Mutate` | cmd/boxd/main.go:146-154 | applies a heartbeat, keep-alive, auto-suspend or idle command to a row at the caller address, or changes nothing when there is none |
| `Decisions.AttachIff` | internal/core/box/engine.go:77-112 | Attach refuses a username that does not parse, a special one, and a new name no backend can take or whose id is in use; reuses exactly the own box of that name; else creates one |
| `Decisions.CreatedRow` | internal/core/box/engine.go:40-72 | the row Attach creates: ephemeral if and only if the owner is not persistent, auto-suspending if and only if it is; image, grace and backend as asked, or the default of the daemon; everything else empty |
| `Decisions.WorkspaceBorn` | internal/api/server.go:122-139 | CreateWorkspace adds a row if and only if it has a name, an image, a free id and a free name; the row is persistent, does not auto-suspend, and is attached by nobody |
| `Decisions.OnlyCreationsAdd` | internal/core/box/engine.go:77-112 | no step but an Attach and a CreateWorkspace adds a row |
| `Decisions.OutsidePhase` | internal/core/box/engine.go:142-177 | what every other step makes of phase, instance, address, deadline and agent flag of a row: only a destroy request, a drain and an agent report change any of them |
| `Decisions.OutsideSettings` | internal/core/boxmeta/boxmeta.go:146-196 | and of load, pin, auto-suspend, timeout and activity mark: only a command from the own address of the box, and a release, change any of them |
| `Decisions.OutsideAttached` | internal/core/box/engine.go:77-155 | and of the attached flag: raised by an Attach of owner and name, lowered by the release and by a restart of the daemon of that tenant |
| `Decisions.OutsideInstances` | cmd/boxd/main.go:109-131 | no other step changes what compute holds, but a restart may lose some of it |
| `Settings.SettingIsLatest` | internal/core/boxmeta/boxmeta.go:146-196 | over any run load, auto-suspend and idle timeout are each the argument of the latest command of that kind that came from the own address of the box, or the value it was created with |
| `Safety.AlwaysGood` | internal/core/box/reconcile.go:347-357 | in every reachable state: no ephemeral box is Suspended, a box with a deadline is ephemeral and Running or Destroying, every Running box has an activity mark, (tenant, owner, name) is unique |
| `Safety.PhaseSafety` | internal/core/box/phase.go:15-31 | every phase any step writes lies in the table although provision, fail and Destroy bypass it; rows are born Pending; Stopped, Failed and Destroying never lead back |
| `Phases.TableIs` | internal/core/box/phase.go:15-31 | the transition table in full: nineteen changes and no others |
| `Safety.DestroyingIsFinal` | internal/core/box/phase.go:22 | over any run, a Destroying row stays Destroying until it is deleted |
| `Safety.IdentityIsConstant` | internal/core/boxsqlite/boxsqlite.go:227-241 | name, owner, tier, grace and creation time of a box never change during its life |
| `Safety.NeverCapped` | internal/core/box/engine.go:40-72 | in every run from the empty store every row has no lifetime cap, so none is ever past it |
| `Safety.NeverAnOrphan` | internal/core/box/reconcile.go:231-345 | as long as compute answers by the port contract, in every reachable state each instance compute holds is the InstanceRef of a row in the store |
| `Safety.OrphanIffLeftBehind` | providers/compute/docker/docker.go:185-191 | one step keeps the store free of orphans if and only if it asks for no Provision that fails and leaves a new instance behind, as a container whose start failed is |
| `Safety.NoOrphansIff` | providers/compute/docker/docker.go:185-191 | over runs: no state up to n has an orphan if and only if no tick so far did that |
| `Safety.FailedStartOrphans` | providers/compute/docker/docker.go:185-191 | the failing run, from the empty store: a workspace whose first start fails leaves an instance no row names |
| `Safety.DeletionIsEarned` | internal/core/box/reconcile.go:332-345 | a row disappears only in a tick on it that found it ending and whose Destroy, if there was an instance, succeeded; nothing of it is left in compute |
| `Safety.PersistentDeletionWasAsked` | internal/api/server.go:164-178 | a persistent row is deleted only if an explicit destroy of it occurred earlier in the run |
| `Progress.TickLowersRank` | internal/core/box/reconcile.go:115-364 | a measure over phase, agent, attachment and tier strictly drops at every phase change a tick makes, for every clock and every compute answer, and never rises |
| `Progress.NoLivelock` | internal/core/box/reconcile.go:115-364 | from any state that satisfies the invariant, so from any reachable one, any sequence of ticks makes at most three phase changes of a box of either tier, deletion included |
| `Progress.ThreeChangesHappen` | internal/core/box/reconcile.go:217-330 | the bound is met by a persistent box: resume, heal and fail in three ticks |
| `Progress.ThreeChangesOfEphemeral` | internal/core/box/reconcile.go:231-345 | the bound is met by an ephemeral box: built, failed and deleted in three ticks |
| `Progress.ReapedInTime` | internal/core/box/reconcile.go:281-302 | a Running ephemeral box found detached by a tick and left detached is Destroying or gone after any tick at or past that time plus its grace |
| `Progress.TeardownCompletes` | internal/core/box/reconcile.go:332-345 | a tick on a Destroying box whose Destroy succeeds leaves neither row nor instance |
| `Progress.ReapIsBounded` | internal/core/box/reconcile.go:74-106 | whichever other wake-ups happen or are dropped, one tick past grace and one later tick with a successful Destroy remove row and instance |
| `Histories.DeadlineWitness` | internal/core/box/lifetime.go:39-46 | a stored deadline is a past tick time plus the grace, and every tick since then found the box Running and detached |
| `Histories.GraceIsHonoured` | internal/core/box/lifetime.go:25-51 | an ephemeral box with positive grace is reaped only past MaxTTL, or when some tick at least its grace earlier and every tick since found it detached |
| `Histories.GraceIsAlwaysHonoured` | internal/core/box/lifetime.go:25-51 | and since no box is capped, the grace condition holds without exception |
| `Histories.MarkIsLatestActivity` | internal/core/box/idle.go:18-23 | LastActive is the time of the latest release, busy heartbeat or first start, on every run with a monotone clock |
| `Histories.PinIsLatestKeepAlive` | internal/core/boxmeta/boxmeta.go:157-172 | the keep-alive pin is that of the latest keep-alive command |
| `Histories.SuspendHistory` | internal/core/box/reconcile.go:170-189 | a tick suspends a Running box if and only if the snapshot succeeds and the box is persistent, auto-suspending, connected, detached, under the load threshold, its latest pin has expired and no activity happened within its effective timeout |
| `Sessions.AttachedIffOpen` | internal/core/box/engine.go:77-155 | with sessions on a box not overlapping, a row is Attached exactly when its session is open |
| `Sessions.OpenSessionProtects` | internal/core/box/reconcile.go:128-138 | while the session is open a tick never suspends a Running box and reaps it only past MaxTTL |
| `Sessions.OpenSessionHolds` | internal/core/box/reconcile.go:128-138 | and since no box is capped, a tick neither suspends nor reaps a Running box whose session is open |
| `Sessions.FlagsRightIff` | internal/core/box/engine.go:142-155 | overlapping sessions over runs: the flags of all stored rows agree with the open sessions in every state up to n if and only if every release of a stored box so far ended its only session |
| `Sessions.PlusIsIgnored` | internal/core/box/engine.go:77-112 | a bare trailing plus sign changes nothing: Attach reuses, creates or refuses exactly as without it |
| `Sessions.SpecialsAreRefused` | internal/core/box/engine.go:77-84 | Attach refuses the reserved words, any session id, and the empty username |
| `Sessions.OverlapDetaches` | internal/core/box/engine.go:148 | a concrete run: two sessions, one release, and the flag is down while a session is open |
| `Sessions.OpenedExists` | internal/core/box/engine.go:77-112 | an Attach that succeeds yields an attached row of the caller and of the name asked for, never the row of another owner |
| `Sessions.AttachIsStable` | internal/core/box/engine.go:77-112 | until the box is deleted, every Attach of the same owner and name reaches the same id |
| `Sessions.StaleReleaseIsHarmless` | internal/core/box/engine.go:142-147 | a release whose box is gone changes no row, whatever box carries the name by then |
| `Hubs.Hub.Register` | internal/agenthub/agenthub.go:51-66 | takes the slot exactly when no open session holds it |
| `Hubs.Hub.Unregister` | internal/agenthub/agenthub.go:71-82 | removes the entry exactly when it is the caller own session |
| `Hubs.Hub.SessionFor` | internal/agenthub/agenthub.go:169-174 | yields the session a new stream is opened on: the holder of the slot, exactly when that is open |
| `Hubs.ConnectedIffServed` | internal/agenthub/agenthub.go:84-96 | under any interleaving a workspace reads as connected exactly when some accept loop serves it over an open session; there is at most one such loop, and its session is the one in the slot |
| `Hubs.AlwaysOwned` | internal/agenthub/agenthub.go:201-238 | under any interleaving of accept loops, every entry belongs to a loop of that workspace that registered and has not unregistered |
| `Hubs.EmptyWhenDone` | internal/agenthub/agenthub.go:235-238 | the map is empty once all loops have ended |
| `Hubs.KeepsSlotUntilClosed` | internal/agenthub/agenthub.go:44-66 | a registered session keeps its slot until it closes, whatever the other loops do |
| `Hubs.SlotLostOnlyWhenClosed` | internal/agenthub/agenthub.go:68-82 | a slot changes hands only from a closed session, to the session registering or by the loser own unregister |
| `Hubs.RefusedIffHeld` | internal/agenthub/agenthub.go:51-57 | a loop is refused exactly when an open session holds the slot, and a refusal changes nothing |
| `Hubs.MoveEffects` | internal/agenthub/agenthub.go:201-238 | what each move of an accept loop does to its own session, the slot and the set of closed sessions, and that it touches no other loop |
| `HubStore.FlagImpliesSession` | internal/agenthub/agenthub.go:60-82 | in every state of the combined hub and reconciler system a row flagged connected has a session in the hub, although provision and suspend also write the flag |
| `HubStore.RestartAgreesIff` | cmd/boxd/main.go:109-131 | after a restart the agreement holds exactly when no stored row was flagged connected, since the restart resets only Attached |
| `HubStore.RestartLosesAgreement` | cmd/boxd/main.go:109-131 | the failing run: a box whose agent connected, and a restart |
| `HubStore.LowersIff` | internal/core/box/reconcile.go:181-189 | a box event lowers a raised flag if and only if it is a tick that suspends a Running box, a tick that successfully builds a Pending box or rebuilds a Suspended one, or a drain that suspends it |
| `HubStore.FlagFollowsSession` | internal/agenthub/agenthub.go:60-82 | a session that registered and still holds its slot has its row flagged if and only if, since it registered, the row was there throughout and no event of those kinds occurred |
| `HubStore.SessionWithoutFlag` | internal/core/box/reconcile.go:181-189 | the converse of FlagImpliesSession fails on a seven-event run of an empty daemon: after an idle suspend the hub still holds the open session and the flag is down |
| `Addresses.LastOctetOfIp` | providers/compute/microvm/net_config.go:96-102 | the last octet of an address made from an octet is that octet |
| `Addresses.NamesAreInjective` | providers/compute/microvm/net_config.go:65-71 | addresses and tap names are injective in the octet |
| `Addresses.AddressTexts` | providers/compute/microvm/net_config.go:65-71 | an address is the subnet, a dot and the octet in decimal; a tap name is the prefix and the octet |
| `Addresses.LastOctetIff` | providers/compute/microvm/net_config.go:95-102 | an octet is read if and only if the text is four octets in decimal with dots between them, and it is the last one |
| `Addresses.ForeignLinkIsSkipped` | providers/compute/microvm/net_config.go:130-133 | a device whose name does not start with the prefix yields no octet |
| `Addresses.FieldAfterSpace` | providers/compute/microvm/net_config.go:126-129 | white space before the first field is skipped, and a blank line names no device |
| `Addresses.AtoiSigned` | providers/compute/microvm/net_config.go:134-136 | which number texts are read: digits with an optional sign, within 64 bits |
| `Addresses.TapOctets` | providers/compute/microvm/net_config.go:123-139 | the loop yields, in order, the octet of every listed device that names a tap of the fleet |
| `Addresses.VisibleTapIsRead` | providers/compute/microvm/net_config.go:120-139 | any listing that contains the tap of an address, with or without a peer suffix, yields its octet |
| `Addresses.VmNet.ReserveExistingTaps` | providers/compute/microvm/network.go:37-47 | marks exactly the listed octets as used |
| `Addresses.VmNet.AllocIP` | providers/compute/microvm/network.go:80-90 | hands out the least free octet of 2 to 254, or fails exactly when all of those are used |
| `Addresses.VmNet.ReserveIP` | providers/compute/microvm/network.go:94-100 | marks the octet of a readable address |
| `Addresses.VmNet.FreeIP` | providers/compute/microvm/network.go:102-108 | frees the octet of a readable address |
| `MicroVM.AllocFailsIffFull` | providers/compute/microvm/network.go:80-90 | allocation fails if and only if .2 to .254 are all used |
| `MicroVM.BuiltVm` | providers/compute/microvm/microvm.go:154-259 | the box a Provision builds: the image asked for, the least free address of .2 to .254, running under a handle, recorded; nothing else in the map or on disk changes |
| `MicroVM.UnbuiltVm` | providers/compute/microvm/microvm.go:154-250 | a Provision that does not boot builds nothing, and sweeps the run directory if there was one |
| `MicroVM.SuspendedVm` | providers/compute/microvm/microvm.go:287-313 | what a Suspend changes in the map and on disk, succeeding or failing |
| `MicroVM.ResumedVm` | providers/compute/microvm/microvm.go:316-362 | what a Resume changes in the map and on disk |
| `MicroVM.DestroyedVm` | providers/compute/microvm/microvm.go:366-381 | what a Destroy changes in the map, the octets and on disk |
| `MicroVM.RestartedVm` | providers/compute/microvm/microvm.go:103-140 | what a restart brings back: exactly the boxes with a record, a snapshot and a rootfs, asleep, under recorded image, address and tap; and which octets it takes |
| `MicroVM.Provider.Reattach` | providers/compute/microvm/microvm.go:103-140 | restores exactly the recorded boxes that have a snapshot and a rebuildable rootfs, suspended, with their addresses reserved |
| `MicroVM.Provider.Provision` | providers/compute/microvm/microvm.go:154-259 | state after each point of failure and after success: a failure keeps every vm and every octet |
| `MicroVM.Provider.Suspend` | providers/compute/microvm/microvm.go:287-313 | snapshot and record written on success; a failed snapshot call may leave its state file in the run directory; idempotent; unknown refs fail |
| `MicroVM.Provider.Resume` | providers/compute/microvm/microvm.go:316-362 | the reverse, with a fresh process handle |
| `MicroVM.Provider.Destroy` | providers/compute/microvm/microvm.go:366-391 | forgets the vm and frees its octet; fails exactly when a known vm has a run directory that cannot be removed |
| `MicroVM.RestartSafe` | providers/compute/microvm/microvm.go:103-140 | from reattachable records at pairwise distinct addresses of the fleet a restart yields a safe state, whatever taps are visible |
| `MicroVM.AlwaysSafe` | providers/compute/microvm/microvm.go:154-381 | every operation keeps safety: each vm holds its own used guest address and tap |
| `MicroVM.AddressSafety` | providers/compute/microvm/microvm.go:154-259 | over any run of one life since a restart from reattachable records at pairwise distinct addresses of the fleet, distinct refs have distinct addresses and taps in .2 to .254, each marked used, and none has the gateway address .1 |
| `Lives.KeptIff` | providers/compute/microvm/microvm.go:103-140 | one operation or restart keeps safety and every reattachable record that of a box in the map if and only if it is no Destroy that leaves a reattachable directory behind and no restart that skips a reattachable record |
| `Lives.LivesKeptIff` | providers/compute/microvm/microvm.go:103-140 | the same over any number of lives: it holds in every state if and only if no move strands a record |
| `Lives.AddressSafetyOverLives` | providers/compute/microvm/microvm.go:103-381 | from an empty fleet over any number of restarts at which no record is stranded, distinct refs have distinct addresses and taps in .2 to .254, and none has the gateway address .1 |
| `Lives.LeakedDirectoryClashes` | providers/compute/microvm/microvm.go:366-381 | the failing run: a Destroy that cannot remove the run directory ends, after a restart, with two boxes on one address and one tap |
| `Lives.SkippedRecordClashes` | providers/compute/microvm/microvm.go:121-130 | a second failing run: a record skipped by one restart and rebuilt by the next |
| `MicroVM.SuspendKeepsAddresses` | providers/compute/microvm/microvm.go:285-362 | suspend and resume change no address, tap, image, ref or used octet |
| `MicroVM.Conservation` | providers/compute/microvm/network.go:80-108 | on runs that never re-provision a ref still in the map, the used octets are exactly the initially reserved ones not since freed plus the live ones |
| `MicroVM.StepConservesIff` | providers/compute/microvm/microvm.go:178-258 | one operation keeps the account of used octets (reserved at the start and not freed, plus live) if and only if it is no booting Provision of a ref in the map, on a range that is not full, whose old octet is not among the reserved ones |
| `MicroVM.ConservedIff` | providers/compute/microvm/network.go:80-108 | over runs: the account holds in every state up to n if and only if no operation so far was such a Provision |
| `MicroVM.ReprovisionLeaks` | providers/compute/microvm/microvm.go:253-255 | in an account whose reserved octets are disjoint from the live ones, on a range that is not full, a booting Provision conserves octets if and only if its ref is not in the map |
| `Lives.SecondProvisionLeaks` | providers/compute/microvm/microvm.go:253-255 | the failing run: a box built twice in one life leaves an octet used that is neither reserved nor live |
| `MicroVM.StaysUsed` | providers/compute/microvm/network.go:102-108 | a used octet stays used until an operation frees it |
| `MicroVM.VisibleTapIsNotReused` | providers/compute/microvm/network.go:34-47 | a tap visible at start is never handed out until its octet is freed |
| `DrainRestart.AlwaysMatched` | providers/compute/microvm/microvm.go:251-258 | in every state of one daemon life that starts matched each vm is the instance of a stored row at that row address and of that row image, and the run directory of a live box holds its record |
| `DrainRestart.StatusIs` | providers/compute/microvm/microvm.go:268-283 | a box is dead if and only if the provider does not know it or its running process has exited |
| `DrainRestart.AnswersAre` | providers/compute/microvm/microvm.go:154-381 | when each of the other calls succeeds, and the ref and address a Provision answers |
| `DrainRestart.DrainSnapshots` | internal/core/box/reconcile.go:194-215 | after the drain loop every qualifying box whose Suspend succeeds is snapshotted on disk under the same address, tap and image |
| `DrainRestart.DrainSpares` | internal/core/box/reconcile.go:203-206 | the drain loop leaves the vm of any non-qualifying box, an ephemeral one in particular, as it was |
| `DrainRestart.RowIsBack` | internal/core/box/reconcile.go:194-215 | after drain, restart and attach the row is the drained one, attached |
| `DrainRestart.VmIsBack` | providers/compute/microvm/microvm.go:98-140 | a snapshotted box is reattached suspended under the same address, tap and image |
| `DrainRestart.TickResumes` | internal/core/box/reconcile.go:147-152 | a tick on an attached Suspended box with a reattached vm asks compute for a Resume and nothing else |
| `DrainRestart.DrainRestartAttachResumes` | internal/core/box/reconcile.go:191-229 | from a matched state, drain, restart from disk records and attach: the next tick resumes the box Running under the same instance ref, address and tap, with no Provision |
| `DaemonLives.CycleMatchedIff` | providers/compute/microvm/microvm.go:98-140 | rows and vms are matched again after a drain and a restart if and only if no live box that was not asleep when the daemon went down had a snapshot file in its run directory, an old one or one left by the failed Suspend of the drain |
| `DaemonLives.MatchedOverLivesIff` | providers/compute/microvm/microvm.go:98-140 | over any number of lives rows, vms and run directories stay matched in every state if and only if no teardown leaves a reattachable directory, no restart meets such a snapshot file and none skips a record |
| `DaemonLives.AsleepTickIff` | internal/core/box/reconcile.go:128-146 | a tick changes nothing about a persistent Running row whose own vm is suspended, whatever the clock, the host and the owner, if and only if the box is not due to be suspended anyway |
| `DaemonLives.AsleepForTheLife` | internal/core/box/reconcile.go:128-152 | what a stale snapshot does: with no agent report and no destroy request, no attach and no tick wakes such a box for the rest of the life of the daemon |
| `DaemonLives.StaleIsReachable` | providers/compute/microvm/microvm.go:287-305 | the failing run, from an empty daemon: the agent drops, the snapshot call of the drain fails after writing its state file, and after the restart the row is Running over a suspended vm |
| `DaemonLives.EveryLifeResumes` | internal/core/box/reconcile.go:191-229 | in any life of a daemon that started empty and met none of those, drain, restart and attach resume under the same instance ref, address and tap |
| `DaemonLives.LeakedDirectoryOrphans` | providers/compute/microvm/microvm.go:366-381 | a teardown that cannot remove the run directory of a box with a snapshot: the retry deletes the row, and the next restart brings the vm back as the instance of no row |
| `ExecFrames.DecodeEncode` | internal/agentproto/agentproto.go:103-128 | reading an encoded frame gives the frame and exactly the bytes after it |
| `ExecFrames.EncodeDecode` | internal/agentproto/agentproto.go:103-128 | the reader accepts nothing else: what it consumed is the encoding of what it returned |
| `ExecFrames.FrameBytes` | internal/agentproto/agentproto.go:66-99 | the bytes of a frame: type, big-endian length, payload; an exit frame is type 3 with the code as four bytes in two-complement |
| `ExecFrames.ReadsIff` | internal/agentproto/agentproto.go:103-125 | the reader accepts a frame if and only if its whole payload is there, of at most 65536 bytes, of four for type 3 |
| `ExecFrames.StreamRoundTrip` | internal/agentproto/agentproto.go:66-128 | a stream of frames reads back frame by frame |
| `ExecFrames.CutDecodesToPrefix` | internal/agentproto/agentproto.go:103-128 | any cut of the byte stream decodes to the frames that fit whole before the cut, then an error |
| `ExecFrames.ChunksCarry` | cmd/hopbox-agent/main.go:143-161 | chunking loses and adds nothing; every chunk is non-empty and within the frame cap |
| `ExecFrames.ChunkSizes` | cmd/hopbox-agent/main.go:143-159 | every chunk but the last is 32768 bytes of the input in order, the last is what is left |
| `ExecFrames.SessionShape` | cmd/hopbox-agent/main.go:212-222 | a session is data frames and, last, one exit frame |
| `ExecFrames.ExecRoundTrip` | cmd/hopbox-agent/main.go:145-222 | for any interleaving of stdout and stderr writes of any length the reader recovers both concatenations and the int32 code, negative included |
| `ExecFrames.WriteExecData` | internal/agentproto/agentproto.go:68-80 | sends the encoding of the frame, or as much of it as the connection takes; refuses an oversized payload untouched |
| `ExecFrames.WriteExecExit` | internal/agentproto/agentproto.go:92-99 | sends the encoding of the exit code, or as much of it as the connection takes |
| `ExecFrames.ExecWrite` | cmd/hopbox-agent/main.go:145-161 | sends the chunk frames of p in order, or as much of them as the connection takes; total reaches the length of p exactly on success |
| `ExecFrames.Incoming.ReadExecFrame` | internal/agentproto/agentproto.go:103-128 | reads what the specification decoder reads and leaves what it leaves |
| `ExecFrames.TaskOfSession` | internal/mcp/engine_backend.go:156-172 | the read loop of runTask collects all output of both streams in write order, and the code |
| `ExecFrames.TaskTakesBoth` | internal/mcp/engine_backend.go:163-171 | the output is the data of types 1 and 2 and of no other type |
| `ExecFrames.CutTask` | internal/mcp/engine_backend.go:156-172 | a session cut anywhere before its end reads as code 0, whatever the exit code was, with a prefix of the output |
| `ExecFrames.ReadTask` | internal/mcp/engine_backend.go:156-172 | the read loop computes that from the byte stream, code 0 if no exit frame arrives |
| `Streams.UnsizedSized` | internal/agentproto/agentproto.go:132-163 | a length-prefixed frame reads back, leaving the bytes after it |
| `Streams.SizedUnsized` | internal/agentproto/agentproto.go:149-163 | the frame reader accepts nothing but such frames within the cap |
| `Streams.ReadsPieceIff` | internal/agentproto/agentproto.go:149-163 | the reader accepts a frame if and only if its four bytes of big-endian length say at most 65536 and that many bytes are there |
| `Streams.KindTexts` | cmd/hopbox-agent/main.go:122-131 | the texts of the four kinds and the header each is read with; any other text is served as a shell |
| `Streams.StdinBytes` | internal/agentproto/agentproto.go:62-63 | stdin goes out as frames of type 4 and ends with an empty frame of type 5 |
| `Streams.OtherFramesIgnored` | cmd/hopbox-agent/main.go:198-209 | frames of any type but 4 and 5 are passed over by the stdin pump |
| `Streams.OpenedIsServed` | internal/agenthub/agenthub.go:98-167 | for every kind of request the agent serves exactly the request that was opened, on exactly the bytes after it |
| `Streams.StdinCarries` | internal/api/server.go:207-222 | the command is fed the messages before the first oversized one, as far as its stdin takes them, and sees a close frame if and only if no message is oversized and all were taken |
| `Streams.ExecInput` | cmd/hopbox-agent/main.go:165-211 | an exec stream end to end: the command asked for, fed exactly the stdin sent, then the close; an empty command is rejected with code 2 and fed nothing |
| `Streams.WriteFrame` | internal/agentproto/agentproto.go:132-147 | sends the length-prefixed frame, or as much as the connection takes; refuses an oversized one untouched |
| `Streams.Open` | internal/agenthub/agenthub.go:98-167 | sends the opening of the request, or as much as the connection takes; when a frame does not fit it fails after sending at most the frame before it |
| `Streams.ReadFrame` | internal/agentproto/agentproto.go:149-163 | reads what the specification reader reads |
| `Streams.HandleStream` | cmd/hopbox-agent/main.go:115-132 | dispatches as specified, an unknown kind as a shell; drops the stream on a broken frame |
| `Streams.WriteExecStdinClose` | internal/agentproto/agentproto.go:83-89 | sends the encoding of the close frame |
| `Streams.PumpStdin` | cmd/hopbox-agent/main.go:194-211 | feeds what the specification feeds from the byte stream, up to a close frame, the end of the stream or a broken stdin |
| `Routes.HostIsInjective` | providers/ingress/subdomain/subdomain.go:44-46 | hosts are injective in workspace and name for ids of one length |
| `Routes.Ingress.Expose` | providers/ingress/subdomain/subdomain.go:44-60 | adds exactly the route of that workspace and name at the text name, dash, id, dot, zone, and returns that text and its https URL; or fails and changes nothing |
| `Routes.Ingress.Unexpose` | providers/ingress/subdomain/subdomain.go:64-69 | removes that host and nothing else |
| `Routes.Workspaces.UpdateBox` | internal/core/boxstore/boxstore.go:70-77 | a box-view update changes no ingress, home or endpoint of any workspace |
| `Routes.Workspaces.RunPostRunning` | internal/core/boxstore/hooks.go:72-105 | endpoints and routes afterwards, persisted only if every Expose succeeded; fails, changing nothing, for a workspace already gone |
| `Routes.PostRunningStores` | internal/core/boxstore/hooks.go:83-104 | endpoints are stored only when every port lacking one could be exposed, and then one for each in the order asked for, with host and URL in full; a failure stores nothing |
| `Routes.Workspaces.RunPreDestroy` | internal/core/boxstore/hooks.go:109-121 | removes exactly the hosts of the stored endpoints |
| `Routes.ExposeAllAgrees` | internal/core/boxstore/hooks.go:88-100 | exposing the missing ports keeps endpoints and routes in agreement and covers every missing port |
| `Routes.ExposeAllIsLocal` | internal/core/boxstore/hooks.go:88-100 | a host of no name of the workspace is left alone |
| `Routes.PostRunningIsIdempotent` | internal/core/boxstore/hooks.go:69-105 | a second PostRunning exposes and writes nothing |
| `Routes.AgreesIffConsistent` | internal/core/boxstore/hooks.go:88-100 | from a clean start the table can carry all endpoints if and only if ports of one name agree |
| `RouteRuns.AlwaysSound` | internal/core/boxstore/hooks.go:72-121 | over any run, restarts included, every route is the endpoint of a workspace still stored; so a deleted workspace has none |
| `RouteRuns.RoutesAreEndpoints` | internal/core/boxstore/hooks.go:69-121 | in one daemon life the hosts routed to a workspace that is not ending are exactly its stored endpoints, each to its port |
| `RouteRuns.LookupReachesTheWorkspace` | providers/ingress/subdomain/subdomain.go:71-78 | what a gateway lookup meets in one daemon life: the host of a workspace that is not ending leads to that workspace at the port of its endpoint of that name, and nowhere without one; the host of a workspace that is gone leads nowhere |
| `RouteRuns.OnlyHooksDecorate` | internal/core/boxstore/boxstore.go:68-77 | no step but a hook of a tick on the workspace changes its home or endpoints, and none changes its ingress |
| `RouteRuns.HomeIsRecorded` | internal/core/boxstore/hooks.go:40-54 | the home is recorded by every build whose hook succeeds, and by nothing else |
| `RouteRuns.RestartAgreesIff` | internal/core/boxstore/hooks.go:83-104 | after a restart the routes of a surviving workspace agree with its endpoints again if and only if it had none at the restart |
| `RouteRuns.RestartLosesRoutes` | internal/core/boxstore/hooks.go:83-104 | the failing run: a workspace built, connected and exposed, and a restart; it is Running with its endpoint stored, and its host leads nowhere |
| `Usernames.NameIsTheCut` | internal/core/box/spec.go:48-70 | the name an accepted username parses to is its text before the last plus sign, then before the first colon, then before the first tilde |
| `Fleet.PlainNaming` | internal/mcp/engine_backend.go:120-123 | entries free of the separators of the grammar go under their own keys, so distinct keys never clash |
| `Fleet.OneNameIff` | internal/mcp/engine_backend.go:120-123 | two accepted entries name one box if and only if their usernames cut to one name |
| `Fleet.SharedIffOneName` | internal/mcp/engine_backend.go:104-134 | two entries taken by one successful undisturbed Apply end on one id if and only if their usernames cut to one name |
| `Fleet.TildeSharesABox` | internal/mcp/engine_backend.go:120-123 | the failing family: on an empty store Apply puts a key and the key with a trailing tilde on one box |
| `Fleet.RepeatedKeyReturnsTwice` | internal/mcp/engine_backend.go:110-131 | a key given twice for a new name: the same box is returned twice |
| `Fleet.OthersKeepKeys` | internal/mcp/engine_backend.go:125-131 | no run of other steps disturbs the key table: keys keep distinct boxes, each carrying its box name while it lives |
| `Fleet.TakeOne` | internal/mcp/engine_backend.go:92-100 | the Attach of an entry is refused exactly when its username is not accepted, or the name is new and no backend serves it; otherwise it yields the box of that name or a new one |
| `Fleet.EntryText` | internal/mcp/engine_backend.go:120-123 | the username of an entry, and the owner mcp its box goes to |
| `Fleet.MissingIff` | internal/mcp/engine_backend.go:110-119 | an Apply acts on a key if and only if the spec has it, it is not empty, and its recorded box, if any, is not in the fleet |
| `Fleet.ApplyConverges` | internal/mcp/engine_backend.go:104-134 | for distinct keys whose entries to be taken go under names no other key goes under, and whatever others do between entries: on success every non-empty key has a box of its own, the ids returned are exactly those of the keys whose recorded box was absent from the fleet, other keys keep theirs; and it succeeds when the entries to be taken are acceptable |
| `Fleet.FirstApplyConverges` | internal/mcp/engine_backend.go:104-134 | the same for a first Apply of distinct keys whose usernames cut to pairwise distinct names |
| `Fleet.ApplySplits` | internal/mcp/engine_backend.go:110-131 | an Apply is its entries one after another, each against whatever others made of the rows by then |
| `Fleet.RepeatCreatesNothing` | internal/mcp/engine_backend.go:114-119 | with every key box in the fleet Apply creates and records nothing |
| `Fleet.ApplyTwice` | internal/mcp/engine_backend.go:104-134 | a repeat after a successful Apply creates nothing |
| `Fleet.EngineBackend.ListFleet` | internal/mcp/engine_backend.go:55-72 | the ids of the tenant rows |
| `Fleet.EngineBackend.ApplyEntry` | internal/mcp/engine_backend.go:110-131 | one entry, from any rows and keys: the specified rows, keys and returned ids |
| `Fleet.EngineBackend.Apply` | internal/mcp/engine_backend.go:104-134 | the loop computes the specified convergence of rows, keys and returned ids, and keeps names unique |

## Left out

- Interleavings inside one read-modify-write: Attach, release, sink and ReconcileOne read a row and later write it whole with no lock or version, so the statements hold for atomic steps only; the hub's report to its sink is atomic with its map change here for the same reason.
- Sessions.AttachedIffOpen: assumes sessions on one box do not overlap, because Attached is one flag; FlagsRightIff gives the exact condition over runs and OverlapDetaches a failing run.
- Progress.ReapIsBounded: says nothing of a box whose agent never connects, because lifetime is evaluated only in Running.
- Safety.NeverAnOrphan: rests on the port contract; OrphanIffLeftBehind says exactly when a failed start breaks it. Its restart only drops instances: a microVM brought back from a leaked run directory as the instance of no row is outside it, and DaemonLives states when that happens.
- Engines.Engine.Mutate: any row at the caller's address may be the one changed, because updated_at, by which the source picks the latest, is not modelled.
- MicroVM.Conservation: stated for runs that never re-provision a ref still in the map; ConservedIff gives the exact condition.
- MicroVM.Provider.Suspend: a vm left paused by a failed snapshot call is not told apart from a running one.
- MicroVM.Provider.Destroy: requires the process handle a reattached vm lacks until it is resumed, because the source dereferences it.
- Fleet.EngineBackend.Apply: runs its entries back to back; ApplyEntry starts from any state, and ApplySplits and ApplyConverges allow any steps of others in between.
- Fleet.ApplyConverges: for distinct keys under distinct names; RepeatedKeyReturnsTwice shows what a repeated key does, and SharedIffOneName says exactly when two keys share a box.
- MicroVM.AddressSafety: needs reattachable records at distinct addresses, which earlier lives guarantee exactly as Lives.LivesKeptIff says.
- Addresses.VmNet.ReserveIP: reads IPv4 text only; the source also reads IPv4-mapped IPv6 text, which no address it makes is.
- Addresses.VmNet.FreeIP: the same.
- DrainRestart.AlwaysMatched: a Destroy of a vm reattached and not yet resumed ends the source's daemon; here it answers an error and the run goes on.
- RouteRuns.RoutesAreEndpoints: for one daemon life and for ports of one name agreeing; RestartAgreesIff and Routes.AgreesIffConsistent say exactly what happens otherwise.
- Ids are assumed fresh (eight random bytes); database and network errors of the store are not modelled.
- Row fields that no modelled decision reads: memory and CPU caps, flavors, bootstrap token, message, agent self-report, updated_at. Durations in metadata commands arrive already parsed.
- Restart after a non-graceful exit trusts any snapshot file found; whether that snapshot is current is outside the model.
- The 15-character limit on interface names.
- Which error a truncated frame reports, and JSON itself, which is a codec parameter; handlers past the header (pty, port forwarding, SSH server).
- The overlay of delegated commands, surfaces and change notification of the MCP backend; Spawn and Delegate.
- Docker, Kubernetes, Firecracker API, iptables, device mapper, SQL, yamux, SSH, gRPC, TLS, OIDC, CLI, configuration and plugin plumbing: foreign calls or thin wrappers.
