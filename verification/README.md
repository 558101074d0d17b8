# A model of unit storage, mirroring and sign-in

The program keeps tracked units, serves them to clients, and mirrors the units
of other instances. This Dafny project models the parts of it whose behaviour is
hardest to see from one function, and proves what they promise. `dafny verify
dfyconfig.toml` checks all of it.

## What is modelled

**The store** (`UnitFields`, `History`, `Store`, `StoreLaws`, `EventLaws`,
`LocalWrites`, `Ownership`). `Store.Service` is the unit service: units with
unique names, each local or owned by one sync remote, a position history, and the
events it publishes. Each of its methods is one transaction followed by its event,
and is proved against a function on database states. The laws are about every run
of those functions: constraints and normal form, history and current position,
replaying the events, whose name is put to a change, and who may change a unit.

**Mirroring** (`Passes`, `Worker`, `Waiting`, `RepeatedPasses`, `Mirroring`,
`Refinement`, `Convergence`, `StaleReplay`, `Network`). `Worker.Worker` is the
worker of one remote with the two loops of a full pass. `RepeatedPasses` is about
passing over one listing again and again, and `Waiting` about the names that units
wait for.
`Mirroring` is the whole protocol as a state machine: the remote changes, the
stream connects, delivers and breaks, passes list a version and upsert it unit by
unit, and other operations come in between anywhere. `Refinement` says that the
worker's methods do what its actions do. `Convergence` joins passes and protocol,
and `StaleReplay` is the run in which the protocol fails. `Network` lets any number
of instances mirror one another.

**Broker, manager, limiter, SSO** (`Broker`; `Manager`, `Lifecycle`; `RateLimit`;
`SsoAccounts`, `SsoLaws`, `SsoService`). The bounded fan-out of events and the
handler that forwards one subscription; the workers' life cycle under concurrent
reconciles; the login failure limiter against a plain log of failures, together
with the sign-in handler that uses it; and the accounts, groups and roles that
sign-ins at an SSO provider, access tokens and administrators change.

Classes model what the program changes in place; their methods are proved against
functions or predicates on values, and the theorems are about those.

## What the source's own words get wrong

- `CleanupHistory` (internal/units/units.go:289-291) says that keeping each
  unit's newest entry keeps its current position in the history. Newest is by
  measurement time, and any time may be set: `StoreLaws.CleanupCanDropCurrent` is
  a run where it fails, `StoreLaws.CleanupKeepsRecordedIff` says exactly when it
  holds, and `StoreLaws.NewestStaysCurrent` that it always does while positions
  arrive in the order they were measured.
- The worker's mutex (internal/remotesync/worker.go:45-47) keeps a pass from
  overwriting a newer event. It does not keep older events from being applied
  over a newer pass: the mirror then goes back, names can block each other on the
  way forward, and the mirror can end up differing for good although the stream
  was up all the time. `StaleReplay.StaleEventsCanDiverge` is such a run of the
  protocol; `Mirroring.DrainedMirrorAgreesIff` says exactly which units differ once
  the stream is drained.
- A request for a pass is not repeated when the remote's listing fails
  (internal/remotesync/worker.go:87-101); the next poll, reconnect or request by
  hand makes up for it (`Mirroring.FailedListingWaitsForPoll`). A connection is
  caught up exactly once a listing no older than it was got
  (`Mirroring.CaughtUpExactlyIf`).
- Full passes are the fallback that is to catch up on whatever was missed
  (internal/remotesync/worker.go:54-58), but units that want each other's names
  block each other in every pass, however the mirror came to that: by renames while
  the stream was down, or by the replay just mentioned.
  `Convergence.PassesHealUnitIff` says exactly which units passes bring to the
  remote's state, from every reachable state.
- `stopAll` does not take `reconcileMu` (internal/remotesync/manager.go:186-197).
  It follows the ticker's reconciles, but can meet one of a create, update or
  delete between its sections, so the rule that a worker is waited for before its
  successor starts (internal/remotesync/manager.go:150-151) ends with shutdown
  (`Lifecycle.ShutdownCanOverlap`); `Lifecycle.AlwaysApartIff` gives the exact
  condition.
- The role of SSO accounts is locked only when sign-in at the provider is set up
  (internal/auth/oidc.go:94). Access tokens can be accepted without it
  (internal/auth/access_token.go:74-108): they sync the role too, but leave it open
  to changes by hand (`SsoLaws.RolesMatchExactlyIf`).
- An administrator cannot give up the role or delete the own account, so that the
  last one cannot lock everyone out (internal/server/user_handlers.go:94-98). With
  an admin group set, a sign-in without that group still ends the role of the last
  administrator; `SsoLaws.AdminRemainsExactlyIf` says exactly when there always is
  one.

## Assumptions

- Operations on one store come one after the other. The program locks rows inside
  transactions, which makes each operation atomic, but publishes its event after
  the commit (internal/units/units.go:204-206, internal/units/sync.go:66-74); here
  committing and publishing are one step. Between operations every interleaving is
  allowed.
- A version of a remote is the number of events it has published, and a listing is
  the store at one version.
- A clock never runs backwards (`RateLimit`), and account operations are not
  interleaved with each other (`SsoLaws`, `SsoService`).
- Ids that the program draws at random (units, remotes, accounts' suffixes) are
  parameters; unit and remote ids are numbers.

## Model

| member | source | states |
|---|---|---|
| `UnitFields.NormalizeParts` | internal/units/units.go:432-476 | Trimming and checking a symbol or tactical name part by part yields nothing for one without parts, the trimmed parts otherwise, and the kind's own error at the first bad part. |
| `UnitFields.Apply` | internal/units/units.go:394-428 | The stored form of an input, or the error of its first bad field in the order name, symbol, tactical name, position. |
| `UnitFields.AppliedExactly` | internal/units/units.go:394-476 | What is stored of each field, and which error is reported, for every input: the name trimmed and of 1 to 64 characters, parts trimmed and allowed or dropped when all are empty, the position at the same instant in UTC. |
| `UnitFields.ValidPositionsAre` | internal/units/units.go:417-487 | Exactly the positions with finite values in their ranges are valid; no infinity or NaN is. |
| `UnitFields.TrimCuts` | internal/units/units.go:395 | Trimming cuts white space off both ends, only white space, and all of it. |
| `UnitFields.NormalForms` | internal/units/units.go:394-476 | Every applied input is in normal form, and the normal forms are exactly the inputs that applying leaves alone. |
| `UnitFields.SameIsEqual` | internal/units/units.go:239-254 | Between stored units `Changed` is empty exactly for equal fields, and `samePosition` is equality. |
| `UnitFields.ChangedExactly` | internal/units/units.go:239-254 | Between stored units exactly the fields that differ are reported as changed. |
| `UnitFields.SamePositionOfNaN` | internal/units/units.go:355-366 | Outside the normal form `samePosition` is not reflexive: a NaN coordinate differs from itself. |
| `UnitFields.EditsCommute` | internal/server/unit_handlers.go:173-205 | Two edits of disjoint fields succeed in one order exactly if they do in the other, and then yield the same fields. |
| `UnitFields.PatchCommutesWithPosition` | internal/server/unit_handlers.go:194-204 | A patch request and a position change succeed in both orders or in neither, with the same result. |
| `UnitFields.PatchOverwrites` | internal/server/unit_handlers.go:173-205 | A patch request overwrites exactly the fields it names, each with its stored form, and leaves the others; a null name is refused. |
| `UnitFields.UpdateOverwrites` | internal/units/units.go:130-139 | An update overwrites every field but the position. |
| `UnitFields.SetPositionOverwrites` | internal/units/units.go:141-147 | Setting the position overwrites the position alone. |
| `UnitFields.UpdateKeepsPosition` | internal/units/units.go:130-139 | Update never alters the position, whatever position its input carries. |
| `UnitFields.MirrorReproduces` | internal/remotesync/client.go:154-164 | Serving a stored unit and mirroring what was served reproduces its fields exactly. |
| `UnitFields.ServedAgainIff` | internal/remotesync/client.go:154-164 | Mirroring what was served and serving it again gives the same exactly if its position, if any, has a timestamp; otherwise the position is dropped. |
| `History.NewestIsNewest` | internal/units/units.go:317-318 | The newest entry is the first of its unit by measurement time, then by id, both descending. |
| `History.NewestOfCleaned` | internal/units/units.go:310-319 | A cleanup with any cutoff keeps every unit's newest entry as its newest. |
| `History.OthersWithout` | internal/models/models.go:147-153 | Deleting a unit's history leaves every other unit's entries and their order. |
| `Store.Service.RecordPosition` | internal/units/units.go:326-351 | Appends exactly the unit's current position, and nothing for a unit without one. |
| `Store.Service.Create` | internal/units/units.go:107-128 | The whole new state of a create, or the error with nothing changed. |
| `Store.Service.Patch` | internal/units/units.go:154-208 | The whole new state of a patch: fields, updater, history entry and event, or nothing when refused or when no field changes. |
| `Store.Service.Update` | internal/units/units.go:133-139 | An update leaves the trimmed name, the stored form of the given symbol and tactical name, and the position as it was. |
| `Store.Service.SetPosition` | internal/units/units.go:144-147 | Setting a position stores it in UTC and leaves every other field. |
| `Store.Service.Delete` | internal/units/units.go:212-226 | A local unit goes with its history and a deleted event; a mirrored or unknown one is refused. |
| `Store.Service.UpsertSynced` | internal/units/sync.go:22-76 | The whole new state of mirroring a unit, or the reason it is refused with nothing changed. |
| `Store.Service.DeleteSynced` | internal/units/sync.go:80-90 | Deletes exactly a unit mirrored from this remote, with its history and an event. |
| `Store.Service.SyncedIds` | internal/units/sync.go:93-100 | Exactly the ids mirrored from the remote, each once. |
| `Store.Service.RemoveRemote` | internal/models/models.go:98-102 | Deleting a remote turns exactly its units into local ones and changes nothing else of them. |
| `Store.Service.DeleteHistoryBefore` | internal/units/units.go:312-324 | Removes the entries before the cutoff but each unit's newest, and counts them. |
| `Store.Service.Backfill` | internal/database/database.go:66-77 | Inserts one entry for each positioned unit without history, after which none is left. |
| `LocalWrites.CreateAnswer` | internal/units/units.go:107-128 | A create succeeds exactly for good fields under a new id and a free name, stores those fields as a local unit, and otherwise changes nothing. |
| `LocalWrites.PatchAnswer` | internal/units/units.go:154-208 | Every answer of a patch, exactly: unknown, mirrored, bad fields, a held name, or the unit with the patched fields and the fields that differ. |
| `LocalWrites.DeleteAnswer` | internal/units/units.go:212-226 | A delete takes exactly a local unit with its history, tells it, and answers with the unit as it was. |
| `LocalWrites.StepIsAttributed` | internal/units/units.go:326-351 | Every operation but a cleanup adds to the history of each unit exactly the new position it gave it, under the name of its user, and only a user's change of a field becomes the last update. |
| `LocalWrites.RemotesChange` | internal/models/models.go:98-102 | Exactly adding and removing a remote changes which remotes there are. |
| `StoreLaws.StepKeepsValid` | internal/units/units.go:107-226 | Every operation keeps: unique names, normal fields, stored owners, and a newest entry that is the position or was measured after it. |
| `StoreLaws.RunKeepsValid` | internal/units/units.go:107-226 | The same over every run of local, synced and maintenance operations. |
| `StoreLaws.RepeatingChangesNothing` | internal/units/units.go:149-153 | In every reachable store an identity patch, and mirroring again what a unit has, write, record and publish nothing. |
| `StoreLaws.PatchesCommute` | internal/units/units.go:149-151 | Two operations on disjoint fields succeed in one order exactly if they do in the other, and then leave the same fields. |
| `StoreLaws.BackfillFindsNothing` | internal/database/database.go:66-74 | In every reachable store the startup backfill has nothing to insert. |
| `StoreLaws.NewestIsCurrentIff` | internal/units/units.go:326-351 | In every reachable store the newest entry is the current position exactly if no entry of the unit was measured later. |
| `StoreLaws.NewestStaysCurrent` | internal/units/units.go:289-291 | While positions arrive in the order of measurement the newest entry is the current position, over every run with cleanups. |
| `StoreLaws.CleanupKeepsRecordedIff` | internal/units/units.go:289-319 | A cleanup leaves the current position in the history exactly if it is not before the cutoff or is the newest entry. |
| `StoreLaws.CleanupCanDropCurrent` | internal/units/units.go:289-291 | A run of three operations after which a cleanup drops the current position from the history. |
| `EventLaws.StepPublishesIff` | internal/units/units.go:174-206 | A step publishes nothing exactly if it changes no editable field. |
| `EventLaws.StepTells` | internal/units/sync.go:63-90 | A step publishes at most one event, of the kind that fits, and it tells the whole change of the listing. |
| `EventLaws.RunReplays` | internal/units/units.go:81-85 | The events since a subscription, replayed over the listing at the subscription, give the listing now, for every run. |
| `Ownership.StepLeavesOthers` | internal/units/sync.go:15-43 | A step that the unit's owner does not allow leaves the unit and its history. |
| `Ownership.RunLeavesOthers` | internal/units/sync.go:41-43 | The same over every run. |
| `Ownership.LocalUnitsAreNeverSynced` | internal/units/sync.go:19-21 | No run of sync steps touches a local unit or its history. |
| `Ownership.OwnerOnlyBecomesLocal` | internal/models/models.go:98-102 | An owner only ever changes to none, and only when that remote is removed. |
| `Ownership.RemovedRemoteIsInert` | internal/models/models.go:98-102 | Removing a remote keeps its units and the history, and the later steps of its worker, in between any others, change nothing of any run. |
| `Passes.UpsertEffect` | internal/units/sync.go:22-76 | An upsert takes over the fields or changes nothing, and touches no other unit; it is refused as not mirrored, and succeeds, exactly under the stated conditions. |
| `Passes.UpsertAnswer` | internal/units/sync.go:22-76 | Every answer of an upsert, exactly: someone else's unit, bad fields, a held name, a missing remote, or success and whether anything changed. |
| `Passes.UpsertedUnit` | internal/remotesync/worker.go:115-133 | After the upserts of a pass without errors a unit that is not someone else's has the fields of its last listed occurrence. |
| `Passes.ExactPass` | internal/remotesync/worker.go:103-154 | A pass without errors ends with exactly the listed units that are not someone else's; every other unit and its history is as before. |
| `Worker.NoErrorsIsErrorFree` | internal/remotesync/worker.go:119-132 | A pass reports no error exactly if every attempt succeeded or met a unit that is not the remote's. |
| `Worker.ErrorsExactly` | internal/remotesync/worker.go:119-132 | Exactly the failures of the attempts are reported, each with its unit, but not the units of someone else. |
| `Worker.ErrorsAreInOrder` | internal/remotesync/worker.go:115-133 | The reported errors come in the order of the listing. |
| `Worker.PassPublishes` | internal/remotesync/worker.go:103-154 | A pass publishes exactly as many events as it reports changes and deletions. |
| `Worker.EventEffect` | internal/remotesync/worker.go:206-228 | A pushed deletion ends the mirroring of exactly that unit and is told on; a pushed unit is taken over unless one of the four reasons stands against it; anything else changes nothing. |
| `Worker.Worker.RequestSync` | internal/remotesync/worker.go:76-84 | Leaves the trigger full and says whether it was empty. |
| `Worker.Worker.SyncOnce` | internal/remotesync/worker.go:106-154 | Store, errors in order, and both counts of a pass; a failed listing changes nothing. |
| `Worker.Worker.UpsertListed` | internal/remotesync/worker.go:115-133 | The first loop upserts every listed unit in order, whatever fails, and collects ids, errors and count. |
| `Worker.Worker.DeleteUnlisted` | internal/remotesync/worker.go:139-149 | The second loop deletes exactly the mirrored units that were not listed, and counts them. |
| `Worker.Worker.Follow` | internal/remotesync/worker.go:176-203 | A connection requests a pass and applies its events in order, each as `Worker.EventEffect` says. |
| `Worker.Worker.ApplyEvent` | internal/remotesync/worker.go:206-228 | A pushed unit is taken over, a pushed deletion ends the mirroring of that unit, anything else does nothing; and which failures count. |
| `Waiting.DeadlockIffCycle` | internal/units/sync.go:48-57 | Units that all wait for one another's names exist exactly if there is a rename cycle. |
| `Waiting.StuckIffDeadlocked` | internal/units/sync.go:48-57 | A unit is among such units exactly if its chain of waiting ends in a cycle. |
| `RepeatedPasses.PassProgress` | internal/remotesync/worker.go:115-149 | A pass keeps what agrees, leaves what does not come to agree, and ends with listed units only. |
| `RepeatedPasses.DisagreementFalls` | internal/remotesync/worker.go:115-149 | From the second pass on the set of disagreeing units strictly shrinks, unless all of them wait for one another. |
| `RepeatedPasses.CycleNeverMoves` | internal/models/models.go:76 | Units on a rename cycle are unchanged by any number of passes. |
| `RepeatedPasses.DeadlockNeverMoves` | internal/models/models.go:76 | So is every unit that waits for such a cycle. |
| `RepeatedPasses.UnitReachesListingIff` | internal/remotesync/worker.go:103-154 | More passes than listed units bring a unit to what is listed, or away, exactly if its chain of waiting does not end in a cycle. |
| `RepeatedPasses.PassesReachListingIff` | internal/remotesync/worker.go:103-154 | More passes than listed units reach the listing exactly if there is no rename cycle. |
| `RepeatedPasses.PassesCanBeMade` | internal/remotesync/worker.go:136-149 | From any store any number of passes can be made, so that the statements about them are not empty. |
| `Mirroring.NextKeepsInv` | internal/remotesync/worker.go:45-53 | Every action of the protocol keeps its invariant. |
| `Mirroring.RunsKeepInv` | internal/remotesync/worker.go:45-53 | The invariant over every interleaving. |
| `Mirroring.MirrorIsBetween` | internal/remotesync/worker.go:45-49 | After a pass of the connection each unit not missed has the fields of some version between the last applied event and the snapshot of that pass or of one under way. |
| `Mirroring.DrainedMirrorAgreesIff` | internal/remotesync/worker.go:54-58 | With the stream drained a unit agrees with the remote exactly if the last attempt at it met neither someone else's unit nor a held name. |
| `Mirroring.MissedExactlyIf` | internal/units/sync.go:41-57 | An attempt is refused exactly for someone else's unit or a held name. |
| `Mirroring.CaughtUpExactlyIf` | internal/remotesync/worker.go:161-192 | Between passes a connection has been caught up by a pass no older than it exactly if a listing no older than it was got. |
| `Mirroring.NoResyncIsLost` | internal/remotesync/worker.go:161-192 | An idle worker with no request left has caught the connection up, unless every listing during it failed. |
| `Mirroring.FailedListingWaitsForPoll` | internal/remotesync/worker.go:110-113 | A request whose listing fails is used up and leaves the connection without a pass. |
| `Refinement.FollowsProtocol` | internal/remotesync/worker.go:176-203 | Whatever the remote does while a connection delivers, the protocol's store is what the worker's Follow makes of the events the remote published next. |
| `Refinement.PassFollowsProtocol` | internal/remotesync/worker.go:103-154 | The protocol's actions of an uninterrupted pass leave the store as the worker's SyncOnce does on the remote's listing. |
| `Convergence.PassesHealUnitIff` | internal/remotesync/worker.go:103-154 | In every reachable state, with nobody else's unit in the way, passes over the remote's units bring a unit to what it is there exactly if its chain of waiting does not end in a cycle. |
| `Convergence.PassesHealIff` | internal/remotesync/worker.go:103-154 | And the whole mirror exactly if there is no rename cycle between it and the remote. |
| `StaleReplay.StaleEventsCanDiverge` | internal/remotesync/worker.go:45-47 | A run with the stream up throughout and nobody else changing anything here ends with a completed pass, a drained stream and a rename cycle that no number of passes heals. |
| `Network.NextKeepsInv` | internal/units/sync.go:15-21 | Every step of a network of instances keeps its invariant. |
| `Network.OnlyOriginValues` | internal/units/sync.go:19-43 | Every copy, published event and listed value in flight is one the unit had at its origin, whatever remotes are pointed elsewhere. |
| `Network.SyncLeavesOrigins` | internal/units/sync.go:19-43 | No sync step and no change of a base URL alters a unit at its origin. |
| `Network.OriginsStay` | internal/units/sync.go:19-43 | At its origin a unit stays, as a local one. |
| `Network.PassDeletesNothing` | internal/remotesync/worker.go:136-149 | While no remote was pointed elsewhere, no pass deletes a mirrored unit. |
| `Network.PassDeletesExactly` | internal/remotesync/worker.go:136-149 | In any case a pass deletes exactly the units of its remote that it did not list. |
| `Network.NothingDisappears` | internal/remotesync/worker.go:120-149 | While no remote is pointed elsewhere, a unit stays on every instance that has it. |
| `Broker.Channel.TrySend` | internal/units/events.go:61-64 | Sends exactly if fewer than 64 events are buffered; only an open channel is sent to. |
| `Broker.Broker.Subscribe` | internal/units/events.go:44-54 | Adds one new, empty, open channel. |
| `Broker.Broker.Publish` | internal/units/events.go:57-67 | Every subscriber gets the event or, its buffer being full, is closed and dropped; nobody else is touched. |
| `Broker.Broker.Remove` | internal/units/events.go:69-75 | Closes a subscribed channel once; a second time does nothing. |
| `Broker.StreamLaw` | internal/units/events.go:40-67 | In every interleaving received and buffered events are those published since the subscription while it lasts, and a gap-free beginning afterwards. |
| `Broker.SubscriberGets` | internal/units/events.go:40-67 | A subscriber gets the events published after it subscribed, from the first on: all while it is subscribed, and a gap-free beginning afterwards. |
| `Broker.CanceledGetsNothing` | internal/units/events.go:69-75 | After a subscriber has canceled nothing more comes to it. |
| `Broker.ClientSeesPrefix` | internal/server/unit_events.go:82-110 | A client gets an unbroken beginning of the events; it is told it is too slow only after 64 of them and after missing one. |
| `Broker.DroppedExactlyIf` | internal/units/events.go:26-28 | A subscriber is dropped exactly if some publish finds it 64 events behind. |
| `Broker.DroppedIsTold` | internal/server/unit_events.go:100-105 | A dropped subscriber whose client goes on reading gets everything buffered and is then told that it is too slow. |
| `Manager.Manager.Reconcile` | internal/remotesync/manager.go:118-163 | Afterwards the workers are exactly those of the enabled remotes; a worker stays exactly if its URL and interval did; a failed listing changes nothing. |
| `Manager.Manager.StopSection` | internal/remotesync/manager.go:136-148 | Cancels and forgets exactly the workers of gone, disabled or reconnected remotes and renames the others. |
| `Manager.StopsExactly` | internal/remotesync/manager.go:136-148 | The first section keeps exactly the workers whose remote is still wanted at the same URL and interval, with what they connected with; the others are canceled. |
| `Manager.ReconciledExactly` | internal/remotesync/manager.go:118-163 | Over a whole reconcile a worker stays exactly if its remote is still wanted at the same URL and interval, and has otherwise ended; new ones have the listed settings. |
| `Manager.Manager.StartSection` | internal/remotesync/manager.go:156-162 | Starts exactly one worker for each desired remote without one. |
| `Manager.Manager.EnabledRemotes` | internal/remotesync/manager.go:129-134 | The links of exactly the enabled remotes. |
| `Lifecycle.RunKeepsInv` | internal/remotesync/manager.go:118-163 | The invariant of the reconciles over every interleaving before shutdown. |
| `Lifecycle.AtMostOneWorker` | internal/remotesync/manager.go:150-154 | Never are two workers of one remote running, canceled or not. |
| `Lifecycle.ReconcileAgrees` | internal/remotesync/manager.go:115-163 | With no call in progress and the last listing successful, the running workers are those of the enabled stored remotes with the stored settings. |
| `Lifecycle.RunKeepsSettings` | internal/remotesync/manager.go:140-146 | Over every run with shutdowns a worker has the URL and interval it was started with for as long as it runs. |
| `Lifecycle.LastWriteDecides` | internal/remotesync/manager.go:115-163 | The last create, update or delete of a remote decides whether it has a worker, and with which settings, once no call is in progress and the last listing succeeded. |
| `Lifecycle.ShutdownCanOverlap` | internal/remotesync/manager.go:186-197 | A shutdown during a call's reconcile lets two workers of one remote run. |
| `Lifecycle.AlwaysApartIff` | internal/remotesync/manager.go:118-197 | Over every run with shutdowns, no two workers of one remote ever run together exactly if no second section meets a forgotten, still running worker of a remote it is to start. |
| `Lifecycle.ShutdownDoublesIff` | internal/remotesync/manager.go:186-197 | A shutdown right before the second section doubles exactly the workers the reconcile meant to keep. |
| `RateLimit.FailureLimiter.RetryAfter` | internal/server/ratelimit.go:41-49 | The answer with its two clock readings, from the stored times. |
| `RateLimit.FailureLimiter.Fail` | internal/server/ratelimit.go:52-68 | Sweeps when large, drops, appends and truncates. |
| `RateLimit.FailureLimiter.Sweep` | internal/server/ratelimit.go:57-61 | Forgets exactly the keys whose failures all left the window. |
| `RateLimit.FailureLimiter.RecentFailures` | internal/server/ratelimit.go:79-85 | The stored times without those that left the window at the front. |
| `RateLimit.RetryIsWait` | internal/server/ratelimit.go:41-85 | After every run of calls the answer is that of the plain log of all failures since the last reset. |
| `RateLimit.StorageIsBounded` | internal/server/ratelimit.go:52-68 | Per key no more times are kept than the limit, and a failure among too many keys leaves exactly those that failed within the window. |
| `RateLimit.WaitUnblocks` | internal/server/ratelimit.go:40-48 | The waiting time is exactly how long the key stays blocked if nothing fails. |
| `RateLimit.LoginHandler.HandleLogin` | internal/server/auth_handlers.go:84-119 | Checks both limiters, then the password, then records or resets; whoever is let through is signed in exactly for a correct check. |
| `RateLimit.RefusedExactlyIf` | internal/server/auth_handlers.go:94-104 | A request is refused exactly if the plain log of its address or of its username is at the limit. |
| `RateLimit.LogsAreFailures` | internal/server/auth_handlers.go:106-119 | The limiters' logs are exactly the failed password checks of an address, and of a username since its last correct one. |
| `RateLimit.AnswersExactly` | internal/server/auth_handlers.go:94-127 | Every answer from the failed checks alone: refused for the longer wait while one of the two is used up, and otherwise what the password check says. |
| `RateLimit.FailuresAreBounded` | internal/server/ratelimit.go:8-17 | Any window holds at most ten failed password checks of an address, and of a username since its last correct one. |
| `SsoAccounts.ParseGroupsIsCanonical` | internal/auth/oidc.go:216-231 | Parsed groups are ascending, distinct and not empty, and two claims parse alike exactly if they name the same groups. |
| `SsoAccounts.ParseGroupsExactly` | internal/auth/oidc.go:216-231 | Parsing yields exactly the non-empty names of the claim in ascending order; only what is no list, string or null is an error. |
| `SsoAccounts.SingleIsList` | internal/auth/oidc.go:216-231 | A string is read as a list of one, and null as an empty list. |
| `SsoLaws.EnsuredGroups` | internal/auth/oidc.go:299-325 | Every name has exactly one group afterwards; no group is removed or renamed. |
| `SsoLaws.SyncEffect` | internal/auth/oidc.go:254-297 | The user is in exactly the given groups with the role they grant; nobody else changes and no group goes. |
| `SsoLaws.SignInEffect` | internal/auth/oidc.go:239-297 | After a browser sign-in the account with that subject is in exactly the groups the token names, and an administrator exactly if the admin group is one of them; nobody else changes, and a refusal changes nothing. |
| `SsoLaws.UseTokenEffect` | internal/auth/access_token.go:145-163 | An access token with the groups claim does the same; without it the account's groups and role stay. |
| `SsoLaws.NewAccount` | internal/auth/oidc.go:336-401 | A first sign-in creates an account without the role under the first choice of preferred name, email and subject, or with one of two random ends, and fails only if all three are taken. |
| `SsoLaws.FirstEntry` | internal/auth/oidc.go:336-401 | Whoever comes with a new subject, in the browser or with an access token, gets an account with the token's issuer and subject, the time, and the first free of the three names. |
| `SsoLaws.StepKeepsWellFormed` | internal/auth/oidc.go:254-376 | Usernames and group names stay unique, memberships stay between users and groups. |
| `SsoLaws.RunKeepsInv` | internal/auth/oidc.go:233-238 | Over every run each SSO account is an administrator exactly if the admin group is among its groups. |
| `SsoLaws.RolesMatchExactlyIf` | internal/server/user_handlers.go:104-109 | With an admin group set, that holds over all runs exactly if sign-in at the provider is set up or access tokens are not accepted. |
| `SsoLaws.LinkedExactlyIf` | internal/auth/oidc.go:327-351 | An account is found exactly if one has the subject, and it is the oldest. |
| `SsoLaws.SubjectKeepsAccount` | internal/auth/oidc.go:327-335 | A subject goes on signing in to the account of its first time, by any way and issuer, over every run that does not delete it. |
| `SsoLaws.AdminRemainsExactlyIf` | internal/server/user_handlers.go:94-98 | Over every run, once there is an administrator there always is one, exactly if no group grants the role or nobody signs in by SSO. |
| `SsoLaws.OnlyAdminsAct` | internal/server/server.go:86-88 | Nobody but an administrator changes accounts by hand. |
| `SsoLaws.UpdateUserAnswer` | internal/server/user_handlers.go:84-114 | Every answer to a role change by an administrator, and that it changes that role alone. |
| `SsoLaws.DeleteUserAnswer` | internal/server/user_handlers.go:129-150 | An administrator deletes any account but their own, with its memberships, and nothing else. |
| `SsoLaws.CreateUserAnswer` | internal/server/user_handlers.go:66-82 | A new local account has the trimmed name and the role asked for; it is refused exactly for a name that does not fit or is taken. |
| `SsoLaws.EnsureAdminAnswer` | internal/auth/auth.go:78-103 | The startup creates an administrator exactly if there is none and the name can be had, and never changes an account. |
| `SsoService.AuthService.EnsureGroups` | internal/auth/oidc.go:301-325 | Returns the groups of the given names, creating exactly the missing ones; counting the found ones decides whether any is missing. |
| `SsoService.AuthService.SyncGroups` | internal/auth/oidc.go:257-297 | Memberships, groups and role after a sync. |
| `SsoService.AuthService.Find` | internal/auth/oidc.go:337-347 | The oldest account of the subject. |
| `SsoService.AuthService.UserForIdentity` | internal/auth/oidc.go:336-376 | Finds the account or creates it under the first free of three names. |
| `SsoService.AuthService.LoginOidc` | internal/auth/oidc.go:239-251 | A browser sign-in resolves the account; it is then in exactly the groups the token names, with their role. |
| `SsoService.AuthService.UserForAccessToken` | internal/auth/access_token.go:145-163 | The same for an access token that carries the claim; without it groups and role stay. |
| `SsoService.AuthService.HandleUpdateUser` | internal/server/user_handlers.go:84-114 | The role change by hand with its four refusals. |

## Left out

- Mirroring.MirrorIsBetween: says nothing of missed units, which hold whatever they held when their last attempt was refused.
- Lifecycle.ReconcileAgrees: speaks of runs before shutdown and of listings that succeed; after a failed listing the next successful one restores it.
- Network.OnlyOriginValues: covers runs in which nobody deletes a unit or a remote by hand, since a unit deleted at its origin can be listed again by a peer that has not heard of it.
- Network.PassDeletesNothing: supposes that no remote's base URL was changed to another instance; otherwise a pass deletes what the new instance does not list, as `Network.PassDeletesExactly` says.
- Network.NothingDisappears: supposes the same.
- SsoLaws.RunKeepsInv: the role invariant takes account operations one at a time, so it does not cover a role change by hand that overlaps a sign-in of the same account.
- Concurrent writers on one store whose events are published in another order than they commit.
- Created-at and updated-at times, and the times of the last sync of a remote.
- PostgreSQL: the order in which several violated constraints are reported, the microsecond precision of stored times, collation, and failing queries.
- The flat position columns, which are an optional position here; latitude and longitude are always set together by the code.
- Go's saturation of very large durations, the rounding of the Retry-After header, and how address and username become limiter keys (internal/server/auth_handlers.go:94-99).
- Characters are counted one per code point; strings that are not valid UTF-8 do not occur.
- The parsing of JSON bodies, WebSocket frames, pings, timeouts, backoff and jitter; a connection delivers in order and may fail, a listing may fail.
- `position` (internal/server/unit_handlers.go:146-155) stamping a position with the current time, and the history query with its limits.
- Verification of ID and access tokens, passwords, sessions, and the cache of verified access tokens, which changes no account.
- The manager's validation of remotes, its logs and status records, and the manual trigger, which is one more request for a pass.
- A listing whose deletions fail: `SyncedIDs` and `DeleteSynced` fail only with the database.
