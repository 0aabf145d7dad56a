# iroh-proxy: a verified model

iroh-proxy carries TCP connections over QUIC: a daemon serves local TCP targets under
named ALPNs, binds local listeners that forward to services of remote daemons, keeps its
rules in a TOML file and takes control calls from a command-line client and a dashboard.
This project models the parts of it that keep state, interleave or compute, and proves
what they promise for every input, every run and every interleaving.

`dafny verify dfyconfig.toml` checks everything (Dafny 4.11).

| module | models |
|---|---|
| `Gregorian`, `Decimal`, `BuildTime` | the build timestamp: a reference calendar, decimal printing, and the closed form of the build script proved against both |
| `Retry` | `retry_with_backoff`: the loop, and a specification by recursion over a script of attempt outcomes |
| `Pump` | `pump_streams`: inline upload, spawned download, half-closes, timer and abort as interleaving steps |
| `IdCounter`, `Connections` | the registry of live connections with its drop guards |
| `ForwardCalls` | `forward_tcp_conn`: any number of calls connecting, registering, pumping, closing, and cancelled at any await, on top of `Connections` and `Pump` |
| `Listeners` | the forwards mutex, listener tasks owned by table entries, forward tasks owned by join sets |
| `Routes` | the route table, the endpoint's ALPN set and the two-step copy from one to the other |
| `ControlPeers` | the fan-out of state events to control peers that come and go |
| `KeyFile` | several processes creating, locking, reading and filling one key file |
| `AtomicWrite`, `ConfigStore` | replacing the configuration file by temp file and rename; editing its rules |
| `Daemon`, `Commands` | startup from a configuration, control calls, and client commands that persist and roll back |
| `Utf8`, `RemotePaths` | remote paths, service names and ALPNs |
| `Systemd` | the quoted command line of the installed unit, and a reader for it |

Protocols are state machines: a datatype of atomic steps, `Enabled` and `Apply` for one
step, `Runs` and `Final` for a run, an invariant every step keeps, and theorems about the
state any run from the initial one ends in. Where the source changes an object in place
there is also a class whose methods are proved against the same specification.

## What turned out false, and when exactly it holds

- **Listed listeners.** `DelForward` takes the entry out under the mutex but drops it, and
  so aborts the listener, only after releasing the mutex (`src/daemon/service.rs:153-162`).
  With the mutex free every running, non-aborted listener is in the table if and only if no
  such deletion is under way (`ListedUnlessDeleting`); `RemovedListenerStillRuns` shows the
  window, and two running listeners with one key in it (possible where both can be bound,
  as with port 0).
- **One key per file.** Clients among themselves agree and servers among themselves agree;
  mixed, they agree as long as no server fills the file while a client that created it is
  writing (`AgreeWithoutOverlap`). Wherever that happens with two keys, both can go on to
  return them (`OverlapCanDisagree`), and it does happen (`MixedFamiliesCanDisagree`).
- **Endpoint ALPNs.** Overlapping `AddServe` calls can leave a registered service out of the
  ALPN set (`OverlappingAddsLoseService`). Among calls that add, the set is right if and
  only if the one published last was read after the last change (`LastReadDecides`);
  serialized calls always get it right (`SerialCallsPublish`).
- **Persisted means configured.** A lost answer, or a lost rollback call, leaves the daemon
  with a forward marked persisted that no file knows (`LostAnswerOrphans`). On Windows a
  rewrite can also remove the old file and fail to put the new one in its place
  (`src/config.rs:122-129`, `PossibleOutcomes`), under whatever persisted forwards are
  running (`LostFileStrands`). An `AddForward` keeps daemon and file in step if and only if
  neither happens (`AddForwardInStepIff`), every other command if and only if the second
  does not (`OthersInStepIff`).
- **Failed adds restore.** A failed add leaves the file alone if and only if its rewrite did
  not lose it in that way, and the daemon's tables if and only if no message was lost after
  the daemon took up the rule (`FailedAddForwardRestoresIff`, `FailedAddServeRestoresIff`).
- **Quoting.** The joined command line always reads back as its arguments; inside the unit
  file, at the quoting layer, it does so, and starts the server as asked, if and only if no
  path holds a line feed or carriage return (`UnitStartsServerIff`, `LineEndBreaksUnit`).
- **Timestamps.** The output is an RFC 3339 date-time, section 5.6, if and only if it is
  before the year 10000 (`PrintedTimestampReadsBack`).
- **Durability of a written configuration.** The new file is synced before the rename, its
  directory is not: after an `Ok` a power loss can bring the old configuration back, whole
  (`OkCanRevert`). Without one, what was renamed last is what is there (`RenamePutsBytes`).
- **Dashboard removal.** The dashboard removes a persisted rule by the remote as the daemon
  prints it, and finds it if and only if the endpoint id is spelled that way in the file
  (`DashboardRemovesIff`); `DashboardMisses` is a rule it does not find.
- **Closing the connection.** The doc comment of `forward_tcp_conn` promises to close the
  iroh connection on every exit path. A call that has left did so if and only if it opened
  a stream and was not cancelled (`ClosedIff`): a failed `open_bi` returns before the
  `close` call (`src/proxy.rs:278`, `FailedOpenLeavesOpen`), and a call dropped with its
  listener's join set never reaches it, while its detached download may still deliver
  everything (`CancelledPumpLeavesOpen`). The registry entry goes on every path
  (`RegistrationGone`).
- **Dropping the pump.** Dropping the future of `pump_streams` only detaches the download
  (`DroppedPumpDetaches`).

## Model

| member | source | states |
|---|---|---|
| `BuildTime.EraIsFloor` | build.rs:24 | truncating division with the negative correction is floor division by the era length |
| `BuildTime.YearOfEraExact` | build.rs:26-28 | the corrected quotient is exactly the year of era that contains the day; year and day of year stay in range, and day 365 only occurs before a leap February's end |
| `BuildTime.CorrectedDayOfEra` | build.rs:26 | with the day split into centuries, four-year groups, years and rest, the correction lands in the right block of 365 |
| `BuildTime.MonthAndDayExact` | build.rs:29-31 | the month formulas invert the March-based month lengths of the calendar, with 1 to 12 and 1 to 31 in range |
| `BuildTime.CivilCountsBack` | build.rs:22-32 | the closed form yields a valid Gregorian date, and counting days on the calendar up to it gives the day number back |
| `BuildTime.CivilInvertsDayNumber` | build.rs:22-32 | conversely the closed form recovers every valid date from its counted day number |
| `BuildTime.CivilStepsByCalendar` | build.rs:22-32 | the date of day n+1 is the calendar successor of the date of day n |
| `BuildTime.StampCountsBack` | build.rs:15-32 | for every u64 the fields are a valid date and time that count back to exactly that second |
| `BuildTime.StampsOrderAsSeconds` | build.rs:15-32 | timestamps order as (year, month, day, hour, minute, second) tuples, both directions |
| `BuildTime.PrintedTimestampReadsBack` | build.rs:34-37 | the printed string reads back as its second, and is in RFC 3339 layout, if and only if before the year 10000 |
| `BuildTime.PrintedTimestampsSort` | build.rs:34-37 | before the year 10000 the strings sort in time order, both directions |
| `Retry.RetryWithBackoff` | src/proxy.rs:161-224 | the loop returns the report that the recursive specification assigns to the script: verdict, start times, sleeps, end |
| `Retry.BackoffDoubles` | src/proxy.rs:131-133 | doubling, saturating and capping step by step follows the closed sequence of waits, saturation included |
| `Retry.BackoffClosedForm` | src/proxy.rs:110-112 | the wait before attempt k+1 is the initial one for k = 1, else the initial one times 2^(k-1), capped |
| `Retry.RunExplained` | src/proxy.rs:171-223 | an attempt is made exactly if it is the first or within `max_attempts` and all before it failed retryably in time with room for their full waits; starts, sleeps, verdict and end are those of that schedule |
| `Retry.RetryBounds` | src/proxy.rs:171-223 | one attempt or at most `max_attempts`, all over by the deadline; only a final cut-off sleep is shorter than the full wait |
| `Retry.AttemptMadeIff` | src/proxy.rs:173-222 | attempt n is made, on schedule, exactly if the policy's count allows it and each before it moved on |
| `Retry.MovesOnIff` | src/proxy.rs:187-216 | moving on takes a retryable failure before the deadline with room for the closed-form wait |
| `Retry.TimesOutIff` | src/proxy.rs:177-213 | when each of the two timeout errors is returned, and that both come at the deadline |
| `Retry.DefaultPolicyWaits` | src/proxy.rs:117-128 | the default policy waits 0.5s, 1s and 2s and gives up after four attempts that fail at once |
| `Retry.SucceedsIff` | src/proxy.rs:187-188 | success is reported, with the attempt's own value, exactly if some attempt that is made succeeds in time |
| `Retry.GivesUpIff` | src/proxy.rs:217-220 | "giving up" appears exactly when `max_attempts` exceeds one and that attempt is made and fails retryably; it carries that attempt's error and number |
| `Retry.PermanentErrorUnchanged` | src/proxy.rs:189 | a permanent error ends the call at once, unchanged, after n-1 full waits |
| `Pump.StepKeeps` | src/proxy.rs:371-422 | every step of upload, download, timer, abort, join or drop keeps the invariant |
| `Pump.BytesFlowInOrder` | src/proxy.rs:371-394 | in every interleaving source = delivered + buffered + unread in both directions, and a sink is only shut down once it holds its whole source |
| `Pump.ReturnMeans` | src/proxy.rs:396-422 | what each return implies: exact counts, upload error over download error, timeout only after a complete upload and the full wait, download ended or told to abort |
| `Pump.ReturnsWithinTimeout` | src/proxy.rs:346-350 | with timeout d and a timer served when due, the pump has returned within d of the end of the upload, or d has not passed yet, or it was dropped; proved of the protocol itself: when d has passed, a step that returns is possible |
| `Pump.ReturnIsFinal` | src/proxy.rs:418-422 | no later step of the download changes the outcome or withdraws the abort |
| `Pump.WhatHappened` | src/proxy.rs:375-416 | over every run: the upload error is returned exactly if the upload failed, an abort was asked for exactly then or when the timer fired, and the download ended by exactly the step that ends it so |
| `Pump.CanComplete` | src/proxy.rs:371-422 | any two streams can be pumped in full with exact counts, also where both sinks refuse the shutdown |
| `Pump.CanTimeOut` | src/proxy.rs:406-413 | a silent download is cut off after exactly the timeout, and stops |
| `Pump.DownloadErrorReturns` | src/proxy.rs:408-415 | a failing or panicking download is returned as such |
| `Pump.DroppedPumpDetaches` | src/proxy.rs:350-352 | from every state that meets the invariant with the download copying, dropping the pump leaves a download that can deliver all of its source, never told to abort |
| `IdCounter.DistinctIff` | src/daemon/connections.rs:40 | numbers from one wrapping u64 counter are distinct exactly up to 2^64 draws |
| `Connections.StepKeeps` | src/daemon/connections.rs:39-77 | each atomic step of registration and teardown keeps table, events and tallies right |
| `Connections.RegistryExact` | src/daemon/connections.rs:39-76 | after every interleaving the table holds exactly the inserted, not yet removed connections under unshared ids, and each close event follows its open event |
| `Connections.EventsAccountForLen` | src/daemon/connections.rs:42-75 | closes never outnumber opens; the difference to the table size is what is inserted but unannounced or removed but unannounced, nothing at rest |
| `Connections.ConnectionRegistry.Register` | src/daemon/connections.rs:39-47 | takes the three steps of the machine, under an id not in use, adding exactly this entry and event |
| `Connections.ConnectionRegistry.DropGuard` | src/daemon/connections.rs:72-77 | takes the two teardown steps, removing exactly the guard's entry |
| `Connections.ConnectionRegistry.Snapshot` | src/daemon/connections.rs:53-58 | one row for each entry, no other and none twice |
| `ForwardCalls.StepKeeps` | src/proxy.rs:258-323 | every step of every call, of its pump and of other connections keeps stage, pump, registration and history of each call in agreement |
| `ForwardCalls.ClosedIff` | src/proxy.rs:278-299 | over every run, a call that has left called `close` if and only if it opened a stream and was not cancelled |
| `ForwardCalls.RegistrationGone` | src/proxy.rs:276-277 | once a call is over, cancelled or not, it had registered exactly if it connected, both events were sent, and its entry is gone |
| `ForwardCalls.ListedWhilePumping` | src/proxy.rs:253-257 | while a call awaits its stream or pumps the table holds its entry |
| `ForwardCalls.CompleteTransfer` | src/proxy.rs:301-322 | a call that returned the statistics of a complete transfer delivered both directions in full |
| `ForwardCalls.CutOffTransfer` | src/proxy.rs:288-309 | a call that was cut off had uploaded everything and waited for exactly its own timeout |
| `ForwardCalls.LoneCallCompletes` | src/proxy.rs:276-322 | an undisturbed call delivers both streams, closes, and returns their lengths |
| `ForwardCalls.OthersRegister` | src/daemon/connections.rs:39-47 | other connections can register at any point of any run of the calls |
| `ForwardCalls.FailedOpenLeavesOpen` | src/proxy.rs:278 | a run whose `open_bi` fails: the call ends without a `close` |
| `ForwardCalls.CancelledPumpLeavesOpen` | src/daemon/forwards.rs:52-55 | a run whose call is dropped while pumping: no `close`, and the download still delivers everything |
| `Listeners.StepKeeps` | src/daemon/forwards.rs:39-112 | every step of calls, listeners and forward tasks keeps table, handles, lock and join sets in agreement |
| `Listeners.ListedUnlessDeleting` | src/daemon/forwards.rs:39-112 | with the mutex free, every active listener has exactly one entry if and only if no deletion is under way, and then no two share a key |
| `Listeners.TeardownComplete` | src/daemon/forwards.rs:52-55 | once a listener is gone all its forward tasks ended or were aborted; once they ended the registry lists none of them |
| `Listeners.DeletedIsStopped` | src/daemon/service.rs:152-163 | a returned `DelForward` has told its listener to stop, and no entry names it |
| `Listeners.AddRuns` | src/daemon/forwards.rs:39-113 | an undisturbed add of a free key is possible in every state with a free mutex and adds exactly one listener and entry |
| `Listeners.DelRuns` | src/daemon/service.rs:152-163 | an undisturbed removal of a listed key takes out its entry and stops its listener, and nothing else changes |
| `Listeners.DelMisses` | src/daemon/service.rs:154-159 | one of an unlisted key fails and changes nothing |
| `Listeners.OneTaskPerConnection` | src/daemon/forwards.rs:56-100 | over every run a listener has as many forward tasks as it accepted connections, is gone exactly if it failed or was stopped, and the registry lists exactly the registered tasks that have not ended |
| `Listeners.AcceptedForwardRuns` | src/daemon/forwards.rs:57-95 | a running listener can accept, and the task register and end |
| `Listeners.FailureTearsDown` | src/daemon/forwards.rs:61-64 | a failing accept takes the listener's forward tasks and their entries down with it |
| `Listeners.FailedAddLeavesNothing` | src/daemon/forwards.rs:44-46 | an add whose bind failed or that was cancelled holds neither mutex nor listener |
| `Listeners.CancelFreesLock` | src/daemon/forwards.rs:39-46 | an add cancelled while it binds gives the mutex back and changes nothing else |
| `Listeners.RemovedListenerStillRuns` | src/daemon/service.rs:153-162 | for every key a run into the window between removal and abort, and one with a second listener under that key, for addresses that can be bound twice |
| `Routes.DuplicateByName` | src/daemon/routes.rs:33-37 | comparing ALPN keys refuses exactly the names already registered |
| `Routes.RemovesExactlyNamed` | src/daemon/service.rs:108-109 | removing a name's key removes the route of that name and no other |
| `Routes.ServeSide.AddServe` | src/daemon/service.rs:96-104 | succeeds exactly for a valid new name with a target; then one route more, ALPNs equal to the keys, one event; else nothing changes |
| `Routes.ServeSide.DelServe` | src/daemon/service.rs:107-120 | succeeds exactly if the name is served; then only that route goes and the ALPNs equal the keys |
| `Routes.ServeSide.RouteFor` | src/daemon/routes.rs:114-135 | a negotiated ALPN is given the route registered under it, whose name has that ALPN, or none |
| `Routes.RoutesStayNamed` | src/daemon/routes.rs:27-54 | in every interleaving keys stay ALPNs of valid names, connections get the route of the service they negotiated, and each published set is the key set of some earlier table |
| `Routes.HandedIffServed` | src/daemon/routes.rs:115-135 | in every interleaving a connection that asks for a name is handed a route exactly if one of that name is registered then, and that one |
| `Routes.ChangeMeans` | src/daemon/service.rs:95-115 | in every interleaving when a call's change goes through, what it adds or removes, and that all other names keep their routes |
| `Routes.DelServeRuns` | src/daemon/service.rs:107-120 | an undisturbed removal leaves the other keys in the table and publishes them |
| `Routes.SerialCallsPublish` | src/daemon/service.rs:95-120 | with serialized calls the endpoint's ALPNs equal the route keys whenever no call is under way |
| `Routes.LastReadDecides` | src/daemon/routes.rs:48-54 | among overlapping adds the ALPNs equal the keys if and only if the set published last was read after the last change |
| `Routes.OverlappingAddsLoseService` | src/daemon/routes.rs:48-54 | two overlapping successful adds can leave a registered service unaccepted |
| `ControlPeers.StepKeeps` | src/daemon/control_plane.rs:374-436 | accepting, inserting, signalling, pruning and monitor steps keep every peer's record in order |
| `ControlPeers.PeerSeesOneBlock` | src/daemon/control_plane.rs:374-436 | what a peer received is one contiguous in-order block of the event stream; only its last signal can have failed; nothing is sent in a round after it failed or left |
| `ControlPeers.PeerMissesNothing` | src/daemon/control_plane.rs:379-411 | a listed peer that has neither failed nor left has received every event sent on the channel from the round it joined on; one that left was sent all but at most the last |
| `ControlPeers.PeerLife` | src/daemon/control_plane.rs:343-435 | over every run each accepted connection is a peer, listed exactly if inserted, gone exactly if it failed or its monitor removed it, then off the table for good |
| `ControlPeers.RoundRuns` | src/daemon/control_plane.rs:379-412 | an undisturbed round tries every peer of the table and keeps exactly those that accepted |
| `ControlPeers.NewPeerServed` | src/daemon/control_plane.rs:343-435 | a peer that connects receives the next event, and is gone once it disconnects |
| `ControlPeers.LeftIsFinal` | src/daemon/control_plane.rs:406-435 | the round from which a peer counts as gone never moves |
| `ControlPeers.PeerIdsNeverReused` | src/daemon/control_plane.rs:345-346 | peer ids differ for up to 2^64 accepted connections |
| `ControlPeers.PeerTable.FanOut` | src/daemon/control_plane.rs:379-412 | one undisturbed round signals every peer once and takes off the table exactly those that did not accept |
| `KeyFile.StepKeeps` | src/keys.rs:25-156 | every system call of every process keeps what the file must hold for each process to be where it is, unless it begins an overlap |
| `KeyFile.AgreeWithoutOverlap` | src/keys.rs:25-156 | any mix of clients and servers that never overlap: all successful returns give one key, the one in the file |
| `KeyFile.ClientsAgree` | src/keys.rs:25-68 | clients alone always agree, with short reads and writes, failures and crashes |
| `KeyFile.ServersAgree` | src/keys.rs:89-156 | servers alone always agree |
| `KeyFile.RetriesAtMostOnce` | src/keys.rs:46-47 | in every run from any initial file the recursion is at most one level deep, whoever else is at work |
| `KeyFile.ClientReturns` | src/keys.rs:25-60 | an undisturbed client returns the whole stored key, or its own, which it then has stored, where there is no file |
| `KeyFile.LoserReturnsStored` | src/keys.rs:44-48 | a client that loses the create race goes on to return the stored key |
| `KeyFile.ServerReturns` | src/keys.rs:122-156 | an undisturbed server with the lock free returns the stored key or fills the empty file; with the lock taken it fails and leaves the contents |
| `KeyFile.LockIsReleased` | src/keys.rs:137-146 | over every run one process holds the lock, and none that failed, crashed or exited |
| `KeyFile.LockPassesOn` | src/keys.rs:137-146 | however the holder ends, a server started then gets the lock and returns a key |
| `KeyFile.OverlapCanDisagree` | src/keys.rs:97-108 | from every overlap with two keys there is a continuation with two different successful returns |
| `KeyFile.MixedFamiliesCanDisagree` | src/keys.rs:54-108 | an empty directory, one client and one server suffice for that |
| `KeyFile.KeyStore.LoadOrCreateSecretKey` | src/keys.rs:25-60 | an existing or just appeared file is kept and decides the result; only an absent one is created with the generated key |
| `KeyFile.KeyStore.LoadOrCreateServeKey` | src/keys.rs:89-114 | an empty file is filled, any other only read |
| `AtomicWrite.ConfigAlwaysWhole` | src/config.rs:81-129 | after any steps, failures, kills and power losses of any number of writers the file is the old or one writer's whole content, or absent on Windows; `Err` means not replaced by this writer, `Ok` replaced |
| `AtomicWrite.SingleWriterErrMeansOld` | src/config.rs:97-101 | for one writer anything but `Ok` leaves the old content, or on Windows none |
| `AtomicWrite.RenamePutsBytes` | src/config.rs:93-94 | from a writer's rename until the next rename, removal or power loss the configuration is exactly what that writer wrote |
| `AtomicWrite.LoneWriterWrites` | src/config.rs:82-94 | a lone writer without errors puts its bytes in place and leaves no temp file |
| `AtomicWrite.ErrorCleansUp` | src/config.rs:97-101 | a writer that meets an error anywhere can remove its temp file, and leaves the configuration |
| `AtomicWrite.KilledLeavesAll` | src/config.rs:83-95 | a writer killed anywhere leaves configuration and temp file |
| `AtomicWrite.HowWritersEnd` | src/config.rs:83-101 | over every run `Ok` is returned exactly after the rename, an error exactly after the cleanup, and never `Ok` after an error or kill |
| `AtomicWrite.OkCanRevert` | src/config.rs:91-94 | after `Ok` a power loss can bring the old configuration back |
| `AtomicWrite.TempNamesDiffer` | src/config.rs:104-115 | temp names coincide only for one process and one counter value, and never with the file itself |
| `AtomicWrite.NamesDistinctIff` | src/config.rs:104-115 | one process draws distinct names exactly up to counter wrap |
| `AtomicWrite.ConfigDir.ReplaceFile` | src/config.rs:117-129 | moves the temp file over the target or leaves both, on Windows possibly without the target |
| `AtomicWrite.PossibleOutcomes` | src/config.rs:117-129 | a write can lose the configuration only where there was one and only on Windows; each other outcome is possible everywhere |
| `AtomicWrite.ConfigDir.WriteConfigAtomic` | src/config.rs:81-102 | which of the three outcomes which faults lead to, and what the file holds after each; no own temp file left and no other touched |
| `ConfigStore.RetainMeans` | src/config.rs:225-229 | exactly the matching entries go, and an unchanged length means that none matched |
| `ConfigStore.OthersKeptAt` | src/config.rs:226 | keeping the others means each of them is there, in the old order and as often as before |
| `ConfigStore.RemovalMeans` | src/config.rs:220-235 | a removal that reports one stored a file without matching entries, all others kept, services unchanged, the section gone exactly if empty; otherwise nothing changed |
| `ConfigStore.RemovalByKind` | src/config.rs:206-214 | by address: exactly the entries of other addresses are left; by rule: exactly those of another address or remote |
| `ConfigStore.RemovalEnds` | src/config.rs:220-235 | when a removal succeeds |
| `ConfigStore.AddServeEnds` | src/config.rs:132-160 | each error, conflict included, and success of a service add, exactly, whatever the file holds; an identical rule changes nothing |
| `ConfigStore.AddForwardEnds` | src/config.rs:169-203 | likewise for forwards |
| `ConfigStore.AddServeStores` | src/config.rs:156-160 | a successful service add keeps every earlier rule and has this one |
| `ConfigStore.AddForwardStores` | src/config.rs:198-203 | likewise for forwards |
| `ConfigStore.AddedServiceIsThere` | src/config.rs:139-160 | after a successful add the service is there, the only one of its name, earlier ones still in place, forwards unchanged |
| `ConfigStore.ServeEditIff` | src/config.rs:131-161 | the file changes only if the add gets as far as writing, and is lost exactly if the write loses it; the write error is reported exactly then or when it fails |
| `ConfigStore.ForwardEditIff` | src/config.rs:163-204 | likewise for forwards |
| `ConfigStore.RemovalEditIff` | src/config.rs:216-236 | likewise for removals, which report an entry removed exactly if one matched and the write succeeded |
| `ConfigStore.AddServeKeepsWellFormed` | src/config.rs:131-161 | unique names, valid names, given targets survive an add, whether it succeeds, fails or loses the file |
| `ConfigStore.AddForwardKeepsWellFormed` | src/config.rs:163-204 | unique listen keys and parsable remotes likewise |
| `ConfigStore.RemoveKeepsWellFormed` | src/config.rs:206-236 | and a removal |
| `ConfigStore.AddedForwardIsThere` | src/config.rs:178-203 | after a successful add the rule is there, the only one for its key, and every earlier one is still in place |
| `ConfigStore.Store.AddPersistentServeRule` | src/config.rs:131-161 | on success the old services are a prefix, the rule is there and forwards are unchanged; on an error the file is as it was, or lost by its write |
| `ConfigStore.Store.AddPersistentForwardRule` | src/config.rs:163-204 | likewise for forwards |
| `ConfigStore.Store.RemovePersistentForwardRule` | src/config.rs:216-236 | what it reports removed is gone from the stored file and only that; without a match or with an error, what the file is |
| `Daemon.ReplayServes` | src/daemon/mod.rs:55-58 | the loop succeeds exactly for valid, distinct names with targets, and then serves exactly the list (name uniqueness is key uniqueness); a refusal names a fault the list has |
| `Daemon.ReplayForwards` | src/daemon/mod.rs:60-82 | the loop succeeds exactly if remotes parse, listen keys differ and all can be bound, and then forwards exactly the list, all persisted; a refusal names a fault the list has |
| `Daemon.StartServer` | src/daemon/mod.rs:48-82 | startup computes the runtime that the configuration determines |
| `Daemon.ServesDetermined` | src/daemon/mod.rs:55-58 | a list of services leaves no choice about the route table |
| `Daemon.ForwardsDetermined` | src/daemon/mod.rs:60-82 | a list of forwards leaves no choice about the forward table |
| `Daemon.Server.AddForwardCall` | src/daemon/service.rs:122-149 | succeeds exactly if the remote parses and the address is free and can be bound; then exactly this entry and event are added, else nothing changes |
| `Daemon.Server.DelForwardCall` | src/daemon/service.rs:151-163 | succeeds exactly if the address is listed; then exactly its entry goes and one event is sent, else nothing changes |
| `Daemon.Server.AddServeCall` | src/daemon/service.rs:95-104 | success and new tables, the endpoint kept in step |
| `Daemon.Server.DelServeCall` | src/daemon/service.rs:106-120 | success and new tables, the endpoint kept in step |
| `Commands.RollbackUndoes` | src/main.rs:284-292 | `DelForward` after `AddForward` restores exactly the prior runtime |
| `Commands.ServeRollbackUndoes` | src/main.rs:322-330 | `DelServe` after `AddServe` restores exactly the prior runtime, ALPNs included |
| `Commands.FileAfter` | src/main.rs:259-373 | a command changes the file only if it gets as far as rewriting it, and fails if the rewrite loses it |
| `Commands.AddForwardSucceedsIff` | src/main.rs:259-301 | when the command reports success; then exactly this forward more, and its rule in the file exactly if asked for |
| `Commands.DelForwardSucceedsIff` | src/main.rs:347-373 | when the command reports success; then exactly this forward less, and the matching rules gone from the file exactly if asked for |
| `Commands.AddServeSucceedsIff` | src/main.rs:302-339 | likewise for services, the endpoint offering the new one |
| `Commands.DelServeSucceedsIff` | src/main.rs:340-346 | when the command reports success; then exactly this route less, the file untouched |
| `Commands.StartStopMean` | src/daemon/mod.rs:42-82 | when a server starts, with which tables, and that stopping ends it; both leave the file |
| `Commands.RemovedStaysRemoved` | src/main.rs:352-359 | after a persistent removal that succeeded, no restart brings the address back, and every other rule comes back |
| `Commands.AddForwardInStepIff` | src/main.rs:259-301 | the command keeps persisted forwards configured if and only if it neither orphans its own nor loses the file under another |
| `Commands.OthersInStepIff` | src/main.rs:302-373 | every other command keeps it, restarts included, if and only if it does not lose the file under a persisted forward |
| `Commands.ExecuteKeepsSound` | src/main.rs:259-373 | the file stays well formed and the endpoint in step under every command and fault |
| `Commands.FailedAddForwardRestoresIff` | src/main.rs:267-293 | a failed add leaves the file alone if and only if its rewrite did not lose it, and the runtime if and only if no message was lost after acceptance |
| `Commands.FailedAddServeRestoresIff` | src/main.rs:309-331 | the same for services |
| `Commands.PersistedForwardsAreConfigured` | src/main.rs:259-373 | over every run of commands that neither orphan a forward nor lose the file under one, each forward flagged persisted has an entry with its key whose remote parses to its remote |
| `Commands.ConfigReplays` | src/daemon/mod.rs:55-82 | any file reached by commands starts the server if and only if its listeners can be bound, giving exactly the configured services and forwards |
| `Commands.LostAnswerOrphans` | src/main.rs:267-271 | a lost answer leaves a persisted forward unconfigured |
| `Commands.LostFileStrands` | src/config.rs:122-129 | a rewrite that loses the file leaves an earlier persisted forward unconfigured |
| `Commands.DashboardRemovesIff` | src/tui.rs:1104-1116 | removal by printed remote finds the rule if and only if its endpoint id is spelled as printed |
| `Commands.DashboardMisses` | src/tui.rs:1104-1116 | a lawful parser with two spellings of one id, and a stored rule that removal by printed remote leaves in the file |
| `Commands.Client.AddForwardArm` | src/main.rs:264-301 | stated on the daemon and the file: when the arm reports success, and what both hold then; its effects in order are one step of the command machine |
| `Commands.Client.DelForwardArm` | src/main.rs:347-373 | stated on the daemon and the file: when the arm reports success, and what both hold then; its effects in order are one step of the command machine |
| `Commands.Client.AddServeArm` | src/main.rs:302-339 | stated on the daemon and the file: when the arm reports success, and what both hold then; its effects in order are one step of the command machine |
| `Commands.Client.DelServeArm` | src/main.rs:340-346 | stated on the daemon and the file: when the arm reports success, and what both hold then; its effects in order are one step of the command machine |
| `RemotePaths.SplitJoins` | src/remote_path.rs:59 | joining the pieces gives the string back; pieces hold no slash; one more piece than slashes |
| `RemotePaths.JoinSplits` | src/remote_path.rs:59 | splitting what was joined gives the slash-free pieces back |
| `RemotePaths.AcceptsExactly` | src/remote_path.rs:58-92 | accepted exactly if endpoint text, `/tcp/` and a valid name, with the id the text parses to |
| `RemotePaths.RefusesExactly` | src/remote_path.rs:58-86 | each of the six errors is returned exactly for its own class of strings |
| `RemotePaths.ValidNameIff` | src/remote_path.rs:27-41 | valid means 1 to 128 UTF-8 bytes without slash, whitespace or control character |
| `RemotePaths.NameErrorIff` | src/remote_path.rs:28-39 | which of the three errors a bad name gets |
| `RemotePaths.BlankIff` | src/config.rs:133 | a text counts as blank exactly if trimming both ends leaves nothing |
| `RemotePaths.PrintedPathParses` | src/daemon/forwards.rs:75 | a printed path parses to itself if and only if its name is valid |
| `RemotePaths.ListedRemoteParses` | src/daemon/service.rs:84-87 | what the daemon lists for a parsed remote parses to that remote |
| `RemotePaths.ParsedPathPrints` | src/remote_path.rs:58-92 | printing a parsed path restores the text if and only if the endpoint id was spelled as printed |
| `RemotePaths.AlpnInjective` | src/remote_path.rs:44-46 | two names have one ALPN exactly if they are one name |
| `RemotePaths.AlpnForm` | src/remote_path.rs:44-46 | every ALPN is the bytes of `iroh-proxy/tcp/` followed by the name in UTF-8 |
| `RemotePaths.ClientAsksForNamedService` | src/remote_path.rs:50-52 | the ALPN a client asks for equals a server's route key exactly if the names agree |
| `Systemd.QuoteSystemdArg` | src/systemd.rs:93-104 | the character loop produces the quoted form that the reader lemmas are about |
| `Systemd.ServerArgsRead` | src/systemd.rs:71-81 | a reader of the options of `src/cli.rs` finds program, key file, configuration file and mDNS flag again, for all strings |
| `Systemd.RenderExecStart` | src/systemd.rs:65-83 | the line it returns tokenizes, and reads as exactly the program, files and mDNS flag given |
| `Systemd.ScanEscaped` | src/systemd.rs:96-101 | inside quotes the reader undoes the escaping of any string and stays inside |
| `Systemd.JoinedLineTokenizes` | src/systemd.rs:65-104 | reading the joined line gives back exactly the argument list, whatever it holds |
| `Systemd.ExecStartFound` | src/systemd.rs:41-63 | the unit's command is the line up to its first line end |
| `Systemd.UnitReadsBackIff` | src/systemd.rs:41-104 | read from the unit file at the quoting layer, the arguments come back if and only if none holds a line feed or carriage return |
| `Systemd.UnitStartsServerIff` | src/systemd.rs:41-104 | the command read from the unit is the one asked for if and only if no path holds a line end |
| `Systemd.UnitLines` | src/systemd.rs:41-63 | the unit line by line, for a command without a line end |
| `Systemd.LineEndBreaksUnit` | src/systemd.rs:76-77 | a configuration path for which they do not, with either line end |

## Left out

- iroh, tokio, zbus, toml, clap: nondeterministic steps, or functions taken as given. `Lawful` states what is needed of endpoint ids (printing and parsing again gives the same id, no slash in a printed one); the TOML round trip and the 32-byte key format are taken for granted.
- Real clocks: `Retry` and `Pump` use an ideal clock and a timer served when it is due; the deadline sum never overflows an `Instant`.
- Which errors are transient (`src/proxy.rs:135-157`): `retryable` is an arbitrary predicate.
- Byte counters of `io::copy` as u64: they are unbounded in `Pump`.
- Unicode character classes: `whitespace` and `control` are arbitrary predicates; `trim().is_empty()` is "all whitespace".
- Systemd specifiers, `$` expansion, numeric escapes, lossy path conversion: only the quoting layer is modelled, with line feed and carriage return as line ends; a cut line ends in an even number of backslashes inside a quote, so line continuation does not arise.
- Non-UTF-8 configuration file names, for which the temp name falls back to a fixed one.
- Failing cleanup of the temp file: in `AtomicWrite` a step of the machine, but not of `ConfigDir`.
- Concurrent client commands: `Commands` runs them one after another on one file; `Listeners` and `Routes` cover concurrent control calls inside the daemon.
- Starting the daemon from a client: `ensure_server_running` is the separate command `StartServerRun`. A daemon that dies on its own is `StopServerRun`.
- The dashboard beyond its Enter handlers (`src/tui.rs`): those are the same arms with trimmed input and timeout 2.
- State events on a closed channel, which are dropped.
- The calls of `Daemon.Server` run alone and without their listener tasks; `Listeners` has the tasks and the interleavings.
- ReturnsWithinTimeout: takes for granted that a timer is served when it is due, so that time does not pass the deadline before a return; what is proved is that nothing else can hold the pump up.
- The download copy as part of listener teardown: `Listeners` is about forward tasks and guards; the copy is spawned separately (see `CancelledPumpLeavesOpen`).
- What closes an iroh connection besides the `close` call: when the last handle to it goes is up to the library, so `ClosedIff` is about the call.
- `LastReadDecides`: is about calls that add, because with deletions a stale set can equal the present one by coincidence; that a fresh set is right holds for all calls (`RoutesStayNamed`).
- Endpoint building, discovery, file permissions, peer uid checks, stale-socket rebinding, descriptor passing, diagnostics, argument parsing, version and status printing: operating-system behaviour or code that one reading settles.
