# Ninj-OS Proxie: a verified model of the edge fabric

This project models the parts of the Minecraft Bedrock edge fabric whose correctness is hard to see by
reading, and proves what they promise:

- the **edge gateway**, a UDP proxy driven by one event loop (`gateway/gateway.cpp`): sessions and their
  index, session counts, rate windows, risk and bans, incident mode, health probes, routing, transfer
  tickets, live settings;
- the **transfer-ticket protocol** between the dashboard process, which allocates ports and writes the
  ticket file, and the gateway process, which re-reads it, spends tickets and forgets spent ids;
- the **configuration codecs**: the INI parser and printer, the redacted view that is edited and merged
  back, the backend registry stored in the configuration, and the topology file printed in Go and parsed
  in C++;
- the **companion**: streaming SHA-256 and HMAC, and the bounded upload queue shared by two threads;
- the **dashboard guards**: the replay cache, the health actions that disable and restore backends, and
  the log tail reader.

`dafny verify dfyconfig.toml` checks everything.

## How the model is built

State that the source changes in place is a class here: `Gateway.Gateway`, `Sha256.Sha256`,
`UploadQueue.UploadQueue`, `ReplayGuard.Guard`, `HealthActions.Actions`, `Tickets.TicketStore`. Each has
one method per event or critical section, and ghost history where a promise is about whole runs. Loops of
the source stay loops, proved against a function of the input. Walks over hash tables pick elements in
an arbitrary order, so a result that holds here does not depend on map order.

| file | content |
|---|---|
| `Text.dfy`, `Decimal.dfy` | trimming, splitting, sorting, decimal numbers |
| `Ini.dfy`, `IniPrinter.dfy` | the configuration parser and printer |
| `Vault.dfy` | redaction and saving an edited view |
| `Topology.dfy`, `TopologyStore.dfy`, `GatewayConfig.dfy` | the registry: validation, storage, the printed file, the gateway's parser |
| `Sha256.dfy`, `UploadQueue.dfy` | the companion |
| `ReplayGuard.dfy`, `HealthActions.dfy`, `LogTail.dfy` | dashboard guards |
| `Tickets.dfy`, `TransferProtocol.dfy` | tickets on each side, and the two processes interleaved |
| `RateWindow.dfy`, `Risk.dfy`, `Probe.dfy`, `Routing.dfy`, `RoundRobin.dfy`, `Incident.dfy` | the gateway's mechanisms one by one |
| `GatewayState.dfy`, `GatewayRules.dfy`, `Gateway.dfy` | the gateway: data and consistency, rules, the object |

`Gateway.Gateway.Valid` says that everything the gateway keeps agrees: the index and the session table are
inverse to each other, every address and backend counts its own sessions, every datagram is in exactly
one of the totals, the rate windows fit the history of passed packets, ban levels fit the history of bans
and no risk score is negative, probe counters fit the probe history, incident mode fits its history of checks, and the loaded and spent
tickets are the gateway's side of the ticket protocol. The object also holds the world outside it (the
ticket file, the wall clock, the protocol's history), which the dashboard's steps change between events.
The constructor establishes all this and every event keeps it (`Gateway.Gateway.Run`), so the lemmas
`SessionsAgree`, `PacketsAccounted`, `RatesBounded`, `PingsBounded`, `BansClimb` and `ProbesResolved` hold in every
reachable state.

## What the code needs from outside

- The steady clock and the wall clock do not run backwards, and the steady clock is past 0 (0 means "not
  set" in the source). One handler sees one value of `now`; clocks read again inside a handler are
  parameters of their own (`Outcomes.clock`, `Outcomes.epoch`).
- A new socket number is not one of an open session.
- Incident divisors are at least 1. Start-up enforces it (`gateway/gateway.cpp:627-632`), the live reload
  does not (`gateway/gateway.cpp:1421-1422`), so this is an assumption about the live file:
  `GatewayRules.LiveSound` gives the exact condition, and `Gateway.Gateway.Handle` passes over a reload that
  breaks it.
- Ticket ids are new, and equal signatures come from equal messages.
- Risk scores in the ban file are not negative. The gateway writes no others, but reads any number and casts
  it (`gateway/gateway.cpp:1270`): `Risk.NegativeScore` shows what a damaged file does.
- `ReplayGuard.AtMostOnce` alone assumes that deliveries take the lock in the order of their clock readings
  (`InLockOrder`); the code reads the clock before it takes the lock.

## Where the code falls short of a promise

The lemmas named here give the failing input and, where one exists, the exact condition.

- Saving and reloading a configuration fails for a line longer than the scanner's 65535 characters, and
  the printer makes lines two characters longer than the shortest input form
  (`IniPrinter.RoundTripFails`); it works if and only if every printed line fits (`IniPrinter.RoundTrip`).
- An edit of the redacted view can introduce a credential the current file does not mention
  (`Vault.IntroducedCredential`); a surviving credential keeps its value if and only if the file has the
  key or the edit leaves it blank or masked (`Vault.SurvivingCredential`).
- A saved registry is rolled back although it passed validation when a fallback name holds a line break
  (`TopologyStore.LineBreakRollsBack`). Read from the file it equals what was saved if and only if its texts
  are trimmed and free of line breaks, its defaults are spelled out and every printed line fits
  (`TopologyStore.VerificationPasses`); it is kept if and only if in addition the stored credential sources
  are proper (`TopologyStore.SaveAndVerify`).
- The gateway sees a printed backend as registered if and only if host and profile carry no loose blanks
  (`GatewayConfig.SeenExact`).
- A signed message can be accepted twice. In every run a repeated message is accepted again if and only if
  some delivery since its last acceptance purged it (`ReplayGuard.AcceptedAgainExactly`), and a message gets
  through twice if and only if such a purge and then a repetition follow its first good delivery
  (`ReplayGuard.RepeatedExactly`). That happens because the freshness test and the cache read the clock
  separately, and because the clock is read before the lock is taken, so that deliveries overtake each other:
  with delays a and b between the two readings and overtaking by at most c it is possible if and only if
  a < b + c (`ReplayGuard.RepeatExactly`); `ReplayGuard.LockOrderReplay` is the run with no delay at all.
  All this is within one dashboard process: a restart empties the cache (`ReplayGuard.RestartForgets`).
- A restarted gateway has forgotten which tickets were spent (`TransferProtocol.RestartForgets`); within
  one process a ticket is one-use. Two live tickets on one port would break that too
  (`TransferProtocol.SharedPortForgets`), which is why the dashboard's port allocation matters.
- The port allocator takes port 0 for "none free", so a pool that starts at 0 yields nothing
  (`Tickets.PoolFromZero`, `Tickets.AllocationFails`).
- Answered pings are bounded by twice the limit only for addresses that are policed
  (`Gateway.Gateway.PingsBounded`). For the others the packet window that decides about forgetting a record
  never moves, so a record may go while its ping window runs (`GatewayRules.PingsOverrun`).
- The health actions do not notice when a command cannot be added to the log: a lost disable makes it begin
  with a restore (`HealthActions.LostDisable`). The log alternates if and only if an even number of commands
  was lost before each one in it (`HealthActions.LogAlternates`).
- A ticket created while the registry is unreadable may sit on a static port although the cleanup has run
  (`TransferProtocol.UnreadableTopology`). A creation keeps a file free of static ports if and only if the
  registry is readable or the port allocated without it is not static (`TransferProtocol.CreateStaysFree`);
  `TransferProtocol.CleanedExactly` says, in terms of the events, when the model's flag for a file that is
  free of them by design is set.
- A probe timeout longer than the check interval loses probes (`Probe.LostProbe`, `Probe.ResolvedExactly`).
- Pings advance the round-robin counter, so sessions alone are not spread evenly: with two backends and a
  ping before every session all sessions go to one of them (`RoundRobin.PingsSkew`). A round of sessions
  takes every backend once if and only if their turns are pairwise incongruent (`RoundRobin.FairExactly`),
  and with g pings before each, if and only if g + 1 is prime to the number of backends
  (`RoundRobin.PingsExactly`).
- `dropped_` in the companion counts one loss when several records do not fit back into the queue;
  `uncounted` in `UploadQueue` is the exact difference.
- A live reload whose profile file fails to load counts as failed with the new settings and lists already in
  force (`Gateway.Gateway.Reload`).
- With a batch size of 0 the companion's shutdown never ends (`UploadQueue.DrainEnds`).
- If registering a new socket fails, the gateway stops with one datagram unaccounted; `PacketsAccounted`
  says so.

## Model

| member | source | states |
|---|---|---|
| `Gateway.Gateway.constructor` | gateway/gateway.cpp:994-1056 | a new process, with bans restored from the ban file and the ticket file read at once, is consistent, has no sessions and zero counters, and has routed nothing yet |
| `Gateway.Gateway.ProcessDatagram` | gateway/gateway.cpp:1613-1892 | each datagram is counted once and ends in exactly one total (forwarded, cached pong, dropped); exact conditions for empty, denylisted and banned packets; a policed packet that gets on has passed the size test, the packet rate and, for a handshake, the handshake rate; a forwarded packet is booked on the session of its own endpoint and on no other; a session is added only for a new endpoint when mode and both session limits allow it, towards an available backend; consistency is kept |
| `Gateway.Gateway.Barred` | gateway/gateway.cpp:1635-1658 | which packets are dropped as empty, denylisted or banned (if and only if), and that otherwise only the risk score decays |
| `Gateway.Gateway.Firewall` | gateway/gateway.cpp:1660-1716 | oversized and over-global-rate exactly when the limits say so; the address windows decide the rest and are recorded; each offence is charged its own points |
| `Gateway.Gateway.AnswerPing` | gateway/gateway.cpp:1718-1764 | dropped exactly when the ping window is full; answered only by the backend that the static route, the routing mode or a usable ticket names for this port, which is available and has a stored pong |
| `Gateway.Gateway.Refuse` | gateway/gateway.cpp:1769-1785 | maintenance, drain, incident and session-limit refusals each exactly under their condition, limits being about the real numbers of sessions |
| `Gateway.Gateway.Route` | gateway/gateway.cpp:1787-1801 | static route, routing mode or ticket: the backend is available, and a ticket is spent and unexpired |
| `Gateway.Gateway.StartSession` | gateway/gateway.cpp:1766-1865 | a packet without a session is refused exactly when no session may be opened; otherwise one consistent session is added, or nothing changes |
| `Gateway.Gateway.NoDangling` | gateway/gateway.cpp:1866-1880 | an index entry always leads to its session, so the branch for a dangling entry is dead |
| `Gateway.Gateway.CloseSession` | gateway/gateway.cpp:2357-2383 | exactly this session leaves both tables; the two counters it decrements are positive, so the saturation tests never bite |
| `Gateway.Gateway.BackendData` | gateway/gateway.cpp:1894-1941 | delivered packets are counted in session and totals, a receive error closes the session, consistency is kept |
| `Gateway.Gateway.Cleanup` | gateway/gateway.cpp:2385-2427 | when due, exactly the timed-out sessions close, exactly the expired tickets go, exactly the idle, unbanned, stale records are forgotten, and every other record has its score decayed and an expired ban cleared |
| `Gateway.Gateway.HealthTick` | gateway/gateway.cpp:2014-2057 | every backend is checked once and its probe history stays in step |
| `Gateway.Gateway.HealthResponse` | gateway/gateway.cpp:2059-2094 | all replies in order: pongs are cached, the matching one counts, other backends are untouched |
| `Gateway.Gateway.IncidentTick` | gateway/gateway.cpp:1943-2012 | the drop ratio lies between 0 and 1; the mode is left only after calm checks spanning the recovery time |
| `Gateway.Gateway.RefreshTickets` | gateway/gateway.cpp:2198-2265 | when due and readable, the table is the loadable part of the file and memory is cut to loaded ids; otherwise both stay |
| `Gateway.Gateway.ConsumeTicket` | gateway/gateway.cpp:2288-2311 | after the refresh a ticket is spent if and only if it is loaded, unspent, unexpired, matching and routable; it is then marked and remembered, and nothing else changes |
| `Gateway.Gateway.ApplyCommand` | gateway/gateway.cpp:2459-2528 | each command changes its own target and nothing else, restarts set their exit code, a risk reset starts the ban history anew, and consistency is kept |
| `Gateway.Gateway.Reload` | gateway/gateway.cpp:1444-1469 | when the live file is readable and valid, settings and lists change, also if the profiles then fail to load; otherwise nothing changes; it succeeds exactly when all three steps do |
| `Gateway.Gateway.Shutdown` | gateway/gateway.cpp:2825-2837 | all sessions closed, opened equals closed, every count back to 0 |
| `Gateway.Gateway.Run` | gateway/gateway.cpp:1063-1124 | any sequence of events, with steps of the dashboard and the clock in between, keeps the gateway consistent until it stops and through the shutdown; the tickets it routes have different ids and were not expired |
| `Gateway.Gateway.SessionsAgree` | gateway/gateway.cpp:1766-1880 | index and table are mutual inverses, session counts per address and backend are exact, opened minus closed is the table size and at most the limit |
| `Gateway.Gateway.PacketsAccounted` | gateway/gateway.cpp:1613-1892 | client packets = forwarded + cached pongs + dropped (plus the one that stopped the gateway) |
| `Gateway.Gateway.RatesBounded` | gateway/gateway.cpp:1681-1715 | no address gets more than twice its largest limit past the packet check in a second or the handshake check in a minute, also across eviction of its record |
| `Gateway.Gateway.PingsBounded` | gateway/gateway.cpp:1718-1727 | no address that sent no ping while unpoliced gets more than twice the largest ping limit answered in a second, also across eviction of its record |
| `GatewayRules.PingsOverrun` | gateway/gateway.cpp:2413-2426 | an unpoliced address with limit 2 gets five pings through within two milliseconds |
| `Gateway.Gateway.BansClimb` | gateway/gateway.cpp:1332-1350 | in every state: while the schedule stays the same, the n-th progressive ban of an address since its record was created or reset lasts the n-th entry from the level it started at |
| `Gateway.Gateway.ProbesResolved` | gateway/gateway.cpp:2014-2094 | in every state of the gateway, probes sent = resolved + waiting, when the timeout fits the interval |
| `GatewayRules.LiveSound` | gateway/gateway.cpp:1375-1442 | a live reload leaves usable settings if and only if it brings no divisor of 0 |
| `Gateway.Gateway.DropPunished` | gateway/gateway.cpp:2335-2355 | an offence is counted once, charged its own points on strikes and standing, leaves the score at least 0 and, if it counts, below the ban threshold, enters a resulting ban into the history, and leaves windows and session count alone |
| `Gateway.Gateway.Choose` | gateway/gateway.cpp:2096-2153 | the gateway's own backends go through the routing rules; the choice is available, and pings move the turn like sessions do |
| `GatewayState.RateGuarantee` | gateway/gateway.cpp:2413-2426 | the rate bound follows from the consistency of windows and history, for known and forgotten addresses alike |
| `GatewayState.RatesEvict` | gateway/gateway.cpp:2413-2426 | forgetting a stale record loses nothing the rate bound needs |
| `GatewayState.LoadsPositive` | gateway/gateway.cpp:2364-2371 | counters to be decremented are above 0 |
| `GatewayState.AgreeOpen` | gateway/gateway.cpp:1843-1860 | entering a session keeps everything in agreement |
| `GatewayState.AgreeClose` | gateway/gateway.cpp:2357-2383 | removing a session keeps everything in agreement |
| `RateWindow.TwiceTheBound` | gateway/gateway.cpp:1681-1695 | windows that do not overlap and pass at most L each let at most 2L through in any stretch of one width |
| `RateWindow.AdmitKeeps` | gateway/gateway.cpp:1681-1695 | each check keeps window and history in step, whatever limit applies |
| `Risk.DecayIsPollingFree` | gateway/gateway.cpp:1315-1330 | decaying at t1 and at t2 gives the score of decaying once at t2, once initialised |
| `Risk.OffenceBounds` | gateway/gateway.cpp:1352-1373 | after an offence that counts the score is below the ban threshold, from any score before; a score that is not negative stays so |
| `Risk.RunScores` | gateway/gateway.cpp:1315-1373 | in every run of a record the score is at least 0, and below the threshold in force after every offence that counts |
| `Risk.NegativeScore` | gateway/gateway.cpp:1270-1273 | a negative score restored from a damaged file stays negative after an offence |
| `Risk.BanLadder` | gateway/gateway.cpp:1332-1350 | in every run with one schedule, whatever else in the policy changes, the n-th ban since creation or reset lasts the n-th entry, then the last one, at least a second |
| `Risk.LadderExact` | gateway/gateway.cpp:1332-1350 | the same for any recorded history of bans, from any starting level |
| `Risk.OffendClimbs` | gateway/gateway.cpp:1352-1373 | an offence keeps level and ban history in step, and a new ban is in force for its full length |
| `Probe.FlipsDown` | gateway/gateway.cpp:2021-2033 | unhealthy exactly when a timeout completes a run of failure-threshold length |
| `Probe.FlipsUp` | gateway/gateway.cpp:2076-2091 | healthy exactly when a pong completes a run of recovery-threshold length |
| `Probe.RunResolves` | gateway/gateway.cpp:2014-2094 | in every run the counters are the lengths of the trailing runs, and every probe is resolved exactly once or waiting |
| `Probe.ResolvedExactly` | gateway/gateway.cpp:2035-2055 | resolution holds in all runs if and only if the timeout is at most the interval |
| `Probe.LostProbe` | gateway/gateway.cpp:2046-2055 | with a longer timeout two checks lose a probe |
| `Routing.ChooseBackend` | gateway/gateway.cpp:2096-2153 | the choice is what the mode promises (primary, first fallback, turn, fewest sessions), and when the counter advances |
| `Routing.ChoiceIsUp` | gateway/gateway.cpp:2096-2196 | a chosen backend is enabled and, if checked, healthy; one is chosen whenever possible |
| `Routing.RoundRobinIsFair` | gateway/gateway.cpp:2135-2138 | n consecutive choices take each of the n available backends exactly once |
| `RoundRobin.PlaceSessions` | gateway/gateway.cpp:2135-2138 | the backends that a series of calls, pings and sessions mixed, gives to its sessions |
| `RoundRobin.FairExactly` | gateway/gateway.cpp:2135-2138 | n sessions take each of n backends exactly once if and only if their turns are pairwise incongruent modulo n |
| `RoundRobin.PingsExactly` | gateway/gateway.cpp:1731-1738 | with g pings before every session, if and only if g + 1 and n have no common divisor |
| `RoundRobin.PingsSkew` | gateway/gateway.cpp:1731-1738 | two backends and a ping before every session: all sessions go to one backend |
| `Routing.LeastSessionsBalances` | gateway/gateway.cpp:2140-2145 | opening on the least loaded backend leaves the spread at most max(1, old spread) |
| `Incident.CheckKeeps` | gateway/gateway.cpp:1943-2012 | entries minus exits is 1 exactly while on; a bad check restarts recovery; leaving needs calm checks over the recovery time |
| `Incident.RunKeeps` | gateway/gateway.cpp:1943-2012 | the same after every run, under changing settings |
| `Tickets.TicketStore.Create` | dashboard/main.go:1107-1149 | the new ticket gets the least free port of the pool outside live and static ports; exact condition for failure, including a file that cannot be read or written |
| `Tickets.TicketStore.SelectPort` | dashboard/main.go:1122-1136 | the loop finds the allocated port |
| `Tickets.TicketStore.RemoveForStaticPorts` | dashboard/backends.go:802-824 | the file keeps exactly the live tickets outside the static ports, in order, or stays as it was when it cannot be read or written |
| `Tickets.AllocationFails` | dashboard/main.go:1122-1136 | allocation fails if and only if no port is free, or 0 is in the pool and free and every lower port of the pool is taken |
| `Tickets.PoolFromZero` | dashboard/main.go:1122-1136 | a pool that starts at 0 with nothing taken yields no port |
| `Tickets.LoadTableExact` | gateway/gateway.cpp:2209-2247 | with one ticket per port the table is exactly the loadable tickets, marked spent exactly if remembered |
| `TransferProtocol.StepKeeps` | gateway/gateway.cpp:2198-2311 | every step of either process keeps the protocol invariant |
| `TransferProtocol.TicketsAreOneUse` | dashboard/main.go:985-1151 | in every interleaving: tickets are routed before expiry only, no gateway process routes an id twice although spent ids are forgotten, live tickets have distinct ports and ids, and when the cleanup for the present topology has run and nothing spoiled it since, none sits on a static port |
| `TransferProtocol.CleanedExactly` | dashboard/backends.go:771-824 | the model flag "free of static ports by design" is set if and only if, since the last cleanup for the present topology, there was no new topology and no ticket issued with the topology unreadable |
| `TransferProtocol.CreateStaysFree` | dashboard/main.go:1107-1149 | creating a ticket keeps a file free of static ports if and only if the topology is readable, or no port is free, or the port allocated without it is not static |
| `TransferProtocol.UnreadableTopology` | dashboard/main.go:1118-1121 | a ticket issued with the topology unreadable sits on a static port right after the cleanup |
| `TransferProtocol.OneUseWithoutRestart` | gateway/gateway.cpp:2288-2311 | without a restart each id is routed at most once |
| `TransferProtocol.RestartForgets` | gateway/gateway.cpp:2198-2265 | a restart between two uses lets any loadable ticket be spent twice |
| `TransferProtocol.SharedPortForgets` | gateway/gateway.cpp:2246-2264 | with two tickets on one port a spent id is forgotten while its ticket is live |
| `Ini.ParseINI` | dashboard/config.go:32-68 | the scanning loop computes `Parse`, including the line limit and both error cases |
| `Ini.WellFormedReachable` | dashboard/config.go:32-68 | the documents the parser can return are exactly the well-formed ones |
| `Ini.ReadBack` | dashboard/config.go:32-68 | whatever the order of sections and keys, and for any scanner that takes the lines, parsing the printed lines rebuilds the document |
| `IniPrinter.RenderUnifiedConfig` | dashboard/config.go:331-411 | the text is a function of the document, independent of map order |
| `IniPrinter.RoundTrip` | dashboard/config.go:331-411 | for every document the parser can return, parsing the print gives it back if and only if all lines fit; otherwise it is an error |
| `IniPrinter.EdgeRoundTrip` | dashboard/config.go:331-411 | the same for the header, sections and keys the dashboard lists |
| `IniPrinter.RenderInjective` | dashboard/config.go:331-411 | the text determines the document, for all documents the parser can return |
| `IniPrinter.WiderRoundTrip` | dashboard/config.go:331-411 | a scanner with room for two more characters reads back every printed document |
| `IniPrinter.RoundTripFails` | dashboard/config.go:331-411 | an accepted line whose printed form is rejected |
| `Vault.RedactUnifiedDocument` | dashboard/config.go:1087-1100 | the loop computes the redacted document |
| `Vault.MergeRedactedSecrets` | dashboard/config.go:1102-1113 | the loop restores masked and blank credentials |
| `Vault.PreserveVaultManagedSecrets` | dashboard/config.go:1115-1140 | both passes: surviving sections get their credentials back, new sections none |
| `Vault.SavedKeepsEdit` | dashboard/config.go:1268-1279 | saving changes credential keys only |
| `Vault.SurvivingCredential` | dashboard/config.go:1102-1140 | a credential of a surviving section keeps its value if and only if the file has the key or the edit leaves it missing, blank or masked |
| `Vault.NewSectionCredential` | dashboard/config.go:1115-1140 | sections new in the edit start with blank credentials |
| `Vault.IntroducedCredential` | dashboard/config.go:1102-1140 | adding to the view any credential key that its section does not have stores it, and changes nothing else |
| `Vault.UneditedSave` | dashboard/config.go:1183-1279 | viewing, then saving the view unedited, through merging, validation, writing and verification, leaves the document as it was; it succeeds if and only if the document is valid and both texts fit the scanner |
| `Vault.RedactHides` | dashboard/config.go:1087-1100 | documents differing only in raw credentials have the same view |
| `Topology.ValidateTopology` | dashboard/backends.go:274-364 | the one-pass check accepts exactly the valid registries |
| `Topology.SerializeTopology` | dashboard/backends.go:178-216 | the loops print the specified file |
| `GatewayConfig.LoadProperties` | gateway/gateway.cpp:326-346 | the reading loop computes the property map |
| `GatewayConfig.ParseBackends` | gateway/gateway.cpp:453-486 | the loop computes the backend list or the first error |
| `GatewayConfig.ParseStaticRoutes` | gateway/gateway.cpp:488-521 | the loop computes the routes, rejecting repeated ports |
| `GatewayConfig.GatewayReads` | gateway/gateway.cpp:453-521 | for every valid registry the gateway parses the dashboard's file to the same backends in order, the same routes, primary and mode |
| `GatewayConfig.SeenExact` | gateway/gateway.cpp:467-476 | a backend is seen as registered if and only if host and profile are trimmed |
| `TopologyStore.TopologyFromUnified` | dashboard/config.go:528-567 | the loop reads the registry out of the sections and accepts valid ones only |
| `TopologyStore.ApplyTopologyToUnified` | dashboard/config.go:569-603 | the loops rewrite the backend sections, or nothing for an invalid registry |
| `TopologyStore.ApplyKeepsRest` | dashboard/config.go:569-603 | other sections and other edge keys are untouched; kept backends keep their credential |
| `TopologyStore.ReadApplied` | dashboard/config.go:528-603 | applying and reading back gives the registry sorted by id, each backend normalised |
| `TopologyStore.NormalizeExact` | dashboard/config.go:528-603 | normalising changes nothing if and only if the backend is canonical |
| `TopologyStore.VerificationPasses` | dashboard/backends.go:409-442 | the registry read back from the written file equals the saved one if and only if all backends are storable and all lines fit |
| `TopologyStore.SaveAndVerify` | dashboard/backends.go:380-442 | the save is kept if and only if all backends are storable, all lines fit and the stored credential sources are proper |
| `TopologyStore.LineBreakRollsBack` | dashboard/backends.go:419-427 | a valid registry with a line break in a fallback name is never read back as saved |
| `Sha256.Sha256.Update` | companion/src/plugin.cpp:174-183 | the object absorbs the data, for any buffer state |
| `Sha256.Sha256.Final` | companion/src/plugin.cpp:189-211 | the digest is the one-shot hash of all absorbed bytes |
| `Sha256.HashChunks` | companion/src/plugin.cpp:174-211 | any cutting of the input gives the hash of the whole |
| `Sha256.PadZerosLeast` | companion/src/plugin.cpp:189-204 | the padding is the least that section 5.1.1 of FIPS 180-4 allows |
| `Sha256.PaddedBlocks` | companion/src/plugin.cpp:189-204 | the last block, or the last two when the tail is long, are those of the padded message |
| `Sha256.HmacSha256` | companion/src/plugin.cpp:282-305 | the result is HMAC as defined in section 2 of RFC 2104, in hexadecimal |
| `UploadQueue.UploadQueue.Enqueue` | companion/src/plugin.cpp:1122-1132 | refused exactly at capacity; order and counts are kept |
| `UploadQueue.UploadQueue.TakeBatch` | companion/src/plugin.cpp:1184-1195 | the batch is the front of the queue |
| `UploadQueue.UploadQueue.UploadSucceeded` | companion/src/plugin.cpp:1207-1210 | the batch moves to the sent records |
| `UploadQueue.UploadQueue.UploadFailed` | companion/src/plugin.cpp:1212-1232 | the batch returns to the front as far as it fits, in order; what is lost and what the counter shows |
| `UploadQueue.UploadQueue.Drain` | companion/src/plugin.cpp:1180-1238 | the first turns of the shutdown loop leave exactly the records not yet taken, for every batch size |
| `UploadQueue.UploadQueue.DrainAll` | companion/src/plugin.cpp:1180-1238 | with batches that are not empty every turn shortens the queue, so the shutdown loop ends with an empty queue, and accepted = sent + lost |
| `UploadQueue.DrainEnds` | companion/src/plugin.cpp:1180-1195 | some number of turns empties a queue if and only if it is empty already or the batch size is not 0; with 0 every turn leaves it as it is |
| `UploadQueue.EmbedsCut` | companion/src/plugin.cpp:1224-1231 | leaving out records keeps the order of the rest |
| `ReplayGuard.Guard.AcceptReplayKey` | dashboard/main.go:1363-1376 | accepted exactly if not in the purged cache, and the new cache |
| `ReplayGuard.Guard.VerifySignedBody` | dashboard/main.go:1198-1217 | verdict and cache for stale, forged, replayed and fresh deliveries |
| `ReplayGuard.CacheExact` | dashboard/main.go:1363-1376 | in every run the cache is exactly the accepted signatures not yet purged |
| `ReplayGuard.AcceptedExactly` | dashboard/main.go:1198-1217 | for every run and all clock readings: accepted if and only if genuine, fresh and no earlier acceptance is still remembered |
| `ReplayGuard.AcceptedAgainExactly` | dashboard/main.go:1363-1376 | for every run, all clock readings and any order of the lock: a repeated good message is accepted again if and only if a delivery since its last acceptance, itself included, purged it |
| `ReplayGuard.RepeatedExactly` | dashboard/main.go:1198-1217 | a message gets through twice in a run if and only if its first good delivery is purged by a later one and the message comes again then or afterwards |
| `ReplayGuard.AtMostOnce` | dashboard/main.go:1198-1217 | if deliveries take the lock in the order of their clocks and read one clock each, no message is accepted twice, although entries are purged |
| `ReplayGuard.SecondAcceptance` | dashboard/main.go:1198-1217 | a second acceptance needs the second delivery to have waited longer than the first, up to what others overtook it by |
| `ReplayGuard.ReplayAtTheEdge` | dashboard/main.go:1198-1217 | the same message at both ends of its window is accepted twice whenever a < b + c |
| `ReplayGuard.RepeatExactly` | dashboard/main.go:1198-1217 | a message can be accepted twice with delays a and b, deliveries being overtaken by at most c, if and only if a < b + c |
| `ReplayGuard.LockOrderReplay` | dashboard/main.go:1213-1213 | with one clock reading per delivery a lock taken out of order by a millisecond lets a replay through |
| `ReplayGuard.RestartForgets` | dashboard/main.go:1363-1376 | after a restart of the dashboard an accepted message is accepted again |
| `HealthActions.Actions.Decide` | dashboard/control_plane.go:781-816 | one observation changes one server's entries as specified and no other's |
| `HealthActions.Actions.Tick` | dashboard/control_plane.go:748-816 | a tick records one observation per reported backend; every server's state is that of its history, and the log holds its commands that could be appended |
| `HealthActions.DisableAfterStreak` | dashboard/control_plane.go:781-798 | a disable ends an unbroken unhealthy streak of at least the delay |
| `HealthActions.RestoreAfterStreak` | dashboard/control_plane.go:800-816 | a restore ends an unbroken healthy streak of at least the delay |
| `HealthActions.Alternation` | dashboard/control_plane.go:748-816 | the commands decided for a server alternate, starting with disable |
| `HealthActions.LogAlternates` | dashboard/control_plane.go:784-812 | the commands that reach the log alternate, starting with disable, if and only if an even number was lost before each of them |
| `HealthActions.LostDisable` | dashboard/control_plane.go:786-787 | a disable that cannot be appended makes the log begin with a restore |
| `HealthActions.NeverOverdue` | dashboard/control_plane.go:781-798 | a due disable is never withheld |
| `HealthActions.RestoreNeverOverdue` | dashboard/control_plane.go:799-816 | a due restore is never withheld |
| `LogTail.TailLines` | dashboard/main.go:777-794 | the trimming buffer returns exactly the newest `limit` records, newest first |
| `LogTail.ReadRotated` | dashboard/main.go:796-802 | the newest records of both files together |
| `LogTail.WindowIsSuffix` | dashboard/main.go:767-776 | starting in the middle of a file never yields a torn line |

## Left out

- Sockets, epoll, `recvmmsg`, DNS, files and logs: only their outcomes appear, as parameters (a fresh
  socket, sent or not, the tickets of a readable file).
- The rounds of the SHA-256 compression function: a parameter, so the results hold for any compression.
- Wrap-around of 64-bit counters, of the round-robin index and of millisecond times; only the SHA-256 bit
  length wraps, as in the source.
- Floating-point rounding of packet rates and drop ratios: computed exactly.
- Upper and lower case, and white space, outside ASCII.
- The tab-separated text of the ticket file and the command file; tickets and commands are values.
- The text of log lines, messages and error strings; `last_reason` and byte counters of the gateway.
- The bans file: restored records are a parameter of the constructor, saving is not modelled.
- Gateway.Gateway.AnswerPing: does not model the rewriting of the pong's text for maintenance and drain.
- Gateway.Gateway.ApplyCommand: does not model parsing of the command line.
- Gateway.Gateway.Run: passes over a live reload with a divisor of 0, after which the source divides by it.
- Gateway.Gateway.constructor: takes the settings after the first live reload as given.
- GatewayRules.LiveSound: logging and capture settings of the live file are not part of the model.
- TopologyStore.SaveAndVerify: does not model renaming a backend's credential, the other rules of the
  configuration as a whole, or the rollback of files.
- Vault.UneditedSave: takes the rules on the content of a configuration as a parameter.
- HealthActions.Actions.Tick: assumes the state file is saved and loaded without loss.
- Tickets.TicketStore.Create: request validation and the transfer history are not modelled.
- HTTP handlers, roles, sessions and cookies, Discord delivery, SQL storage, the web interface, the session
  core and its protocol weaving, release scripts: plumbing around this core, or easier versions of it.
