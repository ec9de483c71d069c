# Verified model of the platform's protocol cores

A Dafny model of nine cores of the repository, with proofs of what their comments, tests and documentation promise.
`dafny verify dfyconfig.toml` checks everything.

| core | files |
|---|---|
| browser pool of the stealth scraper | `BrowserPool` (state machine), `PoolEffects`, `LeaseLedger`, `LedgerHazards`, `RiderShield`, `SessionClock`, `TtlSweep`, `ScaleDown`, `ScaleDownCases`, `PoolTarget`, `StealthEngine` (the classes) |
| title similarity | `EditDistance` |
| incremental event-stream reader | `SseStream` |
| process-tree memory | `ProcessTree` |
| opening/ending fingerprint search | `RunSearch` |
| Kodik link decoder | `KodikDecode` |
| effect pipeline | `EffectProducer`, `CacheAggregator` |
| upscale worker protocol | `ModelManager`, `LeaseLoop` |
| HLS proxy | `EdgeFailover`, `CodecFix`, `UrlEscape`, `PlaylistRewrite` |

`Text` and `Optional` hold what several of them share.

Concurrent cores are state machines. A step is one stretch of code between two awaits, or between two lock or channel
operations; what browsers, pages, the network, the clock, random sources and cryptography answer is the step's
argument, so a result about every run covers every answer. Classes and loops of the source are classes and loops here,
each proved equal to the step or the specification function that the theorems are about.

Definitions that a modelled operation and its specification share are tied to the source a second time, in other terms:
session fields and the source's own numbers (`PoolEffects`, the contracts of `StealthEngine`, `ScaleDown.TickRests`,
`TickKills` and `TickMoves`), frames and seconds (`RunSearch`), bits and alphabets (`KodikDecode`), scheme, host, path and
text (`PlaylistRewrite`, `UrlEscape`), status codes (`EdgeFailover`), lines (`SseStream`), a straight line (`PoolTarget`).

## What holds, and what does not

Some properties that the code or its comments suggest are false as stated. Each is given its exact condition, and where
it can be shown in a few steps, a concrete failing input.

- **Lease ledger.** Exactly five actions can break "every leased profile has one holder". The reaper walks a snapshot
  across awaits. The migration commit does not look at the registry again after its awaits. A close that is cancelled
  while its page closes forgets to release, and so does every removal or migration whose session-store call raises
  behind it (`DroppedIsForgone`). So does a request that is cancelled while it closes a dead session, inside an except
  clause, or inside `_rehydrate`. And `resolve` registers its session before it writes the record and builds the answer;
  when one of them raises, the except clause frees a profile that a registered session owns.
  `Safe` is the exact condition of each, `RunExact` carries it over every run, and `LedgerHazards` holds a run of the
  first and a run of the last that give one profile to two requests.
- **Rider shield.** It holds over every run, unsafe interleavings included, in which the host is not given up: closed
  explicitly, found dead, or migrated. Migrating a host always frees the profile under its riders
  (`HostMigrationStrandsRider`).
- **User streams under scale-down.** They survive with a poison limit of at least 2, for the class at the moment of
  classification, and as long as the memory gate of a tick's own browser launch does not take them. At a limit of 1 the
  verifying fetch may close the victim; the class may lapse between the two clock readings (`LapsedUserIsKilled`). The
  soft budget of the gate can take user streams, and break the ledger by sweeping the very stream being moved, exactly
  if the session ttl is shorter than the user window of 180 s, the slack of a verifying fetch (20 s by default) and the
  length of one stretch of code together (`SweptUsersIff`, `StrandingIff`). The shipped ttl is 600 s, so in the shipped
  configuration neither happens; `LaunchSweepsUsers` and `LaunchStrandsVictim` are failing ticks for every shorter ttl.
  What can happen at any ttl is that the launch sweeps several idle riders at once and the pool falls below its
  threshold (`LaunchSweepsRiders`), and that the hard budget evicts an idle user stream when nothing else is left.
- **Effect producer.** The draining stop does not post everything accepted: what is recorded during the last post is
  accepted and lost (`ExitPosts`, `RecordDuringLastPostIsLost`).
- **Playlist routing.** The skip test for the proxy's own addresses also passes anyone's address that contains
  `hls-proxy` or the masked route. Such a stray is handed to the player untouched, and so is every URI attribute of a
  tag but the first. Without them every address in the result is the proxy's, and only then (`RoutedUnlessStray`,
  `StrayIsHandedOut`).
- **Playlist base.** A manifest whose decoded directory does not parse again makes a root-relative line dereference nil
  (`RewriteM3U8`, `EscapedDirIsFatal`).
- **Kodik decoder.** A text comes back exactly when no earlier rotation happens to carry the marker
  (`RecoversExactly`, `DecoyIsNotRecovered`).
- **Cache aggregator.** A key's count is conserved exactly when the key is never observed 2^32 times without its entry
  being removed in between (`ConservedIffNoBurst`).
- **Segment search.** The docstring says that all lags are scanned. The loop's range leaves out the last alignment of
  `b`, and the early ones when `a` is longer (`AlignmentsMissed`, `LastAlignmentIsMissed`); the optimum is proved over the scanned lags.
- **Playlist idempotence.** It holds exactly when no rewritten address spells the replaced codec, which a quiet base and
  referer guarantee for the query form but not for the masked form.

## Assumptions

- Pool machine: nothing raises after a warm session is registered (engine.py:1423-1425 sets a gauge and returns); only
  hexadecimal ids are ever persisted (services/stealth-scraper/app/sessionstore.py:17-37), so a rehydrated session never meets a warm-session key;
  the reaper and the degradation loop are cancelled only at shutdown, which is not modelled.
- Session clock: the clock does not run backwards and starts no earlier than a ttl after its zero (it counts from 1970);
  a verifying fetch and the stretch around it take at most `slack`.
- Scale-down ticks: the session store does not raise inside a tick. In the pool machine it may, after any pop or commit.
- Admission by memory, quota or pressure may refuse a request, or sweep, kill or evict a session at any time in the pool
  machine, so results about its runs cover every threshold. Where the gate acts inside another operation (a migration of
  a scale-down tick, an attempt of `resolve`) its budgets are parameters.
- Edge failover: each attempt yields exactly one of a response or an error.
- Playlist: minted tokens are base64url text, signatures, expiry and session tokens hexadecimal or decimal text.
- Arithmetic on scores, similarities and times is over the reals.

## Model

| member | source | states |
|---|---|---|
| `LeaseLedger.StepExact` | services/stealth-scraper/app/engine.py:436-554 | From a state in which every leased profile has exactly one holder (a registered owning session, or one coroutine), any enabled action of any coroutine keeps the ledger if and only if it is `Safe`; a safe action keeps the whole invariant. `Safe` restricts five actions only: a reaper entry, a migration commit, a close or retirement that never gets to its release, a request cancelled where no handler releases, and a registration behind which something raises |
| `LeaseLedger.RunExact` | services/stealth-scraper/app/engine.py:864-959 | Over every run, in every interleaving, the ledger holds throughout if and only if every action was safe when it was taken |
| `LeaseLedger.StepSound` | services/stealth-scraper/app/engine.py:436-554 | No action, safe or not, leaves the registry or a coroutine pointing at a session or profile that does not exist |
| `LeaseLedger.InitialInv` | services/stealth-scraper/app/profiles.py:46-57 | The freshly built pool, nothing leased and nothing registered, satisfies the invariant |
| `LeaseLedger.RequestEnds` | services/stealth-scraper/app/engine.py:1302-1451 | When a request coroutine ends, one of three things holds. It answered: its one lease is now its session's and no profile's flag has changed. It was cancelled where no handler releases: no flag has changed, and the profile it held, if any, is leased with nobody to release it. Otherwise exactly the lease it held, if any, has been freed |
| `LeaseLedger.RequestBalance` | services/stealth-scraper/app/engine.py:436-554 | Over any run, safe or not, leases taken minus leases returned by a coroutine equal the sessions it answered for, plus the attempts it was cancelled in without a handler, plus its unfinished attempt. A session registered without an answer keeps none |
| `LeaseLedger.OpenKeeps` | services/stealth-scraper/app/engine.py:776-816 | Registering a session hands the coroutine's lease to the registry entry, and keeps the invariant |
| `LeaseLedger.OpenHoldings` | services/stealth-scraper/app/engine.py:1269-1300 | Under the per-key locks the entry written was not holding a lease, so no registered session is overwritten while it owns a profile |
| `LeaseLedger.EvictKeeps` | services/stealth-scraper/app/engine.py:1550-1571 | Removing an entry and releasing its profile in one stretch (TTL sweep, LRU eviction, force-kill) keeps the invariant, for owners and riders |
| `LeaseLedger.ReapEntryExact` | services/stealth-scraper/app/engine.py:1600-1608 | One entry of the reaper's snapshot keeps the ledger if and only if, when it is due, the lease of the registry entry under its id is still the lease of the session object in the snapshot |
| `LeaseLedger.MigrateCommitExact` | services/stealth-scraper/app/engine.py:1798-1812 | The migration commit keeps the ledger if and only if the registry entry it overwrites still holds the victim's own lease; the code does not check this again after its awaits |
| `LeaseLedger.ForgetExact` | services/stealth-scraper/app/engine.py:1540-1548 | A close or retirement that never gets to its release (its caller cancelled, or the session store raising) keeps the ledger if and only if the session owned no profile |
| `LeaseLedger.DroppedIsForgone` | services/stealth-scraper/app/engine.py:1550-1571 | A session-store deletion that raises behind a registry pop leaves exactly the pool without that entry: a close begun and forgone, which keeps the ledger if and only if the session owned no profile |
| `LeaseLedger.UnansweredBreaks` | services/stealth-scraper/app/engine.py:478-541 | An answer that raises after its session was registered always breaks the ledger: the session and the coroutine both hold the one lease |
| `LeaseLedger.UnansweredStrands` | services/stealth-scraper/app/engine.py:534-541 | The except clause then frees the profile while the session that owns it stays registered |
| `LeaseLedger.StrandedReleasesAgain` | services/stealth-scraper/app/engine.py:1550-1571 | The sweep that later removes such a session, its profile still free, is a second release |
| `LeaseLedger.AbandonExact` | services/stealth-scraper/app/engine.py:1302-1451 | A request cancelled where no handler releases (while closing a dead session, inside an except clause, inside `_rehydrate`) keeps the ledger if and only if it held no lease |
| `LeaseLedger.LedgerHandedOver` | services/stealth-scraper/app/engine.py:691-696 | A lease may change holders only as it is: two holders swap correctly if and only if the taker ends with exactly what the giver had |
| `LeaseLedger.ReleaseEnds` | services/stealth-scraper/app/profiles.py:82-85 | A coroutine that releases the profile it holds finds it leased: this release is not a second one |
| `LedgerHazards.StaleReapHandsOneProfileToTwo` | services/stealth-scraper/app/engine.py:1598-1608 | A concrete run of sixteen actions from the empty pool, each enabled where it is taken, at whose end two requests hold the same profile: the reaper's snapshot outlives an await and a release is repeated |
| `LedgerHazards.RaisedAnswerHandsOneProfileToTwo` | services/stealth-scraper/app/engine.py:478-541 | A concrete run of eleven actions from the empty pool at whose end two requests hold the same profile: an answer raised after its session was registered, and the later sweep of that session frees the profile under its next holder |
| `RiderShield.HostStays` | services/stealth-scraper/app/engine.py:683-719 | Whatever the action, safe or not: a session whose browser carries a registered rider leaves the registry if and only if it is given up on purpose (an explicit close, a dead page, its own migration) or the reaper reaches a snapshot entry under its id that names another, expired object |
| `RiderShield.ShieldStep` | services/stealth-scraper/app/engine.py:1550-1571 | After any action that does not give the host up, safe or not: the host is registered and owns a leased profile that nobody else can come to release, and a rider that is still registered still shares it |
| `RiderShield.ShieldRun` | services/stealth-scraper/app/engine.py:1824-1859 | Over every run in which the host is not given up, with sweeps removing sessions a reaper pass still holds and every other unsafe interleaving included: while the rider is registered, its host is and the profile is leased. At the start no reaper pass or migration in progress may point at a former owner of that profile; with none in progress that holds |
| `RiderShield.SafeShieldRun` | services/stealth-scraper/app/engine.py:1824-1859 | The same from states in which such stale pointers exist, over runs of safe actions |
| `RiderShield.UnregisteredStays` | services/stealth-scraper/app/engine.py:1805-1812 | A session object that has left the registry never comes back under any id, over every run |
| `RiderShield.HostMigrationStrandsRider` | services/stealth-scraper/app/engine.py:1814-1822 | Migrating the host is no shield: after the commit and the retirement the rider is still registered and its profile is free, for every such state |
| `SessionClock.ReachedOnClock` | services/stealth-scraper/app/engine.py:986-1027 | Over every run in which deadlines and activity marks are what the engine writes, in every interleaving: each session's deadline lies at least a ttl behind its last activity mark, less the slack of a verifying fetch, and no mark lies in the future |
| `SessionClock.UsersDueIff` | services/stealth-scraper/app/engine.py:1706-1713 | The engine can meet an idle session that is past its deadline while its user's last activity lies less than 180 s back if and only if the ttl is shorter than 180 s and the slack together |
| `SessionClock.SweepsSpareUsers` | services/stealth-scraper/app/engine.py:1550-1608 | Otherwise no sweep, and no reaper pass however stale its clock reading, takes a session that counts as a user's |
| `SessionClock.RehydrateReaches` | services/stealth-scraper/app/engine.py:918-950 | A rehydration takes the pool, by four steps of the machine with the engine's own writes, to the one with the session registered and its profile leased |
| `SessionClock.MoveReaches` | services/stealth-scraper/app/engine.py:1741-1822 | A migration and its retirement take it, by three such steps, to the one in which the session rides the host's browser and its own profile is free |
| `PoolEffects.LeaseChanges` | services/stealth-scraper/app/engine.py:691-696 | Exactly which steps change a profile's lease flag, its use count and the count of second releases: leasing; an except clause's release, which counts no use; and the end of a close, retirement, reaper entry, sweep, eviction or kill of a session that owns it, which counts one |
| `PoolEffects.RegistryChanges` | services/stealth-scraper/app/engine.py:1530-1608 | Exactly which steps put an entry into the registry or take one out; the reaper takes out what is registered under a snapshot's id if and only if the snapshot's object has expired, is idle and, if it owns its browser, hosts no rider |
| `PoolEffects.MigrationObjects` | services/stealth-scraper/app/engine.py:1741-1812 | What a migration writes: both marks when it starts, both taken back when it fails, and on commit a session with the victim's id, addresses and user, the survivor's profile, no lease and no marks |
| `PoolEffects.RemovalGuards` | services/stealth-scraper/app/engine.py:698-719 | What may be taken out, over the fields: by a sweep, an expired idle session, unless it hosts a rider; for room, of the idle sessions that neither drain nor host, one that expires first; by force, one that hosts nobody and has no user, or no fetch and no activity for 180 seconds |
| `ScaleDown.TickKeeps` | services/stealth-scraper/app/engine.py:1874-1895 | One scale-down tick, whatever the migration answers and whatever the memory gate of its own browser launch takes, removes exactly the sessions in `Gone` and keeps every other session's stream (id, master URL, player URL, user key), with no new draining mark |
| `ScaleDown.TakenNothing` | services/stealth-scraper/app/engine.py:736-759 | The memory gate takes nothing if and only if it is not asked, or memory is below both budgets, or nothing is due |
| `ScaleDown.GateIdle` | services/stealth-scraper/app/engine.py:340-346 | In particular it takes nothing when the survivor's browser runs on its own exit or memory is below both budgets |
| `ScaleDown.GateReads` | services/stealth-scraper/app/engine.py:736-759 | The gate is asked if and only if the survivor's browser does not run, or not on its own exit; between the budgets it sweeps, at the hard one it reclaims |
| `ScaleDown.SoftTakesExactly` | services/stealth-scraper/app/engine.py:736-759 | The soft budget takes exactly the sessions other than the survivor that are due in the dictionary's order |
| `ScaleDown.TickRemovesOne` | services/stealth-scraper/app/engine.py:1874-1895 | A tick removes at most the one session named if and only if its launch passes no memory gate, or memory is below both budgets, or nothing else is due for the soft sweep and nothing killable or idle is there for the hard budget |
| `ScaleDown.TickFloor` | services/stealth-scraper/app/engine.py:1874-1895 | The pool shrinks by exactly what is gone; unless the soft budget sweeps inside the tick, that is at most one session, and never below ceil(target/2)+1 |
| `ScaleDown.TickLedger` | services/stealth-scraper/app/engine.py:1741-1812 | A tick keeps the lease ledger if and only if it is not a migration that arrives while its own launch found the soft budget exceeded and the victim, an owner, due |
| `ScaleDown.HostReads` | services/stealth-scraper/app/engine.py:1753-1762 | A stream moves to another registered session that owns its browser and is not draining: one serving a user if there is any, and of its class the one that expires last |
| `ScaleDown.TickRests` | services/stealth-scraper/app/engine.py:1874-1885 | With no more than ceil(target/2)+1 sessions, or nobody to pick, a tick changes nothing |
| `ScaleDown.TickKills` | services/stealth-scraper/app/engine.py:1886-1895 | Otherwise a victim without a user key, or without fetch and activity for 180 seconds when it is classified, leaves and frees the profile it owns, unless a rider shares its browser; then nothing changes |
| `ScaleDown.TickMoves` | services/stealth-scraper/app/engine.py:1741-1812 | Any other victim is moved: its id then names a session with its addresses and user that rides the host's browser and owns none; or, when the migration fails, nothing has changed, unless the poison limit of one closed the victim |
| `ScaleDown.UserStreamsSurvive` | services/stealth-scraper/app/engine.py:1706-1739 | Over any run of ticks, with a poison limit of at least 2: a session that is user-class at each tick's classification, and that is neither due for a soft sweep nor the one the hard budget reclaims, stays registered with the same URLs and user key, and no session is left draining |
| `ScaleDown.UnclaimedStays` | services/stealth-scraper/app/engine.py:1741-1812 | With a poison limit of at least 2 one tick takes out a user-class session if and only if the gate of its launch claims it and it is not the one that arrives elsewhere |
| `ScaleDown.InFlightUnclaimed` | services/stealth-scraper/app/engine.py:736-759 | A user's stream with a fetch in flight is never what the memory gate takes |
| `ScaleDown.PoolFloor` | services/stealth-scraper/app/engine.py:1874-1895 | Over any run of ticks in which no soft sweep happens inside a tick, at most one session goes per tick and the pool stays above the lowest threshold |
| `ScaleDown.TicksKeepLedger` | services/stealth-scraper/app/engine.py:1874-1895 | Over any run of ticks the lease ledger holds throughout if and only if no tick's launch finds the victim of a migration that arrives due |
| `ScaleDown.TickDeadlines` | services/stealth-scraper/app/engine.py:1780-1808 | A tick keeps every deadline a ttl behind its activity mark |
| `ScaleDown.AmpleTicksKeepLedger` | services/stealth-scraper/app/engine.py:1874-1895 | With a ttl of at least the user window, the slack and the length of a stretch together (the default is 600 s against 180 s and 20 s), the ledger holds over every run of ticks |
| `ScaleDown.AmpleStreamsSurvive` | services/stealth-scraper/app/engine.py:1706-1739 | With such a ttl user streams survive every run of ticks in which the hard budget does not reclaim them: the soft budget cannot take them |
| `ScaleDown.AmpleSoftTakes` | services/stealth-scraper/app/engine.py:1715-1759 | With such a ttl the soft sweep of a migrating tick takes, of the sessions not draining, only riders and hosts of riders, none of them a user's: there was no service session left |
| `ScaleDown.ServicePoolShrinks` | services/stealth-scraper/app/engine.py:1715-1739 | A pool of service sessions without riders loses exactly one entry per tick until the floor, and then none |
| `ScaleDown.PoisonedKeeps` | services/stealth-scraper/app/engine.py:1488-1507 | With a poison limit of one a page crash in the verifying fetch closes the victim it was to save, and nothing else beyond what the memory gate took |
| `ScaleDownCases.LapsedUserIsKilled` | services/stealth-scraper/app/engine.py:1706-1713 | The clock is read once when the victim is picked and again when it is classified: for every ttl and every stretch longer than nothing, a state the engine reaches and a tick that kills a session user-class when picked |
| `ScaleDownCases.LaunchSweepsUsers` | services/stealth-scraper/app/engine.py:736-759 | For every shorter ttl, such as 40 s: a state the engine reaches and a tick whose launch, with memory between the budgets, sweeps two user-class streams at once and takes the pool below its threshold |
| `ScaleDownCases.LaunchStrandsVictim` | services/stealth-scraper/app/engine.py:1798-1822 | The same tick with a migration that arrives breaks the lease ledger: the victim was swept meanwhile, and is committed and retired all the same |
| `ScaleDownCases.StrandingIff` | services/stealth-scraper/app/engine.py:1798-1822 | Over all states the engine reaches and all ticks possible in them: some tick breaks an intact ledger if and only if the ttl is shorter than the user window, the slack and the stretch together |
| `ScaleDownCases.SweptUsersIff` | services/stealth-scraper/app/engine.py:736-759 | Likewise, some tick's launch finds a user-class stream due if and only if the ttl is that short |
| `ScaleDownCases.LaunchSweepsRiders` | services/stealth-scraper/app/engine.py:736-759 | For every longer ttl, 600 s included: a state the engine reaches and a tick whose launch sweeps two idle riders at once and takes the pool below its threshold; no user's stream is among them |
| `PoolTarget.ParseCurve` | services/stealth-scraper/app/scaling.py:15-33 | Any bad part yields the default curve, 6 up to 0.40, 2 at 0.60, 1 from 0.80; otherwise the result is the parts in order; it is never empty, strictly ascending and without negative caps |
| `PoolTarget.PoolTargetFor` | services/stealth-scraper/app/scaling.py:36-55 | For every curve, ascending or not: the first cap up to the first score, the last one from the last score on, and in between the straight line of the segment that ends at the first breakpoint reaching the score, rounded down with 1e-9 to spare; then kept between 1 and max_pool |
| `PoolTarget.TargetNeverRises` | services/stealth-scraper/app/scaling.py:36-55 | With caps that never rise, a higher score never gives a higher target, across all branches and roundings |
| `PoolTarget.BreakpointsAreExact` | services/stealth-scraper/app/scaling.py:44-54 | At a breakpoint the target is exactly its cap: the epsilon undoes the division |
| `PoolTarget.RawInSegment` | services/stealth-scraper/app/scaling.py:46-54 | Inside a segment the target lies between the two caps whichever branch computed it |
| `StealthEngine.ProfileManager.Lease` | services/stealth-scraper/app/profiles.py:62-80 | Fails if and only if every profile is leased or not healthy; a free preferred profile is the one chosen; otherwise a launched one if any is free, of those the one with the fewest uses, of those the first; nothing else changes |
| `StealthEngine.ProfileManager.Release` | services/stealth-scraper/app/profiles.py:82-85 | Frees the profile, counts a use when ok, and records a second release exactly when the profile was already free |
| `StealthEngine.ProfileManager.MarkCrashed` | services/stealth-scraper/app/profiles.py:103-112 | The slot can no longer be leased; its lease stays as it was |
| `StealthEngine.ProfileManager.MarkHealthy` | services/stealth-scraper/app/profiles.py:114-118 | The slot can be leased again exactly when nobody holds it |
| `TtlSweep.SweepIsRun` | services/stealth-scraper/app/engine.py:1550-1571 | A TTL sweep is a run of the pool machine's own steps, so every result about runs covers it |
| `TtlSweep.SweepLeavesOwners` | services/stealth-scraper/app/engine.py:1550-1571 | After one pass every expired idle session that is left owns its profile |
| `TtlSweep.SweepSettles` | services/stealth-scraper/app/engine.py:1564-1570 | Without expired riders a pass takes exactly the expired idle sessions that host nobody, whatever the order |
| `TtlSweep.SweepTwice` | services/stealth-scraper/app/engine.py:1559-1570 | After two passes every expired idle session left is the host of a rider that is alive |
| `TtlSweep.SweepIdle` | services/stealth-scraper/app/engine.py:1550-1571 | A pass takes something if and only if some session is due when it starts |
| `TtlSweep.SweepTakesExpired` | services/stealth-scraper/app/engine.py:1559-1570 | Whatever the order, a pass takes expired idle sessions only |
| `TtlSweep.SweepTakesExactly` | services/stealth-scraper/app/engine.py:1550-1571 | A pass takes exactly the expired idle sessions that are riders, or all of whose riders are expired and stand before them in the dictionary |
| `TtlSweep.SweepInFields` | services/stealth-scraper/app/engine.py:1550-1571 | The same of a sweep in any order, over deadlines, fetch counts, owners and profiles |
| `StealthEngine.CamoufoxEngine.constructor` | services/stealth-scraper/app/engine.py:182-237 | A new engine is an initial state of the machine |
| `StealthEngine.CamoufoxEngine.ProfileHasRider` | services/stealth-scraper/app/engine.py:683-689 | The scan of the registry decides whether a rider shares the profile |
| `StealthEngine.CamoufoxEngine.EvictExpired` | services/stealth-scraper/app/engine.py:1550-1571 | The loop with its rider guard computes the sweep. Over the fields: whatever goes had expired and had no fetch in flight; a host stays while a rider of its browser does; and an expired idle session goes unless it owns its browser and a rider is registered on it |
| `StealthEngine.CamoufoxEngine.EvictOneLru` | services/stealth-scraper/app/engine.py:698-719 | Frees a slot if and only if some registered session has no fetch in flight, is not draining and carries no rider; it is such a session that goes, one that expires first, by the machine's LRU step |
| `StealthEngine.CamoufoxEngine.ForceKill` | services/stealth-scraper/app/engine.py:1824-1859 | The session leaves if and only if its browser carries no registered rider and it has no user key, or no fetch in flight and no activity for 180 seconds; its id is then marked degraded for 120 seconds. Otherwise nothing leaves, and a registered session's draining flag is cleared |
| `StealthEngine.CamoufoxEngine.EmergencyKillService` | services/stealth-scraper/app/engine.py:1861-1872 | Kills if and only if some registered session without a rider on its browser has no user key, fetches in flight or not, or no fetch in flight and no activity for 180 seconds; what it kills is such a session, the one that expires first |
| `StealthEngine.CamoufoxEngine.PickVictim` | services/stealth-scraper/app/engine.py:1715-1739 | Never picks a draining session, nor a rider's host unless as a user's. While a session is there that has no user key, or neither a fetch in flight nor activity within 180 seconds, and hosts no rider, one of those is picked; else a user's; in both classes the one that expires first; None exactly when there is neither |
| `StealthEngine.CamoufoxEngine.Resolve` | services/stealth-scraper/app/engine.py:436-554 | The retry loop with its memory gates, whatever each attempt meets, is a run of the pool machine. It opens a session if and only if the last attempt passes its gate, finds a stream, writes the record and can quote the addresses; the session then carries that attempt's addresses, user and deadline, owns its profile and has no activity yet; every earlier attempt was challenged, crashed, or raised behind its registration. The ledger holds throughout if and only if no attempt did the latter, and then the whole invariant is kept |
| `StealthEngine.CamoufoxEngine.SessionPayload` | services/stealth-scraper/app/engine.py:776-846 | Building the answer raises if and only if the master address, or a subtitle address that is not empty, is no string or holds a lone surrogate (U+D800 to U+DFFF) |
| `StealthEngine.NumberIsNotAnswerable` | services/stealth-scraper/app/recipes/gogoanime.py:128-137 | A subtitle track whose file is a number is passed on and makes the answer raise |
| `EditDistance.LevenshteinDistance` | libs/animeparser/title_normalizer.go:177-204 | The one-row in-place loop returns the length of the shortest chain of single-byte edits between the two byte strings |
| `EditDistance.LevIsEditDistance` | libs/animeparser/title_normalizer.go:177-204 | The recurrence the row computes is that shortest length |
| `EditDistance.ShortestChain` | libs/animeparser/title_normalizer.go:191-200 | A chain of exactly that length exists |
| `EditDistance.ChainAtLeastLev` | libs/animeparser/title_normalizer.go:191-200 | No chain is shorter |
| `EditDistance.LevCases` | libs/animeparser/title_normalizer.go:193-196 | Taking the diagonal without a minimum on equal bytes is what the full minimum would give |
| `EditDistance.LevTriangle` | libs/animeparser/title_normalizer.go:177-204 | Triangle inequality |
| `EditDistance.LevSymmetric` | libs/animeparser/title_normalizer.go:177-204 | Symmetry |
| `EditDistance.LevZeroIffEqual` | libs/animeparser/title_normalizer.go:177-204 | Zero if and only if the strings are equal |
| `EditDistance.LevBounds` | libs/animeparser/title_normalizer.go:177-204 | Between the length difference and the longer length |
| `EditDistance.SimilarityLaws` | libs/animeparser/title_normalizer.go:159-175 | Similarity lies in [0,1], is symmetric, and is 1 if and only if the normalised titles are equal |
| `EditDistance.CalculateTitleSimilarity` | libs/animeparser/title_normalizer.go:159-175 | The similarity is 1 less the quotient of the least number of single-byte edits and the longer length, 1 if and only if the normalised titles are equal, for any normalisation |
| `SseStream.ParseSSEBuffer` | frontend/web/src/api/fanfic.ts:53-72 | The events of all complete blocks in order, and the text behind the last blank line as the rest |
| `SseStream.BlockMeans` | frontend/web/src/api/fanfic.ts:57-68 | A block yields one event or none: its name is the last event line's, trimmed, or `message`; its data the texts of all data lines put together; none without data or with data that is no JSON |
| `SseStream.StreamSSE` | frontend/web/src/api/fanfic.ts:149-170 | For every way of cutting a text into chunks and every text the decoder held back, the callbacks called are those of one parse of the whole text followed by a blank line: all of them, or up to and including the first that throws |
| `SseStream.WholeSplits` | frontend/web/src/api/fanfic.ts:154-156 | Parsing can be cut anywhere: what was seen gives its complete blocks, and the rest is parsed with what follows |
| `SseStream.ThrewEarly` | frontend/web/src/api/fanfic.ts:156-170 | A callback that throws in the middle of the stream ends it exactly where the whole text would |
| `SseStream.FrameFirst` | services/fanfic/internal/handler/fanfic.go:72-81 | A frame as the server writes it is read back as its event, whatever follows |
| `SseStream.EmittedIsDelivered` | services/fanfic/internal/handler/fanfic.go:72-81 | Any sequence of frames the server emits is delivered as exactly those events in order |
| `ProcessTree.TreeRssBytes` | services/stealth-scraper/app/ramsampler.py:60-99 | The stack walk terminates on any parent map and returns the sum of resident bytes over exactly the pids reachable from the root, each once, unreadable ones as zero |
| `ProcessTree.TreeIsReachable` | services/stealth-scraper/app/ramsampler.py:60-99 | The summed set is reachability by parent links; cycles, self-parents and duplicates make no difference |
| `ProcessTree.ScanChildren` | services/stealth-scraper/app/ramsampler.py:76-83 | The children map holds exactly the parent links of the listed pids |
| `ProcessTree.ClosedIsTree` | services/stealth-scraper/app/ramsampler.py:85-99 | A set of reachable pids that holds the root and is closed under children is the whole tree |
| `RunSearch.LongestRun` | services/content-verify/analyzers/opskip.py:81-104 | Returns the earliest of the longest intervals that begin and end on a hit and contain no more than 8 misses in a row; None exactly when no such interval has min_frames frames |
| `RunSearch.RunIsUnique` | services/content-verify/analyzers/opskip.py:81-104 | That interval is unique |
| `RunSearch.PopCountIsOnes` | services/content-verify/analyzers/opskip.py:29-34 | The two table look-ups add up to the number of one bits |
| `RunSearch.SimilarityIsEqualBits` | services/content-verify/analyzers/opskip.py:66-78 | Similarity is the share of equal bits, symmetric, and 1 if and only if the frames are equal |
| `RunSearch.SimSeriesAt` | services/content-verify/analyzers/opskip.py:66-78 | Entry i compares the frames of both inputs that the lag brings together, and never leaves either input |
| `RunSearch.SimSeriesMirrored` | services/content-verify/analyzers/opskip.py:66-78 | Swapping the inputs and the sign of the lag gives the same series |
| `RunSearch.CandidateFits` | services/content-verify/analyzers/opskip.py:118-134 | What a lag offers starts on a hit inside both inputs and respects the maximum length; with a maximum of at least one frame it lies inside both inputs and its mean is a number, otherwise all offers have the same length |
| `RunSearch.CommonIsInterval` | services/content-verify/analyzers/opskip.py:66-104 | The runs found are stretches of both inputs whose ends are similar enough and in which never more than eight frames in a row are not |
| `RunSearch.BestCommonSegment` | services/content-verify/analyzers/opskip.py:107-139 | Over frames, lags and the program's own arguments. "duplicate" if and only if the longest common stretch of some scanned lag lasts 300 seconds at a mean similarity of 0.95. Otherwise, for 0 < min <= max and a maximum of a frame or more, the result is a longest common stretch of its lag, cut off at max * rate frames, with the mean of what is left; no scanned lag offers a longer one, or one as long that is more similar, or comes earlier and is as good; and nothing is found if and only if no scanned lag has a stretch of min * rate frames. An input against itself is found whole, from frame 0 to the last with mean 1, if it is longer than the minimum, no longer than the maximum and shorter than 300 seconds; an input no longer than the minimum is never found |
| `RunSearch.BestReads` | services/content-verify/analyzers/opskip.py:121-139 | Best is: no scanned lag beats it in capped length, or as long in mean similarity over the capped stretch, and no earlier lag equals it |
| `RunSearch.DuplicateInFrames` | services/content-verify/analyzers/opskip.py:125-127 | The duplicate test reads the whole stretch, not the capped one: 300 seconds and a mean similarity of 0.95 |
| `RunSearch.TruncTowardsZero` | services/content-verify/analyzers/opskip.py:116-117 | The bounds in frames drop the fraction, towards zero |
| `RunSearch.AlignmentsMissed` | services/content-verify/analyzers/opskip.py:118-121 | Exactly which alignments with an overlap of at least a frame and the minimum the loop's range leaves out, for every minimum, although it is documented to scan all lags |
| `RunSearch.LastAlignmentIsMissed` | services/content-verify/analyzers/opskip.py:118-118 | A concrete pair of inputs whose only common frame lies at the lag left out: no scanned lag offers anything, that lag does |
| `KodikDecode.DecodeSrc` | libs/kodikextract/decode.go:19-35 | Over alphabets, bits and the marker's characters: returns the text spelled by the first of the 26 rotations that spells one containing `mp4:hls:manifest`, and fails if and only if none does. For the base64 of any such text, padded or not, its letters moved by any number of places, it succeeds, and returns that text if and only if no smaller rotation spells one with the marker |
| `KodikDecode.DecodeEncode` | libs/kodikextract/decode.go:27-31 | Decoding inverts base64 (section 4 of RFC 4648): digit i is the character of `A-Z a-z 0-9 + /` at the number that the six bits from 6*i on make, padded with equals signs |
| `KodikDecode.Base64IsEncoding` | libs/kodikextract/decode.go:27-31 | The encoding by groups of three bytes is that one, digit by digit over the bits |
| `KodikDecode.DecodesIffSpelled` | libs/kodikextract/decode.go:27-31 | A text decodes to exactly the bytes whose bits its digits spell, trailing bits aside, and to nothing if it is not digits with at most two equals signs behind them, a multiple of four in all |
| `KodikDecode.MarkerEncoded` | libs/kodikextract/decode.go:27-32 | The marker's own base64 is `bXA0OmhsczptYW5pZmVzdA==` |
| `KodikDecode.TurnedIsRotate` | libs/kodikextract/decode.go:37-51 | A rotation moves every letter that many places along its own 26-letter alphabet, around the end, and leaves everything else |
| `KodikDecode.RotationsAdd` | libs/kodikextract/decode.go:37-51 | Rotations compose as addition |
| `KodikDecode.CandidateIs` | libs/kodikextract/decode.go:21-28 | Padded or unpadded, what a rotation decodes is the encoded text turned by the sum of both shifts |
| `KodikDecode.TrueRotation` | libs/kodikextract/decode.go:19-35 | The rotation 26-k mod 26 recovers the original exactly |
| `KodikDecode.OtherRotationDiffers` | libs/kodikextract/decode.go:19-35 | No other rotation yields the original, for texts with the marker |
| `KodikDecode.RecoversExactly` | libs/kodikextract/decode.go:19-35 | For every text with the marker, every shift, padded or not, decoding succeeds, and yields the text if and only if no earlier rotation of the source spells a text with the marker; stated over alphabets and bits |
| `KodikDecode.ForeignSpoils` | libs/kodikextract/decode.go:21-31 | A character outside the alphabet that is no equals sign and no line break makes every rotation fail |
| `KodikDecode.DecoyIsNotRecovered` | libs/kodikextract/decode.go:19-35 | A concrete text with the marker that is not recovered, because an earlier rotation carries it too |
| `KodikDecode.DecodeConcat` | libs/kodikextract/decode.go:27-31 | Whole quanta decode independently of what follows |
| `EffectProducer.StepConserves` | libs/tracing/producer.go:98-152 | Every step (record, receive, tick, stop, drain, the last look, the last post, the exit) keeps: accepted effects are the posted batches, the buffer and the channel in order; recorded is accepted plus dropped; every batch has 1 to MaxBatch effects |
| `EffectProducer.RunConserves` | libs/tracing/producer.go:98-152 | The same over every interleaving |
| `EffectProducer.ExitPosts` | libs/tracing/producer.go:136-149 | When the loop exits, exactly what was accepted before its last, empty look at the channel has been posted, and exactly what was accepted after it is left in the channel; nothing is lost if and only if no record succeeded in between |
| `EffectProducer.RecordDuringLastPostIsLost` | libs/tracing/producer.go:136-149 | A concrete run in which an effect recorded during the last post is accepted, not counted as dropped, and never posted |
| `EffectProducer.ExitIsFinal` | libs/tracing/producer.go:113-152 | After the exit nothing is posted any more, whatever is still recorded |
| `EffectProducer.DropsOnlyWhenFull` | libs/tracing/producer.go:98-105 | An effect is dropped exactly when a record finds the channel full |
| `EffectProducer.StepPosts` | libs/tracing/producer.go:98-149 | When a batch is posted: a received effect fills the buffer to MaxBatch, or a tick or the exit finds it not empty; always the whole buffer, and never otherwise |
| `EffectProducer.WithDefaults` | libs/tracing/producer.go:71-77 | Buffer size and batch size are as configured when positive, else 4096 and 256 |
| `EffectProducer.Producer.Record` | libs/tracing/producer.go:98-105 | The send that never blocks: into the channel if there is room, else counted as dropped; it is the machine's record step |
| `EffectProducer.Producer.ReceiveOne` | libs/tracing/producer.go:129-133 | One receive: the effect joins the buffer, which is posted whole when it reaches MaxBatch; it is the machine's receive step |
| `EffectProducer.Producer.Flush` | libs/tracing/producer.go:119-125 | Posts the buffer if there is one and empties it |
| `EffectProducer.Producer.DrainAndExit` | libs/tracing/producer.go:136-149 | The drain with other goroutines recording before every look and during the last post: everything accepted before the last look is posted in order, what fits of the rest stays in the channel, and nothing is lost if and only if nothing was recorded during the last post |
| `CacheAggregator.ObserveBalances` | libs/cache/aggregator.go:93-121 | An observation, with the eviction it may cause, keeps the books: emitted plus outstanding plus 2^32 times the wraps is the number of observations per key, and the map never exceeds maxEntries |
| `CacheAggregator.FlushBalances` | libs/cache/aggregator.go:173-180 | A flush in any map order keeps the books and removes exactly the entries visited |
| `CacheAggregator.HistoryBalances` | libs/cache/aggregator.go:93-180 | The books hold after any sequence of observations, evictions and flushes |
| `CacheAggregator.ConservedIffNoBurst` | libs/cache/aggregator.go:119-121 | From the empty aggregator, over every history: emitted plus outstanding equals the observations of a key if and only if the key was nowhere observed 2^32 times without its entry being removed in between; modulo 2^32 always |
| `CacheAggregator.StopEmitsAll` | libs/cache/aggregator.go:212-218 | After the final flush nothing is outstanding, and every observation of a key has been emitted if and only if there was no such burst |
| `CacheAggregator.Aggregator.Observe` | libs/cache/aggregator.go:93-121 | The key's count goes up by one around 2^32 and its lastSeen to now, its firstSeen stays; no other entry changes, except that a new key meeting a full map makes one with the oldest lastSeen leave, whose count, if not zero, is emitted; nothing happens without a sink |
| `CacheAggregator.Aggregator.EvictIfFull` | libs/cache/aggregator.go:126-141 | Evicts exactly when the map is full, and then an entry with the oldest lastSeen, which it emits |
| `CacheAggregator.Aggregator.FlushAll` | libs/cache/aggregator.go:173-180 | The loop empties the map and emits each key's outstanding count |
| `CacheAggregator.Aggregator.constructor` | libs/cache/aggregator.go:71-86 | The default limit, an empty map and balanced books |
| `ModelManager.StepKeeps` | worker/internal/upscale/manager.go:132-248 | Every step of every Install keeps the invariant of mutexes, holders and registry |
| `ModelManager.RunKeeps` | worker/internal/upscale/manager.go:132-248 | Over every interleaving the invariant holds, and registrations are never replaced or removed |
| `ModelManager.OneInside` | worker/internal/upscale/manager.go:155-167 | Only one goroutine at a time is past the mutex of a name |
| `ModelManager.RegistersOnce` | worker/internal/upscale/manager.go:223-234 | Over every run the register step happens at most once per name, and never for a name present at the start |
| `ModelManager.InstalledStays` | worker/internal/upscale/manager.go:100-105 | Once an Install(name) has returned nil every later Get(name) succeeds with the same model |
| `ModelManager.Manager.constructor` | worker/internal/upscale/manager.go:50-83 | An initial state of the machine; holds mock and exactly the preinstalled names whose weights exist |
| `ModelManager.Manager.PerNameMutex` | worker/internal/upscale/manager.go:239-248 | The get-or-create is the machine's step |
| `ModelManager.Manager.Install` | worker/internal/upscale/manager.go:132-235 | With any number of other Install calls stepping in between its own steps, all steps together are a run of the machine and keep its invariant; it returns nil only with the model registered, fails only for a refused name or a bad artifact, and stays waiting only at a mutex somebody holds. Refused are the empty name, `mock`, and names with a slash, a backslash or two dots in a row, always. Run alone: succeeds if and only if the name is allowed and either registered or its artifact good, and changes the registry only then |
| `LeaseLoop.StepKeeps` | worker/internal/agent/leaseloop.go:50-102 | Every step of the loop or of a command, in any order, keeps: consecutive sequence numbers from 2, at most one request sent after the drain channel closed, the cancel wiring, drain closed before shutdown and each at most once |
| `LeaseLoop.RunKeeps` | worker/internal/agent/leaseloop.go:50-102 | Over every run the invariant holds, what was sent only grows, and at most one segment is in flight |
| `LeaseLoop.AfterDrain` | worker/internal/agent/leaseloop.go:56-65 | After the drain channel has closed at most one further lease request is sent and at most one further segment starts |
| `LeaseLoop.TurnsDo` | worker/internal/agent/leaseloop.go:50-102 | Left alone the loop asks for ever, with the sequence numbers 2, 3, 4 and so on, and runs one segment per job granted, none for an empty grant |
| `LeaseLoop.NextPlace` | worker/internal/agent/leaseloop.go:50-102 | Where the loop goes: it parks if and only if it looks and finds the drain closed, ends if and only if it finds the context done or a send or a read fails, starts a segment if and only if it was granted a job |
| `LeaseLoop.Signals` | worker/internal/agent/commands.go:98-111 | Only a cancelled context counts as done, only a drain or a shutdown closes the drain channel, only a shutdown the other |
| `LeaseLoop.CancelHitsOnlyItsSegment` | worker/internal/agent/leaseloop.go:153-167 | A cancel, however late it fires, cancels no segment that started after its function was read |
| `LeaseLoop.CancelReadsTheSegmentInFlight` | worker/internal/agent/commands.go:89-96 | A cancel read while a segment is processed holds that segment's function; otherwise none |
| `LeaseLoop.DrainSparesTheSegment` | worker/internal/agent/commands.go:98-111 | Drain and shutdown leave the segment in flight alone |
| `LeaseLoop.CommandHandler.SetCancel` | worker/internal/agent/commands.go:57-64 | Called as processSegment calls it, it is the machine's start or end of a segment, and keeps the machine's invariant |
| `LeaseLoop.CommandHandler.Cancel` | worker/internal/agent/commands.go:89-96 | Cancels the segment being processed and no other, and nothing when none is; it is the machine's read and fire steps |
| `LeaseLoop.CommandHandler.Drain` | worker/internal/agent/commands.go:98-103 | The machine's drain step; the channel is closed once, however often it is called |
| `LeaseLoop.CommandHandler.Shutdown` | worker/internal/agent/commands.go:106-111 | The machine's two shutdown steps; both channels end closed, each exactly once, drain first |
| `EdgeFailover.Fetch` | libs/videoutils/proxy.go:611-704 | A URL that is not on a numbered edge gets one plain attempt and no trail. For any other, over status codes: an answer below 500 is the last attempt and is returned; every earlier one failed in transport or answered 500 or more; and candidates are left untried only behind an answer below 500 |
| `EdgeFailover.FailOver` | libs/videoutils/proxy.go:634-704 | The same of the loop, with the attempts in the order of the candidates, the last response kept and the others closed |
| `EdgeFailover.Ownership` | libs/videoutils/proxy.go:640-704 | Every response body is closed exactly once except the returned one, which is never closed and is the last there was; an answer below 500 is the last attempt and is returned; an error, the last, is returned if and only if every attempt failed in transport; `served` names the edge that answered |
| `EdgeFailover.CandidateLaws` | libs/videoutils/proxy.go:496-516 | At most three attempts: the nominal edge, then the first two entries of the pool that differ from it, in the pool's order |
| `EdgeFailover.EdgeOfIff` | libs/videoutils/proxy.go:582-593 | A host is a numbered edge if and only if, in lower case and cut at its last colon, it reads p, one or more digits and .solodcdn.com; the label is what stands before the first dot |
| `EdgeFailover.TrailReads` | libs/videoutils/proxy.go:545-566 | The trail names the edges in order, each with timeout, dial_error, http5xx from 500, http4xx from 400, or ok |
| `CodecFix.FixCodecAt` | libs/videoutils/proxy.go:1133-1137 | The replacement is simultaneous: a character changes exactly when it ends an occurrence of the codec in the input |
| `CodecFix.FixCodecClears` | libs/videoutils/proxy.go:1133-1137 | No occurrence is left |
| `CodecFix.FixCodecKeeps` | libs/videoutils/proxy.go:1133-1137 | The text is unchanged if and only if it had no occurrence: the guard before the replacement is only a shortcut |
| `CodecFix.FixCodecLines` | libs/videoutils/proxy.go:1133-1151 | The substitution works line by line |
| `UrlEscape.QueryRoundTrip` | libs/videoutils/proxy.go:1237-1240 | A query-escaped text decodes to its UTF-8 bytes |
| `UrlEscape.PathRoundTrip` | libs/videoutils/streamtoken.go:137-153 | A path-escaped segment decodes to its bytes |
| `UrlEscape.UnescapesIff` | libs/videoutils/proxy.go:1237-1240 | Decoding fails if and only if some percent sign has not two hexadecimal digits behind it |
| `UrlEscape.Utf8Reads` | libs/videoutils/proxy.go:1237-1240 | The bytes that are escaped are UTF-8 (section 3 of RFC 3629): length, lead byte, continuation bytes and code point |
| `UrlEscape.EscapeContains` | libs/videoutils/proxy.go:1237-1240 | Escaping neither creates nor hides the codec token |
| `PlaylistRewrite.DirIsDirectory` | libs/videoutils/proxy.go:1116-1127 | The base is the origin and the rooted path up to its last slash |
| `PlaylistRewrite.AbsoluteIsAbsolute` | libs/videoutils/proxy.go:1203-1219 | A line leads to exactly one web address: an http(s) address to itself, a root-relative one to the same path on the manifest's scheme and host, any other to the manifest's path up to its last slash followed by the line; resolving it again changes nothing |
| `PlaylistRewrite.RewriteM3U8` | libs/videoutils/proxy.go:1116-1257 | The builder loop computes the rewritten playlist, and leaves everything but the codec alone when the base does not parse. Line by line, over the manifest's scheme, host and path and the line's text: an address that does not pass the skip test comes out as one of the proxy's for the place it leads to, with that address sealed into the token, or as the first parameter of the query; everything around it stays. It fails, by a nil dereference, if and only if some line's first address is root-relative and not skipped and the manifest's decoded directory does not parse again |
| `PlaylistRewrite.PlaylistLed` | libs/videoutils/proxy.go:1132-1257 | The same of the rewritten playlist as a text |
| `PlaylistRewrite.WrapCarries` | libs/videoutils/proxy.go:1221-1257 | Both forms in full: the masked path with the token minted for the address, the last segment (or `media`) and the session; the query with address, referer, expiry, signature and session, each decoding to what it stands for |
| `PlaylistRewrite.TagCarries` | libs/videoutils/proxy.go:1302-1319 | A tag carries what stands between its first `URI="` and the next quote |
| `PlaylistRewrite.AddressCarries` | libs/videoutils/proxy.go:1152-1178 | An address line carries its text without the white space around it, which is Unicode's |
| `PlaylistRewrite.TagUrls` | libs/videoutils/proxy.go:1302-1319 | The addresses a tag carries are the values of all its closed URI attributes, of which the code looks at the first |
| `PlaylistRewrite.PlainDirReparses` | libs/videoutils/proxy.go:1116-1127 | A decoded path without percent signs and control characters parses again |
| `PlaylistRewrite.ParsesIff` | libs/videoutils/proxy.go:1212-1214 | A directory parses again if and only if no control character stands before its fragment and every escape of its path and of its fragment is well formed |
| `PlaylistRewrite.EscapedDirIsFatal` | libs/videoutils/proxy.go:1203-1213 | A manifest under `/a%25zz/` does not: its directory decodes to a malformed escape, and a root-relative line is fatal |
| `PlaylistRewrite.LinesRewritten` | libs/videoutils/proxy.go:1150-1184 | The lines of the result are the lines of the input, each fixed and rewritten: none is added, dropped, merged or moved |
| `PlaylistRewrite.PlaylistRouted` | libs/videoutils/proxy.go:1132-1184 | Line by line: a line without an address is kept apart from its codec; around the first address nothing changes; and that address comes out as one of the proxy's if and only if it is not a stray, one that passes the skip test without being the proxy's |
| `PlaylistRewrite.LineRouted` | libs/videoutils/proxy.go:1193-1257 | The same for one line, stated by what a line carries before and after |
| `PlaylistRewrite.RoutedIff` | libs/videoutils/proxy.go:1193-1257 | A rewritten address is the proxy's if and only if it was not skipped or was the proxy's before; a stray is returned as it is |
| `PlaylistRewrite.RoutedUnlessStray` | libs/videoutils/proxy.go:1132-1184 | Every address of the rewritten playlist, every URI attribute of a tag included, is the proxy's if and only if no line's first address is a stray and every further attribute of a tag is the proxy's as it stands, since only the first is looked at |
| `PlaylistRewrite.StrayIsHandedOut` | libs/videoutils/proxy.go:1196-1201 | A concrete stray: `https://cdn.example/hls-proxy/1.ts` is handed to the player untouched |
| `PlaylistRewrite.AttributeReplaced` | libs/videoutils/proxy.go:1302-1319 | A rewritten attribute is found again at the same place with the new value |
| `PlaylistRewrite.WrapRecognised` | libs/videoutils/proxy.go:1224-1256 | Both forms of the proxy's address are single clean words, are the proxy's, and pass the skip test |
| `PlaylistRewrite.LegacyCarries` | libs/videoutils/proxy.go:1236-1247 | The first parameter of the query form ends at the first '&' and decodes to the absolute address |
| `PlaylistRewrite.ProxiedByName` | libs/videoutils/proxy.go:1196-1201 | Two of the four tests for an already proxied address are covered by the other two |
| `PlaylistRewrite.SecondPass` | libs/videoutils/proxy.go:1132-1184 | A second pass, with any base and any minter, does nothing but substitute the codec in the first one's result |
| `PlaylistRewrite.IdempotentIff` | libs/videoutils/proxy.go:1132-1184 | Rewriting twice is rewriting once if and only if no rewritten address spells the codec: through its decoded last segment in the masked form, through the address or the referer in the query form |
| `PlaylistRewrite.QuietBaseIsIdempotent` | libs/videoutils/proxy.go:1132-1184 | With tokens disabled, a base directory and a referer without the codec make rewriting idempotent |
| `PlaylistRewrite.MaskedLeafIsNotIdempotent` | libs/videoutils/streamtoken.go:137-153 | With tokens it is not, even then: under a quiet base the line mp4a%2E40.1, whose last segment percent-decodes to the codec, is changed by a second pass, for every minter that decodes it so |
| `PlaylistRewrite.LineNoise` | libs/videoutils/proxy.go:1224-1256 | The exact condition under which a rewritten line spells the codec |

## Left out

- Browser and network behaviour (Playwright, Turnstile, cookies, HTTP, Redis, databases, ffmpeg, fpcalc): every answer is an argument of a step.
- Cryptography, SSRF and domain guards: the token and signature functions of `Minter` are arbitrary.
- LeaseLedger.StepExact: profile handles, teardown, retirement of over-used slots and resurrection are one free step that changes anything but the lease.
- StealthEngine.CamoufoxEngine.ForceKill: the degraded-kill markers exist in the class only, not in the pool machine, where nothing depends on them.
- StealthEngine.CamoufoxEngine.Resolve: no other coroutine runs between its steps in the method; with others it is the machine's request steps. The quota, pressure and client-gone checks before the first lease are the machine's `GiveUp`.
- ModelManager.Manager.Install: archive extraction and checksum are one boolean answer, and partial files on disk are not modelled.
- LeaseLoop.CommandHandler.Shutdown: nothing runs between its two steps in the method; with others they are the machine's two steps. `Handle`'s dispatch by name is not modelled.
- EffectProducer.Producer.DrainAndExit: failures of `post` itself lose batches and are not modelled.
- The per-user quota as a global bound: the check and the registration are separated by awaits, so it is not one.
- ScaleDown.UserStreamsSurvive: says nothing about what other coroutines do between the ticks, such as explicit closes, or during a migration's awaits.
- RunSearch.BestCommonSegment: rounding of means is not modelled.
- PoolTarget.PoolTargetFor: NaN and infinite scores; `ParseCurve` takes float() and int() as an arbitrary partial function.
- SseStream.StreamSSE: byte decoding and JSON.parse are arbitrary functions; aborted and failed reads are not modelled.
- ProcessTree.TreeRssBytes: parsing of the two status lines is an arbitrary partial function of the pid.
- EditDistance.CalculateTitleSimilarity: the normalisation is an arbitrary function; rounding of the quotient is not modelled.
- LeaseLoop.RunKeeps: one connection only; an old loop that overlaps a new one after a reconnect is not modelled. An aborted segment's download and upload are one step.
- EdgeFailover.FailOver: durations in the trail, metrics and the draining of a body before it is closed.
- PlaylistRewrite.RewriteM3U8: strings are texts, not malformed UTF-8; the parse of the manifest URL comes in as `Base`, and a host that does not parse a second time is not modelled; the storyboard rewriter is not modelled.
- PlaylistRewrite.WrapRecognised: that a masked token opens to its address rests on the cipher and is not modelled.
- `Available`, `RegisterForTest`, `Reconfigure`, health reports, metrics, logging, API clients, user interface and configuration: nothing hard to prove.
