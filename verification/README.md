# A verified model of serialtap

serialtap is a daemon that owns USB serial ports, hands them to external tools and takes them back,
writes rotated logs, and links several machines over an encrypted mesh.  This project models the
parts of it that carry real state or protocol logic, and proves what they promise.

How the parts are modelled:

- Concurrent code (the port hand-off, link loops, channel senders, the approval gate, lease races,
  upload races) is a state machine.  Every access to a shared flag and every lock-protected section is
  one action, runs are sequences of states and actions, and results are about every run.
- Code that updates fields in place is a class whose methods are proved against functions on values
  (`View()`); the laws are then lemmas about those functions over whole histories.
- Files, clocks, ports, tools and the network are parameters: what they answer is arbitrary unless a
  contract says otherwise.  Go's map iteration order is arbitrary in every loop over a map.

| file | part of serialtap |
|---|---|
| Handoff.dfy | Suspend, Resume and the collector loop |
| LineAssembler.dfy | the collector's line assembler |
| Watch.dfy | hot-plug ticks, names, debounce |
| Leases.dfy, LeaseRaces.dfy | Release, ResumeAll, expiry, Flash, Board, Reset: whole operations, then interleaved |
| Registry.dfy, Links.dfy | peer registry and automatic link loops |
| Frames.dfy, Channel.dfy | frame codec, sealed channel |
| SaltCache.dfy, Base64.dfy | replay memory of the handshake and the texts it compares |
| PairStore.dfy, Gate.dfy | pairing table with its file, and the per-frame approval gate |
| LogStore.dfy, LogFiles.dfy, TailFollower.dfy | log rotation, the latest-file selectors, the remote tail |
| Upload.dfy, UploadRaces.dfy | chunked upload, its byte account, and cleanup racing with uploads |
| Nvs.dfy, Partition.dfy | flash parsers, each against its writer |
| Facts.dfy | the fact store |
| Bytes.dfy, Sets.dfy, Text.dfy | byte strings, set sizes, numerals and string order |

`dafny verify dfyconfig.toml` checks everything.

Where the code does less than it promises, the model keeps the code and states exactly when the
promise holds:

- A Suspend that answers true can be without its hold: an expiry round resumes outside the operation
  lock, and a Resume between Suspend's store and its answer is not noticed
  (`Handoff.SuspendIsSafeIffHeld`, `Handoff.ResumeDuringSuspendIsUnsafe`).
- Flash on several devices, and Board even on one, delete leases before work that may stop early, and
  leave the rest held without a lease (`Leases.FlashOrphans`, `Leases.SingleDeviceOrphans`).
- Operations capture their collectors before they win the operation lock, so the lease of a replugged
  board can be dropped for a collector the operation never touches; and an operation that dropped leases
  can end before the turn of a device.  A quiet node holds a board without a lease exactly after one of
  these two steps that nothing made good (`LeaseRaces.OrphanIffDropUnmade`, `LeaseRaces.OrphanHappens`,
  `LeaseRaces.RefusedPlanOrphans`).
- A cleanup forgets the account of the id it reads off a directory name, with or without the `mesh-`
  prefix that session directories have.  The account goes on covering the session exactly if nothing of
  the session remains (`Upload.CleanupCoversIff`, `Upload.UnprefixedDirectoryForgets`,
  `UploadRaces.UnprefixedCleanupIsHarmlessIff`).
- An upload that arrives between the two halves of a cleanup is stored without account, and a restart
  of the process keeps young sessions but no account.  These and careless cleanups are all there is
  (`UploadRaces.CoveredIffAccountKept`, `UploadRaces.UploadDuringCleanup`, `UploadRaces.RestartForgets`).
- A rotation of the event stream that fails still counts its suffix.  The event files of a day stay
  without gap exactly if no event open succeeds after a failed one without a reopening in between
  (`LogStore.ContiguousIffNoCarelessOpen`, `LogStore.EventGapHappens`).
- The replay memory compares salt texts, a salt has several, and different salts can lead to the same
  keys.  A kind of hello text is safe within the window exactly if no two texts of the kind lead to the
  same keys, as those the program sends never do (`SaltCache.NeverTwiceIffToldApart`,
  `SaltCache.OwnHellosGetFreshKeys`, `SaltCache.EverySaltIsRespelled`, `SaltCache.ZeroMoreSameKeys`).
- A revocation that could not be saved is undone by a restart, exactly unless the file already held it
  or some later operation saved
  (`PairStore.RevocationSurvivesIff`).
- Approving a revoked id is commented as fetching its entry back; the code replaces it by a bare one
  (`PairStore.ApproveShows`).
- A peer whose id begins with `static:` can take the placeholder key of a configured address, which then
  has no static peer; with any other ids every configured address has one
  (`Registry.ConfiguredHaveStaticPeers`, `Registry.SeedLikeIdTakesTheKey`).
- A read-only node refuses write commands, but the refused request still sweeps upload sessions (flash)
  or leaves a share directory (board dump) (`Gate.ReadOnlyEffects`).
- The remote tail loses what an old file gained after its last poll and what a new one had before its
  last 16 KB at the first (`TailFollower.HandleTail`).
- The channel's counters are 64 bits wide; order is proved up to 2^64 frames a direction and shown to
  fail after them (`Channel.CounterComesRound`).

## Model

| member | source | states |
|---|---|---|
| Handoff.NoReadWhileSuspended | internal/collector/suspend.go:30-46 | In every interleaving of the collector with any number of Suspend and Resume callers: from a Suspend that answered true under a standing hold until the next Resume or timed-out Suspend, the collector is never in its read loop |
| Handoff.UndisturbedSuspendHolds | internal/collector/suspend.go:30-54 | A Suspend between whose store and answer nobody cleared the flag answers while the hold stands |
| Handoff.HeldIffSuspendedSince | internal/collector/suspend.go:30-54 | In every run the flag is up if and only if the last store to it was that of a Suspend that began, no Resume and no timed-out Suspend after it |
| Handoff.TimedOutSuspendGivesBack | internal/collector/suspend.go:26-46 | After a timed-out Suspend with no other begun since, an unstopped collector reaches its read loop by its own steps alone |
| Handoff.SuspendAnswersOnce | internal/collector/suspend.go:30-46 | A Suspend answers once, true or timed out: a caller that answered again began again |
| Handoff.SuspendIsSafeIffHeld | internal/collector/suspend.go:30-60 | The exact condition: a Suspend that answered true keeps the collector out of its read loop in every continuation without Resume or timeout if and only if Held() was still true at the answer |
| Handoff.ResumeDuringSuspendIsUnsafe | internal/collector/suspend.go:30-54 | A run in which a Resume falls into a Suspend that then answers true, and the collector ends up reading although nothing cleared the hold after the answer |
| Handoff.AtMostOneMoreOpen | internal/collector/collector.go:231-266 | After such an answer the collector opens the port at most once more, and only if it was already past its hold check |
| Handoff.RankRunsDown | internal/collector/collector.go:155-219 | While held, every step of the collector lowers a rank until it rests, whatever its environment answers |
| Handoff.ParksWithinTenSteps | internal/collector/collector.go:155-219 | Ten of its own steps under an unbroken hold leave the collector parked or finished with the port closed |
| Handoff.HoldParksWithinTenSteps | internal/collector/collector.go:155-332 | So do ten own steps that find a hold wherever they look, be it the flag or the PAUSED file |
| Handoff.StopsWithinTwelveSteps | internal/collector/collector.go:155-332 | After Stop, held or not, at most twelve own steps remain that are not one more look at a standing hold, there is always a next one until the end, and at the end the port is closed |
| Handoff.FinishedMeansStopped | internal/collector/collector.go:155-219 | The collector ends only after a Stop |
| Handoff.NoReadAfterFailure | internal/collector/collector.go:268-332 | After a failed read or too long a silence nothing is read before the port was opened anew |
| Handoff.NoSleepAfterSkip | internal/collector/collector.go:180-219 | A requested reopen comes without a sleep before the next attempt to open |
| Handoff.SleepsUnlessSkipped | internal/collector/collector.go:180-219 | Any other end of a session sleeps before the next attempt |
| Handoff.FlagAlwaysMatches | internal/collector/collector.go:236-256 | In every run portOpen is set exactly from its store after the open to the deferred store after the close |
| Handoff.UnheldCollectorReads | internal/collector/collector.go:155-332 | From every point of its loop, the deferred close included, an unheld, unstopped, unfinished collector reaches its read loop by its own steps |
| LineAssembler.Assembler.Feed | internal/collector/collector.go:383-401 | One feed emits the reference lines of tail plus data, or the whole buffer past the limit; the tail keeps no newline and at most maxTail bytes |
| LineAssembler.Assembler.Flush | internal/collector/collector.go:403-407 | Flush hands out the tail and empties it |
| LineAssembler.TrimReturn | internal/collector/collector.go:396-396 | A line loses exactly one carriage return, and only one at its end |
| LineAssembler.ChunkingIsInvisible | internal/collector/assembler_fuzz_test.go:27-37 | If no feed overflows, lines and residue are those of the byte-at-a-time splitter on the whole input, for every chunking |
| LineAssembler.NothingIsLost | internal/collector/collector.go:383-407 | In all cases, overflow included, the raw bytes of the emitted lines followed by the tail are exactly the input; exactly the lines beyond the limit come without a terminator |
| LineAssembler.TailStaysSmall | internal/collector/collector.go:381-401 | After every feed of any stream the tail is bounded and free of newlines |
| LineAssembler.SplitAppend | internal/collector/assembler_fuzz_test.go:27-37 | The reference splitter can be resumed from its residue |
| LineAssembler.SplitLinesHaveNoNewline | internal/collector/collector.go:391-399 | A line that was not spat out by the overflow guard holds no newline |
| Watch.Watcher.Tick | internal/daemon/daemon.go:141-220 | One tick in place: admissions in enumeration order, then the removal pass in any map order; a failed enumeration changes nothing |
| Watch.Watcher.AdmitOne | internal/daemon/daemon.go:154-206 | One enumerated device: misses forgotten, fast swap closed, unique name, roll-back when its directory cannot be made |
| Watch.Watcher.CloseFastSwap | internal/daemon/daemon.go:163-168 | Exactly the unseen collectors of that name go, in whatever order the map is walked |
| Watch.Watcher.SweepUnseen | internal/daemon/daemon.go:207-216 | Every unseen collector gains one miss and goes at the limit, in whatever order the map is walked |
| Watch.Watcher.CountMiss | internal/daemon/daemon.go:208-214 | One unseen collector gains a miss and goes at the third |
| Watch.Watcher.RemoveCollector | internal/daemon/daemon.go:226-233 | Collector, name and misses of a key go together |
| Watch.Watcher.Dedupe | internal/daemon/daemon.go:72-86 | The search loop ends and returns the bare name if free, else the first free numbered name |
| Watch.FirstFree | internal/daemon/daemon.go:77-85 | The numbered names never run out: by pigeonhole over the finite used set there is a first free one |
| Watch.DedupeName | internal/daemon/daemon.go:70-86 | The chosen name is unused, and it is the bare name exactly when that was unused |
| Watch.CandidatesDiffer | internal/daemon/daemon.go:78-81 | No two attempts of the search try the same name |
| Watch.MissesCountUnseen | internal/daemon/daemon.go:136-216 | Over all tick histories: names in use are exactly those of live collectors, injective; misses live within live keys at 1 or 2 and equal the number of successful enumerations since the key was last seen |
| Watch.RemovedIffThirdMissOrReplaced | internal/daemon/daemon.go:132-216 | Open once: a collector is gone after a tick exactly if this was its third unseen enumeration in a row or a newcomer of its exact name arrived while it was unseen; otherwise it is the same collector |
| Watch.FastSwapRemovesAtMostOne | internal/daemon/daemon.go:159-168 | The fast-swap scan removes at most one collector |
| Watch.FailedEnumerationsAreInvisible | internal/daemon/daemon.go:142-148 | Failed enumerations, wherever they fall in a history, leave no trace: collectors, names, misses and swaps are those of the history without them |
| Watch.NewcomerName | internal/daemon/daemon.go:159-198 | A newcomer gets its bare name exactly when no seen collector of that name is running; a displaced predecessor is reported as a swap |
| Watch.SwapIffOtherHolder | internal/daemon/daemon.go:186-206 | A board swap is reported exactly if the name was last given to another key |
| Watch.CollectorsAreFresh | internal/daemon/daemon.go:186-206 | In every history each collector is a start of its own: no two have one number |
| Watch.AdmitKeepsInv | internal/daemon/daemon.go:154-206 | One admission keeps the invariant of names, misses and last holders |
| Watch.SweepKeepsInv | internal/daemon/daemon.go:207-216 | The removal pass keeps the invariant: counting may reach the bound, and exactly those keys go |
| Leases.Table.Release | internal/daemon/flash.go:62-101 | Who gave up the port is held with a lease; who did not is rolled back without one |
| Leases.Table.ResumeAll | internal/daemon/flash.go:106-140 | Every lease is revoked and its live collector resumed, whatever the pattern; the count is of those and of the rewritten pause file |
| Leases.Table.SelectOver | internal/daemon/flash.go:143-175 | The first half of an expiry round selects exactly the leases that are over and notes quiet spells |
| Leases.Table.ResumeOver | internal/daemon/flash.go:176-187 | The second half drops those leases and resumes their live collectors |
| Leases.Table.TickReleases | internal/daemon/flash.go:143-188 | An undisturbed round ends exactly the leases that are over |
| Leases.Table.Flash | internal/daemon/flash.go:303-336 | All matched leases go before the first device; the loop stops at its first failure |
| Leases.Table.Reset | internal/daemon/reset.go:90-124 | Each device loses its lease only at its own turn |
| Leases.Table.Borrow | internal/daemon/flash.go:317-334 | Whatever happens to the tool, the borrowed collector is not held afterwards |
| Leases.ReleaseKeepsNoOrphans | internal/daemon/flash.go:88-99 | Release leaves no held live collector without a lease, timeouts included |
| Leases.ReleaseDecides | internal/daemon/flash.go:85-101 | Each device of a Release is held with exactly this lease, or rolled back with the lease it had before |
| Leases.TickKeepsNoOrphans | internal/daemon/flash.go:143-188 | Nor does an expiry round |
| Leases.ResetKeepsNoOrphans | internal/daemon/reset.go:90-124 | Nor does Reset, however it ends |
| Leases.ResetReaches | internal/daemon/reset.go:90-124 | Whom Reset reached has no lease and is free, whom it did not is as it was |
| Leases.AskedIff | internal/daemon/flash.go:310-336 | An operation reaches a device exactly if all before it are done and its own plan is not refused |
| Leases.FlashOrphans | internal/daemon/flash.go:303-336 | Exactly who Flash leaves behind: a held device whose own turn never came |
| Leases.SingleDeviceOrphans | internal/daemon/board.go:28-54 | On one device Flash orphans nobody, and Board does exactly when its plan is refused for a held device |
| Leases.ResumeAllLeavesOrphans | internal/daemon/flash.go:119-137 | After ResumeAll a collector is held exactly if it was an orphan before |
| Leases.OrphanOutlivesResume | internal/daemon/flash.go:106-188 | No resume and no number of expiry rounds frees an orphan |
| Leases.LimitedLeaseEnds | internal/daemon/flash.go:151-158 | A limited lease past its time, or one whose device is gone, ends in the next round |
| Leases.IdleLeaseEnds | internal/daemon/flash.go:159-173 | An idle lease ends once two rounds three seconds apart found the port quiet |
| Leases.LeaseStandsIff | internal/daemon/flash.go:143-188 | Exactly when a lease ends, over any rounds: the lease of a connected device stands if and only if no round found its time limit past and none found its port, under an idle lease, quiet since a round at least three seconds before with no busy one in between; its collector is left alone while it stands and is free after it |
| Leases.BusyRoundStartsOver | internal/daemon/flash.go:159-164 | A busy round starts the wait over: an idle lease stands while the rounds after it lie less than three seconds apart |
| LeaseRaces.OrphanIffDropUnmade | internal/daemon/flash.go:62-336 | Orphaned holds, exactly: in any interleaving of Release, Reset, Flash, Board, ResumeAll, split expiry rounds, plugging and unplugging, whenever nothing is in progress a live collector is held without a lease if and only if its lease was taken for a collector replugged meanwhile, or an operation that captured it ended before its turn when it had no lease any more, and no step freed it since |
| LeaseRaces.AbandonedIffLeft | internal/daemon/flash.go:62-336 | At every moment, quiet or not: a held collector that has no lease and that nothing is resuming or working on is there exactly after a lost lease that no step made good; its own turn in the operation does |
| LeaseRaces.QuietMeansLeased | internal/daemon/flash.go:62-336 | No orphaned hold: where neither of the two steps hits a key, its live collector is held only with a lease whenever nothing is in progress |
| LeaseRaces.ResumeAllFreesAllButOrphans | internal/daemon/flash.go:106-140 | When ResumeAll ends with no round in progress, a live collector is still held if and only if one of the two steps orphaned it and nothing freed it since |
| LeaseRaces.ResumeAllFreesEveryone | internal/daemon/flash.go:106-140 | So where neither step hits a key, its live collector is free after ResumeAll |
| LeaseRaces.OnlyFlashAndBoardSkip | internal/daemon/reset.go:90-124 | In runs without Flash and Board nobody is orphaned by an operation that ends early: only stale drops remain |
| LeaseRaces.LostLeaseAbandons | internal/daemon/flash.go:303-308 | Dropping the lease of a key whose held live collector is not being worked on leaves it held with nobody committed to free it |
| LeaseRaces.StaleDropHappens | internal/daemon/reset.go:70-100 | A run with a stale drop exists: targets are captured before the operation lock is won |
| LeaseRaces.OrphanHappens | internal/daemon/reset.go:90-124 | That run goes on to its end: nothing is in progress, and the replugged board is held with no lease to end it |
| LeaseRaces.RefusedPlanOrphans | internal/daemon/board.go:28-49 | A run without replugging: Board takes the lease, refuses the plan and leaves its board held with no lease |
| LeaseRaces.FailedFlashOrphans | internal/daemon/flash.go:303-336 | Another: Flash takes the leases of two boards, fails on the first and leaves the second held |
| LeaseRaces.UndisturbedRelease | internal/daemon/flash.go:62-101 | Left alone, the steps of a Release lead to the table of Leases.Table.Release, whichever ports are given up |
| LeaseRaces.UndisturbedTool | internal/daemon/flash.go:303-336 | Left alone, the steps of Flash, Board and Reset lead to the tables of Leases.Table.Flash and Reset, however their devices fare |
| LeaseRaces.UndisturbedResumeAll | internal/daemon/flash.go:119-137 | Left alone, the steps of ResumeAll revoke every lease there is and free the live collectors of all of them |
| LeaseRaces.UndisturbedRound | internal/daemon/flash.go:176-187 | Left alone, an expiry round drops the leases it selected and frees their live collectors |
| Registry.Table.UpsertBeacon | internal/mesh/registry.go:40-49 | After a beacon its peer is fresh, is found at the address it came from and keeps its static flag; nobody else changed; entries stay under their own ids |
| Registry.Table.SetStatic | internal/mesh/registry.go:53-95 | After the walk over a table whose entries are under their own keys every configured address has a static peer and static peers sit at configured addresses only; learned peers only change their flag, nothing else appears; on other tables exactly the addresses whose placeholder key is taken elsewhere go without |
| Registry.Table.LearnedIdent | internal/mesh/registry.go:98-113 | After a handshake its peer is fresh under its id at the dialled address and the placeholder of that address is gone; only these two entries changed; entries stay under their own ids |
| Registry.Table.Expire | internal/mesh/registry.go:126-140 | Exactly the stale non-static peers go, and the result names them; who that is over histories is Registry.ExpiryIsExact |
| Registry.Table.ByKey | internal/mesh/registry.go:197-204 | Found exactly if the key is registered |
| Registry.Table.ByAddr | internal/mesh/registry.go:207-216 | Found exactly if some peer has the address |
| Registry.Table.Touch | internal/mesh/registry.go:115-122 | A dial refreshes a known peer and nobody else |
| Registry.SpacesByCode | internal/mesh/registry.go:58-58 | What is trimmed off a configured address: exactly the 25 characters of white space, by their code points |
| Registry.AlwaysKeyed | internal/mesh/registry.go:30-140 | Over all histories of beacons, handshakes, dials, expiries and configurations with ids that do not look like placeholders: the key of an entry is its id, and a placeholder sits at its own address |
| Registry.ConfiguredHaveStaticPeers | internal/mesh/registry.go:51-95 | So in every such history, right after a configuration an address has a static peer if and only if it is configured |
| Registry.ConfiguredStaysStatic | internal/mesh/registry.go:30-140 | Until the next configuration every configured address keeps a static peer, through any beacons, handshakes, dials and expiries that do not move its peer elsewhere |
| Registry.MoverLeaves | internal/mesh/registry.go:40-113 | A peer that moves takes its flag along: the address stays static if and only if another static peer is there |
| Registry.ExpiryIsExact | internal/mesh/registry.go:126-140 | Over all histories: an expiry never removes a static entry, and removes any other exactly if its last beacon, handshake or dial lies at least the time to live back |
| Registry.ConfiguredIff | internal/mesh/registry.go:56-63 | The configured addresses are the entries without the blanks around them, blank entries left out |
| Registry.TrimIsExact | internal/mesh/registry.go:58-58 | All blanks go from both ends and nothing else |
| Registry.SeedLikeIdTakesTheKey | internal/mesh/registry.go:66-78 | The failing input: a beacon whose id begins with static: takes a placeholder key, and the configured address then has no static peer |
| Registry.SeedMigrates | internal/mesh/registry.go:98-107 | A handshake with a static seed leaves one entry under the real id, still static, at the seed address |
| Links.AtMostOneLoopPerKey | internal/mesh/link.go:31-81 | In every interleaving of beacons, seeds, expiry, identities and loops no key has two active loops |
| Links.NoLostPeer | internal/mesh/link.go:31-81 | No lost peer: after a finished beacon callback, as long as the key stays registered it has an active loop under its entry, or an exiting loop of the key that removed its entry has yet to re-check or is restarting it |
| Links.ExitingLoopRestarts | internal/mesh/link.go:75-80 | Two own steps of such an exiting loop give the key an active loop again |
| Links.LinksIffReachable | internal/mesh/link.go:104-116 | A round of a loop goes on linking if and only if its key is registered with an address, or its address is somebody's or that of a configured seed |
| Links.RestartsIffReachable | internal/mesh/link.go:69-81 | The re-check of an exiting loop restarts it under exactly that condition |
| Links.RegisteredLoopStays | internal/mesh/link.go:50-81 | In every interleaving a linking loop keeps linking as long as its key is registered |
| Links.SeedLoopStays | internal/mesh/link.go:104-116 | In every interleaving the loop of a configured seed that knows its address never gives up |
| Links.BeaconRegisters | internal/mesh/node.go:150-158 | The callback of a beacon carries what the beacon said, and its peer is registered when it runs |
| Links.BeaconReachesTheLoop | internal/mesh/link.go:31-47 | A beacon brings its address to the loop of its key or starts one with it, and leaves all others alone |
| Links.RegistryActionsAreUpdates | internal/mesh/registry.go:30-140 | Every step on the registry is one of the updates of Registry, and loops leave it alone |
| Links.RemovesOnlyItsOwn | internal/mesh/link.go:69-74 | The entry an exiting loop removes is always its own |
| Links.InvAlways | internal/mesh/link.go:31-81 | Entries and active loops correspond one to one in every reachable state |
| Frames.Conn.ReadFull | internal/mesh/channel.go:374-386 | Exactly n bytes are taken from the stream however it is cut, or all of it if it ends |
| Frames.Conn.ReadFrame | internal/mesh/channel.go:374-388 | A frame read over any fragmentation is what the stream decodes to, and the rest is untouched |
| Frames.Conn.ReadMany | internal/mesh/channel.go:374-388 | Frame after frame over any fragmentation is what the stream decodes to, up to the first failure |
| Frames.ReadBackIffItFits | internal/mesh/channel.go:366-388 | A written frame is read back as itself with the rest intact if and only if type plus payload is within maxFrame |
| Frames.ListReadsBack | internal/mesh/channel.go:366-388 | Back-to-back frames within the limit come back as the same list |
| Frames.CleanIffAllCame | internal/mesh/channel.go:374-388 | Reading stops early exactly if a frame did not come |
| Frames.BadLengthIsSeen | internal/mesh/channel.go:378-382 | A length of zero or beyond maxFrame is refused as soon as it is there |
| Frames.EncodingIsInjective | internal/mesh/channel.go:366-372 | No two different lists of frames have one encoding |
| Frames.BlocksFit | internal/mesh/channel.go:53-56 | A 1 MiB block in base64, JSON, nonce and tag keeps the frame limit exactly while its other JSON fields stay under 6990476 bytes |
| Channel.Endpoint.Send | internal/mesh/channel.go:313-332 | The sealed frame opens as itself at a receiver that has received as many frames as were sent before it, and at no other counter |
| Channel.SendIsTakeAndWrite | internal/mesh/channel.go:313-332 | Send is the two steps of the machine inside the lock: its box enters the pool, at the counter it takes, as the next frame of the log |
| Channel.RecvIsDeliver | internal/mesh/channel.go:339-356 | Recv is the delivering step of the machine: same answer, same counter, and a refusal marks the end as failed |
| Channel.Endpoint.Recv | internal/mesh/channel.go:339-356 | Only a box of the other side with this type and counter opens; the counter advances unless the frame was too short |
| Channel.AcceptedIsPrefixOfSent | internal/mesh/channel.go:313-356 | Under a network that drops, repeats, reorders, reflects and invents, with any number of concurrent senders: until the first error the accepted frames are a prefix of the written ones |
| Channel.AcceptedIsSubsequenceOfSent | internal/mesh/channel.go:339-356 | Even a reader that goes on after errors gets frames in order and none twice |
| Channel.ReflectionIsRefused | internal/mesh/channel.go:339-356 | A frame sent back to its sender never opens |
| Channel.RelabelledIsRefused | internal/mesh/channel.go:347-354 | A frame with a changed type byte never opens |
| Channel.NextFrameIsAccepted | internal/mesh/channel.go:339-356 | Of all boxes under the key exactly the one at the current counter opens, and it is the frame written there |
| Channel.UndisturbedSend | internal/mesh/channel.go:313-332 | A sender that finds the lock free gets its frame out as the next one of its end, and leaves the lock free |
| Channel.RefusalCostsTheNumber | internal/mesh/channel.go:339-356 | A refused frame uses up its number: the box that carried it is refused from then on |
| Channel.ForeignBoxIsRefused | internal/mesh/channel.go:339-356 | A box of another connection reaches this one and never opens |
| Channel.CounterComesRound | internal/mesh/channel.go:322-326 | After 2^64 frames the counter repeats and the first box opens again |
| Channel.InvAlways | internal/mesh/channel.go:313-356 | Lock, counters, sealed boxes and accepted frames agree in every reachable state |
| SaltCache.Cache.Dup | internal/mesh/channel.go:223-242 | "Seen" exactly if the salt text is among the last 64 newly accepted; set and list stay the same distinct elements, at most 64 |
| SaltCache.ReplayIsRefused | internal/mesh/channel.go:210-242 | A salt text is refused as long as fewer than 64 acceptances followed it |
| SaltCache.WindowIsDistinct | internal/mesh/channel.go:210-242 | No salt text is accepted twice within 64 acceptances |
| SaltCache.Greet | internal/mesh/channel.go:270-276 | A hello gets keys exactly if its text decodes to a salt and is not remembered; what has no salt leaves the memory alone |
| SaltCache.NeverTwiceIffToldApart | internal/mesh/channel.go:210-284 | The exact condition, for any kind of hello text and whatever part of a salt decides the keys: over all sequences of hellos of that kind no keys come twice within 64 acceptances if and only if no two texts of the kind that spell a salt lead to the same keys |
| SaltCache.CanonicalSaltsAreFresh | internal/mesh/channel.go:171-175 | Among hellos spelt as b64 spells them no salt comes twice within 64 accepted ones |
| SaltCache.OwnHellosGetFreshKeys | internal/mesh/channel.go:136-175 | Among hellos with sixteen-byte salts spelt by b64, as the program sends them, no keys come twice within 64 accepted ones |
| SaltCache.ZeroMoreSameKeys | internal/mesh/channel.go:136-144 | The failing input: a shorter salt and that salt with a zero byte behind it are both accepted and lead to the same keys, so canonical spelling alone is not enough for keys |
| SaltCache.OneCanonicalText | internal/mesh/channel.go:391-393 | Every salt has exactly one such text, and it decodes to the salt |
| SaltCache.EverySaltIsRespelled | internal/mesh/channel.go:270-276 | Every salt has another text too (a line break is skipped by the decoder), which the memory takes for a new one unless it holds that text as well |
| Base64.DecodeInvertsEncode | internal/mesh/channel.go:389-393 | What b64 writes unb64 reads back |
| LogStore.DeviceWriter.WriteLine | internal/logstore/logstore.go:127-148 | Rotation, reopening, restart and partial writes keep the full log in order, whatever became of the event files; the history grows by exactly what reached the disk; only the last file of the day grows |
| LogStore.DeviceWriter.WriteEvent | internal/logstore/logstore.go:152-177 | The same for events, failed rotations included: event files in order stay so if and only if this write is not a successful open on a handle that a failed one had lost; the full log stays in order either way |
| LogStore.DeviceWriter.PutEvent | internal/logstore/logstore.go:163-176 | A failed rotation counts the suffix, touches nothing and is tried again; a later success skips a suffix |
| LogStore.ContiguousIffNoCarelessOpen | internal/logstore/logstore.go:152-177 | Over all sequences of opens, event writes and failures from any directory in order: the event files of a day are without gap at all times if and only if no event open succeeds after a failed one without a reopening in between |
| LogStore.LostOpenLeavesGap | internal/logstore/logstore.go:163-173 | An open that succeeds on a lost handle leaves a gap, whatever else is in the directory |
| LogStore.EventGapHappens | internal/logstore/logstore.go:72-177 | A run with the gap, and what comes of it: after the next start the files in suffix order tell the lines in another order than they were written |
| LogStore.DeviceWriter.EnsureDay | internal/logstore/logstore.go:84-124 | A day change or a fresh writer opens the base files and resumes at the highest suffix without touching a byte; done exactly if both open, else both handles are gone; an open day is left alone |
| LogStore.DeviceWriter.HighestSuffix | internal/logstore/logstore.go:74-82 | The scan finds the highest suffix of the day |
| LogStore.DeviceWriter.PutText | internal/logstore/logstore.go:134-147 | Rotate if full, then append what the disk accepts, or fail before touching anything |
| LogStore.DeviceWriter.Close | internal/logstore/logstore.go:179-191 | A closed writer writes nothing any more |
| LogStore.FilesTellTheLines | internal/logstore/logstore.go:72-148 | Reading a channel-day in suffix order up to the first missing file gives exactly the written lines in order, and no file lies beyond |
| LogStore.SweepRetention | internal/logstore/logstore.go:203-244 | Exactly the files last written before the cutoff go, unless their removal fails, and exactly those failures are named |
| LogStore.RetentionLeavesTheEnd | internal/logstore/logstore.go:203-244 | What retention leaves of a day in order, when no removal fails, are its last files without a gap among them, and they tell exactly the end of what was written |
| LogStore.WritingKeepsOldestFirst | internal/logstore/logstore.go:127-177 | Since only the last file of a day is written to, no file of it is younger than the one behind it |
| LogStore.PutIsGood | internal/logstore/logstore.go:134-147 | One write keeps every channel-day in order and grows only the last file |
| LogStore.RotateIsGood | internal/logstore/logstore.go:134-144 | Rotation opens the next suffix, and only when the base file is full |
| LogStore.RotatesIffFull | internal/logstore/logstore.go:134-177 | A write goes to a new file exactly if its own channel has a limit and the last file has reached it |
| LogFiles.FileNameIsInjective | internal/logstore/logstore.go:60-66 | Channel, day and suffix can be read off a file name |
| LogFiles.ReadingsAgree | internal/mesh/tail.go:81-88 | On FileName-made names the four sort keys are the day and the numeric suffix, above 999 too |
| LogFiles.StrictKeyReads | internal/web/web.go:272-297 | Panel and tray read any number behind the day, zero included, and refuse a negative one |
| Text.LessIsNumeric | internal/mesh/tail.go:72-73 | Comparing days as strings is comparing them as numbers |
| Text.LessAtFirstDifference | internal/mesh/tail.go:72-73 | Strings compare like the bytes at the first place where they differ |
| LogFiles.RunningBest | internal/web/web.go:298-311 | The running best is a candidate no other one is later than |
| LogFiles.LatestFile | internal/web/web.go:272-320 | The panel picks a greatest file under its key |
| LogFiles.LatestTailFile | internal/mesh/tail.go:64-88 | The remote tail picks a greatest file under its key |
| LogFiles.LatestSerialLog | internal/tray/model.go:69-107 | The tray picks a greatest file under its key |
| LogFiles.LatestSerial | internal/facts/facts.go:284-307 | Fact seeding picks a greatest file under its key |
| LogFiles.PanelAndTailAgree | internal/mesh/tail.go:59-88 | For either channel panel and tail follow the same file: none of the channel has a later calendar day, or a greater number on its day, whatever else lies beside the log files |
| LogFiles.SelectorsAgree | internal/tray/model.go:66-93 | For the serial log all four choose the same file: none has a later calendar day, or a greater number on its day |
| LogFiles.LatestIsTheActiveFile | internal/logstore/logstore.go:60-144 | That file is the one the writer appends to: the highest suffix of the numerically last day |
| TailFollower.Follower.Emit | internal/mesh/tail.go:107-151 | One poll: while the file goes on the pushed blocks extend one contiguous slice of it; a new or shortened file starts a new slice at most 16 KB before its end; everything readable is pushed |
| TailFollower.Follower.ReadOn | internal/mesh/tail.go:134-147 | The read loop pushes everything up to the end the file has by then, in blocks of at most 1 MiB, one a read; it fails exactly at the first block the connection does not take |
| TailFollower.Follower.ReadOnce | internal/mesh/tail.go:136-146 | One read extends the slice by the next bytes; a failed send loses only its own block |
| TailFollower.HandleTail | internal/mesh/tail.go:104-170 | While the log goes from file to file, everything sent including keep-alives joins to one slice of each file in turn, from where its first reading began to an end no size read from it exceeds: across a rotation exactly the rest of the old file and what lies before the last 16 KB of the new one are lost |
| TailFollower.FirstSizeStays | internal/mesh/tail.go:128-130 | The start is fixed by the first non-empty reading |
| PairStore.Store.constructor | internal/mesh/pairing.go:46-71 | Loading drops stale knocks and keeps every decision |
| PairStore.Store.Knock | internal/mesh/pairing.go:102-127 | A decision stands and is only refreshed; anyone else is noted or auto-approved; saved exactly when new |
| PairStore.Store.Resolve | internal/mesh/pairing.go:190-219 | A selector resolves exactly if it hits one known entry, is ambiguous exactly if it hits several and unknown exactly if none |
| PairStore.Store.Approve | internal/mesh/pairing.go:139-161 | Refused exactly if the selector picks nobody; else the picked entry moves to the approved set and the file follows if it can be saved |
| PairStore.Store.Revoke | internal/mesh/pairing.go:164-186 | Refused exactly if the selector picks nobody who can be revoked; else the entry moves to the revoked set and the file follows if it can be saved |
| PairStore.Store.Save | internal/mesh/pairing.go:87-98 | Saving prunes, then replaces the file or leaves it alone |
| PairStore.AlwaysConsistent | internal/mesh/pairing.go:102-186 | In every reachable state Revoked is disjoint from Approved and from Pending, in memory and on disk |
| PairStore.KnocksNeverReadmit | internal/mesh/pairing.go:102-127 | No sequence of knocks, auto-approving or not, and of decisions on others moves a revoked id into Approved |
| PairStore.FileKeepsUp | internal/mesh/pairing.go:87-98 | With successful saves the file always holds the decisions and knocks of memory |
| PairStore.RestartKeepsDecisions | internal/mesh/pairing.go:46-98 | Reloading then gives the same Approved and Revoked sets and drops only stale knocks |
| PairStore.RevocationSurvivesIff | internal/mesh/pairing.go:164-186 | After any history and whatever the process does next but approve the id, a revocation survives a restart if and only if it was saved, the file already held the id revoked, or a later operation saved |
| PairStore.UnsavedRevocationIsUndone | internal/mesh/pairing.go:178-184 | A history in which it does not: the save fails and a restart lets the peer back in |
| PairStore.ApproveShows | internal/mesh/pairing.go:146-156 | An approved entry shows the name and address it had pending, under the new date; those of a revoked one are lost, against the comment beside it; nobody else is touched |
| PairStore.KnockShows | internal/mesh/pairing.go:102-127 | What a knock leaves: a decision stands, an unknown id is approved or noted as asked, its entry shows the fresh data, and nobody else is touched but stale knocks |
| PairStore.KnockSavesIffNew | internal/mesh/pairing.go:102-127 | The file is written exactly by the knock of an unknown peer |
| PairStore.RevokeShows | internal/mesh/pairing.go:164-186 | A revoked entry shows what it had pending or approved, under the new date, and nobody else is touched |
| PairStore.CanRevokeIff | internal/mesh/pairing.go:164-177 | Revoke finds exactly whoever asked or was approved |
| PairStore.SelectsIffPrefix | internal/mesh/pairing.go:190-219 | A selector hits an entry exactly if it begins its id or its name |
| Gate.AdmittedWasChecked | internal/mesh/node.go:330-350 | An admitted frame passed its own check, with this very frame, as the last step of its connection |
| Gate.DispatchesHaveOwnChecks | internal/mesh/node.go:316-379 | Two dispatched frames of one connection have two different passed checks, in order |
| Gate.EffectsWereApproved | internal/mesh/node.go:316-379 | Nothing is done on behalf of a peer without a check of that very frame that passed before, while the peer was approved |
| Gate.EffectsAreCounted | internal/mesh/node.go:316-503 | Over every run and in either access mode each effect happened exactly as often as a dispatched frame called for it |
| Gate.FullAccessEffects | internal/mesh/node.go:433-503 | Over every run, exactly what a node with full access does and which frame brings it about: every request is forwarded with its command, uploads stored, tunnels opened, tokens given, and exactly the remaining cases turned down |
| Gate.FrameIsDecided | internal/mesh/node.go:316-379 | A frame behind the gate is handled if its peer is approved when it is looked at, and else ends the connection |
| Gate.OpenFrameIsServed | internal/mesh/node.go:330-350 | A ping or pairing frame is served without a check |
| Gate.NextStep | internal/mesh/node.go:296-379 | No connection gets stuck: each has a next step until it is gone |
| Gate.ReadOnlyEffects | internal/mesh/node.go:433-503 | Over every run, exactly what a read-only node does for its peers and which frame brings it about; a refused flash still sweeps the upload sessions it names, a refused board dump still leaves a share directory |
| Gate.ReadOnlyOnlyReads | internal/mesh/node.go:471-503 | Of requests only status and facts are forwarded; no upload is stored, no tunnel opened, no download token given out |
| Gate.RevokedPeersAreOut | internal/mesh/link.go:229-236 | After RevokePeer returned and until the next approval: no check of that peer passes, and every connection of it that ever passed one is closed or returning |
| Gate.RevocationReturns | internal/mesh/link.go:229-236 | A revocation can always return by its own steps, and then every connection of the peer tracked when it took its list is closed |
| Gate.ApprovedIffLetIn | internal/mesh/pairing.go:102-186 | Over every run: a peer is approved exactly if it was let in, by an approval or an auto-approved knock, and not revoked since; revoked exactly if revoked and not approved since |
| Gate.OneFrameAfterRevocation | internal/mesh/node.go:330-350 | After a revocation and until the next approval each connection of the peer finishes at most one more frame, one that had passed its check before |
| Gate.ClosedWasRevoked | internal/mesh/link.go:229-236 | Nobody else is thrown out: a connection closed before its own goroutine ended belongs to a peer that was revoked |
| Gate.ClosedReceivesNothing | internal/mesh/node.go:330-350 | Once closed, a connection receives nothing more |
| Gate.NewcomerWaits | internal/mesh/node.go:296-329 | Whoever connects is announced, tracked and waits for frames, and is approved if it was, or on the spot if the node is asked to and it is not revoked |
| Gate.ConnectionCanEnd | internal/mesh/node.go:296-379 | From everywhere a connection can end by at most six own steps, and then it is closed and no longer tracked |
| Gate.DecisionsTakeEffect | internal/mesh/pairing.go:139-186 | Anybody can be approved, and revoked unless that is so already, and it holds at once |
| Gate.StaysRevoked | internal/mesh/pairing.go:164-186 | A revoked id stays revoked and unapproved until it is approved again, through all knocks |
| Gate.InvAlways | internal/mesh/pairing.go:281-299 | Whoever handles frames is tracked under its peer, and decisions are disjoint, in every reachable state |
| Gate.KnockDecides | internal/mesh/pairing.go:102-127 | The decisions the gate reads are those Knock takes |
| Gate.ApproveDecides | internal/mesh/pairing.go:139-161 | and Approve |
| Gate.RevokeDecides | internal/mesh/pairing.go:164-186 | and Revoke |
| Nvs.ParseNvs | internal/board/nvs.go:56-142 | On arbitrary bytes every index stays in bounds and the result is the scan of all pages with names resolved afterwards and secrets masked |
| Nvs.ParsePage | internal/board/nvs.go:67-127 | The slot loop collects exactly the definitions and entries of a page; erased pages give nothing |
| Nvs.ParseSlot | internal/board/nvs.go:73-125 | One slot contributes nothing, a definition or an entry, and says how many data slots follow |
| Nvs.DefinitionIsOneSlot | internal/board/nvs.go:88-93 | A namespace definition takes one slot whatever its span says |
| Nvs.EntryTakesItsSpan | internal/board/nvs.go:78-87 | Any other entry takes the slots its span says, up to a full page, and no other span skips anything |
| Nvs.ParsesWhatWasWritten | internal/board/nvs.go:56-156 | ParseNVS inverts the page encoder: for any well-formed pages it returns exactly the stored entries in order, and data slots are never read as entries |
| Nvs.ScanWrittenImage | internal/board/nvs.go:67-127 | The facts scanned from an encoded image are those that were encoded |
| Nvs.ScanItem | internal/board/nvs.go:78-125 | The scan goes on right behind the data slots of an item |
| Nvs.NamedByTheLastDefinition | internal/board/nvs.go:129-134 | An entry carries the name of the last definition of its index, wherever in the image that is |
| Nvs.NamedMeansDefined | internal/board/nvs.go:88-93 | An index has a name exactly if some definition gave it one |
| Nvs.SecretsAreMasked | internal/board/nvs.go:135-139 | Exactly the values of credential keys are masked unless asked for |
| Nvs.IntegersComeBack | internal/board/nvs.go:97-115 | Integers of every width and sign come back as themselves |
| Nvs.BlobSizesComeBack | internal/board/nvs.go:116-118 | A blob index tells the size it was given |
| Nvs.StringsComeBack | internal/board/nvs.go:145-156 | Strings come back without terminator and padding |
| Nvs.ShowsWhatWasStored | internal/board/nvs.go:56-156 | End to end: integers of all widths, strings and blob sizes stored in any pages are shown as those values, each under its key and the name of its namespace |
| Partition.ParsePartitions | internal/board/partition.go:52-73 | Every entry before the stop is decoded, and the stop is the end, an MD5 or erased entry, or a bad magic reported with its index |
| Partition.ParseIsUnique | internal/board/partition.go:52-73 | That contract leaves one result for every byte string |
| Partition.WrittenIsParsed | internal/board/partition.go:52-82 | A written table followed by anything that is no entry reads as that table |
| Partition.ParsesWhatWasWritten | internal/board/partition.go:50-82 | ParsePartitions inverts the table writer with an MD5, erased or missing tail; a damaged entry is reported by its index |
| Partition.DecodeEncoded | internal/board/partition.go:62-70 | One entry comes back field by field, labels of all 16 bytes included |
| Partition.Find | internal/board/partition.go:41-48 | The first partition of that label, or none |
| Upload.Server.HandleUpload | internal/mesh/upload.go:77-130 | Refused exactly for bad names, read-only mode or the cap; acknowledged exactly if it is not and is then on disk in full in its place and on the account; else what fitted is on disk and all of it charged; a session its account covers stays covered and under the cap, and no other session is touched |
| Upload.Server.WriteChunk | internal/mesh/upload.go:112-129 | Chunk 0 replaces the file, later chunks append to an existing one; acknowledged exactly if it opened and all of it fitted, and what fitted is on disk in any case |
| Upload.WrittenIsPrefix | internal/mesh/upload.go:112-129 | The named file begins anew or goes on with the bytes that fitted, a file that does not open or is not there to append to stays as it was, and no other file is touched |
| Upload.Server.Cleanup | internal/mesh/upload.go:186-205 | Exactly the directories that pass the path test are removed, as far as their removal succeeds, and exactly the ids read off their names are forgotten; all other sessions and accounts are untouched |
| Upload.CleanupCoversIff | internal/mesh/upload.go:186-205 | A cleanup keeps every account covering its session if and only if nothing remains of the sessions whose ids it forgets |
| Upload.OneDirectoryCoversIff | internal/mesh/upload.go:190-199 | For one directory whose removal succeeds: if and only if its name has the mesh- prefix or the session it is mistaken for holds nothing |
| Upload.UnprefixedDirectoryForgets | internal/mesh/upload.go:190-202 | The failing input: a directory named like a session but without the prefix passes the path test, and the account of a session on disk is gone |
| Upload.SweptIffBelowRoot | internal/mesh/upload.go:190-196 | The directories a cleanup takes are those right below the upload root whose id is a safe name |
| Upload.ReservedIff | internal/mesh/upload.go:65-75 | A device name is reserved in any case and with any extension, and nothing else is |
| Upload.AllowedNamesStayPut | internal/mesh/upload.go:52-84 | Accepted names hold no separator, drive, blank or control character and are no device |
| Upload.SendChunk | internal/mesh/upload.go:238-258 | A chunk succeeds exactly if it and its answer get through, the server takes writes, the chunk has its place, stays under the cap and fits the disk; one that is not sent changes nothing |
| Upload.SendFile | internal/mesh/upload.go:229-261 | If all chunks are acknowledged, as many as the length asks for, the server file is the client file, empty ones included |
| Upload.UploadSession | internal/mesh/upload.go:209-263 | Success means every server file equals its client bytes, whatever other sessions did meanwhile; and it succeeds when nothing fails and the files fit the cap |
| Upload.TotalGrows | internal/mesh/upload.go:100-128 | Writing a chunk adds at most its length to the session on disk |
| UploadRaces.StepKeepsCovered | internal/mesh/upload.go:100-128 | With frames split into their steps, bytes on disk plus chunks in flight stay within the account, and it within the cap |
| Upload.Server.constructor | internal/mesh/node.go:734-750 | A new process keeps exactly what of the old sessions is not over age or could not be removed, and no account |
| Upload.RestartCoversIff | internal/mesh/node.go:734-750 | After a restart every account covers its session if and only if no session has a byte left |
| UploadRaces.CoveredIffAccountKept | internal/mesh/upload.go:186-205 | For every run, restarts included, whatever directories are cleaned and however far their removal gets: the account covers its session at all times if and only if no cleanup forgets its id while the session has bytes on disk or on their way, and no restart keeps bytes of it |
| UploadRaces.RestartForgets | internal/mesh/node.go:734-750 | A run without any cleanup in which a restart within the age limit leaves a byte on disk without account |
| UploadRaces.QuietCleanupIsHarmless | internal/mesh/upload.go:199-202 | A cleanup of the session's own directory is harmless if the directory goes entirely, no frame of the session is under way then and none comes before the id is forgotten |
| UploadRaces.UnprefixedCleanupIsHarmlessIff | internal/mesh/upload.go:195-202 | A cleanup of a directory without the prefix removes nothing and, when its process ends it, is harmless if and only if the session whose id it forgets has nothing on disk or on its way at that moment |
| UploadRaces.CleanupWithoutPrefix | internal/mesh/upload.go:190-202 | A run without any race in which such a cleanup leaves a byte on disk without account |
| UploadRaces.UploadDuringCleanup | internal/mesh/upload.go:199-202 | A run in which a chunk between the two halves of a cleanup ends up on disk without account |
| UploadRaces.UndisturbedRefusal | internal/mesh/upload.go:100-111 | Left alone, a frame over the cap leaves files and account as they were |
| UploadRaces.UndisturbedFrame | internal/mesh/upload.go:100-129 | Left alone, a frame within the cap is charged and written |
| UploadRaces.UndisturbedFrameIsAccepted | internal/mesh/upload.go:100-129 | and, written in full, accepted as by Upload.Server.HandleUpload |
| UploadRaces.UndisturbedCleanup | internal/mesh/upload.go:186-205 | Left alone, a cleanup does what Upload.Server.Cleanup does |
| Facts.Store.Set | internal/facts/facts.go:198-211 | A call writes exactly when it says something new from a source at least as trusted, and reports exactly that |
| Facts.Store.Feed | internal/facts/facts.go:137-194 | One line does what its pattern hits do in order, reports a change exactly if one of them made one, and the file follows every change |
| Facts.StoreKeepsTheTop | internal/facts/facts.go:196-211 | After any lines each fact is the last non-empty value passed to set by the most trusted origin that told one: the device before a probe, a probe before a log line |
| Facts.FactIsOfFirstSaying | internal/facts/facts.go:198-211 | Source and time of a fact are those of the call that said it first; repeating it refreshes nothing |
| Facts.DevPairDecides | internal/facts/facts.go:143-156 | A pair of a #DEV line becomes the fact of its key, whoever told that before, if the key is known or there is room; else nothing changes |
| Facts.CleanedValue | internal/facts/facts.go:152-153 | A value is kept without the quotes around it, however many, and cut after 256 bytes |
| Facts.ToldIsKnown | internal/facts/facts.go:198-211 | A key has a fact exactly if it was ever told a value |
| Facts.RankNeverFalls | internal/facts/facts.go:202-205 | No fact disappears or falls back to a less trusted origin |
| Facts.StoreStaysSmall | internal/facts/facts.go:143-156 | Whatever a device prints, at most 32 keys of its own and the 11 rule keys are stored |

## Left out

- LogStore.DeviceWriter.EnsureDay: does not model a Stat that fails right after a successful open, which makes the code restart its size count at zero.
- LogStore.DeviceWriter.WriteLine: order is kept while retention takes no file of the directory; what it leaves of a past day is `LogStore.RetentionLeavesTheEnd`. A retention of at least a day never takes a file of the current one while the clock runs forward.
- LogStore.FilesTellTheLines: one writer per directory and one rotate limit over its life; two writers or a changed limit can append to an older file.
- Upload.Server.Cleanup: the components of a bin path are already split off and cleaned; what filepath makes of `..` is not part of this model.
- UploadRaces.CoveredIffAccountKept: a frame is read before its account is looked at and written in one step; a crash in the middle of a write is a short write before the restart.
- Upload.UploadSession: frames of other connections are arbitrary but do not name this session id, which the client draws at random. A name that denotes a directory (`.` or `..`) is treated like any other; on disk its write fails.
- Gate.RevokedPeersAreOut: about revocations that were saved; when the save fails the code reports an error, keeps the decision in memory and closes no connection.
- Gate.ReadOnlyEffects: a sweep of upload sessions is one effect here; what it removes is `Upload.Server.Cleanup`.
- TailFollower.HandleTail: each read returns what the file has, up to the buffer; a file only grows while it is followed and is not the latest again later. A truncation is noticed only below the offset, as in the code (`TailFollower.Follower.Emit`).
- LogFiles.SelectorsAgree: the log files of the channel (its prefix and `.log`) were named by FileName; on other names of that form the four selectors differ. Days are eight digits.
- Links.NoLostPeer: no shutdown, so stopLink and a cancelled context are not part of the runs; the link status table is left out.
- Registry.AlwaysKeyed: about ids that do not begin with `static:`; a receiver only checks that an id is not empty, the program itself draws hexadecimal ones.
- Facts.Store.Feed: the pattern tables are a parameter (a line is the list of its hits), and info.json is taken to be writable.
- Nvs.ParsesWhatWasWritten: strings lie within their slots; the parser's cut at the page end is part of `Nvs.ParseNvs` only. Values are modelled before they are printed. `Nvs.ShowsWhatWasStored` has single-byte unsigned integers outside namespace 0, where they are definitions.
- PairStore.Store.Resolve: Approve and Revoke look up and act under one lock here, under two in the code; Gate lets anything happen in between.
- Channel.AcceptedIsPrefixOfSent: an ideal AEAD with one key per salt and direction, and a salt no earlier connection had. For the accepting side the second holds between hellos as the program sends them (`SaltCache.OwnHellosGetFreshKeys`); after 64 other hellos, after a restart or under another spelling a salt can come again. Of key derivation only what it sees of the salt is modelled; real AES-GCM is not part of this model.
- Text.AtoiOfPadded: Atoi is on unbounded integers, so suffixes beyond the machine integer are not modelled.
- The display state of a collector, backoff times, the PAUSED file's content and the event texts: they decide nothing above (a pause is an arbitrary answer).
- The token table of downloads, the single-tail guard of a connection, Reopen, FormatNVS and FormatPartitions: one map or one loop each, tied to nothing else in the model; a download meets an arbitrary grant, a tail an arbitrary answer of its guard.
- Proxy sessions and tunnels: byte pumps not tied to a connection of the model.
- Signature engine, firmware tools, idle detection, elevation, panel, tray, command line and translations: calls into code outside the model, or user interface.
