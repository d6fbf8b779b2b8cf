# Cordelia core: a verified model of the peer governor and of replication

A Cordelia node keeps encrypted memory items in a local store and shares them, group by group, with its peers.
This project models the parts of the node whose behaviour is hard to see from the code, and proves what they promise.

- **The peer governor** (`Peers`, `Ranking`, `Governor`, `GovernorTheorems`, `OverDial`, `PeerOrder`, `GovernorRuns`,
  `PeerRecords`). Every tick it unbans, reaps, dials, promotes, demotes, churns and evicts peers. The class `Governor` follows
  the code phase by phase; one relation, `Ticked`, says what a tick may do, and the theorems about dial budget, hot quota,
  freshness, hysteresis, preference and records are about that relation, for one tick and for whole runs.
- **The peer pool** (`PeerPool`, `GovernorTask`, `LateConnect`). The network side keeps its own table of connected peers and
  replays the governor's log on it. Proved: the two agree throughout a run if and only if every connect lands in step with the
  governor, and a run that the loop can take in which one does not.
- **Last-writer-wins replication** (`Replication`, `Admission`, `OrderFreedom`, `Flood`, `TombstoneChase`, `FloodCoverage`,
  `UncoveredFloods`). Receipt of items; whose items a node takes; exactly when its order does not matter; the preservation of
  versions over many hops; and the flooding of pushes through relays: exactly when it ends, and exactly what it has covered
  when it ends.
- **Anti-entropy** (`AntiEntropy`, `Convergence`, `Cursor`, `TiedPages`, `DistinctPages`, `SyncRuns`). The header diff refines
  a full copy; two nodes that pull from each other converge exactly under a stated condition; and what a run of paging with a
  date cursor visits, with rounds missed and bootstraps in between.
- **Outbound pushes** (`Cultures`, `Batching`, `PushQueue`). Greedy packing is lossless and optimal; the retry queue holds
  exactly the local writes to be pushed, in order, loses none before it gives up, and gives up exactly when it should.
- **Group descriptors** (`Descriptors`, `MergeReports`). The merge of descriptors received from peers: which are taken and how
  they are reported; owner keys stay pinned; exactly when merging again takes nothing; and how far a signature travels.

`FailingCases` has an input each for promises that hold only under a condition. `Collections`, `Texts`
and `Era` hold shared facts, text order and length, and the protocol constants.

## How the model is built

- Objects whose methods change fields are classes (`Governor`, `PeerPool`, `GovernorLoop`, `Storage`, `Schedule`, `PushQueue`,
  `GroupStorage`); each method is proved against a function or relation on values, and the theorems are about those.
- The iteration order of a hash map is left open: a method enumerates its keys in some order, and the specifications allow any.
- The clock, the peers the pool reports, and the hash and signature functions are parameters. The hash is any function. The
  lemmas on how far a signature travels assume of the two payloads at hand that no signature fits both (`Telling`).
- Times are natural numbers of nanoseconds; scores and the churn fraction are reals. Dates are texts that the code compares as
  such: group dates are kept as texts, item dates are reals, and `RankEmbeds` proves that this loses nothing.
- Storage calls succeed, and one event is handled at a time.

## Properties that hold only under a condition

- The dial budget fails for every churn fraction above one (`OverdialAboveOne`) and holds up to one (`DialBudget`).
- A new connection is always filed as warm in the pool. If the governor holds the peer as hot or banned, or no longer holds it
  although a dial to it was pending, or drops a connected placeholder, the two disagree (`ConnectKeepsAgreementIff`); a dialled
  peer evicted before it connects is such a case (`LateConnectDisagrees`).
- A flood ends exactly when no id is carried both as an item and as a tombstone that take effect (`FloodEndsIff`): a deletion
  leaves no record, so the two can chase each other around a ring of relays (`ChaseForever`). It covers an id exactly when no
  carried item of it is hidden by an older version of the same checksum, and no tombstone that takes effect is carried for it or
  it has no version at all (`FloodCoversIff`).
- The order of receipt matters exactly when an id's versions are not decided (`OrderFreeIff`), and two pulls leave a difference
  exactly when two contents share a date or what must travel is oversized (`TwoWayPullConvergesIff`, `EqualDatesStayApart`).
- Paging reaches a group of distinct dates exactly when it fits the run's longest stretch of finished rounds since one without
  a date filter (`AllItemsReachedIff`). That is ten pages if no round is missed (`SteadyReachesIff`); it can be any number if
  full syncs are missed, and one if only they finish (`MissedFullSyncsReach`, `OnlyFullSyncsReach`). Items whose date a page
  boundary divides are lost to the sweep (`RoundLosesNothingIff`, `SweepReachesIff`, `DividedDateLosesItem`).
- A sound descriptor that the tables left by the first merge let pass by its keys, and that is dated ahead of the clock of the
  last one taken for its group, is merged again and again (`MergeAnyAgainIff`, `AheadOfClockMergesAgain`).
- The code comments call descriptors propagated from peer to peer, deletions included. A signed row carries the signature of its
  first date and culture for good, so peers find it sound only while both are unchanged (`PassedOnSoundIff`, `RewrittenSoundIff`,
  `PassedOnUnsound`, `RewrittenUnsound`).

Where a comment and the code differ, the model follows the code: excess demotion is described as looking at delivered items, and
looks at the last activity of any kind.

## Model

| member | source | states |
|---|---|---|
| `GovernorTheorems.DialBudget` | crates/cordelia-governor/src/lib.rs:499-579 | with a churn fraction of at most one, active peers plus this tick's dials stay within the larger of the warm maximum and the active peers before the tick |
| `OverDial.OverdialAboveOne` | crates/cordelia-governor/src/lib.rs:693-741 | that bound is exact in the fraction: for every fraction above one there is a tick that breaks the budget |
| `GovernorTheorems.ChurnCountBounded` | crates/cordelia-governor/src/lib.rs:699-701 | a fraction of at most one never churns more warm peers than there are |
| `GovernorTheorems.HotAtMostMax` | crates/cordelia-governor/src/lib.rs:581-691 | whatever the targets, no tick leaves more hot peers than the maximum |
| `GovernorTheorems.DemotionNeverActs` | crates/cordelia-governor/src/lib.rs:654-691 | with minimum at most maximum, a tick that starts within the hot quota demotes nobody |
| `GovernorTheorems.HotAtLeastMin` | crates/cordelia-governor/src/lib.rs:581-652 | with minimum at most maximum, after a tick there are at least as many hot peers as the smaller of the minimum and what reaping left plus the eligible warm peers |
| `GovernorTheorems.PostTickFreshness` | crates/cordelia-governor/src/lib.rs:457-497 | after a tick every hot peer was active within the dead timeout, and every silent warm peer was hot before it |
| `GovernorTheorems.TickDemotesSilent` | crates/cordelia-governor/src/lib.rs:457-497 | one tick drops a silent peer that was not hot, and a silent hot one stops being hot |
| `GovernorTheorems.SilentPeerIsDropped` | crates/cordelia-governor/src/lib.rs:457-652 | a peer silent past the timeout is not active after two consecutive ticks without activity or reconnect |
| `GovernorTheorems.BackoffGrows` | crates/cordelia-governor/src/lib.rs:277-286 | the reconnect back-off doubles from one minute, is capped at fifteen, and never shrinks as failures add up |
| `GovernorTheorems.ColdAtMostMax` | crates/cordelia-governor/src/lib.rs:743-770 | no tick leaves more cold peers than the cold maximum |
| `GovernorTheorems.EvictionIsOldestFirst` | crates/cordelia-governor/src/lib.rs:743-770 | a tick that forgets a peer and keeps a cold one leaves exactly the cold maximum, and the kept one was not idle longer than the forgotten one |
| `PeerOrder.ScoreIsRate` | crates/cordelia-governor/src/lib.rs:125-138 | a score times the connection time, at least a second, times 100 plus the round-trip time, 100 if unmeasured, is the items delivered times a constant |
| `PeerOrder.OutscoresIff` | crates/cordelia-governor/src/lib.rs:125-138 | one peer outscores another if and only if it delivered more for the time and the round trips of both |
| `PeerOrder.QuickerOutscoresIff` | crates/cordelia-governor/src/lib.rs:125-138 | same items and connection time: the quicker peer scores higher, if and only if there are items |
| `PeerOrder.BusierOutscoresIff` | crates/cordelia-governor/src/lib.rs:125-138 | same connection time and round trip: the peer that delivered more scores higher |
| `PeerOrder.NewerOutscoresIff` | crates/cordelia-governor/src/lib.rs:125-138 | same items and round trip: the peer connected for less time scores higher; below a second it makes no difference |
| `PeerOrder.PromotionPrefersBetter` | crates/cordelia-governor/src/lib.rs:581-652 | a promoted peer was warm, fresh and cooled down, and is not the slower, the idler or the longer connected of two that differ only in that, one of them passed over |
| `PeerOrder.ChallengerIsPromotedIff` | crates/cordelia-governor/src/lib.rs:581-652 | with the minimum of hot peers kept, at most one more is promoted, and that if and only if there is room and some ready peer outweighs some hot one |
| `PeerOrder.DemotedAreWorst` | crates/cordelia-governor/src/lib.rs:654-691 | no demoted peer outweighs a hot one that stays |
| `PeerOrder.WorstFirst` | crates/cordelia-governor/src/lib.rs:654-691 | demotion takes stale peers first, and the lowest score among equals |
| `PeerOrder.DialsFriendsFirst` | crates/cordelia-governor/src/lib.rs:499-579 | a tick dials cold peers that the policy permits and that are past their back-off, as many as there is room for, and first those that share a group with us |
| `PeerOrder.RedialsArePermitted` | crates/cordelia-governor/src/lib.rs:359-367 | churn dials cold peers that the policy permits only |
| `PeerOrder.ChurnCountIsCeiling` | crates/cordelia-governor/src/lib.rs:699-701 | the churn count is warm peers times fraction, rounded up |
| `PeerOrder.ChurnsWhenDue` | crates/cordelia-governor/src/lib.rs:693-741 | a tick churns only after the interval and if there is a cold peer, and then the counted number |
| `PeerOrder.BansLast` | crates/cordelia-governor/src/lib.rs:431-455 | a tick leaves a banned peer as it is until its time is up, and no longer; it does not dial it |
| `PeerRecords.TickKeepsRecord` | crates/cordelia-governor/src/lib.rs:431-770 | a tick leaves a peer's profile alone; it forgets the failures of those it promotes and the connection time of those it reaps or churns |
| `PeerRecords.StepFollows` | crates/cordelia-governor/src/lib.rs:191-350 | every event of a run changes exactly the stated fields of a record: items, round trip, flag, addresses, groups, activity and failures |
| `PeerRecords.EventMovesState` | crates/cordelia-governor/src/lib.rs:191-350 | between ticks a peer only turns warm by connecting, cold by disconnecting, or banned |
| `PeerRecords.NewPeerIsBlank` | crates/cordelia-governor/src/lib.rs:109-123 | a peer not known before starts cold with an empty record |
| `PeerRecords.RenamingMovesRecord` | crates/cordelia-governor/src/lib.rs:288-324 | renaming moves the record as it is; if the new name is connected, only a relay flag is added to it |
| `PeerRecords.RunRemembers` | crates/cordelia-governor/src/lib.rs:191-350 | over any run a record adds up the deliveries and holds the last round trip and flag reported |
| `PeerRecords.RunKeepsTimes` | crates/cordelia-governor/src/lib.rs:191-770 | in every run only connected peers have a connection time |
| `PeerRecords.BansEscalate` | crates/cordelia-governor/src/lib.rs:326-349 | the n-th ban in a row lasts n hours |
| `GovernorRuns.EventsAddNoHot` | crates/cordelia-governor/src/lib.rs:191-350 | no event between ticks adds a hot peer |
| `GovernorRuns.HotQuotaHolds` | crates/cordelia-governor/src/lib.rs:581-691 | with minimum at most maximum, every reachable state is within the hot quota and excess demotion never acts in any run |
| `GovernorRuns.RunObeysMarkRule` | crates/cordelia-governor/src/lib.rs:293-324 | in every run the demotion mark travels with its entry, through renaming too, and only reaping moves it |
| `GovernorRuns.RunKeepsCooled` | crates/cordelia-governor/src/lib.rs:581-652 | in every reachable state a hot peer's last reaping demotion lies further back than the dead timeout |
| `GovernorRuns.Hysteresis` | crates/cordelia-governor/src/lib.rs:457-652 | an entry that reaping demoted is not hot again until more than the dead timeout later, over any interleaving of ticks, disconnects, reconnects and renamings |
| `PeerPoolModel.IntersectionKeeps` | crates/cordelia-node/src/peer_pool.rs:69-85 | the intersection keeps exactly the common groups, each as often as the peer named it |
| `PeerPoolModel.MirrorPhase` | crates/cordelia-node/src/peer_pool.rs:321-358 | replaying what any tick phase logged keeps the pool an exact image of the governor, apart from the peers still to be removed |
| `GovernorTask.TickKeepsAgreement` | crates/cordelia-node/src/governor_task.rs:71-89 | a tick replayed on an agreeing pool leaves it agreeing; every disconnect is of a held peer, and none is repeated |
| `GovernorTask.ConnectKeepsAgreementIff` | crates/cordelia-node/src/governor_task.rs:300-345 | a connect keeps agreement if and only if the entry it lands on is cold or warm, or is unknown and no pending dial was taken for it, and no connected entry is moved or dropped |
| `GovernorTask.DisconnectKeepsAgreement` | crates/cordelia-node/src/governor_task.rs:408-412 | a disconnect event keeps agreement |
| `GovernorTask.ConnectKeepsRecords` | crates/cordelia-node/src/governor_task.rs:325-330 | without a pending dial a known peer keeps its record and turns warm if cold, an unknown one is added warm, and no other entry changes |
| `GovernorTask.DialledIsRecognised` | crates/cordelia-node/src/governor_task.rs:109-132 | a peer that answers at its first known address is taken for the one that was dialled there |
| `GovernorTask.LoopStepKeepsAgreementIff` | crates/cordelia-node/src/governor_task.rs:69-606 | every event keeps agreement, but for a connect that does not land in step, and that always breaks it |
| `GovernorTask.AgreementHoldsIff` | crates/cordelia-node/src/governor_task.rs:69-606 | in a run of ticks, connects, disconnects, pings, identifications, exchanges, discoveries with or without a relay flag and dial failures the pool always holds exactly the governor's active peers in the same states if and only if every connect lands in step |
| `LateConnect.LateConnectDisagrees` | crates/cordelia-node/src/governor_task.rs:69-345 | a run from an empty start that breaks it: a peer is dialled, evicted by a later tick while the dial is pending, and then connects |
| `Replication.OutcomesAreReceipts` | crates/cordelia-node/src/swarm_task.rs:1131-1149 | the outcomes of a batch are, item by item, those of receiving the item after the ones before it |
| `Replication.TallyCounts` | crates/cordelia-node/src/swarm_task.rs:1117-1152 | the counts of a batch are those of its outcomes, and every item is counted once |
| `Replication.ReceiveRaises` | crates/cordelia-replication/src/engine.rs:140-192 | a non-tombstone is stored exactly when it is admissible, newer and of another checksum; no stored date ever falls |
| `Replication.ReceiveAllRaises` | crates/cordelia-replication/src/engine.rs:140-192 | no sequence of non-tombstones lowers a stored date or removes a row, with no assumption on them |
| `Replication.NewestWins` | crates/cordelia-replication/src/engine.rs:140-192 | if date and checksum determine each other, any order with any repetition leaves the newest version of every id |
| `Replication.OrderIndependent` | crates/cordelia-replication/src/engine.rs:140-192 | two deliveries of the same set of versions end in the same versions, and in the same rows if a date names one item |
| `OrderFreedom.OneEndIff` | crates/cordelia-replication/src/engine.rs:140-192 | for any versions of one id, on any row or none: all deliveries end in the same version if and only if none would be taken, or one of those that would be is the newest, alone with its date and its checksum, and no newer version hides behind the row's checksum |
| `OrderFreedom.DecidedFromScratch` | crates/cordelia-replication/src/engine.rs:140-192 | with no row yet the condition reads: the newest date names one checksum, and that checksum has no other date |
| `OrderFreedom.OrderFreeIff` | crates/cordelia-replication/src/engine.rs:140-192 | for any admissible items into any store: the order does not matter if and only if that holds for every id |
| `Admission.OutcomeIs` | crates/cordelia-replication/src/engine.rs:95-145 | the reason of a rejection is the first that applies: size, group, checksum; an accepted tombstone removes its row |
| `Admission.TransparentTakesIff` | crates/cordelia-node/src/swarm_task.rs:625-635 | a transparent relay stores a fresh item if and only if its group is not blocked |
| `Admission.SelectiveTakesIff` | crates/cordelia-node/src/swarm_task.rs:611-635 | a dynamic or explicit relay does if and only if the group is accepted and not blocked |
| `Admission.MemberTakesIff` | crates/cordelia-replication/src/engine.rs:104-118 | a member does if and only if the group is one of its own |
| `Admission.ReceiptsGainOnlyOwn` | crates/cordelia-replication/src/engine.rs:96-192 | whatever is received, no node gains a row of a group it blocks, has not accepted, or is not a member of |
| `Admission.ReceiptsLoseOnlyOwn` | crates/cordelia-replication/src/engine.rs:96-138 | and none loses a row but to a tombstone of a group it takes |
| `Admission.FloodGainsOnlyOwn` | crates/cordelia-node/src/swarm_task.rs:605-690 | so in every flood, whatever the others pass on |
| `Replication.PairCommutesIff` | crates/cordelia-replication/src/engine.rs:147-157 | two versions of a fresh id leave the same row either way if and only if their rows are equal or both date and checksum differ |
| `Replication.StoreStaysOk` | crates/cordelia-replication/src/engine.rs:159-180 | in every run of receipts, local writes and deletes each stored row's checksum is that of its data |
| `Replication.StoreFetchRoundTrip` | crates/cordelia-node/src/swarm_task.rs:1094-1115 | an item stored on receipt and then served is the item that was sent, through the signed and unsigned key version |
| `Replication.EchoIsDuplicate` | crates/cordelia-replication/src/engine.rs:147-152 | receiving back what was stored is a duplicate and changes nothing |
| `Replication.HopsPreserveVersion` | crates/cordelia-replication/src/engine.rs:159-180 | along a chain of any length of store, serve and receive, the last node holds the original bytes, checksum, date, type, author, parent, copy flag and key version |
| `Texts.RankEmbeds` | crates/cordelia-replication/src/engine.rs:153-157 | dates compared as texts embed in the reals, order and equality both ways, so reals stand for them |
| `Flood.DeliverLowersPotential` | crates/cordelia-node/src/swarm_task.rs:642-690 | if no id is carried both ways, each delivery lowers a measure of open items and messages in flight |
| `Flood.FloodTerminates` | crates/cordelia-node/src/swarm_task.rs:642-690 | then every run of deliver and re-push is bounded by that measure |
| `TombstoneChase.ChaseForever` | crates/cordelia-node/src/swarm_task.rs:667-690 | any item and any tombstone of its id that take effect have a run of any length around three relays |
| `TombstoneChase.FloodEndsIff` | crates/cordelia-node/src/swarm_task.rs:642-690 | flooding a set of items always ends if and only if no id is carried both as an item and as a tombstone that take effect |
| `FloodCoverage.DeliverKeepsInv` | crates/cordelia-node/src/swarm_task.rs:642-690 | each delivery keeps the invariant that a relay's rows are held by, rejected by or on their way to each of its peers, for all ids but those set aside |
| `FloodCoverage.FloodCovers` | crates/cordelia-node/src/swarm_task.rs:642-690 | once nothing is in flight, each peer of a relay rejects the group of a version it holds or holds one at least as new, although the sender is skipped, whole batches are forwarded and corrupt items travel along; ids set aside excepted |
| `FloodCoverage.ConnectedRelaysAgree` | crates/cordelia-node/src/swarm_task.rs:610-690 | after that, two relays joined by relay paths both ways hold versions of the same date |
| `FloodCoverage.FloodedRelaysAgree` | crates/cordelia-node/src/swarm_task.rs:610-690 | after any flood this holds for every id not at risk, and the checksums are the same too if a date of the id names one checksum |
| `UncoveredFloods.FloodCoversIff` | crates/cordelia-node/src/swarm_task.rs:642-690 | for any versions held at the start, a finished flood has always covered an id if and only if no carried item of it is hidden by an older version of the same checksum, and no tombstone that takes effect is carried for it or it has no version at all |
| `AntiEntropy.DiffRefinesFullCopy` | crates/cordelia-replication/src/lib.rs:124-143 | fetching only the differing headers leaves exactly the store that receiving the whole remote page would, even when the local page is not aligned with it |
| `AntiEntropy.DiffHeadersIff` | crates/cordelia-replication/src/lib.rs:123-143 | for any two header lists without repeated ids: the ids to fetch are in remote order, and are those of which no local header has both id and checksum |
| `AntiEntropy.EqualHeadersNeedNothing` | crates/cordelia-replication/src/lib.rs:123-143 | two sides with the same headers have nothing to fetch |
| `AntiEntropy.NeededIff` | crates/cordelia-node/src/replication_task.rs:540-575 | of the peer's page exactly those ids are asked for that are not on ours under the same checksum |
| `AntiEntropy.PullPointwise` | crates/cordelia-node/src/replication_task.rs:595-643 | receiving a page settles each id on its own |
| `Convergence.TwoWayPullConvergesIff` | crates/cordelia-node/src/replication_task.rs:500-661 | pulling A from B and then B from A leaves both with the same contents of the group if and only if each id was one-sided, equal or strictly newer on one side, and what must travel is not oversized |
| `SyncRuns.StretchIsSweep` | crates/cordelia-node/src/replication_task.rs:329-442 | at any moment of any run of finished and missed rounds and bootstraps, the pages since the last one without a date filter go from cursor to cursor, whatever was missed in between |
| `TiedPages.RoundLosesNothingIff` | crates/cordelia-storage/src/lib.rs:532-556 | a round loses nothing if and only if the sorted list of matching items does not divide between two equal dates at the page limit |
| `TiedPages.SweepReachesIff` | crates/cordelia-node/src/replication_task.rs:345-385 | dates equal or not, the rounds of a sweep visit the oldest items, as many as fit their pages, if and only if no boundary between the pages divides equal dates |
| `TiedPages.SweepReachesAllIff` | crates/cordelia-node/src/replication_task.rs:345-385 | a sweep reaches every item if and only if the group fits its pages and no page boundary inside it divides equal dates |
| `DistinctPages.SweepPage` | crates/cordelia-node/src/replication_task.rs:345-385 | with distinct dates, page q of a sweep is the q-th stretch of the sorted item list |
| `DistinctPages.PagesJoinUp` | crates/cordelia-node/src/replication_task.rs:345-385 | the pages of a sweep, joined, are the sorted item list from its beginning: no gap, no repeat |
| `DistinctPages.WindowIsCovered` | crates/cordelia-node/src/replication_task.rs:345-385 | a sweep visits exactly the oldest items that fit its pages, ten pages between two full syncs |
| `SyncRuns.RunVisits` | crates/cordelia-node/src/replication_task.rs:329-442 | a run visits exactly the oldest items, as many as fit the pages of its longest such stretch, if no page boundary up to there divides items of equal date |
| `SyncRuns.AllItemsReachedIff` | crates/cordelia-node/src/replication_task.rs:329-442 | with distinct dates, a run reaches every item of the group if and only if the group fits its longest stretch |
| `SyncRuns.UnmissedReach` | crates/cordelia-node/src/replication_task.rs:345-358 | if no round is missed, no stretch is longer than ten pages |
| `SyncRuns.SteadyReach` | crates/cordelia-node/src/replication_task.rs:345-385 | if every round finishes, the longest stretch is ten pages after nineteen rounds |
| `SyncRuns.SteadyReachesIff` | crates/cordelia-node/src/replication_task.rs:345-385 | from then on, with distinct dates, paging has reached every item of the group if and only if the group fits ten pages |
| `SyncRuns.MissedFullSyncsReach` | crates/cordelia-node/src/replication_task.rs:345-393 | if the full syncs are missed and nothing else, every other round adds a page to the stretch, without bound |
| `SyncRuns.OnlyFullSyncsReach` | crates/cordelia-node/src/replication_task.rs:345-393 | if the full syncs finish and nothing else, nothing behind the first page is ever reached |
| `SyncRuns.SweepReceives` | crates/cordelia-node/src/replication_task.rs:329-395 | the rounds of a sweep leave the local store that one copy of the peer's oldest items, as many as fit their pages, would leave |
| `FailingCases.EqualDatesStayApart` | crates/cordelia-replication/src/engine.rs:147-157 | two nodes with different contents of one date keep them, however often they pull |
| `FailingCases.DividedDateLosesItem` | crates/cordelia-storage/src/lib.rs:532-556 | two items of one date and a page of one: the second is listed by no later round |
| `FailingCases.AheadOfClockMergesAgain` | crates/cordelia-node/src/swarm_task.rs:105-234 | a descriptor dated ahead of the clock is taken a second time |
| `FailingCases.PassedOnUnsound` | crates/cordelia-node/src/swarm_task.rs:105-249 | a sound descriptor merged after its date is unsound when passed on |
| `FailingCases.RewrittenUnsound` | crates/cordelia-node/src/swarm_task.rs:105-249 | a row signed and then written anew is advertised unsound |
| `Batching.GreedyIsOptimal` | crates/cordelia-node/src/replication_task.rs:472-492 | no order-preserving split within the limit uses fewer batches |
| `Batching.TotalSizeIs` | crates/cordelia-node/src/replication_task.rs:471-492 | a batch weighs its blobs, its ids in bytes and 256 bytes per item |
| `Batching.BatchLeavesRoom` | crates/cordelia-node/src/replication_task.rs:471-492 | a batch of several items stays within half a mebibyte so counted |
| `Texts.ByteLengthIsEncoded` | crates/cordelia-node/src/swarm_task.rs:118-126 | the length of a text in bytes is that of its UTF-8 encoding, which can be read back |
| `PushQueueModel.EachRetryCosts` | crates/cordelia-node/src/replication_task.rs:241-293 | a tick uses up exactly one attempt of each due push and none of the others, and no attempt number leaves the back-off table |
| `PushQueueModel.AttemptsAreExact` | crates/cordelia-node/src/replication_task.rs:241-293 | a push leaves the queue after exactly the attempts it had left, and until then keeps its items and group |
| `PushQueueModel.GivenUpIff` | crates/cordelia-node/src/replication_task.rs:241-293 | a push is given up if and only if the ticks leave room for all its remaining attempts, each after its back-off |
| `PushQueueModel.Lifetime` | crates/cordelia-node/src/replication_task.rs:233-298 | a push lives at least 380 seconds, and at most four tick intervals longer |
| `Cultures.OnlyTaciturnIsPassive` | crates/cordelia-replication/src/lib.rs:75-87 | taciturn groups alone are passive: chatty, moderate and unknown words all push |
| `Cultures.SyncIntervalIs` | crates/cordelia-replication/src/engine.rs:195-201 | taciturn groups sync at the configured interval, all others once a minute |
| `PushQueueModel.NothingIsLost` | crates/cordelia-node/src/replication_task.rs:96-298 | in every run the items of a group that are buffered, queued or given up are, as a multiset, exactly those of its local writes within the size limit made while it was not taciturn |
| `PushQueueModel.BufferIsInOrder` | crates/cordelia-node/src/replication_task.rs:98-160 | what a group has buffered are its writes since the last flush, in order |
| `PushQueueModel.PushedWriteIsStored` | crates/cordelia-replication/src/engine.rs:37-81 | what is pushed for a local write, an accepting peer that does not know the id stores as it was written |
| `PushQueueModel.AttemptsStayInRange` | crates/cordelia-node/src/replication_task.rs:233-298 | in every run attempt numbers stay below the retry count |
| `PushQueueModel.QueueFollowsTicks` | crates/cordelia-node/src/replication_task.rs:233-298 | in every run the pushes queued at one step are later the front of the queue, each after the ticks in between |
| `Descriptors.DeletionClearsMembers` | crates/cordelia-node/src/swarm_task.rs:201-208 | an accepted deletion leaves the group without active members and every other group's members alone |
| `Descriptors.RefusalPersists` | crates/cordelia-node/src/swarm_task.rs:108-165 | a refused descriptor stays refused whatever is merged at or after its date |
| `MergeReports.ReportsAre` | crates/cordelia-node/src/swarm_task.rs:105-234 | upserted are, in order, the groups of the descriptors taken at their turn that are no deletions, tombstoned those of the ones that are |
| `MergeReports.LastTakenDecides` | crates/cordelia-node/src/swarm_task.rs:105-234 | a group ends with the culture of the last descriptor taken; after a deletion it has no active members and is reported tombstoned, else it is reported upserted |
| `MergeReports.FitIsTaken` | crates/cordelia-node/src/swarm_task.rs:105-234 | a descriptor with right checksum, size and signature, newer than the row and of its owner, becomes the row under the local name and clock |
| `MergeReports.UnfitLeavesRow` | crates/cordelia-node/src/swarm_task.rs:105-234 | a group whose descriptors all fail that keeps its row and members and is reported in neither list |
| `MergeReports.SignsOwnOnly` | crates/cordelia-node/src/swarm_task.rs:25-93 | advertising signs exactly the rows without a signature that this node owns, by the row or as an active owner member |
| `MergeReports.PurgeSpares` | crates/cordelia-storage/src/lib.rs:741-759 | purging removes the groups deleted before the cutoff with their members, and spares all others |
| `Descriptors.TakesNothingIff` | crates/cordelia-node/src/swarm_task.rs:105-234 | a merge takes nothing if and only if the tables refuse every descriptor as they are; then it changes nothing |
| `Descriptors.MergeIsStable` | crates/cordelia-node/src/swarm_task.rs:105-234 | merging the same list again changes nothing if no descriptor is dated ahead of the clock of the first merge |
| `Descriptors.MergeAgainIff` | crates/cordelia-node/src/swarm_task.rs:105-234 | with one descriptor per group, a second merge takes nothing if and only if no accepted one was dated ahead of the clock |
| `Descriptors.LastTakenDatesRow` | crates/cordelia-node/src/swarm_task.rs:105-234 | after a merge a row carries the clock of the last descriptor taken for its group, or is untouched |
| `Descriptors.MergeAnyAgainIff` | crates/cordelia-node/src/swarm_task.rs:105-234 | for any list, groups repeated or not: a second merge takes nothing if and only if every descriptor is unsound, refused by the keys of the row the first merge leaves, or not dated after the clock of the last one taken for its group |
| `Descriptors.OwnerIsPinned` | crates/cordelia-node/src/swarm_task.rs:139-198 | in every run of merges, local writes, signing, membership changes and deletions, owner, key and signature are set together, and a set key stays while the row exists |
| `Descriptors.TellingExists` | crates/cordelia-node/src/swarm_task.rs:237-249 | the assumption on signatures below can be met, for any payloads |
| `Descriptors.OwnSignatureIsSound` | crates/cordelia-node/src/swarm_task.rs:47-71 | a row just signed by its owner is sound for its peers |
| `Descriptors.AdvertisedSoundIff` | crates/cordelia-node/src/swarm_task.rs:36-73 | a signed row is sound for its peers if and only if its signature covers what the row says now |
| `Descriptors.PassedOnSoundIff` | crates/cordelia-node/src/swarm_task.rs:191-198 | a merged signed row, passed on, is sound if and only if it was merged at the very date it carries, because merging re-dates the row and not the signature |
| `Descriptors.RewrittenSoundIff` | crates/cordelia-storage/src/lib.rs:559-578 | a signed row rewritten locally, deletion included, is sound for its peers if and only if neither culture nor date changed, because the old signature is kept |
| `GovernorModel.Governor.ReplaceNodeId` | crates/cordelia-governor/src/lib.rs:293-324 | moves an entry to its real id; an active target wins and the placeholder is dropped |
| `GovernorModel.Governor.Counts` | crates/cordelia-governor/src/lib.rs:387-401 | one pass counts the hot, warm, cold and banned peers: the sizes of those sets, summing to all peers |
| `GovernorModel.Governor.UnbanExpired` | crates/cordelia-governor/src/lib.rs:431-455 | exactly the peers whose ban has expired become cold, each logged once |
| `GovernorModel.Governor.ReapDead` | crates/cordelia-governor/src/lib.rs:457-497 | exactly the silent active peers step down: hot to warm with a demotion mark, warm to cold with a disconnect |
| `GovernorModel.Governor.PromoteColdToWarm` | crates/cordelia-governor/src/lib.rs:499-579 | dials only dialable cold peers past their back-off, as many as the warm budget leaves, those sharing groups first |
| `GovernorModel.Governor.BestByScore` | crates/cordelia-governor/src/lib.rs:593-604 | one of the listed peers, none of which scores higher |
| `GovernorModel.Governor.WorstScore` | crates/cordelia-governor/src/lib.rs:585-591 | the least score among the hot peers, if there are any |
| `GovernorModel.Governor.PickOutperformer` | crates/cordelia-governor/src/lib.rs:583-624 | a best eligible warm peer if the hot maximum leaves room and it beats the worst hot one, else nobody; nobody either when no peer is hot |
| `GovernorModel.Governor.PromoteWarmToHot` | crates/cordelia-governor/src/lib.rs:581-652 | fills the hot set up to its minimum with the best eligible warm peers, beyond it at most one that outperforms the worst hot peer while there is room |
| `GovernorModel.Governor.WorstHot` | crates/cordelia-governor/src/lib.rs:663-679 | the hot peers to give up first: stale ones, then the worst scores |
| `GovernorModel.Governor.DemoteExcessHot` | crates/cordelia-governor/src/lib.rs:654-691 | demotes exactly the excess over the maximum, stale peers first, then the worst scores |
| `GovernorModel.Governor.ChurnPeers` | crates/cordelia-governor/src/lib.rs:693-741 | when due, as many warm peers as the churn count become cold and as many dialable cold ones are dialled |
| `GovernorModel.Governor.EvictExcessCold` | crates/cordelia-governor/src/lib.rs:743-770 | forgets exactly the excess cold peers, longest idle first |
| `GovernorModel.Governor.Tick` | crates/cordelia-governor/src/lib.rs:404-429 | a tick is the seven phases in order; state, transitions, dials and disconnects are those of the phases |
| `Ranking.SelectBest` | crates/cordelia-governor/src/lib.rs:665-679 | sorting and taking the first k yields k elements none of which ranks after one left out |
| `PeerPoolModel.PeerPool.ComputeIntersection` | crates/cordelia-node/src/peer_pool.rs:69-85 | the peer's groups that are ours or learned, in the peer's order |
| `PeerPoolModel.PeerPool.ApplyTransitions` | crates/cordelia-node/src/peer_pool.rs:324-345 | replays the transition log on the held handles, in order |
| `PeerPoolModel.PeerPool.ApplyGovernorActions` | crates/cordelia-node/src/peer_pool.rs:321-358 | replays the log, then removes the disconnects; returns exactly the list of disconnects |
| `GovernorTask.GovernorLoop.OnTick` | crates/cordelia-node/src/governor_task.rs:71-133 | agreement is kept; the network is told to drop exactly the governor's disconnects and to dial the first address of each peer to connect, remembered under that address |
| `GovernorTask.GovernorLoop.DialAll` | crates/cordelia-node/src/governor_task.rs:109-131 | dials the first address of each peer that has one, in order, and remembers whom it was dialled for |
| `GovernorTask.GovernorLoop.TakePending` | crates/cordelia-node/src/governor_task.rs:309-311 | takes the pending dial to the first of the addresses that has one, and only that one |
| `GovernorTask.GovernorLoop.OnConnected` | crates/cordelia-node/src/governor_task.rs:300-345 | files the connection under its real id; pool and governor agree afterwards if and only if it landed in step |
| `GovernorTask.GovernorLoop.OnDisconnected` | crates/cordelia-node/src/governor_task.rs:408-412 | removes the peer from the pool and marks it disconnected, in agreement |
| `Replication.Storage.OnReceive` | crates/cordelia-replication/src/engine.rs:88-193 | the chain of checks yields exactly the specified store and outcome; only a stored item is logged |
| `Replication.Storage.HandleFetch` | crates/cordelia-node/src/swarm_task.rs:1094-1115 | serves the requested items that exist, in request order |
| `Flood.HandlePush` | crates/cordelia-node/src/swarm_task.rs:1117-1152 | receives the batch item by item and counts exactly the stored and the rejected ones |
| `Flood.OnPush` | crates/cordelia-node/src/swarm_task.rs:642-690 | receiving a push and re-pushing it is one delivery of the network model |
| `AntiEntropy.ListGroupItems` | crates/cordelia-storage/src/lib.rs:514-557 | a page holds the oldest matching items, at most the limit, none matching left out before a newer one |
| `AntiEntropy.LatestDate` | crates/cordelia-node/src/replication_task.rs:544-555 | the newest date on the page, none for an empty page |
| `AntiEntropy.ReceiveBatch` | crates/cordelia-node/src/replication_task.rs:612-643 | receives the fetched items one after the other and counts each outcome exactly |
| `AntiEntropy.FetchInChunks` | crates/cordelia-node/src/replication_task.rs:571-643 | fetching and receiving in chunks equals fetching and receiving at once what was answered, and everything if all requests are |
| `AntiEntropy.RunAntiEntropy` | crates/cordelia-node/src/replication_task.rs:500-661 | without a peer nothing happens; a failed request leaves only part of the page received; otherwise the store is the one a full copy of the remote page would leave, and the page's newest date is reported; nothing on our page under the peer's checksum is fetched, and everything else is |
| `Cursor.Schedule.BeginRound` | crates/cordelia-node/src/replication_task.rs:329-357 | a group that is due gets its next deadline, its cycle is counted and every tenth drops the cursor; other groups are untouched |
| `Cursor.Schedule.EndRound` | crates/cordelia-node/src/replication_task.rs:380-385 | moves the cursor to the newest date seen, if any |
| `Cursor.Schedule.SyncGroup` | crates/cordelia-node/src/replication_task.rs:329-395 | a finished round is a step of the paging relation and receives the page; a failed one, or one without a peer, only counts the cycle; the group is due again after the interval of its culture |
| `Cursor.Schedule.Bootstrap` | crates/cordelia-node/src/replication_task.rs:398-442 | a newly added group forgets its deadline, cursor and cycles and syncs at once without a date filter; a finished sync receives that page and leaves its newest date as the cursor |
| `Batching.SplitIntoBatches` | crates/cordelia-node/src/replication_task.rs:472-492 | the batches joined are the input, none is empty, one over the limit is a single item, and none could have taken the next item |
| `PushQueueModel.PushQueue.OnLocalWrite` | crates/cordelia-node/src/replication_task.rs:96-154 | a grouped write is buffered, as the engine describes it, unless it is oversized or the group is taciturn |
| `PushQueueModel.PushQueue.SendBatches` | crates/cordelia-node/src/replication_task.rs:190-215 | every peer is sent all items once, in order, in messages within the limit, and the count kept for each peer stays the number of items sent to it |
| `PushQueueModel.PushQueue.Flush` | crates/cordelia-node/src/replication_task.rs:157-230 | each buffered group becomes exactly one queued push and goes to its current peers; the buffer is empty afterwards |
| `PushQueueModel.PushQueue.RetryPush` | crates/cordelia-node/src/replication_task.rs:241-293 | a due push is sent again, then rescheduled or dropped after its last attempt; one not due is left as it is |
| `PushQueueModel.PushQueue.RetryTick` | crates/cordelia-node/src/replication_task.rs:233-298 | a tick treats every queued push so, in order, and counts those given up |
| `Descriptors.GroupStorage.RemoveMembers` | crates/cordelia-node/src/swarm_task.rs:201-208 | every member of the group is removed, nobody else is touched |
| `Descriptors.GroupStorage.MergeDescriptor` | crates/cordelia-node/src/swarm_task.rs:108-226 | one descriptor passes exactly the specified checks and has exactly the specified effect |
| `Descriptors.GroupStorage.MergeDescriptors` | crates/cordelia-node/src/swarm_task.rs:105-234 | the whole list, in order, with the upserted and the tombstoned ids |
| `Descriptors.GroupStorage.BuildDescriptors` | crates/cordelia-node/src/swarm_task.rs:25-84 | one descriptor per group, by name; exactly the owned unsigned rows get signed on the way |
| `Descriptors.GroupStorage.ListGroups` | crates/cordelia-storage/src/lib.rs:622-645 | all groups, ordered by name |
| `Descriptors.GroupStorage.Advertise` | crates/cordelia-node/src/swarm_task.rs:36-73 | one row is signed if owned and unsigned, then described |
| `GovernorModel.Governor.constructor` | crates/cordelia-governor/src/lib.rs:167-183 | a new governor knows no peers and keeps its targets, groups and dial policy |
| `GovernorModel.Governor.SetGroups` | crates/cordelia-governor/src/lib.rs:186-188 | replaces the node's groups and nothing else |
| `GovernorModel.Governor.AddPeer` | crates/cordelia-governor/src/lib.rs:191-199 | an unknown peer enters cold; a known one keeps its state and only has addresses and groups refreshed |
| `GovernorModel.Governor.RecordActivity` | crates/cordelia-governor/src/lib.rs:202-209 | refreshes the last activity, and the round-trip time when one is given, of a known peer only |
| `GovernorModel.Governor.RecordItemsDelivered` | crates/cordelia-governor/src/lib.rs:212-217 | adds to a known peer's delivered items and refreshes its activity |
| `GovernorModel.Governor.MarkConnected` | crates/cordelia-governor/src/lib.rs:220-233 | a cold peer becomes warm with fresh activity; any other, and an unknown one, is left as it is |
| `GovernorModel.Governor.MarkDisconnected` | crates/cordelia-governor/src/lib.rs:238-256 | an active peer becomes cold, and its failure count and time are noted |
| `GovernorModel.Governor.MarkDialFailed` | crates/cordelia-governor/src/lib.rs:260-272 | a failed dial counts towards the back-off of a known peer, in whatever state |
| `GovernorModel.Governor.SetPeerRelay` | crates/cordelia-governor/src/lib.rs:353-357 | sets the relay flag of a known peer |
| `GovernorModel.Governor.BanPeer` | crates/cordelia-governor/src/lib.rs:327-350 | bans a known peer for the base duration times its escalation, which grows by one while an earlier ban stands |
| `PeerPoolModel.PeerPool.Insert` | crates/cordelia-node/src/peer_pool.rs:88-124 | files or replaces one handle and leaves the others alone |
| `PeerPoolModel.PeerPool.Remove` | crates/cordelia-node/src/peer_pool.rs:127-138 | removes one handle and returns it |
| `PeerPoolModel.PeerPool.UpdateRtt` | crates/cordelia-node/src/peer_pool.rs:297-301 | sets the round-trip time of a held peer |
| `Replication.Storage.WriteItem` | crates/cordelia-storage/src/lib.rs:448-483 | writes the row with the checksum of its data |
| `Replication.Storage.DeleteItem` | crates/cordelia-storage/src/lib.rs:485-489 | removes one row and reports whether it existed |
| `PushQueueModel.PushQueue.constructor` | crates/cordelia-node/src/replication_task.rs:62-82 | the queue starts empty |
| `Descriptors.GroupStorage.WriteGroup` | crates/cordelia-storage/src/lib.rs:559-578 | inserts a row or updates name, culture, policy and date, keeping owner, key and signature |
| `Descriptors.GroupStorage.WriteGroupSignature` | crates/cordelia-storage/src/lib.rs:580-594 | sets owner, key and signature of an existing row |
| `Descriptors.GroupStorage.UpdateMemberPosture` | crates/cordelia-storage/src/lib.rs:719-731 | sets the posture of an existing member |
| `Descriptors.GroupStorage.AddMember` | crates/cordelia-storage/src/lib.rs:688-706 | adds or reactivates a member |
| `Descriptors.GroupStorage.DeleteGroup` | crates/cordelia-storage/src/lib.rs:733-739 | removes the row and its members |
| `Descriptors.GroupStorage.PurgeDeletedGroups` | crates/cordelia-storage/src/lib.rs:741-759 | removes exactly the deleted groups older than the cutoff, with their members |

## Left out

- HTTP handlers, authentication, devices, statistics and the full-text index: request plumbing over storage.
- Cryptography beyond checksum and signature as uninterpreted functions.
- The libp2p network, DNS, bootnode resolution, channels and logging; only the steps they trigger are modelled.
- SQL text, schema and locking: tables are maps, and storage errors are not modelled.
- Interleaving inside a round or a tick: each handles one event to its end, with one clock reading per tick.
- Group exchange, learned relay groups and the choice of a random peer for a sync; the peer and its page are given.
- The parsing of a culture text into its eagerness word; the word is given.
- How a node derives the groups it accepts in a sync, the blocked ones included; the acceptance rule is given.
- Local writes in the ordering claims: they overwrite unconditionally and date their rows in another text format.
- Bans as a property of runs: renaming overwrites an inactive entry, banned ones included.
- Back-off of churn-chosen dials: churn does not look at the back-off.
- Overflow of 32-bit and 64-bit counters (failures, bans, cycles, delivered items), except the key version's conversions.
- Floating-point rounding and comparison of scores with NaN: scores are exact reals.
- A peer's store that changes between the rounds of a run, or another peer in its place: runs are against one unchanging peer.
- FetchInChunks: takes the peer's store as fixed during the round.
- MergeIsStable: a sufficient condition that needs only the dates and the clock; MergeAnyAgainIff is the exact one.
- TwoWayPullConvergesIff: speaks of stores without tombstone rows, which no receipt writes.
- DiffRefinesFullCopy: speaks of a remote store without tombstone rows, which no receipt writes.
