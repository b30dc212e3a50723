# A verified model of the lotus ledger engine

Lotus is a small replicated ledger: nodes exchange signed envelopes, each
building on a previous one, and every node derives one canonical chain and the
state at its head from the forest it has stored. This project models the
engine behind that in Dafny, from the value tree up to what a watcher is told,
and proves what the engine promises: that nodes trading canonical paths
converge, that the version cache always agrees with replay, that compaction
may be interrupted anywhere, that arrival order does not matter, that a
watcher misses nothing it watches, and that an invite is honoured.

`dafny verify dfyconfig.toml` checks everything.

## How it is laid out

| file | models |
|---|---|
| `Wire.dfy` | values, paths, messages, digests, envelopes, clamped increments |
| `ValueTree.dfy` | path walk, set and amend (`storage/src/value.rs`) |
| `Ledger.dfy`, `Effects.dfy` | validation, signatures, thresholds, the state transition (`state/src/ledger.rs`); what it does and why it refuses, by reads alone |
| `Lineage.dfy` | ancestry, replay, what a climb through the log names |
| `ForkChoice.dfy` | canonical path and head over a weighed log, gossip, permanence of orphaning |
| `Storage.dfy` | the in-memory store and its children index (`storage/src/mem.rs`) |
| `Ingest.dfy`, `Arrival.dfy`, `Footing.dfy`, `Stranded.dfy` | storing a run as a function on a node's books; order and batching; when a run is stored on books that have forgotten versions, and a store that refuses one |
| `Walk.dfy`, `Pruning.dfy`, `Compaction.dfy`, `Chain.dfy` | `store_batch`, the walk, pruning, and the chain itself (`state/src/chain.rs`) |
| `Recovery.dfy` | an insert cut off at any write, and offering the run again |
| `ChangeSet.dfy`, `Differ.dfy` | change sets, movements, the two-sided walk (`state/src/change.rs`) |
| `Subscribe.dfy`, `Watch.dfy`, `Wakeup.dfy` | subscriptions, what they guarantee, and how publisher and reader interleave (`lotusd/src/subscribe.rs`) |
| `Retention.dfy`, `Core.dfy`, `Life.dfy` | the retention cut, the node, and runs of a node's operations (`lotusd/src/core.rs`) |
| `Sync.dfy`, `LiveStream.dfy`, `Locator.dfy`, `Pull.dfy`, `Convergence.dfy`, `Checkpoint.dfy` | segments and streams of them, off a node at rest or at work; split finding, pull sessions, convergence; joining at a checkpoint |
| `Invites.dfy`, `Sponsor.dfy` | the book of invites and the node that honours it (`lotusd/src/bootstrap.rs`, `server.rs`) |
| `Transport.dfy` | the transport edit script (`lotusd/src/core.rs`) |

## Modelling decisions

- A digest is modelled as the content it pins (payload with the parent's
  digest, signatures, timestamps) together with its numeric value, which orders
  siblings. That rules out cycles by construction. Where a tie at a fork must
  be decided, `DigestsPin` says that no two digests in play share a numeric
  value; it is the only assumption about hashing.
- A signature carries the keys it verifies under. `KeyId` stands for the
  public key.
- `Replay` is the reference for every state: the fold of verified, applied
  envelopes from a base. `Sound` says a node's books agree with it, and
  `Settled` says so of books that have pruned nothing.
- The log as fork choice sees it is a map from digest to verified weight.
  `IsHead` is the reference for the canonical head.
- Crash points are the values of `MemStorage.trail`: the versions and the log
  after every write, so all that an interruption can leave.
- The status of an envelope does not travel: what a puller receives
  (`Pull.Received`) arrives unchecked.
- The value tree is a value, and an in-place update through `walk_mut` a
  `Graft` of the new node; change sets, movements and subscribers are values
  returned updated. Stores, chains, diff branches, registries, cores and
  invite books are classes with the source's fields.
- `Core.recorded` is how many writes the store had seen when the oldest
  envelope was last put on disk: what orders that write among the prune's.
- Clocks are parameters: arrival times (`now`) and the instants of the
  invite book. Encoded sizes are a function with positive values.
- The guards inside `compact` check only that the climb names the cut, so the
  clauses about a sound chain carry that the log holds the cut at or above the
  root.

Where the code and its documentation disagree, the code is followed: the
comments at `crates/state/src/lib.rs:13-14` and
`crates/storage/src/lib.rs:306-308` say the lowest digest wins a tie, the code
at `crates/state/src/chain.rs:438-441` takes the greatest. The comment at
`crates/sync/src/locator.rs:31-33` calls a walk's last entry the oldest this
node holds; on a compacted node it is that envelope's parent, which
`Locator.Sample` and `Pull.Negotiate` allow for.

Three promises hold with an exclusion, each exact.

- Clearing an array element shifts the ones after it while only the cleared
  index is recorded (`crates/storage/src/value.rs:88-91`,
  `crates/state/src/change.rs:82`). `ValueTree.FrameExact` shows that is the
  only way a disjoint path can change, and `Differ.ShiftGoesUnrecorded` and
  `Watch.ShiftPassesBy` that for every such clear there is a chain on which
  one changes unseen.
- A batch that starts with an `Init`, or with an envelope the root builds on,
  is refused whole (`Arrival.LostBehindInit`, with a concrete case in
  `Arrival.BatchingMatters`). Counting such a batch as contributing nothing,
  `Arrival.OrderDoesNotMatter` says of any two histories exactly when they end
  alike.
- A node that compacted away the version of a losing branch can refuse an
  extension of that branch, because a stored envelope met again is judged by
  the status it arrives with (`crates/state/src/chain.rs:324-349`).
  `Footing.StoredWhenStanding` says exactly when, `Stranded.Strands` shows a
  chain on which it happens, and `Convergence.PullHead` that it never costs
  the puller the canonical head.

## Model

| member | source | states |
|---|---|---|
| `ForkChoice.HeadUnique` | crates/state/src/chain.rs:399-443 | a log has at most one canonical head from a root: taking the greatest (weight, digest) child at every fork cannot end in two places |
| `ForkChoice.HeadExists` | crates/state/src/chain.rs:399-443 | from every canonical envelope the walk reaches a head, whatever the log holds, as long as digests do not collide |
| `ForkChoice.HeadExactly` | crates/state/src/chain.rs:399-443 | the head, independently: where a line of envelopes from the root ends that nothing stored builds on, each stored on the one before and heavier than every other stored there, or as heavy with a greater digest |
| `Ingest.WeighedExactly` | crates/state/src/chain.rs:421-443 | what fork choice weighs is the verified total of each stored status, nothing for one that is not verified |
| `Lineage.AncestorExactly` | crates/state/src/chain.rs:466-483 | ancestry is a line of envelopes from the one to the other, each building on the one before |
| `Lineage.NamedExactly` | crates/lotusd/src/core.rs:903-920 | a climb names exactly what such a line reaches through stored envelopes |
| `ForkChoice.GossipSuffices` | crates/sync/src/lib.rs:4-9 | for any two grounded logs on one root that weigh what they share alike, the head of their union is one of the two heads, and is the head either side reaches after taking in just the other's canonical path |
| `ForkChoice.MergeFrom` | crates/sync/src/lib.rs:4-9 | the induction behind it: from any envelope canonical in both logs, any log between one side and the union that holds the other's path ends at whichever head wins the next fork between them |
| `ForkChoice.CutKeepsHead` | crates/state/src/chain.rs:124-192 | keeping just what descends from a canonical envelope and starting there reaches the same head |
| `ForkChoice.OrphanedForGood` | crates/state/src/change.rs:135-166 | over every run of inserts and completed compactions, what left the canonical path never returns to it |
| `ForkChoice.LeavingMeansOff` | crates/state/src/chain.rs:427-443 | what was canonical over a smaller log and is not over a larger one has lost a fork in the larger one, which growth cannot undo |
| `Watch.OrphanedOnce` | crates/state/src/change.rs:135-166 | the orphan sets of any two movements of a run are disjoint |
| `Locator.Sample` | crates/sync/src/locator.rs:26-50 | the samples start at the head, end where the climb finds nothing stored or an `Init`, hold for every digest of the walk one no newer and at most twice as far back, and are at most 64 for heads up to height 2^62 |
| `Locator.ReachesExactly` | crates/sync/src/locator.rs:26-50 | near, in plain distances: no newer, and at most twice as far back |
| `Locator.Split` | crates/sync/src/locator.rs:52-66 | finds a split exactly when some offered digest is on this node's walk, and every other offered digest there is an ancestor of it |
| `Pull.Negotiate` | crates/sync/src/puller.rs:112-143 | between any two stores: a split is on both walks, and at most twice as far behind the puller's head as any digest both walks name, unless the server's walk ends in between |
| `Pull.OneRoundEnough` | crates/sync/src/locator.rs:1-9 | between nodes on one root that pruned nothing one round always finds a split, within that bound |
| `Sync.Segment` | crates/lotusd/src/core.rs:927-966 | a prefix of the canonical suffix after a digest: empty exactly at the head or off the path, at most 256 envelopes, within the byte budget unless a single envelope, stopping only at the head or at a budget |
| `Sync.Newer` | crates/lotusd/src/core.rs:903-945 | the canonical envelopes newer than a digest, parent first, exactly when the walk names it |
| `Sync.SuffixExactly` | crates/lotusd/src/core.rs:927-945 | the suffix above a digest: each envelope on the one before, the first on that digest, the last the head |
| `Sync.BytesSum` | crates/lotusd/src/core.rs:947-963 | a segment's bytes are the sizes of its envelopes, added up |
| `Arrival.TakesIn` | crates/state/src/chain.rs:262-354 | a linked run past something held, all of which replays, is stored whole on books that pruned nothing |
| `Sync.Stream` | crates/lotusd/src/core.rs:927-966 | on any store, from any digest the walk names: asking again after the last envelope sent ends, and what was sent is the canonical suffix, parent first, each envelope once, in non-empty segments within both budgets |
| `LiveStream.StreamWhile` | crates/lotusd/src/core.rs:922-966 | with any action of the node between one segment and the next (an insert, a compaction, a subscription's), the stream ends, at the head or because its cursor left the canonical path; what was sent is one linked run that replays from the genesis, every segment off the canonical path of the node as it was then |
| `LiveStream.EarlyNotWrongly` | crates/lotusd/src/core.rs:922-926 | whatever such a stream sent, a puller whose chain tells the same history and whose root it passes stores it whole exactly when it stands on the puller's versions, as a path streamed at rest does |
| `Pull.PullFrom` | crates/sync/src/puller.rs:94-195 | one session between any two compacted nodes that tell the same history, nothing the puller held ever lost: current exactly when the peer's head was held; no common history only where the peer's horizon lies near behind every shared digest; synced, with exactly the path from the split to the peer's head added, if and only if that path replays on the puller's root and stands on the versions it has; otherwise refused at the first new envelope on one without a version, with all before it stored |
| `Convergence.PullHead` | crates/sync/src/lib.rs:4-9 | after any pull with common history, refused part-way or not, a compacted puller stands at the head of all it held and the whole of the peer's path: what it refused hangs off an envelope off its canonical path and moves no head |
| `Convergence.MutualPull` | crates/sync/src/lib.rs:4-9 | two nodes on one root, each compacted or not, that pull from each other end on one head, with one state there, it is the head of everything the two stored between them, and it was one of their two heads |
| `ForkChoice.GrowthOffPath` | crates/state/src/chain.rs:399-443 | whatever is added strictly above an envelope off the canonical path leaves the head where it was |
| `Life.Live` | crates/lotusd/src/core.rs:253-489 | over every run of inserts, subscriptions, reads, hang-ups and compactions from a node's opening on, each action does exactly what `Life.Did` says of it, books, root and registry included; after every one the node is sound and stands at its canonical head; and at every moment each subscriber with nothing pending reads all it watches as it stood at its last notification's head or where it opened, unless a movement that passed it by cleared an earlier element of an array its path goes through |
| `Life.LivesAreWatches` | crates/lotusd/src/subscribe.rs:242-257 | in every such run each subscription goes from its registration through published movements and drains and nothing else |
| `Life.ReliableThroughout` | crates/lotusd/src/subscribe.rs:242-257 | and so may be relied on at each moment, told from what the actions do alone |
| `Life.Perform` | crates/lotusd/src/core.rs:253-489 | each action does exactly one thing: an insert is `StoreAll` on the books and one movement for all subscriptions or none, opening adds one with its filter at the head, a read is the drain of one, hanging up removes one, and a compaction prunes below the cut its policy picks or finds nothing to prune |
| `Watch.WatchedOverRun` | crates/lotusd/src/subscribe.rs:242-257 | over every run of such steps, at every moment, the subscriber stands informed in that sense |
| `Watch.ShiftPassesBy` | crates/state/src/change.rs:72-86 | the exclusion is needed: for every such clear and path a run in which the movement passes the path's subscriber by and the path reads differently |
| `Watch.PassesBy` | crates/lotusd/src/subscribe.rs:299-311 | a movement the filter does not select changes nothing the subscriber watches: no watched value and no watched envelope's standing |
| `Watch.MatchesExactly` | crates/lotusd/src/subscribe.rs:51-63 | a filter selects a movement exactly when one of its selectors is concerned, told by the envelopes under just one of the two heads and what their messages write |
| `Watch.LeftAloneExactly` | crates/lotusd/src/subscribe.rs:299-311 | so a subscription stays exactly as it was just when none is |
| `Watch.NeverBack` | crates/lotusd/src/subscribe.rs:359-382 | a chain that moves on is never back at a head it told a subscriber of, across inserts and compactions |
| `Cores.Core.Insert` | crates/lotusd/src/core.rs:253-275 | stores what `StoreAll` stores, stands at the head of the new log, reports how the paths relate, refused part-way or not. If the head moved, a subscription is left exactly as it was if and only if it watches none of: the head, a namespace an envelope of either branch writes, a path what one of them writes meets, an envelope no longer under the head; any other is woken with the new head pending |
| `Cores.Core.Announce` | crates/lotusd/src/core.rs:266-273 | publishing the difference of two heads of one growing chain always succeeds, is a movement step for every subscription, and disturbs exactly those concerned, told by the messages of the two branches |
| `Cores.Core.Subscribe` | crates/lotusd/src/core.rs:360-368 | a subscription opens at the current head with nothing pending, every other subscription as it was |
| `Cores.Core.Drain` | crates/lotusd/src/subscribe.rs:353-357 | hands over exactly what was pending, empties that slot and touches no other; a head watcher's notification starts where it was last told and ends at the head, and no envelope it reports orphaned is canonical |
| `Cores.Core.Unsubscribe` | crates/lotusd/src/subscribe.rs:259-265 | forgets one subscription, every other as it was |
| `Cores.PublishInforms` | crates/lotusd/src/subscribe.rs:304-311 | publishing the movement between two heads keeps every subscriber informed, selected or not, and every pending orphan off for good |
| `Differ.MovementSound` | crates/state/src/change.rs:205-243 | if the summary of both branches between two heads does not touch a path, and no envelope of either clears an earlier element of an array on it, the path reads alike at both heads, whatever lies between |
| `Differ.TransitionFrame` | crates/state/src/change.rs:73-86 | one envelope leaves alone every path it is not recorded as touching and does not shift |
| `Differ.ShiftGoesUnrecorded` | crates/state/src/change.rs:72-86 | the exclusion is needed: for every clear of an array element and path through a later one, a chain and an envelope that applies, across which the path reads differently though no summary of the movement touches it |
| `Differ.Diff` | crates/state/src/change.rs:205-243 | diverges exactly when the logs reached from the two heads share no digest; otherwise the orphans are exactly the old path minus the new one and the changes summarise both branches |
| `Differ.FindMeeting` | crates/state/src/change.rs:209-243 | meets at the nearest digest named from both heads, within as many rounds as the further head is hops from it |
| `Differ.Branch.Step` | crates/state/src/change.rs:294-317 | a branch's reached set is always what it walked plus its cursor, and is everything its head names within as many hops |
| `Differ.Branch.Meet` | crates/state/src/change.rs:285-292 | names the closest shared digest, or none exactly when the two sides share nothing |
| `Differ.Branch.Above` | crates/state/src/change.rs:319-326 | the envelopes a branch walked above the meeting point: exactly those between it and the head |
| `Differ.LeavingIs` | crates/state/src/change.rs:135-166 | the orphans of a movement are the envelopes under the old head that are not under the new one |
| `ChangeSets.TouchRecords` | crates/state/src/change.rs:96-118 | touching keeps the set a minimal antichain and puts on record exactly what is below the touched path, absorbed or absorbing |
| `ChangeSets.SameRecord` | crates/state/src/change.rs:15-36 | two minimal change sets with the same record are equal: the antichain is a canonical form |
| `ChangeSets.MergeChanges` | crates/state/src/change.rs:88-94 | merging puts on record exactly what either side had, minimally |
| `ChangeSets.MergeLaws` | crates/state/src/change.rs:88-94 | merge is commutative, associative and idempotent |
| `ChangeSets.MergeTouches` | crates/state/src/change.rs:54-94 | a merge touches a path exactly when one of its parts does, despite absorption |
| `ChangeSets.Record` | crates/state/src/change.rs:72-86 | recording a message adds exactly what it includes and keeps the set minimal |
| `ChangeSets.SummaryTouches` | crates/state/src/change.rs:54-86 | a summary of any set of envelopes touches a path exactly when one of them does |
| `ChangeSets.WritesExactly` | crates/state/src/change.rs:54-86 | what each message touches and records, by prefixes: a whole namespace, or what its path starts or is started by |
| `ChangeSets.MergeMovements` | crates/state/src/change.rs:150-166 | a merged movement orphans what either did and records what either did |
| `Wakeup.EveryInterleaving` | crates/lotusd/src/subscribe.rs:246-257 | in every interleaving of merge, send, close, look, receive and cancel: a reader blocked with something pending has a wake stored or a publisher about to send one; one told the core is gone was told everything; delivered and pending notifications touch and orphan exactly what the selected movements did; a head watcher's notifications chain without a gap from where it opened |
| `Wakeup.BlockedIsServed` | crates/lotusd/src/subscribe.rs:246-257 | left alone, a blocked reader with something pending is handed exactly it after at most a send, a receive and a look |
| `Wakeup.PushIsMergeThenSend` | crates/lotusd/src/subscribe.rs:359-382 | merging and then sending, uninterrupted, is the push the registry makes |
| `Subscribe.Push` | crates/lotusd/src/subscribe.rs:359-382 | merges into what is pending: `from` stays where the first movement not yet read began, the head is the new one, orphans add up; and stores a wake |
| `Subscribe.Subscriptions.Publish` | crates/lotusd/src/subscribe.rs:299-311 | pushes to every subscription whose filter selects the movement and to no other; which those are, `Watch.MatchesExactly` says by messages alone |
| `Subscribe.Subscriptions.Register` | crates/lotusd/src/subscribe.rs:274-297 | adds a subscription under a fresh id with nothing pending |
| `Subscribe.Subscriptions.Deregister` | crates/lotusd/src/subscribe.rs:259-265 | removes one subscription, every other as it was |
| `Subscribe.Subscriptions.Take` | crates/lotusd/src/subscribe.rs:353-357 | takes what is pending of one subscription and nothing else |
| `Chains.Chain.Compact` | crates/state/src/chain.rs:133-192 | refused only when the climb from the head never names the cut; otherwise the log is exactly what the prune does not doom, the count is the number removed, versions are those from the cut to the head, and every intermediate log can be resumed from; a sound chain stands at the cut afterwards if and only if the books could be rooted there before, as at any canonical cut they can, and its head and state stay |
| `Chains.InterruptedCompaction` | crates/state/src/chain.rs:152-192 | at every point of a prune the books are those of a chain rooted at the cut with the same head, and finishing the prune ends in the same log as the uninterrupted run |
| `Chains.ResumeCompaction` | crates/lotusd/src/core.rs:473-488 | reopening at the recorded cut after an interruption anywhere and compacting again ends with the same head, log and versions as the uninterrupted run |
| `Chains.CutSound` | crates/state/src/chain.rs:124-192 | whatever of the doomed envelopes is gone and whatever versions off the kept path are dropped, the chain is sound from the cut and its head and the state there are unchanged |
| `Chains.LeftoverFooted` | crates/lotusd/src/core.rs:444-446 | after an interruption anywhere, the chain could be rooted at any of the cut's ancestors not yet removed: sound log, same head, true versions up the path |
| `Chains.FootedPrunes` | crates/state/src/chain.rs:133-192 | compacting at an envelope the books can be rooted at, also one below the recorded root, leaves a sound chain there with the same head and state |
| `Chains.OnlyFootedPrunes` | crates/state/src/chain.rs:133-192 | and only then: a sound chain there afterwards could be rooted there before |
| `Pruning.RemoveTip` | crates/state/src/chain.rs:485-508 | removing a doomed envelope nothing builds on changes neither the outcome of the prune nor what it dooms but that envelope |
| `Pruning.RemoveOldest` | crates/state/src/chain.rs:163-187 | nor does removing the oldest ancestor once its dead branches are gone |
| `Pruning.PruneExact` | crates/state/src/chain.rs:124-192 | in a log where everything but the root has its parent, the prune keeps exactly the cut and its stored descendants |
| `Pruning.PruneTwice` | crates/state/src/chain.rs:133-192 | a finished prune dooms nothing more |
| `Compaction.RemoveSubtree` | crates/state/src/chain.rs:485-508 | the explicit stack removes exactly the branch above an envelope, children before parents, so every intermediate log is resumable |
| `Compaction.PruneAncestor` | crates/state/src/chain.rs:163-187 | one ancestor goes after every branch hanging from it off the line, each removal counted |
| `Compaction.ClearBranches` | crates/state/src/chain.rs:163-179 | every branch beside the line goes, nothing of the line does |
| `Chains.PruneLine` | crates/state/src/chain.rs:152-187 | from the oldest held ancestor up to the cut's parent: exactly the doomed envelopes go, each counted once |
| `Compaction.PathDown` | crates/state/src/chain.rs:138-150 | the climb from the head down to the cut, or nothing when it is never named |
| `Cores.CrashPoints` | crates/lotusd/src/core.rs:470-481 | at every write of a prune the store is a sound chain at the cut with the same head |
| `Cores.Core.CompactBefore` | crates/lotusd/src/core.rs:430-489 | prunes nothing exactly when there is no cutoff, every envelope is kept, or fewer than `minPrune` lie past the cut; otherwise the root moves to the envelope before the newest loose one, and the prune below it is done in full, safe to cut off at every write, head, state there and watchers untouched. With arrival times falling along the path no envelope of it stored at or after the cutoff goes. On tidy books exactly the new root and its descendants stay and a pinned root does not move; on what an interrupted prune left the chain stands at the cut if and only if the books could be rooted there |
| `Cores.Core.CutAt` | crates/lotusd/src/core.rs:473-488 | records the new root before the first write of the prune, so that at every write the store is a sound chain at the recorded root with the same head; at any cut the walk names: exact count, log and versions. At or above the old root the node stays valid, below it the chain does if and only if the books could be rooted there |
| `Retention.ChooseCut` | crates/lotusd/src/core.rs:1225-1256 | the cut is just before the first envelope, newest first, that no clause keeps, with the number past it; none when every envelope is kept |
| `Retention.LooseExactly` | crates/lotusd/src/core.rs:1245-1256 | the newest loose envelope lies past the newest `keep`, was stored before the cutoff and has every pin strictly newer, and each one newer than it falls short of one of these |
| `Retention.RecentIsNewer` | crates/lotusd/src/core.rs:1230-1235 | with arrival times falling along the path, all that was stored at or after the cutoff is newer than that one |
| `Retention.LooseFromThere` | crates/lotusd/src/core.rs:1230-1235 | with arrival times falling along the path, everything past that envelope is kept by no clause either |
| `Retention.PinsKept` | crates/lotusd/src/core.rs:1232-1235 | every pin is at the cut or newer |
| `Cores.HeldPath` | crates/lotusd/src/core.rs:444-459 | what the climb from the head finds stored, newest first, with arrival times |
| `Cores.InsertIsStep` | crates/state/src/chain.rs:237-260 | an insert is a step of the runs over which orphaning is permanent |
| `Cores.CutIsStep` | crates/lotusd/src/core.rs:473-488 | so is a completed compaction |
| `Lineage.Rebase` | crates/state/src/ledger.rs:119-136 | replaying from an envelope's own state agrees with replaying from further back: a checkpoint stands in for what it folded down |
| `Chains.ReplayInto` | crates/state/src/ledger.rs:138-156 | an empty chain and one not starting with an `Init` are errors of their own; otherwise succeeds exactly on a chain whose `Init` keeps the rules, that links up and applies envelope by envelope, with every envelope's version then held and no other touched |
| `Ingest.StoreOneSound` | crates/state/src/chain.rs:295-351 | storing an envelope, whatever it is, keeps every version equal to replay from the root and every stored status the one its signatures earn, and forgets nothing |
| `Ingest.StoreAllSound` | crates/state/src/chain.rs:270-354 | so does storing any run |
| `Chains.DroppedVersions` | crates/state/src/chain.rs:75-98 | dropping any versions but the root's leaves books a reopening walk completes |
| `Chains.OneHeadOneState` | crates/state/src/chain.rs:75-98 | two chains over one log with one root state stand at one head with one state, whatever their caches hold |
| `Chains.OpenChain` | crates/state/src/chain.rs:75-98 | an unknown root is refused and nothing changes; a chain opened stands at the canonical head with every canonical version cached, and on sound books it always opens |
| `Chains.AdoptChain` | crates/state/src/chain.rs:100-122 | opens at any non-`Init` envelope with a state whose rules hold, and refuses exactly the others, changing nothing |
| `Chains.InitChain` | crates/state/src/chain.rs:53-73 | opens at an `Init` whose namespaces keep their rules, verified against its own checkpoint, and refuses exactly the others |
| `Checkpoint.Join` | crates/state/src/chain.rs:100-122 | adopting any canonical envelope of another chain with the state there and inserting the tail, whatever statuses it claims, ends at that chain's head with its state |
| `Checkpoint.TailHead` | crates/state/src/chain.rs:100-122 | books settled from a checkpoint that hold just the path to a longer chain's head stand at that head |
| `Walks.Canonicalize` | crates/state/src/chain.rs:399-463 | ends at the canonical head with every canonical version cached, adding versions only there; a winner that does not apply leaves the log |
| `Walks.Step` | crates/state/src/chain.rs:409-463 | moves to the winning child, deriving its version if it is missing |
| `Walks.BestChild` | crates/state/src/chain.rs:421-443 | the child with the greatest (verified weight, digest) among the indexed children |
| `Walks.Descends` | crates/state/src/chain.rs:466-483 | climbs the log to decide ancestry |
| `Walks.StoreBatch` | crates/state/src/chain.rs:262-354 | does to the store what `StoreAll` does to its books, in the same cases and with the same errors |
| `Walks.StoreEnvelope` | crates/state/src/chain.rs:292-351 | the same for one envelope, with or without a parent version to stand on |
| `Chains.Chain.InsertBatch` | crates/state/src/chain.rs:210-260 | stores the run's valid prefix, stands at the head of what is stored wherever its cursor stood before, and reports Extended, Reorged, Unchanged or Duplicate as the old and new paths relate; on a chain at its head the books are just what `StoreAll` makes of them; at every write in between the store is a cut-off insert or a walk part-way |
| `Ingest.RefusedKeepsPrefix` | crates/state/src/chain.rs:225-231 | a refused run leaves the books exactly as the envelopes before the refused one leave them |
| `Footing.RunRefused` | crates/state/src/chain.rs:280-334 | and the first refused envelope is an `Init`, or does not build on the one before it, or is refused by itself, each with its own error |
| `Ingest.OneRefused` | crates/state/src/chain.rs:292-351 | by itself an envelope is refused exactly when it is new and its parent's version is not held, its signatures cannot be judged there, or, judged, it does not apply, each with its own error |
| `Ingest.DuplicateExactly` | crates/state/src/chain.rs:262-292 | a run counts as duplicate exactly when all of it was stored before |
| `Ingest.ArrivesNow` | crates/storage/src/mem.rs:161-184 | whatever a run adds is filed under its digest as arriving now, and nothing stored before is touched |
| `Chains.ReportsExactly` | crates/state/src/chain.rs:210-260 | an insert reports the refusal, or that its head moved on or to another branch, or, where it stayed, whether all of the run was stored before |
| `Footing.StoredWhenStanding` | crates/state/src/chain.rs:237-354 | on any sound books, however many versions they have forgotten, a run that replays is stored whole if and only if it stands: told from the books before and the statuses that arrive, an envelope with a version gives footing, one without footing must be stored already, and with footing a new one keeps it while a stored one without a version keeps it exactly when its status meets its parent's thresholds |
| `Footing.StuckAt` | crates/state/src/chain.rs:305-351 | refused, such a run got stuck at a new envelope on one without a version, with all before it stored |
| `Stranded.Strands` | crates/state/src/chain.rs:124-192 | the refusal is real: a chain from its genesis that stores a run of two valid writes, is compacted at a canonical envelope, stays sound, and from then on refuses the same run as of unknown parent |
| `Chains.NothingUncached` | crates/state/src/chain.rs:399-463 | storing any run on a chain leaves nothing for the walk to derive: what is new has its version, and nothing stored without one can come to be canonical |
| `Walks.WalkOn` | crates/state/src/chain.rs:409-463 | one step of the walk, over any sound or unsound store: on to the winning child with its version held, at rest where there is no child, or a canonical winner dropped that does not apply, which no sound books contain |
| `Recovery.CutOffOpens` | crates/state/src/chain.rs:295-354 | at every write of an insert the store is sound but for at most one version whose envelope is not recorded yet, with every canonical version held, so the chain opens |
| `Recovery.Resumed` | crates/state/src/chain.rs:237-354 | offered again after a cut-off at any write, the run leaves the books the insert would have, but for arrival times, with the same verdict |
| `Recovery.Recover` | crates/state/src/chain.rs:194-260 | reopening and offering the run once more ends at the head, with the books, of the insert never cut off |
| `Recovery.StoreAllAlike` | crates/state/src/chain.rs:262-354 | arrival times alone make no difference to what storing does |
| `Arrival.BatchStores` | crates/state/src/chain.rs:210-236 | on books that pruned nothing, a linear batch leaves exactly all that can be built out of everything offered, and is accepted exactly when all of it can be |
| `Arrival.OrderDoesNotMatter` | crates/state/src/chain.rs:237-354 | any two parent-first histories of linear batches leave the same versions and the same log at the same weights if and only if the same can be built out of what their batches contributed, and then they have the same head |
| `Arrival.BarredRefused` | crates/state/src/chain.rs:280-334 | a run that starts with an `Init`, or with an envelope the root builds on, is refused whole |
| `Arrival.LostBehindInit` | crates/state/src/chain.rs:280-288 | with the `Init` in front, batching matters: an envelope that is stored on its own is lost behind it, in two parent-first histories that offer the same |
| `Arrival.BatchingMatters` | crates/state/src/chain.rs:280-288 | a concrete such case: an empty `Init`, a plain unsigned write on it, one batch against two |
| `Arrival.HistoryStores` | crates/state/src/chain.rs:210-236 | after any parent-first history the log is exactly all that can be built out of what its batches contributed, where a batch refused on the looks of its first envelope contributes nothing and every other all it offers |
| `Arrival.SameOffersSameBooks` | crates/state/src/chain.rs:237-354 | histories without such a batch that offer the same envelopes leave the same versions and the same log at the same weights |
| `Arrival.StoreAllSettled` | crates/state/src/chain.rs:270-354 | books with a version for each stored envelope and nothing else stay so under any run |
| `Ingest.StoredWasEndorsed` | crates/state/src/ledger.rs:462-581 | every envelope stored above the root was signed only by keys its parent's state trusts, each signature verifying under its key, with saturated weight and signer count at or above the thresholds there, and carries the weight it was verified at |
| `Ledger.TransitionExactly` | crates/state/src/ledger.rs:158-343 | an envelope applies exactly when it builds on the head, is endorsed by the state there and asks for a write that fits and keeps every reserved rule; and it applies as just that write (read off in `Effects.TransitionWrites` and what follows it) |
| `Effects.TransitionWrites` | crates/state/src/ledger.rs:167-209 | read before and after: a namespace set holds just the value, one deleted is gone, a set path reads as its entry, a cleared field as absent, a cleared array element closes up; every other namespace is as before |
| `Effects.TransitionAppends` | crates/storage/src/value.rs:103-149 | an append leaves the old entries followed by its own, or a fresh array of it |
| `Effects.TransitionIncrements` | crates/storage/src/value.rs:103-149 | an increment leaves the sum, or the bound the sum passed |
| `Effects.TransitionDeletesInMap` | crates/storage/src/value.rs:141-147 | a delete on a map leaves exactly the fields whose entries fail some condition, each as before |
| `Effects.TransitionDeletesInArray` | crates/storage/src/value.rs:141-147 | a delete on an array leaves exactly the items that fail some condition, in order |
| `Effects.FittingExactly` | crates/state/src/ledger.rs:218-343 | which messages a state takes, message by message, on what is written there |
| `Effects.RefusedExactly` | crates/state/src/ledger.rs:167-209 | the order of the checks, and the error of the first that fails |
| `Effects.GateExactly` | crates/state/src/ledger.rs:489-513 | signatures, then weight, then the number of signers, each refused with what was asked and what was found |
| `Effects.SetRefused` | crates/state/src/ledger.rs:218-252 | a set or clear is refused by where its walk stops: no such namespace, no such path, or a segment of the wrong shape |
| `Effects.AmendRefused` | crates/state/src/ledger.rs:262-343 | an amend of a value is refused by its type, by bounds out of order, or by a bounded sum that is no `i64` |
| `Effects.AmendMisses` | crates/state/src/ledger.rs:294-343 | an amend of a missing value is refused by where its walk stops, unless an append creates it |
| `Ledger.ShiftsExactly` | crates/storage/src/value.rs:88-91 | what shifts a path: the clear of an earlier element of an array it goes through |
| `Ledger.AdmitsExactly` | crates/state/src/ledger.rs:218-343 | validation admits exactly the writes that fit the version, have no inverted bounds and leave the namespace's rule intact |
| `Ledger.AdmittedCommits` | crates/state/src/ledger.rs:218-343 | every op validation admits meets the storage contract, so no `expect` or `unreachable` of the backend can be hit |
| `Ledger.AppliedMeansTrusted` | crates/state/src/ledger.rs:462-581 | of what applies every signature is by a trusted key and verifies under it, weight and number meet the thresholds, and its status is the signers' saturated weight |
| `Ledger.VerifyEnvelope` | crates/state/src/ledger.rs:515-581 | off the head it stands at a mismatch; where the rules hold, failed exactly when some signer is not trusted or its signature does not verify under its key, and by exactly those signers |
| `Ledger.StatusExactly` | crates/state/src/ledger.rs:527-581 | the same of the verdict replay uses, and otherwise matched at the signers' summed weight, at most `u32::MAX` |
| `Ledger.WeightSums` | crates/state/src/ledger.rs:566-573 | the sum runs over every signer once, each at its key's weight |
| `Ledger.EndorsedExactly` | crates/state/src/ledger.rs:462-581 | endorsed means every signer trusted and verifying, their summed weight and their number at or above the thresholds written in the state |
| `Ledger.ThresholdsExactly` | crates/state/src/ledger.rs:462-520 | thresholds are met by exactly the endorsed envelopes |
| `Ledger.RulesKept` | crates/state/src/ledger.rs:618-656 | applying keeps every reserved-namespace rule |
| `Ledger.ConfigReads` | crates/state/src/ledger.rs:370-483 | where the rules hold, reading keys and thresholds never fails, and the keys read are those written |
| `Ledger.RuleExactly` | crates/state/src/ledger.rs:587-616 | what each reserved namespace may hold, by its name, and the error for anything else |
| `Ledger.NodeExactly` | crates/state/src/ledger.rs:764-786 | what a cluster node must look like |
| `Lineage.ReplayKeepsRules` | crates/state/src/ledger.rs:618-656 | every state a chain reaches keeps the rules |
| `Chains.ValidateAll` | crates/state/src/ledger.rs:88-136 | accepts a checkpoint exactly when every namespace keeps its rule |
| `Ledger.ApplyFrame` | crates/state/src/ledger.rs:167-209 | an applied envelope leaves alone every path its message neither touches nor shifts |
| `ValueTree.WalkMeetsResolve` | crates/storage/src/value.rs:41-59 | a walk finds a node exactly where resolve yields one, of the same kind |
| `ValueTree.SetReadsBack` | crates/storage/src/value.rs:67-94 | a set reads back; a cleared field reads as absent |
| `ValueTree.ClearCloses` | crates/storage/src/value.rs:88-91 | a cleared array element leaves its array closed up around it |
| `ValueTree.SetFrame` | crates/storage/src/value.rs:67-94 | a set or clear changes no path that does not overlap it and that it does not shift |
| `ValueTree.FrameExact` | crates/storage/src/value.rs:67-94 | a set changes no disjoint path on any tree if and only if it does not clear an earlier element of an array that path goes through |
| `ValueTree.ShiftShows` | crates/storage/src/value.rs:88-91 | for every clear that shifts a path, a tree on which that path reads differently afterwards |
| `ValueTree.AmendReadsBack` | crates/storage/src/value.rs:103-149 | an amended path reads as the amended node, a fresh array as its one entry; what the amended node is, `ValueTree.AppendLeaves`, `IncrementLeaves`, `DeleteInMap` and `LeftInOrder` say by reads alone |
| `ValueTree.AppendLeaves` | crates/storage/src/value.rs:103-149 | an append leaves the old items followed by the entry |
| `ValueTree.IncrementLeaves` | crates/storage/src/value.rs:103-149 | an increment leaves an integer within both bounds: the sum where that lies within them, else the bound it passed |
| `ValueTree.DeleteInMap` | crates/storage/src/value.rs:141-147 | a field stays, as it was, exactly when its entry fails some condition |
| `ValueTree.LeftInOrder` | crates/storage/src/value.rs:141-147 | of an array exactly the items that fail some condition stay, in order |
| `ValueTree.MatchesExactly` | crates/wire/src/msg.rs:196-242 | an entry matches when every condition's path reads as its value |
| `ValueTree.SettableExactly` | crates/storage/src/value.rs:60-94 | what can be set: what is there, or a fresh field of a map; what can be cleared: what is there |
| `ValueTree.AmendableExactly` | crates/storage/src/value.rs:96-149 | what can be amended, by the operation and what its path reads as |
| `ValueTree.ResolveStops` | crates/storage/src/value.rs:41-59 | a walk that finds nothing stops at a container without that child, or at a node the segment does not fit, and says which |
| `ValueTree.WalkSteps` | crates/storage/src/value.rs:152-160 | a walk goes down maps by field and arrays by index, and nowhere else |
| `Wire.OverlapExactly` | crates/state/src/change.rs:120-131 | paths overlap when one starts the other |
| `ValueTree.AmendFrame` | crates/storage/src/value.rs:103-149 | an amend changes no path that does not overlap it |
| `ValueTree.DeletesExactly` | crates/storage/src/value.rs:141-147 | deleting matches keeps every other entry as often as it stood there and is idempotent |
| `ValueTree.DeletesInOrder` | crates/storage/src/value.rs:141-147 | and keeps them in order |
| `Wire.ApplyIncrement` | crates/wire/src/msg.rs:280-297 | on bounds in order: the minimum for a sum below it, the maximum for one above it, else the sum if it is an `i64`; computed without leaving `i64` |
| `Storage.MemStorage.Commit` | crates/storage/src/mem.rs:106-139 | derives one version, every other left intact: what is put is there, what is deleted is gone, every other namespace as in the parent |
| `Storage.MemStorage.Retain` | crates/storage/src/mem.rs:156-159 | keeps exactly the versions named |
| `Storage.MemStorage.PutEnvelope` | crates/storage/src/mem.rs:161-184 | stores under its digest keeping an earlier arrival time, the children index agreeing with the log |
| `Storage.MemStorage.RemoveEnvelope` | crates/storage/src/mem.rs:198-209 | removes exactly one envelope, the children index agreeing, with no empty entries left |
| `Storage.MemStorage.Children` | crates/storage/src/mem.rs:211-221 | exactly the stored envelopes that build on the parent |
| `Invites.Invites.Issue` | crates/lotusd/src/bootstrap.rs:242-259 | what has expired goes, the new invite is added last, expired at once when the clock cannot name its end |
| `Invites.Invites.Redeem` | crates/lotusd/src/bootstrap.rs:261-290 | consumes the last invite bearing the token, expired or not; succeeds exactly when that one has not expired |
| `Invites.Invites.Prune` | crates/lotusd/src/bootstrap.rs:292-294 | keeps exactly the unexpired, in order |
| `Invites.LiveInOrder` | crates/lotusd/src/bootstrap.rs:292-294 | each unexpired invite once, at its place in the order |
| `Invites.RedeemExactly` | crates/lotusd/src/bootstrap.rs:261-290 | unknown exactly when no invite bears the token; otherwise the last that does decides, and it alone is consumed |
| `Invites.NoDifference` | crates/lotusd/src/invite.rs:46-55 | the folded comparison of two byte strings is zero exactly when they are equal |
| `Sponsors.PromiseKept` | crates/lotusd/src/bootstrap.rs:296-305 | in every run, the event that issued an outstanding invite stands behind it, and while it can be redeemed no compaction moved the root |
| `Sponsors.RedeemHonoured` | crates/lotusd/src/server.rs:471-484 | every successful redeem consumes an invite issued earlier under that token, before it expires, at its weight, and hands over the root it promised, unmoved since |
| `Sponsors.RedeemedAtMostOnce` | crates/lotusd/src/bootstrap.rs:261-290 | redeemed or outstanding, a token never counts for more invites than were issued under it |
| `Sponsors.Sponsor.CreateInvite` | crates/lotusd/src/server.rs:515-518 | issues onto the chain as it is rooted now, for at most a day |
| `Sponsors.Sponsor.RedeemInvite` | crates/lotusd/src/server.rs:471-484 | a joiner is handed the envelope its invite pinned and the state standing there |
| `Sponsors.Sponsor.Compact` | crates/lotusd/src/server.rs:463-467 | while an unexpired invite is pending its root stays held at or above where the node is rooted, also on what an interrupted prune left; on tidy books the root does not move at all |
| `Sponsors.Sponsor.Insert` | crates/lotusd/src/server.rs:407-411 | an insert moves neither the root nor the book of invites |
| `Transport.TransportEdits` | crates/lotusd/src/core.rs:755-809 | none exactly when there is no array or a spare entry cannot be addressed; otherwise, whatever was listed, every index is in bounds in order, no wanted entry is ever lost on the way, and what is left is a permutation of the wanted list |
| `Transport.ScriptRuns` | crates/lotusd/src/core.rs:795-808 | appends, replacements and drops spend exactly the spare entries for the missing ones |
| `Transport.ScriptAdmitted` | crates/lotusd/src/core.rs:834-862 | written as namespace messages with transports, the ledger admits every edit of a safe script in turn: each fits the state the ones before it leave and keeps the rule on cluster nodes; the listing ends as edited, and nothing beside it changes |
| `Transport.WriteFits` | crates/state/src/ledger.rs:629-656 | where the rules hold, an edit in bounds by a transport is a write the ledger admits, rule included |
| `Transport.SpareIndices` | crates/lotusd/src/core.rs:776-784 | lists, lowest first, exactly the entries that are not wanted or are listed before; the rest is each wanted entry listed, once |

## Left out

- Sync session machines: message framing, phases, breaches and their attribution; a pull is modelled between two nodes that follow the protocol. `Pull.PullFrom` reads the segments off a server at rest, `LiveStream.StreamWhile` off one at work.
- Text and byte formats: CBOR, hex, base32, ed25519 and iroh address parsing; the rule on cluster nodes is modelled as structure (maps, a 64-digit lower-case hex name, text fields), without parsing what the texts say.
- The SQLite backend, file permissions, key generation and the state directory; the file naming the oldest envelope is one atomic variable of the node.
- Storage errors: the backend is the infallible in-memory one.
- An interrupted prune followed by inserts on a dead branch before it is resumed: what the log then holds follows from the contracts, but that it leaves the books fit to be rooted below the recorded root is not claimed; `Chains.FootedPrunes` and `Chains.OnlyFootedPrunes` say a compaction there ends in a sound chain exactly when they are.
- An insert cut off part-way is resumed on books without leftovers of an interrupted prune (`Recovery.Resumed`); that the store opens holds without that.
- The mainloop, peer links, timers, the RPC types and the command-line tools: plumbing around what is modelled.
- Whether a node can sign alone before it issues an invite or advertises, and the choice between an edit script and a whole rewrite by encoded size: reads and comparisons over what is modelled.
- Reads that only return what is stored (`meta`, `contains`, `canonical_chain`, `envelopes`): they would add easy members.
- The detail inside a refused key set's error: one error stands for its variants.
- Differ.MovementSound: leaves out paths through an array element after one that an envelope between the heads cleared by index, where the promise is false of the code; `ValueTree.FrameExact` shows nothing else need be left out.
- Watch.WatchedOverRun: leaves out the same paths, for the movements that passed the subscriber by.
- Life.Live: starts on books without leftovers of an interrupted prune; inserting, watching and reading are proved without that, compacting on leftovers in `Cores.Core.CompactBefore`.
- Arrival.OrderDoesNotMatter: an envelope offered only in a batch that is refused on its first envelope's looks does not count as offered before what builds on it.
- Pull.PullFrom: both nodes start without leftovers of an interrupted prune.
- Convergence.MutualPull: the two nodes stand on one root, and one pull comes after the other; `ForkChoice.GossipSuffices` covers both pulling from where the other stood before.
- Sponsors.Sponsor.Compact: on leftovers of an interrupted prune the root may be put further back, and the run of events is then not continued.
- Cores.Core.CompactBefore: requires `keep >= 1`, which the source's type guarantees.
