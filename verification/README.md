# Model of redgeo's replicated core

redgeo serves the Redis commands from a key-value store replicated as a Merkle-CRDT. This project models the
parts where its promises are hardest to see from the code, and proves them in Dafny.

- **Cluster compaction** (`Cluster`, `ClusterProof`, `ClusterCut`, `ClusterTheorems`, `ClusterExclusive`,
  `ClusterSeed`, `ClusterFailures`, `RotationNode`): freeze, converge, switch, commit, with rollback, restart in doubt and resolution
  through peers, as a state machine over any number of rounds and members.
- **Generations and writers** (`Generations`, `Writes`, `Engine`): one partition's Stage, Activate, Commit, Rollback
  and restart, and every interleaving of writers with them.
- **Sketches** (`TopK`, `Cms`, `CmsStore`, `Bloom`): Space-Saving, count-min and Bloom filters kept as per-replica
  components, with their error bounds.
- **Codecs and indexes** (`Hll`, `HllFormat`, `BitOps`, `Bitmap`, `Json`, `JsonStore`): each against the simple
  thing it must agree with.
- **Cursors** (`ScanOrder`, `Scan`, `ScanCursor`): the SCAN family under arbitrary changes between pages.
- **Registers and streams** (`Hlc`, `Slots`, `Streams`, `StreamPending`, `StreamNode`): last-writer-wins slots stamped by a hybrid
  logical clock, and consumer groups.

`Prelude` and `ByteStrings` hold what the others share. Objects the code updates in place are classes whose methods
are specified by functions or relations on values; the theorems are about those.

## What is assumed

- Compaction: membership is fixed and known, and all members start on one generation. The prepares of one round
  reach a member in order, each at most once, so a counted reply answers the latest prepare; any other message may be
  lost, delayed, repeated or reordered. A status exchange reads the peer's current state; a member inside `Compact`
  does not answer. Broadcasting done and the coordinator's own commit are one step, as are Stage and Activate there.
  Every message is handled in its own goroutine, so the order of prepares is an assumption and not something the
  receiver enforces.
- The theorems about runs take one condition, `Cluster.Sound`: a member that rolls back because all peers say "indoubt"
  is in a round that is dead. The code does not enforce it (see below), and `RollbackOnDoubtIff` says that exactly
  then the step is safe.
- `ClusterExclusive` replaces that condition by three on the order of steps: a round starts only when every member is
  idle, a prepare is not overtaken by its sender's ready of a later round, and a member rolls back on doubt only when
  it has asked about its round since entering it. The code enforces none of them.
- `Writes` excludes one step, a restart that abandons a staged seed (`StagedCrashResurrects` is the failing input), and
  lets the gate be opened in doubt only in the lemmas that are about that.
- Commit and Rollback are one step each in runs; the crash inside them is treated on its own (`CommitCutHarmless`,
  `RollbackCutIff`).
- A clock's stamps are followed over one life of the process; across a restart see `RestartedClockIff`.
- Storage calls do not fail, and one partition runs one rotation at a time.
- Blocks are content addressed, heads always cover the processed blocks, and an empty queue leaves the processed
  blocks closed under ancestors; this stands for the Merkle-CRDT datastore.
- One writer's slot is replaced by its next write: a datastore keeps, per replica key, the newest write received.
  Streams keep every replica's slots and stamps; bitmap and JSON keys are modelled where this node's writes show, which
  `WriteShowsIff` says when they do.
- In a stream command the clock is read once for each slot written, without other commands' readings in between.
- Hashes, and the sizes of Bloom layers, are arbitrary functions; a Bloom layer past an unusable one is unusable.
- Segment encoding (base32, section 6 of RFC 4648) is reversible and uses only characters above `/`.
- A single command sees one state of the store.

## Where the code does less than it says

- `onStatus` answers "indoubt" for a member that is merely prepared at the same generation, so with overlapping rounds
  a member in doubt can roll back a round that committed (`OverlapBreaksAgreement`). `statusReplies` is only reset when
  a member asks again, so even without overlap it can count an answer left from an earlier round, with the same result
  (`LeftoverAnswersBreakAgreement`). `RollbackRightIff` says exactly when rolling back is right, and
  `FreshAnswerRightIffKept` when a fresh answer justifies it.
- A crash between Stage and Activate leaves the seed in the next generation's namespace, and the next rotation brings
  deleted keys back (`StagedCrashResurrects`, `RestartKeepsCleanIff`).
- A crash between saving the restored generation and purging the dropped one does the same (`RollbackCutIff`,
  `RollbackCutResurrects`).
- After a restart in doubt reads are open before the seed arrives (`ReadsInDoubtIff`, `ReadsWrongAfterRestart`).
- `RotatePartition` on a partition in doubt is refused and opens its gate; a write let in then is undone by a rollback
  (`WriteInDoubtVanishes`, `OpeningInDoubtLoses`, `OpenedInDoubtLosesWrite`).
- The store stamps pending records and acknowledgements with the local clock and never calls `Observe`, so they lose to
  a slot already held from a replica whose clock is ahead: an entry can be delivered and not pending, or acknowledged
  and still pending (`DeliveredPendingIff`, `AckedSettledIff`, `DeliveredNotPending`, `AckedStillPending`).
- A refused `CMSIncr` leaves what it wrote before the refusal outside the total (`IncrBalanceIff`,
  `PartialIncrUnbalances`), and cells that overflow across replicas wrap to estimates of 0 (`UnderestimatesIff`,
  `OverflowUnderestimates`).
- `Stamp.Encode` sorts as stamps do only on one side of the epoch (`EncodingOrderIff`), and `Now` stops increasing
  when the logical counter wraps (`StampsIncreaseIff`).
- `nextStreamID` goes backwards once the counter of a millisecond is used up (`MintedAboveIff`).
- SCAN never returns an entry that decodes to the empty name (`EmptyNameNeverReturned`).
- `Scan` in crdtstore/rkey.go is documented as returning everything in one page; it pages.

## Model

| member | source | states |
|---|---|---|
| `ClusterTheorems.Agreement` | rotation/rotation.go:364-504 | in every run in which nobody rolls back a live round because all peers are in doubt, with loss, crashes and resolution through peers, no two members end one round differently, one purging the old generation and another returning to it; once one member has purged, all have activated |
| `ClusterTheorems.RollbackOnDoubtIff` | rotation/rotation.go:471-504 | a member that rolls back because every peer says indoubt keeps the invariant agreement rests on if and only if its round is dead: not committed, and unable to commit |
| `ClusterTheorems.NoEarlyPurge` | rotation/rotation.go:610-655 | whatever a member has purged, no member is still active on it: generations of any two members differ by at most the one still in doubt |
| `ClusterTheorems.DoneIsSafe` | rotation/rotation.go:622-655 | when done is broadcast every member has activated the new generation, holds its seed and still keeps the old one, whose blocks are those of the cut |
| `ClusterSeed.NewGenerationIsSeed` | rotation/rotation.go:600-655 | when done is broadcast every member's new generation holds exactly the seed: no block of an aborted round at the same number has slipped in |
| `ClusterSeed.SeedStep` | rotation/rotation.go:331-656 | every step keeps it that members of a round that may still commit hold nothing but its seed in the new generation |
| `ClusterTheorems.PurgeLosesNothing` | rotation/rotation.go:406-421 | whenever any member drops a generation, by done or by a peer's outcome, its round has committed, the blocks dropped are exactly those the seed was built from, and the member holds the seed |
| `ClusterTheorems.DecisionsAreFinal` | rotation/rotation.go:509-656 | a decided round keeps its decision under every step |
| `ClusterTheorems.DoomedNeverCommits` | rotation/rotation.go:425-454 | a round that lost a member which had not activated never commits, in any continuation of the run |
| `ClusterTheorems.SoundCut` | rotation/rotation.go:558-608 | when phase 1 exits, either the round never commits, or no member can mint a block and every member's blocks are exactly the ones the coordinator seeds from |
| `ClusterTheorems.RollbackRightIff` | rotation/rotation.go:471-504 | for a member in doubt, whatever answers it has recorded: its round is dead, so that rolling back is right, if and only if the coordinator is back on an older generation or keeps one, or is still in Compact with a member already out |
| `ClusterTheorems.FreshAnswerRightIffKept` | rotation/rotation.go:471-504 | a rollback because every peer says indoubt, when the coordinator's answer was given in this round: the round is dead if and only if the coordinator really kept a generation |
| `ClusterTheorems.MisleadingNeedsOverlap` | rotation/rotation.go:457-466 | an indoubt answer at the asker's generation from a peer that keeps none comes from a peer in another round, and the asker's round has then committed |
| `ClusterTheorems.RunInv` | rotation/rotation.go:331-656 | control and data invariants hold in every state of every run |
| `ClusterExclusive.ExclusiveAgreement` | rotation/rotation.go:364-504 | if rounds do not overlap, a prepare is not overtaken by its sender's ready of a later round, and a member rolls back on doubt only when it has asked about its round since entering it, agreement holds with no condition on what the answers say |
| `ClusterExclusive.ExclusiveRunsAreRuns` | rotation/rotation.go:509-556 | in every such run nobody rolls back a live round on doubt, so the theorems about runs apply |
| `ClusterExclusive.DisciplinedIsSound` | rotation/rotation.go:471-504 | in such a state a member that rolls back on doubt has a coordinator that kept a generation, and so a dead round |
| `ClusterExclusive.AnswersAreOfThisRound` | rotation/rotation.go:425-504 | in such a run every answer a member has recorded was given in its present round, once it has asked since entering it |
| `ClusterExclusive.StepSolo` | rotation/rotation.go:331-656 | with one rotation at a time no step lets anyone into an ended round, and a coordinator that has committed stays idle until the last member hears of it |
| `ClusterFailures.OverlapBreaksAgreement` | rotation/rotation.go:457-504 | a concrete run of three members with overlapping rounds in which one member purges and another returns |
| `ClusterFailures.LeftoverAnswersBreakAgreement` | rotation/rotation.go:425-504 | a concrete run without overlap in which a member counts an answer left from an earlier round and returns, and its round then commits |
| `ClusterProof.StepInv` | rotation/rotation.go:331-656 | every step of every member keeps the control invariant |
| `ClusterProof.VerdictIsRight` | rotation/rotation.go:471-504 | a resolution through a peer's answer commits only a committed round and rolls back only a dead one |
| `ClusterProof.ReliedIsDead` | rotation/rotation.go:471-504 | if the coordinator's answer is of this round and it really kept a generation, the round is dead |
| `ClusterProof.DoneMeansAllInRound` | rotation/rotation.go:622-648 | a full set of ready replies means every member is inside the round |
| `ClusterCut.DataStep` | rotation/rotation.go:558-655 | every step keeps what is known about members' blocks |
| `ClusterCut.GoodAnswer` | engine/rotation.go:119-144 | a member with no head outside U, nothing of U missing and an empty queue holds exactly the blocks reachable from U |
| `ClusterCut.EvaluatedGood` | rotation/rotation.go:567-598 | a round counted as stable means every member's answer was good and the union did not grow |
| `ClusterCut.SettledBlocks` | rotation/rotation.go:406-421 | settling a rotation never drops the blocks of the committed generation |
| `RotationNode.Member.constructor` | rotation/rotation.go:138-151 | a fresh member is idle on its generation |
| `RotationNode.Member.Rollback` | engine/rotation.go:296-328 | going back to the kept generation and its blocks, or nothing if none is kept |
| `RotationNode.Member.FinishRound` | rotation/rotation.go:406-421 | the handler's effect is the protocol's finish step, and only on the rotation it names |
| `RotationNode.Member.OnPrepare` | rotation/rotation.go:331-362 | accepted exactly when idle or already prepared for the round; a busy member is left alone |
| `RotationNode.Member.OnSwitch` | rotation/rotation.go:364-403 | activates once, repeats of the message only answer again, other rounds' messages change nothing |
| `RotationNode.Member.OnStatus` | rotation/rotation.go:457-466 | answers indoubt whenever any rotation is in progress or a generation is kept |
| `RotationNode.Member.OnOutcome` | rotation/rotation.go:471-504 | the loop over the peers decides commit, rollback or wait as the protocol's resolution does |
| `RotationNode.HandlersAreSteps` | rotation/rotation.go:288-327 | what prepare, switch, decision, abandoning, asking, a status answer and a restart do to a member is the state machine's step for it |
| `RotationNode.Evaluate` | rotation/rotation.go:567-598 | the loop that merges heads and counts stable rounds computes the protocol's evaluation, in any order of replies |
| `Generations.OperationsKeepClean` | engine/rotation.go:156-328 | Stage, Activate, Commit and Rollback keep: never both staged and previous, staged = gen + 1, previous = gen - 1, every other namespace empty; Stage is refused exactly while a rotation is pending |
| `Generations.StepKeepsClean` | engine/rotation.go:52-328 | any operation or restart keeps it if and only if it is not a restart that leaves a staged seed behind |
| `Generations.RunsKeepClean` | engine/rotation.go:52-328 | over every run of operations, restarts and writes without such a restart the invariant holds throughout |
| `Generations.RestartKeepsCleanIff` | engine/rotation.go:52-74 | a restart keeps the invariant if and only if nothing was staged or the staged namespace was still empty |
| `Generations.StagedCrashResurrects` | engine/rotation.go:156-209 | a concrete crash between Stage and Activate after which a deleted key is live again |
| `Generations.RollbackOfActive` | engine/rotation.go:296-328 | rolling back an activated rotation returns to the kept generation and its datastore |
| `Generations.RollbackOfStaged` | engine/rotation.go:296-328 | rolling back a staged rotation leaves the live map and datastore untouched |
| `Generations.KeptThroughout` | engine/rotation.go:52-74 | the kept generation's entries are untouched by restarts and arrivals until commit or rollback |
| `Generations.RollbackRestoresAfterRun` | engine/rotation.go:296-328 | after any number of restarts and arrivals, rolling back gives exactly the generation and live map there were before Stage |
| `Generations.RotationKeepsLive` | engine/rotation.go:340-355 | Stage with seed, Activate, Commit keep the live map and empty every other namespace |
| `Generations.CommitCutHarmless` | engine/rotation.go:277-292 | a crash between saving the generation and purging the old one keeps the live map, now and through the next rotation |
| `Generations.RollbackCutIff` | engine/rotation.go:296-328 | a crash between saving the restored generation and purging the dropped one, and then any run of writes, restarts, idle commits and rollbacks: the next rotation keeps the live map if and only if every leftover key is live then |
| `Generations.RotatedKeepsIff` | engine/rotation.go:340-355 | from any partition out of doubt, a rotation keeps the live map if and only if every key already in the next namespace is live |
| `Generations.LeftoverStays` | engine/rotation.go:52-328 | what lies in the next namespace stays through any such run until the next Stage |
| `Generations.RollbackCutResurrects` | engine/rotation.go:296-328 | a concrete rollback, crash before the purge and deletion after which the next rotation brings the key back |
| `Writes.AcknowledgedWritesSurvive` | engine/engine.go:286-309 | in every interleaving of Put, Delete, batches, rotation and restart, with the gate kept shut in doubt and no restart that abandons a staged seed, the live map, also after commit or rollback, is that of the acknowledged writes applied in order |
| `Writes.WritesLandInActiveGeneration` | engine/gate.go:59-94 | a write or batch that lands does so in the then active generation, with no rotation pending, and touches no other namespace |
| `Writes.BatchSpanningSwitchRefused` | engine/engine.go:469-490 | a batch opened on one generation and committed on another is refused and writes nothing |
| `Writes.ReadsInDoubtIff` | engine/rotation.go:52-64 | reads while a generation is kept are right if and only if the seed is here or there is nothing to see |
| `Writes.ReadsWrongAfterRestart` | engine/rotation.go:52-64 | a concrete run in which a restart opens reads on an empty generation while a write is acknowledged |
| `Writes.SafeUntilOpenedInDoubt` | engine/rotation.go:340-355 | when the gate may also be opened in doubt, acknowledged writes are safe up to the first time it is |
| `Writes.WriteInDoubtVanishes` | engine/rotation.go:296-328 | a write let in while in doubt is undone by a rollback: what is left is what there would be without it |
| `Writes.OpeningInDoubtLoses` | engine/rotation.go:340-355 | from every state in doubt, opening the gate lets in some write that the rotation's next step loses: with SafeUntilOpenedInDoubt, writes are safe exactly as long as the gate is not opened in doubt |
| `Writes.OpenedInDoubtLosesWrite` | engine/rotation.go:340-355 | a concrete run in which a refused rotation opens the gate in doubt and an acknowledged write is lost |
| `Writes.RunInv` | engine/engine.go:435-490 | what every step of every such interleaving keeps; the excluded restart fails by StagedCrashResurrects |
| `Engine.CopyEntries` | engine/rotation.go:183-200 | copying the live entries in any order overlays exactly them, and counts them |
| `Engine.Seeded` | engine/rotation.go:156-209 | the next generation's namespace: what it held, with the live entries on top when seeding |
| `Engine.PartitionObject.constructor` | engine/engine.go:118-191 | a fresh partition is on generation 0 with nothing staged or kept |
| `Engine.PartitionObject.Write` | engine/engine.go:286-309 | applied to the active generation exactly when admitted, nothing otherwise |
| `Engine.PartitionObject.PurgeNamespace` | engine/engine.go:373-386 | deleting entries one by one empties that namespace and no other |
| `Engine.PartitionObject.StageGen` | engine/rotation.go:156-209 | the new state is that of Stage, or unchanged when refused; the count is the number of live entries |
| `Engine.PartitionObject.ActivateGen` | engine/rotation.go:214-231 | the new state is that of Activate, or unchanged when nothing is staged |
| `Engine.PartitionObject.CommitGen` | engine/rotation.go:277-292 | the new state is that of Commit |
| `Engine.PartitionObject.RollbackGen` | engine/rotation.go:296-328 | the new state is that of Rollback, reopening the datastore after a restart |
| `Engine.PartitionObject.RestartPartition` | engine/rotation.go:52-64 | the new state is that of Restart: frozen exactly when a generation is kept |
| `Engine.PartitionObject.RotatePartition` | engine/rotation.go:340-355 | succeeds exactly when drained and nothing pending, then keeps the live map and empties the rest; a pending rotation is left but its gate is opened |
| `Engine.MethodsAreSteps` | engine/gate.go:59-94 | what the gate, the writes and the rotation methods do to a partition is what the steps of Writes do; the gate admits exactly when Begin is enabled, and Stage after a drained freeze exactly when DoStage is |
| `Engine.OnlyOwnGenerationDelivered` | engine/gate.go:118-164 | a tagged broadcast reaches exactly the views on the sender's generation, unchanged, for 32-bit generations |
| `TopK.FindMin` | crdtstore/topk.go:143-149 | in any iteration order, the entry of least count, ties by name |
| `TopK.MinUnique` | crdtstore/topk.go:143-149 | there is only one such entry |
| `TopK.AddedDescribes` | crdtstore/topk.go:134-152 | an update keeps every recorded count and error truthful; only eviction raises the floor |
| `TopK.SpaceSavingBounds` | crdtstore/topk.go:131-152 | for every stream of positive updates into m slots: counts sum to N, count - err <= true <= count, m * err <= N, and every item with m * true > N is tracked |
| `TopK.MergedError` | crdtstore/topk.go:163-199 | for any number of replicas and any item, tracked or not, the merged count is within (sum of all N) / m of the true total |
| `TopK.Open` | crdtstore/topk.go:163-191 | own summary and the others' sums together are the merge, whichever replica looks |
| `TopK.Fold` | crdtstore/topk.go:186-188 | one summary's counts added to running totals, in any order |
| `TopK.SummaryObject.constructor` | crdtstore/topk.go:77-80 | an empty summary |
| `TopK.SummaryObject.Add` | crdtstore/topk.go:134-152 | one Space-Saving step, evicting the unique minimum when full |
| `TopK.SummaryObject.AddAll` | crdtstore/topk.go:269-302 | all updates folded in, or nothing saved when one increment is not positive |
| `Hll.Rank` | crdtstore/hll.go:62-72 | the sentinel bit keeps every rank within 1..51 |
| `Hll.AddInPlace` | crdtstore/hll.go:62-72 | the register array becomes its fold with the element; reports change exactly |
| `Hll.MergeInPlace` | crdtstore/hll.go:75-84 | the register array becomes the pointwise maximum; reports change exactly |
| `Hll.MergeAdd` | crdtstore/hll.go:62-84 | merging after adding is adding after merging |
| `Hll.OwnGetsEnough` | crdtstore/hll.go:251-274 | storing only elements that change the merged view leaves the merged view with all of them folded in |
| `HllFormat.EncodeRedis` | crdtstore/hllfmt.go:27-43 | or-ing 6-bit registers across byte boundaries gives exactly the packing |
| `HllFormat.UnpackPacked` | crdtstore/hllfmt.go:58-64 | every register comes back out of the packing |
| `HllFormat.DenseRoundTrip` | crdtstore/hllfmt.go:27-102 | decoding the dense string gives the sketch |
| `HllFormat.NextOp` | crdtstore/hllfmt.go:113-143 | the opcode chosen encodes a prefix of the run within its opcode's limit |
| `HllFormat.EmitRun` | crdtstore/hllfmt.go:113-143 | the opcodes of a run stand for exactly its registers, in the run's number of bytes |
| `HllFormat.SparseOps` | crdtstore/hllfmt.go:113-143 | the opcodes stand for exactly the 16384 registers, in one or two bytes a run of zeros and one for four equal values; refused exactly when a register is too large for them |
| `HllFormat.SparseRoundTrip` | crdtstore/hllfmt.go:147-157 | decoding the sparse string gives the sketch |
| `HllFormat.EncodeAuto` | crdtstore/hllfmt.go:162-169 | sparse exactly when not pinned dense, every register fits and the runs take at most 3000 bytes with the header; whichever form is chosen decodes to the sketch |
| `HllFormat.DecodeSparse` | crdtstore/hllfmt.go:70-101 | accepts exactly the opcode strings that cover 16384 registers, and gives them |
| `HllFormat.DecodeDense` | crdtstore/hllfmt.go:54-69 | reads back every register of a body of the right size |
| `HllFormat.DecodeRedis` | crdtstore/hllfmt.go:47-102 | computes the meaning of a string, refusing exactly the malformed ones |
| `HllFormat.SketchBytes` | crdtstore/hll.go:62-84 | every sketch add and merge can produce fits the registers the codecs take |
| `BitOps.BitRange` | crdtstore/bitops.go:11-42 | accepts exactly when some position is in the Redis range, and returns exactly those positions |
| `BitOps.CountBytes` | crdtstore/bitops.go:45-52 | whole bytes: equals the bit-by-bit count |
| `BitOps.CountBitRange` | crdtstore/bitops.go:53-66 | edge masks: equals the bit-by-bit count |
| `BitOps.MaskedOnes` | crdtstore/bitops.go:56-63 | masking off both ends of a byte counts exactly the bits between |
| `BitOps.BitPosRange` | crdtstore/bitops.go:70-86 | with whole-byte skipping, the least matching position or -1, and it terminates |
| `BitOps.BitPos` | crdtstore/bitmap.go:311-337 | the least asked-for position, -1, or just past the string when looking for 0 without an end; a missing key has no 1 and its first 0 at 0 |
| `Bitmap.LastChunk` | crdtstore/bitmap.go:69-84 | the greatest chunk index, in any iteration order |
| `Bitmap.Bytes` | crdtstore/bitmap.go:69-84 | copying chunks in any order gives the one flat string they stand for |
| `Bitmap.FlatUnique` | crdtstore/bitmap.go:69-84 | sparse trimmed chunks stand for one string only |
| `Bitmap.HoldsIsFlat` | crdtstore/bitmap.go:89-117 | data's non-zero chunks and its last one stand for data |
| `Bitmap.SetBitIsFlat` | crdtstore/bitmap.go:224-253 | growing and writing one chunk is setting one bit of the zero-extended flat string |
| `Bitmap.FlatSetBits` | crdtstore/bitmap.go:179-253 | the bit set reads back and no other bit changes |
| `Bitmap.BitKey.constructor` | crdtstore/bitmap.go:158-175 | an absent key reads as the empty string |
| `Bitmap.BitKey.Write` | crdtstore/bitmap.go:89-117 | after a whole-value write the key's string is exactly the data written |
| `Bitmap.BitKey.SetBit` | crdtstore/bitmap.go:179-253 | returns and produces exactly what setting a bit of the zero-extended flat string does; fails exactly out of range or on another type, changing nothing |
| `Bitmap.BitKey.GetBit` | crdtstore/bitmap.go:267-297 | the bit of the zero-extended flat string |
| `Hlc.StampRoundTrip` | hlc/hlc.go:45-61 | decoding an encoded stamp gives it back |
| `Hlc.BytesRoundTrip` | hlc/hlc.go:45-61 | every 12 bytes decode to a stamp that encodes to them |
| `Hlc.EncodingOrderIff` | hlc/hlc.go:43-50 | byte order is stamp order if and only if both wall clocks are on the same side of the epoch |
| `Hlc.EncodingOrderFails` | hlc/hlc.go:43-50 | a stamp from before the epoch that sorts after a later one |
| `Hlc.TickAdvancesIff` | hlc/hlc.go:83-93 | a reading is later than the last if and only if the counter is not used up while time stands still |
| `Hlc.StampsIncreaseIff` | hlc/hlc.go:83-93 | over one life of a clock, whatever the wall clock does, a replica's stamps strictly increase if and only if the counter never runs out |
| `Hlc.RestartedClockIff` | hlc/hlc.go:71-93 | after a restart from zero all stamps follow one issued before if and only if the first wall time read is past that stamp's |
| `Hlc.Clock.constructor` | hlc/hlc.go:71-78 | a clock starts at zero |
| `Hlc.Clock.Now` | hlc/hlc.go:83-93 | returns the next reading, later than the last exactly when not exhausted |
| `Hlc.Clock.Observe` | hlc/hlc.go:97-111 | afterwards the clock is past both the remote stamp and its own last exactly when not exhausted |
| `Slots.SlotRoundTrip` | crdtstore/slot.go:27-45 | decoding an encoded slot gives it back |
| `Slots.EnvelopeRoundTrip` | crdtstore/slot.go:36-45 | exactly the envelopes of 13 bytes or more decode, to slots that encode to them |
| `Slots.Winner` | crdtstore/slot.go:50-69 | in any iteration order, the slot all others are older than by (stamp, replica) |
| `Slots.WinnerUnique` | crdtstore/slot.go:50-69 | there is only one such slot |
| `Slots.LiveValue` | crdtstore/slot.go:73-79 | the winner's value, or nothing when it is a delete or there is no slot |
| `Slots.WriteShowsIff` | crdtstore/slot.go:50-79 | a replica's write shows if and only if its stamp beats every other replica's slot; otherwise the register reads as if the replica had written nothing |
| `Slots.ReceivedNewest` | crdtstore/slot.go:20-24 | however late and often writes arrive, the store holds each replica's newest received one |
| `Slots.ReadsGreatest` | crdtstore/slot.go:50-79 | a read shows the write greatest in (wall, logical, replica) of all received, or nothing if it is a delete |
| `Slots.Convergence` | crdtstore/slot.go:47-79 | replicas that received the same writes, in any order and with duplicates, hold the same slots and read the same value, whatever the clocks did |
| `Streams.MintedAboveIff` | crdtstore/rstream.go:47-77 | an ID minted or accepted is above the stream's last if and only if the 48-bit counter of that millisecond is not exhausted |
| `Streams.ExhaustedGoesBack` | crdtstore/rstream.go:48-50 | an exhausted counter mints an ID below the last |
| `Streams.MintedIdsDistinct` | crdtstore/rstream.go:16-27 | replicas with different discriminators never mint the same ID, whatever each has seen |
| `Streams.LoadRegister` | crdtstore/rstream_group.go:113-118 | the merge of all replicas' (epoch, id) registers, in any order |
| `Streams.StreamLast` | crdtstore/rstream.go:122-142 | the highest recorded ID over replicas, and this replica's own |
| `Streams.MergedSet` | crdtstore/rstream_group.go:196-199 | writing a register above the merge makes it the merge |
| `Streams.ExactlyOnceDelivery` | crdtstore/rstream_group.go:389-432 | within an epoch on one node, deliveries strictly increase and so never repeat; every entry live after a read, from the epoch's start to the mark, has been delivered; a read without a count leaves none undelivered |
| `Streams.AddedStaysDeliverable` | crdtstore/rstream.go:208-246 | in an epoch started no later than the stream's last ID, every entry added is ahead of the mark, and is live exactly when its stamp beats every other replica's slot for that ID or those show an entry |
| `Streams.StartDeliverableIff` | crdtstore/rstream_group.go:310-319 | whatever is added next is ahead of the epoch's start if and only if the start is not past the stream's last ID |
| `Streams.BehindStartNeverDelivered` | crdtstore/rstream_group.go:401-410 | whatever lies at or before an epoch's start is never handed out, however the epoch goes on |
| `Streams.OwnRegisterGrows` | crdtstore/rstream_group.go:310-432 | any step of a group's life, remote arrivals included, leaves the own register no lower; a delivery or SETID raises it |
| `Streams.GroupMarkIff` | crdtstore/rstream_group.go:192-241 | a group created is there, and one destroyed is gone, if and only if the mark's stamp beats every other replica's; otherwise their marks go on deciding |
| `Streams.OwnRegisterNeverGoesBack` | crdtstore/rstream_group.go:310-432 | over any stretch of a run within one life of the group the own register never goes back |
| `Streams.EpochWrapGoesBack` | crdtstore/rstream_group.go:310-319 | at the largest 64-bit epoch SETID moves the register back |
| `StreamPending.PendingAfter` | crdtstore/rstream_group.go:201-207 | what every step makes of one entry's pending record: a command's record or tombstone shows exactly when its stamp beats every slot other replicas have for the entry, and so does a slot that arrives; otherwise the rest go on showing |
| `StreamPending.DeliveredPendingIff` | crdtstore/rstream_group.go:389-432 | an entry handed out pends for its consumer with one delivery more if and only if the record's stamp beats every other replica's slot for it |
| `StreamPending.AckedSettledIff` | crdtstore/rstream_group.go:467-490 | an acknowledged entry is settled if and only if the tombstone's stamp beats them |
| `StreamPending.WallAheadLeads` | crdtstore/store.go:96-100 | a wall clock ahead of every stamp held for the entry is enough for that |
| `StreamPending.RulesOn` | crdtstore/rstream_group.go:333-554 | a slot that shows is only ever rewritten with a later stamp, so it goes on showing until a later one arrives |
| `StreamPending.DeliveredStaysPending` | crdtstore/rstream_group.go:333-554 | over any run, an entry delivered with a record that shows stays pending until acknowledged, claimed after it left the stream, its consumer or group deleted, or a later-stamped slot arrives, as long as the clock neither restarts nor runs out |
| `StreamPending.AckedStaysSettled` | crdtstore/rstream_group.go:389-554 | over any run, an acknowledgement that shows holds until the entry is handed out again, claimed by force, or a later-stamped slot arrives |
| `StreamPending.DeliveredNotPending` | crdtstore/rstream_group.go:389-432 | a concrete run in which a replica whose clock is ahead has acknowledged the entry, and delivering it again leaves it not pending |
| `StreamPending.AckedStillPending` | crdtstore/rstream_group.go:467-490 | a concrete acknowledgement that loses to an earlier record of a replica whose clock is ahead |
| `Streams.ClaimMoves` | crdtstore/rstream_group.go:492-554 | XCLAIM's verdict on an entry as loaded: taken exactly when in the stream and idle long enough or forced in, dropped exactly when pending and gone from the stream; the count never falls unless a retry count is given |
| `StreamNode.SortIds` | crdtstore/rstream.go:182 | ascending, with exactly the given IDs |
| `StreamNode.StreamLive` | crdtstore/rstream.go:145-184 | exactly the IDs whose newest slot is present, ascending |
| `StreamNode.Node.AddEntry` | crdtstore/rstream.go:208-246 | the state machine's Add step, returning the minted ID or its error |
| `StreamNode.Node.GroupCreate` | crdtstore/rstream_group.go:264-294 | the Create step, after setting the own last ID to 0-0 when the stream is made on the way; fails exactly when the group exists, or, changing nothing, when the stream does not and is not to be made |
| `StreamNode.Node.GroupSetId` | crdtstore/rstream_group.go:310-319 | the SetId step; fails exactly when there is no group |
| `StreamNode.Node.Pick` | crdtstore/rstream_group.go:401-410 | the live entries after the mark in order, none left out before the cut at count |
| `StreamNode.Node.ReadNew` | crdtstore/rstream_group.go:389-432 | the Read step with what it returns; fails exactly when there is no group, changing nothing |
| `StreamNode.Node.MarkPending` | crdtstore/rstream_group.go:417-430 | a record for every delivered entry, counting one delivery more than the list as loaded shows, with consecutive readings of the clock |
| `StreamNode.Node.AckIds` | crdtstore/rstream_group.go:467-490 | the Ack step; counts each distinct pending ID once, and nothing without a group |
| `StreamNode.PendingOf` | crdtstore/rstream_group.go:152-166 | exactly the entries pending for the consumer, in order, in any order of the slots |
| `StreamNode.Node.TombLoop` | crdtstore/rstream_group.go:342-349 | one tombstone each, with consecutive readings of the clock |
| `StreamNode.Node.ConsumerDelete` | crdtstore/rstream_group.go:333-354 | the DeleteConsumer step with the number of entries tombstoned; fails exactly when there is no group, changing nothing |
| `StreamNode.Node.AckLoop` | crdtstore/rstream_group.go:478-489 | a tombstone for each distinct pending ID in order, with consecutive readings of the clock |
| `StreamNode.Node.ClaimLoop` | crdtstore/rstream_group.go:508-553 | every ID settled by its verdict on the list as loaded, with consecutive readings of the clock, and the claimed and dropped IDs in order |
| `StreamNode.Node.ClaimIds` | crdtstore/rstream_group.go:492-554 | the Claim step with the IDs claimed and dropped; fails exactly when there is no group, changing nothing |
| `ScanOrder.NameDecoded` | crdtstore/scan.go:137-147 | the key name decodes back out of any of its metadata keys |
| `ScanOrder.OneSide` | crdtstore/scan.go:82-87 | an entry of one key is on the same side of all entries of another, present or future |
| `ScanOrder.Contiguous` | crdtstore/scan.go:82-87 | no other key's entry sorts between two entries of a key |
| `ScanOrder.BucketOrder` | crdtstore/keys.go:47-59 | everything in a lower bucket sorts below everything in a higher one |
| `Scan.ScanBucket` | crdtstore/scan.go:94-130 | one bucket of the walk keeps the walk's invariant, or cuts at a key boundary and gives a page |
| `Scan.ScanKeys` | crdtstore/scan.go:88-133 | a page: distinct matching keys still ahead, at most count of them; nothing matching left out before the new position, nothing of a returned key left after it |
| `Scan.CutIsPage` | crdtstore/scan.go:113-118 | cutting before a new key leaves exactly the unseen entries ahead |
| `Scan.ReturnedOrAhead` | crdtstore/scan.go:88-133 | a page returns a wanted key or leaves all entries it could ever have ahead of the next page |
| `Scan.ScanComplete` | crdtstore/scan.go:88-133 | followed to its end, a scan returns every non-empty key present and matching on every page, whatever else changed between pages |
| `Scan.ScanExactlyOnce` | crdtstore/scan.go:88-133 | on an unchanged keyspace the keys returned are distinct and are exactly the non-empty matching ones |
| `Scan.ScanEnds` | crdtstore/scan.go:88-133 | on an unchanged keyspace pages that are not the last use up count keys each, so the scan ends |
| `Scan.EmptyNameNeverReturned` | crdtstore/scan.go:109-112 | an entry that decodes to the empty name is never returned |
| `ScanCursor.ResumeTable.Collect` | crdtstore/scan.go:73-80 | exactly the expired entries go |
| `ScanCursor.ResumeTable.Alloc` | crdtstore/scan.go:39-51 | a non-zero token that holds the entry; until the counter wraps it is fresh and every live token keeps its position |
| `ScanCursor.ResumeTable.Get` | crdtstore/scan.go:54-64 | the entry exactly when held and not expired, with its time refreshed, otherwise it is dropped; every other live token keeps its position |
| `ScanCursor.ResumeTable.Free` | crdtstore/scan.go:66-70 | from now on that cursor starts over; no other token changes |
| `ScanCursor.ResumeTable.Scan` | crdtstore/rkey.go:208-252 | one page from where the cursor resolves; cursor 0 exactly at the end; any other stands for the page's end until it expires; other clients' cursors keep theirs |
| `ScanCursor.CursorSurvives` | crdtstore/scan.go:39-80 | through any number of other clients' commands a cursor stands for the same position until it expires |
| `ScanCursor.TurnsAreScan` | crdtstore/rkey.go:208-252 | calls that each pass the cursor the last returned, in time, form a scan, so what is proved of scans holds of the command |
| `ScanCursor.CommandScanComplete` | crdtstore/rkey.go:208-252 | SCAN called until cursor 0 returns every non-empty key present and matching on every call |
| `ScanCursor.ResumeTable.ScanMembers` | crdtstore/scan.go:159-192 | the same for one collection's members |
| `ScanCursor.Search` | crdtstore/scan.go:166 | the least index not below the name |
| `ScanCursor.First` | crdtstore/scan.go:163-171 | the first index beyond the position |
| `ScanCursor.MemberPage` | crdtstore/scan.go:172-190 | ascending matching members beyond the position; every other one lies beyond the end; no end exactly means none is left |
| `ScanCursor.MemberScanComplete` | crdtstore/scan.go:149-192 | every matching member there on all pages is returned, whatever else changed |
| `ScanCursor.TurnsAreMemberScan` | crdtstore/scan.go:149-192 | collection scans that each pass the cursor the last returned, in time, form a member scan |
| `ScanCursor.CommandMembersComplete` | crdtstore/scan.go:149-192 | HSCAN, SSCAN or ZSCAN called until cursor 0 returns every member present and matching on every call |
| `ScanCursor.MembersNeverRepeat` | crdtstore/scan.go:149-192 | later pages show only greater members, so none twice even under changes |
| `ScanCursor.MemberScanEnds` | crdtstore/scan.go:149-192 | on an unchanged collection the scan ends |
| `Cms.CellInRow` | crdtstore/cms.go:58-66 | each row's cell lies in its own row and in the matrix |
| `Cms.Cells` | crdtstore/cms.go:58-66 | one cell per row, in range |
| `Cms.MergedSum` | crdtstore/cms.go:100-117 | a stretch of the merged matrix sums to the sum of the replicas' stretches |
| `Cms.RowsSumToTotal` | crdtstore/cms.go:17-27 | with balanced components each row's cells sum to the total |
| `Cms.AddRowsCell` | crdtstore/cms.go:213-225 | a cell grows by the increment exactly when it is the item's and its row is reached |
| `Cms.IncrKeepsBalance` | crdtstore/cms.go:192-230 | a successful call keeps every replica's rows equal to its count |
| `Cms.RefusedIncrBalanceIff` | crdtstore/cms.go:208-229 | a call refused at its first row or item that cannot be counted keeps the rows equal if and only if that is the very first cell |
| `Cms.CellBounds` | crdtstore/cms.go:192-230 | over increment-only runs a cell lies between the item's acknowledged count and all that was written to its row |
| `Cms.NeverUnderestimates` | crdtstore/cms.go:232-254 | increment-only runs by any replicas, refused calls included, never underestimate an item whose merged cells are within int64 |
| `Cms.UnderestimatesIff` | crdtstore/cms.go:232-254 | while merged cells stay below 2^64, the estimate is at least the count if and only if every cell of the item is within int64 or nothing was counted |
| `Cms.WrapCommutes` | crdtstore/cms.go:100-137 | int64 wrapping commutes with sums and products, so unbounded values stand for the stored ones |
| `Cms.OverflowUnderestimates` | crdtstore/cms.go:100-117 | two replicas that overflow a shared cell: the int64 sum wraps and the estimate is 0 for an item counted MaxInt64 times |
| `Cms.NeverAboveTotal` | crdtstore/cms.go:232-254 | nor does a wrapped estimate exceed all that was written |
| `CmsStore.CellOf` | crdtstore/cms.go:100-117 | the sum over replicas and this replica's component |
| `CmsStore.TotalOf` | crdtstore/cms.go:120-137 | the sum of the replicas' counts |
| `CmsStore.IncrItem` | crdtstore/cms.go:212-225 | rows incremented in order, every one before k with room in int64 and row k without, and the new estimate |
| `CmsStore.IncrAll` | crdtstore/cms.go:203-229 | succeeds exactly when every increment is positive and every cell has room in turn, then counts every item in all rows and the total; otherwise stops at the first refusal |
| `CmsStore.IncrBalanceIff` | crdtstore/cms.go:192-230 | over a whole call, rows stay equal to the count if and only if all of it can be counted or its first cell or increment is refused |
| `CmsStore.PartialIncrUnbalances` | crdtstore/cms.go:203-229 | incrementing one item by 1 and then by 0 fails and leaves the row one above the count |
| `CmsStore.Store.Incr` | crdtstore/cms.go:192-230 | the same for the key, other keys untouched, a missing key refused |
| `CmsStore.Store.Query` | crdtstore/cms.go:232-254 | the smallest of the item's cells as int64, at least 0 |
| `CmsStore.AddScaled` | crdtstore/cms.go:311-313 | a source's merged cells times its weight, added to the target |
| `CmsStore.Target` | crdtstore/cms.go:306-315 | the weighted sums, refused exactly when dimensions differ |
| `CmsStore.Replace` | crdtstore/cms.go:316-342 | own = target - others for every cell |
| `CmsStore.ReplaceGivesTarget` | crdtstore/cms.go:327-347 | then the merged destination is exactly the target, in cells and total, whatever others contributed |
| `CmsStore.MergeKeepsBalance` | crdtstore/cms.go:270-348 | merging in-sync balanced sketches gives a balanced one |
| `CmsStore.Store.Merge` | crdtstore/cms.go:270-348 | the destination becomes exactly the weighted sum of its sources, itself possibly one of them, changing only this replica's component; the error cases exactly, with nothing written |
| `Bloom.NoFalseNegatives` | crdtstore/bloom.go:202-224 | an item reported in a view is reported in every view containing it |
| `Bloom.NeverForgotten` | crdtstore/bloom.go:17-29 | a node whose view only grows never forgets an item |
| `Bloom.CountLayers` | crdtstore/bloom.go:128-150 | one past the highest layer with a count, in any order |
| `Bloom.ReadChunk` | crdtstore/bloom.go:152-175 | the union over replicas and this replica's own bits |
| `Bloom.ReadCount` | crdtstore/bloom.go:177-199 | the sum over replicas and this replica's own count |
| `Bloom.State.constructor` | crdtstore/bloom.go:128-150 | an empty cache over the stored view |
| `Bloom.State.Load` | crdtstore/bloom.go:152-175 | loading a chunk changes no bit |
| `Bloom.State.LayerCount` | crdtstore/bloom.go:177-199 | the stored count with the inserts cached since |
| `Bloom.State.Has` | crdtstore/bloom.go:202-224 | true exactly when some layer has all the item's bits, cached or stored |
| `Bloom.State.LayerCheck` | crdtstore/bloom.go:208-222 | true exactly when that layer has all the item's bits |
| `Bloom.State.SetBits` | crdtstore/bloom.go:242-252 | afterwards the layer has the item, and no bit was lost |
| `Bloom.State.FirstOpen` | crdtstore/bloom.go:227-241 | the first layer not full; refused exactly when every usable layer is full |
| `Bloom.State.Add` | crdtstore/bloom.go:227-261 | fails exactly when every usable layer is full, changing nothing; otherwise the item is found afterwards and no bit is lost |
| `Bloom.State.NoteInsert` | crdtstore/bloom.go:253-258 | one insert more, and the layer is looked at from now on |
| `Bloom.State.AddIfMissing` | crdtstore/bloom.go:346-357 | reports presence exactly, fails exactly when absent with every usable layer full, and otherwise the item is found afterwards |
| `Bloom.State.Flush` | crdtstore/bloom.go:263-278 | the store gets exactly the dirty chunks and counts |
| `Bloom.FlushedIsCached` | crdtstore/bloom.go:263-278 | a fresh view of the flushed store has exactly the cached bits and layers, and everything it had before |
| `Bloom.FlushedCounts` | crdtstore/bloom.go:263-278 | and the cached counts |
| `Bloom.AddItems` | crdtstore/bloom.go:320-360 | every item handled is reported by the store left, which contains the one found; an item is flagged new exactly when it was not found just before; it stops only at an absent item, leaving every usable layer at its capacity, and what came before is kept |
| `Bloom.Exists` | crdtstore/bloom.go:362-378 | exactly what the view reports |
| `Json.SameSlotsSameTree` | crdtstore/rjson.go:75-102 | two trees with strictly increasing positions and the same slots are the same tree |
| `Json.SeenIsAt` | crdtstore/rjson.go:106-185 | what is reachable from the slots of a flattened tree is that tree, path by path |
| `Json.RebuildFlattened` | crdtstore/rjson.go:106-185 | rebuilding from the slots of a flattened tree gives the same tree |
| `JsonStore.Walk` | crdtstore/rjson.go:81-100 | adds exactly the subtree's slots |
| `JsonStore.Flatten` | crdtstore/rjson.go:75-102 | the slots are exactly the flattening of the document |
| `JsonStore.ChildNames` | crdtstore/rjson.go:129-180 | a container's live children, in order |
| `JsonStore.Build` | crdtstore/rjson.go:148-184 | for any slots, the tree of what is reachable through live containers of the right kind, and the slots it was built from |
| `JsonStore.BuildBranch` | crdtstore/rjson.go:160-182 | the same for one container |
| `JsonStore.Load` | crdtstore/rjson.go:106-185 | absent exactly without a live root; otherwise the reachable tree and exactly its slots |
| `JsonStore.SaveDiff` | crdtstore/rjson.go:190-207 | vanished slots go, changed and new ones are written, others stay |
| `JsonStore.JsonKey.constructor` | crdtstore/rjson.go:209-221 | no document, no slots |
| `JsonStore.JsonKey.Read` | crdtstore/rjson.go:224-237 | exactly the document held, built from all live slots |
| `JsonStore.JsonKey.Update` | crdtstore/rjson.go:244-273 | after any edit the live slots are exactly the flattening of the new document, so no replaced node can reappear; a failed edit or a missing key changes nothing |
| `JsonStore.JsonKey.Delete` | crdtstore/rjson.go:285-294 | no slot is left |

## Left out

- Command parsing, RESP replies, connections, authentication, metrics and the server: thin adapters over the store.
- libp2p wiring, Pebble, go-ds-crdt and block exchange: abstracted as block sets and per-replica slots.
- Membership changes (`Forget`, members joining mid-round) and reordered prepares: outside the protocol's assumptions.
- Liveness and timeouts: a timeout is only a step that may happen.
- Floating point: the HyperLogLog estimator, Bloom geometry formulas, geohash, float counters, midpoint positions.
- Hash quality: MurmurHash, FNV and the stream discriminator's collisions.
- 64-bit overflow of Space-Saving counts. Count-min values are kept unbounded and wrapped where they are compared or
  returned; a row's sum and the count are compared as unbounded values.
- Consumers' creation and last-seen times, ReadPending and the pending-record codec.
- The empty key: its metadata key is not of the layout SCAN walks, since `ds.NewKey` merges the two slashes around the
  empty segment, so nothing is claimed about it.
- Varint field lists, list, hash, set and sorted-set commands, expiry, RENAME and other copies, Lua.
- BITOP, and the ranked listing of top-k.
- Concurrent JSON edits by several replicas: what they leave live is covered by Build and Load, not by Update.
- Errors from the store in the middle of a command.
- XADD's NOMKSTREAM and trimming, XGROUP's `$`, and the stream's key metadata.
- Bloom.State.Has: the chunk is a set of bit offsets; the byte and mask arithmetic inside a 4096-byte chunk is not modelled.
- Scan.ScanKeys: the metadata keys of a bucket are given sorted; the library sort is not modelled.
- JsonStore.JsonKey.Update: paths are sequences of segments; joining them with slashes is not modelled.
