# RLN registry: a verified model

This project models the on-chain RLN membership registry and proves that its parts keep agreeing with each other.

* **The sparse incremental Merkle tree.** One byte buffer holds a header, the four previous roots, the default hash of
  every level and a sorted map `[count u16][(offset u16, hash)...]`. `Sparse`, `Stored` and `Shard` work on those bytes
  in place, with the source's loops, shifts and little-endian fields; `Merkle` holds the plain recursive Merkle hash and
  `Tree` the tree as its slots and its root window. The byte level is proved to be the plain one, instruction by
  instruction and failure by failure.
* **The registration program.** `Registration` is the two-phase program: `Plan` sees ids and claims, `Apply` one shard.
  `Executor` runs a transaction (plan, effects in order, chained calls, all or nothing) and arbitrary runs of
  transactions by arbitrary senders: registrations, direct calls of the merkle program, transfers, clock ticks.
  `Registry` states each instruction once more as a single check-and-update of a whole registry, and `Commits` proves
  that the two-phase machine amounts to exactly that, for every instruction and account list, down to the exit code.
  `Verdicts` then says, in literal numbers, account positions and hash inputs, how every transaction ends and what a
  commit leaves in every field, and `TreeLaws` and `Layout` do the same for the tree's instructions and its bytes.
* **What runs keep.** `Ledger` and `Runs` carry the invariant of every reachable state; `Setup`, `Slots`, `Window`, `Honest`,
  `Removal`, `Hints`, `Batch`, `Lifetime`, `Renewal`, `Money` and `Pinning` draw the properties of whole runs from it.
* **The host.** `Client` and `Circuit` are the readers: header parsing, the leaf scan, proof extraction, padding to
  the circuit's depth. `Replay` executes a whole registration transaction over stored shards, trees as bytes, and is
  proved to write exactly what `Executor` says; `Chain` does so for whole runs, all or nothing, from an empty store.
  `MemberProof` takes any live member after any such run from the stored bytes to a circuit-depth proof.

Everything is proved for every tree depth from 1 to 15 and every circuit depth at least that, for every pair of hash
functions and every notion of field element (`Hashing.Sound`: zero and every u64 are field elements, and hashes of field
elements are field elements). No collision resistance is assumed anywhere: where a property needs it, the statement
names the collision that would break it, or the exact collisions that must be absent from the state.

## Reading guide

A tree is named by its id `t`. `ViewOf(w, t)` is its registry in world `w`: config, live memberships, Merkle tree.
`Reachable(p, w)` means some run from a chain without shards ends in `w`. Levels count from the root and heights from
the leaves. Program-derived accounts are distinct constructors, and only plain accounts can sign.

Three places where the repository's prose and code differ, or the code is easy to misread; the model follows the code.
The top-level README says that Extend renews from the current clock, but the code adds one grace and one active period
to the stored grace start. So a renewal never starts at its claimed clock, and starts at the chain's clock exactly when
that clock stands at the grace end (`Lifetime.RenewalAndTheClock`); `Renewal.RenewedAtElevenSeconds` is a reachable
renewal where it does not. Its table of merkle operations does not list `Set`, which the program has and no registration
instruction uses. Removing with a zero leaf succeeds on an empty slot; this is what lets a membership whose leaf happens
to hash to zero still be ended.

## Model

| member | source | states |
|---|---|---|
| Bytes.U64RoundTrip | lez-rln/methods/guest/src/merkle_tree.rs:369-375 | `next_index` written as 8 little-endian bytes reads back unchanged |
| Sparse.LowerBound | lez-rln/rln-layouts/src/sparse.rs:31-43 | on any bytes the search ends between an entry below the target and one that is not, and only truncated bytes make it fail |
| Sparse.DividesAll | lez-rln/rln-layouts/src/sparse.rs:3-5 | in a sorted map such a point splits all entries: every offset before it is below the target, every other one is not |
| Sparse.ReadSparseNode | lez-rln/rln-layouts/src/sparse.rs:16-55 | on any bytes a value other than the default was stored under that offset and only truncated bytes fail; on a sorted map reading is lookup with a default |
| Sparse.WriteSparseNode | lez-rln/methods/guest/src/merkle_tree.rs:247-286 | an in-place write is one update of the map the bytes hold, offsets strictly increasing and length 2 + 34 * count, exactly unless a 65536th entry wraps the count to zero; only truncated bytes fail |
| Sparse.ShiftAndInsert | lez-rln/methods/guest/src/merkle_tree.rs:269-285 | resizing, shifting the tail and filling the gap equals splicing one entry in and raising the u16 count, wrap-around included |
| Sparse.CanonicalBytes | lez-rln/rln-layouts/src/sparse.rs:1-5 | two node maps with the same contents are the same bytes |
| Sparse.RootFirst | lez-rln/rln-layouts/src/sparse.rs:7-12 | the root is at offset 0 |
| Sparse.ChildrenFollow | lez-rln/rln-layouts/src/sparse.rs:7-12 | offsets are breadth-first: the children of the node at o are at 2o + 1 and 2o + 2 |
| Layout.ShardLayout | lez-rln/rln-layouts/src/lib.rs:190-209 | every byte position of a tree shard in plain numbers: depth, next index, root, window, defaults, then a count and 34-byte entries of low-byte-first offset and hash |
| Layout.OtherDepthRefused | lez-rln/src/merkle_tree/client.rs:69-83 | a shard of a tree of another depth is never read |
| Layout.LargestShard | lez-rln/rln-layouts/src/lib.rs:171-188 | the largest shard in plain numbers, reached exactly by a full tree |
| Merkle.AncestorIsShift | lez-rln/methods/guest/src/merkle_tree.rs:323-336 | the node h levels above leaf i is i shifted right by h |
| Stored.OffsetBound | lez-rln/rln-layouts/src/lib.rs:163-172 | with depth at most 15 the u16 cast of a node offset loses nothing |
| Stored.OffsetInjective | lez-rln/rln-layouts/src/sparse.rs:7-12 | distinct nodes have distinct offsets |
| Shard.RoomForOne | lez-rln/methods/guest/src/merkle_tree.rs:247-286 | the u16 entry count cannot wrap when a tree node is added |
| Merkle.RootMatchesReferenceTree | lez-rln/methods/guest/src/merkle_tree.rs:592-617 | the recursive root equals the layer-by-layer fold of the padded leaf layer |
| Merkle.UnchangedOffPath | lez-rln/methods/guest/src/merkle_tree.rs:310-339 | writing one slot changes no node off that slot's path |
| Merkle.SameSlotsSameHash | lez-rln/methods/guest/src/merkle_tree.rs:637-642 | a node depends only on the slot values, trailing empty slots included |
| Stored.StoredNode | lez-rln/rln-layouts/src/sparse.rs:14-55 | a map that stores exactly the used nodes gives every node its recursive hash, the others through their default |
| Stored.PathRewritten | lez-rln/methods/guest/src/merkle_tree.rs:313-339 | rewriting the one path of a written slot turns the stored map of the old leaves into that of the new ones |
| Stored.StoredSize | lez-rln/methods/guest/src/merkle_tree.rs:313-339 | the number of stored nodes is the sum over the levels of the number of nodes above used slots |
| Merkle.WidthIsCeiling | lez-rln/methods/guest/src/merkle_tree.rs:313-339 | that number at height h is n / 2^h rounded up |
| Stored.NodesBound | lez-rln/rln-layouts/src/lib.rs:171-188 | the stored nodes reach all nodes of the tree exactly when every slot is used |
| Shard.ShardSize | lez-rln/rln-layouts/src/lib.rs:171-188 | exact byte length of a shard; the maximum is reached exactly by a full tree, and fits 100 KiB up to depth 10 |
| Shard.CreateMainAccountData | lez-rln/methods/guest/src/merkle_tree.rs:346-366 | a new shard has the given index, root and table of defaults, and an all-zero window |
| Shard.DefaultHashes | lez-rln/methods/guest/src/hash.rs:110-121 | hashing pairs upward from a zero leaf level gives a ladder, and each level of it is the root of an all-empty subtree |
| Shard.LadderIsDefault | lez-rln/methods/guest/src/hash.rs:51-62 | any table with a zero leaf level in which every level hashes a pair of the next one can only hold those empty-subtree roots |
| Shard.PushRootHistory | lez-rln/methods/guest/src/merkle_tree.rs:290-298 | the old root moves to slot 0 and the window shifts by one, in place, nothing else changing |
| Shard.RewriteLevel | lez-rln/methods/guest/src/merkle_tree.rs:323-336 | one turn of the climb stores the current node and leaves the hash of its parent |
| Shard.ComputeRootAfterUpdate | lez-rln/methods/guest/src/merkle_tree.rs:313-339 | the climb returns the recursive root of the new leaves and leaves a node map that stores exactly them |
| Shard.UpdateLeaf | lez-rln/methods/guest/src/merkle_tree.rs:236-244 | header and node map afterwards describe the leaves with one slot written and the root window advanced |
| Shard.InitializeTree | lez-rln/methods/guest/src/merkle_tree.rs:118-121 | accepts exactly an empty shard and writes the empty tree |
| Shard.InsertLeaf | lez-rln/methods/guest/src/merkle_tree.rs:132-148 | appends at `next_index`, or fails exactly as the abstract tree does: uninitialized, non-field leaf, full |
| Shard.RemoveLeaf | lez-rln/methods/guest/src/merkle_tree.rs:161-182 | zeroes the named slot exactly when it holds the named leaf |
| Shard.SetLeaf | lez-rln/methods/guest/src/merkle_tree.rs:191-215 | fills exactly a used, empty slot with a field element |
| Shard.Apply | lez-rln/methods/guest/src/merkle_tree.rs:99-106 | every effect on the bytes has the outcome of the abstract tree, and its bytes afterwards represent the new tree |
| Shard.RunShard | lez-rln/methods/guest/src/merkle_tree.rs:99-215 | after any sequence of Initialize, Insert, Remove and Set from an empty shard the bytes are the abstract run's, the header root is the recursive root, and every node read through map and default is the recursive hash |
| Shard.OccupiedBytes | lez-rln/methods/guest/src/merkle_tree.rs:123-215 | on the bytes, over any sequence of instructions, a slot read as non-zero still reads the same unless a removal naming that very leaf committed on it |
| TreeLaws.TreeEnds | lez-rln/methods/guest/src/merkle_tree.rs:118-215 | when each tree instruction commits, panics, or exits with 19 or 20, in literal conditions |
| TreeLaws.SetExactly | lez-rln/methods/guest/src/merkle_tree.rs:191-215 | a set commits if and only if the leaf is a field element and the slot is used and all zero |
| TreeLaws.TreeLeaves | lez-rln/methods/guest/src/merkle_tree.rs:118-215 | what each committed instruction leaves in the slots and in the window |
| TreeLaws.SlotLaw | lez-rln/methods/guest/src/merkle_tree.rs:123-215 | a slot changes only by an insert at the next index, a removal naming the leaf it holds, or a set while it is empty |
| TreeLaws.OccupiedSlot | lez-rln/methods/guest/src/merkle_tree.rs:150-215 | over any sequence of instructions an occupied slot keeps its leaf unless a removal naming that leaf commits on it |
| TreeLaws.RootListExact | lez-rln/src/merkle_tree/client.rs:195-212 | after any run the host's list is the current root, then the non-zero ones of the four roots before it, newest first, and nothing else |
| TreeLaws.ListedRootsAreRecent | lez-rln/src/merkle_tree/client.rs:195-212 | every listed root is one the tree had at most four writes ago |
| Shard.NodeReads | lez-rln/rln-layouts/src/sparse.rs:16-55 | every node (level, index) read through the map and its default is the recursive hash of the leaf layer |
| Shard.OneTreeOneShard | lez-rln/methods/guest/src/merkle_tree.rs:700-705 | the shard's bytes are determined by slots and window: same tree, same bytes, root included |
| Tree.TreeApplyOk | lez-rln/methods/guest/src/merkle_tree.rs:99-215 | no instruction leaves more slots than 2^depth or a slot outside the field |
| Tree.InsertThenRemove | lez-rln/methods/guest/src/merkle_tree.rs:637-650 | removing a leaf just inserted restores the root and keeps the index used |
| Tree.RemoveThenSet | lez-rln/methods/guest/src/merkle_tree.rs:688-697 | setting a removed slot back restores all leaves |
| Tree.RootWindow | lez-rln/methods/guest/src/merkle_tree.rs:290-298 | after any run of instructions history slot i holds the root of i + 1 writes ago, or zero |
| Tree.RootStaysListed | lez-rln/src/merkle_tree/client.rs:197-212 | a root read at some moment stays on the host's list through the next four writes |
| Client.FromBytesReadsTheTree | lez-rln/src/merkle_tree/client.rs:46-62 | the parsed header is the tree's next index, root and window |
| Client.NodeHash | lez-rln/src/merkle_tree/client.rs:94-104 | the host reads the recursive hash of any node, and refuses levels below the leaves, indices past the level and other trees |
| Client.RootListOf | lez-rln/src/merkle_tree/client.rs:195-212 | the list built from the parsed header is that root list |
| Client.BitsAreTheIndex | lez-rln/src/merkle_tree/client.rs:132-140 | a path's bits are its leaf index in binary, lowest bit at the leaves |
| Client.FindLeafIndex | lez-rln/src/merkle_tree/client.rs:113-122 | finds the newest slot holding a leaf, or that there is none |
| Client.FoldClimbs | lez-rln/src/merkle_tree/client.rs:125-149 | folding a leaf with the tree's own siblings gives each ancestor in turn |
| Client.Siblings | lez-rln/src/merkle_tree/client.rs:132-140 | the walk up collects each level's sibling and the bits of the index |
| Client.Prove | lez-rln/src/merkle_tree/client.rs:125-149 | the proof of any leaf index has that index for bits and folds to the header root; past the last leaf it is refused |
| Client.RootBinding | lez-rln/src/merkle_tree/client.rs:125-149 | a path that folds to the root from another leaf or other siblings exhibits a collision of the pair hash on the path: two different pairs with one hash |
| Circuit.ZeroLadder | lez-rln/src/proof_circuit.rs:47-57 | rung h is the root of an empty subtree of height h |
| Circuit.PadPath | lez-rln/src/proof_circuit.rs:81-86 | keeps the path and appends empty-subtree siblings on the right up to the circuit's depth |
| Circuit.PaddingAndFoldingAgree | lez-rln/src/proof_circuit.rs:101-132 | folding a padded path equals folding the path and then lifting its root |
| Circuit.LiftedRootIsDeeperRoot | lez-rln/src/proof_circuit.rs:88-96 | the lifted root is the root of the deeper tree with the same leaves followed by zeros |
| Circuit.ProofToCircuit | lez-rln/src/merkle_tree/client.rs:317-330 | the lifted path folds to the lifted root, which is that deeper root |
| MemberProof.CircuitProofOf | lez-rln/tests/local_sequencer.rs:149-160 | in every reachable state every live member obtains, from the stored bytes, its slot and a circuit-depth path from its leaf to the circuit root |
| MemberProof.ProofAfterRun | lez-rln/tests/local_sequencer.rs:120-160 | the same after any run at all from an empty store, the bytes being those the run stored |
| Setup.SetupCommits | lez-rln/src/state_tests.rs:353-369 | in any state that satisfies the invariant anyone can write the config of a tree id that has none, field for field as named, and then its empty tree |
| Setup.FirstMemberJoins | lez-rln/src/state_tests.rs:379-424 | and any sensible, solvent member who fits under the cap can then join it, at index 0, dated by the clock |
| Commits.PlanExact | lez-rln/methods/guest/src/program.rs:196-458 | a plan succeeds exactly for the right accounts and arguments, and then plans these effects and calls |
| Commits.EffectsExact | lez-rln/methods/guest/src/program.rs:490-661 | one effect per shard, in order, amounts to one check of the whole registry with the same failures, and touches no other registry |
| Commits.CallsExact | lez-rln/methods/guest/src/program.rs:150-177 | the chained calls move the price from payer to treasury or are refused, then do the tree's request |
| Commits.TransactionExact | lez-rln/src/cycle_harness.rs:103-171 | plan, effects and chained calls together fail or commit exactly as one check-and-update of the named registry |
| Verdicts.InitializeEnds | lez-rln/methods/guest/src/program.rs:199-232 | exactly when an Initialize commits, and how it fails otherwise |
| Verdicts.InitializeMerkleTreeEnds | lez-rln/methods/guest/src/program.rs:233-255 | exactly when an InitializeMerkleTree commits, and how it fails otherwise |
| Verdicts.RegisterEnds | lez-rln/methods/guest/src/program.rs:256-323 | exactly when a Register commits, and otherwise its first failing guard: panic, 12, 13, 11, 10, 14, refused payment, 20, with the limits 100, 600 and 900000 ms written out |
| Verdicts.SlashEnds | lez-rln/methods/guest/src/program.rs:324-375 | the same for Slash: panic without the secret, then 15, 16, 19 |
| Verdicts.ExtendEnds | lez-rln/methods/guest/src/program.rs:382-415 | the same for Extend: 12, 11, 10, 15, 16, 17, refused payment |
| Verdicts.EraseEnds | lez-rln/methods/guest/src/program.rs:416-455 | the same for Erase: 11, 10, 15, 16, 18, 19 |
| Verdicts.MerkleEnds | lez-rln/methods/guest/src/merkle_tree.rs:77-106 | how a direct call of the merkle program ends |
| Verdicts.TransferEnds | lez-rln/methods/guest/src/program.rs:165-177 | a plain transfer moves exactly its amount, or is refused without key or funds |
| Verdicts.InitializeLeaves | lez-rln/methods/guest/src/program.rs:214-231 | a committed Initialize stores its own arguments in every field, with both counters at zero |
| Verdicts.InitializeMerkleTreeLeaves | lez-rln/methods/guest/src/merkle_tree.rs:118-121 | a committed InitializeMerkleTree leaves no slots and an all-zero window |
| Verdicts.RegisterLeaves | lez-rln/methods/guest/src/program.rs:282-322 | a committed Register counts one more, stores rate limit, commitment and dates, appends H(commitment, rate bytes), and moves the price from the third account to the fourth |
| Verdicts.SlashLeaves | lez-rln/methods/guest/src/program.rs:341-374 | a committed Slash had the secret, ends the membership, and zeroes a slot that held H(commitment, rate bytes) |
| Verdicts.ExtendLeaves | lez-rln/methods/guest/src/program.rs:616-640 | a committed Extend moves one grace start on by a grace and an active period, in milliseconds, and pays the price |
| Verdicts.EraseLeaves | lez-rln/methods/guest/src/program.rs:433-454 | a committed Erase ends the membership and zeroes a slot that held H(commitment, rate bytes) |
| Verdicts.RateIsWord | lez-rln/methods/guest/src/registration.rs:55-60 | the rate limit enters the leaf hash as its eight little-endian bytes, then zeros, and reads back |
| Registry.ContractExact | lez-rln/methods/guest/src/program.rs:490-661 | that check commits if and only if every guard of the instruction holds, and to which registry |
| Runs.CommitsExactly | lez-rln/methods/guest/src/program.rs:196-661 | a transaction commits if and only if signatures, accounts and guards are right, and changes one registry and two balances |
| Runs.DirectMerkleCall | lez-rln/methods/guest/src/merkle_tree.rs:77-96 | a direct call of the merkle program changes no registry |
| Runs.StepView | lez-rln/methods/guest/src/program.rs:480-486 | isolation: an action changes at most the registry it commits an instruction on |
| Runs.ReachableOk | lez-rln/methods/guest/src/program.rs:535-577 | in every reachable state the counters are the number of live memberships and the exact sum of their rate limits, under the cap; the multiset of non-zero leaves is that of the memberships' non-zero leaves; memberships store their own commitment; trees stay field-valid |
| Ledger.EnabledKeeps | lez-rln/methods/guest/src/program.rs:490-661 | every committed instruction keeps that invariant |
| Ledger.CountedExactly | lez-rln/rln-layouts/src/state.rs:42-44 | no saturating addition on the counters saturates, even with a cap of u64::MAX |
| Ledger.UncountedExactly | lez-rln/methods/guest/src/program.rs:566-577 | no saturating subtraction on the counters saturates |
| Removal.OneToOneExactly | lez-rln/rln-layouts/src/state.rs:46-53 | live memberships and occupied slots correspond one to one exactly when no two live leaves collide and none is zero |
| Removal.LeafIsThere | lez-rln/methods/guest/src/merkle_tree.rs:161-182 | the leaf of every live membership is in the tree, even a zero one |
| Removal.SlashNeverStuck | lez-rln/methods/guest/src/program.rs:324-375 | with the right secret a slash carrying the scanned index always commits, zeroes one slot with that leaf, ends that membership, and leaves everything else alone |
| Removal.EraseExactlyWhenExpired | lez-rln/methods/guest/src/program.rs:416-455 | an erase carrying the scanned index commits exactly when the chain's clock has the membership expired, with the same effect |
| Hints.SlotExactly | lez-rln/methods/guest/src/merkle_tree.rs:150-182 | over any run a used slot keeps its leaf if and only if no removal at its index is committed, and is zero otherwise |
| Hints.HintStillHits | lez-rln/methods/guest/src/program.rs:363-374 | an index hint read at any state still hits later, unless a removal of that leaf value was committed in between |
| Hints.OldSlashCommits | lez-rln/methods/guest/src/program.rs:324-375 | so a slash built long ago still commits, at the index read back then |
| Hints.OldEraseCommitsExactly | lez-rln/methods/guest/src/program.rs:416-455 | and an erase built long ago commits exactly while its clock claim is fresh enough and shows the membership expired |
| Slots.RunProgress | lez-rln/methods/guest/src/merkle_tree.rs:123-148 | along any run terms never change, `next_index` only grows, and a slot keeps its leaf or is zeroed for good |
| Slots.LeafHasOrigin | lez-rln/methods/guest/src/program.rs:312-322 | a non-zero leaf was there before a run or was registered during it at that very index |
| Slots.NewerIndexMeansRegistered | lez-rln/src/merkle_tree/client.rs:238-264 | a newer newest index of a leaf means a registration of it was committed in between, at that index |
| Slots.LifetimeRegistrations | lez-rln/rln-layouts/src/lib.rs:156-161 | `next_index` equals the registrations ever committed, at most 2^depth |
| Window.TreeIsItsOps | lez-rln/methods/guest/src/program.rs:140-162 | a registry's tree is what its own committed requests made of an empty shard |
| Window.RegistryRootList | lez-rln/src/merkle_tree/client.rs:195-212 | in every reachable state a registry's list is its current root, then the non-zero ones of the four before it, newest first |
| Window.RegistryRootStaysListed | lez-rln/src/merkle_tree/client.rs:197-212 | a root read on chain stays listed through any further run with at most four writes to that tree |
| Honest.HonestNeverPanics | lez-rln/rln-layouts/src/exit.rs:1-42 | a transaction built from any reachable state and executed at any later state commits, is refused payment, or halts with one of the exit codes listed for its kind, never 12; it never panics |
| Honest.HonestCommits | lez-rln/src/state_tests.rs:380-519 | claims filled in as the host client does, then or earlier, commit exactly when the registry's own guards hold |
| Batch.BatchAnyOrder | lez-rln/methods/guest/src/program.rs:312-322 | registrations planned from one snapshot all commit in every order, at consecutive indices, with the same final config and memberships |
| Batch.LeavesForAt | lez-rln/methods/guest/src/merkle_tree.rs:123-148 | entry i of a batch takes the i-th free slot |
| Slots.TermsHaveOrigin | lez-rln/methods/guest/src/program.rs:495-501 | the terms of a registry are, to the end of any run, those its Initialize named |
| Lifetime.LifetimeExact | lez-rln/methods/guest/src/program.rs:296-306 | over any run a membership is live exactly when leased, its grace starts claim + A + k * (A + G) after k renewals, and never more than A + G past the clock |
| Lifetime.ErasedOnlyAfterPaidTime | lez-rln/methods/guest/src/program.rs:641-659 | any committed erase comes at or after claim + (k + 1) * (A + G) |
| Lifetime.ErasableExactlyAfterPaidTime | lez-rln/methods/guest/src/registration.rs:89-102 | and from exactly then on an honest erase commits |
| Lifetime.ExtendWindow | lez-rln/rln-layouts/src/lib.rs:82-114 | some claim renews a membership exactly while the clock is past the grace start and less than the tolerance past the grace end |
| Lifetime.RenewalAndTheClock | lez-rln/methods/guest/src/program.rs:634-637 | a renewal is never dated from its claimed clock, and is dated from the chain's clock exactly when that clock stands at the grace end |
| Renewal.RenewedFromTheGraceStart | lez-rln/methods/guest/src/program.rs:616-639 | any first member renewing at its grace start gets a grace start one grace period later than an active period from the clock |
| Renewal.RenewedAtElevenSeconds | lez-rln/methods/guest/src/program.rs:616-639 | a concrete such renewal, reached from an empty chain |
| Money.SupplyConserved | lez-rln/methods/guest/src/program.rs:165-177 | runs conserve the native supply |
| Money.BalancesExact | lez-rln/methods/guest/src/program.rs:165-177 | every balance is its start plus receipts minus spending in the committed payments |
| Money.SalesExact | lez-rln/methods/guest/src/program.rs:597-615 | every payment a registry caused went to its configured treasury at the configured price, unsaturated |
| Money.PaidPriceIsExact | lez-rln/methods/guest/src/registration.rs:39-46 | with a supply below u128::MAX a saturated price is unaffordable |
| Money.RevenueExact | lez-rln/methods/guest/src/program.rs:517-549 | a registry's income over any run is its price times the rate limits registered and renewed |
| Money.RevenueAtNamedPrice | lez-rln/methods/guest/src/program.rs:214-231 | all of a registry's income is the price its Initialize named times the rate limits sold, and goes to the treasury it named |
| Pinning.CalleePinned | lez-rln/methods/guest/src/program.rs:141-162 | once the effects passed, any call carrying a tree's authority goes to the program stored in that tree's config |
| Pinning.OnlyItsOwnShards | lez-rln/methods/guest/src/program.rs:114-138 | a committed instruction writes at most its tree's config, its tree and the one membership it names |
| Replay.Replayer.ApplyEffect | lez-rln/src/cycle_harness.rs:132-150 | one apply session on the stored shard has the outcome and the effect of the executor's |
| Replay.Replayer.ReplayMerkle | lez-rln/methods/guest/src/merkle_tree.rs:77-106 | a merkle call on stored bytes has the outcome and the effect of the executor's |
| Replay.Replayer.ReplayTransaction | lez-rln/src/cycle_harness.rs:107-171 | a replayed registration ends as the executor does with a payer that can pay, leaves stored shards that show the executor's world, and logs one session per plan and effect in order |
| Chain.Chain.Submit | README.md:90-98 | any transaction on stored shards and balances ends as the executor says, and a failed one leaves everything stored as it was |
| Chain.Chain.RunAll | lez-rln/src/cycle_harness.rs:103-171 | after any run of registrations, merkle calls, transfers and clock ticks the stored shards, trees as bytes, and the balances show the executor's world |
| Chain.StoredTree | lez-rln/rln-layouts/src/lib.rs:190-209 | what such a store holds for a registry's tree is the byte layout of that tree |

## Left out

- Poseidon, the BN254 field, SHA-256, Groth16 and the proving library: hashes and the field check are parameters.
- Account derivation and Borsh encodings: derived accounts are distinct constructors, and configs, memberships, instructions and clock data are typed values. A shard of the wrong kind counts as not decoding.
- The runtime beyond plan, effects, chained calls and all-or-nothing: nonces, signature checking, fees, cycle limits, data caps, private transactions.
- The native token program beyond "authorized and affordable, then move"; a credit past u128 is not modelled.
- Configured merkle programs other than the modelled one: a call of any other program ends the transaction with the outcome `Foreign`, of which nothing is claimed.
- Calls of the registration program by other programs, which could pass on an authorization: every transaction of a run is a top-level one.
- Wallet, RPC, command line tools, build script, fee quoting, and polling with its attempts and intervals (of `wait_for_leaf` only the rule on newer indices is modelled).
- Sparse.ReadSparseNode: which of several entries a search finds in a map that is not sorted is not said; the programs never write one.
- Sparse.WriteSparseNode: what a write makes of a map that is not sorted is not said.
- Shard.Apply: the shard before an effect is empty or a tree the program wrote; `Chain.Chain.RunAll` shows that every shard stored by a run is. On bytes nobody wrote the source would also cut the index to the guest's word size.
- Shard.InsertLeaf: the same, for a shard with this tree's header that the program did not write.
- Shard.RemoveLeaf: the same.
- Shard.SetLeaf: the same.
- Client.NodeHash: the same, and likewise for the other readers.
- Replay.Replayer.ReplayTransaction: nothing is claimed when the executor's outcome is `Foreign`, that is when a call leaves the modelled programs.
- Balances after differently ordered batches are not compared, and the root window does depend on the order.
- Clocks so late that the grace arithmetic would saturate: the statements on paid time have a premise on the final clock.
- Slot and loop counters of host readers are unbounded naturals; every value they take is below 2^16.
