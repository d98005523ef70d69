# Verification of the BBG graph state and its storage

A Dafny model of the authenticated graph state, with machine-checked proofs. It follows the Rust
sources file by file. `dafny verify dfyconfig.toml` checks everything.

The model has three cores and one smaller one.

**The authenticated map.** `bytes`, `integers`, `digest` and `commitment` hold keys, encodings, the
symbolic hash and the recursive reference `node(S)`. `shape` is the path-compressed tree as a value:
canonicity, dirty flags, cached digests. `arena` lays such a tree out in index slots with a free list,
and `trie` is the class that rewrites those slots in place. Every operation keeps its tree canonical,
its caches exact and its slots accounted for, so the root is `node(S)` of the current map, whatever
the history. `proofs` is the verifier. `keyed` and `axons` are the deferred maps and the nested,
histogrammed adjacency index on top. Compression is a free constructor: two compressions are equal
only for equal inputs. That is the collision-free idealisation, and nothing else about the hash is used.

**The native transition.** `graph` says what each write of a block does to the state as a value, and
`effects` what that amounts to over a whole signal, in closed form; `supply` is the total of the
balances. `blocks` is the ordinary path (insert, record, finalize, prune) as a class; `pruning` is the
pruning policy and `cycles` what a whole cycle takes and leaves. `records` and `addresses` read the state
by persisted address and prove what each step leaves alone. `undo`, `transition` and `prepared` are the
bounded undo log, the validation and the prepared batch; `batches` says what a batch means and which
addresses it names, so that its limits are exact, and `outcomes` what each event leaves, table by table. `publish` ties the published write set to the record
stream and to the ordinary path. `adjacency` is the invariant between the two adjacency indexes and the edge map, and
`spending` what runs keep of nullifiers and balances.
The hash functions of this core are arbitrary functions.

**The durable log.** `stores` and `databases` are the tables, the transaction overlay, and an engine
whose commit is applied, refused or unknown. `scans` is the paging algorithm. `application` and
`histories` are conditional heads, receipts, immutable rows, migrations and what every run of them
keeps. `links`, `validation` and `archive` are the chain invariant and its two validators, and
`summaries` is what an inspection returns. `cursors` and `transfer` are the restartable copy, and
`interleavings` runs it against ordinary writes. `buffers` and `disk` are the pending shard mutations. Where an
engine outcome is not the program's to choose it is a parameter, so each result holds for every
sequence of outcomes.

**Query tables.** `dimensions` assembles a dimension's entries from its record map, `tables` prints
them, and `queries` is the prover's walk and the verifier's parser of what was printed.

`sorting` and `wrappers` are shared. Graph maps and store rows are `map` fields that the methods
reassign. A mutex-guarded step is one method call, and a mutable guard with its drop is one update.

Where code and comments differ, the model follows the code:

- `rs/src/trie.rs:21-23` says dimension version 3; the leaves carry version 4 (`rs/src/dim.rs:14`).
- `rs/src/trie.rs:133-138` says that a terminal with another key proves non-inclusion. The verifier
  does not tie the terminal digest to that key, so a present key's own proof with another terminal
  key is accepted as absence (`TrieProofs.AbsenceRelabelled`). `TrieProofs.AbsenceExact` says when such a proof is true, and
  `TrieProofs.AbsenceSound` what a caller has to check.
- `rs/src/prune.rs:123-130` says that a percentage of 0 protects nothing and that a percentage of 100
  gives floor 0. The floor for 0 is 2^64 - 1, so a particle with that score stays protected
  (`Pruning.ZeroProtects`, `Pruning.ZeroProtectsOne`); the floor for 100 is the least score, and every
  particle is protected all the same (`Pruning.FullProtects`).
- `rs/src/state.rs:361-365` says that inserting a signal enforces the double-spend invariant. It does
  against earlier signals; one signal may name a nullifier twice (`Spending.EachSpendsOne`,
  `Spending.TwiceInOne`). The validation of a batch refuses that.

## Model

| member | source | states |
|---|---|---|
| `Bytes.FirstDiffBit` | rs/src/trie.rs:61-72 | The byte loop returns the one bit index on which two distinct keys differ first: they agree on every earlier bit, and the one with that bit set is the greater in byte order. |
| `Bytes.BitOrder` | rs/src/trie.rs:54-72 | Of two keys that first differ at a bit, the one with the bit clear is less as a byte string: bits are numbered from the high end. |
| `Digests.ComputeLeafDigest` | rs/src/trie.rs:76-95 | The block loop folds exactly the recursive leaf chain of the header comment: tag, width and dimension version, then the key, then the values in zero-padded blocks of four. |
| `Digests.LeafDigestInjective` | rs/src/trie.rs:74-95 | Over a free compression, two leaves are equal only for the same key and the same value fields, whatever their lengths and padding. |
| `Digests.DomainSeparation` | rs/src/trie.rs:97-101 | No leaf digest is a branch digest, and neither is the empty digest. |
| `Digests.KeyLimbsInjective` | rs/src/dim.rs:39-44 | The eight u32 limbs of a key determine it. |
| `Digests.U64LimbsInjective` | rs/src/dim.rs:30-33 | The two u32 limbs of a u64 determine it. |
| `Commitment.NodeAtSplit` | rs/src/trie.rs:30-35 | node(S) can be computed at any bit that splits S first: the reference does not depend on how the split bit is found. |
| `Commitment.SidesOrdered` | rs/src/trie.rs:30-35 | At its first split every key on the left of node(S) is less than every key on the right. |
| `Commitment.CommitmentBinds` | rs/src/trie.rs:30-36 | Two record maps with one commitment are the same map. |
| `Shape.FreshIsNode` | rs/src/trie.rs:24-36 | A canonical tree's digest, recomputed bottom up, is node(S) of its contents. |
| `Shape.CleanIsFresh` | rs/src/trie.rs:199-227 | Staleness is closed upwards: under a clean node every cached digest is the recomputed one. |
| `Shape.GraftCorrect` | rs/src/trie.rs:300-322 | Splicing a new leaf in at the first differing bit keeps the tree canonical and adds just that entry. |
| `Shape.WithoutCorrect` | rs/src/trie.rs:325-348 | Lifting the sibling over the removed leaf's branch keeps the tree canonical and removes just that entry. |
| `Shape.PathDepth` | rs/src/trie.rs:242-256 | Branch bits strictly increase along every path, so no path is longer than the 256 bits of a key. |
| `Tries.Trie.Root` | rs/src/trie.rs:201-227 | root() is node(S) of the current map after any mix of operations, and leaves no stale digest. |
| `Tries.Trie.Hash` | rs/src/trie.rs:213-226 | Recomputing only stale branches leaves the tree with every cached digest exact and every other slot untouched. |
| `Tries.Trie.IsDirty` | rs/src/trie.rs:209-211 | The trie reports dirty exactly when its root branch is stale. |
| `Tries.Trie.Set` | rs/src/trie.rs:278-322 | set() maps the key to the digest and changes no other entry; it reports whether the key is new; arena, free list, canonical shape and dirty flags stay valid. |
| `Tries.Trie.Remove` | rs/src/trie.rs:325-348 | remove() deletes exactly the key, reports whether it was there, leaves the arena its length and puts two more slots on the free list, one for the last key. |
| `Tries.Trie.Get` | rs/src/trie.rs:351-357 | get() answers from the map the trie stands for. |
| `Tries.Trie.Descend` | rs/src/trie.rs:243-255 | descend() follows the key's bits to a leaf within 256 branches. |
| `Tries.Trie.ArenaAccounting` | rs/src/trie.rs:125-136 | Reachable slots and free slots partition the arena: nodes.len() is free.len() plus 2 len - 1, or plus 0 when empty, and no slot is reached twice. |
| `Tries.Trie.Prove` | rs/src/trie.rs:361-377 | A produced proof verifies for the key's actual status, present or absent, and its bits are below 256. |
| `Tries.FromEntries` | rs/src/trie.rs:380-386 | A trie built from entries in any order holds the map they collect to, the last one winning. |
| `TrieProofs.Verify` | rs/src/trie.rs:148-182 | The fold from the leaf up, with its bit-order check and its comparison of the terminal key with the queried one, decides exactly the acceptance predicate; no terminal digest is checked against its key. |
| `TrieProofs.Completeness` | rs/src/trie.rs:361-377 | The path of a canonical tree is an accepted proof, for presence and for absence, and ends at a record of its terminal key when the tree holds records. |
| `TrieProofs.InclusionSound` | rs/src/trie.rs:148-182 | Any proof with bits below 256 that is accepted for a record leaf against the root of a map of record leaves shows that the key is stored with that value. |
| `TrieProofs.AbsenceRelabelled` | rs/src/trie.rs:133-182 | Relabelling the terminal of any present key's own proof makes a proof that is accepted as absence of that key. |
| `TrieProofs.AbsenceExact` | rs/src/trie.rs:133-182 | An accepted absence proof that ends at a record shows that record stored, and its key is absent exactly if the record is not the key's own. |
| `TrieProofs.AbsenceSound` | rs/src/trie.rs:133-182 | For a caller that checks the terminal digest to be a record of the terminal key, every accepted absence proof against the root of a map of records is true. |
| `KeyedMaps.Keyed.Flush` | rs/src/keyed.rs:126-141 | Writing only the touched records leaves the trie holding exactly the current records. |
| `KeyedMaps.Keyed.Insert` | rs/src/keyed.rs:147-151 | insert() updates the map, returns the prior value and marks the key; the trie agrees with the map on every key not marked. |
| `KeyedMaps.Keyed.Remove` | rs/src/keyed.rs:153-157 | remove() does the same for a removal, and marks nothing when the key is absent. |
| `KeyedMaps.Keyed.Update` | rs/src/keyed.rs:167-173 | A guarded mutation and its drop change one present record and mark it. |
| `KeyedMaps.Keyed.Entry` | rs/src/keyed.rs:174-178 | entry().or_insert() and its guard insert the default if absent, then change it. |
| `KeyedMaps.Keyed.Clear` | rs/src/keyed.rs:159-165 | clear() leaves an empty map over an empty trie. |
| `KeyedMaps.Keyed.Commit` | rs/src/keyed.rs:179-183 | The commitment is node(S) of the current records, wherever earlier reads flushed. |
| `KeyedMaps.Keyed.Prove` | rs/src/keyed.rs:190-193 | A proof is for the record's present status against that commitment. |
| `KeyedMaps.Keyed.Pending` | rs/src/keyed.rs:142-145 | pending() is zero only while the trie holds exactly the current records. |
| `KeyedMaps.RecordsBind` | rs/src/keyed.rs:179-198 | Two maps with one commitment have the same keys and the same leaf fields under each. |
| `KeyedMaps.HeightKeyInjective` | rs/src/keyed.rs:41-48 | The padded little-endian path of a u64 key is injective. |
| `Axons.HistogramMoved` | rs/src/keyed.rs:364-379 | Moving one particle between two degrees keeps the histogram exact: every positive count, and only those. |
| `Axons.CommitmentOfRelation` | rs/src/keyed.rs:364-515 | The outer records of two indexes of the same particle-to-set relation are equal, whatever order their lists are in. |
| `Axons.DedupFacts` | rs/src/keyed.rs:433-447 | First-occurrence deduplication keeps the elements, drops every duplicate and is the identity on a duplicate-free list. |
| `Axons.DedupFirstPlaces` | rs/src/keyed.rs:433-447 | What deduplication keeps stands in the order of first occurrences. |
| `Axons.AxonIndex.Add` | rs/src/keyed.rs:417-432 | add() appends a new axon to the list and its member trie; a listed axon changes nothing. |
| `Axons.AxonIndex.Insert` | rs/src/keyed.rs:433-447 | insert() replaces a list by its first occurrences in their order, an empty one removing the particle, and returns the prior list. |
| `Axons.AxonIndex.Remove` | rs/src/keyed.rs:448-457 | remove() drops a particle with its member trie and its place in the histogram. |
| `Axons.AxonIndex.RemoveAxon` | rs/src/keyed.rs:458-479 | remove_axon() takes one axon out of the list, what follows it closing up in order, and out of the member trie; a list it empties disappears. |
| `Axons.RetainCuts` | rs/src/keyed.rs:458-479 | On a list without duplicates, retaining all but one axon is the list before its place followed by the list behind it. |
| `Axons.AxonIndex.Truncate` | rs/src/keyed.rs:480-497 | truncate() cuts the list and the member trie to a prefix and reports how many it dropped. |
| `Axons.AxonIndex.MaxDegree` | rs/src/keyed.rs:507-511 | max_degree() is the largest list length, zero for an empty index. |
| `Axons.AxonIndex.Commit` | rs/src/keyed.rs:512-514 | The commitment is node(S) of one leaf per particle over its degree and the root of its member set. |
| `Axons.AxonIndex.ProveMember` | rs/src/keyed.rs:534-536 | A member proof is for the axon's actual status against the particle's set root. |
| `Effects.ParticleAfter` | rs/src/state.rs:402-407 | After all links of a signal, a particle's weight has grown by exactly what its axon was given and its energy by what was sent to it, each capped at 2^64 - 1; its other scores are untouched. |
| `Effects.FocusAfter` | rs/src/state.rs:409-412 | A signal spends its neuron's focus by the total of its links, down to zero, and touches no other neuron. |
| `Effects.InsertedEffects` | rs/src/state.rs:366-434 | A signal, table by table: every nullifier spent; at each point the last commitment naming it, mod the field; weights, energies and focus in closed form; balances credited, then debited, and never zero; lists grown at their ends by what they lacked; each edge from the first link of its axon; each linked axon touched at the epoch; everything else as it was. |
| `Effects.MovesAfter` | rs/src/state.rs:374-380 | The moves alone add exactly their nullifiers and leave, at each point, the value of the last move that names it. |
| `Supplies.SupplyAfter` | rs/src/state.rs:414-428 | When no credit saturates, the total of all balances grows by exactly the shortfalls of the sources, so it is conserved when every source covers its links; from and to keys may coincide. |
| `Blocks.Bbg.Insert` | rs/src/lib.rs:89-99 | insert() fails, changing nothing, exactly when a nullifier is already spent; otherwise every nullifier of its moves is spent, and particles, neurons, balances, lists, edges and touches are what the closed forms say. |
| `Blocks.Bbg.InsertState` | rs/src/state.rs:366-434 | The nullifier check runs before any write; then the nullifiers of all moves are spent and moves and links are applied in order. |
| `Blocks.Bbg.FinalizeBlock` | rs/src/lib.rs:101-117 | Closing a block writes the root under the old height, raises the height and moves the checkpoint to the new root, with no proof; on a multiple of 100 a pruning cycle of that epoch comes between, and otherwise nothing else changes. |
| `Blocks.Bbg.Prune` | rs/src/prune.rs:65-77 | Within budget the loop takes exactly the keys below the floor untouched for more than the half-life; over budget it takes keys below the floor, lightest first, until the graph fits or none is left, and not one more. What it takes goes with its edge, touch and list places; all else stays, in order. |
| `Cycles.PrunedIsCycle` | rs/src/prune.rs:65-129 | The pruning specification does just that, for every graph, epoch and policy. |
| `Cycles.TookAll` | rs/src/prune.rs:156-163 | Removing axons one by one takes exactly their particles, edges, touches and list places; lists keep the rest in order and an emptied list goes. |
| `Blocks.HeightKept` | rs/src/state.rs:366-434 | Inserting a signal never moves the height. |
| `Sorting.SortedUnique` | rs/src/prune.rs:120-128 | Any strictly ascending listing of a finite set is its sorted list, so every iteration order that sorts ends the same. |
| `Pruning.ComputeRankFloor` | rs/src/prune.rs:131-145 | The local sort finds the one score that at least the protected share of the particles reach and less than that share exceed; 2^64 - 1 for a percentage of 0. |
| `Pruning.OneFloor` | rs/src/prune.rs:131-145 | No second score is the floor, so how equal scores are sorted cannot matter. |
| `Pruning.EstimateBytes` | rs/src/prune.rs:146-153 | The estimate is 80 bytes a particle, 64 a neuron, 32 a list and 32 a listed axon, whatever order the lists are summed in. |
| `Pruning.FloorProtects` | rs/src/prune.rs:131-145 | For a percentage of 1 to 100, at least ceil(n pct / 100) particles stand at or above the floor. |
| `Pruning.ZeroProtects` | rs/src/prune.rs:123-133 | A percentage of 0 protects nothing exactly while no score is 2^64 - 1. |
| `Pruning.ZeroProtectsOne` | rs/src/prune.rs:65-145 | The input where it fails: one particle with score 2^64 - 1 over budget survives the cycle, which ends over budget. |
| `Pruning.FullProtects` | rs/src/prune.rs:123-145 | A percentage of 100 or more protects every particle, the floor being the least score. |
| `Pruning.FloorKept` | rs/src/prune.rs:65-163 | A cycle keeps every particle at or above the floor, unchanged. |
| `Pruning.ShareSurvives` | rs/src/prune.rs:65-163 | At least ceil(n pct / 100) of n particles survive a cycle. |
| `Pruning.PrefixRemoved` | rs/src/prune.rs:65-128 | Over budget a cycle removes the shortest prefix of the keys below the floor, lightest first, after which the graph fits, or all of them; within budget, every stale key below the floor; what it removes is gone from particles and touches. |
| `Pruning.Plan` | rs/src/prune.rs:78-129 | More keys than the limit are refused; otherwise the plan lists each once, by weight, ties in key order: over budget the particles below the floor, within it the touched keys below the floor older than the half-life. |
| `Adjacency.RunKeeps` | rs/src/state.rs:383-391 | Over every run of inserts, records, intents and blocks with pruning: an axon is in axons_out of p exactly when its edge leaves p, in axons_in of q exactly when it enters q; lists stay nonempty and duplicate-free. axon_id need only separate the linked pairs. |
| `Adjacency.RemovalKeepsConsistent` | rs/src/prune.rs:156-163 | Removing an axon takes it out of both lists and the edge map together. |
| `Adjacency.MirrorImages` | rs/src/state.rs:383-391 | An axon is listed at its source exactly when it is listed at its target. |
| `Spending.RunSpends` | rs/src/state.rs:366-434 | Over every run exactly those nullifiers are spent that were so at its start or that an accepted signal of the run took, and no balance row is ever zero. |
| `Spending.TakenOnce` | rs/src/state.rs:366-374 | Once a signal is in, no signal sharing a nullifier with it is ever inserted again, itself included if it has a move, whatever the run in between. |
| `Spending.EachSpendsOne` | rs/src/state.rs:366-380 | An accepted signal spends as many nullifiers as it has moves exactly if it names none twice: insert() compares with what was spent before the signal alone. |
| `Spending.TwiceInOne` | rs/src/state.rs:366-380 | The input where it does not: a signal of two moves with one unspent nullifier goes in; the validation of a batch refuses it. |
| `Records.KeyOfInjective` | rs/src/transition/records.rs:17-23 | Distinct record addresses have distinct persisted keys. |
| `Records.Decode` | rs/src/transition/undo.rs:72-173 | Reading a snapshot returns exactly the record it was taken of, domain by domain. |
| `Addresses.WorldIsItsReads` | rs/src/transition/records.rs:89-201 | Two graphs with equal reads at every address and equal scalars are equal: the record stream misses nothing. |
| `Addresses.InsertFrame` | rs/src/transition/mod.rs:173-200 | Inserting a signal changes no address outside those its moves, links and neuron name. |
| `Addresses.RemovalFrame` | rs/src/transition/mod.rs:232-241 | Removing an axon changes no address but its particle, edge, touch and the two lists of its edge. |
| `Addresses.PutFrame` | rs/src/transition/undo.rs:91-173 | Writing a captured value back sets its address and no other, provided lists are nonempty and duplicate-free. |
| `Undos.Undo.Capture` | rs/src/transition/undo.rs:31-46 | The first capture of an address records its value at the start, whatever has changed since; it is refused exactly if the log with it would exceed 65,536 keys or 8 MiB of keys and records, and then leaves the log as it was. |
| `Undos.Undo.Restore` | rs/src/transition/undo.rs:47-57 | Restoring a log that covers every change gives back the starting graph, scalars included. |
| `Undos.BoundedRead` | rs/src/transition/undo.rs:58-71 | A record a snapshot can be taken of is refused exactly if its encoding is longer than the log's 8 MiB; the list-length test of the source is that byte bound, because no other record comes near it. |
| `Undos.MetadataFields` | rs/src/transition/records.rs:72-87 | Each field of the metadata record is read back from its place: version, height, root, checkpoint, diameter bound and pruning policy. |
| `Undos.MetadataBinds` | rs/src/transition/records.rs:72-87 | Two graphs with one metadata record have one height, root, checkpoint, diameter bound and policy. |
| `Transition.Validate` | rs/src/transition/mod.rs:284-324 | The error is that of the first condition broken: height, link count, header, stored header, item count, a nullifier spent before or earlier in the signal, a credit past 2^64 - 1; there is none exactly if none is broken. |
| `Transition.WorkedIsBalances` | rs/src/transition/mod.rs:308-322 | The working balances are the balances the links will leave, from and to keys aliased or not, and they overflow exactly when some credit would saturate. |
| `Transition.AcceptedInserts` | rs/src/transition/mod.rs:284-324 | Once validation accepts, insert cannot fail and no balance credit saturates. |
| `Outcomes.AppliedDone` | rs/src/transition/mod.rs:111-243 | An event that is not refused does what its kind says: a signal goes in under a fresh header that speaks of it, spending fresh nullifiers, and its block closes, pruned on an epoch; a credit adds balance and focus and keeps karma, stake and nonce. |
| `Outcomes.BatchLeads` | rs/src/transition/mod.rs:92-145 | A batch leads through one world per event, each doing what its kind says from the world before. |
| `Outcomes.BatchAdds` | rs/src/transition/mod.rs:284-307 | A batch spends exactly as many nullifiers as its signals have moves and stores exactly as many headers as it has signals. |
| `Preparation.Prepared.Signal` | rs/src/transition/mod.rs:173-216 | A prepared signal ends in the state of insert, apply_signal_record and finalize_block exactly if validation accepts it, the pruning it sets off has few enough candidates, and the addresses both name fit the log; otherwise it returns validation's error or a limit. What an accepted one leaves is also stated table by table. |
| `Preparation.Prepared.Prune` | rs/src/transition/mod.rs:217-243 | Bounded pruning with captures ends where the ordinary cycle does, exactly if its candidates number at most 65,536 and what its removals name fits the log. It takes and leaves what a cycle does. |
| `Preparation.Prepared.Credit` | rs/src/transition/mod.rs:118-131 | A local credit adds its amount to the balance and its focus to the neuron, whose karma, stake and nonce stay, or start at zero; an overflow of either is refused, and the checkpoint follows. |
| `Preparation.Prepared.CollectChanges` | rs/src/transition/mod.rs:245-262 | The write set is exactly the addresses whose records differ, each once, with its new record, in key order; it is refused exactly if those keys and records exceed 8 MiB. |
| `Preparation.PrepareBatch` | rs/src/transition/mod.rs:92-145 | A batch is prepared exactly if its size, the checkpoint and the percentage are in order, no event is refused, every pruning cycle can be planned, and the addresses named and the write set are within the limits; then it has applied all events, with an exact write set and one snapshot per event. Any error is justified by the first event refused or the limit exceeded, and leaves the graph untouched. An accepted batch grows the nullifiers by the moves of its signals and the headers by its signals; one signal spends exactly its own nullifiers, none before or twice, and its header agrees with it. |
| `Preparation.Prepared.Drop` | rs/src/transition/mod.rs:264-270 | Dropping an active preparation restores the starting graph. |
| `Publication.PatchedRecords` | rs/src/transition/records.rs:89-201 | records(before) patched with changes() equals records(after). |
| `Publication.OneSignal` | rs/src/transition/mod.rs:72-91 | A batch of one signal is accepted exactly when validation accepts it, and is then the ordinary path. |
| `Publication.PublishedIsOrdinary` | rs/src/transition/mod.rs:159-164 | Two equal graphs, one through a published preparation and one through the ordinary path, end equal, whenever the batch of one signal can be prepared; the published write set patches the old records into the new. |
| `Stores.NamesApart` | rs/src/storage/database/mod.rs:247-277 | No two tables share a name. |
| `Stores.PreimageInjective` | rs/src/storage/database/mod.rs:305-323 | Distinct change sets feed the hasher distinct bytes. |
| `Databases.ComputeChangeId` | rs/src/storage/database/mod.rs:305-323 | The loop hashes the rows in order of table name, then key. |
| `Databases.Transaction.Get` | rs/src/storage/database/transaction.rs:64-87 | A read sees staged values first and the engine otherwise, within its budget. |
| `Databases.Transaction.Stage` | rs/src/storage/database/transaction.rs:94-113 | A write is staged exactly when the staged set stays within key and byte limits with the 91-byte reserve; a refused write changes nothing. |
| `Databases.Transaction.ScanTable` | rs/src/storage/database/transaction.rs:115-130 | A scan of a table with staged writes is refused; otherwise it is the page of what the transaction sees. |
| `Databases.MarkersFit` | rs/src/storage/database/transaction.rs:99-108 | With both markers added, a staged set is within the transaction's key and byte limits. |
| `Databases.TotalPut` | rs/src/storage/database/transaction.rs:105-112 | Replacing a staged value moves the running total by the difference of the two weights. |
| `Databases.Database.Begin` | rs/src/storage/database/mod.rs:120-130 | No transaction starts behind an unknown commit. |
| `Databases.Database.Finish` | rs/src/storage/database/mod.rs:130-158 | A commit that lands gives every slot its staged value, or what it held, and sets both markers to the identity, last_commit only when a shard changed; one that fails changes nothing; an unknown one has done all or nothing and shuts the latch. An empty one does nothing. |
| `Databases.ReopenDecides` | rs/src/storage/database/mod.rs:116-165 | After an unknown commit nothing changes until reopening; then last_transaction is the attempted id exactly when the store is the earlier one patched with the attempted changes, even when the previous commit was the same change set. |
| `Databases.RunStamps` | rs/src/storage/database/mod.rs:139-151 | In every run, a store whose last transaction is a change set already holds that change set. |
| `Scans.BoundsExact` | rs/src/storage/database/backend.rs:95-113 | The range of a scan holds exactly the keys with the prefix that follow the cursor, 0xFF tails included. |
| `Scans.PushRow` | rs/src/storage/database/backend.rs:123-149 | A row no page may hold is an error, a row that does not fit now waits, and any other joins the page. |
| `Scans.Scan` | rs/src/storage/database/backend_fjall.rs:107-126 | A page holds rows with the prefix behind the cursor, ascending and from the first on; any wanted row it leaves out follows all of it, and then the page is full or the next row would pass its byte limit. An error means some wanted row fits no page. |
| `Scans.NextKeys` | rs/src/storage/database/backend.rs:95-113 | Continuing after the last key of a page leaves exactly the rows behind it. |
| `Scans.Enumerate` | rs/src/storage/application/validation.rs:35-40 | Scanning from the last key until a page is empty terminates and visits every row with the prefix once, in order; it fails exactly when some row fits no page. |
| `Applications.HeadRoundTrip` | rs/src/storage/application.rs:294-308 | Decoding an encoded head returns it. |
| `Applications.ReceiptRoundTrip` | rs/src/storage/application.rs:309-317 | Decoding an encoded receipt returns its fingerprint and head. |
| `Applications.HistoryKeyInjective` | rs/src/storage/application.rs:288-293 | Namespace and index are read back from a history key. |
| `Applications.ImmutablePut` | rs/src/storage/application.rs:265-280 | A row is written unless it is there with the same value; a different value is a conflict and changes nothing. |
| `Applications.PutAllExtends` | rs/src/storage/application.rs:265-280 | Rows put immutably overwrite nothing and are all there afterwards. |
| `Applications.ApplicationStore.ApplyChecked` | rs/src/storage/application.rs:184-247 | A new request is applied only when it is not fenced, expects the current head and names the next index; an identical retry returns its original head and changes nothing; a different fingerprint is a conflict. On readable rows, with no fault and in budget, a new request is applied exactly if it is acceptable. A new request over another head than it expects, out of sequence or to a fenced namespace errs and changes nothing, with the error of its head where that alone is wrong; too large a write is refused first; an applied one leaves its head, entry, receipt, content and claims. |
| `Applications.ShapeInBudget` | rs/src/storage/application.rs:250-261 | The limits on a write keep it, and a migration of up to 256 sources, within the transaction's budgets: no acceptable one is refused for room. |
| `Applications.ApplicationStore.ApplyOnce` | rs/src/storage/application.rs:181-183 | A request applied before is refused; one that succeeds moved the head it expected to its own. |
| `Applications.ApplicationStore.ApplyMigration` | rs/src/storage/application.rs:155-172 | A migration is applied exactly if it is acceptable, with every source complete for its target and at its named head; then the target's head, all the fences and the reader generation have moved in one transaction, or it answers a retry. Sources out of order, too many, none, or naming the target are refused as such; a source at another head or an unknown status refuses a new request; the status ends at neuron-v1 unless it was at a later generation. |
| `Applications.MigrationFences` | rs/src/storage/application.rs:155-172 | After a migration every source is fenced for the target, still at its named head, and was copied completely for that target if it was staged. |
| `Histories.RunCoherent` | rs/src/storage/application.rs:184-247 | Every store reached from empty has, in each namespace, a history of exactly 0..=head.index ending at the head commit, receipts in bijection with history, and content behind every commit. The same is said byte by byte. |
| `Histories.ChainedIsCoherent` | rs/src/storage/application/validation.rs:31-132 | Coherence is what the rows say byte by byte: widths, a head's index and commit, an entry's, a receipt's. |
| `Histories.RunOutlives` | rs/src/storage/application.rs:155-247 | Along a run content, claims, history and receipts never change once written, heads never fall back, and a fenced head never moves. |
| `Histories.ExpectedOnce` | rs/src/storage/application.rs:206-219 | Of two new writes of one namespace that expect the same head, at most one is ever applied, whatever the run between them. |
| `Histories.RunLegible` | rs/src/storage/application.rs:143-247 | No store reached from empty holds a row that the bounded reads of a write refuse, so there acceptability alone decides. |
| `Applications.AppliedAdvances` | rs/src/storage/application.rs:221-244 | An applied write moves one head, one history row and one receipt, adds content and claims, and touches nothing else of the chain. |
| `Applications.AppliedRows` | rs/src/storage/application.rs:213-244 | An applied write leaves its head, its entry, its receipt, and every row of its content and claims; only a migration touches the bookkeeping. |
| `Applications.MigrationRaises` | rs/src/storage/application.rs:167-169 | A migration raises an absent or complete status to neuron-v1, leaves a later generation, and is refused for any other. |
| `Links.AcceptedIsCoherent` | rs/src/storage/application/validation.rs:31-132 | Row by row in scan order, the checks of the validator hold of exactly the coherent chains. |
| `Links.SequenceIsHereditary` | rs/src/storage/application/validation.rs:67-79 | The previous-row check over big-endian keys passes exactly when every entry but the first has its predecessor. |
| `Validation.ValidateLinks` | rs/src/storage/application/validation.rs:31-132 | The paged validator accepts exactly the coherent chains for every page size, leaves the chain as it was, needs no clean start after an interrupted attempt, and its acceptance is sound under any fault. What it accepts is also stated byte by byte. |
| `Validation.CleanStart` | rs/src/storage/application/validation.rs:118-131 | A store without temporary rows is a valid start for the validator. |
| `Validation.IndexPage` | rs/src/storage/application/validation.rs:43-62 | One transaction adds a page of requests to the reverse index, failing when two requests name one position. |
| `Validation.RemoveTemporaries` | rs/src/storage/application/validation.rs:118-131 | The clean-up loop ends with no temporary row and touches nothing else. |
| `Archives.InspectLinks` | rs/src/storage/application/archive.rs:200-303 | The in-memory inspector's Requests, History and Heads passes accept exactly the same stores. |
| `Summaries.Inspect` | rs/src/storage/application/archive.rs:179-306 | An inspection accepts exactly the archives with a coherent chain, well-shaped content and claims, totals within the limits and an unmoved marker, and returns their exact row and byte counts and digest. |
| `Summaries.SummaryCounts` | rs/src/storage/application/archive.rs:203-239 | The counts are the sizes of the five tables, the rows their sum, and the bytes the total of all keys and values, whatever order they are read in. |
| `Summaries.AcceptedBinds` | rs/src/storage/application/archive.rs:203-239 | Two accepted archives with one digest hold the same rows in all five tables, unless the hash collides on the two streams: neither table ordinals nor row boundaries can shift. |
| `Cursors.RoundTrip` | rs/src/storage/application/transfer.rs:279-303 | A cursor decodes from its encoding, within 82 bytes. |
| `Cursors.Canonical` | rs/src/storage/application/transfer.rs:289-303 | Every byte string the decoder accepts is the encoding of what it returns. |
| `Transfers.TransferSource.Stage` | rs/src/storage/application/transfer.rs:113-185 | Whatever pages fail or commits are lost, the target stays a resumable copy of a prefix of the source with exact row and byte counts and overwrites nothing; it returns only after advancing one step per page, or complete. Each step gains at most 512 rows; every row it adds has its table's shape and its content passed the check; complete means the whole of a coherent source is there; 0 pages or more than 4096 are refused. |
| `Transfers.TransferSource.PrepareTarget` | rs/src/storage/application/transfer.rs:186-223 | Preparation goes through once, in one transaction, over origins with no head, fence or stage here and none of them the target; it leaves every origin staged under the manifest, the target named and the cursor at the start, and adds nothing else. The reader generation ends at neuron-v1 or later. |
| `Transfers.CopyPage` | rs/src/storage/application/transfer.rs:165-177 | A page and its new cursor land together or not at all. |
| `Transfers.CompleteCopies` | rs/src/storage/application/transfer.rs:113-185 | A complete cursor means all five tables are copied byte for byte and the source chain was validated. |
| `Transfers.TransferSource.MigrationNeedsComplete` | rs/src/storage/application/transfer.rs:249-277 | Once a transfer has started, an acceptable migration of any of its origins is into the transfer's target, after the whole of a coherent source was copied. |
| `Transfers.StagedRank` | rs/src/storage/application/transfer.rs:113-185 | A cursor's rank, rows copied plus tables closed, never exceeds the source's rows plus five, so a transfer that gains rank on every page completes. |
| `Interleavings.RunGood` | rs/src/storage/application/transfer.rs:113-223 | Whatever order application writes and stretches of the transfer come in, the target keeps a prefix of the source, nothing else of the origins, and a coherent log of every other namespace. |
| `Interleavings.MixedRunCompletes` | rs/src/storage/application/transfer.rs:113-185 | In every such run from a coherent target, once the cursor is complete the target holds the whole source and its log, origins and others together, is coherent. |
| `Interleavings.WriterIsOther` | rs/src/storage/application.rs:199-205 | No write accepted during a transfer is for one of its origins. |
| `Tables.DimSerialize` | rs/src/dim.rs:55-72 | The printer emits version, length, count and the entries in order. |
| `Tables.RowValues` | rs/src/proof.rs:89-182 | Every record prints as value fields of its dimension's width, all of them u32 limbs. |
| `Dimensions.EntriesInOrder` | rs/src/proof.rs:83-182 | For every dimension, the entries assembled from its record map are in the strict order its table must have: by key, or by height for time. |
| `Dimensions.EntryOf` | rs/src/proof.rs:83-182 | The entries are exactly the stored records, each under its key with its own value fields. |
| `Queries.PresentCell` | rs/src/proof.rs:291-301 | Among ordered entries the walk finds a present key's one entry, and its cell of the printed table holds the entry's primary value with the key before it. |
| `Queries.CellAnswers` | rs/src/proof.rs:291-301 | For every dimension and key, the cell points at the primary value of the stored record in the printed table, and there is none for an absent key. |
| `Queries.StateCells` | rs/src/proof.rs:83-182 | The same for every dimension of a graph state, whose shelf is its own record map. |
| `Queries.OpenEntity` | rs/src/proof.rs:189-301 | The prover opens that cell, unless the table is over the 4096 fields it may disclose. |
| `Queries.PrimaryIndex` | rs/src/query_auth.rs:120-183 | On a table that decodes, the verifier's parser finds exactly the cell of the key's entry, and none for an absent key; it returns an index only for a table that decodes to strictly ascending entries reprinting the same fields. |
| `Queries.VerifyEntity` | rs/src/query_auth.rs:108-183 | On the printed table of a dimension exactly the prover's index is accepted, and it holds the primary value of the stored record. |
| `Queries.BalancePosition` | rs/src/proof.rs:270-279 | The index that the balance prover computes from a position is the cell the walk finds. |
| `Queries.PublicBalance` | rs/src/query_auth.rs:186-195 | The two limbs read at an accepted index are the balance stored under the key. |
| `Queries.DecodesOnce` | rs/src/query_auth.rs:120-183 | A table decodes to at most one entry list. |
| `Tables.SerializedDecodes` | rs/src/dim.rs:55-72 | A printed table of ordered entries decodes to those entries. |
| `Buffers.WriteBuffer.Put` | rs/src/storage/buffer.rs:37-67 | A value is staged exactly when the value, element and key budgets allow, and a refused one changes nothing; positions invert the dirty list and elements are its exact sum. |
| `Buffers.WriteBuffer.Delete` | rs/src/storage/buffer.rs:78-95 | A deletion moves the key from the dirty list to the deleted set, within the key budget. |
| `Buffers.SwapHeld` | rs/src/storage/buffer.rs:82-88 | Swap-remove with the one repaired position keeps every other pending value at its key. |
| `Disks.FieldsRoundTrip` | rs/src/storage/mod.rs:157-186 | Canonical field elements decode from their encoding. |
| `Disks.DiskStore.Read` | rs/src/storage/disk.rs:112-128 | A read returns the pending mutation, else the durable row, within its limit. |
| `Disks.DiskStore.Commit` | rs/src/storage/disk.rs:75-104 | After a successful commit every read returns what it returned before, and the identity returned is the one the store is marked with, also for a commit of nothing; the buffer's budgets always fit the transaction's. |

## Left out

- Hemera, Goldilocks arithmetic, Brakedown and every proof system: digests are terms, field elements are canonical numbers.
- `RootVersion::V1`, the legacy commitment caches, and the authentication of a disclosed table by its state certificate and opening: thin checks around foreign code.
- Mutexes, `OnceLock`, scoped threads, the coordination lock, file locks and path handling.
- Fjall and redb: the engine is an ordered map with an atomic commit of three outcomes; a read error of the engine itself is not modelled.
- `KeyedSet`, `Cards`, positions, reader-generation queries, graph statistics: simpler cases of what is here. Nullifiers are a set.
- A link's valence, which no step of the transition reads.
- `prepare_native`'s rejection of an odd combination of arguments, and `TieredStore`.
- The read wrappers `head`, `content`, `resolve` and `history`, and `DiskStore`'s `scan` and `iter`.
- `ApplicationArchive::open`, the seal of `TransferSource::from_archive`, and conversion between backends.
- Tries.Trie.Set: asks for fewer than 2^31 keys, because slots are u32 and the source panics past that.
- KeyedMaps.Keyed.Flush: asks for room in the trie for every touched record, for the same reason.
- Axons.AxonIndex.Commit: asks for the same room in the outer trie and every member trie.
- Commitment.CommitmentBinds: speaks of maps of record leaves, which is all a dimension's trie ever holds.
- Blocks.Bbg.FinalizeBlock: asks that the height is below 2^64 - 1, where the source would overflow.
- Undos.Undo.Restore: asks that the starting lists are nonempty and duplicate-free, which every adjacency index is.
- Preparation.PrepareBatch: says which batches a limit refuses, but when several limits are exceeded not whose name the error carries.
- Adjacency.RunKeeps: asks that `axon_id` separates the pairs that are linked, the least it needs.
- Applications.ApplicationStore.ApplyChecked: leaves open which error a refused new request gets when several apply, and takes the extra transition as a list of shard and native writes; a write with such a list must fit the transaction's budgets to be sure of going through.
- Databases.ReopenDecides: asks that the hash separates the change sets of the run; no hash separates all byte strings.
- Databases.Database.Finish: the closure of a transaction is the stretch between Begin and Finish.
- Validation.ValidateLinks: exact only without storage faults and when every row fits a page, as any fault or oversized row is an error.
- Archives.InspectLinks: covers the checks of links alone, and makes the three reads of a link in the other validator's order.
- Summaries.Inspect: counts a table and checks its links in two scans where the source interleaves them, so with several faults another error may come first; content validation is a pure check.
- Summaries.AcceptedBinds: asks that no row is longer than the engine lets a value be.
- Transfers.TransferSource.Stage: content validation is a pure check.
- Interleavings.MixedRunCompletes: asks that the source's heads are the transfer's origins, which is how opening an archive finds them.
- Buffers.WriteBuffer.Put: dimensions past the last are excluded by the type, where the source returns an error.
- Tables.DimSerialize: asks that the table has fewer than 2^64 fields.
- Queries.VerifyEntity: what it says of a dimension is about that dimension's own printed table, which the omitted authentication establishes.
