# GolemDB, modelled and proved in Dafny

GolemDB keeps records as typed cells in a transactional key/value store. Committed cells and the
index over them are authenticated by branch-only compressed hexary Merkle tries; work happens on
branches that overlay the committed head, are sealed over a snapshot and published by one writer.
Most of its layers are fast forms that must agree with something simple. This project models those
layers and proves that they do.

The modules follow the program, bottom up:

- `Lex`, `Words`, `Batch`, `Wrappers`: byte order, big-endian words, stable-sorted edit batches, and
  whether storage may fail.
- `TrieModel`, `TrieStore`, `TrieEdit`, `TrieBatch`, `TrieExists`, `TrieBuild`, `TrieApply`, `Trie`,
  `TrieDigest`, `TrieRead`, `TrieWalk`, `PathCodec`, `NodeCodec`: the Merkle trie. The sequential edit/split/collapse algorithm
  and the batched one with deferred stores are both shown to maintain the unique canonical trie of a
  finite map, and its root digest to bind that map; lookup and walk are shown to end over any rows, and
  to be the map over represented ones.
- `Cursor`, `Buffered`, `Scan`, `CellKeys`, `CellScan`: cursors, the buffer staged over an origin
  snapshot, storage scans, and the branch prefix scan.
- `Overlay`: the inverse journal with frames, refining a stack of complete snapshots.
- `Order`, `Terms`, `TermRange`, `Query`: order-encoded values, index terms, ranges, filters and plans.
- `Postings`, `Bitmaps`, `Commitment`, `CellValues`, `CellStore`, `IndexStore`, `Seal`: cells and the
  two-tier index at the level of table rows and trie roots, up to sealing a commit.
- `Publication`: branches and managers over one store as a state machine over atomic steps.
- `System`, `Records`, `RecordMeaning`, `RecordRuns`, `RecordView`: reserved records, create/patch/delete,
  what they mean for a caller, every run of the record layer, and its operations as they run over the
  journal and the merged prefix scan.
- `Genesis`, `Superblock`, `Opening`, `Engine`, `Search`: commit zero, the deployment's identity and the
  superblock, opening and validating a store, the whole path from an empty store through branches,
  seals, publications and reopenings, and queries over the committed tables.
- `Capacity`: configured limits against a backend's ceilings.
- `Binds`, `Scheme`, `Consistency`: what root digests bind, the program's own hashing scheme, and a concrete
  hash under which what is assumed below holds.

The central results are `Trie.Apply` with `Trie.BatchMatchesSequence` and `Trie.SameMapSameRoot`,
`Seal.Compute` (after every seal the tables, both tries and the index stand for the new cells, and the
index is the full rebuild), `Scheme.RootsTell` (equal state roots mean equal cells, in any two stores),
`Publication.EveryRunAsWritten` with `Publication.EveryRunPublishesSeals` and `Publication.EveryRunStands`,
`Overlay.CellOverlay.Run` with `RecordView.View.Apply`, `Buffered.MovesAgree`, `RecordRuns.RunKeeps`,
`Engine.Run` (the committed cells are what the published rounds make of genesis, and every state
reopens) and `Search.Find` (a query is exactly the naive filter in value order over the cells, and every
match materializes).

## How it is modelled

State that the program updates in place is a class with specified methods: trie and flat tables, the
walk's stack, the overlay and its journal, cursors, scans, the record view, the storage writer. Pure
code is functions. The publication protocol and the runs of the record layer are step functions over
a state, with an invariant kept by every step. Where storage may fail (`Wrappers.FAULTS`), every access
to it may; a failure is a nondeterministic outcome, and an unwinding panic is the same outcome. Every
statement holds for either value of `FAULTS`, and no operation reports a storage failure where storage
does not fail. Callers' ghost arguments carry the map, the cells or the index a store stands for.

What is assumed, each by a named predicate:

- `TrieStore.Lawful`: the row codec round-trips valid branches and yields only valid ones.
  `NodeCodec.TableLawful` proves it of the byte codec.
- `Commitment.Sound`, `Bitmaps.Separate`: in what is in play, no digest is both a leaf's (or a
  container's) and a branch's of one table, or the digest of the empty string. What is in play is data of
  the setup (`Commitment.Content`, `Bitmaps.BitmapContent`), and an operation asks only that what its own
  result gives rise to is in it (`Commitment.InPlay`, `IndexStore.IndexInPlay`, `Seal.StateInPlay`).
  Nothing is said of other byte strings or nodes, and equal roots for equal maps need no assumption at
  all.
- `Commitment.Apart`: no two of the cell keys, or of the terms, in play have the same routing digest.
- `Bitmaps.Sound`: container bytes are an injective form of a 48-bit chunk number and a nonempty set of
  16-bit offsets.
- `Superblock.NoCollision`: the identities of two deployments do not collide.
- The `utf8` argument decides UTF-8 validity and is otherwise arbitrary.

`Scheme.SchemeSound` shows that the program's own routing, leaf and branch preimages and row decoding
need no more than this of the hash, and `Scheme.DomainsSuffice` that freedom from collisions among the
preimages in play is enough. `Consistency.SetupExists` exhibits a hash, a container codec and content in
play with the genesis keys, under which every requirement of `Engine.Run` holds together.

That roots tell states apart, and that no branch or container conflicts with another, is more than this:
it is proved where the hash has no collision among the preimages in play (`NodeCodec.CollisionFree`), by
`Scheme.SchemeBinds`, `Scheme.RootsTell` and `Scheme.NoConflicts`. Without that assumption a conflict is
reported only where two contents in play do share a digest (`TrieStore.Tidy`, `Commitment.Excuse`,
`Bitmaps.Expects`), up to `Seal.Compute` and `Engine.Run`.

## Model

| member | source | states |
|---|---|---|
| `TrieModel.CanonicalUnique` | crates/merkle/src/trie.rs:319-355 | two canonical tries that hold the same map below a route are the same tree, so the form without unary branches and with maximal prefixes is unique |
| `TrieModel.SamePrefix` | crates/merkle/src/trie.rs:291-317 | two canonical branches holding the same map have the same prefix |
| `TrieStore.Table.Insert` | crates/merkle/src/trie.rs:187-206 | insert-only rows: an occupied key is reported and kept |
| `TrieStore.Load` | crates/merkle/src/trie.rs:170-185 | a branch is returned only if its row decodes, hashes to its key and is valid at its route; otherwise the matching error, or a storage error |
| `TrieStore.Store` | crates/merkle/src/trie.rs:187-206 | a valid branch gets its immutable row; an equal row is reused, a different one is a conflict, an error writes nothing, and over rows of branches in play a conflict means that two branches in play have one digest |
| `TrieStore.PersistedUnique` | crates/merkle/src/trie.rs:170-185 | a root stands for one trie in a store: the rows determine the tree |
| `TrieEdit.Edit` | crates/merkle/src/trie.rs:208-222 | a sequential edit of a represented trie returns the represented canonical trie with exactly that path set or removed; it is stopped only by storage, or by two branches in play under one digest |
| `TrieEdit.EditLeaf` | crates/merkle/src/trie.rs:224-252 | editing an empty or leaf reference: replace, remove, keep, or split into a two-leaf branch at the first differing nibble, with the updated map represented |
| `TrieEdit.EditBranch` | crates/merkle/src/trie.rs:254-289 | editing a branch off its prefix, at a split point or below it updates exactly the edited path |
| `TrieEdit.EditChild` | crates/merkle/src/trie.rs:254-289 | the child a path leads to is edited and the branch rebuilt only if that child changed |
| `TrieEdit.SplitBranch` | crates/merkle/src/trie.rs:291-317 | an insertion off the prefix splits it at the first differing nibble into a canonical branch of the old branch and the new leaf |
| `TrieEdit.RebuildBranch` | crates/merkle/src/trie.rs:319-355 | after a child changed, a lone leaf replaces the branch, a lone branch absorbs its prefix, and several children are stored, all holding the same map |
| `TrieEdit.AbsorbPrefix` | crates/merkle/src/trie.rs:331-346 | a lone child branch with the joined prefix is canonical and holds the same map |
| `TrieEdit.PromoteLeaf` | crates/merkle/src/trie.rs:331-348 | a lone leaf in place of its branch is canonical and holds the same map |
| `TrieEdit.JoinLookup` | crates/merkle/src/trie.rs:331-346 | moving a branch under the upper part of its prefix changes no lookup |
| `TrieBuild.StoreEdited` | crates/merkle/src/trie.rs:498-513 | a deferred branch is stored when kept; every added row belongs to it |
| `TrieBuild.Following` | crates/merkle/src/trie.rs:553-565 | the edits that follow a prefix are one contiguous slice, and exactly those |
| `TrieBuild.KeptNibbles` | crates/merkle/src/trie.rs:532-551 | the kept prefix is the longest one no insertion leaves |
| `TrieBuild.Build` | crates/merkle/src/trie.rs:468-494 | a sorted list of insertions becomes the canonical subtrie holding exactly them; none or one needs no row and cannot fail |
| `TrieApply.Rebuild` | crates/merkle/src/trie.rs:450-466 | edits under an empty or leaf reference give the represented trie of the updated map |
| `TrieApply.Collapse` | crates/merkle/src/trie.rs:409-446 | edited children form a canonical trie: empty, lone leaf, absorbed lone branch, or a new branch over stored children |
| `TrieApply.SplitSameMap` | crates/merkle/src/trie.rs:532-551 | a prefix split for a batch holds the same map as the unsplit branch |
| `TrieApply.ApplyBranch` | crates/merkle/src/trie.rs:361-403 | one branch of a batch: groups of edits by slot are applied to their children and nothing else changes |
| `TrieApply.ApplyAt` | crates/merkle/src/trie.rs:361-403 | the batched recursion over sorted edits represents the map with every edit applied, and accounts for every row it adds |
| `Trie.LastEditWins` | crates/merkle/src/trie.rs:134-154 | edits applied in order leave each path with its last edit |
| `Batch.Normalize` | crates/merkle/src/trie.rs:134-154 | stable sort and dedup give strictly ascending keys, each with the value of its last entry in the input |
| `Batch.StableSort` | crates/merkle/src/trie.rs:134-154 | sorting is a permutation that keeps the input order of entries with one key |
| `Batch.Dedup` | crates/merkle/src/trie.rs:134-154 | runs of equal keys become one entry with the run's last value |
| `Trie.Insert` | crates/merkle/src/trie.rs:112-119 | inserting gives a root of the map with that leaf set; it is stopped only by storage where storage may fail, or by two branches in play under one digest |
| `Trie.Remove` | crates/merkle/src/trie.rs:121-128 | removing gives a root of the map without that path; it is stopped only by storage where storage may fail, or by two branches in play under one digest |
| `Trie.Apply` | crates/merkle/src/trie.rs:134-154 | any batch, unsorted and with repeats, gives a root of the map updated last-edit-wins; every row it adds is reachable from the returned root; a batch that leaves the map unchanged returns the same root and adds no row; it is stopped only by storage where storage may fail, or by two branches in play under one digest |
| `Trie.BatchMatchesSequence` | crates/merkle/src/trie.rs:130-154 | the batch and one insert or remove per edit in order give the same root, and where digests tell the branches on the way apart only storage stops either |
| `Trie.SameMapSameRoot` | crates/merkle/src/trie.rs:319-355 | equal maps have equal roots and trees, whatever the stores and histories |
| `Trie.SameRootSameMap` | crates/merkle/src/trie.rs:170-185 | in one store a root stands for one map |
| `Trie.RetainedRoot` | crates/merkle/src/trie.rs:187-206 | adding rows disturbs no retained root |
| `Trie.Run` | crates/merkle/src/trie.rs:112-154 | any mix of inserts, removes and batches from the empty trie ends at a root of the map they describe, or is stopped by storage or by two branches in play under one digest |
| `Trie.RunsAgree` | crates/merkle/src/trie.rs:112-154 | two histories that end with one map end with one root |
| `TrieExists.TreeFor` | crates/merkle/src/trie.rs:409-446 | whatever is held below a route, some canonical trie holds exactly that, so every map has its trie |
| `TrieDigest.DigestTells` | crates/merkle/src/node.rs:97-111 | where a branch digest tells prefix and child kinds and digests, a leaf digest its path, and no digest is of two kinds, equal root digests mean equal tries |
| `TrieDigest.SameDigestSameMap` | crates/merkle/src/node.rs:97-111 | so equal root digests mean equal maps and roots, in any two stores and after any two histories |
| `TrieDigest.ShapesDistinguish` | crates/merkle/src/trie.rs:187-206 | and no two branches of such leaves have one digest, so none can conflict with another |
| `TrieDigest.RunFresh` | crates/merkle/src/trie.rs:112-154 | then any history over an empty table ends at the canonical root of its map unless storage fails |
| `TrieRead.Find` | crates/merkle/src/trie.rs:86-110 | lookup ends within one load per nibble for any rows, corrupt or cyclic, and is map lookup on a represented trie |
| `TrieWalk.Walk.Next` | crates/merkle/src/trie.rs:576-602 | each step yields the next leaf of what is pending, strictly after all yielded before, or ends, or fails and ends |
| `TrieWalk.WalkAll` | crates/merkle/src/trie.rs:158-168 | a walk ends for any rows and yields strictly ascending paths until its end or first error; on a represented trie the leaves are exactly the map |
| `TrieWalk.LeavesAreMap` | crates/merkle/src/trie.rs:576-602 | the in-order leaves of a canonical trie are its map |
| `PathCodec.UnpackPack` | crates/merkle/src/path.rs:12-21 | unpacking packed nibbles gives the nibbles |
| `PathCodec.PackUnpack` | crates/merkle/src/path.rs:12-21 | bytes with zero padding are the only packing of their nibbles |
| `PathCodec.SameOrder` | crates/merkle/src/path.rs:1-15 | byte order of full paths is nibble order |
| `NodeCodec.DecodeEncode` | crates/merkle/src/node.rs:113-161 | every valid branch is decoded back from its bytes |
| `NodeCodec.EncodeDecode` | crates/merkle/src/node.rs:113-161 | every accepted byte string is the encoding of what it decodes to |
| `NodeCodec.FromChildren` | crates/merkle/src/node.rs:173-200 | one pass over sixteen children fills masks, hashes and leaf paths; the branch is constructed exactly when its prefix leaves room for a child and two children are there, and otherwise the error says which of the two fails |
| `NodeCodec.New` | crates/merkle/src/node.rs:25-60 | construction succeeds exactly when prefix length, padding, masks and counts fit together, with the length error before the others |
| `NodeCodec.RowNode` | crates/merkle/src/node.rs:81-95 | popcount indexing gives back the same sixteen references and the prefix |
| `NodeCodec.RowOk` | crates/merkle/src/node.rs:25-60 | a branch the trie may store passes every construction check |
| `NodeCodec.TableLawful` | crates/merkle/src/node.rs:113-161 | the byte codec meets what the trie assumes of one at every path width from 1 to 32 bytes |
| `NodeCodec.PayloadTells` | crates/merkle/src/node.rs:97-111 | branches with one hash payload have the same prefix and, slot by slot, the same kind of child and the same child digest |
| `NodeCodec.TableTells` | crates/merkle/src/node.rs:97-111 | where the hash has no collision among the preimages in play, a branch digest binds the prefix and every child's kind and digest |
| `Overlay.CellOverlay.Record` | crates/branch/src/journal.rs:53-60 | a recorded write sets the entry and logs the value it replaced |
| `Overlay.CellOverlay.CheckpointFrame` | crates/branch/src/journal.rs:62-69 | a checkpoint opens a frame of the snapshot stack, reusing the marker of a frame a rollback just consumed |
| `Overlay.CellOverlay.UndoUntil` | crates/branch/src/journal.rs:89-101 | undoing the log newest first restores the entries as they were at the mark |
| `Overlay.CellOverlay.RollbackLast` | crates/branch/src/journal.rs:71-82 | rollback restores the snapshot of the frame the stack-of-snapshots model restores, or reports that there is none, in the same cases |
| `Overlay.CellOverlay.Rewind` | crates/branch/src/journal.rs:84-87 | undoing back to a mark keeps the frames and restores the flag |
| `Overlay.CellOverlay.WriteGroup` | crates/branch/src/overlay.rs:67-82 | a group of writes is kept whole, or entries, undo log, frames and flag are exactly as before it |
| `Overlay.CellOverlay.Run` | crates/branch/src/overlay.rs:67-103 | over every run of groups, failed groups, checkpoints and rollbacks the journal answers as a stack of complete overlay snapshots |
| `Overlay.RollbackRestoresCheckpoint` | crates/branch/src/journal.rs:62-82 | rolling back after writes restores what the checkpoint saw |
| `Overlay.UndoInStages` | crates/branch/src/journal.rs:89-101 | undoing to a mark passes through every earlier mark's state |
| `Cursor.MemoryCursor.Move` | crates/storage/src/memory.rs:196-228 | a move reaches the nearest row in its direction or rests at the boundary |
| `Cursor.MovesOnce` | crates/storage/src/memory.rs:196-228 | the cursor contract leaves no choice of row or position |
| `Buffered.ReplayAll` | crates/branch/src/commit.rs:34-43 | replaying staged rows onto the origin in any key order gives the merged table |
| `Buffered.Table.Insert` | crates/branch/src/buffer.rs:70-75 | an insert over the merged view adds a row only where none is visible |
| `Buffered.Table.Delete` | crates/branch/src/buffer.rs:76-84 | a tombstone is staged only where a row is visible |
| `Buffered.BufferedCursor.OriginRow` | crates/branch/src/buffer.rs:107-150 | the origin row found is the nearest that no staged row shadows |
| `Buffered.BufferedCursor.Step` | crates/branch/src/buffer.rs:107-168 | each step over origin and staged rows is the plain cursor's step over the merged table, and a fault leaves the cursor usable at its position |
| `Buffered.MovesAgree` | crates/branch/src/buffer.rs:107-175 | any sequence of moves from any start key gives what a plain cursor over the merged table gives |
| `Scan.Scan.Open` | crates/storage/src/scan.rs:16-47 | reversed bounds are refused as an invalid range; any others open a scan that will yield exactly the rows between them |
| `Scan.Scan.Prefix` | crates/storage/src/scan.rs:50-61 | a prefix scan will yield exactly the rows under its prefix, empty and all-0xff prefixes included |
| `Scan.Scan.Next` | crates/storage/src/scan.rs:65-108 | each step yields the least row left, or ends for good |
| `CellKeys.KeyOrder` | crates/cells/src/key.rs:30-50 | key order is encoded byte order |
| `CellKeys.DecodeEncode` | crates/cells/src/key.rs:32-50 | a key is decoded back from its encoding |
| `CellKeys.PrefixRange` | crates/branch/src/scan.rs:22-48 | the key range computed for a prefix holds exactly the keys whose encoding starts with it |
| `CellScan.CellScan.Advance` | crates/branch/src/scan.rs:50-73 | each step yields the least cell of the origin with the overlay applied, tombstones hidden and origin rows parsed; it fails only with storage, a short key or a value that does not parse, and never over a row the overlay shadows |
| `CellScan.ScanAll` | crates/branch/src/scan.rs:21-96 | a prefix scan yields exactly the merged cells under the prefix, ascending and once each, to its end or to the first row that is no cell |
| `Order.TypeIdRoundTrip` | crates/cells/src/types.rs:92-129 | type identifiers and types are in one-to-one correspondence |
| `Order.SignedOrder` | crates/cells/src/order.rs:17-21 | byte order after the sign flip is two's-complement order |
| `Order.FloatNumericOrder` | crates/cells/src/order.rs:36-46 | byte order of stored floats is the order of the numbers their exponent and fraction stand for, both zeros one number and the infinities at the ends |
| `Order.NaNExact` | crates/cells/src/types.rs:163-180 | the float bits above those of infinity, and no others, are no number |
| `Order.KeyIsNumber` | crates/cells/src/order.rs:36-46 | sign and bit magnitude order floats other than NaN as those numbers do |
| `Order.FloatOrder` | crates/cells/src/order.rs:36-46 | byte order of the encoding is the order of sign and magnitude |
| `Order.FloatRoundTrip` | crates/cells/src/order.rs:36-54 | decoding a stored float gives the float, negative zero as zero |
| `Terms.StoredOrder` | crates/cells/src/order.rs:17-54 | byte order of stored forms is the order of the native values for every type: unsigned, two's-complement, numeric or bytewise |
| `Terms.NativeStored` | crates/cells/src/order.rs:17-54 | a valid stored value is the stored form of its native value |
| `Terms.ValidExact` | crates/cells/src/types.rs:144-183 | exactly the stored forms of proper values are valid: one byte 0 or 1, UTF-8 text, a float that is a number, any bytes of the right width |
| `Terms.NameExact` | crates/cells/src/name.rs:51-90 | exactly a letter and then letters, digits and four marks, with or without a leading dollar sign, is a user name |
| `Terms.ValueOrder` | crates/cells/src/order.rs:17-54 | valid stored values compare, and are equal, exactly as the values they stand for |
| `Terms.NewTerm` | crates/index/src/term.rs:19-56 | construction from native bytes accepts exactly the valid values and agrees with copying the stored payload |
| `Terms.DecodeSound` | crates/index/src/term.rs:103-122 | what decodes is the encoding of a valid name, type and value |
| `Terms.DecodeComplete` | crates/index/src/term.rs:103-122 | every valid name, type and value decodes from its encoding |
| `Terms.TermInjective` | crates/index/src/term.rs:77-101 | a term determines its name, type and value |
| `Terms.RunsApart` | crates/index/src/term.rs:91-101 | a run holds the terms of its own name and type and no others |
| `TermRange.Past` | crates/index/src/term_range.rs:106-114 | from the prefix on, exactly the strings with that prefix lie below the computed bound |
| `TermRange.RangeExact` | crates/index/src/term_range.rs:42-94 | a valid term is inside the bounds exactly when it has the name and type and its value lies between the bounds in value order |
| `TermRange.NothingBetween` | crates/index/src/term_range.rs:42-82 | no range is returned only when no value qualifies |
| `TermRange.RangeAccepted` | crates/index/src/term_range.rs:42-82 | a returned range is never reversed and never shut at a single key, so the storage scan accepts it |
| `Postings.Derive` | crates/branch/src/seal.rs:66-82 | one pass over changed cells gives the posting changes, or the first term error |
| `Postings.IncrementalIsRebuilt` | crates/branch/src/seal.rs:62-83 | after the posting changes of a diff a term holds a record exactly when the new cells give it that term |
| `Bitmaps.RouteOrder` | crates/index/src/path.rs:18-31 | chunk numbers and their six-byte paths are in the same order |
| `Bitmaps.Reopen` | crates/index/src/bitmap_trie.rs:47-69 | a held row reopens to its root, with the container when it is a singleton, and fails only with storage |
| `Bitmaps.OpenChunk` | crates/index/src/bitmap_trie.rs:110-118 | the working container is the chunk's current offsets, read, remembered or empty |
| `Bitmaps.EditChunk` | crates/index/src/bitmap_trie.rs:119-126 | consecutive changes of one chunk give its offsets after them and touch no other chunk |
| `Bitmaps.Replaced` | crates/index/src/bitmap_trie.rs:130-145 | replacing one chunk's offsets is one edit of the chunk trie |
| `Bitmaps.StageChunks` | crates/index/src/bitmap_trie.rs:99-146 | visiting each container once stages edits that stand for all the changes; unsorted chunks are reported |
| `Bitmaps.Apply` | crates/index/src/bitmap_trie.rs:88-149 | the new row holds exactly the record IDs the changes leave; no row when none are left |
| `Bitmaps.RowMeansSome` | crates/index/src/bitmap_trie.rs:88-149 | a term has a row exactly when it has postings, and the row is never the empty digest |
| `Bitmaps.FromContainers` | crates/index/src/bitmap.rs:22-46 | containers in strictly increasing order assemble to the union of their record IDs; any other order is refused |
| `Bitmaps.Materialize` | crates/index/src/bitmap_trie.rs:71-82 | a term's row materializes to exactly the record IDs it holds |
| `Commitment.Check` | crates/cells/src/cell_trie.rs:39-51 | one address of the trie is compared with the row read for it: passes exactly when they agree |
| `Commitment.RowPasses` | crates/index/src/index_trie.rs:27-40 | on a matching table every row, present or absent, passes |
| `Commitment.Set` | crates/index/src/index_trie.rs:44-58 | one batched trie update commits to the rows after all the writes |
| `Commitment.Update` | crates/cells/src/cells.rs:94-97 | trie and flat rows move together to the written rows; no writes, no change |
| `Commitment.Reopen` | crates/cells/src/cell_trie.rs:78-108 | a root digest of a committed table reopens to that root; whatever is recovered has the digest asked for |
| `Commitment.SameRootSameRows` | crates/cells/src/cell_trie.rs:39-51 | one root answers alike for any two tables it commits to, as far as their keys do not collide, and they are the same rows where leaf digests do not collide |
| `Commitment.OnlyRowPasses` | crates/cells/src/cell_trie.rs:36-51 | where leaf digests do not collide, checking a value against the committed leaf passes exactly for the value in the row |
| `Binds.SameDigestSameRows` | crates/cells/src/cell_trie.rs:24-34 | tables committed to by roots with one digest hold the same rows, in any two stores, where leaf and branch digests do not collide on what is in play |
| `Binds.SameRowSameIds` | crates/index/src/bitmap_trie.rs:22-70 | a term's row stands for one set of record IDs in any two stores |
| `Binds.HeadsTell` | crates/branch/src/seal.rs:30-92 | heads of any two stores with one state root stand for the same cells, and with one index root for the same postings of every term |
| `Commitment.FlatTable.OnlyRow` | crates/index/src/index_trie.rs:75-80 | two cursor steps find the only row exactly when there is one |
| `CellValues.ParseEncode` | crates/cells/src/value.rs:371-415 | a valid value is parsed back from its bytes |
| `CellValues.EncodeParse` | crates/cells/src/value.rs:371-415 | accepted bytes are the encoding of a valid value |
| `CellValues.ParseExact` | crates/cells/src/value.rs:371-415 | exactly the tagged rows of valid values parse, the attribute flag only on types with an order |
| `CellValues.RowsLawful` | crates/cells/src/key.rs:30-50 | cell keys and values round-trip as rows |
| `CellStore.CheckChange` | crates/cells/src/cells.rs:111-122 | a net change is reported with its old value exactly when it changes something |
| `CellStore.Apply` | crates/cells/src/cells.rs:81-104 | a batch of cell edits, unsorted and with repeats, moves table and root to the last edit of each key, and returns exactly the differences in key order; a batch that changes nothing writes nothing |
| `CellStore.DiffIsDiff` | crates/cells/src/cells.rs:81-148 | the listed changes are all the differences between the old cells and the new, each once |
| `CellStore.DiffRows` | crates/cells/src/cells.rs:184-197 | writing the changed rows gives the rows of the new cells |
| `IndexStore.RunApplies` | crates/index/src/index/writer.rs:68-75 | a term's run of changes leaves exactly the postings the whole batch gives that term |
| `IndexStore.CheckTerm` | crates/index/src/index/writer.rs:70-71 | a term's root is read and its commitment holds; only storage can fail |
| `IndexStore.ApplyRuns` | crates/index/src/index/writer.rs:67-84 | after each run, rows and bitmaps hold the postings after the changes so far |
| `IndexStore.Apply` | crates/index/src/index/writer.rs:38-107 | a batch of posting changes, unsorted and with repeats, leaves each term with the postings of the last change of each record; rows, bitmaps and root stand for exactly that index, and the terms reported are exactly those whose row changed, ascending, with the old root and the new |
| `Seal.Compute` | crates/branch/src/seal.rs:30-92 | sealing a coherent store gives a coherent store whose cells are the branch's with the old head's roots added, whose index is the full rebuild from those cells, and whose head commits to both; stored roots and exhausted commit numbers are refused, and otherwise only storage, an invalid term or two contents in play under one digest stop it |
| `Seal.SealIndex` | crates/branch/src/seal.rs:66-83 | deriving and applying posting changes turns the index of the old cells into the rebuild of the new |
| `Seal.MovedIsIndex` | crates/branch/src/seal.rs:66-83 | applying a diff's posting changes to the index of the old cells gives the index of the new |
| `Seal.TermedMoves` | crates/branch/src/seal.rs:94-103 | cells with valid terms before and after have posting changes without error |
| `Publication.StepKeeps` | crates/branch/src/manager.rs:267-359 | every step of every thread keeps the protocol's invariant, and only a publishing step or an outside writer changes the published state |
| `Publication.EveryRunPublishesSeals` | crates/branch/src/manager.rs:267-289 | in every interleaving each publication put the sealed state of its origin at head plus one, heads are published once, and a branch publishes at most once |
| `Publication.ConsumedForever` | crates/branch/src/manager.rs:293-359 | a consumed branch stays consumed and no call through its handle changes anything |
| `Publication.CachedSealHolds` | crates/branch/src/manager.rs:37-48 | a cached seal is what sealing again would compute, however long it is kept |
| `Publication.EveryRunStands` | crates/branch/src/seal.rs:30-92 | for any sealing that keeps what rows stand for, every published state of every interleaving stands for cells, and each publication's cells are its origin's with the branch's overlay applied |
| `Publication.LinearHistory` | crates/branch/src/manager.rs:267-289 | when branches are the only writers, in every interleaving head n is what n logged publications made of genesis one after another, and nothing else moves the head or writes a row |
| `Publication.EveryRunAsWritten` | crates/branch/src/manager.rs:199-289 | in every interleaving what a branch holds, and what each logged publication sealed, is the overlay of the last write of that branch that was accepted, or the empty one without any |
| `Publication.BeginSucceeds` | crates/branch/src/manager.rs:142-157 | a branch begun is new, empty and over the head it was read from, and usable exactly if that is still the head |
| `Publication.WriteSucceeds` | crates/branch/src/manager.rs:199-214 | a write over an unmoved head is admitted and accepted, and changes nothing but the branch's overlay |
| `Publication.CommitSucceeds` | crates/branch/src/manager.rs:267-289 | a commit over an unmoved head with the writer free publishes the head's rows with the branch's overlay sealed over them, unless sealing or storage fails |
| `Publication.StaleIsRefused` | crates/branch/src/manager.rs:321-359 | once the head has moved, admission consumes the branch: a commit is told of the conflict, any other call that its handle is gone |
| `Publication.FailureKeeps` | crates/branch/src/manager.rs:244-289 | a failure of storage leaves the branch live with its overlay and its seal |
| `Publication.ReleaseOrDiscard` | crates/branch/src/manager.rs:291-308 | a branch admitted for reading is left as it was, a discarded one is consumed, and nothing else changes |
| `Publication.ForeignHandle` | crates/branch/src/manager.rs:321-337 | a handle that this manager did not begin is refused and changes nothing |
| `Publication.OutsideMoves` | crates/branch/src/manager.rs:346-351 | another process that moves the head makes every branch over the old head stale and touches none |
| `Publication.Store.Persist` | crates/branch/src/commit.rs:12-54 | the head is checked again in the writer; rows and head move together to the replayed state or not at all |
| `Publication.PublishThrough` | crates/branch/src/commit.rs:12-54 | running the writer is the publishing step, fault for fault: the store keeps holding the state's head and rows, and the reply is the writer's |
| `Query.PlanMatches` | crates/query/src/plan.rs:36-106 | the postings an admitted plan reads are exactly those of the records whose attribute has the leaf's type and satisfies it in value order |
| `Query.AdmissionExact` | crates/query/src/plan.rs:36-106 | a filter has a plan exactly if its values share one type and a range has a bound, its name is spelled as user names are, and its type is ordered; any other is refused for the first of these that fails |
| `Query.TermMatches` | crates/query/src/plan.rs:103-106 | one term's postings are the records whose attribute has that name, type and value |
| `Query.ScanSound` | crates/query/src/plan.rs:55-75 | a held term inside a range belongs to a record whose attribute lies inside it in value order |
| `Query.ScanComplete` | crates/query/src/plan.rs:55-75 | an attribute inside a range in value order has its term held inside the scanned bounds |
| `Search.TermPostings` | crates/index/src/index/reader.rs:23-27 | a term's postings as the tables hold them; an absent term has none |
| `Search.ScanTerms` | crates/index/src/index/reader.rs:38-92 | a term scan checks that each key decodes and each value is a root, and yields exactly the rows of its range, ascending |
| `Search.HeldTermsDecode` | crates/index/src/index/reader.rs:76-87 | every term the index of valid cells holds decodes, so no scan of a standing state is refused for its keys |
| `Search.MatchSet` | crates/query/src/eval.rs:10-25 | the match set read from the tables is what the plan selects from the index |
| `Search.ReadRecord` | crates/record/src/committed.rs:62-84 | scanning a record gives exactly its cells by name |
| `Search.ReadNamed` | crates/record/src/committed.rs:67-75 | a projection gives exactly the named cells that exist, each name once |
| `Search.ReadById` | crates/record/src/committed.rs:35-46 | a record with an identity materializes with its key and its cells, all or projected |
| `Search.MatchIsRecord` | crates/record/src/committed.rs:35-46 | every matching ID is a user record with a valid identity |
| `Search.Find` | crates/query/src/queries.rs:41-84 | a query over any committed state returns exactly the records with an attribute that satisfies it in value order, each once, by ascending ID, with key and projected cells; an admissible filter ends so or at a storage failure, and any other with its refusal |
| `System.SearchFinds` | crates/cells/src/system.rs:41-43 | each reserved key is found under its own ID |
| `System.CatalogueDistinct` | crates/cells/src/system.rs:22-38 | reserved keys and IDs are distinct and below the first user ID |
| `System.RootPair` | crates/branch/src/seal.rs:54-61 | a roots cell holds the state root, then the index root |
| `Records.ResolveKept` | crates/record/src/state.rs:11-55 | on a kept state a user key resolves to its binding and no check fails |
| `Records.TargetFree` | crates/record/src/state.rs:85-98 | the allocator's target is never occupied |
| `Records.CreateChecks` | crates/record/src/crud.rs:78-104 | on a kept state creation is refused exactly for a reserved key, an inadmissible cell, a taken key or an exhausted allocator |
| `Records.CreateKeeps` | crates/record/src/crud.rs:72-117 | creation keeps bindings and identities inverse, the allocator ahead of every record, and everything else as it was |
| `Records.PatchChecks` | crates/record/src/crud.rs:119-137 | patching is refused exactly for a reserved or unbound key or an inadmissible cell |
| `Records.PatchKeeps` | crates/record/src/crud.rs:119-154 | patching keeps every invariant and the allocator |
| `Records.DeleteChecks` | crates/record/src/crud.rs:160-166 | deletion is refused exactly for a reserved or unbound key |
| `Records.DeleteKeeps` | crates/record/src/crud.rs:160-177 | deletion removes the record and its binding, keeps every invariant and never rewinds the allocator |
| `Records.DoKeeps` | crates/record/src/crud.rs:72-177 | every operation keeps the invariants, finds no kept state corrupt, gives no committed ID away or back, and leaves other system cells alone |
| `RecordMeaning.CreateMeans` | crates/record/src/crud.rs:72-117 | a created record holds, under each name given, the last value given for it, its key under `#key`, and nothing else; its key is bound to it, the allocator moves past it, and every other cell is as before |
| `RecordMeaning.CreateRefuses` | crates/record/src/crud.rs:78-104 | on a kept state creation answers each of its refusals exactly for its cause, in the program's order, and any other request succeeds |
| `RecordMeaning.PatchMeans` | crates/record/src/crud.rs:119-154 | a patched record holds, under each name, the last change given for it or what it held before, and every other cell is as before |
| `RecordMeaning.PatchRefuses` | crates/record/src/crud.rs:119-137 | patching answers each of its refusals exactly for its cause, and any other request succeeds |
| `RecordMeaning.DeleteMeans` | crates/record/src/crud.rs:160-177 | after deletion no cell of the record and no binding of its key is left, and every other cell is as before |
| `RecordMeaning.DeleteRefuses` | crates/record/src/crud.rs:160-166 | deletion answers each of its refusals exactly for its cause, and any other request succeeds |
| `RecordMeaning.AdmissionExact` | crates/record/src/crud.rs:188-198 | a change is admitted exactly if its name is spelled as user names are and within the limit, and a text or byte value is within its own |
| `RecordView.View.Create` | crates/record/src/crud.rs:72-117 | creating through the journal and the merged scan shows exactly what the specification says, or refuses for its reason |
| `RecordView.View.Patch` | crates/record/src/crud.rs:119-154 | patching writes only what differs and shows exactly the patched record; a failed read leaves undoable writes |
| `RecordView.View.Delete` | crates/record/src/crud.rs:160-177 | deletion removes every cell the scan finds under the record's prefix, and the binding |
| `RecordView.View.Apply` | crates/branch/src/overlay.rs:67-82 | an operation is one atomic group: the frames become those the run model says, or entries, journal and frames are as before |
| `RecordView.View.Addresses` | crates/record/src/crud.rs:163-170 | the merged prefix scan finds exactly the addresses the branch shows for a record |
| `RecordView.View.Rollback` | crates/branch/src/manager.rs:227-242 | rolling the journal back is returning the run model's frames, with the same refusal |
| `RecordView.View.Changes` | crates/branch/src/overlay.rs:101-113 | the staged changes, one per key in key order, take the origin's cells to what the branch shows |
| `RecordView.ScanShows` | crates/branch/src/overlay.rs:35-58 | reading a cell or scanning it over the origin's rows gives what the branch shows |
| `CellValues.PrefixIsRecord` | crates/record/src/crud.rs:92-95 | a record's cells are exactly those whose encoded key starts with its ID |
| `RecordRuns.RunKeeps` | crates/record/src/crud.rs:72-177 | over every run of branches, operations, checkpoints, rollbacks and commits the invariants hold, committed IDs keep their keys, a deleted ID never returns, and past roots stay |
| `RecordRuns.RollbackReturns` | crates/branch/src/manager.rs:217-242 | whatever operations follow, one rollback returns to the last checkpoint, or without one to the branch's start |
| `RecordRuns.PublishRoots` | crates/branch/src/seal.rs:47-65 | a commit adds the replaced head's roots, which were not there, and keeps one entry per earlier commit |
| `RecordRuns.NeverCorrupt` | crates/record/src/crud.rs:90-103 | no reachable branch finds a corrupt state, an occupied allocator target, or its head's roots already stored |
| `RecordRuns.FreshId` | crates/record/src/crud.rs:90-104 | a record created in any branch gets an ID no commit has used |
| `RecordRuns.BranchAlone` | crates/branch/src/manager.rs:199-242 | until some branch commits, a branch is what its own operations, checkpoints and rollbacks make of it, whatever the others do |
| `RecordRuns.CommitPublishes` | crates/branch/src/manager.rs:267-289 | a branch that commits first publishes what its calls made of the cells it was opened over, with the roots of the replaced head |
| `RecordRuns.StaleIsInert` | crates/branch/src/manager.rs:321-359 | once another commit has replaced the head a branch was opened over, none of its calls and no commit of it does anything |
| `RecordRuns.DiscardForgets` | crates/branch/src/manager.rs:291-308 | a branch discarded after any calls leaves the system as it was before it began |
| `Genesis.BuildInitial` | crates/api/src/genesis.rs:22-50 | the genesis cells are built record by record, then limits, then allocator |
| `Genesis.InitialIs` | crates/api/src/genesis.rs:22-50 | genesis holds each reserved identity and binding, the limits and the first user ID, and nothing else |
| `Genesis.InitialKept` | crates/api/src/genesis.rs:22-50 | genesis keeps every invariant of the record layer and has no past roots |
| `Genesis.GenesisInv` | crates/api/src/genesis.rs:22-50 | so runs from genesis start inside the run invariant |
| `Opening.WriteGenesis` | crates/api/src/genesis.rs:94-117 | genesis over empty tables gives a head at commit zero that commits to the genesis cells and an empty index |
| `Opening.OpenStore` | crates/api/src/genesis.rs:79-142 | an empty store is initialized, or refused when it must exist; rows without a head are corrupt; an established store opens with its own head for its own deployment only, in every mode; only initialization writes |
| `Opening.OpenExisting` | crates/api/src/genesis.rs:120-142 | another deployment's store is a mismatch; its own is validated and then opened, or refused as already initialized |
| `Opening.Initialize` | crates/api/src/genesis.rs:94-118 | initialization writes the format, hash, container and identity rows and the head around the genesis state |
| `Superblock.HeadRoundTrip` | crates/branch/src/head.rs:24-50 | a head is read back from its 72-byte row |
| `Superblock.HeadRowRoundTrip` | crates/branch/src/head.rs:24-50 | every 72-byte row is the row of the head it reads as |
| `Superblock.PreimageInjective` | crates/api/src/genesis.rs:56-77 | the identity's preimage determines the hash function and every framed row |
| `Superblock.IdentityTells` | crates/api/src/genesis.rs:56-77 | short of a hash collision two deployments have the same identity exactly when they have the same hash function and limits |
| `Superblock.Identity` | crates/api/src/genesis.rs:56-77 | the identity is the hash of the formats and all genesis rows, sorted and framed |
| `Superblock.CheckMeta` | crates/api/src/genesis.rs:120-137 | the superblock is accepted exactly when it describes this deployment with some head, and one that describes another deployment is a mismatch |
| `Opening.ReachedPasses` | crates/api/src/genesis.rs:154-225 | every committed state of the record layer meets what reopening asks |
| `Opening.ValidateState` | crates/api/src/genesis.rs:154-225 | over rows that stand for some cells, reopening accepts exactly those that meet its demands, finds any other corrupt, writes nothing, and is otherwise stopped only by storage |
| `Opening.CountRows` | crates/api/src/genesis.rs:192-202 | stepping a cursor accepts exactly the expected number of rows |
| `Opening.CheckPaths` | crates/api/src/genesis.rs:215-224 | writing the values already there checks their commitments and changes no row |
| `Engine.Work` | crates/record/src/crud.rs:72-177 | any operations, checkpoints and rollbacks on a branch are answered one by one as the run model says, the branch shows what the answered ones did, stays fit to be sealed, and none is refused for corruption |
| `Engine.Commit` | crates/branch/src/manager.rs:267-289 | on publication the committed cells are those the answered tasks lead to with the replaced head's roots; whatever fails the committed state stands, and a commit fails only if its edits leave the content in play, commit numbers run out, two contents in play share a digest, or storage fails |
| `Engine.Run` | crates/api/src/genesis.rs:79-142 | from an empty store through any batches of tasks and any failures, tables, superblock and index stand, the cells are what the published rounds make of genesis, the past heads are those they replaced, a round is published unless one of the named causes stopped it, and every reopening answers with the current head unless storage fails |
| `Engine.EngineCodec` | crates/cells/src/value.rs:371-415 | the row codec the engine uses meets what the theorems ask of one |
| `Scheme.SchemeSound` | crates/cells/src/cell_trie.rs:13-34 | whatever the hash function, routing by it, hashing leaves by domain, path and value, and decoding rows meets what the theorems ask, if no digest in play is of two kinds of content of one table |
| `Scheme.DomainsSuffice` | crates/index/src/lib.rs:74-113 | the domain bytes keep those kinds apart wherever the hash has no collision among the preimages in play |
| `Scheme.LeafTells` | crates/cells/src/cell_trie.rs:24-34 | where the hash has no collision among the preimages in play, a leaf digest binds the key and the value |
| `Scheme.SchemeBinds` | crates/cells/src/cell_trie.rs:24-34 | then every leaf, branch and container digest of the program binds its content |
| `Scheme.RootsTell` | crates/cells/src/cell_trie.rs:24-34 | so the program's roots bind the state: heads of any two stores with one state root stand for the same cells, with one index root for the same postings |
| `Scheme.NoConflicts` | crates/merkle/src/trie.rs:187-206 | and no two branches of one table, and no two containers, in play share a digest |
| `Scheme.OnlyStorageHinders` | crates/merkle/src/trie.rs:187-206 | over such content only storage stops initialization, and only storage or the last commit number stops a seal |
| `Consistency.RunsCanStart` | crates/index/src/lib.rs:74-113 | under a concrete hash, any keys and terms it tells apart with the genesis keys among them let a run start, and every state over them is in play |
| `Consistency.SetupExists` | crates/index/src/lib.rs:74-113 | there is a setup and content in play, the genesis keys and first roots included, that meet all assumptions together |
| `Consistency.BindingIsMet` | crates/cells/src/cell_trie.rs:24-34 | the freedom from collisions asked for is met by a concrete hash and the content of two states that differ |
| `Capacity.CellFits` | crates/api/src/config.rs:38-65 | under an accepted configuration every cell key, value and term of a kept state fits the ceilings |
| `Capacity.RunFits` | crates/api/src/config.rs:38-65 | so do the key, value and index term of every cell any branch shows or any commit publishes in any run from genesis |
| `Capacity.BranchFits` | crates/merkle/src/node.rs:97-119 | the largest trie branch of any path width fits the reserved value size |
| `Capacity.RefusedForCause` | crates/api/src/config.rs:38-65 | a refused configuration has a cause: no name could be used, or a key or value its own limits admit, or one the engine needs, would not fit |

## Left out

- Keccak-256 and BLAKE3: the hash is an arbitrary function under the assumptions named above.
- Roaring serialization and canonicalization: container bytes are an injective codec.
- The MDBX adapter: foreign calls behind the storage contract that is modelled.
- YAML and file loading of the genesis configuration.
- The API facade, builders and error mapping: thin forwarding and easy case analysis.
- Immutable-data stubs, and sort, limit, offset, totals and budgets of queries: not implemented or not enforced.
- Mutex poisoning, registry housekeeping errors after publication, and panics inside a backend's own commit.
- Query.PlanMatches: keeps the terms of an `In` leaf as a list, where the program deduplicates them in key order; the union is the same.
- Bitmaps.Apply: takes changes by whole record ID and splits them, where the writer splits before sorting; the order is the same.
- Capacity.RunFits: takes the size of Roaring containers as within the reserved 16 KiB.
- History and change-set tables: deferred in the program itself.
- Publication.StepKeeps: takes sealing as a deterministic function of the head number, the committed rows and the overlay; `Publication.EveryRunStands` carries over to interleavings whatever sealing keeps, and `Seal.Compute` is what the program's sealing keeps, one branch at a time.
- Engine.Run: stops short of a commit whose keys, terms or state leave the content in play, and works one branch at a time; interleavings are covered by `Publication` and `RecordRuns`.
- Opening.OpenStore: over a store that has a head but is no established state, what validation answers is not stated.
- RecordView.View.Read: a value that does not parse is reported apart from storage failures, and never occurs over the rows of valid cells.
- Opening.CheckPaths: over tables that stand for cells it can only pass; that a row changed behind its root is refused is `Commitment.Check` with `Commitment.OnlyRowPasses`, one row at a time.
- Scheme.RootsTell: holds where the hash has no collision among the preimages in play, which no hash has on all byte strings.
