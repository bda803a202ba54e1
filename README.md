# Collaborative jigsaw: a verified model of the puzzle state

This project models, in Dafny, the parts of the collaborative jigsaw
application that decide what a shared puzzle looks like, and proves
properties of them. It covers five layers of the application.

- **Action log and snapshots (sync service).** Five kinds of board action
  travel as comma-joined integers `kind,id,x,y[,gid]`. The model covers:
  - their encoding and decoding (`Text`, `Actions`);
  - the `Snapshot` that folds actions onto a map of pieces and a map of
    groups (`Snapshots`);
  - the per-room store of `SnapshotService` (`SnapshotService`). It holds
    an append-only log with increasing entry ids, a counter that resets at
    the threshold of 50, and a stored snapshot. `getLatestState` rebuilds
    the state from the stored snapshot plus the rest of the log.

  The central result is convergence. Every transition is an overwrite, so
  it is idempotent, and folding distributes over concatenation. Therefore
  the stored snapshot plus the suffix that re-reads its boundary entry
  gives the state of the whole log folded from empty. The one exception is
  the case the code singles out: a read of exactly one entry is returned
  unapplied.
- **Board model (client).** It covers:
  - the side table (`PuzzleSide`) and the snapping zones (`PuzzleCollider`,
    `Puzzle`);
  - neighbour lookup (`Board`) and group membership maps (`PuzzleGroup`);
  - the breadth-first `merge` walk (`MergeWalk`);
  - restore from a saved state (`Restore`) and replay of the action log
    (`Replay`);
  - the `PuzzleManager` class itself (`PuzzleManager`). Pieces live in an
    array indexed by their id. Group objects live in an arena addressed by
    handle, which stands for object identity.

  The key proof is that every branch of `connect` leaves the joined piece
  exactly one piece-size from its partner, on the connecting side. The
  merge walk places every member of the absorbed group where the layout
  puts it.
- **Puzzle generator (processing service).** It covers:
  - the 81 piece templates over edge, socket and key (`Templates`);
  - the populate-once grid (`Grid`);
  - the sprite-sheet placement cursor (`Sheet`);
  - row-major generation, where each cell takes a random template that
    fits its neighbours (`Engine`).

  `GeneratePuzzle` is proved to produce one piece per cell. Its border
  sides are edges, its inner sides never are, every inner border pairs a
  key with a socket, and every image lies in its piece's slot on the
  sheet.
- **Puzzle metadata (puzzle and sync services).** The puzzle service's
  decisions in `createPuzzle`, `updatePuzzle`, `addCollaborator`,
  `removeCollaborator` and `getSingle` are modelled as a store class over a
  map of documents (`PuzzleService`). The store also holds a list of stored
  objects and a list of published events. The sync service's replica keeps
  a version gate on updates and the `wsCheckAccess` rule (`SyncPuzzles`).
  `PuzzleTypes` holds the shared types and events.
- **Error messages (client).** `ensureErrorMessage`, over a JavaScript
  value type with JavaScript truthiness (`ErrorMessage`).

`Wrappers` holds the `Option` and `Result` types.

Where the code and its documentation differ, the model follows the code.
Where the code is evidently wrong (see "Findings"), the model keeps the
code as written beside a corrected definition, and the rest of the model
uses the corrected one: `PuzzleStore.UpdatePuzzle`,
`ReplicaStore.UpdatePuzzle` and `CheckAccess` are those corrections.
- The sync service's replica schema has no processing state. The replica
  keeps none, although the update event carries one.
- `new Snapshot(prev)` does not take over the previous `lastMessageId`.
- `toCheck` does no edge or row-wrap filtering.

## Model

| member | source | states |
|---|---|---|
| Text.Split | sync/src/modules/snapshot/actions/action.ts:22 | `split(',')` yields at least one part, and exactly the whole text when it holds no separator |
| Text.SplitJoin | sync/src/modules/snapshot/actions/action.ts:22 | splitting the `,`-joined fields gives the fields back when no field holds a comma |
| Text.JoinSplit | sync/src/modules/snapshot/actions/action.ts:22 | joining the parts of a split restores the text |
| Text.IntToString | sync/src/modules/snapshot/actions/puzzle-create.action.ts:18 | the template text of an integer is non-empty: an optional leading minus sign, then digits only |
| Text.TrimStart | sync/src/modules/snapshot/actions/action.ts:22 | the white space `parseInt` skips (the ECMAScript white space and line terminators, every Unicode space separator among them) is removed from the front, so what remains starts with something else or is empty |
| Text.ParseInt | sync/src/modules/snapshot/actions/action.ts:22 | `parseInt(e, 10)` yields a number only when the text holds a digit (NaN otherwise) |
| Text.ParseIntOfIntToString | sync/src/modules/snapshot/actions/action.ts:22 | `parseInt` reads back the decimal text of every integer |
| Actions.Tag | sync/src/modules/snapshot/actions/action.ts:8-14 | the codes: 0 piece-create, 1 piece-move, 2 piece-join, 3 group-move, 4 group-create, one per class |
| Actions.Fields | sync/src/modules/snapshot/actions/puzzle-join-group.action.ts:19-21 | `toString` writes tag, id, x, y, and the gid last only for a join |
| Actions.ToString | sync/src/modules/snapshot/actions/puzzle-join-group.action.ts:19-21 | `toString` of an action: its fields written as decimal numbers joined by commas; split and parsed back it gives the action (Actions.FromStringToString), and its shape is stated by Actions.ToStringShape |
| Actions.FromString | sync/src/modules/snapshot/actions/action.ts:21-45 | `Action.fromString`: the code picks the class, which takes id, x, y (and gid for a join); an unknown or NaN code gives `None`, as the source's `switch` falls through (Actions.FromStringFields); a known code with a field that is not an integer also decodes to `None` here, where the source builds an action holding NaN, and it inverts Actions.ToString (Actions.FromStringToString) |
| Actions.FormatAll | sync/src/modules/snapshot/actions/puzzle-create.action.ts:17-19 | each written field is the decimal text of the matching number |
| Actions.ParseAll | sync/src/modules/snapshot/actions/action.ts:22 | one parsed value per part |
| Actions.ParseAllAt | sync/src/modules/snapshot/actions/action.ts:22 | part i is parsed by `parseInt` on its own |
| Actions.FromStringFields | sync/src/modules/snapshot/actions/action.ts:21-43 | a decoded action's tag is part 0 and its id, x, y (and a join's gid) are parts 1-3 (and 4); a NaN or unknown code decodes to nothing |
| Actions.SplitToString | sync/src/modules/snapshot/actions/action.ts:22 | the parts of an encoded action are the decimal texts of its fields |
| Actions.FromStringToString | sync/src/modules/snapshot/actions/action.ts:21-43 | decoding the encoding of every action gives back the same action (kind, id, x, y and a join's gid) |
| Actions.ToStringShape | sync/src/modules/snapshot/actions/group-create.action.ts:17-19 | the encoding has four fields, five for a join, and starts with the tag |
| Actions.CreateIgnoresGid | sync/src/modules/snapshot/actions/puzzle-create.action.ts:11-15 | the create constructors copy id, x, y and ignore a gid field |
| Actions.JoinNeedsGid | sync/src/modules/snapshot/actions/puzzle-join-group.action.ts:12-17 | the model's choice, not the source's: a join line without a gid part decodes to no action, where the constructor would copy an undefined gid (see "Left out") |
| Actions.SplitFormatted | sync/src/modules/snapshot/actions/action.ts:22 | every integer of a formatted list is read back by split and parseInt |
| Snapshots.Transition | sync/src/modules/snapshot/snapshot.ts:43-72 | a transition fails exactly when a move or join names a piece, or a group move names a group, that does not exist (the source dereferences `undefined`) |
| Snapshots.Fold | sync/src/modules/snapshot/snapshot.service.ts:175-178 | the reducer over a run of actions: applying two runs one after the other is applying their concatenation, and a failing action stops the run (Snapshots.FoldConcat) |
| Snapshots.ApplyIdempotent | sync/src/modules/snapshot/snapshot.ts:43-72 | every transition is an overwrite: applying the same action twice equals applying it once |
| Snapshots.ApplyFrame | sync/src/modules/snapshot/snapshot.ts:43-72 | a piece action leaves the groups and all other pieces unchanged, a group action leaves the pieces unchanged, and a piece move keeps the piece's gid |
| Snapshots.FoldConcat | sync/src/modules/snapshot/snapshot.ts:39-41 | folding `xs + ys` equals folding `ys` onto the result of folding `xs` |
| Snapshots.ApplyOverride | sync/src/modules/snapshot/snapshot.ts:43-72 | one transition commutes with writing its input state over any base |
| Snapshots.FoldOverride | sync/src/modules/snapshot/snapshot.ts:39-41 | a fold that succeeds on a state succeeds on any base overridden by it, with the overridden result |
| Snapshots.OverrideLaws | sync/src/modules/snapshot/snapshot.ts:30-33 | the empty state is neutral for overriding, on both sides, and overriding is idempotent |
| Snapshots.FoldFromEmptyOverrides | sync/src/modules/snapshot/snapshot.ts:39-41 | a log folded from empty to `d` rewrites every entry it touches: folded onto any base it yields that base overridden by `d`, and folded onto `d` it yields `d` |
| Snapshots.FoldFromSnapshot | sync/src/modules/snapshot/snapshot.ts:39-41 | folding the whole log onto a snapshot of any prefix equals folding the whole log from empty |
| Snapshots.FoldFromBoundary | sync/src/modules/snapshot/snapshot.ts:39-41 | folding the log from the last entry a snapshot covers onto that snapshot equals folding the whole log from empty |
| Snapshots.Snapshot.constructor | sync/src/modules/snapshot/snapshot.ts:30-33 | built from null the state is empty; built from a snapshot it takes that snapshot's maps, and `lastMessageId` is not set |
| Snapshots.Snapshot.Stringify | sync/src/modules/snapshot/snapshot.ts:74-79 | `stringify` keeps pieces and groups and drops `lastMessageId`; the constructor and `apply` state their results through it |
| Snapshots.Snapshot.SetLastMessageId | sync/src/modules/snapshot/snapshot.ts:35-37 | sets the id, and pieces and groups are unchanged |
| Snapshots.Snapshot.ApplyGroupMove | sync/src/modules/snapshot/snapshot.ts:43-46 | an existing group gets the new position; a missing group fails with nothing changed; pieces untouched |
| Snapshots.Snapshot.ApplyPuzzleMove | sync/src/modules/snapshot/snapshot.ts:48-51 | only x and y of an existing piece change, its gid and every other entry stay; a missing piece fails with nothing changed |
| Snapshots.Snapshot.ApplyGroupCreate | sync/src/modules/snapshot/snapshot.ts:53-58 | sets or overwrites that group's position; pieces untouched |
| Snapshots.Snapshot.ApplyPuzzleJoinGroup | sync/src/modules/snapshot/snapshot.ts:60-64 | sets gid, x and y of an existing piece and leaves groups untouched; a missing piece fails with nothing changed |
| Snapshots.Snapshot.ApplyPuzzleCreate | sync/src/modules/snapshot/snapshot.ts:66-72 | sets the piece to (x, y) with no gid, overwriting any earlier entry; groups untouched |
| Snapshots.Snapshot.Apply | sync/src/modules/snapshot/snapshot.ts:39-41 | dispatches to the matching transition: succeeds exactly when `Transition` does, with its result as the new state, and keeps `lastMessageId` |
| SnapshotService.KeysSeparateRooms | sync/src/modules/snapshot/snapshot.service.ts:72-86 | each key builder names a different key for every room, and keys of the four families never coincide |
| SnapshotService.SnapshotKey | sync/src/modules/snapshot/snapshot.service.ts:72-74 | the snapshot key of a room; distinct per room and from the other families (SnapshotService.KeysSeparateRooms) |
| SnapshotService.ActionsKey | sync/src/modules/snapshot/snapshot.service.ts:76-78 | the action-log key of a room; distinct per room and from the other families (SnapshotService.KeysSeparateRooms) |
| SnapshotService.ActionCountKey | sync/src/modules/snapshot/snapshot.service.ts:80-82 | the action-count key of a room; distinct per room and from the other families (SnapshotService.KeysSeparateRooms) |
| SnapshotService.ConnectionsMadeKey | sync/src/modules/snapshot/snapshot.service.ts:84-86 | the connections-made key of a room; distinct per room and from the other families (SnapshotService.KeysSeparateRooms) |
| SnapshotService.KeyInjective | sync/src/modules/snapshot/snapshot.service.ts:72-86 | `puzzle:<room><suffix>` determines the room |
| SnapshotService.RangeFromMembers | sync/src/modules/snapshot/snapshot.service.ts:156-160 | `xrange` from a start id holds exactly the entries whose id is at least the start (inclusive) |
| SnapshotService.RangeFromSuffix | sync/src/modules/snapshot/snapshot.service.ts:156-160 | with increasing ids, the range from an entry's id is the suffix of the log from that entry |
| SnapshotService.RangeFromAll | sync/src/modules/snapshot/snapshot.service.ts:149-160 | reading from `-` (below every id) returns the whole log |
| SnapshotService.RangeFromNone | sync/src/modules/snapshot/snapshot.service.ts:156-160 | reading from an id above every entry returns nothing |
| SnapshotService.Decode | sync/src/modules/snapshot/snapshot.service.ts:175-176 | one decoded action per stream entry |
| SnapshotService.DecodeAt | sync/src/modules/snapshot/snapshot.service.ts:176 | entry i is decoded by `Action.fromString` on its payload |
| SnapshotService.Step | sync/src/modules/snapshot/snapshot.service.ts:175-178 | one message applies exactly when it decodes and its transition succeeds |
| SnapshotService.RunConcat | sync/src/modules/snapshot/snapshot.service.ts:175-178 | applying `xs + ys` is applying `ys` to the result of applying `xs` |
| SnapshotService.RunStops | sync/src/modules/snapshot/snapshot.service.ts:175-178 | once a message throws, the whole loop throws |
| SnapshotService.RunSnoc | sync/src/modules/snapshot/snapshot.service.ts:175-178 | one more message is one more step |
| SnapshotService.EncodedDecodes | sync/src/modules/snapshot/snapshot.service.ts:95-100 | every payload written by `recordAction` decodes to the action it encodes |
| SnapshotService.ReplayEncoded | sync/src/modules/snapshot/snapshot.service.ts:175-178 | replaying a recorded log is folding the recorded actions |
| SnapshotService.EncodesSlices | sync/src/modules/snapshot/snapshot.service.ts:156-160 | any prefix or suffix of a recorded log encodes the same slice of the actions |
| SnapshotService.Converged | sync/src/modules/snapshot/snapshot.service.ts:180 | the converged state is marked with the id of the log's last entry |
| SnapshotService.LatestState | sync/src/modules/snapshot/snapshot.service.ts:139-184 | `getLatestState`: no log and no snapshot gives no state (SnapshotService.NoStateExactly); otherwise the stored snapshot with the log entries after it replayed on top, marked with the last id (SnapshotService.LatestStateConverges) |
| SnapshotService.LatestStateConverges | sync/src/modules/snapshot/snapshot.service.ts:139-183 | `getLatestState` yields the fold of every recorded action from empty, whichever sound snapshot is stored, except for a one-entry read, which returns the snapshot unapplied (itself that fold) |
| SnapshotService.ConvergesWithoutMark | sync/src/modules/snapshot/snapshot.service.ts:149-150 | a snapshot without `lastMessageId` gets the whole log replayed onto it, and still converges |
| SnapshotService.ConvergesFromMark | sync/src/modules/snapshot/snapshot.service.ts:166-180 | a snapshot plus the inclusive suffix from its `lastMessageId` rebuilds the fold of the whole log |
| SnapshotService.NoStateExactly | sync/src/modules/snapshot/snapshot.service.ts:162-164 | `getLatestState` is null exactly when no snapshot is stored and the read is empty |
| SnapshotService.SingleEntryUnapplied | sync/src/modules/snapshot/snapshot.service.ts:171-173 | without a snapshot, a one-action log rebuilds to the empty state (the entry is not applied) |
| SnapshotService.EmptyReadCrashes | sync/src/modules/snapshot/snapshot.service.ts:175-180 | a stored snapshot with nothing read from its mark reads `messages[-1]` and throws |
| SnapshotService.NextId | sync/src/modules/snapshot/snapshot.service.ts:95-100 | the generated id lies above every id in the stream |
| SnapshotService.AppendKeepsLogs | sync/src/modules/snapshot/snapshot.service.ts:95-100 | appending an encoded action under a fresh id keeps ids increasing and every payload an encoding of a recorded action |
| SnapshotService.AppendKeepsCounts | sync/src/modules/snapshot/snapshot.service.ts:29-38 | after `incr_or_reset` each counter is again its log's length modulo 50 |
| SnapshotService.AppendKeepsSnapshots | sync/src/modules/snapshot/snapshot.service.ts:95-100 | appending to a log leaves the stored snapshots sound |
| SnapshotService.SnapshotKeepsSound | sync/src/modules/snapshot/snapshot.service.ts:185-197 | storing the fold of a room's whole log, marked with its last entry, keeps every stored snapshot sound |
| SnapshotService.ThresholdConverges | sync/src/modules/snapshot/snapshot.service.ts:102-112 | at the threshold `getLatestState` yields the fold of every recorded action, marked with the newest entry |
| SnapshotService.SnapshotStore.constructor | sync/src/modules/snapshot/snapshot.service.ts:53-58 | every room starts with no log, counter, snapshot or connection count |
| SnapshotService.SnapshotStore.IncrOrReset | sync/src/modules/snapshot/snapshot.service.ts:29-38 | returns the incremented count and stores 0 once it reaches the threshold; nothing else changes |
| SnapshotService.SnapshotStore.StreamAllActions | sync/src/modules/snapshot/snapshot.service.ts:117-137 | one payload per log entry, in log order |
| SnapshotService.SnapshotStore.GetLatestState | sync/src/modules/snapshot/snapshot.service.ts:139-183 | the loop computes `LatestState` of the room's log and stored snapshot |
| SnapshotService.SnapshotStore.CreateSnapshot | sync/src/modules/snapshot/snapshot.service.ts:185-197 | stores the latest state and its `lastMessageId`; where that state is null or throws, nothing is stored and the call fails |
| SnapshotService.SnapshotStore.RecordAction | sync/src/modules/snapshot/snapshot.service.ts:88-115 | appends the encoded action before counting, returns the new entry's id, and takes a snapshot exactly when the log length reaches a multiple of 50; the store invariant is kept |
| SnapshotService.SnapshotStore.SnapshotAtThreshold | sync/src/modules/snapshot/snapshot.service.ts:109-112 | the snapshot stored at the threshold is the fold of every recorded action, marked with the newest entry |
| SnapshotService.SnapshotStore.XAdd | sync/src/modules/snapshot/snapshot.service.ts:95-100 | appends `toString()` of the action under an id above every existing id |
| SnapshotService.SnapshotStore.IncrementConnectionsMade | sync/src/modules/snapshot/snapshot.service.ts:199-203 | `incrby` adds the count to the room's counter (0 when absent) and returns the total |
| SnapshotService.SnapshotStore.GetConnectionsMade | sync/src/modules/snapshot/snapshot.service.ts:205-210 | the stored counter, or 0 when none is stored |
| SnapshotService.ApplyMessages | sync/src/modules/snapshot/snapshot.service.ts:175-178 | applies the messages in order; fails exactly when their replay fails, and keeps `lastMessageId` |
| PuzzleSide.SideOf | client/src/modules/Playground/utils/Puzzle.ts:23-28 | each direction has its entry in `SIDES`, which carries that direction |
| PuzzleSide.Equals | client/src/modules/Playground/utils/PuzzleSide.ts:19-21 | `equals` given a side: the two directions agree, which for the table's entries is equality of the entries (PuzzleSide.EqualsForms) |
| PuzzleSide.EqualsDirection | client/src/modules/Playground/utils/PuzzleSide.ts:19-25 | `equals` given a raw direction: agrees with `equals` on that direction's entry (PuzzleSide.EqualsForms) |
| PuzzleSide.Index | client/src/modules/Playground/utils/PuzzleSide.ts:27-29 | `index`: TOP 0, RIGHT 1, BOTTOM 2, LEFT 3, one index per side (PuzzleSide.SideIndices) |
| PuzzleSide.Opposite | client/src/modules/Playground/utils/PuzzleSide.ts:35-37 | `opposite`: two places further round the table, and an involution (PuzzleSide.SidesTable) |
| PuzzleSide.ToString | client/src/modules/Playground/utils/PuzzleSide.ts:31-33 | `toString`: the name of the side's direction; two sides print alike exactly when they are equal (PuzzleSide.ToStringMatchesEquals) |
| PuzzleSide.SidesTable | client/src/modules/Playground/utils/PuzzleSide.ts:13-37 | with the shared table the indices are 0-3 and distinct, each side's opposite lies two places round, and `opposite` is an involution without fixed points |
| PuzzleSide.SideIndices | client/src/modules/Playground/utils/PuzzleSide.ts:27-29 | `index()` is TOP 0, RIGHT 1, BOTTOM 2, LEFT 3, the `[t,r,b,l]` layout, all distinct |
| PuzzleSide.ToStringMatchesEquals | client/src/modules/Playground/utils/PuzzleSide.ts:31-33 | `toString` returns the side's own direction, so two sides print alike exactly when `equals` holds |
| PuzzleSide.EqualsForms | client/src/modules/Playground/utils/PuzzleSide.ts:19-25 | `equals` compares directions only, given a `Side` or a raw direction, and is symmetric |
| PuzzleCollider.GetTranslates | client/src/modules/Playground/utils/PuzzleCollider.ts:31-46 | a zone's origin is the position plus a fixed offset, so moving a piece moves each zone by the same amount |
| PuzzleCollider.Get | client/src/modules/Playground/utils/PuzzleCollider.ts:42-46 | `get(side, position)`: the zone's origin, which moves with the piece (PuzzleCollider.GetTranslates) and sits at the middle of that side (PuzzleCollider.ZonesAtMidpoints) |
| PuzzleCollider.ZonesAtMidpoints | client/src/modules/Playground/utils/PuzzleCollider.ts:14-25 | with zones a third of the piece, the top, right, bottom and left zones sit at the middles of their edges |
| PuzzleCollider.NeighboursShareZones | client/src/modules/Playground/utils/PuzzleCollider.ts:14-25 | two pieces one piece-size apart share the zone of their common edge |
| PuzzleCollider.FacingZonesCoincide | client/src/modules/Playground/utils/PuzzleCollider.ts:14-25 | facing zones coincide exactly when the pieces lie one piece-size apart |
| Puzzle.ToCheckFacesSelected | client/src/modules/Playground/utils/Puzzle.ts:110-131 | `toCheck` lists four candidates at four different sides, and each candidate's neighbour at its side is the selected piece |
| Puzzle.ToCheck | client/src/modules/Playground/utils/Puzzle.ts:110-131 | `toCheck`: four candidates at four different sides, each of which has the selected piece as its neighbour at that side (Puzzle.ToCheckFacesSelected) |
| Puzzle.NeighbourIndex | client/src/modules/Playground/utils/Puzzle.ts:329-345 | the index `getNeighbourAtSide` looks up; stepping to a side and back returns to the piece (Puzzle.NeighbourIndexBack, Puzzle.NeighbourIndexOfSides) |
| Puzzle.Overlap | client/src/modules/Playground/utils/Puzzle.ts:153-163 | `overlap`: strict intersection of two zones, that is origins closer than a zone on both axes, and symmetric (Puzzle.OverlapDistance) |
| Puzzle.IntersectsAtSide | client/src/modules/Playground/utils/Puzzle.ts:165-176 | `intersectsAtSide`: holds exactly when the other piece lies within a third of a piece of the spot next to this one at that side (Puzzle.SnapTolerance) |
| Puzzle.Step | client/src/modules/Playground/utils/Puzzle.ts:208-222 | the place one piece-size away at a side, where `connect` puts the neighbour; stepping back at the opposite side returns (Puzzle.StepBack) and steps commute with moves (Puzzle.StepTranslate) |
| Puzzle.NeighbourIndexOfSides | client/src/modules/Playground/utils/Puzzle.ts:329-343 | every side of `SIDES` points at a neighbour index, different from the piece's own when there are columns |
| Puzzle.NeighbourIndexBack | client/src/modules/Playground/utils/Puzzle.ts:329-343 | the piece found at side `s` finds the first piece again through the opposite side |
| Puzzle.OverlapDistance | client/src/modules/Playground/utils/Puzzle.ts:153-163 | two zones overlap iff their origins are closer than a zone size on both axes; overlap is symmetric |
| Puzzle.SnapTolerance | client/src/modules/Playground/utils/Puzzle.ts:165-176 | testing at a side succeeds iff the other piece lies within a third of a piece, on both axes, of the spot one piece-size away in that direction |
| Puzzle.PlacedPiecesSnap | client/src/modules/Playground/utils/Puzzle.ts:165-176 | a piece exactly where `connect` puts it always snaps, for a positive size |
| Puzzle.StepBack | client/src/modules/Playground/utils/Puzzle.ts:187-201 | the offsets `connect` gives at opposite sides cancel |
| Puzzle.StepTranslate | client/src/modules/Playground/utils/Puzzle.ts:208-223 | the offset `connect` gives commutes with translating by a group's position |
| Board.NeighbourIn | client/src/modules/Playground/utils/Puzzle.ts:303-346 | nothing behind an EDGE side; a found neighbour is in the piece's own group at the side's neighbour index; the lookup throws exactly when the side is not an EDGE and the piece has no group |
| Board.NeighbourInBack | client/src/modules/Playground/utils/Puzzle.ts:303-346 | inside one group, the neighbour found at a side finds the piece again through the back side when that side is no EDGE |
| Board.Neighbours | client/src/modules/Playground/utils/Puzzle.ts:352-357 | the non-empty neighbours at the given sides, each at its side, none missed; a grouped piece never fails |
| Board.NeighboursIgnorePositions | client/src/modules/Playground/utils/Puzzle.ts:303-357 | the lookups read only the piece's data and group, never a position |
| PuzzleGroup.MapSet | client/src/modules/Playground/utils/PuzzleGroup.ts:104-114 | `Map.set` adds the key, keeps every other key and their order, and keeps the keys distinct |
| PuzzleGroup.MapDelete | client/src/modules/Playground/utils/PuzzleGroup.ts:82-84 | `Map.delete` drops exactly that key and keeps the keys distinct |
| PuzzleGroup.MapSetAll | client/src/modules/Playground/utils/PuzzleGroup.ts:104-109 | adding several pieces leaves the old keys and the new ones, distinct |
| PuzzleGroup.MapSetAllSnoc | client/src/modules/Playground/utils/PuzzleGroup.ts:104-109 | adding one more piece is one more `Map.set` |
| PuzzleGroup.MapSetIdempotent | client/src/modules/Playground/utils/PuzzleGroup.ts:104-114 | setting a key twice is setting it once |
| PuzzleGroup.MapDeleteOfSet | client/src/modules/Playground/utils/PuzzleGroup.ts:82-84 | deleting a key just added restores the map |
| PuzzleGroup.MapDeleteAbsent | client/src/modules/Playground/utils/PuzzleGroup.ts:82-84 | deleting an absent key changes nothing |
| MergeWalk.UnseenSound | client/src/modules/Playground/utils/PuzzleGroup.ts:169-180 | the inner loop pushes only found entries whose piece was not excluded, each piece once, and afterwards every found piece is excluded |
| MergeWalk.PushUnseen | client/src/modules/Playground/utils/PuzzleGroup.ts:169-180 | the loop appends exactly the unseen entries to the queue and adds their pieces to the exclude list |
| MergeWalk.WalkInit | client/src/modules/Playground/utils/PuzzleGroup.ts:117-119 | the queue of the starting piece's neighbours, with only that piece excluded, satisfies the walk's invariant |
| MergeWalk.WalkStep | client/src/modules/Playground/utils/PuzzleGroup.ts:123-181 | one turn of the outer loop keeps the walk's invariant: excluded pieces are placed or queued, every neighbour of a placed piece is placed or queued, placed pieces sit where the layout puts them |
| MergeWalk.WalkNoCrash | client/src/modules/Playground/utils/PuzzleGroup.ts:130-167 | inside a coherent group, every dequeued piece is a member with a group, so neither lookup of a turn throws |
| MergeWalk.VisitPost | client/src/modules/Playground/utils/PuzzleGroup.ts:123-181 | after a turn the invariant holds again, and either more pieces are excluded or the queue is shorter (the walk ends) |
| MergeWalk.FrameLaid | client/src/modules/Playground/utils/PuzzleGroup.ts:130-167 | the walk never takes a position away |
| Restore.MaxGroupId | client/src/modules/Playground/utils/PuzzleManager.ts:194-217 | `Math.max` from -1: at least -1, no smaller than any saved id, and a saved id unless it is -1 |
| Restore.IndexOfId | client/src/modules/Playground/utils/PuzzleManager.ts:240 | `groups.get(gid)` finds the entry with that id, and nothing exactly when no entry has it |
| Restore.IndexOfIdDistinct | client/src/modules/Playground/utils/PuzzleManager.ts:198-214 | with distinct object keys, every entry is found at its own place |
| Restore.Joiners | client/src/modules/Playground/utils/PuzzleManager.ts:227-245 | the members a restored group gets are exactly the pieces whose saved gid names it, each once |
| Restore.EmptyGroups | client/src/modules/Playground/utils/PuzzleManager.ts:198-214 | one memberless group object per saved entry, with the entry's id and position |
| Restore.RestoredMembership | client/src/modules/Playground/utils/PuzzleManager.ts:240-244 | a piece is restored into the group of entry j exactly when it is a member of that group's map |
| Restore.HandlesLookup | client/src/modules/Playground/utils/PuzzleManager.ts:209-214 | the local map finds exactly the saved ids, each at the handle of its own entry |
| Restore.RestoreJoinStep | client/src/modules/Playground/utils/PuzzleManager.ts:240-244 | a piece whose saved gid names entry j is added to that group's map and no other |
| Restore.RestoreSkipStep | client/src/modules/Playground/utils/PuzzleManager.ts:229-244 | a piece without a saved entry, or whose gid names no restored group, leaves every group's map as it was |
| Replay.Ungroup | client/src/modules/Playground/utils/Puzzle.ts:390-395 | `resetGroup` keeps the number of pieces and group objects |
| Replay.UngroupAllMeaning | client/src/modules/Playground/utils/PuzzleManager.ts:474-476 | after the reset loop the pieces have no group and keep data and positions; each group keeps id and position and loses exactly the keys of the pieces that pointed to it |
| Replay.StepLine | client/src/modules/Playground/utils/PuzzleManager.ts:480-510 | a line that goes through keeps the number of pieces and every handle valid |
| Replay.Run | client/src/modules/Playground/utils/PuzzleManager.ts:480-513 | the replayed log keeps the number of pieces and every handle valid |
| Replay.RunAppend | client/src/modules/Playground/utils/PuzzleManager.ts:480-513 | replaying `a ++ b` is replaying `b` from where `a` ended, unless `a` already failed |
| Replay.RunStops | client/src/modules/Playground/utils/PuzzleManager.ts:480-513 | a failing line ends the replay in the state just before it |
| Replay.StepDecodes | client/src/modules/Playground/utils/PuzzleManager.ts:481-510 | the client's parsing agrees with `Action.fromString`: a decoded line is applied as that action, an unknown or NaN kind is skipped, a known kind that does not decode fails |
| Replay.ReplayedGroupTakesCounter | client/src/modules/Playground/utils/PuzzleManager.ts:492-497 | a replayed group creation makes a group named by the counter, not by the logged id, which only keys the local map |
| PuzzleManager.JsRem | client/src/modules/Playground/utils/PuzzleManager.ts:113 | JavaScript `%`: the remainder takes the sign of the dividend, in `0..b-1` for a non-negative dividend |
| PuzzleManager.BuildPiece | client/src/modules/Playground/utils/PuzzleManager.ts:108-130 | `buildObjects` for one piece: its index, sides and position are kept, it starts in no group, and its row and column locate its index in the grid |
| PuzzleManager.BuildPieceCell | client/src/modules/Playground/utils/PuzzleManager.ts:111-123 | a piece's row and column satisfy `row * columns + column == idx` with `0 <= column < columns` |
| PuzzleManager.JoinEvents | client/src/modules/Playground/utils/PuzzleGroup.ts:104-109 | one join event per added piece |
| PuzzleManager.JoinEventsAt | client/src/modules/Playground/utils/Puzzle.ts:367-374 | the j-th join event announces the j-th piece, its position and the group's id |
| PuzzleManager.JoinedAt | client/src/modules/Playground/utils/Puzzle.ts:359-361 | exactly the listed pieces point to the group; nothing else about any piece changes |
| PuzzleManager.JoinedAbs | client/src/modules/Playground/utils/Puzzle.ts:359-365 | a joined piece shows at its own position translated by its new group's position; the others do not move |
| PuzzleManager.MergedAdjacent | client/src/modules/Playground/utils/PuzzleGroup.ts:183-188 | after the members move into the surviving group, the moved piece shows one piece-size from the piece it connected to |
| PuzzleManager.LocksFirstHolderWins | client/src/modules/Playground/utils/PuzzleManager.ts:171-188 | a second `addLock` changes nothing, a first one records the user, `removeLock` frees the piece, and other pieces' locks stay |
| PuzzleManager.AddLockTo | client/src/modules/Playground/utils/PuzzleManager.ts:171-181 | `addLock`: the locked set gains the piece; every existing lock is kept, so a second lock changes nothing, and a free piece is locked by the user |
| PuzzleManager.RemoveLockFrom | client/src/modules/Playground/utils/PuzzleManager.ts:183-188 | `removeLock`: the piece is freed and every other lock is kept |
| PuzzleManager.LockRoundTrip | client/src/modules/Playground/utils/PuzzleManager.ts:171-188 | taking a free piece's lock and releasing it restores the locks |
| PuzzleManager.SnapsNearSpot | client/src/modules/Playground/utils/PuzzleManager.ts:388-405 | on a laid-out board a candidate snaps exactly when it names a piece outside the selected piece's group id and the selected piece lies within a third of a piece of the spot one piece-size from it |
| PuzzleManager.Snaps | client/src/modules/Playground/utils/PuzzleManager.ts:386-400 | the test `matchAndConnect` applies to a candidate; on a laid-out board it holds exactly when the selected piece is near the candidate's spot and outside its group (PuzzleManager.SnapsNearSpot) |
| PuzzleManager.PuzzleManager.constructor | client/src/modules/Playground/utils/PuzzleManager.ts:69-106 | no pieces, groups, events or locks; propagation on, no handler, progress 1, group counter 0 |
| PuzzleManager.PuzzleManager.SendEvent | client/src/modules/Playground/utils/PuzzleManager.ts:339-343 | an event reaches the handler only when a handler is set and propagation is on |
| PuzzleManager.PuzzleManager.OnEvent | client/src/modules/Playground/utils/PuzzleManager.ts:285-287 | registers the handler and changes nothing else |
| PuzzleManager.PuzzleManager.EnableEventPropagation | client/src/modules/Playground/utils/PuzzleManager.ts:289-291 | turns propagation on and changes nothing else |
| PuzzleManager.PuzzleManager.DisableEventPropagation | client/src/modules/Playground/utils/PuzzleManager.ts:293-295 | turns propagation off and changes nothing else |
| PuzzleManager.PuzzleManager.RestoreState | client/src/modules/Playground/utils/PuzzleManager.ts:301-303 | sets the group counter and changes nothing else |
| PuzzleManager.PuzzleManager.IncreaseProgressBy | client/src/modules/Playground/utils/PuzzleManager.ts:318-321 | adds to the connected-pieces counter and returns the new total |
| PuzzleManager.PuzzleManager.NewGroup | client/src/modules/Playground/utils/PuzzleGroup.ts:25-36 | a memberless group object is appended; a fresh one announces itself with its id and position |
| PuzzleManager.PuzzleManager.CreatePuzzleGroupAt | client/src/modules/Playground/utils/PuzzleManager.ts:305-316 | the new group takes the current counter, which goes up by one; a fresh group announces itself |
| PuzzleManager.PuzzleManager.AdjustPosition | client/src/modules/Playground/utils/Puzzle.ts:378-384 | only that piece's position changes |
| PuzzleManager.PuzzleManager.Join | client/src/modules/Playground/utils/Puzzle.ts:359-376 | the piece becomes a member of the group and points to it, and with `emit` announces the join with its position and the group's id |
| PuzzleManager.PuzzleManager.Add | client/src/modules/Playground/utils/PuzzleGroup.ts:104-109 | every listed piece is set in the group's map and joins it, with one join event each, in order |
| PuzzleManager.PuzzleManager.CtxFromValid | client/src/modules/Playground/utils/PuzzleGroup.ts:116-121 | the board invariant gives the walk its facts: ids match indices and a grouped piece is a placed member of its group |
| PuzzleManager.PuzzleManager.MembersPlaced | client/src/modules/Playground/utils/PuzzleGroup.ts:183-188 | the members of the walked group are placed pieces |
| PuzzleManager.PuzzleManager.Visit | client/src/modules/Playground/utils/PuzzleGroup.ts:123-181 | one turn of the outer loop: fails only outside a coherent group, with nothing moved, and otherwise keeps the walk's invariant and makes progress |
| PuzzleManager.PuzzleManager.MoveBack | client/src/modules/Playground/utils/PuzzleGroup.ts:130-167 | the dequeued piece moves one piece-size from the neighbour on its back side; the lookup fails only for a piece without a group, with nothing moved |
| PuzzleManager.PuzzleManager.WalkGroup | client/src/modules/Playground/utils/PuzzleGroup.ts:117-181 | the breadth-first walk reaches the starting piece's whole group inside a coherent group, never moves the starting piece, and leaves every reached piece where the layout puts it relative to the start |
| PuzzleManager.PuzzleManager.Merge | client/src/modules/Playground/utils/PuzzleGroup.ts:116-189 | after the walk every member of `v`'s group is set in `g`'s map and points to `g`, with one join event each; a failing walk changes no group |
| PuzzleManager.PuzzleManager.LayPair | client/src/modules/Playground/utils/Puzzle.ts:183-201 | a fresh group at `u`'s place, `u` at the group's origin, `v` one piece-size away at side `at` |
| PuzzleManager.PuzzleManager.ConnectLoose | client/src/modules/Playground/utils/Puzzle.ts:183-206 | two loose pieces end in one new group, both announced, `u` showing where it was and `v` one piece-size from it |
| PuzzleManager.PuzzleManager.JoinPair | client/src/modules/Playground/utils/Puzzle.ts:205 | both laid pieces join the new group with their join events, each keeps its place relative to the group, and nothing else changes |
| PuzzleManager.PuzzleManager.Attach | client/src/modules/Playground/utils/Puzzle.ts:208-248 | the loose piece moves relative to the other piece's group and joins it with an event; the anchor does not move |
| PuzzleManager.PuzzleManager.MergeInto | client/src/modules/Playground/utils/Puzzle.ts:267 | `v`'s group joins `u`'s; `u` stays put and, inside a coherent group, `v` shows at its relative position in `u`'s group |
| PuzzleManager.PuzzleManager.ConnectGroups | client/src/modules/Playground/utils/Puzzle.ts:250-268 | both grouped: `v` moves one piece-size from `u` in `u`'s group and the groups merge; it fails only outside a coherent group |
| PuzzleManager.PuzzleManager.Connect | client/src/modules/Playground/utils/Puzzle.ts:178-269 | the four cases: the pieces end in one group, together with every piece that shared `v`'s group, with `v` shown one piece-size from `u` in the direction of `at`; only merging can fail, and not on a coherent group |
| PuzzleManager.PuzzleManager.HandlesFromValid | client/src/modules/Playground/utils/PuzzleGroup.ts:74-76 | every grouped piece refers to a group object that exists |
| PuzzleManager.PuzzleManager.MatchAndConnect | client/src/modules/Playground/utils/PuzzleManager.ts:375-410 | the result is the number of candidates connected, listed once each in `toCheck` order, each ending in the selected piece's group; none exactly when no candidate snaps on the starting board (then nothing changes); the first one connected snapped on the starting board; the selection is cleared |
| PuzzleManager.PuzzleManager.MatchNext | client/src/modules/Playground/utils/PuzzleManager.ts:391-406 | one turn of the loop: candidate `i` is connected exactly when it snaps on the current board, and is then counted |
| PuzzleManager.ProgressConnect | client/src/modules/Playground/utils/PuzzleManager.ts:401-404 | a successful connect brings the candidate and every earlier one into the selected piece's group |
| PuzzleManager.ProgressEnd | client/src/modules/Playground/utils/PuzzleManager.ts:391-409 | at the end of the loop, nothing was connected exactly when no candidate snapped on the starting board |
| PuzzleManager.PuzzleManager.NewEntry | client/src/modules/Playground/utils/PuzzleManager.ts:198-217 | one pass of the first loop adds the entry's group object, its handle and the running maximum |
| PuzzleManager.PuzzleManager.NewPiece | client/src/modules/Playground/utils/Puzzle.ts:38-57 | a fresh piece is placed at the given spot and announces itself with its position and id; a restored one has no position |
| PuzzleManager.PuzzleManager.BuildObjects | client/src/modules/Playground/utils/PuzzleManager.ts:108-133 | one piece per spec entry, in order, with row `idx / columns` and column `idx % columns`, each announced when the board is new |
| PuzzleManager.PuzzleManager.CreateSandbox | client/src/modules/Playground/utils/PuzzleManager.ts:252-273 | sets the metadata, then builds the pieces: fresh ones laid out and announced, or restored from the state with the counter after the largest saved group id |
| PuzzleManager.PuzzleManager.NewGroups | client/src/modules/Playground/utils/PuzzleManager.ts:198-217 | a silent group per saved entry in entry order, a map that finds exactly the saved ids, and the largest id from -1 |
| PuzzleManager.PuzzleManager.RestoreNext | client/src/modules/Playground/utils/PuzzleManager.ts:227-245 | one pass of the second loop puts piece q back |
| PuzzleManager.PuzzleManager.RestoreJoined | client/src/modules/Playground/utils/PuzzleManager.ts:233-244 | a piece whose gid names a restored group takes its saved position and joins it silently |
| PuzzleManager.PuzzleManager.RestorePieces | client/src/modules/Playground/utils/PuzzleManager.ts:227-245 | every piece with a saved entry takes its position and joins the group its gid names when that group was restored; others are untouched |
| PuzzleManager.PuzzleManager.ApplyProgress | client/src/modules/Playground/utils/PuzzleManager.ts:190-250 | the saved groups are created silently and listed, the counter continues after the largest saved id, every saved piece is put back, and no event is sent |
| PuzzleManager.PuzzleManager.ReplayAction | client/src/modules/Playground/utils/PuzzleManager.ts:481-510 | one logged action as `StepLine` computes it; where the source throws, nothing changes |
| PuzzleManager.PuzzleManager.ResetAll | client/src/modules/Playground/utils/PuzzleManager.ts:474-476 | `resetGroup` on every piece, in order |
| PuzzleManager.PuzzleManager.ReplayLog | client/src/modules/Playground/utils/PuzzleManager.ts:480-513 | the logged actions applied in order as `Run` computes them, without events |
| PuzzleManager.PuzzleManager.ReplayNext | client/src/modules/Playground/utils/PuzzleManager.ts:481-510 | one logged line is applied as the replay of the log so far says, or the replay stops with the board as it was and the rest of the log unapplied |
| PuzzleManager.PuzzleManager.Replay | client/src/modules/Playground/utils/PuzzleManager.ts:471-516 | with propagation off, every piece leaves its group and the log is replayed; propagation comes back on only when every action went through |
| PuzzleManager.PuzzleManager.AddPuzzle | client/src/modules/Playground/utils/PuzzleGroup.ts:111-114 | like `add` for one piece, without the event |
| PuzzleManager.PuzzleManager.RemovePuzzle | client/src/modules/Playground/utils/PuzzleGroup.ts:82-84 | only that key leaves the group's map |
| PuzzleManager.PuzzleManager.ResetGroup | client/src/modules/Playground/utils/Puzzle.ts:390-395 | a grouped piece leaves its group's map and its group; an ungrouped one is left alone |
| PuzzleManager.PuzzleManager.GroupMove | client/src/modules/Playground/utils/PuzzleGroup.ts:191-198 | only the group's position changes; its members keep their relative positions |
| PuzzleManager.PuzzleManager.Move | client/src/modules/Playground/utils/Puzzle.ts:423-429 | a grouped piece moves its group, an ungrouped one moves itself |
| PuzzleManager.PuzzleManager.AddLock | client/src/modules/Playground/utils/PuzzleManager.ts:171-181 | a piece already locked keeps its first holder; otherwise the user takes the lock |
| PuzzleManager.PuzzleManager.RemoveLock | client/src/modules/Playground/utils/PuzzleManager.ts:183-188 | acts only on a locked piece, which becomes free |
| PuzzleManager.PuzzleManager.HandlePuzzleMove | client/src/modules/Playground/utils/PuzzleManager.ts:135-138 | a remote move sets only that piece's position |
| PuzzleManager.PuzzleManager.HandleGroupMove | client/src/modules/Playground/utils/PuzzleManager.ts:140-143 | a remote move sets only the position of the group listed at that index |
| PuzzleManager.PuzzleManager.HandleGroupCreated | client/src/modules/Playground/utils/PuzzleManager.ts:145-159 | a remote group is created with its remote id, the counter continues after it, and the group is listed |
| PuzzleManager.PuzzleManager.HandlePuzzleJoin | client/src/modules/Playground/utils/PuzzleManager.ts:161-169 | the piece joins the listed group silently and then takes the given position |
| Templates.AllPossibleCombinations | processing/src/lib/puzzle-engine/index.ts:49-66 | the result lists exactly the completions of the current string to the wanted length by letters of the input, the input's size to the power of the missing length of them, none twice when the input has no letter twice |
| Templates.ExtendStep | processing/src/lib/puzzle-engine/index.ts:57-63 | appending the completions that start with the next input letter keeps the count, the distinctness and the exact contents of the partial result |
| Templates.OppositeFaces | processing/src/lib/puzzle-engine/index.ts:78-80 | a template shows its bottom to the neighbour above, its left side to the one on the right, its top to the one below and its right side to the one on the left |
| Templates.Opposite | processing/src/lib/puzzle-engine/index.ts:78-80 | `opposite(idx)`: the side a template shows to the neighbour in direction `idx` (Templates.OppositeFaces) |
| Templates.ShapeOver | processing/src/lib/puzzle-engine/index.ts:34-47 | a finished side string is exactly a four-letter string over edge, socket and key |
| Templates.GenerateAllPossiblePieceTemplates | processing/src/lib/puzzle-engine/index.ts:34-47 | there are 81 templates, no two alike, and every finished side string has its template |
| Templates.AllTemplates | processing/src/lib/puzzle-engine/index.ts:34-47 | the templates of all four-letter strings over edge, socket and key are the 81 distinct finished templates |
| Templates.TemplatesOfMeaning | processing/src/lib/puzzle-engine/index.ts:38-46 | turning side strings into templates keeps their number, their distinctness and exactly their strings |
| Grid.PuzzleGrid.constructor | processing/src/lib/puzzle-engine/helpers/PuzzleGrid.ts:10-28 | a new grid has the given rows and columns and no cell populated |
| Grid.PuzzleGrid.PopulateSegment | processing/src/lib/puzzle-engine/helpers/PuzzleGrid.ts:38-42 | afterwards the cell is populated; a cell already populated keeps its template, an empty one takes the new one, and every other cell is unchanged |
| Grid.InBounds | processing/src/lib/puzzle-engine/helpers/PuzzleGrid.ts:44-46 | a cell is out of bounds exactly when its row or column lies outside the grid |
| Grid.PuzzleGrid.IsOutOfBounds | processing/src/lib/puzzle-engine/helpers/PuzzleGrid.ts:44-46 | `isOutOfBounds`: outside exactly when a coordinate is negative or past the last row or column (Grid.InBounds) |
| Grid.PuzzleGrid.GetSegment | processing/src/lib/puzzle-engine/helpers/PuzzleGrid.ts:30-32 | `getSegment`: the template in a cell, or none; Grid.PuzzleGrid.PopulateSegment states it after a write |
| Grid.PuzzleGrid.IsPopulated | processing/src/lib/puzzle-engine/helpers/PuzzleGrid.ts:34-36 | `isPopulated`: the cell holds a template; Grid.PuzzleGrid.PopulateSegment makes it hold |
| Sheet.Draw | processing/src/lib/puzzle-engine/helpers/PuzzleSheet.ts:48-59 | after an image at x the cursor moves one element to the right, or to the start of the next row once it reaches the sheet's width; the draw succeeds exactly when the current row still starts within the sheet's height |
| Sheet.Puzzlesheet.constructor | processing/src/lib/puzzle-engine/helpers/PuzzleSheet.ts:19-37 | a new sheet has the given width, height and element size, its cursor at the start of row 0, and nothing drawn |
| Sheet.Puzzlesheet.NextRow | processing/src/lib/puzzle-engine/helpers/PuzzleSheet.ts:43-46 | the cursor moves to the start of the next row and nothing is drawn |
| Sheet.Puzzlesheet.DrawImage | processing/src/lib/puzzle-engine/helpers/PuzzleSheet.ts:48-59 | the image is drawn at the given point, the cursor moves as the sheet's drawing rule says, the result says whether the sheet is within capacity, and the cursor stays left of the sheet's width |
| Sheet.Puzzlesheet.AddImage | processing/src/lib/puzzle-engine/helpers/PuzzleSheet.ts:61-63 | the image is drawn in the cursor's slot, at the cursor's x and the row times the element size down, and the cursor moves on |
| Sheet.DrawInGrid | processing/src/lib/puzzle-engine/helpers/PuzzleSheet.ts:48-63 | on a sheet sized for the puzzle's rows and columns, every cell's image fits, and the cursor moves to the next column or the next row's start |
| Engine.AdjacentPairsFaceBack | processing/src/lib/puzzle-engine/index.ts:208-215 | the neighbour in each direction is another cell, which sees this one in the opposite direction |
| Engine.AdjacentSegmentIndexPairs | processing/src/lib/puzzle-engine/index.ts:208-215 | `getAdjacentSegmentIndexPairs`: the cells above, right, below and left, each of which sees this cell in the opposite direction (Engine.AdjacentPairsFaceBack) |
| Engine.Invert | processing/src/lib/puzzle-engine/index.ts:228-236 | a key asks for a socket and a socket for a key; an edge stays an edge and nothing else becomes one |
| Engine.InvertTwice | processing/src/lib/puzzle-engine/index.ts:228-236 | inverting a side twice gives it back |
| Engine.GenerateSideConfig | processing/src/lib/puzzle-engine/index.ts:217-238 | one requirement per neighbour, in order: an edge off the grid, the counterpart of a placed neighbour's facing side, anything but an edge otherwise |
| Engine.MatchSides | processing/src/lib/puzzle-engine/index.ts:240-251 | the loop accepts exactly when every position of the requirement is met |
| Engine.MatchesMeaning | processing/src/lib/puzzle-engine/index.ts:240-251 | for side strings of equal length, a match means each requirement is met exactly, except X, which anything but an edge meets |
| Engine.Matching | processing/src/lib/puzzle-engine/index.ts:304-306 | the candidates are exactly the templates that match the requirement |
| Engine.FilterMatching | processing/src/lib/puzzle-engine/index.ts:304-306 | the filter loop keeps exactly the matching templates, in their order |
| Engine.RandomPiece | processing/src/lib/puzzle-engine/index.ts:253-255 | the piece drawn is one of the candidates |
| Engine.InterlockSnoc | processing/src/lib/puzzle-engine/index.ts:298-313 | a piece that locks with every piece placed before it keeps the puzzle interlocked |
| Engine.PlacedNextRow | processing/src/lib/puzzle-engine/index.ts:298-299 | when a row is finished, the loop's account carries over to the first cell of the next row |
| Engine.Requirements | processing/src/lib/puzzle-engine/index.ts:300-302 | when cells are placed row by row, a cell's requirements are an edge on the border, X below and to the right inside the grid, and a key or socket above and to the left |
| Engine.CandidateExists | processing/src/lib/puzzle-engine/index.ts:304-308 | some template always fits, so the candidate list is never empty |
| Engine.FittingPiece | processing/src/lib/puzzle-engine/index.ts:304-312 | a fitting template is an edge exactly on the puzzle's border and locks with every piece placed before it |
| Engine.PuzzleEngine.constructor | processing/src/lib/puzzle-engine/index.ts:29-32 | the options are stored, generation is not done, the sheet is sized rows and columns of projected pieces, and all 81 templates are listed |
| Engine.PuzzleEngine.CreatePuzzlePiece | processing/src/lib/puzzle-engine/index.ts:257-288 | the piece's image goes into the sheet's next slot; at capacity the error "The spritesheet is at capacity", otherwise the piece record at its row and column, numbered row times columns plus column |
| Engine.PuzzleEngine.DrawPiece | processing/src/lib/puzzle-engine/index.ts:257-288 | on a sheet sized for the puzzle, the piece of cell (i, j) is always created, its image lands in the cell's slot and the cursor moves to the next cell |
| Engine.PuzzleEngine.ChoosePiece | processing/src/lib/puzzle-engine/index.ts:300-308 | the chosen template is finished and matches the cell's requirements |
| Engine.PuzzleEngine.PlaceSegment | processing/src/lib/puzzle-engine/index.ts:300-312 | one cell is chosen, recorded in the grid and drawn, and the loop's account moves one cell on |
| Engine.PuzzleEngine.GeneratePuzzle | processing/src/lib/puzzle-engine/index.ts:290-319 | one piece per cell in row-major order, each at its row and column and numbered by it, an edge exactly on the border, every inner border a key against a socket, every image in its piece's slot on the sheet, and generation done |
| Engine.PuzzleEngine.GetPuzzlesheet | processing/src/lib/puzzle-engine/index.ts:321-326 | before generation is done the error "The puzzle generation is not done yet"; afterwards the sheet's drawn images |
| Engine.CoversEveryCell | processing/src/lib/puzzle-engine/index.ts:298-313 | every cell of the grid has its piece, at index row times columns plus column |
| Engine.CellSlot | processing/src/lib/puzzle-engine/index.ts:278 | the sheet's slot for the cursor at a piece's cell is the piece's column and row times the projected size |
| Engine.DrawnAtSnoc | processing/src/lib/puzzle-engine/index.ts:278 | drawing the next piece at its own cell keeps every image in its piece's slot |
| Engine.PlacedStep | processing/src/lib/puzzle-engine/index.ts:310-312 | after the cell is written and the piece appended, the loop's account moves one cell on |
| PuzzleService.GetObjectName | puzzle/src/modules/puzzle/puzzle.service.ts:42-51 | an asset's object name lies in the folder named by the puzzle's id |
| PuzzleService.ObjectNameInjective | puzzle/src/modules/puzzle/puzzle.service.ts:42-51 | no two assets, of one puzzle or of two, share an object name |
| PuzzleService.SaveKeepsConsistent | puzzle/src/modules/puzzle/puzzle.service.ts:58-83 | saving a document whose title no other puzzle has and whose collaborators are listed once keeps titles unique and collaborator lists duplicate-free |
| PuzzleService.NewDoc | puzzle/src/modules/puzzle/puzzle.service.ts:66-81 | a new puzzle is created, unshared, owned by the caller, at version 0, with the requested title, size and visibility, and holds an invite key exactly when it is invite-only |
| PuzzleService.CreatedEventOf | puzzle/src/modules/puzzle/puzzle.service.ts:101-121 | the created event carries the saved puzzle's id, title, owner, status and visibility, and the object names of its three assets |
| PuzzleService.UpdatedEventOf | puzzle/src/modules/puzzle/puzzle.service.ts:195-202 | the `puzzle:updated` event: id, title, visibility, status, version and collaborators of the saved document, as PuzzleService.PuzzleStore.UpdatePuzzle publishes it |
| PuzzleService.Invites | puzzle/src/modules/puzzle/puzzle.service.ts:211-216 | the query `addCollaborator` runs: an invite-only puzzle holding that key; PuzzleService.PuzzleStore.AddCollaborator answers 404 exactly when none does |
| PuzzleService.Edit | puzzle/src/modules/puzzle/puzzle.service.ts:155-188 | the edit succeeds exactly for the owner, unless it would take a public puzzle out of public; a non-owner is forbidden; it sets title and visibility, takes the new invite key exactly when asked to on an invite-only puzzle, and changes nothing else |
| PuzzleService.EditIdempotent | puzzle/src/modules/puzzle/puzzle.service.ts:155-188 | repeating a successful edit with the same key gives the same document |
| PuzzleService.Without | puzzle/src/modules/puzzle/puzzle.service.ts:286-288 | the user removed is no longer listed, every other user stays listed exactly when listed before, and the list is unchanged exactly when the user was not in it |
| PuzzleService.WithoutKeepsNoDuplicates | puzzle/src/modules/puzzle/puzzle.service.ts:286-288 | removing a user from a duplicate-free list leaves it duplicate-free |
| PuzzleService.AppendNew | puzzle/src/modules/puzzle/puzzle.service.ts:228-231 | appending a user not yet listed keeps every collaborator listed once |
| PuzzleService.PuzzleStore.constructor | puzzle/src/modules/puzzle/puzzle.service.ts:27-36 | the store starts with no puzzles, no stored objects and nothing published |
| PuzzleService.PuzzleStore.CreatePuzzle | puzzle/src/modules/puzzle/puzzle.service.ts:53-124 | a title already in use is refused with 400 and nothing changes; otherwise the new document is saved, its thumbnail stored under its object name and the created event published; the collection stays consistent |
| PuzzleService.PuzzleStore.UpdatePuzzle | puzzle/src/modules/puzzle/puzzle.service.ts:138-208 | the corrected definition of the first "Findings" row: a missing puzzle gives 404; a title another puzzle has gives 400, which the code as written never does; otherwise the owner's edit, and a changed document is saved under the next version and published while an unchanged one is returned untouched; the collection stays consistent |
| PuzzleService.PuzzleStore.AddCollaborator | puzzle/src/modules/puzzle/puzzle.service.ts:210-245 | a key no invite-only puzzle holds gives 404; a user already listed gives 400; otherwise the user is appended, the puzzle saved under the next version and published; a failure changes nothing and the collection stays consistent |
| PuzzleService.PuzzleStore.RemoveCollaborator | puzzle/src/modules/puzzle/puzzle.service.ts:247-307 | neither owner nor listed collaborator is refused; a collaborator may remove only themselves; otherwise every occurrence of the user goes, and only a changed list is saved under the next version and published |
| PuzzleService.PuzzleStore.GetSingle | puzzle/src/modules/puzzle/puzzle.service.ts:378-415 | the puzzle is returned exactly when it exists, the caller is its owner or a collaborator, and processing is done; a non-member gets 404 |
| PuzzleService.TitleCheckAsWrittenNeverFires | puzzle/src/modules/puzzle/puzzle.service.ts:144-153 | the title check as written only runs when the title changes, and then never finds a clash |
| PuzzleService.TitleClashPassesAsWritten | puzzle/src/modules/puzzle/puzzle.service.ts:144-153 | renaming one puzzle to another puzzle's title passes the check as written |
| SyncPuzzles.CheckAccess | sync/src/modules/puzzle/puzzle.service.ts:81-110 | the corrected definition of the third "Findings" row, with the owner test comparing ids: never a refusal disguised as false; a missing puzzle and a refusal give their messages; the owner and anyone on a public puzzle may join, nobody else on a private one, and on an invite-only puzzle exactly the owner and the collaborators |
| SyncPuzzles.CheckAccessAsWritten | sync/src/modules/puzzle/puzzle.service.ts:81-110 | as written, the owner test compares an ObjectId with a string and never holds: a puzzle is joined exactly when it is public, or invite-only with the user listed |
| SyncPuzzles.AsWrittenDiffersOnlyForOwner | sync/src/modules/puzzle/puzzle.service.ts:102 | the as-written and corrected decisions agree for every user but the owner, and the as-written one never admits more |
| SyncPuzzles.PrivateOwnerRefusedAsWritten | sync/src/modules/puzzle/puzzle.service.ts:102-109 | as written, the owner of a private puzzle is refused its room, where the corrected decision admits them |
| SyncPuzzles.CollaboratorsReturnWithInviteOnly | sync/src/modules/puzzle/puzzle.service.ts:88-100 | collaborators of a private puzzle are refused, and exactly they are let in again once it is invite-only |
| SyncPuzzles.ReplicaOf | sync/src/modules/puzzle/puzzle.service.ts:21-33 | the replica copies the event's title, owner, visibility and dimensions, with no collaborators, at version 0 |
| SyncPuzzles.ApplyUpdateAsWritten | sync/src/modules/puzzle/puzzle.service.ts:62-70 | the replica takes the event's title, visibility and collaborators, and its version rises only when one of them changed |
| SyncPuzzles.ApplyUpdate | sync/src/modules/puzzle/puzzle.service.ts:62-70 | the replica takes the event's title, visibility, collaborators and version, and keeps its owner and dimensions |
| SyncPuzzles.ReplicaStartsInStep | sync/src/modules/puzzle/puzzle.service.ts:21-33 | the replica of a newly created puzzle mirrors the saved document |
| SyncPuzzles.ReplicaFollowsSave | sync/src/modules/puzzle/puzzle.service.ts:50-67 | a replica in step with a document accepts the event of the document's next save and mirrors the saved document afterwards |
| SyncPuzzles.InviteKeyOnlyUpdateStallsReplica | sync/src/modules/puzzle/puzzle.service.ts:50-70 | as written, an update that only regenerates the invite key leaves the replica one version behind, so the gate refuses the next update |
| SyncPuzzles.SaveKeepsTitlesUnique | sync/src/modules/puzzle/puzzle.service.ts:35-41 | saving a replica under a title no other replica has keeps titles unique |
| SyncPuzzles.ReplicaStore.constructor | sync/src/modules/puzzle/puzzle.service.ts:14-19 | the replica collection starts empty |
| SyncPuzzles.ReplicaStore.CreatePuzzle | sync/src/modules/puzzle/puzzle.service.ts:21-42 | the replica is saved exactly when neither its id nor its title is taken, the result says whether, and titles stay unique |
| SyncPuzzles.ReplicaStore.UpdatePuzzle | sync/src/modules/puzzle/puzzle.service.ts:44-79 | the corrected definition of the second "Findings" row, through `ApplyUpdate`: the replica takes the event's fields and its version; the update applies exactly when the replica exists one version behind the event and the title is free; otherwise nothing changes and the result is false; titles stay unique |
| SyncPuzzles.ReplicaStore.WsCheckAccess | sync/src/modules/puzzle/puzzle.service.ts:81-110 | the corrected decision on the stored replica: a success is always true, and the missing-puzzle error comes exactly when no replica has the id |
| SyncPuzzles.SecondDeliveryRefused | sync/src/modules/puzzle/puzzle.service.ts:50-53 | an update delivered twice is refused the second time |
| ErrorMessage.EnsureErrorMessage | client/src/shared/helpers/ensureErrorMessage.ts:1-9 | a falsy message gives "Something went wrong"; an array gives its first element, undefined when empty; any other truthy message is returned as it is |
| ErrorMessage.EmptyArrayYieldsUndefined | client/src/shared/helpers/ensureErrorMessage.ts:1-9 | an empty array is truthy, so it yields undefined rather than the fallback text |
| ErrorMessage.TextStaysText | client/src/shared/helpers/ensureErrorMessage.ts:1-9 | a string message, or an array whose first element is a string, yields a string |
| ErrorMessage.Normalised | client/src/shared/helpers/ensureErrorMessage.ts:1-9 | normalising a truthy non-array result again changes nothing; an array holding an empty string yields a falsy result that a second pass turns into the fallback |

## Left out

- Redis, MongoDB, MinIO and NATS are not modelled as services. A room's stream is a sequence of `(id, payload)` entries, a collection is a map of documents, stored objects are a list of names, and published events are a list the store appends to. Connection failures and the asynchronous scheduling of these calls are not modelled.
- The canvas is not modelled: pixels, clip paths, the arc generator of the piece outline, image scaling and `toBuffer`'s WebP encoding. The sheet records the point at which each image is drawn, and `GetPuzzlesheet` returns that list.
- Positions and sizes are exact reals, and JavaScript numbers elsewhere are unbounded integers. Floating-point rounding in the overlap test and the cursor arithmetic is not modelled.
- Actions.FromString: a line of a known kind whose id, x or y is not an integer decodes to `None`. The source passes the NaN from `parseInt` to the constructor and returns an action holding NaN. The model's numbers are integers and have no NaN; every action the model writes decodes back to itself (Actions.FromStringToString).
- Actions.JoinNeedsGid: a join line with only four parts decodes to no action here. The source reads the missing fifth part as `undefined`, builds a join whose gid is undefined and applies it. Lines written by `recordAction` always have five parts for a join, and the model has no undefined number.
- SnapshotService.Decode: a line of a known kind with a field that is not an integer decodes to no action. The source builds an action holding NaN and applies it.
- The JSON text of `stringify` and its parsing when the snapshot is read back are not modelled. `Stringify` yields the pieces and groups as a value, so the round trip through the store is the identity by construction.
- The DOM, rendering, audio, mouse and drag handlers, and the progress display of the client are left out. Only the state they change is modelled.
- Randomness is a free choice or a parameter. `randomPiece` picks any candidate. Initial piece positions are the `initial` parameter of `CreateSandbox`. Invite keys and document ids are parameters of the service methods.
- Engine.RandomPiece: requires a non-empty candidate list. `CandidateExists` proves that generation never passes an empty one.
- Engine.PuzzleEngine.GeneratePuzzle: requires a fresh engine and a positive piece size, and takes rows and columns as natural numbers. With a zero size the source's sheet cursor wraps after every image, and the slot property is stated only for positive sizes.
- Grid.PuzzleGrid.GetSegment: requires a cell inside the grid. The source only reads cells it has checked are in bounds.
- PuzzleService.PuzzleStore.CreatePuzzle: requires an id not yet in the collection. The database assigns fresh ids.
- PuzzleManager.PuzzleManager.CreateSandbox: requires an empty board, as on first load. The source assigns its piece list after restoring progress; the model does so before, which is equivalent because restoring never reads that list.
- PuzzleManager.PuzzleManager.HandlePuzzleMove: requires the id to name a piece. The source throws on an unknown id.
- PuzzleManager.PuzzleManager.HandleGroupMove: requires the id to name a group. The source throws on an unknown id.
- PuzzleManager.PuzzleManager.HandlePuzzleJoin: requires the ids to name a placed piece and a group. The source throws otherwise.
- PuzzleManager.PuzzleManager.AddLock: requires a piece id that is new to the locks to name a piece. The source throws otherwise.
- Replay.StepLine: a join of a piece that has no position stops the replay before any change. The source has already stored the piece in the group when it throws.
- Replay.StepLine: a missing or non-numeric field of a known kind stops the replay. The source carries NaN into the position and goes on.
- The replay's delay between actions is not modelled. Replay runs the log to its end or to the first line it cannot apply.
- The uniqueness of invite keys across puzzles is not modelled. `AddCollaborator` takes any puzzle that the key opens.
- `updatePuzzleProcessingState` and the list queries of the puzzle service (public, own and shared puzzles) are not modelled. They are reads or a single field write with no decision logic.
- SyncPuzzles.ReplicaStore.CreatePuzzle: a save fails only on a repeated id or title, the schema's unique indexes. Other database failures are not modelled.
- The request validation of the DTOs, authentication and token handling are not modelled.

## Findings

| source | as written | input that shows it | evidently intended | confidence | as-written member | corrected member |
|---|---|---|---|---|---|---|
| puzzle/src/modules/puzzle/puzzle.service.ts:144-153 | on a rename, the title check looks for a puzzle with this puzzle's own id and the new title, which cannot exist | puzzles `a` titled `x` and `b` titled `y`, owner renames `a` to `y`: the check passes and the save then fails on the unique index, not with the 400 "title already exists" | refuse the rename when another puzzle has the new title | not executed | PuzzleService.TitleClashPassesAsWritten | PuzzleService.PuzzleStore.UpdatePuzzle |
| sync/src/modules/puzzle/puzzle.service.ts:50-70 | the replica is saved only when a field it keeps changes, so its version does not follow an update that only regenerates the invite key | an invite-only puzzle at version 0 whose owner regenerates the key: the event says version 1, the replica stays at 0 and refuses the update with version 2 | the replica takes the version of each event it applies | not executed; depends on the document store skipping the save of an unmodified document | SyncPuzzles.InviteKeyOnlyUpdateStallsReplica | SyncPuzzles.ReplicaFollowsSave, SyncPuzzles.ReplicaStore.UpdatePuzzle |
| sync/src/modules/puzzle/puzzle.service.ts:102 | `puzzle.owner === user.id` compares the owner, an ObjectId by the schema (sync/src/modules/puzzle/schemas/puzzle.schema.ts:38-39), with the token's string id, which is never strictly equal | the owner of a private puzzle joins its room: refused with "You do not have permission to access this puzzle"; likewise the owner of an invite-only puzzle who is not listed as a collaborator | the owner may always join | not executed; depends on the document found by `findById` holding `owner` as an ObjectId | SyncPuzzles.PrivateOwnerRefusedAsWritten | SyncPuzzles.CheckAccess |
