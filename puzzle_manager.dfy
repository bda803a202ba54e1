/**
 * The client-side board: every piece and every group object, the group-id
 * counter, the progress counter, the locks, and the events handed to the
 * registered handler. Pieces live in an array indexed by their id; group
 * objects live in an arena and a piece refers to its group by the group's
 * place in the arena, so two pieces share a group exactly when they hold
 * the same handle.
 */
module PuzzleManager {
  import opened Wrappers
  import opened Text
  import opened PuzzleSide
  import opened PuzzleCollider
  import opened Puzzle
  import opened PuzzleGroup
  import opened Board
  import opened MergeWalk
  import opened Restore
  import opened Actions
  import opened Replay

  /** The events the board hands to the handler, with their payloads. */
  datatype Event =
    | PuzzleCreated(id: int, at: Position)
    | GroupCreated(id: int, at: Position)
    | PuzzleJoined(id: int, at: Position, gid: int)

  /** The entries of a `PuzzleSpec` that `buildObjects` reads. */
  datatype SpecPiece = SpecPiece(idx: int, sides: string)
  datatype PuzzleSpec = PuzzleSpec(requestedPieceSize: real, pieceSizeAfterGeneration: real,
                                   numberOfRows: int, numberOfColumns: int, pieces: seq<SpecPiece>)

  /** The board's scalar fields, compared as one value where an operation leaves them alone. */
  datatype Bookkeeping = Bookkeeping(propagateEvents: bool, hasHandler: bool, selectedPieceId: Option<int>,
                                     metadata: Option<Metadata>, groups: seq<nat>,
                                     nPiecesConnected: int, lastGroupId: int, locks: map<int, string>)

  /** JavaScript `%` on integers: the remainder takes the sign of the dividend. */
  function JsRem(a: int, b: int): (r: int)
    requires b > 0
    ensures a >= 0 ==> 0 <= r < b
    ensures a == (if a >= 0 then a / b else -((-a) / b)) * b + r
  {
    if a >= 0 then a % b else -((-a) % b)
  }

  /** The piece `buildObjects` makes from a spec entry. */
  function BuildPiece(p: SpecPiece, numberOfColumns: int, position: Option<Position>): (piece: Piece)
    requires numberOfColumns > 0
    ensures piece.data.idx == p.idx && piece.data.sides == p.sides && piece.position == position && piece.group.None?
    ensures p.idx >= 0 ==> piece.data.row * numberOfColumns + piece.data.column == p.idx
                           && 0 <= piece.data.column < numberOfColumns
  {
    Piece(PieceSpec(p.idx, p.sides, p.idx / numberOfColumns, JsRem(p.idx, numberOfColumns)), position, None)
  }

  /** A piece's cell lies in its row and column: `row * columns + column == idx` with `0 <= column < columns`. */
  lemma BuildPieceCell(p: SpecPiece, numberOfColumns: int, position: Option<Position>)
    requires numberOfColumns > 0 && p.idx >= 0
    ensures var d := BuildPiece(p, numberOfColumns, position).data;
            d.row * numberOfColumns + d.column == p.idx && 0 <= d.column < numberOfColumns && d.row >= 0
  {
  }

  /** The pieces `buildObjects` makes, in spec order: at the given spots when new, without a position otherwise. */
  function Built(spec: PuzzleSpec, isNew: bool, initial: seq<Position>): seq<Piece>
    requires spec.numberOfColumns > 0 && (isNew ==> |initial| == |spec.pieces|)
  {
    seq(|spec.pieces|, i requires 0 <= i < |spec.pieces| =>
      BuildPiece(spec.pieces[i], spec.numberOfColumns, if isNew then Some(initial[i]) else None))
  }

  /** The announcements of the first `n` new pieces. */
  function CreatedEvents(spec: PuzzleSpec, initial: seq<Position>, n: nat): seq<Event>
    requires n <= |spec.pieces| && n <= |initial|
  {
    seq(n, i requires 0 <= i < n => PuzzleCreated(spec.pieces[i].idx, initial[i]))
  }

  /** Every listed key names a piece that has a position. */
  predicate Placed(keys: seq<nat>, pieces: seq<Piece>) {
    forall j :: 0 <= j < |keys| ==> keys[j] < |pieces| && pieces[keys[j]].position.Some?
  }

  /** The join events `add` emits for the given pieces, in order. */
  function JoinEvents(keys: seq<nat>, pieces: seq<Piece>, gid: int): (es: seq<Event>)
    requires Placed(keys, pieces)
    ensures |es| == |keys|
    decreases |keys|
  {
    if keys == [] then []
    else [PuzzleJoined(pieces[keys[0]].data.idx, pieces[keys[0]].position.value, gid)]
         + JoinEvents(keys[1..], pieces, gid)
  }

  /** The `j`-th join event announces the `j`-th piece, where it is, and the group's id. */
  lemma {:induction false} JoinEventsAt(keys: seq<nat>, pieces: seq<Piece>, gid: int, j: nat)
    requires Placed(keys, pieces) && j < |keys|
    ensures JoinEvents(keys, pieces, gid)[j]
            == PuzzleJoined(pieces[keys[j]].data.idx, pieces[keys[j]].position.value, gid)
    decreases j
  {
    if j > 0 {
      JoinEventsAt(keys[1..], pieces, gid, j - 1);
    }
  }

  lemma JoinEventsSnoc(keys: seq<nat>, n: nat, pieces: seq<Piece>, gid: int)
    requires Placed(keys, pieces) && n < |keys|
    ensures Placed(keys[..n], pieces) && Placed(keys[..n + 1], pieces)
    ensures JoinEvents(keys[..n + 1], pieces, gid)
            == JoinEvents(keys[..n], pieces, gid) + [PuzzleJoined(pieces[keys[n]].data.idx, pieces[keys[n]].position.value, gid)]
  {
    var l := JoinEvents(keys[..n + 1], pieces, gid);
    var r := JoinEvents(keys[..n], pieces, gid) + [PuzzleJoined(pieces[keys[n]].data.idx, pieces[keys[n]].position.value, gid)];
    assert |l| == |r|;
    forall j | 0 <= j < |l|
      ensures l[j] == r[j]
    {
      assert keys[..n + 1][j] == keys[j];
      JoinEventsAt(keys[..n + 1], pieces, gid, j);
      if j < n {
        JoinEventsAt(keys[..n], pieces, gid, j);
      }
    }
  }

  /** The pieces after every key of `keys` has joined group `h`. */
  function Joined(pieces: seq<Piece>, keys: seq<nat>, h: nat): seq<Piece>
  {
    seq(|pieces|, q requires 0 <= q < |pieces| => if q in keys then pieces[q].(group := Some(h)) else pieces[q])
  }

  /** Joining a group takes no position away. */
  lemma JoinedLaid(pieces: seq<Piece>, keys: seq<nat>, h: nat)
    requires Laid(pieces)
    ensures Laid(Joined(pieces, keys, h))
  {
    JoinedAt(pieces, keys, h);
  }

  /** Replacing the group just appended is appending the replacement. */
  lemma AppendUpdate(a: seq<Group>, g: Group, g': Group)
    ensures (a + [g])[|a| := g'] == a + [g']
  {
    assert forall k | 0 <= k < |a| + 1 :: (a + [g])[|a| := g'][k] == (a + [g'])[k];
  }

  lemma JoinedOne(pieces: seq<Piece>, k: nat, h: nat)
    requires k < |pieces|
    ensures Joined(pieces, [k], h) == pieces[k := pieces[k].(group := Some(h))]
  {
    JoinedAt(pieces, [k], h);
  }

  /** A joined piece shows at its own position translated by its new group's position; the others do not move. */
  lemma JoinedAbs(moved: seq<Piece>, arena: seq<Group>, keys: seq<nat>, h: nat, i: nat)
    requires i < |moved| && h < |arena| && moved[i].position.Some?
    requires i !in keys ==> (moved[i].group.Some? ==> moved[i].group.value < |arena|)
    ensures i < |Joined(moved, keys, h)| && Joined(moved, keys, h)[i].position == moved[i].position
    ensures i in keys ==> AbsOf(Joined(moved, keys, h), arena, i)
                          == Translate(arena[h].position, moved[i].position.value.x, moved[i].position.value.y)
    ensures i !in keys ==> AbsOf(Joined(moved, keys, h), arena, i) == AbsOf(moved, arena, i)
  {
  }

  /**
   * After a merge into group `h`: the moved piece `v`, a member, shows one
   * step from `u`, which stayed where it was in `h`.
   */
  lemma MergedAdjacent(moved: seq<Piece>, walked: seq<Piece>, arena: seq<Group>, keys: seq<nat>, h: nat,
                       u: nat, v: nat, d: Direction, size: real)
    requires u < |walked| && v < |walked| && h < |arena| && u !in keys && v in keys
    requires u < |moved| && v < |moved| && walked[u] == moved[u] && walked[v] == moved[v]
    requires moved[u].group == Some(h) && moved[u].position.Some?
    requires moved[v].position == Some(Step(moved[u].position.value, d, size))
    ensures Joined(walked, keys, h)[u].group == Joined(walked, keys, h)[v].group == Some(h)
    ensures AbsOf(Joined(walked, keys, h), arena, v) == Step(AbsOf(Joined(walked, keys, h), arena, u), d, size)
  {
    JoinedAbs(walked, arena, keys, h, u);
    JoinedAbs(walked, arena, keys, h, v);
    StepTranslate(arena[h].position, moved[u].position.value, d, size);
  }

  /** Exactly the listed pieces point to the group; nothing else about any piece changes. */
  lemma JoinedAt(pieces: seq<Piece>, keys: seq<nat>, h: nat)
    ensures |Joined(pieces, keys, h)| == |pieces|
    ensures forall q :: 0 <= q < |pieces| ==>
              Joined(pieces, keys, h)[q] == if q in keys then pieces[q].(group := Some(h)) else pieces[q]
  {
  }

  lemma JoinedSnoc(pieces: seq<Piece>, keys: seq<nat>, n: nat, h: nat)
    requires n < |keys| && keys[n] < |pieces|
    ensures Joined(pieces, keys[..n + 1], h) == Joined(pieces, keys[..n], h)[keys[n] := pieces[keys[n]].(group := Some(h))]
  {
    var k := keys[n];
    var l := Joined(pieces, keys[..n + 1], h);
    var r := Joined(pieces, keys[..n], h)[k := pieces[k].(group := Some(h))];
    JoinedAt(pieces, keys[..n + 1], h);
    JoinedAt(pieces, keys[..n], h);
    assert keys[..n + 1] == keys[..n] + [k];
    forall q | 0 <= q < |l|
      ensures l[q] == r[q]
    {
      assert q in keys[..n] + [k] <==> q in keys[..n] || q == k;
    }
  }

  /** The arena, pieces and events of `add` after the first `n` pieces of `ks` joined group `h`. */
  ghost predicate AddedState(arena: seq<Group>, pieces: seq<Piece>, events: seq<Event>, h: nat, ks: seq<nat>, n: nat,
                             p0: seq<Piece>, a0: seq<Group>, e0: seq<Event>, emits: bool)
  {
    h < |a0| && n <= |ks| && Placed(ks, p0) && Placed(ks[..n], p0)
    && arena == a0[h := a0[h].(puzzles := MapSetAll(a0[h].puzzles, ks[..n]))]
    && pieces == Joined(p0, ks[..n], h)
    && events == e0 + (if emits then JoinEvents(ks[..n], p0, a0[h].id) else [])
  }

  lemma AddedStateAt(arena: seq<Group>, pieces: seq<Piece>, events: seq<Event>, h: nat, ks: seq<nat>, n: nat,
                     p0: seq<Piece>, a0: seq<Group>, e0: seq<Event>, emits: bool)
    requires AddedState(arena, pieces, events, h, ks, n, p0, a0, e0, emits) && n < |ks|
    ensures h < |arena| && ks[n] < |pieces| && pieces[ks[n]].position.Some?
  {
    JoinedAt(p0, ks[..n], h);
  }

  /** Joining the next piece, as `Join` does it, extends the state of `add` by one piece. */
  lemma AddedStateNext(a1: seq<Group>, p1: seq<Piece>, e1: seq<Event>, a2: seq<Group>, p2: seq<Piece>, e2: seq<Event>,
                       h: nat, ks: seq<nat>, n: nat, p0: seq<Piece>, a0: seq<Group>, e0: seq<Event>, emits: bool)
    requires AddedState(a1, p1, e1, h, ks, n, p0, a0, e0, emits) && n < |ks|
    requires h < |a1| && ks[n] < |p1| && p1[ks[n]].position.Some?
    requires a2 == a1[h := a1[h].(puzzles := MapSet(a1[h].puzzles, ks[n]))]
    requires p2 == p1[ks[n] := p1[ks[n]].(group := Some(h))]
    requires e2 == e1 + (if emits then [PuzzleJoined(p1[ks[n]].data.idx, p1[ks[n]].position.value, a1[h].id)] else [])
    ensures AddedState(a2, p2, e2, h, ks, n + 1, p0, a0, e0, emits)
  {
    var k := ks[n];
    assert ks[..n + 1] == ks[..n] + [k];
    JoinedKeepsPlace(p0, ks[..n], h, k);
    AddedArenaNext(a1, a2, h, ks, n, a0);
    AddedPiecesNext(p1, p2, h, ks, n, p0);
    AddedEventsNext(e1, e2, ks, n, p0, a0[h].id, e0, emits);
  }

  /** Joining keeps a piece's data and position. */
  lemma JoinedKeepsPlace(pieces: seq<Piece>, keys: seq<nat>, h: nat, q: nat)
    requires q < |pieces|
    ensures |Joined(pieces, keys, h)| == |pieces|
    ensures Joined(pieces, keys, h)[q].data == pieces[q].data
    ensures Joined(pieces, keys, h)[q].position == pieces[q].position
  {
    JoinedAt(pieces, keys, h);
  }

  lemma AddedArenaNext(a1: seq<Group>, a2: seq<Group>, h: nat, ks: seq<nat>, n: nat, a0: seq<Group>)
    requires h < |a0| && n < |ks|
    requires a1 == a0[h := a0[h].(puzzles := MapSetAll(a0[h].puzzles, ks[..n]))]
    requires a2 == a1[h := a1[h].(puzzles := MapSet(a1[h].puzzles, ks[n]))]
    ensures a2 == a0[h := a0[h].(puzzles := MapSetAll(a0[h].puzzles, ks[..n + 1]))]
  {
    var m := MapSetAll(a0[h].puzzles, ks[..n]);
    assert a1[h].puzzles == m;
    assert ks[..n + 1] == ks[..n] + [ks[n]];
    MapSetAllSnoc(a0[h].puzzles, ks[..n], ks[n]);
    GroupRewritten(a0, a1, a2, h, m, MapSet(m, ks[n]));
  }

  /** Rewriting one group's pieces twice leaves the second list. */
  lemma GroupRewritten(a0: seq<Group>, a1: seq<Group>, a2: seq<Group>, h: nat, m1: seq<nat>, m2: seq<nat>)
    requires h < |a0| && a1 == a0[h := a0[h].(puzzles := m1)] && a2 == a1[h := a1[h].(puzzles := m2)]
    ensures a2 == a0[h := a0[h].(puzzles := m2)]
  {
    var once := a0[h := a0[h].(puzzles := m2)];
    assert forall k | 0 <= k < |a0| :: a2[k] == once[k];
  }

  lemma AddedPiecesNext(p1: seq<Piece>, p2: seq<Piece>, h: nat, ks: seq<nat>, n: nat, p0: seq<Piece>)
    requires n < |ks| && ks[n] < |p0|
    requires p1 == Joined(p0, ks[..n], h)
    requires p2 == p1[ks[n] := p1[ks[n]].(group := Some(h))]
    ensures p2 == Joined(p0, ks[..n + 1], h)
  {
    JoinedSnoc(p0, ks, n, h);
    JoinedAt(p0, ks[..n], h);
    assert p1[ks[n]].(group := Some(h)) == p0[ks[n]].(group := Some(h));
  }

  lemma AddedEventsNext(e1: seq<Event>, e2: seq<Event>, ks: seq<nat>, n: nat, p0: seq<Piece>, gid: int, e0: seq<Event>, emits: bool)
    requires n < |ks| && Placed(ks, p0) && Placed(ks[..n], p0)
    requires e1 == e0 + (if emits then JoinEvents(ks[..n], p0, gid) else [])
    requires e2 == e1 + (if emits then [PuzzleJoined(p0[ks[n]].data.idx, p0[ks[n]].position.value, gid)] else [])
    ensures Placed(ks[..n + 1], p0)
    ensures e2 == e0 + (if emits then JoinEvents(ks[..n + 1], p0, gid) else [])
  {
    JoinEventsSnoc(ks, n, p0, gid);
    if emits {
      var done := JoinEvents(ks[..n], p0, gid);
      assert e2 == e0 + (done + [PuzzleJoined(p0[ks[n]].data.idx, p0[ks[n]].position.value, gid)]);
    }
  }

  /** The locks after `addLock`: the first holder of a piece keeps it. */
  function AddLockTo(locks: map<int, string>, pieceId: int, username: string): (r: map<int, string>)
    ensures r.Keys == locks.Keys + {pieceId}
    ensures forall k :: k in locks ==> r[k] == locks[k]
    ensures pieceId !in locks ==> r[pieceId] == username
  {
    if pieceId in locks then locks else locks[pieceId := username]
  }

  /** The locks after `removeLock`. */
  function RemoveLockFrom(locks: map<int, string>, pieceId: int): (r: map<int, string>)
    ensures r.Keys == locks.Keys - {pieceId}
    ensures forall k :: k in r ==> r[k] == locks[k]
  {
    if pieceId in locks then locks - {pieceId} else locks
  }

  /**
   * A lock is held by whoever took it first: a second `addLock` changes
   * nothing, and `removeLock` frees the piece for the next taker.
   */
  lemma LocksFirstHolderWins(locks: map<int, string>, pieceId: int, first: string, second: string)
    ensures AddLockTo(AddLockTo(locks, pieceId, first), pieceId, second) == AddLockTo(locks, pieceId, first)
    ensures pieceId !in locks ==> AddLockTo(locks, pieceId, first)[pieceId] == first
    ensures pieceId in AddLockTo(locks, pieceId, first)
    ensures pieceId !in RemoveLockFrom(locks, pieceId)
    ensures forall q :: q != pieceId ==>
              (q in RemoveLockFrom(locks, pieceId) <==> q in locks)
              && (q in AddLockTo(locks, pieceId, first) <==> q in locks)
  {
  }

  /** Taking a free piece's lock and releasing it restores the locks. */
  lemma LockRoundTrip(locks: map<int, string>, pieceId: int, username: string)
    requires pieceId !in locks
    ensures RemoveLockFrom(AddLockTo(locks, pieceId, username), pieceId) == locks
  {
    assert RemoveLockFrom(AddLockTo(locks, pieceId, username), pieceId).Keys == locks.Keys;
  }

  /** Pieces `q` and `r` are in one group object. */
  predicate Grouped(pieces: seq<Piece>, q: int, r: int) {
    0 <= q < |pieces| && 0 <= r < |pieces| && pieces[q].group.Some? && pieces[q].group == pieces[r].group
  }

  /**
   * The account `matchAndConnect` keeps after checking the first `i`
   * candidates from board `p0`, `a0`, `e0`: `hits` are the candidates
   * connected, in order, each now in the selected piece's group; while none
   * is, the board is untouched and none of the checked ones snapped; the
   * first hit snapped on the starting board; a failed connect stops the
   * loop only after some candidate snapped.
   */
  ghost predicate MatchProgress(pieces: seq<Piece>, arena: seq<Group>, events: seq<Event>, sel: nat,
                                cands: seq<Candidate>, size: real, i: nat, ok: bool, hits: seq<nat>,
                                p0: seq<Piece>, a0: seq<Group>, e0: seq<Event>)
  {
    i <= 4 && |cands| == 4 && sel < |p0| && |pieces| == |p0|
    && |hits| <= i && (forall j :: 0 <= j < |hits| ==> hits[j] < i)
    && (forall j, j' :: 0 <= j < j' < |hits| ==> hits[j] < hits[j'])
    && (ok ==> forall j :: 0 <= j < |hits| ==> Grouped(pieces, cands[hits[j]].idx, sel))
    && (ok && hits == [] ==>
          pieces == p0 && arena == a0 && events == e0 && forall j :: 0 <= j < i ==> !Snaps(p0, a0, size, sel, cands[j]))
    && (hits != [] ==> Snaps(p0, a0, size, sel, cands[hits[0]]))
    && (!ok ==> hits != [] || exists j :: 0 <= j < i && Snaps(p0, a0, size, sel, cands[j]))
  }

  /** A candidate that does not snap is passed over. */
  lemma ProgressSkip(pieces: seq<Piece>, arena: seq<Group>, events: seq<Event>, sel: nat,
                     cands: seq<Candidate>, size: real, i: nat, hits: seq<nat>,
                     p0: seq<Piece>, a0: seq<Group>, e0: seq<Event>)
    requires i < 4 && MatchProgress(pieces, arena, events, sel, cands, size, i, true, hits, p0, a0, e0)
    requires !Snaps(pieces, arena, size, sel, cands[i])
    ensures MatchProgress(pieces, arena, events, sel, cands, size, i + 1, true, hits, p0, a0, e0)
  {
    if hits == [] {
      assert forall j :: 0 <= j < i + 1 ==> !Snaps(p0, a0, size, sel, cands[j]);
    }
  }

  /**
   * A candidate that snaps is connected: when the connect succeeds it ends
   * in the selected piece's group and so do the earlier hits, which were in
   * the group that joined it.
   */
  lemma ProgressConnect(pieces: seq<Piece>, arena: seq<Group>, events: seq<Event>,
                        pieces': seq<Piece>, arena': seq<Group>, events': seq<Event>, sel: nat,
                        cands: seq<Candidate>, size: real, i: nat, ok: bool, hits: seq<nat>,
                        p0: seq<Piece>, a0: seq<Group>, e0: seq<Event>)
    requires i < 4 && MatchProgress(pieces, arena, events, sel, cands, size, i, true, hits, p0, a0, e0)
    requires Snaps(pieces, arena, size, sel, cands[i]) && |pieces'| == |pieces|
    requires ok ==> Grouped(pieces', cands[i].idx, sel)
    requires ok ==> forall q :: Grouped(pieces, q, sel) ==> Grouped(pieces', q, cands[i].idx)
    ensures MatchProgress(pieces', arena', events', sel, cands, size, i + 1, ok, if ok then hits + [i] else hits, p0, a0, e0)
  {
    var hits' := if ok then hits + [i] else hits;
    if ok {
      forall j | 0 <= j < |hits'| ensures Grouped(pieces', cands[hits'[j]].idx, sel) {
        if j < |hits| {
          assert Grouped(pieces, cands[hits[j]].idx, sel);
        }
      }
    }
    if hits == [] {
      assert Snaps(p0, a0, size, sel, cands[i]);
    }
  }

  /** When the loop of `matchAndConnect` ends, nothing was connected exactly when no candidate snapped. */
  lemma ProgressEnd(pieces: seq<Piece>, arena: seq<Group>, events: seq<Event>, sel: nat,
                    cands: seq<Candidate>, size: real, i: nat, ok: bool, hits: seq<nat>,
                    p0: seq<Piece>, a0: seq<Group>, e0: seq<Event>)
    requires MatchProgress(pieces, arena, events, sel, cands, size, i, ok, hits, p0, a0, e0) && (i == 4 || !ok)
    ensures ok && hits == [] <==> forall c :: c in cands ==> !Snaps(p0, a0, size, sel, c)
  {
    if ok && hits == [] {
      forall c | c in cands ensures !Snaps(p0, a0, size, sel, c) {
        var j :| 0 <= j < 4 && cands[j] == c;
      }
    } else if hits != [] {
      assert cands[hits[0]] in cands;
    } else {
      var j :| 0 <= j < i && Snaps(p0, a0, size, sel, cands[j]);
      assert cands[j] in cands;
    }
  }

  /** Piece `i` can be shown: it has a position and, if grouped, a group object. */
  predicate Showable(pieces: seq<Piece>, arena: seq<Group>, i: nat) {
    i < |pieces| && pieces[i].position.Some? && (pieces[i].group.Some? ==> pieces[i].group.value < |arena|)
  }

  /** Whether two grouped pieces belong to groups with the same id, the test `matchAndConnect` skips on. */
  predicate SameGroupId(pieces: seq<Piece>, arena: seq<Group>, i: nat, j: nat)
    requires Showable(pieces, arena, i) && Showable(pieces, arena, j)
  {
    pieces[i].group.Some? && pieces[j].group.Some?
    && arena[pieces[i].group.value].id == arena[pieces[j].group.value].id
  }

  /**
   * Whether `matchAndConnect` connects candidate `c` to the selected piece
   * `sel`: the candidate's index names a piece, the two are not in groups
   * with one id, and the candidate's zone at `c.side` overlaps the selected
   * piece's opposite zone, on absolute positions.
   */
  predicate Snaps(pieces: seq<Piece>, arena: seq<Group>, size: real, sel: nat, c: Candidate) {
    0 <= c.idx && Showable(pieces, arena, c.idx) && Showable(pieces, arena, sel)
    && !SameGroupId(pieces, arena, c.idx, sel)
    && IntersectsAtSide(size, c.side, AbsOf(pieces, arena, c.idx), AbsOf(pieces, arena, sel))
  }

  /**
   * On a laid-out board, a candidate snaps exactly when it names a piece
   * outside the selected piece's group id and the selected piece lies
   * within a third of a piece, on both axes, of the spot one piece-size
   * from the candidate at its side.
   */
  lemma SnapsNearSpot(pieces: seq<Piece>, arena: seq<Group>, size: real, sel: nat, c: Candidate)
    requires Laid(pieces) && HandlesOk(pieces, arena) && sel < |pieces| && c.side in SIDES
    ensures Snaps(pieces, arena, size, sel, c) <==>
              0 <= c.idx < |pieces| && !SameGroupId(pieces, arena, c.idx, sel)
              && var spot := Step(AbsOf(pieces, arena, c.idx), c.side.side, size);
                 var there := AbsOf(pieces, arena, sel);
                 Abs(there.x - spot.x) < size / 3.0 && Abs(there.y - spot.y) < size / 3.0
  {
    if 0 <= c.idx < |pieces| {
      SnapTolerance(size, c.side, AbsOf(pieces, arena, c.idx), AbsOf(pieces, arena, sel));
    }
  }

  class PuzzleManager {
    var propagateEvents: bool
    /** Whether `onEvent` registered a handler. */
    var hasHandler: bool
    /** Every event the handler received, oldest first. */
    var events: seq<Event>
    var selectedPieceId: Option<int>
    var metadata: Option<Metadata>
    var pieces: seq<Piece>
    /** `this.groups`: handles of the groups the board lists. */
    var groups: seq<nat>
    /** Every group object created so far, by handle. */
    var arena: seq<Group>
    var nPiecesConnected: int
    var lastGroupId: int
    var locks: map<int, string>

    function Book(): Bookkeeping
      reads this
    {
      Bookkeeping(propagateEvents, hasHandler, selectedPieceId, metadata, groups, nPiecesConnected, lastGroupId, locks)
    }

    /** Piece `i` carries id `i`; a grouped piece has a position and is a member of its group. */
    ghost predicate PieceOk(i: int)
      reads this`pieces, this`arena
      requires 0 <= i < |pieces|
    {
      pieces[i].data.idx == i
      && (pieces[i].group.Some? ==>
            pieces[i].group.value < |arena| && i in arena[pieces[i].group.value].puzzles
            && pieces[i].position.Some?)
    }

    /** Every member of a group is a piece with a position, listed once. */
    ghost predicate GroupOk(h: int)
      reads this`pieces, this`arena
      requires 0 <= h < |arena|
    {
      NoDuplicates(arena[h].puzzles)
      && forall k :: k in arena[h].puzzles ==> k < |pieces| && pieces[k].position.Some?
    }

    ghost predicate Valid()
      reads this`pieces, this`arena, this`groups, this`locks, this`metadata
    {
      (forall i {:trigger PieceOk(i)} :: 0 <= i < |pieces| ==> PieceOk(i))
      && (forall h {:trigger GroupOk(h)} :: 0 <= h < |arena| ==> GroupOk(h))
      && (forall j :: 0 <= j < |groups| ==> groups[j] < |arena|)
      && (forall k :: k in locks ==> 0 <= k < |pieces|)
      && (metadata.Some? ==> metadata.value.numOfColumns > 0)
    }

    /** Every piece has a position: the board has been laid out. */
    predicate AllPlaced()
      reads this
    {
      Laid(pieces)
    }

    predicate Ready()
      reads this
    {
      metadata.Some?
    }

    /** Whether `sendEvent` forwards: a handler is set and propagation is on. */
    predicate Emits()
      reads this
    {
      hasHandler && propagateEvents
    }

    constructor()
      ensures Valid() && !Ready()
      ensures pieces == [] && arena == [] && groups == [] && events == [] && locks == map[]
      ensures propagateEvents && !hasHandler && selectedPieceId.None?
      ensures nPiecesConnected == 1 && lastGroupId == 0
    {
      propagateEvents := true;
      hasHandler := false;
      events := [];
      selectedPieceId := None;
      metadata := None;
      pieces := [];
      groups := [];
      arena := [];
      nPiecesConnected := 1;
      lastGroupId := 0;
      locks := map[];
    }

    /** `sendEvent`: forward only when a handler is set and propagation is enabled. */
    method SendEvent(e: Event)
      requires Valid()
      modifies this
      ensures Valid()
      ensures events == old(events) + (if old(Emits()) then [e] else [])
      ensures pieces == old(pieces) && arena == old(arena) && Book() == old(Book())
    {
      if hasHandler && propagateEvents {
        events := events + [e];
      }
    }

    method OnEvent()
      modifies this
      ensures hasHandler
      ensures Book() == old(Book()).(hasHandler := true)
      ensures pieces == old(pieces) && arena == old(arena) && events == old(events)
    {
      hasHandler := true;
    }

    method EnableEventPropagation()
      modifies this
      ensures Book() == old(Book()).(propagateEvents := true)
      ensures pieces == old(pieces) && arena == old(arena) && events == old(events)
    {
      propagateEvents := true;
    }

    method DisableEventPropagation()
      modifies this
      ensures Book() == old(Book()).(propagateEvents := false)
      ensures pieces == old(pieces) && arena == old(arena) && events == old(events)
    {
      propagateEvents := false;
    }

    /** `restoreState`. */
    method RestoreState(last: int)
      modifies this
      ensures Book() == old(Book()).(lastGroupId := last)
      ensures pieces == old(pieces) && arena == old(arena) && events == old(events)
    {
      lastGroupId := last;
    }

    /** `increaseProgressBy`: add to the connected-pieces counter and return it. */
    method IncreaseProgressBy(nPieces: int) returns (total: int)
      modifies this
      ensures total == old(nPiecesConnected) + nPieces && nPiecesConnected == total
      ensures Book() == old(Book()).(nPiecesConnected := total)
      ensures pieces == old(pieces) && arena == old(arena) && events == old(events)
    {
      nPiecesConnected := nPiecesConnected + nPieces;
      total := nPiecesConnected;
    }

    /** `new PuzzleGroup(...)`: a group object with no members; a fresh one announces itself. */
    method NewGroup(id: int, position: Position, isFresh: bool) returns (h: nat)
      requires Valid()
      modifies this
      ensures Valid()
      ensures h == old(|arena|) && arena == old(arena) + [Group(id, position, [])]
      ensures pieces == old(pieces) && Book() == old(Book())
      ensures events == old(events) + (if isFresh && old(Emits()) then [GroupCreated(id, position)] else [])
    {
      h := |arena|;
      arena := arena + [Group(id, position, [])];
      assert forall i :: 0 <= i < |pieces| ==> PieceOk(i) by {
        forall i | 0 <= i < |pieces| ensures PieceOk(i) {
          assert old(PieceOk(i));
        }
      }
      assert forall g :: 0 <= g < |arena| ==> GroupOk(g) by {
        forall g | 0 <= g < |arena| ensures GroupOk(g) {
          if g < h {
            assert old(GroupOk(g));
          }
        }
      }
      assert Valid();
      if isFresh {
        SendEvent(GroupCreated(id, position));
      }
    }

    /**
     * `createPuzzleGroupAt`: a new group object with the current
     * `lastGroupId`, which then goes up by one; a fresh group announces
     * itself.
     */
    method CreatePuzzleGroupAt(position: Position, isFresh: bool) returns (h: nat)
      requires Valid()
      modifies this
      ensures Valid()
      ensures h == old(|arena|) && arena == old(arena) + [Group(old(lastGroupId), position, [])]
      ensures lastGroupId == old(lastGroupId) + 1
      ensures Book() == old(Book()).(lastGroupId := old(lastGroupId) + 1)
      ensures pieces == old(pieces)
      ensures events == old(events) + (if isFresh && old(Emits()) then [GroupCreated(old(lastGroupId), position)] else [])
    {
      var id := lastGroupId;
      lastGroupId := lastGroupId + 1;
      h := NewGroup(id, position, isFresh);
    }
  
    /** `adjustPosition` (and `setPosition`): the piece's position, relative to its group if it has one. */
    method AdjustPosition(i: nat, pos: Position)
      requires Valid() && i < |pieces|
      modifies this
      ensures Valid()
      ensures pieces == old(pieces)[i := old(pieces[i]).(position := Some(pos))]
      ensures arena == old(arena) && events == old(events) && Book() == old(Book())
    {
      pieces := pieces[i := pieces[i].(position := Some(pos))];
      forall q | 0 <= q < |pieces|
        ensures PieceOk(q)
      {
        assert old(PieceOk(q));
      }
      forall h | 0 <= h < |arena|
        ensures GroupOk(h)
      {
        assert old(GroupOk(h));
      }
    }

    /**
     * `puzzles.set(id, piece)` followed by `piece.joinGroup(group, emit)`:
     * the piece becomes a member of group `h` and points to it, and, when
     * `emit` is set, announces the join with its position and the group's id.
     */
    method Join(h: nat, k: nat, emit: bool)
      requires Valid() && h < |arena| && k < |pieces| && pieces[k].position.Some?
      modifies this
      ensures Valid()
      ensures arena == old(arena)[h := old(arena[h]).(puzzles := MapSet(old(arena[h].puzzles), k))]
      ensures pieces == old(pieces)[k := old(pieces[k]).(group := Some(h))]
      ensures events == old(events) + (if emit && old(Emits())
                                       then [PuzzleJoined(old(pieces[k].data.idx), old(pieces[k].position.value), old(arena[h].id))]
                                       else [])
      ensures Book() == old(Book())
    {
      var pos := pieces[k].position.value;
      arena := arena[h := arena[h].(puzzles := MapSet(arena[h].puzzles, k))];
      pieces := pieces[k := pieces[k].(group := Some(h))];
      forall q | 0 <= q < |pieces|
        ensures PieceOk(q)
      {
        assert old(PieceOk(q));
      }
      forall g | 0 <= g < |arena|
        ensures GroupOk(g)
      {
        assert old(GroupOk(g));
      }
      if emit {
        SendEvent(PuzzleJoined(pieces[k].data.idx, pos, arena[h].id));
      }
    }

    /** `add(...pieces)`: each piece in turn is set in the map and joins with an event. */
    method Add(h: nat, ks: seq<nat>)
      requires Valid() && h < |arena|
      requires Placed(ks, pieces)
      modifies this
      ensures Valid()
      ensures arena == old(arena)[h := old(arena[h]).(puzzles := MapSetAll(old(arena[h].puzzles), ks))]
      ensures pieces == Joined(old(pieces), ks, h)
      ensures events == old(events) + (if old(Emits()) then JoinEvents(ks, old(pieces), old(arena[h].id)) else [])
      ensures Book() == old(Book())
    {
      JoinedAt(pieces, [], h);
      assert ks[..0] == [];
      for j := 0 to |ks|
        invariant AddedSoFar(h, ks, j, old(pieces), old(arena), old(events), old(Book()))
      {
        AddNext(h, ks, j, old(pieces), old(arena), old(events), old(Book()));
      }
      assert ks[..|ks|] == ks;
    }

    /** The state of `add` once the first `n` pieces of `ks` have joined group `h`. */
    ghost predicate AddedSoFar(h: nat, ks: seq<nat>, n: nat, p0: seq<Piece>, a0: seq<Group>, e0: seq<Event>, b0: Bookkeeping)
      reads this
    {
      Valid() && Book() == b0
      && AddedState(arena, pieces, events, h, ks, n, p0, a0, e0, b0.hasHandler && b0.propagateEvents)
    }

    /** One step of `add`. */
    method AddNext(h: nat, ks: seq<nat>, n: nat, ghost p0: seq<Piece>, ghost a0: seq<Group>, ghost e0: seq<Event>, ghost b0: Bookkeeping)
      requires AddedSoFar(h, ks, n, p0, a0, e0, b0) && n < |ks|
      modifies this
      ensures AddedSoFar(h, ks, n + 1, p0, a0, e0, b0)
    {
      ghost var a1, p1, e1 := arena, pieces, events;
      AddedStateAt(a1, p1, e1, h, ks, n, p0, a0, e0, Emits());
      Join(h, ks[n], true);
      AddedStateNext(a1, p1, e1, arena, pieces, events, h, ks, n, p0, a0, e0, Emits());
    }

    /** What `merge` walks over: this board's groups and metadata, from piece `v`. */
    function WalkFrom(v: nat): Walk
      reads this
      requires Ready()
    {
      Walk(arena, metadata.value.numOfColumns, metadata.value.originalSize, v)
    }

    /** The manager's invariant gives the walk the board facts it relies on. */
    lemma CtxFromValid(v: nat)
      requires Valid() && Ready() && v < |pieces|
      ensures CtxOk(pieces, WalkFrom(v))
    {
      var w := WalkFrom(v);
      forall k | 0 <= k < |pieces|
        ensures pieces[k].data.idx == k
        ensures pieces[k].group.Some? ==>
                  pieces[k].position.Some? && pieces[k].group.value < |arena| && k in arena[pieces[k].group.value].puzzles
      {
        assert PieceOk(k);
      }
      forall h, k | 0 <= h < |arena| && k in arena[h].puzzles ensures k < |pieces| {
        assert GroupOk(h);
      }
    }

    /** The members of the walked group are placed pieces, so `add` may take them. */
    lemma MembersPlaced(p0: seq<Piece>, w: Walk)
      requires Valid() && CtxOk(p0, w) && w.arena == arena
      ensures Placed(Members(p0, w), pieces)
    {
      var ks := Members(p0, w);
      if ks != [] {
        var h := p0[w.v].group.value;
        assert ks == arena[h].puzzles;
        assert GroupOk(h);
        forall j | 0 <= j < |ks|
          ensures ks[j] < |pieces| && pieces[ks[j]].position.Some?
        {
          assert ks[j] in arena[h].puzzles;
        }
      }
    }

    /**
     * One turn of the outer loop of `merge`: take the first entry, move
     * its piece next to the neighbour on its back side, and queue the
     * neighbours not excluded yet. Either lookup may throw, which
     * `ok == false` stands for; nothing has moved then.
     */
    method Visit(w: Walk, queue: seq<Pending>, exclude: set<nat>, ghost done: set<nat>, ghost p0: seq<Piece>, ghost layout: seq<Position>)
      returns (ok: bool, queue': seq<Pending>, exclude': set<nat>, ghost done': set<nat>)
      requires Valid() && Ready() && w == WalkFrom(w.v)
      requires WalkInv(p0, w, layout, pieces, queue, exclude, done) && queue != []
      modifies this
      ensures Valid() && Book() == old(Book()) && arena == old(arena) && events == old(events)
      ensures Coherent(p0, w) ==> ok
      ensures !ok ==> pieces == old(pieces)
      ensures ok ==> WalkInv(p0, w, layout, pieces, queue', exclude', done')
      ensures ok ==> exclude <= exclude' && (exclude' == exclude ==> |queue'| < |queue|)
    {
      var e := queue[0];
      VisitPre(p0, w, layout, pieces, queue, exclude, done);
      ghost var p1 := pieces;
      queue', exclude', done' := queue, exclude, done;
      ok := MoveBack(w, e);
      if ok {
        assert PieceOk(e.piece);
        var scan := Neighbours(pieces, arena, w.cols, e.piece, SIDES);
        if scan.Success? {
          VisitPost(p0, w, layout, p1, queue, exclude, done, pieces, scan.value);
          queue', exclude' := PushUnseen(queue[1..], exclude, scan.value);
          done' := done + {e.piece};
        } else {
          ScanFailsUnmoved(p1, pieces, w, e);
          ok := false;
        }
      }
    }

    /**
     * The first half of a turn of `merge`: the neighbour on the back side
     * of entry `e` is looked up, and the piece moves one piece-size from
     * it when there is one. `ok == false` stands for the lookup throwing.
     */
    method MoveBack(w: Walk, e: Pending) returns (ok: bool)
      requires Valid() && Ready() && w == WalkFrom(w.v) && e.piece < |pieces| && Back(e.side).Some?
      modifies this
      ensures Valid() && Book() == old(Book()) && arena == old(arena) && events == old(events)
      ensures old(pieces[e.piece].group).Some? ==> ok
      ensures ok ==> Adjusted(old(pieces), pieces, w, e)
      ensures !ok ==> pieces == old(pieces)
    {
      assert PieceOk(e.piece);
      var back := NeighbourIn(pieces, arena, w.cols, e.piece, Back(e.side).value);
      if back.Failure? {
        return false;
      }
      if back.value.Some? {
        var b := back.value.value;
        assert GroupOk(pieces[e.piece].group.value);
        AdjustPosition(e.piece, Step(pieces[b].position.value, e.side.side, w.size));
      }
      ok := true;
    }

    /**
     * The walk of `merge(piece)`: visit `v`'s group breadth-first from
     * `v`, moving each piece one piece-size from the neighbour it was found
     * from. `layout` is any arrangement of the pieces that the links inside
     * `v`'s group respect; `reached` holds the pieces the walk placed. A
     * walk that fails leaves the board as it was at that point.
     */
    method WalkGroup(v: nat, ghost layout: seq<Position>) returns (ok: bool, ghost reached: set<nat>)
      requires Valid() && Ready() && v < |pieces|
      modifies this
      ensures Valid() && Book() == old(Book()) && arena == old(arena) && events == old(events) && old(PieceOk(v))
      ensures v in reached && |pieces| == old(|pieces|) && forall k :: k in reached ==> k < |pieces|
      ensures pieces[v] == old(pieces[v])
      ensures forall k :: 0 <= k < |pieces| ==>
                pieces[k].data == old(pieces[k].data) && pieces[k].group == old(pieces[k].group)
                && (k !in reached ==> pieces[k].position == old(pieces[k].position))
                && (old(pieces[k].position.Some?) ==> pieces[k].position.Some?)
      ensures ok ==> forall k, s :: k in reached && s in SIDES && FoundAt(old(pieces), old(WalkFrom(v)), k, s).Some? ==>
                       FoundAt(old(pieces), old(WalkFrom(v)), k, s).value in reached
      ensures old(Coherent(pieces, WalkFrom(v))) ==>
                ok && forall k :: k in reached ==> k in old(Members(pieces, WalkFrom(v)))
      ensures old(LinksAgree(pieces, WalkFrom(v), layout)) ==>
                forall k :: k in reached ==> k < |layout| && pieces[k].position == Some(Target(old(pieces[v].position.value), layout, v, k))
      ensures Placed(old(Members(pieces, WalkFrom(v))), pieces)
      ensures old(AllPlaced()) ==> AllPlaced()
    {
      ghost var p0 := pieces;
      var w := Walk(arena, metadata.value.numOfColumns, metadata.value.originalSize, v);
      CtxFromValid(v);
      assert PieceOk(v);
      reached := {v};
      var first := Neighbours(pieces, arena, w.cols, v, SIDES);
      ok := first.Success?;
      ghost var started := ok;
      var queue := if ok then first.value else [];
      var exclude: set<nat> := {v};
      if ok {
        WalkInit(p0, w, layout, queue);
      }
      while ok && queue != []
        invariant Valid() && Book() == old(Book()) && arena == old(arena) && events == old(events)
        invariant started ==> WalkInv(p0, w, layout, pieces, queue, exclude, reached)
        invariant !started ==> !ok && pieces == p0 && reached == {v}
        invariant Coherent(p0, w) ==> ok
        decreases ok, Remaining(|p0|, exclude), |queue|
      {
        var more, queue', exclude';
        ghost var done';
        more, queue', exclude', done' := Visit(w, queue, exclude, reached, p0, layout);
        if more {
          if exclude' != exclude {
            RemainingShrinks(|p0|, exclude, exclude');
          }
          queue, exclude, reached := queue', exclude', done';
        } else {
          ok := false;
        }
      }
      MembersPlaced(p0, w);
      if Laid(p0) {
        FrameLaid(p0, pieces, reached);
      }
    }

    /**
     * `merge(piece)`, for group `g` and piece `v`: the walk of `v`'s group
     * from `v`, then every member of `v`'s group moves into `g`. `walked`
     * is the board after the walk.
     */
    method Merge(g: nat, v: nat, ghost layout: seq<Position>) returns (ok: bool, ghost walked: seq<Piece>, ghost reached: set<nat>)
      requires Valid() && Ready() && g < |arena| && v < |pieces|
      modifies this
      ensures Valid() && Book() == old(Book()) && old(PieceOk(v))
      ensures v in reached && |walked| == old(|pieces|) && forall k :: k in reached ==> k < |walked|
      ensures walked[v] == old(pieces[v])
      ensures forall k :: 0 <= k < |walked| ==>
                walked[k].data == old(pieces[k].data) && walked[k].group == old(pieces[k].group)
                && (k !in reached ==> walked[k].position == old(pieces[k].position))
                && (old(pieces[k].position.Some?) ==> walked[k].position.Some?)
      ensures ok ==> forall k, s :: k in reached && s in SIDES && FoundAt(old(pieces), old(WalkFrom(v)), k, s).Some? ==>
                       FoundAt(old(pieces), old(WalkFrom(v)), k, s).value in reached
      ensures old(Coherent(pieces, WalkFrom(v))) ==>
                ok && forall k :: k in reached ==> k in old(Members(pieces, WalkFrom(v)))
      ensures old(LinksAgree(pieces, WalkFrom(v), layout)) ==>
                forall k :: k in reached ==> k < |layout| && walked[k].position == Some(Target(old(pieces[v].position.value), layout, v, k))
      ensures Placed(old(Members(pieces, WalkFrom(v))), walked)
      ensures ok ==> arena == old(arena)[g := old(arena[g]).(puzzles := MapSetAll(old(arena[g].puzzles), old(Members(pieces, WalkFrom(v)))))]
      ensures ok ==> pieces == Joined(walked, old(Members(pieces, WalkFrom(v))), g)
      ensures ok ==> forall k :: k in old(Members(pieces, WalkFrom(v))) ==> k < |pieces| && pieces[k].group == Some(g)
      ensures ok ==> events == old(events) + (if old(Emits()) then JoinEvents(old(Members(pieces, WalkFrom(v))), walked, old(arena[g].id)) else [])
      ensures !ok ==> pieces == walked && arena == old(arena) && events == old(events)
      ensures old(AllPlaced()) ==> AllPlaced()
    {
      ghost var w := WalkFrom(v);
      ghost var p0 := pieces;
      ok, reached := WalkGroup(v, layout);
      walked := pieces;
      if ok {
        assert PieceOk(v);
        var members: seq<nat> := [];
        if pieces[v].group.Some? {
          assert GroupOk(pieces[v].group.value);
          members := arena[pieces[v].group.value].puzzles;
        }
        assert members == Members(p0, w);
        Add(g, members);
        JoinedAt(walked, members, g);
        forall k | k in members ensures k < |pieces| && pieces[k].group == Some(g) {
        }
        if Laid(walked) {
          JoinedLaid(walked, members, g);
        }
      }
    }

    /** `originalSize`: the side of a piece. */
    function Size(): real
      reads this
      requires Ready()
    {
      metadata.value.originalSize
    }

    /**
     * The first half of `connect` on two loose pieces: a fresh empty group
     * at `u`'s place, `u` at its origin and `v` one piece-size away at side
     * `at`.
     */
    method LayPair(u: nat, v: nat, at: Side) returns (h: nat)
      requires Valid() && Ready() && u < |pieces| && v < |pieces| && at in SIDES
      requires pieces[u].position.Some?
      modifies this
      ensures Valid() && Ready() && h == old(|arena|)
      ensures arena == old(arena) + [Group(old(lastGroupId), old(pieces[u].position.value), [])]
      ensures pieces == old(pieces)[u := old(pieces[u]).(position := Some(Position(0.0, 0.0)))]
                                   [v := old(pieces[v]).(position := Some(Unit(at.side, old(Size()))))]
      ensures events == old(events) + (if old(Emits())
                                       then [GroupCreated(old(lastGroupId), old(pieces[u].position.value))]
                                       else [])
      ensures Book() == old(Book()).(lastGroupId := old(lastGroupId) + 1)
      ensures old(AllPlaced()) ==> AllPlaced()
    {
      var size := metadata.value.originalSize;
      h := CreatePuzzleGroupAt(pieces[u].position.value, true);
      AdjustPosition(u, Position(0.0, 0.0));
      AdjustPosition(v, Unit(at.side, size));
      if old(AllPlaced()) {
        assert forall k | 0 <= k < |pieces| :: old(pieces[k].position.Some?) ==> pieces[k].position.Some?;
      }
    }

    /**
     * `connect` when neither piece has a group: a fresh group is created
     * at `u`'s place, `u` moves to its origin and `v` one piece-size from
     * it at side `at`; both join with events. `moved` is the board before
     * the joins.
     */
    method ConnectLoose(u: nat, v: nat, at: Side) returns (ghost moved: seq<Piece>)
      requires Valid() && Ready() && u < |pieces| && v < |pieces| && at in SIDES
      requires pieces[u].position.Some? && pieces[u].group.None? && pieces[v].group.None?
      modifies this
      ensures Valid() && Ready() && |pieces| == old(|pieces|)
      ensures moved == old(pieces)[u := old(pieces[u]).(position := Some(Position(0.0, 0.0)))]
                                  [v := old(pieces[v]).(position := Some(Unit(at.side, old(Size()))))]
      ensures arena == old(arena) + [Group(old(lastGroupId), old(pieces[u].position.value), MapSetAll([], [u, v]))]
      ensures pieces == Joined(moved, [u, v], old(|arena|)) && Placed([u, v], moved)
      ensures events == old(events) + (if old(Emits())
                                       then [GroupCreated(old(lastGroupId), old(pieces[u].position.value))]
                                            + JoinEvents([u, v], moved, old(lastGroupId))
                                       else [])
      ensures Book() == old(Book()).(lastGroupId := old(lastGroupId) + 1)
      ensures old(AllPlaced()) ==> AllPlaced()
      ensures PieceOk(u) && PieceOk(v) && pieces[u].group.Some? && pieces[u].group == pieces[v].group
      ensures u != v ==> AbsOf(pieces, arena, u) == old(pieces[u].position.value)
                         && AbsOf(pieces, arena, v) == Step(AbsOf(pieces, arena, u), at.side, Size())
    {
      ghost var e0 := events;
      var h := LayPair(u, v, at);
      moved := pieces;
      ghost var a1 := arena;
      JoinPair(h, u, v);
      AppendUpdate(old(arena), a1[h], arena[h]);
      if old(Emits()) {
        assert events == e0 + ([GroupCreated(old(lastGroupId), old(pieces[u].position.value))]
                               + JoinEvents([u, v], moved, old(lastGroupId)));
      }
    }

    /** The second half of `ConnectLoose`: both laid pieces join the new group `h`, with events. */
    method JoinPair(h: nat, u: nat, v: nat)
      requires Valid() && Ready() && h < |arena| && u < |pieces| && v < |pieces|
      requires pieces[u].position.Some? && pieces[v].position.Some?
      modifies this
      ensures Valid() && Ready() && |pieces| == old(|pieces|)
      ensures arena == old(arena)[h := old(arena[h]).(puzzles := MapSetAll(old(arena[h].puzzles), [u, v]))]
      ensures pieces == Joined(old(pieces), [u, v], h) && Placed([u, v], old(pieces))
      ensures events == old(events) + (if old(Emits()) then JoinEvents([u, v], old(pieces), old(arena[h].id)) else [])
      ensures Book() == old(Book())
      ensures old(AllPlaced()) ==> AllPlaced()
      ensures PieceOk(u) && PieceOk(v) && pieces[u].group == pieces[v].group == Some(h)
      ensures AbsOf(pieces, arena, u) == Translate(arena[h].position, old(pieces[u].position.value.x), old(pieces[u].position.value.y))
      ensures AbsOf(pieces, arena, v) == Translate(arena[h].position, old(pieces[v].position.value.x), old(pieces[v].position.value.y))
    {
      ghost var moved := pieces;
      Add(h, [u, v]);
      if Laid(moved) {
        JoinedLaid(moved, [u, v], h);
      }
      JoinedAt(moved, [u, v], h);
      JoinedAbs(moved, arena, [u, v], h, u);
      JoinedAbs(moved, arena, [u, v], h, v);
      assert PieceOk(u) && PieceOk(v);
    }

    /**
     * `connect` when exactly one piece has a group: the loose piece `k`
     * moves to `pos`, relative to the group of `anchor`, and joins that
     * group with an event.
     */
    method Attach(k: nat, anchor: nat, pos: Position) returns (ghost moved: seq<Piece>)
      requires Valid() && k < |pieces| && anchor < |pieces| && pieces[anchor].group.Some? && pieces[k].group.None?
      modifies this
      ensures Valid() && |pieces| == old(|pieces|) && old(PieceOk(anchor))
      ensures moved == old(pieces)[k := old(pieces[k]).(position := Some(pos))]
      ensures arena == old(arena)[old(pieces[anchor].group.value) :=
                                    old(arena[pieces[anchor].group.value]).(puzzles := MapSetAll(old(arena[pieces[anchor].group.value].puzzles), [k]))]
      ensures pieces == Joined(moved, [k], old(pieces[anchor].group.value)) && Placed([k], moved)
      ensures events == old(events) + (if old(Emits()) then JoinEvents([k], moved, old(arena[pieces[anchor].group.value].id)) else [])
      ensures Book() == old(Book())
      ensures old(AllPlaced()) ==> AllPlaced()
      ensures PieceOk(k) && PieceOk(anchor) && pieces[k].group == pieces[anchor].group == old(pieces[anchor].group)
      ensures forall q :: 0 <= q < |pieces| && old(pieces[q].group.Some?) ==> pieces[q].group == old(pieces[q].group)
      ensures AbsOf(pieces, arena, anchor) == old(AbsOf(pieces, arena, anchor))
      ensures AbsOf(pieces, arena, k) == Translate(arena[pieces[anchor].group.value].position, pos.x, pos.y)
    {
      assert PieceOk(anchor);
      var h := pieces[anchor].group.value;
      AdjustPosition(k, pos);
      moved := pieces;
      if old(AllPlaced()) {
        assert forall q | 0 <= q < |moved| :: old(pieces[q].position.Some?) ==> moved[q].position.Some?;
      }
      Add(h, [k]);
      JoinedAt(moved, [k], h);
      if Laid(moved) {
        JoinedLaid(moved, [k], h);
      }
      assert PieceOk(k) && PieceOk(anchor);
    }

    /**
     * `this.group.merge(v)` as `connect` calls it: `v`'s group joins the
     * group of `u`. Pieces keep their positions relative to their group,
     * so `u` stays put and `v` shows at its own position translated by
     * `u`'s group.
     */
    method MergeInto(u: nat, v: nat, ghost layout: seq<Position>) returns (ok: bool)
      requires Valid() && Ready() && u < |pieces| && v < |pieces|
      requires pieces[u].group.Some? && pieces[v].group.Some?
      modifies this
      ensures Valid() && Ready() && |pieces| == old(|pieces|) && old(PieceOk(u)) && old(PieceOk(v))
      ensures Book() == old(Book()) && |arena| == old(|arena|)
      ensures old(AllPlaced()) ==> AllPlaced()
      ensures old(Coherent(pieces, WalkFrom(v))) ==> ok
      ensures ok ==> PieceOk(u) && PieceOk(v) && pieces[u].group == pieces[v].group == old(pieces[u].group)
      ensures ok ==> forall q :: Grouped(old(pieces), q, v) ==> Grouped(pieces, q, u)
      ensures ok && u != v && old(pieces[u].group != pieces[v].group) && old(Coherent(pieces, WalkFrom(v))) ==>
                AbsOf(pieces, arena, u) == old(AbsOf(pieces, arena, u))
                && AbsOf(pieces, arena, v) == Translate(old(arena[pieces[u].group.value].position),
                                                        old(pieces[v].position.value.x), old(pieces[v].position.value.y))
    {
      assert PieceOk(u) && PieceOk(v);
      var hu := pieces[u].group.value;
      ghost var w := WalkFrom(v);
      ghost var p0 := pieces;
      ghost var walked, reached;
      ok, walked, reached := Merge(hu, v, layout);
      ghost var members := Members(p0, w);
      if ok {
        JoinedAt(walked, members, hu);
        assert v in members;
        assert pieces[u].group == Some(hu) == pieces[v].group;
        forall q | Grouped(p0, q, v) ensures Grouped(pieces, q, u) {
          assert old(PieceOk(q));
        }
        if u != v && old(pieces[u].group != pieces[v].group) && old(Coherent(pieces, WalkFrom(v))) {
          assert u !in members && u !in reached;
          JoinedAbs(walked, arena, members, hu, u);
          JoinedAbs(walked, arena, members, hu, v);
        }
      }
    }

    /**
     * `connect` when both pieces have groups: `v` moves one piece-size
     * from `u` at side `at`, relative to `u`'s group, and `u`'s group
     * merges `v`'s.
     */
    method ConnectGroups(u: nat, v: nat, at: Side, ghost layout: seq<Position>) returns (ok: bool)
      requires Valid() && Ready() && u < |pieces| && v < |pieces| && at in SIDES
      requires pieces[u].group.Some? && pieces[v].group.Some?
      modifies this
      ensures Valid() && Ready() && |pieces| == old(|pieces|) && old(PieceOk(u)) && old(PieceOk(v)) && Book() == old(Book())
      ensures old(AllPlaced()) ==> AllPlaced()
      ensures ok ==> PieceOk(u) && PieceOk(v) && pieces[u].group == pieces[v].group == old(pieces[u].group)
      ensures ok ==> forall q :: Grouped(old(pieces), q, v) ==> Grouped(pieces, q, u)
      ensures old(Coherent(pieces, WalkFrom(v))) ==> ok
      ensures ok && u != v && old(pieces[u].group != pieces[v].group) && old(Coherent(pieces, WalkFrom(v))) ==>
                AbsOf(pieces, arena, u) == old(AbsOf(pieces, arena, u))
                && AbsOf(pieces, arena, v) == Step(AbsOf(pieces, arena, u), at.side, Size())
    {
      assert PieceOk(u) && PieceOk(v);
      var size := metadata.value.originalSize;
      var hu := pieces[u].group.value;
      var upos := pieces[u].position.value;
      ghost var w := WalkFrom(v);
      var pos := Step(upos, at.side, size);
      CoherentIgnoresMove(pieces, w, v, pos);
      AdjustPosition(v, pos);
      assert WalkFrom(v) == w;
      if old(AllPlaced()) {
        assert forall k | 0 <= k < |pieces| :: old(pieces[k].position.Some?) ==> pieces[k].position.Some?;
      }
      ghost var a1 := arena;
      ok := MergeInto(u, v, layout);
      if ok && u != v && old(pieces[u].group != pieces[v].group) && old(Coherent(pieces, WalkFrom(v))) {
        assert AbsOf(pieces, arena, u) == Translate(a1[hu].position, upos.x, upos.y);
        StepTranslate(a1[hu].position, upos, at.side, size);
      }
    }

    /**
     * `connect(v, at)` called on piece `u`, with `v` lying at side `at` of
     * `u`: the pieces end in one group with `v` one piece-size from `u`.
     * Only merging can fail, and not when `v`'s group is coherent.
     */
    method Connect(u: nat, v: nat, at: Side, ghost layout: seq<Position>) returns (ok: bool)
      requires Valid() && Ready() && u < |pieces| && v < |pieces| && at in SIDES
      requires pieces[u].position.Some?
      modifies this
      ensures Valid() && Ready() && |pieces| == old(|pieces|)
      ensures old(AllPlaced()) ==> AllPlaced()
      ensures Book() == old(Book()).(lastGroupId := lastGroupId) && old(lastGroupId) <= lastGroupId
      ensures old(pieces[u].group.None? || pieces[v].group.None?) ==> ok
      ensures old(Coherent(pieces, WalkFrom(v))) ==> ok
      ensures ok ==> PieceOk(u) && PieceOk(v) && pieces[u].group.Some? && pieces[u].group == pieces[v].group
      ensures ok ==> forall q :: Grouped(old(pieces), q, v) ==> Grouped(pieces, q, u)
      ensures ok && u != v
              && (old(pieces[u].group.None? || pieces[v].group.None?)
                  || (old(pieces[u].group != pieces[v].group) && old(Coherent(pieces, WalkFrom(v))))) ==>
                AbsOf(pieces, arena, v) == Step(AbsOf(pieces, arena, u), at.side, Size())
    {
      var size := metadata.value.originalSize;
      var upos := pieces[u].position.value;
      assert PieceOk(u) && PieceOk(v);
      ok := true;
      if pieces[u].group.None? && pieces[v].group.None? {
        ghost var moved := ConnectLoose(u, v, at);
      } else if pieces[u].group.Some? && pieces[v].group.None? {
        ghost var a := arena[pieces[u].group.value].position;
        ghost var moved := Attach(v, u, Step(upos, at.side, size));
        StepTranslate(a, upos, at.side, size);
      } else if pieces[u].group.None? {
        ghost var a := arena[pieces[v].group.value].position;
        var vpos := pieces[v].position.value;
        ghost var moved := Attach(u, v, Step(vpos, at.oppositeSide, size));
        StepTranslate(a, vpos, at.oppositeSide, size);
        StepBack(Translate(a, vpos.x, vpos.y), at, size);
      } else {
        ok := ConnectGroups(u, v, at, layout);
      }
    }

    /** A valid board's pieces refer to group objects that exist. */
    lemma HandlesFromValid()
      requires Valid()
      ensures HandlesOk(pieces, arena)
    {
      forall k | 0 <= k < |pieces| && pieces[k].group.Some? ensures pieces[k].group.value < |arena| {
        assert PieceOk(k);
      }
    }

    /**
     * `matchAndConnect`: each of the four candidates of the selected piece
     * that snaps, checked on the board as the earlier connects left it, is
     * connected to it; the result counts the connects, and the selection
     * is cleared. `hits` lists, in order, the positions in `toCheck` of the
     * candidates connected, each of which ends in the selected piece's
     * group. A connect that fails (`merge` meeting a piece without a group)
     * stops the whole call with `ok` false and the selection kept.
     */
    method MatchAndConnect(ghost layout: seq<Position>) returns (ok: bool, increaseBy: nat, ghost hits: seq<nat>)
      requires Valid() && Ready() && AllPlaced()
      requires selectedPieceId.Some? && 0 <= selectedPieceId.value < |pieces|
      modifies this
      ensures Valid() && Ready() && AllPlaced() && |pieces| == old(|pieces|)
      ensures increaseBy == |hits| <= 4 && old(lastGroupId) <= lastGroupId
      ensures forall j :: 0 <= j < |hits| ==> hits[j] < 4
      ensures forall j, j' :: 0 <= j < j' < |hits| ==> hits[j] < hits[j']
      ensures ok ==> forall j :: 0 <= j < |hits| ==>
                Grouped(pieces, ToCheck(old(selectedPieceId.value), old(metadata.value.numOfColumns))[hits[j]].idx,
                        old(selectedPieceId.value))
      ensures Book() == old(Book()).(lastGroupId := lastGroupId, selectedPieceId := if ok then None else old(selectedPieceId))
      ensures ok && increaseBy == 0 <==>
                forall c :: c in ToCheck(old(selectedPieceId.value), old(metadata.value.numOfColumns)) ==>
                  !Snaps(old(pieces), old(arena), old(Size()), old(selectedPieceId.value), c)
      ensures ok && increaseBy == 0 ==> pieces == old(pieces) && arena == old(arena) && events == old(events)
      ensures increaseBy > 0 ==> Snaps(old(pieces), old(arena), old(Size()), old(selectedPieceId.value),
                                       ToCheck(old(selectedPieceId.value), old(metadata.value.numOfColumns))[hits[0]])
    {
      var sel := selectedPieceId.value;
      var cands := ToCheck(sel, metadata.value.numOfColumns);
      ToCheckFacesSelected(sel, metadata.value.numOfColumns);
      ghost var p0, a0, e0, b0 := pieces, arena, events, Book();
      ok, increaseBy, hits := true, 0, [];
      var i := 0;
      MatchStart(sel);
      while i < 4 && ok
        invariant 0 <= i <= 4 && increaseBy == |hits|
        invariant MatchedSoFar(sel, cands, i, ok, hits, p0, a0, e0, b0)
      {
        var connected;
        ok, connected, hits := MatchNext(sel, cands, i, hits, p0, a0, e0, b0, layout);
        if connected {
          increaseBy := increaseBy + 1;
        }
        i := i + 1;
      }
      MatchEnd(sel, cands, i, ok, hits, p0, a0, e0, b0);
      if ok {
        selectedPieceId := None;
      }
    }

    /** The state of `matchAndConnect` once the first `i` candidates have been checked. */
    ghost predicate MatchedSoFar(sel: nat, cands: seq<Candidate>, i: nat, ok: bool, hits: seq<nat>,
                                 p0: seq<Piece>, a0: seq<Group>, e0: seq<Event>, b0: Bookkeeping)
      reads this
    {
      b0.metadata.Some? && cands == ToCheck(sel, b0.metadata.value.numOfColumns)
      && Valid() && Ready() && AllPlaced()
      && Book() == b0.(lastGroupId := lastGroupId) && b0.lastGroupId <= lastGroupId
      && MatchProgress(pieces, arena, events, sel, cands, b0.metadata.value.originalSize, i, ok, hits, p0, a0, e0)
    }

    /** Before the loop of `matchAndConnect` no candidate has been checked. */
    lemma MatchStart(sel: nat)
      requires Valid() && Ready() && AllPlaced() && sel < |pieces|
      ensures MatchedSoFar(sel, ToCheck(sel, metadata.value.numOfColumns), 0, true, [], pieces, arena, events, Book())
    {
      ToCheckFacesSelected(sel, metadata.value.numOfColumns);
    }

    /** What the loop of `matchAndConnect` leaves, stated on the board it started from. */
    lemma MatchEnd(sel: nat, cands: seq<Candidate>, i: nat, ok: bool, hits: seq<nat>,
                   p0: seq<Piece>, a0: seq<Group>, e0: seq<Event>, b0: Bookkeeping)
      requires MatchedSoFar(sel, cands, i, ok, hits, p0, a0, e0, b0) && (i == 4 || !ok)
      ensures Valid() && Ready() && AllPlaced() && |pieces| == |p0| && b0.metadata.Some?
      ensures cands == ToCheck(sel, b0.metadata.value.numOfColumns) && |hits| <= 4
      ensures Book() == b0.(lastGroupId := lastGroupId) && b0.lastGroupId <= lastGroupId
      ensures forall j :: 0 <= j < |hits| ==> hits[j] < 4
      ensures forall j, j' :: 0 <= j < j' < |hits| ==> hits[j] < hits[j']
      ensures ok ==> forall j :: 0 <= j < |hits| ==> Grouped(pieces, cands[hits[j]].idx, sel)
      ensures ok && hits == [] <==> forall c :: c in cands ==> !Snaps(p0, a0, b0.metadata.value.originalSize, sel, c)
      ensures ok && hits == [] ==> pieces == p0 && arena == a0 && events == e0
      ensures hits != [] ==> Snaps(p0, a0, b0.metadata.value.originalSize, sel, cands[hits[0]])
    {
      ProgressEnd(pieces, arena, events, sel, cands, b0.metadata.value.originalSize, i, ok, hits, p0, a0, e0);
    }

    /** One turn of the loop of `matchAndConnect`: candidate `i` is connected when it snaps. */
    method MatchNext(sel: nat, cands: seq<Candidate>, i: nat, ghost hits: seq<nat>,
                     ghost p0: seq<Piece>, ghost a0: seq<Group>, ghost e0: seq<Event>, ghost b0: Bookkeeping,
                     ghost layout: seq<Position>)
      returns (ok: bool, connected: bool, ghost hits': seq<nat>)
      requires i < 4 && MatchedSoFar(sel, cands, i, true, hits, p0, a0, e0, b0)
      modifies this
      ensures hits' == if connected then hits + [i] else hits
      ensures MatchedSoFar(sel, cands, i + 1, ok, hits', p0, a0, e0, b0)
    {
      var size := metadata.value.originalSize;
      ok, connected, hits' := true, false, hits;
      if Snaps(pieces, arena, size, sel, cands[i]) {
        ToCheckFacesSelected(sel, metadata.value.numOfColumns);
        assert cands[i] in cands;
        ghost var p1, a1, e1 := pieces, arena, events;
        ok := Connect(cands[i].idx, sel, cands[i].side, layout);
        ProgressConnect(p1, a1, e1, pieces, arena, events, sel, cands, size, i, ok, hits, p0, a0, e0);
        if ok {
          connected, hits' := true, hits + [i];
        }
      } else {
        ProgressSkip(pieces, arena, events, sel, cands, size, i, hits, p0, a0, e0);
      }
    }

    /** The state of the first loop of `applyProgress` once the first `k` entries have their group objects. */
    ghost predicate EntriesSoFar(gs: seq<(int, GroupState)>, k: nat, index: map<int, nat>, last: int,
                                 a0: seq<Group>, p0: seq<Piece>, e0: seq<Event>, b0: Bookkeeping)
      reads this
    {
      k <= |gs| && Valid() && pieces == p0 && events == e0 && Book() == b0
      && arena == a0 + EmptyGroups(gs, k) && last == MaxGroupId(gs[..k]) && index == Handles(gs, k, |a0|)
    }

    /** One pass of the first loop: the group object of entry `k`, its handle in the map, the largest id so far. */
    method NewEntry(gs: seq<(int, GroupState)>, k: nat, index: map<int, nat>, last: int,
                    ghost a0: seq<Group>, ghost p0: seq<Piece>, ghost e0: seq<Event>, ghost b0: Bookkeeping)
      returns (index': map<int, nat>, last': int)
      requires k < |gs| && EntriesSoFar(gs, k, index, last, a0, p0, e0, b0)
      modifies this
      ensures EntriesSoFar(gs, k + 1, index', last', a0, p0, e0, b0)
    {
      var h := NewGroup(gs[k].0, Position(gs[k].1.x, gs[k].1.y), false);
      index' := index[gs[k].0 := h];
      MaxGroupIdSnoc(gs, k);
      last' := Max(last, gs[k].0);
    }

    /**
     * `new Puzzle(...)`: a fresh piece is placed and announces itself with
     * its position and id; `at` stands for the random spot
     * `createInitialPosition` picks.
     */
    method NewPiece(p: SpecPiece, numberOfColumns: int, isFresh: bool, at: Position) returns (piece: Piece)
      requires Valid() && numberOfColumns > 0
      modifies this
      ensures piece == BuildPiece(p, numberOfColumns, if isFresh then Some(at) else None)
      ensures events == old(events) + (if isFresh && old(Emits()) then [PuzzleCreated(p.idx, at)] else [])
      ensures Valid() && pieces == old(pieces) && arena == old(arena) && Book() == old(Book())
    {
      piece := BuildPiece(p, numberOfColumns, None);
      if isFresh {
        piece := piece.(position := Some(at));
        SendEvent(PuzzleCreated(p.idx, at));
      }
    }

    /** `buildObjects`: one piece per spec entry, in order, each announced when the board is new. */
    method BuildObjects(spec: PuzzleSpec, isNew: bool, initial: seq<Position>) returns (built: seq<Piece>)
      requires Valid() && spec.numberOfColumns > 0
      requires isNew ==> |initial| == |spec.pieces|
      modifies this
      ensures built == Built(spec, isNew, initial)
      ensures events == old(events) + (if isNew && old(Emits()) then CreatedEvents(spec, initial, |spec.pieces|) else [])
      ensures Valid() && pieces == old(pieces) && arena == old(arena) && Book() == old(Book())
    {
      built := [];
      for i := 0 to |spec.pieces|
        invariant Valid() && pieces == old(pieces) && arena == old(arena) && Book() == old(Book())
        invariant |built| == i && forall j :: 0 <= j < i ==> built[j] == Built(spec, isNew, initial)[j]
        invariant events == old(events) + (if isNew && old(Emits()) then CreatedEvents(spec, initial, i) else [])
      {
        var at := if isNew then initial[i] else Position(0.0, 0.0);
        var piece := NewPiece(spec.pieces[i], spec.numberOfColumns, isNew, at);
        built := built + [piece];
        assert isNew ==> CreatedEvents(spec, initial, i + 1)
                         == CreatedEvents(spec, initial, i) + [PuzzleCreated(spec.pieces[i].idx, initial[i])];
      }
    }

    /**
     * `createSandbox` on a board just constructed: the metadata from the
     * spec, then the pieces, laid out afresh or restored from a saved state.
     */
    method CreateSandbox(spec: PuzzleSpec, state: Option<PuzzleState>, initial: seq<Position>)
      requires Valid() && pieces == [] && arena == [] && groups == [] && locks == map[]
      requires spec.numberOfColumns > 0
      requires forall i :: 0 <= i < |spec.pieces| ==> spec.pieces[i].idx == i
      requires state.None? ==> |initial| == |spec.pieces|
      requires state.Some? ==> DistinctIds(state.value.groups)
      modifies this
      ensures Valid() && Ready() && |pieces| == |spec.pieces|
      ensures metadata == Some(Metadata(spec.numberOfColumns, spec.numberOfRows, spec.pieceSizeAfterGeneration, spec.requestedPieceSize))
      ensures state.None? ==>
                pieces == Built(spec, true, initial) && arena == [] && AllPlaced()
                && events == old(events) + (if old(Emits()) then CreatedEvents(spec, initial, |spec.pieces|) else [])
                && Book() == old(Book()).(metadata := metadata)
      ensures state.Some? ==>
                (forall i :: 0 <= i < |pieces| ==> pieces[i] == Restored(Built(spec, false, initial)[i], i, state.value, 0))
                && arena == RestoredGroups(state.value, |pieces|) && events == old(events)
                && (AllPlaced() <==> forall i :: 0 <= i < |pieces| ==> i in state.value.pieces)
                && Book() == old(Book()).(metadata := metadata, propagateEvents := true,
                                          groups := seq(|state.value.groups|, j => j),
                                          lastGroupId := MaxGroupId(state.value.groups) + 1)
    {
      metadata := Some(Metadata(spec.numberOfColumns, spec.numberOfRows, spec.pieceSizeAfterGeneration, spec.requestedPieceSize));
      var isNew := state.None?;
      var built := BuildObjects(spec, isNew, initial);
      pieces := built;
      assert forall i :: 0 <= i < |pieces| ==> PieceOk(i);
      if state.Some? {
        ApplyProgress(state.value);
        assert forall i :: 0 <= i < |pieces| ==> (pieces[i].position.Some? <==> i in state.value.pieces);
      }
    }

    /**
     * The first loop of `applyProgress`: a silent group object for every
     * saved entry, in entry order, looked up by id afterwards; `last` is the
     * largest id, starting from -1.
     */
    method NewGroups(st: PuzzleState) returns (index: map<int, nat>, last: int)
      requires Valid() && DistinctIds(st.groups)
      modifies this
      ensures Valid()
      ensures arena == old(arena) + RestoredGroups(st, 0)
      ensures forall id :: id in index <==> IndexOfId(st.groups, id).Some?
      ensures forall id :: id in index ==> index[id] == old(|arena|) + IndexOfId(st.groups, id).value
      ensures last == MaxGroupId(st.groups)
      ensures pieces == old(pieces) && events == old(events) && Book() == old(Book())
    {
      var gs := st.groups;
      index := map[];
      last := -1;
      assert gs[..0] == [];
      for k := 0 to |gs|
        invariant EntriesSoFar(gs, k, index, last, old(arena), old(pieces), old(events), old(Book()))
      {
        index, last := NewEntry(gs, k, index, last, old(arena), old(pieces), old(events), old(Book()));
      }
      assert gs[..|gs|] == gs;
      RestoredGroupsEmpty(st);
      HandlesLookup(gs, old(|arena|));
    }

    /** The state of the second loop of `applyProgress` once the first `q` pieces have been put back. */
    ghost predicate RestoredSoFar(st: PuzzleState, q: nat, a0: seq<Group>, p0: seq<Piece>, e0: seq<Event>, b0: Bookkeeping)
      reads this
    {
      Valid() && !Emits() && RestoredUpTo(p0, pieces, q, st, |a0|)
      && arena == a0 + RestoredGroups(st, q)
      && events == e0 && Book() == b0
    }

    /** One pass of the second loop: piece `q` takes its saved position and joins its saved group, if restored. */
    method RestoreNext(st: PuzzleState, q: nat, index: map<int, nat>,
                       ghost a0: seq<Group>, ghost p0: seq<Piece>, ghost e0: seq<Event>, ghost b0: Bookkeeping)
      requires DistinctIds(st.groups) && q < |p0| && RestoredSoFar(st, q, a0, p0, e0, b0)
      requires forall id :: id in index <==> IndexOfId(st.groups, id).Some?
      requires forall id :: id in index ==> index[id] == |a0| + IndexOfId(st.groups, id).value
      modifies this
      ensures RestoredSoFar(st, q + 1, a0, p0, e0, b0)
    {
      ghost var ps := pieces;
      if q in st.pieces {
        var e := st.pieces[q];
        if e.gid.Some? && e.gid.value in index {
          RestoreJoined(st, q, index[e.gid.value], a0);
        } else {
          AdjustPosition(q, Position(e.x, e.y));
          RestoreSkipStep(st, q);
        }
      } else {
        RestoreSkipStep(st, q);
      }
      RestoredUpToNext(p0, ps, q, st, |a0|);
    }

    /** Piece `q` of the second loop, whose saved `gid` names the group at handle `h`. */
    method RestoreJoined(st: PuzzleState, q: nat, h: nat, ghost a0: seq<Group>)
      requires Valid() && !Emits() && DistinctIds(st.groups) && q < |pieces|
      requires q in st.pieces && st.pieces[q].gid.Some?
      requires IndexOfId(st.groups, st.pieces[q].gid.value).Some?
      requires h == |a0| + IndexOfId(st.groups, st.pieces[q].gid.value).value
      requires arena == a0 + RestoredGroups(st, q)
      modifies this
      ensures Valid() && !Emits()
      ensures pieces == old(pieces)[q := Restored(old(pieces[q]), q, st, |a0|)]
      ensures arena == a0 + RestoredGroups(st, q + 1)
      ensures events == old(events) && Book() == old(Book())
    {
      var e := st.pieces[q];
      ghost var j := IndexOfId(st.groups, e.gid.value).value;
      RestoreJoinStep(st, a0, q, j);
      AdjustPosition(q, Position(e.x, e.y));
      ghost var placed := pieces;
      Add(h, [q]);
      JoinedOne(placed, q, h);
    }

    /**
     * The second loop of `applyProgress`, with propagation off: a piece with
     * a saved entry takes its position and joins the group its `gid` names,
     * when that group was restored; a piece without one is skipped.
     */
    method RestorePieces(st: PuzzleState, index: map<int, nat>, ghost a0: seq<Group>)
      requires Valid() && !Emits() && DistinctIds(st.groups)
      requires arena == a0 + RestoredGroups(st, 0)
      requires forall id :: id in index <==> IndexOfId(st.groups, id).Some?
      requires forall id :: id in index ==> index[id] == |a0| + IndexOfId(st.groups, id).value
      modifies this
      ensures Valid()
      ensures arena == a0 + RestoredGroups(st, |pieces|)
      ensures |pieces| == old(|pieces|)
      ensures forall q :: 0 <= q < |pieces| ==> pieces[q] == Restored(old(pieces[q]), q, st, |a0|)
      ensures events == old(events) && Book() == old(Book())
    {
      for q := 0 to |pieces|
        invariant RestoredSoFar(st, q, a0, old(pieces), old(events), old(Book()))
      {
        RestoreNext(st, q, index, a0, old(pieces), old(events), old(Book()));
      }
    }

    /**
     * `applyProgress`: the saved groups are created silently and listed,
     * the group counter continues after the largest saved id, and every
     * saved piece is put back with event propagation off, which is on
     * again at the end.
     */
    method ApplyProgress(st: PuzzleState)
      requires Valid() && DistinctIds(st.groups)
      modifies this
      ensures Valid()
      ensures arena == old(arena) + RestoredGroups(st, |pieces|)
      ensures groups == seq(|st.groups|, j => old(|arena|) + j)
      ensures |pieces| == old(|pieces|)
      ensures forall q :: 0 <= q < |pieces| ==> pieces[q] == Restored(old(pieces[q]), q, st, old(|arena|))
      ensures events == old(events)
      ensures Book() == old(Book()).(propagateEvents := true, groups := groups, lastGroupId := MaxGroupId(st.groups) + 1)
    {
      ghost var a0 := arena;
      var base := |arena|;
      var index, last := NewGroups(st);
      // the map's values in insertion order: the handles just created
      groups := seq(|st.groups|, j => base + j);
      RestoreState(last + 1);
      DisableEventPropagation();
      RestorePieces(st, index, a0);
      EnableEventPropagation();
    }

    /**
     * One action of `replay`, from its parsed fields: the `switch` over the
     * kind, with propagation off. `ok` is false where the source throws (a
     * missing piece or group, a joining piece without a position) or a
     * field it uses is not a number; the board is then as it was.
     */
    method ReplayAction(ns: seq<Option<int>>, index: map<int, nat>) returns (ok: bool, index': map<int, nat>)
      requires Valid() && !Emits() && HandlesOk(pieces, arena) && IndexOk(index, |arena|)
      modifies this
      ensures Valid() && HandlesOk(pieces, arena)
      ensures var o := StepLine(Replayed(old(pieces), old(arena), old(lastGroupId), index), ns);
              ok == o.Some? && (ok ==> Replayed(pieces, arena, lastGroupId, index') == o.value)
      ensures !ok ==> pieces == old(pieces) && arena == old(arena) && lastGroupId == old(lastGroupId) && index' == index
      ensures events == old(events) && Book() == old(Book()).(lastGroupId := lastGroupId)
    {
      var kind, id, x, y, gid := At(ns, 0), At(ns, 1), At(ns, 2), At(ns, 3), At(ns, 4);
      ok, index' := true, index;
      if kind == Some(PUZZLE_CREATE_ACTION) || kind == Some(PUZZLE_MOVE_ACTION) {
        if id.Some? && 0 <= id.value < |pieces| && x.Some? && y.Some? {
          AdjustPosition(id.value, Pos(x.value, y.value));
        } else {
          ok := false;
        }
      } else if kind == Some(GROUP_CREATE_ACTION) {
        if id.Some? && x.Some? && y.Some? {
          var h := CreatePuzzleGroupAt(Pos(x.value, y.value), false);
          index' := index[id.value := h];
        } else {
          ok := false;
        }
      } else if kind == Some(PUZZLE_JOIN_ACTION) {
        if gid.Some? && gid.value in index && id.Some? && 0 <= id.value < |pieces|
           && pieces[id.value].position.Some? && x.Some? && y.Some? {
          var g := gid.value;
          assert index[g] < |arena|;
          AddPuzzle(index[g], id.value);
          AdjustPosition(id.value, Pos(x.value, y.value));
        } else {
          ok := false;
        }
      } else if kind == Some(GROUP_MOVE_ACTION) {
        if id.Some? && id.value in index && x.Some? && y.Some? {
          var g := id.value;
          assert index[g] < |arena|;
          GroupMove(index[g], Pos(x.value, y.value));
        } else {
          ok := false;
        }
      }
      HandlesFromValid();
    }

    /** The first loop of `replay`: `resetGroup` on every piece, in order. */
    method ResetAll()
      requires Valid() && HandlesOk(pieces, arena)
      modifies this
      ensures Valid() && HandlesOk(pieces, arena)
      ensures Replayed(pieces, arena, lastGroupId, map[])
              == UngroupAll(Replayed(old(pieces), old(arena), old(lastGroupId), map[]), old(|pieces|))
      ensures events == old(events) && Book() == old(Book())
    {
      ghost var r0 := Replayed(pieces, arena, lastGroupId, map[]);
      for i := 0 to |pieces|
        invariant Valid() && events == old(events) && Book() == old(Book())
        invariant Replayed(pieces, arena, lastGroupId, map[]) == UngroupAll(r0, i)
      {
        ResetGroup(i);
      }
      HandlesFromValid();
    }

    /**
     * The second loop of `replay`: the logged actions in order, until one
     * fails.
     */
    method ReplayLog(log: seq<string>, ghost start: Replayed) returns (ok: bool)
      requires Valid() && !Emits() && Wf(start) && start == Replayed(pieces, arena, lastGroupId, map[])
      modifies this
      ensures Valid()
      ensures var fin := Run(start, log);
              ok == fin.1 && pieces == fin.0.pieces && arena == fin.0.arena
              && Book() == old(Book()).(lastGroupId := fin.0.lastGroupId)
      ensures events == old(events)
    {
      var index: map<int, nat> := map[];
      var k := 0;
      ok := true;
      assert log[0..] == log;
      while ok && k < |log|
        invariant 0 <= k <= |log|
        invariant ReplayedSoFar(log, start, k, ok, index, old(events), old(Book()))
        decreases ok, |log| - k
      {
        ok, index := ReplayNext(log, start, k, index, old(events), old(Book()));
        if ok {
          k := k + 1;
        }
      }
      if ok {
        assert log[k..] == [];
      }
    }

    /** The state of `replay`'s second loop after `k` lines, `ok` while every one went through. */
    ghost predicate ReplayedSoFar(log: seq<string>, start: Replayed, k: nat, ok: bool, index: map<int, nat>,
                                  e0: seq<Event>, b0: Bookkeeping)
      reads this
    {
      k <= |log| && Valid() && !Emits() && events == e0
      && Book() == b0.(lastGroupId := lastGroupId)
      && Wf(start) && Wf(Replayed(pieces, arena, lastGroupId, index))
      && (ok ==> Run(start, log) == Run(Replayed(pieces, arena, lastGroupId, index), log[k..]))
      && (!ok ==> Run(start, log) == (Replayed(pieces, arena, lastGroupId, index), false))
    }

    /** One turn of that loop: line `k` is applied, or the replay stops with the board as it was. */
    method ReplayNext(log: seq<string>, ghost start: Replayed, k: nat, index: map<int, nat>,
                      ghost e0: seq<Event>, ghost b0: Bookkeeping) returns (stepped: bool, index': map<int, nat>)
      requires k < |log| && ReplayedSoFar(log, start, k, true, index, e0, b0)
      modifies this
      ensures ReplayedSoFar(log, start, if stepped then k + 1 else k, stepped, index', e0, b0)
    {
      ghost var rest := log[k..];
      ghost var cur := Replayed(pieces, arena, lastGroupId, index);
      assert rest[0] == log[k] && rest[1..] == log[k + 1..];
      assert Run(cur, rest) == match StepLine(cur, Parts(log[k]))
                               case None => (cur, false)
                               case Some(r') => Run(r', log[k + 1..]);
      stepped, index' := ReplayAction(Parts(log[k]), index);
    }

    /**
     * `replay`: with propagation off, every piece leaves its group, then the
     * logged actions are applied in order. Propagation comes back on only
     * when every action went through; a failing action leaves the board as
     * it was just before it, with propagation still off.
     */
    method Replay(log: seq<string>) returns (ok: bool)
      requires Valid() && HandlesOk(pieces, arena)
      modifies this
      ensures Valid()
      ensures var fin := Run(UngroupAll(Replayed(old(pieces), old(arena), old(lastGroupId), map[]), old(|pieces|)), log);
              ok == fin.1 && pieces == fin.0.pieces && arena == fin.0.arena
              && Book() == old(Book()).(lastGroupId := fin.0.lastGroupId, propagateEvents := ok)
      ensures events == old(events)
    {
      DisableEventPropagation();
      ResetAll();
      ok := ReplayLog(log, Replayed(pieces, arena, lastGroupId, map[]));
      if ok {
        EnableEventPropagation();
      }
    }

    /** `addPuzzle`: the same as `add` for one piece, without the event. */
    method AddPuzzle(h: nat, k: nat)
      requires Valid() && h < |arena| && k < |pieces| && pieces[k].position.Some?
      modifies this
      ensures Valid()
      ensures arena == old(arena)[h := old(arena[h]).(puzzles := MapSet(old(arena[h].puzzles), k))]
      ensures pieces == old(pieces)[k := old(pieces[k]).(group := Some(h))]
      ensures events == old(events) && Book() == old(Book())
    {
      Join(h, k, false);
    }

    /** `removePuzzle`: only that key leaves the group's map. */
    method RemovePuzzle(h: nat, k: nat)
      requires h < |arena|
      modifies this
      ensures arena == old(arena)[h := old(arena[h]).(puzzles := MapDelete(old(arena[h].puzzles), k))]
      ensures pieces == old(pieces) && events == old(events) && Book() == old(Book())
    {
      arena := arena[h := arena[h].(puzzles := MapDelete(arena[h].puzzles, k))];
    }

    /** `resetGroup`: a grouped piece leaves its group's map and its group; an ungrouped one is left alone. */
    method ResetGroup(i: nat)
      requires Valid() && i < |pieces|
      modifies this
      ensures Valid() && old(PieceOk(i))
      ensures pieces == old(pieces)[i := old(pieces[i]).(group := None)]
      ensures arena == if old(pieces[i].group).None? then old(arena)
                       else var h := old(pieces[i].group.value);
                            old(arena)[h := old(arena[h]).(puzzles := MapDelete(old(arena[h].puzzles), i))]
      ensures events == old(events) && Book() == old(Book())
    {
      if pieces[i].group.Some? {
        assert PieceOk(i);
        RemovePuzzle(pieces[i].group.value, i);
        pieces := pieces[i := pieces[i].(group := None)];
        forall q | 0 <= q < |pieces|
          ensures PieceOk(q)
        {
          assert old(PieceOk(q));
        }
        forall g | 0 <= g < |arena|
          ensures GroupOk(g)
        {
          assert old(GroupOk(g));
        }
      }
    }

    /** `PuzzleGroup.move`: the group's position; its members keep their own (relative) positions. */
    method GroupMove(h: nat, pos: Position)
      requires Valid() && h < |arena|
      modifies this
      ensures Valid()
      ensures arena == old(arena)[h := old(arena[h]).(position := pos)]
      ensures pieces == old(pieces) && events == old(events) && Book() == old(Book())
    {
      arena := arena[h := arena[h].(position := pos)];
      forall q | 0 <= q < |pieces|
        ensures PieceOk(q)
      {
        assert old(PieceOk(q));
      }
      forall g | 0 <= g < |arena|
        ensures GroupOk(g)
      {
        assert old(GroupOk(g));
      }
    }

    /** `Puzzle.move`: a grouped piece moves its group, an ungrouped one moves itself. */
    method Move(i: nat, pos: Position)
      requires Valid() && i < |pieces|
      modifies this
      ensures Valid() && old(PieceOk(i))
      ensures old(pieces[i].group).Some? ==>
                pieces == old(pieces) && arena == old(arena)[old(pieces[i].group.value) := old(arena[pieces[i].group.value]).(position := pos)]
      ensures old(pieces[i].group).None? ==>
                arena == old(arena) && pieces == old(pieces)[i := old(pieces[i]).(position := Some(pos))]
      ensures events == old(events) && Book() == old(Book())
    {
      if pieces[i].group.Some? {
        assert PieceOk(i);
        GroupMove(pieces[i].group.value, pos);
      } else {
        AdjustPosition(i, pos);
      }
    }

    /** `addLock`: a piece already locked keeps its first holder. */
    method AddLock(pieceId: int, username: string)
      requires Valid()
      requires pieceId !in locks ==> 0 <= pieceId < |pieces|
      modifies this
      ensures Valid()
      ensures Book() == old(Book()).(locks := AddLockTo(old(locks), pieceId, username))
      ensures pieces == old(pieces) && arena == old(arena) && events == old(events)
    {
      if pieceId in locks {
        return;
      }
      locks := locks[pieceId := username];
    }

    /** `removeLock`: acts only on a locked piece. */
    method RemoveLock(pieceId: int)
      requires Valid()
      modifies this
      ensures Valid()
      ensures Book() == old(Book()).(locks := RemoveLockFrom(old(locks), pieceId))
      ensures pieces == old(pieces) && arena == old(arena) && events == old(events)
    {
      if pieceId in locks {
        locks := locks - {pieceId};
      }
    }

    /** `handlePuzzleMove`: a remote move of a piece. */
    method HandlePuzzleMove(id: int, x: real, y: real)
      requires Valid() && 0 <= id < |pieces|
      modifies this
      ensures Valid()
      ensures pieces == old(pieces)[id := old(pieces[id]).(position := Some(Position(x, y)))]
      ensures arena == old(arena) && events == old(events) && Book() == old(Book())
    {
      AdjustPosition(id, Position(x, y));
    }

    /** `handleGroupMove`: a remote move of the group listed at `id`. */
    method HandleGroupMove(id: int, x: real, y: real)
      requires Valid() && 0 <= id < |groups|
      modifies this
      ensures Valid()
      ensures arena == old(arena)[old(groups[id]) := old(arena[groups[id]]).(position := Position(x, y))]
      ensures pieces == old(pieces) && events == old(events) && Book() == old(Book())
    {
      GroupMove(groups[id], Position(x, y));
    }

    /**
     * `handleGroupCreated`: a remote group is created with the id it was
     * given there, the counter continues after it, and the group is listed.
     */
    method HandleGroupCreated(id: int, x: real, y: real)
      requires Valid()
      modifies this
      ensures Valid()
      ensures arena == old(arena) + [Group(id, Position(x, y), [])]
      ensures groups == old(groups) + [old(|arena|)] && lastGroupId == id + 1
      ensures Book() == old(Book()).(groups := groups, lastGroupId := id + 1)
      ensures pieces == old(pieces) && events == old(events)
    {
      lastGroupId := id;
      var h := CreatePuzzleGroupAt(Position(x, y), false);
      groups := groups + [h];
    }

    /**
     * `handlePuzzleJoin`: a remote join puts the piece into the group listed
     * at `gid`, silently, and then moves it.
     */
    method HandlePuzzleJoin(id: int, x: real, y: real, gid: int)
      requires Valid() && 0 <= id < |pieces| && 0 <= gid < |groups|
      requires pieces[id].position.Some?
      modifies this
      ensures Valid()
      ensures arena == old(arena)[old(groups[gid]) := old(arena[groups[gid]]).(puzzles := MapSet(old(arena[groups[gid]].puzzles), id))]
      ensures pieces == old(pieces)[id := old(pieces[id]).(group := Some(old(groups[gid])), position := Some(Position(x, y)))]
      ensures events == old(events) && Book() == old(Book())
    {
      AddPuzzle(groups[gid], id);
      AdjustPosition(id, Position(x, y));
    }
  }
}
