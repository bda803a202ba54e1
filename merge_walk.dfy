/**
 * The breadth-first walk of `PuzzleGroup.merge`, over values: the queue
 * of pieces still to place, the exclude list, and the facts that hold
 * after each step of the walk.
 */
module MergeWalk {
  import opened Wrappers
  import opened PuzzleSide
  import opened PuzzleCollider
  import opened Puzzle
  import opened PuzzleGroup
  import opened Board

  /**
   * The entries of `found` whose piece is not excluded yet, in order,
   * each piece excluded as soon as it is taken: what the inner loop of
   * `merge` pushes on the queue.
   */
  function Unseen(found: seq<Pending>, exclude: set<nat>): seq<Pending>
    decreases |found|
  {
    if found == [] then []
    else if found[0].piece in exclude then Unseen(found[1..], exclude)
    else [found[0]] + Unseen(found[1..], exclude + {found[0].piece})
  }

  lemma IdsAppend(a: seq<Pending>, b: seq<Pending>)
    ensures Ids(a + b) == Ids(a) + Ids(b)
  {
    forall k | k in Ids(a + b) ensures k in Ids(a) + Ids(b) {
      var e :| e in a + b && e.piece == k;
    }
    forall k | k in Ids(a) + Ids(b) ensures k in Ids(a + b) {
      if k in Ids(a) {
        var e :| e in a && e.piece == k;
        assert e in a + b;
      } else {
        var e :| e in b && e.piece == k;
        assert e in a + b;
      }
    }
  }

  /**
   * What `Unseen` pushes: entries of `found` whose piece was not
   * excluded, each piece once, and afterwards every found piece is
   * excluded.
   */
  lemma {:induction false} UnseenSound(found: seq<Pending>, exclude: set<nat>)
    ensures forall f :: f in Unseen(found, exclude) ==> f in found && f.piece !in exclude
    ensures forall f :: f in found ==> f.piece in exclude + Ids(Unseen(found, exclude))
    ensures forall i, j :: 0 <= i < j < |Unseen(found, exclude)| ==>
              Unseen(found, exclude)[i].piece != Unseen(found, exclude)[j].piece
    decreases |found|
  {
    if found != [] {
      var f := found[0];
      if f.piece in exclude {
        UnseenSound(found[1..], exclude);
        assert found == [f] + found[1..];
      } else {
        var rest := Unseen(found[1..], exclude + {f.piece});
        UnseenSound(found[1..], exclude + {f.piece});
        IdsAppend([f], rest);
        assert found == [f] + found[1..];
        assert Ids([f]) == {f.piece};
        forall i, j | 0 <= i < j < |[f] + rest| ensures ([f] + rest)[i].piece != ([f] + rest)[j].piece {
          if i == 0 {
            assert ([f] + rest)[j] == rest[j - 1];
            assert rest[j - 1] in rest;
          }
        }
      }
    }
  }

  /**
   * The inner loop of `merge`: push every found entry whose piece is not
   * excluded yet, and exclude it.
   */
  method PushUnseen(queue: seq<Pending>, exclude: set<nat>, found: seq<Pending>)
    returns (queue': seq<Pending>, exclude': set<nat>)
    ensures queue' == queue + Unseen(found, exclude)
    ensures exclude' == exclude + Ids(Unseen(found, exclude))
  {
    queue', exclude' := queue, exclude;
    for i := 0 to |found|
      invariant queue' + Unseen(found[i..], exclude') == queue + Unseen(found, exclude)
      invariant |queue| <= |queue'| && exclude' == exclude + Ids(queue'[|queue|..])
    {
      assert found[i..] == [found[i]] + found[i + 1..];
      if found[i].piece !in exclude' {
        IdsAppend(queue'[|queue|..], [found[i]]);
        assert (queue' + [found[i]])[|queue|..] == queue'[|queue|..] + [found[i]];
        assert Ids([found[i]]) == {found[i].piece};
        queue' := queue' + [found[i]];
        exclude' := exclude' + {found[i].piece};
      }
    }
    assert found[|found|..] == [];
    assert (queue + Unseen(found, exclude))[|queue|..] == Unseen(found, exclude);
  }

  /** What `merge` reads besides the pieces: the group objects, the column count, the piece size and the piece it starts from. */
  datatype Walk = Walk(arena: seq<Group>, cols: int, size: real, v: nat)

  /** The board facts the walk relies on: ids match indices, a grouped piece is a placed member of its group, members exist. */
  ghost predicate CtxOk(p0: seq<Piece>, w: Walk) {
    w.v < |p0| && w.cols > 0 && HandlesOk(p0, w.arena)
    && (forall k :: 0 <= k < |p0| ==> p0[k].data.idx == k)
    && (forall k :: 0 <= k < |p0| && p0[k].group.Some? ==>
          p0[k].position.Some? && p0[k].group.value < |w.arena| && k in w.arena[p0[k].group.value].puzzles)
    && (forall h, k :: 0 <= h < |w.arena| && k in w.arena[h].puzzles ==> k < |p0|)
  }

  /** The piece `getNeighbourAtSide(s)` of piece `k` returns, if any. */
  function FoundAt(p: seq<Piece>, w: Walk, k: nat, s: Side): Option<nat>
  {
    if k < |p| && (p[k].group.Some? ==> p[k].group.value < |w.arena|) then
      match NeighbourIn(p, w.arena, w.cols, k, s)
      case Success(Some(n)) => Some(n)
      case _ => None
    else None
  }

  lemma FoundInRange(p0: seq<Piece>, w: Walk, k: nat, s: Side)
    requires CtxOk(p0, w) && FoundAt(p0, w, k, s).Some?
    ensures FoundAt(p0, w, k, s).value < |p0|
  {
    var n := FoundAt(p0, w, k, s).value;
    assert n in w.arena[p0[k].group.value].puzzles;
  }

  /** The piece an entry was found from: its neighbour on the back side. */
  function Finder(e: Pending, cols: int): int {
    match Back(e.side)
    case None => -1
    case Some(b) =>
      match NeighbourIndex(e.piece, b, cols)
      case None => -1
      case Some(x) => x
  }

  /** A queue entry was found at its side of a piece already placed. */
  ghost predicate Queued(p0: seq<Piece>, w: Walk, e: Pending, done: set<nat>) {
    e.side in SIDES && 0 <= Finder(e, w.cols) && Finder(e, w.cols) as nat in done
    && FoundAt(p0, w, Finder(e, w.cols) as nat, e.side) == Some(e.piece)
  }

  lemma QueuedOf(p0: seq<Piece>, w: Walk, x: nat, s: Side, n: nat, done: set<nat>)
    requires CtxOk(p0, w) && x < |p0| && x in done && s in SIDES && FoundAt(p0, w, x, s) == Some(n)
    ensures Queued(p0, w, Pending(n, s), done)
  {
    assert p0[x].data.idx == x;
    NeighbourIndexBack(x, s, w.cols);
  }

  /** The neighbours a lookup of piece `k` at every side found, as entries. */
  ghost predicate ScanOf(p0: seq<Piece>, w: Walk, k: nat, found: seq<Pending>) {
    (forall f :: f in found ==> f.side in SIDES && FoundAt(p0, w, k, f.side) == Some(f.piece))
    && (forall s :: s in SIDES && FoundAt(p0, w, k, s).Some? ==> Pending(FoundAt(p0, w, k, s).value, s) in found)
  }

  /** Looking up all sides of piece `k` on a board whose positions moved finds what it finds on the original board. */
  lemma ScanFrame(p0: seq<Piece>, p: seq<Piece>, w: Walk, k: nat, found: seq<Pending>)
    requires CtxOk(p0, w) && k < |p0| && |p| == |p0| && p[k].data == p0[k].data && p[k].group == p0[k].group
    requires Neighbours(p, w.arena, w.cols, k, SIDES) == Success(found)
    ensures ScanOf(p0, w, k, found)
  {
    NeighboursIgnorePositions(p0, p, w.arena, w.cols, k, SIDES);
  }

  /** Every position outside `done` is the original one, no position is lost; data and groups never change. */
  ghost predicate Frame(p0: seq<Piece>, p: seq<Piece>, done: set<nat>) {
    |p| == |p0|
    && forall k :: 0 <= k < |p| ==>
         p[k].data == p0[k].data && p[k].group == p0[k].group && (k !in done ==> p[k] == p0[k])
         && (p0[k].position.Some? ==> p[k].position.Some?)
  }

  ghost predicate Sets(p0: seq<Piece>, w: Walk, exclude: set<nat>, done: set<nat>) {
    w.v in done && w.v in exclude
    && (forall k :: k in done ==> k < |p0|) && (forall k :: k in exclude ==> k < |p0|)
  }

  ghost predicate AllQueued(p0: seq<Piece>, w: Walk, queue: seq<Pending>, done: set<nat>) {
    forall e :: e in queue ==> Queued(p0, w, e, done)
  }

  /** An excluded piece has been placed or is waiting in the queue. */
  ghost predicate Covered(queue: seq<Pending>, exclude: set<nat>, done: set<nat>) {
    forall k :: k in exclude ==> k in done || k in Ids(queue)
  }

  /** Every neighbour found from a placed piece is placed or waiting. */
  ghost predicate Closed(p0: seq<Piece>, w: Walk, queue: seq<Pending>, done: set<nat>) {
    forall k, s :: k in done && s in SIDES && FoundAt(p0, w, k, s).Some? ==>
      FoundAt(p0, w, k, s).value in done || FoundAt(p0, w, k, s).value in Ids(queue)
  }

  /** The members of the group of the starting piece (none when it has no group). */
  function Members(p0: seq<Piece>, w: Walk): seq<nat> {
    if w.v < |p0| && p0[w.v].group.Some? && p0[w.v].group.value < |w.arena|
    then w.arena[p0[w.v].group.value].puzzles
    else []
  }

  /** The starting piece has a group, and every member of that group points back to it. */
  ghost predicate Coherent(p0: seq<Piece>, w: Walk) {
    w.v < |p0| && p0[w.v].group.Some? && p0[w.v].group.value < |w.arena|
    && forall k :: k in Members(p0, w) ==> k < |p0| && p0[k].group == p0[w.v].group
  }

  ghost predicate Inside(p0: seq<Piece>, w: Walk, done: set<nat>) {
    Coherent(p0, w) ==> forall k :: k in done ==> k in Members(p0, w)
  }

  /** Neighbour `n`, found at side `s` of `k`, sits one piece-size from `k` in the layout and can find `k` back. */
  ghost predicate Link(p0: seq<Piece>, w: Walk, layout: seq<Position>, k: nat, s: Side, n: nat) {
    k < |layout| && n < |layout| && n < |p0|
    && layout[n] == Step(layout[k], s.side, w.size)
    && Back(s).Some? && !IsEdge(p0[n].data.sides, Back(s).value.sideIndex)
  }

  /** A layout of the pieces that every link inside the starting piece's group respects. */
  ghost predicate LinksAgree(p0: seq<Piece>, w: Walk, layout: seq<Position>) {
    Coherent(p0, w) && |layout| == |p0|
    && forall k, s :: k in Members(p0, w) && s in SIDES && FoundAt(p0, w, k, s).Some? ==>
         Link(p0, w, layout, k, s, FoundAt(p0, w, k, s).value)
  }

  /** Where the layout puts piece `k` once piece `v` is at `vpos`. */
  function Target(vpos: Position, layout: seq<Position>, v: nat, k: nat): Position
    requires v < |layout| && k < |layout|
  {
    Translate(vpos, layout[k].x - layout[v].x, layout[k].y - layout[v].y)
  }

  ghost predicate Aligned(p0: seq<Piece>, w: Walk, layout: seq<Position>, p: seq<Piece>, done: set<nat>) {
    (LinksAgree(p0, w, layout) && p0[w.v].position.Some?) ==>
      forall k :: k in done ==>
        k < |p| && k < |layout| && p[k].position == Some(Target(p0[w.v].position.value, layout, w.v, k))
  }

  /** The starting piece is never queued, so it keeps its place. */
  ghost predicate Anchored(p0: seq<Piece>, w: Walk, p: seq<Piece>, queue: seq<Pending>) {
    w.v < |p| && w.v < |p0| && p[w.v] == p0[w.v] && forall e :: e in queue ==> e.piece != w.v
  }

  /** The state of the walk between two turns of its outer loop. */
  ghost predicate WalkInv(p0: seq<Piece>, w: Walk, layout: seq<Position>,
                          p: seq<Piece>, queue: seq<Pending>, exclude: set<nat>, done: set<nat>)
  {
    CtxOk(p0, w) && Frame(p0, p, done) && Sets(p0, w, exclude, done) && AllQueued(p0, w, queue, done)
    && Covered(queue, exclude, done) && Closed(p0, w, queue, done) && Inside(p0, w, done)
    && Aligned(p0, w, layout, p, done) && Anchored(p0, w, p, queue)
  }

  lemma WalkInit(p0: seq<Piece>, w: Walk, layout: seq<Position>, queue: seq<Pending>)
    requires CtxOk(p0, w) && Neighbours(p0, w.arena, w.cols, w.v, SIDES) == Success(queue)
    ensures WalkInv(p0, w, layout, p0, queue, {w.v}, {w.v})
  {
    ScanFrame(p0, p0, w, w.v, queue);
    forall e | e in queue ensures Queued(p0, w, e, {w.v}) && e.piece != w.v {
      QueuedOf(p0, w, w.v, e.side, e.piece, {w.v});
      assert p0[w.v].data.idx == w.v;
    }
    forall k, s | k in {w.v} && s in SIDES && FoundAt(p0, w, k, s).Some?
      ensures FoundAt(p0, w, k, s).value in Ids(queue)
    {
      assert Pending(FoundAt(p0, w, k, s).value, s) in queue;
    }
    if LinksAgree(p0, w, layout) && p0[w.v].position.Some? {
      assert Target(p0[w.v].position.value, layout, w.v, w.v) == p0[w.v].position.value;
    }
  }

  /** The back lookup of a dequeued entry succeeded, and the piece was moved next to what it found. */
  ghost predicate Adjusted(p1: seq<Piece>, p2: seq<Piece>, w: Walk, e: Pending) {
    e.piece < |p1| && Back(e.side).Some? && (p1[e.piece].group.Some? ==> p1[e.piece].group.value < |w.arena|)
    && match NeighbourIn(p1, w.arena, w.cols, e.piece, Back(e.side).value)
       case Failure(_) => false
       case Success(None) => p2 == p1
       case Success(Some(b)) =>
         b < |p1| && p1[b].position.Some?
         && p2 == p1[e.piece := p1[e.piece].(position := Some(Step(p1[b].position.value, e.side.side, w.size)))]
  }

  lemma StepFrame(p0: seq<Piece>, p1: seq<Piece>, p2: seq<Piece>, w: Walk, e: Pending, d1: set<nat>)
    requires Frame(p0, p1, d1) && Adjusted(p1, p2, w, e)
    ensures Frame(p0, p2, d1 + {e.piece})
  {
  }

  lemma StepSets(p0: seq<Piece>, w: Walk, e: Pending, found: seq<Pending>, ex1: set<nat>, d1: set<nat>)
    requires CtxOk(p0, w) && Sets(p0, w, ex1, d1) && Queued(p0, w, e, d1) && ScanOf(p0, w, e.piece, found)
    ensures Sets(p0, w, ex1 + Ids(Unseen(found, ex1)), d1 + {e.piece})
  {
    FoundInRange(p0, w, Finder(e, w.cols) as nat, e.side);
    UnseenSound(found, ex1);
    forall k | k in Ids(Unseen(found, ex1)) ensures k < |p0| {
      var f :| f in Unseen(found, ex1) && f.piece == k;
      FoundInRange(p0, w, e.piece, f.side);
    }
  }

  lemma StepQueued(p0: seq<Piece>, w: Walk, q1: seq<Pending>, found: seq<Pending>, ex1: set<nat>, d1: set<nat>)
    requires CtxOk(p0, w) && q1 != [] && AllQueued(p0, w, q1, d1) && q1[0].piece < |p0| && ScanOf(p0, w, q1[0].piece, found)
    ensures AllQueued(p0, w, q1[1..] + Unseen(found, ex1), d1 + {q1[0].piece})
  {
    var d2 := d1 + {q1[0].piece};
    UnseenSound(found, ex1);
    forall e | e in q1[1..] + Unseen(found, ex1) ensures Queued(p0, w, e, d2) {
      if e in q1[1..] {
        assert e in q1;
      } else {
        QueuedOf(p0, w, q1[0].piece, e.side, e.piece, d2);
      }
    }
  }

  lemma StepCovered(q1: seq<Pending>, found: seq<Pending>, ex1: set<nat>, d1: set<nat>)
    requires q1 != [] && Covered(q1, ex1, d1)
    ensures Covered(q1[1..] + Unseen(found, ex1), ex1 + Ids(Unseen(found, ex1)), d1 + {q1[0].piece})
  {
    IdsAppend([q1[0]], q1[1..]);
    assert q1 == [q1[0]] + q1[1..];
    assert Ids([q1[0]]) == {q1[0].piece};
    IdsAppend(q1[1..], Unseen(found, ex1));
  }

  lemma StepClosed(p0: seq<Piece>, w: Walk, q1: seq<Pending>, found: seq<Pending>, ex1: set<nat>, d1: set<nat>)
    requires q1 != [] && Closed(p0, w, q1, d1) && ScanOf(p0, w, q1[0].piece, found)
    requires Covered(q1[1..] + Unseen(found, ex1), ex1 + Ids(Unseen(found, ex1)), d1 + {q1[0].piece})
    ensures Closed(p0, w, q1[1..] + Unseen(found, ex1), d1 + {q1[0].piece})
  {
    var q2, d2 := q1[1..] + Unseen(found, ex1), d1 + {q1[0].piece};
    IdsAppend([q1[0]], q1[1..]);
    assert q1 == [q1[0]] + q1[1..];
    assert Ids([q1[0]]) == {q1[0].piece};
    IdsAppend(q1[1..], Unseen(found, ex1));
    UnseenSound(found, ex1);
    forall k, s | k in d2 && s in SIDES && FoundAt(p0, w, k, s).Some?
      ensures FoundAt(p0, w, k, s).value in d2 || FoundAt(p0, w, k, s).value in Ids(q2)
    {
      if k == q1[0].piece {
        assert Pending(FoundAt(p0, w, k, s).value, s) in found;
      }
    }
  }

  lemma StepInside(p0: seq<Piece>, w: Walk, e: Pending, d1: set<nat>)
    requires CtxOk(p0, w) && Inside(p0, w, d1) && Queued(p0, w, e, d1)
    ensures Inside(p0, w, d1 + {e.piece})
  {
    if Coherent(p0, w) {
      var x := Finder(e, w.cols) as nat;
      assert x in Members(p0, w);
      assert e.piece in w.arena[p0[x].group.value].puzzles;
    }
  }

  /** Moving a piece one step from its finder's target lands it on its own target. */
  lemma StepAligned(p0: seq<Piece>, w: Walk, layout: seq<Position>, p1: seq<Piece>, p2: seq<Piece>, e: Pending, d1: set<nat>)
    requires CtxOk(p0, w) && Frame(p0, p1, d1) && Inside(p0, w, d1) && Aligned(p0, w, layout, p1, d1)
    requires Queued(p0, w, e, d1) && Adjusted(p1, p2, w, e)
    ensures Aligned(p0, w, layout, p2, d1 + {e.piece})
  {
    if LinksAgree(p0, w, layout) && p0[w.v].position.Some? {
      var x, n := Finder(e, w.cols) as nat, e.piece;
      var vpos := p0[w.v].position.value;
      assert x in Members(p0, w);
      assert Link(p0, w, layout, x, e.side, n);
      assert n in Members(p0, w) by {
        assert n in w.arena[p0[x].group.value].puzzles;
      }
      NeighbourInBack(p0, w.arena, w.cols, x, e.side);
      NeighboursIgnorePositions(p0, p1, w.arena, w.cols, n, []);
      assert NeighbourIn(p1, w.arena, w.cols, n, Back(e.side).value) == Success(Some(x));
      assert p1[x].position == Some(Target(vpos, layout, w.v, x));
      assert Step(Target(vpos, layout, w.v, x), e.side.side, w.size) == Target(vpos, layout, w.v, n);
    }
  }

  /** One turn of the outer loop of `merge` keeps the walk's invariant. */
  lemma WalkStep(p0: seq<Piece>, w: Walk, layout: seq<Position>,
                 p1: seq<Piece>, q1: seq<Pending>, ex1: set<nat>, d1: set<nat>,
                 p2: seq<Piece>, found: seq<Pending>)
    requires WalkInv(p0, w, layout, p1, q1, ex1, d1) && q1 != []
    requires Adjusted(p1, p2, w, q1[0]) && ScanOf(p0, w, q1[0].piece, found)
    ensures WalkInv(p0, w, layout, p2, q1[1..] + Unseen(found, ex1), ex1 + Ids(Unseen(found, ex1)), d1 + {q1[0].piece})
  {
    var e := q1[0];
    assert Queued(p0, w, e, d1);
    StepFrame(p0, p1, p2, w, e, d1);
    StepSets(p0, w, e, found, ex1, d1);
    StepQueued(p0, w, q1, found, ex1, d1);
    StepCovered(q1, found, ex1, d1);
    StepClosed(p0, w, q1, found, ex1, d1);
    StepInside(p0, w, e, d1);
    StepAligned(p0, w, layout, p1, p2, e, d1);
    UnseenSound(found, ex1);
  }

  /**
   * Inside a coherent group the walk never meets a piece without a group,
   * so neither lookup of a dequeued entry fails.
   */
  lemma WalkNoCrash(p0: seq<Piece>, w: Walk, layout: seq<Position>,
                    p1: seq<Piece>, q1: seq<Pending>, ex1: set<nat>, d1: set<nat>)
    requires WalkInv(p0, w, layout, p1, q1, ex1, d1) && q1 != [] && Coherent(p0, w)
    ensures q1[0].piece < |p1| && p1[q1[0].piece].group.Some?
    ensures q1[0].piece in Members(p0, w)
  {
    var e := q1[0];
    assert Queued(p0, w, e, d1);
    var x := Finder(e, w.cols) as nat;
    assert x in Members(p0, w);
    assert e.piece in w.arena[p0[x].group.value].puzzles;
  }

  /** The pieces below `n` not excluded yet: what bounds the walk. */
  function Remaining(n: nat, exclude: set<nat>): set<nat> {
    set k | 0 <= k < n && k !in exclude
  }

  lemma RemainingShrinks(n: nat, ex1: set<nat>, ex2: set<nat>)
    requires ex1 <= ex2 && ex1 != ex2 && forall k :: k in ex2 ==> k < n
    ensures Remaining(n, ex2) < Remaining(n, ex1)
  {
    var y :| y in ex2 && y !in ex1;
    assert y in Remaining(n, ex1);
  }

  /** What a turn needs before its lookups: the entry's piece exists, has a back side, and has a group inside a coherent walk. */
  lemma VisitPre(p0: seq<Piece>, w: Walk, layout: seq<Position>,
                 p: seq<Piece>, queue: seq<Pending>, exclude: set<nat>, done: set<nat>)
    requires WalkInv(p0, w, layout, p, queue, exclude, done) && queue != []
    ensures queue[0].piece < |p| && Back(queue[0].side).Some?
    ensures Coherent(p0, w) ==> p[queue[0].piece].group.Some?
  {
    var e := queue[0];
    assert Queued(p0, w, e, done);
    FoundInRange(p0, w, Finder(e, w.cols) as nat, e.side);
    NeighbourIndexBack(e.piece, e.side, w.cols);
    if Coherent(p0, w) {
      WalkNoCrash(p0, w, layout, p, queue, exclude, done);
    }
  }

  /** A piece that moved has a group, so looking up its neighbours cannot fail afterwards. */
  lemma ScanFailsUnmoved(p1: seq<Piece>, p2: seq<Piece>, w: Walk, e: Pending)
    requires Adjusted(p1, p2, w, e) && e.piece < |p2| && (p2[e.piece].group.Some? ==> p2[e.piece].group.value < |w.arena|)
    requires Neighbours(p2, w.arena, w.cols, e.piece, SIDES).Failure?
    ensures p2 == p1
  {
  }

  /** After a turn: the invariant holds again, and either more pieces are excluded or the queue is shorter. */
  lemma VisitPost(p0: seq<Piece>, w: Walk, layout: seq<Position>,
                  p1: seq<Piece>, queue: seq<Pending>, exclude: set<nat>, done: set<nat>,
                  p2: seq<Piece>, found: seq<Pending>)
    requires WalkInv(p0, w, layout, p1, queue, exclude, done) && queue != []
    requires Adjusted(p1, p2, w, queue[0])
    requires queue[0].piece < |p2| && (p2[queue[0].piece].group.Some? ==> p2[queue[0].piece].group.value < |w.arena|)
    requires Neighbours(p2, w.arena, w.cols, queue[0].piece, SIDES) == Success(found)
    ensures WalkInv(p0, w, layout, p2, queue[1..] + Unseen(found, exclude), exclude + Ids(Unseen(found, exclude)), done + {queue[0].piece})
    ensures exclude + Ids(Unseen(found, exclude)) == exclude ==> Unseen(found, exclude) == []
  {
    var e := queue[0];
    assert Queued(p0, w, e, done);
    FoundInRange(p0, w, Finder(e, w.cols) as nat, e.side);
    StepFrame(p0, p1, p2, w, e, done);
    ScanFrame(p0, p2, w, e.piece, found);
    WalkStep(p0, w, layout, p1, queue, exclude, done, p2, found);
    UnseenSound(found, exclude);
    if Unseen(found, exclude) != [] {
      assert Unseen(found, exclude)[0] in Unseen(found, exclude);
    }
  }

  /** The walk never takes a position away. */
  lemma FrameLaid(p0: seq<Piece>, p: seq<Piece>, done: set<nat>)
    requires Frame(p0, p, done) && Laid(p0)
    ensures Laid(p)
  {
    forall k | 0 <= k < |p| ensures p[k].position.Some? {
      assert p0[k].position.Some?;
    }
  }

  /** Moving one piece changes neither the walked group nor its coherence. */
  lemma CoherentIgnoresMove(p1: seq<Piece>, w: Walk, i: nat, pos: Position)
    requires i < |p1|
    ensures Members(p1[i := p1[i].(position := Some(pos))], w) == Members(p1, w)
    ensures Coherent(p1[i := p1[i].(position := Some(pos))], w) == Coherent(p1, w)
  {
  }
}
