/**
 * What `replay` does to the board, as values: every piece first leaves its
 * group, then each logged action is decoded the client's own way and
 * applied, until the log ends or an action fails on a missing piece,
 * group or field.
 */
module Replay {
  import opened Wrappers
  import opened Text
  import opened Actions
  import opened PuzzleCollider
  import opened PuzzleGroup
  import opened Board

  /** The part of the board `replay` changes, with its local map from logged group ids to group handles. */
  datatype Replayed = Replayed(pieces: seq<Piece>, arena: seq<Group>, lastGroupId: int, index: map<int, nat>)

  predicate IndexOk(index: map<int, nat>, n: nat) {
    forall id :: id in index ==> index[id] < n
  }

  /** Every handle the state holds names a group object that exists. */
  predicate Wf(r: Replayed) {
    HandlesOk(r.pieces, r.arena) && IndexOk(r.index, |r.arena|)
  }

  /** `resetGroup` on piece `i`: a grouped piece leaves its group's map and its group. */
  function Ungroup(r: Replayed, i: nat): (o: Replayed)
    requires Wf(r) && i < |r.pieces|
    ensures Wf(o) && |o.pieces| == |r.pieces| && |o.arena| == |r.arena|
  {
    match r.pieces[i].group
    case None => r
    case Some(h) =>
      r.(arena := r.arena[h := r.arena[h].(puzzles := MapDelete(r.arena[h].puzzles, i))],
         pieces := r.pieces[i := r.pieces[i].(group := None)])
  }

  /** `resetGroup` on the first `n` pieces, in order. */
  function UngroupAll(r: Replayed, n: nat): (o: Replayed)
    requires Wf(r) && n <= |r.pieces|
    ensures Wf(o) && |o.pieces| == |r.pieces| && |o.arena| == |r.arena|
  {
    if n == 0 then r else Ungroup(UngroupAll(r, n - 1), n - 1)
  }

  /**
   * After the reset, the first `n` pieces have no group and keep their data
   * and positions; every group object keeps its id and position, and its
   * map loses exactly the keys among the first `n` pieces that pointed to it.
   */
  lemma {:induction false} UngroupAllMeaning(r: Replayed, n: nat)
    requires Wf(r) && n <= |r.pieces|
    ensures var o := UngroupAll(r, n);
            o.lastGroupId == r.lastGroupId && o.index == r.index
            && (forall i :: 0 <= i < |r.pieces| ==>
                  o.pieces[i].data == r.pieces[i].data && o.pieces[i].position == r.pieces[i].position
                  && o.pieces[i].group == (if i < n then None else r.pieces[i].group))
            && (forall h :: 0 <= h < |r.arena| ==>
                  o.arena[h].id == r.arena[h].id && o.arena[h].position == r.arena[h].position
                  && forall k :: k in o.arena[h].puzzles <==>
                                   k in r.arena[h].puzzles && !(k < n && r.pieces[k].group == Some(h)))
  {
    if n > 0 {
      UngroupAllMeaning(r, n - 1);
    }
  }

  function Pos(x: int, y: int): Position {
    Position(x as real, y as real)
  }

  /**
   * One line of the log, split on ',' and parsed field by field
   * (`None`: missing or not a number). Kinds 0 and 1 move a piece; 4
   * creates a group with the next counter id and remembers it under the
   * logged id; 2 puts a piece into a remembered group, silently, and moves
   * it; 3 moves a remembered group; any other kind is skipped. `None`
   * stands for the action failing.
   */
  function StepLine(r: Replayed, ns: seq<Option<int>>): (o: Option<Replayed>)
    requires Wf(r)
    ensures o.Some? ==> Wf(o.value) && |o.value.pieces| == |r.pieces|
  {
    var kind, id, x, y, gid := At(ns, 0), At(ns, 1), At(ns, 2), At(ns, 3), At(ns, 4);
    if kind == Some(PUZZLE_CREATE_ACTION) || kind == Some(PUZZLE_MOVE_ACTION) then
      if id.Some? && 0 <= id.value < |r.pieces| && x.Some? && y.Some? then
        var k := id.value;
        Some(r.(pieces := r.pieces[k := r.pieces[k].(position := Some(Pos(x.value, y.value)))]))
      else None
    else if kind == Some(GROUP_CREATE_ACTION) then
      if id.Some? && x.Some? && y.Some? then
        Some(Replayed(r.pieces, r.arena + [Group(r.lastGroupId, Pos(x.value, y.value), [])],
                      r.lastGroupId + 1, r.index[id.value := |r.arena|]))
      else None
    else if kind == Some(PUZZLE_JOIN_ACTION) then
      if gid.Some? && gid.value in r.index && id.Some? && 0 <= id.value < |r.pieces|
         && r.pieces[id.value].position.Some? && x.Some? && y.Some? then
        var g := gid.value;
        assert g in r.index;
        assert r.index[g] < |r.arena|;
        var h := r.index[g];
        var k := id.value;
        Some(r.(arena := r.arena[h := r.arena[h].(puzzles := MapSet(r.arena[h].puzzles, k))],
                pieces := r.pieces[k := r.pieces[k].(group := Some(h), position := Some(Pos(x.value, y.value)))]))
      else None
    else if kind == Some(GROUP_MOVE_ACTION) then
      if id.Some? && id.value in r.index && x.Some? && y.Some? then
        assert IndexOk(r.index, |r.arena|);
        var h := r.index[id.value];
        Some(r.(arena := r.arena[h := r.arena[h].(position := Pos(x.value, y.value))]))
      else None
    else Some(r)
  }

  /** The fields of one line, as `replay` reads them. */
  function Parts(s: string): seq<Option<int>> {
    ParseAll(Split(s, ','))
  }

  /**
   * The log applied in order: the state reached and whether every action
   * went through; on a failing action, the state just before it.
   */
  function Run(r: Replayed, log: seq<string>): (res: (Replayed, bool))
    requires Wf(r)
    ensures Wf(res.0) && |res.0.pieces| == |r.pieces|
    decreases |log|
  {
    if log == [] then (r, true)
    else match StepLine(r, Parts(log[0]))
      case None => (r, false)
      case Some(r') => Run(r', log[1..])
  }

  /** Replaying `a ++ b` is replaying `b` from where `a` left off, unless `a` already failed. */
  lemma {:induction false} RunAppend(r: Replayed, a: seq<string>, b: seq<string>)
    requires Wf(r)
    ensures Run(r, a + b) == if Run(r, a).1 then Run(Run(r, a).0, b) else Run(r, a)
    decreases |a|
  {
    if a != [] {
      assert (a + b)[0] == a[0] && (a + b)[1..] == a[1..] + b;
      match StepLine(r, Parts(a[0]))
      case None =>
      case Some(r') => RunAppend(r', a[1..], b);
    } else {
      assert a + b == b;
    }
  }

  /** A line that fails ends the replay: the rest of the log is never read. */
  lemma {:induction false} RunStops(r: Replayed, log: seq<string>, k: nat)
    requires Wf(r) && k < |log| && Run(r, log[..k]).1
    requires StepLine(Run(r, log[..k]).0, Parts(log[k])).None?
    ensures Run(r, log) == (Run(r, log[..k]).0, false)
    decreases k
  {
    if k > 0 {
      var r' := StepLine(r, Parts(log[0]));
      assert log[..k][0] == log[0];
      assert r'.Some?;
      assert log[..k][1..] == log[1..][..k - 1];
      RunStops(r'.value, log[1..], k - 1);
    }
  }

  /**
   * The client's decoding agrees with the server's `Action.fromString`: a
   * line that decodes to an action is applied as that action, a line whose
   * kind is missing, not a number or no known code is skipped, and a line
   * of a known kind that does not decode stops the replay.
   */
  lemma StepDecodes(r: Replayed, s: string)
    requires Wf(r)
    ensures var ns := Parts(s);
            match FromString(s)
            case Some(a) => StepLine(r, ns) == ActionStep(r, a)
            case None =>
              if At(ns, 0).Some? && 0 <= At(ns, 0).value < 5 then StepLine(r, ns).None? else StepLine(r, ns) == Some(r)
  {
    FromStringFields(s);
  }

  /** Each decoded action's effect on the replayed board. */
  function ActionStep(r: Replayed, a: Action): (o: Option<Replayed>)
    requires Wf(r)
  {
    match a
    case PuzzleCreate(id, x, y) => MovePiece(r, id, x, y)
    case PuzzleMove(id, x, y) => MovePiece(r, id, x, y)
    case GroupCreate(id, x, y) =>
      Some(Replayed(r.pieces, r.arena + [Group(r.lastGroupId, Pos(x, y), [])], r.lastGroupId + 1, r.index[id := |r.arena|]))
    case PuzzleJoinGroup(id, x, y, gid) =>
      if gid in r.index && 0 <= id < |r.pieces| && r.pieces[id].position.Some? then
        var h := r.index[gid];
        Some(r.(arena := r.arena[h := r.arena[h].(puzzles := MapSet(r.arena[h].puzzles, id))],
                pieces := r.pieces[id := r.pieces[id].(group := Some(h), position := Some(Pos(x, y)))]))
      else None
    case GroupMove(id, x, y) =>
      if id in r.index then
        var h := r.index[id];
        Some(r.(arena := r.arena[h := r.arena[h].(position := Pos(x, y))]))
      else None
  }

  function MovePiece(r: Replayed, id: int, x: int, y: int): Option<Replayed> {
    if 0 <= id < |r.pieces| then Some(r.(pieces := r.pieces[id := r.pieces[id].(position := Some(Pos(x, y)))]))
    else None
  }

  /**
   * Replaying an encoded group creation makes a group object named by the
   * counter, not by the logged id, which only keys the local map.
   */
  lemma ReplayedGroupTakesCounter(r: Replayed, id: int, x: int, y: int)
    requires Wf(r)
    ensures var o := StepLine(r, Parts(ToString(GroupCreate(id, x, y))));
            o == Some(Replayed(r.pieces, r.arena + [Group(r.lastGroupId, Pos(x, y), [])],
                               r.lastGroupId + 1, r.index[id := |r.arena|]))
  {
    StepDecodes(r, ToString(GroupCreate(id, x, y)));
    FromStringToString(GroupCreate(id, x, y));
  }
}
