/**
 * The server-side puzzle state that actions are folded onto: a map of
 * pieces `id -> {x, y, gid | null}` and a map of groups `id -> {x, y}`.
 * `Transition` and `Fold` specify the transitions; the class `Snapshot`
 * performs them in place, as the source does.
 */
module Snapshots {
  import opened Wrappers
  import opened Actions

  datatype Piece = Piece(x: int, y: int, gid: Option<int>)
  datatype Group = Group(x: int, y: int)

  /** What `stringify` serialises: pieces and groups, never `lastMessageId`. */
  datatype State = State(pieces: map<int, Piece>, groups: map<int, Group>)

  const Empty: State := State(map[], map[])

  /**
   * One transition. A move or join of a piece, or a move of a group, whose
   * entry does not exist dereferences `undefined` in the source (a
   * TypeError): that is `None` here.
   */
  function Transition(s: State, a: Action): (r: Option<State>)
    ensures r.None? <==> ((a.PuzzleMove? || a.PuzzleJoinGroup?) && a.id !in s.pieces)
                         || (a.GroupMove? && a.id !in s.groups)
  {
    match a
    case PuzzleCreate(id, x, y) => Some(s.(pieces := s.pieces[id := Piece(x, y, None)]))
    case PuzzleMove(id, x, y) =>
      if id in s.pieces then Some(s.(pieces := s.pieces[id := s.pieces[id].(x := x, y := y)])) else None
    case PuzzleJoinGroup(id, x, y, gid) =>
      if id in s.pieces then Some(s.(pieces := s.pieces[id := Piece(x, y, Some(gid))])) else None
    case GroupMove(id, x, y) =>
      if id in s.groups then Some(s.(groups := s.groups[id := Group(x, y)])) else None
    case GroupCreate(id, x, y) => Some(s.(groups := s.groups[id := Group(x, y)]))
  }

  /** Apply a sequence of actions in order, stopping at the first failure. */
  function Fold(s: State, actions: seq<Action>): Option<State>
    decreases |actions|
  {
    if actions == [] then Some(s)
    else
      match Transition(s, actions[0])
      case None => None
      case Some(t) => Fold(t, actions[1..])
  }

  /** `base` with every entry of `top` written over it. */
  function Override(base: State, top: State): (r: State)
  {
    State(base.pieces + top.pieces, base.groups + top.groups)
  }

  /** Every transition writes the same values however often it runs. */
  lemma ApplyIdempotent(s: State, a: Action)
    requires Transition(s, a).Some?
    ensures Transition(Transition(s, a).value, a) == Transition(s, a)
  {
    var t := Transition(s, a).value;
    match a
    case PuzzleCreate(id, x, y) =>
      assert t.pieces[id := Piece(x, y, None)] == t.pieces;
    case PuzzleMove(id, x, y) =>
      assert t.pieces[id := t.pieces[id].(x := x, y := y)] == t.pieces;
    case PuzzleJoinGroup(id, x, y, gid) =>
      assert t.pieces[id := Piece(x, y, Some(gid))] == t.pieces;
    case GroupMove(id, x, y) =>
      assert t.groups[id := Group(x, y)] == t.groups;
    case GroupCreate(id, x, y) =>
      assert t.groups[id := Group(x, y)] == t.groups;
  }

  /** A piece action leaves the groups and every other piece as they were. */
  lemma ApplyFrame(s: State, a: Action)
    requires Transition(s, a).Some?
    ensures var t := Transition(s, a).value;
            (forall k :: k in s.pieces && k != a.id ==> k in t.pieces && t.pieces[k] == s.pieces[k])
            && (forall k :: k in s.groups && k != a.id ==> k in t.groups && t.groups[k] == s.groups[k])
    ensures var t := Transition(s, a).value;
            (a.PuzzleCreate? || a.PuzzleMove? || a.PuzzleJoinGroup?) ==> t.groups == s.groups && t.pieces.Keys == s.pieces.Keys + {a.id}
    ensures var t := Transition(s, a).value;
            (a.GroupCreate? || a.GroupMove?) ==> t.pieces == s.pieces && t.groups.Keys == s.groups.Keys + {a.id}
    ensures a.PuzzleMove? ==> Transition(s, a).value.pieces[a.id].gid == s.pieces[a.id].gid
  {
  }

  /** Folding `xs + ys` is folding `ys` onto the result of folding `xs`. */
  lemma {:induction false} FoldConcat(s: State, xs: seq<Action>, ys: seq<Action>)
    ensures Fold(s, xs + ys) == (match Fold(s, xs) case None => None case Some(t) => Fold(t, ys))
    decreases |xs|
  {
    if xs != [] {
      assert (xs + ys)[0] == xs[0];
      assert (xs + ys)[1..] == xs[1..] + ys;
      match Transition(s, xs[0])
      case None =>
      case Some(t) => FoldConcat(t, xs[1..], ys);
    } else {
      assert xs + ys == ys;
    }
  }

  /** One transition commutes with writing its input over any base state. */
  lemma ApplyOverride(base: State, s: State, a: Action)
    requires Transition(s, a).Some?
    ensures Transition(Override(base, s), a) == Some(Override(base, Transition(s, a).value))
  {
    var o := Override(base, s);
    var t := Transition(s, a).value;
    match a
    case PuzzleCreate(id, x, y) =>
      assert o.pieces[id := Piece(x, y, None)] == base.pieces + t.pieces;
    case PuzzleMove(id, x, y) =>
      assert o.pieces[id := o.pieces[id].(x := x, y := y)] == base.pieces + t.pieces;
    case PuzzleJoinGroup(id, x, y, gid) =>
      assert o.pieces[id := Piece(x, y, Some(gid))] == base.pieces + t.pieces;
    case GroupMove(id, x, y) =>
      assert o.groups[id := Group(x, y)] == base.groups + t.groups;
    case GroupCreate(id, x, y) =>
      assert o.groups[id := Group(x, y)] == base.groups + t.groups;
  }

  /** A fold that succeeds on `s` succeeds on any base overridden by `s`. */
  lemma {:induction false} FoldOverride(base: State, s: State, actions: seq<Action>)
    requires Fold(s, actions).Some?
    ensures Fold(Override(base, s), actions) == Some(Override(base, Fold(s, actions).value))
    decreases |actions|
  {
    if actions != [] {
      var t := Transition(s, actions[0]).value;
      ApplyOverride(base, s, actions[0]);
      FoldOverride(base, t, actions[1..]);
    }
  }

  /** The empty state is neutral on both sides, and overriding a state by itself keeps it. */
  lemma OverrideLaws(s: State)
    ensures Override(s, Empty) == s && Override(Empty, s) == s && Override(s, s) == s
  {
    assert s.pieces + map[] == s.pieces && map[] + s.pieces == s.pieces && s.pieces + s.pieces == s.pieces;
    assert s.groups + map[] == s.groups && map[] + s.groups == s.groups && s.groups + s.groups == s.groups;
  }

  /**
   * A log whose fold from the empty state gives `d` rewrites every entry it
   * touches: folded onto any `base`, it yields `base` overridden by `d`.
   * In particular folding it again onto `d` gives `d`.
   */
  lemma FoldFromEmptyOverrides(base: State, actions: seq<Action>)
    requires Fold(Empty, actions).Some?
    ensures Fold(base, actions) == Some(Override(base, Fold(Empty, actions).value))
    ensures Fold(Fold(Empty, actions).value, actions) == Fold(Empty, actions)
  {
    var d := Fold(Empty, actions).value;
    OverrideLaws(base);
    OverrideLaws(d);
    FoldOverride(base, Empty, actions);
    FoldOverride(d, Empty, actions);
  }

  /** A snapshot of the first `k` actions, with every action folded onto it again. */
  lemma FoldFromSnapshot(actions: seq<Action>, d: State, k: nat)
    requires k <= |actions| && Fold(Empty, actions[..k]) == Some(d)
    ensures Fold(d, actions) == Fold(Empty, actions)
  {
    assert actions == actions[..k] + actions[k..];
    FoldConcat(Empty, actions[..k], actions[k..]);
    FoldConcat(d, actions[..k], actions[k..]);
    FoldFromEmptyOverrides(d, actions[..k]);
    OverrideLaws(d);
  }

  /**
   * A snapshot of the first `k` actions, with the actions from `k - 1` on
   * folded onto it: running the last action it covers once more is harmless.
   */
  lemma FoldFromBoundary(actions: seq<Action>, d: State, k: nat)
    requires 1 <= k <= |actions| && Fold(Empty, actions[..k]) == Some(d)
    ensures Fold(d, actions[k - 1..]) == Fold(Empty, actions)
  {
    var xs, a, ys := actions[..k - 1], actions[k - 1], actions[k..];
    assert actions[..k] == xs + [a];
    assert actions[k - 1..] == [a] + ys;
    assert actions == (xs + [a]) + ys;
    RefoldLast(xs, a, ys, d);
  }

  /** The step of `FoldFromBoundary`, on the log cut into its three parts. */
  lemma RefoldLast(xs: seq<Action>, a: Action, ys: seq<Action>, d: State)
    requires Fold(Empty, xs + [a]) == Some(d)
    ensures Fold(d, [a] + ys) == Fold(Empty, (xs + [a]) + ys)
  {
    FoldConcat(Empty, xs, [a]);
    var t := Fold(Empty, xs).value;
    FoldConcat(t, [a], []);
    assert [a] + [] == [a];
    assert Transition(t, a) == Some(d);
    ApplyIdempotent(t, a);
    FoldConcat(d, [a], ys);
    FoldConcat(Empty, xs + [a], ys);
  }

  /**
   * The mutable snapshot. `lastMessageId` is `None` until it is set: the
   * constructor takes over the maps of the state it is given but not its
   * `lastMessageId`.
   */
  class Snapshot {
    var pieces: map<int, Piece>
    var groups: map<int, Group>
    var lastMessageId: Option<nat>

    /** `stringify`: pieces and groups only. */
    function Stringify(): State
      reads this
    {
      State(pieces, groups)
    }

    constructor(initialState: Option<State>)
      ensures initialState.None? ==> Stringify() == Empty
      ensures initialState.Some? ==> Stringify() == initialState.value
      ensures lastMessageId.None?
    {
      pieces := if initialState.Some? then initialState.value.pieces else map[];
      groups := if initialState.Some? then initialState.value.groups else map[];
      lastMessageId := None;
    }

    method SetLastMessageId(id: nat)
      modifies this
      ensures lastMessageId == Some(id)
      ensures Stringify() == old(Stringify())
    {
      lastMessageId := Some(id);
    }

    method ApplyGroupMove(id: int, x: int, y: int) returns (ok: bool)
      modifies this
      ensures ok <==> id in old(groups)
      ensures groups == if ok then old(groups)[id := Group(x, y)] else old(groups)
      ensures pieces == old(pieces) && lastMessageId == old(lastMessageId)
    {
      if id !in groups {
        return false;
      }
      groups := groups[id := groups[id].(x := x)];
      groups := groups[id := groups[id].(y := y)];
      return true;
    }

    method ApplyPuzzleMove(id: int, x: int, y: int) returns (ok: bool)
      modifies this
      ensures ok <==> id in old(pieces)
      ensures ok ==> pieces == old(pieces)[id := old(pieces)[id].(x := x, y := y)]
      ensures !ok ==> pieces == old(pieces)
      ensures groups == old(groups) && lastMessageId == old(lastMessageId)
    {
      if id !in pieces {
        return false;
      }
      pieces := pieces[id := pieces[id].(x := x)];
      pieces := pieces[id := pieces[id].(y := y)];
      assert pieces == old(pieces)[id := old(pieces)[id].(x := x, y := y)];
      return true;
    }

    method ApplyGroupCreate(id: int, x: int, y: int)
      modifies this
      ensures groups == old(groups)[id := Group(x, y)]
      ensures pieces == old(pieces) && lastMessageId == old(lastMessageId)
    {
      groups := groups[id := Group(x, y)];
    }

    method ApplyPuzzleJoinGroup(id: int, x: int, y: int, gid: int) returns (ok: bool)
      modifies this
      ensures ok <==> id in old(pieces)
      ensures pieces == if ok then old(pieces)[id := Piece(x, y, Some(gid))] else old(pieces)
      ensures groups == old(groups) && lastMessageId == old(lastMessageId)
    {
      if id !in pieces {
        return false;
      }
      pieces := pieces[id := pieces[id].(gid := Some(gid))];
      pieces := pieces[id := pieces[id].(x := x)];
      pieces := pieces[id := pieces[id].(y := y)];
      return true;
    }

    method ApplyPuzzleCreate(id: int, x: int, y: int)
      modifies this
      ensures pieces == old(pieces)[id := Piece(x, y, None)]
      ensures groups == old(groups) && lastMessageId == old(lastMessageId)
    {
      pieces := pieces[id := Piece(x, y, None)];
    }

    /**
     * `apply(action)`, which `accept`s into the matching `apply*` method.
     * `ok` is false where the source raises a TypeError; the state is then
     * as before, since every failing transition fails before its first write.
     */
    method Apply(a: Action) returns (ok: bool)
      modifies this
      ensures ok <==> Transition(old(Stringify()), a).Some?
      ensures ok ==> Stringify() == Transition(old(Stringify()), a).value
      ensures !ok ==> Stringify() == old(Stringify())
      ensures lastMessageId == old(lastMessageId)
    {
      match a
      case PuzzleCreate(id, x, y) =>
        ApplyPuzzleCreate(id, x, y);
        ok := true;
      case PuzzleMove(id, x, y) =>
        ok := ApplyPuzzleMove(id, x, y);
      case PuzzleJoinGroup(id, x, y, gid) =>
        ok := ApplyPuzzleJoinGroup(id, x, y, gid);
      case GroupMove(id, x, y) =>
        ok := ApplyGroupMove(id, x, y);
      case GroupCreate(id, x, y) =>
        ApplyGroupCreate(id, x, y);
        ok := true;
    }
  }
}
