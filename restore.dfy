/**
 * A saved `PuzzleState` as `applyProgress` reads it, and what it makes of
 * the pieces and group objects: group entries in the order the object
 * lists them, piece entries by piece index.
 */
module Restore {
  import opened Wrappers
  import opened PuzzleCollider
  import opened PuzzleGroup
  import opened Board

  datatype GroupState = GroupState(x: real, y: real)
  datatype PieceState = PieceState(x: real, y: real, gid: Option<int>)
  datatype PuzzleState = PuzzleState(groups: seq<(int, GroupState)>, pieces: map<int, PieceState>)

  /** The keys of an object's entries: no group id twice. */
  predicate DistinctIds(gs: seq<(int, GroupState)>) {
    forall i, j :: 0 <= i < j < |gs| ==> gs[i].0 != gs[j].0
  }

  function Max(a: int, b: int): int {
    if a >= b then a else b
  }

  /**
   * `Math.max` over the group ids, starting from -1: the largest id when
   * one is at least -1, and -1 otherwise (no groups, or only ids below -1).
   */
  function MaxGroupId(gs: seq<(int, GroupState)>): (m: int)
    ensures -1 <= m
    ensures forall j :: 0 <= j < |gs| ==> gs[j].0 <= m
    ensures m == -1 || exists j :: 0 <= j < |gs| && gs[j].0 == m
  {
    if gs == [] then -1
    else
      var m' := MaxGroupId(gs[..|gs| - 1]);
      assert forall j :: 0 <= j < |gs| - 1 ==> gs[..|gs| - 1][j] == gs[j];
      Max(m', gs[|gs| - 1].0)
  }

  /** Where the group with id `id` sits among the entries, if it is there. */
  function IndexOfId(gs: seq<(int, GroupState)>, id: int): (r: Option<nat>)
    ensures r.Some? ==> r.value < |gs| && gs[r.value].0 == id
    ensures r.None? <==> forall j :: 0 <= j < |gs| ==> gs[j].0 != id
  {
    if gs == [] then None
    else if gs[0].0 == id then Some(0)
    else match IndexOfId(gs[1..], id)
      case None => None
      case Some(j) => Some(j + 1)
  }

  /** With distinct ids, an entry is found at its own place. */
  lemma IndexOfIdDistinct(gs: seq<(int, GroupState)>, j: nat)
    requires DistinctIds(gs) && j < |gs|
    ensures IndexOfId(gs, gs[j].0) == Some(j)
  {
    var r := IndexOfId(gs, gs[j].0);
    assert r.Some?;
  }

  /**
   * The pieces below `n` whose saved entry names group `id`, in index
   * order: the members `applyProgress` adds to that group once it has gone
   * through the first `n` pieces.
   */
  function Joiners(ps: map<int, PieceState>, id: int, n: nat): (r: seq<nat>)
    ensures forall k :: k in r <==> 0 <= k < n && k in ps && ps[k].gid == Some(id)
    ensures NoDuplicates(r)
  {
    if n == 0 then []
    else
      var r := Joiners(ps, id, n - 1);
      if n - 1 in ps && ps[n - 1].gid == Some(id) then r + [n - 1] else r
  }

  /** The group of a restored piece: the handle of the entry its `gid` names, if any. */
  function RestoredGroup(st: PuzzleState, i: nat, base: nat): Option<nat> {
    if i in st.pieces && st.pieces[i].gid.Some? then
      match IndexOfId(st.groups, st.pieces[i].gid.value)
      case None => None
      case Some(j) => Some(base + j)
    else None
  }

  /**
   * Piece `i` after `applyProgress`: with a saved entry it takes that
   * entry's position and, when its `gid` names a restored group, that
   * group; without one it is left as it was.
   */
  function Restored(p: Piece, i: nat, st: PuzzleState, base: nat): Piece {
    if i !in st.pieces then p
    else
      var e := st.pieces[i];
      var g := RestoredGroup(st, i, base);
      p.(position := Some(Position(e.x, e.y)), group := if g.Some? then g else p.group)
  }

  /** The pieces once the first `q` of them have been put back: those restored, the rest untouched. */
  ghost predicate RestoredUpTo(p0: seq<Piece>, ps: seq<Piece>, q: nat, st: PuzzleState, base: nat) {
    |ps| == |p0| && q <= |p0|
    && (forall r :: 0 <= r < q ==> ps[r] == Restored(p0[r], r, st, base))
    && (forall r :: q <= r < |p0| ==> ps[r] == p0[r])
  }

  lemma RestoredUpToNext(p0: seq<Piece>, ps: seq<Piece>, q: nat, st: PuzzleState, base: nat)
    requires RestoredUpTo(p0, ps, q, st, base) && q < |p0|
    ensures RestoredUpTo(p0, ps[q := Restored(p0[q], q, st, base)], q + 1, st, base)
  {
  }

  /** The group objects `applyProgress` creates, once the first `n` pieces have been restored. */
  function RestoredGroups(st: PuzzleState, n: nat): seq<Group> {
    seq(|st.groups|, j requires 0 <= j < |st.groups| =>
      Group(st.groups[j].0, Position(st.groups[j].1.x, st.groups[j].1.y), Joiners(st.pieces, st.groups[j].0, n)))
  }

  /** The group objects of the first `k` entries, before any piece has joined. */
  function EmptyGroups(gs: seq<(int, GroupState)>, k: nat): (r: seq<Group>)
    requires k <= |gs|
    ensures |r| == k
    ensures forall j :: 0 <= j < k ==> r[j] == Group(gs[j].0, Position(gs[j].1.x, gs[j].1.y), [])
  {
    if k == 0 then [] else EmptyGroups(gs, k - 1) + [Group(gs[k - 1].0, Position(gs[k - 1].1.x, gs[k - 1].1.y), [])]
  }

  /** Before any piece, the restored groups are the empty groups of every entry. */
  lemma RestoredGroupsEmpty(st: PuzzleState)
    ensures RestoredGroups(st, 0) == EmptyGroups(st.groups, |st.groups|)
  {
  }

  /** `Math.max` over one more entry. */
  lemma MaxGroupIdSnoc(gs: seq<(int, GroupState)>, k: nat)
    requires k < |gs|
    ensures MaxGroupId(gs[..k + 1]) == Max(MaxGroupId(gs[..k]), gs[k].0)
  {
    assert gs[..k + 1][..k] == gs[..k];
  }

  /** `groups`, the local map of `applyProgress`, once the first `k` entries are in: id to handle. */
  function Handles(gs: seq<(int, GroupState)>, k: nat, base: nat): map<int, nat>
    requires k <= |gs|
  {
    if k == 0 then map[] else Handles(gs, k - 1, base)[gs[k - 1].0 := base + k - 1]
  }

  lemma {:induction false} HandlesPrefix(gs: seq<(int, GroupState)>, k: nat, base: nat)
    requires DistinctIds(gs) && k <= |gs|
    ensures forall j :: 0 <= j < k ==> gs[j].0 in Handles(gs, k, base) && Handles(gs, k, base)[gs[j].0] == base + j
    ensures forall id :: id in Handles(gs, k, base) ==> exists j :: 0 <= j < k && gs[j].0 == id
  {
    if k > 0 {
      HandlesPrefix(gs, k - 1, base);
    }
  }

  /** The map finds exactly the saved ids, each at the handle of its own entry. */
  lemma HandlesLookup(gs: seq<(int, GroupState)>, base: nat)
    requires DistinctIds(gs)
    ensures forall id :: id in Handles(gs, |gs|, base) <==> IndexOfId(gs, id).Some?
    ensures forall id :: id in Handles(gs, |gs|, base) ==> Handles(gs, |gs|, base)[id] == base + IndexOfId(gs, id).value
  {
    HandlesPrefix(gs, |gs|, base);
    forall id | id in Handles(gs, |gs|, base)
      ensures Handles(gs, |gs|, base)[id] == base + IndexOfId(gs, id).value
    {
      var j :| 0 <= j < |gs| && gs[j].0 == id;
      IndexOfIdDistinct(gs, j);
    }
  }

  /**
   * Membership agrees both ways: a piece restored into the group created
   * for entry `j` is exactly a member of that group's map.
   */
  lemma {:induction false} RestoredMembership(st: PuzzleState, n: nat, base: nat, i: nat, j: nat)
    requires DistinctIds(st.groups) && i < n && j < |st.groups|
    ensures RestoredGroup(st, i, base) == Some(base + j) <==> i in RestoredGroups(st, n)[j].puzzles
  {
    var id := st.groups[j].0;
    IndexOfIdDistinct(st.groups, j);
    if i in st.pieces && st.pieces[i].gid.Some? {
      var g := st.pieces[i].gid.value;
      if g != id {
        var r := IndexOfId(st.groups, g);
        assert r.Some? ==> r.value != j;
      }
    }
  }

  /** A piece whose entry names the group of entry `j` is appended to that group's map, and to no other. */
  lemma RestoreJoinStep(st: PuzzleState, a0: seq<Group>, q: nat, j: nat)
    requires DistinctIds(st.groups) && j < |st.groups|
    requires q in st.pieces && st.pieces[q].gid == Some(st.groups[j].0)
    ensures var a := a0 + RestoredGroups(st, q);
            a[|a0| + j := a[|a0| + j].(puzzles := MapSetAll(a[|a0| + j].puzzles, [q]))] == a0 + RestoredGroups(st, q + 1)
  {
    var gs := RestoredGroups(st, q);
    var g := gs[j].(puzzles := MapSetAll(gs[j].puzzles, [q]));
    RestoreJoinGroups(st, q, j);
    assert (a0 + gs)[|a0| + j] == gs[j];
    UpdateAfter(a0, gs, j, g);
  }

  lemma RestoreJoinGroups(st: PuzzleState, q: nat, j: nat)
    requires DistinctIds(st.groups) && j < |st.groups|
    requires q in st.pieces && st.pieces[q].gid == Some(st.groups[j].0)
    ensures var gs := RestoredGroups(st, q);
            gs[j := gs[j].(puzzles := MapSetAll(gs[j].puzzles, [q]))] == RestoredGroups(st, q + 1)
  {
    var js := Joiners(st.pieces, st.groups[j].0, q);
    assert q !in js;
    assert [q][1..] == [];
    assert MapSetAll(js, [q]) == MapSetAll(MapSet(js, q), []) == js + [q];
    forall t | 0 <= t < |st.groups| && t != j
      ensures st.groups[t].0 != st.groups[j].0
    {
    }
  }

  lemma UpdateAfter<T>(a: seq<T>, b: seq<T>, j: nat, v: T)
    requires j < |b|
    ensures (a + b)[|a| + j := v] == a + b[j := v]
  {
  }

  /** A piece whose entry names no restored group leaves every group's map as it was. */
  lemma RestoreSkipStep(st: PuzzleState, q: nat)
    requires q in st.pieces ==> st.pieces[q].gid.None? || IndexOfId(st.groups, st.pieces[q].gid.value).None?
    ensures RestoredGroups(st, q + 1) == RestoredGroups(st, q)
  {
    forall t | 0 <= t < |st.groups|
      ensures RestoredGroups(st, q + 1)[t] == RestoredGroups(st, q)[t]
    {
      assert q in st.pieces && st.pieces[q].gid.Some? ==> st.pieces[q].gid.value != st.groups[t].0;
    }
  }
}
