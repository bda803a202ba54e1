/**
 * The sync service's replica of the puzzle metadata: it copies a created
 * puzzle, applies an update only when it is the next version, and decides
 * who may join a puzzle's room. The replica collection is a map from id to
 * replica; a save that would repeat another replica's title or id fails,
 * as the schema's unique indexes make it.
 */
module SyncPuzzles {
  import opened Wrappers
  import opened PuzzleTypes
  import PuzzleService

  /** A replicated puzzle. The replica's schema has no processing state, so none is kept. */
  datatype Replica = Replica(
    title: string, owner: string, rows: int, columns: int, size: int,
    visibility: Visibility, collaborators: seq<string>, version: nat)

  const NoSuchPuzzle := "Puzzle does not exist."
  const NoPermission := "You do not have permission to access this puzzle"

  /**
   * The decision of `wsCheckAccess` on the puzzle looked up, with the owner
   * test comparing the owner's id with the user's as intended: a missing
   * puzzle and a refusal are both errors, so a result is always `true`.
   * Its owner, anyone on a public puzzle, and a collaborator while the
   * puzzle is invite-only may join.
   */
  function CheckAccess(p: Option<Replica>, user: string): (r: Result<bool, string>)
    ensures r.Success? ==> r.value
    ensures p.None? ==> r == Failure(NoSuchPuzzle)
    ensures p.Some? && r.Failure? ==> r.error == NoPermission
    ensures p.Some? && p.value.owner == user ==> r.Success?
    ensures p.Some? && p.value.visibility == Public ==> r.Success?
    ensures p.Some? && p.value.owner != user && p.value.visibility == Private ==> r.Failure?
    ensures p.Some? && p.value.visibility == InviteOnly ==> (r.Success? <==> p.value.owner == user || user in p.value.collaborators)
  {
    if p.None? then Failure(NoSuchPuzzle)
    else
      var isCollaborator := user in p.value.collaborators && p.value.visibility == InviteOnly;
      var isOwner := p.value.owner == user;
      var isPublic := p.value.visibility == Public;
      if isCollaborator || isOwner || isPublic then Success(true) else Failure(NoPermission)
  }

  /**
   * `wsCheckAccess` as written: the schema stores `owner` as an ObjectId,
   * the found document holds it as one, and `===` between that object and
   * the token's string id never holds, so the owner test is always false.
   * Only a public puzzle, or a collaborator of an invite-only one, is let in.
   */
  function CheckAccessAsWritten(p: Option<Replica>, user: string): (r: Result<bool, string>)
    ensures r.Success? ==> r.value
    ensures p.None? ==> r == Failure(NoSuchPuzzle)
    ensures p.Some? && r.Failure? ==> r.error == NoPermission
    ensures r.Success? <==> p.Some? && (p.value.visibility == Public
                                        || (p.value.visibility == InviteOnly && user in p.value.collaborators))
  {
    if p.None? then Failure(NoSuchPuzzle)
    else
      var isCollaborator := user in p.value.collaborators && p.value.visibility == InviteOnly;
      var isOwner := false;
      var isPublic := p.value.visibility == Public;
      if isCollaborator || isOwner || isPublic then Success(true) else Failure(NoPermission)
  }

  /** The two decisions differ only for the owner. */
  lemma AsWrittenDiffersOnlyForOwner(p: Option<Replica>, user: string)
    ensures p.None? || p.value.owner != user ==> CheckAccessAsWritten(p, user) == CheckAccess(p, user)
    ensures CheckAccessAsWritten(p, user).Success? ==> CheckAccess(p, user).Success?
  {
  }

  /** As written, the owner of a private puzzle is refused the room of their own puzzle. */
  lemma PrivateOwnerRefusedAsWritten(p: Replica)
    requires p.visibility == Private
    ensures CheckAccessAsWritten(Some(p), p.owner) == Failure(NoPermission)
    ensures CheckAccess(Some(p), p.owner) == Success(true)
  {
  }

  /**
   * Collaborators stay listed while a puzzle is private: making it
   * invite-only again lets the same collaborators in, and only them.
   */
  lemma CollaboratorsReturnWithInviteOnly(p: Replica, user: string)
    requires p.visibility == Private && p.owner != user
    ensures CheckAccess(Some(p), user).Failure?
    ensures CheckAccess(Some(p.(visibility := InviteOnly)), user).Success? <==> user in p.collaborators
  {
  }

  /** `createPuzzle`: the replica of a created puzzle, with no collaborators yet. */
  function ReplicaOf(e: PuzzleCreatedEvent): (r: Replica)
    ensures r.collaborators == [] && r.version == 0
    ensures r.title == e.title && r.owner == e.owner && r.visibility == e.visibility
    ensures r.rows == e.rows && r.columns == e.columns && r.size == e.size
  {
    Replica(e.title, e.owner, e.rows, e.columns, e.size, e.visibility, [], 0)
  }

  /** An update changes something the replica keeps. */
  predicate Differs(r: Replica, e: PuzzleUpdatedEvent) {
    r.title != e.title || r.visibility != e.visibility || r.collaborators != e.collaborators
  }

  /**
   * `updatePuzzle` as the code writes it: title, visibility and
   * collaborators are set, and saving raises the version only when one of
   * them changed, since an unmodified document is not written.
   */
  function ApplyUpdateAsWritten(r: Replica, e: PuzzleUpdatedEvent): (s: Replica)
    ensures s.title == e.title && s.visibility == e.visibility && s.collaborators == e.collaborators
    ensures s.version == if Differs(r, e) then r.version + 1 else r.version
  {
    var written := r.(title := e.title, visibility := e.visibility, collaborators := e.collaborators);
    if Differs(r, e) then written.(version := r.version + 1) else written
  }

  /** The update the version gate is for: the replica takes the fields and the version of the event. */
  function ApplyUpdate(r: Replica, e: PuzzleUpdatedEvent): (s: Replica)
    requires e.version >= 0
    ensures s.title == e.title && s.visibility == e.visibility && s.collaborators == e.collaborators
    ensures s.version == e.version
    ensures s.owner == r.owner && s.rows == r.rows && s.columns == r.columns && s.size == r.size
  {
    r.(title := e.title, visibility := e.visibility, collaborators := e.collaborators, version := e.version)
  }

  /** A replica reflects a puzzle document: the fields it keeps and the version. */
  predicate Mirrors(r: Replica, d: PuzzleService.PuzzleDoc) {
    r.title == d.title && r.owner == d.owner && r.visibility == d.visibility
    && r.collaborators == d.collaborators && r.version == d.version
  }

  /** The replica of a newly created puzzle mirrors it. */
  lemma ReplicaStartsInStep(id: string, dto: PuzzleService.CreatePuzzleDto, user: string, key: string)
    ensures Mirrors(ReplicaOf(PuzzleService.CreatedEventOf(id, PuzzleService.NewDoc(dto, user, key))), PuzzleService.NewDoc(dto, user, key))
  {
  }

  /**
   * A replica in step with a document follows every save of it: the event
   * of the saved document passes the version gate, and the updated replica
   * mirrors the saved document.
   */
  lemma ReplicaFollowsSave(r: Replica, d: PuzzleService.PuzzleDoc, saved: PuzzleService.PuzzleDoc, id: string)
    requires Mirrors(r, d) && saved.version == d.version + 1 && saved.owner == d.owner
    ensures var e := PuzzleService.UpdatedEventOf(id, saved);
            r.version == e.version - 1 && Mirrors(ApplyUpdate(r, e), saved)
  {
  }

  /**
   * As written, a save that only regenerates the invite key publishes the
   * next version with nothing the replica keeps changed: the replica stays
   * at the old version and the gate then refuses the following update.
   */
  lemma InviteKeyOnlyUpdateStallsReplica()
    ensures var d := PuzzleService.PuzzleDoc("t", 2, 2, 100, "o", InviteOnly, Done, Some("k1"), [], 0);
            var data := PuzzleService.UpdatePuzzleDto("t", InviteOnly, true);
            var edited := PuzzleService.Edit(d, "o", data, "k2");
            var saved := edited.value.(version := 1);
            var r := Replica("t", "o", 2, 2, 100, InviteOnly, [], 0);
            var next := saved.(title := "u", version := 2);
            && Mirrors(r, d)
            && edited.Success? && edited.value != d
            && ApplyUpdateAsWritten(r, PuzzleService.UpdatedEventOf("p", saved)).version == 0
            && ApplyUpdateAsWritten(r, PuzzleService.UpdatedEventOf("p", saved)).version != PuzzleService.UpdatedEventOf("p", next).version - 1
  {
    var d := PuzzleService.PuzzleDoc("t", 2, 2, 100, "o", InviteOnly, Done, Some("k1"), [], 0);
    var data := PuzzleService.UpdatePuzzleDto("t", InviteOnly, true);
    var edited := PuzzleService.Edit(d, "o", data, "k2");
    assert PuzzleService.RegeneratesKey(d, data);
    assert edited.value.inviteKey == Some("k2");
  }

  /** Every replica's title is its own (the schema's unique index). */
  predicate UniqueTitles(puzzles: map<string, Replica>) {
    forall a, b :: a in puzzles && b in puzzles && puzzles[a].title == puzzles[b].title ==> a == b
  }

  /** Another replica already has this title, so a save under it fails. */
  predicate TitleTakenByOther(puzzles: map<string, Replica>, id: string, title: string) {
    exists k :: k in puzzles && k != id && puzzles[k].title == title
  }

  lemma SaveKeepsTitlesUnique(puzzles: map<string, Replica>, id: string, r: Replica)
    requires UniqueTitles(puzzles) && !TitleTakenByOther(puzzles, id, r.title)
    ensures UniqueTitles(puzzles[id := r])
  {
    var m := puzzles[id := r];
    forall a, b | a in m && b in m && m[a].title == m[b].title
      ensures a == b
    {
    }
  }

  class ReplicaStore {
    var puzzles: map<string, Replica>

    constructor()
      ensures puzzles == map[]
    {
      puzzles := map[];
    }

    /** `createPuzzle`: the replica is saved unless its id or title is taken; the result says whether. */
    method CreatePuzzle(e: PuzzleCreatedEvent) returns (ok: bool)
      modifies this
      ensures ok <==> e.id !in old(puzzles) && !TitleTakenByOther(old(puzzles), e.id, e.title)
      ensures puzzles == if ok then old(puzzles)[e.id := ReplicaOf(e)] else old(puzzles)
      ensures UniqueTitles(old(puzzles)) ==> UniqueTitles(puzzles)
    {
      if e.id in puzzles || TitleTakenByOther(puzzles, e.id, e.title) {
        ok := false;
        return;
      }
      var r := ReplicaOf(e);
      if UniqueTitles(puzzles) {
        SaveKeepsTitlesUnique(puzzles, e.id, r);
      }
      puzzles := puzzles[e.id := r];
      ok := true;
    }

    /**
     * `updatePuzzle`: only the replica one version behind the event is
     * updated; a missing or out-of-step replica, or a title another replica
     * has, leaves everything as it was and yields `false`.
     */
    method UpdatePuzzle(e: PuzzleUpdatedEvent) returns (ok: bool)
      modifies this
      ensures ok <==> e.id in old(puzzles) && old(puzzles)[e.id].version == e.version - 1
                      && !TitleTakenByOther(old(puzzles), e.id, e.title)
      ensures puzzles == if ok then old(puzzles)[e.id := ApplyUpdate(old(puzzles)[e.id], e)] else old(puzzles)
      ensures UniqueTitles(old(puzzles)) ==> UniqueTitles(puzzles)
    {
      if e.id !in puzzles || puzzles[e.id].version != e.version - 1 {
        ok := false;
        return;
      }
      var puzzle := puzzles[e.id];
      puzzle := puzzle.(title := e.title, visibility := e.visibility, collaborators := e.collaborators);
      puzzle := puzzle.(version := e.version);
      if TitleTakenByOther(puzzles, e.id, puzzle.title) {
        ok := false;
        return;
      }
      if UniqueTitles(puzzles) {
        SaveKeepsTitlesUnique(puzzles, e.id, puzzle);
      }
      puzzles := puzzles[e.id := puzzle];
      ok := true;
    }

    /** `wsCheckAccess` on the stored replica. */
    function WsCheckAccess(user: string, puzzleId: string): (r: Result<bool, string>)
      reads this
      ensures r.Success? ==> r.value
      ensures puzzleId !in puzzles <==> r == Failure(NoSuchPuzzle)
    {
      CheckAccess(if puzzleId in puzzles then Some(puzzles[puzzleId]) else None, user)
    }
  }

  /** An update applied twice is refused the second time: the gate has moved on. */
  lemma SecondDeliveryRefused(puzzles: map<string, Replica>, e: PuzzleUpdatedEvent)
    requires e.id in puzzles && puzzles[e.id].version == e.version - 1
    ensures var again := puzzles[e.id := ApplyUpdate(puzzles[e.id], e)];
            again[e.id].version != e.version - 1
  {
  }
}
