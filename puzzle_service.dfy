/**
 * The puzzle service's decisions over its puzzle documents: where a
 * puzzle's assets are stored, creating a puzzle, the owner's update,
 * joining by invite key, leaving or removing a collaborator, and opening a
 * puzzle once it is processed. The document collection is a map from id
 * to document; object storage and the message bus are the lists of names
 * written and events published.
 */
module PuzzleService {
  import opened Wrappers
  import opened PuzzleTypes

  datatype HttpError = HttpError(status: nat, message: string)

  const BadRequest: nat := 400
  const Forbidden: nat := 403
  const NotFound: nat := 404

  datatype PuzzleDoc = PuzzleDoc(
    title: string, rows: int, columns: int, size: int, owner: string,
    visibility: Visibility, status: ProcessingState,
    inviteKey: Option<string>, collaborators: seq<string>, version: nat)

  datatype CreatePuzzleDto = CreatePuzzleDto(title: string, rows: int, columns: int, size: int, visibility: Visibility)

  datatype UpdatePuzzleDto = UpdatePuzzleDto(title: string, visibility: Visibility, updateInviteKey: bool)

  datatype Event = PuzzleCreated(created: PuzzleCreatedEvent) | PuzzleUpdated(updated: PuzzleUpdatedEvent)

  function FileName(asset: PuzzleAsset): string {
    match asset
    case Specification => "spec.json"
    case Spritesheet => "spritesheet.webp"
    case Thumbnail => "thumbnail.png"
  }

  /** `getObjectName`: an asset is stored under the puzzle's id as a folder. */
  function GetObjectName(asset: PuzzleAsset, id: string): (name: string)
    ensures |name| > |id| + 1 && name[..|id| + 1] == id + "/"
  {
    id + "/" + FileName(asset)
  }

  /** No two assets, of the same puzzle or of two puzzles, share an object name. */
  lemma ObjectNameInjective(a: PuzzleAsset, i: string, b: PuzzleAsset, j: string)
    requires GetObjectName(a, i) == GetObjectName(b, j)
    ensures a == b && i == j
  {
    var n := GetObjectName(a, i);
    assert n[|n| - 1] == FileName(a)[|FileName(a)| - 1];
    assert n[|n| - 1] == FileName(b)[|FileName(b)| - 1];
    assert a == b;
    assert i == n[..|i|] && j == n[..|j|];
  }

  /** Some puzzle already has this title. */
  predicate TitleTaken(docs: map<string, PuzzleDoc>, title: string) {
    exists k :: k in docs && docs[k].title == title
  }

  /** A puzzle other than `id` already has this title. */
  predicate TitleTakenByOther(docs: map<string, PuzzleDoc>, id: string, title: string) {
    exists k :: k in docs && k != id && docs[k].title == title
  }

  /** Titles are unique across the collection (the schema's unique index). */
  predicate UniqueTitles(docs: map<string, PuzzleDoc>) {
    forall a, b :: a in docs && b in docs && docs[a].title == docs[b].title ==> a == b
  }

  /** Saving a document whose title no other puzzle has, and whose collaborators are listed once, keeps the collection consistent. */
  lemma SaveKeepsConsistent(docs: map<string, PuzzleDoc>, id: string, d: PuzzleDoc)
    requires Consistent(docs) && !TitleTakenByOther(docs, id, d.title) && NoDuplicates(d.collaborators)
    ensures Consistent(docs[id := d])
  {
    var m := docs[id := d];
    forall a, b | a in m && b in m && m[a].title == m[b].title
      ensures a == b
    {
    }
  }

  /**
   * The document `createPuzzle` saves: status created, no collaborators, the
   * caller as owner, and an invite key exactly when the puzzle is
   * invite-only.
   */
  function NewDoc(dto: CreatePuzzleDto, user: string, key: string): (d: PuzzleDoc)
    ensures d.status == Created && d.collaborators == [] && d.owner == user && d.version == 0
    ensures d.inviteKey.Some? <==> dto.visibility == InviteOnly
    ensures d.title == dto.title && d.visibility == dto.visibility
    ensures d.rows == dto.rows && d.columns == dto.columns && d.size == dto.size
  {
    var inviteKey := if dto.visibility == InviteOnly then Some(key) else None;
    PuzzleDoc(dto.title, dto.rows, dto.columns, dto.size, user, dto.visibility, Created, inviteKey, [], 0)
  }

  /** The `puzzle:created` event for a saved document. */
  function CreatedEventOf(id: string, d: PuzzleDoc): (e: PuzzleCreatedEvent)
    ensures e.id == id && e.title == d.title && e.owner == d.owner && e.status == d.status && e.visibility == d.visibility
    ensures e.objectNames.thumbnail == GetObjectName(Thumbnail, id)
    ensures e.objectNames == ObjectNames(GetObjectName(Specification, id), GetObjectName(Thumbnail, id), GetObjectName(Spritesheet, id))
  {
    PuzzleCreatedEvent(id, d.title, d.owner, d.rows, d.columns, d.size, d.visibility, d.status,
      ObjectNames(GetObjectName(Specification, id), GetObjectName(Thumbnail, id), GetObjectName(Spritesheet, id)))
  }

  /** The `puzzle:updated` event for a saved document: what a replica follows, and the version saved. */
  function UpdatedEventOf(id: string, d: PuzzleDoc): PuzzleUpdatedEvent {
    PuzzleUpdatedEvent(id, d.title, d.visibility, d.status, d.version, d.collaborators)
  }

  /** Whether `updatePuzzle` regenerates the invite key. */
  predicate RegeneratesKey(p: PuzzleDoc, data: UpdatePuzzleDto) {
    data.updateInviteKey && (data.visibility == InviteOnly || p.visibility == InviteOnly)
  }

  /**
   * The owner's edit in `updatePuzzle`, once the puzzle is found and the
   * title passed: only the owner may edit, a public puzzle stays public,
   * and the edit sets title and visibility and, when asked for and the
   * puzzle is or becomes invite-only, a new invite key; nothing else
   * changes.
   */
  function Edit(p: PuzzleDoc, user: string, data: UpdatePuzzleDto, newKey: string): (r: Result<PuzzleDoc, HttpError>)
    ensures r.Success? <==> p.owner == user && (p.visibility == Public ==> data.visibility == Public)
    ensures r.Failure? && r.error.status == Forbidden <==> p.owner != user
    ensures r.Success? ==> r.value.title == data.title && r.value.visibility == data.visibility
    ensures r.Success? ==> r.value.inviteKey == if RegeneratesKey(p, data) then Some(newKey) else p.inviteKey
    ensures r.Success? ==> r.value.(title := p.title, visibility := p.visibility, inviteKey := p.inviteKey) == p
  {
    if p.owner != user then
      Failure(HttpError(Forbidden, "you do not have permission to edit this puzzle"))
    else if p.visibility == Public && data.visibility != Public then
      Failure(HttpError(BadRequest, "you cannot change visibity from public"))
    else
      var keyed := if RegeneratesKey(p, data) then p.(inviteKey := Some(newKey)) else p;
      Success(keyed.(visibility := data.visibility, title := data.title))
  }

  /** Repeating an edit with the same key changes nothing more. */
  lemma EditIdempotent(p: PuzzleDoc, user: string, data: UpdatePuzzleDto, newKey: string)
    requires Edit(p, user, data, newKey).Success?
    ensures Edit(Edit(p, user, data, newKey).value, user, data, newKey) == Edit(p, user, data, newKey)
  {
    var q := Edit(p, user, data, newKey).value;
    assert q.visibility == Public ==> data.visibility == Public;
  }

  /** `collaborators.filter(id !== x)`: every occurrence of `x` goes, the rest stay in order. */
  function Without(s: seq<string>, x: string): (r: seq<string>)
    ensures x !in r && |r| <= |s|
    ensures forall y :: y != x ==> (y in r <==> y in s)
    ensures r == s <==> x !in s
  {
    if s == [] then []
    else if s[0] == x then Without(s[1..], x)
    else [s[0]] + Without(s[1..], x)
  }

  /** No user is listed twice as a collaborator. */
  predicate NoDuplicates(s: seq<string>) {
    forall a, b :: 0 <= a < b < |s| ==> s[a] != s[b]
  }

  lemma {:induction false} WithoutKeepsNoDuplicates(s: seq<string>, x: string)
    requires NoDuplicates(s)
    ensures NoDuplicates(Without(s, x))
  {
    if s != [] {
      WithoutKeepsNoDuplicates(s[1..], x);
      if s[0] != x {
        assert s[0] !in s[1..];
        assert s[0] !in Without(s[1..], x);
      }
    }
  }

  /** A user who can open a puzzle from their own list: its owner or a collaborator. */
  predicate Member(p: PuzzleDoc, user: string) {
    p.owner == user || user in p.collaborators
  }

  /** The collection's invariant: unique titles, and no collaborator listed twice. */
  ghost predicate Consistent(docs: map<string, PuzzleDoc>) {
    UniqueTitles(docs) && forall k :: k in docs ==> NoDuplicates(docs[k].collaborators)
  }

  class PuzzleStore {
    var docs: map<string, PuzzleDoc>
    /** Names of the objects put into storage, in order. */
    var objects: seq<string>
    /** Events published on the bus, in order. */
    var published: seq<Event>

    constructor()
      ensures docs == map[] && objects == [] && published == []
    {
      docs := map[];
      objects := [];
      published := [];
    }

    /**
     * `createPuzzle`: a title already in use is refused; otherwise the new
     * document is saved under the id the store assigns, its thumbnail is
     * stored under its object name and `puzzle:created` is published.
     */
    method CreatePuzzle(dto: CreatePuzzleDto, user: string, id: string, key: string) returns (r: Result<PuzzleDoc, HttpError>)
      requires id !in docs
      modifies this
      ensures TitleTaken(old(docs), dto.title) ==>
                r == Failure(HttpError(BadRequest, "Title already exists"))
                && docs == old(docs) && objects == old(objects) && published == old(published)
      ensures !TitleTaken(old(docs), dto.title) ==>
                r == Success(NewDoc(dto, user, key)) && docs == old(docs)[id := r.value]
                && objects == old(objects) + [GetObjectName(Thumbnail, id)]
                && published == old(published) + [PuzzleCreated(CreatedEventOf(id, r.value))]
      ensures Consistent(old(docs)) ==> Consistent(docs)
    {
      if TitleTaken(docs, dto.title) {
        r := Failure(HttpError(BadRequest, "Title already exists"));
        return;
      }
      var d := NewDoc(dto, user, key);
      if Consistent(docs) {
        SaveKeepsConsistent(docs, id, d);
      }
      docs := docs[id := d];
      objects := objects + [GetObjectName(Thumbnail, id)];
      published := published + [PuzzleCreated(CreatedEventOf(id, d))];
      r := Success(d);
    }

    /**
     * `updatePuzzle`: a missing puzzle is not found, a title another puzzle
     * has is refused, then the owner's edit; a document the edit changed is
     * saved under the next version and `puzzle:updated` is published, an
     * unchanged one is returned as it was.
     */
    method UpdatePuzzle(user: string, id: string, data: UpdatePuzzleDto, newKey: string) returns (r: Result<PuzzleDoc, HttpError>)
      modifies this
      ensures id !in old(docs) ==> r == Failure(HttpError(NotFound, "puzzle not found"))
      ensures id in old(docs) && old(docs)[id].title != data.title && TitleTakenByOther(old(docs), id, data.title) ==>
                r == Failure(HttpError(BadRequest, "title already exists"))
      ensures id in old(docs) && !(old(docs)[id].title != data.title && TitleTakenByOther(old(docs), id, data.title)) ==>
                var e := Edit(old(docs)[id], user, data, newKey);
                r == if e.Success? && e.value != old(docs)[id] then Success(e.value.(version := e.value.version + 1)) else e
      ensures r.Success? && r.value != old(docs)[id] ==>
                docs == old(docs)[id := r.value] && published == old(published) + [PuzzleUpdated(UpdatedEventOf(id, r.value))]
      ensures !(r.Success? && r.value != old(docs)[id]) ==> docs == old(docs) && published == old(published)
      ensures objects == old(objects)
      ensures Consistent(old(docs)) ==> Consistent(docs)
    {
      if id !in docs {
        r := Failure(HttpError(NotFound, "puzzle not found"));
        return;
      }
      var puzzle := docs[id];
      if puzzle.title != data.title && TitleTakenByOther(docs, id, data.title) {
        r := Failure(HttpError(BadRequest, "title already exists"));
        return;
      }
      if puzzle.owner != user {
        r := Failure(HttpError(Forbidden, "you do not have permission to edit this puzzle"));
        return;
      }
      if puzzle.visibility == Public && data.visibility != Public {
        r := Failure(HttpError(BadRequest, "you cannot change visibity from public"));
        return;
      }
      if data.updateInviteKey && (data.visibility == InviteOnly || puzzle.visibility == InviteOnly) {
        puzzle := puzzle.(inviteKey := Some(newKey));
      }
      puzzle := puzzle.(visibility := data.visibility, title := data.title);
      if puzzle != docs[id] {
        puzzle := puzzle.(version := puzzle.version + 1);
        if Consistent(docs) {
          assert docs[id].title == puzzle.title ==> !TitleTakenByOther(docs, id, puzzle.title);
          SaveKeepsConsistent(docs, id, puzzle);
        }
        docs := docs[id := puzzle];
        published := published + [PuzzleUpdated(UpdatedEventOf(id, puzzle))];
      }
      r := Success(puzzle);
    }

    /**
     * `addCollaborator`: the invite-only puzzle holding the key, else not
     * found; a user already listed is refused; otherwise the user is
     * appended, the document saved under the next version and
     * `puzzle:updated` published.
     */
    method AddCollaborator(user: string, inviteKey: string) returns (r: Result<PuzzleDoc, HttpError>)
      modifies this
      ensures r.Failure? ==> docs == old(docs) && published == old(published)
      ensures (forall k :: k in old(docs) ==> !Invites(old(docs)[k], inviteKey)) <==>
                r == Failure(HttpError(NotFound, "incorrect invite key"))
      ensures r.Failure? && r.error.status == BadRequest ==>
                exists k :: k in old(docs) && Invites(old(docs)[k], inviteKey) && user in old(docs)[k].collaborators
      ensures r.Failure? ==> r.error.status == NotFound || r == Failure(HttpError(BadRequest, "you are already a collaborator"))
      ensures r.Success? ==>
                exists k :: (k in old(docs) && Invites(old(docs)[k], inviteKey) && user !in old(docs)[k].collaborators
                  && r.value == old(docs)[k].(collaborators := old(docs)[k].collaborators + [user], version := old(docs)[k].version + 1)
                  && docs == old(docs)[k := r.value] && published == old(published) + [PuzzleUpdated(UpdatedEventOf(k, r.value))])
      ensures objects == old(objects)
      ensures Consistent(old(docs)) ==> Consistent(docs)
    {
      if !exists k :: k in docs && Invites(docs[k], inviteKey) {
        r := Failure(HttpError(NotFound, "incorrect invite key"));
        return;
      }
      var id :| id in docs && Invites(docs[id], inviteKey);
      var puzzle := docs[id];
      if user in puzzle.collaborators {
        r := Failure(HttpError(BadRequest, "you are already a collaborator"));
        return;
      }
      puzzle := puzzle.(collaborators := puzzle.collaborators + [user]);
      puzzle := puzzle.(version := puzzle.version + 1);
      if Consistent(docs) {
        AppendNew(docs[id].collaborators, user);
        SaveKeepsConsistent(docs, id, puzzle);
      }
      docs := docs[id := puzzle];
      published := published + [PuzzleUpdated(UpdatedEventOf(id, puzzle))];
      r := Success(puzzle);
    }

    /**
     * `removeCollaborator`: only the owner, or a collaborator removing
     * themselves, may remove; every occurrence of the user goes, and only
     * a changed list is saved under the next version and published.
     */
    method RemoveCollaborator(user: string, puzzleId: string, userId: string) returns (r: Result<(), HttpError>)
      modifies this
      ensures !(puzzleId in old(docs) && (old(docs)[puzzleId].owner == user || userId in old(docs)[puzzleId].collaborators)) ==>
                r == Failure(HttpError(BadRequest, "only owner can remove collaborators"))
      ensures puzzleId in old(docs) && (old(docs)[puzzleId].owner == user || userId in old(docs)[puzzleId].collaborators) ==>
                var p := old(docs)[puzzleId];
                if p.owner != user && userId != user then
                  r == Failure(HttpError(BadRequest, "as a collaborator, you can only remove yourself"))
                else
                  r.Success?
                  && (userId in p.collaborators ==>
                        var q := p.(collaborators := Without(p.collaborators, userId), version := p.version + 1);
                        docs == old(docs)[puzzleId := q] && published == old(published) + [PuzzleUpdated(UpdatedEventOf(puzzleId, q))])
                  && (userId !in p.collaborators ==> docs == old(docs) && published == old(published))
      ensures r.Failure? ==> docs == old(docs) && published == old(published)
      ensures objects == old(objects)
      ensures Consistent(old(docs)) ==> Consistent(docs)
    {
      if !(puzzleId in docs && (docs[puzzleId].owner == user || userId in docs[puzzleId].collaborators)) {
        r := Failure(HttpError(BadRequest, "only owner can remove collaborators"));
        return;
      }
      var puzzle := docs[puzzleId];
      if puzzle.owner != user && userId != user {
        r := Failure(HttpError(BadRequest, "as a collaborator, you can only remove yourself"));
        return;
      }
      var collaborators := Without(puzzle.collaborators, userId);
      if collaborators != puzzle.collaborators {
        puzzle := puzzle.(collaborators := collaborators, version := puzzle.version + 1);
        if Consistent(docs) {
          WithoutKeepsNoDuplicates(docs[puzzleId].collaborators, userId);
          SaveKeepsConsistent(docs, puzzleId, puzzle);
        }
        docs := docs[puzzleId := puzzle];
        published := published + [PuzzleUpdated(UpdatedEventOf(puzzleId, puzzle))];
      }
      r := Success(());
    }

    /**
     * `getSingle`: a puzzle its owner or a collaborator asks for, else not
     * found; refused while created or processing, whatever its visibility.
     */
    function GetSingle(user: string, id: string): (r: Result<PuzzleDoc, HttpError>)
      reads this
      ensures r.Success? <==> id in docs && Member(docs[id], user) && docs[id].status == Done
      ensures r.Success? ==> r.value == docs[id]
      ensures r.Failure? && r.error.status == NotFound <==> !(id in docs && Member(docs[id], user))
    {
      if !(id in docs && Member(docs[id], user)) then
        Failure(HttpError(NotFound, "puzzle does not exist"))
      else if docs[id].status == Created then
        Failure(HttpError(BadRequest, "puzzle is not ready yet. awaiting processing"))
      else if docs[id].status == Processing then
        Failure(HttpError(BadRequest, "puzzle is not ready yet. processing in progress"))
      else
        assert docs[id].status == Done;
        Success(docs[id])
    }
  }

  /** The puzzle an invite key opens: invite-only and holding that key. */
  predicate Invites(p: PuzzleDoc, key: string) {
    p.visibility == InviteOnly && p.inviteKey == Some(key)
  }

  /** Appending a user not yet listed keeps every collaborator listed once. */
  lemma AppendNew(s: seq<string>, x: string)
    requires NoDuplicates(s) && x !in s
    ensures NoDuplicates(s + [x])
  {
    var t := s + [x];
    forall a, b | 0 <= a < b < |t|
      ensures t[a] != t[b]
    {
      if b == |s| {
        assert t[a] == s[a] && s[a] in s;
      } else {
        assert t[a] == s[a] && t[b] == s[b];
      }
    }
  }

  /**
   * The title check of `updatePuzzle` as the code writes it: it asks
   * whether the puzzle with this very id has the new title.
   */
  predicate TitleCheckAsWritten(docs: map<string, PuzzleDoc>, id: string, title: string) {
    id in docs && docs[id].title == title
  }

  /** The check only runs when the title changes, and then it never finds anything. */
  lemma TitleCheckAsWrittenNeverFires(docs: map<string, PuzzleDoc>, id: string, title: string)
    requires id in docs && docs[id].title != title
    ensures !TitleCheckAsWritten(docs, id, title)
  {
  }

  /** Renaming puzzle `a` to the title of puzzle `b` passes the check as written. */
  lemma TitleClashPassesAsWritten()
    ensures var p := PuzzleDoc("x", 2, 2, 100, "u", Private, Done, None, [], 0);
            var docs := map["a" := p, "b" := p.(title := "y")];
            TitleTakenByOther(docs, "a", "y") && !TitleCheckAsWritten(docs, "a", "y")
  {
    var p := PuzzleDoc("x", 2, 2, 100, "u", Private, Done, None, [], 0);
    var docs := map["a" := p, "b" := p.(title := "y")];
    assert docs["b"].title == "y";
  }
}
