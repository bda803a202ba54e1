/**
 * The puzzle metadata shared by the puzzle service and the sync service:
 * visibility, processing state, stored assets, and the two events the
 * puzzle service publishes for the sync service to replicate.
 */
module PuzzleTypes {

  datatype Visibility = Private | Public | InviteOnly

  datatype ProcessingState = Created | Processing | Done

  datatype PuzzleAsset = Specification | Spritesheet | Thumbnail

  /** The object names of a puzzle's three stored assets. */
  datatype ObjectNames = ObjectNames(specification: string, thumbnail: string, spritesheet: string)

  /** `puzzle:created`: the new puzzle's metadata, as first saved. */
  datatype PuzzleCreatedEvent = PuzzleCreatedEvent(
    id: string, title: string, owner: string,
    rows: int, columns: int, size: int,
    visibility: Visibility, status: ProcessingState,
    objectNames: ObjectNames)

  /** `puzzle:updated`: the fields a replica follows, and the version they were saved under. */
  datatype PuzzleUpdatedEvent = PuzzleUpdatedEvent(
    id: string, title: string, visibility: Visibility, status: ProcessingState,
    version: int, collaborators: seq<string>)
}
