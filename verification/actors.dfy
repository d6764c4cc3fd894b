/**
 * Engine actors as the interaction logic sees them. An actor is an opaque
 * identity; a null actor pointer is `None` in an `Option<ActorId>`.
 */
module Actors {

  /** Identity of an `AStaticMeshActor` in the level. */
  type ActorId = nat

  /** A static-mesh actor together with its tags, as `TActorIterator` yields them. */
  datatype TaggedActor = TaggedActor(id: ActorId, tags: seq<string>)
}
