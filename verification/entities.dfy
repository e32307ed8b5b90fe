/** The parts of an editor entity that the models read or write: its
    bounding rectangle (x = beat, y = track, width = length in beats) and,
    for entities that implement `IRepitchable`, a semitone offset. */
module Entities {

  datatype Rect = Rect(x: real, y: real, width: real, height: real) {
    /** The beat at which the rectangle ends. */
    function Right(): real {
      x + width
    }
  }

  /** Whether the entity implements `IRepitchable`, and if so its semitone. */
  datatype Pitch = NotRepitchable | Repitchable(semitone: int)

  datatype Entity = Entity(id: string, bounds: Rect, pitch: Pitch)
}
