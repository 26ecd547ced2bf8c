/** Shared switches of the model. `Variant` selects which reading of the
    heightmap code a member follows: the code as it is written, or the
    corrected behaviour (height taken from the image's height; neighbour
    reads clamped to the grid). `Outcome` is a step that either finishes
    with a value or throws before producing one. */
module Policy {

  datatype Variant = AsWritten | Corrected

  datatype Outcome<T> = Done(value: T) | Threw
}
