/** The optional value the program writes as `False` or a value (`move = (False, False)`,
    `drag_piece = False`, `TestForEnding` returning `False`). */
module Optional {
  datatype Option<+T> = None | Some(value: T)
}
