/** What several models share. */
module Common {

  datatype Option<+T> = None | Some(value: T)

  /** The writes of a plan that reach the disk when the process dies after the first `crashAfter`. */
  function Cut<T>(ws: seq<T>, crashAfter: Option<nat>): seq<T> {
    if crashAfter.None? || crashAfter.value >= |ws| then ws else ws[..crashAfter.value]
  }
}
