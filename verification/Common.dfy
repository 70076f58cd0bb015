/** What several modules share. */
module Common {

  datatype Option<T> = None | Some(value: T)

  /** The next element of a Go map or set iteration: any one that has not been visited. */
  method Next<T>(todo: set<T>) returns (x: T)
    requires todo != {}
    ensures x in todo
  {
    x :| x in todo;
  }
}
