/**
 * A round trip to a networked store (Redis in the source). Whether it
 * succeeds is outside the program's control, so callers only know that it
 * either succeeds or reports a backend error.
 */
module Remote {
  import opened Maybe
  import opened Model

  method Call() returns (err: Option<Error>)
    ensures err.None? || err.value.Backend?
  {
    var reachable: bool :| true;
    if reachable {
      err := None;
    } else {
      var message: string :| true;
      err := Some(Backend(message));
    }
  }
}
