/** The optional value the other modules use for a nullable column or argument. */
module Options {

  datatype Option<+T> = None | Some(value: T)

  /** The first present value, as SQL's COALESCE over text columns with '' last. */
  function Coalesce(a: Option<string>, b: Option<string>): string {
    match a
    case Some(v) => v
    case None => match b case Some(w) => w case None => ""
  }
}
