/** Go `error` values, as far as the password-reset core inspects them. */
module Errors {

  /** An error returned by the database driver or built with fmt.Errorf. */
  datatype Error =
    | ErrNoRows               // database/sql's sentinel sql.ErrNoRows
    | Message(text: string)   // any other error, known by its Error() text

  /** What `err.Error()` gives. */
  function Text(e: Error): string
  {
    match e
    case ErrNoRows => "sql: no rows in result set"
    case Message(t) => t
  }
}
