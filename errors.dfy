/** Why a request fails. `Unauthorized` becomes a 401 response, every other error a 500 carrying its message. */
module Errors {
  import opened Wrappers

  datatype Error =
    | Unauthorized(message: string) // `check_authentication` refused the request
    | BodyNotJson                   // `req.get_json()` raised: no body, or not JSON
    | EmptyBody                     // the create body is falsy
    | BodyNotObject                 // the body is JSON but not an object, so dictionary operations raise
    | RowMissing                    // `fetchone()` found no row and `zip` was handed None
    | NoInsertedRow                 // the INSERT ... OUTPUT returned no row
    | IdentityMissing               // `del source_station['ID']` raised KeyError
    | NoSchema                      // the column query returned no rows

  /**
   * The message the handler code itself writes, where it writes one. An
   * error Python raises on its own (`KeyError`, `TypeError`, the parser's
   * `ValueError`) carries Python's text, which is not modelled.
   */
  function Message(e: Error): Option<string>
  {
    match e
    case Unauthorized(m) => Some(m)
    case EmptyBody => Some("Request body is empty")
    case NoInsertedRow => Some("Failed to retrieve newly created station")
    case NoSchema => Some("No schema information found for StationTracking table")
    case _ => None
  }
}
