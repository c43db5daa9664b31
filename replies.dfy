/** What a server action hands back to the page that called it. */
module Replies {

  /**
   * `{ success: true }` (or a void return), `{ error: message }`, an
   * exception that propagates to the caller, or Next.js's `redirect`.
   */
  datatype Reply = Success | Error(message: string) | Thrown(message: string) | Redirected(location: string)

  /** A listing action: the rows, or an exception that propagates. */
  datatype Listing<T> = Rows(rows: seq<T>) | ListingThrown(message: string)
}
