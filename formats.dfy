/** The format checks the request schemas delegate to their validation library, left uninterpreted. */
module Formats {
  import opened Wrappers
  import opened Json

  /**
   * `z.string().url()`, `z.string().email()`, and `z.coerce.date()` as the
   * timestamp `new Date(v)` gives for a present value (None when it is an
   * invalid date).
   */
  datatype FormatChecks = FormatChecks(isUrl: string -> bool, isEmail: string -> bool, toDate: Json -> Option<int>)
}
