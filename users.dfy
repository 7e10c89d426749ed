/** A row of the `users` table, with the columns the core reads or writes. */
module Users {
  import opened Wrappers

  /**
   * `calls_used_this_month` and `calls_limit` are the monthly usage counter and
   * allowance; `updated_at` is kept as integer milliseconds.
   */
  datatype User = User(
    id: string,
    email: string,
    phoneNumber: Option<string>,
    callsUsedThisMonth: int,
    callsLimit: int,
    updatedAt: int)
}
