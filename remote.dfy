/**
 * The hosted database as the client sees it: each request either fails (the client
 * library returns an `error`) or succeeds with `data`, which may be `null`.
 */
module Remote {
  import opened Wrappers

  datatype Reply<T> = Failed | Succeeded(data: Option<T>)
}
