/**
 * The rating record that every provider returns and that the service, the
 * cache and the stream formatter pass around, and the outcome of fetching a page.
 */
module Records {
  import opened Wrappers

  /**
   * `{source, value, url, type, count}`; an absent or `null` field is `None`.
   * `type` is a keyword here, so that field is called `kind`.
   */
  datatype Record = Record(
    source: string,
    value: string,
    url: Option<string>,
    kind: Option<string>,
    count: Option<nat>)

  /**
   * What the shared page fetcher returns: `null` on a network error, otherwise
   * the HTTP status and the parts of the page a scraper looks at.
   */
  datatype Fetched<Page> = NoResponse | Response(status: int, page: Page)

  /** A JavaScript string used as a condition: only the empty string is falsy. */
  predicate Truthy(s: Option<string>) { s.Some? && s.value != [] }
}
