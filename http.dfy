/** The requests the scrapers issue.  The transport itself is not modelled:
    responses come from a function of the request. */
module Http {
  import opened Wrappers

  /** A query-string value: `self.search_params` mixes strings and integers. */
  datatype Param = Str(s: string) | Num(n: int)

  datatype HttpRequest =
    | Get(url: string, query: map<string, Param>)
    | Post(url: string, form: map<string, Option<string>>)

  /** `urllib.parse.urljoin`, taken as given. */
  type UrlJoin = (string, string) -> string
}
