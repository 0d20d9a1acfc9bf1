/** The parts of a *http.Request the server helpers read: the URL's parsed query and the
    value stored in the request context under the path-parameter key. */
module HttpRequest {

  /** The context value under the parameter key: nothing stored, a nil map, or a map. */
  datatype ContextParams = Unset | NilMap | Params(params: map<string, string>)

  datatype Request = Request(query: map<string, seq<string>>, context: ContextParams)

  /** url.Values.Get: the first value of the key, "" when it has none. */
  function QueryGet(r: Request, k: string): (v: string)
    ensures k !in r.query || r.query[k] == [] ==> v == ""
    ensures k in r.query && r.query[k] != [] ==> v == r.query[k][0]
  {
    if k in r.query && |r.query[k]| > 0 then r.query[k][0] else ""
  }
}
