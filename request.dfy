/** Query-string helpers: a parameter that is missing or empty takes the caller's default,
    or is reported as missing when it is required; a value that does not parse is an error
    wrapped with "parse query param". */
module Request {
  import opened Base
  import opened Strconv
  import Text
  import opened HttpRequest

  const ParseContext := "parse query param"

  /** MissingParamError{k} and its message. */
  function MissingParamError(k: string): (e: Error)
    ensures Message(e) == "Missing parameter: " + k
  {
    MissingParam(k)
  }

  /** QueryParam: the query value of `k`, or `v` when that is empty. */
  function QueryParam(r: Request, k: string, v: string): (param: string)
    ensures QueryGet(r, k) == "" ==> param == v
    ensures QueryGet(r, k) != "" ==> param == QueryGet(r, k)
    ensures param == "" ==> v == ""
  {
    var param := QueryGet(r, k);
    if param == "" then v else param
  }

  /** QueryMultipleParam: the query value of `k` split at each ",", or `v` when it is empty. */
  function QueryMultipleParam(r: Request, k: string, v: seq<string>): (params: seq<string>)
    ensures QueryGet(r, k) == "" ==> params == v
    ensures QueryGet(r, k) != "" ==>
      && |params| >= 1 && (forall i :: 0 <= i < |params| ==> ',' !in params[i])
      && Text.Join(params, ",") == QueryGet(r, k)
  {
    var params := QueryGet(r, k);
    if params == "" then v
    else
      Text.JoinSplit(params, ',');
      Text.Split(params, ',')
  }

  /** IntQueryParam: `v` without parsing when the value is empty, otherwise the value parsed
      as an int, or 0 and the wrapped parse error. */
  function IntQueryParam(r: Request, k: string, v: int): (result: (int, Option<Error>))
    ensures QueryGet(r, k) == "" ==> result == (v, None)
    ensures QueryGet(r, k) != "" && Atoi(QueryGet(r, k)).Success? ==> result == (Atoi(QueryGet(r, k)).value, None)
    ensures QueryGet(r, k) != "" && Atoi(QueryGet(r, k)).Failure? ==>
      result == (0, Some(Wrapped(Atoi(QueryGet(r, k)).error, ParseContext)))
  {
    var param := QueryParam(r, k, "");
    if param == "" then (v, None)
    else match Atoi(param)
      case Failure(e) => (0, Some(Wrapped(e, ParseContext)))
      case Success(i) => (i, None)
  }

  /** RequiredQueryParam: the non-empty query value of `k`, or MissingParamError{k}. */
  function RequiredQueryParam(r: Request, k: string): (result: (string, Option<Error>))
    ensures QueryGet(r, k) == "" ==> result == ("", Some(MissingParamError(k)))
    ensures QueryGet(r, k) != "" ==> result == (QueryGet(r, k), None)
  {
    var param := QueryParam(r, k, "");
    if param == "" then ("", Some(MissingParamError(k)))
    else (param, None)
  }

  /** RequiredIntQueryParam: a missing parameter is reported before any parsing; otherwise
      the value parsed as an int, or 0 and the wrapped parse error. */
  function RequiredIntQueryParam(r: Request, k: string): (result: (int, Option<Error>))
    ensures QueryGet(r, k) == "" ==> result == (0, Some(MissingParamError(k)))
    ensures QueryGet(r, k) != "" && Atoi(QueryGet(r, k)).Success? ==> result == (Atoi(QueryGet(r, k)).value, None)
    ensures QueryGet(r, k) != "" && Atoi(QueryGet(r, k)).Failure? ==>
      result == (0, Some(Wrapped(Atoi(QueryGet(r, k)).error, ParseContext)))
  {
    var param := QueryParam(r, k, "");
    if param == "" then (0, Some(MissingParamError(k)))
    else match Atoi(param)
      case Failure(e) => (0, Some(Wrapped(e, ParseContext)))
      case Success(i) => (i, None)
  }

  /** BoolQueryParam: `v` when the value is empty, otherwise the value parsed as a bool, or
      false and the wrapped parse error. */
  function BoolQueryParam(r: Request, k: string, v: bool): (result: (bool, Option<Error>))
    ensures QueryGet(r, k) == "" ==> result == (v, None)
    ensures QueryGet(r, k) != "" && ParseBool(QueryGet(r, k)).Success? ==> result == (ParseBool(QueryGet(r, k)).value, None)
    ensures QueryGet(r, k) != "" && ParseBool(QueryGet(r, k)).Failure? ==>
      result == (false, Some(Wrapped(ParseBool(QueryGet(r, k)).error, ParseContext)))
  {
    var param := QueryParam(r, k, "");
    if param == "" then (v, None)
    else match ParseBool(param)
      case Failure(e) => (false, Some(Wrapped(e, ParseContext)))
      case Success(b) => (b, None)
  }

  /** A numeric query value reads back as its number; an absent one gives the default. */
  lemma IntQueryParamDecimal(r: Request, k: string, n: nat, v: int)
    requires k in r.query && r.query[k] != [] && r.query[k][0] == Strconv.Decimal(n) && n <= MaxInt64
    ensures IntQueryParam(r, k, v) == (n, None)
    ensures RequiredIntQueryParam(r, k) == (n, None)
  {
    AtoiDecimal(n);
  }
}
