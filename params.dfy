/** Path parameters carried in the request context: the router's parameter list is turned
    into a map and attached to the request, and handlers read parameters back by name. */
module Params {
  import opened Base
  import opened Strconv
  import opened HttpRequest

  const ErrNotFound := Text("param not found")
  const ErrMissingParams := Text("missing params")

  /** One httprouter.Param. */
  datatype Param = Param(key: string, value: string)

  /** The map the parameters build when each one is stored in turn: a later parameter
      overwrites an earlier one with the same key. */
  function Assigned(ps: seq<Param>): map<string, string>
    decreases |ps|
  {
    if ps == [] then map[]
    else Assigned(ps[..|ps| - 1])[ps[|ps| - 1].key := ps[|ps| - 1].value]
  }

  /** A key is in the map exactly when some parameter has it, and it maps to the value of
      its last occurrence. */
  lemma {:induction false} AssignedIsLastOccurrence(ps: seq<Param>, k: string)
    ensures k in Assigned(ps) <==> exists i :: 0 <= i < |ps| && ps[i].key == k
    ensures forall i :: 0 <= i < |ps| && ps[i].key == k && (forall j :: i < j < |ps| ==> ps[j].key != k) ==>
      k in Assigned(ps) && Assigned(ps)[k] == ps[i].value
    decreases |ps|
  {
    if ps != [] {
      var init := ps[..|ps| - 1];
      AssignedIsLastOccurrence(init, k);
      if k != ps[|ps| - 1].key {
        assert forall i :: 0 <= i < |init| ==> init[i] == ps[i];
        if exists i :: 0 <= i < |ps| && ps[i].key == k {
          var i :| 0 <= i < |ps| && ps[i].key == k;
          assert init[i].key == k;
        }
      }
    }
  }

  /** paramsToMap: stores each parameter in a new map, in list order. */
  method ParamsToMap(ps: seq<Param>) returns (p: map<string, string>)
    ensures p == Assigned(ps)
  {
    p := map[];
    for i := 0 to |ps|
      invariant p == Assigned(ps[..i])
    {
      assert ps[..i + 1][..i] == ps[..i];
      p := p[ps[i].key := ps[i].value];
    }
    assert ps[..|ps|] == ps;
  }

  /** From: the parameter and true, or "" and false when it is absent or the map is nil.
      The type assertion on the context value panics when nothing was stored, so callers
      must have attached parameters. */
  function From(r: Request, key: string): (found: (string, bool))
    requires !r.context.Unset?
    ensures found.1 <==> r.context.Params? && key in r.context.params
    ensures found.1 ==> found.0 == r.context.params[key]
    ensures !found.1 ==> found.0 == ""
  {
    match r.context
    case NilMap => ("", false)
    case Params(params) => if key in params then (params[key], true) else ("", false)
  }

  /** StringFrom: the parameter, ErrMissingParams when no map (or a nil map) is attached,
      ErrNotFound when the map lacks the key. */
  function StringFrom(r: Request, key: string): (v: Result<string>)
    ensures !r.context.Params? ==> v == Failure(ErrMissingParams)
    ensures r.context.Params? && key !in r.context.params ==> v == Failure(ErrNotFound)
    ensures r.context.Params? && key in r.context.params ==> v == Success(r.context.params[key])
  {
    match r.context
    case Unset => Failure(ErrMissingParams)
    case NilMap => Failure(ErrMissingParams)
    case Params(params) => if key in params then Success(params[key]) else Failure(ErrNotFound)
  }

  /** IntFrom: StringFrom's error as it is, or the parameter parsed as a decimal int, a
      parse failure wrapped with "invalid int param". */
  function IntFrom(r: Request, key: string): (v: Result<int>)
    ensures StringFrom(r, key).Failure? ==> v == Failure(StringFrom(r, key).error)
    ensures StringFrom(r, key).Success? && Atoi(StringFrom(r, key).value).Failure? ==>
      v == Failure(Wrapped(Atoi(StringFrom(r, key).value).error, "invalid int param"))
    ensures v.Success? ==> StringFrom(r, key).Success? && Atoi(StringFrom(r, key).value) == v
  {
    match StringFrom(r, key)
    case Failure(e) => Failure(e)
    case Success(param) =>
      match Atoi(param)
      case Failure(e) => Failure(Wrapped(e, "invalid int param"))
      case Success(i) => Success(i)
  }

  /** A parameter written in decimal comes back from IntFrom as its value. */
  lemma IntFromDecimal(r: Request, key: string, n: nat)
    requires r.context.Params? && key in r.context.params && r.context.params[key] == Decimal(n)
    requires n <= MaxInt64
    ensures IntFrom(r, key) == Success(n)
  {
    AtoiDecimal(n);
  }

  /** WithRequest: the request with the parameters' map attached; every parameter can then
      be read back, each key giving its last value. */
  method WithRequest(r: Request, ps: seq<Param>) returns (r': Request)
    ensures r'.query == r.query && r'.context == Params(Assigned(ps))
    ensures forall i :: 0 <= i < |ps| && (forall j :: i < j < |ps| ==> ps[j].key != ps[i].key) ==>
      StringFrom(r', ps[i].key) == Success(ps[i].value)
  {
    var p := ParamsToMap(ps);
    r' := r.(context := Params(p));
    forall i | 0 <= i < |ps| && (forall j :: i < j < |ps| ==> ps[j].key != ps[i].key)
      ensures StringFrom(r', ps[i].key) == Success(ps[i].value)
    {
      AssignedIsLastOccurrence(ps, ps[i].key);
    }
  }
}
