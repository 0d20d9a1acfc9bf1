/** The shape of the Authorization header that carries a JSON Web Token: "Bearer " and the
    token, whose three dot-separated parts are header, payload and signature. Checking the
    signature (HMAC-SHA512 with the signing key) is a predicate the caller supplies. */
module Jwt {
  import opened Text

  const Scheme := "Bearer "

  /** WrapJWTHeader: the scheme followed by the token. */
  function WrapJWTHeader(token: string): (header: string)
    ensures HasPrefix(header, Scheme) && header[|Scheme|..] == token
    ensures |header| == |Scheme| + |token|
  {
    Scheme + token
  }

  /** UnwrapJWTHeader: the second space-separated field. A header without a space has no
      second field, and indexing it panics, so callers must pass one with a space. */
  function UnwrapJWTHeader(authHeader: string): (token: string)
    requires ' ' in authHeader
    ensures ' ' !in token
  {
    SplitHasTwoPiecesIff(authHeader, ' ');
    Split(authHeader, ' ')[1]
  }

  /** A token without spaces comes back out of its header unchanged. */
  lemma UnwrapWrap(token: string)
    requires ' ' !in token
    ensures ' ' in WrapJWTHeader(token)
    ensures UnwrapJWTHeader(WrapJWTHeader(token)) == token
  {
    assert WrapJWTHeader(token) == "Bearer" + [' '] + token;
    SplitAtFirst("Bearer", ' ', token);
    SplitWithoutSeparator(token, ' ');
  }

  /** A header with the "Bearer " prefix always has a second field, so the field-count
      check of IsJWTHeaderValid never rejects. */
  lemma PrefixedHeaderHasToken(authHeader: string)
    requires HasPrefix(authHeader, Scheme)
    ensures |Split(authHeader, ' ')| >= 2
  {
    assert authHeader[6] == Scheme[6];
    SplitHasTwoPiecesIff(authHeader, ' ');
  }

  /** What a Go call can end in besides returning. */
  datatype Outcome<+T> = Returned(value: T) | IndexOutOfRange

  /** IsJWTHeaderValid as written: after the prefix and field-count checks it takes
      parts[0:2] and parts[2] of the token's dot-split without checking that there are three
      parts, which panics for a token with fewer. */
  function IsJWTHeaderValidAsWritten(authHeader: string, verify: (string, string) -> bool): Outcome<bool>
  {
    if !HasPrefix(authHeader, Scheme) then Returned(false)
    else
      var fields := Split(authHeader, ' ');
      if |fields| < 2 then Returned(false)
      else
        var parts := Split(fields[1], '.');
        if |parts| < 3 then IndexOutOfRange
        else Returned(verify(Join(parts[..2], "."), parts[2]))
  }

  /** The header "Bearer abc" passes both checks and then indexes past the single part. */
  lemma IsJWTHeaderValidCounterexample(verify: (string, string) -> bool)
    ensures HasPrefix("Bearer abc", Scheme)
    ensures IsJWTHeaderValidAsWritten("Bearer abc", verify) == IndexOutOfRange
  {
    SplitAtFirst("Bearer", ' ', "abc");
    SplitWithoutSeparator("abc", ' ');
    SplitWithoutSeparator("abc", '.');
    assert "Bearer" + [' '] + "abc" == "Bearer abc";
  }

  /** IsJWTHeaderValid with a token of fewer than three parts rejected instead of panicking:
      valid exactly when the header has the prefix and the signature (third part) verifies
      against the first two parts joined by ".". */
  function IsJWTHeaderValid(authHeader: string, verify: (string, string) -> bool): (valid: bool)
    ensures !HasPrefix(authHeader, Scheme) ==> !valid
  {
    if !HasPrefix(authHeader, Scheme) then false
    else
      var fields := Split(authHeader, ' ');
      if |fields| < 2 then false
      else
        var parts := Split(fields[1], '.');
        if |parts| < 3 then false
        else verify(Join(parts[..2], "."), parts[2])
  }

  /** Wherever the code as written returns, the corrected check returns the same answer;
      it differs only where the code panics. */
  lemma CorrectedAgreesWhereWrittenReturns(authHeader: string, verify: (string, string) -> bool)
    requires IsJWTHeaderValidAsWritten(authHeader, verify).Returned?
    ensures IsJWTHeaderValid(authHeader, verify) == IsJWTHeaderValidAsWritten(authHeader, verify).value
  {
  }

  /** A wrapped token of three dot-free parts is valid exactly when its signature verifies
      against header and payload joined by ".". */
  lemma WrappedTokenValidity(header: string, payload: string, signature: string, verify: (string, string) -> bool)
    requires '.' !in header && '.' !in payload && '.' !in signature
    requires ' ' !in header && ' ' !in payload && ' ' !in signature
    ensures IsJWTHeaderValid(WrapJWTHeader(header + "." + payload + "." + signature), verify) == verify(header + "." + payload, signature)
  {
    var token := header + "." + payload + "." + signature;
    assert ' ' !in token;
    assert WrapJWTHeader(token) == "Bearer" + [' '] + token;
    SplitAtFirst("Bearer", ' ', token);
    SplitWithoutSeparator(token, ' ');
    assert token == header + ['.'] + (payload + ['.'] + signature);
    SplitAtFirst(header, '.', payload + ['.'] + signature);
    SplitAtFirst(payload, '.', signature);
    SplitWithoutSeparator(signature, '.');
    var parts := Split(token, '.');
    assert parts == [header, payload, signature];
    assert parts[..2] == [header, payload];
    JoinTwo(header, payload, ".");
  }
}
