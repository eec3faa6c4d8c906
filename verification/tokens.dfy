/** Access tokens: the claim set create_access_token builds and the checks
    decode_access_token applies. Signing is an abstract codec; the clock is
    the parameter `now`, in whole seconds since the epoch. */
module Tokens {
  import opened Http

  /** A claim value as it travels in a token: a JSON string, or a NumericDate
      (section 2 of RFC 7519: whole seconds since the epoch). */
  datatype Claim = Text(text: string) | NumericDate(seconds: int)

  type Claims = map<string, Claim>

  type Token = string

  /** jwt.encode and jwt.decode with the process secret: decode either
      recovers a claim set or rejects the token. */
  datatype TokenCodec = TokenCodec(encode: Claims -> Token, decode: Token -> Option<Claims>)
  {
    /** A token signed with the secret decodes to the claims it was made from. */
    ghost predicate RoundTrips()
    {
      forall c :: decode(encode(c)) == Some(c)
    }
  }

  /** The fallback lifetime of create_access_token, 15 minutes. */
  const DefaultExpireSeconds: int := 15 * 60

  /** ACCESS_TOKEN_EXPIRE_MINUTES, the lifetime login asks for. */
  const AccessTokenExpireMinutes: int := 30

  /** `expires_delta or timedelta(minutes=15)`: a missing delta and a zero
      delta (a falsy timedelta) both fall back to 15 minutes. */
  function Lifetime(expiresDelta: Option<int>): int
  {
    if expiresDelta.Some? && expiresDelta.value != 0 then expiresDelta.value else DefaultExpireSeconds
  }

  /** The claim set create_access_token encodes: a copy of `data` with
      "exp" (section 4.1.4 of RFC 7519) set to now plus the lifetime. */
  function AccessClaims(data: Claims, expiresDelta: Option<int>, now: int): (c: Claims)
    ensures c.Keys == data.Keys + {"exp"}
    ensures forall k :: k in data && k != "exp" ==> c[k] == data[k]
    ensures expiresDelta.None? || expiresDelta == Some(0) ==> c["exp"] == NumericDate(now + DefaultExpireSeconds)
    ensures expiresDelta.Some? && expiresDelta.value != 0 ==> c["exp"] == NumericDate(now + expiresDelta.value)
  {
    data["exp" := NumericDate(now + Lifetime(expiresDelta))]
  }

  /** create_access_token: the token carries exactly AccessClaims. */
  function CreateAccessToken(codec: TokenCodec, data: Claims, expiresDelta: Option<int>, now: int): (token: Token)
    ensures codec.RoundTrips() ==> codec.decode(token) == Some(AccessClaims(data, expiresDelta, now))
  {
    codec.encode(AccessClaims(data, expiresDelta, now))
  }

  /** The registered-claim checks jwt.decode makes after the signature: an
      "exp" must be a NumericDate not earlier than now (no leeway), and a
      "sub" (section 4.1.2 of RFC 7519) must be a string. */
  predicate RegisteredClaimsValid(claims: Claims, now: int)
  {
    && ("exp" in claims ==> claims["exp"].NumericDate? && now <= claims["exp"].seconds)
    && ("sub" in claims ==> claims["sub"].Text?)
  }

  /** decode_access_token: the subject of a token that decodes, has valid
      registered claims and a non-empty "sub"; every failure is the same
      401 "Invalid token". */
  function DecodeAccessToken(codec: TokenCodec, token: Token, now: int): (r: Result<string>)
    ensures r.Err? ==> r.error == InvalidToken
    ensures r.Ok? ==> r.value != "" && codec.decode(token).Some?
    ensures r.Ok? ==>
              var claims := codec.decode(token).value;
              && "sub" in claims && claims["sub"] == Text(r.value)
              && ("exp" in claims ==> claims["exp"].NumericDate? && now <= claims["exp"].seconds)
  {
    match codec.decode(token)
    case None => Err(InvalidToken)
    case Some(claims) =>
      if !RegisteredClaimsValid(claims, now) then Err(InvalidToken)
      else if "sub" !in claims || claims["sub"].text == "" then Err(InvalidToken)
      else Ok(claims["sub"].text)
  }

  /** A token issued for subject `name` is accepted exactly while it has not
      expired, and only when the subject is not empty; it then yields `name`. */
  lemma IssuedTokenDecodes(codec: TokenCodec, name: string, expiresDelta: Option<int>, issued: int, now: int)
    requires codec.RoundTrips()
    ensures DecodeAccessToken(codec, CreateAccessToken(codec, map["sub" := Text(name)], expiresDelta, issued), now)
            == if name != "" && now <= issued + Lifetime(expiresDelta) then Ok(name) else Err(InvalidToken)
  {
    var claims := AccessClaims(map["sub" := Text(name)], expiresDelta, issued);
    assert claims["sub"] == Text(name);
  }
}
