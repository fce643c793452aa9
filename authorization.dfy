/** The Authorization header the transport writes, and the split a server
    makes of it into scheme and credential. */
module Authorization {
  import opened Wrappers
  import opened Tokens

  /** Header key the transport sets on the copy of each request. */
  const AuthorizationKey: string := "Authorization"

  /** The token's type, or "Bearer" when the token has none. */
  function Scheme(t: Token): (s: string)
    ensures s != ""
    ensures t.tokenType != "" ==> s == t.tokenType
    ensures t.tokenType == "" ==> s == DefaultTokenType
  {
    if t.tokenType == "" then DefaultTokenType else t.tokenType
  }

  /** The header value: scheme, one space, access token. */
  function AuthorizationValue(t: Token): (v: string)
    ensures |v| == |Scheme(t)| + 1 + |t.accessToken|
    ensures v[..|Scheme(t)|] == Scheme(t)
    ensures v[|Scheme(t)|] == ' '
    ensures v[|Scheme(t)| + 1..] == t.accessToken
  {
    Scheme(t) + " " + t.accessToken
  }

  /** Splits a header value at its first space into scheme and credential;
      a value without a space is all scheme. */
  function SplitAtSpace(v: string): (parts: (string, string))
    ensures ' ' !in parts.0
    ensures |parts.0| <= |v|
    decreases |v|
  {
    if v == [] then ([], [])
    else if v[0] == ' ' then ([], v[1..])
    else
      var rest := SplitAtSpace(v[1..]);
      ([v[0]] + rest.0, rest.1)
  }

  /** Splitting a scheme without spaces, a space and a credential gives both back. */
  lemma {:induction false} SplitJoined(scheme: string, credential: string)
    requires ' ' !in scheme
    ensures SplitAtSpace(scheme + " " + credential) == (scheme, credential)
  {
    var v := scheme + " " + credential;
    if scheme != [] {
      assert v[0] == scheme[0] && v[0] != ' ';
      assert v[1..] == scheme[1..] + " " + credential;
      SplitJoined(scheme[1..], credential);
      assert [scheme[0]] + scheme[1..] == scheme;
    } else {
      assert v[1..] == credential;
    }
  }

  /** The header value carries the scheme and the access token, and a
      receiver that splits at the first space recovers both, whatever the
      access token holds, as long as the token type has no space. */
  lemma AuthorizationRoundTrip(t: Token)
    requires ' ' !in t.tokenType
    ensures SplitAtSpace(AuthorizationValue(t)) == (Scheme(t), t.accessToken)
  {
    assert ' ' !in DefaultTokenType;
    SplitJoined(Scheme(t), t.accessToken);
  }

  /** A fetched token with access token "abc" and no type yields exactly
      "Bearer abc". */
  lemma DefaultBearerHeader(now: int)
    ensures AuthorizationValue(Token("abc", "", "", Some(now + 3600), Other)) == "Bearer abc"
  {
  }
}
