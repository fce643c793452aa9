/** The OAuth 2.0 token value and its freshness predicates.

    Time is a whole number of seconds and the current instant `now` is an
    explicit argument. A zero `time.Time` expiry (meaning "never expires") is
    `None`. */
module Tokens {
  import opened Wrappers

  /** Scheme written in the Authorization header when the token has no type. */
  const DefaultTokenType: string := "Bearer"

  /** The margin, in seconds, that ExpiringSoon passes to ExpiringWithin. */
  const ExpirationHysteresisSeconds: int := 60

  /** A dynamically typed value found in a decoded JSON object. Only strings
      can be read back by Extra; every other dynamic type is `JsonOther`. */
  datatype JsonValue = JsonString(s: string) | JsonOther

  /** The extra metadata the server returned with the token: form values
      (`url.Values`), a decoded JSON object, or anything else (including nil). */
  datatype Raw =
    | UrlValues(values: map<string, seq<string>>)
    | JsonMap(fields: map<string, JsonValue>)
    | Other

  datatype Token = Token(
    accessToken: string,
    tokenType: string,
    refreshToken: string,
    expiry: Option<int>,
    raw: Raw)
  {
    /** A token is expired when it has no access token, or when it has an
        expiry that lies strictly before `now`. */
    function Expired(now: int): (r: bool)
      ensures accessToken == "" ==> r
      ensures accessToken != "" && expiry.None? ==> !r
      ensures r <==> accessToken == "" || (expiry.Some? && expiry.value < now)
    {
      if accessToken == "" then true
      else if expiry.None? then false
      else expiry.value < now
    }

    /** As written, the window is added to the expiry rather than to `now`, so
        for a non-negative window this is Expired restricted to tokens that
        have an expiry: a token without one is never "expiring", even when its
        access token is empty. */
    function ExpiringWithin(hysteresis: int, now: int): (r: bool)
      ensures expiry.None? ==> !r
      ensures hysteresis >= 0 ==> (r <==> expiry.Some? && Expired(now))
    {
      if expiry.None? then false
      else
        var futureExpiry := expiry.value + hysteresis;
        Expired(now) || futureExpiry < now
    }

    /** ExpiringWithin with the fixed 60-second margin. */
    function ExpiringSoon(now: int): (r: bool)
      ensures r <==> expiry.Some? && Expired(now)
    {
      ExpiringWithin(ExpirationHysteresisSeconds, now)
    }

    /** The extra field `key` returned by the server: the first form value
        for the key, or the JSON field when it is a string; "" otherwise. */
    function Extra(key: string): (r: string)
      ensures raw.Other? ==> r == ""
      ensures raw.UrlValues? && key !in raw.values ==> r == ""
      ensures raw.JsonMap? && (key !in raw.fields || raw.fields[key].JsonOther?) ==> r == ""
      ensures r != "" ==>
        || (raw.UrlValues? && key in raw.values && |raw.values[key]| > 0 && r == raw.values[key][0])
        || (raw.JsonMap? && key in raw.fields && raw.fields[key] == JsonString(r))
    {
      match raw
      case UrlValues(values) =>
        if key in values && |values[key]| > 0 then values[key][0] else ""
      case JsonMap(fields) =>
        if key in fields && fields[key].JsonString? then fields[key].s else ""
      case Other => ""
    }
  }

  /** The reading of ExpiringWithin that its documentation gives: expired, or
      the expiry falls before `now` plus the window. */
  ghost predicate ExpiresWithinWindow(t: Token, hysteresis: int, now: int) {
    t.Expired(now) || (t.expiry.Some? && t.expiry.value < now + hysteresis)
  }

  /** For a non-negative window the code as written only reports tokens the
      documented reading also reports. */
  lemma ExpiringWithinImpliesWindow(t: Token, hysteresis: int, now: int)
    requires hysteresis >= 0
    ensures t.ExpiringWithin(hysteresis, now) ==> ExpiresWithinWindow(t, hysteresis, now)
  {
  }

  /** The converse fails: a live token that expires 30 seconds from now lies
      inside a 60-second window, yet ExpiringWithin(60) does not report it;
      with a 10-second window both readings agree that it is not expiring. */
  lemma ExpiringWithinMissesWindow(now: int)
    ensures var t := Token("abc", "", "", Some(now + 30), Other);
      && ExpiresWithinWindow(t, 60, now)
      && !t.ExpiringWithin(60, now)
      && !ExpiresWithinWindow(t, 10, now)
      && !t.ExpiringWithin(10, now)
  {
  }

  /** A token that has an access token and no expiry is neither expired nor
      expiring within any window. */
  lemma NoExpiryNeverExpires(t: Token, hysteresis: int, now: int)
    requires t.accessToken != "" && t.expiry.None?
    ensures !t.Expired(now) && !t.ExpiringWithin(hysteresis, now)
  {
  }

  /** Freshness only decays: a token expiring soon at `now` is still expiring
      soon at any later instant. */
  lemma ExpiringSoonMonotone(t: Token, now: int, later: int)
    requires now <= later
    ensures t.ExpiringSoon(now) ==> t.ExpiringSoon(later)
  {
  }

  /** Extra reads back the first form value stored under a key. */
  lemma ExtraReadsFormValue(values: map<string, seq<string>>, key: string, v: string, rest: seq<string>, t: Token)
    requires t.raw == UrlValues(values[key := [v] + rest])
    ensures t.Extra(key) == v
  {
  }

  /** Extra reads back a JSON string field, and nothing from a non-string field. */
  lemma ExtraReadsJsonString(fields: map<string, JsonValue>, key: string, v: string, t: Token)
    requires t.raw == JsonMap(fields[key := JsonString(v)])
    ensures t.Extra(key) == v
    ensures t.(raw := JsonMap(fields[key := JsonOther])).Extra(key) == ""
  {
  }
}
