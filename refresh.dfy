/** The check-and-refresh decision of the transport, as a function of the
    cached token, the current instant and the answer the token fetcher gives
    when it is asked; and what a series of calls made at one instant does. */
module TokenRefresh {
  import opened Wrappers
  import opened Tokens

  /** The cached slot is empty or holds a token that is expiring soon. */
  predicate NeedsRefresh(cached: Option<Token>, now: int) {
    cached.None? || cached.value.ExpiringSoon(now)
  }

  /** One call: what it returns, the cached slot afterwards, and whether the
      fetcher was asked. */
  datatype Step = Step(result: Result<Token>, cached: Option<Token>, fetched: bool)

  /** Serve the cached token while it is usable; otherwise ask the fetcher and
      either install its token or pass its error on. */
  function CheckAndRefresh(cached: Option<Token>, now: int, answer: Result<Token>): (s: Step)
    ensures s.fetched <==> NeedsRefresh(cached, now)
    ensures s.result.Ok? ==> s.cached == Some(s.result.value)
    ensures !s.fetched ==> s.cached == cached && s.result.Ok? && !s.result.value.ExpiringSoon(now)
    ensures s.fetched && answer.Ok? ==> s.result == answer
    ensures s.result.Err? ==> s.fetched && s.result == answer && s.cached == cached
  {
    var token := cached;
    if token.None? || token.value.ExpiringSoon(now) then
      match answer
      case Err(e) => Step(Err(e), cached, true)
      case Ok(t) => Step(Ok(t), Some(t), true)
    else
      Step(Ok(token.value), cached, false)
  }

  /** Calls made one after another at the same instant; `answers[i]` is what
      the fetcher answers if call `i` asks it. */
  function Run(cached: Option<Token>, now: int, answers: seq<Result<Token>>): (steps: seq<Step>)
    ensures |steps| == |answers|
    decreases |answers|
  {
    if answers == [] then []
    else
      var s := CheckAndRefresh(cached, now, answers[0]);
      [s] + Run(s.cached, now, answers[1..])
  }

  /** How many of the steps asked the fetcher. */
  function Fetches(steps: seq<Step>): (n: nat)
    ensures n <= |steps|
    decreases |steps|
  {
    if steps == [] then 0
    else (if steps[0].fetched then 1 else 0) + Fetches(steps[1..])
  }

  /** While the cached token is usable, every call returns it and none asks
      the fetcher. */
  lemma {:induction false} UsableTokenIsShared(cached: Option<Token>, now: int, answers: seq<Result<Token>>)
    requires !NeedsRefresh(cached, now)
    ensures Fetches(Run(cached, now, answers)) == 0
    ensures forall i :: 0 <= i < |answers| ==> Run(cached, now, answers)[i] == Step(Ok(cached.value), cached, false)
  {
    if answers != [] {
      var steps := Run(cached, now, answers);
      UsableTokenIsShared(cached, now, answers[1..]);
      assert steps[1..] == Run(cached, now, answers[1..]);
    }
  }

  /** One fetch per staleness episode: when the fetcher hands out tokens that
      are usable at `now`, a series of calls at `now` asks it at most once
      (exactly once when the cached slot needs a refresh), and every call
      returns the same token. */
  lemma {:induction false} OneFetchPerEpisode(cached: Option<Token>, now: int, answers: seq<Result<Token>>)
    requires forall i :: 0 <= i < |answers| ==> answers[i].Ok? && !answers[i].value.ExpiringSoon(now)
    ensures Fetches(Run(cached, now, answers)) == (if NeedsRefresh(cached, now) && |answers| > 0 then 1 else 0)
    ensures forall i :: 0 <= i < |answers| ==> Run(cached, now, answers)[i].result == Run(cached, now, answers)[0].result
  {
    if answers != [] {
      var steps := Run(cached, now, answers);
      var s := steps[0];
      assert s == CheckAndRefresh(cached, now, answers[0]);
      assert steps[1..] == Run(s.cached, now, answers[1..]);
      assert !NeedsRefresh(s.cached, now);
      UsableTokenIsShared(s.cached, now, answers[1..]);
    }
  }

  /** A token with an empty access token and no expiry is expired, yet it is
      never "expiring soon", so it is served as it is and never refreshed. */
  lemma EmptyTokenWithoutExpiryIsServed(t: Token, now: int, answer: Result<Token>)
    requires t.accessToken == "" && t.expiry.None?
    ensures t.Expired(now)
    ensures CheckAndRefresh(Some(t), now, answer) == Step(Ok(t), Some(t), false)
  {
  }

  /** A failing fetcher leaves the cached slot as it was, so the next call
      at the same instant asks the fetcher again. */
  lemma FailureRetriesNextCall(cached: Option<Token>, now: int, e: Error, answers: seq<Result<Token>>)
    requires NeedsRefresh(cached, now)
    ensures Fetches(Run(cached, now, [Err(e)] + answers)) == 1 + Fetches(Run(cached, now, answers))
  {
  }
}
