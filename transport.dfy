/** The authorizing transport: a cached token slot refreshed on demand, the
    table from each in-flight request to its authorized copy, and the
    response-body wrapper that releases a table entry once the body is
    consumed or closed.

    The collaborators are oracles: the answer the token fetcher gives when it
    is asked, the outcome the base transport gives for the copy, and the
    result of each underlying body read or close are arguments. Ghost logs
    record which collaborator was called with what. */
module OAuthTransport {
  import opened Wrappers
  import opened Tokens
  import opened TokenRefresh
  import opened Authorization
  import BodyEvents

  /** An http.Header: a map from key to values, shared by reference. */
  class Header {
    var entries: map<string, seq<string>>

    constructor ()
      ensures entries == map[]
    {
      entries := map[];
    }

    /** Replaces the values stored under `key` with the single `value`. */
    method Set(key: string, value: string)
      modifies this
      ensures entries == old(entries)[key := [value]]
    {
      entries := entries[key := [value]];
    }
  }

  /** The parts of a request the transport copies but never reads. */
  datatype RequestLine = RequestLine(verb: string, url: string)

  /** An http.Request, compared by identity. */
  class Request {
    const line: RequestLine
    var header: Header

    constructor (line: RequestLine, header: Header)
      ensures this.line == line && this.header == header
    {
      this.line := line;
      this.header := header;
    }
  }

  /** The underlying response body stream, opaque. */
  datatype RawBody = RawBody(id: nat)

  /** A response as the base transport returns it. */
  datatype RawResponse = RawResponse(status: int, body: RawBody)

  /** A response as the transport returns it, its body wrapped. */
  datatype Response = Response(status: int, body: OnEOFReader)

  /** The result of one body read: a byte count and an optional error. */
  datatype ReadResult = ReadResult(n: nat, err: Option<Error>)

  /** The release callback a body wrapper holds: drop the table entry of
      `orig` in `transport`. */
  datatype Release = Release(transport: Transport, orig: Request)

  /** A nil table reads as the empty table. */
  function Table(m: Option<map<Request, Request>>): map<Request, Request> {
    if m.None? then map[] else m.value
  }

  /** A copy of `r` that shares everything but the header, whose entries are
      copied one by one into a new header. */
  method CloneRequest(r: Request) returns (r2: Request)
    ensures fresh(r2) && fresh(r2.header)
    ensures r2.line == r.line
    ensures r2.header.entries == r.header.entries
  {
    r2 := new Request(r.line, r.header);
    r2.header := new Header();
    var source := r.header.entries;
    var pending := source.Keys;
    while pending != {}
      invariant fresh(r2.header)
      invariant pending <= source.Keys
      invariant r2.header.entries.Keys == source.Keys - pending
      invariant forall k :: k in r2.header.entries ==> r2.header.entries[k] == source[k]
      decreases pending
    {
      var k :| k in pending;
      r2.header.entries := r2.header.entries[k := source[k]];
      pending := pending - {k};
    }
  }

  class Transport {
    /** Whether a token store is configured. */
    const hasStore: bool
    /** The cached token; None until one is fetched. */
    var token: Option<Token>
    /** Original request to its authorized copy; None while nil. */
    var modReq: Option<map<Request, Request>>

    /** The argument of every call to the token fetcher, in order. */
    ghost var fetchLog: seq<Option<Token>>
    /** Every token written to the token store, in order. */
    ghost var storeLog: seq<Token>
    /** Every request handed to the base transport, in order. */
    ghost var sent: seq<Request>

    constructor (hasStore: bool, token: Option<Token>)
      ensures this.hasStore == hasStore && this.token == token && modReq.None?
      ensures fetchLog == [] && storeLog == [] && sent == []
    {
      this.hasStore := hasStore;
      this.token := token;
      modReq := None;
      fetchLog, storeLog, sent := [], [], [];
    }

    /** The cached token, without refreshing it. */
    method CurrentToken() returns (t: Option<Token>)
      ensures t == token
    {
      t := token;
    }

    /** Asks the fetcher for a new token, passing the cached one, and caches
        what it returns; its error is passed on and the cache kept. */
    method RefreshToken(answer: Result<Token>) returns (err: Option<Error>)
      modifies this`token, this`fetchLog
      ensures fetchLog == old(fetchLog) + [old(token)]
      ensures answer.Err? ==> err == Some(answer.error) && token == old(token)
      ensures answer.Ok? ==> err == None && token == Some(answer.value)
    {
      fetchLog := fetchLog + [token];
      var fetched := answer;
      if fetched.Err? {
        return Some(fetched.error);
      }
      token := Some(fetched.value);
      return None;
    }

    /** Returns the cached token while it is not expiring soon; otherwise
        refreshes it, writes the new token to the store when one is
        configured, and returns it. The check is made twice, as the source
        makes it before and after taking its lock. */
    method CheckAndRefreshToken(now: int, answer: Result<Token>) returns (r: Result<Token>)
      modifies this`token, this`fetchLog, this`storeLog
      ensures !NeedsRefresh(old(token), now) ==>
        && r == Ok(old(token).value) && token == old(token)
        && fetchLog == old(fetchLog) && storeLog == old(storeLog)
      ensures NeedsRefresh(old(token), now) ==> fetchLog == old(fetchLog) + [old(token)]
      ensures NeedsRefresh(old(token), now) && answer.Err? ==>
        r == Err(answer.error) && token == old(token) && storeLog == old(storeLog)
      ensures NeedsRefresh(old(token), now) && answer.Ok? ==>
        && r == answer && token == Some(answer.value)
        && storeLog == old(storeLog) + (if hasStore then [answer.value] else [])
      ensures var s := CheckAndRefresh(old(token), now, answer); r == s.result && token == s.cached
    {
      var tok := token;
      if tok.None? || tok.value.ExpiringSoon(now) {
        tok := token;
        if tok.None? || tok.value.ExpiringSoon(now) {
          var err := RefreshToken(answer);
          if err.Some? {
            return Err(err.value);
          }
          tok := token;
          if hasStore {
            storeLog := storeLog + [tok.value];
          }
        }
      }
      return Ok(tok.value);
    }

    /** Maps `orig` to `mod`, or removes `orig` when `mod` is None, making
        the table first if it is nil; other entries stay as they were. */
    method SetModReq(orig: Request, mod: Option<Request>)
      modifies this`modReq
      ensures modReq.Some?
      ensures modReq.value == if mod.None? then Table(old(modReq)) - {orig}
                              else Table(old(modReq))[orig := mod.value]
      ensures mod.None? ==> orig !in modReq.value
      ensures mod.Some? ==> orig in modReq.value && modReq.value[orig] == mod.value
      ensures forall k :: k in modReq.value && k != orig ==> k in Table(old(modReq))
      ensures forall k :: k in Table(old(modReq)) && k != orig ==> k in modReq.value && modReq.value[k] == Table(old(modReq))[k]
    {
      if modReq.None? {
        modReq := Some(map[]);
      }
      if mod.None? {
        modReq := Some(modReq.value - {orig});
      } else {
        modReq := Some(modReq.value[orig := mod.value]);
      }
    }

    /** Authorizes `req` with the cached or refreshed token and sends a copy
        carrying the Authorization header; the caller's request is left as
        it was. The copy is tracked under `req` until the base transport
        fails or the returned body is consumed or closed. */
    method RoundTrip(req: Request, now: int, answer: Result<Token>, dispatched: Result<RawResponse>)
      returns (res: Result<Response>)
      modifies this
      ensures req.header.entries == old(req.header.entries)
      ensures var s := CheckAndRefresh(old(token), now, answer);
        && token == s.cached
        && fetchLog == old(fetchLog) + (if s.fetched then [old(token)] else [])
        && storeLog == old(storeLog) + (if s.fetched && s.result.Ok? && hasStore then [s.result.value] else [])
      ensures var s := CheckAndRefresh(old(token), now, answer);
        s.result.Err? ==> res == Err(s.result.error) && modReq == old(modReq) && sent == old(sent)
      ensures var s := CheckAndRefresh(old(token), now, answer);
        s.result.Ok? ==>
          && |sent| == |old(sent)| + 1 && sent[..|old(sent)|] == old(sent)
          && fresh(sent[|old(sent)|]) && fresh(sent[|old(sent)|].header)
          && sent[|old(sent)|].line == req.line
          && sent[|old(sent)|].header.entries
             == req.header.entries[AuthorizationKey := [AuthorizationValue(s.result.value)]]
      ensures var s := CheckAndRefresh(old(token), now, answer);
        s.result.Ok? && dispatched.Err? ==>
          res == Err(dispatched.error) && modReq == Some(Table(old(modReq)) - {req})
      ensures var s := CheckAndRefresh(old(token), now, answer);
        s.result.Ok? && dispatched.Ok? ==>
          && res.Ok? && res.value.status == dispatched.value.status
          && fresh(res.value.body) && res.value.body.Valid()
          && res.value.body.rc == dispatched.value.body
          && res.value.body.fn == Some(Release(this, req))
          && modReq == Some(Table(old(modReq))[req := sent[|old(sent)|]])
    {
      var got := CheckAndRefreshToken(now, answer);
      if got.Err? {
        return Err(got.error);
      }
      var token := got.value;
      var req2 := CloneRequest(req);
      var typ := token.tokenType;
      if typ == "" {
        typ := DefaultTokenType;
      }
      req2.header.Set(AuthorizationKey, typ + " " + token.accessToken);
      SetModReq(req, Some(req2));
      sent := sent + [req2];
      var outcome := dispatched;
      if outcome.Err? {
        SetModReq(req, None);
        assert Table(old(modReq))[req := req2] - {req} == Table(old(modReq)) - {req};
        return Err(outcome.error);
      }
      var body := new OnEOFReader(outcome.value.body, Release(this, req));
      res := Ok(Response(outcome.value.status, body));
    }
  }

  /** A caller that sends `req` and then, on success, either reads the body
      to end-of-file or closes it early: once a token was obtained, no table
      entry for `req` is left and no other entry changed; when none was
      obtained the table is untouched. Its own header never gains the
      Authorization key. */
  method SendAndRelease(t: Transport, req: Request, now: int, answer: Result<Token>,
                        dispatched: Result<RawResponse>, last: nat, closeEarly: bool)
    returns (res: Result<Response>)
    modifies t
    ensures var s := CheckAndRefresh(old(t.token), now, answer);
      s.result.Ok? ==>
        && req !in Table(t.modReq)
        && Table(t.modReq) - {req} == Table(old(t.modReq)) - {req}
    ensures CheckAndRefresh(old(t.token), now, answer).result.Err? ==>
      res == Err(answer.error) && t.modReq == old(t.modReq)
    ensures req.header.entries == old(req.header.entries)
  {
    res := t.RoundTrip(req, now, answer, dispatched);
    if res.Ok? {
      var body := res.value.body;
      if closeEarly {
        var _ := body.Close(None);
      } else {
        var _ := body.Read(ReadResult(last, Some(EOF)));
      }
    }
  }

  /** A response body that runs its release callback once, on the first read
      that reports end-of-file or on close, whichever comes first. */
  class OnEOFReader {
    /** The underlying body. */
    const rc: RawBody
    /** The pending callback; None once it has run. */
    var fn: Option<Release>
    /** How many times the callback has run. */
    ghost var runs: nat

    /** The callback has run exactly when it is no longer pending. */
    ghost predicate Valid()
      reads this
    {
      runs == if fn.Some? then 0 else 1
    }

    /** The transport the pending callback updates, if any. */
    ghost function Callee(): set<object>
      reads this
    {
      if fn.Some? then {fn.value.transport} else {}
    }

    constructor (rc: RawBody, release: Release)
      ensures this.rc == rc && fn == Some(release) && runs == 0 && Valid()
    {
      this.rc := rc;
      fn := Some(release);
      runs := 0;
    }

    /** Forwards the underlying read unchanged and runs the callback when it
        reports end-of-file. */
    method Read(inner: ReadResult) returns (r: ReadResult)
      requires Valid()
      modifies this, Callee()
      ensures Valid() && r == inner
      ensures var e := BodyEvents.Read(inner.err == Some(EOF));
        && fn.Some? == BodyEvents.After(old(fn).Some?, e)
        && runs == old(runs) + BodyEvents.Runs(old(fn).Some?, [e])
      ensures old(fn).Some? && inner.err == Some(EOF) ==>
        var rel := old(fn).value;
        rel.transport.modReq == Some(Table(old(rel.transport.modReq)) - {rel.orig})
      ensures old(fn).Some? ==>
        var tr := old(fn).value.transport;
        && tr.token == old(tr.token) && tr.fetchLog == old(tr.fetchLog)
        && tr.storeLog == old(tr.storeLog) && tr.sent == old(tr.sent)
      ensures !(old(fn).Some? && inner.err == Some(EOF)) ==>
        fn == old(fn) && (old(fn).Some? ==> unchanged(old(fn).value.transport))
    {
      r := inner;
      if r.err == Some(EOF) {
        RunFunc();
      }
    }

    /** Forwards the underlying close unchanged and runs the callback. */
    method Close(inner: Option<Error>) returns (err: Option<Error>)
      requires Valid()
      modifies this, Callee()
      ensures Valid() && err == inner && fn.None?
      ensures runs == old(runs) + BodyEvents.Runs(old(fn).Some?, [BodyEvents.Close])
      ensures old(fn).Some? ==>
        var rel := old(fn).value;
        rel.transport.modReq == Some(Table(old(rel.transport.modReq)) - {rel.orig})
      ensures old(fn).Some? ==>
        var tr := old(fn).value.transport;
        && tr.token == old(tr.token) && tr.fetchLog == old(tr.fetchLog)
        && tr.storeLog == old(tr.storeLog) && tr.sent == old(tr.sent)
    {
      err := inner;
      RunFunc();
    }

    /** Runs the pending callback, if any, and clears it. */
    method RunFunc()
      requires Valid()
      modifies this, Callee()
      ensures Valid() && fn.None?
      ensures runs == 1
      ensures old(fn).Some? ==>
        var rel := old(fn).value;
        rel.transport.modReq == Some(Table(old(rel.transport.modReq)) - {rel.orig})
      ensures old(fn).Some? ==>
        var tr := old(fn).value.transport;
        && tr.token == old(tr.token) && tr.fetchLog == old(tr.fetchLog)
        && tr.storeLog == old(tr.storeLog) && tr.sent == old(tr.sent)
      ensures old(fn).None? ==> runs == old(runs)
    {
      if fn.Some? {
        var f := fn.value;
        f.transport.SetModReq(f.orig, None);
        runs := runs + 1;
        fn := None;
      }
    }
  }
}
