/** The relay itself (`HttpTransmit`): the session table, the handshake
    handler `HandleConnect`, the transmit handler `HandleTransmit` and one
    pass of the background sweep. Each handler runs as one atomic step on
    the table; the guard chains are functions. The methods update the
    table map directly and their `ensures` prove the new table equal to a
    function of module `Sessions` applied to the old one. */
module Transmit {
  import opened Wrappers
  import opened GoTypes
  import opened Strings
  import opened External
  import opened Relay
  import opened Sessions

  /** Why a handler stopped early. The client never learns which: every
      rejection writes nothing. */
  datatype Rejection =
    | BadBase64
    | CiphertextTooShort
    | NotAuthenticated
    | KeyTooShort
    | TooFewLines
    | BadUrl
    | HostNotWhitelisted
    | BodyUnreadable
    | BodyNotAuthenticated

  /** What a handler writes: a status set with `WriteHeader`, and a body
      passed to `Write`; `None` where the handler does not call it. */
  datatype Response = Response(status: Option<int>, body: Option<seq<byte>>)

  const Silent: Response := Response(None, None)

  const StatusUnauthorized: int := 401

  // ---------------------------------------------------------------------
  // HandleConnect

  /** The guards of `HandleConnect`: the base64 blob decodes, is long enough
      for a tag, a mask and a key, decrypts under the master key with
      authentication, and yields a key of at least `KeyLen` bytes. */
  function UnwrapSessionKey(lib: Libraries, masterKey: seq<byte>, sessionKeyB64: string): (r: Result<seq<byte>, Rejection>)
    ensures r.Ok? ==> |r.value| >= lib.fxms.keyLen
    ensures r.Ok? ==> var enc := lib.decodeBase64(sessionKeyB64);
              && enc.Some?
              && |enc.value| >= lib.fxms.MinCiphertext() + lib.fxms.keyLen
              && lib.fxms.decrypt(masterKey, enc.value) == (r.value, true)
    ensures var enc := lib.decodeBase64(sessionKeyB64);
            enc.Some?
            && |enc.value| >= lib.fxms.MinCiphertext() + lib.fxms.keyLen
            && lib.fxms.decrypt(masterKey, enc.value).1
            && |lib.fxms.decrypt(masterKey, enc.value).0| >= lib.fxms.keyLen
            ==> r == Ok(lib.fxms.decrypt(masterKey, enc.value).0)
  {
    match lib.decodeBase64(sessionKeyB64)
    case None => Err(BadBase64)
    case Some(enc) =>
      if |enc| < lib.fxms.hashLen + lib.fxms.maskLen + lib.fxms.keyLen then Err(CiphertextTooShort)
      else
        var (sessionKey, ok) := lib.fxms.decrypt(masterKey, enc);
        if !ok then Err(NotAuthenticated)
        else if |sessionKey| < lib.fxms.keyLen then Err(KeyTooShort)
        else Ok(sessionKey)
  }

  /** The table after a handshake: unchanged unless every guard passes. */
  function ConnectTable(lib: Libraries, masterKey: seq<byte>, m: Table, sessionKeyB64: string, sessionId: string, now: int64): Table {
    match UnwrapSessionKey(lib, masterKey, sessionKeyB64)
    case Err(_) => m
    case Ok(sessionKey) => CreateIfAbsent(m, sessionId, sessionKey, now)
  }

  /** The response to a handshake: nothing on a rejection, else the empty
      payload encrypted under the unwrapped key (nothing when that fails). */
  function ConnectResponse(lib: Libraries, masterKey: seq<byte>, sessionKeyB64: string): Response {
    match UnwrapSessionKey(lib, masterKey, sessionKeyB64)
    case Err(_) => Silent
    case Ok(sessionKey) => Response(None, lib.fxms.encrypt(sessionKey, []))
  }

  /** A blob too short to hold a tag, a mask and a key is dropped: no
      response and no change to the table. */
  lemma ConnectRejectsShortCiphertext(lib: Libraries, masterKey: seq<byte>, m: Table, b64: string, id: string, now: int64)
    requires lib.decodeBase64(b64).Some?
    requires |lib.decodeBase64(b64).value| < lib.fxms.hashLen + lib.fxms.maskLen + lib.fxms.keyLen
    ensures UnwrapSessionKey(lib, masterKey, b64) == Err(CiphertextTooShort)
    ensures ConnectTable(lib, masterKey, m, b64, id, now) == m
    ensures ConnectResponse(lib, masterKey, b64) == Silent
  {
  }

  /** A blob that does not authenticate, or unwraps to a key shorter than
      `KeyLen`, is dropped: no response and no change to the table. */
  lemma ConnectRejectsBadKey(lib: Libraries, masterKey: seq<byte>, m: Table, b64: string, id: string, now: int64)
    requires lib.decodeBase64(b64).Some?
    requires var dec := lib.fxms.decrypt(masterKey, lib.decodeBase64(b64).value);
             !dec.1 || |dec.0| < lib.fxms.keyLen
    ensures UnwrapSessionKey(lib, masterKey, b64).Err?
    ensures ConnectTable(lib, masterKey, m, b64, id, now) == m
    ensures ConnectResponse(lib, masterKey, b64) == Silent
  {
  }

  /** Every way a handshake can fail looks the same from outside, and a
      handshake the response acknowledges is one that passed every guard. */
  lemma ConnectRejectionsSilent(lib: Libraries, masterKey: seq<byte>, m: Table, b64: string, id: string, now: int64)
    ensures UnwrapSessionKey(lib, masterKey, b64).Err? ==>
              ConnectResponse(lib, masterKey, b64) == Silent && ConnectTable(lib, masterKey, m, b64, id, now) == m
    ensures ConnectResponse(lib, masterKey, b64).body.Some? ==> UnwrapSessionKey(lib, masterKey, b64).Ok?
    ensures ConnectResponse(lib, masterKey, b64).status.None?
  {
  }

  /** An accepted handshake for a new ID stores the unwrapped key; for an ID
      already present it changes nothing, although the acknowledgement is
      still encrypted under the newly proposed key. */
  lemma ConnectCreateIfAbsent(lib: Libraries, masterKey: seq<byte>, m: Table, b64: string, id: string, now: int64)
    requires UnwrapSessionKey(lib, masterKey, b64).Ok?
    ensures var k := UnwrapSessionKey(lib, masterKey, b64).value;
            var m' := ConnectTable(lib, masterKey, m, b64, id, now);
            && (id in m ==> m' == m)
            && (id !in m ==> m'.Keys == m.Keys + {id} && m'[id] == Session(k, now))
            && ConnectResponse(lib, masterKey, b64) == Response(None, lib.fxms.encrypt(k, []))
  {
  }

  /** A handshake whose blob passes every guard, for an ID not yet in the
      table, adds exactly one session: the unwrapped key, stamped `now`. */
  lemma ConnectAccepts(lib: Libraries, masterKey: seq<byte>, m: Table, b64: string, id: string, now: int64)
    requires lib.decodeBase64(b64).Some?
    requires |lib.decodeBase64(b64).value| >= lib.fxms.MinCiphertext() + lib.fxms.keyLen
    requires var dec := lib.fxms.decrypt(masterKey, lib.decodeBase64(b64).value);
             dec.1 && |dec.0| >= lib.fxms.keyLen
    requires id !in m
    ensures var k := lib.fxms.decrypt(masterKey, lib.decodeBase64(b64).value).0;
            var m' := ConnectTable(lib, masterKey, m, b64, id, now);
            && m'.Keys == m.Keys + {id}
            && |m'| == |m| + 1
            && m'[id] == Session(k, now)
            && ConnectResponse(lib, masterKey, b64) == Response(None, lib.fxms.encrypt(k, []))
  {
  }

  // ---------------------------------------------------------------------
  // HandleTransmit

  /** The first guards of `HandleTransmit` after the lookup: the header
      blob decodes, is at least a tag and a mask long, and authenticates
      under the session key; the result is the decrypted descriptor. */
  function OpenHeaders(lib: Libraries, key: seq<byte>, headersB64: string): (r: Result<seq<byte>, Rejection>)
    ensures r.Ok? ==> var enc := lib.decodeBase64(headersB64);
              && enc.Some?
              && |enc.value| >= lib.fxms.MinCiphertext()
              && lib.fxms.decrypt(key, enc.value) == (r.value, true)
  {
    match lib.decodeBase64(headersB64)
    case None => Err(BadBase64)
    case Some(headersEnc) =>
      if |headersEnc| < lib.fxms.hashLen + lib.fxms.maskLen then Err(CiphertextTooShort)
      else
        var (headersDec, ok) := lib.fxms.decrypt(key, headersEnc);
        if !ok then Err(NotAuthenticated) else Ok(headersDec)
  }

  /** The descriptor split into lines: line 0 is the URL, line 1 the
      method, the rest are header lines; fewer than two lines is a
      rejection. */
  function SplitDescriptor(text: string): (r: Result<(string, string, seq<string>), Rejection>)
    ensures r.Ok? <==> '\n' in text
    ensures r.Ok? ==> JoinLines([r.value.0, r.value.1] + r.value.2) == text
    ensures r.Ok? ==> '\n' !in r.value.0 && '\n' !in r.value.1 && forall i :: 0 <= i < |r.value.2| ==> '\n' !in r.value.2[i]
  {
    var lines := SplitLines(text);
    TwoLinesIffNewline(text);
    if |lines| < 2 then Err(TooFewLines)
    else
      assert [lines[0], lines[1]] + lines[2..] == lines;
      Ok((lines[0], lines[1], lines[2..]))
  }

  /** Splitting a descriptor built from a URL, a method and header lines,
      none holding a newline, gives those parts back. */
  lemma SplitDescriptorRoundTrip(url: string, verb: string, headers: seq<string>)
    requires '\n' !in url && '\n' !in verb && forall i :: 0 <= i < |headers| ==> '\n' !in headers[i]
    ensures SplitDescriptor(JoinLines([url, verb] + headers)) == Ok((url, verb, headers))
  {
    var lines := [url, verb] + headers;
    forall i | 0 <= i < |lines| ensures '\n' !in lines[i] {
      if i >= 2 { assert lines[i] == headers[i - 2]; }
    }
    SplitJoin(lines);
    var text := JoinLines(lines);
    assert SplitLines(text) == lines;
    assert lines[0] == url && lines[1] == verb && lines[2..] == headers;
  }

  /** The whitelist test: the URL parses and its host is a key of the
      whitelist (the value stored under it is not looked at). */
  function CheckHost(lib: Libraries, whitelist: map<string, bool>, url: string): (r: Result<string, Rejection>)
    ensures r.Ok? <==> lib.parseHost(url).Some? && lib.parseHost(url).value in whitelist
  {
    match lib.parseHost(url)
    case None => Err(BadUrl)
    case Some(host) => if host !in whitelist then Err(HostNotWhitelisted) else Ok(host)
  }

  /** The body guard: it was read, and it authenticates under the session
      key. No length check comes first. */
  function OpenBody(lib: Libraries, key: seq<byte>, body: Option<seq<byte>>): (r: Result<seq<byte>, Rejection>)
    ensures r.Ok? <==> body.Some? && lib.fxms.decrypt(key, body.value).1
    ensures r.Ok? ==> r.value == lib.fxms.decrypt(key, body.value).0
  {
    match body
    case None => Err(BodyUnreadable)
    case Some(dataEnc) =>
      var (data, ok) := lib.fxms.decrypt(key, dataEnc);
      if !ok then Err(BodyNotAuthenticated) else Ok(data)
  }

  /** The guards and parsing of `HandleTransmit` after the session lookup,
      in the code's order. */
  function ParseTransmit(lib: Libraries, whitelist: map<string, bool>, key: seq<byte>, headersB64: string, body: Option<seq<byte>>)
    : (r: Result<Call, Rejection>)
    ensures r.Ok? ==> var enc := lib.decodeBase64(headersB64);
              && enc.Some?
              && |enc.value| >= lib.fxms.MinCiphertext()
              && lib.fxms.decrypt(key, enc.value).1
              && JoinLines([r.value.url, r.value.verb] + r.value.headers) == BytesToString(lib.fxms.decrypt(key, enc.value).0)
    ensures r.Ok? ==> '\n' !in r.value.url && '\n' !in r.value.verb
    ensures r.Ok? ==> forall i :: 0 <= i < |r.value.headers| ==> '\n' !in r.value.headers[i]
    ensures r.Ok? ==> var host := lib.parseHost(r.value.url); host.Some? && host.value in whitelist
    ensures r.Ok? ==> body.Some? && lib.fxms.decrypt(key, body.value) == (r.value.data, true)
  {
    match OpenHeaders(lib, key, headersB64)
    case Err(e) => Err(e)
    case Ok(headersDec) =>
      match SplitDescriptor(BytesToString(headersDec))
      case Err(e) => Err(e)
      case Ok((urlAddr, verb, headers)) =>
        match CheckHost(lib, whitelist, urlAddr)
        case Err(e) => Err(e)
        case Ok(_) =>
          match OpenBody(lib, key, body)
          case Err(e) => Err(e)
          case Ok(data) => Ok(Call(urlAddr, verb, headers, data))
  }

  /** The response to a transmit from a table `m`: 401 for an unknown ID,
      nothing on a rejection, else the destination's status and its body
      encrypted under the session key (no body when that fails). */
  function TransmitResponse(
    lib: Libraries, whitelist: map<string, bool>, m: Table, sessionId: string,
    headersB64: string, body: Option<seq<byte>>, inbound: Inbound, net: Network): Response
  {
    if sessionId !in m then Response(Some(StatusUnauthorized), None)
    else
      var key := m[sessionId].key;
      match ParseTransmit(lib, whitelist, key, headersB64, body)
      case Err(_) => Silent
      case Ok(call) =>
        var (status, data) := RequestOutcome(lib, net, call, inbound);
        Response(Some(status), lib.fxms.encrypt(key, data))
  }

  /** An unknown session gets 401 and nothing else. */
  lemma TransmitUnknownSession(
    lib: Libraries, whitelist: map<string, bool>, m: Table, id: string, now: int64,
    headersB64: string, body: Option<seq<byte>>, inbound: Inbound, net: Network)
    requires id !in m
    ensures TransmitResponse(lib, whitelist, m, id, headersB64, body, inbound, net) == Response(Some(401), None)
    ensures Touch(m, id, now) == m
  {
  }

  /** Every rejection after the lookup looks the same from outside. */
  lemma TransmitRejectionSilent(
    lib: Libraries, whitelist: map<string, bool>, m: Table, id: string,
    headersB64: string, body: Option<seq<byte>>, inbound: Inbound, net: Network)
    requires id in m
    ensures ParseTransmit(lib, whitelist, m[id].key, headersB64, body).Err? <==>
            TransmitResponse(lib, whitelist, m, id, headersB64, body, inbound, net) == Silent
  {
  }

  /** A header blob shorter than a tag and a mask is dropped before it is
      decrypted. */
  lemma TransmitRejectsShortCiphertext(lib: Libraries, whitelist: map<string, bool>, key: seq<byte>, headersB64: string, body: Option<seq<byte>>)
    requires lib.decodeBase64(headersB64).Some?
    requires |lib.decodeBase64(headersB64).value| < lib.fxms.hashLen + lib.fxms.maskLen
    ensures ParseTransmit(lib, whitelist, key, headersB64, body) == Err(CiphertextTooShort)
  {
  }

  /** Decrypted header text with no newline has fewer than two lines and
      is dropped. */
  lemma TransmitRejectsSingleLine(lib: Libraries, whitelist: map<string, bool>, key: seq<byte>, headersB64: string, body: Option<seq<byte>>)
    requires lib.decodeBase64(headersB64).Some?
    requires |lib.decodeBase64(headersB64).value| >= lib.fxms.MinCiphertext()
    requires var dec := lib.fxms.decrypt(key, lib.decodeBase64(headersB64).value);
             dec.1 && '\n' !in BytesToString(dec.0)
    ensures ParseTransmit(lib, whitelist, key, headersB64, body) == Err(TooFewLines)
  {
  }

  /** A first line that does not parse as a URL is dropped before the
      whitelist and the body are looked at. */
  lemma TransmitRejectsBadUrl(lib: Libraries, whitelist: map<string, bool>, key: seq<byte>, headersB64: string, body: Option<seq<byte>>)
    requires lib.decodeBase64(headersB64).Some?
    requires |lib.decodeBase64(headersB64).value| >= lib.fxms.MinCiphertext()
    requires var dec := lib.fxms.decrypt(key, lib.decodeBase64(headersB64).value);
             && dec.1
             && '\n' in BytesToString(dec.0)
             && lib.parseHost(SplitLines(BytesToString(dec.0))[0]).None?
    ensures ParseTransmit(lib, whitelist, key, headersB64, body) == Err(BadUrl)
  {
  }

  /** A URL whose host is not a key of the whitelist is dropped before the
      body is looked at. */
  lemma TransmitRejectsHost(lib: Libraries, whitelist: map<string, bool>, key: seq<byte>, headersB64: string, body: Option<seq<byte>>)
    requires lib.decodeBase64(headersB64).Some?
    requires |lib.decodeBase64(headersB64).value| >= lib.fxms.MinCiphertext()
    requires var dec := lib.fxms.decrypt(key, lib.decodeBase64(headersB64).value);
             && dec.1
             && '\n' in BytesToString(dec.0)
             && var url := SplitLines(BytesToString(dec.0))[0];
                lib.parseHost(url).Some? && lib.parseHost(url).value !in whitelist
    ensures ParseTransmit(lib, whitelist, key, headersB64, body) == Err(HostNotWhitelisted)
  {
  }

  /** A request the client encoded as URL, method and newline-free header
      lines, for a whitelisted host, with an authenticated body, is relayed
      with exactly those parts. A host whose whitelist entry is `false` is
      whitelisted too: only the key is looked up. */
  lemma TransmitAccepts(
    lib: Libraries, whitelist: map<string, bool>, key: seq<byte>, headersB64: string, body: Option<seq<byte>>,
    url: string, verb: string, headers: seq<string>, plain: seq<byte>, data: seq<byte>)
    requires lib.decodeBase64(headersB64).Some?
    requires |lib.decodeBase64(headersB64).value| >= lib.fxms.MinCiphertext()
    requires lib.fxms.decrypt(key, lib.decodeBase64(headersB64).value) == (plain, true)
    requires BytesToString(plain) == JoinLines([url, verb] + headers)
    requires '\n' !in url && '\n' !in verb && forall i :: 0 <= i < |headers| ==> '\n' !in headers[i]
    requires lib.parseHost(url).Some? && lib.parseHost(url).value in whitelist
    requires body.Some? && lib.fxms.decrypt(key, body.value) == (data, true)
    ensures ParseTransmit(lib, whitelist, key, headersB64, body) == Ok(Call(url, verb, headers, data))
  {
    assert OpenHeaders(lib, key, headersB64) == Ok(plain);
    SplitDescriptorRoundTrip(url, verb, headers);
    assert CheckHost(lib, whitelist, url).Ok?;
    assert OpenBody(lib, key, body) == Ok(data);
  }

  /** A handshake for a fresh ID followed by a transmit whose header text
      is `url\nGET\n` and whose body is empty: the relay sends a GET to
      `url` with the single empty header line (which sets nothing) and
      answers with the destination's result under the session key. */
  lemma HandshakeThenGet(
    lib: Libraries, masterKey: seq<byte>, whitelist: map<string, bool>, m: Table,
    sessionKeyB64: string, id: string, t0: int64, sessionKey: seq<byte>,
    headersB64: string, plain: seq<byte>, url: string, body: Option<seq<byte>>,
    inbound: Inbound, net: Network)
    requires id !in m
    requires lib.decodeBase64(sessionKeyB64).Some?
    requires |lib.decodeBase64(sessionKeyB64).value| >= lib.fxms.MinCiphertext() + lib.fxms.keyLen
    requires lib.fxms.decrypt(masterKey, lib.decodeBase64(sessionKeyB64).value) == (sessionKey, true)
    requires |sessionKey| >= lib.fxms.keyLen
    requires lib.decodeBase64(headersB64).Some?
    requires |lib.decodeBase64(headersB64).value| >= lib.fxms.MinCiphertext()
    requires lib.fxms.decrypt(sessionKey, lib.decodeBase64(headersB64).value) == (plain, true)
    requires '\n' !in url && BytesToString(plain) == url + "\nGET\n"
    requires lib.parseHost(url).Some? && lib.parseHost(url).value in whitelist
    requires body.Some? && lib.fxms.decrypt(sessionKey, body.value) == ([], true)
    ensures var m' := ConnectTable(lib, masterKey, m, sessionKeyB64, id, t0);
            var outcome := RequestOutcome(lib, net, Call(url, "GET", [""], []), inbound);
            && id in m' && m'[id].key == sessionKey
            && TransmitResponse(lib, whitelist, m', id, headersB64, body, inbound, net)
               == Response(Some(outcome.0), lib.fxms.encrypt(sessionKey, outcome.1))
  {
    var lines := [url, "GET", ""];
    assert JoinLines(lines) == url + "\nGET\n" by {
      assert lines[1..] == ["GET", ""];
      assert lines[1..][1..] == [""];
      assert JoinLines([""]) == "";
      assert JoinLines(["GET", ""]) == "GET" + "\n" + "";
      assert JoinLines(lines) == url + "\n" + ("GET" + "\n" + "");
    }
    assert [url, "GET"] + [""] == lines;
    TransmitAccepts(lib, whitelist, sessionKey, headersB64, body, url, "GET", [""], plain, []);
  }

  // ---------------------------------------------------------------------
  // The relay object

  class HttpTransmit {
    const whitelistedHosts: map<string, bool>
    const key: seq<byte>
    const maxSessionTimeSecs: int64
    const lib: Libraries
    var sessions: Table

    /** No session holds a key shorter than `KeyLen`. */
    ghost predicate Valid()
      reads this
    {
      KeysValid(sessions, lib.fxms.keyLen)
    }

    constructor (whitelistedHosts: map<string, bool>, key: seq<byte>, maxSessionTimeSecs: int64, lib: Libraries)
      ensures Valid()
      ensures this.whitelistedHosts == whitelistedHosts && this.key == key
      ensures this.maxSessionTimeSecs == maxSessionTimeSecs && this.lib == lib
      ensures sessions == map[]
    {
      this.whitelistedHosts := whitelistedHosts;
      this.key := key;
      this.maxSessionTimeSecs := maxSessionTimeSecs;
      this.lib := lib;
      sessions := map[];
    }

    /** `NewHttpTransmit`: refuses a master key that is not exactly
        `KeyLen` bytes, else a relay with an empty table. */
    static method New(whitelistedHosts: map<string, bool>, key: seq<byte>, maxSessionTimeSecs: int64, lib: Libraries)
      returns (t: HttpTransmit?)
      ensures t == null <==> |key| != lib.fxms.keyLen
      ensures t != null ==> fresh(t) && t.Valid() && t.sessions == map[] && t.key == key && t.lib == lib
      ensures t != null ==> t.whitelistedHosts == whitelistedHosts && t.maxSessionTimeSecs == maxSessionTimeSecs
    {
      if |key| != lib.fxms.keyLen {
        return null;
      }
      t := new HttpTransmit(whitelistedHosts, key, maxSessionTimeSecs, lib);
    }

    /** One pass of the background sweep at time `now`: every session idle
        for `maxSessionTimeSecs` or more is deleted, the rest stay as they
        are. */
    method Sweep(now: int64)
      requires Valid()
      modifies this
      ensures Valid()
      ensures sessions == Swept(old(sessions), now, maxSessionTimeSecs)
    {
      var maxSecs := maxSessionTimeSecs;
      ghost var before := sessions;
      var pending := sessions.Keys;
      while pending != {}
        invariant pending <= before.Keys
        invariant sessions.Keys <= before.Keys
        invariant forall id :: id in before ==>
                    (id in sessions <==> id in pending || !Stale(before[id], now, maxSecs))
        invariant forall id :: id in sessions ==> sessions[id] == before[id]
        decreases pending
      {
        var id :| id in pending;
        if Stale(sessions[id], now, maxSecs) {
          sessions := sessions - {id};
        }
        pending := pending - {id};
      }
      assert sessions == Swept(before, now, maxSecs);
    }

    /** `HandleConnect` with the clock read as `now`: stores the unwrapped
        key for a new ID, never replaces a session, and changes nothing on
        any rejection. */
    method HandleConnect(sessionKeyB64: string, sessionId: string, now: int64) returns (resp: Response)
      requires Valid()
      modifies this
      ensures Valid()
      ensures sessions == ConnectTable(lib, key, old(sessions), sessionKeyB64, sessionId, now)
      ensures forall id :: id in old(sessions) ==> id in sessions && sessions[id] == old(sessions)[id]
      ensures resp == ConnectResponse(lib, key, sessionKeyB64)
    {
      var unwrapped := UnwrapSessionKey(lib, key, sessionKeyB64);
      if unwrapped.Err? {
        return Silent;
      }
      var sessionKey := unwrapped.value;
      if sessionId !in sessions {
        sessions := sessions[sessionId := NewSession(sessionKey, now)];
      }
      resp := Response(None, lib.fxms.encrypt(sessionKey, []));
    }

    /** `HandleTransmit` with the clock read as `now` and the network as
        `net`: a known session is refreshed before anything else is
        checked, so it stays refreshed whatever happens next; an unknown
        one gets 401; nothing else in the table changes. */
    method HandleTransmit(
      sessionId: string, headersB64: string, body: Option<seq<byte>>, inbound: Inbound,
      now: int64, net: Network)
      returns (resp: Response)
      requires Valid()
      modifies this
      ensures Valid()
      ensures sessions == Touch(old(sessions), sessionId, now)
      ensures resp == TransmitResponse(lib, whitelistedHosts, old(sessions), sessionId, headersB64, body, inbound, net)
    {
      var found := sessionId in sessions;
      var session: Session;
      if found {
        session := sessions[sessionId];
        sessions := sessions[sessionId := session.(lastUpdate := now)];
      }
      if !found {
        return Response(Some(StatusUnauthorized), None);
      }
      var parsed := ParseTransmit(lib, whitelistedHosts, session.key, headersB64, body);
      if parsed.Err? {
        return Silent;
      }
      var status, data := Request(lib, net, parsed.value, inbound);
      resp := Response(Some(status), lib.fxms.encrypt(session.key, data));
    }
  }
}
