/** The outbound half of a transmit (`request` in httptransmit.go): the
    decrypted header lines become request header fields, the client's
    address chain becomes `X-Forwarded-For`, and the network call yields
    a status and a body, `(0, empty)` on any failure. */
module Relay {
  import opened Wrappers
  import opened GoTypes
  import opened Strings
  import opened External

  /** The arguments `HandleTransmit` passes to `request`. */
  datatype Call = Call(url: string, verb: string, headers: seq<string>, data: seq<byte>)

  /** The two inbound header values `request` reads; each is "" when the
      inbound request does not carry it (`http.Header.Get`). */
  datatype Inbound = Inbound(cfConnectingIp: string, xForwardedFor: string)

  const ForwardedForName: string := "X-Forwarded-For"

  // ---------------------------------------------------------------------
  // Header lines

  /** One decrypted header line as `name: value`, split at the first
      `": "`; a line without the separator sets nothing. */
  function ParseHeaderLine(line: string): (r: Option<(string, string)>)
    ensures r.None? <==> !ContainsSep(line)
    ensures r.Some? ==> line == r.value.0 + ": " + r.value.1 && !ContainsSep(r.value.0)
  {
    var i := IndexSep(line);
    if i >= 0 then
      var name := line[..i];
      assert forall k {:trigger SepAt(name, k)} :: SepAt(name, k) ==> SepAt(line, k) && k < i;
      assert line == name + ": " + line[i + 2..];
      Some((name, line[i + 2..]))
    else None
  }

  /** Parsing a line built from a name without `": "` and any value gives
      the name and the value back, even when the value holds `": "`. */
  lemma ParseHeaderLineRoundTrip(name: string, value: string)
    requires !ContainsSep(name)
    ensures ParseHeaderLine(name + ": " + value) == Some((name, value))
  {
    var line := name + ": " + value;
    assert SepAt(line, |name|);
    forall k | 0 <= k < |name| ensures !SepAt(line, k) {
      if k + 1 < |name| {
        assert !SepAt(name, k);
      } else {
        assert line[k + 1] == ':';
      }
    }
    var i := IndexSep(line);
    assert i == |name|;
    assert line[..i] == name;
    assert line[i + 2..] == value;
  }

  /** `line` is a well-formed header line whose name is stored under `key`. */
  predicate NamesKey(canon: string -> string, line: string, key: string) {
    ParseHeaderLine(line).Some? && canon(ParseHeaderLine(line).value.0) == key
  }

  /** The header fields `request`'s loop sets, one `Header.Set` per
      well-formed line, in order: a later line overwrites an earlier one
      with the same canonical name. */
  function HeaderFields(canon: string -> string, lines: seq<string>): map<string, string>
    decreases |lines|
  {
    if lines == [] then map[]
    else
      var h := HeaderFields(canon, lines[..|lines| - 1]);
      match ParseHeaderLine(lines[|lines| - 1])
      case None => h
      case Some((name, value)) => h[canon(name) := value]
  }

  /** A field is set exactly when some well-formed line names it. */
  lemma {:induction false} HeaderFieldsDomain(canon: string -> string, lines: seq<string>, key: string)
    ensures key in HeaderFields(canon, lines) <==>
            exists j :: 0 <= j < |lines| && NamesKey(canon, lines[j], key)
    decreases |lines|
  {
    if lines != [] {
      var init := lines[..|lines| - 1];
      HeaderFieldsDomain(canon, init, key);
      assert forall j :: 0 <= j < |init| ==> init[j] == lines[j];
      if key in HeaderFields(canon, lines) && !NamesKey(canon, lines[|lines| - 1], key) {
        var j :| 0 <= j < |init| && NamesKey(canon, init[j], key);
        assert NamesKey(canon, lines[j], key);
      }
    }
  }

  /** A set field holds the value of the last line that names it. */
  lemma {:induction false} HeaderFieldsLastWins(canon: string -> string, lines: seq<string>, key: string, j: nat)
    requires j < |lines| && NamesKey(canon, lines[j], key)
    requires forall j' :: j < j' < |lines| ==> !NamesKey(canon, lines[j'], key)
    ensures key in HeaderFields(canon, lines)
    ensures HeaderFields(canon, lines)[key] == ParseHeaderLine(lines[j]).value.1
    decreases |lines|
  {
    if j < |lines| - 1 {
      var init := lines[..|lines| - 1];
      assert forall k :: 0 <= k < |init| ==> init[k] == lines[k];
      HeaderFieldsLastWins(canon, init, key, j);
    }
  }

  // ---------------------------------------------------------------------
  // X-Forwarded-For

  /** The forwarding chain `request` sends: the Cloudflare client address
      and the inbound chain joined by a comma, with edge commas trimmed. */
  function ForwardedFor(inbound: Inbound): string {
    TrimCommas(inbound.cfConnectingIp + "," + inbound.xForwardedFor)
  }

  /** With both parts present, the first not starting and the second not
      ending with a comma, the chain is exactly `cf,xff`. */
  lemma ForwardedForJoins(inbound: Inbound)
    requires inbound.cfConnectingIp != [] && inbound.xForwardedFor != []
    requires inbound.cfConnectingIp[0] != ',' && inbound.xForwardedFor[|inbound.xForwardedFor| - 1] != ','
    ensures ForwardedFor(inbound) == inbound.cfConnectingIp + "," + inbound.xForwardedFor
  {
    var s := inbound.cfConnectingIp + "," + inbound.xForwardedFor;
    assert s[0..|s|] == s;
    assert s[..0] == [] && s[|s|..] == [];
    TrimCommasUnique(s, 0, |s|);
  }

  /** Without a Cloudflare address the chain is the inbound chain, trimmed. */
  lemma ForwardedForWithoutCf(inbound: Inbound)
    requires inbound.cfConnectingIp == []
    ensures ForwardedFor(inbound) == TrimCommas(inbound.xForwardedFor)
  {
    assert inbound.cfConnectingIp + "," + inbound.xForwardedFor == "," + inbound.xForwardedFor;
    TrimCommasCons(inbound.xForwardedFor);
  }

  /** Without an inbound chain the chain is the Cloudflare address, trimmed. */
  lemma ForwardedForWithoutXff(inbound: Inbound)
    requires inbound.xForwardedFor == []
    ensures ForwardedFor(inbound) == TrimCommas(inbound.cfConnectingIp)
  {
    assert inbound.cfConnectingIp + "," + inbound.xForwardedFor == inbound.cfConnectingIp + ",";
    TrimCommasSnoc(inbound.cfConnectingIp);
  }

  // ---------------------------------------------------------------------
  // The outbound request

  /** The header of the outbound request: the fields of the decrypted
      lines, then `X-Forwarded-For`, which overrides any line naming it. */
  function ForwardHeader(canon: string -> string, lines: seq<string>, inbound: Inbound): (h: map<string, string>)
    ensures canon(ForwardedForName) in h && h[canon(ForwardedForName)] == ForwardedFor(inbound)
    ensures forall key :: key != canon(ForwardedForName) ==>
              (key in h <==> key in HeaderFields(canon, lines)) &&
              (key in h ==> h[key] == HeaderFields(canon, lines)[key])
  {
    HeaderFields(canon, lines)[canon(ForwardedForName) := ForwardedFor(inbound)]
  }

  /** `request`'s header loop and the `X-Forwarded-For` assignment after it. */
  method BuildHeader(canon: string -> string, lines: seq<string>, inbound: Inbound)
    returns (h: map<string, string>)
    ensures h == ForwardHeader(canon, lines, inbound)
  {
    h := map[];
    for i := 0 to |lines|
      invariant h == HeaderFields(canon, lines[..i])
    {
      assert lines[..i + 1][..i] == lines[..i];
      var line := lines[i];
      var index := IndexSep(line);
      if index >= 0 {
        h := h[canon(line[..index]) := line[index + 2..]];
      }
    }
    assert lines[..|lines|] == lines;
    h := h[canon(ForwardedForName) := ForwardedFor(inbound)];
  }

  /** What `request` returns: the destination's status and body for the
      request built from `call`, or `(0, empty)` when the request cannot
      be built or the round trip fails. */
  function RequestOutcome(lib: Libraries, net: Network, call: Call, inbound: Inbound): (int, seq<byte>) {
    if !lib.newRequestOk(call.verb, call.url) then (0, [])
    else
      var out := Outgoing(call.verb, call.url, ForwardHeader(lib.canonicalKey, call.headers, inbound), call.data);
      match net(out)
      case None => (0, [])
      case Some(response) => response
  }

  /** `request`: builds the outbound request and performs it. */
  method Request(lib: Libraries, net: Network, call: Call, inbound: Inbound)
    returns (status: int, body: seq<byte>)
    ensures !lib.newRequestOk(call.verb, call.url) ==> status == 0 && body == []
    ensures lib.newRequestOk(call.verb, call.url) ==>
              var out := Outgoing(call.verb, call.url, ForwardHeader(lib.canonicalKey, call.headers, inbound), call.data);
              (status, body) == if net(out).Some? then net(out).value else (0, [])
    ensures (status, body) == RequestOutcome(lib, net, call, inbound)
  {
    if !lib.newRequestOk(call.verb, call.url) {
      return 0, [];
    }
    var header := BuildHeader(lib.canonicalKey, call.headers, inbound);
    var response := net(Outgoing(call.verb, call.url, header, call.data));
    if response.None? {
      return 0, [];
    }
    status, body := response.value.0, response.value.1;
  }
}
