# httptransmit: a verified model of the relay core

`httptransmit` is an HTTP tunnelling relay. A client first performs a
handshake: it sends a session key wrapped under the relay's master key,
together with a session ID it chose itself. It then sends transmits. A
transmit carries an encrypted descriptor: the destination URL, the method
and header lines. It also carries an encrypted body. The relay checks the
session and the destination host against a whitelist. It performs the
outbound request and returns the destination's status and body, encrypted
under the session key. A background loop deletes sessions that have been
idle for too long.

This Dafny project models the core of `httptransmit.go`:

- the session table (`HttpTransmit.sessions`): a map from session ID to a
  `(key, lastUpdate)` record;
- the handshake handler `HandleConnect`: its guard chain and its
  create-if-absent insert;
- the transmit handler `HandleTransmit`: the lookup and refresh, the
  guard chain and the parsing of the decrypted descriptor;
- one pass of the sweep loop started by `NewHttpTransmit`;
- `request`: header-line parsing, the `X-Forwarded-For` value and the
  `(0, empty)` failure result.

Layout, one module per file:

| file | module | contents |
|---|---|---|
| wrappers.dfy | `Wrappers` | `Option`, `Result` |
| gotypes.dfy | `GoTypes` | `byte`, `int64` with two's-complement subtraction, `string([]byte)` |
| strings.dfy | `Strings` | `strings.Index(s, ": ")`, `strings.Split(s, "\n")`, `strings.Trim(s, ",")` |
| external.dfy | `External` | the cipher, base64, `url.Parse`, `http.NewRequest`, header-name canonicalisation and the network, all as function values |
| relay.dfy | `Relay` | `request` |
| sessions.dfy | `Sessions` | the table as a value and the three table operations |
| transmit.dfy | `Transmit` | the guard chains as functions; class `HttpTransmit` with `Sweep`, `HandleConnect` and `HandleTransmit` |

Library code and I/O are parameters. The class holds a `Libraries` value.
It gives the `fxms` cipher, with its constants `HashLen`, `MaskLen` and
`KeyLen` and its `Encrypt` and `Decrypt`. It also gives base64 decoding,
the host returned by `url.Parse`, whether `http.NewRequest` succeeds, and
the key under which `http.Header.Set` stores a name. Nothing is assumed
about these functions. The clock is a `now: int64` argument. The network
is a `Network` argument: `Do` followed by `ReadAll`, returning `None` on
an error. The inbound body as read by `io.ReadAll` is an
`Option<seq<byte>>` argument.

Go strings are byte sequences. The model represents each byte as the
`char` with the same code, so the decrypted descriptor becomes a Dafny
`string` through `GoTypes.BytesToString`.

The class methods update the table map directly. Their `ensures`
clauses prove the new table equal to a function of module `Sessions`
applied to the old one: `CreateIfAbsent`, `Touch` or `Swept`. The
properties are then proved as lemmas about the functions.

Behaviour of the code worth knowing:

- The request body is passed to `Decrypt` with no length check. Only the
  header blob is checked against `HashLen + MaskLen`. The model follows
  the code (`Transmit.ParseTransmit`).
- The whitelist is a `map[string]bool`, and the code tests only whether
  the host is a key. A host mapped to `false` is still allowed
  (`Transmit.TransmitAccepts` requires only key membership).
- A handshake for an ID that already exists leaves the stored session
  alone. It is still answered with `Encrypt(proposedKey, "")`. So the
  client gets an acknowledgement under a key the relay does not use for
  that ID (`Transmit.ConnectCreateIfAbsent`).
- `X-Forwarded-For` is set after the client's header lines, so it
  overrides any line with that name (`Relay.ForwardHeader`).

## Model

| member | source | states |
|---|---|---|
| `GoTypes.Sub64` | httptransmit.go:61-63 | int64 subtraction: the exact difference when it fits, otherwise the difference shifted by 2^64 |
| `GoTypes.BytesToString` | httptransmit.go:176 | `string(b)` has one character per byte, carrying that byte's code |
| `Strings.IndexSep` | httptransmit.go:23 | -1 exactly when the line has no `": "`; otherwise the position of the first occurrence |
| `Strings.SplitLines` | httptransmit.go:176 | at least one piece; no piece contains a newline; joining the pieces with newlines gives the input back |
| `Strings.SplitJoin` | httptransmit.go:176 | splitting undoes joining, for any non-empty list of newline-free lines |
| `Strings.TwoLinesIffNewline` | httptransmit.go:176-179 | the split has two or more lines exactly when the text contains a newline |
| `Strings.SkipCommas` | httptransmit.go:29 | the left edge of `Trim(s, ",")`: every skipped character is a comma, and the position reached is the end or a non-comma |
| `Strings.SkipCommasBack` | httptransmit.go:29 | the right edge of `Trim(s, ",")`: every skipped character is a comma, and the position reached is the left edge or follows a non-comma |
| `Strings.SkipCommasUnique` | httptransmit.go:29 | the left edge is the only position preceded by commas alone and standing at a non-comma or the end |
| `Strings.SkipCommasBackUnique` | httptransmit.go:29 | the right edge is the only position followed by commas alone and standing after a non-comma or at the left edge |
| `Strings.TrimCommas` | httptransmit.go:29 | the result is no longer than the input and has no comma at either end |
| `Strings.TrimCommasUnique` | httptransmit.go:29 | `Trim(s, ",")` equals any slice of `s` that drops only edge commas and keeps none at its ends |
| `Strings.TrimCommasCons` | httptransmit.go:29 | a leading comma does not change the trimmed result |
| `Strings.TrimCommasSnoc` | httptransmit.go:29 | a trailing comma does not change the trimmed result |
| `Relay.ParseHeaderLine` | httptransmit.go:22-26 | no field exactly when the line lacks `": "`; otherwise the line is `name + ": " + value` and the name contains no `": "` |
| `Relay.ParseHeaderLineRoundTrip` | httptransmit.go:23-25 | a name without `": "` and any value, even one containing `": "`, are recovered from `name + ": " + value` |
| `Relay.HeaderFields` | httptransmit.go:22-27 | definition: the header lines applied in order, each well-formed one setting its canonical name to its value |
| `Relay.HeaderFieldsDomain` | httptransmit.go:22-27 | a header field is set exactly when some well-formed line names it; lines without `": "` set nothing |
| `Relay.HeaderFieldsLastWins` | httptransmit.go:22-27 | the field holds the value of the last line that names it |
| `Relay.ForwardedFor` | httptransmit.go:29 | definition: `Cf-Connecting-Ip + "," + X-Forwarded-For` with commas trimmed from both ends |
| `Relay.ForwardedForJoins` | httptransmit.go:29 | with both parts present and no edge commas, the value is `cf + "," + xff` |
| `Relay.ForwardedForWithoutCf` | httptransmit.go:29 | without a `Cf-Connecting-Ip` value, the value is the inbound `X-Forwarded-For`, trimmed |
| `Relay.ForwardedForWithoutXff` | httptransmit.go:29 | without an inbound `X-Forwarded-For`, the value is the `Cf-Connecting-Ip` value, trimmed |
| `Relay.ForwardHeader` | httptransmit.go:22-29 | `X-Forwarded-For` always holds the forwarding chain, overriding any line; every other key is as the header lines set it |
| `Relay.BuildHeader` | httptransmit.go:22-29 | the header loop and the final `Set` produce exactly `ForwardHeader` |
| `Relay.RequestOutcome` | httptransmit.go:17-43 | definition: `(0, empty)` when `NewRequest` fails or the round trip fails, otherwise the status and body the network returns for the forwarded request |
| `Relay.Request` | httptransmit.go:17-43 | `(0, empty)` when the request cannot be built or the round trip fails; otherwise the destination's status and body for the request carrying the forwarded header |
| `Sessions.DeltaUpdate` | httptransmit.go:61-63 | without overflow, the elapsed seconds since the last activity |
| `Sessions.Stale` | httptransmit.go:97 | definition: the sweep test `getDeltaUpdate() >= maxSessionTimeSecs` |
| `Sessions.NewSession` | httptransmit.go:50-55 | definition: a session holding the key, stamped with the current time |
| `Sessions.CreateIfAbsent` | httptransmit.go:136-139 | the ID becomes present; an absent ID gets one new session `(key, now)`; every existing entry is kept, so a present ID's key and time are unchanged |
| `Sessions.Touch` | httptransmit.go:57-59 | same IDs; the touched session keeps its key and gets `lastUpdate = now`; every other session is unchanged |
| `Sessions.Swept` | httptransmit.go:96-100 | a session survives exactly when it is not stale; survivors are unchanged |
| `Sessions.HandshakeReplayIgnored` | httptransmit.go:137-139 | a second handshake for the same ID, with any key, changes nothing; the stored key is the first one |
| `Sessions.TouchedSurvivesSweep` | httptransmit.go:96-100 | a session refreshed at `now` survives a sweep at `now` when the timeout is positive, with its key |
| `Sessions.SweepWindow` | httptransmit.go:96-100 | without overflow, a session survives exactly when `now - lastUpdate < maxSessionTimeSecs` |
| `Sessions.SweepIdempotent` | httptransmit.go:96-100 | a second pass at the same time removes nothing more |
| `Sessions.KeysValidPreserved` | httptransmit.go:130-139 | insert (with a key of at least `KeyLen` bytes), refresh and sweep all keep every stored key at least `KeyLen` long |
| `Transmit.UnwrapSessionKey` | httptransmit.go:115-132 | accepted exactly when the blob decodes, is at least `HashLen+MaskLen+KeyLen` long, authenticates under the master key and yields a key of at least `KeyLen` bytes; the result is that decrypted key |
| `Transmit.ConnectTable` | httptransmit.go:134-139 | definition: the table after a handshake, unchanged on a rejection, otherwise `CreateIfAbsent` with the unwrapped key |
| `Transmit.ConnectResponse` | httptransmit.go:141-144 | definition: nothing on a rejection, otherwise the empty payload encrypted under the unwrapped key, with no status |
| `Transmit.ConnectRejectsShortCiphertext` | httptransmit.go:121-123 | a blob shorter than `HashLen+MaskLen+KeyLen` writes nothing and leaves the table unchanged |
| `Transmit.ConnectRejectsBadKey` | httptransmit.go:125-132 | an unauthenticated blob, or a key shorter than `KeyLen`, writes nothing and leaves the table unchanged |
| `Transmit.ConnectRejectionsSilent` | httptransmit.go:114-145 | every rejection gives the same empty response and no change; a written body implies acceptance; no status is ever set |
| `Transmit.ConnectCreateIfAbsent` | httptransmit.go:134-144 | create-if-absent: a present ID leaves the table unchanged; an absent one adds exactly `(key, now)`; the answer is the empty payload encrypted under the unwrapped key |
| `Transmit.ConnectAccepts` | httptransmit.go:114-144 | a blob passing every guard, for an ID not in the table, adds exactly one session holding the decrypted key and `now`; the answer is the empty payload encrypted under that key |
| `Transmit.OpenHeaders` | httptransmit.go:161-174 | accepted only when the header blob decodes, is at least `HashLen+MaskLen` long and authenticates; the result is the decrypted descriptor |
| `Transmit.SplitDescriptor` | httptransmit.go:176-183 | accepted exactly when the text contains a newline; URL, method and header lines are newline-free and rejoin to the text |
| `Transmit.SplitDescriptorRoundTrip` | httptransmit.go:176-183 | newline-free URL, method and header lines joined into a descriptor are split back into exactly those parts |
| `Transmit.CheckHost` | httptransmit.go:185-196 | accepted exactly when the URL parses and its host is a key of the whitelist |
| `Transmit.OpenBody` | httptransmit.go:198-206 | accepted exactly when the body was read and authenticates; the result is the decrypted body |
| `Transmit.ParseTransmit` | httptransmit.go:161-206 | accepted only when the blob is at least `HashLen+MaskLen` long and authenticates, the URL, method and header lines are the newline-free lines of the decrypted text, the host is whitelisted and the body authenticates to the relayed data |
| `Transmit.TransmitResponse` | httptransmit.go:147-213 | definition: 401 for an unknown ID; nothing on a rejection; otherwise the status from `request` and its body encrypted under the session key |
| `Transmit.TransmitUnknownSession` | httptransmit.go:148-159 | an unknown ID is answered with 401 and no body, and the refresh at any clock value leaves the table unchanged |
| `Transmit.TransmitRejectionSilent` | httptransmit.go:161-206 | for a known ID, the response is empty exactly when a guard rejects |
| `Transmit.TransmitRejectsShortCiphertext` | httptransmit.go:167-169 | a header blob shorter than `HashLen+MaskLen` is rejected before decryption |
| `Transmit.TransmitRejectsSingleLine` | httptransmit.go:176-179 | decrypted header text without a newline is rejected for having fewer than two lines |
| `Transmit.TransmitRejectsBadUrl` | httptransmit.go:185-188 | a first line that `url.Parse` rejects aborts the transmit before the whitelist and the body are looked at |
| `Transmit.TransmitRejectsHost` | httptransmit.go:185-196 | a URL whose host is not a whitelist key is rejected before the body is read |
| `Transmit.TransmitAccepts` | httptransmit.go:161-208 | a well-formed descriptor for a whitelisted host with an authenticated body is relayed as its URL, line 1 as method, lines 2.. as headers, and the decrypted body |
| `Transmit.HandshakeThenGet` | httptransmit.go:114-213 | after a handshake whose blob passes every guard, for a fresh ID, a transmit of `url\nGET\n` with an empty body sends a GET to `url`; the answer is the destination's status and body encrypted under the session key |
| `Transmit.HttpTransmit.constructor` | httptransmit.go:79-86 | a relay with the given configuration and an empty table |
| `Transmit.HttpTransmit.New` | httptransmit.go:74-107 | refuses a master key of the wrong length; otherwise a fresh relay with an empty table |
| `Transmit.HttpTransmit.Sweep` | httptransmit.go:94-101 | the loop deletes exactly the stale sessions; the new table is `Swept` of the old one |
| `Transmit.HttpTransmit.HandleConnect` | httptransmit.go:114-145 | the table becomes `ConnectTable` of the old one and no existing session changes; the response is `ConnectResponse` |
| `Transmit.HttpTransmit.HandleTransmit` | httptransmit.go:147-213 | the table becomes `Touch` of the old one whatever the outcome, so the refresh happens before every later check; the response is `TransmitResponse` |

## Left out

- The `fxms` cipher: `Encrypt` and `Decrypt` are function values with no properties assumed. The values of `HashLen`, `MaskLen` and `KeyLen` belong to that package and are fields of `External.Fxms`.
- `fxms.Encrypt` randomness: whatever nonce or mask it draws is fixed by the function value, so two encryptions of the same payload are equal in the model.
- The options argument of `fxms.Encrypt` and `fxms.Decrypt` is dropped. So is the error result of `Decrypt`, which the code ignores.
- `base64.StdEncoding.DecodeString`, `url.Parse` (only the `Host` it yields), `http.NewRequest` (only whether it fails) and `textproto.CanonicalMIMEHeaderKey` are library code, so they are function values.
- `http.DefaultClient.Do` and `io.ReadAll` (network I/O): one `Network` function per transmit call.
- `http.ResponseWriter` is recorded as the status passed to `WriteHeader` and the bytes passed to `Write`. What `net/http` does with them is not modelled, including its refusal of the status 0 that `request` returns on failure.
- The inbound headers (`HT-Session-*`, `Cf-Connecting-Ip`, the inbound `X-Forwarded-For`) enter as the strings `Header.Get` returns. Reading them is not modelled.
- The sweep goroutine, `time.Sleep`, `stopChan`, `Close` and the `sync.RWMutex` are concurrency and scheduling. Each handler and each sweep pass is one atomic step on the table.
- With atomic handlers, a session value copied by `HandleTransmit` is the stored one. Eviction between the refresh and the later use of the session cannot happen in the model.
- `HttpTransmit.Sweep`: compares every entry against one `now`, while the Go code reads the clock once per entry, because the clock is a parameter.
- `HttpTransmit.New`: the Go parameter has type `[fxms.KeyLen]uint8`, so its length check can never fail. The model takes a sequence and keeps the check.
- Session records are values, not pointers. `updateLastUpdate` becomes a replacement of the map entry (`Sessions.Touch`). The key never changes, so no aliasing is observable.
