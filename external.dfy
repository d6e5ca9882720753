/** The collaborators the relay calls but does not implement, each reduced
    to a function whose behaviour is left open: the `fxms` cipher, base64,
    `url.Parse`, `http.NewRequest`, the header-name canonicalisation done
    by `http.Header.Set`, and the network round trip. */
module External {
  import opened Wrappers
  import opened GoTypes

  /** The `fxms` package: its length constants and its two operations.
      `decrypt(key, ciphertext)` yields the plaintext and whether it was
      authenticated (the error result the relay ignores is dropped);
      `encrypt(key, plaintext)` yields `None` where Go returns an error. */
  datatype Fxms = Fxms(
    hashLen: nat,
    maskLen: nat,
    keyLen: nat,
    decrypt: (seq<byte>, seq<byte>) -> (seq<byte>, bool),
    encrypt: (seq<byte>, seq<byte>) -> Option<seq<byte>>)
  {
    /** The shortest ciphertext that can carry a message: tag and mask. */
    function MinCiphertext(): nat { hashLen + maskLen }
  }

  /** The library functions of the Go runtime the relay relies on. */
  datatype Libraries = Libraries(
    fxms: Fxms,
    /** `base64.StdEncoding.DecodeString`; `None` on a decoding error. */
    decodeBase64: string -> Option<seq<byte>>,
    /** `url.Parse(u).Host`; `None` on a parse error. */
    parseHost: string -> Option<string>,
    /** Whether `http.NewRequest(method, url, body)` returns no error. */
    newRequestOk: (string, string) -> bool,
    /** The key `http.Header.Set` stores a name under
        (`textproto.CanonicalMIMEHeaderKey`). */
    canonicalKey: string -> string)

  /** An outbound HTTP request as it leaves the relay. */
  datatype Outgoing = Outgoing(
    verb: string,
    url: string,
    header: map<string, string>,
    body: seq<byte>)

  /** `http.DefaultClient.Do` followed by `io.ReadAll` of the response body:
      the status and body, or `None` when either call fails. */
  type Network = Outgoing -> Option<(int, seq<byte>)>
}
