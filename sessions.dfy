/** The session table of the relay as a value: the record each client-chosen
    ID maps to, and what a handshake, a transmit and a sweep pass do to it.
    The class `Transmit.HttpTransmit` holds such a table and updates it in
    place; its methods prove each new table equal to one of these functions
    applied to the old one. */
module Sessions {
  import opened GoTypes

  /** `HttpTransmitSession`: the session key, fixed at the handshake, and
      the Unix time of the last activity. */
  datatype Session = Session(key: seq<byte>, lastUpdate: int64)

  /** `HttpTransmit.sessions`: at most one session per ID. */
  type Table = map<string, Session>

  /** `getDeltaUpdate`: seconds since the last activity, an `int64`
      subtraction that wraps on overflow. */
  function DeltaUpdate(s: Session, now: int64): (d: int64)
    ensures Int64Min <= now - s.lastUpdate <= Int64Max ==> d == now - s.lastUpdate
  {
    Sub64(now, s.lastUpdate)
  }

  /** The sweep's test: idle for at least `maxSecs` seconds. */
  predicate Stale(s: Session, now: int64, maxSecs: int64) {
    DeltaUpdate(s, now) >= maxSecs
  }

  /** Every stored key is at least `keyLen` bytes long. */
  ghost predicate KeysValid(m: Table, keyLen: nat) {
    forall id :: id in m ==> |m[id].key| >= keyLen
  }

  /** `NewHttpTransmitSession`: a session created at time `now`. */
  function NewSession(key: seq<byte>, now: int64): Session {
    Session(key, now)
  }

  /** A handshake's insert: a new session for an absent ID; a present ID
      keeps its session, key and time alike. */
  function CreateIfAbsent(m: Table, id: string, key: seq<byte>, now: int64): (r: Table)
    ensures r.Keys == m.Keys + {id}
    ensures forall j :: j in m ==> r[j] == m[j]
    ensures id !in m ==> r[id] == NewSession(key, now) && |r| == |m| + 1
    ensures id in m ==> r == m
  {
    if id in m then m
    else
      assert (m[id := NewSession(key, now)]).Keys == m.Keys + {id};
      m[id := NewSession(key, now)]
  }

  /** A transmit's refresh (`updateLastUpdate`): the session with this ID,
      if any, is active at `now`; its key and every other session stay. */
  function Touch(m: Table, id: string, now: int64): (r: Table)
    ensures r.Keys == m.Keys
    ensures forall j :: j in m && j != id ==> r[j] == m[j]
    ensures id in m ==> r[id].key == m[id].key && r[id].lastUpdate == now
  {
    if id in m then m[id := m[id].(lastUpdate := now)] else m
  }

  /** One sweep pass at time `now`: the sessions that are not stale, each
      unchanged. */
  function Swept(m: Table, now: int64, maxSecs: int64): (r: Table)
    ensures forall id :: id in r <==> id in m && !Stale(m[id], now, maxSecs)
    ensures forall id :: id in r ==> r[id] == m[id]
  {
    map id | id in m && !Stale(m[id], now, maxSecs) :: m[id]
  }

  /** A second handshake for the same ID, whatever key it proposes, is a
      no-op. */
  lemma HandshakeReplayIgnored(m: Table, id: string, key: seq<byte>, now: int64, key': seq<byte>, now': int64)
    ensures var m1 := CreateIfAbsent(m, id, key, now);
            CreateIfAbsent(m1, id, key', now') == m1 && m1[id].key == (if id in m then m[id].key else key)
  {
  }

  /** A session touched at `now` survives a sweep at `now` whenever the
      timeout is positive. */
  lemma TouchedSurvivesSweep(m: Table, id: string, now: int64, maxSecs: int64)
    requires id in m && maxSecs > 0
    ensures id in Swept(Touch(m, id, now), now, maxSecs)
    ensures Swept(Touch(m, id, now), now, maxSecs)[id].key == m[id].key
  {
    assert DeltaUpdate(Touch(m, id, now)[id], now) == 0;
  }

  /** Without overflow, a sweep keeps exactly the sessions active within the
      last `maxSecs` seconds. */
  lemma SweepWindow(m: Table, id: string, now: int64, maxSecs: int64)
    requires id in m && Int64Min <= now - m[id].lastUpdate <= Int64Max
    ensures id in Swept(m, now, maxSecs) <==> now - m[id].lastUpdate < maxSecs
  {
  }

  /** A second pass at the same time removes nothing more. */
  lemma SweepIdempotent(m: Table, now: int64, maxSecs: int64)
    ensures Swept(Swept(m, now, maxSecs), now, maxSecs) == Swept(m, now, maxSecs)
  {
  }

  /** None of the three operations lets a short key into the table. */
  lemma KeysValidPreserved(m: Table, keyLen: nat, id: string, key: seq<byte>, now: int64, maxSecs: int64)
    requires KeysValid(m, keyLen)
    ensures |key| >= keyLen ==> KeysValid(CreateIfAbsent(m, id, key, now), keyLen)
    ensures KeysValid(Touch(m, id, now), keyLen)
    ensures KeysValid(Swept(m, now, maxSecs), keyLen)
  {
  }
}
