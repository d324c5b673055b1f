/** The two tables of the gateway's session registry (challenge/gateway_state.py): one row per cookie, with
    the session it stands for, and one row per creation of a copy.

    A cookie is known by its hash, a client by the hash of its key.  Times are whole microseconds.  A table
    is a sequence of rows in the order of insertion.

    Queries and updates are the statements of the registry's transactions, each over the whole table.  The
    facts about them say, for each, which rows it returns or leaves, that it keeps the tables' keys unique,
    and what it does to the sums that admission is decided by.

    The transactions themselves are in `SessionRegistry`.
 */
module SessionTables {
  import opened Options

  type SessionId = nat   // a UUID, used as an opaque identity
  type Token = nat       // the hash of an opaque cookie
  type Client = nat      // the hash of a client key

  const SECOND := 1_000_000
  const SESSION_TTL := 7 * 24 * 3600 * SECOND

  datatype Row = Row(token: Token, sid: SessionId, created: int, expires: int, size: nat)
  datatype Event = Event(client: Client, at: int)

  // ---- Queries and updates --------------------------------------------------------------

  function RowFor(rows: seq<Row>, token: Token): Option<Row> {
    if rows == [] then None else if rows[0].token == token then Some(rows[0]) else RowFor(rows[1..], token)
  }

  function DropToken(rows: seq<Row>, token: Token): seq<Row> {
    if rows == [] then [] else (if rows[0].token == token then [] else [rows[0]]) + DropToken(rows[1..], token)
  }

  function TotalSize(rows: seq<Row>): nat {
    if rows == [] then 0 else rows[0].size + TotalSize(rows[1..])
  }

  predicate Expired(r: Row, now: int, protected: set<SessionId>) { r.expires <= now && r.sid !in protected }

  function DropExpired(rows: seq<Row>, now: int, protected: set<SessionId>): seq<Row> {
    if rows == [] then []
    else (if Expired(rows[0], now, protected) then [] else [rows[0]]) + DropExpired(rows[1..], now, protected)
  }

  function ExpiredSessions(rows: seq<Row>, now: int, protected: set<SessionId>): set<SessionId> {
    set r | r in rows && Expired(r, now, protected) :: r.sid
  }

  function After(events: seq<Event>, cutoff: int): seq<Event> {
    if events == [] then [] else (if events[0].at > cutoff then [events[0]] else []) + After(events[1..], cutoff)
  }

  function TimesOf(events: seq<Event>, client: Client): seq<int> {
    if events == [] then [] else (if events[0].client == client then [events[0].at] else []) + TimesOf(events[1..], client)
  }

  function Oldest(times: seq<int>): int {
    if times == [] then 0
    else if |times| == 1 then times[0]
    else
      var rest := Oldest(times[1..]);
      if times[0] <= rest then times[0] else rest
  }

  function Renewed(rows: seq<Row>, token: Token, now: int): seq<Row> {
    if rows == [] then []
    else
      [if rows[0].token == token then rows[0].(expires := now + SESSION_TTL) else rows[0]]
      + Renewed(rows[1..], token, now)
  }

  function Measured(rows: seq<Row>, sid: SessionId, size: nat): seq<Row> {
    if rows == [] then []
    else [if rows[0].sid == sid then rows[0].(size := size) else rows[0]] + Measured(rows[1..], sid, size)
  }

  // ---- Facts about the tables -----------------------------------------------------------

  // Cookie hashes and session ids are unique, as the table declares.
  predicate Keyed(rows: seq<Row>) {
    rows == [] ||
    ((forall r :: r in rows[1..] ==> r.token != rows[0].token && r.sid != rows[0].sid) && Keyed(rows[1..]))
  }

  lemma {:induction false} RowForMember(rows: seq<Row>, token: Token)
    ensures var r := RowFor(rows, token);
      && (r.Some? ==> r.value in rows && r.value.token == token)
      && (r.None? ==> forall s :: s in rows ==> s.token != token)
      && (r.Some? && Keyed(rows) ==> forall s :: s in rows && s.token == token ==> s == r.value)
  {
    if rows != [] { RowForMember(rows[1..], token); }
  }

  lemma {:induction false} KeyedSame(rows: seq<Row>)
    requires Keyed(rows)
    ensures forall a, b :: a in rows && b in rows && (a.token == b.token || a.sid == b.sid) ==> a == b
  {
    if rows != [] {
      KeyedSame(rows[1..]);
      assert forall r :: r in rows <==> r == rows[0] || r in rows[1..];
    }
  }

  lemma {:induction false} DropTokenRows(rows: seq<Row>, token: Token)
    requires Keyed(rows)
    ensures var kept := DropToken(rows, token);
      && Keyed(kept) && (forall r :: r in kept <==> r in rows && r.token != token)
      && |kept| == |rows| - (if RowFor(rows, token).Some? then 1 else 0)
      && TotalSize(kept) == TotalSize(rows) - (if RowFor(rows, token).Some? then RowFor(rows, token).value.size else 0)
  {
    if rows != [] {
      var rest := rows[1..];
      DropTokenRows(rest, token);
      RowForMember(rest, token);
      var kept := DropToken(rows, token);
      if rows[0].token == token {
        assert kept == DropToken(rest, token);
      } else {
        assert kept[1..] == DropToken(rest, token);
      }
    }
  }

  lemma {:induction false} AddRow(rows: seq<Row>, row: Row)
    requires Keyed(rows) && forall r :: r in rows ==> r.token != row.token && r.sid != row.sid
    ensures Keyed(rows + [row]) && TotalSize(rows + [row]) == TotalSize(rows) + row.size
    ensures forall r :: r in rows + [row] <==> r in rows || r == row
    ensures forall t :: t != row.token ==> RowFor(rows + [row], t) == RowFor(rows, t)
  {
    if rows != [] {
      assert (rows + [row])[1..] == rows[1..] + [row];
      AddRow(rows[1..], row);
    }
  }

  /** Expiry deletes exactly the rows that expired and are not protected. */
  lemma {:induction false} ExpiryIsExact(rows: seq<Row>, now: int, protected: set<SessionId>)
    requires Keyed(rows)
    ensures var kept := DropExpired(rows, now, protected);
      && Keyed(kept) && |kept| <= |rows|
      && (forall r :: r in kept <==> r in rows && (r.expires > now || r.sid in protected))
      && (forall r :: r in kept ==> r.sid !in ExpiredSessions(rows, now, protected))
  {
    if rows != [] {
      var rest := rows[1..];
      ExpiryIsExact(rest, now, protected);
      var kept := DropExpired(rows, now, protected);
      if Expired(rows[0], now, protected) {
        assert kept == DropExpired(rest, now, protected);
      } else {
        assert kept[1..] == DropExpired(rest, now, protected);
      }
      KeyedSame(rows);
    }
  }

  lemma {:induction false} DropsOnlyDrop(rows: seq<Row>, token: Token, now: int, protected: set<SessionId>)
    ensures forall r :: r in DropToken(rows, token) ==> r in rows
    ensures forall r :: r in DropExpired(rows, now, protected) ==> r in rows
  {
    if rows != [] { DropsOnlyDrop(rows[1..], token, now, protected); }
  }

  // Renewing and measuring change neither keys nor order.
  predicate SameKeys(a: seq<Row>, b: seq<Row>) {
    |a| == |b| && forall i :: 0 <= i < |a| ==> a[i].token == b[i].token && a[i].sid == b[i].sid
  }

  lemma {:induction false} UpdatesKeepKeys(rows: seq<Row>, token: Token, sid: SessionId, now: int, size: nat)
    ensures SameKeys(rows, Renewed(rows, token, now)) && SameKeys(rows, Measured(rows, sid, size))
    ensures TotalSize(Renewed(rows, token, now)) == TotalSize(rows)
  {
    if rows != [] { UpdatesKeepKeys(rows[1..], token, sid, now, size); }
  }

  lemma {:induction false} SameKeysKeyed(a: seq<Row>, b: seq<Row>)
    requires SameKeys(a, b) && Keyed(a)
    ensures Keyed(b)
  {
    if a != [] {
      SameKeysKeyed(a[1..], b[1..]);
      forall r | r in b[1..] ensures r.token != b[0].token && r.sid != b[0].sid {
        var i :| 0 <= i < |b[1..]| && b[1..][i] == r;
        assert a[1..][i] in a[1..];
      }
    }
  }

  lemma SameKeysMembers(a: seq<Row>, b: seq<Row>)
    requires SameKeys(a, b)
    ensures forall r :: r in b ==> exists q :: q in a && q.token == r.token && q.sid == r.sid
  {
    forall r | r in b ensures exists q :: q in a && q.token == r.token && q.sid == r.sid {
      var i :| 0 <= i < |b| && b[i] == r;
      assert a[i] in a;
    }
  }

  lemma {:induction false} KeyedApart(rows: seq<Row>)
    requires Keyed(rows)
    ensures forall i, j :: 0 <= i < j < |rows| ==> rows[i].sid != rows[j].sid && rows[i].token != rows[j].token
  {
    if rows != [] {
      KeyedApart(rows[1..]);
      forall i, j | 0 <= i < j < |rows|
        ensures rows[i].sid != rows[j].sid && rows[i].token != rows[j].token
      {
        assert rows[j] == rows[1..][j - 1];
        if i > 0 {
          assert rows[i] == rows[1..][i - 1];
        }
      }
    }
  }

  lemma {:induction false} TimesAppend(events: seq<Event>, e: Event, client: Client)
    ensures TimesOf(events + [e], client) == TimesOf(events, client) + if e.client == client then [e.at] else []
  {
    if events != [] {
      assert (events + [e])[1..] == events[1..] + [e];
      TimesAppend(events[1..], e, client);
    }
  }
}
