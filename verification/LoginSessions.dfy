/**
 * Login sessions, src/auth/session.ts: a table of token hashes with a hard
 * lifetime and an idle lifetime that use extends, where use is written down
 * at most once a minute. Times are in seconds.
 */
module LoginSessions {
  import opened Wrappers
  import opened ByteStrings

  const ABSOLUTE_TTL := 14 * 24 * 60 * 60
  const IDLE_TTL := 3 * 24 * 60 * 60
  const THROTTLE := 60

  datatype Row = Row(userId: Bytes, expiresAt: int, lastSeenAt: int)

  /** Rows by token hash. */
  type Table = map<Bytes, Row>

  datatype Op =
    | Create(hash: Bytes, userId: Bytes)
    | Lookup(hash: Bytes)
    | Destroy(hash: Bytes)
    | DestroyAll(userId: Bytes)

  datatype Event = At(now: int, op: Op)

  datatype Record = Record(userId: Bytes, expiresAt: int)

  predicate Expired(row: Row, now: int) {
    row.expiresAt <= now || row.lastSeenAt + IDLE_TTL <= now
  }

  function OnLookup(table: Table, hash: Bytes, now: int): Table {
    if hash !in table then table
    else if Expired(table[hash], now) then table - {hash}
    else if now - table[hash].lastSeenAt > THROTTLE then table[hash := table[hash].(lastSeenAt := now)]
    else table
  }

  /** Token hashes are the primary key, so a second row for one is refused. */
  function Step(table: Table, e: Event): Table {
    match e.op
    case Create(hash, userId) =>
      if hash in table then table else table[hash := Row(userId, e.now + ABSOLUTE_TTL, e.now)]
    case Lookup(hash) => OnLookup(table, hash, e.now)
    case Destroy(hash) => table - {hash}
    case DestroyAll(userId) => map hash | hash in table && table[hash].userId != userId :: table[hash]
  }

  function Resolve(table: Table, hash: Bytes, now: int): Option<Record> {
    if hash in table && !Expired(table[hash], now)
    then Some(Record(table[hash].userId, table[hash].expiresAt))
    else None
  }

  function Run(events: seq<Event>): Table {
    if events == [] then map[] else Step(Run(events[..|events| - 1]), events[|events| - 1])
  }

  class SessionTable {
    const sha256: Bytes -> Bytes
    var rows: Table

    constructor (sha256: Bytes -> Bytes)
      ensures this.sha256 == sha256 && rows == Run([])
    {
      this.sha256 := sha256;
      rows := map[];
    }

    /** False when the token is already in the table. */
    method CreateSession(now: int, userId: Bytes, token: Bytes) returns (ok: bool)
      modifies this
      ensures rows == Step(old(rows), At(now, Create(sha256(token), userId)))
      ensures ok <==> sha256(token) !in old(rows)
      ensures ok ==> rows == old(rows)[sha256(token) := Row(userId, now + 1_209_600, now)]
    {
      var hash := sha256(token);
      if hash in rows {
        return false;
      }
      rows := rows[hash := Row(userId, now + ABSOLUTE_TTL, now)];
      return true;
    }

    method LookupSession(now: int, token: Bytes) returns (record: Option<Record>)
      modifies this
      ensures rows == Step(old(rows), At(now, Lookup(sha256(token))))
      ensures record == Resolve(old(rows), sha256(token), now)
      ensures sha256(token) in old(rows) && record.None? ==> rows == old(rows) - {sha256(token)}
      ensures record.Some? ==>
                var row := old(rows)[sha256(token)];
                rows == if now - row.lastSeenAt > 60 then old(rows)[sha256(token) := row.(lastSeenAt := now)]
                        else old(rows)
    {
      var hash := sha256(token);
      if hash !in rows {
        return None;
      }
      var row := rows[hash];
      if row.expiresAt <= now || row.lastSeenAt + IDLE_TTL <= now {
        rows := rows - {hash};
        return None;
      }
      if now - row.lastSeenAt > THROTTLE {
        rows := rows[hash := row.(lastSeenAt := now)];
      }
      return Some(Record(row.userId, row.expiresAt));
    }

    method DestroySession(now: int, token: Bytes)
      modifies this
      ensures rows == Step(old(rows), At(now, Destroy(sha256(token))))
    {
      rows := rows - {sha256(token)};
    }

    method DestroyAllSessions(now: int, userId: Bytes)
      modifies this
      ensures rows == Step(old(rows), At(now, DestroyAll(userId)))
    {
      rows := map hash | hash in rows && rows[hash].userId != userId :: rows[hash];
    }
  }

  // ---------------------------------------------------------------------
  // Exact sliding expiry

  /** What an exact record would hold: who, when created, and the last accepted use to the second. */
  datatype Entry = Entry(userId: Bytes, created: int, lastUse: int)

  function EntryStep(table: Table, entry: Option<Entry>, hash: Bytes, e: Event): Option<Entry> {
    match e.op
    case Create(h, userId) =>
      if h == hash && hash !in table then Some(Entry(userId, e.now, e.now)) else entry
    case Lookup(h) =>
      if h == hash && entry.Some? && Resolve(table, hash, e.now).Some?
      then Some(entry.value.(lastUse := e.now))
      else entry
    case Destroy(h) => if h == hash then None else entry
    case DestroyAll(userId) => if entry.Some? && entry.value.userId == userId then None else entry
  }

  /** The exact record of one token; only a sign-out removes it. */
  function Exact(events: seq<Event>, hash: Bytes): Option<Entry> {
    if events == [] then None
    else
      var before := events[..|events| - 1];
      EntryStep(Run(before), Exact(before, hash), hash, events[|events| - 1])
  }

  ghost predicate Timed(events: seq<Event>) {
    forall i, j | 0 <= i < j < |events| :: events[i].now <= events[j].now
  }

  ghost predicate Reached(events: seq<Event>, now: int) {
    events != [] ==> events[|events| - 1].now <= now
  }

  /** The stored time trails the exact one by at most the throttle, and rows go only when nearly idle. */
  ghost predicate Trails(table: Table, entry: Option<Entry>, hash: Bytes, now: int) {
    && (hash in table ==>
          && entry.Some?
          && table[hash].userId == entry.value.userId
          && table[hash].expiresAt == entry.value.created + ABSOLUTE_TTL
          && entry.value.lastUse - THROTTLE <= table[hash].lastSeenAt <= entry.value.lastUse <= now)
    && (hash !in table && entry.Some? ==>
          now >= entry.value.created + ABSOLUTE_TTL || now >= entry.value.lastUse + IDLE_TTL - THROTTLE)
  }

  lemma StepKeepsTrailing(table: Table, entry: Option<Entry>, hash: Bytes, now: int, e: Event)
    requires Trails(table, entry, hash, now) && now <= e.now
    ensures Trails(Step(table, e), EntryStep(table, entry, hash, e), hash, e.now)
  {
  }

  lemma {:induction false} AlwaysTrails(events: seq<Event>, hash: Bytes, now: int)
    requires Timed(events) && Reached(events, now)
    ensures Trails(Run(events), Exact(events, hash), hash, now)
  {
    if events != [] {
      var before, e := events[..|events| - 1], events[|events| - 1];
      assert before != [] ==> before[|before| - 1] == events[|events| - 2];
      var earlier := if before == [] then e.now else before[|before| - 1].now;
      AlwaysTrails(before, hash, earlier);
      StepKeepsTrailing(Run(before), Exact(before, hash), hash, earlier, e);
    }
  }

  /**
   * Against exact sliding expiry: a session that resolves is within both its
   * exact lifetimes and belongs to its owner; one that is not signed out
   * resolves until its hard lifetime ends or one minute before its exact idle
   * lifetime does.
   */
  lemma RefinesExactSliding(events: seq<Event>, hash: Bytes, now: int)
    requires Timed(events) && Reached(events, now)
    ensures var answer, entry := Resolve(Run(events), hash, now), Exact(events, hash);
            && (answer.Some? ==>
                  && entry.Some?
                  && answer.value == Record(entry.value.userId, entry.value.created + 1_209_600)
                  && now < entry.value.created + 1_209_600
                  && now < entry.value.lastUse + 259_200)
            && (entry.Some? && now < entry.value.created + 1_209_600
                && now < entry.value.lastUse + 259_200 - 60
                ==> answer.Some?)
  {
    AlwaysTrails(events, hash, now);
  }

  /** The minute is the best that can be said: used a minute after it was created, a session ends that much early. */
  lemma MinuteIsLost(hash: Bytes, userId: Bytes)
    ensures var events := [At(0, Create(hash, userId)), At(60, Lookup(hash))];
            && Timed(events)
            && Exact(events, hash) == Some(Entry(userId, 0, 60))
            && Resolve(Run(events), hash, 259_200).None?
  {
    var create, lookup := At(0, Create(hash, userId)), At(60, Lookup(hash));
    assert [create, lookup][..1] == [create] && [create][..0] == [];
    assert Run([create]) == map[hash := Row(userId, 1_209_600, 0)];
    assert Exact([create], hash) == Some(Entry(userId, 0, 0));
  }

  // ---------------------------------------------------------------------
  // Nothing comes back

  ghost predicate Creates(events: seq<Event>, hash: Bytes) {
    exists e <- events :: e.op.Create? && e.op.hash == hash
  }

  lemma {:induction false} AbsentStaysAbsent(events: seq<Event>, more: seq<Event>, hash: Bytes)
    requires hash !in Run(events) && !Creates(more, hash)
    ensures hash !in Run(events + more)
  {
    if more == [] {
      assert events + more == events;
    } else {
      var before, e := more[..|more| - 1], more[|more| - 1];
      assert (events + more)[..|events + more| - 1] == events + before;
      assert e in more && forall b <- before :: b in more;
      AbsentStaysAbsent(events, before, hash);
    }
  }

  /** Once a lookup of a token has been turned down, every later one is, whatever happens in between. */
  lemma RejectedStaysRejected(events: seq<Event>, hash: Bytes, now: int, more: seq<Event>, later: int)
    requires Resolve(Run(events), hash, now).None? && !Creates(more, hash)
    ensures Resolve(Run(events + [At(now, Lookup(hash))] + more), hash, later).None?
  {
    var after := events + [At(now, Lookup(hash))];
    assert after[..|after| - 1] == events;
    AbsentStaysAbsent(after, more, hash);
  }

  ghost predicate SignsIn(events: seq<Event>, userId: Bytes) {
    exists e <- events :: e.op.Create? && e.op.userId == userId
  }

  ghost predicate HasNone(table: Table, userId: Bytes) {
    forall hash | hash in table :: table[hash].userId != userId
  }

  lemma {:induction false} NoneUntilSignIn(events: seq<Event>, more: seq<Event>, userId: Bytes)
    requires HasNone(Run(events), userId) && !SignsIn(more, userId)
    ensures HasNone(Run(events + more), userId)
  {
    if more == [] {
      assert events + more == events;
    } else {
      var before, e := more[..|more| - 1], more[|more| - 1];
      assert (events + more)[..|events + more| - 1] == events + before;
      assert e in more && forall b <- before :: b in more;
      NoneUntilSignIn(events, before, userId);
    }
  }

  /** After signing out everywhere, no token resolves to that user until the user signs in again. */
  lemma SignedOutEverywhere(
    events: seq<Event>, userId: Bytes, now: int, more: seq<Event>, hash: Bytes, later: int)
    requires !SignsIn(more, userId)
    ensures var answer := Resolve(Run(events + [At(now, DestroyAll(userId))] + more), hash, later);
            answer.Some? ==> answer.value.userId != userId
  {
    var after := events + [At(now, DestroyAll(userId))];
    assert after[..|after| - 1] == events;
    NoneUntilSignIn(after, more, userId);
  }
}
