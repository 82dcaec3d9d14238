/**
 * Passwords and data encryption keys: src/auth/password.ts, src/auth/dek.ts,
 * the credential columns of src/db/users.ts, and the parts of src/api/auth.ts
 * that read them, compute, and write them back in one UPDATE. Salts and
 * initialisation vectors are parameters, as are PBKDF2 and AES-GCM.
 */
module Credentials {
  import opened Wrappers
  import opened ByteStrings

  const TARGET_ITERATIONS := 600_000
  const MAX_ITERATIONS_PER_CALL := 100_000
  const KEY_BYTES := 32

  /** deriveOnce(secret, salt, iterations, length), seal(key, iv, plain) and open(key, iv, sealed). */
  datatype Crypto = Crypto(
    deriveOnce: (Bytes, Bytes, nat, nat) -> Bytes,
    seal: (Bytes, Bytes, Bytes) -> Bytes,
    open: (Bytes, Bytes, Bytes) -> Option<Bytes>)
  {
    /** An ideal cipher: sealed data opens to itself, and under no second key of the same length. */
    ghost predicate Lawful() {
      && (forall secret, salt, n, length :: |deriveOnce(secret, salt, n, length)| == length)
      && (forall key, iv, m :: open(key, iv, seal(key, iv, m)) == Some(m))
      && (forall key, key', iv, c | |key| == |key'| ::
            open(key, iv, c).Some? && open(key', iv, c).Some? ==> key == key')
    }
  }

  // ---------------------------------------------------------------------
  // PBKDF2 in rounds

  function Round(remaining: nat): nat {
    if remaining < MAX_ITERATIONS_PER_CALL then remaining else MAX_ITERATIONS_PER_CALL
  }

  /** The iteration counts of the chained calls that make up n iterations. */
  function Rounds(n: nat): seq<nat> {
    if n == 0 then [] else [Round(n)] + Rounds(n - Round(n))
  }

  function Sum(ns: seq<nat>): nat {
    if ns == [] then 0 else ns[0] + Sum(ns[1..])
  }

  /** Each call's output is the next call's secret; the salt stays. */
  function Chain(c: Crypto, secret: Bytes, salt: Bytes, rounds: seq<nat>, length: nat): Bytes
    decreases rounds
  {
    if rounds == [] then secret
    else Chain(c, c.deriveOnce(secret, salt, rounds[0], length), salt, rounds[1..], length)
  }

  function AtLeastOne(iterations: int): nat {
    if iterations < 1 then 1 else iterations
  }

  function Pbkdf2(c: Crypto, password: Bytes, salt: Bytes, iterations: int, length: nat): Bytes {
    Chain(c, password, salt, Rounds(AtLeastOne(iterations)), length)
  }

  /** No call exceeds what the runtime accepts, no iteration is lost, and no call is wasted. */
  lemma {:induction false} RoundsAddUp(n: nat)
    ensures Sum(Rounds(n)) == n
    ensures forall r <- Rounds(n) :: 1 <= r <= MAX_ITERATIONS_PER_CALL
    ensures (|Rounds(n)| - 1) * MAX_ITERATIONS_PER_CALL < n || n == 0
    ensures |Rounds(n)| * MAX_ITERATIONS_PER_CALL >= n
  {
    if n != 0 {
      RoundsAddUp(n - Round(n));
    }
  }

  lemma {:induction false} ChainLength(c: Crypto, secret: Bytes, salt: Bytes, rounds: seq<nat>, length: nat)
    requires c.Lawful() && rounds != []
    ensures |Chain(c, secret, salt, rounds, length)| == length
    decreases rounds
  {
    if |rounds| > 1 {
      ChainLength(c, c.deriveOnce(secret, salt, rounds[0], length), salt, rounds[1..], length);
    }
  }

  lemma Pbkdf2Length(c: Crypto, password: Bytes, salt: Bytes, iterations: int, length: nat)
    requires c.Lawful()
    ensures |Pbkdf2(c, password, salt, iterations, length)| == length
  {
    ChainLength(c, password, salt, Rounds(AtLeastOne(iterations)), length);
  }

  /** Raising a count by whole calls derives from the output so far, so a chain can be continued. */
  lemma {:induction false} ChainContinues(c: Crypto, secret: Bytes, salt: Bytes, calls: nat, more: nat, length: nat)
    ensures Chain(c, secret, salt, Rounds(calls * MAX_ITERATIONS_PER_CALL + more), length)
         == Chain(c, Chain(c, secret, salt, Rounds(calls * MAX_ITERATIONS_PER_CALL), length), salt,
                  Rounds(more), length)
    decreases calls
  {
    if calls > 0 {
      var next := c.deriveOnce(secret, salt, MAX_ITERATIONS_PER_CALL, length);
      ChainContinues(c, next, salt, calls - 1, more, length);
      assert Rounds(calls * MAX_ITERATIONS_PER_CALL + more)
          == [MAX_ITERATIONS_PER_CALL] + Rounds((calls - 1) * MAX_ITERATIONS_PER_CALL + more);
      assert Rounds(calls * MAX_ITERATIONS_PER_CALL)
          == [MAX_ITERATIONS_PER_CALL] + Rounds((calls - 1) * MAX_ITERATIONS_PER_CALL);
    }
  }

  /**
   * Up to 100,000 iterations are one call; of more, the first 100,000 give the
   * secret that the others go on from, under the same salt.
   */
  lemma Pbkdf2Steps(c: Crypto, password: Bytes, salt: Bytes, iterations: int, length: nat)
    ensures iterations <= 1 ==> Pbkdf2(c, password, salt, iterations, length) == c.deriveOnce(password, salt, 1, length)
    ensures 1 <= iterations <= 100_000 ==>
              Pbkdf2(c, password, salt, iterations, length) == c.deriveOnce(password, salt, iterations, length)
    ensures iterations > 100_000 ==>
              Pbkdf2(c, password, salt, iterations, length)
              == Pbkdf2(c, c.deriveOnce(password, salt, 100_000, length), salt, iterations - 100_000, length)
  {
    var n := AtLeastOne(iterations);
    if n <= MAX_ITERATIONS_PER_CALL {
      assert Rounds(n) == [n] + Rounds(0) && [n] + Rounds(0) == [n] && [n][1..] == [];
      var output := c.deriveOnce(password, salt, n, length);
      assert Chain(c, output, salt, [], length) == output;
    } else {
      assert Rounds(n)[1..] == Rounds(n - MAX_ITERATIONS_PER_CALL);
    }
  }

  method DerivePbkdf2(c: Crypto, password: Bytes, salt: Bytes, iterations: int, length: nat) returns (output: Bytes)
    ensures output == Pbkdf2(c, password, salt, iterations, length)
  {
    var secret := password;
    var remaining := AtLeastOne(iterations);
    output := secret;
    while remaining > 0
      invariant output == secret
      invariant Chain(c, secret, salt, Rounds(remaining), length) == Pbkdf2(c, password, salt, iterations, length)
    {
      var round := Round(remaining);
      output := c.deriveOnce(secret, salt, round, length);
      secret := output;
      remaining := remaining - round;
    }
  }

  // ---------------------------------------------------------------------
  // Records

  datatype PasswordRecord = PasswordRecord(hash: Bytes, salt: Bytes, iters: int)

  datatype WrappedDek = WrappedDek(wrapped: Bytes, iv: Bytes, salt: Bytes, iters: int)

  datatype Sealed = Sealed(ciphertext: Bytes, iv: Bytes)

  /** The credential columns of one row of the users table. */
  datatype Row = Row(password: PasswordRecord, dek: WrappedDek)

  function HashPassword(c: Crypto, password: Bytes, salt: Bytes, iters: int): PasswordRecord {
    PasswordRecord(Pbkdf2(c, password, salt, iters, KEY_BYTES), salt, iters)
  }

  predicate VerifyPassword(c: Crypto, password: Bytes, record: PasswordRecord) {
    Pbkdf2(c, password, record.salt, record.iters, |record.hash|) == record.hash
  }

  function Kek(c: Crypto, password: Bytes, salt: Bytes, iters: int): Bytes {
    Pbkdf2(c, password, salt, iters, KEY_BYTES)
  }

  function WrapDek(c: Crypto, dek: Bytes, password: Bytes, salt: Bytes, iv: Bytes, iters: int): WrappedDek {
    WrappedDek(c.seal(Kek(c, password, salt, iters), iv, dek), iv, salt, iters)
  }

  function UnwrapDek(c: Crypto, password: Bytes, record: WrappedDek): Option<Bytes> {
    c.open(Kek(c, password, record.salt, record.iters), record.iv, record.wrapped)
  }

  function SealSecret(c: Crypto, dek: Bytes, plaintext: Bytes, iv: Bytes): Sealed {
    Sealed(c.seal(dek, iv, plaintext), iv)
  }

  function OpenSecret(c: Crypto, dek: Bytes, sealed: Sealed): Option<Bytes> {
    c.open(dek, sealed.iv, sealed.ciphertext)
  }

  /** The random values of one pair of records. */
  datatype Randoms = Randoms(passwordSalt: Bytes, dekSalt: Bytes, iv: Bytes)

  /** Verifier and wrap of one password, at one iteration count. */
  function NewRow(c: Crypto, password: Bytes, dek: Bytes, randoms: Randoms, iters: int): Row {
    Row(HashPassword(c, password, randoms.passwordSalt, iters),
        WrapDek(c, dek, password, randoms.dekSalt, randoms.iv, iters))
  }

  /** 401, 500, and a request that goes on with the data key. */
  datatype Outcome = Refused | Broken | Accepted(dek: Bytes)

  function Check(c: Crypto, password: Bytes, row: Row): Outcome {
    if !VerifyPassword(c, password, row.password) then Refused
    else
      match UnwrapDek(c, password, row.dek)
      case None => Broken
      case Some(dek) => Accepted(dek)
  }

  /** The verifier and the wrap belong to one password, and the wrap holds this data key. */
  ghost predicate Consistent(c: Crypto, row: Row, password: Bytes, dek: Bytes) {
    && |row.password.hash| == KEY_BYTES
    && VerifyPassword(c, password, row.password)
    && UnwrapDek(c, password, row.dek) == Some(dek)
  }

  /** Whoever unwraps it, the wrap yields this data key. */
  ghost predicate Holds(c: Crypto, record: WrappedDek, dek: Bytes) {
    forall q :: UnwrapDek(c, q, record).Some? ==> UnwrapDek(c, q, record) == Some(dek)
  }

  lemma NewRowIsConsistent(c: Crypto, password: Bytes, dek: Bytes, randoms: Randoms, iters: int)
    requires c.Lawful()
    ensures Consistent(c, NewRow(c, password, dek, randoms, iters), password, dek)
  {
    Pbkdf2Length(c, password, randoms.passwordSalt, iters, KEY_BYTES);
  }

  lemma ConsistentHolds(c: Crypto, row: Row, password: Bytes, dek: Bytes)
    requires c.Lawful() && Consistent(c, row, password, dek)
    ensures Holds(c, row.dek, dek)
  {
    forall q | UnwrapDek(c, q, row.dek).Some?
      ensures UnwrapDek(c, q, row.dek) == Some(dek)
    {
      Pbkdf2Length(c, q, row.dek.salt, row.dek.iters, KEY_BYTES);
      Pbkdf2Length(c, password, row.dek.salt, row.dek.iters, KEY_BYTES);
    }
  }

  // ---------------------------------------------------------------------
  // Interleaved requests on one account

  /** A login, or a password change if next is given, that has read the row and not yet finished. */
  datatype Job = Job(password: Bytes, next: Option<Bytes>, seen: Row) {
    /** The password this request writes records for, if it writes any. */
    function Target(): Bytes {
      if next.Some? then next.value else password
    }

    predicate Updates(c: Crypto) {
      Check(c, password, seen).Accepted? && (next.Some? || seen.password.iters < TARGET_ITERATIONS)
    }
  }

  datatype Secret = Secret(plaintext: Bytes, sealed: Sealed)

  /** issued lists the data keys handed out in cookies, one for each accepted request. */
  datatype State = State(row: Row, jobs: seq<Job>, issued: seq<Bytes>, secrets: seq<Secret>)

  datatype Event =
    | Read(password: Bytes, next: Option<Bytes>)
    | Finish(job: nat, randoms: Randoms)
    | Save(cookie: nat, plaintext: Bytes, iv: Bytes)

  /** An account as registration leaves it; older deployments used smaller iteration counts. */
  function Registered(c: Crypto, password: Bytes, dek: Bytes, randoms: Randoms, iters: int): State {
    State(NewRow(c, password, dek, randoms, iters), [], [dek], [])
  }

  function OnFinish(c: Crypto, s: State, i: nat, randoms: Randoms): State
    requires i < |s.jobs|
  {
    var job := s.jobs[i];
    var rest := s.(jobs := s.jobs[..i] + s.jobs[i + 1..]);
    match Check(c, job.password, job.seen)
    case Refused => rest
    case Broken => rest
    case Accepted(dek) =>
      rest.(row := if job.Updates(c) then NewRow(c, job.Target(), dek, randoms, TARGET_ITERATIONS) else s.row,
            issued := s.issued + [dek])
  }

  function Step(c: Crypto, s: State, e: Event): State {
    match e
    case Read(password, next) => s.(jobs := s.jobs + [Job(password, next, s.row)])
    case Finish(i, randoms) => if i < |s.jobs| then OnFinish(c, s, i, randoms) else s
    case Save(i, plaintext, iv) =>
      if i < |s.issued| then
        s.(secrets := s.secrets + [Secret(plaintext, SealSecret(c, s.issued[i], plaintext, iv))])
      else s
  }

  function Run(c: Crypto, s: State, events: seq<Event>): State {
    if events == [] then s
    else Step(c, Run(c, s, events[..|events| - 1]), events[|events| - 1])
  }

  /** The password of the last UPDATE, or the one before if the event updates nothing. */
  function PasswordStep(c: Crypto, s: State, p: Bytes, e: Event): Bytes {
    if e.Finish? && e.job < |s.jobs| && s.jobs[e.job].Updates(c) then s.jobs[e.job].Target() else p
  }

  function Password(c: Crypto, s: State, p: Bytes, events: seq<Event>): Bytes {
    if events == [] then p
    else
      var before := events[..|events| - 1];
      PasswordStep(c, Run(c, s, before), Password(c, s, p, before), events[|events| - 1])
  }

  ghost predicate Sound(c: Crypto, s: State, p: Bytes, dek: Bytes) {
    && Consistent(c, s.row, p, dek)
    && (forall job <- s.jobs :: Holds(c, job.seen.dek, dek))
    && (forall key <- s.issued :: key == dek)
    && (forall secret <- s.secrets :: OpenSecret(c, dek, secret.sealed) == Some(secret.plaintext))
  }

  lemma FinishKeepsSound(c: Crypto, s: State, p: Bytes, dek: Bytes, i: nat, randoms: Randoms)
    requires c.Lawful() && Sound(c, s, p, dek) && i < |s.jobs|
    ensures Sound(c, OnFinish(c, s, i, randoms), PasswordStep(c, s, p, Finish(i, randoms)), dek)
  {
    assert s.jobs[i] in s.jobs;
    NewRowIsConsistent(c, s.jobs[i].Target(), dek, randoms, TARGET_ITERATIONS);
  }

  lemma StepKeepsSound(c: Crypto, s: State, p: Bytes, dek: Bytes, e: Event)
    requires c.Lawful() && Sound(c, s, p, dek)
    ensures Sound(c, Step(c, s, e), PasswordStep(c, s, p, e), dek)
  {
    match e
    case Read(_, _) => ConsistentHolds(c, s.row, p, dek);
    case Finish(i, randoms) =>
      if i < |s.jobs| {
        FinishKeepsSound(c, s, p, dek, i, randoms);
      }
    case Save(i, _, _) => assert i < |s.issued| ==> s.issued[i] in s.issued;
  }

  lemma {:induction false} RunKeepsSound(c: Crypto, s: State, p: Bytes, dek: Bytes, events: seq<Event>)
    requires c.Lawful() && Sound(c, s, p, dek)
    ensures Sound(c, Run(c, s, events), Password(c, s, p, events), dek)
  {
    if events != [] {
      var before := events[..|events| - 1];
      RunKeepsSound(c, s, p, dek, before);
      StepKeepsSound(c, Run(c, s, before), Password(c, s, p, before), dek, events[|events| - 1]);
    }
  }

  /**
   * However logins, re-hashes and password changes interleave, the password
   * of the last UPDATE logs in and yields the data key minted at
   * registration, no password that is accepted yields another, every cookie
   * ever issued carries that key, and every secret ever saved under any of
   * those cookies opens to what was saved.
   */
  lemma DekIsConserved(c: Crypto, p: Bytes, dek: Bytes, randoms: Randoms, iters: int, events: seq<Event>)
    requires c.Lawful()
    ensures var start := Registered(c, p, dek, randoms, iters);
            var s := Run(c, start, events);
            && Check(c, Password(c, start, p, events), s.row) == Accepted(dek)
            && (forall q :: Check(c, q, s.row).Accepted? ==> Check(c, q, s.row).dek == dek)
            && (forall key <- s.issued :: key == dek)
            && (forall secret <- s.secrets :: OpenSecret(c, dek, secret.sealed) == Some(secret.plaintext))
  {
    var start := Registered(c, p, dek, randoms, iters);
    NewRowIsConsistent(c, p, dek, randoms, iters);
    RunKeepsSound(c, start, p, dek, events);
    ConsistentHolds(c, Run(c, start, events).row, Password(c, start, p, events), dek);
  }

  // ---------------------------------------------------------------------
  // Which password

  /** No two of these passwords derive the same bytes from the same salt. */
  ghost predicate CollisionFree(c: Crypto, known: set<Bytes>) {
    forall p, q, salt, iters | p in known && q in known ::
      Pbkdf2(c, p, salt, iters, KEY_BYTES) == Pbkdf2(c, q, salt, iters, KEY_BYTES) ==> p == q
  }

  lemma RowAcceptsOne(c: Crypto, s: State, p: Bytes, dek: Bytes, q: Bytes, known: set<Bytes>)
    requires Sound(c, s, p, dek)
    requires CollisionFree(c, known) && p in known && q in known
    ensures Check(c, q, s.row) == if q == p then Accepted(dek) else Refused
  {
  }

  /**
   * After any run, the password of the last UPDATE is accepted, every other is
   * refused, and the broken-row answer is never given.
   */
  lemma AcceptedExactly(c: Crypto, p: Bytes, dek: Bytes, randoms: Randoms, iters: int, events: seq<Event>,
                        q: Bytes, known: set<Bytes>)
    requires c.Lawful() && CollisionFree(c, known) && q in known
    requires Password(c, Registered(c, p, dek, randoms, iters), p, events) in known
    ensures var start := Registered(c, p, dek, randoms, iters);
            Check(c, q, Run(c, start, events).row)
            == if q == Password(c, start, p, events) then Accepted(dek) else Refused
  {
    var start := Registered(c, p, dek, randoms, iters);
    NewRowIsConsistent(c, p, dek, randoms, iters);
    RunKeepsSound(c, start, p, dek, events);
    RowAcceptsOne(c, Run(c, start, events), Password(c, start, p, events), dek, q, known);
  }

  ghost predicate Offered(events: seq<Event>, known: set<Bytes>) {
    forall e <- events :: e.Read? ==> e.password in known
  }

  ghost predicate OnlyLogins(events: seq<Event>) {
    forall e <- events :: e.Read? ==> e.next.None?
  }

  /** A request that read the row earlier will write records of another password. */
  ghost predicate Stale(c: Crypto, s: State, p: Bytes) {
    exists job <- s.jobs :: job.Updates(c) && job.Target() != p
  }

  lemma {:induction false} KeptUnlessStale(
    c: Crypto, s: State, p: Bytes, dek: Bytes, known: set<Bytes>, events: seq<Event>)
    requires c.Lawful() && Sound(c, s, p, dek) && !Stale(c, s, p)
    requires CollisionFree(c, known) && p in known && Offered(events, known) && OnlyLogins(events)
    ensures Password(c, s, p, events) == p
    ensures !Stale(c, Run(c, s, events), p)
  {
    if events != [] {
      var before, e := events[..|events| - 1], events[|events| - 1];
      assert e in events && forall b <- before :: b in events;
      KeptUnlessStale(c, s, p, dek, known, before);
      RunKeepsSound(c, s, p, dek, before);
      if e.Read? {
        RowAcceptsOne(c, Run(c, s, before), p, dek, e.password, known);
      }
    }
  }

  ghost predicate UndoneBy(c: Crypto, s: State, p: Bytes, known: set<Bytes>, events: seq<Event>) {
    Offered(events, known) && OnlyLogins(events) && Password(c, s, p, events) != p
  }

  /**
   * A password, once written, can be replaced without anybody asking for a
   * change exactly when a request that read the row before is still to write
   * records of another one: the UPDATE does not look at what it overwrites.
   */
  lemma UndoneExactly(c: Crypto, s: State, p: Bytes, dek: Bytes, known: set<Bytes>)
    requires c.Lawful() && Sound(c, s, p, dek) && CollisionFree(c, known) && p in known
    ensures (exists events :: UndoneBy(c, s, p, known, events)) <==> Stale(c, s, p)
  {
    if Stale(c, s, p) {
      var i :| 0 <= i < |s.jobs| && s.jobs[i].Updates(c) && s.jobs[i].Target() != p;
      var events := [Finish(i, Randoms([], [], []))];
      assert events[..0] == [];
      assert UndoneBy(c, s, p, known, events);
    } else {
      forall events | Offered(events, known) && OnlyLogins(events)
        ensures Password(c, s, p, events) == p
      {
        KeptUnlessStale(c, s, p, dek, known, events);
      }
    }
  }

  /**
   * It does happen: on an account with an old iteration count, a login that
   * read the row before a password change and re-hashes after it brings the
   * old password back, and the new one is refused.
   */
  lemma RehashUndoesChange(c: Crypto, p: Bytes, n: Bytes, dek: Bytes, randoms: Randoms, iters: int)
    requires c.Lawful() && iters < TARGET_ITERATIONS && p != n && CollisionFree(c, {p, n})
    ensures var start := Registered(c, p, dek, randoms, iters);
            var change := [Read(p, None), Read(p, Some(n)), Finish(1, randoms)];
            && Check(c, n, Run(c, start, change).row) == Accepted(dek)
            && Check(c, p, Run(c, start, change + [Finish(0, randoms)]).row) == Accepted(dek)
            && Check(c, n, Run(c, start, change + [Finish(0, randoms)]).row) == Refused
  {
    var start := Registered(c, p, dek, randoms, iters);
    var change := [Read(p, None), Read(p, Some(n)), Finish(1, randoms)];
    NewRowIsConsistent(c, p, dek, randoms, iters);
    NewRowIsConsistent(c, p, dek, randoms, TARGET_ITERATIONS);
    NewRowIsConsistent(c, n, dek, randoms, TARGET_ITERATIONS);
    var login, asked := Job(p, None, start.row), Job(p, Some(n), start.row);
    assert change[..2] == [Read(p, None), Read(p, Some(n))] && change[..2][..1] == [Read(p, None)];
    assert Run(c, start, [Read(p, None)]).jobs == [login] by {
      assert [Read(p, None)][..0] == [];
    }
    assert Run(c, start, change[..2]).jobs == [login, asked];
    assert change[..|change| - 1] == change[..2];
    var changed := Run(c, start, change);
    assert changed.jobs == [login];
    assert (change + [Finish(0, randoms)])[..3] == change;
    assert Run(c, start, change + [Finish(0, randoms)]).row == NewRow(c, p, dek, randoms, TARGET_ITERATIONS);
  }

  // ---------------------------------------------------------------------
  // The requests themselves

  /**
   * Verifier and wrap of this password at 600,000 iterations, 32 bytes each,
   * every one under a salt of its own, and the wrap sealing this key.
   */
  ghost predicate IsRowOf(c: Crypto, row: Row, password: Bytes, dek: Bytes, randoms: Randoms) {
    && row.password == PasswordRecord(Pbkdf2(c, password, randoms.passwordSalt, 600_000, 32), randoms.passwordSalt,
                                      600_000)
    && row.dek == WrappedDek(c.seal(Pbkdf2(c, password, randoms.dekSalt, 600_000, 32), randoms.iv, dek), randoms.iv,
                             randoms.dekSalt, 600_000)
  }

  /** What the records of a row answer to a password. */
  ghost predicate Answers(c: Crypto, row: Row, password: Bytes, outcome: Outcome) {
    var hash := row.password.hash;
    var verified := Pbkdf2(c, password, row.password.salt, row.password.iters, |hash|) == hash;
    var unsealed := c.open(Pbkdf2(c, password, row.dek.salt, row.dek.iters, 32), row.dek.iv, row.dek.wrapped);
    outcome == if !verified then Refused else if unsealed.None? then Broken else Accepted(unsealed.value)
  }

  /** One account's row and the requests under way on it. */
  class Account {
    const c: Crypto
    var row: Row
    var jobs: seq<Job>
    var issued: seq<Bytes>
    var secrets: seq<Secret>

    function Now(): State
      reads this
    {
      State(row, jobs, issued, secrets)
    }

    constructor Register(c: Crypto, password: Bytes, dek: Bytes, randoms: Randoms)
      ensures this.c == c && Now() == Registered(c, password, dek, randoms, TARGET_ITERATIONS)
      ensures IsRowOf(c, row, password, dek, randoms) && issued == [dek] && jobs == [] && secrets == []
    {
      this.c := c;
      var verifier := HashPassword(c, password, randoms.passwordSalt, TARGET_ITERATIONS);
      var record := WrapDek(c, dek, password, randoms.dekSalt, randoms.iv, TARGET_ITERATIONS);
      row := Row(verifier, record);
      jobs, issued, secrets := [], [dek], [];
    }

    /** A login or a password change reads the row. */
    method ReadRow(password: Bytes, next: Option<Bytes>)
      modifies this
      ensures Now() == Step(c, old(Now()), Read(password, next))
      ensures jobs == old(jobs) + [Job(password, next, row)] && row == old(row)
    {
      jobs := jobs + [Job(password, next, row)];
    }

    /** The rest of login; the job is the one that read the row. */
    method Login(i: nat, randoms: Randoms) returns (outcome: Outcome)
      requires i < |jobs| && jobs[i].next.None?
      modifies this
      ensures Now() == Step(c, old(Now()), Finish(i, randoms))
      ensures outcome == Check(c, old(jobs[i].password), old(jobs[i].seen))
      ensures Answers(c, old(jobs[i].seen), old(jobs[i].password), outcome)
      ensures outcome.Accepted? && old(jobs[i].seen).password.iters < 600_000 ==>
                IsRowOf(c, row, old(jobs[i].password), outcome.dek, randoms)
      ensures !outcome.Accepted? || old(jobs[i].seen).password.iters >= 600_000 ==> row == old(row)
      ensures issued == if outcome.Accepted? then old(issued) + [outcome.dek] else old(issued)
    {
      var job := jobs[i];
      jobs := jobs[..i] + jobs[i + 1..];
      var user := job.seen;
      if !VerifyPassword(c, job.password, user.password) {
        return Refused;
      }
      var dek := UnwrapDek(c, job.password, user.dek);
      if dek.None? {
        return Broken;
      }
      if user.password.iters < TARGET_ITERATIONS {
        UpdateCredentials(
          HashPassword(c, job.password, randoms.passwordSalt, TARGET_ITERATIONS),
          WrapDek(c, dek.value, job.password, randoms.dekSalt, randoms.iv, TARGET_ITERATIONS));
      }
      issued := issued + [dek.value];
      return Accepted(dek.value);
    }

    /** The rest of a password change. */
    method ChangePassword(i: nat, randoms: Randoms) returns (outcome: Outcome)
      requires i < |jobs| && jobs[i].next.Some?
      modifies this
      ensures Now() == Step(c, old(Now()), Finish(i, randoms))
      ensures outcome == Check(c, old(jobs[i].password), old(jobs[i].seen))
      ensures Answers(c, old(jobs[i].seen), old(jobs[i].password), outcome)
      ensures if outcome.Accepted? then IsRowOf(c, row, old(jobs[i].next.value), outcome.dek, randoms)
              else row == old(row)
      ensures issued == if outcome.Accepted? then old(issued) + [outcome.dek] else old(issued)
    {
      var job := jobs[i];
      jobs := jobs[..i] + jobs[i + 1..];
      var user := job.seen;
      if !VerifyPassword(c, job.password, user.password) {
        return Refused;
      }
      var dek := UnwrapDek(c, job.password, user.dek);
      if dek.None? {
        return Broken;
      }
      UpdateCredentials(
        HashPassword(c, job.next.value, randoms.passwordSalt, TARGET_ITERATIONS),
        WrapDek(c, dek.value, job.next.value, randoms.dekSalt, randoms.iv, TARGET_ITERATIONS));
      issued := issued + [dek.value];
      return Accepted(dek.value);
    }

    /** One UPDATE replaces verifier and wrap together. */
    method UpdateCredentials(password: PasswordRecord, dek: WrappedDek)
      modifies this`row
      ensures row == Row(password, dek)
    {
      row := Row(password, dek);
    }

    method SaveSecret(cookie: nat, plaintext: Bytes, iv: Bytes)
      modifies this`secrets
      ensures Now() == Step(c, old(Now()), Save(cookie, plaintext, iv))
      ensures cookie < |issued| ==>
                secrets == old(secrets) + [Secret(plaintext, Sealed(c.seal(issued[cookie], iv, plaintext), iv))]
    {
      if cookie < |issued| {
        secrets := secrets + [Secret(plaintext, SealSecret(c, issued[cookie], plaintext, iv))];
      }
    }
  }

  // ---------------------------------------------------------------------
  // The assumptions can be met

  /** Derives a run of the secret's first byte, and seals by putting the key in front. */
  function Plain(): Crypto {
    Crypto(
      (secret: Bytes, salt: Bytes, n: nat, length: nat) => Repeat(secret, length),
      (key: Bytes, iv: Bytes, m: Bytes) => key + m,
      (key: Bytes, iv: Bytes, sealed: Bytes) => if key <= sealed then Some(sealed[|key|..]) else None)
  }

  function Repeat(secret: Bytes, length: nat): Bytes {
    seq(length, _ => if secret == [] then 0 else secret[0])
  }

  lemma PlainIsLawful()
    ensures Plain().Lawful()
  {
    forall key: Bytes, m: Bytes
      ensures (key + m)[|key|..] == m
    {
    }
  }

  lemma {:induction false} FirstByteStays(secret: Bytes, salt: Bytes, rounds: seq<nat>)
    requires secret != []
    ensures Chain(Plain(), secret, salt, rounds, KEY_BYTES) != []
    ensures Chain(Plain(), secret, salt, rounds, KEY_BYTES)[0] == secret[0]
    decreases rounds
  {
    if rounds != [] {
      FirstByteStays(Repeat(secret, KEY_BYTES), salt, rounds[1..]);
    }
  }

  lemma PlainIsCollisionFree()
    ensures CollisionFree(Plain(), {[0], [1]})
  {
    forall p, q, salt, iters | p in {[0], [1]} && q in {[0], [1]} &&
      Pbkdf2(Plain(), p, salt, iters, KEY_BYTES) == Pbkdf2(Plain(), q, salt, iters, KEY_BYTES)
      ensures p == q
    {
      FirstByteStays(p, salt, Rounds(AtLeastOne(iters)));
      FirstByteStays(q, salt, Rounds(AtLeastOne(iters)));
    }
  }

  lemma LawsCanBeMet()
    ensures exists c: Crypto, p: Bytes, q: Bytes :: p != q && c.Lawful() && CollisionFree(c, {p, q})
  {
    PlainIsLawful();
    PlainIsCollisionFree();
    assert [0] != [1] && Plain().Lawful() && CollisionFree(Plain(), {[0], [1]});
  }
}
