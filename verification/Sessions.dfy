/**
 * SshSession of src/session.ts: one terminal's ticket, sockets and alarm.
 * Handlers are atomic, as a Durable Object's input gates make them, except
 * that SshClient.connect may settle at any later time.
 */
module Sessions {
  import opened Wrappers
  import opened ByteStrings

  const IDLE_TIMEOUT := 10 * 60 * 1000
  const MAX_SESSION := 60 * 60 * 1000
  const ALARM_INTERVAL := 30 * 1000
  const UNCLAIMED_TTL := 60 * 1000

  /** The owner and the credential of a session; the rest of the parameters play no part here. */
  datatype Params = Params(owner: Bytes, credential: Bytes)

  /** connecting holds the parameters captured by each connect that has not settled. */
  datatype Session = Session(
    params: Option<Params>,
    socket: bool,
    ssh: bool,
    startedAt: int,
    lastActivity: int,
    torndown: bool,
    claimed: bool,
    expiresUnclaimedAt: int,
    asking: bool,
    alarm: Option<int>,
    connecting: seq<Params>)

  const CREATED := Session(None, false, false, 0, 0, false, false, 0, false, None, [])

  datatype Op =
    | Configure(params: Params)
    | Claim(user: Bytes)
    | Fetch(upgrade: bool)
    | Connected
    | ConnectFailed
    | AskHostKey
    | AnswerHostKey
    | Message
    | Output
    | Gone
    | Alarm

  datatype Event = At(ms: nat, op: Op)

  /** A refused configure throws. */
  datatype Reply = Done | Refused | Granted(ok: bool) | Status(code: nat)

  function Teardown(s: Session): Session {
    if s.torndown then s
    else s.(torndown := true, asking := false, ssh := false, params := None, socket := false, alarm := None)
  }

  predicate Grantable(s: Session, now: int, user: Bytes) {
    s.params.Some? && !s.claimed && !s.torndown && s.params.value.owner == user && now <= s.expiresUnclaimedAt
  }

  /** An owner who comes too late brings the object down. */
  function OnClaim(s: Session, now: int, user: Bytes): Session {
    if s.params.None? || s.claimed || s.torndown then s
    else if s.params.value.owner != user then s
    else if now > s.expiresUnclaimedAt then Teardown(s)
    else s.(claimed := true)
  }

  function OnConfigure(s: Session, now: int, p: Params): Session {
    if s.params.Some? then s
    else
      s.(params := Some(p), expiresUnclaimedAt := now + UNCLAIMED_TTL, alarm := Some(now + UNCLAIMED_TTL + 1000))
  }

  function OnFetch(s: Session, now: int, upgrade: bool): Session {
    if !upgrade || s.params.None? || s.socket then s
    else
      s.(socket := true, startedAt := now, lastActivity := now, alarm := Some(now + ALARM_INTERVAL),
         connecting := s.connecting + [s.params.value])
  }

  /** Firing consumes the alarm; a live session gets another or is torn down. */
  function OnAlarm(s: Session, now: int): Session {
    var fired := s.(alarm := None);
    if s.torndown then fired
    else if !s.socket then
      if now > s.expiresUnclaimedAt then Teardown(fired) else fired.(alarm := Some(s.expiresUnclaimedAt + 1000))
    else if now - s.lastActivity > IDLE_TIMEOUT then Teardown(fired)
    else if now - s.startedAt > MAX_SESSION then Teardown(fired)
    else fired.(alarm := Some(now + ALARM_INTERVAL))
  }

  /** The first connect in line settles; on success the object keeps the client and drops the credential. */
  function OnConnected(s: Session): Session {
    if s.connecting == [] then s
    else s.(ssh := true, params := Some(s.connecting[0].(credential := [])), connecting := s.connecting[1..])
  }

  function OnConnectFailed(s: Session): Session {
    if s.connecting == [] then s else Teardown(s.(connecting := s.connecting[1..]))
  }

  function Step(s: Session, e: Event): Session {
    match e.op
    case Configure(p) => OnConfigure(s, e.ms, p)
    case Claim(user) => OnClaim(s, e.ms, user)
    case Fetch(upgrade) => OnFetch(s, e.ms, upgrade)
    case Connected => OnConnected(s)
    case ConnectFailed => OnConnectFailed(s)
    case AskHostKey => s.(asking := true)
    case AnswerHostKey => s.(asking := false)
    case Message => s.(lastActivity := e.ms)
    case Output => s.(lastActivity := e.ms)
    case Gone => Teardown(s)
    case Alarm => if s.alarm.Some? then OnAlarm(s, e.ms) else s
  }

  /** What the caller is told. */
  function Answer(s: Session, e: Event): Reply {
    match e.op
    case Configure(_) => if s.params.Some? then Refused else Done
    case Claim(user) => Granted(Grantable(s, e.ms, user))
    case Fetch(upgrade) => Status(if !upgrade then 426 else if s.params.None? || s.socket then 409 else 101)
    case _ => Done
  }

  function Run(s: Session, events: seq<Event>): Session {
    if events == [] then s
    else Step(Run(s, events[..|events| - 1]), events[|events| - 1])
  }

  class SshSession {
    var params: Option<Params>
    var socket: bool
    var ssh: bool
    var startedAt: int
    var lastActivity: int
    var torndown: bool
    var claimed: bool
    var expiresUnclaimedAt: int
    var asking: bool
    var alarmAt: Option<int>
    var connecting: seq<Params>

    function State(): Session
      reads this
    {
      Session(params, socket, ssh, startedAt, lastActivity, torndown, claimed, expiresUnclaimedAt, asking, alarmAt,
              connecting)
    }

    constructor ()
      ensures State() == CREATED
    {
      params, socket, ssh, startedAt, lastActivity := None, false, false, 0, 0;
      torndown, claimed, expiresUnclaimedAt, asking, alarmAt, connecting := false, false, 0, false, None, [];
    }

    /** False when the object is already configured, which the source reports by throwing. */
    method ConfigureSession(ms: nat, p: Params) returns (ok: bool)
      modifies this
      ensures State() == Step(old(State()), At(ms, Configure(p)))
      ensures (if ok then Done else Refused) == Answer(old(State()), At(ms, Configure(p)))
      ensures ok == old(params).None?
      ensures ok ==> params == Some(p) && expiresUnclaimedAt == ms + 60_000 && alarmAt == Some(ms + 61_000)
    {
      if params.Some? {
        return false;
      }
      params := Some(p);
      expiresUnclaimedAt := ms + UNCLAIMED_TTL;
      alarmAt := Some(expiresUnclaimedAt + 1000);
      return true;
    }

    method ClaimTicket(ms: nat, user: Bytes) returns (ok: bool)
      modifies this
      ensures State() == Step(old(State()), At(ms, Claim(user)))
      ensures Granted(ok) == Answer(old(State()), At(ms, Claim(user)))
    {
      if params.None? || claimed || torndown {
        return false;
      }
      if params.value.owner != user {
        return false;
      }
      if ms > expiresUnclaimedAt {
        TearDown();
        return false;
      }
      claimed := true;
      return true;
    }

    method OpenSocket(ms: nat, upgrade: bool) returns (code: nat)
      modifies this
      ensures State() == Step(old(State()), At(ms, Fetch(upgrade)))
      ensures Status(code) == Answer(old(State()), At(ms, Fetch(upgrade)))
      ensures code == if !upgrade then 426 else if old(params).None? || old(socket) then 409 else 101
      ensures code == 101 ==> socket && startedAt == lastActivity == ms && alarmAt == Some(ms + 30_000)
                              && connecting == old(connecting) + [old(params).value]
    {
      if !upgrade {
        return 426;
      }
      if params.None? {
        return 409;
      }
      if socket {
        return 409;
      }
      socket := true;
      startedAt := ms;
      lastActivity := startedAt;
      alarmAt := Some(ms + ALARM_INTERVAL);
      connecting := connecting + [params.value];
      return 101;
    }

    method ConnectSettled(ms: nat, ok: bool)
      modifies this
      ensures State() == Step(old(State()), At(ms, if ok then Connected else ConnectFailed))
      ensures ok && old(connecting) != [] ==>
                ssh && params == Some(Params(old(connecting)[0].owner, [])) && connecting == old(connecting)[1..]
    {
      if connecting == [] {
        return;
      }
      var captured := connecting[0];
      connecting := connecting[1..];
      if ok {
        ssh := true;
        params := Some(captured.(credential := []));
      } else {
        TearDown();
      }
    }

    method AlarmFires(ms: nat)
      requires alarmAt.Some?
      modifies this
      ensures State() == Step(old(State()), At(ms, Alarm))
      ensures !torndown ==>
                alarmAt == Some(if socket then ms + 30_000 else expiresUnclaimedAt + 1_000)
    {
      alarmAt := None;
      if torndown {
        return;
      }
      if !socket {
        if ms > expiresUnclaimedAt {
          TearDown();
        } else {
          alarmAt := Some(expiresUnclaimedAt + 1000);
        }
        return;
      }
      if ms - lastActivity > IDLE_TIMEOUT {
        TearDown();
        return;
      }
      if ms - startedAt > MAX_SESSION {
        TearDown();
        return;
      }
      alarmAt := Some(ms + ALARM_INTERVAL);
    }

    method AskAboutHostKey(ms: nat)
      modifies this
      ensures State() == Step(old(State()), At(ms, AskHostKey)) == old(State()).(asking := true)
    {
      asking := true;
    }

    /** The browser answers, or the two minutes it has for that run out. */
    method DecideHostKey(ms: nat)
      modifies this
      ensures State() == Step(old(State()), At(ms, AnswerHostKey)) == old(State()).(asking := false)
    {
      asking := false;
    }

    method OnMessage(ms: nat)
      modifies this
      ensures State() == Step(old(State()), At(ms, Message))
    {
      lastActivity := ms;
    }

    method SendBinary(ms: nat)
      modifies this
      ensures State() == Step(old(State()), At(ms, Output))
    {
      lastActivity := ms;
    }

    method TearDown()
      modifies this
      ensures State() == Teardown(old(State())) && torndown
      ensures !old(torndown) ==> params.None? && !ssh && !socket && !asking && alarmAt.None?
    {
      if torndown {
        return;
      }
      torndown := true;
      asking := false;
      ssh := false;
      params := None;
      socket := false;
      alarmAt := None;
    }
  }

  // ---------------------------------------------------------------------
  // Claims

  /** Claims granted in a run, latest last. */
  function Grants(s: Session, events: seq<Event>): seq<Event> {
    if events == [] then []
    else
      var before, e := events[..|events| - 1], events[|events| - 1];
      Grants(s, before) + if Answer(Run(s, before), e) == Granted(true) then [e] else []
  }

  /** The first attempt to configure, the only one a live object accepts. */
  function FirstConfigure(events: seq<Event>): Option<Event> {
    if events == [] then None
    else
      var before, e := events[..|events| - 1], events[|events| - 1];
      var first := FirstConfigure(before);
      if first.None? && e.op.Configure? then Some(e) else first
  }

  /** A live object belongs to whoever it was first configured for, with the deadline set then. */
  ghost predicate Ticketed(params: Option<Params>, connecting: seq<Params>, deadline: int, first: Option<Event>) {
    match first
    case None => params == None && connecting == []
    case Some(e) =>
      && e.op.Configure? && params.Some?
      && params.value.owner == e.op.params.owner
      && deadline == e.ms + UNCLAIMED_TTL
      && forall p <- connecting :: p.owner == e.op.params.owner
  }

  /** Only Fetch, Connected and ConnectFailed touch the connects in flight. */
  lemma StepKeepsTicket(s: Session, e: Event, first: Option<Event>)
    requires !s.torndown ==> Ticketed(s.params, s.connecting, s.expiresUnclaimedAt, first)
    ensures var s' := Step(s, e);
            !s'.torndown ==>
              Ticketed(s'.params, s'.connecting, s'.expiresUnclaimedAt,
                       if first.None? && e.op.Configure? then Some(e) else first)
  {
    if !s.torndown {
      if e.op.Fetch? || e.op.Connected? || e.op.ConnectFailed? {
        ConnectsKeepTicket(s, e, first);
      } else if e.op.Claim? || e.op.Gone? || e.op.Alarm? {
        TicketUntouched(s, e);
      }
    }
  }

  lemma TicketUntouched(s: Session, e: Event)
    requires e.op.Claim? || e.op.Gone? || e.op.Alarm?
    ensures var s' := Step(s, e);
            s'.torndown || (s'.params == s.params && s'.connecting == s.connecting
                            && s'.expiresUnclaimedAt == s.expiresUnclaimedAt)
  {
  }

  lemma ConnectsKeepTicket(s: Session, e: Event, first: Option<Event>)
    requires !s.torndown && Ticketed(s.params, s.connecting, s.expiresUnclaimedAt, first)
    requires e.op.Fetch? || e.op.Connected? || e.op.ConnectFailed?
    ensures var s' := Step(s, e);
            !s'.torndown ==> Ticketed(s'.params, s'.connecting, s'.expiresUnclaimedAt, first)
  {
  }

  lemma StepClaims(s: Session, e: Event)
    ensures Step(s, e).claimed <==> s.claimed || Answer(s, e) == Granted(true)
    ensures s.torndown ==> Step(s, e).torndown
  {
  }

  lemma {:induction false} TicketAlways(events: seq<Event>)
    ensures var s := Run(CREATED, events);
            && (!s.torndown ==> Ticketed(s.params, s.connecting, s.expiresUnclaimedAt, FirstConfigure(events)))
            && (s.claimed <==> Grants(CREATED, events) != [])
  {
    if events != [] {
      var before, e := events[..|events| - 1], events[|events| - 1];
      TicketAlways(before);
      StepKeepsTicket(Run(CREATED, before), e, FirstConfigure(before));
      StepClaims(Run(CREATED, before), e);
    }
  }

  /**
   * After any run, a claim is granted exactly when none was granted before,
   * the object is live, and the claimant is the user it was first configured
   * for, no later than a minute after.
   */
  lemma ClaimGrantedExactly(events: seq<Event>, ms: nat, user: Bytes)
    ensures Answer(Run(CREATED, events), At(ms, Claim(user))) == Granted(true)
      <==> && Grants(CREATED, events) == []
           && !Run(CREATED, events).torndown
           && FirstConfigure(events).Some?
           && FirstConfigure(events).value.op.Configure?
           && FirstConfigure(events).value.op.params.owner == user
           && ms <= FirstConfigure(events).value.ms + 60_000
  {
    TicketAlways(events);
  }

  /** A ticket is handed over at most once, whatever happens to the object. */
  lemma {:induction false} ClaimedOnce(events: seq<Event>)
    ensures |Grants(CREATED, events)| <= 1
    ensures forall g <- Grants(CREATED, events) :: g.op.Claim?
  {
    if events != [] {
      var before, e := events[..|events| - 1], events[|events| - 1];
      ClaimedOnce(before);
      TicketAlways(before);
      assert Answer(Run(CREATED, before), e) == Granted(true) ==> e.op.Claim? && !Run(CREATED, before).claimed;
    }
  }

  // ---------------------------------------------------------------------
  // Alarms

  ghost predicate Timed(events: seq<Event>) {
    forall i, j | 0 <= i < j < |events| :: events[i].ms <= events[j].ms
  }

  /** Nothing happens more than slack after a pending alarm was due without that alarm having fired. */
  ghost predicate AlarmsFireBy(events: seq<Event>, slack: nat) {
    forall i | 0 <= i < |events| :: NotLate(Run(CREATED, events[..i]).alarm, events[i].ms, slack)
  }

  ghost predicate NotLate(alarm: Option<int>, ms: nat, slack: nat) {
    alarm.Some? ==> ms <= alarm.value + slack
  }

  function LastTime(events: seq<Event>): nat {
    if events == [] then 0 else events[|events| - 1].ms
  }

  /** A live session is watched by an alarm that comes in time for each of its limits. */
  ghost predicate Watched(s: Session, now: int) {
    s.torndown || WatchedBy(s.params.Some?, s.socket, s.connecting != [], s.startedAt, s.lastActivity,
                            s.expiresUnclaimedAt, s.alarm, now)
  }

  ghost predicate WatchedBy(configured: bool, open: bool, connecting: bool, started: int, active: int,
                            deadline: int, alarm: Option<int>, now: int) {
    && (open || connecting ==> configured && open)
    && (configured <==> alarm.Some?)
    && (configured && !open ==> alarm.value == deadline + 1000)
    && (open ==>
          && alarm.value <= started + MAX_SESSION + ALARM_INTERVAL
          && alarm.value <= active + IDLE_TIMEOUT + ALARM_INTERVAL
          && active <= now)
  }

  /** The alarm finds the session within its limits and rearms, or tears it down. */
  lemma AlarmKeepsWatched(s: Session, now: int, ms: nat)
    requires Watched(s, now) && now <= ms && s.alarm.Some?
    ensures Watched(OnAlarm(s, ms), ms)
  {
  }

  lemma OpeningKeepsWatched(s: Session, now: int, e: Event)
    requires Watched(s, now) && now <= e.ms && (e.op.Configure? || e.op.Fetch?)
    ensures Watched(Step(s, e), e.ms)
  {
  }

  lemma ConnectKeepsWatched(s: Session, now: int, e: Event)
    requires Watched(s, now) && now <= e.ms && (e.op.Connected? || e.op.ConnectFailed?)
    ensures Watched(Step(s, e), e.ms)
  {
  }

  lemma ClaimKeepsWatched(s: Session, now: int, e: Event)
    requires Watched(s, now) && now <= e.ms && (e.op.Claim? || e.op.Gone?)
    ensures Watched(Step(s, e), e.ms)
  {
  }

  lemma StepKeepsWatched(s: Session, now: int, e: Event)
    requires Watched(s, now) && now <= e.ms
    ensures Watched(Step(s, e), e.ms)
  {
    if e.op.Configure? || e.op.Fetch? {
      OpeningKeepsWatched(s, now, e);
    } else if e.op.Connected? || e.op.ConnectFailed? {
      ConnectKeepsWatched(s, now, e);
    } else if e.op.Claim? || e.op.Gone? {
      ClaimKeepsWatched(s, now, e);
    } else if e.op.Alarm? && s.alarm.Some? {
      AlarmKeepsWatched(s, now, e.ms);
    }
  }

  lemma {:induction false} AlwaysWatched(events: seq<Event>)
    requires Timed(events)
    ensures Watched(Run(CREATED, events), LastTime(events))
  {
    if events != [] {
      var before := events[..|events| - 1];
      AlwaysWatched(before);
      StepKeepsWatched(Run(CREATED, before), LastTime(before), events[|events| - 1]);
    }
  }

  /** A request that is answered 101, the switch to a WebSocket. */
  predicate Opens(s: Session, e: Event) {
    Answer(s, e) == Status(101)
  }

  /** When the terminal was opened: the first request answered 101. */
  function OpenedAt(events: seq<Event>): Option<nat> {
    if events == [] then None
    else
      var before, e := events[..|events| - 1], events[|events| - 1];
      var first := OpenedAt(before);
      if first.None? && Opens(Run(CREATED, before), e) then Some(e.ms) else first
  }

  /** The latest message from the browser, output from the server, or opening. */
  function LastUse(events: seq<Event>): nat {
    if events == [] then 0
    else
      var before, e := events[..|events| - 1], events[|events| - 1];
      if e.op.Message? || e.op.Output? || Opens(Run(CREATED, before), e) then e.ms else LastUse(before)
  }

  /** The clocks of the object are those of the events: neither is set by anything else. */
  ghost predicate Clocked(torndown: bool, socket: bool, started: int, active: int, first: Option<nat>, used: nat) {
    active == used && (!torndown ==> (socket <==> first.Some?) && (socket ==> started == first.value))
  }

  lemma StepKeepsClocked(s: Session, e: Event, first: Option<nat>, used: nat)
    requires Clocked(s.torndown, s.socket, s.startedAt, s.lastActivity, first, used)
    ensures var s' := Step(s, e);
            Clocked(s'.torndown, s'.socket, s'.startedAt, s'.lastActivity,
                    if first.None? && Opens(s, e) then Some(e.ms) else first,
                    if e.op.Message? || e.op.Output? || Opens(s, e) then e.ms else used)
  {
  }

  lemma {:induction false} AlwaysClocked(events: seq<Event>)
    ensures var s := Run(CREATED, events);
            Clocked(s.torndown, s.socket, s.startedAt, s.lastActivity, OpenedAt(events), LastUse(events))
  {
    if events != [] {
      var before := events[..|events| - 1];
      AlwaysClocked(before);
      StepKeepsClocked(Run(CREATED, before), events[|events| - 1], OpenedAt(before), LastUse(before));
    }
  }

  /**
   * If no alarm fires more than slack late, a session that is still live when
   * some event arrives is within slack of its limits: 61 s past its first
   * configuration if it was never opened, and otherwise the longest duration
   * from the request that opened it and the idle limit from its last use, each
   * plus one alarm interval. While it is live it has an alarm pending exactly
   * when it is configured.
   */
  lemma TornDownInTime(events: seq<Event>, e: Event, slack: nat)
    requires Timed(events + [e]) && AlarmsFireBy(events + [e], slack)
    ensures var s := Run(CREATED, events);
            !s.torndown ==>
              && (s.alarm.Some? <==> FirstConfigure(events).Some?)
              && (FirstConfigure(events).Some? && OpenedAt(events).None? ==>
                    e.ms <= FirstConfigure(events).value.ms + 61_000 + slack)
              && (OpenedAt(events).Some? ==>
                    && e.ms <= OpenedAt(events).value + 3_600_000 + 30_000 + slack
                    && e.ms <= LastUse(events) + 600_000 + 30_000 + slack)
  {
    var longer := events + [e];
    forall i, j | 0 <= i < j < |events|
      ensures events[i].ms <= events[j].ms
    {
      assert longer[i] == events[i] && longer[j] == events[j];
    }
    assert longer[..|events|] == events && longer[|events|] == e;
    AlwaysWatched(events);
    AlwaysClocked(events);
    TicketAlways(events);
  }

  // ---------------------------------------------------------------------
  // When it is torn down

  /** The connects under way: one for each request answered 101 that has not settled. */
  function Connects(events: seq<Event>): nat {
    if events == [] then 0
    else
      var before, e := events[..|events| - 1], events[|events| - 1];
      var n := Connects(before);
      if Opens(Run(CREATED, before), e) then n + 1
      else if (e.op.Connected? || e.op.ConnectFailed?) && n > 0 then n - 1
      else n
  }

  /** Past the minute it has to be opened in, or, once open, ten minutes unused or an hour old. */
  predicate Expired(first: Event, start: Option<nat>, used: int, ms: nat) {
    match start
    case None => ms > first.ms + 60_000
    case Some(at) => ms - used > 600_000 || ms - at > 3_600_000
  }

  /**
   * This event is to bring the object down: the browser leaves, a connect
   * fails, the owner claims too late, or an alarm finds it past a limit.
   */
  predicate Ends(
    first: Option<Event>, start: Option<nat>, used: int, granted: bool, connects: nat, e: Event)
  {
    match e.op
    case Gone => true
    case ConnectFailed => connects > 0
    case Claim(user) =>
      && first.Some? && first.value.op.Configure? && first.value.op.params.owner == user
      && !granted && e.ms > first.value.ms + 60_000
    case Alarm => first.Some? && Expired(first.value, start, used, e.ms)
    case _ => false
  }

  predicate Over(events: seq<Event>) {
    events != []
    && (var before, e := events[..|events| - 1], events[|events| - 1];
        || Over(before)
        || Ends(FirstConfigure(before), OpenedAt(before), LastUse(before), Grants(CREATED, before) != [],
                Connects(before), e))
  }

  /** A live object has an alarm pending exactly when it is configured, and connects only then. */
  ghost predicate Armed(s: Session, connects: nat) {
    && |s.connecting| == connects
    && (!s.torndown ==> (s.params.Some? <==> s.alarm.Some?) && (s.connecting != [] ==> s.params.Some?))
  }

  lemma StepKeepsArmed(s: Session, e: Event, connects: nat)
    requires Armed(s, connects)
    ensures Armed(Step(s, e), if Opens(s, e) then connects + 1
                              else if (e.op.Connected? || e.op.ConnectFailed?) && connects > 0 then connects - 1
                              else connects)
  {
    if e.op.Fetch? || e.op.Configure? {
      OpeningKeepsArmed(s, e, connects);
    } else if e.op.Connected? || e.op.ConnectFailed? {
      ConnectKeepsArmed(s, e, connects);
    }
  }

  lemma OpeningKeepsArmed(s: Session, e: Event, connects: nat)
    requires Armed(s, connects) && (e.op.Fetch? || e.op.Configure?)
    ensures Armed(Step(s, e), if Opens(s, e) then connects + 1 else connects)
  {
  }

  lemma ConnectKeepsArmed(s: Session, e: Event, connects: nat)
    requires Armed(s, connects) && (e.op.Connected? || e.op.ConnectFailed?)
    ensures Armed(Step(s, e), if connects > 0 then connects - 1 else connects)
  {
  }

  lemma StepEnds(s: Session, e: Event, first: Option<Event>, start: Option<nat>, used: nat, connects: nat)
    requires !s.torndown && Armed(s, connects)
    requires Ticketed(s.params, s.connecting, s.expiresUnclaimedAt, first)
    requires Clocked(s.torndown, s.socket, s.startedAt, s.lastActivity, start, used)
    ensures Step(s, e).torndown <==> Ends(first, start, used, s.claimed, connects, e)
  {
  }

  lemma {:induction false} AlwaysArmed(events: seq<Event>)
    ensures Armed(Run(CREATED, events), Connects(events))
  {
    if events != [] {
      var before := events[..|events| - 1];
      AlwaysArmed(before);
      StepKeepsArmed(Run(CREATED, before), events[|events| - 1], Connects(before));
    }
  }

  /**
   * After any run the object is torn down exactly if one of these came: the
   * browser left, a connect failed, the owner claimed more than a minute after
   * the configuration, or an alarm found it unopened a minute after it,
   * unused for ten minutes, or open for an hour.
   */
  lemma {:induction false} TornDownExactly(events: seq<Event>)
    ensures Run(CREATED, events).torndown <==> Over(events)
  {
    if events != [] {
      var before, e := events[..|events| - 1], events[|events| - 1];
      var s := Run(CREATED, before);
      TornDownExactly(before);
      StepClaims(s, e);
      if !s.torndown {
        AlwaysArmed(before);
        AlwaysClocked(before);
        TicketAlways(before);
        StepEnds(s, e, FirstConfigure(before), OpenedAt(before), LastUse(before), Connects(before));
      }
    }
  }

  // ---------------------------------------------------------------------
  // After teardown

  ghost predicate ConfiguredAgain(events: seq<Event>) {
    exists e <- events :: e.op.Configure?
  }

  /** A connect that had not settled before succeeds during the run. */
  ghost predicate LateConnect(s: Session, events: seq<Event>) {
    exists i | 0 <= i < |events| :: events[i].op.Connected? && Run(s, events[..i]).connecting != []
  }

  lemma LateConnectGrows(s: Session, before: seq<Event>, e: Event)
    ensures LateConnect(s, before + [e])
      <==> LateConnect(s, before) || (e.op.Connected? && Run(s, before).connecting != [])
  {
    var events := before + [e];
    forall i | 0 <= i <= |before|
      ensures events[..i] == before[..i] && (i < |before| ==> events[i] == before[i])
    {
    }
    assert before[..|before|] == before;
    if LateConnect(s, before) {
      var i :| 0 <= i < |before| && before[i].op.Connected? && Run(s, before[..i]).connecting != [];
      assert events[i].op.Connected? && Run(s, events[..i]).connecting != [];
    }
    if e.op.Connected? && Run(s, before).connecting != [] {
      assert events[|before|].op.Connected? && Run(s, events[..|before|]).connecting != [];
    }
  }

  lemma StepAfterTeardown(s: Session, e: Event)
    requires s.torndown
    ensures var s' := Step(s, e);
            && s'.torndown
            && (s'.params.Some? <==> s.params.Some? || e.op.Configure? || (e.op.Connected? && s.connecting != []))
            && (s'.ssh <==> s.ssh || (e.op.Connected? && s.connecting != []))
            && (s'.connecting != [] ==> s.connecting != [] || s.params.Some?)
  {
  }

  /**
   * Teardown clears the parameters and the client. The object comes to hold
   * parameters again exactly when it is configured anew or a connect still
   * pending at teardown succeeds, and a client exactly in the second case.
   */
  lemma {:induction false} HeldAfterTeardown(s: Session, events: seq<Event>)
    requires s.torndown && s.params.None? && !s.ssh
    ensures Run(s, events).torndown
    ensures Run(s, events).params.Some? <==> ConfiguredAgain(events) || LateConnect(s, events)
    ensures Run(s, events).ssh <==> LateConnect(s, events)
  {
    if events != [] {
      var before, e := events[..|events| - 1], events[|events| - 1];
      assert events == before + [e];
      HeldAfterTeardown(s, before);
      LateConnectGrows(s, before, e);
      StepAfterTeardown(Run(s, before), e);
    }
  }

  lemma RunPush(s: Session, events: seq<Event>, e: Event)
    ensures Run(s, events + [e]) == Step(Run(s, events), e)
  {
    assert (events + [e])[..|events|] == events;
  }

  /** It happens: the browser leaves while the connect is under way, and the connect then succeeds. */
  lemma TeardownUndone(p: Params, ms: nat)
    ensures var events := [At(ms, Configure(p)), At(ms, Fetch(true)), At(ms, Gone), At(ms, Connected)];
            var s := Run(CREATED, events);
            && Run(CREATED, events[..3]).torndown && Run(CREATED, events[..3]).params.None?
            && s.torndown && s.params == Some(p.(credential := [])) && s.ssh
  {
    var events := [At(ms, Configure(p)), At(ms, Fetch(true)), At(ms, Gone), At(ms, Connected)];
    RunPush(CREATED, [], events[0]);
    RunPush(CREATED, events[..1], events[1]);
    RunPush(CREATED, events[..2], events[2]);
    RunPush(CREATED, events[..3], events[3]);
    assert [] + [events[0]] == events[..1] && events[..1] + [events[1]] == events[..2];
    assert events[..2] + [events[2]] == events[..3] && events[..3] + [events[3]] == events;
  }

  /** With no connect pending at teardown and no new configuration, nothing is held ever again. */
  lemma {:induction false} NothingHeldAfterTeardown(s: Session, events: seq<Event>)
    requires !s.torndown && s.connecting == [] && !ConfiguredAgain(events)
    ensures var s' := Run(Teardown(s), events);
            s'.torndown && s'.params.None? && !s'.ssh && s'.connecting == []
  {
    if events != [] {
      var before, e := events[..|events| - 1], events[|events| - 1];
      assert events == before + [e];
      NothingHeldAfterTeardown(s, before);
      StepAfterTeardown(Run(Teardown(s), before), e);
    }
  }
}
