/**
 * The rate limiter of src/rate-limit.ts: a fixed window, a decaying strike
 * score with escalating blocks, and the alarm that evicts stale records. The
 * clock is in milliseconds and never runs backwards; calls are atomic, as a
 * Durable Object makes them.
 */
module RateLimits {
  import opened Wrappers

  /** Strikes are forgotten after a quiet day. */
  const DECAY := 24 * 60 * 60
  const DAY := 24 * 60 * 60

  function BlockDurationFor(strikes: int): int {
    if strikes >= 50 then 24 * 60 * 60
    else if strikes >= 25 then 60 * 60
    else if strikes >= 10 then 5 * 60
    else 0
  }

  datatype Window = Window(count: int, resetAt: int)

  datatype Strikes = Strikes(count: int, until: int, lastAt: int)

  datatype RateVerdict = RateVerdict(allowed: bool, retryAfter: int)

  datatype BlockVerdict = BlockVerdict(blocked: bool, retryAfter: int, strikes: int)

  /** What the object has in storage, and the time of its pending alarm in milliseconds. */
  datatype Store = Store(w: Option<Window>, s: Option<Strikes>, alarm: Option<int>)

  const EMPTY := Store(None, None, None)

  function Seconds(ms: nat): nat {
    ms / 1000
  }

  function Max(a: int, b: int): int {
    if a < b then b else a
  }

  // ---------------------------------------------------------------------
  // One call

  datatype Op =
    | Hit(limit: int, windowSeconds: int)
    | Strike(weight: int)
    | BlockStatus
    | Reset
    | Pardon
    | Alarm

  datatype Event = At(ms: nat, op: Op)

  datatype Reply = Rate(rate: RateVerdict) | Block(block: BlockVerdict) | Done

  function Scheduled(alarm: Option<int>, notBefore: int): Option<int> {
    var target := (notBefore + 60) * 1000;
    if alarm.None? || alarm.value < target then Some(target) else alarm
  }

  function OnHit(st: Store, now: int, limit: int, windowSeconds: int): (Store, RateVerdict) {
    var current := if st.w.Some? then st.w.value else Window(0, 0);
    var ready := if current.resetAt <= now then Window(0, now + windowSeconds) else current;
    var window := ready.(count := ready.count + 1);
    (st.(w := Some(window), alarm := Scheduled(st.alarm, window.resetAt)),
     if window.count > limit then RateVerdict(false, Max(1, window.resetAt - now)) else RateVerdict(true, 0))
  }

  predicate Decayed(s: Strikes, now: int) {
    now - s.lastAt > DECAY
  }

  function Struck(s: Option<Strikes>, now: int, weight: int): Strikes {
    var current := if s.Some? then s.value else Strikes(0, 0, 0);
    var count := (if Decayed(current, now) then 0 else current.count) + weight;
    var duration := BlockDurationFor(count);
    Strikes(count, if duration > 0 then Max(current.until, now + duration) else current.until, now)
  }

  function StatusOf(s: Option<Strikes>, now: int): BlockVerdict {
    if s.None? then BlockVerdict(false, 0, 0)
    else
      BlockVerdict(s.value.until > now, Max(0, s.value.until - now),
                   if Decayed(s.value, now) then 0 else s.value.count)
  }

  function OnStrike(st: Store, now: int, weight: int): (Store, BlockVerdict) {
    var s := Struck(st.s, now, weight);
    (st.(s := Some(s), alarm := Scheduled(st.alarm, Max(s.until, now + DECAY))),
     BlockVerdict(s.until > now, Max(0, s.until - now), s.count))
  }

  predicate StaleWindow(w: Window, now: int) {
    w.resetAt <= now
  }

  predicate StaleStrikes(s: Strikes, now: int) {
    s.until <= now && Decayed(s, now)
  }

  /** Firing consumes the pending alarm; the handler sets another when something is left. */
  function OnAlarm(st: Store, ms: nat): Store {
    var now := Seconds(ms);
    var w := if st.w.Some? && StaleWindow(st.w.value, now) then None else st.w;
    var s := if st.s.Some? && StaleStrikes(st.s.value, now) then None else st.s;
    Store(w, s, if w.Some? || s.Some? then Some(ms + DECAY * 1000) else None)
  }

  function Apply(st: Store, e: Event): (Store, Reply) {
    var now := Seconds(e.ms);
    match e.op
    case Hit(limit, ws) => (var (st', v) := OnHit(st, now, limit, ws); (st', Rate(v)))
    case Strike(weight) => (var (st', v) := OnStrike(st, now, weight); (st', Block(v)))
    case BlockStatus => (st, Block(StatusOf(st.s, now)))
    case Reset => (st.(w := None), Done)
    case Pardon => (st.(s := None), Done)
    case Alarm => (OnAlarm(st, e.ms), Done)
  }

  /** The Durable Object: reads a record, changes it, puts it back. */
  class RateLimiter {
    var w: Option<Window>
    var s: Option<Strikes>
    var alarmAt: Option<int>

    function State(): Store
      reads this
    {
      Store(w, s, alarmAt)
    }

    constructor ()
      ensures State() == EMPTY
    {
      w, s, alarmAt := None, None, None;
    }

    method HitNow(ms: nat, limit: int, windowSeconds: int) returns (v: RateVerdict)
      modifies this
      ensures (State(), Rate(v)) == Apply(old(State()), At(ms, Hit(limit, windowSeconds)))
    {
      var now := Seconds(ms);
      var window := if w.Some? then w.value else Window(0, 0);
      if window.resetAt <= now {
        window := Window(0, now + windowSeconds);
      }
      window := window.(count := window.count + 1);
      w := Some(window);
      ScheduleCleanup(window.resetAt);
      if window.count > limit {
        v := RateVerdict(false, Max(1, window.resetAt - now));
      } else {
        v := RateVerdict(true, 0);
      }
    }

    method StrikeNow(ms: nat, weight: int) returns (v: BlockVerdict)
      modifies this
      ensures (State(), Block(v)) == Apply(old(State()), At(ms, Strike(weight)))
      ensures v.strikes == weight + if old(s).Some? && ms / 1000 - old(s).value.lastAt <= 86_400
                                    then old(s).value.count else 0
      ensures s.Some? && s.value.count == v.strikes && s.value.lastAt == ms / 1000
      ensures old(s).None? || old(s).value.until <= ms / 1000 ==> v.retryAfter == Sentence(v.strikes)
    {
      var now := Seconds(ms);
      var current := if s.Some? then s.value else Strikes(0, 0, 0);
      if now - current.lastAt > DECAY {
        current := current.(count := 0);
      }
      current := current.(count := current.count + weight, lastAt := now);
      var duration := BlockDurationFor(current.count);
      if duration > 0 {
        current := current.(until := Max(current.until, now + duration));
      }
      s := Some(current);
      ScheduleCleanup(Max(current.until, now + DECAY));
      v := BlockVerdict(current.until > now, Max(0, current.until - now), current.count);
    }

    method BlockStatusNow(ms: nat) returns (v: BlockVerdict)
      ensures (State(), Block(v)) == Apply(State(), At(ms, BlockStatus))
    {
      var now := Seconds(ms);
      if s.None? {
        return BlockVerdict(false, 0, 0);
      }
      var current := s.value;
      v := BlockVerdict(current.until > now, Max(0, current.until - now),
                        if now - current.lastAt > DECAY then 0 else current.count);
    }

    method ResetWindow(ms: nat)
      modifies this
      ensures State() == Apply(old(State()), At(ms, Reset)).0
    {
      w := None;
    }

    method PardonStrikes(ms: nat)
      modifies this
      ensures State() == Apply(old(State()), At(ms, Pardon)).0
    {
      s := None;
    }

    method ScheduleCleanup(notBefore: int)
      modifies this`alarmAt
      ensures alarmAt == Scheduled(old(alarmAt), notBefore)
      ensures old(alarmAt).Some? && old(alarmAt).value >= 1000 * notBefore + 60_000 ==> alarmAt == old(alarmAt)
      ensures old(alarmAt).None? || old(alarmAt).value < 1000 * notBefore + 60_000 ==>
                alarmAt == Some(1000 * notBefore + 60_000)
    {
      var target := (notBefore + 60) * 1000;
      if alarmAt.None? || alarmAt.value < target {
        alarmAt := Some(target);
      }
    }

    method AlarmFires(ms: nat)
      modifies this
      ensures State() == Apply(old(State()), At(ms, Alarm)).0
      ensures w == if old(w).Some? && old(w).value.resetAt <= ms / 1000 then None else old(w)
      ensures s == if old(s).Some? && old(s).value.until <= ms / 1000 && ms / 1000 - old(s).value.lastAt > 86_400
                   then None else old(s)
      ensures alarmAt == if w == None && s == None then None else Some(ms + 86_400_000)
    {
      alarmAt := None;
      var now := Seconds(ms);
      if w.Some? && w.value.resetAt <= now {
        w := None;
      }
      if s.Some? && s.value.until <= now && now - s.value.lastAt > DECAY {
        s := None;
      }
      if w.Some? || s.Some? {
        alarmAt := Some(ms + DECAY * 1000);
      }
    }
  }

  // ---------------------------------------------------------------------
  // Runs

  function Run(st: Store, events: seq<Event>): Store {
    if events == [] then st
    else Apply(Run(st, events[..|events| - 1]), events[|events| - 1]).0
  }

  /** The answers callers get; an alarm answers nobody. */
  function Replies(st: Store, events: seq<Event>): seq<Reply> {
    if events == [] then []
    else
      var before, e := events[..|events| - 1], events[|events| - 1];
      Replies(st, before) + if e.op.Alarm? then [] else [Apply(Run(st, before), e).1]
  }

  function WithoutAlarms(events: seq<Event>): seq<Event> {
    if events == [] then []
    else
      var e := events[|events| - 1];
      WithoutAlarms(events[..|events| - 1]) + if e.op.Alarm? then [] else [e]
  }

  ghost predicate Timed(events: seq<Event>) {
    forall i, j | 0 <= i < j < |events| :: events[i].ms <= events[j].ms
  }

  function LastTime(events: seq<Event>): nat {
    if events == [] then 0 else Seconds(events[|events| - 1].ms)
  }

  lemma TimedPrefix(events: seq<Event>)
    requires Timed(events) && events != []
    ensures Timed(events[..|events| - 1])
    ensures LastTime(events[..|events| - 1]) <= LastTime(events)
  {
    if |events| > 1 {
      assert events[|events| - 2].ms <= events[|events| - 1].ms;
    }
  }

  // ---------------------------------------------------------------------
  // Eviction is invisible

  ghost predicate SpentWindow(w: Option<Window>, now: int) {
    w.None? || StaleWindow(w.value, now)
  }

  ghost predicate SpentStrikes(s: Option<Strikes>, now: int) {
    s.None? || StaleStrikes(s.value, now)
  }

  /** No caller can tell a from b at any time from now on: blocks that are over need not agree on when. */
  ghost predicate Similar(a: Store, b: Store, now: int) {
    && (a.w == b.w || (SpentWindow(a.w, now) && SpentWindow(b.w, now)))
    && (|| (SpentStrikes(a.s, now) && SpentStrikes(b.s, now))
        || (&& a.s.Some? && b.s.Some?
            && a.s.value.count == b.s.value.count && a.s.value.lastAt == b.s.value.lastAt
            && (a.s.value.until == b.s.value.until || (a.s.value.until <= now && b.s.value.until <= now))))
  }

  lemma SimilarStep(a: Store, b: Store, now: int, e: Event)
    requires Similar(a, b, now) && now <= Seconds(e.ms) && !e.op.Alarm?
    ensures Apply(a, e).1 == Apply(b, e).1
    ensures Similar(Apply(a, e).0, Apply(b, e).0, Seconds(e.ms))
  {
  }

  /** The alarm evicts only what nobody can tell. */
  lemma SimilarAlarm(a: Store, b: Store, now: int, ms: nat)
    requires Similar(a, b, now) && now <= Seconds(ms)
    ensures Similar(OnAlarm(a, ms), b, Seconds(ms))
  {
  }

  lemma SimilarNext(a: Store, b: Store, now: int, e: Event)
    requires Similar(a, b, now) && now <= Seconds(e.ms)
    ensures Similar(Apply(a, e).0, if e.op.Alarm? then b else Apply(b, e).0, Seconds(e.ms))
    ensures !e.op.Alarm? ==> Apply(a, e).1 == Apply(b, e).1
  {
    if e.op.Alarm? {
      SimilarAlarm(a, b, now, e.ms);
    } else {
      SimilarStep(a, b, now, e);
    }
  }

  lemma Push(st: Store, events: seq<Event>, e: Event)
    ensures Run(st, events + [e]) == Apply(Run(st, events), e).0
    ensures Replies(st, events + [e])
         == Replies(st, events) + if e.op.Alarm? then [] else [Apply(Run(st, events), e).1]
  {
    assert (events + [e])[..|events|] == events;
  }

  /** A limiter that evicts whenever its alarm happens to fire answers every call as one that never does. */
  lemma {:induction false} EvictionIsInvisible(a: Store, b: Store, events: seq<Event>)
    requires Similar(a, b, 0) && Timed(events)
    ensures Replies(a, events) == Replies(b, WithoutAlarms(events))
    ensures Similar(Run(a, events), Run(b, WithoutAlarms(events)), LastTime(events))
  {
    if events != [] {
      var before, e := events[..|events| - 1], events[|events| - 1];
      TimedPrefix(events);
      EvictionIsInvisible(a, b, before);
      SimilarNext(Run(a, before), Run(b, WithoutAlarms(before)), LastTime(before), e);
      if e.op.Alarm? {
        assert WithoutAlarms(events) == WithoutAlarms(before);
      } else {
        Push(b, WithoutAlarms(before), e);
      }
    }
  }

  // ---------------------------------------------------------------------
  // The alarm

  /** Data in storage has an alarm pending that comes once all of it is stale. */
  ghost predicate AlarmCovers(st: Store) {
    && (st.w.Some? ==> st.alarm.Some? && st.alarm.value >= (st.w.value.resetAt + 60) * 1000)
    && (st.s.Some? ==>
          && st.alarm.Some?
          && st.alarm.value >= (Max(st.s.value.until, st.s.value.lastAt + DECAY) + 60) * 1000)
  }

  /** Alarms fire when they are pending, and no earlier than they were set for. */
  ghost predicate AlarmsNotEarly(events: seq<Event>) {
    forall i | 0 <= i < |events| && events[i].op.Alarm? ::
      Run(EMPTY, events[..i]).alarm.Some? && Run(EMPTY, events[..i]).alarm.value <= events[i].ms
  }

  lemma FiringEmptiesStorage(st: Store, ms: nat)
    requires AlarmCovers(st) && st.alarm.Some? && st.alarm.value <= ms
    ensures OnAlarm(st, ms) == EMPTY
  {
    if st.w.Some? {
      assert ms >= (st.w.value.resetAt + 60) * 1000;
    }
    if st.s.Some? {
      assert ms >= (Max(st.s.value.until, st.s.value.lastAt + DECAY) + 60) * 1000;
    }
  }

  lemma NotEarlyPrefix(events: seq<Event>, n: nat)
    requires AlarmsNotEarly(events) && n <= |events|
    ensures AlarmsNotEarly(events[..n])
  {
    forall i | 0 <= i < n && events[i].op.Alarm?
      ensures Run(EMPTY, events[..n][..i]).alarm.Some? && Run(EMPTY, events[..n][..i]).alarm.value <= events[i].ms
    {
      assert events[..n][..i] == events[..i];
    }
  }

  /** In every run storage is covered by an alarm, and one firing clears it completely. */
  lemma {:induction false} AlarmInvariant(events: seq<Event>)
    requires AlarmsNotEarly(events)
    ensures AlarmCovers(Run(EMPTY, events))
    ensures events != [] && events[|events| - 1].op.Alarm? ==> Run(EMPTY, events) == EMPTY
  {
    if events != [] {
      var before, e := events[..|events| - 1], events[|events| - 1];
      NotEarlyPrefix(events, |events| - 1);
      AlarmInvariant(before);
      if e.op.Alarm? {
        FiringEmptiesStorage(Run(EMPTY, before), e.ms);
      }
    }
  }

  // ---------------------------------------------------------------------
  // Strikes by their history

  datatype Blow = Blow(at: int, weight: int)

  /** The strikes since the last pardon, from the calls alone. */
  function Blows(events: seq<Event>): seq<Blow> {
    if events == [] then []
    else
      var before, e := events[..|events| - 1], events[|events| - 1];
      match e.op
      case Strike(weight) => Blows(before) + [Blow(Seconds(e.ms), weight)]
      case Pardon => []
      case _ => Blows(before)
  }

  /** The score after these strikes: one that follows more than a day's quiet starts from nothing. */
  function Points(blows: seq<Blow>): int {
    if blows == [] then 0
    else
      var before, last := blows[..|blows| - 1], blows[|blows| - 1];
      if before != [] && last.at - before[|before| - 1].at <= 86_400 then Points(before) + last.weight else last.weight
  }

  /** Five minutes from 10 points on, an hour from 25, a day from 50. */
  function Sentence(points: int): int {
    if points < 10 then 0 else if points < 25 then 300 else if points < 50 then 3_600 else 86_400
  }

  /** When the last of the blocks these strikes earn is over; 0 if they earn none. */
  function FreeAt(blows: seq<Blow>): int {
    if blows == [] then 0
    else
      var earlier, end := FreeAt(blows[..|blows| - 1]), blows[|blows| - 1].at + Sentence(Points(blows));
      if Sentence(Points(blows)) > 0 && end > earlier then end else earlier
  }

  /** What storage says of these strikes; a record is gone only if nothing could tell. */
  ghost predicate StrikesMatch(s: Option<Strikes>, blows: seq<Blow>, now: int) {
    if s.None? then blows == [] || (now - blows[|blows| - 1].at > 86_400 && FreeAt(blows) <= now)
    else
      && blows != []
      && s.value.count == Points(blows) && s.value.lastAt == blows[|blows| - 1].at <= now
      && Max(s.value.until, s.value.lastAt) == Max(FreeAt(blows), s.value.lastAt)
  }

  lemma StrikeMatches(s: Option<Strikes>, blows: seq<Blow>, last: int, now: nat, weight: int)
    requires StrikesMatch(s, blows, last) && last <= now
    ensures StrikesMatch(Some(Struck(s, now, weight)), blows + [Blow(now, weight)], now)
  {
    var more := blows + [Blow(now, weight)];
    assert more[..|more| - 1] == blows;
  }

  lemma {:induction false} StrikesFollowHistory(events: seq<Event>)
    requires Timed(events)
    ensures StrikesMatch(Run(EMPTY, events).s, Blows(events), LastTime(events))
  {
    if events != [] {
      var before, e := events[..|events| - 1], events[|events| - 1];
      TimedPrefix(events);
      StrikesFollowHistory(before);
      if e.op.Strike? {
        StrikeMatches(Run(EMPTY, before).s, Blows(before), LastTime(before), Seconds(e.ms), e.op.weight);
      }
    }
  }

  lemma HistoryUntil(events: seq<Event>, e: Event)
    requires Timed(events + [e])
    ensures StrikesMatch(Run(EMPTY, events).s, Blows(events), LastTime(events)) && LastTime(events) <= Seconds(e.ms)
  {
    TimedPrefix(events + [e]);
    assert (events + [e])[..|events|] == events;
    StrikesFollowHistory(events);
  }

  lemma StrikeAnswers(st: Store, blows: seq<Blow>, last: int, now: nat, weight: int)
    requires StrikesMatch(st.s, blows, last) && last <= now
    ensures var struck := blows + [Blow(now, weight)];
            OnStrike(st, now, weight).1
            == BlockVerdict(FreeAt(struck) > now, Max(0, FreeAt(struck) - now), Points(struck))
  {
    var struck := blows + [Blow(now, weight)];
    StrikeMatches(st.s, blows, last, now, weight);
    VerdictMatches(Struck(st.s, now, weight), struck, now);
  }

  lemma VerdictMatches(s: Strikes, blows: seq<Blow>, now: nat)
    requires StrikesMatch(Some(s), blows, now) && s.lastAt == now
    ensures (s.until > now <==> FreeAt(blows) > now) && Max(0, s.until - now) == Max(0, FreeAt(blows) - now)
    ensures s.count == Points(blows)
  {
  }

  lemma StatusAnswers(s: Option<Strikes>, blows: seq<Blow>, last: int, now: nat)
    requires StrikesMatch(s, blows, last) && last <= now
    ensures StatusOf(s, now)
         == BlockVerdict(FreeAt(blows) > now, Max(0, FreeAt(blows) - now),
                         if blows == [] || now - blows[|blows| - 1].at > 86_400 then 0 else Points(blows))
  {
  }

  /**
   * After any run, evictions and pardons included, the answers to a strike and
   * to a question are what the times and weights of the strikes since the last
   * pardon alone say.
   */
  lemma AnswersFollowHistory(events: seq<Event>, ms: nat, weight: int)
    requires Timed(events + [At(ms, BlockStatus)])
    ensures var now, blows := Seconds(ms), Blows(events);
            var struck := blows + [Blow(now, weight)];
            && Apply(Run(EMPTY, events), At(ms, Strike(weight))).1
               == Block(BlockVerdict(FreeAt(struck) > now, Max(0, FreeAt(struck) - now), Points(struck)))
            && Apply(Run(EMPTY, events), At(ms, BlockStatus)).1
               == Block(BlockVerdict(FreeAt(blows) > now, Max(0, FreeAt(blows) - now),
                                     if blows == [] || now - blows[|blows| - 1].at > 86_400 then 0
                                     else Points(blows)))
  {
    HistoryUntil(events, At(ms, BlockStatus));
    StrikeAnswers(Run(EMPTY, events), Blows(events), LastTime(events), Seconds(ms), weight);
    StatusAnswers(Run(EMPTY, events).s, Blows(events), LastTime(events), Seconds(ms));
  }

  /** A strike comes only when the key is not blocked. */
  ghost predicate Unblocked(events: seq<Event>) {
    forall i | 0 <= i < |events| && events[i].op.Strike? ::
      !StatusOf(Run(EMPTY, events[..i]).s, Seconds(events[i].ms)).blocked
  }

  lemma UnblockedIsFree(events: seq<Event>)
    requires Timed(events) && Unblocked(events) && events != [] && events[|events| - 1].op.Strike?
    ensures FreeAt(Blows(events[..|events| - 1])) <= Seconds(events[|events| - 1].ms)
  {
    TimedPrefix(events);
    StrikesFollowHistory(events[..|events| - 1]);
  }

  lemma UnblockedPrefix(events: seq<Event>)
    requires Unblocked(events) && events != []
    ensures Unblocked(events[..|events| - 1])
  {
    var before := events[..|events| - 1];
    forall i | 0 <= i < |before| && before[i].op.Strike?
      ensures !StatusOf(Run(EMPTY, before[..i]).s, Seconds(before[i].ms)).blocked
    {
      assert before[..i] == events[..i] && before[i] == events[i];
    }
  }

  /**
   * The answer to a strike that comes unblocked, as sign-in makes it: nothing
   * below 10 points, and from there on the whole of five minutes, an hour or
   * a day, from now.
   */
  lemma SentenceIsServed(events: seq<Event>, ms: nat, weight: int)
    requires Timed(events + [At(ms, Strike(weight))]) && Unblocked(events + [At(ms, Strike(weight))])
    ensures var v := Apply(Run(EMPTY, events), At(ms, Strike(weight))).1;
            && v.Block? && v.block.strikes == Points(Blows(events) + [Blow(Seconds(ms), weight)])
            && (v.block.strikes < 10 ==> !v.block.blocked && v.block.retryAfter == 0)
            && (10 <= v.block.strikes < 25 ==> v.block.blocked && v.block.retryAfter == 300)
            && (25 <= v.block.strikes < 50 ==> v.block.blocked && v.block.retryAfter == 3_600)
            && (50 <= v.block.strikes ==> v.block.blocked && v.block.retryAfter == 86_400)
  {
    var longer := events + [At(ms, Strike(weight))];
    var struck := Blows(events) + [Blow(Seconds(ms), weight)];
    assert longer[..|longer| - 1] == events;
    assert struck[..|struck| - 1] == Blows(events);
    UnblockedIsFree(longer);
    TimedPrefix(longer);
    StrikesFollowHistory(events);
    StrikeMatches(Run(EMPTY, events).s, Blows(events), LastTime(events), Seconds(ms), weight);
  }

  ghost predicate NoPardon(events: seq<Event>) {
    forall e <- events :: !e.op.Pardon?
  }

  /** The strike after the first k, if there is one, waits out what those k have earned. */
  ghost predicate Waits(blows: seq<Blow>, k: nat) {
    0 < k < |blows| ==> blows[k].at >= blows[k - 1].at + Sentence(Points(blows[..k]))
  }

  lemma {:induction false} SentencesAreWaitedOut(events: seq<Event>, k: nat)
    requires Timed(events) && Unblocked(events) && NoPardon(events)
    ensures Waits(Blows(events), k)
    ensures forall b <- Blows(events) :: b.at <= LastTime(events)
  {
    if events != [] {
      var before, e := events[..|events| - 1], events[|events| - 1];
      TimedPrefix(events);
      UnblockedPrefix(events);
      assert e in events && forall b <- before :: b in events;
      SentencesAreWaitedOut(before, k);
      if e.op.Strike? {
        UnblockedIsFree(events);
        var blows := Blows(before);
        if 0 < k < |blows| {
          assert Blows(events)[..k] == blows[..k];
        } else if k == |blows| && k > 0 {
          assert Blows(events)[..k] == blows;
        }
      }
    }
  }

  /**
   * In every run in which strikes come only unblocked and nobody is pardoned,
   * a strike that leaves 10 to 24 points is followed by no other for 300 s,
   * one that leaves 25 to 49 by none for 3,600 s, and one that leaves 50 or
   * more by none for 86,400 s.
   */
  lemma BlocksEscalate(events: seq<Event>, k: nat)
    requires Timed(events) && Unblocked(events) && NoPardon(events) && k + 1 < |Blows(events)|
    ensures var blows := Blows(events);
            var points, quiet := Points(blows[..k + 1]), blows[k + 1].at - blows[k].at;
            && (10 <= points < 25 ==> quiet >= 300)
            && (25 <= points < 50 ==> quiet >= 3_600)
            && (50 <= points ==> quiet >= 86_400)
  {
    SentencesAreWaitedOut(events, k + 1);
  }

  // ---------------------------------------------------------------------
  // Escalation

  /** Every strike weighs at least 2 and comes only when the key was not blocked, as sign-in does it. */
  ghost predicate Gated(events: seq<Event>) {
    forall i | 0 <= i < |events| && events[i].op.Strike? ::
      events[i].op.weight >= 2
      && !StatusOf(Run(EMPTY, events[..i]).s, Seconds(events[i].ms)).blocked
  }

  function StrikesWithin(events: seq<Event>, from: nat): nat {
    if events == [] then 0
    else
      var e := events[|events| - 1];
      StrikesWithin(events[..|events| - 1], from)
      + if e.op.Strike? && from <= Seconds(e.ms) < from + DAY then 1 else 0
  }

  /** What n strikes since from leave behind: a score of 2n, and after 25 of them a day's block. */
  ghost predicate Score(s: Option<Strikes>, from: nat, n: nat, now: int) {
    && (s.Some? ==> s.value.count >= 0 && s.value.lastAt <= now)
    && (n > 0 ==> s.Some? && from <= s.value.lastAt < from + DAY && s.value.count >= 2 * n)
    && (n >= 25 ==> s.value.until >= from + DAY)
  }

  lemma ScoreStep(st: Store, from: nat, n: nat, now: int, e: Event)
    requires Score(st.s, from, n, now) && n <= 25 && now <= Seconds(e.ms) < from + DAY && !e.op.Pardon?
    requires e.op.Strike? ==> e.op.weight >= 2 && !StatusOf(st.s, Seconds(e.ms)).blocked
    ensures var struck := e.op.Strike? && from <= Seconds(e.ms);
            (struck ==> n < 25) && Score(Apply(st, e).0.s, from, if struck then n + 1 else n, Seconds(e.ms))
  {
  }

  lemma {:induction false} EscalationState(events: seq<Event>, from: nat)
    requires Timed(events) && Gated(events) && NoPardon(events)
    ensures StrikesWithin(events, from) <= 25
    ensures LastTime(events) < from + DAY ==>
              Score(Run(EMPTY, events).s, from, StrikesWithin(events, from), LastTime(events))
  {
    if events != [] {
      var before, e := events[..|events| - 1], events[|events| - 1];
      TimedPrefix(events);
      forall i | 0 <= i < |before| && before[i].op.Strike?
        ensures before[i].op.weight >= 2
                && !StatusOf(Run(EMPTY, before[..i]).s, Seconds(before[i].ms)).blocked
      {
        assert before[..i] == events[..i] && before[i] == events[i];
      }
      EscalationState(before, from);
      if LastTime(events) < from + DAY {
        ScoreStep(Run(EMPTY, before), from, StrikesWithin(before, from), LastTime(before), e);
      }
    }
  }

  /** At most 25 strikes land on a key in any day, across decay, alarms and windows. */
  lemma EscalationBound(events: seq<Event>, from: nat)
    requires Timed(events) && Gated(events) && NoPardon(events)
    ensures StrikesWithin(events, from) <= 25
  {
    EscalationState(events, from);
  }

  /** The fastest a gated key can be struck: five at once, then one as each block ends. */
  function AttackTime(k: nat): nat {
    if k < 5 then 0 else if k < 13 then 300 * (k - 4) else 2400 + 3600 * (k - 12)
  }

  function Attack(n: nat): (events: seq<Event>)
    ensures |events| == n
  {
    if n == 0 then [] else Attack(n - 1) + [At(1000 * AttackTime(n - 1), Strike(2))]
  }

  function AttackScore(n: nat): Option<Strikes> {
    if n == 0 then None
    else Some(Strikes(2 * n, if n < 5 then 0 else AttackTime(n - 1) + BlockDurationFor(2 * n), AttackTime(n - 1)))
  }

  lemma AttackStep(n: nat)
    requires 0 < n <= 25
    ensures !StatusOf(AttackScore(n - 1), AttackTime(n - 1)).blocked
    ensures Some(Struck(AttackScore(n - 1), AttackTime(n - 1), 2)) == AttackScore(n)
  {
  }

  lemma {:induction false} AttackEvents(n: nat, i: nat)
    requires i <= n
    ensures Attack(n)[..i] == Attack(i)
    ensures i < n ==> Attack(n)[i] == At(1000 * AttackTime(i), Strike(2))
  {
    if i < n {
      AttackEvents(n - 1, i);
      assert Attack(n)[..i] == Attack(n - 1)[..i];
    }
  }

  lemma {:induction false} AttackRuns(n: nat)
    requires n <= 25
    ensures Run(EMPTY, Attack(n)).s == AttackScore(n)
    ensures StrikesWithin(Attack(n), 0) == n
  {
    if n > 0 {
      AttackRuns(n - 1);
      AttackStep(n);
      AttackEvents(n, n - 1);
      Push(EMPTY, Attack(n - 1), At(1000 * AttackTime(n - 1), Strike(2)));
    }
  }

  lemma AttackMoment(n: nat, i: nat)
    requires i < n <= 25
    ensures Attack(n)[i] == At(1000 * AttackTime(i), Strike(2)) && Seconds(Attack(n)[i].ms) == AttackTime(i)
    ensures !StatusOf(Run(EMPTY, Attack(n)[..i]).s, AttackTime(i)).blocked
  {
    AttackEvents(n, i);
    AttackRuns(i);
    AttackStep(i + 1);
  }

  lemma AttackIsGated(n: nat)
    requires n <= 25
    ensures Gated(Attack(n)) && NoPardon(Attack(n))
  {
    var events := Attack(n);
    forall i | 0 <= i < n
      ensures events[i].op == Strike(2)
      ensures !StatusOf(Run(EMPTY, events[..i]).s, Seconds(events[i].ms)).blocked
    {
      AttackMoment(n, i);
    }
  }

  lemma AttackIsTimed(n: nat)
    requires n <= 25
    ensures Timed(Attack(n))
  {
    var events := Attack(n);
    forall i, j | 0 <= i < j < n
      ensures events[i].ms <= events[j].ms
    {
      AttackEvents(n, i);
      AttackEvents(n, j);
    }
  }

  lemma {:induction false} AttackBlows(n: nat)
    requires n <= 25
    ensures |Blows(Attack(n))| == n && forall i | 0 <= i < n :: Blows(Attack(n))[i] == Blow(AttackTime(i), 2)
  {
    if n > 0 {
      AttackBlows(n - 1);
      AttackEvents(n, n - 1);
    }
  }

  /** Both bounds are attained: 25 gated strikes fit in just that time. */
  lemma EscalationBoundIsTight()
    ensures exists events ::
              && Timed(events) && Gated(events) && NoPardon(events) && StrikesWithin(events, 0) == 25
              && |Blows(events)| == 25 && Blows(events)[24].at - Blows(events)[0].at == 45_600
  {
    AttackRuns(25);
    AttackIsGated(25);
    AttackIsTimed(25);
    AttackBlows(25);
    assert AttackTime(24) == 45_600;
  }

  lemma GatedIsUnblocked(events: seq<Event>)
    requires Gated(events)
    ensures Unblocked(events)
    ensures forall b <- Blows(events) :: b.weight >= 2
  {
    BlowsAreStrikes(events);
    forall i | 0 <= i < |events| && events[i].op.Strike?
      ensures !StatusOf(Run(EMPTY, events[..i]).s, Seconds(events[i].ms)).blocked
    {
    }
  }

  lemma {:induction false} BlowsAreStrikes(events: seq<Event>)
    ensures forall b <- Blows(events) :: exists e <- events :: e.op == Strike(b.weight)
  {
    if events != [] {
      BlowsAreStrikes(events[..|events| - 1]);
      assert forall e <- events[..|events| - 1] :: e in events;
      assert events[|events| - 1] in events;
    }
  }

  lemma {:induction false} PointsGrow(blows: seq<Blow>)
    requires forall b <- blows :: b.weight >= 2
    ensures blows == [] || Points(blows) >= 2
  {
    if blows != [] {
      PointsGrow(blows[..|blows| - 1]);
      assert blows[|blows| - 1] in blows;
    }
  }

  lemma {:induction false} Spaced(events: seq<Event>, i: nat, k: nat)
    requires Timed(events) && Gated(events) && NoPardon(events) && i + k < |Blows(events)| && k <= 24
    ensures var blows := Blows(events);
            && blows[i + k].at - blows[i].at >= AttackTime(k)
            && (blows[i + k].at - blows[i].at > 86_400 || Points(blows[..i + k + 1]) >= 2 * (k + 1))
  {
    var blows := Blows(events);
    GatedIsUnblocked(events);
    PointsGrow(blows[..i + k + 1]);
    if k > 0 {
      Spaced(events, i, k - 1);
      SentencesAreWaitedOut(events, i + k);
      assert blows[..i + k + 1][..i + k] == blows[..i + k];
      assert blows[i + k] in blows;
    }
  }

  /** However they are timed, any 25 strikes in a row of weight 2 or more take at least 45,600 s. */
  lemma StrikesAreSpaced(events: seq<Event>, i: nat)
    requires Timed(events) && Gated(events) && NoPardon(events) && i + 24 < |Blows(events)|
    ensures Blows(events)[i + 24].at - Blows(events)[i].at >= 45_600
  {
    Spaced(events, i, 24);
    assert AttackTime(24) == 45_600;
  }

  /** A block reported to last until t holds at every time before t, whatever else happens short of a pardon. */
  lemma {:induction false} BlockHolds(st: Store, events: seq<Event>, t: int)
    requires st.s.Some? && st.s.value.until >= t
    requires NoPardon(events) && forall e <- events :: Seconds(e.ms) < t
    ensures var s := Run(st, events).s;
            s.Some? && s.value.until >= t
            && forall now | now < t :: StatusOf(s, now).blocked && StatusOf(s, now).retryAfter >= t - now
  {
    if events != [] {
      BlockHolds(st, events[..|events| - 1], t);
      assert events[|events| - 1] in events;
    }
  }

  // ---------------------------------------------------------------------
  // Fixed windows

  /** The times of the hits since the last reset. */
  function HitTimes(events: seq<Event>): seq<nat> {
    if events == [] then []
    else
      var before, e := events[..|events| - 1], events[|events| - 1];
      match e.op
      case Hit(_, _) => HitTimes(before) + [Seconds(e.ms)]
      case Reset => []
      case _ => HitTimes(before)
  }

  /** And what they were answered. */
  function HitReplies(st: Store, events: seq<Event>): seq<RateVerdict> {
    if events == [] then []
    else
      var before, e := events[..|events| - 1], events[|events| - 1];
      match e.op
      case Hit(_, _) => HitReplies(st, before) + [Apply(Run(st, before), e).1.rate]
      case Reset => []
      case _ => HitReplies(st, before)
  }

  /** The first hit of the window that hit i falls in, from the hit times alone. */
  function WindowStart(times: seq<nat>, w: nat, i: nat): (start: nat)
    requires i < |times|
    ensures start <= i
  {
    if i == 0 then 0
    else
      var start := WindowStart(times, w, i - 1);
      if times[start] + w <= times[i] then i else start
  }

  lemma {:induction false} WindowStartPrefix(times: seq<nat>, more: seq<nat>, w: nat, i: nat)
    requires i < |times|
    ensures WindowStart(times + more, w, i) == WindowStart(times, w, i)
  {
    if i > 0 {
      WindowStartPrefix(times, more, w, i - 1);
    }
  }

  /** A window lets exactly its first limit hits through and tells the others when it ends. */
  function WindowVerdict(times: seq<nat>, limit: int, w: nat, i: nat): RateVerdict
    requires i < |times|
  {
    var start := WindowStart(times, w, i);
    if i - start < limit then RateVerdict(true, 0)
    else RateVerdict(false, Max(1, times[start] + w - times[i]))
  }

  ghost predicate SteadyHits(events: seq<Event>, limit: int, w: nat) {
    forall e <- events :: e.op.Hit? ==> e.op.limit == limit && e.op.windowSeconds == w
  }

  ghost predicate WindowMatches(st: Store, times: seq<nat>, w: nat, now: int) {
    if times == [] then st.w.None?
    else
      var start := WindowStart(times, w, |times| - 1);
      if st.w.None? then times[start] + w <= now
      else st.w.value == Window(|times| - start, times[start] + w)
  }

  lemma HitMatches(st: Store, times: seq<nat>, limit: int, w: nat, last: int, now: nat)
    requires WindowMatches(st, times, w, last) && last <= now && w > 0
    ensures WindowMatches(OnHit(st, now, limit, w).0, times + [now], w, now)
    ensures OnHit(st, now, limit, w).1 == WindowVerdict(times + [now], limit, w, |times|)
  {
    if times != [] {
      WindowStartPrefix(times, [now], w, |times| - 1);
    }
  }

  lemma WindowVerdictPrefix(times: seq<nat>, now: nat, limit: int, w: nat)
    ensures forall i | 0 <= i < |times| ::
              WindowVerdict(times + [now], limit, w, i) == WindowVerdict(times, limit, w, i)
  {
    forall i | 0 <= i < |times|
      ensures WindowVerdict(times + [now], limit, w, i) == WindowVerdict(times, limit, w, i)
    {
      WindowStartPrefix(times, [now], w, i);
    }
  }

  /** The limiter, evictions and resets and all, computes the verdicts of the windows that the hit times define. */
  lemma {:induction false} HitsFollowWindows(events: seq<Event>, limit: int, w: nat)
    requires Timed(events) && SteadyHits(events, limit, w) && w > 0
    ensures WindowMatches(Run(EMPTY, events), HitTimes(events), w, LastTime(events))
    ensures |HitReplies(EMPTY, events)| == |HitTimes(events)|
    ensures forall i | 0 <= i < |HitTimes(events)| ::
              HitReplies(EMPTY, events)[i] == WindowVerdict(HitTimes(events), limit, w, i)
  {
    if events != [] {
      var before, e := events[..|events| - 1], events[|events| - 1];
      TimedPrefix(events);
      HitsFollowWindows(before, limit, w);
      assert e in events;
      if e.op.Hit? {
        HitMatches(Run(EMPTY, before), HitTimes(before), limit, w, LastTime(before), Seconds(e.ms));
        WindowVerdictPrefix(HitTimes(before), Seconds(e.ms), limit, w);
      } else if !e.op.Reset? {
        assert HitTimes(events) == HitTimes(before);
        assert HitReplies(EMPTY, events) == HitReplies(EMPTY, before);
      }
    }
  }

  /** Of the first n hits, those allowed at a time in [from, from + w). */
  function AllowedWithin(times: seq<nat>, replies: seq<RateVerdict>, w: nat, from: int, n: nat): nat
    requires n <= |times| == |replies|
  {
    if n == 0 then 0
    else
      AllowedWithin(times, replies, w, from, n - 1)
      + if from <= times[n - 1] < from + w && replies[n - 1].allowed then 1 else 0
  }

  function Min(a: int, b: int): int {
    if a < b then a else b
  }

  lemma {:induction false} WindowCounting(
    times: seq<nat>, replies: seq<RateVerdict>, limit: nat, w: nat, from: int, n: nat)
    requires 0 < n <= |times| == |replies| && forall i, j | 0 <= i < j < |times| :: times[i] <= times[j]
    requires forall i | 0 <= i < |times| :: replies[i] == WindowVerdict(times, limit, w, i)
    ensures var start := WindowStart(times, w, n - 1);
            AllowedWithin(times, replies, w, from, n)
            <= if times[n - 1] < from then 0
               else if times[start] < from then Min(limit, n - start)
               else if times[start] < from + w then limit + Min(limit, n - start)
               else 2 * limit
  {
    if n > 1 {
      WindowCounting(times, replies, limit, w, from, n - 1);
    }
  }

  /** Since the last reset, no interval one window long holds more than twice the limit of allowed hits. */
  lemma FixedWindowBound(events: seq<Event>, limit: nat, w: nat, from: int)
    requires Timed(events) && SteadyHits(events, limit, w) && w > 0
    ensures |HitReplies(EMPTY, events)| == |HitTimes(events)|
    ensures AllowedWithin(HitTimes(events), HitReplies(EMPTY, events), w, from, |HitTimes(events)|) <= 2 * limit
  {
    HitTimesSorted(events);
    HitsFollowWindows(events, limit, w);
    if HitTimes(events) != [] {
      WindowCounting(HitTimes(events), HitReplies(EMPTY, events), limit, w, from, |HitTimes(events)|);
    }
  }

  lemma {:induction false} HitTimesSorted(events: seq<Event>)
    requires Timed(events)
    ensures forall i, j | 0 <= i < j < |HitTimes(events)| :: HitTimes(events)[i] <= HitTimes(events)[j]
    ensures forall i | 0 <= i < |HitTimes(events)| :: HitTimes(events)[i] <= LastTime(events)
  {
    if events != [] {
      TimedPrefix(events);
      HitTimesSorted(events[..|events| - 1]);
    }
  }
}
