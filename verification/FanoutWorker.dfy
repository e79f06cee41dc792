// The fan-out worker: a dequeue loop with a circuit breaker (internal/worker/fanout_worker.go).
module FanoutWorker {
  import opened Decimals
  import opened FanoutTasks
  import opened MessageQueue
  import opened SortedSets
  import opened Times
  import opened Wrappers
  import Sets
  import Timeline

  const FAIL_LIMIT: nat := 20
  // Milliseconds the breaker stays open.
  const PAUSE: int := 30_000

  // What the worker meets outside itself while it handles one message: the author's followers
  // (or an error), whether the pool takes the task, whether the cache write succeeds.
  datatype Surroundings = Surroundings(followers: Option<seq<int>>, poolAccepts: bool, cacheWrites: bool)

  // What handling one message does to the timelines.
  datatype Effect = NoEffect | Pushed(tweet: Timeline.Tweet, users: seq<int>) | Recalled(id: int, users: seq<int>)

  const NO_TASK := Task(0, 0, Time.FromUnix(0), "")

  predicate Reaches(around: Surroundings) {
    around.followers.Some? && around.followers.value != [] && around.poolAccepts && around.cacheWrites
  }

  function EffectOf(id: nat, values: Values, around: Surroundings): Effect {
    var (task, ok) := Decode(NO_TASK, Format(id), values);
    if !ok || !Reaches(around) then NoEffect
    else if task.action == ACTION_CREATE then Pushed(Timeline.Tweet(task.tweetID, task.createdAt), around.followers.value)
    else if task.action == ACTION_DELETE then Recalled(task.tweetID, around.followers.value)
    else NoEffect
  }

  // Undecodable messages and unknown actions count as handled; a create or delete fails exactly
  // when the followers cannot be read, or there are some and the task is refused or its write fails.
  predicate Succeeds(id: nat, values: Values, around: Surroundings) {
    var (task, ok) := Decode(NO_TASK, Format(id), values);
    || !ok
    || (task.action != ACTION_CREATE && task.action != ACTION_DELETE)
    || (around.followers.Some? && (around.followers.value == [] || (around.poolAccepts && around.cacheWrites)))
  }

  // The part of an effect that touches one user's timeline.
  function UserEvents(u: int, e: Effect): seq<Timeline.Event> {
    match e
    case NoEffect => []
    case Pushed(t, users) => if u in users then [Timeline.Push(t)] else []
    case Recalled(id, users) => if u in Timeline.Served(users) then [Timeline.Recall(id)] else []
  }

  function After(u: int, z: ZSet, e: Effect): ZSet {
    if UserEvents(u, e) == [] then z else Timeline.Applied(Timeline.LIMIT, z, UserEvents(u, e)[0])
  }

  function AfterAll(u: int, z: ZSet, log: seq<Handled>): ZSet {
    if log == [] then z else After(u, AfterAll(u, z, log[..|log| - 1]), log[|log| - 1].effect)
  }

  datatype Handled = Handled(id: nat, ok: bool, began: int, ended: int, effect: Effect)

  // One round of the loop: the messages that arrived before it, the clock at the breaker check,
  // whether Dequeue reached Redis, what handling meets, and the clock when handling ends.
  datatype Turn = Turn(arrivals: seq<Values>, check: int, connected: bool, around: Surroundings, done: int)

  // The worker's variables, the queue, the clock, and the record of all handled messages.
  datatype State = State(queue: Group, failCount: nat, breakUntil: int, now: int, log: seq<Handled>)

  const INITIAL := State(EMPTY_GROUP, 0, 0, 0, [])

  function Arrive(q: Group, arrivals: seq<Values>): Group {
    q.(stream := q.stream + arrivals)
  }

  // The loop's variables and the queue after the message at the cursor of q was handled.
  function Record(s: State, q: Group, h: Handled): State {
    var log := s.log + [h];
    if h.ok then State(q.Delivered().Acknowledged(h.id), 0, s.breakUntil, h.ended, log)
    else if s.failCount + 1 >= FAIL_LIMIT then State(q.Delivered(), 0, h.ended + PAUSE, h.ended, log)
    else State(q.Delivered(), s.failCount + 1, s.breakUntil, h.ended, log)
  }

  function Handling(q: Group, t: Turn): Handled
    requires q.cursor < |q.stream|
  {
    var id, values := q.cursor, q.stream[q.cursor];
    Handled(id, Succeeds(id, values, t.around), t.check, t.done, EffectOf(id, values, t.around))
  }

  function Step(s: State, t: Turn): State {
    var q := Arrive(s.queue, t.arrivals);
    if t.check < s.breakUntil || !t.connected || q.cursor >= |q.stream| then s.(queue := q, now := t.check)
    else Record(s, q, Handling(q, t))
  }

  function Run(s: State, turns: seq<Turn>): State {
    if turns == [] then s else Step(Run(s, turns[..|turns| - 1]), turns[|turns| - 1])
  }

  // The clock does not run backwards.
  predicate InTime(now: int, turns: seq<Turn>) {
    && (forall i | 0 <= i < |turns| :: now <= turns[i].check <= turns[i].done)
    && (forall i | 0 < i < |turns| :: turns[i - 1].done <= turns[i].check)
  }

  class Worker {
    const mq: RedisMQ
    const cache: Timeline.RedisTimelineCache

    constructor (mq: RedisMQ, cache: Timeline.RedisTimelineCache)
      ensures this.mq == mq && this.cache == cache
    {
      this.mq := mq;
      this.cache := cache;
    }

    method HandleTask(id: nat, values: Values, around: Surroundings) returns (ok: bool)
      modifies cache
      ensures ok == Succeeds(id, values, around)
      ensures forall u :: cache.Timeline(u) == After(u, old(cache.Timeline(u)), EffectOf(id, values, around))
    {
      var task := new FanoutTask(0, 0, Time.FromUnix(0), "");
      var decoded := task.FromMap(Format(id), values);
      if !decoded {
        return true;
      }
      if task.action == ACTION_CREATE {
        ok := ProcessCreate(task.Data(), around);
      } else if task.action == ACTION_DELETE {
        ok := ProcessDelete(task.Data(), around);
      } else {
        ok := true;
      }
    }

    method ProcessCreate(task: Task, around: Surroundings) returns (ok: bool)
      modifies cache
      ensures ok == (around.followers.Some? && (around.followers.value == [] || (around.poolAccepts && around.cacheWrites)))
      ensures forall u :: cache.Timeline(u) == After(u, old(cache.Timeline(u)),
        if Reaches(around) then Pushed(Timeline.Tweet(task.tweetID, task.createdAt), around.followers.value) else NoEffect)
    {
      if around.followers.None? {
        return false;
      }
      var followers := around.followers.value;
      if followers == [] {
        return true;
      }
      if !around.poolAccepts || !around.cacheWrites {
        return false;
      }
      cache.PushBatch(task.tweetID, followers, task.createdAt);
      return true;
    }

    method ProcessDelete(task: Task, around: Surroundings) returns (ok: bool)
      modifies cache
      ensures ok == (around.followers.Some? && (around.followers.value == [] || (around.poolAccepts && around.cacheWrites)))
      ensures forall u :: cache.Timeline(u) == After(u, old(cache.Timeline(u)),
        if Reaches(around) then Recalled(task.tweetID, around.followers.value) else NoEffect)
    {
      if around.followers.None? {
        return false;
      }
      var followers := around.followers.value;
      if followers == [] {
        return true;
      }
      if !around.poolAccepts || !around.cacheWrites {
        return false;
      }
      cache.RecallTweet(task.tweetID, followers);
      return true;
    }

    // The loop until its context is done, over any finite course of turns.
    method Start(turns: seq<Turn>) returns (failCount: nat, circuitBreakerUntil: int)
      modifies mq, cache
      ensures
        var end := Run(State(old(mq.group), 0, 0, 0, []), turns);
        && mq.group == end.queue && failCount == end.failCount && circuitBreakerUntil == end.breakUntil
        && forall u :: cache.Timeline(u) == AfterAll(u, old(cache.Timeline(u)), end.log)
    {
      failCount := 0;
      circuitBreakerUntil := 0;
      ghost var start := State(mq.group, 0, 0, 0, []);
      for i := 0 to |turns|
        invariant
          var s := Run(start, turns[..i]);
          && mq.group == s.queue && failCount == s.failCount && circuitBreakerUntil == s.breakUntil
          && forall u :: cache.Timeline(u) == AfterAll(u, old(cache.Timeline(u)), s.log)
      {
        var turn := turns[i];
        assert turns[..i + 1][..i] == turns[..i];
        ghost var s := Run(start, turns[..i]);
        assert Run(start, turns[..i + 1]) == Step(s, turn);
        Arrivals(turn.arrivals);
        if turn.check < circuitBreakerUntil || !turn.connected {
          continue;
        }
        var message := mq.Dequeue();
        if message.None? {
          continue;
        }
        var ok := HandleTask(message.value.id, message.value.values, turn.around);
        if ok {
          failCount := 0;
          mq.Ack(message.value.id);
        } else {
          failCount := failCount + 1;
          if failCount >= FAIL_LIMIT {
            circuitBreakerUntil := turn.done + PAUSE;
            failCount := 0;
          }
        }
      }
      assert turns[..|turns|] == turns;
    }

    // What producers enqueue while the worker is elsewhere.
    method Arrivals(arrivals: seq<Values>)
      modifies mq
      ensures mq.group == Arrive(old(mq.group), arrivals)
    {
      for i := 0 to |arrivals|
        invariant mq.group == Arrive(old(mq.group), arrivals[..i])
      {
        mq.Enqueue(arrivals[i]);
      }
      assert arrivals[..|arrivals|] == arrivals;
    }
  }

  // ---- Queue conservation ----

  // Every message is undelivered, pending or acknowledged, and only one of them; the handled
  // messages are the delivered ones in stream order, each once; the acknowledged ones are those
  // handled without error and the pending ones those that failed.
  ghost predicate Conserved(s: State) {
    && s.queue.cursor <= |s.queue.stream|
    && |s.log| == s.queue.cursor
    && (forall i | 0 <= i < |s.log| :: s.log[i].id == i)
    && (forall i | 0 <= i < |s.log| :: (i in s.queue.acked <==> s.log[i].ok) && (i in s.queue.pending <==> !s.log[i].ok))
    && (forall i | i in s.queue.acked || i in s.queue.pending :: i < s.queue.cursor)
  }

  lemma StepConserves(s: State, t: Turn)
    requires Conserved(s)
    ensures Conserved(Step(s, t))
    ensures s.queue.stream <= Step(s, t).queue.stream
    ensures s.log <= Step(s, t).log
  {
  }

  lemma {:induction false} RunConserves(turns: seq<Turn>)
    ensures Conserved(Run(INITIAL, turns))
  {
    if turns != [] {
      RunConserves(turns[..|turns| - 1]);
      StepConserves(Run(INITIAL, turns[..|turns| - 1]), turns[|turns| - 1]);
    }
  }

  lemma {:induction false} RunKeepsRecord(before: seq<Turn>, more: seq<Turn>)
    ensures Run(INITIAL, before).queue.stream <= Run(INITIAL, before + more).queue.stream
    ensures Run(INITIAL, before).log <= Run(INITIAL, before + more).log
    decreases |more|
  {
    if more == [] {
      assert before + more == before;
    } else {
      var front := before + more[..|more| - 1];
      RunKeepsRecord(before, more[..|more| - 1]);
      assert (before + more)[..|before + more| - 1] == front;
      RunConserves(front);
      StepConserves(Run(INITIAL, front), more[|more| - 1]);
    }
  }

  // Main result: conservation holds after every run, and running on keeps the stream, keeps what
  // was handled, and leaves every failed message pending.
  lemma {:induction false} QueueIsConserved(before: seq<Turn>, more: seq<Turn>)
    ensures Conserved(Run(INITIAL, before + more))
    ensures
      var s, s' := Run(INITIAL, before), Run(INITIAL, before + more);
      s.queue.stream <= s'.queue.stream && s.log <= s'.log && s.queue.pending <= s'.queue.pending
      && s.queue.acked <= s'.queue.acked
  {
    RunConserves(before);
    RunConserves(before + more);
    RunKeepsRecord(before, more);
  }

  // ---- Circuit breaker ----

  // Failures since the last success or trip, read off the record alone.
  function Streak(log: seq<Handled>): nat {
    if log == [] || log[|log| - 1].ok then 0
    else
      var n := Streak(log[..|log| - 1]) + 1;
      if n >= FAIL_LIMIT then 0 else n
  }

  // When the breaker closes again: the pause after the last trip.
  function OpenUntil(log: seq<Handled>): int {
    if log == [] then 0
    else
      var front, last := log[..|log| - 1], log[|log| - 1];
      if !last.ok && Streak(front) + 1 >= FAIL_LIMIT then last.ended + PAUSE else OpenUntil(front)
  }

  // Handling number i began with the breaker closed.
  predicate BeganClosed(log: seq<Handled>, i: nat)
    requires i < |log|
  {
    OpenUntil(log[..i]) <= log[i].began <= log[i].ended
  }

  // Every handling began with the breaker closed, and one message is handled after another.
  ghost predicate Breaks(log: seq<Handled>) {
    && (forall i | 0 <= i < |log| :: BeganClosed(log, i))
    && (forall i, j | 0 <= i < j < |log| :: log[i].ended <= log[j].began)
  }

  ghost predicate BreakerHolds(s: State) {
    && s.failCount == Streak(s.log) && s.failCount < FAIL_LIMIT
    && s.breakUntil == OpenUntil(s.log)
    && Breaks(s.log)
    && (forall i | 0 <= i < |s.log| :: s.log[i].ended <= s.now)
  }

  lemma BeganClosedStays(log: seq<Handled>, more: seq<Handled>, i: nat)
    requires i < |log|
    ensures BeganClosed(log + more, i) <==> BeganClosed(log, i)
  {
    assert (log + more)[..i] == log[..i];
  }

  lemma {:induction false} BreaksGrows(log: seq<Handled>, h: Handled)
    requires Breaks(log) && OpenUntil(log) <= h.began <= h.ended
    requires forall i | 0 <= i < |log| :: log[i].ended <= h.began
    ensures Breaks(log + [h])
  {
    var grown := log + [h];
    forall i | 0 <= i < |grown| ensures BeganClosed(grown, i) {
      if i < |log| {
        BeganClosedStays(log, [h], i);
      } else {
        assert grown[..i] == log;
      }
    }
  }

  lemma ReadAfter(log: seq<Handled>, h: Handled)
    ensures Streak(log + [h]) == if h.ok || Streak(log) + 1 >= FAIL_LIMIT then 0 else Streak(log) + 1
    ensures OpenUntil(log + [h])
      == if !h.ok && Streak(log) + 1 >= FAIL_LIMIT then h.ended + PAUSE else OpenUntil(log)
  {
    var grown := log + [h];
    assert grown[..|grown| - 1] == log && grown[|grown| - 1] == h;
  }

  // What the loop does to its variables is what the grown record says.
  lemma {:induction false} RecordReadsBack(s: State, q: Group, h: Handled, s': State)
    requires s.failCount == Streak(s.log) && s.failCount < FAIL_LIMIT && s.breakUntil == OpenUntil(s.log)
    requires s' == Record(s, q, h)
    ensures s'.log == s.log + [h] && s'.now == h.ended
    ensures s'.failCount == Streak(s'.log) && s'.failCount < FAIL_LIMIT && s'.breakUntil == OpenUntil(s'.log)
  {
    ReadAfter(s.log, h);
  }

  lemma {:induction false} RecordKeepsBreaker(s: State, q: Group, h: Handled, s': State)
    requires BreakerHolds(s) && s.now <= h.began <= h.ended && s.breakUntil <= h.began
    requires s' == Record(s, q, h)
    ensures BreakerHolds(s')
  {
    RecordReadsBack(s, q, h, s');
    BreaksGrows(s.log, h);
    forall i | 0 <= i < |s'.log| ensures s'.log[i].ended <= s'.now {
      if i < |s.log| {
        assert s'.log[i] == s.log[i];
      }
    }
  }

  lemma {:induction false} StepKeepsBreaker(s: State, t: Turn)
    requires BreakerHolds(s) && s.now <= t.check <= t.done
    ensures BreakerHolds(Step(s, t)) && Step(s, t).now <= t.done
  {
    var q := Arrive(s.queue, t.arrivals);
    if t.check >= s.breakUntil && t.connected && q.cursor < |q.stream| {
      RecordKeepsBreaker(s, q, Handling(q, t), Step(s, t));
    }
  }

  lemma {:induction false} BreakerAlwaysHolds(turns: seq<Turn>)
    requires InTime(0, turns)
    ensures BreakerHolds(Run(INITIAL, turns))
    ensures turns != [] ==> Run(INITIAL, turns).now <= turns[|turns| - 1].done
  {
    if turns != [] {
      var front := turns[..|turns| - 1];
      BreakerAlwaysHolds(front);
      StepKeepsBreaker(Run(INITIAL, front), turns[|turns| - 1]);
    }
  }

  // From a streak of c failures, 20 - c more in a row reach the trip.
  lemma {:induction false} StreakGrows(log: seq<Handled>, i: nat, n: nat)
    requires i + n <= |log| && Streak(log[..i]) + n < FAIL_LIMIT
    requires forall j | i <= j < i + n :: !log[j].ok
    ensures Streak(log[..i + n]) == Streak(log[..i]) + n
  {
    if n > 0 {
      StreakGrows(log, i, n - 1);
      assert log[..i + n][..i + n - 1] == log[..i + n - 1];
    }
  }

  lemma {:induction false} StreakBelowLimit(log: seq<Handled>)
    ensures Streak(log) < FAIL_LIMIT
  {
  }

  lemma TripOpensBreaker(log: seq<Handled>, trip: nat)
    requires trip < |log| && !log[trip].ok && Streak(log[..trip]) + 1 >= FAIL_LIMIT
    ensures OpenUntil(log[..trip + 1]) == log[trip].ended + PAUSE
  {
    assert log[..trip + 1][..trip] == log[..trip];
  }

  // The handling after a trip waits for the breaker.
  lemma {:induction false} TripIsWaitedFor(log: seq<Handled>, trip: nat)
    requires Breaks(log) && trip + 1 < |log|
    requires !log[trip].ok && Streak(log[..trip]) + 1 >= FAIL_LIMIT
    ensures log[trip + 1].began >= log[trip].ended + PAUSE
  {
    TripOpensBreaker(log, trip);
    assert BeganClosed(log, trip + 1);
  }

  lemma {:induction false} HandledInOrder(log: seq<Handled>, i: nat, j: nat)
    requires Breaks(log) && i <= j < |log|
    ensures log[i].ended <= log[j].ended && log[i].began <= log[j].began
  {
    assert BeganClosed(log, i) && BeganClosed(log, j);
  }

  lemma {:induction false} LogSpansPause(log: seq<Handled>, i: nat)
    requires Breaks(log)
    requires i + FAIL_LIMIT < |log| && forall j | i <= j <= i + FAIL_LIMIT :: !log[j].ok
    ensures log[i + FAIL_LIMIT].began >= log[i].ended + PAUSE
  {
    StreakBelowLimit(log[..i]);
    var n: nat := FAIL_LIMIT - 1 - Streak(log[..i]);
    StreakGrows(log, i, n);
    TripIsWaitedFor(log, i + n);
    HandledInOrder(log, i, i + n);
    HandledInOrder(log, i + n + 1, i + FAIL_LIMIT);
  }

  // Main result: 21 failures with no success between them span at least the pause.
  lemma {:induction false} FailuresSpanPause(turns: seq<Turn>, i: nat)
    requires InTime(0, turns)
    requires
      var log := Run(INITIAL, turns).log;
      i + 20 < |log| && forall j | i <= j <= i + 20 :: !log[j].ok
    ensures
      var log := Run(INITIAL, turns).log;
      log[i + 20].began >= log[i].ended + 30_000
  {
    BreakerAlwaysHolds(turns);
    LogSpansPause(Run(INITIAL, turns).log, i);
  }

  // The breaker opens only on twenty failures in a row, and for 30 s from the last of them.
  lemma {:induction false} OpenMeansTwentyFailures(log: seq<Handled>) returns (k: nat)
    requires OpenUntil(log) != 0
    ensures 19 <= k < |log| && OpenUntil(log) == log[k].ended + 30_000
    ensures forall i | k - 19 <= i <= k :: !log[i].ok
  {
    var front, last := log[..|log| - 1], log[|log| - 1];
    if !last.ok && Streak(front) + 1 >= FAIL_LIMIT {
      k := |front|;
      StreakBelowLimit(front);
      StreakIsFailures(front);
    } else {
      k := OpenMeansTwentyFailures(front);
    }
  }

  lemma {:induction false} StreakIsFailures(log: seq<Handled>)
    ensures Streak(log) <= |log| && forall i | |log| - Streak(log) <= i < |log| :: !log[i].ok
  {
    if log != [] {
      var front := log[..|log| - 1];
      StreakIsFailures(front);
      forall i | |log| - Streak(log) <= i < |log| ensures !log[i].ok {
        assert i < |front| ==> front[i] == log[i];
      }
    }
  }

  // ---- The timelines the worker builds ----

  // What the record did to one user's timeline.
  function EventsFor(u: int, log: seq<Handled>): seq<Timeline.Event> {
    if log == [] then [] else EventsFor(u, log[..|log| - 1]) + UserEvents(u, log[|log| - 1].effect)
  }

  lemma EffectIsEvents(u: int, events: seq<Timeline.Event>, e: Effect)
    ensures After(u, Timeline.Run(Timeline.LIMIT, events).z, e)
      == Timeline.Run(Timeline.LIMIT, events + UserEvents(u, e)).z
  {
    var more := UserEvents(u, e);
    if more == [] {
      assert events + more == events;
    } else {
      assert (events + more)[..|events + more| - 1] == events;
    }
  }

  // A worker that starts on an empty cache gives each user the timeline of a run of pushes and
  // recalls, so that what holds of those runs holds of it.
  lemma {:induction false} WorkerRunsTimelines(u: int, log: seq<Handled>)
    ensures AfterAll(u, map[], log) == Timeline.Run(Timeline.LIMIT, EventsFor(u, log)).z
  {
    if log != [] {
      WorkerRunsTimelines(u, log[..|log| - 1]);
      EffectIsEvents(u, EventsFor(u, log[..|log| - 1]), log[|log| - 1].effect);
    }
  }

  // A decodable create message names a tweet of the table and its creation second.
  predicate Honest(created: map<int, Time>, values: Values) {
    var (task, ok) := Decode(NO_TASK, Format(0), values);
    ok && task.action == ACTION_CREATE ==>
      task.tweetID in created && task.createdAt.Unix() == created[task.tweetID].Unix()
  }

  predicate HonestEffect(created: map<int, Time>, e: Effect) {
    e.Pushed? ==> Timeline.FromTable(created, [e.tweet])
  }

  // Encoded tasks of the table are honest, although their times are cut.
  lemma EncodedIsHonest(created: map<int, Time>, t: Task)
    requires IsInt64(t.tweetID) && IsInt64(t.authorID) && IsInt64(t.createdAt.Unix())
    requires t.tweetID in created && t.createdAt.Unix() == created[t.tweetID].Unix()
    ensures Honest(created, Encode(t))
  {
    ParseUndoesFormat(0);
    DecodeUndoesEncode(t, NO_TASK, Format(0));
  }

  lemma EffectIsHonest(created: map<int, Time>, id: nat, values: Values, around: Surroundings)
    requires Honest(created, values)
    ensures HonestEffect(created, EffectOf(id, values, around))
  {
    assert Format(id) != "" && Format(0) != "";
  }

  ghost predicate HonestRecord(created: map<int, Time>, s: State) {
    (forall v | v in s.queue.stream :: Honest(created, v)) && (forall h | h in s.log :: HonestEffect(created, h.effect))
  }

  lemma {:induction false} RecordIsHonest(created: map<int, Time>, turns: seq<Turn>)
    requires forall t, v | t in turns && v in t.arrivals :: Honest(created, v)
    ensures HonestRecord(created, Run(INITIAL, turns))
  {
    if turns != [] {
      var front, t := turns[..|turns| - 1], turns[|turns| - 1];
      RecordIsHonest(created, front);
      var q := Arrive(Run(INITIAL, front).queue, t.arrivals);
      if q.cursor < |q.stream| {
        EffectIsHonest(created, q.cursor, q.stream[q.cursor], t.around);
      }
    }
  }

  lemma {:induction false} EventsAreFromTable(created: map<int, Time>, u: int, log: seq<Handled>)
    requires forall h | h in log :: HonestEffect(created, h.effect)
    ensures Timeline.EventsFrom(created, EventsFor(u, log))
  {
    if log != [] {
      assert log[|log| - 1] in log;
      EventsAreFromTable(created, u, log[..|log| - 1]);
    }
  }

  // What the handled messages ask of one user's timeline: that of every listed follower.
  function AskedEvents(u: int, e: Effect): seq<Timeline.Event> {
    match e
    case NoEffect => []
    case Pushed(t, users) => if u in users then [Timeline.Push(t)] else []
    case Recalled(id, users) => if u in users then [Timeline.Recall(id)] else []
  }

  function AskedFor(u: int, log: seq<Handled>): seq<Timeline.Event> {
    if log == [] then [] else AskedFor(u, log[..|log| - 1]) + AskedEvents(u, log[|log| - 1].effect)
  }

  // Every delete that lists the user lists it among the first 1000.
  predicate InReach(u: int, log: seq<Handled>) {
    forall h | h in log :: h.effect.Recalled? && u in h.effect.users ==> u in Timeline.Served(h.effect.users)
  }

  lemma {:induction false} AskedIsDone(u: int, log: seq<Handled>)
    requires InReach(u, log)
    ensures AskedFor(u, log) == EventsFor(u, log)
  {
    if log != [] {
      var last := log[|log| - 1];
      assert last in log;
      ServedAreListed(last.effect);
      AskedIsDone(u, log[..|log| - 1]);
    }
  }

  lemma ServedAreListed(e: Effect)
    ensures e.Recalled? ==> forall u | u in Timeline.Served(e.users) :: u in e.users
  {
  }

  // Main result, from the queue to the timelines: in every run of the worker over honest messages
  // whose deletes list the user, if at all, among the first 1000, the user's timeline holds at most
  // 1000 tweets, all live by the handled messages, and all of the newest 1000 - r live ones, r
  // being the recalls that took an entry out of it.
  lemma {:induction false} WorkerTimelinesHoldNewest(created: map<int, Time>, turns: seq<Turn>, u: int, m: string)
    requires forall t, v | t in turns && v in t.arrivals :: Honest(created, v)
    requires InReach(u, Run(INITIAL, turns).log)
    ensures
      var log := Run(INITIAL, turns).log;
      var z, ideal := AfterAll(u, map[], log), Timeline.Run(Timeline.LIMIT, AskedFor(u, log));
      && |z| <= Timeline.LIMIT
      && (m in z ==> m in ideal.live && z[m] == ideal.live[m])
      && (m in ideal.live && |Above(ideal.live, EntryOf(ideal.live, m))| < Timeline.LIMIT - ideal.recalls ==> m in z)
  {
    RecordIsHonest(created, turns);
    var log := Run(INITIAL, turns).log;
    EventsAreFromTable(created, u, log);
    WorkerRunsTimelines(u, log);
    AskedIsDone(u, log);
    Timeline.TimelineHoldsNewestLive(created, EventsFor(u, log), m);
  }

  predicate NoRepeats(users: seq<int>) {
    forall i, j | 0 <= i < j < |users| :: users[i] != users[j]
  }

  // A delete takes the tweet out of the timelines of all listed followers, whatever these hold,
  // exactly when it lists no more than 1000.
  lemma RecallReachesAllIff(id: int, users: seq<int>)
    requires NoRepeats(users)
    ensures (forall u, z: ZSet | u in users :: Format(id) !in After(u, z, Recalled(id, users))) <==>
      |users| <= Timeline.RECALL_BATCH
  {
    if |users| > Timeline.RECALL_BATCH {
      var u, z: ZSet := users[Timeline.RECALL_BATCH], map[Format(id) := 0];
      assert After(u, z, Recalled(id, users)) == z;
    } else {
      assert Timeline.Served(users) == users;
    }
  }

  // What handling an encoded task with positive ids takes: the followers are read, and there are
  // none or the pool and the write work.
  predicate Works(around: Surroundings) {
    around.followers.Some? && (around.followers.value == [] || (around.poolAccepts && around.cacheWrites))
  }

  lemma EncodedDecides(msgID: nat, t: Task, around: Surroundings)
    requires IsInt64(t.tweetID) && IsInt64(t.authorID) && IsInt64(t.createdAt.Unix())
    ensures Succeeds(msgID, Encode(t), around) <==>
      (t.tweetID <= 0 || t.authorID <= 0 || (t.action != "create" && t.action != "delete") || Works(around))
    ensures EffectOf(msgID, Encode(t), around) ==
      if t.tweetID <= 0 || t.authorID <= 0 || !Works(around) || around.followers.value == [] then NoEffect
      else if t.action == "create" then Pushed(Timeline.Tweet(t.tweetID, Time(t.createdAt.sec, 0)), around.followers.value)
      else if t.action == "delete" then Recalled(t.tweetID, around.followers.value)
      else NoEffect
  {
    assert Format(msgID) != "";
    DecodeUndoesEncode(t, NO_TASK, Format(msgID));
  }

  lemma EncodedTakesEffect(msgID: nat, t: Task, around: Surroundings)
    requires IsInt64(t.tweetID) && IsInt64(t.authorID) && IsInt64(t.createdAt.Unix())
    requires t.authorID > 0 && Reaches(around) && (t.action == ACTION_CREATE || t.action == ACTION_DELETE)
    ensures t.tweetID > 0 ==> Succeeds(msgID, Encode(t), around)
    ensures EffectOf(msgID, Encode(t), around) ==
      if t.tweetID <= 0 then NoEffect
      else if t.action == ACTION_CREATE
      then Pushed(Timeline.Tweet(t.tweetID, Time.FromUnix(t.createdAt.Unix())), around.followers.value)
      else Recalled(t.tweetID, around.followers.value)
  {
    EncodedDecides(msgID, t, around);
  }

  // A turn with the breaker closed and a message that succeeds.
  lemma TurnSucceeds(s: State, t: Turn, q: Group, s': State)
    requires q == Arrive(s.queue, t.arrivals) && q.cursor < |q.stream| && t.connected && s.breakUntil <= t.check
    requires Succeeds(q.cursor, q.stream[q.cursor], t.around) && s' == Step(s, t)
    ensures s'.queue.stream == q.stream && s'.queue.cursor == q.cursor + 1 && s'.breakUntil == s.breakUntil
    ensures s'.log
      == s.log + [Handled(q.cursor, true, t.check, t.done, EffectOf(q.cursor, q.stream[q.cursor], t.around))]
  {
  }

  lemma TwoTurns(s: State, turns: seq<Turn>)
    requires |turns| == 2
    ensures Run(s, turns) == Step(Step(s, turns[0]), turns[1])
  {
    assert turns[..|turns| - 1] == turns[..1] && turns[..1][..0] == [];
    assert Run(s, turns[..1]) == Step(s, turns[0]);
  }

  // Two messages that arrive at once, handled one after the other.
  function InTurn(one: Values, other: Values, around: Surroundings): seq<Turn> {
    [Turn([one, other], 0, true, around, 0), Turn([], 0, true, around, 0)]
  }

  lemma BothAreHandled(one: Values, other: Values, around: Surroundings, first: nat, second: nat)
    requires first == 0 && second == 1
    requires Succeeds(first, one, around) && Succeeds(second, other, around)
    ensures Run(INITIAL, InTurn(one, other, around)).log
      == [Handled(first, true, 0, 0, EffectOf(first, one, around)),
          Handled(second, true, 0, 0, EffectOf(second, other, around))]
  {
    var turns := InTurn(one, other, around);
    var s := Step(INITIAL, turns[0]);
    assert INITIAL.queue.stream + [one, other] == [one, other];
    TurnSucceeds(INITIAL, turns[0], Arrive(INITIAL.queue, [one, other]), s);
    assert s.queue.stream + [] == s.queue.stream;
    TurnSucceeds(s, turns[1], Arrive(s.queue, []), Step(s, turns[1]));
    TwoTurns(INITIAL, turns);
  }

  // A run of the worker over the create and then the delete message of one tweet.
  function CreateThenDelete(t: Task, around: Surroundings): seq<Turn> {
    InTurn(Encode(t.(action := ACTION_CREATE)), Encode(t.(action := ACTION_DELETE)), around)
  }

  lemma CreateThenDeleteSucceeds(t: Task, around: Surroundings, first: nat, second: nat)
    requires first == 0 && second == 1
    requires IsInt64(t.tweetID) && IsInt64(t.authorID) && IsInt64(t.createdAt.Unix())
    requires t.tweetID > 0 && t.authorID > 0 && Reaches(around)
    ensures
      var users, tweet := around.followers.value, Timeline.Tweet(t.tweetID, Time.FromUnix(t.createdAt.Unix()));
      Run(INITIAL, CreateThenDelete(t, around)).log
        == [Handled(first, true, 0, 0, Pushed(tweet, users)), Handled(second, true, 0, 0, Recalled(t.tweetID, users))]
  {
    var create, delete := t.(action := ACTION_CREATE), t.(action := ACTION_DELETE);
    EncodedTakesEffect(first, create, around);
    EncodedTakesEffect(second, delete, around);
    BothAreHandled(Encode(create), Encode(delete), around, first, second);
  }

  lemma TwoHandled(u: int, a: Handled, b: Handled)
    ensures AfterAll(u, map[], [a, b]) == After(u, After(u, map[], a.effect), b.effect)
    ensures AskedFor(u, [a, b]) == AskedEvents(u, a.effect) + AskedEvents(u, b.effect)
  {
    assert [a, b][..1] == [a] && [a][..0] == [];
    assert AfterAll(u, map[], [a]) == After(u, map[], a.effect);
    assert AskedFor(u, [a]) == AskedEvents(u, a.effect);
  }

  lemma PushThenRecallLeavesNone(k: nat, t: Timeline.Tweet)
    ensures Format(t.id) !in Timeline.Run(k, [Timeline.Push(t), Timeline.Recall(t.id)]).live
  {
    var events := [Timeline.Push(t), Timeline.Recall(t.id)];
    var s := Timeline.Run(k, events[..1]);
    assert events[..|events| - 1] == events[..1];
    assert Timeline.Run(k, events) == Timeline.Step(k, s, events[1]);
  }

  // A listed follower past the first 1000 keeps a tweet whose delete message succeeded.
  lemma UnservedFollowerKeepsTweet(t: Task, around: Surroundings, u: int)
    requires IsInt64(t.tweetID) && IsInt64(t.authorID) && IsInt64(t.createdAt.Unix())
    requires t.tweetID > 0 && t.authorID > 0 && Reaches(around)
    requires u in around.followers.value && u !in Timeline.Served(around.followers.value)
    ensures
      var log := Run(INITIAL, CreateThenDelete(t, around)).log;
      && |log| == 2 && log[0].ok && log[1].ok && log[1].effect.Recalled?
      && Format(t.tweetID) in AfterAll(u, map[], log)
      && Format(t.tweetID) !in Timeline.Run(Timeline.LIMIT, AskedFor(u, log)).live
  {
    CreateThenDeleteSucceeds(t, around, 0, 1);
    var log := Run(INITIAL, CreateThenDelete(t, around)).log;
    TwoHandled(u, log[0], log[1]);
    PushedAloneStays(log[0].effect.tweet);
    assert AfterAll(u, map[], log) == Timeline.Applied(Timeline.LIMIT, map[], Timeline.Push(log[0].effect.tweet));
    PushThenRecallLeavesNone(Timeline.LIMIT, log[0].effect.tweet);
    assert AskedFor(u, log) == [Timeline.Push(log[0].effect.tweet), Timeline.Recall(t.tweetID)];
  }

  lemma PushedAloneStays(t: Timeline.Tweet)
    ensures Format(t.id) in Timeline.Applied(Timeline.LIMIT, map[], Timeline.Push(t))
  {
    var z: ZSet := map[Format(t.id) := t.createdAt.Unix()];
    assert [t][..0] == [];
    assert map[] + Timeline.Scores([t]) == z;
    TopSize(z, Timeline.LIMIT);
    assert |z| == 1;
    Sets.SameSize(Top(z, Timeline.LIMIT).Keys, z.Keys);
  }

  // ---- What becomes of each message ----

  // Turn i handled message k.
  predicate HandledIn(turns: seq<Turn>, k: nat, i: nat) {
    i < |turns| && |Run(INITIAL, turns[..i]).log| == k && |Run(INITIAL, turns[..i + 1]).log| == k + 1
  }

  lemma {:induction false} TurnOf(turns: seq<Turn>, k: nat) returns (i: nat)
    requires k < |Run(INITIAL, turns).log|
    ensures HandledIn(turns, k, i)
  {
    var n := |turns| - 1;
    assert turns[..n + 1] == turns;
    if k < |Run(INITIAL, turns[..n]).log| {
      i := TurnOf(turns[..n], k);
      assert turns[..n][..i] == turns[..i] && turns[..n][..i + 1] == turns[..i + 1];
    } else {
      i := n;
    }
  }

  lemma StepHandles(s: State, t: Turn, s': State)
    requires Conserved(s) && s' == Step(s, t) && |s'.log| == |s.log| + 1
    ensures
      var k := |s.log|;
      && k < |s'.queue.stream|
      && s'.log == s.log + [Handled(k, Succeeds(k, s'.queue.stream[k], t.around), t.check, t.done,
                                    EffectOf(k, s'.queue.stream[k], t.around))]
  {
  }

  lemma ThroughTurn(turns: seq<Turn>, k: nat, i: nat) returns (s: State, s': State)
    requires HandledIn(turns, k, i)
    ensures Conserved(s) && s' == Step(s, turns[i]) && |s.log| == k && |s'.log| == k + 1
    ensures
      var end := Run(INITIAL, turns);
      Conserved(end) && s'.log <= end.log && s'.queue.stream <= end.queue.stream
  {
    s, s' := Run(INITIAL, turns[..i]), Run(INITIAL, turns[..i + 1]);
    RunConserves(turns[..i]);
    RunConserves(turns);
    assert turns[..i + 1][..i] == turns[..i];
    assert turns == turns[..i + 1] + turns[i + 1..];
    RunKeepsRecord(turns[..i + 1], turns[i + 1..]);
  }

  // The record of a message, wherever the run goes on to.
  lemma RecordOf(turns: seq<Turn>, k: nat, i: nat, end: State)
    requires HandledIn(turns, k, i) && end == Run(INITIAL, turns)
    ensures
      && k < |end.log| && k < |end.queue.stream| && Conserved(end)
      && end.log[k].ok == Succeeds(k, end.queue.stream[k], turns[i].around)
      && end.log[k].effect == EffectOf(k, end.queue.stream[k], turns[i].around)
  {
    var s, s' := ThroughTurn(turns, k, i);
    StepHandles(s, turns[i], s');
    assert end.log[k] == s'.log[k] && end.queue.stream[k] == s'.queue.stream[k];
  }

  lemma AfterOneMore(u: int, log: seq<Handled>, k: nat)
    requires k < |log|
    ensures AfterAll(u, map[], log[..k + 1]) == After(u, AfterAll(u, map[], log[..k]), log[k].effect)
  {
    assert log[..k + 1][..k] == log[..k];
  }

  predicate FirstListed(users: seq<int>, u: int) {
    exists p :: 0 <= p < |users| && p < 1000 && users[p] == u
  }

  // What handling does to one user's timeline, follower by follower.
  lemma EffectOnTimeline(u: int, z: ZSet, e: Effect)
    ensures e.NoEffect? ==> After(u, z, e) == z
    ensures e.Pushed? ==> After(u, z, e) == if u in e.users then Timeline.AddAndTrim(z, [e.tweet], 1000) else z
    ensures e.Recalled? ==> After(u, z, e) == (if FirstListed(e.users, u) then z - {Format(e.id)} else z)
  {
    if e.Recalled? {
      Timeline.ServedAreFirst(e.users);
    }
  }

  // Main result: over every run, a handled create or delete task with positive ids is acknowledged
  // exactly if its followers were read and there were none or the pool and the write worked, and
  // is pending otherwise; acknowledged, it has pushed its tweet to every listed follower or taken it
  // from the first 1000, and it has changed no timeline otherwise.
  lemma {:induction false} HandledTaskIsDecided(turns: seq<Turn>, k: nat, i: nat, t: Task, u: int)
    requires HandledIn(turns, k, i)
    requires k < |Run(INITIAL, turns).queue.stream| && Run(INITIAL, turns).queue.stream[k] == Encode(t)
    requires IsInt64(t.tweetID) && IsInt64(t.authorID) && IsInt64(t.createdAt.Unix())
    requires t.tweetID > 0 && t.authorID > 0 && (t.action == "create" || t.action == "delete")
    ensures k < |Run(INITIAL, turns).log|
    ensures
      var end, around := Run(INITIAL, turns), turns[i].around;
      var before, after := AfterAll(u, map[], end.log[..k]), AfterAll(u, map[], end.log[..k + 1]);
      && (k in end.queue.acked <==> Works(around)) && (k in end.queue.pending <==> !Works(around))
      && (!Works(around) ==> after == before)
      && (Works(around) && t.action == "create" ==>
            after == (if u in around.followers.value
                      then Timeline.AddAndTrim(before, [Timeline.Tweet(t.tweetID, Time(t.createdAt.sec, 0))], 1000)
                      else before))
      && (Works(around) && t.action == "delete" ==>
            after == (if FirstListed(around.followers.value, u) then before - {Format(t.tweetID)} else before))
  {
    var end := Run(INITIAL, turns);
    RecordOf(turns, k, i, end);
    EncodedDecides(k, t, turns[i].around);
    AfterOneMore(u, end.log, k);
    EffectOnTimeline(u, AfterAll(u, map[], end.log[..k]), end.log[k].effect);
  }

  // A message that lacks a field or holds something else than text in it, or that encodes no
  // create or delete task with positive ids.
  predicate Improper(values: Values, t: Task) {
    || (exists key | key in ["tweet_id", "author_id", "at", "action"] :: key !in values || values[key].Other?)
    || (values == Encode(t) && IsInt64(t.tweetID) && IsInt64(t.authorID) && IsInt64(t.createdAt.Unix())
        && (t.tweetID <= 0 || t.authorID <= 0 || (t.action != "create" && t.action != "delete")))
  }

  lemma ImproperHasNoEffect(id: nat, values: Values, t: Task, around: Surroundings)
    requires Improper(values, t)
    ensures Succeeds(id, values, around) && EffectOf(id, values, around) == NoEffect
  {
    if HasFields(values) {
      EncodedDecides(id, t, around);
    }
  }

  // An improper message is acknowledged and changes nothing.
  lemma {:induction false} ImproperMessageIsDropped(turns: seq<Turn>, k: nat, i: nat, t: Task, u: int)
    requires HandledIn(turns, k, i) && k < |Run(INITIAL, turns).queue.stream|
    requires Improper(Run(INITIAL, turns).queue.stream[k], t)
    ensures k < |Run(INITIAL, turns).log|
    ensures
      var end := Run(INITIAL, turns);
      k in end.queue.acked && AfterAll(u, map[], end.log[..k + 1]) == AfterAll(u, map[], end.log[..k])
  {
    var end := Run(INITIAL, turns);
    RecordOf(turns, k, i, end);
    ImproperHasNoEffect(k, end.queue.stream[k], t, turns[i].around);
    AfterOneMore(u, end.log, k);
    EffectOnTimeline(u, AfterAll(u, map[], end.log[..k]), end.log[k].effect);
  }
}
