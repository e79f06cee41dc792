// Tweets behind a cache that is filled in the background and invalidated twice on update
// (internal/repository/tweet_repository.go, internal/cache/tweet_cache.go).
module TweetCache {
  // Milliseconds between an update and its second invalidation.
  const PAUSE: int := 800

  datatype Tweet = Tweet(userID: int, content: string, createdAt: int, isEdited: bool)

  // A cache write on its way: the key and value, when the value was read or written in the store,
  // and whether it leaves an existing key alone.
  datatype Flight = Flight(key: int, value: Tweet, since: int, onlyIfAbsent: bool)

  // An update between its store write and its second invalidation.
  datatype Update = Written(id: int) | Invalidated(id: int) | Waiting(id: int, due: int)

  datatype World = World(
    store: map<int, Tweet>,
    cache: map<int, Tweet>,
    now: int,
    lastID: int,
    flights: multiset<Flight>,
    updates: multiset<Update>
  )

  const INITIAL := World(map[], map[], 0, 0, multiset{}, multiset{})

  datatype Event =
    | Tick(d: nat)
    | Create(id: int, tweet: Tweet)
    | WriteUpdate(id: int, tweet: Tweet)
    | FirstInvalidate(id: int)
    | SubmitSecond(id: int)
    | SecondInvalidate(update: Update)
    | DeleteRow(id: int)
    | Invalidate(id: int)
    | ReadForGet(id: int)
    | ReadForMultiGet(id: int)
    | Land(flight: Flight)
    | Drop(flight: Flight)
    | Expire(key: int)

  // Ids come from a sequence that only grows; a flight lands less than `bound` after its store access, or not at all.
  predicate Enabled(bound: int, w: World, e: Event) {
    match e
    case Create(id, _) => id > w.lastID
    case WriteUpdate(id, _) => id in w.store
    case FirstInvalidate(id) => Written(id) in w.updates
    case SubmitSecond(id) => Invalidated(id) in w.updates
    case SecondInvalidate(u) => u in w.updates && u.Waiting? && u.due <= w.now
    case ReadForGet(id) => id !in w.cache && id in w.store
    case ReadForMultiGet(id) => id in w.store
    case Land(f) => f in w.flights && w.now < f.since + bound
    case Drop(f) => f in w.flights
    case _ => true
  }

  function Landed(cache: map<int, Tweet>, f: Flight): map<int, Tweet> {
    if f.onlyIfAbsent && f.key in cache then cache else cache[f.key := f.value]
  }

  function Step(w: World, e: Event): World {
    match e
    case Tick(d) => w.(now := w.now + d)
    case Create(id, t) =>
      w.(store := w.store[id := t], lastID := id, flights := w.flights + multiset{Flight(id, t, w.now, false)})
    case WriteUpdate(id, t) => w.(store := w.store[id := t], updates := w.updates + multiset{Written(id)})
    case FirstInvalidate(id) =>
      w.(cache := w.cache - {id}, updates := w.updates - multiset{Written(id)} + multiset{Invalidated(id)})
    case SubmitSecond(id) =>
      w.(updates := w.updates - multiset{Invalidated(id)} + multiset{Waiting(id, w.now + PAUSE)})
    case SecondInvalidate(u) => w.(cache := w.cache - {u.id}, updates := w.updates - multiset{u})
    case DeleteRow(id) => w.(store := w.store - {id})
    case Invalidate(id) => w.(cache := w.cache - {id})
    // The single-row query does not select the id, so its row is cached under key 0.
    case ReadForGet(id) =>
      if id in w.store then w.(flights := w.flights + multiset{Flight(0, w.store[id], w.now, false)}) else w
    case ReadForMultiGet(id) =>
      if id in w.store then w.(flights := w.flights + multiset{Flight(id, w.store[id], w.now, true)}) else w
    case Land(f) => w.(cache := Landed(w.cache, f), flights := w.flights - multiset{f})
    case Drop(f) => w.(flights := w.flights - multiset{f})
    case Expire(key) => w.(cache := w.cache - {key})
  }

  // Every read of a stored tweet that is not cached, and every creation, queues a cache write of
  // what was read or written: under key 0 for a single read, and not over an existing key for a batch.
  lemma ReadsQueueWrites(w: World, id: int, t: Tweet)
    ensures id in w.store ==>
      && Flight(0, w.store[id], w.now, false) in Step(w, ReadForGet(id)).flights
      && Flight(id, w.store[id], w.now, true) in Step(w, ReadForMultiGet(id)).flights
    ensures Flight(id, t, w.now, false) in Step(w, Create(id, t)).flights
  {
  }

  // ws[i] is the world before events[i], the last one the world after them all.
  predicate IsRunFrom(bound: int, w: World, ws: seq<World>, events: seq<Event>) {
    && |ws| == |events| + 1 && ws[0] == w
    && forall i | 0 <= i < |events| :: Enabled(bound, ws[i], events[i]) && ws[i + 1] == Step(ws[i], events[i])
  }

  predicate IsRun(bound: int, ws: seq<World>, events: seq<Event>) {
    IsRunFrom(bound, INITIAL, ws, events)
  }

  ghost predicate Outstanding(w: World, id: int) {
    exists u :: u in w.updates && u.id == id
  }

  // A stored tweet with no update outstanding is not cached, or cached as it is stored.
  ghost predicate Coherent(w: World) {
    forall id | id in w.store && id in w.cache && !Outstanding(w, id) :: w.cache[id] == w.store[id]
  }

  // Update u will still invalidate after every flight that began at `since` has landed.
  predicate Covers(bound: int, u: Update, id: int, since: int) {
    u.id == id && (u.Waiting? ==> since + bound <= u.due)
  }

  ghost predicate Covered(bound: int, w: World, f: Flight) {
    || (f.key in w.store && f.value == w.store[f.key])
    || f.key !in w.store
    || (exists u :: u in w.updates && Covers(bound, u, f.key, f.since))
    || f.since + bound <= w.now
  }

  ghost predicate Safe(bound: int, w: World) {
    && 0 <= w.lastID
    && (forall id | id in w.store :: 0 < id <= w.lastID)
    && (forall id | id in w.cache :: id <= w.lastID)
    && (forall f | f in w.flights :: f.key <= w.lastID && f.since <= w.now && Covered(bound, w, f))
    && (forall u | u in w.updates :: u.id <= w.lastID)
    && Coherent(w)
  }

  // Updates that stay, or are followed by an equal cover, keep a flight covered.
  lemma CoverStays(bound: int, w: World, w': World, f: Flight)
    requires Covered(bound, w, f) && w.now <= w'.now
    requires f.key in w'.store ==> f.key in w.store && w'.store[f.key] == w.store[f.key]
    requires forall u | u in w.updates && Covers(bound, u, f.key, f.since) ::
      u in w'.updates || (exists v :: v in w'.updates && Covers(bound, v, f.key, f.since)) || f.since + bound <= w'.now
    ensures Covered(bound, w', f)
  {
  }

  // An update moves on, or ends and leaves its key uncached.
  lemma UpdatesMoveOn(bound: int, w: World, past: Update, next: multiset<Update>, cache: map<int, Tweet>)
    requires Safe(bound, w) && past in w.updates
    requires forall id | id in cache :: id in w.cache && cache[id] == w.cache[id]
    requires forall u | u in next :: u.id == past.id
    requires next != multiset{} || past.id !in cache
    requires forall f | f in w.flights && Covers(bound, past, f.key, f.since) ::
      (exists v :: v in next && Covers(bound, v, f.key, f.since)) || f.since + bound <= w.now
    ensures Safe(bound, w.(updates := w.updates - multiset{past} + next, cache := cache))
  {
    var w' := w.(updates := w.updates - multiset{past} + next, cache := cache);
    forall f | f in w'.flights ensures Covered(bound, w', f) {
      CoverStays(bound, w, w', f);
    }
    OutstandingStays(w.updates, past, next);
    forall id | id in w'.store && id in w'.cache && !Outstanding(w', id) ensures w'.cache[id] == w'.store[id] {
      assert !Outstanding(w, id);
    }
  }

  lemma OutstandingStays(updates: multiset<Update>, past: Update, next: multiset<Update>)
    ensures forall u | u in updates && u != past :: u in updates - multiset{past} + next
    ensures next != multiset{} && (forall u | u in next :: u.id == past.id) ==>
      exists u :: u in updates - multiset{past} + next && u.id == past.id
  {
    if next != multiset{} && forall u | u in next :: u.id == past.id {
      var u :| u in next;
      assert u in updates - multiset{past} + next;
    }
  }

  lemma FirstInvalidateKeepsSafe(bound: int, w: World, id: int)
    requires Safe(bound, w) && Written(id) in w.updates
    ensures Safe(bound, Step(w, FirstInvalidate(id)))
  {
    var next := Invalidated(id);
    forall f | f in w.flights && Covers(bound, Written(id), f.key, f.since) ensures Covers(bound, next, f.key, f.since) {
    }
    assert next in multiset{next};
    UpdatesMoveOn(bound, w, Written(id), multiset{next}, w.cache - {id});
  }

  // The second invalidation is due after every flight that began by now has landed.
  lemma SubmitSecondKeepsSafe(bound: int, w: World, id: int)
    requires bound <= PAUSE && Safe(bound, w) && Invalidated(id) in w.updates
    ensures Safe(bound, Step(w, SubmitSecond(id)))
  {
    var next := Waiting(id, w.now + PAUSE);
    forall f | f in w.flights && Covers(bound, Invalidated(id), f.key, f.since)
      ensures Covers(bound, next, f.key, f.since)
    {
    }
    assert next in multiset{next};
    UpdatesMoveOn(bound, w, Invalidated(id), multiset{next}, w.cache);
    assert w.(updates := w.updates - multiset{Invalidated(id)} + multiset{next}, cache := w.cache)
      == Step(w, SubmitSecond(id));
  }

  lemma SecondInvalidateKeepsSafe(bound: int, w: World, u: Update)
    requires Safe(bound, w) && Enabled(bound, w, SecondInvalidate(u))
    ensures Safe(bound, Step(w, SecondInvalidate(u)))
  {
    UpdatesMoveOn(bound, w, u, multiset{}, w.cache - {u.id});
    assert w.updates - multiset{u} + multiset{} == w.updates - multiset{u};
  }

  lemma WriteStepKeepsSafe(bound: int, w: World, e: Event)
    requires Safe(bound, w) && Enabled(bound, w, e) && e.WriteUpdate?
    ensures Safe(bound, Step(w, e))
  {
    var w' := Step(w, e);
    assert Written(e.id) in w'.updates;
    forall f | f in w'.flights ensures Covered(bound, w', f) {
      if f.key == e.id {
        assert Covers(bound, Written(e.id), f.key, f.since);
      } else {
        CoverStays(bound, w, w', f);
      }
    }
    forall id | id in w'.store && id in w'.cache && !Outstanding(w', id) ensures w'.cache[id] == w'.store[id] {
      forall u | u in w.updates ensures u.id != id {
        assert u in w'.updates;
      }
    }
  }

  lemma LandStepKeepsSafe(bound: int, w: World, f: Flight)
    requires Safe(bound, w) && Enabled(bound, w, Land(f))
    ensures Safe(bound, Step(w, Land(f)))
  {
    var w' := Step(w, Land(f));
    forall g | g in w'.flights ensures Covered(bound, w', g) {
      CoverStays(bound, w, w', g);
    }
    assert Covered(bound, w, f);
    forall id | id in w'.store && id in w'.cache && !Outstanding(w', id) ensures w'.cache[id] == w'.store[id] {
      assert !Outstanding(w, id);
    }
  }

  lemma ReadStepKeepsSafe(bound: int, w: World, e: Event)
    requires Safe(bound, w) && Enabled(bound, w, e)
    requires e.Create? || e.ReadForGet? || e.ReadForMultiGet?
    ensures Safe(bound, Step(w, e))
  {
    var w' := Step(w, e);
    forall f | f in w'.flights ensures Covered(bound, w', f) {
      if f in w.flights {
        CoverStays(bound, w, w', f);
      }
    }
    forall id | id in w'.store && id in w'.cache && !Outstanding(w', id) ensures w'.cache[id] == w'.store[id] {
      assert !Outstanding(w, id);
    }
  }

  lemma StepKeepsSafe(bound: int, w: World, e: Event)
    requires bound <= PAUSE && Safe(bound, w) && Enabled(bound, w, e)
    ensures Safe(bound, Step(w, e))
  {
    if e.FirstInvalidate? {
      FirstInvalidateKeepsSafe(bound, w, e.id);
    } else if e.SubmitSecond? {
      SubmitSecondKeepsSafe(bound, w, e.id);
    } else if e.SecondInvalidate? {
      SecondInvalidateKeepsSafe(bound, w, e.update);
    } else if e.WriteUpdate? {
      WriteStepKeepsSafe(bound, w, e);
    } else if e.Land? {
      LandStepKeepsSafe(bound, w, e.flight);
    } else if e.Create? || e.ReadForGet? || e.ReadForMultiGet? {
      ReadStepKeepsSafe(bound, w, e);
    } else {
      var w' := Step(w, e);
      forall f | f in w'.flights ensures Covered(bound, w', f) {
        CoverStays(bound, w, w', f);
      }
      forall id | id in w'.store && id in w'.cache && !Outstanding(w', id) ensures w'.cache[id] == w'.store[id] {
        assert !Outstanding(w, id);
      }
    }
  }

  lemma {:induction false} RunIsSafe(bound: int, ws: seq<World>, events: seq<Event>, i: nat)
    requires bound <= PAUSE && IsRun(bound, ws, events) && i <= |events|
    ensures Safe(bound, ws[i])
  {
    if i > 0 {
      RunIsSafe(bound, ws, events, i - 1);
      StepKeepsSafe(bound, ws[i - 1], events[i - 1]);
    }
  }

  // Main result: the second invalidation removes whatever slow readers left behind, in every
  // interleaving, exactly when cache writes land less than its delay after their store access.
  lemma DoubleDeleteIsCoherentIff(bound: int)
    ensures (forall ws, events | IsRun(bound, ws, events) :: Coherent(ws[|events|])) <==> bound <= 800
  {
    if bound <= PAUSE {
      forall ws, events | IsRun(bound, ws, events) ensures Coherent(ws[|events|]) {
        RunIsSafe(bound, ws, events, |events|);
      }
    } else {
      var ws, events := SlowFlightStaysStale(bound);
    }
  }

  lemma RunOn(bound: int, ws: seq<World>, events: seq<Event>, e: Event) returns (ws': seq<World>, events': seq<Event>)
    requires IsRun(bound, ws, events) && Enabled(bound, ws[|events|], e)
    ensures IsRun(bound, ws', events') && ws'[|events'|] == Step(ws[|events|], e)
  {
    ws', events' := ws + [Step(ws[|events|], e)], events + [e];
  }

  // A write that takes as long as the delay, or longer, may land after the second invalidation.
  lemma SlowFlightStaysStale(bound: int) returns (ws: seq<World>, events: seq<Event>)
    requires bound > PAUSE
    ensures IsRun(bound, ws, events) && !Coherent(ws[|events|])
    ensures ws[|events|].flights == multiset{} && ws[|events|].updates == multiset{}
  {
    var first, edited := Tweet(1, "a", 0, false), Tweet(1, "b", 0, true);
    ws, events := UpdateOverSlowFlight(bound, first, edited);
    ws, events := RunOn(bound, ws, events, SecondInvalidate(Waiting(1, PAUSE)));
    ws, events := RunOn(bound, ws, events, Land(Flight(1, first, 0, false)));
    assert ws[|events|] == World(map[1 := edited], map[1 := first], PAUSE, 1, multiset{}, multiset{});
  }

  lemma WriteOverSlowFlight(bound: int, first: Tweet, edited: Tweet) returns (ws: seq<World>, events: seq<Event>)
    ensures IsRun(bound, ws, events)
    ensures ws[|events|]
      == World(map[1 := edited], map[], 0, 1, multiset{Flight(1, first, 0, false)}, multiset{Written(1)})
  {
    ws, events := [INITIAL], [];
    ws, events := RunOn(bound, ws, events, Create(1, first));
    ws, events := RunOn(bound, ws, events, WriteUpdate(1, edited));
  }

  lemma UpdateOverSlowFlight(bound: int, first: Tweet, edited: Tweet) returns (ws: seq<World>, events: seq<Event>)
    ensures IsRun(bound, ws, events)
    ensures ws[|events|]
      == World(map[1 := edited], map[], PAUSE, 1, multiset{Flight(1, first, 0, false)}, multiset{Waiting(1, PAUSE)})
  {
    ws, events := WriteOverSlowFlight(bound, first, edited);
    var flights := multiset{Flight(1, first, 0, false)};
    ws, events := RunOn(bound, ws, events, FirstInvalidate(1));
    assert ws[|events|] == World(map[1 := edited], map[], 0, 1, flights, multiset{Invalidated(1)});
    ws, events := RunOn(bound, ws, events, SubmitSecond(1));
    assert ws[|events|] == World(map[1 := edited], map[], 0, 1, flights, multiset{Waiting(1, PAUSE)});
    ws, events := RunOn(bound, ws, events, Tick(PAUSE));
  }

  // ---- Deletion invalidates once ----

  // A deleted tweet whose key is gone, with no write in flight that can still land.
  ghost predicate Gone(bound: int, w: World, id: int) {
    && id !in w.store && id !in w.cache && 0 < id <= w.lastID
    && forall f | f in w.flights && f.key == id :: f.since + bound <= w.now
  }

  lemma StepKeepsNoneToLand(bound: int, w: World, e: Event, w': World, id: int)
    requires Gone(bound, w, id) && Enabled(bound, w, e) && w' == Step(w, e)
    ensures w.now <= w'.now
    ensures forall f | f in w'.flights && f.key == id :: f in w.flights
  {
  }

  lemma StepKeepsUncached(bound: int, w: World, e: Event, w': World, id: int)
    requires Gone(bound, w, id) && Enabled(bound, w, e) && w' == Step(w, e)
    ensures id !in w'.store && id !in w'.cache && id <= w'.lastID
  {
  }

  lemma {:induction false} GoneIsForEver(bound: int, ws: seq<World>, events: seq<Event>, j: nat, id: int)
    requires |ws| > 0 && IsRunFrom(bound, ws[0], ws, events) && j <= |events| && Gone(bound, ws[0], id)
    ensures Gone(bound, ws[j], id)
  {
    if j > 0 {
      var w, e, w' := ws[j - 1], events[j - 1], ws[j];
      GoneIsForEver(bound, ws, events, j - 1, id);
      StepKeepsNoneToLand(bound, w, e, w', id);
      StepKeepsUncached(bound, w, e, w', id);
    }
  }

  // Main result: a deleted, uncached tweet stays uncached in every continuation exactly when no
  // write of its key is in flight that is still within its bound.
  lemma {:induction false} DeletionIsFinalIff(bound: int, w: World, id: int)
    requires id !in w.store && id !in w.cache && 0 < id <= w.lastID
    ensures (forall ws: seq<World>, events: seq<Event> | IsRunFrom(bound, w, ws, events) :: id !in ws[|events|].cache) <==>
      (forall f | f in w.flights && f.key == id :: f.since + bound <= w.now)
  {
    if Gone(bound, w, id) {
      forall ws: seq<World>, events: seq<Event> | IsRunFrom(bound, w, ws, events) ensures id !in ws[|events|].cache {
        GoneIsForEver(bound, ws, events, |events|, id);
      }
    } else {
      var f :| f in w.flights && f.key == id && w.now < f.since + bound;
      var ws, events := [w, Step(w, Land(f))], [Land(f)];
      assert IsRunFrom(bound, w, ws, events) && id in ws[|events|].cache;
    }
  }

  // A flight begun before the deletion can bring a deleted tweet back into the cache.
  lemma DeletedTweetMayReturn() returns (ws: seq<World>, events: seq<Event>)
    ensures IsRun(PAUSE, ws, events)
    ensures 1 in ws[|events|].cache && 1 !in ws[|events|].store && ws[|events|].flights == multiset{}
  {
    var t := Tweet(1, "a", 0, false);
    ws, events := [INITIAL], [];
    ws, events := RunOn(PAUSE, ws, events, Create(1, t));
    ws, events := RunOn(PAUSE, ws, events, DeleteRow(1));
    ws, events := RunOn(PAUSE, ws, events, Invalidate(1));
    ws, events := RunOn(PAUSE, ws, events, Land(Flight(1, t, 0, false)));
  }
}
