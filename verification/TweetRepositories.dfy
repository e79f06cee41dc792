// The tweets table and the repository over it and the cache (internal/db/tweet_store.go,
// internal/repository/tweet_repository.go).
module TweetRepositories {
  import opened TweetCache
  import opened Wrappers

  // Width of the content column.
  const MAX_CONTENT: nat := 1000

  datatype Error =
    InvalidUserID | InvalidTweetID | ContentMissing | TweetNotFound | UserNotFound | ValueTooLong | EditTimeExpired

  datatype Record = Record(id: int, tweet: Tweet)

  predicate IsSpaces(s: string) {
    forall i | 0 <= i < |s| :: s[i] == ' '
  }

  // What a varchar column keeps of a text: all of it if it fits; if only spaces stick out they are
  // cut off without an error.
  function Fit(content: string): Result<string, Error> {
    if |content| <= MAX_CONTENT then Ok(content)
    else if IsSpaces(content[MAX_CONTENT..]) then Ok(content[..MAX_CONTENT])
    else Err(ValueTooLong)
  }

  // ---- Operations, as steps of the cache protocol ----

  function Created(w: World, userID: int, content: string, userExists: bool): (World, Result<Record, Error>) {
    if Fit(content).Err? then (w, Err(ValueTooLong))
    else if !userExists then (w, Err(UserNotFound))
    else
      var id, t := w.lastID + 1, Tweet(userID, Fit(content).value, w.now, false);
      (Step(w, Create(id, t)), Ok(Record(id, t)))
  }

  // The row is compared with the text before it is cut to the column.
  function Updated(w: World, newContent: string, id: int): (World, Result<Record, Error>) {
    if Fit(newContent).Err? then (w, Err(ValueTooLong))
    else if id !in w.store || w.store[id].content == newContent then (w, Err(TweetNotFound))
    else
      var t := w.store[id].(content := Fit(newContent).value, isEdited := true);
      (Rewritten(w, id, t), Ok(Record(id, t)))
  }

  function Rewritten(w: World, id: int, t: Tweet): World {
    w.(store := w.store[id := t], cache := w.cache - {id}, updates := w.updates + multiset{Waiting(id, w.now + PAUSE)})
  }

  function Deleted(w: World, id: int): (World, Result<(), Error>) {
    if id !in w.store then (w, Err(TweetNotFound)) else (Step(Step(w, DeleteRow(id)), Invalidate(id)), Ok(()))
  }

  // A row read from the table carries no id.
  function Got(w: World, id: int): (World, Result<Record, Error>) {
    if id in w.cache then (w, Ok(Record(id, w.cache[id])))
    else if id !in w.store then (w, Err(TweetNotFound))
    else (Step(w, ReadForGet(id)), Ok(Record(0, w.store[id])))
  }

  class TweetRepository {
    var store: map<int, Tweet>
    var cache: map<int, Tweet>
    var now: int
    var lastID: int
    // Tasks in the pool: cache writes, and second invalidations with the time they are due.
    var flights: multiset<Flight>
    var updates: multiset<Update>

    constructor ()
      ensures Now() == INITIAL
    {
      store, cache, now, lastID, flights, updates := map[], map[], 0, 0, multiset{}, multiset{};
    }

    ghost function Now(): World
      reads this
    {
      World(store, cache, now, lastID, flights, updates)
    }

    method Create(userID: int, content: string, userExists: bool) returns (r: Result<Record, Error>)
      modifies this
      ensures (Now(), r) == Created(old(Now()), userID, content, userExists)
      ensures r.Ok? ==>
        && r.value.id == lastID == old(lastID) + 1 && store == old(store)[lastID := r.value.tweet] && cache == old(cache)
        && flights == old(flights) + multiset{Flight(lastID, r.value.tweet, now, false)}
    {
      var fit := Fit(content);
      if fit.Err? {
        return Err(ValueTooLong);
      }
      if !userExists {
        return Err(UserNotFound);
      }
      lastID := lastID + 1;
      var t := Tweet(userID, fit.value, now, false);
      store := store[lastID := t];
      flights := flights + multiset{Flight(lastID, t, now, false)};
      return Ok(Record(lastID, t));
    }

    method UpdateContent(newContent: string, id: int) returns (r: Result<Record, Error>)
      modifies this`store
      ensures r == Updated(old(Now()), newContent, id).1
      ensures store == if r.Ok? then old(store)[id := r.value.tweet] else old(store)
    {
      var fit := Fit(newContent);
      if fit.Err? {
        return Err(ValueTooLong);
      }
      if id !in store || store[id].content == newContent {
        return Err(TweetNotFound);
      }
      var t := store[id].(content := fit.value, isEdited := true);
      store := store[id := t];
      return Ok(Record(id, t));
    }

    method InvalidateKey(id: int)
      modifies this`cache
      ensures cache == old(cache) - {id}
    {
      cache := cache - {id};
    }

    method Update(newContent: string, id: int) returns (r: Result<Record, Error>)
      modifies this
      ensures (Now(), r) == Updated(old(Now()), newContent, id)
      ensures r.Ok? ==>
        cache == old(cache) - {id} && updates == old(updates) + multiset{Waiting(id, now + 800)} && flights == old(flights)
    {
      r := UpdateContent(newContent, id);
      if r.Err? {
        return;
      }
      InvalidateKey(id);
      updates := updates + multiset{Waiting(id, now + PAUSE)};
    }

    method Delete(id: int) returns (r: Result<(), Error>)
      modifies this
      ensures (Now(), r) == Deleted(old(Now()), id)
      ensures r == if id in old(store) then Ok(()) else Err(TweetNotFound)
      ensures store == old(store) - {id} && cache == (if r.Ok? then old(cache) - {id} else old(cache))
    {
      if id !in store {
        return Err(TweetNotFound);
      }
      store := store - {id};
      InvalidateKey(id);
      return Ok(());
    }

    method Get(id: int) returns (r: Result<Record, Error>)
      modifies this`flights
      ensures (Now(), r) == Got(old(Now()), id)
      ensures r == if id in cache then Ok(Record(id, cache[id])) else if id in store then Ok(Record(0, store[id]))
                   else Err(TweetNotFound)
      ensures flights == old(flights)
        + (if id !in cache && id in store then multiset{Flight(0, store[id], now, false)} else multiset{})
    {
      if id in cache {
        return Ok(Record(id, cache[id]));
      }
      if id !in store {
        return Err(TweetNotFound);
      }
      var record := Record(0, store[id]);
      flights := flights + multiset{Flight(record.id, record.tweet, now, false)};
      return Ok(record);
    }

    // One cache write queued in the pool.
    method RunFlight(f: Flight)
      requires f in flights
      modifies this`cache, this`flights
      ensures Now() == Step(old(Now()), Land(f))
      ensures cache == if f.onlyIfAbsent && f.key in old(cache) then old(cache) else old(cache)[f.key := f.value]
    {
      flights := flights - multiset{f};
      if f.onlyIfAbsent && f.key in cache {
        return;
      }
      cache := cache[f.key := f.value];
    }

    method RunSecondDelete(u: Update)
      requires u in updates && u.Waiting? && u.due <= now
      modifies this`cache, this`updates
      ensures Now() == Step(old(Now()), SecondInvalidate(u))
      ensures cache == old(cache) - {u.id}
    {
      updates := updates - multiset{u};
      InvalidateKey(u.id);
    }
  }

  // An update is three steps of the cache protocol.
  lemma UpdateIsThreeSteps(w: World, id: int, t: Tweet)
    ensures Step(Step(Step(w, WriteUpdate(id, t)), FirstInvalidate(id)), SubmitSecond(id)) == Rewritten(w, id, t)
  {
    TakeBack(w.updates, Written(id));
    TakeBack(w.updates, Invalidated(id));
  }

  lemma TakeBack(updates: multiset<Update>, u: Update)
    ensures updates + multiset{u} - multiset{u} == updates
  {
  }

  // ---- What the operations keep ----

  lemma OperationsKeepSafe(bound: int, w: World, content: string, user: int, id: int, userExists: bool)
    requires bound <= PAUSE && Safe(bound, w)
    ensures Safe(bound, Created(w, user, content, userExists).0)
    ensures Safe(bound, Updated(w, content, id).0)
    ensures Safe(bound, Deleted(w, id).0)
    ensures Safe(bound, Got(w, id).0)
  {
    if Created(w, user, content, userExists).1.Ok? {
      StepKeepsSafe(bound, w, Create(w.lastID + 1, Tweet(user, Fit(content).value, w.now, false)));
    }
    if Updated(w, content, id).1.Ok? {
      UpdateKeepsSafe(bound, w, id, w.store[id].(content := Fit(content).value, isEdited := true));
    }
    if id in w.store {
      StepKeepsSafe(bound, w, DeleteRow(id));
      StepKeepsSafe(bound, Step(w, DeleteRow(id)), Invalidate(id));
      if id !in w.cache {
        StepKeepsSafe(bound, w, ReadForGet(id));
      }
    }
  }

  lemma UpdateKeepsSafe(bound: int, w: World, id: int, t: Tweet)
    requires bound <= PAUSE && Safe(bound, w) && id in w.store
    ensures Safe(bound, Rewritten(w, id, t))
  {
    var w1 := Step(w, WriteUpdate(id, t));
    StepKeepsSafe(bound, w, WriteUpdate(id, t));
    assert Written(id) in w1.updates;
    var w2 := Step(w1, FirstInvalidate(id));
    StepKeepsSafe(bound, w1, FirstInvalidate(id));
    assert Invalidated(id) in w2.updates;
    UpdateIsThreeSteps(w, id, t);
    StepKeepsSafe(bound, w2, SubmitSecond(id));
  }

  // Cutting loses nothing but spaces; a text that differs from the stored one and yet stores the
  // same is a full column followed by spaces.
  lemma SameAfterFitIff(stored: string, content: string)
    requires |stored| <= MAX_CONTENT && content != stored
    ensures Fit(content) == Ok(stored)
      <==> |stored| == MAX_CONTENT && stored < content && IsSpaces(content[MAX_CONTENT..])
  {
    if |content| > MAX_CONTENT {
      assert content == content[..MAX_CONTENT] + content[MAX_CONTENT..];
      assert stored <= content ==> stored == content[..|stored|];
    }
  }

  // ---- Owner and creation time ----

  predicate SameBirth(t: Tweet, u: Tweet) {
    t.userID == u.userID && t.createdAt == u.createdAt
  }

  ghost predicate IsCopy(w: World, id: int, t: Tweet) {
    || (id in w.store && w.store[id] == t)
    || (id in w.cache && w.cache[id] == t)
    || (exists f :: f in w.flights && f.key == id && f.value == t)
  }

  // However stale, all copies of one tweet agree on its owner and creation time, and no copy
  // bears an id not given out yet.
  ghost predicate Faithful(w: World) {
    && 0 <= w.lastID
    && (forall id, t | IsCopy(w, id, t) :: id <= w.lastID)
    && (forall id, t, u | id > 0 && IsCopy(w, id, t) && IsCopy(w, id, u) :: SameBirth(t, u))
  }

  predicate KeepsBirth(w: World, e: Event) {
    e.WriteUpdate? && e.id in w.store ==> SameBirth(e.tweet, w.store[e.id])
  }

  lemma CopiesAfterWrite(w: World, e: Event, w': World, id: int, t: Tweet)
    requires e.WriteUpdate? && w' == Step(w, e) && IsCopy(w', id, t)
    ensures IsCopy(w, id, t) || (e.id == id && t == e.tweet)
  {
  }

  lemma CopiesAfterCreate(w: World, e: Event, w': World, id: int, t: Tweet)
    requires e.Create? && w' == Step(w, e) && IsCopy(w', id, t)
    ensures IsCopy(w, id, t) || (e.id == id && t == e.tweet)
  {
  }

  lemma CopiesAfterRead(w: World, e: Event, w': World, id: int, t: Tweet)
    requires (e.ReadForGet? || e.ReadForMultiGet?) && e.id in w.store && w' == Step(w, e) && IsCopy(w', id, t) && id > 0
    ensures IsCopy(w, id, t)
  {
  }

  lemma CopiesAfterLand(w: World, f: Flight, w': World, id: int, t: Tweet)
    requires f in w.flights && w' == Step(w, Land(f)) && IsCopy(w', id, t)
    ensures IsCopy(w, id, t)
  {
  }

  lemma CopiesAfterRemoval(w: World, w': World, id: int, t: Tweet)
    requires w'.flights <= w.flights && IsCopy(w', id, t)
    requires forall i | i in w'.store :: i in w.store && w'.store[i] == w.store[i]
    requires forall i | i in w'.cache :: i in w.cache && w'.cache[i] == w.cache[i]
    ensures IsCopy(w, id, t)
  {
  }

  // A copy after a step is a new tweet, or one before it has the same owner and time.
  lemma CopiesComeFromCopies(bound: int, w: World, e: Event, w': World, id: int, t: Tweet) returns (u: Tweet)
    requires Enabled(bound, w, e) && w' == Step(w, e) && KeepsBirth(w, e) && IsCopy(w', id, t) && id > 0
    ensures (IsCopy(w, id, u) && SameBirth(t, u)) || (e.Create? && e.id == id && t == e.tweet)
  {
    u := t;
    if e.WriteUpdate? {
      CopiesAfterWrite(w, e, w', id, t);
      u := if IsCopy(w, id, t) then t else w.store[id];
    } else if e.Create? {
      CopiesAfterCreate(w, e, w', id, t);
    } else if e.ReadForGet? || e.ReadForMultiGet? {
      CopiesAfterRead(w, e, w', id, t);
    } else if e.Land? {
      CopiesAfterLand(w, e.flight, w', id, t);
    } else {
      CopiesAfterRemoval(w, w', id, t);
    }
  }

  lemma StepKeepsFaithful(bound: int, w: World, e: Event)
    requires Faithful(w) && Enabled(bound, w, e) && KeepsBirth(w, e)
    ensures Faithful(Step(w, e))
  {
    var w' := Step(w, e);
    forall id, t | IsCopy(w', id, t) ensures id <= w'.lastID {
      if id > 0 {
        var u := CopiesComeFromCopies(bound, w, e, w', id, t);
      }
    }
    forall id, t, u | id > 0 && IsCopy(w', id, t) && IsCopy(w', id, u) ensures SameBirth(t, u) {
      var t0 := CopiesComeFromCopies(bound, w, e, w', id, t);
      var u0 := CopiesComeFromCopies(bound, w, e, w', id, u);
    }
  }

  lemma OperationsKeepFaithful(w: World, content: string, user: int, id: int, userExists: bool)
    requires Faithful(w)
    ensures Faithful(Created(w, user, content, userExists).0)
    ensures Faithful(Updated(w, content, id).0)
    ensures Faithful(Deleted(w, id).0)
    ensures Faithful(Got(w, id).0)
  {
    if Created(w, user, content, userExists).1.Ok? {
      StepKeepsFaithful(0, w, Create(w.lastID + 1, Tweet(user, Fit(content).value, w.now, false)));
    }
    if Updated(w, content, id).1.Ok? {
      UpdateKeepsFaithful(w, id, w.store[id].(content := Fit(content).value, isEdited := true));
    }
    if id in w.store {
      StepKeepsFaithful(0, w, DeleteRow(id));
      StepKeepsFaithful(0, Step(w, DeleteRow(id)), Invalidate(id));
      if id !in w.cache {
        StepKeepsFaithful(0, w, ReadForGet(id));
      }
    }
  }

  lemma UpdateKeepsFaithful(w: World, id: int, t: Tweet)
    requires Faithful(w) && id in w.store && SameBirth(t, w.store[id])
    ensures Faithful(Rewritten(w, id, t))
  {
    var w1 := Step(w, WriteUpdate(id, t));
    StepKeepsFaithful(0, w, WriteUpdate(id, t));
    assert Written(id) in w1.updates;
    var w2 := Step(w1, FirstInvalidate(id));
    StepKeepsFaithful(0, w1, FirstInvalidate(id));
    assert Invalidated(id) in w2.updates;
    UpdateIsThreeSteps(w, id, t);
    StepKeepsFaithful(0, w2, SubmitSecond(id));
  }
}
