// The life of a tweet: posting, editing and removing through the service
// (internal/service/tweet_service.go, internal/dto/tweet_dto.go).
module TweetServices {
  import opened TweetCache
  import opened TweetRepositories
  import opened FanoutTasks
  import opened Decimals
  import opened Times
  import opened Wrappers
  import FanoutWorker
  import MessageQueue
  import Timeline

  // Milliseconds in which a tweet can be edited: ten minutes.
  const EDIT_WINDOW: int := 600_000

  function TimeOf(ms: int): Time {
    Time(ms / 1000, ms % 1000 * 1_000_000)
  }

  predicate CanBeUpdated(t: Tweet, now: int) {
    now - t.createdAt <= EDIT_WINDOW
  }

  // What a user may do with a tweet; another's tweet is still handed over.
  datatype Access = Mine(record: Record) | Forbidden(record: Record) | Failed(error: Error)

  // Tables, cache and pool, and the fan-out tasks sent so far.
  datatype State = State(w: World, sent: seq<Task>)

  function TaskFor(r: Record, action: string): Task {
    Task(r.id, r.tweet.userID, TimeOf(r.tweet.createdAt), action)
  }

  function Posted(s: State, userID: int, content: string, userExists: bool): (State, Result<Record, Error>) {
    if userID <= 0 then (s, Err(InvalidUserID))
    else if content == "" then (s, Err(ContentMissing))
    else
      var (w, r) := Created(s.w, userID, content, userExists);
      if r.Err? then (s.(w := w), r) else (State(w, s.sent + [TaskFor(r.value, ACTION_CREATE)]), r)
  }

  function Fetched(w: World, id: int): (World, Result<Record, Error>) {
    if id <= 0 then (w, Err(InvalidTweetID)) else Got(w, id)
  }

  function Accessed(w: World, id: int, userID: int): (World, Access) {
    if userID <= 0 then (w, Failed(InvalidUserID))
    else
      var (w', r) := Fetched(w, id);
      (w', if r.Err? then Failed(r.error) else if r.value.tweet.userID != userID then Forbidden(r.value) else Mine(r.value))
  }

  // An edit by another user is answered like a success.
  function Edited(w: World, newContent: string, id: int, userID: int): (World, Result<(Record, bool), Error>) {
    if userID <= 0 then (w, Err(InvalidUserID))
    else if newContent == "" then (w, Err(ContentMissing))
    else
      var (w', access) := Accessed(w, id, userID);
      match access
      case Failed(e) => (w', Err(e))
      case Forbidden(record) => (w', Ok((record, true)))
      case Mine(record) =>
        if record.tweet.content == newContent then (w', Ok((record, false)))
        else if !CanBeUpdated(record.tweet, w.now) then (w', Err(EditTimeExpired))
        else
          var (w'', r) := Updated(w', newContent, id);
          (w'', if r.Err? then Err(r.error) else Ok((r.value, true)))
  }

  function Removed(s: State, id: int, userID: int): (State, Result<(), Error>) {
    if userID <= 0 then (s, Err(InvalidUserID))
    else
      var (w', access) := Accessed(s.w, id, userID);
      match access
      case Failed(e) => (s.(w := w'), Err(e))
      case Forbidden(_) => (s.(w := w'), Ok(()))
      case Mine(record) =>
        var (w'', r) := Deleted(w', id);
        (State(w'', if r.Ok? then s.sent + [TaskFor(record, ACTION_DELETE)] else s.sent), r)
  }

  class TweetService {
    const repository: TweetRepository
    var sent: seq<Task>

    constructor (repository: TweetRepository)
      ensures this.repository == repository && sent == []
    {
      this.repository, sent := repository, [];
    }

    ghost function Now(): State
      reads this, repository
    {
      State(repository.Now(), sent)
    }

    method PostTweet(userID: int, content: string, userExists: bool) returns (r: Result<Record, Error>)
      modifies this, repository
      ensures (Now(), r) == Posted(old(Now()), userID, content, userExists)
    {
      if userID <= 0 {
        return Err(InvalidUserID);
      }
      if content == "" {
        return Err(ContentMissing);
      }
      r := repository.Create(userID, content, userExists);
      if r.Ok? {
        sent := sent + [TaskFor(r.value, ACTION_CREATE)];
      }
    }

    method FetchTweet(id: int) returns (r: Result<Record, Error>)
      modifies repository`flights
      ensures (repository.Now(), r) == Fetched(old(repository.Now()), id)
    {
      if id <= 0 {
        return Err(InvalidTweetID);
      }
      r := repository.Get(id);
    }

    method ToMyTweet(id: int, userID: int) returns (access: Access)
      modifies repository`flights
      ensures (repository.Now(), access) == Accessed(old(repository.Now()), id, userID)
    {
      if userID <= 0 {
        return Failed(InvalidUserID);
      }
      var r := FetchTweet(id);
      if r.Err? {
        return Failed(r.error);
      }
      if r.value.tweet.userID != userID {
        return Forbidden(r.value);
      }
      return Mine(r.value);
    }

    method EditTweet(newContent: string, id: int, userID: int) returns (r: Result<(Record, bool), Error>)
      modifies repository
      ensures (repository.Now(), r) == Edited(old(repository.Now()), newContent, id, userID)
    {
      if userID <= 0 {
        return Err(InvalidUserID);
      }
      if newContent == "" {
        return Err(ContentMissing);
      }
      var access := ToMyTweet(id, userID);
      match access {
        case Failed(e) => return Err(e);
        case Forbidden(record) => return Ok((record, true));
        case Mine(record) =>
          if record.tweet.content == newContent {
            return Ok((record, false));
          }
          if !CanBeUpdated(record.tweet, repository.now) {
            return Err(EditTimeExpired);
          }
          var updated := repository.Update(newContent, id);
          if updated.Err? {
            return Err(updated.error);
          }
          return Ok((updated.value, true));
      }
    }

    method RemoveTweet(id: int, userID: int) returns (r: Result<(), Error>)
      modifies this, repository
      ensures (Now(), r) == Removed(old(Now()), id, userID)
    {
      if userID <= 0 {
        return Err(InvalidUserID);
      }
      var access := ToMyTweet(id, userID);
      match access {
        case Failed(e) => return Err(e);
        case Forbidden(_) => return Ok(());
        case Mine(record) =>
          r := repository.Delete(id);
          if r.Ok? {
            sent := sent + [TaskFor(record, ACTION_DELETE)];
          }
      }
    }
  }

  // ---- Courses of calls, with the pool at work between them ----

  datatype Call =
    | Post(userID: int, content: string, userExists: bool)
    | Fetch(id: int)
    | Edit(content: string, id: int, userID: int)
    | Remove(id: int, userID: int)

  datatype Move = Serve(call: Call) | Behind(event: Event)

  const START := State(INITIAL, [])

  function Served(s: State, c: Call): State {
    match c
    case Post(user, content, userExists) => Posted(s, user, content, userExists).0
    case Fetch(id) => s.(w := Fetched(s.w, id).0)
    case Edit(content, id, user) => s.(w := Edited(s.w, content, id, user).0)
    case Remove(id, user) => Removed(s, id, user).0
  }

  // Besides calls, time passes, batches are read, pool tasks run or fail, and keys expire.
  predicate Allowed(bound: int, s: State, m: Move) {
    m.Behind? ==>
      && Enabled(bound, s.w, m.event)
      && (m.event.Tick? || m.event.SecondInvalidate? || m.event.ReadForMultiGet? || m.event.Land? || m.event.Drop?
          || m.event.Expire?)
  }

  function Next(s: State, m: Move): State {
    if m.Serve? then Served(s, m.call) else s.(w := Step(s.w, m.event))
  }

  predicate IsCourse(bound: int, ss: seq<State>, moves: seq<Move>) {
    && |ss| == |moves| + 1 && ss[0] == START
    && forall i | 0 <= i < |moves| :: Allowed(bound, ss[i], moves[i]) && ss[i + 1] == Next(ss[i], moves[i])
  }

  ghost predicate Sound(w: World) {
    && Faithful(w)
    && forall id | id in w.store :: 0 < id && |w.store[id].content| <= MAX_CONTENT
  }

  lemma FetchKeeps(w: World, id: int)
    ensures Fetched(w, id).0.store == w.store && Fetched(w, id).0.lastID == w.lastID && Fetched(w, id).0.now == w.now
    ensures Faithful(w) ==> Faithful(Fetched(w, id).0)
    ensures forall bound | bound <= PAUSE && Safe(bound, w) :: Safe(bound, Fetched(w, id).0)
  {
    if Faithful(w) {
      OperationsKeepFaithful(w, "", 0, id, false);
    }
    forall bound | bound <= PAUSE && Safe(bound, w) ensures Safe(bound, Fetched(w, id).0) {
      OperationsKeepSafe(bound, w, "", 0, id, false);
    }
  }

  // A fetched tweet has the owner and the creation time of the stored one, however stale it is.
  lemma FetchedIsFaithful(w: World, id: int)
    requires Faithful(w) && id in w.store && id > 0
    ensures var r := Fetched(w, id).1; r.Ok? && SameBirth(r.value.tweet, w.store[id])
  {
    assert IsCopy(w, id, w.store[id]);
    if id in w.cache {
      assert IsCopy(w, id, w.cache[id]);
    }
  }

  // A call ends where it began, or after its fetch, or after an operation that follows the fetch.
  ghost predicate EndsIn(w: World, content: string, id: int, w': World) {
    var f := Fetched(w, id).0;
    w' in {w, f, Updated(f, content, id).0, Deleted(f, id).0}
  }

  lemma EditEndsIn(w: World, content: string, id: int, user: int)
    ensures EndsIn(w, content, id, Edited(w, content, id, user).0)
  {
  }

  lemma RemoveEndsIn(s: State, id: int, user: int)
    ensures EndsIn(s.w, "", id, Removed(s, id, user).0.w)
  {
  }

  lemma EndsFaithful(w: World, content: string, id: int, w': World)
    requires Faithful(w) && EndsIn(w, content, id, w')
    ensures Faithful(w')
  {
    FetchKeeps(w, id);
    OperationsKeepFaithful(Fetched(w, id).0, content, 0, id, false);
  }

  lemma EndsSafe(bound: int, w: World, content: string, id: int, w': World)
    requires bound <= PAUSE && Safe(bound, w) && EndsIn(w, content, id, w')
    ensures Safe(bound, w')
  {
    FetchKeeps(w, id);
    OperationsKeepSafe(bound, Fetched(w, id).0, content, 0, id, false);
  }

  lemma CallKeepsFaithful(s: State, c: Call)
    requires Faithful(s.w)
    ensures Faithful(Served(s, c).w)
  {
    match c {
      case Post(user, content, userExists) => OperationsKeepFaithful(s.w, content, user, 0, userExists);
      case Fetch(id) => FetchKeeps(s.w, id);
      case Edit(content, id, user) =>
        EditEndsIn(s.w, content, id, user);
        EndsFaithful(s.w, content, id, Edited(s.w, content, id, user).0);
      case Remove(id, user) =>
        RemoveEndsIn(s, id, user);
        EndsFaithful(s.w, "", id, Removed(s, id, user).0.w);
    }
  }

  lemma CallKeepsSafe(bound: int, s: State, c: Call)
    requires bound <= PAUSE && Safe(bound, s.w)
    ensures Safe(bound, Served(s, c).w)
  {
    match c {
      case Post(user, content, userExists) => OperationsKeepSafe(bound, s.w, content, user, 0, userExists);
      case Fetch(id) => FetchKeeps(s.w, id);
      case Edit(content, id, user) =>
        EditEndsIn(s.w, content, id, user);
        EndsSafe(bound, s.w, content, id, Edited(s.w, content, id, user).0);
      case Remove(id, user) =>
        RemoveEndsIn(s, id, user);
        EndsSafe(bound, s.w, "", id, Removed(s, id, user).0.w);
    }
  }

  // An edit touches the row of its own tweet or nothing: only for the owner, only within the
  // window, and only for another text.
  lemma EditTouchesOwnRow(w: World, content: string, id: int, user: int)
    requires Sound(w)
    ensures
      var w' := Edited(w, content, id, user).0;
      w'.lastID == w.lastID &&
      (w'.store == w.store
       || (id in w.store && w.store[id].userID == user && CanBeUpdated(w.store[id], w.now)
           && content != w.store[id].content && Fit(content).Ok?
           && w'.store == w.store[id := w.store[id].(content := Fit(content).value, isEdited := true)]))
  {
    FetchKeeps(w, id);
    if id in w.store {
      FetchedIsFaithful(w, id);
    }
  }

  lemma RemoveTouchesOwnRow(s: State, id: int, user: int)
    requires Sound(s.w)
    ensures
      var w' := Removed(s, id, user).0.w;
      w'.lastID == s.w.lastID &&
      (w'.store == s.w.store || (id in s.w.store && s.w.store[id].userID == user && w'.store == s.w.store - {id}))
  {
    FetchKeeps(s.w, id);
    if id in s.w.store {
      FetchedIsFaithful(s.w, id);
    }
  }

  // What one move may do to the row of one tweet.
  ghost predicate RowMoves(s: State, m: Move, s': State, id: int) {
    var was, now := s.w.store, s'.w.store;
    && s.w.lastID <= s'.w.lastID
    && (id in was && id !in now ==> m == Serve(Remove(id, was[id].userID)))
    && (id in was && id in now && was[id] != now[id] ==>
          exists content :: m == Serve(Edit(content, id, was[id].userID)) && content != was[id].content
            && s.w.now - was[id].createdAt <= 600_000 && Fit(content).Ok?
            && now[id] == was[id].(content := Fit(content).value, isEdited := true))
    && (id !in was && id in now ==>
          id > s.w.lastID && m.Serve? && m.call.Post? && Fit(m.call.content).Ok?
          && now[id] == Tweet(m.call.userID, Fit(m.call.content).value, s.w.now, false))
  }

  lemma StoredBelowLast(w: World)
    requires Faithful(w)
    ensures forall id | id in w.store :: id <= w.lastID
  {
    forall id | id in w.store ensures id <= w.lastID {
      assert IsCopy(w, id, w.store[id]);
    }
  }

  lemma MoveMovesRow(bound: int, s: State, m: Move, id: int)
    requires Sound(s.w) && Allowed(bound, s, m)
    ensures RowMoves(s, m, Next(s, m), id)
  {
    StoredBelowLast(s.w);
    if m.Serve? {
      match m.call {
        case Post(_, _, _) =>
        case Fetch(f) => FetchKeeps(s.w, f);
        case Edit(content, e, user) => EditTouchesOwnRow(s.w, content, e, user);
        case Remove(e, user) => RemoveTouchesOwnRow(s, e, user);
      }
    }
  }

  lemma {:induction false} MoveKeepsSound(bound: int, s: State, m: Move)
    requires Sound(s.w) && Allowed(bound, s, m)
    ensures Sound(Next(s, m).w)
  {
    var s' := Next(s, m);
    if m.Serve? {
      CallKeepsFaithful(s, m.call);
    } else {
      StepKeepsFaithful(bound, s.w, m.event);
    }
    forall id | id in s'.w.store ensures 0 < id && |s'.w.store[id].content| <= MAX_CONTENT {
      MoveMovesRow(bound, s, m, id);
    }
  }

  lemma {:induction false} CourseIsSound(bound: int, ss: seq<State>, moves: seq<Move>, i: nat)
    requires IsCourse(bound, ss, moves) && i <= |moves|
    ensures Sound(ss[i].w)
  {
    if i > 0 {
      CourseIsSound(bound, ss, moves, i - 1);
      MoveKeepsSound(bound, ss[i - 1], moves[i - 1]);
    }
  }

  // Main result: in every course, however late cache writes land, a row goes only when its owner
  // removes it, changes only when its owner edits it within ten minutes of its creation and to
  // another text, and comes only unedited and under an id never used.
  lemma {:induction false} OnlyOwnersTouchRows(bound: int, ss: seq<State>, moves: seq<Move>, i: nat, id: int)
    requires IsCourse(bound, ss, moves) && i < |moves|
    ensures RowMoves(ss[i], moves[i], ss[i + 1], id)
  {
    CourseIsSound(bound, ss, moves, i);
    MoveMovesRow(bound, ss[i], moves[i], id);
  }

  // Ids given out are not given out again; a row comes unedited, keeps its owner and time, and is
  // marked when it changes.
  predicate Persists(w: World, w': World, id: int) {
    && w.lastID <= w'.lastID
    && (id in w.store ==> id <= w.lastID)
    && (id in w'.store ==>
          if id in w.store
          then SameBirth(w.store[id], w'.store[id]) && (w.store[id] == w'.store[id] || w'.store[id].isEdited)
          else id > w.lastID && !w'.store[id].isEdited)
  }

  ghost predicate AlwaysPersists(ss: seq<State>, id: int) {
    forall i | 0 <= i < |ss| - 1 :: Persists(ss[i].w, ss[i + 1].w, id)
  }

  lemma RowsPersist(bound: int, ss: seq<State>, moves: seq<Move>, id: int)
    requires IsCourse(bound, ss, moves)
    ensures AlwaysPersists(ss, id)
  {
    forall i | 0 <= i < |moves| ensures Persists(ss[i].w, ss[i + 1].w, id) {
      CourseIsSound(bound, ss, moves, i);
      StoredBelowLast(ss[i].w);
      OnlyOwnersTouchRows(bound, ss, moves, i, id);
    }
  }

  lemma {:induction false} IdsAreNotReused(ss: seq<State>, i: nat, j: nat, id: int)
    requires AlwaysPersists(ss, id) && i <= j < |ss| - 1 && id in ss[i].w.store
    ensures id <= ss[j].w.lastID
    decreases j
  {
    assert Persists(ss[j].w, ss[j + 1].w, id);
    if i < j {
      IdsAreNotReused(ss, i, j - 1, id);
      assert Persists(ss[j - 1].w, ss[j].w, id);
    }
  }

  lemma {:induction false} BirthPersists(ss: seq<State>, i: nat, j: nat, id: int)
    requires AlwaysPersists(ss, id) && i <= j < |ss| && id in ss[i].w.store && id in ss[j].w.store
    ensures SameBirth(ss[i].w.store[id], ss[j].w.store[id])
    decreases j
  {
    if i < j {
      IdsAreNotReused(ss, i, j - 1, id);
      BirthPersists(ss, i, j - 1, id);
    }
  }

  // Main result: the owner and the creation time of a tweet are the same for ever.
  lemma BirthIsForEver(bound: int, ss: seq<State>, moves: seq<Move>, i: nat, j: nat, id: int)
    requires IsCourse(bound, ss, moves) && i <= j <= |moves| && id in ss[i].w.store && id in ss[j].w.store
    ensures SameBirth(ss[i].w.store[id], ss[j].w.store[id])
  {
    RowsPersist(bound, ss, moves, id);
    BirthPersists(ss, i, j, id);
  }

  predicate Rewrote(ss: seq<State>, j: nat, id: int)
    requires j + 1 < |ss|
  {
    id in ss[j].w.store && id in ss[j + 1].w.store && ss[j].w.store[id] != ss[j + 1].w.store[id]
  }

  predicate ChangedContent(ss: seq<State>, j: nat, id: int)
    requires j + 1 < |ss|
  {
    && id in ss[j].w.store && id in ss[j + 1].w.store
    && ss[j].w.store[id].content != ss[j + 1].w.store[id].content
  }

  lemma {:induction false} MarkPersists(ss: seq<State>, i: nat, id: int)
    requires AlwaysPersists(ss, id) && i < |ss| && id in ss[i].w.store && id !in ss[0].w.store
    ensures ss[i].w.store[id].isEdited <==> exists j :: 0 <= j < i && Rewrote(ss, j, id)
  {
    assert Persists(ss[i - 1].w, ss[i].w, id);
    if id in ss[i - 1].w.store {
      MarkPersists(ss, i - 1, id);
      assert ss[i].w.store[id] != ss[i - 1].w.store[id] ==> Rewrote(ss, i - 1, id);
    } else {
      forall j | 0 <= j < i ensures !Rewrote(ss, j, id) {
        if id in ss[j].w.store {
          IdsAreNotReused(ss, j, i - 1, id);
        }
      }
    }
  }

  // A tweet is marked as edited exactly when some edit of it was accepted.
  lemma EditedIffRewritten(bound: int, ss: seq<State>, moves: seq<Move>, i: nat, id: int)
    requires IsCourse(bound, ss, moves) && i <= |moves| && id in ss[i].w.store
    ensures ss[i].w.store[id].isEdited <==> exists j :: 0 <= j < i && Rewrote(ss, j, id)
  {
    RowsPersist(bound, ss, moves, id);
    MarkPersists(ss, i, id);
  }

  // The texts of all edits before place i fit the column, as those of requests do.
  predicate EditsFit(moves: seq<Move>, i: nat)
    requires i <= |moves|
  {
    forall j | 0 <= j < i :: moves[j].Serve? && moves[j].call.Edit? ==> |moves[j].call.content| <= MAX_CONTENT
  }

  // Main result: requests ask for no more than 1000 characters (internal/pkg/app/request.go), and
  // so a tweet is marked as edited exactly when some edit changed its content.
  lemma EditedIffContentChanged(bound: int, ss: seq<State>, moves: seq<Move>, i: nat, id: int)
    requires IsCourse(bound, ss, moves) && i <= |moves| && id in ss[i].w.store && EditsFit(moves, i)
    ensures ss[i].w.store[id].isEdited <==> exists j :: 0 <= j < i && ChangedContent(ss, j, id)
  {
    EditedIffRewritten(bound, ss, moves, i, id);
    forall j | 0 <= j < i ensures Rewrote(ss, j, id) <==> ChangedContent(ss, j, id) {
      if Rewrote(ss, j, id) {
        RewritingChangesUnlessPadded(bound, ss, moves, j, id);
      }
    }
  }

  // An edit to the stored text with spaces past the end of the column, which are cut off again.
  predicate Pads(stored: string, content: string) {
    |stored| == MAX_CONTENT && stored < content && IsSpaces(content[MAX_CONTENT..])
  }

  predicate Padded(ss: seq<State>, moves: seq<Move>, j: nat, id: int)
    requires j + 1 < |ss| && j < |moves|
  {
    && id in ss[j].w.store && moves[j].Serve? && moves[j].call.Edit?
    && Pads(ss[j].w.store[id].content, moves[j].call.content)
  }

  // An accepted edit changes the content exactly when it does not pad a full column.
  lemma RewritingChangesUnlessPadded(bound: int, ss: seq<State>, moves: seq<Move>, j: nat, id: int)
    requires IsCourse(bound, ss, moves) && j < |moves| && Rewrote(ss, j, id)
    ensures ChangedContent(ss, j, id) <==> !Padded(ss, moves, j, id)
  {
    CourseIsSound(bound, ss, moves, j);
    OnlyOwnersTouchRows(bound, ss, moves, j, id);
    SameAfterFitIff(ss[j].w.store[id].content, moves[j].call.content);
  }

  // The service by itself does not keep longer texts out: given one more space after a full
  // column, it would mark a tweet whose content stays.
  lemma PaddedEdit(s: State, id: int)
    requires id in s.w.cache && id in s.w.store && s.w.cache[id] == s.w.store[id] && id > 0
    requires |s.w.store[id].content| == MAX_CONTENT && s.w.store[id].userID > 0 && CanBeUpdated(s.w.store[id], s.w.now)
    ensures
      var t := s.w.store[id];
      Edited(s.w, t.content + " ", id, t.userID).0.store == s.w.store[id := t.(isEdited := true)]
  {
    var t := s.w.store[id];
    assert Fit(t.content + " ") == Ok(t.content);
  }

  // ---- Coherence ----

  lemma {:induction false} MoveKeepsSafe(bound: int, s: State, m: Move)
    requires bound <= PAUSE && Safe(bound, s.w) && Allowed(bound, s, m)
    ensures Safe(bound, Next(s, m).w)
  {
    if m.Serve? {
      CallKeepsSafe(bound, s, m.call);
    } else {
      StepKeepsSafe(bound, s.w, m.event);
    }
  }

  // Main result: when cache writes land within the delay, a user who fetches a tweet with no
  // second invalidation outstanding is given the stored one, under its id exactly if it is cached.
  lemma {:induction false} FetchGivesStored(bound: int, ss: seq<State>, moves: seq<Move>, i: nat, id: int)
    requires bound <= PAUSE && IsCourse(bound, ss, moves) && i <= |moves|
    ensures Safe(bound, ss[i].w)
    ensures
      var w := ss[i].w;
      id in w.store && !Outstanding(w, id) ==>
        Fetched(w, id).1 == Ok(Record(if id in w.cache then id else 0, w.store[id]))
  {
    if i > 0 {
      FetchGivesStored(bound, ss, moves, i - 1, id);
      MoveKeepsSafe(bound, ss[i - 1], moves[i - 1]);
    }
  }

  // The answers to the owner's edit, case by case, and what becomes of the row: it changes if and
  // only if the text is another, the window is open and the column takes the text.
  ghost predicate Decided(w: World, id: int, content: string)
    requires id in w.store
  {
    var t := w.store[id];
    var (w', r) := Edited(w, content, id, t.userID);
    if content == t.content then r.Ok? && !r.value.1 && r.value.0.tweet == t && w'.store == w.store
    else if w.now > t.createdAt + 600_000 then r == Err(EditTimeExpired) && w'.store == w.store
    else if Fit(content).Err? then r == Err(ValueTooLong) && w'.store == w.store
    else
      var edited := t.(content := Fit(content).value, isEdited := true);
      r == Ok((Record(id, edited), true)) && w'.store == w.store[id := edited] && id !in w'.cache && Outstanding(w', id)
  }

  lemma CurrentReadDecides(w: World, id: int, content: string)
    requires id in w.store && w.store[id].userID > 0 && content != ""
    requires Fetched(w, id).1.Ok? && Fetched(w, id).1.value.tweet == w.store[id]
    ensures Decided(w, id, content)
  {
    FetchKeeps(w, id);
    var f := Fetched(w, id).0;
    var w' := Updated(f, content, id).0;
    if Updated(f, content, id).1.Ok? {
      assert Waiting(id, f.now + PAUSE) in w'.updates;
    }
  }

  // Main result: with no invalidation outstanding, so that the read is current, the owner's edit
  // is decided by the stored row alone.
  lemma {:induction false} OwnEditIsDecided(
    bound: int, ss: seq<State>, moves: seq<Move>, i: nat, id: int, content: string)
    requires bound <= PAUSE && IsCourse(bound, ss, moves) && i <= |moves|
    requires id in ss[i].w.store && !Outstanding(ss[i].w, id) && ss[i].w.store[id].userID > 0 && content != ""
    ensures Decided(ss[i].w, id, content)
  {
    FetchGivesStored(bound, ss, moves, i, id);
    CurrentReadDecides(ss[i].w, id, content);
  }

  // ---- Others' calls ----

  // Main result: an edit or removal by anyone else is answered without an error, and leaves the
  // table and the messages as they are.
  lemma OthersChangeNothing(bound: int, ss: seq<State>, moves: seq<Move>, i: nat, id: int, content: string, user: int)
    requires IsCourse(bound, ss, moves) && i <= |moves|
    requires id in ss[i].w.store && ss[i].w.store[id].userID != user && user > 0 && content != ""
    ensures
      var s := ss[i];
      var (edited, reply) := Edited(s.w, content, id, user);
      var (removed, answer) := Removed(s, id, user);
      && edited.store == removed.w.store == s.w.store && edited.cache == removed.w.cache == s.w.cache
      && removed.sent == s.sent
      && answer.Ok? && reply.Ok? && reply.value.1 && SameBirth(reply.value.0.tweet, s.w.store[id])
  {
    CourseIsSound(bound, ss, moves, i);
    FetchedIsFaithful(ss[i].w, id);
  }

  // ---- What callers are answered ----

  // Main result: a post is accepted exactly for a user that exists and a text that is not empty
  // and fits the column but for spaces; it makes a row under a new id, with that text and time and
  // unedited, one cache write and one message, and touches no other row.
  lemma {:induction false} PostIsDecided(
    bound: int, ss: seq<State>, moves: seq<Move>, i: nat, user: int, content: string, userExists: bool)
    requires IsCourse(bound, ss, moves) && i <= |moves|
    ensures
      var s := ss[i];
      var (s', r) := Posted(s, user, content, userExists);
      if user <= 0 then r == Err(InvalidUserID) && s' == s
      else if content == "" then r == Err(ContentMissing) && s' == s
      else if exists k :: 1000 <= k < |content| && content[k] != ' ' then r == Err(ValueTooLong) && s' == s
      else if !userExists then r == Err(UserNotFound) && s' == s
      else
        var id, text := s'.w.lastID, if |content| <= 1000 then content else content[..1000];
        var t := Tweet(user, text, s.w.now, false);
        && r == Ok(Record(id, t)) && 0 < id && id !in s.w.store && id !in s.w.cache
        && s'.w.store == s.w.store[id := t] && s'.w.cache == s.w.cache
        && s'.w.flights == s.w.flights + multiset{Flight(id, t, s.w.now, false)}
        && s'.sent == s.sent + [Task(id, user, Time(s.w.now / 1000, s.w.now % 1000 * 1_000_000), "create")]
  {
    CourseIsSound(bound, ss, moves, i);
    NewIdIsFree(ss[i].w);
    FitIff(content);
  }

  lemma FitIff(content: string)
    ensures Fit(content).Err? <==> exists k :: 1000 <= k < |content| && content[k] != ' '
    ensures Fit(content).Ok? ==> Fit(content).value == if |content| <= 1000 then content else content[..1000]
  {
    if |content| > 1000 {
      assert forall k | 1000 <= k < |content| :: content[1000..][k - 1000] == content[k];
    }
  }

  lemma NewIdIsFree(w: World)
    requires Faithful(w)
    ensures w.lastID + 1 !in w.store && w.lastID + 1 !in w.cache
  {
    if w.lastID + 1 in w.store {
      assert IsCopy(w, w.lastID + 1, w.store[w.lastID + 1]);
    }
    if w.lastID + 1 in w.cache {
      assert IsCopy(w, w.lastID + 1, w.cache[w.lastID + 1]);
    }
  }

  // A tweet that is neither stored nor cached is not found, by whatever call, and ids, users and
  // texts out of range are refused before anything is looked up.
  lemma UnknownIsRefused(s: State, id: int, user: int, content: string)
    requires user <= 0 || id <= 0 || (id !in s.w.store && id !in s.w.cache)
    ensures user <= 0 ==>
      Edited(s.w, content, id, user) == (s.w, Err(InvalidUserID)) && Removed(s, id, user) == (s, Err(InvalidUserID))
    ensures user > 0 && content == "" ==> Edited(s.w, content, id, user) == (s.w, Err(ContentMissing))
    ensures user > 0 && content != "" ==>
      Edited(s.w, content, id, user) == (s.w, Err(if id <= 0 then InvalidTweetID else TweetNotFound))
    ensures user > 0 ==> Removed(s, id, user) == (s, Err(if id <= 0 then InvalidTweetID else TweetNotFound))
    ensures id <= 0 ==> Fetched(s.w, id) == (s.w, Err(InvalidTweetID))
    ensures id > 0 && id !in s.w.store && id !in s.w.cache ==> Fetched(s.w, id) == (s.w, Err(TweetNotFound))
  {
  }

  // Main result: after its owner's removal a tweet is in neither the table nor the cache, and is
  // not found; every other row and key is as it was.
  lemma {:induction false} RemovalTakesOut(bound: int, ss: seq<State>, moves: seq<Move>, i: nat, id: int)
    requires IsCourse(bound, ss, moves) && i <= |moves|
    requires id in ss[i].w.store && ss[i].w.store[id].userID > 0
    ensures
      var s := ss[i];
      var (s', r) := Removed(s, id, s.w.store[id].userID);
      && r == Ok(()) && s'.w.store == s.w.store - {id} && s'.w.cache == s.w.cache - {id}
      && Fetched(s'.w, id).1 == Err(TweetNotFound)
  {
    CourseIsSound(bound, ss, moves, i);
    FetchKeeps(ss[i].w, id);
    FetchedIsFaithful(ss[i].w, id);
  }

  lemma RemovalFlights(s: State, id: int)
    requires Sound(s.w) && id in s.w.store && s.w.store[id].userID > 0
    ensures
      var w' := Removed(s, id, s.w.store[id].userID).0.w;
      && w'.now == s.w.now && 0 < id <= w'.lastID
      && forall f | f in w'.flights && f.key == id :: f in s.w.flights
  {
    FetchedIsFaithful(s.w, id);
    StoredBelowLast(s.w);
  }

  // Main result: and so it is in every continuation, exactly when no write of its key was in
  // flight that could still land.
  lemma {:induction false} RemovalIsFinalIff(bound: int, ss: seq<State>, moves: seq<Move>, i: nat, id: int)
    requires IsCourse(bound, ss, moves) && i <= |moves|
    requires id in ss[i].w.store && ss[i].w.store[id].userID > 0
    ensures
      var s := ss[i];
      var w' := Removed(s, id, s.w.store[id].userID).0.w;
      (forall ws: seq<World>, events: seq<Event> | IsRunFrom(bound, w', ws, events) ::
         Fetched(ws[|events|], id).1 == Err(TweetNotFound)) <==>
      (forall f | f in s.w.flights && f.key == id :: f.since + bound <= s.w.now)
  {
    var s := ss[i];
    var w' := Removed(s, id, s.w.store[id].userID).0.w;
    CourseIsSound(bound, ss, moves, i);
    RemovalTakesOut(bound, ss, moves, i, id);
    RemovalFlights(s, id);
    RemovalKeepsFlights(s, id);
    NotFoundIffGone(bound, w', id);
  }

  lemma RemovalKeepsFlights(s: State, id: int)
    requires Sound(s.w) && id in s.w.store && s.w.store[id].userID > 0
    ensures forall f | f in s.w.flights :: f in Removed(s, id, s.w.store[id].userID).0.w.flights
  {
    FetchedIsFaithful(s.w, id);
  }

  lemma {:induction false} NotFoundIffGone(bound: int, w: World, id: int)
    requires id !in w.store && id !in w.cache && 0 < id <= w.lastID
    ensures (forall ws: seq<World>, events: seq<Event> | IsRunFrom(bound, w, ws, events) ::
               Fetched(ws[|events|], id).1 == Err(TweetNotFound)) <==>
      (forall f | f in w.flights && f.key == id :: f.since + bound <= w.now)
  {
    DeletionIsFinalIff(bound, w, id);
    if Gone(bound, w, id) {
      forall ws: seq<World>, events: seq<Event> | IsRunFrom(bound, w, ws, events)
        ensures Fetched(ws[|events|], id).1 == Err(TweetNotFound)
      {
        GoneIsForEver(bound, ws, events, |events|, id);
      }
    }
  }

  // ---- From the service to the timelines ----

  predicate Decodable(t: Task) {
    IsInt64(t.tweetID) && IsInt64(t.authorID) && IsInt64(t.createdAt.Unix())
  }

  lemma TaskReaches(msgID: nat, r: Record, action: string, around: FanoutWorker.Surroundings)
    requires Decodable(TaskFor(r, action)) && r.tweet.userID > 0 && FanoutWorker.Reaches(around)
    requires action == ACTION_CREATE || action == ACTION_DELETE
    ensures FanoutWorker.EffectOf(msgID, Encode(TaskFor(r, action)), around) ==
      if r.id <= 0 then FanoutWorker.NoEffect
      else if action == ACTION_CREATE
      then FanoutWorker.Pushed(Timeline.Tweet(r.id, Time.FromUnix(TimeOf(r.tweet.createdAt).Unix())), around.followers.value)
      else FanoutWorker.Recalled(r.id, around.followers.value)
  {
    FanoutWorker.EncodedTakesEffect(msgID, TaskFor(r, action), around);
  }

  lemma OwnRemovalSends(s: State, id: int)
    requires Sound(s.w) && id in s.w.store && s.w.store[id].userID > 0
    ensures
      var (s', r) := Removed(s, id, s.w.store[id].userID);
      var fetched := Fetched(s.w, id).1;
      && r.Ok? && s'.w.store == s.w.store - {id}
      && fetched.Ok? && SameBirth(fetched.value.tweet, s.w.store[id])
      && fetched.value.id == (if id in s.w.cache then id else 0)
      && s'.sent == s.sent + [TaskFor(fetched.value, ACTION_DELETE)]
  {
    FetchKeeps(s.w, id);
    FetchedIsFaithful(s.w, id);
  }

  // Main result: the message of a removal recalls the tweet from timelines exactly if the tweet
  // was cached; a tweet read from the table goes out under id 0, and the worker drops it.
  lemma RemovalRecallsIffCached(
    bound: int, ss: seq<State>, moves: seq<Move>, i: nat, id: int, msgID: nat, around: FanoutWorker.Surroundings)
    requires IsCourse(bound, ss, moves) && i <= |moves| && id in ss[i].w.store
    requires IsInt64(id) && IsInt64(ss[i].w.store[id].userID) && IsInt64(TimeOf(ss[i].w.store[id].createdAt).Unix())
    requires ss[i].w.store[id].userID > 0 && FanoutWorker.Reaches(around)
    ensures
      var s := ss[i];
      var (s', r) := Removed(s, id, s.w.store[id].userID);
      && r.Ok? && s'.w.store == s.w.store - {id} && |s'.sent| == |s.sent| + 1 && s.sent < s'.sent
      && FanoutWorker.EffectOf(msgID, Encode(s'.sent[|s.sent|]), around)
           == if id in s.w.cache then FanoutWorker.Recalled(id, around.followers.value) else FanoutWorker.NoEffect
  {
    CourseIsSound(bound, ss, moves, i);
    OwnRemovalSends(ss[i], id);
    TaskReaches(msgID, Fetched(ss[i].w, id).1.value, ACTION_DELETE, around);
  }

  // A posted tweet goes out under its own id and with its own score.
  lemma PostPushes(s: State, user: int, content: string, msgID: nat, around: FanoutWorker.Surroundings)
    requires s.w.lastID >= 0 && Posted(s, user, content, true).1.Ok?
    requires IsInt64(s.w.lastID + 1) && IsInt64(user) && IsInt64(TimeOf(s.w.now).Unix()) && FanoutWorker.Reaches(around)
    ensures
      var (s', r) := Posted(s, user, content, true);
      && s'.sent == s.sent + [TaskFor(r.value, ACTION_CREATE)]
      && FanoutWorker.EffectOf(msgID, Encode(TaskFor(r.value, ACTION_CREATE)), around)
           == FanoutWorker.Pushed(
                Timeline.Tweet(s.w.lastID + 1, Time.FromUnix(TimeOf(s.w.now).Unix())), around.followers.value)
  {
    TaskReaches(msgID, Posted(s, user, content, true).1.value, ACTION_CREATE, around);
  }
}
