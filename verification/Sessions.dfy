// The session service: issuing, validating, refreshing and revoking, with refreshes running
// beside everything else (internal/service/session_service.go).
module Sessions {
  import opened SessionStore
  import opened Wrappers

  const MAX_LIFE: int := 7 * DAY
  const DURATION: int := DAY

  // Stands for SHA-256, of which only injectivity is used.
  function Hash(token: string): string {
    "#" + token
  }

  function ValidateAndHash(token: string): Result<string, Error> {
    if token == "" then Err(NotFound)
    else if |token| < 32 || |token| > 255 then Err(InvalidToken)
    else Ok(Hash(token))
  }

  function ExpirationCheck(s: Session, now: int): Result<(), Error> {
    if s.expiresAt == 0 || s.createdAt == 0 then Err(FieldMissing)
    else if now > s.expiresAt then Err(Expired)
    else if now > s.createdAt + MAX_LIFE then Err(Expired)
    else Ok(())
  }

  function Authenticate(st: Store, now: int, hash: string): Result<Session, Error> {
    match Get(st, now, hash)
    case Err(e) => Err(e)
    case Ok(s) =>
      match ExpirationCheck(s, now)
      case Err(e) => Err(e)
      case Ok(_) => Ok(s)
  }

  predicate Validates(st: Store, now: int, hash: string) {
    Authenticate(st, now, hash).Ok?
  }

  // A quarter of the time from creation to expiry is left.
  function ShouldRefresh(s: Session, now: int): bool {
    && ExpirationCheck(s, now).Ok?
    && s.expiresAt - s.createdAt > 0
    && s.expiresAt - now < (s.expiresAt - s.createdAt) / 4
  }

  function Refreshed(s: Session, now: int): Session {
    s.(expiresAt := if now + DURATION > s.createdAt + MAX_LIFE then s.createdAt + MAX_LIFE else now + DURATION)
  }

  function Issued(userID: int, hash: string, expiryRead: int, creationRead: int): Session {
    Session(userID, hash, expiryRead + DURATION, creationRead)
  }

  lemma HashIsInjective(token: string, other: string)
    requires Hash(token) == Hash(other)
    ensures token == other
  {
    assert Hash(token)[1..] == token && Hash(other)[1..] == other;
  }

  function Revoked(st: Store, now: int, userID: int, token: string): (Store, Result<(), Error>) {
    match ValidateAndHash(token)
    case Err(e) => (st, Err(e))
    case Ok(hash) =>
      match Authenticate(st, now, hash)
      case Err(e) => (st, Err(e))
      case Ok(s) => if s.userID != userID then (st, Err(Forbidden)) else Delete(st, now, userID, s.hash)
  }

  class SessionService {
    const store: RedisSessionStore

    constructor (store: RedisSessionStore)
      ensures this.store == store
    {
      this.store := store;
    }

    // The clock is read for the expiry, for the creation time and by the store, in this order.
    method Issue(userID: int, token: string, expiryRead: int, creationRead: int, now: int)
      returns (r: Result<Session, Error>)
      modifies store
      ensures userID <= 0 ==> r == Err(FieldMissing) && store.View() == old(store.View())
      ensures userID > 0 ==>
        (store.View(), r) ==
          Create(old(store.View()), INDEX_SLACK, now, Issued(userID, Hash(token), expiryRead, creationRead))
    {
      if userID <= 0 {
        return Err(FieldMissing);
      }
      r := store.Insert(Session(userID, Hash(token), expiryRead + DURATION, creationRead), now);
    }

    method Authenticated(token: string, now: int) returns (r: Result<Session, Error>)
      ensures r ==
        match ValidateAndHash(token)
        case Err(e) => Err(e)
        case Ok(hash) => Authenticate(store.View(), now, hash)
    {
      var hash := ValidateAndHash(token);
      if hash.Err? {
        return Err(hash.error);
      }
      var record := store.Read(hash.value, now);
      if record.Err? {
        return Err(record.error);
      }
      var check := ExpirationCheck(record.value, now);
      if check.Err? {
        return Err(check.error);
      }
      return record;
    }

    // Whether the session's user exists is looked up last.
    method Validate(token: string, now: int, userExists: bool) returns (r: Result<Session, Error>)
      ensures r ==
        match ValidateAndHash(token)
        case Err(e) => Err(e)
        case Ok(hash) =>
          var found := Authenticate(store.View(), now, hash);
          if found.Ok? && !userExists then Err(UserNotFound) else found
      ensures token == "" ==> r == Err(NotFound)
      ensures token != "" && (|token| < 32 || |token| > 255) ==> r == Err(InvalidToken)
    {
      r := Authenticated(token, now);
      if r.Ok? && !userExists {
        r := Err(UserNotFound);
      }
    }

    // Reads the session, computes the new expiry and writes it, at three instants. An invalid
    // token is looked up as the empty hash.
    method ExecuteRefresh(token: string, read: int, compute: int, write: int) returns (r: Result<(), Error>)
      modifies store
      ensures
        var got := Get(old(store.View()), read, if ValidateAndHash(token).Ok? then Hash(token) else "");
        (store.View(), r) ==
          if got.Err? then (old(store.View()), Err(got.error))
          else Update(old(store.View()), INDEX_SLACK, write, Refreshed(got.value, compute))
    {
      var hash := if ValidateAndHash(token).Ok? then Hash(token) else "";
      var record := store.Read(hash, read);
      if record.Err? {
        return Err(record.error);
      }
      var newExpiry := compute + DURATION;
      var maxExpiry := record.value.createdAt + MAX_LIFE;
      if newExpiry > maxExpiry {
        newExpiry := maxExpiry;
      }
      r := store.Replace(record.value.(expiresAt := newExpiry), write);
    }

    method Revoke(userID: int, token: string, now: int) returns (r: Result<(), Error>)
      modifies store
      ensures (store.View(), r) == Revoked(old(store.View()), now, userID, token)
    {
      var check := Authenticated(token, now);
      if check.Err? {
        return Err(check.error);
      }
      if check.value.userID != userID {
        return Err(Forbidden);
      }
      r := store.Remove(userID, check.value.hash, now);
    }
  }

  // ---- Every interleaving ----

  // A refresh between its steps: the session it read, or the session it will write.
  datatype Flight = Fetched(session: Session) | Ready(session: Session)

  datatype World = World(store: Store, now: int, flights: multiset<Flight>)

  const INITIAL := World(EMPTY_STORE, 1, multiset{})

  datatype Event =
    | Tick(d: nat)
    | Issue(userID: int, hash: string, expiryRead: int, creationRead: int)
    | BeginRefresh(hash: string)
    | ComputeExpiry(flight: Flight)
    | FinishRefresh(flight: Flight)
    | Remove(userID: int, hash: string)
    | RemoveAll(userID: int)

  predicate Enabled(w: World, e: Event) {
    match e
    case Issue(userID, _, expiryRead, creationRead) => userID > 0 && 0 < expiryRead <= creationRead <= w.now
    case ComputeExpiry(f) => f in w.flights && f.Fetched?
    case FinishRefresh(f) => f in w.flights && f.Ready?
    case _ => true
  }

  function Step(slack: int, w: World, e: Event): World {
    match e
    case Tick(d) => w.(now := w.now + d)
    case Issue(userID, hash, expiryRead, creationRead) =>
      w.(store := Create(w.store, slack, w.now, Issued(userID, hash, expiryRead, creationRead)).0)
    case BeginRefresh(hash) =>
      (match Get(w.store, w.now, hash)
       case Ok(s) => w.(flights := w.flights + multiset{Fetched(s)})
       case Err(_) => w)
    case ComputeExpiry(f) =>
      w.(flights := w.flights - multiset{f} + multiset{Ready(Refreshed(f.session, w.now))})
    case FinishRefresh(f) =>
      w.(flights := w.flights - multiset{f}, store := Update(w.store, slack, w.now, f.session).0)
    case Remove(userID, hash) => w.(store := Delete(w.store, w.now, userID, hash).0)
    case RemoveAll(userID) => w.(store := DeleteByUserID(w.store, w.now, userID))
  }

  // ws[i] is the world before events[i], the last one the world after them all.
  predicate IsRun(slack: int, ws: seq<World>, events: seq<Event>) {
    && |ws| == |events| + 1 && ws[0] == INITIAL
    && forall i | 0 <= i < |events| :: Enabled(ws[i], events[i]) && ws[i + 1] == Step(slack, ws[i], events[i])
  }

  // No expiry lies more than a session's duration ahead, or past the cap.
  predicate Bounded(s: Session, now: int) {
    && 0 < s.createdAt && 0 < s.expiresAt
    && s.expiresAt <= now + DURATION
    && s.expiresAt <= s.createdAt + MAX_LIFE
  }

  ghost predicate StoreBounded(data: map<string, Cell>, now: int) {
    forall h | h in data ::
      data[h].session.hash == h && data[h].deadline <= data[h].session.expiresAt && Bounded(data[h].session, now)
  }

  ghost predicate FlightsBounded(flights: multiset<Flight>, now: int) {
    forall f | f in flights :: Bounded(f.session, now)
  }

  ghost predicate SessionsBounded(w: World) {
    StoreBounded(w.store.data, w.now) && FlightsBounded(w.flights, w.now)
  }

  // The user's index holds the hash of every live session and outlives it.
  ghost predicate Indexed(w: World) {
    forall h | Live(w.store, w.now, h) ::
      var c := w.store.data[h];
      && c.session.userID in w.store.index
      && h in w.store.index[c.session.userID].hashes
      && c.deadline <= w.store.index[c.session.userID].deadline
  }

  lemma StepKeepsFlightsBounded(slack: int, w: World, e: Event)
    requires SessionsBounded(w) && Enabled(w, e)
    ensures FlightsBounded(Step(slack, w, e).flights, Step(slack, w, e).now)
  {
    var w' := Step(slack, w, e);
    forall f | f in w'.flights ensures Bounded(f.session, w'.now) {
      if f !in w.flights {
        assert e.BeginRefresh? || f == Ready(Refreshed(e.flight.session, w.now));
      }
    }
  }

  lemma StepKeepsStoreBounded(slack: int, w: World, e: Event)
    requires SessionsBounded(w) && Enabled(w, e)
    ensures StoreBounded(Step(slack, w, e).store.data, Step(slack, w, e).now)
  {
    match e {
      case Issue(userID, hash, expiryRead, creationRead) =>
        assert Bounded(Issued(userID, hash, expiryRead, creationRead), w.now);
      case FinishRefresh(f) =>
        assert Bounded(f.session, w.now);
      case _ =>
    }
  }

  lemma StepKeepsBounded(slack: int, w: World, e: Event)
    requires SessionsBounded(w) && Enabled(w, e)
    ensures SessionsBounded(Step(slack, w, e))
  {
    StepKeepsFlightsBounded(slack, w, e);
    StepKeepsStoreBounded(slack, w, e);
  }

  // A write gives the index a deadline that no session written before can outlive.
  lemma TouchKeepsIndexed(slack: int, w: World, s: Session, cell: Cell, written: bool)
    requires SessionsBounded(w) && Indexed(w) && DURATION - 1 <= slack
    requires s.expiresAt > w.now && Bounded(s, w.now)
    requires cell.session == s && cell.deadline <= s.expiresAt
    ensures
      var data := if written then w.store.data[s.hash := cell] else w.store.data;
      Indexed(w.(store := Store(data, Touch(w.store, slack, w.now, s))))
  {
    assert WholeSeconds(s.expiresAt - w.now + slack) >= DURATION;
  }

  lemma StepKeepsIndexed(slack: int, w: World, e: Event)
    requires SessionsBounded(w) && Indexed(w) && Enabled(w, e)
    requires DURATION - 1 <= slack
    ensures Indexed(Step(slack, w, e))
  {
    match e {
      case Issue(userID, hash, expiryRead, creationRead) =>
        var s := Issued(userID, hash, expiryRead, creationRead);
        if s.expiresAt > w.now {
          TouchKeepsIndexed(slack, w, s, Cell(s, s.expiresAt), !Live(w.store, w.now, hash));
        }
      case FinishRefresh(f) =>
        if f.session.expiresAt > w.now {
          var cell := Cell(f.session, WholeSeconds(f.session.expiresAt));
          TouchKeepsIndexed(slack, w, f.session, cell, Live(w.store, w.now, f.session.hash));
        }
      case _ =>
    }
  }

  lemma {:induction false} RunKeeps(slack: int, ws: seq<World>, events: seq<Event>, i: nat)
    requires IsRun(slack, ws, events) && i <= |events|
    ensures SessionsBounded(ws[i])
    ensures DURATION - 1 <= slack ==> Indexed(ws[i])
  {
    if i > 0 {
      RunKeeps(slack, ws, events, i - 1);
      StepKeepsBounded(slack, ws[i - 1], events[i - 1]);
      if DURATION - 1 <= slack {
        StepKeepsIndexed(slack, ws[i - 1], events[i - 1]);
      }
    }
  }

  // The index covers every live session in every run exactly when its slack is a session's
  // duration, but for the one millisecond every write has left; the code's slack is enough.
  lemma IndexCoversExactlyWithSlack(slack: int)
    ensures (forall ws, events | IsRun(slack, ws, events) :: Indexed(ws[|events|])) <==> DURATION - 1 <= slack
    ensures DURATION - 1 <= INDEX_SLACK
  {
    if DURATION - 1 <= slack {
      forall ws, events | IsRun(slack, ws, events) ensures Indexed(ws[|events|]) {
        RunKeeps(slack, ws, events, |events|);
      }
    } else {
      var ws, events := ShortSlackLosesSession(slack);
    }
  }

  // A write with a millisecond left cuts the index down below a session issued just before.
  lemma ShortSlackLosesSession(slack: int) returns (ws: seq<World>, events: seq<Event>)
    requires slack < DURATION - 1
    ensures IsRun(slack, ws, events) && !Indexed(ws[|events|])
  {
    events := [Tick(DAY - 1), Issue(1, "long", DAY, DAY), Issue(1, "short", 1, 1)];
    var w1 := Step(slack, INITIAL, events[0]);
    var w2 := Step(slack, w1, events[1]);
    var w3 := Step(slack, w2, events[2]);
    ws := [INITIAL, w1, w2, w3];
    assert w3.store.data["long"] == Cell(Issued(1, "long", DAY, DAY), 2 * DAY);
    assert Live(w3.store, w3.now, "long");
    assert w3.store.index[1].deadline == DAY + WholeSeconds(1 + slack);
  }

  // Deleting by user leaves none of the user's sessions alive, and touches no key outside the index.
  lemma RemoveAllEndsEverySession(ws: seq<World>, events: seq<Event>, i: nat, userID: int)
    requires IsRun(INDEX_SLACK, ws, events) && i <= |events|
    ensures
      var w' := Step(INDEX_SLACK, ws[i], RemoveAll(userID));
      forall h | Live(w'.store, w'.now, h) ::
        ws[i].store.data[h].session.userID != userID && w'.store.data[h] == ws[i].store.data[h]
    ensures
      var w' := Step(INDEX_SLACK, ws[i], RemoveAll(userID));
      forall h | Live(ws[i].store, ws[i].now, h) && h !in Hashes(ws[i].store, ws[i].now, userID) ::
        Live(w'.store, w'.now, h)
  {
    RunKeeps(INDEX_SLACK, ws, events, i);
  }

  // ---- When a token validates ----

  // A session validates just as long as its key is there.
  lemma ValidatesIffLive(w: World, hash: string)
    requires SessionsBounded(w)
    ensures Validates(w.store, w.now, hash) <==> Live(w.store, w.now, hash)
  {
  }

  // Nothing in the store or in flight belongs to the hash except one user's session of one creation.
  ghost predicate OnlyFrom(w: World, hash: string, userID: int, createdAt: int) {
    && (hash in w.store.data ==>
          w.store.data[hash].session.userID == userID && w.store.data[hash].session.createdAt == createdAt)
    && (forall f | f in w.flights && f.session.hash == hash ::
          f.session.userID == userID && f.session.createdAt == createdAt)
  }

  ghost predicate Unknown(w: World, hash: string) {
    hash !in w.store.data && forall f | f in w.flights :: f.session.hash != hash
  }

  predicate SameOrigin(a: Session, b: Session) {
    a.hash == b.hash && a.userID == b.userID && a.createdAt == b.createdAt
  }

  lemma FlightOrigin(slack: int, w: World, e: Event, f: Flight)
    requires Enabled(w, e) && f in Step(slack, w, e).flights
    ensures
      || f in w.flights
      || (e.BeginRefresh? && e.hash in w.store.data && f.session == w.store.data[e.hash].session)
      || (e.ComputeExpiry? && SameOrigin(f.session, e.flight.session))
  {
  }

  lemma CellOrigin(slack: int, w: World, e: Event, h: string)
    requires Enabled(w, e) && h in Step(slack, w, e).store.data
    ensures
      var s := Step(slack, w, e).store.data[h].session;
      || (h in w.store.data && s == w.store.data[h].session)
      || (e.Issue? && e.hash == h && s == Issued(e.userID, h, e.expiryRead, e.creationRead))
      || (e.FinishRefresh? && h in w.store.data && s == e.flight.session && s.hash == h)
  {
  }

  lemma StepKeepsUnknown(slack: int, w: World, e: Event, w': World, hash: string)
    requires SessionsBounded(w) && Enabled(w, e) && w' == Step(slack, w, e) && Unknown(w, hash)
    requires e.Issue? ==> e.hash != hash
    ensures Unknown(w', hash)
  {
    if hash in w'.store.data {
      CellOrigin(slack, w, e, hash);
    }
    forall f | f in w'.flights ensures f.session.hash != hash {
      FlightOrigin(slack, w, e, f);
    }
  }

  lemma StepKeepsOnlyFrom(slack: int, w: World, e: Event, w': World, hash: string, userID: int, createdAt: int)
    requires SessionsBounded(w) && Enabled(w, e) && w' == Step(slack, w, e) && OnlyFrom(w, hash, userID, createdAt)
    requires e.Issue? ==> e.hash != hash
    ensures OnlyFrom(w', hash, userID, createdAt)
  {
    if hash in w'.store.data {
      CellOrigin(slack, w, e, hash);
    }
    forall f | f in w'.flights && f.session.hash == hash
      ensures f.session.userID == userID && f.session.createdAt == createdAt
    {
      FlightOrigin(slack, w, e, f);
    }
  }

  // SET XX writes no key that is gone.
  lemma StepRevivesNothing(slack: int, w: World, e: Event, w': World, hash: string)
    requires Enabled(w, e) && w' == Step(slack, w, e) && (e.Issue? ==> e.hash != hash)
    requires Live(w'.store, w'.now, hash)
    ensures Live(w.store, w.now, hash)
  {
  }

  // The event at place n issues the hash, and no other event does.
  predicate IssuedOnceAt(events: seq<Event>, n: nat) {
    && n < |events| && events[n].Issue?
    && forall k | 0 <= k < |events| && k != n && events[k].Issue? :: events[k].hash != events[n].hash
  }

  lemma {:induction false} UnknownBeforeIssue(ws: seq<World>, events: seq<Event>, n: nat, i: nat)
    requires IsRun(INDEX_SLACK, ws, events) && IssuedOnceAt(events, n) && i <= n
    ensures Unknown(ws[i], events[n].hash)
  {
    if i > 0 {
      UnknownBeforeIssue(ws, events, n, i - 1);
      RunKeeps(INDEX_SLACK, ws, events, i - 1);
      StepKeepsUnknown(INDEX_SLACK, ws[i - 1], events[i - 1], ws[i], events[n].hash);
    }
  }

  lemma IssueStarts(ws: seq<World>, events: seq<Event>, n: nat)
    requires IsRun(INDEX_SLACK, ws, events) && IssuedOnceAt(events, n)
    ensures OnlyFrom(ws[n + 1], events[n].hash, events[n].userID, events[n].creationRead)
  {
    UnknownBeforeIssue(ws, events, n, n);
    var w, e, w' := ws[n], events[n], ws[n + 1];
    assert w' == Step(INDEX_SLACK, w, e) && w'.flights == w.flights;
    if e.hash in w'.store.data {
      CellOrigin(INDEX_SLACK, w, e, e.hash);
    }
  }

  lemma NextStays(ws: seq<World>, events: seq<Event>, n: nat, j: nat)
    requires IsRun(INDEX_SLACK, ws, events) && IssuedOnceAt(events, n) && n < j < |events|
    requires OnlyFrom(ws[j], events[n].hash, events[n].userID, events[n].creationRead)
    ensures OnlyFrom(ws[j + 1], events[n].hash, events[n].userID, events[n].creationRead)
  {
    var w, e, w' := ws[j], events[j], ws[j + 1];
    RunKeeps(INDEX_SLACK, ws, events, j);
    StepKeepsOnlyFrom(INDEX_SLACK, w, e, w', events[n].hash, events[n].userID, events[n].creationRead);
  }

  lemma {:induction false} StaysFromIssue(ws: seq<World>, events: seq<Event>, n: nat, j: nat)
    requires IsRun(INDEX_SLACK, ws, events) && IssuedOnceAt(events, n) && n < j <= |events|
    ensures OnlyFrom(ws[j], events[n].hash, events[n].userID, events[n].creationRead)
    decreases j
  {
    if j == n + 1 {
      IssueStarts(ws, events, n);
    } else {
      StaysFromIssue(ws, events, n, j - 1);
      NextStays(ws, events, n, j - 1);
    }
  }

  lemma {:induction false} OnceFalseStaysFalse(bs: seq<bool>, i: nat, j: nat)
    requires i <= j < |bs| && bs[j]
    requires forall k | i <= k < j :: bs[k + 1] ==> bs[k]
    ensures bs[i]
    decreases j
  {
    if i < j {
      OnceFalseStaysFalse(bs, i, j - 1);
    }
  }

  lemma NothingRevives(ws: seq<World>, events: seq<Event>, n: nat, i: nat, j: nat)
    requires IsRun(INDEX_SLACK, ws, events) && IssuedOnceAt(events, n) && n < i <= j <= |events|
    requires Live(ws[j].store, ws[j].now, events[n].hash)
    ensures Live(ws[i].store, ws[i].now, events[n].hash)
  {
    var hash := events[n].hash;
    var lives := seq(|ws|, k requires 0 <= k < |ws| => Live(ws[k].store, ws[k].now, hash));
    forall k | i <= k < j && lives[k + 1] ensures lives[k] {
      StepRevivesNothing(INDEX_SLACK, ws[k], events[k], ws[k + 1], hash);
    }
    OnceFalseStaysFalse(lives, i, j);
  }

  // Main result: take any run in which the hash is issued once, at place n. The token validates
  // right after a successful Issue; it validates at a later place only if it did at every place
  // in between, so nothing revives a revoked or expired session; and while it validates, its user
  // and creation time are those issued and its expiry is under the cap.
  lemma ValidTimesFormAnInterval(ws: seq<World>, events: seq<Event>, n: nat, i: nat, j: nat)
    requires IsRun(INDEX_SLACK, ws, events) && IssuedOnceAt(events, n) && n < i <= j <= |events|
    ensures events[n].expiryRead + DURATION > ws[n + 1].now
      ==> Validates(ws[n + 1].store, ws[n + 1].now, events[n].hash)
    ensures
      var hash := events[n].hash;
      Validates(ws[j].store, ws[j].now, hash) ==>
        && Validates(ws[i].store, ws[i].now, hash)
        && ws[j].store.data[hash].session.userID == events[n].userID
        && ws[j].store.data[hash].session.createdAt == events[n].creationRead
        && ws[j].store.data[hash].session.expiresAt <= events[n].creationRead + MAX_LIFE
  {
    var hash := events[n].hash;
    UnknownBeforeIssue(ws, events, n, n);
    RunKeeps(INDEX_SLACK, ws, events, n + 1);
    RunKeeps(INDEX_SLACK, ws, events, i);
    RunKeeps(INDEX_SLACK, ws, events, j);
    ValidatesIffLive(ws[n + 1], hash);
    ValidatesIffLive(ws[i], hash);
    ValidatesIffLive(ws[j], hash);
    if Validates(ws[j].store, ws[j].now, hash) {
      NothingRevives(ws, events, n, i, j);
      StaysFromIssue(ws, events, n, j);
    }
  }

  // A session removed after its Issue never validates again, whatever refresh is in flight.
  lemma RemovedNeverValidates(ws: seq<World>, events: seq<Event>, n: nat, k: nat, j: nat)
    requires IsRun(INDEX_SLACK, ws, events) && IssuedOnceAt(events, n) && n < k < j <= |events|
    requires events[k].Remove? && events[k].hash == events[n].hash
    ensures !Validates(ws[j].store, ws[j].now, events[n].hash)
  {
    var hash := events[n].hash;
    assert !Live(ws[k + 1].store, ws[k + 1].now, hash);
    RunKeeps(INDEX_SLACK, ws, events, j);
    ValidatesIffLive(ws[j], hash);
    if Live(ws[j].store, ws[j].now, hash) {
      NothingRevives(ws, events, n, k + 1, j);
    }
  }

  // ---- What callers are answered ----

  // Main result: whoever presents the token of an issued session is answered with that session,
  // its user and creation time, and with an expiry that is ahead and under the cap.
  lemma AnswerIsTheIssued(ws: seq<World>, events: seq<Event>, n: nat, j: nat, s: Session)
    requires IsRun(INDEX_SLACK, ws, events) && IssuedOnceAt(events, n) && j <= |events|
    requires Authenticate(ws[j].store, ws[j].now, events[n].hash) == Ok(s)
    ensures n < j
    ensures s.userID == events[n].userID && s.hash == events[n].hash && s.createdAt == events[n].creationRead
    ensures ws[j].now <= s.expiresAt <= events[n].creationRead + 604_800_000
  {
    if j <= n {
      UnknownBeforeIssue(ws, events, n, j);
    } else {
      RunKeeps(INDEX_SLACK, ws, events, j);
      StaysFromIssue(ws, events, n, j);
    }
  }

  // Main result: the owner of a valid session revokes it, and it validates never again; anyone
  // else is refused, and a token that does not validate is too, and then nothing changes.
  lemma RevokeIsDecided(ws: seq<World>, events: seq<Event>, n: nat, j: nat, token: string, user: int, later: int)
    requires IsRun(INDEX_SLACK, ws, events) && IssuedOnceAt(events, n) && j <= |events|
    requires 32 <= |token| <= 255 && Hash(token) == events[n].hash
    ensures
      var st, now := ws[j].store, ws[j].now;
      var (st', r) := Revoked(st, now, user, token);
      if !Validates(st, now, events[n].hash) then r.Err? && st' == st
      else if user != events[n].userID then r == Err(Forbidden) && st' == st
      else r == Ok(()) && !Validates(st', later, events[n].hash) && st'.data == st.data - {events[n].hash}
  {
    if Validates(ws[j].store, ws[j].now, events[n].hash) {
      AnswerIsTheIssued(ws, events, n, j, Authenticate(ws[j].store, ws[j].now, events[n].hash).value);
      RunKeeps(INDEX_SLACK, ws, events, j);
    }
  }

  // In every reachable state an issue is answered by what can be read before it, and gives the
  // session to be read after it.
  lemma IssueIsDecided(
    ws: seq<World>, events: seq<Event>, i: nat, user: int, hash: string, expiryRead: int, creationRead: int)
    requires IsRun(INDEX_SLACK, ws, events) && i <= |events|
    requires 0 < expiryRead <= creationRead <= ws[i].now
    ensures
      var st, now, s := ws[i].store, ws[i].now, Session(user, hash, expiryRead + 86_400_000, creationRead);
      var (st', r) := Create(st, INDEX_SLACK, now, Issued(user, hash, expiryRead, creationRead));
      && r == (if s.expiresAt <= now then Err(Expired) else if Get(st, now, hash).Ok? then Err(TokenConflict) else Ok(s))
      && (r.Ok? ==> Get(st', now, hash) == Ok(s) && st'.data[hash].deadline == s.expiresAt)
      && forall h | h != hash || r.Err? :: Get(st', now, h) == Get(st, now, h)
  {
    RunKeeps(INDEX_SLACK, ws, events, i);
  }

  // The write of a refresh succeeds exactly while its session can be read and its expiry is ahead.
  lemma RefreshIsDecided(ws: seq<World>, events: seq<Event>, i: nat, f: Flight)
    requires IsRun(INDEX_SLACK, ws, events) && i <= |events| && Enabled(ws[i], FinishRefresh(f))
    ensures
      var st, now, s := ws[i].store, ws[i].now, f.session;
      var (st', r) := Update(st, INDEX_SLACK, now, s);
      && r == (if s.expiresAt <= now then Err(Expired) else if Get(st, now, s.hash).Err? then Err(NotFound) else Ok(()))
      && (r.Ok? && now <= s.expiresAt / 1000 * 1000 ==> Get(st', now, s.hash) == Ok(s))
      && forall h | h != s.hash || r.Err? :: Get(st', now, h) == Get(st, now, h)
  {
    RunKeeps(INDEX_SLACK, ws, events, i);
  }

  // A removal succeeds exactly if the session could be read, and it cannot be read afterwards.
  lemma RemoveIsDecided(ws: seq<World>, events: seq<Event>, i: nat, user: int, hash: string)
    requires IsRun(INDEX_SLACK, ws, events) && i <= |events|
    ensures
      var st, now := ws[i].store, ws[i].now;
      var (st', r) := Delete(st, now, user, hash);
      && r == (if Get(st, now, hash).Ok? then Ok(()) else Err(NotFound))
      && Get(st', now, hash) == Err(NotFound)
      && forall h | h != hash :: Get(st', now, h) == Get(st, now, h)
  {
    RunKeeps(INDEX_SLACK, ws, events, i);
  }

  // ---- When the expiry never moves back ----

  // No more than n refreshes of the hash are between their steps.
  ghost predicate AtMostInFlight(flights: multiset<Flight>, hash: string, n: int) {
    forall fs: multiset<Flight> | fs <= flights && (forall f | f in fs :: f.session.hash == hash) :: |fs| <= n
  }

  ghost predicate FewRefreshes(ws: seq<World>, hash: string, n: int) {
    forall i | 0 <= i < |ws| :: AtMostInFlight(ws[i].flights, hash, n)
  }

  predicate NoLater(w: World, w': World, hash: string) {
    Live(w.store, w.now, hash) && Live(w'.store, w'.now, hash) ==>
      w.store.data[hash].session.expiresAt <= w'.store.data[hash].session.expiresAt
  }

  // The stored expiry of the live session never decreases.
  ghost predicate NeverMovesBack(ws: seq<World>, hash: string) {
    forall i, j | 0 <= i <= j < |ws| :: NoLater(ws[i], ws[j], hash)
  }

  // A refresh that is ready to be written does not lie behind what is stored.
  ghost predicate Ahead(w: World, hash: string) {
    hash in w.store.data ==>
      forall f | f in w.flights && f.Ready? && f.session.hash == hash ::
        w.store.data[hash].session.expiresAt <= f.session.expiresAt
  }

  lemma AtMostOneIsAlone(flights: multiset<Flight>, hash: string, f: Flight)
    requires AtMostInFlight(flights, hash, 1) && f in flights && f.session.hash == hash
    ensures forall g | g in flights - multiset{f} :: g.session.hash != hash
  {
    forall g | g in flights - multiset{f} ensures g.session.hash != hash {
      var two := multiset{f} + multiset{g};
      assert two <= flights;
      assert |two| == 2;
    }
  }

  lemma ComputedIsAhead(w: World, f: Flight, hash: string, userID: int, createdAt: int)
    requires SessionsBounded(w) && OnlyFrom(w, hash, userID, createdAt)
    requires f in w.flights && f.session.hash == hash && hash in w.store.data
    ensures w.store.data[hash].session.expiresAt <= Refreshed(f.session, w.now).expiresAt
  {
  }

  lemma FinishWritesOwnHash(slack: int, w: World, f: Flight, w': World, hash: string)
    requires Enabled(w, FinishRefresh(f)) && w' == Step(slack, w, FinishRefresh(f)) && hash in w'.store.data
    ensures hash in w.store.data
    ensures w'.store.data[hash].session == w.store.data[hash].session
      || (f.session.hash == hash && w'.store.data[hash].session == f.session)
  {
    CellOrigin(slack, w, FinishRefresh(f), hash);
  }

  // A write of a refresh moves the expiry on, and leaves no other refresh behind it.
  lemma FinishKeepsAhead(slack: int, w: World, f: Flight, w': World, hash: string)
    requires Ahead(w, hash) && AtMostInFlight(w.flights, hash, 1)
    requires Enabled(w, FinishRefresh(f)) && w' == Step(slack, w, FinishRefresh(f))
    ensures Ahead(w', hash)
    ensures hash in w'.store.data ==>
      hash in w.store.data && w.store.data[hash].session.expiresAt <= w'.store.data[hash].session.expiresAt
  {
    assert w'.flights == w.flights - multiset{f};
    if hash in w'.store.data {
      FinishWritesOwnHash(slack, w, f, w', hash);
    }
    if f.session.hash == hash {
      AtMostOneIsAlone(w.flights, hash, f);
    }
  }

  lemma ComputeKeepsAhead(
    slack: int, w: World, f: Flight, w': World, hash: string, userID: int, createdAt: int)
    requires Ahead(w, hash) && SessionsBounded(w) && OnlyFrom(w, hash, userID, createdAt)
    requires Enabled(w, ComputeExpiry(f)) && w' == Step(slack, w, ComputeExpiry(f))
    ensures Ahead(w', hash) && w'.store == w.store
  {
    var ready := Ready(Refreshed(f.session, w.now));
    forall g | g in w'.flights && g.Ready? && g.session.hash == hash && hash in w.store.data
      ensures w.store.data[hash].session.expiresAt <= g.session.expiresAt
    {
      if g == ready {
        ComputedIsAhead(w, f, hash, userID, createdAt);
      } else {
        assert g in w.flights;
      }
    }
  }

  lemma OtherKeepsAhead(slack: int, w: World, e: Event, w': World, hash: string)
    requires Ahead(w, hash) && Enabled(w, e) && w' == Step(slack, w, e)
    requires !e.ComputeExpiry? && !e.FinishRefresh? && (e.Issue? ==> e.hash != hash)
    ensures Onward(w, w', hash)
  {
    if hash in w'.store.data {
      CellOrigin(slack, w, e, hash);
    }
    forall f | f in w'.flights && f.Ready? ensures f in w.flights {
      FlightOrigin(slack, w, e, f);
    }
  }

  // From one world to the next the ready refreshes stay ahead and the expiry moves on.
  ghost predicate Onward(w: World, w': World, hash: string) {
    Ahead(w, hash) ==>
      && Ahead(w', hash)
      && (hash in w'.store.data ==>
            hash in w.store.data && w.store.data[hash].session.expiresAt <= w'.store.data[hash].session.expiresAt)
  }

  lemma StepIsOnward(slack: int, w: World, e: Event, w': World, hash: string, userID: int, createdAt: int)
    requires SessionsBounded(w) && OnlyFrom(w, hash, userID, createdAt) && AtMostInFlight(w.flights, hash, 1)
    requires Enabled(w, e) && w' == Step(slack, w, e) && (e.Issue? ==> e.hash != hash)
    ensures Onward(w, w', hash)
  {
    if Ahead(w, hash) {
      if e.ComputeExpiry? {
        ComputeKeepsAhead(slack, w, e.flight, w', hash, userID, createdAt);
      } else if e.FinishRefresh? {
        FinishKeepsAhead(slack, w, e.flight, w', hash);
      } else {
        OtherKeepsAhead(slack, w, e, w', hash);
      }
    }
  }

  lemma RunIsOnward(ws: seq<World>, events: seq<Event>, n: nat, j: nat)
    requires IsRun(INDEX_SLACK, ws, events) && IssuedOnceAt(events, n) && n < j < |events|
    requires FewRefreshes(ws, events[n].hash, 1)
    ensures Onward(ws[j], ws[j + 1], events[n].hash)
  {
    RunKeeps(INDEX_SLACK, ws, events, j);
    StaysFromIssue(ws, events, n, j);
    StepIsOnward(INDEX_SLACK, ws[j], events[j], ws[j + 1], events[n].hash, events[n].userID, events[n].creationRead);
  }

  lemma {:induction false} MovesOnFrom(ws: seq<World>, i: nat, j: nat, hash: string)
    requires i <= j < |ws| && Ahead(ws[i], hash) && forall k | i <= k < j :: Onward(ws[k], ws[k + 1], hash)
    ensures Ahead(ws[j], hash)
    ensures hash in ws[j].store.data ==>
      hash in ws[i].store.data && ws[i].store.data[hash].session.expiresAt <= ws[j].store.data[hash].session.expiresAt
    decreases j
  {
    if i < j {
      MovesOnFrom(ws, i, j - 1, hash);
      assert Onward(ws[j - 1], ws[j - 1 + 1], hash);
    }
  }

  lemma IssueIsAhead(ws: seq<World>, events: seq<Event>, n: nat)
    requires IsRun(INDEX_SLACK, ws, events) && IssuedOnceAt(events, n)
    ensures Ahead(ws[n + 1], events[n].hash)
  {
    UnknownBeforeIssue(ws, events, n, n);
  }

  lemma {:induction false} OneAtATimeNeverMovesBack(ws: seq<World>, events: seq<Event>, n: nat)
    requires IsRun(INDEX_SLACK, ws, events) && IssuedOnceAt(events, n) && FewRefreshes(ws, events[n].hash, 1)
    ensures NeverMovesBack(ws, events[n].hash)
  {
    var hash := events[n].hash;
    IssueIsAhead(ws, events, n);
    forall k | n < k < |events| ensures Onward(ws[k], ws[k + 1], hash) {
      RunIsOnward(ws, events, n, k);
    }
    forall i, j | 0 <= i <= j < |ws| ensures NoLater(ws[i], ws[j], hash) {
      if i <= n {
        UnknownBeforeIssue(ws, events, n, i);
      } else {
        MovesOnFrom(ws, n + 1, i, hash);
        MovesOnFrom(ws, i, j, hash);
      }
    }
  }

  // Main result: in all runs with at most n refreshes of a session under way at a time its expiry
  // never moves back, exactly when n is at most 1.
  lemma {:induction false} ExpiryNeverMovesBackIff(n: nat)
    ensures
      (forall ws: seq<World>, events: seq<Event>, k: nat | IsRun(INDEX_SLACK, ws, events) && IssuedOnceAt(events, k)
         && FewRefreshes(ws, events[k].hash, n) :: NeverMovesBack(ws, events[k].hash))
      <==> n <= 1
  {
    if n <= 1 {
      forall ws: seq<World>, events: seq<Event>, k: nat | IsRun(INDEX_SLACK, ws, events) && IssuedOnceAt(events, k)
        && FewRefreshes(ws, events[k].hash, n)
        ensures NeverMovesBack(ws, events[k].hash)
      {
        OneAtATimeNeverMovesBack(ws, events, k);
      }
    } else {
      var ws, events := CrossingRun();
    }
  }

  // ---- Two refreshes at once ----

  // A run that begins with an Issue of the hash "h", the only one, with at most two flights.
  ghost predicate OneIssueTwoFlights(ws: seq<World>, events: seq<Event>) {
    && IsRun(INDEX_SLACK, ws, events) && events != [] && events[0] == Issue(1, "h", 1, 1)
    && (forall k | 0 < k < |events| :: !events[k].Issue?)
    && (forall i | 0 <= i < |ws| :: |ws[i].flights| <= 2)
  }

  lemma RunOn(ws: seq<World>, events: seq<Event>, e: Event) returns (ws': seq<World>, events': seq<Event>)
    requires OneIssueTwoFlights(ws, events) && Enabled(ws[|events|], e) && !e.Issue?
    requires |Step(INDEX_SLACK, ws[|events|], e).flights| <= 2
    ensures OneIssueTwoFlights(ws', events') && |events'| == |events| + 1
    ensures ws'[|events'|] == Step(INDEX_SLACK, ws[|events|], e) && ws'[|events|] == ws[|events|]
  {
    ws', events' := ws + [Step(INDEX_SLACK, ws[|events|], e)], events + [e];
  }

  lemma Issues(s: Session) returns (ws: seq<World>, events: seq<Event>)
    requires s == Issued(1, "h", 1, 1)
    ensures OneIssueTwoFlights(ws, events)
    ensures
      var w := ws[|events|];
      w.now == 1 && w.store.data == map["h" := Cell(s, s.expiresAt)] && w.flights == multiset{}
  {
    ws, events := [INITIAL, Step(INDEX_SLACK, INITIAL, Issue(1, "h", 1, 1))], [Issue(1, "h", 1, 1)];
  }

  lemma OneRefreshReady(s: Session) returns (ws: seq<World>, events: seq<Event>)
    requires s == Issued(1, "h", 1, 1)
    ensures OneIssueTwoFlights(ws, events)
    ensures
      var w := ws[|events|];
      && w.now == SECOND + 1 && w.store.data == map["h" := Cell(s, s.expiresAt)]
      && w.flights == multiset{Ready(Refreshed(s, 1))}
  {
    ws, events := Issues(s);
    ws, events := RunOn(ws, events, BeginRefresh("h"));
    assert ws[|events|].flights == multiset{Fetched(s)};
    var ready := multiset{Ready(Refreshed(s, 1))};
    assert multiset{Fetched(s)} - multiset{Fetched(s)} + ready == ready;
    ws, events := RunOn(ws, events, ComputeExpiry(Fetched(s)));
    ws, events := RunOn(ws, events, Tick(SECOND));
  }

  // An earlier refresh is about to be written, and a later one too.
  lemma TwoRefreshesReady() returns (ws: seq<World>, events: seq<Event>)
    ensures OneIssueTwoFlights(ws, events)
    ensures
      var w, s := ws[|events|], Issued(1, "h", 1, 1);
      && Live(w.store, w.now, "h") && w.now + SECOND <= s.expiresAt && s.hash == "h"
      && w.flights == multiset{Ready(Refreshed(s, 1)), Ready(Refreshed(s, SECOND + 1))}
      && Refreshed(s, 1).expiresAt < Refreshed(s, SECOND + 1).expiresAt
  {
    var s := Issued(1, "h", 1, 1);
    ws, events := OneRefreshReady(s);
    var one := multiset{Ready(Refreshed(s, 1))};
    ws, events := RunOn(ws, events, BeginRefresh("h"));
    assert ws[|events|].flights == one + multiset{Fetched(s)};
    var two := one + multiset{Ready(Refreshed(s, SECOND + 1))};
    assert one + multiset{Fetched(s)} - multiset{Fetched(s)} == one;
    ws, events := RunOn(ws, events, ComputeExpiry(Fetched(s)));
    assert ws[|events|].flights == two;
  }

  lemma FinishWrites(w: World, f: Flight, w': World)
    requires f in w.flights && f.Ready? && Live(w.store, w.now, f.session.hash)
    requires f.session.expiresAt >= w.now + SECOND && w' == Step(INDEX_SLACK, w, FinishRefresh(f))
    ensures Live(w'.store, w'.now, f.session.hash) && w'.store.data[f.session.hash].session == f.session
    ensures w'.now == w.now && w'.flights == w.flights - multiset{f} && |w'.flights| <= |w.flights|
  {
  }

  // Of two refreshes of a session that are ready at once, writing the earlier one last moves the
  // expiry back.
  lemma CrossingMovesExpiryBack(w: World, earlier: Flight, later: Flight, w1: World, w2: World)
    requires earlier in w.flights && later in w.flights && earlier.Ready? && later.Ready?
    requires earlier.session.hash == later.session.hash && Live(w.store, w.now, later.session.hash)
    requires w.now + SECOND <= earlier.session.expiresAt < later.session.expiresAt
    requires w1 == Step(INDEX_SLACK, w, FinishRefresh(later)) && w2 == Step(INDEX_SLACK, w1, FinishRefresh(earlier))
    ensures !NoLater(w1, w2, later.session.hash) && earlier in w1.flights
    ensures |w1.flights| <= |w.flights| && |w2.flights| <= |w.flights|
  {
    FinishWrites(w, later, w1);
    FinishWrites(w1, earlier, w2);
  }

  lemma FewFlights(ws: seq<World>, events: seq<Event>, hash: string, n: nat)
    requires OneIssueTwoFlights(ws, events) && n >= 2
    ensures FewRefreshes(ws, hash, n)
  {
    forall i, fs: multiset<Flight> | 0 <= i < |ws| && fs <= ws[i].flights ensures |fs| <= n {
      assert ws[i].flights == fs + (ws[i].flights - fs);
    }
  }

  lemma CrossOn(ws: seq<World>, events: seq<Event>, earlier: Flight, later: Flight)
    returns (ws': seq<World>, events': seq<Event>)
    requires OneIssueTwoFlights(ws, events) && Live(ws[|events|].store, ws[|events|].now, "h")
    requires earlier in ws[|events|].flights && later in ws[|events|].flights && earlier.Ready? && later.Ready?
    requires earlier.session.hash == later.session.hash == "h"
    requires ws[|events|].now + SECOND <= earlier.session.expiresAt < later.session.expiresAt
    ensures OneIssueTwoFlights(ws', events') && !NeverMovesBack(ws', "h")
  {
    var w := ws[|events|];
    var w1 := Step(INDEX_SLACK, w, FinishRefresh(later));
    var w2 := Step(INDEX_SLACK, w1, FinishRefresh(earlier));
    CrossingMovesExpiryBack(w, earlier, later, w1, w2);
    ws', events' := RunOn(ws, events, FinishRefresh(later));
    ws', events' := RunOn(ws', events', FinishRefresh(earlier));
    assert !NoLater(ws'[|events'| - 1], ws'[|events'|], "h");
  }

  // With two refreshes at once a run moves the expiry back.
  lemma CrossingRun() returns (ws: seq<World>, events: seq<Event>)
    ensures IsRun(INDEX_SLACK, ws, events) && IssuedOnceAt(events, 0) && events[0].hash == "h"
    ensures !NeverMovesBack(ws, "h") && forall n: nat | n >= 2 :: FewRefreshes(ws, "h", n)
  {
    var s := Issued(1, "h", 1, 1);
    ws, events := TwoRefreshesReady();
    ws, events := CrossOn(ws, events, Ready(Refreshed(s, 1)), Ready(Refreshed(s, SECOND + 1)));
    forall n: nat | n >= 2 ensures FewRefreshes(ws, "h", n) {
      FewFlights(ws, events, "h", n);
    }
  }
}
