// One token's requests through the authentication middleware (internal/api/middleware.go): each
// validates, asks whether to refresh, and if so starts a refresh.
module KeepAlive {
  import opened SessionStore
  import opened Sessions
  import opened Wrappers

  // When a request is checked, and when the refresh it may start reads, computes and writes.
  datatype Request = Request(at: int, read: int, compute: int, write: int)

  predicate InOrder(r: Request) {
    r.at <= r.read <= r.compute <= r.write
  }

  // The store after a request, and whether the request was let through.
  function Serve(st: Store, hash: string, r: Request): (Store, bool) {
    match Authenticate(st, r.at, hash)
    case Err(_) => (st, false)
    case Ok(s) =>
      if !ShouldRefresh(s, r.at) then (st, true)
      else
        match Get(st, r.read, hash)
        case Err(_) => (st, true)
        case Ok(now) => (Update(st, INDEX_SLACK, r.write, Refreshed(now, r.compute)).0, true)
  }

  class AuthMiddleware {
    const service: SessionService

    constructor (service: SessionService)
      ensures this.service == service
    {
      this.service := service;
    }

    method Handle(token: string, r: Request, userExists: bool) returns (passed: bool)
      modifies service.store
      ensures ValidateAndHash(token).Err? || !userExists ==>
        !passed && service.store.View() == old(service.store.View())
      ensures ValidateAndHash(token).Ok? && userExists ==>
        (service.store.View(), passed) == Serve(old(service.store.View()), Hash(token), r)
    {
      var response := service.Validate(token, r.at, userExists);
      if response.Err? {
        return false;
      }
      if ShouldRefresh(response.value, r.at) {
        var _ := service.ExecuteRefresh(token, r.read, r.compute, r.write);
      }
      return true;
    }
  }

  // Every request of the list is let through, and none moves the expiry back.
  predicate AllPass(st: Store, hash: string, rs: seq<Request>)
    decreases |rs|
  {
    rs == [] ||
    (var (st', passed) := Serve(st, hash, rs[0]);
     && passed && hash in st.data && hash in st'.data
     && st.data[hash].session.expiresAt <= st'.data[hash].session.expiresAt
     && AllPass(st', hash, rs[1..]))
  }

  // Each request comes at most `gap` after the one before and not after `until`, and a refresh ends
  // before the request that follows it, at most `gap` after the request before; how long the last
  // refresh takes does not matter.
  predicate Spaced(prev: Request, gap: int, until: int, rs: seq<Request>)
    decreases |rs|
  {
    rs == [] ||
    (&& InOrder(rs[0]) && prev.write <= rs[0].at <= until
     && rs[0].at <= prev.at + gap
     && (|rs| > 1 ==> rs[0].write <= prev.at + gap)
     && Spaced(rs[0], gap, until, rs[1..]))
  }

  // A quarter of a session's first life, less the second that EXAT may cut off.
  function MaxGap(s: Session): int {
    (s.expiresAt - s.createdAt) / 4 - SECOND
  }

  // The key's last whole second under the cap.
  function LastSecond(s: Session): int {
    WholeSeconds(s.createdAt + MAX_LIFE)
  }

  // After request `prev` the session has at least a quarter of its first life left, or all it may have.
  predicate Fresh(st: Store, first: Session, prev: Request) {
    && first.hash in st.data
    && var c := st.data[first.hash];
      && c.session.hash == first.hash && c.session.createdAt == first.createdAt
      && first.expiresAt <= c.session.expiresAt <= first.createdAt + MAX_LIFE
      && c.session.expiresAt <= prev.write + DURATION
      && WholeSeconds(c.session.expiresAt) <= c.deadline <= c.session.expiresAt
      && (c.session.expiresAt == first.createdAt + MAX_LIFE
          || c.session.expiresAt - prev.at >= (first.expiresAt - first.createdAt) / 4)
  }

  predicate FirstLife(first: Session) {
    && 0 < first.createdAt <= first.expiresAt
    && first.expiresAt - first.createdAt <= DURATION
  }

  lemma ServePasses(st: Store, first: Session, prev: Request, r: Request)
    requires FirstLife(first) && Fresh(st, first, prev)
    requires first.createdAt <= prev.at && prev.write <= r.at && InOrder(prev) && InOrder(r)
    requires r.at <= prev.at + MaxGap(first) && r.at <= LastSecond(first)
    ensures
      var (st', passed) := Serve(st, first.hash, r);
      && passed && first.hash in st'.data
      && st.data[first.hash].session.expiresAt <= st'.data[first.hash].session.expiresAt
  {
    var c := st.data[first.hash];
    assert r.at <= c.deadline;
    assert Authenticate(st, r.at, first.hash) == Ok(c.session);
  }

  lemma ServeKeepsFresh(st: Store, first: Session, prev: Request, r: Request)
    requires FirstLife(first) && Fresh(st, first, prev)
    requires first.createdAt <= prev.at && prev.write <= r.at && InOrder(prev) && InOrder(r)
    requires r.write <= prev.at + MaxGap(first) && r.write <= LastSecond(first)
    ensures Fresh(Serve(st, first.hash, r).0, first, r)
  {
    var c := st.data[first.hash];
    assert r.write <= c.deadline;
    assert Authenticate(st, r.at, first.hash) == Ok(c.session);
  }

  // Main result: requests at most a quarter of the first life apart, less a second, keep a
  // session alive up to the last second under the cap.
  lemma {:induction false} SpacedRequestsPass(st: Store, first: Session, prev: Request, rs: seq<Request>)
    requires FirstLife(first) && Fresh(st, first, prev) && first.createdAt <= prev.at && InOrder(prev)
    requires Spaced(prev, MaxGap(first), LastSecond(first), rs)
    ensures AllPass(st, first.hash, rs)
    decreases |rs|
  {
    if rs != [] {
      ServePasses(st, first, prev, rs[0]);
      if |rs| > 1 {
        ServeKeepsFresh(st, first, prev, rs[0]);
        SpacedRequestsPass(Serve(st, first.hash, rs[0]).0, first, rs[0], rs[1..]);
      }
    }
  }

  // From Issue on: with both clock reads of Issue in the same millisecond the gap is 6 h less a second.
  lemma KeepAliveFromIssue(
    st: Store, userID: int, hash: string, expiryRead: int, creationRead: int, now: int, rs: seq<Request>)
    requires 0 < expiryRead <= creationRead <= now < expiryRead + DURATION
    requires !Live(st, now, hash)
    requires
      var s := Issued(userID, hash, expiryRead, creationRead);
      Spaced(Request(creationRead, creationRead, creationRead, now), MaxGap(s), LastSecond(s), rs)
    ensures
      var s := Issued(userID, hash, expiryRead, creationRead);
      AllPass(Create(st, INDEX_SLACK, now, s).0, hash, rs)
      && (expiryRead == creationRead ==> MaxGap(s) == 21_599_000)
  {
    var s := Issued(userID, hash, expiryRead, creationRead);
    SpacedRequestsPass(Create(st, INDEX_SLACK, now, s).0, s, Request(creationRead, creationRead, creationRead, now), rs);
  }

  // A quarter of the time from creation to expiry, or less, is left after this millisecond.
  predicate IsDue(s: Session, at: int) {
    4 * (s.expiresAt - at + 1) <= s.expiresAt - s.createdAt
  }

  function Earlier(a: int, b: int): int {
    if a <= b then a else b
  }

  // Main result: in every reachable state a request passes exactly while the key is there, and
  // changes the session exactly if a quarter or less is left and the refresh writes in time; then
  // the session has another day, but not past the cap.
  lemma RequestIsDecided(ws: seq<World>, events: seq<Event>, i: nat, hash: string, r: Request)
    requires IsRun(INDEX_SLACK, ws, events) && i <= |events| && InOrder(r)
    ensures
      var st := ws[i].store;
      var (st', passed) := Serve(st, hash, r);
      if hash !in st.data || r.at > st.data[hash].deadline then !passed && st' == st
      else
        var c := st.data[hash];
        var s, expiry := c.session, Earlier(r.compute + 86_400_000, c.session.createdAt + 604_800_000);
        && passed
        && (!IsDue(s, r.at) || r.read > c.deadline || r.write >= expiry ==> st' == st)
        && st'.data ==
             (if IsDue(s, r.at) && r.write <= c.deadline && r.write < expiry
              then st.data[hash := Cell(s.(expiresAt := expiry), expiry / 1000 * 1000)]
              else st.data)
  {
    RunKeeps(INDEX_SLACK, ws, events, i);
  }

  // No request passes after the cap, however the session was refreshed in the run before it.
  lemma NonePassesAfterCap(ws: seq<World>, events: seq<Event>, n: nat, i: nat, r: Request)
    requires IsRun(INDEX_SLACK, ws, events) && IssuedOnceAt(events, n) && n < i <= |events|
    requires r.at > events[n].creationRead + 604_800_000
    ensures !Serve(ws[i].store, events[n].hash, r).1
  {
    RunKeeps(INDEX_SLACK, ws, events, i);
    StaysFromIssue(ws, events, n, i);
  }

  // Exactly when a refresh lets a request past the old deadline through, in any reachable state: it
  // must write while the key is still there, and far enough ahead of the new expiry's last second.
  lemma RefreshHoldsIff(ws: seq<World>, events: seq<Event>, i: nat, hash: string, r: Request, next: Request)
    requires IsRun(INDEX_SLACK, ws, events) && i <= |events|
    requires InOrder(r) && Live(ws[i].store, r.read, hash) && ShouldRefresh(ws[i].store.data[hash].session, r.at)
    requires r.write <= next.at && ws[i].store.data[hash].deadline < next.at
    ensures
      var c := ws[i].store.data[hash];
      var expiry := Refreshed(c.session, r.compute).expiresAt;
      Serve(Serve(ws[i].store, hash, r).0, hash, next).1 <==>
      (r.write <= c.deadline && r.write < expiry && next.at <= WholeSeconds(expiry))
  {
    RunKeeps(INDEX_SLACK, ws, events, i);
  }

  // A refresh that writes after the expiry comes too late, also when it ends before the next
  // request: that one is refused.
  lemma LateRefreshIsLost(st: Store, hash: string, r: Request, next: Request)
    requires hash in st.data && st.data[hash].session.hash == hash
    requires InOrder(r) && st.data[hash].deadline < r.write <= next.at
    ensures !Serve(Serve(st, hash, r).0, hash, next).1
  {
  }

  // So requests less than 6 h apart do not suffice by themselves: after quiet requests at 5, 10,
  // 15 and 18 hours, one a millisecond before the expiry may refresh too late for the next.
  lemma SixHoursAreNotEnough() returns (rs: seq<Request>)
    ensures forall i | 0 <= i < |rs| :: InOrder(rs[i])
    ensures forall i | 0 < i < |rs| :: rs[i - 1].write <= rs[i].at < rs[i - 1].at + DAY / 4
    ensures |rs| > 0 && rs[0].at < 1 + DAY / 4
    ensures !AllPass(Create(EMPTY_STORE, INDEX_SLACK, 1, Issued(1, "h", 1, 1)).0, "h", rs)
  {
    var hour := 3600 * SECOND;
    var st := Create(EMPTY_STORE, INDEX_SLACK, 1, Issued(1, "h", 1, 1)).0;
    var late, lost := Request(DAY, DAY, DAY, DAY + 2), Quiet(DAY + 3);
    rs := LateThenLost(st, late, lost);
    rs := QuietThen(st, 18 * hour + 1, rs);
    rs := QuietThen(st, 15 * hour, rs);
    rs := QuietThen(st, 10 * hour, rs);
    rs := QuietThen(st, 5 * hour, rs);
    assert rs == [Quiet(5 * hour), Quiet(10 * hour), Quiet(15 * hour), Quiet(18 * hour + 1), late, lost];
  }

  lemma LateThenLost(st: Store, late: Request, lost: Request) returns (rs: seq<Request>)
    requires "h" in st.data && st.data["h"].session.hash == "h"
    requires InOrder(late) && st.data["h"].deadline < late.write <= lost.at
    ensures rs == [late, lost] && !AllPass(st, "h", rs)
  {
    LateRefreshIsLost(st, "h", late, lost);
    FailsLater(Serve(st, "h", late).0, "h", lost, []);
    FailsLater(st, "h", late, [lost]);
    assert [lost] + [] == [lost] && [late] + [lost] == [late, lost];
    rs := [late, lost];
  }

  function Quiet(t: int): Request {
    Request(t, t, t, t)
  }

  lemma FailsLater(st: Store, hash: string, r: Request, rest: seq<Request>)
    ensures
      var (st', passed) := Serve(st, hash, r);
      !passed || !AllPass(st', hash, rest) ==> !AllPass(st, hash, [r] + rest)
  {
    assert ([r] + rest)[1..] == rest;
  }

  lemma QuietThen(st: Store, t: int, rest: seq<Request>) returns (rs: seq<Request>)
    requires "h" in st.data && st.data["h"] == Cell(Issued(1, "h", 1, 1), 1 + DAY)
    requires 1 <= t <= 1 + DAY - DAY / 4 && !AllPass(st, "h", rest)
    ensures rs == [Quiet(t)] + rest && !AllPass(st, "h", rs)
  {
    rs := [Quiet(t)] + rest;
    assert Serve(st, "h", Quiet(t)) == (st, true);
    FailsLater(st, "h", Quiet(t), rest);
  }
}
