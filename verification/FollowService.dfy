// Following and unfollowing: an edge table and two counters per user, changed in a transaction
// (internal/service/follow_service.go over internal/db/follow_store.go, user_store.go, base.go).
module FollowService {
  import opened Wrappers

  datatype Error = InvalidUserID | CannotFollowSelf | UserNotFound | AlreadyFollowing
  datatype Outcome = Done | Failed(error: Error)

  datatype User = User(followerCount: int, followingCount: int)

  // An edge (a, b) says that a follows b.
  datatype Tables = Tables(users: map<int, User>, edges: set<(int, int)>)

  // The foreign keys and the check constraint of the follows table, and the counter checks.
  predicate Constraints(t: Tables) {
    && (forall e | e in t.edges :: e.0 in t.users && e.1 in t.users && e.0 != e.1)
    && (forall u | u in t.users :: t.users[u].followerCount >= 0 && t.users[u].followingCount >= 0)
  }

  function AtLeastZero(n: int): int {
    if n < 0 then 0 else n
  }

  function Count(users: map<int, User>, follower: int, followed: int, delta: int): map<int, User>
    requires follower in users && followed in users
  {
    var mid := users[followed := users[followed].(followerCount := AtLeastZero(users[followed].followerCount + delta))];
    mid[follower := mid[follower].(followingCount := AtLeastZero(mid[follower].followingCount + delta))]
  }

  function Checked(t: Tables, user: int, target: int): Outcome {
    if user <= 0 || target <= 0 then Failed(InvalidUserID)
    else if user == target then Failed(CannotFollowSelf)
    else if target !in t.users then Failed(UserNotFound)
    else Done
  }

  // What Follow leaves committed and returns.
  function AfterFollow(t: Tables, user: int, target: int): (Tables, Outcome) {
    if Checked(t, user, target).Failed? then (t, Checked(t, user, target))
    else if (user, target) in t.edges then (t, Failed(AlreadyFollowing))
    else if user !in t.users then (t, Failed(UserNotFound))
    else (Tables(Count(t.users, user, target, 1), t.edges + {(user, target)}), Done)
  }

  // What UnFollow leaves committed and returns; the counters go down also when there was no edge.
  function AfterUnFollow(t: Tables, user: int, target: int): (Tables, Outcome) {
    if Checked(t, user, target).Failed? then (t, Checked(t, user, target))
    else if user !in t.users then (t, Failed(UserNotFound))
    else (Tables(Count(t.users, user, target, -1), t.edges - {(user, target)}), Done)
  }

  // The database with at most one open transaction. A statement on the transaction's connection
  // sees and changes the working tables; a statement on the database itself is committed at once
  // and seen by the transaction.
  class Database {
    var committed: Tables
    var working: Option<Tables>

    constructor (t: Tables)
      requires Constraints(t)
      ensures committed == t && working == None
    {
      committed := t;
      working := None;
    }

    function Conn(): Tables
      reads this
    {
      if working.Some? then working.value else committed
    }

    method Begin()
      modifies this
      ensures committed == old(committed) && working == Some(committed)
    {
      working := Some(committed);
    }

    method Commit()
      requires working.Some?
      modifies this
      ensures committed == old(working).value && working == None
    {
      committed := working.value;
      working := None;
    }

    method Rollback()
      modifies this
      ensures committed == old(committed) && working == None
    {
      working := None;
    }

    method Write(t: Tables)
      modifies this
      ensures Conn() == t
      ensures old(working).Some? ==> committed == old(committed) && working.Some?
      ensures old(working).None? ==> working == None
    {
      if working.Some? {
        working := Some(t);
      } else {
        committed := t;
      }
    }

    // INSERT with the table's constraints.
    method InsertFollow(follower: int, followed: int) returns (r: Outcome)
      modifies this
      ensures old(working).Some? ==> committed == old(committed) && working.Some?
      ensures r ==
        if (follower, followed) in old(Conn()).edges then Failed(AlreadyFollowing)
        else if follower == followed then Failed(CannotFollowSelf)
        else if follower !in old(Conn()).users || followed !in old(Conn()).users then Failed(UserNotFound)
        else Done
      ensures Conn() ==
        if r.Done? then old(Conn()).(edges := old(Conn()).edges + {(follower, followed)}) else old(Conn())
    {
      var t := Conn();
      if (follower, followed) in t.edges {
        return Failed(AlreadyFollowing);
      }
      if follower == followed {
        return Failed(CannotFollowSelf);
      }
      if follower !in t.users || followed !in t.users {
        return Failed(UserNotFound);
      }
      Write(t.(edges := t.edges + {(follower, followed)}));
      return Done;
    }

    // Runs on the database, not on the transaction.
    method DeleteFollow(follower: int, followed: int)
      modifies this
      ensures committed == old(committed).(edges := old(committed).edges - {(follower, followed)})
      ensures working ==
        if old(working).None? then None
        else Some(old(working).value.(edges := old(working).value.edges - {(follower, followed)}))
    {
      committed := committed.(edges := committed.edges - {(follower, followed)});
      if working.Some? {
        working := Some(working.value.(edges := working.value.edges - {(follower, followed)}));
      }
    }

    method IncreaseFollowerCount(user: int, delta: int) returns (r: Outcome)
      modifies this
      ensures old(working).Some? ==> committed == old(committed) && working.Some?
      ensures r == if user in old(Conn()).users then Done else Failed(UserNotFound)
      ensures Conn() ==
        if r.Failed? then old(Conn())
        else
          var t := old(Conn());
          t.(users := t.users[user := t.users[user].(followerCount := AtLeastZero(t.users[user].followerCount + delta))])
    {
      var t := Conn();
      if user !in t.users {
        return Failed(UserNotFound);
      }
      var row := t.users[user];
      Write(t.(users := t.users[user := row.(followerCount := AtLeastZero(row.followerCount + delta))]));
      return Done;
    }

    method IncreaseFollowingCount(user: int, delta: int) returns (r: Outcome)
      modifies this
      ensures old(working).Some? ==> committed == old(committed) && working.Some?
      ensures r == if user in old(Conn()).users then Done else Failed(UserNotFound)
      ensures Conn() ==
        if r.Failed? then old(Conn())
        else
          var t := old(Conn());
          t.(users := t.users[user := t.users[user].(followingCount := AtLeastZero(t.users[user].followingCount + delta))])
    {
      var t := Conn();
      if user !in t.users {
        return Failed(UserNotFound);
      }
      var row := t.users[user];
      Write(t.(users := t.users[user := row.(followingCount := AtLeastZero(row.followingCount + delta))]));
      return Done;
    }
  }

  class FollowService {
    const db: Database

    constructor (db: Database)
      ensures this.db == db
    {
      this.db := db;
    }

    // All or nothing: a failure leaves the committed tables as they were.
    method Follow(user: int, target: int) returns (r: Outcome)
      requires db.working == None && Constraints(db.committed)
      modifies db
      ensures (db.committed, r) == AfterFollow(old(db.committed), user, target)
      ensures db.working == None
    {
      r := Checked(db.committed, user, target);
      if r.Failed? {
        return;
      }
      db.Begin();
      r := db.InsertFollow(user, target);
      if r.Done? {
        r := db.IncreaseFollowerCount(target, 1);
      }
      if r.Done? {
        r := db.IncreaseFollowingCount(user, 1);
      }
      if r.Failed? {
        db.Rollback();
      } else {
        db.Commit();
      }
    }

    // All or nothing although the deletion bypasses the transaction: when the transaction fails
    // the user does not exist, and by the foreign keys there was no edge to delete.
    method UnFollow(user: int, target: int) returns (r: Outcome)
      requires db.working == None && Constraints(db.committed)
      modifies db
      ensures (db.committed, r) == AfterUnFollow(old(db.committed), user, target)
      ensures db.working == None
    {
      r := Checked(db.committed, user, target);
      if r.Failed? {
        return;
      }
      db.Begin();
      db.DeleteFollow(user, target);
      r := db.IncreaseFollowerCount(target, -1);
      if r.Done? {
        r := db.IncreaseFollowingCount(user, -1);
      }
      if r.Failed? {
        assert (user, target) !in old(db.committed).edges;
        assert db.committed == old(db.committed);
        db.Rollback();
      } else {
        db.Commit();
      }
    }
  }

  // ---- One call against the other ----

  lemma CountBack(users: map<int, User>, user: int, target: int)
    requires user in users && target in users && user != target
    requires users[target].followerCount >= 0 && users[user].followingCount >= 0
    ensures Count(Count(users, user, target, 1), user, target, -1) == users
    ensures Count(Count(users, user, target, -1), user, target, 1) == users <==>
      (users[target].followerCount > 0 && users[user].followingCount > 0)
  {
    var down := Count(Count(users, user, target, -1), user, target, 1);
    assert down[target].followerCount == AtLeastZero(users[target].followerCount - 1) + 1;
    assert down[user].followingCount == AtLeastZero(users[user].followingCount - 1) + 1;
  }

  // UnFollow undoes every Follow that succeeded.
  lemma UnFollowUndoesFollow(t: Tables, user: int, target: int)
    requires Constraints(t) && AfterFollow(t, user, target).1.Done?
    ensures AfterUnFollow(AfterFollow(t, user, target).0, user, target) == (t, Done)
  {
    CountBack(t.users, user, target);
    assert t.edges + {(user, target)} - {(user, target)} == t.edges;
  }

  // Follow undoes an UnFollow if and only if there was an edge and neither counter was at 0 already.
  lemma FollowUndoesUnFollowIff(t: Tables, user: int, target: int)
    requires Constraints(t) && AfterUnFollow(t, user, target).1.Done?
    ensures AfterFollow(AfterUnFollow(t, user, target).0, user, target) == (t, Done) <==>
      ((user, target) in t.edges && t.users[target].followerCount > 0 && t.users[user].followingCount > 0)
  {
    CountBack(t.users, user, target);
    var back := t.edges - {(user, target)} + {(user, target)};
    assert (user, target) in back;
    assert (user, target) in t.edges ==> back == t.edges;
  }

  // ---- Counters against edges, over every run ----

  datatype Event = AddUser(user: int) | DoFollow(user: int, target: int) | DoUnFollow(user: int, target: int)

  // The tables, and how many UnFollows that deleted no edge each user met as target and as follower.
  datatype State = State(t: Tables, idleIn: map<int, int>, idleOut: map<int, int>)

  const INITIAL := State(Tables(map[], {}), map[], map[])

  function Bump(m: map<int, int>, u: int): map<int, int> {
    m[u := (if u in m then m[u] else 0) + 1]
  }

  function Step(s: State, e: Event): State {
    match e
    case AddUser(u) =>
      if u in s.t.users then s
      else State(s.t.(users := s.t.users[u := User(0, 0)]), s.idleIn[u := 0], s.idleOut[u := 0])
    case DoFollow(u, v) => s.(t := AfterFollow(s.t, u, v).0)
    case DoUnFollow(u, v) =>
      var (t, r) := AfterUnFollow(s.t, u, v);
      if r.Done? && (u, v) !in s.t.edges then State(t, Bump(s.idleIn, v), Bump(s.idleOut, u))
      else s.(t := t)
  }

  function Run(events: seq<Event>): State {
    if events == [] then INITIAL else Step(Run(events[..|events| - 1]), events[|events| - 1])
  }

  function Into(edges: set<(int, int)>, u: int): set<(int, int)> {
    set e | e in edges && e.1 == u
  }

  function From(edges: set<(int, int)>, u: int): set<(int, int)> {
    set e | e in edges && e.0 == u
  }

  predicate Near(count: int, degree: int, idle: int) {
    0 <= count <= degree <= count + idle
  }

  // Every counter is at most the degree and short of it by no more than the idle UnFollows.
  ghost predicate Counted(s: State) {
    && s.idleIn.Keys == s.t.users.Keys && s.idleOut.Keys == s.t.users.Keys
    && (forall u | u in s.t.users :: Near(s.t.users[u].followerCount, |Into(s.t.edges, u)|, s.idleIn[u]))
    && (forall u | u in s.t.users :: Near(s.t.users[u].followingCount, |From(s.t.edges, u)|, s.idleOut[u]))
  }

  lemma AddedEdge(edges: set<(int, int)>, e: (int, int), u: int)
    requires e !in edges
    ensures |Into(edges + {e}, u)| == |Into(edges, u)| + if e.1 == u then 1 else 0
    ensures |From(edges + {e}, u)| == |From(edges, u)| + if e.0 == u then 1 else 0
  {
    if e.1 == u {
      assert Into(edges + {e}, u) == Into(edges, u) + {e};
    } else {
      assert Into(edges + {e}, u) == Into(edges, u);
    }
    if e.0 == u {
      assert From(edges + {e}, u) == From(edges, u) + {e};
    } else {
      assert From(edges + {e}, u) == From(edges, u);
    }
  }

  lemma RemovedEdge(edges: set<(int, int)>, e: (int, int), u: int)
    requires e in edges
    ensures |Into(edges - {e}, u)| == |Into(edges, u)| - if e.1 == u then 1 else 0
    ensures |From(edges - {e}, u)| == |From(edges, u)| - if e.0 == u then 1 else 0
  {
    assert edges - {e} + {e} == edges;
    AddedEdge(edges - {e}, e, u);
  }

  lemma NewUserHasNoEdges(t: Tables, u: int)
    requires Constraints(t) && u !in t.users
    ensures Into(t.edges, u) == {} && From(t.edges, u) == {}
  {
  }

  lemma CountChanges(users: map<int, User>, u: int, v: int, delta: int, w: int)
    requires u in users && v in users && w in users
    ensures Count(users, u, v, delta).Keys == users.Keys
    ensures Count(users, u, v, delta)[w].followerCount
      == if w == v then AtLeastZero(users[w].followerCount + delta) else users[w].followerCount
    ensures Count(users, u, v, delta)[w].followingCount
      == if w == u then AtLeastZero(users[w].followingCount + delta) else users[w].followingCount
  {
  }

  lemma FollowKeepsCounted(s: State, u: int, v: int)
    requires Constraints(s.t) && Counted(s) && AfterFollow(s.t, u, v).1.Done?
    ensures Constraints(Step(s, DoFollow(u, v)).t) && Counted(Step(s, DoFollow(u, v)))
  {
    var t' := Step(s, DoFollow(u, v)).t;
    assert t'.users.Keys == s.t.users.Keys;
    forall w | w in s.t.users
      ensures Near(t'.users[w].followerCount, |Into(t'.edges, w)|, s.idleIn[w])
      ensures Near(t'.users[w].followingCount, |From(t'.edges, w)|, s.idleOut[w])
    {
      AddedEdge(s.t.edges, (u, v), w);
      CountChanges(s.t.users, u, v, 1, w);
    }
  }

  lemma {:induction false} UnFollowKeepsCounted(s: State, u: int, v: int)
    requires Constraints(s.t) && Counted(s) && AfterUnFollow(s.t, u, v).1.Done?
    ensures Constraints(Step(s, DoUnFollow(u, v)).t) && Counted(Step(s, DoUnFollow(u, v)))
  {
    var s' := Step(s, DoUnFollow(u, v));
    var t' := s'.t;
    assert t'.users.Keys == s.t.users.Keys;
    forall w | w in s.t.users
      ensures Near(t'.users[w].followerCount, |Into(t'.edges, w)|, s'.idleIn[w])
      ensures Near(t'.users[w].followingCount, |From(t'.edges, w)|, s'.idleOut[w])
    {
      CountChanges(s.t.users, u, v, -1, w);
      if (u, v) in s.t.edges {
        RemovedEdge(s.t.edges, (u, v), w);
      } else {
        assert s.t.edges - {(u, v)} == s.t.edges;
      }
    }
  }

  lemma StepKeepsCounted(s: State, e: Event)
    requires Constraints(s.t) && Counted(s)
    ensures Constraints(Step(s, e).t) && Counted(Step(s, e))
  {
    match e {
      case AddUser(u) =>
        if u !in s.t.users {
          NewUserHasNoEdges(s.t, u);
        }
      case DoFollow(u, v) =>
        if AfterFollow(s.t, u, v).1.Done? {
          FollowKeepsCounted(s, u, v);
        }
      case DoUnFollow(u, v) =>
        if AfterUnFollow(s.t, u, v).1.Done? {
          UnFollowKeepsCounted(s, u, v);
        }
    }
  }

  lemma {:induction false} RunKeepsCounted(events: seq<Event>)
    ensures Constraints(Run(events).t) && Counted(Run(events))
  {
    if events != [] {
      RunKeepsCounted(events[..|events| - 1]);
      StepKeepsCounted(Run(events[..|events| - 1]), events[|events| - 1]);
    }
  }

  // ---- What calls do ----

  // Main result: in every reachable state a follow is carried out exactly if both ids are positive
  // and differ, both users exist and there is no such edge yet; then there is this edge more, and
  // one follower and one following more, and nothing else is changed. Otherwise nothing is, and
  // the error is that of the first condition that fails.
  lemma {:induction false} FollowIsDecided(events: seq<Event>, user: int, target: int)
    ensures
      var t := Run(events).t;
      var (t', r) := AfterFollow(t, user, target);
      if user <= 0 || target <= 0 then r == Failed(InvalidUserID) && t' == t
      else if user == target then r == Failed(CannotFollowSelf) && t' == t
      else if target !in t.users then r == Failed(UserNotFound) && t' == t
      else if (user, target) in t.edges then r == Failed(AlreadyFollowing) && t' == t
      else if user !in t.users then r == Failed(UserNotFound) && t' == t
      else
        && r == Done && t'.edges == t.edges + {(user, target)} && t'.users.Keys == t.users.Keys
        && forall w | w in t.users ::
          && t'.users[w].followerCount == t.users[w].followerCount + (if w == target then 1 else 0)
          && t'.users[w].followingCount == t.users[w].followingCount + if w == user then 1 else 0
  {
    var t := Run(events).t;
    RunIsConstrained(events);
    if AfterFollow(t, user, target).1.Done? {
      forall w | w in t.users { CountChanges(t.users, user, target, 1, w); }
    }
  }

  // Main result: in every reachable state an unfollow is carried out exactly if both ids are
  // positive and differ and both users exist; then the edge is gone and the others stay, and one
  // counter of each of the two has gone down by one, unless it was 0.
  lemma {:induction false} UnFollowIsDecided(events: seq<Event>, user: int, target: int)
    ensures
      var t := Run(events).t;
      var (t', r) := AfterUnFollow(t, user, target);
      if user <= 0 || target <= 0 then r == Failed(InvalidUserID) && t' == t
      else if user == target then r == Failed(CannotFollowSelf) && t' == t
      else if target !in t.users || user !in t.users then r == Failed(UserNotFound) && t' == t
      else
        && r == Done && t'.edges == t.edges - {(user, target)} && t'.users.Keys == t.users.Keys
        && forall w | w in t.users ::
          var was, now := t.users[w], t'.users[w];
          && now.followerCount == was.followerCount - (if w == target && was.followerCount > 0 then 1 else 0)
          && now.followingCount == was.followingCount - if w == user && was.followingCount > 0 then 1 else 0
  {
    var t := Run(events).t;
    RunIsConstrained(events);
    if AfterUnFollow(t, user, target).1.Done? {
      forall w | w in t.users { CountChanges(t.users, user, target, -1, w); }
    }
  }

  lemma RunIsConstrained(events: seq<Event>)
    ensures Constraints(Run(events).t)
  {
    RunKeepsCounted(events);
  }

  // ---- When the counters are the degrees ----

  ghost predicate Equal(t: Tables) {
    forall u | u in t.users ::
      t.users[u].followerCount == |Into(t.edges, u)| && t.users[u].followingCount == |From(t.edges, u)|
  }

  // An UnFollow of an edge, or one that finds both counters at 0 to go with no edges.
  ghost predicate Harmless(t: Tables, e: Event) {
    e.DoUnFollow? && AfterUnFollow(t, e.user, e.target).1.Done? ==>
      (e.user, e.target) in t.edges || (Into(t.edges, e.target) == {} && From(t.edges, e.user) == {})
  }

  lemma FollowKeepsEqual(t: Tables, u: int, v: int)
    requires Constraints(t) && Equal(t) && AfterFollow(t, u, v).1.Done?
    ensures Equal(AfterFollow(t, u, v).0)
  {
    var t' := AfterFollow(t, u, v).0;
    forall w | w in t'.users
      ensures t'.users[w].followerCount == |Into(t'.edges, w)| && t'.users[w].followingCount == |From(t'.edges, w)|
    {
      AddedEdge(t.edges, (u, v), w);
      CountChanges(t.users, u, v, 1, w);
    }
  }

  lemma UnFollowOfEdgeKeepsEqual(t: Tables, u: int, v: int)
    requires Constraints(t) && Equal(t) && AfterUnFollow(t, u, v).1.Done? && (u, v) in t.edges
    ensures Equal(AfterUnFollow(t, u, v).0)
  {
    var t' := AfterUnFollow(t, u, v).0;
    forall w | w in t'.users
      ensures t'.users[w].followerCount == |Into(t'.edges, w)| && t'.users[w].followingCount == |From(t'.edges, w)|
    {
      RemovedEdge(t.edges, (u, v), w);
      CountChanges(t.users, u, v, -1, w);
    }
  }

  // An UnFollow that succeeds keeps the counters equal to the degrees exactly when there was an
  // edge, or the target had no follower and the user followed no one.
  lemma UnFollowKeepsEqualIff(t: Tables, u: int, v: int)
    requires Constraints(t) && Equal(t) && AfterUnFollow(t, u, v).1.Done?
    ensures Equal(AfterUnFollow(t, u, v).0) <==> Harmless(t, DoUnFollow(u, v))
  {
    if (u, v) in t.edges {
      UnFollowOfEdgeKeepsEqual(t, u, v);
    } else {
      var t' := AfterUnFollow(t, u, v).0;
      assert t'.edges == t.edges;
      CountChanges(t.users, u, v, -1, v);
      CountChanges(t.users, u, v, -1, u);
      forall w | w in t.users && w != u && w != v ensures t'.users[w] == t.users[w] {
        CountChanges(t.users, u, v, -1, w);
      }
    }
  }

  lemma StepKeepsEqualIff(s: State, e: Event, s': State)
    requires Constraints(s.t) && Equal(s.t) && s' == Step(s, e)
    ensures Equal(s'.t) <==> Harmless(s.t, e)
  {
    match e {
      case AddUser(u) =>
        if u !in s.t.users {
          NewUserHasNoEdges(s.t, u);
        }
      case DoFollow(u, v) =>
        if AfterFollow(s.t, u, v).1.Done? {
          FollowKeepsEqual(s.t, u, v);
        }
      case DoUnFollow(u, v) =>
        if AfterUnFollow(s.t, u, v).1.Done? {
          UnFollowKeepsEqualIff(s.t, u, v);
        }
    }
  }

  ghost predicate EqualAt(events: seq<Event>, i: nat)
    requires i <= |events|
  {
    Equal(Run(events[..i]).t)
  }

  ghost predicate HarmlessAt(events: seq<Event>, i: nat)
    requires i < |events|
  {
    Harmless(Run(events[..i]).t, events[i])
  }

  lemma NextStaysEqualIff(events: seq<Event>, i: nat)
    requires i < |events| && EqualAt(events, i)
    ensures EqualAt(events, i + 1) <==> HarmlessAt(events, i)
  {
    RunIsConstrained(events[..i]);
    assert events[..i + 1] == events[..i] + [events[i]];
    RunMore(events[..i], events[i]);
    StepKeepsEqualIff(Run(events[..i]), events[i], Run(events[..i + 1]));
  }

  // Main result: the counters equal the degrees all through a run exactly when every UnFollow in
  // it that succeeded removed an edge, or found no followers and no followings to count.
  lemma {:induction false} CountersStayEqualIff(events: seq<Event>)
    ensures (forall i | 0 <= i <= |events| :: EqualAt(events, i)) <==>
      (forall i | 0 <= i < |events| :: HarmlessAt(events, i))
  {
    if forall i | 0 <= i <= |events| :: EqualAt(events, i) {
      forall i | 0 <= i < |events| ensures HarmlessAt(events, i) {
        NextStaysEqualIff(events, i);
      }
    }
    if forall i | 0 <= i < |events| :: HarmlessAt(events, i) {
      forall i | 0 <= i <= |events| ensures EqualAt(events, i) {
        HarmlessKeepsEqual(events, i);
      }
    }
  }

  lemma {:induction false} HarmlessKeepsEqual(events: seq<Event>, i: nat)
    requires i <= |events| && forall j | 0 <= j < i :: HarmlessAt(events, j)
    ensures EqualAt(events, i)
  {
    if i == 0 {
      assert Run(events[..0]) == INITIAL;
    } else {
      HarmlessKeepsEqual(events, i - 1);
      NextStaysEqualIff(events, i - 1);
    }
  }

  // ---- The bound of the gap is reached ----

  // n edges to user 1, from the users numbered from 3 on.
  function FanIn(n: nat): set<(int, int)> {
    if n == 0 then {} else FanIn(n - 1) + {(n + 2, 1)}
  }

  lemma {:induction false} FanInEdges(n: nat)
    ensures forall e :: e in FanIn(n) <==> e.1 == 1 && 3 <= e.0 <= n + 2
  {
    if n > 0 {
      FanInEdges(n - 1);
    }
  }

  lemma {:induction false} FanInDegree(n: nat)
    ensures |Into(FanIn(n), 1)| == n
  {
    if n == 0 {
      assert Into(FanIn(0), 1) == {};
    } else {
      FanInDegree(n - 1);
      FanInEdges(n - 1);
      AddedEdge(FanIn(n - 1), (n + 2, 1), 1);
    }
  }

  // User 1 with n followers, none of them counted.
  ghost predicate Uncounted(s: State, n: nat) {
    && (forall u :: u in s.t.users <==> 1 <= u <= n + 2)
    && s.t.edges == FanIn(n)
    && s.t.users[1].followerCount == 0 && 1 in s.idleIn && s.idleIn[1] == n
  }

  lemma RunMore(events: seq<Event>, e: Event)
    ensures Run(events + [e]) == Step(Run(events), e)
  {
    assert (events + [e])[..|events|] == events;
  }

  lemma RunOn(events: seq<Event>, s: State, e: Event) returns (events': seq<Event>, s': State)
    requires s == Run(events)
    ensures s' == Run(events') && s' == Step(s, e)
  {
    RunMore(events, e);
    events', s' := events + [e], Step(s, e);
  }

  // Follower n + 3 comes, and user 2, who follows no one, unfollows user 1.
  lemma OneMoreUncounted(s: State, n: nat, s1: State, s2: State, s3: State)
    requires Constraints(s.t) && Uncounted(s, n)
    requires s1 == Step(s, AddUser(n + 3)) && s2 == Step(s1, DoFollow(n + 3, 1)) && s3 == Step(s2, DoUnFollow(2, 1))
    ensures Uncounted(s3, n + 1)
  {
    FanInEdges(n);
    assert (n + 3, 1) !in s1.t.edges;
    CountChanges(s1.t.users, n + 3, 1, 1, 1);
    FanInEdges(n + 1);
    assert s2.t.edges == FanIn(n + 1);
    CountChanges(s2.t.users, 2, 1, -1, 1);
    assert (2, 1) !in s2.t.edges;
    assert s2.t.edges - {(2, 1)} == s2.t.edges;
  }

  lemma NoneUncounted() returns (events: seq<Event>, s: State)
    ensures s == Run(events) && Uncounted(s, 0)
  {
    events, s := [], INITIAL;
    events, s := RunOn(events, s, AddUser(1));
    events, s := RunOn(events, s, AddUser(2));
  }

  lemma MoreUncounted(before: seq<Event>, s0: State, n: nat) returns (events: seq<Event>, s: State)
    requires s0 == Run(before) && Constraints(s0.t) && Uncounted(s0, n)
    ensures s == Run(events) && Uncounted(s, n + 1)
  {
    var s1, s2;
    events, s1 := RunOn(before, s0, AddUser(n + 3));
    events, s2 := RunOn(events, s1, DoFollow(n + 3, 1));
    events, s := RunOn(events, s2, DoUnFollow(2, 1));
    OneMoreUncounted(s0, n, s1, s2, s);
  }

  lemma {:induction false} UncountedFollowers(n: nat) returns (events: seq<Event>, s: State)
    ensures s == Run(events) && Uncounted(s, n)
  {
    if n == 0 {
      events, s := NoneUncounted();
    } else {
      events, s := UncountedFollowers(n - 1);
      RunIsConstrained(events);
      events, s := MoreUncounted(events, s, n - 1);
    }
  }

  // The bound is sharp: for every n some run leaves a counter short of the degree by n, the number
  // of idle UnFollows; already with one the counters do not equal the degrees.
  lemma {:induction false} GapIsReached(n: nat) returns (events: seq<Event>)
    ensures
      var s := Run(events);
      && 1 in s.t.users && s.t.users[1].followerCount == 0 && |Into(s.t.edges, 1)| == n
      && 1 in s.idleIn && s.idleIn[1] == n && (n > 0 ==> !Equal(s.t))
  {
    var s;
    events, s := UncountedFollowers(n);
    FanInDegree(n);
  }

  // ---- Sums over all users ----

  lemma EmptyOrNot(f: map<int, int>)
    ensures f == map[] || exists k :: k in f
  {
    if forall k :: k !in f {
      assert f == map[];
    }
  }

  ghost function Pick(f: map<int, int>): int
    requires f != map[]
    ensures Pick(f) in f
  {
    EmptyOrNot(f);
    var k :| k in f;
    k
  }

  ghost function Sum(f: map<int, int>): int
    decreases |f|
  {
    if f == map[] then 0
    else
      Smaller(f, Pick(f));
      f[Pick(f)] + Sum(f - {Pick(f)})
  }

  lemma Smaller(f: map<int, int>, k: int)
    requires k in f
    ensures |f - {k}| == |f| - 1
  {
    assert (f - {k}).Keys == f.Keys - {k};
  }

  lemma {:induction false} SumWithout(f: map<int, int>, k: int)
    requires k in f
    ensures Sum(f) == f[k] + Sum(f - {k})
    decreases |f|
  {
    var p := Pick(f);
    if p != k {
      Smaller(f, p);
      Smaller(f, k);
      SumWithout(f - {p}, k);
      SumWithout(f - {k}, p);
      assert f - {p} - {k} == f - {k} - {p};
    }
  }

  lemma {:induction false} SumAtMost(f: map<int, int>, g: map<int, int>)
    requires f.Keys == g.Keys && forall k | k in f :: f[k] <= g[k]
    ensures Sum(f) <= Sum(g)
    decreases |f|
  {
    if f != map[] {
      var k := Pick(f);
      Smaller(f, k);
      SumWithout(g, k);
      SumAtMost(f - {k}, g - {k});
    } else {
      assert g == map[];
    }
  }

  function Degrees(users: set<int>, edges: set<(int, int)>, incoming: bool): map<int, int> {
    map u | u in users :: if incoming then |Into(edges, u)| else |From(edges, u)|
  }

  lemma {:induction false} SumZero(f: map<int, int>)
    requires forall k | k in f :: f[k] == 0
    ensures Sum(f) == 0
    decreases |f|
  {
    if f != map[] {
      Smaller(f, Pick(f));
      SumZero(f - {Pick(f)});
    }
  }

  lemma DegreesWithout(users: set<int>, edges: set<(int, int)>, incoming: bool, e: (int, int), u: int)
    requires e in edges && u in users
    ensures Degrees(users, edges - {e}, incoming)[u]
      == Degrees(users, edges, incoming)[u] - if u == (if incoming then e.1 else e.0) then 1 else 0
  {
    RemovedEdge(edges, e, u);
  }

  lemma SumDropsByOne(f: map<int, int>, g: map<int, int>, k: int)
    requires f.Keys == g.Keys && k in f && g[k] == f[k] - 1
    requires forall u | u in f && u != k :: g[u] == f[u]
    ensures Sum(g) == Sum(f) - 1
  {
    SumWithout(f, k);
    SumWithout(g, k);
    SameWithout(f, g, k);
  }

  lemma SameWithout(f: map<int, int>, g: map<int, int>, k: int)
    requires f.Keys == g.Keys && forall u | u in f && u != k :: g[u] == f[u]
    ensures f - {k} == g - {k}
  {
    assert (f - {k}).Keys == (g - {k}).Keys;
    forall u | u in f - {k} ensures (f - {k})[u] == (g - {k})[u] {
      assert u in f && u != k;
    }
  }

  // Every edge is counted at one end.
  lemma {:induction false} DegreesSumToEdges(users: set<int>, edges: set<(int, int)>, incoming: bool)
    requires forall e | e in edges :: e.0 in users && e.1 in users
    ensures Sum(Degrees(users, edges, incoming)) == |edges|
    decreases |edges|
  {
    if edges == {} {
      SumZero(Degrees(users, edges, incoming));
    } else {
      var e :| e in edges;
      DegreesSumToEdges(users, edges - {e}, incoming);
      forall u | u in users { DegreesWithout(users, edges, incoming, e, u); }
      SumDropsByOne(Degrees(users, edges, incoming), Degrees(users, edges - {e}, incoming), if incoming then e.1 else e.0);
    }
  }

  function FollowerCounts(users: map<int, User>): map<int, int> {
    map u | u in users :: users[u].followerCount
  }

  function FollowingCounts(users: map<int, User>): map<int, int> {
    map u | u in users :: users[u].followingCount
  }

  function Plus(f: map<int, int>, g: map<int, int>): map<int, int>
    requires f.Keys == g.Keys
  {
    map k | k in f :: f[k] + g[k]
  }

  lemma {:induction false} SumPlus(f: map<int, int>, g: map<int, int>)
    requires f.Keys == g.Keys
    ensures Sum(Plus(f, g)) == Sum(f) + Sum(g)
    decreases |f|
  {
    if f != map[] {
      var k := Pick(f);
      Smaller(f, k);
      SumWithout(g, k);
      SumWithout(Plus(f, g), k);
      SumPlus(f - {k}, g - {k});
      assert Plus(f, g) - {k} == Plus(f - {k}, g - {k});
    } else {
      assert g == map[] && Plus(f, g) == map[];
    }
  }

  // Main result: over every run each counter lies between the degree less the user's idle
  // UnFollows and the degree, and so do the sums of the counters against the number of edges; with
  // no idle UnFollow all are equal.
  lemma CountersFollowEdges(events: seq<Event>)
    ensures
      var s := Run(events);
      && Counted(s)
      && Sum(FollowerCounts(s.t.users)) <= |s.t.edges| <= Sum(FollowerCounts(s.t.users)) + Sum(s.idleIn)
      && Sum(FollowingCounts(s.t.users)) <= |s.t.edges| <= Sum(FollowingCounts(s.t.users)) + Sum(s.idleOut)
    ensures
      var s := Run(events);
      (forall u | u in s.t.users :: s.idleIn[u] == 0 && s.idleOut[u] == 0) ==>
        && Sum(FollowerCounts(s.t.users)) == |s.t.edges| == Sum(FollowingCounts(s.t.users))
        && forall u | u in s.t.users ::
          s.t.users[u].followerCount == |Into(s.t.edges, u)| && s.t.users[u].followingCount == |From(s.t.edges, u)|
  {
    var s := Run(events);
    RunKeepsCounted(events);
    var users := s.t.users.Keys;
    DegreesSumToEdges(users, s.t.edges, true);
    DegreesSumToEdges(users, s.t.edges, false);
    SumAtMost(FollowerCounts(s.t.users), Degrees(users, s.t.edges, true));
    SumAtMost(FollowingCounts(s.t.users), Degrees(users, s.t.edges, false));
    SumPlus(FollowerCounts(s.t.users), s.idleIn);
    SumPlus(FollowingCounts(s.t.users), s.idleOut);
    SumAtMost(Degrees(users, s.t.edges, true), Plus(FollowerCounts(s.t.users), s.idleIn));
    SumAtMost(Degrees(users, s.t.edges, false), Plus(FollowingCounts(s.t.users), s.idleOut));
    if forall u | u in s.t.users :: s.idleIn[u] == 0 && s.idleOut[u] == 0 {
      SumZero(s.idleIn);
      SumZero(s.idleOut);
    }
  }
}
