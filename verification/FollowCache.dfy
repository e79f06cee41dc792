// Cached adjacency lists beside the follows table: filled on a miss, patched by tasks in a pool,
// dropped on unfollow (internal/repository/follow_repository.go, internal/cache/follow_cache.go).
module FollowCache {
  import opened Sets

  // Most rows a list query returns.
  const LIMIT: nat := 1000

  datatype Row = Row(createdAt: int, id: nat)

  predicate Newer(a: Row, b: Row) {
    a.createdAt > b.createdAt || (a.createdAt == b.createdAt && a.id > b.id)
  }

  // A pair (a, b) says that a follows b.
  type Edges = map<(int, int), Row>

  // The cache keys: whom a user follows, and who follows a user. No list is empty.
  datatype Key = Following(user: int) | Follower(user: int) {
    function Pair(peer: int): (int, int) {
      if Following? then (user, peer) else (peer, user)
    }

    function Owner(e: (int, int)): int {
      if Following? then e.0 else e.1
    }

    function Peer(e: (int, int)): int {
      if Following? then e.1 else e.0
    }
  }

  type Cache = map<Key, set<int>>

  function Peers(edges: Edges, k: Key): set<int> {
    set e | e in edges && k.Owner(e) == k.user :: k.Peer(e)
  }

  function NewerPeers(edges: Edges, k: Key, p: int): set<int>
    requires p in Peers(edges, k)
  {
    set q | q in Peers(edges, k) && Newer(edges[k.Pair(q)], edges[k.Pair(p)])
  }

  // The peers of the newest 1000 edges: what the list query returns, up to order.
  function Recent(edges: Edges, k: Key): set<int> {
    set p | p in Peers(edges, k) && |NewerPeers(edges, k, p)| < LIMIT
  }

  lemma PeersArePairs(edges: Edges, k: Key, p: int)
    ensures p in Peers(edges, k) <==> k.Pair(p) in edges
  {
    if k.Pair(p) in edges {
      assert k.Owner(k.Pair(p)) == k.user && k.Peer(k.Pair(p)) == p;
    }
  }

  datatype Task = AddPair(follower: int, followed: int) | Fill(key: Key, peers: set<int>)

  function AddTo(c: Cache, k: Key, p: int): Cache {
    if k in c then c[k := c[k] + {p}] else c
  }

  // The script of Add touches only keys that exist; a bulk add creates its key unless there is
  // nothing to add.
  function Perform(c: Cache, t: Task): Cache {
    match t
    case AddPair(a, b) => AddTo(AddTo(c, Following(a), b), Follower(b), a)
    case Fill(k, ps) => if ps == {} then c else c[k := (if k in c then c[k] else {}) + ps]
  }

  function PerformAll(c: Cache, ts: seq<Task>): Cache {
    if ts == [] then c else Perform(PerformAll(c, ts[..|ts| - 1]), ts[|ts| - 1])
  }

  function InvalidatePair(c: Cache, a: int, b: int): Cache {
    c - {Following(a), Follower(b)}
  }

  function Listed(edges: Edges, c: Cache, k: Key): set<int> {
    if k in c && c[k] != {} then c[k] else Recent(edges, k)
  }

  function LoadTasks(edges: Edges, c: Cache, k: Key): seq<Task> {
    if k in c && c[k] != {} then [] else [Fill(k, Recent(edges, k))]
  }

  datatype Relation = Relation(following: bool, followedBy: bool, mutual: bool)

  function Flags(following: bool, followedBy: bool): Relation {
    Relation(following, followedBy, following && followedBy)
  }

  // Both lists of the asking user must be cached for the cache to answer.
  function Checked(edges: Edges, c: Cache, a: int, b: int): Relation {
    if a == b then Flags(false, false)
    else if Following(a) in c && Follower(a) in c then Flags(b in c[Following(a)], b in c[Follower(a)])
    else Flags((a, b) in edges, (b, a) in edges)
  }

  datatype Outcome = Done | CannotFollowSelf | AlreadyFollowing | UserNotFound

  class FollowRepository {
    var edges: Edges
    var nextID: nat
    var cache: Cache
    var pool: seq<Task>

    constructor ()
      ensures edges == map[] && cache == map[] && pool == []
    {
      edges, nextID, cache, pool := map[], 0, map[], [];
    }

    method Create(follower: int, followed: int, now: int, usersExist: bool) returns (r: Outcome)
      modifies this
      ensures cache == old(cache)
      ensures r ==
        if follower == followed then CannotFollowSelf
        else if (follower, followed) in old(edges) then AlreadyFollowing
        else if !usersExist then UserNotFound
        else Done
      ensures r.Done? ==>
        edges == old(edges)[(follower, followed) := Row(now, old(nextID))]
        && pool == old(pool) + [AddPair(follower, followed)] && nextID > old(nextID)
      ensures !r.Done? ==> edges == old(edges) && pool == old(pool)
    {
      if follower == followed {
        return CannotFollowSelf;
      }
      if (follower, followed) in edges {
        return AlreadyFollowing;
      }
      if !usersExist {
        return UserNotFound;
      }
      edges := edges[(follower, followed) := Row(now, nextID)];
      nextID := nextID + 1;
      pool := pool + [AddPair(follower, followed)];
      return Done;
    }

    method RemoveFollow(follower: int, followed: int)
      modifies this
      ensures pool == old(pool) && nextID == old(nextID)
      ensures follower == followed ==> edges == old(edges) && cache == old(cache)
      ensures follower != followed ==>
        edges == old(edges) - {(follower, followed)} && cache == InvalidatePair(old(cache), follower, followed)
      ensures follower != followed ==> cache == old(cache) - {Following(follower), Follower(followed)}
    {
      if follower == followed {
        return;
      }
      edges := edges - {(follower, followed)};
      cache := cache - {Following(follower)};
      cache := cache - {Follower(followed)};
    }

    // The peers of a set in some order, each once.
    method Enumerate(s: set<int>) returns (ids: seq<int>)
      ensures (set p | p in ids) == s && |ids| == |s|
    {
      ids := [];
      var rest := s;
      while rest != {}
        invariant rest <= s && |ids| == |s| - |rest|
        invariant forall p :: p in ids <==> p in s && p !in rest
        decreases |rest|
      {
        ghost var some := Member(rest);
        var p :| p in rest;
        ids := ids + [p];
        rest := rest - {p};
      }
      assert forall p :: p in ids <==> p in s;
    }

    // GetFollowings and GetFollowers.
    method List(k: Key) returns (ids: seq<int>)
      modifies this`pool
      ensures (set p | p in ids) == Listed(edges, cache, k) && |ids| == |Listed(edges, cache, k)|
      ensures pool == old(pool) + LoadTasks(edges, cache, k)
      ensures k in cache && cache[k] != {} ==> (set p | p in ids) == cache[k] && pool == old(pool)
      ensures k !in cache || cache[k] == {} ==>
        (set p | p in ids) == Recent(edges, k) && pool == old(pool) + [Fill(k, Recent(edges, k))]
    {
      if k in cache {
        var list := Enumerate(cache[k]);
        if |list| > 0 {
          return list;
        }
      }
      var rows := Enumerate(Recent(edges, k));
      ids := [];
      var members := {};
      for i := 0 to |rows|
        invariant ids == rows[..i]
        invariant members == set p | p in rows[..i]
      {
        ids := ids + [rows[i]];
        members := members + {rows[i]};
      }
      assert rows[..|rows|] == rows;
      pool := pool + [Fill(k, members)];
    }

    method CheckRelation(follower: int, followed: int) returns (r: Relation)
      ensures r == Checked(edges, cache, follower, followed)
      ensures follower == followed ==> r == Relation(false, false, false)
      ensures follower != followed && Following(follower) in cache && Follower(follower) in cache ==>
        r.following == (followed in cache[Following(follower)]) && r.followedBy == (followed in cache[Follower(follower)])
      ensures follower != followed && !(Following(follower) in cache && Follower(follower) in cache) ==>
        r.following == ((follower, followed) in edges) && r.followedBy == ((followed, follower) in edges)
      ensures r.mutual == (r.following && r.followedBy)
    {
      if follower == followed {
        return Relation(false, false, false);
      }
      if Following(follower) in cache && Follower(follower) in cache {
        var isFollowing := followed in cache[Following(follower)];
        var isFollowed := followed in cache[Follower(follower)];
        return Relation(isFollowing, isFollowed, isFollowing && isFollowed);
      }
      var following, followedBy := (follower, followed) in edges, (followed, follower) in edges;
      return Relation(following, followedBy, following && followedBy);
    }

    method Drain()
      modifies this
      ensures edges == old(edges) && nextID == old(nextID) && pool == []
      ensures cache == PerformAll(old(cache), old(pool))
    {
      var i := 0;
      while i < |pool|
        invariant i <= |pool| && pool == old(pool) && edges == old(edges) && nextID == old(nextID)
        invariant cache == PerformAll(old(cache), pool[..i])
      {
        assert pool[..i + 1][..i] == pool[..i];
        cache := Perform(cache, pool[i]);
        i := i + 1;
      }
      assert pool[..|pool|] == pool;
      pool := [];
    }
  }

  // ---- Operations one after another, the pool drained in between ----

  datatype Operation =
    | Connect(follower: int, followed: int, row: Row)
    | Disconnect(follower: int, followed: int)
    | Load(key: Key)
    | Expire(key: Key)

  datatype State = State(edges: Edges, cache: Cache)

  const EMPTY := State(map[], map[])

  // A new edge is the newest: the clock and the id sequence only grow.
  predicate Allowed(s: State, op: Operation) {
    op.Connect? ==>
      && op.follower != op.followed && (op.follower, op.followed) !in s.edges
      && forall e | e in s.edges ::
        s.edges[e].createdAt < op.row.createdAt || (s.edges[e].createdAt == op.row.createdAt && s.edges[e].id < op.row.id)
  }

  function Apply(s: State, op: Operation): State {
    match op
    case Connect(a, b, row) => State(s.edges[(a, b) := row], PerformAll(s.cache, [AddPair(a, b)]))
    case Disconnect(a, b) => State(s.edges - {(a, b)}, InvalidatePair(s.cache, a, b))
    case Load(k) => s.(cache := PerformAll(s.cache, LoadTasks(s.edges, s.cache, k)))
    case Expire(k) => s.(cache := s.cache - {k})
  }

  predicate IsCourse(ss: seq<State>, ops: seq<Operation>) {
    && |ss| == |ops| + 1 && ss[0] == EMPTY
    && forall i | 0 <= i < |ops| :: Allowed(ss[i], ops[i]) && ss[i + 1] == Apply(ss[i], ops[i])
  }

  // Every cached list lies between the newest 1000 and all of the user's edges.
  ghost predicate Refines(s: State) {
    forall k | k in s.cache :: Recent(s.edges, k) <= s.cache[k] <= Peers(s.edges, k)
  }

  lemma PeersAfterConnect(edges: Edges, a: int, b: int, row: Row, k: Key)
    ensures Peers(edges[(a, b) := row], k)
      == Peers(edges, k) + if k.Owner((a, b)) == k.user then {k.Peer((a, b))} else {}
  {
    var edges' := edges[(a, b) := row];
    forall p ensures p in Peers(edges', k) <==>
      p in Peers(edges, k) || (k.Owner((a, b)) == k.user && p == k.Peer((a, b)))
    {
      PeersArePairs(edges, k, p);
      PeersArePairs(edges', k, p);
    }
  }

  // The newest edge pushes no peer forward in the order.
  lemma RecentAfterConnect(edges: Edges, a: int, b: int, row: Row, k: Key)
    requires (a, b) !in edges && forall e | e in edges :: Newer(row, edges[e])
    ensures Recent(edges[(a, b) := row], k)
      <= Recent(edges, k) + if k.Owner((a, b)) == k.user then {k.Peer((a, b))} else {}
  {
    var edges' := edges[(a, b) := row];
    PeersAfterConnect(edges, a, b, row, k);
    forall p | p in Recent(edges', k) && p in Peers(edges, k) ensures p in Recent(edges, k) {
      PeersArePairs(edges, k, p);
      forall q | q in NewerPeers(edges, k, p) ensures q in NewerPeers(edges', k, p) {
        PeersArePairs(edges, k, q);
      }
      SubsetIsSmaller(NewerPeers(edges, k, p), NewerPeers(edges', k, p));
    }
  }

  lemma PeersAfterDisconnect(edges: Edges, a: int, b: int, k: Key)
    requires k.Owner((a, b)) != k.user
    ensures Peers(edges - {(a, b)}, k) == Peers(edges, k)
    ensures Recent(edges - {(a, b)}, k) == Recent(edges, k)
  {
    var edges' := edges - {(a, b)};
    forall p ensures p in Peers(edges', k) <==> p in Peers(edges, k) {
      PeersArePairs(edges, k, p);
      PeersArePairs(edges', k, p);
    }
    forall p | p in Peers(edges, k) ensures NewerPeers(edges', k, p) == NewerPeers(edges, k, p) {
      PeersArePairs(edges', k, p);
      forall q | q in Peers(edges, k) ensures edges'[k.Pair(q)] == edges[k.Pair(q)] {
        PeersArePairs(edges', k, q);
      }
    }
  }

  lemma ConnectKeepsRefines(s: State, op: Operation)
    requires Refines(s) && op.Connect? && Allowed(s, op)
    ensures Refines(Apply(s, op))
  {
    var s' := Apply(s, op);
    assert PerformAll(s.cache, [AddPair(op.follower, op.followed)])
      == Perform(s.cache, AddPair(op.follower, op.followed)) by {
      assert [AddPair(op.follower, op.followed)][..0] == [];
    }
    forall k | k in s'.cache ensures Recent(s'.edges, k) <= s'.cache[k] <= Peers(s'.edges, k) {
      PeersAfterConnect(s.edges, op.follower, op.followed, op.row, k);
      RecentAfterConnect(s.edges, op.follower, op.followed, op.row, k);
    }
  }

  lemma ApplyKeepsRefines(s: State, op: Operation)
    requires Refines(s) && Allowed(s, op)
    ensures Refines(Apply(s, op))
  {
    match op {
      case Connect(_, _, _) => ConnectKeepsRefines(s, op);
      case Disconnect(a, b) =>
        var s' := Apply(s, op);
        forall k | k in s'.cache ensures Recent(s'.edges, k) <= s'.cache[k] <= Peers(s'.edges, k) {
          PeersAfterDisconnect(s.edges, a, b, k);
        }
      case Load(k) =>
        if LoadTasks(s.edges, s.cache, k) != [] {
          var t := Fill(k, Recent(s.edges, k));
          assert [t][..0] == [];
          assert PerformAll(s.cache, [t]) == Perform(s.cache, t);
        }
      case Expire(_) =>
    }
  }

  lemma {:induction false} CourseKeepsRefines(ss: seq<State>, ops: seq<Operation>, i: nat)
    requires IsCourse(ss, ops) && i <= |ops|
    ensures Refines(ss[i])
  {
    if i > 0 {
      CourseKeepsRefines(ss, ops, i - 1);
      ApplyKeepsRefines(ss[i - 1], ops[i - 1]);
    }
  }

  lemma AllAreRecent(edges: Edges, k: Key)
    requires |Peers(edges, k)| <= LIMIT
    ensures Recent(edges, k) == Peers(edges, k)
  {
    forall p | p in Peers(edges, k) ensures p in Recent(edges, k) {
      assert NewerPeers(edges, k, p) <= Peers(edges, k) - {p};
      SubsetIsSmaller(NewerPeers(edges, k, p), Peers(edges, k) - {p});
    }
  }

  lemma {:induction false} NoSelfEdges(ss: seq<State>, ops: seq<Operation>, i: nat, a: int)
    requires IsCourse(ss, ops) && i <= |ops|
    ensures (a, a) !in ss[i].edges
  {
    if i > 0 {
      NoSelfEdges(ss, ops, i - 1, a);
      assert Allowed(ss[i - 1], ops[i - 1]);
    }
  }

  // The peers a list query returns are those of the newest edges: at most 1000, and each edge left
  // out was made before each edge returned, or at the same time with a smaller id.
  lemma RecentAreNewest(edges: Edges, k: Key, p: int, q: int)
    requires RowsDiffer(edges) && p in Recent(edges, k) && q in Peers(edges, k) && q !in Recent(edges, k)
    ensures k.Pair(p) in edges && k.Pair(q) in edges
    ensures
      var kept, left := edges[k.Pair(p)], edges[k.Pair(q)];
      left.createdAt < kept.createdAt || (left.createdAt == kept.createdAt && left.id < kept.id)
  {
    PeersArePairs(edges, k, p);
    PeersArePairs(edges, k, q);
    var kept, left := edges[k.Pair(p)], edges[k.Pair(q)];
    if !(left.createdAt < kept.createdAt || (left.createdAt == kept.createdAt && left.id < kept.id)) {
      assert Newer(left, kept);
      forall r | r in NewerPeers(edges, k, q) ensures r in NewerPeers(edges, k, p) {
        PeersArePairs(edges, k, r);
      }
      SubsetIsSmaller(NewerPeers(edges, k, q), NewerPeers(edges, k, p));
      assert false;
    }
  }

  // Main result: through the cache a user of at most 1000 edges each way gets the lists and flags
  // of the table.
  lemma CacheAgreesWithTable(ss: seq<State>, ops: seq<Operation>, i: nat, a: int, b: int)
    requires IsCourse(ss, ops) && i <= |ops|
    requires |Peers(ss[i].edges, Following(a))| <= 1000 && |Peers(ss[i].edges, Follower(a))| <= 1000
    ensures
      var s := ss[i];
      && Listed(s.edges, s.cache, Following(a)) == Peers(s.edges, Following(a))
      && Listed(s.edges, s.cache, Follower(a)) == Peers(s.edges, Follower(a))
      && var r := Checked(s.edges, s.cache, a, b);
        && r.following == ((a, b) in s.edges) && r.followedBy == ((b, a) in s.edges)
        && r.mutual == ((a, b) in s.edges && (b, a) in s.edges)
  {
    CourseKeepsRefines(ss, ops, i);
    NoSelfEdges(ss, ops, i, a);
    AllAreRecent(ss[i].edges, Following(a));
    AllAreRecent(ss[i].edges, Follower(a));
    PeersArePairs(ss[i].edges, Following(a), b);
    PeersArePairs(ss[i].edges, Follower(a), b);
  }

  ghost predicate RowsDiffer(edges: Edges) {
    forall e, f | e in edges && f in edges && e != f :: edges[e] != edges[f]
  }

  lemma {:induction false} OldestExists(edges: Edges, k: Key, ps: set<int>) returns (oldest: int)
    requires RowsDiffer(edges) && ps != {} && ps <= Peers(edges, k)
    ensures oldest in ps
    ensures forall p | p in ps && p != oldest ::
      k.Pair(p) in edges && k.Pair(oldest) in edges && Newer(edges[k.Pair(p)], edges[k.Pair(oldest)])
    decreases |ps|
  {
    var x :| x in ps;
    PeersArePairs(edges, k, x);
    if ps == {x} {
      return x;
    }
    var y := OldestExists(edges, k, ps - {x});
    PeersArePairs(edges, k, y);
    oldest := if Newer(edges[k.Pair(x)], edges[k.Pair(y)]) then y else x;
    forall p | p in ps && p != oldest
      ensures k.Pair(p) in edges && Newer(edges[k.Pair(p)], edges[k.Pair(oldest)])
    {
      PeersArePairs(edges, k, p);
      assert k.Pair(x) != k.Pair(y);
    }
  }

  // The bound is sharp: a list read from the table, and the flags the cache then gives, are right
  // for every peer exactly when there are no more than 1000.
  lemma ColdListIsCompleteIffWithinLimit(edges: Edges, k: Key)
    requires RowsDiffer(edges)
    ensures (forall p :: p in Recent(edges, k) <==> k.Pair(p) in edges) <==> |Peers(edges, k)| <= 1000
  {
    forall p ensures p in Peers(edges, k) <==> k.Pair(p) in edges {
      PeersArePairs(edges, k, p);
    }
    if |Peers(edges, k)| <= LIMIT {
      AllAreRecent(edges, k);
    } else {
      var oldest := OldestExists(edges, k, Peers(edges, k));
      assert NewerPeers(edges, k, oldest) >= Peers(edges, k) - {oldest};
      SubsetIsSmaller(Peers(edges, k) - {oldest}, NewerPeers(edges, k, oldest));
      assert oldest !in Recent(edges, k);
    }
  }

  // ---- Every interleaving with the pool ----

  datatype Event =
    | InsertEdge(follower: int, followed: int, row: Row)
    | DeleteEdge(follower: int, followed: int)
    | Invalidate(follower: int, followed: int)
    | StartLoad(key: Key)
    | RunTask(place: nat)
    | Lose(key: Key)

  // The table, the cache, the pool, and the pairs ever inserted and deleted.
  datatype World = World(edges: Edges, cache: Cache, pool: seq<Task>, inserted: set<(int, int)>, deleted: set<(int, int)>)

  const START := World(map[], map[], [], {}, {})

  predicate Enabled(w: World, e: Event) {
    match e
    case InsertEdge(a, b, _) => a != b && (a, b) !in w.edges
    case RunTask(i) => i < |w.pool|
    case _ => true
  }

  function Step(w: World, e: Event): World
    requires Enabled(w, e)
  {
    match e
    case InsertEdge(a, b, row) =>
      w.(edges := w.edges[(a, b) := row], pool := w.pool + [AddPair(a, b)], inserted := w.inserted + {(a, b)})
    case DeleteEdge(a, b) => w.(edges := w.edges - {(a, b)}, deleted := w.deleted + {(a, b)})
    case Invalidate(a, b) => w.(cache := InvalidatePair(w.cache, a, b))
    case StartLoad(k) => w.(pool := w.pool + LoadTasks(w.edges, w.cache, k))
    case RunTask(i) => w.(cache := Perform(w.cache, w.pool[i]), pool := w.pool[..i] + w.pool[i + 1..])
    case Lose(k) => w.(cache := w.cache - {k})
  }

  predicate IsRunFrom(w: World, ws: seq<World>, events: seq<Event>) {
    && |ws| == |events| + 1 && ws[0] == w
    && forall i | 0 <= i < |events| :: Enabled(ws[i], events[i]) && ws[i + 1] == Step(ws[i], events[i])
  }

  predicate IsRun(ws: seq<World>, events: seq<Event>) {
    IsRunFrom(START, ws, events)
  }

  ghost predicate CacheFrom(c: Cache, pairs: set<(int, int)>) {
    forall k, p | k in c && p in c[k] :: k.Pair(p) in pairs
  }

  predicate TaskFrom(t: Task, pairs: set<(int, int)>) {
    match t
    case AddPair(a, b) => (a, b) in pairs
    case Fill(k, ps) => forall p | p in ps :: k.Pair(p) in pairs
  }

  ghost predicate Traced(w: World) {
    && CacheFrom(w.cache, w.inserted)
    && (forall t | t in w.pool :: TaskFrom(t, w.inserted))
    && w.edges.Keys <= w.inserted <= w.edges.Keys + w.deleted
  }

  lemma PerformTraced(c: Cache, t: Task, pairs: set<(int, int)>)
    requires CacheFrom(c, pairs) && TaskFrom(t, pairs)
    ensures CacheFrom(Perform(c, t), pairs)
  {
  }

  lemma StepKeepsTraced(w: World, e: Event)
    requires Traced(w) && Enabled(w, e)
    ensures Traced(Step(w, e))
  {
    match e {
      case StartLoad(k) =>
        forall p | p in Recent(w.edges, k) ensures k.Pair(p) in w.inserted {
          PeersArePairs(w.edges, k, p);
        }
      case RunTask(i) => PerformTraced(w.cache, w.pool[i], w.inserted);
      case _ =>
    }
  }

  // Main result: whatever the interleaving, every member of a cached list is a pair inserted
  // before; one that is no edge now was deleted, so without deletions all are edges.
  lemma {:induction false} CachedPairsWereInserted(ws: seq<World>, events: seq<Event>, i: nat)
    requires IsRun(ws, events) && i <= |events|
    ensures Traced(ws[i])
    ensures forall k, p | k in ws[i].cache && p in ws[i].cache[k] ::
      k.Pair(p) in ws[i].inserted && (k.Pair(p) in ws[i].edges || k.Pair(p) in ws[i].deleted)
    ensures (forall j | 0 <= j < i :: !events[j].DeleteEdge?) ==> ws[i].deleted == {}
  {
    if i > 0 {
      CachedPairsWereInserted(ws, events, i - 1);
      StepKeepsTraced(ws[i - 1], events[i - 1]);
    }
  }

  lemma RunOn(ws: seq<World>, events: seq<Event>, e: Event) returns (ws': seq<World>, events': seq<Event>)
    requires ws != [] && IsRunFrom(ws[0], ws, events) && Enabled(ws[|events|], e)
    ensures ws' != [] && ws'[0] == ws[0] && events' == events + [e]
    ensures IsRunFrom(ws[0], ws', events') && ws'[|events'|] == Step(ws[|events|], e)
  {
    ws', events' := ws + [Step(ws[|events|], e)], events + [e];
  }

  lemma FillBeforeUnfollow() returns (ws: seq<World>, events: seq<Event>)
    ensures IsRun(ws, events)
    ensures ws[|events|] == World(map[(1, 2) := Row(0, 0)], map[], [Fill(Following(1), {2})], {(1, 2)}, {})
  {
    OnlyPeerIsRecent(1, 2, Row(0, 0));
    ws, events := [START], [];
    ws, events := RunOn(ws, events, InsertEdge(1, 2, Row(0, 0)));
    ws, events := RunOn(ws, events, RunTask(0));
    assert ws[|events|] == World(map[(1, 2) := Row(0, 0)], map[], [], {(1, 2)}, {});
    ws, events := RunOn(ws, events, StartLoad(Following(1)));
  }

  // A fill that read the table before an unfollow and lands after its invalidation leaves a pair
  // in the cache that is no edge, with the pool empty.
  lemma LateFillIsStale() returns (ws: seq<World>, events: seq<Event>)
    ensures IsRun(ws, events)
    ensures
      var w := ws[|events|];
      w.pool == [] && Following(1) in w.cache && 2 in w.cache[Following(1)] && (1, 2) !in w.edges
  {
    ws, events := FillBeforeUnfollow();
    ws, events := RunOn(ws, events, DeleteEdge(1, 2));
    ws, events := RunOn(ws, events, Invalidate(1, 2));
    ws, events := RunOn(ws, events, RunTask(0));
  }

  lemma OnlyPeerIsRecent(a: int, b: int, row: Row)
    ensures Recent(map[(a, b) := row], Following(a)) == {b}
  {
    var edges: Edges := map[(a, b) := row];
    forall p ensures p in Peers(edges, Following(a)) <==> p == b {
      PeersArePairs(edges, Following(a), p);
    }
    assert NewerPeers(edges, Following(a), b) == {};
  }

  // ---- When an unfollow is final ----

  predicate Cached(c: Cache, a: int, b: int) {
    (Following(a) in c && b in c[Following(a)]) || (Follower(b) in c && a in c[Follower(b)])
  }

  // The task would put the pair into a list.
  predicate Carries(t: Task, a: int, b: int) {
    match t
    case AddPair(x, y) => x == a && y == b
    case Fill(k, ps) => (k == Following(a) && b in ps) || (k == Follower(b) && a in ps)
  }

  predicate Inserts(e: Event, a: int, b: int) {
    e.InsertEdge? && e.follower == a && e.followed == b
  }

  // The pair is no edge, is in no list, and no task in the pool puts it into one.
  predicate Unfollowed(w: World, a: int, b: int) {
    (a, b) !in w.edges && !Cached(w.cache, a, b) && forall t | t in w.pool :: !Carries(t, a, b)
  }

  lemma PerformLeavesUncached(c: Cache, t: Task, a: int, b: int)
    requires !Cached(c, a, b) && !Carries(t, a, b)
    ensures !Cached(Perform(c, t), a, b)
  {
  }

  lemma StepKeepsUnfollowed(w: World, e: Event, w': World, a: int, b: int)
    requires Unfollowed(w, a, b) && Enabled(w, e) && w' == Step(w, e) && !Inserts(e, a, b)
    ensures Unfollowed(w', a, b)
  {
    match e {
      case StartLoad(k) =>
        PeersArePairs(w.edges, Following(a), b);
        PeersArePairs(w.edges, Follower(b), a);
      case RunTask(i) => PerformLeavesUncached(w.cache, w.pool[i], a, b);
      case _ =>
    }
  }

  lemma {:induction false} RunKeepsUnfollowed(ws: seq<World>, events: seq<Event>, j: nat, a: int, b: int)
    requires ws != [] && IsRunFrom(ws[0], ws, events) && j <= |events| && Unfollowed(ws[0], a, b)
    requires forall e | e in events :: !Inserts(e, a, b)
    ensures Unfollowed(ws[j], a, b)
  {
    if j > 0 {
      RunKeepsUnfollowed(ws, events, j - 1, a, b);
      StepKeepsUnfollowed(ws[j - 1], events[j - 1], ws[j], a, b);
    }
  }

  // A number above n, and above every user and every time in the table.
  lemma {:induction false} Beyond(edges: Edges, n: int) returns (m: int)
    ensures m > n && forall e | e in edges :: e.0 < m && e.1 < m && edges[e].createdAt < m
    decreases |edges|
  {
    if edges == map[] {
      m := n + 1;
    } else {
      assert edges.Keys != {};
      var e :| e in edges.Keys;
      assert (edges - {e}).Keys == edges.Keys - {e};
      m := Beyond(edges - {e}, Largest(n, Largest(e.0, Largest(e.1, edges[e].createdAt))));
      forall f | f in edges ensures f.0 < m && f.1 < m && edges[f].createdAt < m {
        if f != e {
          assert f in edges - {e};
        }
      }
    }
  }

  function Largest(m: int, n: int): int {
    if m >= n then m else n
  }

  lemma NewestPeerIsRecent(edges: Edges, a: int, c: int, row: Row)
    requires forall e | e in edges :: edges[e].createdAt < row.createdAt
    ensures c in Recent(edges[(a, c) := row], Following(a))
  {
    var edges' := edges[(a, c) := row];
    PeersArePairs(edges', Following(a), c);
    assert NewerPeers(edges', Following(a), c) == {};
  }

  lemma FollowsSomeoneNew(w: World, a: int, b: int) returns (ws: seq<World>, events: seq<Event>)
    requires Following(a) !in w.cache
    ensures ws != [] && IsRunFrom(w, ws, events) && forall e | e in events :: !Inserts(e, a, b)
    ensures
      var w' := ws[|events|];
      w'.cache == w.cache && w.pool <= w'.pool && Recent(w'.edges, Following(a)) != {}
  {
    var m := Beyond(w.edges, Largest(a, b));
    var row := Row(m, 0);
    NewestPeerIsRecent(w.edges, a, m, row);
    assert (a, m) !in w.edges;
    ws, events := [w], [];
    ws, events := RunOn(ws, events, InsertEdge(a, m, row));
  }

  // If user a's list is not cached, following someone new and reading the list puts it there.
  lemma ListGetsCached(w: World, a: int, b: int) returns (ws: seq<World>, events: seq<Event>)
    requires Following(a) !in w.cache
    ensures IsRunFrom(w, ws, events) && forall e | e in events :: !Inserts(e, a, b)
    ensures Following(a) in ws[|events|].cache && w.pool <= ws[|events|].pool
  {
    ws, events := FollowsSomeoneNew(w, a, b);
    var w1 := ws[|events|];
    ws, events := RunOn(ws, events, StartLoad(Following(a)));
    var fill := Fill(Following(a), Recent(w1.edges, Following(a)));
    assert ws[|events|].cache == w.cache && ws[|events|].pool == w1.pool + [fill];
    ws, events := RunOn(ws, events, RunTask(|w1.pool|));
    assert ws[|events|].pool == w1.pool;
  }

  lemma CarrierCaches(w: World, i: nat, a: int, b: int)
    requires i < |w.pool| && Carries(w.pool[i], a, b) && (w.pool[i].AddPair? ==> Following(a) in w.cache)
    ensures Cached(Step(w, RunTask(i)).cache, a, b)
  {
  }

  lemma CarrierBringsBack(w: World, i: nat, a: int, b: int) returns (ws: seq<World>, events: seq<Event>)
    requires i < |w.pool| && Carries(w.pool[i], a, b)
    ensures IsRunFrom(w, ws, events) && forall e | e in events :: !Inserts(e, a, b)
    ensures Cached(ws[|events|].cache, a, b)
  {
    if w.pool[i].AddPair? && Following(a) !in w.cache {
      ws, events := ListGetsCached(w, a, b);
    } else {
      ws, events := [w], [];
    }
    assert ws[|events|].pool[i] == w.pool[i];
    CarrierCaches(ws[|events|], i, a, b);
    ws, events := RunOn(ws, events, RunTask(i));
  }

  ghost predicate NeverReturns(w: World, a: int, b: int) {
    forall ws: seq<World>, events: seq<Event> | IsRunFrom(w, ws, events) && (forall e | e in events :: !Inserts(e, a, b)) ::
      !Cached(ws[|events|].cache, a, b)
  }

  // Main result: a pair that is no edge and in no list stays out of the cache, until it is
  // inserted again, exactly when no task in the pool carries it.
  lemma {:induction false} StaysOutIff(w: World, a: int, b: int)
    requires (a, b) !in w.edges && !Cached(w.cache, a, b)
    ensures NeverReturns(w, a, b) <==> forall t | t in w.pool :: !Carries(t, a, b)
  {
    if forall t | t in w.pool :: !Carries(t, a, b) {
      forall ws: seq<World>, events: seq<Event> | IsRunFrom(w, ws, events) && (forall e | e in events :: !Inserts(e, a, b))
        ensures !Cached(ws[|events|].cache, a, b)
      {
        RunKeepsUnfollowed(ws, events, |events|, a, b);
      }
    } else {
      var i :| 0 <= i < |w.pool| && Carries(w.pool[i], a, b);
      var ws, events := CarrierBringsBack(w, i, a, b);
    }
  }

  // So an unfollow is final exactly when no pooled task carries the pair as it begins.
  lemma UnfollowIsFinalIff(w: World, a: int, b: int)
    ensures NeverReturns(Step(Step(w, DeleteEdge(a, b)), Invalidate(a, b)), a, b)
      <==> forall t | t in w.pool :: !Carries(t, a, b)
  {
    StaysOutIff(Step(Step(w, DeleteEdge(a, b)), Invalidate(a, b)), a, b);
  }
}
