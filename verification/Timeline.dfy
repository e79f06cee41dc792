// Home timelines: one sorted set of tweet ids per user, trimmed to the newest entries
// (internal/cache/timeline_cache.go).
module Timeline {
  import opened Decimals
  import opened Sets
  import opened SortedSets
  import opened Times

  const LIMIT: nat := 1000
  const RECALL_BATCH: nat := 1000

  datatype Tweet = Tweet(id: int, createdAt: Time)

  // The scores a pipeline of ZADDs leaves behind, the last one for a member winning.
  function Scores(ts: seq<Tweet>): ZSet {
    if ts == [] then map[]
    else Scores(ts[..|ts| - 1])[Format(ts[|ts| - 1].id) := ts[|ts| - 1].createdAt.Unix()]
  }

  function AddAndTrim(z: ZSet, ts: seq<Tweet>, k: nat): ZSet {
    Top(z + Scores(ts), k)
  }

  // Adding tweets twice leaves the timeline of adding them once, whatever was there before.
  lemma AddTwice(z: ZSet, ts: seq<Tweet>, k: nat)
    ensures AddAndTrim(AddAndTrim(z, ts, k), ts, k) == AddAndTrim(z, ts, k)
  {
    TrimAbsorbsEarlierTrim(z + Scores(ts), Scores(ts), k);
    assert z + Scores(ts) + Scores(ts) == z + Scores(ts);
  }

  lemma ScoresGrow(z: ZSet, ts: seq<Tweet>, i: nat)
    requires i < |ts|
    ensures z + Scores(ts[..i + 1])
      == (z + Scores(ts[..i]))[Format(ts[i].id) := ts[i].createdAt.Unix()]
  {
    assert ts[..i + 1][..i] == ts[..i];
  }

  // Tweet i is the last of the list with that member.
  predicate IsLast(ts: seq<Tweet>, m: string, i: nat) {
    i < |ts| && Format(ts[i].id) == m && forall j | i < j < |ts| :: Format(ts[j].id) != m
  }

  // A tweet that stays has the second of its last addition, and any other keeps its score.
  lemma {:induction false} LastAdditionSetsScore(z: ZSet, ts: seq<Tweet>, k: nat, m: string)
    requires m in AddAndTrim(z, ts, k)
    ensures (forall t | t in ts :: Format(t.id) != m) ==> m in z && AddAndTrim(z, ts, k)[m] == z[m]
    ensures forall i: nat | IsLast(ts, m, i) :: AddAndTrim(z, ts, k)[m] == ts[i].createdAt.sec
  {
    if m in Scores(ts) {
      ScoredAreListed(ts, m);
    }
    forall i: nat | IsLast(ts, m, i) ensures AddAndTrim(z, ts, k)[m] == ts[i].createdAt.sec {
      LastScoreWins(ts, m, i);
    }
  }

  lemma {:induction false} ScoredAreListed(ts: seq<Tweet>, m: string)
    requires m in Scores(ts)
    ensures exists t :: t in ts && Format(t.id) == m
  {
    var front, last := ts[..|ts| - 1], ts[|ts| - 1];
    assert last in ts;
    if Format(last.id) != m {
      ScoredAreListed(front, m);
      var t :| t in front && Format(t.id) == m;
      assert t in ts;
    }
  }

  lemma {:induction false} LastScoreWins(ts: seq<Tweet>, m: string, i: nat)
    requires IsLast(ts, m, i)
    ensures m in Scores(ts) && Scores(ts)[m] == ts[i].createdAt.sec
  {
    if i < |ts| - 1 {
      assert Format(ts[|ts| - 1].id) != m;
      LastScoreWins(ts[..|ts| - 1], m, i);
    }
  }

  class RedisTimelineCache {
    var keys: map<int, ZSet>

    constructor ()
      ensures keys == map[]
    {
      keys := map[];
    }

    function Timeline(user: int): ZSet
      reads this
    {
      if user in keys then keys[user] else map[]
    }

    method ZAdd(user: int, score: int, member: string)
      modifies this
      ensures keys == old(keys)[user := old(Timeline(user))[member := score]]
    {
      keys := keys[user := Timeline(user)[member := score]];
    }

    method TrimToLimit(user: int)
      modifies this
      ensures keys == old(keys)[user := Top(old(Timeline(user)), LIMIT)]
    {
      RemoveLowestKeepsTop(Timeline(user), LIMIT);
      keys := keys[user := RemoveRangeByRank(Timeline(user), 0, -1001)];
    }

    // Each listed user's timeline gains the tweet and keeps its newest entries; listing a user
    // twice makes no difference.
    method PushBatch(tweetID: int, userIDs: seq<int>, createdAt: Time)
      modifies this
      ensures forall u ::
        Timeline(u) ==
          (if u in userIDs then AddAndTrim(old(Timeline(u)), [Tweet(tweetID, createdAt)], LIMIT)
           else old(Timeline(u)))
    {
      var score := createdAt.Unix();
      ghost var ts := [Tweet(tweetID, createdAt)];
      for i := 0 to |userIDs|
        invariant forall u ::
          Timeline(u) ==
            (if u in userIDs[..i] then AddAndTrim(old(Timeline(u)), ts, LIMIT) else old(Timeline(u)))
      {
        var id := userIDs[i];
        ghost var before := Timeline(id);
        ZAdd(id, score, Format(tweetID));
        assert Timeline(id) == before + Scores(ts);
        TrimToLimit(id);
        AddTwice(old(Timeline(id)), ts, LIMIT);
        assert userIDs[..i + 1] == userIDs[..i] + [id];
      }
      assert userIDs[..|userIDs|] == userIDs;
    }

    // Only the first 1000 listed users are served.
    method RecallTweet(tweetID: int, userIDs: seq<int>)
      modifies this
      ensures forall u ::
        Timeline(u) ==
          (if exists i :: 0 <= i < |userIDs| && i < 1000 && userIDs[i] == u then old(Timeline(u)) - {Format(tweetID)}
           else old(Timeline(u)))
    {
      ServedAreFirst(userIDs);
      var batch := Served(userIDs);
      var member := Format(tweetID);
      for i := 0 to |batch|
        invariant forall u ::
          Timeline(u) ==
            (if u in batch[..i] then old(Timeline(u)) - {member} else old(Timeline(u)))
      {
        var id := batch[i];
        keys := keys[id := Timeline(id) - {member}];
        assert batch[..i + 1] == batch[..i] + [id];
      }
      assert batch[..|batch|] == batch;
    }

    method BackfillIDs(userID: int, tweets: seq<Tweet>)
      modifies this
      ensures forall u ::
        Timeline(u) ==
          (if u == userID && tweets != [] then AddAndTrim(old(Timeline(u)), tweets, LIMIT)
           else old(Timeline(u)))
    {
      if tweets == [] {
        return;
      }
      for i := 0 to |tweets|
        invariant Timeline(userID) == old(Timeline(userID)) + Scores(tweets[..i])
        invariant forall u | u != userID :: Timeline(u) == old(Timeline(u))
      {
        ZAdd(userID, tweets[i].createdAt.Unix(), Format(tweets[i].id));
        ScoresGrow(old(Timeline(userID)), tweets, i);
      }
      assert tweets[..|tweets|] == tweets;
      TrimToLimit(userID);
    }

    // The ids at the given places from the newest on; text that is no 64-bit integer is passed over.
    method FindRange(userID: int, start: int, stop: int) returns (ids: seq<int>)
      ensures ids == if start >= stop then [] else ReadIDs(RangeRev(Timeline(userID), start, stop))
    {
      if start >= stop {
        return [];
      }
      var res := RangeRev(Timeline(userID), start, stop);
      ids := [];
      for i := 0 to |res|
        invariant ids == ReadIDs(res[..i])
      {
        var parsed := ParseInt(res[i]);
        assert res[..i + 1][..i] == res[..i];
        if !parsed.ok {
          continue;
        }
        ids := ids + [parsed.value];
      }
      assert res[..|res|] == res;
    }
  }

  lemma ServedAreFirst(userIDs: seq<int>)
    ensures forall u :: u in Served(userIDs) <==> exists i :: 0 <= i < |userIDs| && i < 1000 && userIDs[i] == u
  {
    forall i | 0 <= i < |userIDs| && i < 1000 ensures userIDs[i] in Served(userIDs) {
      assert Served(userIDs)[i] == userIDs[i];
    }
  }

  // How many of the first i texts are 64-bit integers.
  function Parsable(strs: seq<string>, i: nat): nat
    requires i <= |strs|
  {
    if i == 0 then 0 else Parsable(strs, i - 1) + if ParseInt(strs[i - 1]).ok then 1 else 0
  }

  // Every text that parses is read, in its order among those that do, and the others are passed over.
  lemma {:induction false} ReadIDsPassesOver(strs: seq<string>)
    ensures |ReadIDs(strs)| == Parsable(strs, |strs|)
    ensures forall i | 0 <= i < |strs| && ParseInt(strs[i]).ok ::
      Parsable(strs, i) < |ReadIDs(strs)| && ReadIDs(strs)[Parsable(strs, i)] == ParseInt(strs[i]).value
  {
    if strs != [] {
      var front := strs[..|strs| - 1];
      ReadIDsPassesOver(front);
      forall i | 0 <= i <= |front| ensures Parsable(strs, i) == Parsable(front, i) {
        ParsableInFront(strs, front, i);
      }
    }
  }

  lemma {:induction false} ParsableInFront(strs: seq<string>, front: seq<string>, i: nat)
    requires front <= strs && i <= |front|
    ensures Parsable(strs, i) == Parsable(front, i)
  {
    if i > 0 {
      ParsableInFront(strs, front, i - 1);
    }
  }

  function ReadIDs(strs: seq<string>): seq<int> {
    if strs == [] then []
    else
      var parsed := ParseInt(strs[|strs| - 1]);
      ReadIDs(strs[..|strs| - 1]) + if parsed.ok then [parsed.value] else []
  }

  function Served(userIDs: seq<int>): seq<int> {
    userIDs[..if |userIDs| <= RECALL_BATCH then |userIDs| else RECALL_BATCH]
  }

  // ---- Whole runs on one user's key ----

  datatype Event =
    | Push(tweet: Tweet)
    | Backfill(tweets: seq<Tweet>)
    | Recall(id: int)
    | Expire

  // The timeline z beside the plain record of live tweets, with the number of recalls that
  // took an entry out of z. Expire is the loss of the key.
  datatype State = State(z: ZSet, live: ZSet, recalls: nat)

  const EMPTY := State(map[], map[], 0)

  function Added(e: Event): seq<Tweet> {
    match e
    case Push(t) => [t]
    case Backfill(ts) => ts
    case _ => []
  }

  function Applied(k: nat, z: ZSet, e: Event): ZSet {
    match e
    case Recall(id) => z - {Format(id)}
    case Expire => map[]
    case _ => if Added(e) == [] then z else AddAndTrim(z, Added(e), k)
  }

  function Step(k: nat, s: State, e: Event): State {
    var z := Applied(k, s.z, e);
    match e
    case Recall(id) =>
      State(z, s.live - {Format(id)}, s.recalls + if Format(id) in s.z then 1 else 0)
    case Expire => EMPTY
    case _ => State(z, s.live + Scores(Added(e)), s.recalls)
  }

  function Run(k: nat, events: seq<Event>): State {
    if events == [] then EMPTY else Step(k, Run(k, events[..|events| - 1]), events[|events| - 1])
  }

  // Tweets have 64-bit ids and a creation second that never changes; a time that went through the
  // queue is cut to that second.
  predicate FromTable(created: map<int, Time>, ts: seq<Tweet>) {
    forall t | t in ts :: IsInt64(t.id) && t.id in created && t.createdAt.Unix() == created[t.id].Unix()
  }

  predicate EventsFrom(created: map<int, Time>, events: seq<Event>) {
    forall e | e in events :: FromTable(created, Added(e))
  }

  // Every member is a tweet of the table, scored by its creation second.
  ghost predicate ScoresFrom(created: map<int, Time>, z: ZSet) {
    forall m | m in z :: exists id :: ScoredBy(created, z, m, id)
  }

  predicate ScoredBy(created: map<int, Time>, z: ZSet, m: string, id: int) {
    m in z && id in created && IsInt64(id) && m == Format(id) && z[m] == created[id].Unix()
  }

  lemma ScoresAgree(created: map<int, Time>, a: ZSet, b: ZSet)
    requires ScoresFrom(created, a) && ScoresFrom(created, b)
    ensures Agree(a, b)
  {
    forall m | m in a && m in b ensures a[m] == b[m] {
      var i :| ScoredBy(created, a, m, i);
      var j :| ScoredBy(created, b, m, j);
      FormatIsInjective(i, j);
    }
  }

  lemma ScoresFromUnion(created: map<int, Time>, a: ZSet, b: ZSet)
    requires ScoresFrom(created, a) && ScoresFrom(created, b)
    ensures ScoresFrom(created, a + b)
  {
    forall m | m in a + b ensures exists id :: ScoredBy(created, a + b, m, id) {
      var part := if m in b then b else a;
      var id :| ScoredBy(created, part, m, id);
      assert ScoredBy(created, a + b, m, id);
    }
  }

  lemma {:induction false} AddedScoresFrom(created: map<int, Time>, ts: seq<Tweet>)
    requires FromTable(created, ts)
    ensures ScoresFrom(created, Scores(ts))
  {
    if ts != [] {
      var front, t := ts[..|ts| - 1], ts[|ts| - 1];
      AddedScoresFrom(created, front);
      forall m | m in Scores(ts) ensures exists id :: ScoredBy(created, Scores(ts), m, id) {
        if m == Format(t.id) {
          assert ScoredBy(created, Scores(ts), m, t.id);
        } else {
          var id :| ScoredBy(created, Scores(front), m, id);
          assert ScoredBy(created, Scores(ts), m, id);
        }
      }
    }
  }

  // What the trimmed index keeps of the live tweets.
  ghost predicate Covers(k: nat, s: State) {
    && s.z.Keys <= s.live.Keys
    && Agree(s.z, s.live)
    && |s.z| <= k
    && forall m | m in s.live && m !in s.z :: |Above(s.z, EntryOf(s.live, m))| >= k - s.recalls
  }

  lemma LackingStaysCovered(z: ZSet, added: ZSet, k: nat, e: Entry, gap: int)
    requires Agree(z, added) && |Above(z, e)| >= gap && gap <= k
    ensures |Above(Top(z + added, k), e)| >= gap
  {
    SubsetIsSmaller(Above(z, e), Above(z + added, e));
    TopKeepsAbove(z + added, k, e);
  }

  lemma {:induction false} LackedAfterAdd(k: nat, s: State, added: ZSet, m: string)
    requires Covers(k, s) && Agree(s.live, added)
    requires m in s.live + added && m !in Top(s.z + added, k)
    ensures |Above(Top(s.z + added, k), EntryOf(s.live + added, m))| >= k - s.recalls
  {
    if m in s.z + added {
      DroppedHasKeptAbove(s.z + added, k, m);
    } else {
      LackingStaysCovered(s.z, added, k, EntryOf(s.live, m), k - s.recalls);
    }
  }

  lemma {:induction false} AddKeepsCovers(k: nat, s: State, ts: seq<Tweet>)
    requires Covers(k, s) && Agree(s.live, Scores(ts))
    ensures Covers(k, State(AddAndTrim(s.z, ts, k), s.live + Scores(ts), s.recalls))
  {
    var added := Scores(ts);
    TopSize(s.z + added, k);
    forall m | m in s.live + added && m !in Top(s.z + added, k)
      ensures |Above(Top(s.z + added, k), EntryOf(s.live + added, m))| >= k - s.recalls
    {
      LackedAfterAdd(k, s, added, m);
    }
  }

  lemma LackedAfterRecall(z: ZSet, x: string, e: Entry)
    ensures |Above(z - {x}, e)| >= |Above(z, e)| - if x in z then 1 else 0
  {
    if x in z {
      SubsetIsSmaller(Above(z, e), Above(z - {x}, e) + {x});
    } else {
      assert z - {x} == z;
    }
  }

  lemma RecallKeepsCovers(k: nat, s: State, id: int)
    requires Covers(k, s)
    ensures Covers(k, Step(k, s, Recall(id)))
  {
    var x := Format(id);
    var s' := Step(k, s, Recall(id));
    SubsetIsSmaller(s'.z.Keys, s.z.Keys);
    forall m | m in s'.live && m !in s'.z
      ensures |Above(s'.z, EntryOf(s'.live, m))| >= k - s'.recalls
    {
      LackedAfterRecall(s.z, x, EntryOf(s.live, m));
    }
  }

  lemma {:induction false} StepKeepsCovers(k: nat, created: map<int, Time>, s: State, e: Event)
    requires Covers(k, s) && ScoresFrom(created, s.live) && FromTable(created, Added(e))
    ensures Covers(k, Step(k, s, e)) && ScoresFrom(created, Step(k, s, e).live)
  {
    if e.Recall? {
      RecallKeepsCovers(k, s, e.id);
      var live := Step(k, s, e).live;
      forall m | m in live ensures exists i :: ScoredBy(created, live, m, i) {
        var i :| ScoredBy(created, s.live, m, i);
        assert ScoredBy(created, live, m, i);
      }
    } else if !e.Expire? {
      AddedScoresFrom(created, Added(e));
      ScoresAgree(created, s.live, Scores(Added(e)));
      AddKeepsCovers(k, s, Added(e));
      ScoresFromUnion(created, s.live, Scores(Added(e)));
    }
  }

  lemma {:induction false} RunKeepsCovers(k: nat, created: map<int, Time>, events: seq<Event>)
    requires EventsFrom(created, events)
    ensures Covers(k, Run(k, events)) && ScoresFrom(created, Run(k, events).live)
  {
    if events != [] {
      RunKeepsCovers(k, created, events[..|events| - 1]);
      StepKeepsCovers(k, created, Run(k, events[..|events| - 1]), events[|events| - 1]);
    }
  }

  // Main result: after every run the timeline holds at most 1000 tweets, all live; a live tweet
  // it lacks has at least 1000 - r timeline tweets above it, r being the recalls that took an
  // entry out; so none of the newest 1000 - r live tweets is lacking.
  lemma {:induction false} TimelineHoldsNewestLive(created: map<int, Time>, events: seq<Event>, m: string)
    requires EventsFrom(created, events)
    ensures
      var s := Run(LIMIT, events);
      && |s.z| <= LIMIT
      && (m in s.z ==> m in s.live && s.z[m] == s.live[m])
      && (m in s.live && m !in s.z ==> |Above(s.z, EntryOf(s.live, m))| >= LIMIT - s.recalls)
      && (m in s.live && |Above(s.live, EntryOf(s.live, m))| < LIMIT - s.recalls ==> m in s.z)
  {
    RunKeepsCovers(LIMIT, created, events);
    var s := Run(LIMIT, events);
    if m in s.live && m !in s.z {
      SubsetIsSmaller(Above(s.z, EntryOf(s.live, m)), Above(s.live, EntryOf(s.live, m)));
    }
  }

  // ---- The same in ids and creation times ----

  // Tweet j ranks before tweet i: created in a later second, or in the same one with the text of
  // its id greater by its first different byte.
  ghost predicate Newer(created: map<int, Time>, j: int, i: int)
    requires j in created && i in created
  {
    || created[j].sec > created[i].sec
    || (created[j].sec == created[i].sec && exists k: nat :: SmallerAt(Format(i), Format(j), k))
  }

  ghost function NewerIn(created: map<int, Time>, z: ZSet, i: int): set<int>
    requires i in created
  {
    set j | j in created && IsInt64(j) && Format(j) in z && Newer(created, j, i)
  }

  function NotOlderIn(created: map<int, Time>, z: ZSet, i: int): set<int>
    requires i in created
  {
    set j | j in created && IsInt64(j) && Format(j) in z && j != i && created[j].sec >= created[i].sec
  }

  // Some event added the tweet, and no later one recalled it or lost the key.
  predicate AddedAt(events: seq<Event>, id: int, i: nat) {
    && i < |events| && id in IDs(Added(events[i]))
    && forall j | i < j < |events| :: events[j] != Recall(id) && !events[j].Expire?
  }

  predicate RecallsFit(events: seq<Event>) {
    forall e | e in events :: e.Recall? ==> IsInt64(e.id)
  }

  lemma LiveAfterStep(k: nat, created: map<int, Time>, s: State, e: Event, id: int)
    requires IsInt64(id) && FromTable(created, Added(e)) && (e.Recall? ==> IsInt64(e.id))
    ensures Format(id) in Step(k, s, e).live <==>
      (id in IDs(Added(e)) || (Format(id) in s.live && e != Recall(id) && !e.Expire?))
  {
    ScoresKeys(Added(e));
    if e.Recall? && Format(e.id) == Format(id) {
      FormatIsInjective(e.id, id);
    }
    if Format(id) in Members(IDs(Added(e))) {
      var j :| j in IDs(Added(e)) && Format(j) == Format(id);
      FormatIsInjective(j, id);
    }
  }

  // The live tweets are those added and not since recalled or lost.
  lemma {:induction false} LiveIff(k: nat, created: map<int, Time>, events: seq<Event>, id: int)
    requires EventsFrom(created, events) && RecallsFit(events) && IsInt64(id)
    ensures Format(id) in Run(k, events).live <==> exists i: nat :: AddedAt(events, id, i)
  {
    if events != [] {
      var front, e := events[..|events| - 1], events[|events| - 1];
      assert e in events;
      LiveIff(k, created, front, id);
      LiveAfterStep(k, created, Run(k, front), e, id);
      AddedAtFront(events, id);
    }
  }

  lemma AddedAtFront(events: seq<Event>, id: int)
    requires events != []
    ensures
      var front, e := events[..|events| - 1], events[|events| - 1];
      (exists i: nat :: AddedAt(events, id, i)) <==>
      (id in IDs(Added(e)) || ((exists i: nat :: AddedAt(front, id, i)) && e != Recall(id) && !e.Expire?))
  {
    var front, e := events[..|events| - 1], events[|events| - 1];
    if id in IDs(Added(e)) {
      assert AddedAt(events, id, |front|);
    }
    if i: nat :| AddedAt(front, id, i) && e != Recall(id) && !e.Expire? {
      assert AddedAt(events, id, i);
    }
    if i: nat :| AddedAt(events, id, i) {
      assert i < |front| ==> AddedAt(front, id, i);
    }
  }

  lemma {:induction false} MembersSize(ids: set<int>)
    requires forall i | i in ids :: IsInt64(i)
    ensures |Members(ids)| == |ids|
  {
    if ids != {} {
      var i := Member(ids);
      MembersSize(ids - {i});
      MembersOfUnion(ids - {i}, {i});
      assert ids == ids - {i} + {i};
      if Format(i) in Members(ids - {i}) {
        var j :| j in ids - {i} && Format(j) == Format(i);
        FormatIsInjective(i, j);
      }
      assert Members({i}) == {Format(i)};
    }
  }

  lemma ScoreOf(created: map<int, Time>, z: ZSet, id: int)
    requires ScoresFrom(created, z) && IsInt64(id) && Format(id) in z
    ensures id in created && z[Format(id)] == created[id].sec
  {
    var i :| ScoredBy(created, z, Format(id), i);
    FormatIsInjective(i, id);
  }

  lemma OverIffNewer(created: map<int, Time>, j: int, i: int)
    requires j in created && i in created
    ensures Over(Entry(created[j].sec, Format(j)), Entry(created[i].sec, Format(i))) <==> Newer(created, j, i)
  {
    LexLessIff(Format(i), Format(j));
  }

  lemma AboveAreNewer(created: map<int, Time>, z: ZSet, i: int)
    requires ScoresFrom(created, z) && i in created
    ensures Above(z, Entry(created[i].sec, Format(i))) == Members(NewerIn(created, z, i))
  {
    var e := Entry(created[i].sec, Format(i));
    forall m | m in Above(z, e) ensures m in Members(NewerIn(created, z, i)) {
      var j :| ScoredBy(created, z, m, j);
      OverIffNewer(created, j, i);
      assert j in NewerIn(created, z, i);
    }
    forall j | j in NewerIn(created, z, i) ensures Format(j) in Above(z, e) {
      ScoreOf(created, z, j);
      OverIffNewer(created, j, i);
    }
  }

  lemma NewerAreNotOlder(created: map<int, Time>, z: ZSet, live: ZSet, i: int)
    requires i in created && z.Keys <= live.Keys
    ensures |NewerIn(created, z, i)| <= |NotOlderIn(created, live, i)|
  {
    LexLessIff(Format(i), Format(i));
    LexLessTrichotomy(Format(i), Format(i));
    SubsetIsSmaller(NewerIn(created, z, i), NotOlderIn(created, live, i));
  }

  // Main result, in ids and creation times: of the tweets added and not since recalled, one that
  // the timeline lacks has at least 1000 - r newer ones in it, and one with fewer than 1000 - r
  // others of its second or later is in it.
  lemma {:induction false} NewestTweetsAreHeld(created: map<int, Time>, events: seq<Event>, id: int, i: nat)
    requires EventsFrom(created, events) && RecallsFit(events) && AddedAt(events, id, i)
    ensures id in created && IsInt64(id)
    ensures
      var s := Run(LIMIT, events);
      && |s.z| <= 1000
      && (Format(id) !in s.z ==> |NewerIn(created, s.z, id)| >= 1000 - s.recalls)
      && (|NotOlderIn(created, s.live, id)| < 1000 - s.recalls ==> Format(id) in s.z)
  {
    var s := Run(LIMIT, events);
    assert events[i] in events;
    LiveIff(LIMIT, created, events, id);
    RunKeepsCovers(LIMIT, created, events);
    ScoreOf(created, s.live, id);
    TimelineScores(created, s);
    AboveAreNewer(created, s.z, id);
    MembersSize(NewerIn(created, s.z, id));
    TimelineHoldsNewestLive(created, events, Format(id));
    NewerAreNotOlder(created, s.z, s.live, id);
  }

  // No tweet is in the timeline that was not added, or was recalled since.
  lemma {:induction false} OnlyLiveTweetsAreHeld(created: map<int, Time>, events: seq<Event>, m: string)
    returns (id: int, i: nat)
    requires EventsFrom(created, events) && RecallsFit(events) && m in Run(LIMIT, events).z
    ensures m == Format(id) && AddedAt(events, id, i) && id in created && Run(LIMIT, events).z[m] == created[id].sec
  {
    var s := Run(LIMIT, events);
    RunKeepsCovers(LIMIT, created, events);
    id :| ScoredBy(created, s.live, m, id);
    LiveIff(LIMIT, created, events, id);
    i :| AddedAt(events, id, i);
  }

  lemma TimelineScores(created: map<int, Time>, s: State)
    requires ScoresFrom(created, s.live) && s.z.Keys <= s.live.Keys && Agree(s.z, s.live)
    ensures ScoresFrom(created, s.z)
  {
    forall m | m in s.z ensures exists id :: ScoredBy(created, s.z, m, id) {
      var id :| ScoredBy(created, s.live, m, id);
      assert ScoredBy(created, s.z, m, id);
    }
  }

  function RecallCount(events: seq<Event>): nat {
    if events == [] then 0
    else RecallCount(events[..|events| - 1]) + if events[|events| - 1].Recall? then 1 else 0
  }

  lemma {:induction false} RecallsAreCounted(k: nat, events: seq<Event>)
    ensures Run(k, events).recalls <= RecallCount(events)
  {
    if events != [] {
      RecallsAreCounted(k, events[..|events| - 1]);
    }
  }

  // Without an effective recall the timeline is exactly the top of the live tweets.
  lemma {:induction false} NoRecallIsExact(k: nat, s: State)
    requires Covers(k, s) && s.recalls == 0
    ensures s.z == Top(s.live, k)
  {
    forall m | m in s.live
      ensures m in s.z <==> |Above(s.live, EntryOf(s.live, m))| < k
    {
      var e := EntryOf(s.live, m);
      SubsetIsSmaller(Above(s.z, e), Above(s.live, e));
      if m in s.z {
        OverTotal(e, e);
        if x :| x in Above(s.live, e) && x !in s.z {
          var above := Above(s.z, EntryOf(s.live, x));
          assert m !in above by {
            OverTotal(e, EntryOf(s.live, x));
          }
          SubsetIsSmaller(above + {m}, s.z.Keys);
          assert false;
        }
        assert Above(s.live, e) <= s.z.Keys - {m};
        SubsetIsSmaller(Above(s.live, e), s.z.Keys - {m});
      }
    }
  }

  function TweetIDs(events: seq<Event>): set<int> {
    set e, t | e in events && t in Added(e) :: t.id
  }

  predicate OnlyAdds(events: seq<Event>) {
    forall e | e in events :: e.Push? || e.Backfill?
  }

  function Members(ids: set<int>): set<string> {
    set id | id in ids :: Format(id)
  }

  function IDs(ts: seq<Tweet>): set<int> {
    set t | t in ts :: t.id
  }

  lemma {:induction false} ScoresKeys(ts: seq<Tweet>)
    ensures Scores(ts).Keys == Members(IDs(ts))
  {
    if ts != [] {
      ScoresKeys(ts[..|ts| - 1]);
      assert ts == ts[..|ts| - 1] + [ts[|ts| - 1]];
      assert IDs(ts) == IDs(ts[..|ts| - 1]) + {ts[|ts| - 1].id};
    }
  }

  lemma MembersOfUnion(a: set<int>, b: set<int>)
    ensures Members(a + b) == Members(a) + Members(b)
  {
  }

  lemma TweetIDsGrow(events: seq<Event>, e: Event)
    ensures TweetIDs(events + [e]) == TweetIDs(events) + IDs(Added(e))
  {
  }

  lemma AddStepMembers(k: nat, s: State, e: Event, s': State)
    requires (e.Push? || e.Backfill?) && s' == Step(k, s, e)
    ensures s'.recalls == s.recalls
    ensures s'.live.Keys == s.live.Keys + Members(IDs(Added(e)))
  {
    ScoresKeys(Added(e));
  }

  lemma {:induction false} AddsOnly(k: nat, events: seq<Event>)
    requires OnlyAdds(events)
    ensures Run(k, events).recalls == 0
    ensures Run(k, events).live.Keys == Members(TweetIDs(events))
  {
    if events != [] {
      var before, e := events[..|events| - 1], events[|events| - 1];
      AddsOnly(k, before);
      AddStepMembers(k, Run(k, before), e, Run(k, events));
      MembersGrow(events, before, e);
    }
  }

  lemma MembersGrow(events: seq<Event>, before: seq<Event>, e: Event)
    requires |events| > 0 && before == events[..|events| - 1] && e == events[|events| - 1]
    ensures Members(TweetIDs(events)) == Members(TweetIDs(before)) + Members(IDs(Added(e)))
  {
    assert events == before + [e];
    TweetIDsGrow(before, e);
    MembersOfUnion(TweetIDs(before), IDs(Added(e)));
  }

  // Order, batching and redelivery of additions do not matter: the timeline is the top of the
  // set of added tweets, as if trimmed once at the end.
  lemma {:induction false} AdditionsCommute(created: map<int, Time>, one: seq<Event>, other: seq<Event>)
    requires EventsFrom(created, one) && EventsFrom(created, other)
    requires OnlyAdds(one) && OnlyAdds(other)
    requires TweetIDs(one) == TweetIDs(other)
    ensures Run(LIMIT, one).z == Run(LIMIT, other).z == Top(Run(LIMIT, one).live, LIMIT)
  {
    var s, t := Run(LIMIT, one), Run(LIMIT, other);
    RunKeepsCovers(LIMIT, created, one);
    RunKeepsCovers(LIMIT, created, other);
    AddsOnly(LIMIT, one);
    AddsOnly(LIMIT, other);
    NoRecallIsExact(LIMIT, s);
    NoRecallIsExact(LIMIT, t);
    ScoresAgree(created, s.live, t.live);
    SameMap(s.live, t.live);
  }

  lemma SameMap(a: ZSet, b: ZSet)
    requires a.Keys == b.Keys && Agree(a, b)
    ensures a == b
  {
  }

  // ---- The bound cannot be improved ----

  // n tweets, one a second.
  function Ladder(n: nat): seq<Tweet> {
    if n == 0 then [] else Ladder(n - 1) + [Tweet(n, Time(n, 0))]
  }

  function LadderTable(n: nat): map<int, Time> {
    map i | 1 <= i <= n :: Time(i, 0)
  }

  lemma LadderGrows(n: nat)
    requires n > 0
    ensures Ladder(n) == Ladder(n - 1) + [Tweet(n, Time(n, 0))]
    ensures Scores(Ladder(n)) == Scores(Ladder(n - 1))[Format(n) := n]
  {
    assert Ladder(n)[..|Ladder(n)| - 1] == Ladder(n - 1);
  }

  lemma {:induction false} LadderTweets(n: nat)
    ensures forall t | t in Ladder(n) :: 1 <= t.id <= n && t.createdAt == Time(t.id, 0)
  {
    if n > 0 {
      LadderTweets(n - 1);
      LadderGrows(n);
    }
  }

  lemma {:induction false} LadderSize(n: nat)
    requires n <= MAX_INT64
    ensures |Scores(Ladder(n))| == n
  {
    if n > 0 {
      LadderSize(n - 1);
      LadderTweets(n - 1);
      NewOnLadder(n, Ladder(n - 1));
      LadderGrows(n);
    }
  }

  lemma NewOnLadder(n: nat, front: seq<Tweet>)
    requires 0 < n <= MAX_INT64 && forall t | t in front :: 1 <= t.id < n
    ensures Format(n) !in Scores(front)
  {
    if Format(n) in Scores(front) {
      ScoredAreListed(front, Format(n));
      var t :| t in front && Format(t.id) == Format(n);
      FormatIsInjective(t.id, n);
    }
  }

  // m alone is missing from the timeline, which ranks above it.
  ghost predicate OnlyLacks(s: State, m: string) {
    && m in s.live && m !in s.z
    && s.live.Keys == s.z.Keys + {m}
    && Above(s.live, EntryOf(s.live, m)) == s.z.Keys
  }

  lemma TrimByOne(all: ZSet, k: nat) returns (m: string)
    requires |all| == k + 1
    ensures |Top(all, k)| == k && OnlyLacks(State(Top(all, k), all, 0), m)
  {
    var z := Top(all, k);
    TopSize(all, k);
    assert z.Keys <= all.Keys;
    if all.Keys <= z.Keys {
      SubsetIsSmaller(all.Keys, z.Keys);
    }
    m :| m in all.Keys && m !in z.Keys;
    var e := EntryOf(all, m);
    DroppedHasKeptAbove(all, k, m);
    SameSize(Above(z, e), z.Keys);
    SubsetIsSmaller(z.Keys + {m}, all.Keys);
    SameSize(z.Keys + {m}, all.Keys);
    OverTotal(e, e);
    assert Above(all, e) == z.Keys;
  }

  lemma RecallLacksTheSame(k: nat, s: State, m: string, id: int)
    requires OnlyLacks(s, m) && Format(id) in s.z
    ensures OnlyLacks(Step(k, s, Recall(id)), m)
    ensures |Step(k, s, Recall(id)).z| == |s.z| - 1
  {
    var x := Format(id);
    var s' := Step(k, s, Recall(id));
    SmallerWithout(s.z, x);
    assert EntryOf(s'.live, m) == EntryOf(s.live, m);
    assert Above(s'.live, EntryOf(s.live, m)) == Above(s.live, EntryOf(s.live, m)) - {x};
  }

  lemma LadderIsStored(n: nat)
    requires n <= MAX_INT64
    ensures |Scores(Ladder(n))| == n
    ensures FromTable(LadderTable(n), Ladder(n))
  {
    LadderSize(n);
    LadderTweets(n);
  }

  lemma OneBackfill(k: nat, ts: seq<Tweet>)
    requires ts != []
    ensures Run(k, [Backfill(ts)]) == State(Top(Scores(ts), k), Scores(ts), 0)
  {
    assert [Backfill(ts)][..0] == [];
    assert map[] + Scores(ts) == Scores(ts);
  }

  lemma {:induction false} LadderLacksOne(k: nat) returns (events: seq<Event>, m: string)
    requires k < MAX_INT64
    ensures EventsFrom(LadderTable(k + 1), events)
    ensures var s := Run(k, events); s.recalls == 0 && |s.z| == k && OnlyLacks(s, m)
  {
    var ts := Ladder(k + 1);
    LadderIsStored(k + 1);
    m := TrimByOne(Scores(ts), k);
    events := [Backfill(ts)];
    OneBackfill(k, ts);
  }

  lemma {:induction false} LackAfterRecalls(k: nat, r: nat) returns (events: seq<Event>, m: string)
    requires r <= k < MAX_INT64
    ensures EventsFrom(LadderTable(k + 1), events)
    ensures var s := Run(k, events); s.recalls == r && |s.z| == k - r && OnlyLacks(s, m)
  {
    if r == 0 {
      events, m := LadderLacksOne(k);
    } else {
      var before;
      before, m := LackAfterRecalls(k, r - 1);
      var s := Run(k, before);
      var id := SomeMember(k, LadderTable(k + 1), before);
      RecallLacksTheSame(k, s, m, id);
      events := before + [Recall(id)];
      assert events[..|events| - 1] == before;
      assert Run(k, events) == Step(k, s, Recall(id));
    }
  }

  lemma SomeMember(k: nat, created: map<int, Time>, events: seq<Event>) returns (id: int)
    requires EventsFrom(created, events) && |Run(k, events).z| > 0
    ensures Format(id) in Run(k, events).z
  {
    RunKeepsCovers(k, created, events);
    var x :| x in Run(k, events).z;
    id :| ScoredBy(created, Run(k, events).live, x, id);
  }

  // For every number r of recalls some run lacks a live tweet with only 1000 - r live ones above it.
  lemma {:induction false} GapIsReached(r: nat) returns (created: map<int, Time>, events: seq<Event>, m: string)
    requires r <= LIMIT
    ensures EventsFrom(created, events)
    ensures
      var s := Run(LIMIT, events);
      s.recalls == r && m in s.live && m !in s.z && |Above(s.live, EntryOf(s.live, m))| == LIMIT - r
  {
    created := LadderTable(LIMIT + 1);
    events, m := LackAfterRecalls(LIMIT, r);
  }
}
