// Reading a home timeline page by page (internal/repository/timeline_repository.go).
module HomeTimeline {
  import opened Decimals
  import opened SortedSets
  import opened Timeline
  import opened Times

  function IDsFrom(ranked: seq<string>, start: int, size: int): seq<int> {
    var stop := Wrap64(start + size - 1);
    if start >= stop then [] else ReadIDs(Places(ranked, start, stop))
  }

  // The ids on one page of a timeline, given its members from the newest on.
  function PageIDs(ranked: seq<string>, page: int, size: int): seq<int> {
    IDsFrom(ranked, Wrap64(page * size), size)
  }

  method GetHomeTimeLine(cache: RedisTimelineCache, userID: int, page: int, size: int) returns (ids: seq<int>)
    ensures ids == PageIDs(Ranked(cache.Timeline(userID)), page, size)
  {
    var start := Wrap64(page * size);
    var stop := Wrap64(start + size - 1);
    ids := cache.FindRange(userID, start, stop);
  }

  // Pages 0 to n - 1 one after the other.
  function Pages(ranked: seq<string>, size: int, n: nat): seq<int> {
    if n == 0 then [] else Pages(ranked, size, n - 1) + PageIDs(ranked, n - 1, size)
  }

  // Every text is that of a 64-bit id.
  predicate AreIDs(ms: seq<string>) {
    forall m | m in ms :: ParseInt(m).ok && Format(ParseInt(m).value) == m
  }

  function Values(ms: seq<string>): seq<int> {
    seq(|ms|, i requires 0 <= i < |ms| => ParseInt(ms[i]).value)
  }

  lemma {:induction false} ReadIDsLosesNothing(ms: seq<string>)
    requires AreIDs(ms)
    ensures ReadIDs(ms) == Values(ms)
  {
    if ms != [] {
      ReadIDsLosesNothing(ms[..|ms| - 1]);
      assert Values(ms) == Values(ms[..|ms| - 1]) + [ParseInt(ms[|ms| - 1]).value];
    }
  }

  function Min(a: int, b: int): int {
    if a <= b then a else b
  }

  lemma ValuesOfSlice(ms: seq<string>, from: nat, to: nat)
    requires from <= to <= |ms|
    ensures Values(ms[from..to]) == Values(ms)[from..to]
  {
  }

  lemma RangeIsSlice(ranked: seq<string>, start: nat, size: nat)
    requires size >= 2
    ensures Places(ranked, start, start + size - 1) == ranked[Min(start, |ranked|)..Min(start + size, |ranked|)]
  {
  }

  lemma SliceAreIDs(ms: seq<string>, from: nat, to: nat)
    requires AreIDs(ms) && from <= to <= |ms|
    ensures ReadIDs(ms[from..to]) == Values(ms)[from..to]
  {
    forall m | m in ms[from..to] ensures m in ms {
    }
    ReadIDsLosesNothing(ms[from..to]);
    ValuesOfSlice(ms, from, to);
  }

  lemma PlacesAreSlice(ranked: seq<string>, start: nat, size: nat)
    requires AreIDs(ranked) && size >= 2 && start + size <= MAX_INT64
    ensures IDsFrom(ranked, start, size)
      == Values(ranked)[Min(start, |ranked|)..Min(start + size, |ranked|)]
  {
    RangeIsSlice(ranked, start, size);
    SliceAreIDs(ranked, Min(start, |ranked|), Min(start + size, |ranked|));
  }

  // A page of two places or more is a slice of the timeline: below the 64-bit bound the page
  // arithmetic does not wrap around.
  lemma PageIsSlice(ranked: seq<string>, page: nat, size: nat, start: nat)
    requires AreIDs(ranked) && size >= 2
    requires start == page * size && start + size <= MAX_INT64
    ensures PageIDs(ranked, page, size)
      == Values(ranked)[Min(start, |ranked|)..Min(start + size, |ranked|)]
  {
    assert Wrap64(page * size) == start;
    PlacesAreSlice(ranked, start, size);
  }

  lemma {:induction false} PagesArePrefix(ranked: seq<string>, size: nat, n: nat, places: nat)
    requires AreIDs(ranked) && size >= 2 && places == n * size && places <= MAX_INT64
    ensures Pages(ranked, size, n) == Values(ranked)[..Min(places, |ranked|)]
    decreases n
  {
    if n > 0 {
      var start := places - size;
      PreviousPage(n, size, places);
      PagesArePrefix(ranked, size, n - 1, start);
      NextPage(ranked, size, n, start);
    }
  }

  lemma NextPage(ranked: seq<string>, size: nat, n: nat, start: nat)
    requires AreIDs(ranked) && size >= 2 && n > 0 && start == (n - 1) * size && start + size <= MAX_INT64
    requires Pages(ranked, size, n - 1) == Values(ranked)[..Min(start, |ranked|)]
    ensures Pages(ranked, size, n) == Values(ranked)[..Min(start + size, |ranked|)]
  {
    PageIsSlice(ranked, n - 1, size, start);
    PrefixGrows(Values(ranked), Min(start, |ranked|), Min(start + size, |ranked|));
  }

  lemma PrefixGrows(ids: seq<int>, from: nat, to: nat)
    requires from <= to <= |ids|
    ensures ids[..from] + ids[from..to] == ids[..to]
  {
  }

  lemma PreviousPage(n: nat, size: nat, places: nat)
    requires n > 0 && places == n * size
    ensures places - size == (n - 1) * size >= 0
  {
  }

  lemma {:induction false} PagesOfOneAreEmpty(ranked: seq<string>, n: nat)
    requires n <= MAX_INT64
    ensures Pages(ranked, 1, n) == []
  {
    if n > 0 {
      PagesOfOneAreEmpty(ranked, n - 1);
      assert PageIDs(ranked, n - 1, 1) == IDsFrom(ranked, n - 1, 1);
    }
  }

  function NewestFirst(z: ZSet): seq<int> {
    ReadIDs(Ranked(z))
  }

  function Texts(ids: seq<int>): seq<string> {
    seq(|ids|, i requires 0 <= i < |ids| => Format(ids[i]))
  }

  lemma TextsOfValues(ms: seq<string>)
    requires AreIDs(ms)
    ensures Texts(Values(ms)) == ms
  {
    forall i | 0 <= i < |ms| ensures Texts(Values(ms))[i] == ms[i] {
      assert ms[i] in ms;
    }
  }

  lemma ValueOccurs(ms: seq<string>, id: int)
    requires AreIDs(ms) && IsInt64(id)
    ensures id in Values(ms) <==> Format(id) in ms
  {
    ParseUndoesFormat(id);
    TextsOfValues(ms);
    if id in Values(ms) {
      var i :| 0 <= i < |ms| && Values(ms)[i] == id;
      assert Texts(Values(ms))[i] in ms;
    }
    if Format(id) in ms {
      var i :| 0 <= i < |ms| && ms[i] == Format(id);
      assert Values(ms)[i] == id;
    }
  }

  // Nothing is lost in parsing: the ids read are those stored, each once, the highest ranked first.
  lemma NewestFirstIsTheTimeline(z: ZSet)
    requires AreIDs(Ranked(z))
    ensures |NewestFirst(z)| == |z|
    ensures forall id | IsInt64(id) :: id in NewestFirst(z) <==> Format(id) in z
    ensures Descending(z, Texts(NewestFirst(z)))
  {
    RankedListsAll(z);
    ReadIDsLosesNothing(Ranked(z));
    TextsOfValues(Ranked(z));
    forall id | IsInt64(id) ensures id in NewestFirst(z) <==> Format(id) in z {
      ValueOccurs(Ranked(z), id);
    }
  }

  // Enough pages give the whole timeline exactly when the page size is not 1, or there is
  // nothing to give.
  lemma {:induction false} PagesGiveWholeTimeline(z: ZSet, size: nat, n: nat)
    requires AreIDs(Ranked(z)) && size >= 1 && |z| <= n * size <= MAX_INT64
    ensures Pages(Ranked(z), size, n) == NewestFirst(z) <==> size >= 2 || z == map[]
  {
    NewestFirstIsTheTimeline(z);
    RankedListsAll(z);
    ReadIDsLosesNothing(Ranked(z));
    if size >= 2 {
      PagesArePrefix(Ranked(z), size, n, n * size);
      assert Values(Ranked(z))[..|z|] == Values(Ranked(z));
    } else {
      PagesOfOneAreEmpty(Ranked(z), n);
      if m :| m in z {
        assert |NewestFirst(z)| > 0;
      } else {
        assert z == map[];
      }
    }
  }

  // The timelines that runs of the cache build hold nothing but ids.
  lemma RunsHoldIDs(created: map<int, Time>, events: seq<Event>)
    requires EventsFrom(created, events)
    ensures AreIDs(Ranked(Run(LIMIT, events).z))
  {
    var s := Run(LIMIT, events);
    RunKeepsCovers(LIMIT, created, events);
    RankedListsAll(s.z);
    forall m | m in Ranked(s.z) ensures ParseInt(m).ok && Format(ParseInt(m).value) == m {
      var id :| ScoredBy(created, s.live, m, id);
      ParseUndoesFormat(id);
    }
  }

  // Main result: a home timeline lists tweets by creation second, the newest first, and tweets of
  // one second by the text of their ids, the greatest first.
  lemma {:induction false} NewestComeFirst(created: map<int, Time>, events: seq<Event>, i: nat, j: nat)
    requires EventsFrom(created, events)
    requires i < j < |NewestFirst(Run(LIMIT, events).z)|
    ensures
      var ids := NewestFirst(Run(LIMIT, events).z);
      ids[i] in created && ids[j] in created && Newer(created, ids[i], ids[j])
  {
    var s := Run(LIMIT, events);
    var ids := NewestFirst(s.z);
    RunsHoldIDs(created, events);
    NewestFirstIsTheTimeline(s.z);
    RunKeepsCovers(LIMIT, created, events);
    TimelineScores(created, s);
    ReadAreInt64(Ranked(s.z));
    assert Texts(ids)[i] in Texts(ids) && Texts(ids)[j] in Texts(ids);
    ScoreOf(created, s.z, ids[i]);
    ScoreOf(created, s.z, ids[j]);
    OverIffNewer(created, ids[i], ids[j]);
  }

  lemma {:induction false} ReadAreInt64(strs: seq<string>)
    ensures forall id | id in ReadIDs(strs) :: IsInt64(id)
  {
    if strs != [] {
      ReadAreInt64(strs[..|strs| - 1]);
    }
  }
}
