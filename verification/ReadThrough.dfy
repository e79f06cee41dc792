// Reading many rows through a cache. Tweets (internal/repository/tweet_repository.go) and user
// infos (internal/repository/user_repository.go) are read by the same steps, from their own table
// and keys.
module ReadThrough {
  import opened Sets
  import opened Wrappers

  const MAX_QUERY: nat := 500

  datatype Error = TooMany

  predicate AnyMiss<V>(cache: map<int, V>, ids: seq<int>) {
    exists id | id in ids :: id > 0 && id !in cache
  }

  // What the pipelined GETs give: ids that are not positive are passed over, and one miss makes
  // the whole pipeline report a miss.
  function Found<V>(cache: map<int, V>, ids: seq<int>): map<int, V> {
    if AnyMiss(cache, ids) then map[] else map id | id in ids && id in cache && id > 0 :: cache[id]
  }

  function Missed<V>(found: map<int, V>, ids: seq<int>): seq<int> {
    if ids == [] then []
    else Missed(found, ids[..|ids| - 1]) + if ids[|ids| - 1] in found then [] else [ids[|ids| - 1]]
  }

  function Selected<V>(store: map<int, V>, ids: seq<int>): map<int, V> {
    map id | id in ids && id in store :: store[id]
  }

  // Pointwise lookup in request order.
  function Looked<V>(rows: map<int, V>, ids: seq<int>): seq<(int, V)> {
    if ids == [] then []
    else
      var id := ids[|ids| - 1];
      Looked(rows, ids[..|ids| - 1]) + if id in rows then [(id, rows[id])] else []
  }

  // SETNX of every row.
  function Backfilled<V>(cache: map<int, V>, rows: map<int, V>): map<int, V> {
    rows + cache
  }

  class Repository<V(==)> {
    var store: map<int, V>
    var cache: map<int, V>
    // Rows queued for backfilling.
    var pool: seq<map<int, V>>

    constructor (store: map<int, V>)
      ensures this.store == store && cache == map[] && pool == []
    {
      this.store, cache, pool := store, map[], [];
    }

    method MultiGetCached(ids: seq<int>) returns (found: map<int, V>)
      ensures found == Found(cache, ids)
    {
      found := map[];
      for i := 0 to |ids|
        invariant !AnyMiss(cache, ids[..i])
        invariant found == map id | id in ids[..i] && id in cache && id > 0 :: cache[id]
      {
        assert ids[..i + 1] == ids[..i] + [ids[i]];
        if ids[i] <= 0 {
          continue;
        }
        if ids[i] !in cache {
          assert ids[i] in ids;
          return map[];
        }
        found := found[ids[i] := cache[ids[i]]];
      }
      assert ids[..|ids|] == ids;
    }

    method Select(ids: seq<int>) returns (r: Result<map<int, V>, Error>)
      ensures r == if |ids| > 500 then Err(TooMany) else Ok(Selected(store, ids))
    {
      if |ids| > MAX_QUERY {
        return Err(TooMany);
      }
      return Ok(Selected(store, ids));
    }

    method CollectMissed(rows: map<int, V>, ids: seq<int>) returns (missed: seq<int>)
      ensures missed == Missed(rows, ids)
    {
      missed := [];
      for i := 0 to |ids|
        invariant missed == Missed(rows, ids[..i])
      {
        assert ids[..i + 1][..i] == ids[..i];
        if ids[i] !in rows {
          missed := missed + [ids[i]];
        }
      }
      assert ids[..|ids|] == ids;
    }

    method CollectResults(rows: map<int, V>, ids: seq<int>) returns (results: seq<(int, V)>)
      ensures results == Looked(rows, ids)
    {
      results := [];
      for i := 0 to |ids|
        invariant results == Looked(rows, ids[..i])
      {
        assert ids[..i + 1][..i] == ids[..i];
        if ids[i] in rows {
          results := results + [(ids[i], rows[ids[i]])];
        }
      }
      assert ids[..|ids|] == ids;
    }

    method MultiGet(ids: seq<int>) returns (r: Result<seq<(int, V)>, Error>)
      modifies this`pool
      ensures
        var missed := Missed(Found(cache, ids), ids);
        && r == (if |missed| > 500 then Err(TooMany)
                 else Ok(Looked(Found(cache, ids) + Selected(store, missed), ids)))
        && pool == old(pool) + (if r.Ok? && missed != [] then [Selected(store, missed)] else [])
    {
      if ids == [] {
        return Ok([]);
      }
      var found := MultiGetCached(ids);
      var missed := CollectMissed(found, ids);
      var rows := found;
      if |missed| > 0 {
        var selected := Select(missed);
        if selected.Err? {
          return Err(TooMany);
        }
        rows := found + selected.value;
        pool := pool + [selected.value];
      } else {
        NothingSelected(found, store);
      }
      var results := CollectResults(rows, ids);
      return Ok(results);
    }

    method SetNX(id: int, row: V)
      modifies this`cache
      ensures cache == if id in old(cache) then old(cache) else old(cache)[id := row]
    {
      if id !in cache {
        cache := cache[id := row];
      }
    }

    method SetRows(rows: map<int, V>)
      modifies this`cache
      ensures cache == Backfilled(old(cache), rows)
    {
      var rest := rows.Keys;
      NothingExcept(rows);
      while rest != {}
        invariant rest <= rows.Keys
        invariant cache == Backfilled(old(cache), Except(rows, rest))
        decreases |rest|
      {
        ghost var some := Member(rest);
        var id :| id in rest;
        OneMoreBackfilled(old(cache), rows, rest, id);
        SetNX(id, rows[id]);
        rest := rest - {id};
      }
    }

    method RunBackfill()
      requires pool != []
      modifies this
      ensures store == old(store) && pool == old(pool)[1..]
      ensures cache == Backfilled(old(cache), old(pool)[0])
      ensures forall id | id in old(cache) :: id in cache && cache[id] == old(cache)[id]
    {
      var rows := pool[0];
      pool := pool[1..];
      SetRows(rows);
    }
  }

  lemma NothingSelected<V>(found: map<int, V>, store: map<int, V>)
    ensures found + Selected(store, []) == found
  {
  }

  ghost function Except<V>(rows: map<int, V>, rest: set<int>): map<int, V> {
    map id | id in rows && id !in rest :: rows[id]
  }

  lemma NothingExcept<V>(rows: map<int, V>)
    ensures Except(rows, {}) == rows && Except(rows, rows.Keys) == map[]
  {
  }

  lemma OneMoreBackfilled<V>(cache: map<int, V>, rows: map<int, V>, rest: set<int>, id: int)
    requires id in rest && id in rows
    ensures
      var part := Backfilled(cache, Except(rows, rest));
      Backfilled(cache, Except(rows, rest - {id})) == if id in part then part else part[id := rows[id]]
  {
  }

  // Ids come from a sequence that starts at 1; what is cached under one is its row.
  ghost predicate Coherent<V>(store: map<int, V>, cache: map<int, V>) {
    && (forall id | id in store :: id > 0)
    && (forall id | id in cache && id > 0 :: id in store && cache[id] == store[id])
  }

  lemma {:induction false} LookedAgrees<V>(a: map<int, V>, b: map<int, V>, ids: seq<int>)
    requires forall id | id in ids :: (id in a <==> id in b) && (id in a ==> a[id] == b[id])
    ensures Looked(a, ids) == Looked(b, ids)
  {
    if ids != [] {
      LookedAgrees(a, b, ids[..|ids| - 1]);
    }
  }

  lemma {:induction false} MissedAreMissing<V>(found: map<int, V>, ids: seq<int>)
    ensures forall id :: id in Missed(found, ids) <==> id in ids && id !in found
  {
    if ids != [] {
      MissedAreMissing(found, ids[..|ids| - 1]);
      assert ids == ids[..|ids| - 1] + [ids[|ids| - 1]];
    }
  }

  lemma {:induction false} NothingFoundMissesAll<V>(ids: seq<int>)
    ensures Missed<V>(map[], ids) == ids
  {
    if ids != [] {
      NothingFoundMissesAll<V>(ids[..|ids| - 1]);
    }
  }

  lemma {:induction false} AllFoundMissesNone<V>(found: map<int, V>, ids: seq<int>)
    requires forall i | 0 <= i < |ids| :: ids[i] in found
    ensures Missed(found, ids) == []
  {
    if ids != [] {
      AllFoundMissesNone(found, ids[..|ids| - 1]);
    }
  }

  // Main result: over a coherent cache the batched read of positive ids gives the stored rows in
  // request order with duplicates kept, and fails exactly when some id is uncached and more than
  // 500 were asked for.
  lemma BatchedIsPointwise<V>(store: map<int, V>, cache: map<int, V>, ids: seq<int>)
    requires Coherent(store, cache)
    ensures
      var found := Found(cache, ids);
      var missed := Missed(found, ids);
      && Looked(found + Selected(store, missed), ids) == Looked(store, ids)
      && ((forall id | id in ids :: id > 0) ==>
            (|missed| > MAX_QUERY <==> |ids| > 500 && exists id :: id in ids && id !in cache))
  {
    var found := Found(cache, ids);
    var missed := Missed(found, ids);
    MissedAreMissing(found, ids);
    LookedAgrees(found + Selected(store, missed), store, ids);
    if AnyMiss(cache, ids) {
      NothingFoundMissesAll<V>(ids);
    } else if forall id | id in ids :: id > 0 {
      forall i | 0 <= i < |ids| ensures ids[i] in found {
        assert ids[i] in ids;
      }
      AllFoundMissesNone(found, ids);
    }
  }

  // The cache after backfills of the rows of several batches, in any number and order.
  function BackfilledAll<V>(store: map<int, V>, cache: map<int, V>, batches: seq<seq<int>>): map<int, V> {
    if batches == [] then cache
    else Backfilled(BackfilledAll(store, cache, batches[..|batches| - 1]), Selected(store, batches[|batches| - 1]))
  }

  // Backfills of rows of the store keep the cache coherent and lose nothing cached.
  lemma {:induction false} BackfillsKeepCoherent<V>(store: map<int, V>, cache: map<int, V>, batches: seq<seq<int>>)
    requires Coherent(store, cache)
    ensures Coherent(store, BackfilledAll(store, cache, batches))
    ensures cache.Keys <= BackfilledAll(store, cache, batches).Keys
    ensures forall b, id | b in batches && id in b && id in store :: id in BackfilledAll(store, cache, batches)
  {
    if batches != [] {
      BackfillsKeepCoherent(store, cache, batches[..|batches| - 1]);
      assert batches == batches[..|batches| - 1] + [batches[|batches| - 1]];
    }
  }

  // How many of the first i ids have a row.
  function Stored<V>(rows: map<int, V>, ids: seq<int>, i: nat): nat
    requires i <= |ids|
  {
    if i == 0 then 0 else Stored(rows, ids, i - 1) + if ids[i - 1] in rows then 1 else 0
  }

  lemma {:induction false} StoredInFront<V>(rows: map<int, V>, ids: seq<int>, front: seq<int>, i: nat)
    requires front <= ids && i <= |front|
    ensures Stored(rows, ids, i) == Stored(rows, front, i)
  {
    if i > 0 {
      StoredInFront(rows, ids, front, i - 1);
    }
  }

  // Whatever is asked for, each id that has a row gives it, duplicates too, in the place it has
  // among those ids, and the others give nothing.
  lemma {:induction false} LookedInPlace<V>(rows: map<int, V>, ids: seq<int>)
    ensures |Looked(rows, ids)| == Stored(rows, ids, |ids|)
    ensures forall i | 0 <= i < |ids| && ids[i] in rows ::
      Stored(rows, ids, i) < |Looked(rows, ids)| && Looked(rows, ids)[Stored(rows, ids, i)] == (ids[i], rows[ids[i]])
  {
    if ids != [] {
      var front := ids[..|ids| - 1];
      LookedInPlace(rows, front);
      forall i | 0 <= i <= |front| ensures Stored(rows, ids, i) == Stored(rows, front, i) {
        StoredInFront(rows, ids, front, i);
      }
    }
  }

  // A backfill writes only keys that were not there.
  lemma BackfillLeavesCached<V>(cache: map<int, V>, rows: map<int, V>, id: int)
    ensures id in cache ==> id in Backfilled(cache, rows) && Backfilled(cache, rows)[id] == cache[id]
    ensures id !in cache ==> (id in Backfilled(cache, rows) <==> id in rows)
    ensures id !in cache && id in rows ==> Backfilled(cache, rows)[id] == rows[id]
  {
  }

  lemma {:induction false} LookedIsRequestOrder<V>(rows: map<int, V>, ids: seq<int>)
    requires forall id | id in ids :: id in rows
    ensures |Looked(rows, ids)| == |ids|
    ensures forall i | 0 <= i < |ids| :: ids[i] in rows && Looked(rows, ids)[i] == (ids[i], rows[ids[i]])
  {
    if ids != [] {
      LookedIsRequestOrder(rows, ids[..|ids| - 1]);
    }
  }
}
