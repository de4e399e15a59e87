/** The batched profile lookup of examples/facade/main.cpp: one call over a cache, a database and metrics. */
module Facades {
  import opened Options

  datatype UserProfile = UserProfile(userId: int, name: string, tier: string)

  type Table = map<int, UserProfile>

  // ---------- What a batch does ----------

  function Find(table: Table, id: int): Option<UserProfile> {
    if id in table then Some(table[id]) else None
  }

  /** A plain lookup: the cache, or else the database. */
  function Lookup(cache: Table, rows: Table, id: int): Option<UserProfile> {
    if id in cache then Some(cache[id]) else Find(rows, id)
  }

  /** The ids not in the cache, duplicates kept, in request order. */
  function Missed(cache: Table, ids: seq<int>): (missed: seq<int>)
    ensures |missed| <= |ids|
  {
    if ids == [] then []
    else
      var m := |ids| - 1;
      Missed(cache, ids[..m]) + if ids[m] in cache then [] else [ids[m]]
  }

  /** The rows of those ids that exist. */
  function Loaded(rows: Table, ids: seq<int>): (loaded: seq<UserProfile>)
    ensures |loaded| <= |ids|
  {
    if ids == [] then []
    else
      var m := |ids| - 1;
      Loaded(rows, ids[..m]) + if ids[m] in rows then [rows[ids[m]]] else []
  }

  /** `put_many`: each profile is filed under its own `user_id`, the last one winning. */
  function PutAll(cache: Table, profiles: seq<UserProfile>): Table {
    if profiles == [] then cache
    else
      var m := |profiles| - 1;
      PutAll(cache, profiles[..m])[profiles[m].userId := profiles[m]]
  }

  function Warmed(cache: Table, rows: Table, ids: seq<int>): Table {
    PutAll(cache, Loaded(rows, Missed(cache, ids)))
  }

  /** An id filed at least once is mapped to the profile filed last for it, whatever the cache held before; the
      entries of other ids stay. */
  lemma {:induction false} PutAllIs(cache: Table, profiles: seq<UserProfile>, id: int) returns (k: int)
    ensures -1 <= k < |profiles| && forall j | k < j < |profiles| :: profiles[j].userId != id
    ensures k >= 0 ==>
              profiles[k].userId == id && id in PutAll(cache, profiles) && PutAll(cache, profiles)[id] == profiles[k]
    ensures k == -1 ==> Find(PutAll(cache, profiles), id) == Find(cache, id)
  {
    k := |profiles| - 1;
    if profiles != [] && profiles[k].userId != id {
      k := PutAllIs(cache, profiles[..k], id);
    }
  }

  /** How many positions of `ids` hold one of `keys`. */
  function CountIn(ids: seq<int>, keys: set<int>): nat {
    if ids == [] then 0
    else CountIn(ids[..|ids| - 1], keys) + if ids[|ids| - 1] in keys then 1 else 0
  }

  /** `CountIn` is a number of positions. */
  lemma {:induction false} CountInIs(ids: seq<int>, keys: set<int>)
    ensures CountIn(ids, keys) == |set i: nat | i < |ids| && ids[i] in keys|
  {
    var all := set i: nat | i < |ids| && ids[i] in keys;
    if ids == [] {
      assert all == {};
    } else {
      var m := |ids| - 1;
      CountInIs(ids[..m], keys);
      var before := set i: nat | i < |ids[..m]| && ids[..m][i] in keys;
      assert all == if ids[m] in keys then before + {m} else before;
    }
  }

  lemma {:induction false} BatchCounts(cache: Table, rows: Table, ids: seq<int>)
    ensures |Missed(cache, ids)| == |ids| - CountIn(ids, cache.Keys)
    ensures |Loaded(rows, Missed(cache, ids))| == CountIn(ids, rows.Keys - cache.Keys)
    ensures CountIn(ids, cache.Keys) + CountIn(ids, rows.Keys - cache.Keys)
            == CountIn(ids, cache.Keys + rows.Keys) <= |ids|
  {
    if ids != [] {
      var m := |ids| - 1;
      BatchCounts(cache, rows, ids[..m]);
      if ids[m] !in cache {
        assert Missed(cache, ids)[..|Missed(cache, ids)| - 1] == Missed(cache, ids[..m]);
      } else {
        assert Missed(cache, ids) == Missed(cache, ids[..m]);
      }
    }
  }

  /** `positions[k]` is where the k-th miss was requested, and `ranks` is the inverse of `positions`. */
  ghost predicate PositionsMatch(cache: Table, ids: seq<int>, missed: seq<int>, positions: seq<nat>, ranks: seq<nat>) {
    && |positions| == |missed| && |ranks| == |ids|
    && (forall k | 0 <= k < |positions| ::
          && positions[k] < |ids| && ranks[positions[k]] == k
          && missed[k] == ids[positions[k]] && missed[k] !in cache)
    && (forall p | 0 <= p < |ids| && ids[p] !in cache :: ranks[p] < |positions| && positions[ranks[p]] == p)
  }

  /** What the next id adds to the misses and their positions. */
  lemma NextMiss(cache: Table, ids: seq<int>, i: nat, missed: seq<int>, positions: seq<nat>, ranks: seq<nat>)
    requires i < |ids| && missed == Missed(cache, ids[..i])
    requires PositionsMatch(cache, ids[..i], missed, positions, ranks)
    ensures ids[i] in cache ==>
              && missed == Missed(cache, ids[..i + 1])
              && PositionsMatch(cache, ids[..i + 1], missed, positions, ranks + [|positions|])
    ensures ids[i] !in cache ==>
              && missed + [ids[i]] == Missed(cache, ids[..i + 1])
              && PositionsMatch(cache, ids[..i + 1], missed + [ids[i]], positions + [i], ranks + [|positions|])
  {
    assert ids[..i + 1][..i] == ids[..i];
  }

  // ---------- Agreement with the database ----------

  ghost predicate Agrees(cache: Table, rows: Table) {
    forall id | id in cache :: id in rows && cache[id] == rows[id]
  }

  /** Every row carries its own key. */
  ghost predicate Keyed(rows: Table) {
    forall id | id in rows :: rows[id].userId == id
  }

  predicate IsRowFor(rows: Table, ids: seq<int>, profile: UserProfile) {
    profile.userId in ids && profile.userId in rows && rows[profile.userId] == profile
  }

  lemma {:induction false} LoadedAreRows(rows: Table, ids: seq<int>)
    requires Keyed(rows)
    ensures forall k | 0 <= k < |Loaded(rows, ids)| :: IsRowFor(rows, ids, Loaded(rows, ids)[k])
    ensures forall id | id in ids && id in rows :: rows[id] in Loaded(rows, ids)
  {
    if ids != [] {
      var m := |ids| - 1;
      LoadedAreRows(rows, ids[..m]);
      assert ids == ids[..m] + [ids[m]];
      forall k | 0 <= k < |Loaded(rows, ids)| ensures IsRowFor(rows, ids, Loaded(rows, ids)[k]) {
        if k < |Loaded(rows, ids[..m])| {
          assert IsRowFor(rows, ids[..m], Loaded(rows, ids[..m])[k]);
        } else {
          assert rows[ids[m]].userId == ids[m] && ids[m] in ids;
        }
      }
    }
  }

  lemma {:induction false} MissedIds(cache: Table, ids: seq<int>)
    ensures forall id :: id in Missed(cache, ids) <==> id in ids && id !in cache
  {
    if ids != [] {
      var m := |ids| - 1;
      MissedIds(cache, ids[..m]);
      assert ids == ids[..m] + [ids[m]];
    }
  }

  /** Filing keyed rows adds exactly those rows to the cache. */
  lemma {:induction false} PutAllKeyed(cache: Table, rows: Table, profiles: seq<UserProfile>)
    requires Agrees(cache, rows)
    requires forall k | 0 <= k < |profiles| :: profiles[k].userId in rows && rows[profiles[k].userId] == profiles[k]
    ensures Agrees(PutAll(cache, profiles), rows)
    ensures cache.Keys <= PutAll(cache, profiles).Keys
    ensures forall k | 0 <= k < |profiles| :: profiles[k].userId in PutAll(cache, profiles)
  {
    if profiles != [] {
      PutAllKeyed(cache, rows, profiles[..|profiles| - 1]);
    }
  }

  /** After a batch the cache still agrees with the database and holds every requested id that exists. */
  lemma WarmedAgrees(cache: Table, rows: Table, ids: seq<int>)
    requires Agrees(cache, rows) && Keyed(rows)
    ensures Agrees(Warmed(cache, rows, ids), rows)
    ensures forall i | 0 <= i < |ids| && ids[i] in rows :: ids[i] in Warmed(cache, rows, ids)
  {
    var missed := Missed(cache, ids);
    var loaded := Loaded(rows, missed);
    LoadedAreRows(rows, missed);
    MissedIds(cache, ids);
    forall k | 0 <= k < |loaded| ensures loaded[k].userId in rows && rows[loaded[k].userId] == loaded[k] {
      assert IsRowFor(rows, missed, loaded[k]);
    }
    PutAllKeyed(cache, rows, loaded);
    forall i | 0 <= i < |ids| && ids[i] in rows ensures ids[i] in Warmed(cache, rows, ids) {
      var id := ids[i];
      if id !in cache {
        assert id in ids && id in missed;
        var k :| 0 <= k < |loaded| && loaded[k] == rows[id];
      }
    }
  }

  /** What the rows loaded for a batch do to one entry of the cache. */
  lemma WarmedAt(cache: Table, rows: Table, ids: seq<int>, id: int)
    requires Keyed(rows)
    ensures Find(Warmed(cache, rows, ids), id)
         == if id in ids && id in rows && id !in cache then Some(rows[id]) else Find(cache, id)
  {
    var missed := Missed(cache, ids);
    var loaded := Loaded(rows, missed);
    LoadedAreRows(rows, missed);
    MissedIds(cache, ids);
    var k := PutAllIs(cache, loaded, id);
    if k >= 0 {
      assert IsRowFor(rows, missed, loaded[k]);
    }
  }

  /** Over a keyed database, a batch adds to the cache exactly the rows of the requested ids it did not hold. */
  lemma WarmedIs(cache: Table, rows: Table, ids: seq<int>)
    requires forall id | id in rows :: rows[id].userId == id
    ensures Warmed(cache, rows, ids) == cache + map id | id in ids && id in rows && id !in cache :: rows[id]
  {
    var warmed := cache + map id | id in ids && id in rows && id !in cache :: rows[id];
    forall id ensures Find(Warmed(cache, rows, ids), id) == Find(warmed, id) {
      WarmedAt(cache, rows, ids, id);
    }
    SameTable(Warmed(cache, rows, ids), warmed);
  }

  lemma SameTable(a: Table, b: Table)
    requires forall id :: Find(a, id) == Find(b, id)
    ensures a == b
  {
    forall id ensures (id in a <==> id in b) && (id in a ==> a[id] == b[id]) {
      assert Find(a, id) == Find(b, id);
    }
  }

  /** The cache after a sequence of batches. */
  function AfterBatches(cache: Table, rows: Table, batches: seq<seq<int>>): Table
    decreases |batches|
  {
    if batches == [] then cache
    else Warmed(AfterBatches(cache, rows, batches[..|batches| - 1]), rows, batches[|batches| - 1])
  }

  /** Main result: from an agreeing cache over a keyed database, after any sequence of batches every lookup
      is what the database alone would answer. */
  lemma {:induction false} BatchesRefineDatabase(cache: Table, rows: Table, batches: seq<seq<int>>)
    requires Agrees(cache, rows) && Keyed(rows)
    ensures Agrees(AfterBatches(cache, rows, batches), rows)
    ensures forall id :: Lookup(AfterBatches(cache, rows, batches), rows, id) == Find(rows, id)
    decreases |batches|
  {
    if batches != [] {
      var m := |batches| - 1;
      BatchesRefineDatabase(cache, rows, batches[..m]);
      WarmedAgrees(AfterBatches(cache, rows, batches[..m]), rows, batches[m]);
    }
  }

  /** Repeating a batch at once hits the database for nothing. */
  lemma RepeatHitsNoRows(cache: Table, rows: Table, ids: seq<int>)
    requires Agrees(cache, rows) && Keyed(rows)
    ensures CountIn(ids, rows.Keys - Warmed(cache, rows, ids).Keys) == 0
  {
    WarmedAgrees(cache, rows, ids);
    forall i | 0 <= i < |ids| ensures ids[i] !in rows.Keys - Warmed(cache, rows, ids).Keys {
      assert ids[i] in rows ==> ids[i] in Warmed(cache, rows, ids);
    }
    NoneIn(ids, rows.Keys - Warmed(cache, rows, ids).Keys);
  }

  lemma {:induction false} NoneIn(ids: seq<int>, keys: set<int>)
    requires forall i | 0 <= i < |ids| :: ids[i] !in keys
    ensures CountIn(ids, keys) == 0
  {
    if ids != [] {
      NoneIn(ids[..|ids| - 1], keys);
    }
  }

  // ---------- The classes ----------

  class Metrics {
    var cacheHits: nat
    var dbHits: nat
    var misses: nat

    constructor ()
      ensures cacheHits == dbHits == misses == 0
    {
      cacheHits, dbHits, misses := 0, 0, 0;
    }
  }

  class ProfileCache {
    var cache: Table

    constructor (cache: Table)
      ensures this.cache == cache
    {
      this.cache := cache;
    }

    method GetMany(ids: seq<int>) returns (results: seq<Option<UserProfile>>)
      ensures |results| == |ids|
      ensures forall i | 0 <= i < |ids| :: results[i] == Find(cache, ids[i])
      ensures forall i | 0 <= i < |ids| :: results[i] == if ids[i] in cache then Some(cache[ids[i]]) else None
    {
      results := [];
      for k := 0 to |ids|
        invariant |results| == k && forall i | 0 <= i < k :: results[i] == Find(cache, ids[i])
      {
        if ids[k] !in cache {
          results := results + [None];
          continue;
        }
        results := results + [Some(cache[ids[k]])];
      }
    }

    method PutMany(profiles: seq<UserProfile>)
      modifies this
      ensures cache == PutAll(old(cache), profiles)
    {
      for k := 0 to |profiles|
        invariant cache == PutAll(old(cache), profiles[..k])
      {
        assert profiles[..k + 1][..k] == profiles[..k];
        cache := cache[profiles[k].userId := profiles[k]];
      }
      assert profiles[..|profiles|] == profiles;
    }
  }

  class ProfileDatabase {
    const rows: Table

    constructor (rows: Table)
      ensures this.rows == rows
    {
      this.rows := rows;
    }

    method LoadMany(ids: seq<int>) returns (results: seq<Option<UserProfile>>)
      ensures |results| == |ids|
      ensures forall i | 0 <= i < |ids| :: results[i] == Find(rows, ids[i])
      ensures forall i | 0 <= i < |ids| :: results[i] == if ids[i] in rows then Some(rows[ids[i]]) else None
    {
      results := [];
      for k := 0 to |ids|
        invariant |results| == k && forall i | 0 <= i < k :: results[i] == Find(rows, ids[i])
      {
        if ids[k] !in rows {
          results := results + [None];
          continue;
        }
        results := results + [Some(rows[ids[k]])];
      }
    }
  }

  class UserProfileFacade {
    const cache: ProfileCache
    const db: ProfileDatabase
    const metrics: Metrics

    constructor (cache: ProfileCache, db: ProfileDatabase, metrics: Metrics)
      ensures this.cache == cache && this.db == db && this.metrics == metrics
    {
      this.cache, this.db, this.metrics := cache, db, metrics;
    }

    /** The loop over the cache's answers: count the hits, collect the misses and where they were. */
    method CollectMisses(ids: seq<int>, results: seq<Option<UserProfile>>)
      returns (missedIds: seq<int>, missedPositions: seq<nat>, ghost ranks: seq<nat>)
      requires |results| == |ids| && forall i | 0 <= i < |ids| :: results[i] == Find(cache.cache, ids[i])
      modifies metrics
      ensures missedIds == Missed(cache.cache, ids)
      ensures PositionsMatch(cache.cache, ids, missedIds, missedPositions, ranks)
      ensures metrics.cacheHits == old(metrics.cacheHits) + |ids| - |missedIds|
      ensures metrics.dbHits == old(metrics.dbHits) && metrics.misses == old(metrics.misses)
    {
      missedIds, missedPositions, ranks := [], [], [];
      for i := 0 to |results|
        invariant missedIds == Missed(cache.cache, ids[..i])
        invariant PositionsMatch(cache.cache, ids[..i], missedIds, missedPositions, ranks)
        invariant metrics.cacheHits == old(metrics.cacheHits) + i - |missedIds|
        invariant metrics.dbHits == old(metrics.dbHits) && metrics.misses == old(metrics.misses)
      {
        NextMiss(cache.cache, ids, i, missedIds, missedPositions, ranks);
        ranks := ranks + [|missedPositions|];
        if results[i].Some? {
          metrics.cacheHits := metrics.cacheHits + 1;
          continue;
        }
        missedIds := missedIds + [ids[i]];
        missedPositions := missedPositions + [i];
      }
      assert ids[..|ids|] == ids;
    }

    /** The loop over the database's answers: merge them back and count. */
    method MergeLoaded(ids: seq<int>, cached: seq<Option<UserProfile>>, missedIds: seq<int>,
                       missedPositions: seq<nat>, ghost ranks: seq<nat>)
      returns (results: seq<Option<UserProfile>>, profilesToCache: seq<UserProfile>)
      requires |cached| == |ids| && forall i | 0 <= i < |ids| :: cached[i] == Find(cache.cache, ids[i])
      requires PositionsMatch(cache.cache, ids, missedIds, missedPositions, ranks)
      modifies metrics
      ensures |results| == |ids|
      ensures forall p | 0 <= p < |ids| :: results[p] == Lookup(cache.cache, db.rows, ids[p])
      ensures profilesToCache == Loaded(db.rows, missedIds)
      ensures metrics.cacheHits == old(metrics.cacheHits)
      ensures metrics.dbHits == old(metrics.dbHits) + |profilesToCache|
      ensures metrics.misses == old(metrics.misses) + |missedIds| - |profilesToCache|
    {
      var loaded := db.LoadMany(missedIds);
      results, profilesToCache := cached, [];
      for k := 0 to |loaded|
        invariant |results| == |ids| && profilesToCache == Loaded(db.rows, missedIds[..k])
        invariant forall p | 0 <= p < |ids| ::
                    results[p] == if ids[p] !in cache.cache && ranks[p] >= k then None
                                  else Lookup(cache.cache, db.rows, ids[p])
        invariant metrics.cacheHits == old(metrics.cacheHits)
        invariant metrics.dbHits == old(metrics.dbHits) + |profilesToCache|
        invariant metrics.misses == old(metrics.misses) + k - |profilesToCache|
      {
        assert missedIds[..k + 1][..k] == missedIds[..k];
        var pos := missedPositions[k];
        if loaded[k].Some? {
          metrics.dbHits := metrics.dbHits + 1;
          results := results[pos := loaded[k]];
          profilesToCache := profilesToCache + [loaded[k].value];
        } else {
          metrics.misses := metrics.misses + 1;
        }
      }
      assert missedIds[..|missedIds|] == missedIds;
    }

    /** Main result: the batch answers every position like a plain lookup in the cache as it was, warms the
        cache with the rows it loaded, and counts each position exactly once. */
    method FetchProfiles(ids: seq<int>) returns (results: seq<Option<UserProfile>>)
      modifies cache, metrics
      ensures |results| == |ids|
      ensures forall i | 0 <= i < |ids| ::
                results[i] == if ids[i] in old(cache.cache) then Some(old(cache.cache)[ids[i]])
                              else if ids[i] in db.rows then Some(db.rows[ids[i]]) else None
      ensures cache.cache == Warmed(old(cache.cache), db.rows, ids)
      ensures metrics.cacheHits == old(metrics.cacheHits) + CountIn(ids, old(cache.cache).Keys)
      ensures metrics.dbHits == old(metrics.dbHits) + CountIn(ids, db.rows.Keys - old(cache.cache).Keys)
      ensures metrics.cacheHits + metrics.dbHits + metrics.misses
              == old(metrics.cacheHits + metrics.dbHits + metrics.misses) + |ids|
    {
      BatchCounts(cache.cache, db.rows, ids);
      results := cache.GetMany(ids);
      var missedIds, missedPositions, ranks := CollectMisses(ids, results);
      if missedIds == [] {
        return;
      }
      var profilesToCache;
      results, profilesToCache := MergeLoaded(ids, results, missedIds, missedPositions, ranks);
      if profilesToCache != [] {
        cache.PutMany(profilesToCache);
      }
    }

    /** Each position holds what the database alone would answer. */
    predicate Answers(ids: seq<int>, results: seq<Option<UserProfile>>) {
      |results| == |ids| && forall i | 0 <= i < |ids| :: results[i] == Find(db.rows, ids[i])
    }

    /** One batch from an agreeing cache. */
    method FetchAgreed(ids: seq<int>) returns (results: seq<Option<UserProfile>>)
      requires Agrees(cache.cache, db.rows) && Keyed(db.rows)
      modifies cache, metrics
      ensures Answers(ids, results)
      ensures cache.cache == Warmed(old(cache.cache), db.rows, ids) && Agrees(cache.cache, db.rows)
    {
      WarmedAgrees(cache.cache, db.rows, ids);
      results := FetchProfiles(ids);
    }

    /** A sequence of batches: from an agreeing cache over a keyed database, every position of every batch gets
        the database's own answer, and the cache still agrees. */
    method FetchAll(batches: seq<seq<int>>) returns (results: seq<seq<Option<UserProfile>>>)
      requires forall id | id in cache.cache :: id in db.rows && cache.cache[id] == db.rows[id]
      requires forall id | id in db.rows :: db.rows[id].userId == id
      modifies cache, metrics
      ensures |results| == |batches|
      ensures forall k | 0 <= k < |batches| :: |results[k]| == |batches[k]|
      ensures forall k, i | 0 <= k < |batches| && 0 <= i < |batches[k]| ::
                results[k][i] == if batches[k][i] in db.rows then Some(db.rows[batches[k][i]]) else None
      ensures cache.cache == AfterBatches(old(cache.cache), db.rows, batches) && Agrees(cache.cache, db.rows)
    {
      results := [];
      for k := 0 to |batches|
        invariant |results| == k && forall j | 0 <= j < k :: Answers(batches[j], results[j])
        invariant cache.cache == AfterBatches(old(cache.cache), db.rows, batches[..k])
        invariant Agrees(cache.cache, db.rows)
      {
        assert batches[..k + 1][..k] == batches[..k];
        var answers := FetchAgreed(batches[k]);
        results := results + [answers];
      }
      assert batches[..|batches|] == batches;
    }
  }
}
