/**
 * The warehouse as a value and the meaning of one load: for each record in
 * input order, insert the asset and the date into their dimensions if they
 * are absent, look up the asset's surrogate key and append a fact row; then
 * append one SUCCESS run-metadata row. Database faults are not part of this
 * specification: the transactional loader in module Load adds them.
 */
module LoadSpec {
  import opened Results
  import opened Timestamps
  import opened Records

  /** A row of the fact table; its position in the table stands for `failure_id`. */
  datatype Fact = Fact(assetKey: int, dateKey: int, failureType: string, outageMinutes: int, resolved: bool)

  /** A row of the run-metadata table; its position stands for `run_id`. */
  datatype RunMeta = RunMeta(recordsLoaded: nat, status: string)

  const SuccessStatus: string := "SUCCESS"

  /**
   * The four warehouse tables: the asset dimension (natural key to surrogate
   * key) with the next surrogate to hand out, the date dimension (date key to
   * full date), the fact table and the run-metadata table.
   */
  datatype Tables = Tables(
    assets: map<string, int>,
    nextAssetKey: int,
    dates: map<int, Date>,
    facts: seq<Fact>,
    meta: seq<RunMeta>)

  /** The statements the loader sends to the database, each of which may raise. */
  datatype Stmt =
    | InsertAsset(row: nat)
    | InsertDate(row: nat)
    | SelectAssetKey(row: nat)
    | InsertFact(row: nat)
    | InsertMeta
    | Commit

  /**
   * Why a load fails: the database raised on a statement, or the asset-key
   * lookup for a record found no row (a null `asset_id`).
   */
  datatype LoadError = DatabaseError(at: Stmt) | MissingAssetKey(row: nat)

  /** Every surrogate asset key was handed out before the counter. */
  predicate KeysBelowCounter(t: Tables) {
    forall a | a in t.assets :: t.assets[a] < t.nextAssetKey
  }

  /** Distinct natural keys have distinct surrogate keys. */
  predicate KeysDistinct(t: Tables) {
    forall a, b | a in t.assets && b in t.assets && a != b :: t.assets[a] != t.assets[b]
  }

  /** Referential integrity: every fact points at an existing asset row and date row. */
  predicate NoOrphanFacts(t: Tables) {
    forall i | 0 <= i < |t.facts| :: t.facts[i].assetKey in t.assets.Values && t.facts[i].dateKey in t.dates
  }

  predicate Consistent(t: Tables) {
    KeysBelowCounter(t) && KeysDistinct(t) && NoOrphanFacts(t)
  }

  /** Every date row's full date is the day its key encodes. */
  predicate DatesMatchKeys(t: Tables) {
    forall k | k in t.dates :: t.dates[k] == DateOfKey(k)
  }

  predicate NoNegativeFacts(t: Tables) {
    forall i | 0 <= i < |t.facts| :: t.facts[i].outageMinutes >= 0
  }

  /** Python's `int()` on a float: truncation toward zero. */
  function TruncateTowardZero(x: real): (n: int)
    ensures x >= 0.0 ==> n as real <= x < n as real + 1.0
    ensures x < 0.0 ==> n as real - 1.0 < x <= n as real
    ensures n >= 0 <==> x > -1.0
  {
    if x >= 0.0 then x.Floor else -((-x).Floor)
  }

  /** Insert-if-absent on the asset dimension (`ON CONFLICT (asset_id) DO NOTHING`). */
  function UpsertAsset(t: Tables, id: string): (r: Tables)
    ensures r.assets.Keys == t.assets.Keys + {id}
    ensures forall a | a in t.assets :: r.assets[a] == t.assets[a]
    ensures id in t.assets ==> r == t
    ensures id !in t.assets ==> r.assets[id] == t.nextAssetKey && r.nextAssetKey == t.nextAssetKey + 1
    ensures r.dates == t.dates && r.facts == t.facts && r.meta == t.meta
  {
    if id in t.assets then t
    else t.(assets := t.assets[id := t.nextAssetKey], nextAssetKey := t.nextAssetKey + 1)
  }

  /** The asset upsert keeps surrogate keys fresh and distinct and orphans no fact. */
  lemma UpsertAssetConsistent(t: Tables, id: string)
    requires Consistent(t)
    ensures Consistent(UpsertAsset(t, id))
  {
    var r := UpsertAsset(t, id);
    if id !in t.assets {
      forall v | v in t.assets.Values ensures v in r.assets.Values {
        var a :| a in t.assets && t.assets[a] == v;
        assert r.assets[a] == v;
      }
    }
  }

  /** Insert-if-absent on the date dimension (`ON CONFLICT (date_key) DO NOTHING`). */
  function UpsertDate(t: Tables, key: int, day: Date): (r: Tables)
    ensures r.dates.Keys == t.dates.Keys + {key}
    ensures forall k | k in t.dates :: r.dates[k] == t.dates[k]
    ensures key !in t.dates ==> r.dates[key] == day
    ensures r.assets == t.assets && r.nextAssetKey == t.nextAssetKey && r.facts == t.facts && r.meta == t.meta
  {
    if key in t.dates then t else t.(dates := t.dates[key := day])
  }

  /** The fact row for a record whose asset has surrogate `assetKey`. */
  function FactOf(rec: TransformedRecord, assetKey: int): Fact {
    Fact(assetKey, rec.dateKey, rec.failureType, TruncateTowardZero(rec.outageMinutes), rec.resolved)
  }

  /**
   * One record, as row `row` of the batch: the asset upsert, the date upsert
   * (with the calendar day of `start_time`), the key lookup and the fact
   * insert. A null `asset_id` has no key to look up and fails the record.
   */
  function LoadRow(t: Tables, rec: TransformedRecord, row: nat): (r: Result<Tables, LoadError>)
    ensures r.Success? <==> rec.assetId.Some?
    ensures r.Failure? ==> r.error == MissingAssetKey(row)
    ensures r.Success? ==> var id := rec.assetId.value;
              && id in r.value.assets && rec.dateKey in r.value.dates
              && r.value.facts == t.facts + [FactOf(rec, r.value.assets[id])]
              && r.value.meta == t.meta
  {
    var t1 := if rec.assetId.Some? then UpsertAsset(t, rec.assetId.value) else t;
    var t2 := UpsertDate(t1, rec.dateKey, DateOf(rec.startTime));
    match rec.assetId
    case None => Failure(MissingAssetKey(row))
    case Some(id) =>
      var key := t2.assets[id];
      assert key in t2.assets.Values;
      Success(t2.(facts := t2.facts + [FactOf(rec, key)]))
  }

  /**
   * The rows of a batch, in input order. The load stops at the first record
   * without an `asset_id`.
   */
  function LoadRows(t: Tables, batch: seq<TransformedRecord>): (r: Result<Tables, LoadError>)
    ensures r.Success? <==> forall i | 0 <= i < |batch| :: batch[i].assetId.Some?
    ensures r.Failure? ==> && r.error.MissingAssetKey?
                           && r.error.row < |batch|
                           && batch[r.error.row].assetId.None?
                           && forall j | 0 <= j < r.error.row :: batch[j].assetId.Some?
    ensures r.Success? ==> r.value.meta == t.meta && |r.value.facts| == |t.facts| + |batch|
  {
    if batch == [] then Success(t)
    else
      var init := batch[..|batch| - 1];
      match LoadRows(t, init)
      case Failure(e) => Failure(e)
      case Success(t1) => LoadRow(t1, batch[|batch| - 1], |batch| - 1)
  }

  /** A whole load: the rows, then one SUCCESS metadata row counting them. */
  function LoadBatch(t: Tables, batch: seq<TransformedRecord>): (r: Result<Tables, LoadError>)
    ensures r.Success? <==> forall i | 0 <= i < |batch| :: batch[i].assetId.Some?
    ensures r.Success? ==> r.value.meta == t.meta + [RunMeta(|batch|, SuccessStatus)]
  {
    match LoadRows(t, batch)
    case Failure(e) => Failure(e)
    case Success(t1) => Success(t1.(meta := t1.meta + [RunMeta(|batch|, SuccessStatus)]))
  }

  /** One record keeps the warehouse consistent: its fact points at rows that exist. */
  lemma LoadRowConsistent(t: Tables, rec: TransformedRecord, row: nat)
    requires Consistent(t)
    requires LoadRow(t, rec, row).Success?
    ensures Consistent(LoadRow(t, rec, row).value)
  {
    var t1 := UpsertAsset(t, rec.assetId.value);
    UpsertAssetConsistent(t, rec.assetId.value);
    var t2 := UpsertDate(t1, rec.dateKey, DateOf(rec.startTime));
    var r := LoadRow(t, rec, row).value;
    assert r.assets == t2.assets && r.dates == t2.dates;
    assert forall i | 0 <= i < |t1.facts| :: t1.facts[i].dateKey in t2.dates;
  }

  /**
   * Referential integrity and key uniqueness hold in every state a load can
   * reach: the dimension rows a fact needs are upserted before the fact.
   */
  lemma {:induction false} LoadBatchConsistent(t: Tables, batch: seq<TransformedRecord>)
    requires Consistent(t)
    requires LoadBatch(t, batch).Success?
    ensures Consistent(LoadBatch(t, batch).value)
  {
    LoadRowsConsistent(t, batch);
  }

  lemma {:induction false} LoadRowsConsistent(t: Tables, batch: seq<TransformedRecord>)
    requires Consistent(t)
    requires LoadRows(t, batch).Success?
    ensures Consistent(LoadRows(t, batch).value)
  {
    if batch != [] {
      var init := batch[..|batch| - 1];
      LoadRowsConsistent(t, init);
      LoadRowConsistent(LoadRows(t, init).value, batch[|batch| - 1], |batch| - 1);
    }
  }

  /** The asset ids named in a batch. */
  function AssetIds(batch: seq<TransformedRecord>): (ids: set<string>)
    ensures forall i | 0 <= i < |batch| && batch[i].assetId.Some? :: batch[i].assetId.value in ids
    ensures forall a | a in ids :: exists i | 0 <= i < |batch| :: batch[i].assetId == Some(a)
  {
    if batch == [] then {}
    else
      var init, last := batch[..|batch| - 1], batch[|batch| - 1];
      assert forall i | 0 <= i < |init| :: init[i] == batch[i];
      AssetIds(init) + (if last.assetId.Some? then {last.assetId.value} else {})
  }

  /** The date keys named in a batch. */
  function DateKeys(batch: seq<TransformedRecord>): (keys: set<int>)
    ensures forall i | 0 <= i < |batch| :: batch[i].dateKey in keys
    ensures forall k | k in keys :: exists i | 0 <= i < |batch| :: batch[i].dateKey == k
  {
    if batch == [] then {}
    else
      var init, last := batch[..|batch| - 1], batch[|batch| - 1];
      assert forall i | 0 <= i < |init| :: init[i] == batch[i];
      DateKeys(init) + {last.dateKey}
  }

  /** The state after the first rows of a batch, and the last row loaded on top of it. */
  lemma LoadRowsUnfold(t: Tables, batch: seq<TransformedRecord>)
    requires batch != [] && LoadRows(t, batch).Success?
    ensures var init, last := batch[..|batch| - 1], batch[|batch| - 1];
            && LoadRows(t, init).Success?
            && last.assetId.Some?
            && LoadRows(t, batch) == LoadRow(LoadRows(t, init).value, last, |batch| - 1)
  {
  }

  /**
   * What the loaded rows do to the asset dimension: exactly the batch's asset
   * ids are added and existing rows keep their keys.
   */
  lemma {:induction false} LoadRowsAssets(t: Tables, batch: seq<TransformedRecord>)
    requires LoadRows(t, batch).Success?
    ensures var t' := LoadRows(t, batch).value;
            && t'.assets.Keys == t.assets.Keys + AssetIds(batch)
            && (forall a | a in t.assets :: t'.assets[a] == t.assets[a])
  {
    if batch != [] {
      var init, last := batch[..|batch| - 1], batch[|batch| - 1];
      LoadRowsUnfold(t, batch);
      LoadRowsAssets(t, init);
      assert AssetIds(batch) == AssetIds(init) + {last.assetId.value};
    }
  }

  /**
   * The surrogate-key counter advances once per asset row the load adds, and
   * every added row holds a key handed out during this load.
   */
  lemma {:induction false} LoadRowsAssetKeys(t: Tables, batch: seq<TransformedRecord>)
    requires LoadRows(t, batch).Success?
    ensures var t' := LoadRows(t, batch).value;
            && t'.nextAssetKey == t.nextAssetKey + |t'.assets.Keys - t.assets.Keys|
  {
    if batch != [] {
      var init, last := batch[..|batch| - 1], batch[|batch| - 1];
      LoadRowsUnfold(t, batch);
      LoadRowsAssets(t, init);
      LoadRowsAssetKeys(t, init);
      var t1 := LoadRows(t, init).value;
      var id := last.assetId.value;
      var t' := LoadRows(t, batch).value;
      assert t'.assets == UpsertAsset(t1, id).assets && t'.nextAssetKey == UpsertAsset(t1, id).nextAssetKey;
      NewKeysStep(t.assets.Keys, t1.assets.Keys, id);
    }
  }

  /** Adding one key to a superset of `k0` adds one new key exactly when it was absent. */
  lemma NewKeysStep<K>(k0: set<K>, k1: set<K>, id: K)
    requires k0 <= k1
    ensures |(k1 + {id}) - k0| == |k1 - k0| + (if id in k1 then 0 else 1)
  {
    if id !in k1 {
      assert (k1 + {id}) - k0 == (k1 - k0) + {id};
    } else {
      assert k1 + {id} == k1;
    }
  }

  /** Every asset row the load adds holds a key handed out during this load. */
  lemma {:induction false} LoadRowsFreshKeys(t: Tables, batch: seq<TransformedRecord>)
    requires LoadRows(t, batch).Success?
    ensures var t' := LoadRows(t, batch).value;
            forall a | a in t'.assets && a !in t.assets :: t.nextAssetKey <= t'.assets[a] < t'.nextAssetKey
  {
    if batch != [] {
      var init, last := batch[..|batch| - 1], batch[|batch| - 1];
      LoadRowsUnfold(t, batch);
      LoadRowsAssets(t, init);
      LoadRowsAssetKeys(t, init);
      LoadRowsFreshKeys(t, init);
      var t1 := LoadRows(t, init).value;
      var t' := LoadRows(t, batch).value;
      var id := last.assetId.value;
      assert t'.assets == UpsertAsset(t1, id).assets && t'.nextAssetKey == UpsertAsset(t1, id).nextAssetKey;
      assert t1.nextAssetKey <= t'.nextAssetKey;
    }
  }

  /**
   * What the loaded rows do to the date dimension: exactly the batch's date
   * keys are added and existing rows are untouched.
   */
  lemma {:induction false} LoadRowsDates(t: Tables, batch: seq<TransformedRecord>)
    requires LoadRows(t, batch).Success?
    ensures var t' := LoadRows(t, batch).value;
            && t'.dates.Keys == t.dates.Keys + DateKeys(batch)
            && (forall k | k in t.dates :: t'.dates[k] == t.dates[k])
  {
    if batch != [] {
      var init, last := batch[..|batch| - 1], batch[|batch| - 1];
      LoadRowsUnfold(t, batch);
      LoadRowsDates(t, init);
      assert DateKeys(batch) == DateKeys(init) + {last.dateKey};
    }
  }

  /**
   * A date row the load adds holds the calendar day of the first record in
   * the batch with that date key.
   */
  lemma {:induction false} LoadRowsFirstDate(t: Tables, batch: seq<TransformedRecord>, j: nat)
    requires LoadRows(t, batch).Success?
    requires j < |batch| && batch[j].dateKey !in t.dates
    requires forall i | 0 <= i < j :: batch[i].dateKey != batch[j].dateKey
    ensures var t' := LoadRows(t, batch).value;
            batch[j].dateKey in t'.dates && t'.dates[batch[j].dateKey] == DateOf(batch[j].startTime)
  {
    if j < |batch| - 1 {
      var init, last := batch[..|batch| - 1], batch[|batch| - 1];
      LoadRowsUnfold(t, batch);
      var t1 := LoadRows(t, init).value;
      var k := batch[j].dateKey;
      assert k in t1.dates && t1.dates[k] == DateOf(batch[j].startTime) by {
        assert forall i | 0 <= i <= j :: init[i] == batch[i];
        LoadRowsFirstDate(t, init, j);
      }
      assert LoadRows(t, batch).value.dates == UpsertDate(t1, last.dateKey, DateOf(last.startTime)).dates;
    } else {
      LoadRowsLastDate(t, batch);
    }
  }

  /** The case of `LoadRowsFirstDate` where the first record with the key is the last one. */
  lemma LoadRowsLastDate(t: Tables, batch: seq<TransformedRecord>)
    requires LoadRows(t, batch).Success? && batch != []
    requires var k := batch[|batch| - 1].dateKey;
             k !in t.dates && forall i | 0 <= i < |batch| - 1 :: batch[i].dateKey != k
    ensures var t', last := LoadRows(t, batch).value, batch[|batch| - 1];
            last.dateKey in t'.dates && t'.dates[last.dateKey] == DateOf(last.startTime)
  {
    var init, last := batch[..|batch| - 1], batch[|batch| - 1];
    LoadRowsUnfold(t, batch);
    var t1 := LoadRows(t, init).value;
    assert last.dateKey !in t1.dates by {
      LoadRowsDates(t, init);
      forall i | 0 <= i < |init|
        ensures init[i].dateKey != last.dateKey
      {
        assert init[i] == batch[i];
      }
    }
  }

  /**
   * What the loaded rows do to the fact table: one fact per record, appended
   * in input order after the existing facts, each pointing at its record's
   * asset row and date row, with truncated minutes and the other columns
   * copied.
   */
  lemma {:induction false} LoadRowsFacts(t: Tables, batch: seq<TransformedRecord>)
    requires LoadRows(t, batch).Success?
    ensures var t' := LoadRows(t, batch).value;
            && |t'.facts| == |t.facts| + |batch|
            && t'.facts[..|t.facts|] == t.facts
            && t'.meta == t.meta
            && forall i | 0 <= i < |batch| ::
                 && batch[i].assetId.value in t'.assets
                 && t'.facts[|t.facts| + i] == FactOf(batch[i], t'.assets[batch[i].assetId.value])
  {
    if batch != [] {
      var init, last := batch[..|batch| - 1], batch[|batch| - 1];
      LoadRowsFacts(t, init);
      var t1 := LoadRows(t, init).value;
      var t' := LoadRows(t, batch).value;
      assert t'.facts == t1.facts + [FactOf(last, t'.assets[last.assetId.value])];
      assert forall a | a in t1.assets :: a in t'.assets && t'.assets[a] == t1.assets[a];
      forall i | 0 <= i < |batch|
        ensures batch[i].assetId.value in t'.assets
        ensures t'.facts[|t.facts| + i] == FactOf(batch[i], t'.assets[batch[i].assetId.value])
      {
        if i < |init| {
          assert init[i] == batch[i];
        }
      }
    }
  }

  /** A batch whose assets and dates are all present leaves both dimensions as they are. */
  lemma {:induction false} LoadRowsKnownKeys(t: Tables, batch: seq<TransformedRecord>)
    requires LoadRows(t, batch).Success?
    requires AssetIds(batch) <= t.assets.Keys && DateKeys(batch) <= t.dates.Keys
    ensures var t' := LoadRows(t, batch).value;
            t'.assets == t.assets && t'.nextAssetKey == t.nextAssetKey && t'.dates == t.dates
  {
    LoadRowsKnownAssets(t, batch);
    LoadRowsKnownDates(t, batch);
  }

  lemma LoadRowsKnownAssets(t: Tables, batch: seq<TransformedRecord>)
    requires LoadRows(t, batch).Success?
    requires AssetIds(batch) <= t.assets.Keys
    ensures var t' := LoadRows(t, batch).value;
            t'.assets == t.assets && t'.nextAssetKey == t.nextAssetKey
  {
    var t' := LoadRows(t, batch).value;
    LoadRowsAssets(t, batch);
    LoadRowsAssetKeys(t, batch);
    assert t'.assets.Keys == t.assets.Keys;
    assert t'.assets.Keys - t.assets.Keys == {};
    SameMap(t'.assets, t.assets);
  }

  lemma LoadRowsKnownDates(t: Tables, batch: seq<TransformedRecord>)
    requires LoadRows(t, batch).Success?
    requires DateKeys(batch) <= t.dates.Keys
    ensures LoadRows(t, batch).value.dates == t.dates
  {
    var t' := LoadRows(t, batch).value;
    LoadRowsDates(t, batch);
    assert t'.dates.Keys == t.dates.Keys;
    SameMap(t'.dates, t.dates);
  }

  /** Extensional equality of two maps. */
  lemma SameMap<K, V>(m1: map<K, V>, m2: map<K, V>)
    requires m1.Keys == m2.Keys
    requires forall k | k in m1 :: m1[k] == m2[k]
    ensures m1 == m2
  {
  }

  /**
   * Loading a batch again on top of its own result (whatever the metadata
   * table holds) finds every dimension row present and appends the same
   * facts again.
   */
  lemma {:induction false} LoadRowsRepeat(t: Tables, u: Tables, batch: seq<TransformedRecord>)
    requires LoadRows(t, batch).Success?
    requires var r := LoadRows(t, batch).value;
             u.assets == r.assets && u.nextAssetKey == r.nextAssetKey && u.dates == r.dates && u.facts == r.facts
    ensures LoadRows(u, batch).Success?
    ensures var r2 := LoadRows(u, batch).value;
            && r2.assets == u.assets && r2.nextAssetKey == u.nextAssetKey && r2.dates == u.dates
            && |t.facts| <= |u.facts|
            && r2.facts == u.facts + u.facts[|t.facts|..]
  {
    var r1 := LoadRows(t, batch).value;
    assert AssetIds(batch) <= u.assets.Keys && DateKeys(batch) <= u.dates.Keys by {
      LoadRowsAssets(t, batch);
      LoadRowsDates(t, batch);
    }
    var r2 := LoadRows(u, batch).value;
    assert r2.assets == u.assets && r2.nextAssetKey == u.nextAssetKey && r2.dates == u.dates by {
      LoadRowsKnownKeys(u, batch);
    }
    RepeatedFacts(t, u, batch);
  }

  /** The facts half of `LoadRowsRepeat`. */
  lemma {:induction false} RepeatedFacts(t: Tables, u: Tables, batch: seq<TransformedRecord>)
    requires LoadRows(t, batch).Success? && LoadRows(u, batch).Success?
    requires var r := LoadRows(t, batch).value;
             u.assets == r.assets && u.facts == r.facts && LoadRows(u, batch).value.assets == u.assets
    ensures |t.facts| <= |u.facts|
    ensures LoadRows(u, batch).value.facts == u.facts + u.facts[|t.facts|..]
  {
    var r1 := LoadRows(t, batch).value;
    var r2 := LoadRows(u, batch).value;
    LoadRowsFacts(t, batch);
    LoadRowsFacts(u, batch);
    var added := u.facts[|t.facts|..];
    var again := r2.facts[|u.facts|..];
    forall k | 0 <= k < |batch|
      ensures again[k] == added[k]
    {
      var id := batch[k].assetId.value;
      assert again[k] == r2.facts[|u.facts| + k] == FactOf(batch[k], r2.assets[id]);
      assert added[k] == r1.facts[|t.facts| + k] == FactOf(batch[k], r1.assets[id]);
    }
    SameElements(again, added);
    assert r2.facts == r2.facts[..|u.facts|] + again;
  }

  /** Extensional equality of two sequences. */
  lemma SameElements<T>(a: seq<T>, b: seq<T>)
    requires |a| == |b|
    requires forall k | 0 <= k < |a| :: a[k] == b[k]
    ensures a == b
  {
  }

  /**
   * Loading the same batch a second time adds no dimension rows and hands
   * out no surrogate key, but appends the same facts again and one more
   * metadata row.
   */
  lemma {:induction false} LoadBatchTwice(t: Tables, batch: seq<TransformedRecord>)
    requires LoadBatch(t, batch).Success?
    ensures var t1 := LoadBatch(t, batch).value;
            var r2 := LoadBatch(t1, batch);
            && r2.Success?
            && r2.value.assets == t1.assets
            && r2.value.nextAssetKey == t1.nextAssetKey
            && r2.value.dates == t1.dates
            && |t.facts| <= |t1.facts|
            && r2.value.facts == t1.facts + t1.facts[|t.facts|..]
            && r2.value.meta == t1.meta + [RunMeta(|batch|, SuccessStatus)]
  {
    var t1 := LoadBatch(t, batch).value;
    LoadRowsRepeat(t, t1, batch);
  }

  /** A batch with no negative outage adds no negative fact. */
  lemma LoadBatchKeepsOutagesNonNegative(t: Tables, batch: seq<TransformedRecord>)
    requires LoadBatch(t, batch).Success?
    requires NoNegativeFacts(t)
    requires forall i | 0 <= i < |batch| :: batch[i].outageMinutes >= 0.0
    ensures NoNegativeFacts(LoadBatch(t, batch).value)
  {
    LoadRowsFacts(t, batch);
    var t' := LoadBatch(t, batch).value;
    forall i | 0 <= i < |t'.facts|
      ensures t'.facts[i].outageMinutes >= 0
    {
      if i < |t.facts| {
        assert t'.facts[..|t.facts|][i] == t.facts[i];
      } else {
        assert batch[i - |t.facts|].outageMinutes >= 0.0;
      }
    }
  }

  /**
   * When every record's date key is the key of its start time, every date
   * row the load adds holds the day its key encodes.
   */
  lemma LoadBatchKeepsDatesMatchingKeys(t: Tables, batch: seq<TransformedRecord>)
    requires LoadBatch(t, batch).Success?
    requires DatesMatchKeys(t)
    requires forall i | 0 <= i < |batch| :: batch[i].dateKey == DateKey(batch[i].startTime)
    ensures DatesMatchKeys(LoadBatch(t, batch).value)
  {
    LoadRowsDates(t, batch);
    var t' := LoadBatch(t, batch).value;
    forall k | k in t'.dates
      ensures t'.dates[k] == DateOfKey(k)
    {
      if k !in t.dates {
        var j :| 0 <= j < |batch| && batch[j].dateKey == k;
        var first := FirstWithKey(batch, k, j);
        LoadRowsFirstDate(t, batch, first);
        DateKeyRoundTrip(batch[first].startTime);
      }
    }
  }

  /** The first row of `batch` whose date key is `k`, given a row `j` that has it. */
  function FirstWithKey(batch: seq<TransformedRecord>, k: int, j: nat): (f: nat)
    requires j < |batch| && batch[j].dateKey == k
    ensures f <= j && batch[f].dateKey == k
    ensures forall i | 0 <= i < f :: batch[i].dateKey != k
  {
    if exists i | 0 <= i < j :: batch[i].dateKey == k then
      var i :| 0 <= i < j && batch[i].dateKey == k;
      FirstWithKey(batch, k, i)
    else j
  }
}
