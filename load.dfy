/**
 * The transactional loader: one database transaction per batch. Every
 * statement the loader sends may raise (a `fault` oracle says which); the
 * statements run against staged copies of the tables, and the copies replace
 * the warehouse only when the final commit succeeds, so a failed load leaves
 * the warehouse exactly as it was.
 */
module Load {
  import opened Results
  import opened Timestamps
  import opened Records
  import opened LoadSpec

  /** Row `row` runs through without an error: no statement raises and the asset key is found. */
  predicate RowClean(rec: TransformedRecord, row: nat, fault: Stmt -> bool) {
    && !fault(InsertAsset(row))
    && !fault(InsertDate(row))
    && !fault(SelectAssetKey(row))
    && rec.assetId.Some?
    && !fault(InsertFact(row))
  }

  /**
   * The error record `row` raises, if any, in the order its statements run:
   * asset insert, date insert, key lookup (a null `asset_id` finds no row),
   * fact insert.
   */
  function RowFailure(rec: TransformedRecord, row: nat, fault: Stmt -> bool): (e: Option<LoadError>)
    ensures e.None? <==> RowClean(rec, row, fault)
    ensures e.Some? && e.value.DatabaseError? ==>
              && fault(e.value.at)
              && e.value.at in {InsertAsset(row), InsertDate(row), SelectAssetKey(row), InsertFact(row)}
    ensures e.Some? && e.value.MissingAssetKey? ==> e.value.row == row && rec.assetId.None?
  {
    if fault(InsertAsset(row)) then Some(DatabaseError(InsertAsset(row)))
    else if fault(InsertDate(row)) then Some(DatabaseError(InsertDate(row)))
    else if fault(SelectAssetKey(row)) then Some(DatabaseError(SelectAssetKey(row)))
    else if rec.assetId.None? then Some(MissingAssetKey(row))
    else if fault(InsertFact(row)) then Some(DatabaseError(InsertFact(row)))
    else None
  }

  /** The first error among the rows of `batch`, in input order. */
  function RowsFailure(batch: seq<TransformedRecord>, fault: Stmt -> bool): (e: Option<LoadError>)
    ensures e.None? <==> forall i | 0 <= i < |batch| :: RowClean(batch[i], i, fault)
    ensures e.Some? ==> exists i | 0 <= i < |batch| :: e == RowFailure(batch[i], i, fault)
  {
    if batch == [] then None
    else
      var init, last := batch[..|batch| - 1], batch[|batch| - 1];
      assert forall i | 0 <= i < |init| :: init[i] == batch[i];
      match RowsFailure(init, fault)
      case Some(e) => Some(e)
      case None => RowFailure(last, |batch| - 1, fault)
  }

  /** The error a whole load raises, if any: a row, then the metadata insert, then the commit. */
  function BatchFailure(batch: seq<TransformedRecord>, fault: Stmt -> bool): (e: Option<LoadError>)
    ensures e.None? <==> && (forall i | 0 <= i < |batch| :: RowClean(batch[i], i, fault))
                         && !fault(InsertMeta) && !fault(Commit)
  {
    match RowsFailure(batch, fault)
    case Some(e) => Some(e)
    case None =>
      if fault(InsertMeta) then Some(DatabaseError(InsertMeta))
      else if fault(Commit) then Some(DatabaseError(Commit))
      else None
  }

  /** Whatever the faults, a load error is either a statement that raised or a record without an asset. */
  lemma BatchFailureExplained(batch: seq<TransformedRecord>, fault: Stmt -> bool)
    requires BatchFailure(batch, fault).Some?
    ensures var e := BatchFailure(batch, fault).value;
            && (e.DatabaseError? ==> fault(e.at))
            && (e.MissingAssetKey? ==> e.row < |batch| && batch[e.row].assetId.None?)
  {
    var e := BatchFailure(batch, fault).value;
    if RowsFailure(batch, fault).Some? {
      var i :| 0 <= i < |batch| && RowsFailure(batch, fault) == RowFailure(batch[i], i, fault);
    }
  }

  /** A load that raises nothing is one the fault-free specification accepts. */
  lemma CleanBatchLoads(t: Tables, batch: seq<TransformedRecord>, fault: Stmt -> bool)
    requires BatchFailure(batch, fault).None?
    ensures LoadBatch(t, batch).Success?
  {
    assert forall i | 0 <= i < |batch| :: RowClean(batch[i], i, fault);
  }

  /** Without database faults a load fails exactly when the specification rejects the batch. */
  lemma FaultFreeLoad(t: Tables, batch: seq<TransformedRecord>)
    ensures BatchFailure(batch, _ => false).None? <==> LoadBatch(t, batch).Success?
  {
    var never: Stmt -> bool := _ => false;
    if LoadBatch(t, batch).Success? {
      assert forall i | 0 <= i < |batch| :: RowClean(batch[i], i, never);
    }
  }

  /**
   * The first error of the rows stays the first error of every longer batch.
   */
  lemma {:induction false} RowsFailureExtends(batch: seq<TransformedRecord>, n: nat, fault: Stmt -> bool)
    requires n <= |batch| && RowsFailure(batch[..n], fault).Some?
    ensures RowsFailure(batch, fault) == RowsFailure(batch[..n], fault)
    decreases |batch| - n
  {
    if n < |batch| {
      var m := |batch| - 1;
      assert batch[..m][..n] == batch[..n];
      RowsFailureExtends(batch[..m], n, fault);
      assert batch[..m] == batch[..|batch| - 1];
    } else {
      assert batch[..n] == batch;
    }
  }

  /** The rows up to `i + 1` are the rows up to `i`, then row `i`. */
  lemma RowsStep(t: Tables, batch: seq<TransformedRecord>, i: nat, fault: Stmt -> bool)
    requires i < |batch|
    ensures LoadRows(t, batch[..i + 1]) ==
              match LoadRows(t, batch[..i])
              case Failure(e) => Failure(e)
              case Success(t1) => LoadRow(t1, batch[i], i)
    ensures RowsFailure(batch[..i + 1], fault) ==
              match RowsFailure(batch[..i], fault)
              case Some(e) => Some(e)
              case None => RowFailure(batch[i], i, fault)
  {
    assert batch[..i + 1][..i] == batch[..i];
  }

  /** When the rows before `i` run through, an error of row `i` is the first error of the batch. */
  lemma FirstErrorAt(batch: seq<TransformedRecord>, i: nat, fault: Stmt -> bool)
    requires i < |batch| && RowsFailure(batch[..i], fault).None?
    requires RowFailure(batch[i], i, fault).Some?
    ensures RowsFailure(batch, fault) == RowFailure(batch[i], i, fault)
  {
    RowsStep(Tables(map[], 0, map[], [], []), batch, i, fault);
    RowsFailureExtends(batch, i + 1, fault);
  }

  /** The asset insert adds one row to those not in `k0` exactly when its id is new. */
  lemma UpsertAssetCounts(k0: set<string>, t: Tables, id: string)
    requires k0 <= t.assets.Keys
    ensures k0 <= UpsertAsset(t, id).assets.Keys
    ensures |UpsertAsset(t, id).assets.Keys - k0| == |t.assets.Keys - k0| + (if id in t.assets then 0 else 1)
  {
    NewKeysStep(k0, t.assets.Keys, id);
  }

  /** The date insert adds one row to those not in `k0` exactly when its key is new. */
  lemma UpsertDateCounts(k0: set<int>, t: Tables, key: int, day: Date)
    requires k0 <= t.dates.Keys
    ensures k0 <= UpsertDate(t, key, day).dates.Keys
    ensures |UpsertDate(t, key, day).dates.Keys - k0| == |t.dates.Keys - k0| + (if key in t.dates then 0 else 1)
  {
    NewKeysStep(k0, t.dates.Keys, key);
  }

  /** The keys a union adds to `k0` are the added keys not already in `k0`. */
  lemma NewKeysOfUnion<K>(k0: set<K>, k: set<K>, added: set<K>)
    requires k == k0 + added
    ensures k - k0 == added - k0
  {
  }

  /**
   * The statements for record `row`, run against the staged tables: the
   * asset insert, the date insert, the key lookup and the fact insert. Says
   * whether the two inserts added a row.
   */
  method StageRow(staged: Tables, rec: TransformedRecord, row: nat, fault: Stmt -> bool)
    returns (r: Result<Tables, LoadError>, assetAdded: bool, dateAdded: bool)
    ensures r.Failure? <==> RowFailure(rec, row, fault).Some?
    ensures r.Failure? ==> r.error == RowFailure(rec, row, fault).value
    ensures r.Success? ==> r == LoadRow(staged, rec, row)
    ensures r.Success? ==> (assetAdded <==> rec.assetId.value !in staged.assets)
    ensures r.Success? ==> (dateAdded <==> rec.dateKey !in UpsertAsset(staged, rec.assetId.value).dates)
  {
    var t := staged;
    assetAdded, dateAdded := false, false;
    if fault(InsertAsset(row)) {
      return Failure(DatabaseError(InsertAsset(row))), false, false;
    }
    if rec.assetId.Some? {
      assetAdded := rec.assetId.value !in t.assets;
      t := UpsertAsset(t, rec.assetId.value);
    }
    if fault(InsertDate(row)) {
      return Failure(DatabaseError(InsertDate(row))), false, false;
    }
    dateAdded := rec.dateKey !in t.dates;
    t := UpsertDate(t, rec.dateKey, DateOf(rec.startTime));
    if fault(SelectAssetKey(row)) {
      return Failure(DatabaseError(SelectAssetKey(row))), false, false;
    }
    if rec.assetId.None? {
      return Failure(MissingAssetKey(row)), false, false;
    }
    var assetKey := t.assets[rec.assetId.value];
    if fault(InsertFact(row)) {
      return Failure(DatabaseError(InsertFact(row))), false, false;
    }
    r := Success(t.(facts := t.facts + [FactOf(rec, assetKey)]));
  }

  /** The row counts a load reports: records loaded, asset rows and date rows newly inserted. */
  datatype LoadStats = LoadStats(recordsLoaded: nat, assetsInserted: nat, datesInserted: nat)

  /**
   * How many records of `batch` insert an asset row: those whose asset id is
   * not yet in the table when their turn comes.
   */
  function NewAssetRows(t: Tables, batch: seq<TransformedRecord>): nat
    requires LoadRows(t, batch).Success?
  {
    if batch == [] then 0
    else
      var init, last := batch[..|batch| - 1], batch[|batch| - 1];
      NewAssetRows(t, init) + (if last.assetId.value in LoadRows(t, init).value.assets then 0 else 1)
  }

  /** How many records of `batch` insert a date row: those whose date key is new when their turn comes. */
  function NewDateRows(t: Tables, batch: seq<TransformedRecord>): nat
    requires LoadRows(t, batch).Success?
  {
    if batch == [] then 0
    else
      var init, last := batch[..|batch| - 1], batch[|batch| - 1];
      NewDateRows(t, init) + (if last.dateKey in UpsertAsset(LoadRows(t, init).value, last.assetId.value).dates then 0 else 1)
  }

  /** The counts after record `i` are the counts before it plus its own inserts. */
  lemma CountStep(t: Tables, batch: seq<TransformedRecord>, i: nat)
    requires i < |batch| && LoadRows(t, batch[..i + 1]).Success?
    ensures LoadRows(t, batch[..i]).Success?
    ensures var st := LoadRows(t, batch[..i]).value;
            && NewAssetRows(t, batch[..i + 1])
               == NewAssetRows(t, batch[..i]) + (if batch[i].assetId.value in st.assets then 0 else 1)
            && NewDateRows(t, batch[..i + 1])
               == NewDateRows(t, batch[..i])
                  + (if batch[i].dateKey in UpsertAsset(st, batch[i].assetId.value).dates then 0 else 1)
  {
    assert batch[..i + 1][..i] == batch[..i];
  }

  /** The counts are the asset ids and the date keys of the batch that were not in the tables before. */
  lemma {:induction false} NewRowsAreNewKeys(t: Tables, batch: seq<TransformedRecord>)
    requires LoadRows(t, batch).Success?
    ensures NewAssetRows(t, batch) == |AssetIds(batch) - t.assets.Keys|
    ensures NewDateRows(t, batch) == |DateKeys(batch) - t.dates.Keys|
  {
    var t' := LoadRows(t, batch).value;
    NewAssetRowsCountKeys(t, batch);
    NewDateRowsCountKeys(t, batch);
    LoadRowsAssets(t, batch);
    LoadRowsDates(t, batch);
    NewKeysOfUnion(t.assets.Keys, t'.assets.Keys, AssetIds(batch));
    NewKeysOfUnion(t.dates.Keys, t'.dates.Keys, DateKeys(batch));
  }

  lemma {:induction false} NewAssetRowsCountKeys(t: Tables, batch: seq<TransformedRecord>)
    requires LoadRows(t, batch).Success?
    ensures var t' := LoadRows(t, batch).value;
            t.assets.Keys <= t'.assets.Keys && NewAssetRows(t, batch) == |t'.assets.Keys - t.assets.Keys|
  {
    if batch != [] {
      var init, last := batch[..|batch| - 1], batch[|batch| - 1];
      LoadRowsUnfold(t, batch);
      NewAssetRowsCountKeys(t, init);
      UpsertAssetCounts(t.assets.Keys, LoadRows(t, init).value, last.assetId.value);
    }
  }

  lemma {:induction false} NewDateRowsCountKeys(t: Tables, batch: seq<TransformedRecord>)
    requires LoadRows(t, batch).Success?
    ensures var t' := LoadRows(t, batch).value;
            t.dates.Keys <= t'.dates.Keys && NewDateRows(t, batch) == |t'.dates.Keys - t.dates.Keys|
  {
    if batch != [] {
      var init, last := batch[..|batch| - 1], batch[|batch| - 1];
      LoadRowsUnfold(t, batch);
      NewDateRowsCountKeys(t, init);
      var t2 := UpsertAsset(LoadRows(t, init).value, last.assetId.value);
      UpsertDateCounts(t.dates.Keys, t2, last.dateKey, DateOf(last.startTime));
    }
  }

  /**
   * The loop over the records inside the transaction: runs each record's
   * statements against the staged tables `t0`, stopping at the first error,
   * and counts the records loaded and the dimension rows inserted.
   */
  method StageRows(t0: Tables, batch: seq<TransformedRecord>, fault: Stmt -> bool)
    returns (outcome: Result<Tables, LoadError>, stats: LoadStats)
    ensures outcome.Failure? <==> RowsFailure(batch, fault).Some?
    ensures outcome.Failure? ==> outcome.error == RowsFailure(batch, fault).value
    ensures outcome.Success? ==>
              && outcome == LoadRows(t0, batch)
              && stats.recordsLoaded == |batch|
              && stats.assetsInserted == |AssetIds(batch) - t0.assets.Keys|
              && stats.datesInserted == |DateKeys(batch) - t0.dates.Keys|
  {
    // The transaction's view of the tables; the warehouse itself changes only on commit.
    var staged := t0;
    var recordsLoaded, assetsInserted, datesInserted := 0, 0, 0;
    var i := 0;
    while i < |batch|
      invariant 0 <= i <= |batch|
      invariant RowsFailure(batch[..i], fault).None?
      invariant LoadRows(t0, batch[..i]) == Success(staged)
      invariant recordsLoaded == i
      invariant assetsInserted == NewAssetRows(t0, batch[..i])
      invariant datesInserted == NewDateRows(t0, batch[..i])
    {
      var row, assetAdded, dateAdded := StageRow(staged, batch[i], i, fault);
      if row.Failure? {
        assert RowsFailure(batch, fault) == Some(row.error) by {
          FirstErrorAt(batch, i, fault);
        }
        return Failure(row.error), LoadStats(recordsLoaded, assetsInserted, datesInserted);
      }
      assert RowsFailure(batch[..i + 1], fault).None? && LoadRows(t0, batch[..i + 1]) == row by {
        RowsStep(t0, batch, i, fault);
      }
      assert assetsInserted + (if assetAdded then 1 else 0) == NewAssetRows(t0, batch[..i + 1])
          && datesInserted + (if dateAdded then 1 else 0) == NewDateRows(t0, batch[..i + 1]) by {
        CountStep(t0, batch, i);
      }
      if assetAdded {
        assetsInserted := assetsInserted + 1;
      }
      if dateAdded {
        datesInserted := datesInserted + 1;
      }
      staged := row.value;
      recordsLoaded := recordsLoaded + 1;
      i := i + 1;
    }
    assert batch[..i] == batch;
    NewRowsAreNewKeys(t0, batch);
    outcome, stats := Success(staged), LoadStats(recordsLoaded, assetsInserted, datesInserted);
  }

  /** The warehouse: the asset, date, fact and run-metadata tables, updated in place by a load. */
  class Warehouse {
    var assets: map<string, int>
    var nextAssetKey: int
    var dates: map<int, Date>
    var facts: seq<Fact>
    var meta: seq<RunMeta>

    function Snapshot(): Tables
      reads this
    {
      Tables(assets, nextAssetKey, dates, facts, meta)
    }

    predicate Valid()
      reads this
    {
      Consistent(Snapshot())
    }

    /** An empty warehouse; the first surrogate asset key handed out is 1. */
    constructor()
      ensures Snapshot() == Tables(map[], 1, map[], [], [])
      ensures Valid()
    {
      assets, nextAssetKey, dates, facts, meta := map[], 1, map[], [], [];
    }

    /** The commit: the staged tables become the warehouse's tables. */
    method CommitStaged(staged: Tables)
      modifies this
      ensures Snapshot() == staged
    {
      assets, nextAssetKey, dates, facts, meta :=
        staged.assets, staged.nextAssetKey, staged.dates, staged.facts, staged.meta;
    }

    /**
     * Loads `batch` in one transaction and counts what it did. On success the
     * tables are those the specification gives for the batch, and the counts
     * are the batch size, the asset ids and the date keys that were new. On
     * failure the error is the first statement that raised or the first
     * record without an asset, and no table changes.
     */
    method LoadFailuresWithStats(batch: seq<TransformedRecord>, fault: Stmt -> bool)
      returns (outcome: Result<LoadStats, LoadError>)
      modifies this
      ensures outcome.Success? <==> BatchFailure(batch, fault).None?
      ensures outcome.Failure? ==> outcome.error == BatchFailure(batch, fault).value && unchanged(this)
      ensures outcome.Success? ==>
                && LoadBatch(old(Snapshot()), batch).Success?
                && Snapshot() == LoadBatch(old(Snapshot()), batch).value
                && outcome.value.recordsLoaded == |batch|
                && outcome.value.assetsInserted == |AssetIds(batch) - old(assets.Keys)|
                && outcome.value.datesInserted == |DateKeys(batch) - old(dates.Keys)|
      ensures old(Valid()) ==> Valid()
    {
      var t0 := Snapshot();
      var staged, stats := StageRows(t0, batch, fault);
      if staged.Failure? {
        return Failure(staged.error);
      }
      if fault(InsertMeta) {
        return Failure(DatabaseError(InsertMeta));
      }
      if fault(Commit) {
        return Failure(DatabaseError(Commit));
      }
      var committed := staged.value.(meta := staged.value.meta + [RunMeta(stats.recordsLoaded, SuccessStatus)]);
      assert LoadBatch(t0, batch) == Success(committed);
      CommitStaged(committed);
      if Consistent(t0) {
        LoadBatchConsistent(t0, batch);
      }
      outcome := Success(stats);
    }

    /**
     * Loads `batch` in one transaction and returns the number of records
     * loaded; the same load as `LoadFailuresWithStats` without its counts.
     */
    method LoadFailures(batch: seq<TransformedRecord>, fault: Stmt -> bool)
      returns (outcome: Result<nat, LoadError>)
      modifies this
      ensures outcome.Success? <==> BatchFailure(batch, fault).None?
      ensures outcome.Failure? ==> outcome.error == BatchFailure(batch, fault).value && unchanged(this)
      ensures outcome.Success? ==>
                && LoadBatch(old(Snapshot()), batch).Success?
                && Snapshot() == LoadBatch(old(Snapshot()), batch).value
                && outcome.value == |batch|
      ensures old(Valid()) ==> Valid()
    {
      var r := LoadFailuresWithStats(batch, fault);
      match r
      case Failure(e) => outcome := Failure(e);
      case Success(stats) => outcome := Success(stats.recordsLoaded);
    }
  }
}
