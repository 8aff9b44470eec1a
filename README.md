# InfraPulse failure ETL — transform, quality gate and load

InfraPulse runs a daily batch pipeline over service-failure records. The
pipeline has four stages:

- It reads a staged CSV of raw failure records.
- The transform deduplicates whole records and parses the `start_time` and
  `end_time` columns. It derives `outage_minutes` (end minus start, in
  minutes) and `date_key` (the start day as the integer `YYYYMMDD`).
- A quality gate refuses the whole batch when any record has a null
  `asset_id` or a negative `outage_minutes`.
- It loads the batch into a star-schema warehouse in a single transaction.
  For each record in input order, the loader:
  - upserts the asset into `dim_asset`, which hands out a surrogate `asset_key`;
  - upserts the day into `dim_date`;
  - looks up the asset's surrogate key;
  - appends a row to `fact_service_failure`.

  After the records it appends one `SUCCESS` row to `etl_metadata` and
  commits.

This project models that core in Dafny:

| file | module | what it holds |
|---|---|---|
| `results.dfy` | `Results` | `Option` and `Result` |
| `timestamps.dfy` | `Timestamps` | Civil date-times, seconds since year 1, chronological order, and the date key with its decoding |
| `records.dfy` | `Records` | Raw and transformed record shapes |
| `transform.dfy` | `Transform` | `transform_failures` (both copies): first-occurrence dedup, all-or-nothing column parsing, the derived columns |
| `quality_checks.dfy` | `QualityChecks` | The two quality counts |
| `load_spec.dfy` | `LoadSpec` | The warehouse tables as a value; what one record, the rows and a whole batch do to them; what a load preserves |
| `load.dfy` | `Load` | The transactional loader |
| `etl_dag.dfy` | `EtlDag` | The `run_etl` task: skip, transform, gate, load |

Details of the loader (`load.dfy`):

- Every statement the loader sends may raise. A `fault` oracle over the
  statements says which ones do.
- The row loop runs against staged tables. Their value replaces the
  `Warehouse` object's fields only when the commit succeeds.
- A failed load therefore leaves the warehouse unchanged.
- The `Warehouse` class holds the tables as fields that a load updates in
  place.

The two copies of the loader share one model:

- `etl/load.py` counts records, new assets and new dates. It is modelled by
  `Warehouse.LoadFailuresWithStats`.
- `airflow/load.py` counts only records. It is modelled by
  `Warehouse.LoadFailures`.
- Both run the same statements in the same order, so `LoadFailures` is
  `LoadFailuresWithStats` with the extra counts dropped.

Parameters stand in for what the model cannot see:

- Timestamp parsing (`pd.to_datetime`) is a function parameter
  `string -> Option<Timestamp>`.
- Database failures (connection loss, constraint violations) are the `fault`
  oracle.
- Whether the staging file exists is an `Option` of its rows.

## Model

| member | source | states |
|---|---|---|
| Timestamps.DateKey | etl/transform.py:31 | The date key of a valid timestamp lies between 10101 and 99991231 |
| Timestamps.DateKeyRoundTrip | airflow/transform.py:13 | Decoding the `%Y%m%d` key gives back the timestamp's calendar day (year, month, day) |
| Timestamps.DateKeyInjective | etl/transform.py:31 | Two timestamps have the same date key if and only if they fall on the same calendar day |
| Timestamps.DateKeyEightDigits | airflow/transform.py:13 | For four-digit years the key has exactly eight digits, the `YYYYMMDD` shape |
| Timestamps.SecondsOrder | etl/transform.py:22-24 | Seconds since year 1 measure order exactly: fewer seconds if and only if chronologically earlier; equal seconds if and only if equal timestamps |
| Transform.Dedup | etl/transform.py:11 | `drop_duplicates` on whole records: the output is no longer than the input, has no repeated record, and holds exactly the records of the input |
| Transform.DedupKeepsFirstOccurrences | airflow/transform.py:4 | The kept records appear in the order of their first occurrences in the input; with `Dedup`'s contract this is `keep='first'` in input order |
| Transform.DedupOfDistinct | airflow/transform.py:4 | A batch with no repeated record is unchanged |
| Transform.DedupShrinksUnlessDistinct | etl/transform.py:10-12 | Deduplication shortens the batch if and only if some record repeats |
| Transform.DedupIdempotent | airflow/transform.py:4 | Deduplicating twice equals deduplicating once |
| Transform.DuplicatesRemoved | etl/transform.py:10-14 | The logged `duplicates_removed` plus the remaining count is the input count; the warning fires if and only if some record repeats |
| Transform.ParseColumn | etl/transform.py:17-18 | A column parses if and only if every cell parses; then each value is its cell's parse; otherwise the error names the first unparseable cell |
| Transform.OutageMinutes | airflow/transform.py:9-11 | `outage_minutes` times 60 is the seconds from start to end; it is negative if and only if end is before start, zero if and only if they are equal, positive if and only if start is before end |
| Transform.TransformFailures | etl/transform.py:10-39 | The transform succeeds if and only if every time cell of the deduplicated batch parses. On success row i is derived from deduplicated row i: parsed times, copied columns, minutes and date key of those times. On failure the error is an unparseable start cell, or an end cell once every start cell parses; no rows survive |
| Transform.IdenticalRecordsCollapse | airflow/transform.py:4 | Two identical raw records reduce to one |
| Transform.DedupPrecedesParsing | airflow/transform.py:4-7 | Dedup compares raw text. Two records that spell the same instants differently both survive and become equal transformed rows |
| Transform.DerivationExample | airflow/transform.py:9-13 | 10:00 to 10:45 on 2026-02-17 gives 45.0 minutes and key 20260217 |
| QualityChecks.CountNullAsset | airflow/quality_checks.py:1-2 | The null-asset count is at most the batch size; it is zero if and only if every record has an `asset_id`; it equals the batch size if and only if none has one |
| QualityChecks.CountNegativeOutage | airflow/quality_checks.py:4-5 | The negative-outage count is at most the batch size; it is zero if and only if every `outage_minutes` is at least zero; it equals the batch size if and only if every one is negative |
| QualityChecks.CountNullAssetCountsRows | airflow/quality_checks.py:1-2 | The null-asset count equals the number of row positions with a null `asset_id` |
| QualityChecks.CountNegativeOutageCountsRows | airflow/quality_checks.py:4-5 | The negative-outage count equals the number of row positions with `outage_minutes < 0` |
| LoadSpec.TruncateTowardZero | etl/load.py:68 | `int()` of the minutes truncates toward zero: floor for non-negative values, ceiling for negative values; the result is non-negative if and only if the input is above -1 |
| LoadSpec.UpsertAsset | airflow/load.py:26-30 | `ON CONFLICT DO NOTHING` on `dim_asset`: the id becomes present and existing keys are kept. A known id changes nothing; a new id gets the next surrogate key and the counter advances. Other tables are untouched |
| LoadSpec.UpsertAssetConsistent | etl/load.py:36-40 | The asset upsert keeps surrogate keys distinct and below the counter, and orphans no fact |
| LoadSpec.UpsertDate | airflow/load.py:32-36 | `ON CONFLICT DO NOTHING` on `dim_date`: the key becomes present; existing rows are kept; a new key holds the given day. Other tables are untouched |
| LoadSpec.LoadRow | airflow/load.py:26-54 | One record loads if and only if it has an `asset_id`, else it fails with a missing asset key at its row. On success its asset and date exist and exactly one fact is appended, using the looked-up surrogate key |
| LoadSpec.LoadRows | airflow/load.py:24-56 | The row loop succeeds if and only if every record has an `asset_id`. Otherwise the error is the first such row. On success one fact is added per record and the metadata is untouched |
| LoadSpec.LoadBatch | airflow/load.py:24-61 | The batch loads if and only if every record has an `asset_id`; then exactly one `SUCCESS` metadata row with `records_loaded` equal to the batch size is appended |
| LoadSpec.LoadRowConsistent | airflow/load.py:38-54 | One loaded record keeps keys distinct and below the counter, and every fact references an existing asset and date |
| LoadSpec.LoadRowsConsistent | etl/load.py:34-72 | The row loop keeps the warehouse consistent |
| LoadSpec.LoadBatchConsistent | airflow/dags/infrapulse_etl_dag.py:78-86 | After any load there are no orphaned facts and surrogate keys are unique: the orphan check of `verify_data` always finds zero |
| LoadSpec.LoadRowsAssets | etl/load.py:36-40 | The asset rows after a load are the old ones plus exactly the batch's asset ids; existing keys are unchanged |
| LoadSpec.LoadRowsAssetKeys | etl/load.py:36-43 | The surrogate counter advances by exactly the number of asset rows the load added |
| LoadSpec.LoadRowsFreshKeys | etl/load.py:36-40 | Every asset row the load adds holds a key handed out during this load |
| LoadSpec.LoadRowsDates | etl/load.py:45-49 | The date rows after a load are the old ones plus exactly the batch's date keys; existing rows are unchanged |
| LoadSpec.LoadRowsFirstDate | etl/load.py:45-49 | A date row added by the load holds the calendar day of the first record in the batch with that key |
| LoadSpec.LoadRowsFacts | etl/load.py:54-72 | The facts are the old facts followed by one fact per record, in input order. Each carries its record's surrogate asset key, its date key and failure type, its truncated minutes, and its resolved flag |
| LoadSpec.LoadRowsKnownKeys | etl/load.py:36-52 | When every asset and date of the batch is already present, neither dimension nor the counter changes |
| LoadSpec.LoadRowsRepeat | etl/load.py:34-72 | Loading the rows again on top of their own result adds no dimension rows and appends the same facts a second time |
| LoadSpec.LoadBatchTwice | etl/load.py:34-84 | Loading the same batch twice: the second load adds no asset or date row and hands out no key. It appends duplicate facts and a second metadata row |
| LoadSpec.LoadBatchKeepsOutagesNonNegative | airflow/dags/infrapulse_etl_dag.py:71-76 | A batch with no negative minutes adds no negative fact |
| LoadSpec.LoadBatchKeepsDatesMatchingKeys | airflow/load.py:32-36 | When each record's date key is its start day's key, every date row holds the day its key encodes |
| Load.RowFailure | etl/load.py:36-70 | A record raises nothing if and only if none of its four statements raises and it has an `asset_id`. A database error names one of its own statements that raised; a missing key means a null `asset_id` |
| Load.RowsFailure | etl/load.py:34-72 | The loop raises nothing if and only if every record is clean; otherwise the error is some record's own error |
| Load.BatchFailure | etl/load.py:34-84 | The load raises nothing if and only if every record is clean and neither the metadata insert nor the commit raises |
| Load.BatchFailureExplained | etl/load.py:94-96 | A re-raised load error is a statement that raised, or a row with a null `asset_id` |
| Load.CleanBatchLoads | airflow/load.py:38-42 | A load that raises nothing is one the fault-free specification accepts |
| Load.FaultFreeLoad | airflow/load.py:24-63 | Without database faults, the load raises nothing if and only if the specification accepts the batch |
| Load.RowsFailureExtends | etl/load.py:34 | The first error of a prefix of the loop stays the first error of the whole loop |
| Load.StageRow | etl/load.py:36-70 | One record's statements on the staged tables. They fail exactly with the record's error; otherwise they give the specification's tables. The flags say whether the asset or the date was new, as `rowcount > 0` does |
| Load.StageRows | etl/load.py:28-72 | The loop fails exactly when some record errs, with the first error. On success it gives the specification's tables. `records_loaded` is the batch size; `assets_inserted` and `dates_inserted` count the batch's asset ids and date keys that were absent |
| Load.NewRowsAreNewKeys | etl/load.py:42-52 | The per-row `rowcount > 0` tallies equal the number of the batch's ids and keys not already in the tables |
| Load.NewAssetRowsCountKeys | etl/load.py:42-43 | The asset tally equals the number of asset rows the load added |
| Load.NewDateRowsCountKeys | etl/load.py:51-52 | The date tally equals the number of date rows the load added |
| Load.Warehouse.CommitStaged | etl/load.py:84 | After the commit the warehouse tables are the staged tables |
| Load.Warehouse.LoadFailuresWithStats | etl/load.py:5-96 | Succeeds if and only if no statement raises and every record has an asset. On success the tables are the specification's result and the three counts are as in `StageRows`. On failure the error is the first one raised and no table changes. Consistency is preserved |
| Load.Warehouse.LoadFailures | airflow/load.py:5-71 | The same load with only `records_loaded`: success if and only if nothing raises; the new tables are the specification's; the count is the batch size; a failure leaves the warehouse unchanged |
| EtlDag.Prepare | airflow/dags/infrapulse_etl_dag.py:32-39 | Transform, then the null gate, then the negative gate. It succeeds if and only if the transform succeeds and every row has an asset and non-negative minutes. Each error carries the transform's error or a positive count of the offending rows |
| EtlDag.NullAssetGateFirst | airflow/dags/infrapulse_etl_dag.py:35-39 | A batch with both a null asset and a negative outage is refused for the null asset |
| EtlDag.AdmittedBatchIsChronological | airflow/dags/infrapulse_etl_dag.py:38-39 | Every admitted record has an `asset_id` and ends no earlier than it starts |
| EtlDag.AdmittedBatchKeepsWarehouseSound | airflow/dags/infrapulse_etl_dag.py:64-86 | An admitted batch always loads under the specification. Afterwards there are no orphans, no negative minutes, and every date row matches its key; the fact count grows by the batch size |
| EtlDag.RunEtl | airflow/dags/infrapulse_etl_dag.py:19-41 | With no staging file the run skips without effect. A refused batch raises before any write. Otherwise the run succeeds if and only if the load raises nothing; the warehouse then becomes the specification's result and the run reports the batch size. A load failure leaves the warehouse unchanged |

## Left out

- Reading the staged CSV (`extract_failures`), the path from the environment and the file-existence test are not modelled. The model receives the file as an `Option` of its rows.
- Transform.ParseColumn: the parser is applied to one cell at a time. `pd.to_datetime` parses the whole column at once and, in pandas 2 and later, infers one format from the first cell. A column that mixes spellings can therefore raise even when every cell parses on its own; the model accepts such a column.
- EtlDag.AdmittedBatchKeepsWarehouseSound: a blank `end_time` becomes `NaT`, so its `outage_minutes` is NaN. `NaN < 0` is false, so the negative-outage gate admits the row, and `int(NaN)` then raises inside the loader. The run still fails with nothing written. The model has no NaN: every time cell either parses or fails the transform, so "an admitted batch always loads" holds only within the model.
- Timestamp parsing is a parameter. The formats `pd.to_datetime` accepts, time zones, `NaT` and sub-second precision are not modelled: timestamps are whole-second civil times in years 1 to 9999.
- `outage_minutes` is an exact rational number rather than a 64-bit float, so float rounding in `total_seconds() / 60` is not modelled.
- Missing cells other than `asset_id`, such as NaN in `failure_type` or `resolved`, are not modelled: those columns always hold a value.
- The log lines of the transform and the loader are not modelled. These include the min/max/average outage, the date range and the progress every 50 records. The final summary's counts are returned instead, see below.
- The warehouse schema (`warehouse/schema.sql`) is not part of this model. Two consequences:
  - Load.RowFailure: a record whose `asset_id` is missing (the NaN cell `isnull()` counts) makes the load fail at that record, and nothing is committed. Which statement raises for it, the asset insert or the key lookup, depends on the schema's column types. The model reports this failure as `MissingAssetKey` at the lookup, and the asset insert for such a record changes no table.
  - Other constraint violations the schema may raise are covered only through the `fault` oracle.
- LoadSpec.LoadRowsAssetKeys: surrogate keys are modelled as a counter that advances only when a row is added. A Postgres `SERIAL` sequence also advances on a conflicting insert and is not rolled back. Only the freshness and distinctness of the keys are claimed, not their exact values.
- `failure_id`, `run_id` and the metadata row's timestamp column are not modelled. Positions in the fact and metadata sequences stand for the ids.
- Connection setup from environment variables, cursor and connection closing, and the `log_error` calls before re-raising are not modelled.
- Load.Warehouse.LoadFailuresWithStats: both `load_failures` functions return `None`. The `etl/load.py` copy only logs its three counts in the final summary. The model returns the counts so that their values can be stated, and `Load.Warehouse.LoadFailures` returns `records_loaded`.
- EtlDag.RunEtl: the Python task returns `None`. The model returns `Skipped`, or `Loaded` with the record count, so that the outcome can be stated.
- Parts of `verify_data` are not modelled: its SQL, the `record_count == 0` check, the sample query and the metadata summary. Its null-`asset_key`, negative-outage and orphan checks appear as the invariants proved in `AdmittedBatchKeepsWarehouseSound`. In the model a fact's `asset_key` is an integer and never null.
- The DAG wiring is not modelled: the `ingest` and `archive` bash tasks, the schedule, retries and task ordering.
- Concurrent runs against the same warehouse are not modelled.
