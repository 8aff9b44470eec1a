/**
 * The `run_etl` task of the daily DAG: skip when no staging file exists,
 * otherwise transform the extracted records, refuse the batch when either
 * quality count is above zero, and load it into the warehouse. Extraction
 * (reading the CSV) is outside the model: the staged file is given as its
 * rows, or as `None` when it does not exist.
 */
module EtlDag {
  import opened Results
  import opened Timestamps
  import opened Records
  import opened Transform
  import opened QualityChecks
  import opened LoadSpec
  import opened Load

  /** Why a run raises: the transform raised, a quality count was positive, or the load raised. */
  datatype EtlError =
    | TransformFailed(reason: TransformError)
    | NullAssetIds(count: nat)
    | NegativeOutages(count: nat)
    | LoadFailed(cause: LoadError)

  /** A run that returns: no staging file, or a batch of `records` rows loaded. */
  datatype RunOutcome = Skipped | Loaded(records: nat)

  /**
   * The work before the load: transform, then the null-asset gate, then the
   * negative-outage gate, each raising before the next runs.
   */
  function Prepare(raw: seq<RawRecord>, parse: string -> Option<Timestamp>): (r: Result<seq<TransformedRecord>, EtlError>)
    ensures r.Success? <==> && TransformFailures(raw, parse).Success?
                            && (forall i | 0 <= i < |TransformFailures(raw, parse).value| ::
                                  && TransformFailures(raw, parse).value[i].assetId.Some?
                                  && TransformFailures(raw, parse).value[i].outageMinutes >= 0.0)
    ensures r.Success? ==> TransformFailures(raw, parse) == Success(r.value)
    ensures r.Failure? && r.error.TransformFailed? ==> TransformFailures(raw, parse) == Failure(r.error.reason)
    ensures r.Failure? && r.error.NullAssetIds? ==>
              && TransformFailures(raw, parse).Success?
              && r.error.count == |NullAssetRows(TransformFailures(raw, parse).value)| > 0
    ensures r.Failure? && r.error.NegativeOutages? ==>
              && TransformFailures(raw, parse).Success?
              && NullAssetRows(TransformFailures(raw, parse).value) == {}
              && r.error.count == |NegativeOutageRows(TransformFailures(raw, parse).value)| > 0
    ensures r.Failure? ==> !r.error.LoadFailed?
  {
    match TransformFailures(raw, parse)
    case Failure(e) => Failure(TransformFailed(e))
    case Success(batch) =>
      CountNullAssetCountsRows(batch);
      CountNegativeOutageCountsRows(batch);
      if CountNullAsset(batch) > 0 then Failure(NullAssetIds(CountNullAsset(batch)))
      else if CountNegativeOutage(batch) > 0 then Failure(NegativeOutages(CountNegativeOutage(batch)))
      else Success(batch)
  }

  /** When a batch has both null asset ids and negative outages, the null-asset error is the one raised. */
  lemma NullAssetGateFirst(raw: seq<RawRecord>, parse: string -> Option<Timestamp>)
    requires TransformFailures(raw, parse).Success?
    requires var batch := TransformFailures(raw, parse).value;
             exists i, j | 0 <= i < |batch| && 0 <= j < |batch| ::
               batch[i].assetId.None? && batch[j].outageMinutes < 0.0
    ensures Prepare(raw, parse).Failure? && Prepare(raw, parse).error.NullAssetIds?
  {
    var batch := TransformFailures(raw, parse).value;
    var i, j :| 0 <= i < |batch| && 0 <= j < |batch| && batch[i].assetId.None? && batch[j].outageMinutes < 0.0;
    assert CountNullAsset(batch) > 0;
  }

  /**
   * A batch that passes the gate has every asset id and, record by record,
   * an end time that is not before the start time.
   */
  lemma AdmittedBatchIsChronological(raw: seq<RawRecord>, parse: string -> Option<Timestamp>)
    requires Prepare(raw, parse).Success?
    ensures var batch := Prepare(raw, parse).value;
            forall i | 0 <= i < |batch| :: batch[i].assetId.Some? && !Before(batch[i].endTime, batch[i].startTime)
  {
    var batch := Prepare(raw, parse).value;
    forall i | 0 <= i < |batch|
      ensures !Before(batch[i].endTime, batch[i].startTime)
    {
      assert DerivedFrom(batch[i], Dedup(raw)[i], parse);
    }
  }

  /**
   * An admitted batch keeps the warehouse sound: every fact points at an
   * existing asset row and date row, no fact has negative minutes, every
   * date row holds the day its key encodes, and the fact count grows by the
   * batch length. These are the invariants `verify_data` queries for.
   */
  lemma {:induction false} AdmittedBatchKeepsWarehouseSound(t: Tables, raw: seq<RawRecord>, parse: string -> Option<Timestamp>)
    requires Prepare(raw, parse).Success?
    requires Consistent(t) && NoNegativeFacts(t) && DatesMatchKeys(t)
    ensures LoadBatch(t, Prepare(raw, parse).value).Success?
    ensures var t' := LoadBatch(t, Prepare(raw, parse).value).value;
            && Consistent(t') && NoNegativeFacts(t') && DatesMatchKeys(t')
            && |t'.facts| == |t.facts| + |Prepare(raw, parse).value|
  {
    var batch := Prepare(raw, parse).value;
    forall i | 0 <= i < |batch|
      ensures batch[i].dateKey == DateKey(batch[i].startTime)
    {
      assert DerivedFrom(batch[i], Dedup(raw)[i], parse);
    }
    LoadBatchConsistent(t, batch);
    LoadBatchKeepsOutagesNonNegative(t, batch);
    LoadBatchKeepsDatesMatchingKeys(t, batch);
  }

  /**
   * `run_etl`: with no staging file nothing happens; otherwise the batch is
   * prepared and, when it passes the gate, loaded exactly once. A run that
   * raises before or during the load leaves the warehouse as it was.
   */
  method RunEtl(w: Warehouse, staged: Option<seq<RawRecord>>, parse: string -> Option<Timestamp>, fault: Stmt -> bool)
    returns (outcome: Result<RunOutcome, EtlError>)
    modifies w
    ensures staged.None? ==> outcome == Success(Skipped) && unchanged(w)
    ensures staged.Some? && Prepare(staged.value, parse).Failure? ==>
              outcome == Failure(Prepare(staged.value, parse).error) && unchanged(w)
    ensures staged.Some? && Prepare(staged.value, parse).Success? ==>
              var batch := Prepare(staged.value, parse).value;
              && (outcome.Success? <==> BatchFailure(batch, fault).None?)
              && (outcome.Failure? ==>
                    && outcome.error == LoadFailed(BatchFailure(batch, fault).value)
                    && outcome.error.cause.DatabaseError?
                    && unchanged(w))
              && (outcome.Success? ==>
                    && outcome.value == Loaded(|batch|)
                    && w.Snapshot() == LoadBatch(old(w.Snapshot()), batch).value)
    ensures old(w.Valid()) ==> w.Valid()
  {
    if staged.None? {
      return Success(Skipped);
    }
    var prepared := Prepare(staged.value, parse);
    if prepared.Failure? {
      return Failure(prepared.error);
    }
    var batch := prepared.value;
    var loaded := w.LoadFailures(batch, fault);
    if loaded.Failure? {
      BatchFailureExplained(batch, fault);
      return Failure(LoadFailed(loaded.error));
    }
    outcome := Success(Loaded(loaded.value));
  }
}
