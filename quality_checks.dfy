/**
 * The two whole-batch quality counts run between transform and load. Both
 * are read-only: they take the batch as a value and return a number.
 */
module QualityChecks {
  import opened Results
  import opened Records

  /** The number of records whose `asset_id` is missing. */
  function CountNullAsset(batch: seq<TransformedRecord>): (n: nat)
    ensures n <= |batch|
    ensures n == 0 <==> forall i | 0 <= i < |batch| :: batch[i].assetId.Some?
    ensures n == |batch| <==> forall i | 0 <= i < |batch| :: batch[i].assetId.None?
  {
    if batch == [] then 0
    else
      var init := batch[..|batch| - 1];
      CountNullAsset(init) + (if batch[|batch| - 1].assetId.None? then 1 else 0)
  }

  /** The number of records whose `outage_minutes` is strictly below zero. */
  function CountNegativeOutage(batch: seq<TransformedRecord>): (n: nat)
    ensures n <= |batch|
    ensures n == 0 <==> forall i | 0 <= i < |batch| :: batch[i].outageMinutes >= 0.0
    ensures n == |batch| <==> forall i | 0 <= i < |batch| :: batch[i].outageMinutes < 0.0
  {
    if batch == [] then 0
    else
      var init := batch[..|batch| - 1];
      CountNegativeOutage(init) + (if batch[|batch| - 1].outageMinutes < 0.0 then 1 else 0)
  }

  function NullAssetRows(batch: seq<TransformedRecord>): set<nat> {
    set i: nat | i < |batch| && batch[i].assetId.None?
  }

  function NegativeOutageRows(batch: seq<TransformedRecord>): set<nat> {
    set i: nat | i < |batch| && batch[i].outageMinutes < 0.0
  }

  /** The null-asset count is the number of rows that fail the check. */
  lemma {:induction false} CountNullAssetCountsRows(batch: seq<TransformedRecord>)
    ensures CountNullAsset(batch) == |NullAssetRows(batch)|
  {
    if batch != [] {
      var init := batch[..|batch| - 1];
      CountNullAssetCountsRows(init);
      NullAssetRowsStep(batch);
    }
  }

  /** The failing rows of a batch are those of all but its last record, plus the last if it fails. */
  lemma NullAssetRowsStep(batch: seq<TransformedRecord>)
    requires batch != []
    ensures var init, last := batch[..|batch| - 1], |batch| - 1;
            && last !in NullAssetRows(init)
            && NullAssetRows(batch) == NullAssetRows(init) + (if batch[last].assetId.None? then {last} else {})
  {
    var init := batch[..|batch| - 1];
    assert forall i | 0 <= i < |init| :: init[i] == batch[i];
  }

  /** The negative-outage count is the number of rows that fail the check. */
  lemma {:induction false} CountNegativeOutageCountsRows(batch: seq<TransformedRecord>)
    ensures CountNegativeOutage(batch) == |NegativeOutageRows(batch)|
  {
    if batch != [] {
      var init := batch[..|batch| - 1];
      CountNegativeOutageCountsRows(init);
      NegativeOutageRowsStep(batch);
    }
  }

  /** The failing rows of a batch are those of all but its last record, plus the last if it fails. */
  lemma NegativeOutageRowsStep(batch: seq<TransformedRecord>)
    requires batch != []
    ensures var init, last := batch[..|batch| - 1], |batch| - 1;
            && last !in NegativeOutageRows(init)
            && NegativeOutageRows(batch) == NegativeOutageRows(init) + (if batch[last].outageMinutes < 0.0 then {last} else {})
  {
    var init := batch[..|batch| - 1];
    assert forall i | 0 <= i < |init| :: init[i] == batch[i];
  }
}
