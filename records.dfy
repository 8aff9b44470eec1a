/** The two row shapes that flow through the pipeline. */
module Records {
  import opened Results
  import opened Timestamps

  /**
   * One row of the staged failures file, as the reader produces it: the
   * timestamps are still the file's text and `asset_id` may be a null cell.
   */
  datatype RawRecord = RawRecord(
    assetId: Option<string>,
    startTime: string,
    endTime: string,
    failureType: string,
    resolved: bool)

  /**
   * A row after the transform: both time columns replaced by parsed
   * timestamps and two derived columns added.
   */
  datatype TransformedRecord = TransformedRecord(
    assetId: Option<string>,
    startTime: Timestamp,
    endTime: Timestamp,
    failureType: string,
    resolved: bool,
    outageMinutes: real,
    dateKey: int)
}
