/**
 * Range planning (main.c:134-161): from `rec_num`, `timing` and the opened
 * file's `number_of_records`, the half-open index range [start, end) to visit.
 */
module Planner {
  import opened CInt

  /** The size of the timing test's window, and the least record count a full listing needs. */
  const TIMING_RECORDS: int := 100000

  datatype PlanResult =
    | Range(start: int, end: int)  // visit start, start + 1, ..., end - 1
    | ExclusiveOptions             // `-n` with a non-negative value and `-t`: usage error
    | NotEnoughData                // fewer than TIMING_RECORDS records, timing or not

  /**
   * The range to visit. A negative `rec_num` counts as "no record selected",
   * and the record-count check is made whether or not `timing` is set.
   */
  function Plan(recNum: int32, timing: bool, numberOfRecords: int32): (r: PlanResult)
    requires timing || recNum < INT32_MAX  // `rec_num + 1` must not overflow
    ensures r.ExclusiveOptions? <==> 0 <= recNum && timing
    ensures r.NotEnoughData? <==> recNum < 0 && numberOfRecords < TIMING_RECORDS
    ensures r.Range? ==> 0 <= r.start < r.end <= INT32_MAX
    ensures r.Range? ==> r.end - r.start == 1 || TIMING_RECORDS <= r.end - r.start
    ensures r.Range? && timing ==> r == Range(0, TIMING_RECORDS)
  {
    if recNum >= 0 then
      if timing then ExclusiveOptions else Range(recNum, recNum + 1)
    else
      var start := 0;
      var end := numberOfRecords;
      if end - start < TIMING_RECORDS then NotEnoughData
      else if timing then Range(start, start + TIMING_RECORDS)
      else Range(start, end)
  }

  /** `-n K` plans exactly [K, K + 1), never compared with the record count. */
  lemma SingleRecordIgnoresCount(recNum: int32, count1: int32, count2: int32)
    requires 0 <= recNum < INT32_MAX
    ensures Plan(recNum, false, count1) == Plan(recNum, false, count2) == Range(recNum, recNum + 1)
  {
  }

  /** Without `-n` or `-t`, a large enough file is listed whole. */
  lemma WholeFile(recNum: int32, numberOfRecords: int32)
    requires recNum < 0 && TIMING_RECORDS <= numberOfRecords
    ensures Plan(recNum, false, numberOfRecords) == Range(0, numberOfRecords)
  {
  }

  /** A negative `-n` together with `-t` is not a conflict: the timing window is planned. */
  lemma NegativeRecordNumberWithTiming(recNum: int32, numberOfRecords: int32)
    requires recNum < 0 && TIMING_RECORDS <= numberOfRecords
    ensures Plan(recNum, true, numberOfRecords) == Range(0, TIMING_RECORDS)
  {
  }

  /** Even a plain listing (no `-t`) of a file with fewer than TIMING_RECORDS records fails. */
  lemma SmallFileNeverListed(recNum: int32, timing: bool, numberOfRecords: int32)
    requires recNum < 0 && numberOfRecords < TIMING_RECORDS
    ensures Plan(recNum, timing, numberOfRecords) == NotEnoughData
  {
  }
}
