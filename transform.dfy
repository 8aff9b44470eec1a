/**
 * The transform stage: whole-record deduplication on the raw text, parsing of
 * the two time columns, and the two derived columns `outage_minutes` and
 * `date_key`. Parsing fails for the whole batch or for none of it.
 */
module Transform {
  import opened Results
  import opened Timestamps
  import opened Records

  /** The error the transform raises: a time cell that does not parse. */
  datatype TransformError = ParseError(text: string)

  predicate Distinct<T(==)>(s: seq<T>) {
    forall i, j | 0 <= i < j < |s| :: s[i] != s[j]
  }

  /**
   * Drops every record that equals an earlier one on all fields, keeping the
   * first occurrence and the input order.
   */
  function Dedup<T(==)>(s: seq<T>): (r: seq<T>)
    ensures |r| <= |s|
    ensures forall x | x in s :: x in r
    ensures forall x | x in r :: x in s
    ensures Distinct(r)
  {
    if s == [] then []
    else
      var init, last := s[..|s| - 1], s[|s| - 1];
      if last in init then Dedup(init) else Dedup(init) + [last]
  }

  /** The position of the first occurrence of `x` in `s`. */
  function FirstIndex<T(==)>(s: seq<T>, x: T): (i: nat)
    requires x in s
    ensures i < |s| && s[i] == x && x !in s[..i]
  {
    if s[0] == x then 0
    else
      assert x in s[1..];
      var k := FirstIndex(s[1..], x);
      assert s[..k + 1] == [s[0]] + s[1..][..k];
      k + 1
  }

  lemma FirstIndexUnique<T>(s: seq<T>, x: T, i: nat)
    requires i < |s| && s[i] == x && x !in s[..i]
    ensures FirstIndex(s, x) == i
  {
  }

  lemma FirstIndexInPrefix<T>(a: seq<T>, b: seq<T>, x: T)
    requires x in a
    ensures FirstIndex(a + b, x) == FirstIndex(a, x)
  {
    var i := FirstIndex(a, x);
    assert (a + b)[..i] == a[..i];
    FirstIndexUnique(a + b, x, i);
  }

  /**
   * Deduplication keeps first occurrences in input order: the records it
   * keeps appear in the order of their first occurrence in the input, so the
   * output is a subsequence of the input taken at those first positions.
   */
  lemma {:induction false} DedupKeepsFirstOccurrences<T>(s: seq<T>)
    ensures forall i, j | 0 <= i < j < |Dedup(s)| ::
              FirstIndex(s, Dedup(s)[i]) < FirstIndex(s, Dedup(s)[j])
  {
    if s != [] {
      var init, last := s[..|s| - 1], s[|s| - 1];
      assert s == init + [last];
      DedupKeepsFirstOccurrences(init);
      var p := Dedup(init);
      forall k | 0 <= k < |p|
        ensures FirstIndex(s, p[k]) == FirstIndex(init, p[k])
      {
        assert p[k] in p;
        FirstIndexInPrefix(init, [last], p[k]);
      }
      if last !in init {
        assert s[..|s| - 1] == init;
        FirstIndexUnique(s, last, |s| - 1);
        forall i, j | 0 <= i < j < |Dedup(s)|
          ensures FirstIndex(s, Dedup(s)[i]) < FirstIndex(s, Dedup(s)[j])
        {
          if j == |p| {
            assert Dedup(s)[i] == p[i];
          }
        }
      }
    }
  }

  /** A batch with no repeated record passes through deduplication unchanged. */
  lemma {:induction false} DedupOfDistinct<T>(s: seq<T>)
    requires Distinct(s)
    ensures Dedup(s) == s
  {
    if s != [] {
      var init, last := s[..|s| - 1], s[|s| - 1];
      assert Distinct(init);
      DedupOfDistinct(init);
      assert init + [last] == s;
    }
  }

  /** Deduplication removes something exactly when some record repeats. */
  lemma {:induction false} DedupShrinksUnlessDistinct<T>(s: seq<T>)
    ensures |Dedup(s)| == |s| <==> Distinct(s)
  {
    if Distinct(s) {
      DedupOfDistinct(s);
    } else if s != [] {
      var init, last := s[..|s| - 1], s[|s| - 1];
      DedupShrinksUnlessDistinct(init);
      if last !in init {
        var i, j :| 0 <= i < j < |s| && s[i] == s[j];
        if j < |s| - 1 {
          assert init[i] == init[j];
        }
      }
    }
  }

  /** Deduplicating twice is the same as deduplicating once. */
  lemma DedupIdempotent<T>(s: seq<T>)
    ensures Dedup(Dedup(s)) == Dedup(s)
  {
    DedupOfDistinct(Dedup(s));
  }

  /**
   * The count the transform logs as duplicates removed; the warning is
   * emitted exactly when it is positive, that is when some record repeats.
   */
  function DuplicatesRemoved<T(==)>(s: seq<T>): (n: nat)
    ensures n + |Dedup(s)| == |s|
    ensures n > 0 <==> !Distinct(s)
  {
    DedupShrinksUnlessDistinct(s);
    |s| - |Dedup(s)|
  }

  /**
   * Parses one time column. The first cell that does not parse fails the
   * whole column; otherwise every cell is replaced by its parsed value.
   */
  function ParseColumn(col: seq<string>, parse: string -> Option<Timestamp>): (r: Result<seq<Timestamp>, TransformError>)
    ensures r.Success? <==> forall i | 0 <= i < |col| :: parse(col[i]).Some?
    ensures r.Success? ==> |r.value| == |col| && forall i | 0 <= i < |col| :: parse(col[i]) == Some(r.value[i])
    ensures r.Failure? ==> exists i | 0 <= i < |col| ::
              && r.error == ParseError(col[i])
              && parse(col[i]).None?
              && forall j | 0 <= j < i :: parse(col[j]).Some?
  {
    if col == [] then Success([])
    else match parse(col[0])
      case None => Failure(ParseError(col[0]))
      case Some(t) =>
        match ParseColumn(col[1..], parse)
        case Failure(e) =>
          assert forall i | 0 <= i < |col| - 1 :: col[1..][i] == col[i + 1];
          Failure(e)
        case Success(ts) => Success([t] + ts)
  }

  /** `outage_minutes`: the signed span from `start` to `end`, in minutes. */
  function OutageMinutes(start: Timestamp, end: Timestamp): (m: real)
    ensures m < 0.0 <==> Before(end, start)
    ensures m == 0.0 <==> start == end
    ensures m > 0.0 <==> Before(start, end)
    ensures m * 60.0 == (Seconds(end) - Seconds(start)) as real
  {
    SecondsOrder(start, end);
    SecondsOrder(end, start);
    (Seconds(end) - Seconds(start)) as real / 60.0
  }

  /**
   * How a transformed record relates to the raw record it came from: the
   * time columns are the parsed cells, the other raw columns are unchanged,
   * and the two added columns are derived from the parsed times.
   */
  predicate DerivedFrom(t: TransformedRecord, raw: RawRecord, parse: string -> Option<Timestamp>) {
    && parse(raw.startTime) == Some(t.startTime)
    && parse(raw.endTime) == Some(t.endTime)
    && t.assetId == raw.assetId
    && t.failureType == raw.failureType
    && t.resolved == raw.resolved
    && t.outageMinutes == OutageMinutes(t.startTime, t.endTime)
    && t.dateKey == DateKey(t.startTime)
  }

  function Starts(d: seq<RawRecord>): (col: seq<string>)
    ensures |col| == |d| && forall i | 0 <= i < |d| :: col[i] == d[i].startTime
  {
    seq(|d|, i requires 0 <= i < |d| => d[i].startTime)
  }

  function Ends(d: seq<RawRecord>): (col: seq<string>)
    ensures |col| == |d| && forall i | 0 <= i < |d| :: col[i] == d[i].endTime
  {
    seq(|d|, i requires 0 <= i < |d| => d[i].endTime)
  }

  predicate AllTimesParse(d: seq<RawRecord>, parse: string -> Option<Timestamp>) {
    forall i | 0 <= i < |d| :: parse(d[i].startTime).Some? && parse(d[i].endTime).Some?
  }

  function Derive(raw: RawRecord, start: Timestamp, end: Timestamp): TransformedRecord {
    TransformedRecord(raw.assetId, start, end, raw.failureType, raw.resolved,
                      OutageMinutes(start, end), DateKey(start))
  }

  /**
   * The transform stage: deduplicate on the raw text, parse the start column
   * and then the end column, and add the derived columns. An unparseable
   * cell raises for the whole batch: a failure carries no records.
   */
  function TransformFailures(raw: seq<RawRecord>, parse: string -> Option<Timestamp>): (r: Result<seq<TransformedRecord>, TransformError>)
    ensures r.Success? <==> AllTimesParse(Dedup(raw), parse)
    ensures r.Success? ==> |r.value| == |Dedup(raw)| <= |raw|
    ensures r.Success? ==> forall i | 0 <= i < |r.value| :: DerivedFrom(r.value[i], Dedup(raw)[i], parse)
    ensures r.Failure? ==> parse(r.error.text).None?
    ensures r.Failure? ==>
              if forall i | 0 <= i < |Dedup(raw)| :: parse(Dedup(raw)[i].startTime).Some?
              then exists i | 0 <= i < |Dedup(raw)| :: r.error.text == Dedup(raw)[i].endTime
              else exists i | 0 <= i < |Dedup(raw)| :: r.error.text == Dedup(raw)[i].startTime
  {
    var d := Dedup(raw);
    match ParseColumn(Starts(d), parse)
    case Failure(e) => Failure(e)
    case Success(starts) =>
      match ParseColumn(Ends(d), parse)
      case Failure(e) => Failure(e)
      case Success(ends) =>
        Success(seq(|d|, i requires 0 <= i < |d| => Derive(d[i], starts[i], ends[i])))
  }

  /** Two identical raw records reduce to one. */
  lemma IdenticalRecordsCollapse(r: RawRecord)
    ensures Dedup([r, r]) == [r]
  {
    assert [r, r][..1] == [r];
    assert [r][..0] == [];
  }

  /**
   * Deduplication compares the raw text, before parsing: two records that
   * differ only in how a time is spelled both survive, and when the
   * spellings parse to the same instant the transformed batch holds two
   * equal rows.
   */
  lemma DedupPrecedesParsing(a: RawRecord, b: RawRecord, parse: string -> Option<Timestamp>)
    requires a != b
    requires a.assetId == b.assetId && a.failureType == b.failureType && a.resolved == b.resolved
    requires parse(a.startTime).Some? && parse(a.startTime) == parse(b.startTime)
    requires parse(a.endTime).Some? && parse(a.endTime) == parse(b.endTime)
    ensures var r := TransformFailures([a, b], parse);
            r.Success? && |r.value| == 2 && r.value[0] == r.value[1]
  {
    var d := Dedup([a, b]);
    assert d == [a, b] by {
      assert [a][..0] == [];
      assert Dedup([a]) == [a];
      assert [a, b][..1] == [a] && b !in [a];
    }
    assert AllTimesParse(d, parse);
    var r := TransformFailures([a, b], parse);
    assert DerivedFrom(r.value[0], a, parse) && DerivedFrom(r.value[1], b, parse);
  }

  /** 10:00 to 10:45 on 17 February 2026 is 45 minutes on day key 20260217. */
  lemma DerivationExample()
    ensures OutageMinutes(DateTime(2026, 2, 17, 10, 0, 0), DateTime(2026, 2, 17, 10, 45, 0)) == 45.0
    ensures DateKey(DateTime(2026, 2, 17, 10, 0, 0)) == 20260217
  {
  }
}
