/**
  * The bounded, rotating log: records cut at a character boundary, one active
  * file with its write buffer, one previous file. Text is UTF-8 bytes.
  */
module BoundedLog {
  import opened Selection

  type Text = seq<Byte>

  const HARD_LOG_FILE_BYTES: nat := 16777216
  const MAX_RECORD_BYTES: nat := 16384

  /** " [truncated]". */
  const TRUNCATED: Text := [32, 91, 116, 114, 117, 110, 99, 97, 116, 101, 100, 93]
  const NEWLINE: Text := [10]

  function EffectiveLimit(configured: nat): (r: nat)
    ensures 1 <= r <= HARD_LOG_FILE_BYTES
    ensures configured > 0 ==> r <= configured
  {
    if configured == 0 then HARD_LOG_FILE_BYTES else MinNat(configured, HARD_LOG_FILE_BYTES)
  }

  // -------------------------------------------------------------------------
  // Records.

  /** Not inside a multi-byte character. */
  predicate Boundary(line: Text, at: nat)
    requires at <= |line|
  {
    at == 0 || at == |line| || !(128 <= line[at] < 192)
  }

  function MaximumBytes(limit: nat): nat
    requires limit > 0
  {
    MinNat(limit, MAX_RECORD_BYTES) - 1
  }

  function Marker(maximum: nat): Text { if maximum >= 12 then TRUNCATED else [] }

  function LastBoundary(line: Text, end: nat): (r: nat)
    requires end <= |line|
    ensures r <= end && Boundary(line, r)
  {
    if Boundary(line, end) then end else LastBoundary(line, end - 1)
  }

  function Bounded(line: Text, limit: nat): Text
    requires limit > 0
  {
    var maximum := MaximumBytes(limit);
    if |line| <= maximum then line
    else line[..LastBoundary(line, maximum - |Marker(maximum)|)] + Marker(maximum)
  }

  /** The marker is left out exactly when there is no room for it. */
  lemma MarkerFits(maximum: nat)
    ensures Marker(maximum) == if maximum < |TRUNCATED| then [] else TRUNCATED
  {}

  /** Inside a character are exactly the bytes 10xxxxxx (section 3 of RFC 3629). */
  lemma BoundaryMeans(line: Text, at: nat)
    requires 0 < at < |line|
    ensures Boundary(line, at) <==> line[at] / 64 != 2
  {}

  lemma {:induction false} NoLaterBoundary(line: Text, end: nat, later: nat)
    requires LastBoundary.requires(line, end) && LastBoundary(line, end) < later <= end
    ensures !Boundary(line, later)
    decreases end
  {
    if later < end {
      NoLaterBoundary(line, end - 1, later);
    }
  }

  /**
    * A record fits the limit with its line feed; it is the line, or the longest
    * whole-character prefix that leaves room for the marker, followed by it.
    */
  lemma BoundedIsLongest(line: Text, limit: nat)
    requires limit > 0
    ensures |Bounded(line, limit)| + 1 <= limit && |Bounded(line, limit)| < MAX_RECORD_BYTES
    ensures |line| <= MaximumBytes(limit) <==> Bounded(line, limit) == line
    ensures |line| <= MaximumBytes(limit) <==> |line| < limit && |line| < MAX_RECORD_BYTES
    ensures |line| > MaximumBytes(limit) ==>
              var marker := Marker(MaximumBytes(limit));
              exists end: nat ::
                && end <= |line| && Boundary(line, end) && Bounded(line, limit) == line[..end] + marker
                && forall later: nat :: end < later <= MaximumBytes(limit) - |marker| ==> !Boundary(line, later)
  {
    var maximum := MaximumBytes(limit);
    if |line| > maximum {
      var marker := Marker(maximum);
      var end := LastBoundary(line, maximum - |marker|);
      forall later: nat | end < later <= maximum - |marker| ensures !Boundary(line, later) {
        NoLaterBoundary(line, maximum - |marker|, later);
      }
      assert Bounded(line, limit) == line[..end] + marker;
    }
  }

  method BoundedRecord(line: Text, limit: nat) returns (record: Text)
    requires limit > 0
    ensures record == Bounded(line, limit)
  {
    var maximum := MaximumBytes(limit);
    if |line| <= maximum {
      return line;
    }
    var marker := Marker(maximum);
    var end := maximum - |marker|;
    while !Boundary(line, end)
      invariant 0 <= end <= maximum - |marker|
      invariant LastBoundary(line, end) == LastBoundary(line, maximum - |marker|)
      decreases end
    {
      end := end - 1;
    }
    record := line[..end] + marker;
  }

  // -------------------------------------------------------------------------
  // Files.

  function Flat(records: seq<Text>): Text {
    if records == [] then [] else Flat(records[..|records| - 1]) + records[|records| - 1] + NEWLINE
  }

  lemma FlatAppend(records: seq<Text>, record: Text)
    ensures Flat(records + [record]) == Flat(records) + record + NEWLINE
  {
    assert (records + [record])[..|records|] == records;
  }

  /** The position behind the first line feed, if there is one. */
  function AfterNewline(text: Text): (r: Option<nat>)
    ensures r.Some? ==> 0 < r.value <= |text| && text[r.value - 1] == 10 && 10 !in text[..r.value - 1]
    ensures r.None? ==> 10 !in text
  {
    if text == [] then None
    else if text[0] == 10 then Some(1)
    else match AfterNewline(text[1..]) case None => None case Some(k) => Some(k + 1)
  }

  /** An oversized file keeps a marker and the whole records of its tail. */
  function Compacted(file: Text, marker: Text, limit: nat): (r: Text)
    requires |file| > limit
    ensures |r| <= limit
  {
    var head := marker[..MinNat(limit, |marker|)];
    var tail := file[|file| - (limit - |head|)..];
    head + match AfterNewline(tail) case None => [] case Some(k) => tail[k..]
  }

  /** The kept tail starts right behind a line feed of the file, the first one that leaves it within the limit. */
  lemma KeptTailIsWhole(file: Text, marker: Text, limit: nat) returns (start: nat)
    requires |file| > limit
    ensures var head := marker[..MinNat(limit, |marker|)];
            && start <= |file| && Compacted(file, marker, limit) == head + file[start..]
            && (start == |file| || file[start - 1] == 10)
            && forall i :: |file| - (limit - |head|) <= i < start - 1 ==> file[i] != 10
  {
    var head := marker[..MinNat(limit, |marker|)];
    var from := |file| - (limit - |head|);
    var tail := file[from..];
    var after := AfterNewline(tail);
    if after.Some? {
      start := from + after.value;
      assert tail[after.value..] == file[start..];
      forall i | from <= i < start - 1 ensures file[i] != 10 {
        assert file[i] == tail[..after.value - 1][i - from];
      }
    } else {
      start := |file|;
      forall i | from <= i < |file| ensures file[i] != 10 { assert file[i] == tail[i - from]; }
      assert file[start..] == [];
    }
  }

  predicate EndsWith(text: Text, end: Text) { |end| <= |text| && text[|text| - |end|..] == end }

  class LogFile {
    var previous: Text
    var disk: Text
    var buffer: Text
    var bytesWritten: nat
    var bytesPending: nat
    const marker: Text
    /** Every record written; where the previous and the active file start in it; whether no file was compacted. */
    ghost var written: seq<Text>
    ghost var oldest: nat
    ghost var newest: nat
    ghost var intact: bool

    ghost predicate Valid()
      reads this
    {
      && oldest <= newest <= |written|
      && (intact ==> previous == Flat(written[oldest..newest]) && disk + buffer == Flat(written[newest..]))
    }

    predicate Within(limit: nat)
      reads this
    {
      |previous| <= limit && |disk| + |buffer| <= limit
    }

    constructor (marker: Text)
      ensures Valid() && intact && written == [] && previous == disk == buffer == []
    {
      this.marker := marker;
      previous, disk, buffer, bytesWritten, bytesPending := [], [], [], 0, 0;
      written, oldest, newest, intact := [], 0, 0, true;
    }

    method Flush()
      requires Valid()
      modifies this`disk, this`buffer, this`bytesPending
      ensures Valid() && disk == old(disk + buffer) && buffer == []
    {
      disk := disk + buffer;
      assert disk + [] == disk;
      buffer := [];
      bytesPending := 0;
    }

    /** The active file becomes the previous one, replacing it. */
    method Rotate()
      requires Valid()
      modifies this`previous, this`disk, this`buffer, this`bytesWritten, this`bytesPending, this`oldest, this`newest
      ensures Valid() && previous == old(disk + buffer) && disk == buffer == [] && bytesWritten == 0
      ensures oldest == old(newest) && newest == |written|
    {
      Flush();
      previous := disk;
      oldest := newest;
      newest := |written|;
      assert written[oldest..newest] == written[oldest..] && written[newest..] == [];
      disk, buffer, bytesWritten, bytesPending := [], [], 0, 0;
      assert disk + buffer == [];
    }

    /** Both files are cut to the limit before anything is written. */
    method Compact(limit: nat)
      requires Valid()
      modifies this`previous, this`disk, this`buffer, this`bytesWritten, this`bytesPending, this`intact
      ensures Valid() && Within(limit) && bytesWritten == |disk| + |buffer|
      ensures old(|disk| + |buffer|) > limit ==> disk == Compacted(old(disk + buffer), marker, limit) && buffer == []
      ensures old(|disk| + |buffer|) <= limit ==> disk == old(disk) && buffer == old(buffer)
      ensures previous == if old(|previous|) > limit then Compacted(old(previous), marker, limit) else old(previous)
      ensures old(Within(limit)) ==> intact == old(intact)
    {
      bytesWritten := |disk| + |buffer|;
      if bytesWritten > limit {
        Flush();
        disk := Compacted(disk, marker, limit);
        bytesWritten := |disk|;
        intact := false;
      }
      if |previous| > limit {
        previous := Compacted(previous, marker, limit);
        intact := false;
      }
    }

    method AppendRecord(record: Text)
      requires Valid()
      modifies this`buffer, this`written
      ensures Valid() && written == old(written) + [record]
      ensures |disk + buffer| == old(|disk + buffer|) + |record| + 1
      ensures EndsWith(disk + buffer, record + NEWLINE)
    {
      FlatAppend(written[newest..], record);
      assert written[newest..] + [record] == (written + [record])[newest..];
      assert (written + [record])[oldest..newest] == written[oldest..newest];
      assert disk + (buffer + record + NEWLINE) == disk + buffer + record + NEWLINE;
      buffer := buffer + record + NEWLINE;
      written := written + [record];
    }

    /** While no file was compacted, the files together hold the latest records. */
    lemma ContentsAreLatest()
      requires Valid() && intact
      ensures previous + (disk + buffer) == Flat(written[oldest..])
    {
      FlatSplit(written, oldest, newest);
    }

    /** One line: both files stay within the limit, and the record is the last thing in them. */
    method WriteLine(line: Text, configured: nat, bufferSize: nat, aged: bool, timedOut: bool)
      requires Valid()
      modifies this
      ensures Valid() && Within(EffectiveLimit(configured))
      ensures written == old(written) + [Bounded(line, EffectiveLimit(configured))]
      ensures newest < |written|
      ensures EndsWith(disk + buffer, written[|written| - 1] + NEWLINE)
      ensures old(Within(EffectiveLimit(configured))) ==> intact == old(intact)
    {
      var limit := EffectiveLimit(configured);
      Compact(limit);
      var record := BoundedRecord(line, limit);
      BoundedIsLongest(line, limit);
      var pending := |record| + 1;
      if aged || bytesWritten + pending > limit {
        Rotate();
      }
      Put(record, bufferSize, timedOut);
    }

    /** A record goes into the buffer, which is flushed when it is full or old. */
    method Put(record: Text, bufferSize: nat, timedOut: bool)
      requires Valid()
      modifies this`disk, this`buffer, this`written, this`bytesWritten, this`bytesPending
      ensures Valid() && written == old(written) + [record]
      ensures |disk| + |buffer| == old(|disk| + |buffer|) + |record| + 1
      ensures EndsWith(disk + buffer, record + NEWLINE)
    {
      AppendRecord(record);
      bytesWritten := bytesWritten + |record| + 1;
      bytesPending := bytesPending + |record| + 1;
      if bufferSize == 0 || bytesPending >= bufferSize || timedOut {
        Flush();
        assert disk + buffer == disk;
      }
    }
  }

  /** How one write was configured and timed. */
  datatype Call = Call(line: Text, bufferSize: nat, aged: bool, timedOut: bool)

  /** The bounded record stream of a sequence of writes. */
  function Records(calls: seq<Call>, limit: nat): seq<Text>
    requires limit > 0
  {
    seq(|calls|, i requires 0 <= i < |calls| => Bounded(calls[i].line, limit))
  }

  /**
    * From an empty start and under one limit, any sequence of writes leaves the
    * previous file, the active file and its buffer as a contiguous run of the
    * latest records, ending with the last one, and each file within the limit.
    */
  method WriteAll(log: LogFile, calls: seq<Call>, configured: nat)
    requires log.Valid() && log.intact && log.written == [] && log.Within(EffectiveLimit(configured))
    modifies log
    ensures log.Valid() && log.intact && log.Within(EffectiveLimit(configured))
    ensures log.written == Records(calls, EffectiveLimit(configured))
    ensures log.previous + (log.disk + log.buffer) == Flat(log.written[log.oldest..])
    ensures calls != [] ==> log.newest < |log.written|
  {
    ghost var limit := EffectiveLimit(configured);
    for i := 0 to |calls|
      invariant log.Valid() && log.intact && log.Within(limit)
      invariant log.written == Records(calls[..i], limit)
      invariant i > 0 ==> log.newest < |log.written|
    {
      RecordsAppend(calls, i, limit);
      log.WriteLine(calls[i].line, configured, calls[i].bufferSize, calls[i].aged, calls[i].timedOut);
    }
    assert calls[..|calls|] == calls;
    log.ContentsAreLatest();
  }

  lemma RecordsAppend(calls: seq<Call>, i: nat, limit: nat)
    requires limit > 0 && i < |calls|
    ensures Records(calls[..i + 1], limit) == Records(calls[..i], limit) + [Bounded(calls[i].line, limit)]
  {}

  lemma Regroup(a: Text, b: Text, c: Text)
    ensures a + b + c + NEWLINE == a + (b + c + NEWLINE)
  {}

  lemma {:induction false} FlatSplit(records: seq<Text>, i: nat, j: nat)
    requires i <= j <= |records|
    ensures Flat(records[i..]) == Flat(records[i..j]) + Flat(records[j..])
    decreases |records|
  {
    if j < |records| {
      var init, last := records[..|records| - 1], records[|records| - 1];
      FlatSplit(init, i, j);
      assert records[i..] == init[i..] + [last] && records[j..] == init[j..] + [last] && records[i..j] == init[i..j];
      FlatAppend(init[i..], last);
      FlatAppend(init[j..], last);
      Regroup(Flat(init[i..j]), Flat(init[j..]), last);
    } else {
      assert records[i..j] == records[i..] && records[j..] == [];
    }
  }
}
