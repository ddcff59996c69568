/** The write-ahead log file: records framed as [magic:4][timestamp:8][size:4][payload][checksum:4], big-endian.

    The checksum is any function of the framed bytes. What matters is that writer and reader use the same one.
 */
module Wal {
  import opened Bytes
  import opened RaftLog

  /** 0xCAFEBABE, big-endian. */
  const MAGIC: Bytes := [0xCA, 0xFE, 0xBA, 0xBE]
  const HEADER_SIZE: nat := 16
  const CHECKSUM_SIZE: nat := 4

  type Crc = Bytes -> u32

  datatype Record = Record(ts: u64, data: Bytes)

  datatype WalError = Truncated | Corrupted | ChecksumMismatch

  /** `AtEnd` is the end of the file, which is not an error. */
  datatype Outcome = AtEnd | Failed(error: WalError) | Got(record: Record, size: nat)

  function Header(ts: u64, length: nat): (h: Bytes)
    ensures |h| == HEADER_SIZE
  {
    MAGIC + Be(8, ts) + Be(4, length % 0x1_0000_0000)
  }

  function Frame(r: Record, crc: Crc): (b: Bytes)
    ensures |b| == HEADER_SIZE + |r.data| + CHECKSUM_SIZE
  {
    var framed := Header(r.ts, |r.data|) + r.data;
    framed + Be(4, crc(framed))
  }

  /** The record at the start of `rest`. A file that ends just before the payload or just before the checksum
      reads as ended, not as truncated. */
  function ReadRecord(rest: Bytes, crc: Crc): Outcome {
    if |rest| == 0 then AtEnd
    else if |rest| < HEADER_SIZE then Failed(Truncated)
    else if rest[..4] != MAGIC then Failed(Corrupted)
    else
      var size := Be32(rest[12..16]);
      var stop := HEADER_SIZE + size;
      if size > 0 && |rest| == HEADER_SIZE then AtEnd
      else if |rest| < stop then Failed(Truncated)
      else if |rest| == stop then AtEnd
      else if |rest| < stop + CHECKSUM_SIZE then Failed(Truncated)
      else if Be32(rest[stop..stop + CHECKSUM_SIZE]) != crc(rest[..stop]) then Failed(ChecksumMismatch)
      else Got(Record(Be64(rest[4..12]), rest[HEADER_SIZE..stop]), stop + CHECKSUM_SIZE)
  }

  /** Random access: here a record cut short anywhere is truncated. */
  function ReadRecordAt(file: Bytes, offset: nat, crc: Crc): Outcome {
    if offset >= |file| then AtEnd
    else
      var o := ReadRecord(file[offset..], crc);
      if o.AtEnd? then Failed(Truncated) else o
  }

  function Frames(rs: seq<Record>, crc: Crc): Bytes {
    if |rs| == 0 then [] else Frame(rs[0], crc) + Frames(rs[1..], crc)
  }

  datatype Scanned = Scanned(records: seq<Record>, error: Option<WalError>)

  /** Everything a reader yields from here on, and its error in the end. */
  function ScanAll(rest: Bytes, crc: Crc): Scanned
    decreases |rest|
  {
    match ReadRecord(rest, crc)
    case AtEnd => Scanned([], None)
    case Failed(e) => Scanned([], Some(e))
    case Got(r, size) => var s := ScanAll(rest[size..], crc); Scanned([r] + s.records, s.error)
  }

  /** How many of the records lie entirely within the first `n` bytes. */
  function Fitting(rs: seq<Record>, n: int, crc: Crc): (k: nat)
    ensures k <= |rs|
  {
    if |rs| == 0 || n < |Frame(rs[0], crc)| then 0 else 1 + Fitting(rs[1..], n - |Frame(rs[0], crc)|, crc)
  }

  predicate Sized(r: Record) { |r.data| < 0x1_0000_0000 }

  predicate AllSized(rs: seq<Record>) { forall i :: 0 <= i < |rs| ==> Sized(rs[i]) }

  // ---- One record ----

  lemma Fields(m: Bytes, t: Bytes, n: Bytes, tail: Bytes)
    requires |m| == 4 && |t| == 8 && |n| == 4
    ensures var b := m + t + n + tail; b[..4] == m && b[4..12] == t && b[12..16] == n
  {}

  lemma HeaderBack(r: Record, tail: Bytes)
    requires Sized(r)
    ensures var b := Header(r.ts, |r.data|) + tail;
            b[..4] == MAGIC && Be64(b[4..12]) == r.ts && Be32(b[12..16]) == |r.data|
  {
    var t, n := Be(8, r.ts), Be(4, |r.data|);
    assert Be64(t) == r.ts by { Be64Round(r.ts); }
    assert Be32(n) == |r.data| by { Be32Round(|r.data|); }
    Fields(MAGIC, t, n, tail);
  }

  lemma FrameRead(r: Record, tail: Bytes, crc: Crc)
    requires Sized(r)
    ensures ReadRecord(Frame(r, crc) + tail, crc) == Got(r, |Frame(r, crc)|)
    ensures (Frame(r, crc) + tail)[|Frame(r, crc)|..] == tail
  {
    var h := Header(r.ts, |r.data|);
    var sum := crc(h + r.data);
    var b := Frame(r, crc) + tail;
    assert b == h + (r.data + Be(4, sum) + tail);
    HeaderBack(r, r.data + Be(4, sum) + tail);
    var stop := HEADER_SIZE + |r.data|;
    assert b[..stop] == h + r.data && b[HEADER_SIZE..stop] == r.data && b[stop..stop + 4] == Be(4, sum);
    Be32Round(sum);
  }

  /** What a successful read has seen: the magic, the announced size, and the right checksum. */
  lemma ReadParts(b: Bytes, r: Record, n: nat, crc: Crc)
    requires ReadRecord(b, crc) == Got(r, n)
    ensures var stop := HEADER_SIZE + |r.data|;
            && Sized(r) && n == stop + CHECKSUM_SIZE <= |b| && b[..4] == MAGIC && Be64(b[4..12]) == r.ts
            && Be32(b[12..16]) == |r.data| && b[HEADER_SIZE..stop] == r.data && Be32(b[stop..n]) == crc(b[..stop])
  {}

  lemma HeaderOf(b: Bytes, r: Record)
    requires |b| >= HEADER_SIZE && b[..4] == MAGIC && Be64(b[4..12]) == r.ts && Be32(b[12..16]) == |r.data|
    ensures b[..HEADER_SIZE] == Header(r.ts, |r.data|)
  {
    BeBack(b[4..12]);
    BeBack(b[12..16]);
    assert b[..HEADER_SIZE] == b[..4] + b[4..12] + b[12..16];
  }

  /** A reader takes a record exactly where its whole frame lies, checksum included, whatever follows. */
  lemma ReadExactly(b: Bytes, r: Record, n: nat, crc: Crc)
    ensures ReadRecord(b, crc) == Got(r, n) <==>
              Sized(r) && n == |Frame(r, crc)| <= |b| && b[..n] == Frame(r, crc)
  {
    if ReadRecord(b, crc) == Got(r, n) {
      var stop := HEADER_SIZE + |r.data|;
      ReadParts(b, r, n, crc);
      HeaderOf(b, r);
      BeBack(b[stop..n]);
      assert b[..stop] == b[..HEADER_SIZE] + b[HEADER_SIZE..stop];
      assert b[..n] == b[..stop] + b[stop..n];
    }
    if Sized(r) && n == |Frame(r, crc)| <= |b| && b[..n] == Frame(r, crc) {
      FrameRead(r, b[n..], crc);
      assert b == b[..n] + b[n..];
    }
  }

  /** A whole record whose stored checksum is not that of its header and payload. */
  predicate Damaged(bad: Bytes, crc: Crc) {
    && |bad| >= HEADER_SIZE + CHECKSUM_SIZE && bad[..4] == MAGIC
    && |bad| == HEADER_SIZE + Be32(bad[12..16]) + CHECKSUM_SIZE
    && Be32(bad[|bad| - CHECKSUM_SIZE..]) != crc(bad[..|bad| - CHECKSUM_SIZE])
  }

  lemma DamagedRead(bad: Bytes, tail: Bytes, crc: Crc)
    requires Damaged(bad, crc)
    ensures ReadRecord(bad + tail, crc) == Failed(ChecksumMismatch)
  {
    var b, stop := bad + tail, |bad| - CHECKSUM_SIZE;
    assert b[..4] == bad[..4] && b[12..16] == bad[12..16] && b[..stop] == bad[..stop];
    assert b[stop..stop + CHECKSUM_SIZE] == bad[stop..];
  }

  /** Bytes that do not start with the magic are reported, once there are enough of them for a header. */
  lemma UnmarkedRead(b: Bytes, crc: Crc)
    requires |b| >= HEADER_SIZE
    ensures ReadRecord(b, crc) == Failed(Corrupted) <==> b[..4] != MAGIC
  {}

  /** A record cut short is never taken for a corrupted one: it reads as ended where the header or the payload stops,
      and as truncated anywhere else. */
  lemma FrameCut(r: Record, n: nat, crc: Crc)
    requires Sized(r) && n < |Frame(r, crc)|
    ensures ReadRecord(Frame(r, crc)[..n], crc) ==
              if n in {0, HEADER_SIZE, HEADER_SIZE + |r.data|} then AtEnd else Failed(Truncated)
  {
    var b := Frame(r, crc)[..n];
    if n >= HEADER_SIZE {
      var h := Header(r.ts, |r.data|);
      assert b == h + b[HEADER_SIZE..] by { assert Frame(r, crc)[..HEADER_SIZE] == h; }
      HeaderBack(r, b[HEADER_SIZE..]);
    }
  }

  /** Random access takes a record exactly where its whole frame lies in the file. */
  lemma ReadAtExactly(file: Bytes, offset: nat, r: Record, n: nat, crc: Crc)
    ensures ReadRecordAt(file, offset, crc) == Got(r, n) <==>
              && Sized(r) && n == |Frame(r, crc)| && offset + n <= |file|
              && file[offset..offset + n] == Frame(r, crc)
  {
    if offset < |file| {
      var rest := file[offset..];
      ReadExactly(rest, r, n, crc);
      if n <= |rest| { assert rest[..n] == file[offset..offset + n]; }
    }
  }

  /** Random access reports the end only beyond the file; anywhere in it, a record cut short is truncated. */
  lemma ReadAtEnd(file: Bytes, offset: nat, crc: Crc)
    ensures ReadRecordAt(file, offset, crc).AtEnd? <==> offset >= |file|
  {}

  lemma ReadAtCut(file: Bytes, r: Record, n: nat, crc: Crc)
    requires Sized(r) && 0 < n < |Frame(r, crc)|
    ensures ReadRecordAt(file + Frame(r, crc)[..n], |file|, crc) == Failed(Truncated)
  {
    FrameCut(r, n, crc);
    assert (file + Frame(r, crc)[..n])[|file|..] == Frame(r, crc)[..n];
  }

  lemma AppendedRead(file: Bytes, r: Record, crc: Crc)
    requires Sized(r)
    ensures ReadRecordAt(file + Frame(r, crc), |file|, crc) == Got(r, |Frame(r, crc)|)
  {
    ReadAtExactly(file + Frame(r, crc), |file|, r, |Frame(r, crc)|, crc);
  }

  // ---- Whole files ----

  lemma Assoc(a: Bytes, b: Bytes, c: Bytes)
    ensures (a + b) + c == a + (b + c)
  {}

  lemma {:induction false} FramesConcat(a: seq<Record>, b: seq<Record>, crc: Crc)
    ensures Frames(a + b, crc) == Frames(a, crc) + Frames(b, crc)
  {
    if |a| == 0 {
      assert a + b == b;
    } else {
      FramesConcat(a[1..], b, crc);
      assert (a + b)[1..] == a[1..] + b;
      Assoc(Frame(a[0], crc), Frames(a[1..], crc), Frames(b, crc));
    }
  }

  lemma {:induction false} ScanStep(f: Bytes, r: Record, rest: Bytes, crc: Crc)
    requires ReadRecord(f + rest, crc) == Got(r, |f|)
    ensures var s := ScanAll(rest, crc); ScanAll(f + rest, crc) == Scanned([r] + s.records, s.error)
  {
    assert (f + rest)[|f|..] == rest;
  }

  /** `after` follows the records of `rs`. */
  predicate ScansTo(b: Bytes, rs: seq<Record>, after: Scanned, crc: Crc) {
    ScanAll(b, crc) == Scanned(rs + after.records, after.error)
  }

  lemma ScanCons(r: Record, rs: seq<Record>, rest: Bytes, after: Scanned, crc: Crc)
    requires Sized(r) && ScansTo(rest, rs, after, crc)
    ensures ScansTo(Frame(r, crc) + rest, [r] + rs, after, crc)
  {
    FrameRead(r, rest, crc);
    ScanStep(Frame(r, crc), r, rest, crc);
    assert [r] + (rs + after.records) == [r] + rs + after.records;
  }

  /** A reader yields exactly the records written, then whatever follows them. */
  lemma {:induction false} ScanFrames(rs: seq<Record>, tail: Bytes, crc: Crc)
    requires AllSized(rs)
    ensures ScansTo(Frames(rs, crc) + tail, rs, ScanAll(tail, crc), crc)
    decreases |rs|
  {
    if |rs| == 0 {
      assert Frames(rs, crc) + tail == tail;
      assert rs + ScanAll(tail, crc).records == ScanAll(tail, crc).records;
    } else {
      ScanFrames(rs[1..], tail, crc);
      ScanCons(rs[0], rs[1..], Frames(rs[1..], crc) + tail, ScanAll(tail, crc), crc);
      Assoc(Frame(rs[0], crc), Frames(rs[1..], crc), tail);
      assert [rs[0]] + rs[1..] == rs;
    }
  }

  /** A reader that meets a damaged record yields exactly the records before it and reports the checksum, whatever
      follows. */
  lemma {:induction false} ScanDamaged(rs: seq<Record>, bad: Bytes, tail: Bytes, crc: Crc)
    requires AllSized(rs) && Damaged(bad, crc)
    ensures ScanAll(Frames(rs, crc) + (bad + tail), crc) == Scanned(rs, Some(ChecksumMismatch))
  {
    DamagedRead(bad, tail, crc);
    ScanFrames(rs, bad + tail, crc);
    assert rs + [] == rs;
  }

  /** A reader yields these records and at worst reports what follows them as truncated. */
  predicate CutsTo(b: Bytes, rs: seq<Record>, crc: Crc) {
    ScanAll(b, crc).records == rs && ScanAll(b, crc).error in {None, Some(Truncated)}
  }

  lemma CutCons(r: Record, rs: seq<Record>, rest: Bytes, crc: Crc)
    requires Sized(r) && CutsTo(rest, rs, crc)
    ensures CutsTo(Frame(r, crc) + rest, [r] + rs, crc)
  {
    FrameRead(r, rest, crc);
    ScanStep(Frame(r, crc), r, rest, crc);
  }

  lemma TakeCons(rs: seq<Record>, k: nat)
    requires k < |rs|
    ensures rs[..1 + k] == [rs[0]] + rs[1..][..k]
  {}

  lemma CutOne(r: Record, n: nat, crc: Crc)
    requires Sized(r) && n < |Frame(r, crc)|
    ensures CutsTo(Frame(r, crc)[..n], [], crc)
  {
    FrameCut(r, n, crc);
  }

  /** However a file is cut, a reader yields exactly the records that are still whole, and never an error other
      than truncation. */
  lemma {:induction false} ScanCut(rs: seq<Record>, n: nat, crc: Crc)
    requires AllSized(rs) && n <= |Frames(rs, crc)|
    ensures CutsTo(Frames(rs, crc)[..n], rs[..Fitting(rs, n, crc)], crc)
    decreases |rs|
  {
    if |rs| > 0 {
      var f, more := Frame(rs[0], crc), Frames(rs[1..], crc);
      if n < |f| {
        assert (f + more)[..n] == f[..n];
        CutOne(rs[0], n, crc);
      } else {
        var m := n - |f|;
        var k := Fitting(rs[1..], m, crc);
        ScanCut(rs[1..], m, crc);
        CutCons(rs[0], rs[1..][..k], more[..m], crc);
        assert (f + more)[..n] == f + more[..m];
        TakeCons(rs, k);
      }
    }
  }

  /** What `Fitting` counts. */
  lemma {:induction false} FittingMeans(rs: seq<Record>, n: nat, crc: Crc)
    ensures var k := Fitting(rs, n, crc);
            |Frames(rs[..k], crc)| <= n && (k < |rs| ==> n < |Frames(rs[..k + 1], crc)|)
    decreases |rs|
  {
    if |rs| > 0 && n >= |Frame(rs[0], crc)| {
      var m := n - |Frame(rs[0], crc)|;
      var k := Fitting(rs[1..], m, crc);
      FittingMeans(rs[1..], m, crc);
      assert rs[..k + 1][1..] == rs[1..][..k];
      if k < |rs[1..]| { assert rs[..k + 2][1..] == rs[1..][..k + 1]; }
    } else if |rs| > 0 {
      assert rs[..1][1..] == [];
    }
  }

  /** Up to three bytes of a header left by a torn write make the next record unreadable. */
  lemma TornHeader(torn: Bytes, r: Record, tail: Bytes, crc: Crc)
    requires 1 <= |torn| <= 3 && torn == MAGIC[..|torn|]
    ensures ReadRecord(torn + Frame(r, crc) + tail, crc) == Failed(Corrupted)
  {
    var b := torn + Frame(r, crc) + tail;
    assert b[|torn|] == Frame(r, crc)[0] == MAGIC[0];
    assert b[..4][|torn|] == b[|torn|];
  }

  /** Behind a whole header, a file shorter than the record it announces reads as ended or truncated, whatever the
      bytes are. */
  lemma {:induction false} Announced(r: Record, n: nat, more: Bytes, crc: Crc)
    requires Sized(r) && HEADER_SIZE <= n && n + |more| < |Frame(r, crc)|
    ensures var s := ScanAll(Frame(r, crc)[..n] + more, crc); s.records == [] && s.error in {None, Some(Truncated)}
  {
    var h, b := Header(r.ts, |r.data|), Frame(r, crc)[..n] + more;
    assert b == h + b[HEADER_SIZE..] by { assert Frame(r, crc)[..HEADER_SIZE] == h; }
    HeaderBack(r, b[HEADER_SIZE..]);
  }

  /** More bytes behind a record do not change how it reads. */
  lemma ReadsOn(a: Bytes, b: Bytes, offset: nat, r: Record, n: nat, crc: Crc)
    requires ReadRecordAt(a, offset, crc) == Got(r, n) && |a| <= |b| && b[..|a|] == a
    ensures ReadRecordAt(b, offset, crc) == Got(r, n)
  {
    var x, y := a[offset..], b[offset..];
    assert y[..|x|] == x;
    GotGrows(x, y, r, n, crc);
  }

  lemma GotGrows(x: Bytes, y: Bytes, r: Record, n: nat, crc: Crc)
    requires ReadRecord(x, crc) == Got(r, n) && |x| <= |y| && y[..|x|] == x
    ensures ReadRecord(y, crc) == Got(r, n)
  {
    var stop := n - CHECKSUM_SIZE;
    assert y[..4] == y[0..4] && x[..4] == x[0..4] && y[..stop] == y[0..stop] && x[..stop] == x[0..stop];
    SameSlice(x, y, 0, 4);
    SameSlice(x, y, 4, 12);
    SameSlice(x, y, 12, 16);
    SameSlice(x, y, 0, stop);
    SameSlice(x, y, HEADER_SIZE, stop);
    SameSlice(x, y, stop, n);
  }

  lemma SameSlice(x: Bytes, y: Bytes, i: nat, j: nat)
    requires i <= j <= |x| <= |y| && y[..|x|] == x
    ensures y[i..j] == x[i..j]
  {
    forall k | 0 <= k < j - i ensures y[i..j][k] == x[i..j][k] { assert y[i + k] == y[..|x|][i + k]; }
  }

  // ---- The reader ----

  class Reader {
    const crc: Crc
    var rest: Bytes
    var current: Record
    var lastError: Option<WalError>

    /** What is still to come. */
    function Pending(): Scanned
      reads this
    {
      if lastError.Some? then Scanned([], lastError) else ScanAll(rest, crc)
    }

    constructor (file: Bytes, crc: Crc)
      ensures Pending() == ScanAll(file, crc)
    {
      this.crc, rest, lastError := crc, file, None;
      current := Record(0, []);
    }

    /** Yields the next pending record; at the end, the error is the pending one. */
    method Scan() returns (ok: bool)
      modifies this
      ensures ok <==> old(Pending()).records != []
      ensures ok ==> Pending() == old(Pending()).(records := old(Pending()).records[1..])
      ensures ok ==> current == old(Pending()).records[0]
      ensures !ok ==> Pending() == old(Pending()) && lastError == old(Pending()).error
      ensures |rest| <= old(|rest|)
    {
      if lastError.Some? { return false; }
      match ReadRecord(rest, crc)
      case AtEnd =>
        rest := [];
        return false;
      case Failed(e) =>
        lastError := Some(e);
        return false;
      case Got(r, size) =>
        current, rest := r, rest[size..];
        return true;
    }
  }
}
