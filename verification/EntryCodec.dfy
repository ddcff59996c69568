/** The payload of one log record, in the three layouts the decoder accepts.

    The layouts are told apart by a sentinel (v3) and by a length test (v2). The lemmas say exactly which
    entries each layout brings back.
 */
module EntryCodec {
  import opened Bytes
  import opened RaftLog

  const ENTRY_RECORD: byte := 1
  const TRUNCATE_RECORD: byte := 2
  const SENTINEL: Bytes := [0xFF, 0xC0]

  /** Index and term are 64-bit integers. */
  predicate Storable(e: Entry) { InRange(e.index) && InRange(e.term) }

  function Length32(data: Bytes): Bytes { Le(4, |data| % 0x1_0000_0000) }

  function Ends(e: Entry): Bytes {
    Le(8, Unsigned(e.index)) + Le(8, Unsigned(e.term))
  }

  /** No entry kind. */
  function V1(e: Entry): Bytes {
    Ends(e) + Length32(e.data) + e.data
  }

  /** With an entry kind. */
  function V2(e: Entry): Bytes {
    Ends(e) + [e.kind] + Length32(e.data) + e.data
  }

  /** With a sentinel; the layout in use. */
  function V3(e: Entry): Bytes {
    SENTINEL + V2(e)
  }

  datatype Decoded<+T> = Good(value: T) | Bad

  /** A v2 body that fills `data` exactly. */
  function DecodeExact(data: Bytes): Decoded<Entry> {
    if |data| < 21 || |data| != 21 + Le32(data[17..21]) then Bad
    else Good(Entry(Signed(Le64(data[0..8])), Signed(Le64(data[8..16])), data[16], data[21..]))
  }

  function DecodeV1(data: Bytes): Decoded<Entry> {
    if |data| < 20 || |data| < 20 + Le32(data[16..20]) then Bad
    else Good(Entry(Signed(Le64(data[0..8])), Signed(Le64(data[8..16])), COMMAND, data[20..20 + Le32(data[16..20])]))
  }

  function DecodeEntry(data: Bytes): Decoded<Entry> {
    if |data| >= 2 && data[..2] == SENTINEL then DecodeExact(data[2..])
    else if DecodeExact(data).Good? then DecodeExact(data)
    else DecodeV1(data)
  }

  function EncodeTruncate(fromIndex: int): Bytes {
    [TRUNCATE_RECORD] + Le(8, Unsigned(fromIndex))
  }

  function DecodeTruncate(data: Bytes): Decoded<int> {
    if |data| < 8 then Bad else Good(Signed(Le64(data[..8])))
  }

  function EncodeEntry(e: Entry): Bytes {
    [ENTRY_RECORD] + V3(e)
  }

  // ---- Reading the fields back ----

  /** The first two bytes are the sentinel exactly for these values. */
  lemma {:induction false} LowBytes(v: u64)
    ensures Le(8, v)[..2] == SENTINEL <==> v % 0x1_0000 == 0xC0FF
  {
    assert Le(8, v) == [v % 256] + Le(7, v / 256);
    assert Le(7, v / 256) == [v / 256 % 256] + Le(6, v / 256 / 256);
    assert Le(8, v)[..2] == [v % 256, v / 256 % 256];
    assert v % 0x1_0000 == v % 256 + 256 * (v / 256 % 256);
  }

  lemma SameLow(x: int)
    requires InRange(x)
    ensures Unsigned(x) % 0x1_0000 == x % 0x1_0000
  {
    SignedRound(x);
    assert 0x1_0000_0000_0000_0000 == 0x1_0000 * 0x1_0000_0000_0000;
  }

  lemma EndsBack(e: Entry)
    requires Storable(e)
    ensures |Ends(e)| == 16 && Signed(Le64(Ends(e)[0..8])) == e.index && Signed(Le64(Ends(e)[8..16])) == e.term
    ensures Ends(e)[..2] == SENTINEL <==> e.index % 0x1_0000 == 0xC0FF
  {
    var i, t := Le(8, Unsigned(e.index)), Le(8, Unsigned(e.term));
    assert (i + t)[0..8] == i && (i + t)[8..16] == t && (i + t)[..2] == i[..2];
    Le64Round(Unsigned(e.index));
    Le64Round(Unsigned(e.term));
    LowBytes(Unsigned(e.index));
    SameLow(e.index);
    SignedRound(e.index);
    SignedRound(e.term);
  }

  /** What the exact decoder reads from a v2 body whatever its first 16 bytes. */
  lemma ExactBody(ends: Bytes, kind: byte, data: Bytes)
    requires |ends| == 16
    ensures DecodeExact(ends + [kind] + Length32(data) + data) ==
              if |data| < 0x1_0000_0000
              then Good(Entry(Signed(Le64(ends[0..8])), Signed(Le64(ends[8..16])), kind, data)) else Bad
  {
    var d := ends + [kind] + Length32(data) + data;
    assert d[0..8] == ends[0..8] && d[8..16] == ends[8..16] && d[16] == kind;
    assert d[17..21] == Length32(data) && d[21..] == data;
    Le32Round(|data| % 0x1_0000_0000);
  }

  lemma V2Exact(e: Entry)
    requires Storable(e)
    ensures if |e.data| < 0x1_0000_0000 then DecodeExact(V2(e)) == Good(e) else DecodeExact(V2(e)) == Bad
  {
    EndsBack(e);
    ExactBody(Ends(e), e.kind, e.data);
  }

  /** A v3 record comes back exactly when its data is shorter than 2^32 bytes. */
  lemma V3Exactly(e: Entry)
    requires Storable(e)
    ensures DecodeEntry(V3(e)) == Good(e) <==> |e.data| < 0x1_0000_0000
  {
    V2Exact(e);
    assert V3(e)[..2] == SENTINEL && V3(e)[2..] == V2(e);
  }

  /** A v2 record comes back exactly when, besides, its index does not look like the sentinel. */
  lemma V2Exactly(e: Entry)
    requires Storable(e)
    ensures DecodeEntry(V2(e)) == Good(e) <==> (|e.data| < 0x1_0000_0000 && e.index % 0x1_0000 != 0xC0FF)
  {
    EndsBack(e);
    V2Exact(e);
    assert |V2(e)| == 21 + |e.data| && V2(e)[..2] == Ends(e)[..2];
  }

  /** The length test takes this v1 record for a v2 one. */
  predicate LooksLikeV2(data: Bytes) {
    |data| >= 1 && |data| % 0x1_0000_0000 / 256 + 0x100_0000 * (data[0] as int) == |data| - 1
  }

  lemma {:induction false} FourBytes(x: Bytes)
    requires |x| == 4
    ensures LeValue(x) == LeValue(x[..3]) + 0x100_0000 * (x[3] as int)
  {
    assert x == [x[0], x[1], x[2], x[3]];
    assert LeValue([x[3]]) == x[3] by { assert [x[3]][1..] == []; }
    assert LeValue([x[2], x[3]]) == x[2] + 256 * x[3] as int by { assert [x[2], x[3]][1..] == [x[3]]; }
    assert LeValue([x[1], x[2], x[3]]) == x[1] + 256 * x[2] as int + 0x1_0000 * x[3] as int by {
      assert [x[1], x[2], x[3]][1..] == [x[2], x[3]];
    }
    assert x[1..] == [x[1], x[2], x[3]] && x[..3] == [x[0], x[1], x[2]];
    assert LeValue([x[2]]) == x[2] by { assert [x[2]][1..] == []; }
    assert LeValue([x[1], x[2]]) == x[1] + 256 * x[2] as int by { assert [x[1], x[2]][1..] == [x[2]]; }
    assert x[..3][1..] == [x[1], x[2]];
  }

  lemma {:induction false} Length17(d: Bytes, n: u32)
    requires |d| >= 21 && d[16..20] == Le(4, n)
    ensures Le32(d[17..21]) == n / 256 + 0x100_0000 * (d[20] as int)
  {
    FourBytes(d[17..21]);
    assert d[17..21][..3] == d[16..20][1..] == Le(3, n / 256);
    assert Pow256(3) == 0x100_0000 by { assert Pow256(2) == 0x1_0000; }
    LeRound(3, n / 256);
  }

  /** A v1 body, whatever its first 16 bytes: taken for v2, brought back, or cut short. */
  lemma V1Body(ends: Bytes, data: Bytes)
    requires |ends| == 16
    ensures var d, i, t := ends + Length32(data) + data, Signed(Le64(ends[0..8])), Signed(Le64(ends[8..16]));
            && (DecodeExact(d).Good? <==> LooksLikeV2(data))
            && (DecodeExact(d).Good? ==> |DecodeExact(d).value.data| == |data| - 1)
            && (|data| < 0x1_0000_0000 ==> DecodeV1(d) == Good(Entry(i, t, COMMAND, data)))
            && (|data| >= 0x1_0000_0000 && DecodeV1(d).Good? ==> |DecodeV1(d).value.data| < 0x1_0000_0000)
  {
    var d := ends + Length32(data) + data;
    assert d[0..8] == ends[0..8] && d[8..16] == ends[8..16];
    assert d[16..20] == Length32(data) && d[20..20 + |data|] == data;
    Le32Round(|data| % 0x1_0000_0000);
    if |data| >= 1 { Length17(d, |data| % 0x1_0000_0000); }
  }

  /** A v1 record of a command comes back exactly when neither test misfires. */
  lemma V1Exactly(e: Entry)
    requires Storable(e) && e.kind == COMMAND
    ensures DecodeEntry(V1(e)) == Good(e) <==>
              (|e.data| < 0x1_0000_0000 && e.index % 0x1_0000 != 0xC0FF && !LooksLikeV2(e.data))
  {
    EndsBack(e);
    V1Body(Ends(e), e.data);
    var d := V1(e);
    assert |d| == 20 + |e.data| && d[..2] == Ends(e)[..2];
    assert DecodeExact(d[2..]).Good? ==> |DecodeExact(d[2..]).value.data| == |e.data| - 3;
  }

  lemma ShortLooks(data: Bytes)
    requires |data| < 0x100_0000
    ensures LooksLikeV2(data) <==> data == [0]
  {
    if |data| >= 1 && data[0] == 0 { assert |data| / 256 == |data| - 1 <==> |data| == 1; }
    if |data| == 1 { assert data == [data[0]]; }
  }

  /** Below 2^24 bytes of data the only v1 command the length test misreads is the single byte 0. */
  lemma ShortV1(e: Entry)
    requires Storable(e) && e.kind == COMMAND && |e.data| < 0x100_0000
    ensures DecodeEntry(V1(e)) == Good(e) <==> (e.index % 0x1_0000 != 0xC0FF && e.data != [0])
  {
    V1Exactly(e);
    ShortLooks(e.data);
  }

  lemma TruncateRound(fromIndex: int)
    requires InRange(fromIndex)
    ensures DecodeTruncate(EncodeTruncate(fromIndex)[1..]) == Good(fromIndex)
  {
    Le64Round(Unsigned(fromIndex));
    SignedRound(fromIndex);
    assert EncodeTruncate(fromIndex)[1..][..8] == Le(8, Unsigned(fromIndex));
  }

  lemma EntryRound(e: Entry)
    requires Storable(e) && |e.data| < 0x1_0000_0000
    ensures DecodeEntry(EncodeEntry(e)[1..]) == Good(e)
  {
    V3Exactly(e);
    assert EncodeEntry(e)[1..] == V3(e);
  }
}
