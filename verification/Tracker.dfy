/** The size tracker of the file writer, under every mix of the writes that a store may issue.

    WriteOffset and WriteEventOffset advance the tracker and index the record at the tracker's old value. Write
    does not advance it. A compaction that succeeds sets it to the length of the new file.
 */
module Tracker {
  import opened Bytes
  import opened Wal
  import opened Bitcask

  /** `TrackedWrite` indexes its record under the key, or takes the key out of the index. */
  datatype Call =
    | TrackedWrite(key: Bytes, data: Bytes, ts: u64, keep: bool)
    | RawWrite(data: Bytes, ts: u64)
    | Compaction(order: seq<Bytes>, now: nat -> u64)

  function RecordOf(c: Call): Record
    requires !c.Compaction?
  {
    Record(c.ts, c.data)
  }

  predicate CallOk(s: Store, c: Call) { s.size >= 0 && (c.Compaction? ==> Walks(c.order, s.index)) }

  function After(s: Store, c: Call, crc: Crc): Store
    requires CallOk(s, c)
  {
    match c
    case TrackedWrite(key, _, _, keep) =>
      var f := Frame(RecordOf(c), crc);
      s.(file := s.file + f, size := s.size + |f|,
         index := if keep then Indexed(s.index, s.maxKeys, key, s.size) else s.index - {key})
    case RawWrite(_, _) => s.(file := s.file + Frame(RecordOf(c), crc))
    case Compaction(order, now) => Compacted(s, order, now, crc)
  }

  predicate CallsOk(s: Store, cs: seq<Call>, crc: Crc)
    decreases |cs|
  {
    |cs| > 0 ==> CallOk(s, cs[0]) && CallsOk(After(s, cs[0], crc), cs[1..], crc)
  }

  function Calls(s: Store, cs: seq<Call>, crc: Crc): Store
    requires CallsOk(s, cs, crc)
    decreases |cs|
  {
    if |cs| == 0 then s else Calls(After(s, cs[0], crc), cs[1..], crc)
  }

  /** The compaction could read every record it was to copy. */
  predicate Succeeds(s: Store, c: Call, crc: Crc)
    requires CallOk(s, c)
  {
    c.Compaction? && Rewritten(s, c.order, c.now, crc).Good?
  }

  /** Bytes of raw writes since the last compaction that succeeded, `lost` of them before. */
  function RawBytes(s: Store, cs: seq<Call>, lost: int, crc: Crc): int
    requires CallsOk(s, cs, crc)
    decreases |cs|
  {
    if |cs| == 0 then lost
    else
      var now := if cs[0].RawWrite? then lost + |Frame(RecordOf(cs[0]), crc)|
                 else if Succeeds(s, cs[0], crc) then 0 else lost;
      RawBytes(After(s, cs[0], crc), cs[1..], now, crc)
  }

  /** A raw write has come since the last compaction that succeeded. */
  predicate RawSince(s: Store, cs: seq<Call>, raw: bool, crc: Crc)
    requires CallsOk(s, cs, crc)
    decreases |cs|
  {
    if |cs| == 0 then raw
    else RawSince(After(s, cs[0], crc), cs[1..], cs[0].RawWrite? || (raw && !Succeeds(s, cs[0], crc)), crc)
  }

  /** The tracker lags the file by exactly the raw bytes since the last compaction that succeeded. */
  lemma {:induction false} TrackerLags(s: Store, cs: seq<Call>, crc: Crc)
    requires CallsOk(s, cs, crc)
    ensures |Calls(s, cs, crc).file| == Calls(s, cs, crc).size + RawBytes(s, cs, |s.file| - s.size, crc)
    decreases |cs|
  {
    if |cs| > 0 { TrackerLags(After(s, cs[0], crc), cs[1..], crc); }
  }

  lemma {:induction false} RawBytesCount(s: Store, cs: seq<Call>, lost: nat, raw: bool, crc: Crc)
    requires CallsOk(s, cs, crc) && (raw <==> lost > 0)
    ensures RawBytes(s, cs, lost, crc) >= 0 && (RawBytes(s, cs, lost, crc) == 0 <==> !RawSince(s, cs, raw, crc))
    decreases |cs|
  {
    if |cs| > 0 {
      var now := if cs[0].RawWrite? then lost + |Frame(RecordOf(cs[0]), crc)|
                 else if Succeeds(s, cs[0], crc) then 0 else lost;
      RawBytesCount(After(s, cs[0], crc), cs[1..], now, cs[0].RawWrite? || (raw && !Succeeds(s, cs[0], crc)), crc);
    }
  }

  /** The exact condition, over every history of tracked writes, raw writes and compactions: the tracker is the file
      length exactly when no raw write has come since the last compaction that succeeded. */
  lemma {:induction false} TrackerExactly(s: Store, cs: seq<Call>, crc: Crc)
    requires CallsOk(s, cs, crc) && s.size == |s.file|
    ensures Calls(s, cs, crc).size == |Calls(s, cs, crc).file| <==> !RawSince(s, cs, false, crc)
  {
    TrackerLags(s, cs, crc);
    RawBytesCount(s, cs, 0, false, crc);
  }

  // ---- Where an index entry points ----

  /** The call leaves this key's entry alone. */
  predicate LeavesKey(s: Store, c: Call, key: Bytes, crc: Crc)
    requires CallOk(s, c)
  {
    (c.TrackedWrite? ==> c.key != key) && !Succeeds(s, c, crc)
  }

  predicate LeaveKey(s: Store, cs: seq<Call>, key: Bytes, crc: Crc)
    requires CallsOk(s, cs, crc)
    decreases |cs|
  {
    |cs| > 0 ==> LeavesKey(s, cs[0], key, crc) && LeaveKey(After(s, cs[0], crc), cs[1..], key, crc)
  }

  /** What was written stays, and so does the key's entry. */
  lemma {:induction false} KeyStays(s: Store, cs: seq<Call>, key: Bytes, crc: Crc)
    requires CallsOk(s, cs, crc) && LeaveKey(s, cs, key, crc) && key in s.index
    ensures var t := Calls(s, cs, crc);
            key in t.index && t.index[key] == s.index[key] && |s.file| <= |t.file| && t.file[..|s.file|] == s.file
    decreases |cs|
  {
    if |cs| == 0 {
      assert s.file[..|s.file|] == s.file;
    } else {
      var t := After(s, cs[0], crc);
      assert t.file[..|s.file|] == s.file;
      KeyStays(t, cs[1..], key, crc);
      assert Calls(s, cs, crc).file[..|s.file|] == Calls(s, cs, crc).file[..|t.file|][..|s.file|];
    }
  }

  /** The key's entry lies `miss` bytes in front of this record. */
  predicate Misses(s: Store, key: Bytes, miss: int, r: Record, crc: Crc) {
    && key in s.index && miss >= 0
    && ReadRecordAt(s.file, s.index[key] + miss, crc) == Got(r, |Frame(r, crc)|)
  }

  /** An index entry, as long as it is left alone, misses its record by exactly the raw bytes between the last
      compaction that succeeded before it and the write that made it. So it points at its record exactly when there
      were none. */
  lemma {:induction false} EntryMisses(s: Store, before: seq<Call>, w: Call, after: seq<Call>, crc: Crc)
    requires CallsOk(s, before, crc) && s.size == |s.file| && w.TrackedWrite? && w.keep && |w.data| < 0x1_0000_0000
    requires CallOk(Calls(s, before, crc), w)
    requires Accepts(Calls(s, before, crc).index, Calls(s, before, crc).maxKeys, w.key)
    requires CallsOk(After(Calls(s, before, crc), w, crc), after, crc)
    requires LeaveKey(After(Calls(s, before, crc), w, crc), after, w.key, crc)
    ensures var t := Calls(After(Calls(s, before, crc), w, crc), after, crc);
            var miss := RawBytes(s, before, 0, crc);
            Misses(t, w.key, miss, RecordOf(w), crc) && (miss == 0 <==> !RawSince(s, before, false, crc))
  {
    var u := Calls(s, before, crc);
    var v := After(u, w, crc);
    TrackerLags(s, before, crc);
    RawBytesCount(s, before, 0, false, crc);
    LastReads(u, w, crc);
    KeyStays(v, after, w.key, crc);
    MissesOn(v, Calls(v, after, crc), w.key, RawBytes(s, before, 0, crc), RecordOf(w), crc);
  }

  lemma MissesOn(s: Store, t: Store, key: Bytes, miss: int, r: Record, crc: Crc)
    requires Misses(s, key, miss, r, crc)
    requires key in t.index && t.index[key] == s.index[key] && |s.file| <= |t.file| && t.file[..|s.file|] == s.file
    ensures Misses(t, key, miss, r, crc)
  {
    ReadsOn(s.file, t.file, s.index[key] + miss, r, |Frame(r, crc)|, crc);
  }

  lemma LastReads(s: Store, w: Call, crc: Crc)
    requires CallOk(s, w) && w.TrackedWrite? && |w.data| < 0x1_0000_0000
    ensures ReadRecordAt(After(s, w, crc).file, |s.file|, crc) == Got(RecordOf(w), |Frame(RecordOf(w), crc)|)
  {
    var f := Frame(RecordOf(w), crc);
    FrameRead(RecordOf(w), [], crc);
    assert f + [] == f && (s.file + f)[|s.file|..] == f;
  }
}
