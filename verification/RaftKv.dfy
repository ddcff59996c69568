/** The durable store under the Raft state machine.

    Each operation appends a data record, which is tracked and indexed, and a checkpoint record with the operation's
    Raft index, which is not tracked. While the process runs, every later index entry therefore points in front of
    its record; recovery replays the file with its own offsets and gets every one of them right.
 */
module RaftKv {
  import opened Bytes
  import opened RaftLog
  import opened EntryCodec
  import opened Wal
  import opened Bitcask
  import opened Tracker

  // ---- Payloads ----

  const SET: byte := 1
  const DEL: byte := 2
  const META: byte := 3

  /** "__raft_last_applied__". */
  const META_KEY: Bytes :=
    [95, 95, 114, 97, 102, 116, 95, 108, 97, 115, 116, 95, 97, 112, 112, 108, 105, 101, 100, 95, 95]

  datatype KvRecord = KvRecord(kind: byte, index: int, key: Bytes, value: Bytes)

  /** A length of two bytes, then the bytes. */
  function Short(s: Bytes): Bytes { Le(2, |s| % 0x1_0000) + s }

  function ReadShort(d: Bytes): Decoded<(Bytes, Bytes)> {
    if |d| < 2 then Bad
    else
      var n := LeValue(d[..2]);
      if |d| < 2 + n then Bad else Good((d[2..2 + n], d[2 + n..]))
  }

  function Start(kind: byte, index: int, key: Bytes): Bytes { [kind] + Le(8, Unsigned(index)) + Short(key) }

  function EncodeSet(key: Bytes, value: Bytes, index: int): Bytes { Start(SET, index, key) + Short(value) }

  function EncodeDel(key: Bytes, index: int): Bytes { Start(DEL, index, key) }

  function EncodeMeta(index: int): Bytes { Start(META, index, META_KEY) + Short([]) }

  /** Kinds other than the three read as a key without a value. */
  function DecodeKv(data: Bytes): Decoded<KvRecord> {
    if |data| < 9 then Bad
    else
      var kind, index, key := data[0], Signed(Le64(data[1..9])), ReadShort(data[9..]);
      if key.Bad? then Bad
      else if kind != SET && kind != META then Good(KvRecord(kind, index, key.value.0, []))
      else
        var value := ReadShort(key.value.1);
        if value.Bad? then Bad else Good(KvRecord(kind, index, key.value.0, value.value.0))
  }

  lemma ShortRead(s: Bytes, rest: Bytes)
    ensures var n := |s| % 0x1_0000;
            ReadShort(Short(s) + rest) == Good(((s + rest)[..n], (s + rest)[n..]))
  {
    var n, d := |s| % 0x1_0000, Short(s) + rest;
    Widths();
    LeRound(2, n);
    assert d == Le(2, n) + (s + rest);
    assert d[..2] == Le(2, n) && d[2..2 + n] == (s + rest)[..n] && d[2 + n..] == (s + rest)[n..];
  }

  lemma StartRead(kind: byte, index: int, key: Bytes, rest: Bytes)
    requires InRange(index)
    ensures var d := Start(kind, index, key) + rest;
            |d| >= 9 && d[0] == kind && Signed(Le64(d[1..9])) == index && d[9..] == Short(key) + rest
  {
    var i := Le(8, Unsigned(index));
    Le64Round(Unsigned(index));
    SignedRound(index);
    StartParts(kind, i, Short(key), rest);
  }

  lemma StartParts(kind: byte, i: Bytes, key: Bytes, rest: Bytes)
    requires |i| == 8
    ensures var d := [kind] + i + key + rest; |d| >= 9 && d[0] == kind && d[1..9] == i && d[9..] == key + rest
  {}

  lemma WholeShort(s: Bytes, rest: Bytes)
    requires |s| < 0x1_0000
    ensures ReadShort(Short(s) + rest) == Good((s, rest))
  {
    ShortRead(s, rest);
    assert (s + rest)[..|s|] == s && (s + rest)[|s|..] == rest;
  }

  lemma ValueRead(kind: byte, index: int, key: Bytes, value: Bytes)
    requires InRange(index) && |key| < 0x1_0000 && kind in {SET, META}
    ensures DecodeKv(Start(kind, index, key) + Short(value)) ==
              Good(KvRecord(kind, index, key, value[..|value| % 0x1_0000]))
  {
    StartRead(kind, index, key, Short(value));
    WholeShort(key, Short(value));
    ShortRead(value, []);
    assert Short(value) + [] == Short(value) && value + [] == value;
  }

  /** A set record decodes to what was set exactly when key and value are shorter than 2^16 bytes; the writer does not
      ask. */
  lemma SetExactly(key: Bytes, value: Bytes, index: int)
    requires InRange(index)
    ensures DecodeKv(EncodeSet(key, value, index)) == Good(KvRecord(SET, index, key, value)) <==>
              |key| < 0x1_0000 && |value| < 0x1_0000
  {
    if |key| < 0x1_0000 {
      ValueRead(SET, index, key, value);
      assert |value| < 0x1_0000 ==> value[..|value| % 0x1_0000] == value;
    } else {
      StartRead(SET, index, key, Short(value));
      ShortRead(key, Short(value));
    }
  }

  lemma DelRead(key: Bytes, index: int)
    requires InRange(index) && |key| < 0x1_0000
    ensures DecodeKv(EncodeDel(key, index)) == Good(KvRecord(DEL, index, key, []))
  {
    StartRead(DEL, index, key, []);
    WholeShort(key, []);
    assert EncodeDel(key, index) + [] == EncodeDel(key, index) && Short(key) + [] == Short(key);
  }

  lemma MetaRead(index: int)
    requires InRange(index)
    ensures DecodeKv(EncodeMeta(index)) == Good(KvRecord(META, index, META_KEY, []))
    ensures |EncodeMeta(index)| == 34
  {
    ValueRead(META, index, META_KEY, []);
  }

  // ---- The store ----

  /** `last` is the Raft index of the last operation that succeeded. */
  datatype Kv = Kv(store: Store, last: int)

  datatype KvOp =
    | WriteKv(key: Bytes, value: Bytes, index: int, ts: u64, metaTs: u64)
    | DeleteKv(key: Bytes, index: int, ts: u64, metaTs: u64)

  function DataCall(op: KvOp): Call {
    match op
    case WriteKv(key, value, index, ts, _) => TrackedWrite(key, EncodeSet(key, value, index), ts, true)
    case DeleteKv(key, index, ts, _) => TrackedWrite(key, EncodeDel(key, index), ts, false)
  }

  function MetaCall(op: KvOp): Call { RawWrite(EncodeMeta(op.index), op.metaTs) }

  predicate Accepted(s: Store, op: KvOp) { op.DeleteKv? || Accepts(s.index, s.maxKeys, op.key) }

  function Written(s: Store, op: KvOp, crc: Crc): (t: Store)
    requires s.size >= 0
    ensures t.size >= 0 && t.maxKeys == s.maxKeys
  {
    After(After(s, DataCall(op), crc), MetaCall(op), crc)
  }

  /** The reserved key is refused; a write that the index refuses is in the file all the same, with its checkpoint. */
  function Done(r: Kv, op: KvOp, crc: Crc): (t: Kv)
    requires r.store.size >= 0
    ensures t.store.size >= 0
  {
    if op.key == META_KEY then r
    else Kv(Written(r.store, op, crc), if Accepted(r.store, op) then op.index else r.last)
  }

  function Run(r: Kv, ops: seq<KvOp>, crc: Crc): (t: Kv)
    requires r.store.size >= 0
    ensures t.store.size >= 0
  {
    if |ops| == 0 then r else Done(Run(r, ops[..|ops| - 1], crc), ops[|ops| - 1], crc)
  }

  datatype Answer = Absent | Garbled | Value(value: Bytes)

  function ValueAt(file: Bytes, offset: nat, crc: Crc): Answer {
    match ReadRecordAt(file, offset, crc)
    case Got(r, _) => var d := DecodeKv(r.data); if d.Bad? then Garbled else Value(d.value.value)
    case _ => Garbled
  }

  function GetKv(s: Store, key: Bytes, crc: Crc): Answer {
    if key in s.index then ValueAt(s.file, s.index[key], crc) else Absent
  }

  /** What the code asks of nobody: lengths of two bytes, and an index of eight. The key is not the reserved one. */
  predicate OpOk(op: KvOp) {
    op.key != META_KEY && |op.key| < 0x1_0000 && InRange(op.index) && (op.WriteKv? ==> |op.value| < 0x1_0000)
  }

  predicate OpsOk(ops: seq<KvOp>) { forall i :: 0 <= i < |ops| ==> OpOk(ops[i]) }

  function Unreserved(ops: seq<KvOp>): seq<KvOp> {
    if |ops| == 0 then []
    else Unreserved(ops[..|ops| - 1]) + (if ops[|ops| - 1].key == META_KEY then [] else [ops[|ops| - 1]])
  }

  /** Operations on the reserved key leave no trace. */
  lemma {:induction false} ReservedIgnored(r: Kv, ops: seq<KvOp>, crc: Crc)
    requires r.store.size >= 0
    ensures Run(r, Unreserved(ops), crc) == Run(r, ops, crc)
  {
    if |ops| > 0 {
      var front, op := ops[..|ops| - 1], ops[|ops| - 1];
      ReservedIgnored(r, front, crc);
      if op.key == META_KEY {
        assert Unreserved(ops) == Unreserved(front);
      } else {
        assert Unreserved(ops)[..|Unreserved(front)|] == Unreserved(front);
      }
    }
  }

  // ---- While the process runs ----

  /** A checkpoint record with its frame. */
  const META_SIZE: nat := 54

  function Checkpoints(n: nat): nat { 54 * n }

  lemma MetaFrame(op: KvOp, crc: Crc)
    requires InRange(op.index)
    ensures |Frame(RecordOf(MetaCall(op)), crc)| == META_SIZE
  {
    MetaRead(op.index);
  }

  /** The tracker lags the file by one checkpoint record per operation. */
  lemma {:induction false} KvLags(r: Kv, ops: seq<KvOp>, crc: Crc)
    requires r.store.size == |r.store.file| && OpsOk(ops)
    ensures |Run(r, ops, crc).store.file| == Run(r, ops, crc).store.size + Checkpoints(|ops|)
  {
    if |ops| > 0 {
      KvLags(r, ops[..|ops| - 1], crc);
      MetaFrame(ops[|ops| - 1], crc);
    }
  }

  lemma WrittenFile(s: Store, op: KvOp, crc: Crc)
    requires s.size >= 0 && OpOk(op)
    ensures Written(s, op, crc).file ==
              s.file + (Frame(RecordOf(DataCall(op)), crc) + Frame(RecordOf(MetaCall(op)), crc))
    ensures ReadRecordAt(Written(s, op, crc).file, |s.file|, crc) ==
              Got(RecordOf(DataCall(op)), |Frame(RecordOf(DataCall(op)), crc)|)
    ensures ReadRecordAt(Written(s, op, crc).file, |s.file| + |Frame(RecordOf(DataCall(op)), crc)|, crc) ==
              Got(RecordOf(MetaCall(op)), META_SIZE)
  {
    var d, m := RecordOf(DataCall(op)), RecordOf(MetaCall(op));
    Assoc(s.file, Frame(d, crc), Frame(m, crc));
    MetaFrame(op, crc);
    assert Sized(d) && Sized(m) by { MetaRead(op.index); }
    FrameRead(d, Frame(m, crc), crc);
    FrameRead(m, [], crc);
    assert Frame(m, crc) + [] == Frame(m, crc);
    var f := Written(s, op, crc).file;
    assert f[|s.file|..] == Frame(d, crc) + Frame(m, crc);
    assert f[|s.file| + |Frame(d, crc)|..] == Frame(m, crc);
  }

  predicate NotOf(ops: seq<KvOp>, key: Bytes) { forall i :: 0 <= i < |ops| ==> ops[i].key != key }

  lemma {:induction false} KeyKept(r: Kv, ops: seq<KvOp>, key: Bytes, crc: Crc)
    requires r.store.size >= 0 && NotOf(ops, key) && key in r.store.index
    ensures var s, t := r.store, Run(r, ops, crc).store;
            key in t.index && t.index[key] == s.index[key] && |s.file| <= |t.file| && t.file[..|s.file|] == s.file
  {
    var s := r.store;
    if |ops| == 0 {
      assert s.file[..|s.file|] == s.file;
    } else {
      KeyKept(r, ops[..|ops| - 1], key, crc);
      var t, u := Run(r, ops[..|ops| - 1], crc).store, Run(r, ops, crc).store;
      assert |t.file| <= |u.file| && u.file[..|t.file|] == t.file;
      assert u.file[..|s.file|] == u.file[..|t.file|][..|s.file|];
    }
  }

  /** The key's entry lies this many bytes in front of a record with this value. */
  predicate PointsBefore(s: Store, key: Bytes, miss: nat, value: Bytes, crc: Crc) {
    s.size >= 0 && key in s.index && ValueAt(s.file, s.index[key] + miss, crc) == Value(value)
  }

  /** A write lies where the file ended, and its entry points where the tracker stood. */
  lemma WrittenPoints(s: Store, op: KvOp, miss: nat, crc: Crc)
    requires s.size >= 0 && OpOk(op) && op.WriteKv? && Accepted(s, op) && |s.file| == s.size + miss
    ensures PointsBefore(Written(s, op, crc), op.key, miss, op.value, crc)
  {
    var t := Written(s, op, crc);
    assert ValueAt(t.file, |s.file|, crc) == Value(op.value) by {
      WrittenFile(s, op, crc);
      SetExactly(op.key, op.value, op.index);
    }
    assert t.size >= 0 && op.key in t.index && t.index[op.key] + miss == |s.file|;
  }

  lemma {:induction false} PointsOn(r: Kv, ops: seq<KvOp>, key: Bytes, miss: nat, value: Bytes, crc: Crc)
    requires PointsBefore(r.store, key, miss, value, crc) && NotOf(ops, key)
    ensures PointsBefore(Run(r, ops, crc).store, key, miss, value, crc)
  {
    KeyKept(r, ops, key, crc);
    StillReads(r.store.file, Run(r, ops, crc).store.file, r.store.index[key] + miss, value, crc);
  }

  /** Before a restart, the entry of the i-th operation lies exactly i checkpoint records in front of its record. Only
      the first entry after opening the file is right. */
  lemma {:induction false} KvEntryMisses(r: Kv, before: seq<KvOp>, op: KvOp, after: seq<KvOp>, crc: Crc)
    requires r.store.size == |r.store.file| && OpsOk(before) && OpOk(op) && op.WriteKv?
    requires Accepted(Run(r, before, crc).store, op) && NotOf(after, op.key)
    ensures var t := Run(Done(Run(r, before, crc), op, crc), after, crc).store;
            PointsBefore(t, op.key, Checkpoints(|before|), op.value, crc)
  {
    var u := Run(r, before, crc);
    KvLags(r, before, crc);
    WrittenPoints(u.store, op, Checkpoints(|before|), crc);
    PointsOn(Done(u, op, crc), after, op.key, Checkpoints(|before|), op.value, crc);
  }

  /** The second write after opening the file reads as empty, whatever was written: its entry points at the checkpoint
      of the first operation. */
  lemma {:induction false} SecondWriteReadsEmpty(r: Kv, first: KvOp, second: KvOp, crc: Crc)
    requires r.store.size == |r.store.file| && OpOk(first) && OpOk(second) && second.WriteKv?
    requires Accepted(Done(r, first, crc).store, second)
    ensures GetKv(Done(Done(r, first, crc), second, crc).store, second.key, crc) == Value([])
  {
    var u := Done(r, first, crc).store;
    var t := Done(Done(r, first, crc), second, crc).store;
    WrittenFile(r.store, first, crc);
    WrittenFile(u, second, crc);
    MetaRead(first.index);
    var offset := |r.store.file| + |Frame(RecordOf(DataCall(first)), crc)|;
    assert t.index[second.key] == u.size == offset;
    assert t.file[..|u.file|] == u.file;
    ReadsOn(u.file, t.file, offset, RecordOf(MetaCall(first)), META_SIZE, crc);
  }

  const FIRST: KvOp := WriteKv([1], [1], 1, 0, 0)
  const SECOND: KvOp := WriteKv([2], [2], 2, 0, 0)

  /** Two writes on an empty store: the second value is not the one read back. */
  lemma TwoWrites(crc: Crc)
    ensures var t := Run(Kv(Fresh(2), 0), [FIRST, SECOND], crc).store;
            GetKv(t, SECOND.key, crc) == Value([]) && SECOND.value != []
  {
    var r := Kv(Fresh(2), 0);
    assert [FIRST, SECOND][..1] == [FIRST] && [FIRST][..0] == [];
    assert Run(r, [], crc) == r && Run(r, [FIRST], crc) == Done(r, FIRST, crc);
    assert Done(r, FIRST, crc).store.index == map[[1] := 0];
    SecondWriteReadsEmpty(r, FIRST, SECOND, crc);
  }

  // ---- Recovery ----

  datatype KvRecovery = KvRecovery(index: map<Bytes, nat>, offset: nat, last: int, ok: bool)

  function Replay(p: KvRecovery, r: Record, maxKeys: nat): KvRecovery {
    var d := DecodeKv(r.data);
    if !p.ok || d.Bad? then p.(ok := false)
    else
      var v, next := d.value, p.offset + HEADER_SIZE + |r.data| + CHECKSUM_SIZE;
      if v.kind == SET then
        if Accepts(p.index, maxKeys, v.key) then p.(index := p.index[v.key := p.offset], offset := next)
        else p.(ok := false)
      else if v.kind == DEL then p.(index := p.index - {v.key}, offset := next)
      else if v.kind == META && v.key == META_KEY then p.(last := v.index, offset := next)
      else p.(offset := next)
  }

  function Replayed(rs: seq<Record>, maxKeys: nat): KvRecovery {
    if |rs| == 0 then KvRecovery(map[], 0, 0, true)
    else Replay(Replayed(rs[..|rs| - 1], maxKeys), rs[|rs| - 1], maxKeys)
  }

  /** The same from the front. */
  function ReplayOn(p: KvRecovery, rs: seq<Record>, maxKeys: nat): KvRecovery
    decreases |rs|
  {
    if |rs| == 0 || !p.ok then p else ReplayOn(Replay(p, rs[0], maxKeys), rs[1..], maxKeys)
  }

  lemma {:induction false} ReplayOnIs(a: seq<Record>, b: seq<Record>, maxKeys: nat)
    ensures ReplayOn(Replayed(a, maxKeys), b, maxKeys) == Replayed(a + b, maxKeys)
    decreases |b|
  {
    if |b| == 0 {
      assert a + b == a;
    } else {
      assert a + b == a + [b[0]] + b[1..];
      ReplayOnIs(a + [b[0]], b[1..], maxKeys);
      ReplayedNext(a, b[0], maxKeys);
      if !Replayed(a, maxKeys).ok { assert Replay(Replayed(a, maxKeys), b[0], maxKeys) == Replayed(a, maxKeys); }
    }
  }

  /** A truncated tail is ignored; any other read error is fatal. */
  function RecoverKv(file: Bytes, maxKeys: nat, crc: Crc): KvRecovery {
    var s := ScanAll(file, crc);
    var p := Replayed(s.records, maxKeys);
    p.(ok := p.ok && s.error in {None, Some(Truncated)})
  }

  /** A record whose checksum does not fit makes recovery fail, whatever lies before and behind it. */
  lemma {:induction false} KvDamageFails(rs: seq<Record>, bad: Bytes, tail: Bytes, maxKeys: nat, crc: Crc)
    requires AllSized(rs) && Damaged(bad, crc)
    ensures !RecoverKv(Frames(rs, crc) + (bad + tail), maxKeys, crc).ok
  {
    ScanDamaged(rs, bad, tail, crc);
  }

  /** Only a checkpoint under the reserved key moves what recovery reports; one under another key, and a record of
      unknown kind, is passed over. */
  lemma {:induction false} KvForeignRecord(rs: seq<Record>, r: Record, maxKeys: nat, crc: Crc)
    requires AllSized(rs) && Sized(r) && RecoverKv(Frames(rs, crc), maxKeys, crc).ok
    requires DecodeKv(r.data).Good? && DecodeKv(r.data).value.kind !in {SET, DEL}
    ensures var p, q, v := RecoverKv(Frames(rs, crc), maxKeys, crc), RecoverKv(Frames(rs + [r], crc), maxKeys, crc),
                           DecodeKv(r.data).value;
            q.ok && q.index == p.index && q.last == if v.kind == META && v.key == META_KEY then v.index else p.last
  {
    ScannedWhole(rs, crc);
    ScannedWhole(rs + [r], crc);
    ReplayedNext(rs, r, maxKeys);
  }

  lemma {:induction false} ScannedWhole(rs: seq<Record>, crc: Crc)
    requires AllSized(rs)
    ensures ScanAll(Frames(rs, crc), crc) == Scanned(rs, None)
  {
    ScanFrames(rs, [], crc);
    assert Frames(rs, crc) + [] == Frames(rs, crc) && rs + [] == rs;
  }

  /** The store after a restart: the tracker starts at the file length. */
  function Reopened(file: Bytes, maxKeys: nat, crc: Crc): Kv {
    var p := RecoverKv(file, maxKeys, crc);
    Kv(Store(file, |file|, p.index, maxKeys), p.last)
  }

  /** What a recovery leaves and reports. */
  predicate Recovers(p: KvRecovery, index: map<Bytes, nat>, last: int, ok: bool) {
    ok == p.ok && index == p.index && last == p.last
  }

  lemma {:induction false} ReplayFromStart(rs: seq<Record>, maxKeys: nat)
    ensures ReplayOn(KvRecovery(map[], 0, 0, true), rs, maxKeys) == Replayed(rs, maxKeys)
  {
    assert [] + rs == rs;
    ReplayOnIs([], rs, maxKeys);
  }

  // ---- The plain map ----

  type View = map<Bytes, Bytes>

  function PutKv(c: View, maxKeys: nat, op: KvOp): View {
    match op
    case WriteKv(key, value, _, _, _) => if HasRoom(c, maxKeys, key) then c[key := value] else c
    case DeleteKv(key, _, _, _) => c - {key}
  }

  function KvMap(ops: seq<KvOp>, maxKeys: nat): View {
    if |ops| == 0 then map[] else PutKv(KvMap(ops[..|ops| - 1], maxKeys), maxKeys, ops[|ops| - 1])
  }

  /** Every write found room. */
  predicate KvClean(ops: seq<KvOp>, maxKeys: nat) {
    |ops| > 0 ==>
      var front, op := ops[..|ops| - 1], ops[|ops| - 1];
      KvClean(front, maxKeys) && (op.WriteKv? ==> HasRoom(KvMap(front, maxKeys), maxKeys, op.key))
  }

  /** The index of the last operation. */
  function LastOf(ops: seq<KvOp>): int { if |ops| == 0 then 0 else ops[|ops| - 1].index }

  /** The index of the last operation that found room. */
  function LastTaken(ops: seq<KvOp>, maxKeys: nat): int {
    if |ops| == 0 then 0
    else
      var front, op := ops[..|ops| - 1], ops[|ops| - 1];
      if op.DeleteKv? || HasRoom(KvMap(front, maxKeys), maxKeys, op.key) then op.index else LastTaken(front, maxKeys)
  }

  /** While the process runs, the index has the keys of the plain map, though not their places, and what the store
      reports as applied is the last operation that found room. */
  lemma {:induction false} RunningKeys(maxKeys: nat, ops: seq<KvOp>, crc: Crc)
    requires OpsOk(ops)
    ensures var t := Run(Kv(Fresh(maxKeys), 0), ops, crc);
            && t.store.index.Keys == KvMap(ops, maxKeys).Keys && t.store.maxKeys == maxKeys
            && t.last == LastTaken(ops, maxKeys)
  {
    if |ops| > 0 {
      var front := ops[..|ops| - 1];
      RunningKeys(maxKeys, front, crc);
      SameKeys(Run(Kv(Fresh(maxKeys), 0), front, crc).store.index, KvMap(front, maxKeys));
    }
  }

  function DataRecord(op: KvOp): Record { RecordOf(DataCall(op)) }

  function MetaRecord(op: KvOp): Record { RecordOf(MetaCall(op)) }

  function Records(ops: seq<KvOp>): (rs: seq<Record>)
    ensures |rs| == 2 * |ops|
  {
    if |ops| == 0 then []
    else Records(ops[..|ops| - 1]) + [DataRecord(ops[|ops| - 1]), MetaRecord(ops[|ops| - 1])]
  }

  lemma {:induction false} TwoFrames(rs: seq<Record>, a: Record, b: Record, crc: Crc)
    ensures Frames(rs + [a, b], crc) == Frames(rs, crc) + (Frame(a, crc) + Frame(b, crc))
  {
    FramesConcat(rs, [a, b], crc);
    assert [a, b][1..] == [b] && Frames([b], crc) == Frame(b, crc) + [] == Frame(b, crc);
  }

  lemma {:induction false} RecordsSized(ops: seq<KvOp>)
    requires OpsOk(ops)
    ensures AllSized(Records(ops))
  {
    if |ops| > 0 {
      var op := ops[|ops| - 1];
      RecordsSized(ops[..|ops| - 1]);
      assert Sized(DataRecord(op)) && Sized(MetaRecord(op)) by { MetaRead(op.index); }
    }
  }

  lemma {:induction false} FileIs(maxKeys: nat, ops: seq<KvOp>, crc: Crc)
    requires OpsOk(ops)
    ensures Run(Kv(Fresh(maxKeys), 0), ops, crc).store.file == Frames(Records(ops), crc)
  {
    if |ops| > 0 {
      var front, op := ops[..|ops| - 1], ops[|ops| - 1];
      FileIs(maxKeys, front, crc);
      WrittenFile(Run(Kv(Fresh(maxKeys), 0), front, crc).store, op, crc);
      TwoFrames(Records(front), DataRecord(op), MetaRecord(op), crc);
    }
  }

  // ---- Recovery follows the plain map ----

  predicate HoldsAt(p: KvRecovery, file: Bytes, c: View, k: Bytes, crc: Crc) {
    k in p.index && k in c && ValueAt(file, p.index[k], crc) == Value(c[k])
  }

  /** The replay has the keys of the map, each at a record that reads as its value. */
  predicate Holds(p: KvRecovery, rs: seq<Record>, c: View, crc: Crc) {
    && p.ok && p.offset == |Frames(rs, crc)| && p.index.Keys == c.Keys
    && forall k {:trigger HoldsAt(p, Frames(rs, crc), c, k, crc)} :: k in c ==> HoldsAt(p, Frames(rs, crc), c, k, crc)
  }

  lemma {:induction false} OneFrame(rs: seq<Record>, r: Record, crc: Crc)
    requires Sized(r)
    ensures Frames(rs + [r], crc) == Frames(rs, crc) + Frame(r, crc)
    ensures ReadRecordAt(Frames(rs + [r], crc), |Frames(rs, crc)|, crc) == Got(r, |Frame(r, crc)|)
  {
    FramesConcat(rs, [r], crc);
    assert Frames([r], crc) == Frame(r, crc) + [] == Frame(r, crc);
    FrameRead(r, [], crc);
    assert Frames(rs + [r], crc)[|Frames(rs, crc)|..] == Frame(r, crc);
  }

  /** What was held stays readable when a record is appended. */
  lemma {:induction false} HeldOn(p: KvRecovery, rs: seq<Record>, c: View, r: Record, k: Bytes, crc: Crc)
    requires Holds(p, rs, c, crc) && Sized(r) && k in c
    ensures HoldsAt(p, Frames(rs + [r], crc), c, k, crc)
  {
    OneFrame(rs, r, crc);
    assert HoldsAt(p, Frames(rs, crc), c, k, crc);
    StillReads(Frames(rs, crc), Frames(rs + [r], crc), p.index[k], c[k], crc);
  }

  lemma StillReads(a: Bytes, b: Bytes, offset: nat, v: Bytes, crc: Crc)
    requires ValueAt(a, offset, crc) == Value(v) && |a| <= |b| && b[..|a|] == a
    ensures ValueAt(b, offset, crc) == Value(v)
  {
    var o := ReadRecordAt(a, offset, crc);
    ReadsOn(a, b, offset, o.record, o.size, crc);
  }

  lemma MetaStep(p: KvRecovery, rs: seq<Record>, c: View, op: KvOp, maxKeys: nat, crc: Crc)
    requires Holds(p, rs, c, crc) && OpOk(op)
    ensures var q := Replay(p, MetaRecord(op), maxKeys); Holds(q, rs + [MetaRecord(op)], c, crc) && q.last == op.index
  {
    var r := MetaRecord(op);
    var q := Replay(p, r, maxKeys);
    MetaRead(op.index);
    OneFrame(rs, r, crc);
    forall k | k in c ensures HoldsAt(q, Frames(rs + [r], crc), c, k, crc) {
      HeldOn(p, rs, c, r, k, crc);
      assert HoldsAt(p, Frames(rs + [r], crc), c, k, crc);
    }
  }

  lemma {:induction false} NewHeld(p: KvRecovery, rs: seq<Record>, c: View, op: KvOp, maxKeys: nat, crc: Crc)
    requires Holds(p, rs, c, crc) && OpOk(op) && op.WriteKv? && HasRoom(c, maxKeys, op.key)
    ensures var q := Replay(p, DataRecord(op), maxKeys);
            q == p.(index := p.index[op.key := p.offset], offset := |Frames(rs + [DataRecord(op)], crc)|) &&
            ValueAt(Frames(rs + [DataRecord(op)], crc), p.offset, crc) == Value(op.value)
  {
    SameKeys(p.index, c);
    OneFrame(rs, DataRecord(op), crc);
    SetExactly(op.key, op.value, op.index);
  }

  lemma WriteStep(p: KvRecovery, rs: seq<Record>, c: View, op: KvOp, maxKeys: nat, crc: Crc)
    requires Holds(p, rs, c, crc) && OpOk(op) && op.WriteKv? && HasRoom(c, maxKeys, op.key)
    ensures var q := Replay(p, DataRecord(op), maxKeys);
            Holds(q, rs + [DataRecord(op)], PutKv(c, maxKeys, op), crc) && q.last == p.last
  {
    var r := DataRecord(op);
    var q, d, file := Replay(p, r, maxKeys), PutKv(c, maxKeys, op), Frames(rs + [r], crc);
    NewHeld(p, rs, c, op, maxKeys, crc);
    forall k | k in d ensures HoldsAt(q, file, d, k, crc) {
      if k != op.key { HeldOn(p, rs, c, r, k, crc); }
    }
  }

  lemma DeleteStep(p: KvRecovery, rs: seq<Record>, c: View, op: KvOp, maxKeys: nat, crc: Crc)
    requires Holds(p, rs, c, crc) && OpOk(op) && op.DeleteKv?
    ensures var q := Replay(p, DataRecord(op), maxKeys);
            Holds(q, rs + [DataRecord(op)], PutKv(c, maxKeys, op), crc) && q.last == p.last
  {
    var r := DataRecord(op);
    var q, d, file := Replay(p, r, maxKeys), PutKv(c, maxKeys, op), Frames(rs + [r], crc);
    OneFrame(rs, r, crc);
    DelRead(op.key, op.index);
    forall k | k in d ensures HoldsAt(q, file, d, k, crc) { HeldOn(p, rs, c, r, k, crc); }
  }

  /** The replay accepts a write exactly when the plain map has room for it. */
  lemma DataStep(p: KvRecovery, rs: seq<Record>, c: View, op: KvOp, maxKeys: nat, crc: Crc)
    requires Holds(p, rs, c, crc) && OpOk(op)
    ensures var q := Replay(p, DataRecord(op), maxKeys);
            if op.WriteKv? && !HasRoom(c, maxKeys, op.key) then !q.ok
            else Holds(q, rs + [DataRecord(op)], PutKv(c, maxKeys, op), crc) && q.last == p.last
  {
    if op.DeleteKv? {
      DeleteStep(p, rs, c, op, maxKeys, crc);
    } else if HasRoom(c, maxKeys, op.key) {
      WriteStep(p, rs, c, op, maxKeys, crc);
    } else {
      SameKeys(p.index, c);
      SetExactly(op.key, op.value, op.index);
    }
  }

  lemma {:induction false} ReplayedNext(rs: seq<Record>, r: Record, maxKeys: nat)
    ensures Replayed(rs + [r], maxKeys) == Replay(Replayed(rs, maxKeys), r, maxKeys)
  {
    assert (rs + [r])[..|rs|] == rs;
  }

  /** After the records of these operations, and after the data record of one more. */
  predicate Follows(rs: seq<Record>, ops: seq<KvOp>, maxKeys: nat, last: int, crc: Crc) {
    var p := Replayed(rs, maxKeys);
    (p.ok <==> KvClean(ops, maxKeys)) && (p.ok ==> Holds(p, rs, KvMap(ops, maxKeys), crc) && p.last == last)
  }

  lemma {:induction false} DataFollows(ops: seq<KvOp>, op: KvOp, maxKeys: nat, crc: Crc)
    requires Follows(Records(ops), ops, maxKeys, LastOf(ops), crc) && OpOk(op)
    ensures Follows(Records(ops) + [DataRecord(op)], ops + [op], maxKeys, LastOf(ops), crc)
  {
    var rs, more := Records(ops), ops + [op];
    var p := Replayed(rs, maxKeys);
    assert more[..|ops|] == ops;
    ReplayedNext(rs, DataRecord(op), maxKeys);
    if p.ok { DataStep(p, rs, KvMap(ops, maxKeys), op, maxKeys, crc); }
  }

  lemma {:induction false} MetaFollows(rs: seq<Record>, ops: seq<KvOp>, op: KvOp, maxKeys: nat, last: int, crc: Crc)
    requires Follows(rs, ops + [op], maxKeys, last, crc) && OpOk(op)
    ensures Follows(rs + [MetaRecord(op)], ops + [op], maxKeys, op.index, crc)
  {
    var p := Replayed(rs, maxKeys);
    ReplayedNext(rs, MetaRecord(op), maxKeys);
    if p.ok { MetaStep(p, rs, KvMap(ops + [op], maxKeys), op, maxKeys, crc); }
  }

  lemma {:induction false} RecordsFollow(ops: seq<KvOp>, maxKeys: nat, crc: Crc)
    requires OpsOk(ops)
    ensures Follows(Records(ops), ops, maxKeys, LastOf(ops), crc)
  {
    if |ops| > 0 {
      var front, op := ops[..|ops| - 1], ops[|ops| - 1];
      RecordsFollow(front, maxKeys, crc);
      DataFollows(front, op, maxKeys, crc);
      assert front + [op] == ops;
      MetaFollows(Records(front) + [DataRecord(op)], front, op, maxKeys, LastOf(front), crc);
      assert Records(front) + [DataRecord(op)] + [MetaRecord(op)] == Records(ops);
    }
  }

  lemma {:induction false} RecordsPrefix(ops: seq<KvOp>, j: nat, k: nat)
    requires j <= |ops| && k == 2 * j
    ensures Records(ops)[..k] == Records(ops[..j])
    ensures j < |ops| ==> Records(ops)[k] == DataRecord(ops[j])
  {
    if j == |ops| {
      assert ops[..j] == ops && Records(ops)[..k] == Records(ops);
    } else {
      var front := ops[..|ops| - 1];
      RecordsPrefix(front, j, k);
      assert front[..j] == ops[..j] && Records(ops)[..k] == Records(front)[..k];
      if j < |front| { assert Records(ops)[k] == Records(front)[k]; }
    }
  }

  lemma {:induction false} OddPrefix(ops: seq<KvOp>, k: nat, j: nat, rs: seq<Record>)
    requires j < |ops| && k == 2 * j + 1 && rs == Records(ops)
    ensures rs[..k] == Records(ops[..j]) + [DataRecord(ops[j])]
  {
    RecordsPrefix(ops, j, k - 1);
    TakeOneMore(rs, k - 1);
  }

  lemma {:induction false} OddFollows(ops: seq<KvOp>, k: nat, j: nat, d: nat, maxKeys: nat, crc: Crc)
    requires OpsOk(ops) && j < |ops| && k == 2 * j + 1 && d == j + 1
    requires Follows(Records(ops[..j]), ops[..j], maxKeys, LastOf(ops[..j]), crc)
    ensures Follows(Records(ops)[..k], ops[..d], maxKeys, LastOf(ops[..j]), crc)
  {
    var done, rs := ops[..j], Records(ops);
    DataFollows(done, ops[j], maxKeys, crc);
    OddPrefix(ops, k, j, rs);
    TakeOneMore(ops, j);
    SameFollows(Records(done) + [DataRecord(ops[j])], rs[..k], done + [ops[j]], ops[..d], maxKeys, LastOf(done), crc);
  }

  lemma {:induction false} SameFollows(rs: seq<Record>, xs: seq<Record>, ops: seq<KvOp>, kept: seq<KvOp>,
                                       maxKeys: nat, last: int, crc: Crc)
    requires rs == xs && ops == kept && Follows(rs, ops, maxKeys, last, crc)
    ensures Follows(xs, kept, maxKeys, last, crc)
  {}

  /** The operations whose data record is among the first k records, and those whose checkpoint is. */
  function WithData(ops: seq<KvOp>, k: nat): seq<KvOp>
    requires k <= 2 * |ops|
  {
    ops[..(k + 1) / 2]
  }

  function WithCheckpoint(ops: seq<KvOp>, k: nat): seq<KvOp>
    requires k <= 2 * |ops|
  {
    ops[..k / 2]
  }

  lemma {:induction false} HalfFollows(ops: seq<KvOp>, k: nat, j: nat, d: nat, maxKeys: nat, crc: Crc)
    requires OpsOk(ops) && k <= 2 * |ops| && j == k / 2 && d == (k + 1) / 2
    ensures Follows(Records(ops)[..k], ops[..d], maxKeys, LastOf(ops[..j]), crc)
  {
    RecordsFollow(ops[..j], maxKeys, crc);
    if d == j {
      RecordsPrefix(ops, j, k);
      SameFollows(Records(ops[..j]), Records(ops)[..k], ops[..j], ops[..d], maxKeys, LastOf(ops[..j]), crc);
    } else {
      OddFollows(ops, k, j, d, maxKeys, crc);
    }
  }

  lemma {:induction false} PrefixFollows(ops: seq<KvOp>, k: nat, maxKeys: nat, crc: Crc)
    requires OpsOk(ops) && k <= 2 * |ops|
    ensures Follows(Records(ops)[..k], WithData(ops, k), maxKeys, LastOf(WithCheckpoint(ops, k)), crc)
  {
    HalfFollows(ops, k, k / 2, (k + 1) / 2, maxKeys, crc);
  }

  lemma TakeOneMore<T>(xs: seq<T>, i: nat)
    requires i < |xs|
    ensures xs[..i + 1] == xs[..i] + [xs[i]]
  {}

  /** Get answers for this key what the plain map holds. */
  predicate AgreesKv(s: Store, c: View, key: Bytes, crc: Crc) {
    GetKv(s, key, crc) == if key in c then Value(c[key]) else Absent
  }

  lemma {:induction false} HeldAgrees(p: KvRecovery, rs: seq<Record>, c: View, file: Bytes, maxKeys: nat, key: Bytes,
                                      crc: Crc)
    requires Holds(p, rs, c, crc) && |Frames(rs, crc)| <= |file| && file[..|Frames(rs, crc)|] == Frames(rs, crc)
    ensures AgreesKv(Store(file, |file|, p.index, maxKeys), c, key, crc)
  {
    if key in c {
      assert HoldsAt(p, Frames(rs, crc), c, key, crc);
      StillReads(Frames(rs, crc), file, p.index[key], c[key], crc);
    }
  }

  /** From the empty store, after any operations and a cut of the file at any byte: recovery succeeds exactly when
      every write whose data record is whole had found room. GetKv then agrees with the plain map after those
      operations on every key, and the index recovered is that of the last operation whose checkpoint is whole, at
      most one before: the state machine applies that one again. */
  lemma {:induction false} KvRecoveryAgrees(maxKeys: nat, ops: seq<KvOp>, n: nat, key: Bytes, crc: Crc)
    requires OpsOk(ops) && n <= |Run(Kv(Fresh(maxKeys), 0), ops, crc).store.file|
    ensures var file := Run(Kv(Fresh(maxKeys), 0), ops, crc).store.file[..n];
            var k := Fitting(Records(ops), n, crc);
            var kept, t := WithData(ops, k), Reopened(file, maxKeys, crc);
            && (RecoverKv(file, maxKeys, crc).ok <==> KvClean(kept, maxKeys))
            && (RecoverKv(file, maxKeys, crc).ok ==>
                  AgreesKv(t.store, KvMap(kept, maxKeys), key, crc) && t.last == LastOf(WithCheckpoint(ops, k)))
  {
    FileIs(maxKeys, ops, crc);
    RecordsSized(ops);
    var rs := Records(ops);
    var file, k := Frames(rs, crc)[..n], Fitting(rs, n, crc);
    ScanCut(rs, n, crc);
    PrefixFollows(ops, k, maxKeys, crc);
    var p := Replayed(rs[..k], maxKeys);
    if p.ok {
      WholeFirst(rs, n, crc);
      HeldAgrees(p, rs[..k], KvMap(WithData(ops, k), maxKeys), file, maxKeys, key, crc);
    }
  }

  /** The whole records come first in a cut file. */
  lemma {:induction false} WholeFirst(rs: seq<Record>, n: nat, crc: Crc)
    requires n <= |Frames(rs, crc)|
    ensures var w := Frames(rs[..Fitting(rs, n, crc)], crc); |w| <= n && Frames(rs, crc)[..n][..|w|] == w
  {
    var k := Fitting(rs, n, crc);
    FittingMeans(rs, n, crc);
    assert rs == rs[..k] + rs[k..];
    FramesConcat(rs[..k], rs[k..], crc);
  }

  // ---- In place ----

  class RaftKvStore {
    const crc: Crc
    const maxKeys: nat
    var file: Bytes
    var size: nat
    var index: map<Bytes, nat>
    var last: int

    function State(): Kv
      reads this
    {
      Kv(Store(file, size, index, maxKeys), last)
    }

    /** A store over an existing file, before recovery. */
    constructor (file: Bytes, maxKeys: nat, crc: Crc)
      ensures State() == Kv(Store(file, |file|, map[], maxKeys), 0) && this.crc == crc
    {
      this.file, this.size, this.index, this.maxKeys, this.crc, this.last := file, |file|, map[], maxKeys, crc, 0;
    }

    method Append(data: Bytes, ts: u64, tracked: bool) returns (offset: nat)
      modifies this`file, this`size
      ensures offset == old(size) && file == old(file) + Frame(Record(ts, data), crc)
      ensures size == old(size) + if tracked then |Frame(Record(ts, data), crc)| else 0
    {
      offset := size;
      var f := Frame(Record(ts, data), crc);
      file := file + f;
      if tracked { size := size + |f|; }
    }

    method WriteKV(key: Bytes, value: Bytes, raftIndex: int, ts: u64, metaTs: u64) returns (ok: bool)
      modifies this
      ensures State() == Done(old(State()), WriteKv(key, value, raftIndex, ts, metaTs), crc)
      ensures ok <==> key != META_KEY && Accepts(old(index), maxKeys, key)
    {
      if key == META_KEY { return false; }
      var offset := Append(EncodeSet(key, value, raftIndex), ts, true);
      if key !in index && |index| >= maxKeys {
        var _ := Append(EncodeMeta(raftIndex), metaTs, false);
        return false;
      }
      index := index[key := offset];
      var _ := Append(EncodeMeta(raftIndex), metaTs, false);
      last := raftIndex;
      return true;
    }

    method DeleteKV(key: Bytes, raftIndex: int, ts: u64, metaTs: u64) returns (ok: bool)
      modifies this
      ensures State() == Done(old(State()), DeleteKv(key, raftIndex, ts, metaTs), crc)
      ensures ok <==> key != META_KEY
    {
      if key == META_KEY { return false; }
      var _ := Append(EncodeDel(key, raftIndex), ts, true);
      index := index - {key};
      var _ := Append(EncodeMeta(raftIndex), metaTs, false);
      last := raftIndex;
      return true;
    }

    method GetKV(key: Bytes) returns (r: Answer)
      ensures r == GetKv(State().store, key, crc)
    {
      if key !in index { return Absent; }
      match ReadRecordAt(file, index[key], crc)
      case Got(record, _) =>
        var d := DecodeKv(record.data);
        return if d.Bad? then Garbled else Value(d.value.value);
      case _ =>
        return Garbled;
    }

    /** One record of the replay, and where the next one starts. */
    method RecoverRecord(r: Record, offset: nat, lastApplied: int, ghost left: seq<Record>, ghost goal: KvRecovery)
      returns (ok: bool, next: nat, applied: int)
      requires |left| > 0 && left[0] == r
      requires ReplayOn(KvRecovery(index, offset, lastApplied, true), left, maxKeys) == goal
      modifies this`index
      ensures ok ==> ReplayOn(KvRecovery(index, next, applied, true), left[1..], maxKeys) == goal
      ensures !ok ==> KvRecovery(index, next, applied, false) == goal
    {
      ok, next, applied := true, offset + HEADER_SIZE + |r.data| + CHECKSUM_SIZE, lastApplied;
      var d := DecodeKv(r.data);
      if d.Bad? { return false, offset, lastApplied; }
      if d.value.kind == SET {
        if d.value.key !in index && |index| >= maxKeys { return false, offset, lastApplied; }
        index := index[d.value.key := offset];
      } else if d.value.kind == DEL {
        index := index - {d.value.key};
      } else if d.value.kind == META && d.value.key == META_KEY {
        applied := d.value.index;
      }
    }

    /** On an empty index. */
    method RecoverKV() returns (lastApplied: int, ok: bool)
      requires index == map[]
      modifies this`index, this`last
      ensures Recovers(RecoverKv(file, maxKeys, crc), index, lastApplied, ok) && (ok ==> last == lastApplied)
    {
      var reader := new Reader(file, crc);
      ghost var all := reader.Pending();
      ghost var left, goal := all.records, Replayed(all.records, maxKeys);
      ghost var whole := goal.(ok := goal.ok && all.error in {None, Some(Truncated)});
      assert whole == RecoverKv(file, maxKeys, crc);
      ReplayFromStart(left, maxKeys);
      var offset: nat := 0;
      lastApplied := 0;
      var more := reader.Scan();
      while more
        invariant fresh(reader) && last == old(last)
        invariant more ==> |left| > 0 && left[0] == reader.current && reader.Pending() == Scanned(left[1..], all.error)
        invariant !more ==> left == [] && reader.lastError == all.error
        invariant ReplayOn(KvRecovery(index, offset, lastApplied, true), left, maxKeys) == goal
        decreases |left|
      {
        ok, offset, lastApplied := RecoverRecord(reader.current, offset, lastApplied, left, goal);
        if !ok {
          assert Recovers(whole, index, lastApplied, ok);
          return;
        }
        left := left[1..];
        more := reader.Scan();
      }
      ok := reader.lastError in {None, Some(Truncated)};
      if ok { last := lastApplied; }
      assert Recovers(whole, index, lastApplied, ok);
    }
  }
}
