/** The durable Raft log: an append-only file in which a truncation is just another record.

    The in-memory store, which truncates in place, says what the file means. Loading the file gives the same
    entries after every sequence of operations, and after a crash the entries of the operations that reached it.
 */
module LogStore {
  import opened Bytes
  import opened RaftLog
  import opened EntryCodec
  import opened Wal

  // ---- Loading ----

  /** One record of the file. Only a strict reader refuses a type it does not know. */
  function ReplayRecord(entries: seq<Entry>, data: Bytes, strict: bool): Decoded<seq<Entry>> {
    if |data| == 0 then Good(entries)
    else if data[0] == ENTRY_RECORD then
      var e := DecodeEntry(data[1..]);
      if e.Bad? then Bad else Good(entries + [e.value])
    else if data[0] == TRUNCATE_RECORD then
      var f := DecodeTruncate(data[1..]);
      if f.Bad? then Bad else Good(entries[..CutAt(entries, f.value)])
    else if strict then Bad else Good(entries)
  }

  function Replay(entries: seq<Entry>, rs: seq<Record>, strict: bool): Decoded<seq<Entry>>
    decreases |rs|
  {
    if |rs| == 0 then Good(entries)
    else
      var next := ReplayRecord(entries, rs[0].data, strict);
      if next.Bad? then Bad else Replay(next.value, rs[1..], strict)
  }

  /** A truncated tail is dropped silently; any other read error is reported. */
  function Load(file: Bytes, crc: Crc, strict: bool): Decoded<seq<Entry>> {
    var s := ScanAll(file, crc);
    if s.error in {None, Some(Truncated)} then Replay([], s.records, strict) else Bad
  }

  // ---- Operations ----

  datatype Op = Append(entry: Entry) | TruncateSuffix(fromIndex: int) | CompactPrefix(upTo: int)

  function MemStep(entries: seq<Entry>, op: Op): seq<Entry> {
    match op
    case Append(e) => entries + [e]
    case TruncateSuffix(i) => entries[..CutAt(entries, i)]
    case CompactPrefix(u) => entries[CutAt(entries, u + 1)..]
  }

  function MemRun(entries: seq<Entry>, ops: seq<Op>): seq<Entry>
    decreases |ops|
  {
    if |ops| == 0 then entries else MemRun(MemStep(entries, ops[0]), ops[1..])
  }

  /** The i-th write of one operation happens at time now(i). */
  type Clock = nat -> u64

  function Kept(entries: seq<Entry>, upTo: int): seq<Entry> {
    if |entries| == 0 then []
    else Kept(entries[..|entries| - 1], upTo) +
         (if entries[|entries| - 1].index > upTo then [entries[|entries| - 1]] else [])
  }

  function EntryRecord(e: Entry, ts: u64): Record { Record(ts, EncodeEntry(e)) }

  function EntryRecords(entries: seq<Entry>, now: Clock): (rs: seq<Record>)
    ensures |rs| == |entries|
  {
    seq(|entries|, i requires 0 <= i < |entries| => EntryRecord(entries[i], now(i)))
  }

  function OpRecord(op: Op, now: Clock): Record
    requires !op.CompactPrefix?
  {
    Record(now(0), if op.Append? then EncodeEntry(op.entry) else EncodeTruncate(op.fromIndex))
  }

  /** A compaction that cannot read the file leaves it alone. */
  function WalStep(file: Bytes, op: Op, now: Clock, crc: Crc): Bytes {
    if op.CompactPrefix? then
      var es := Load(file, crc, false);
      if es.Bad? then file else Frames(EntryRecords(Kept(es.value, op.upTo), now), crc)
    else file + Frame(OpRecord(op, now), crc)
  }

  /** `now(k)` is the clock of the operation after which k more follow. */
  function WalRun(file: Bytes, ops: seq<Op>, now: nat -> Clock, crc: Crc): Bytes
    decreases |ops|
  {
    if |ops| == 0 then file
    else WalRun(WalStep(file, ops[0], now(|ops| - 1), crc), ops[1..], now, crc)
  }

  // ---- What callers must respect ----

  /** The record of this entry has a 32-bit size. */
  predicate Writable(e: Entry) { Storable(e) && |e.data| + 24 < 0x1_0000_0000 }

  predicate OpOk(op: Op) {
    match op
    case Append(e) => Writable(e)
    case TruncateSuffix(i) => InRange(i)
    case CompactPrefix(_) => true
  }

  predicate Ascending(entries: seq<Entry>) {
    forall i, j :: 0 <= i < j < |entries| ==> entries[i].index < entries[j].index
  }

  /** Every entry is appended above the ones present. */
  predicate OpsAscend(entries: seq<Entry>, ops: seq<Op>)
    decreases |ops|
  {
    |ops| > 0 ==>
      && OpOk(ops[0])
      && (ops[0].Append? && |entries| > 0 ==> entries[|entries| - 1].index < ops[0].entry.index)
      && OpsAscend(MemStep(entries, ops[0]), ops[1..])
  }

  // ---- Replaying what was written ----

  lemma {:induction false} ReplayConcat(entries: seq<Entry>, a: seq<Record>, b: seq<Record>, strict: bool)
    ensures Replay(entries, a + b, strict) ==
              var mid := Replay(entries, a, strict); if mid.Bad? then Bad else Replay(mid.value, b, strict)
    decreases |a|
  {
    if |a| == 0 {
      assert a + b == b;
    } else {
      var next := ReplayRecord(entries, a[0].data, strict);
      assert (a + b)[1..] == a[1..] + b;
      if next.Good? { ReplayConcat(next.value, a[1..], b, strict); }
    }
  }

  lemma ReplayOp(entries: seq<Entry>, op: Op, now: Clock, strict: bool)
    requires !op.CompactPrefix? && OpOk(op)
    ensures ReplayRecord(entries, OpRecord(op, now).data, strict) == Good(MemStep(entries, op))
    ensures Sized(OpRecord(op, now))
  {
    if op.Append? { EntryRound(op.entry); } else { TruncateRound(op.fromIndex); }
  }

  lemma {:induction false} ReplayOne(entries: seq<Entry>, op: Op, now: Clock, strict: bool)
    requires !op.CompactPrefix? && OpOk(op)
    ensures Replay(entries, [OpRecord(op, now)], strict) == Good(MemStep(entries, op))
  {
    ReplayOp(entries, op, now, strict);
    assert [OpRecord(op, now)][1..] == [];
  }

  lemma {:induction false} ReplayEntry(entries: seq<Entry>, e: Entry, ts: u64, strict: bool)
    requires Writable(e)
    ensures Replay(entries, [EntryRecord(e, ts)], strict) == Good(entries + [e]) && Sized(EntryRecord(e, ts))
  {
    ReplayOne(entries, Append(e), (i: nat) => ts, strict);
    ReplayOp(entries, Append(e), (i: nat) => ts, strict);
  }

  lemma FrameNext(es: seq<Entry>, i: nat, now: Clock, crc: Crc)
    requires i < |es|
    ensures Frames(EntryRecords(es[..i + 1], now), crc) ==
              Frames(EntryRecords(es[..i], now), crc) + Frame(EntryRecord(es[i], now(i)), crc)
  {
    var r := EntryRecord(es[i], now(i));
    RecordsLast(es[..i + 1], now);
    assert es[..i + 1][..i] == es[..i];
    FramesConcat(EntryRecords(es[..i], now), [r], crc);
    assert Frames([r], crc) == Frame(r, crc) + [];
  }

  lemma RecordsLast(es: seq<Entry>, now: Clock)
    requires |es| > 0
    ensures EntryRecords(es, now) == EntryRecords(es[..|es| - 1], now) + [EntryRecord(es[|es| - 1], now(|es| - 1))]
  {}

  lemma {:induction false} ReplayEntries(es: seq<Entry>, now: Clock, strict: bool)
    requires forall i :: 0 <= i < |es| ==> Writable(es[i])
    ensures Replay([], EntryRecords(es, now), strict) == Good(es)
    ensures AllSized(EntryRecords(es, now))
    decreases |es|
  {
    if |es| > 0 {
      var last := |es| - 1;
      ReplayEntries(es[..last], now, strict);
      ReplayEntry(es[..last], es[last], now(last), strict);
      RecordsLast(es, now);
      ReplayConcat([], EntryRecords(es[..last], now), [EntryRecord(es[last], now(last))], strict);
      assert es[..last] + [es[last]] == es;
    }
  }

  // ---- The file means the entries ----

  /** The file is whole, and both readers load exactly these entries from it. */
  predicate MeansBy(file: Bytes, entries: seq<Entry>, rs: seq<Record>, crc: Crc) {
    && file == Frames(rs, crc) && AllSized(rs)
    && Replay([], rs, true) == Good(entries) && Replay([], rs, false) == Good(entries)
    && forall i :: 0 <= i < |entries| ==> Writable(entries[i])
  }

  ghost predicate Means(file: Bytes, entries: seq<Entry>, crc: Crc) {
    exists rs :: MeansBy(file, entries, rs, crc)
  }

  lemma MeansLoad(file: Bytes, entries: seq<Entry>, crc: Crc, strict: bool)
    requires Means(file, entries, crc)
    ensures Load(file, crc, strict) == Good(entries)
  {
    var rs :| MeansBy(file, entries, rs, crc);
    ScanFrames(rs, [], crc);
    assert Frames(rs, crc) + [] == file && rs + [] == rs;
  }

  lemma OpMeans(file: Bytes, entries: seq<Entry>, op: Op, now: Clock, crc: Crc)
    requires Means(file, entries, crc) && OpOk(op) && !op.CompactPrefix?
    ensures Means(WalStep(file, op, now, crc), MemStep(entries, op), crc)
  {
    var rs :| MeansBy(file, entries, rs, crc);
    var r := OpRecord(op, now);
    ReplayOp(entries, op, now, true);
    ReplayOne(entries, op, now, true);
    ReplayOne(entries, op, now, false);
    ReplayConcat([], rs, [r], true);
    ReplayConcat([], rs, [r], false);
    FramesConcat(rs, [r], crc);
    assert Frames([r], crc) == Frame(r, crc) by { assert Frame(r, crc) + [] == Frame(r, crc); }
    assert MeansBy(WalStep(file, op, now, crc), MemStep(entries, op), rs + [r], crc);
  }

  /** The filter of the file and the cut of the memory agree exactly when no entry to drop follows one to keep. */
  lemma {:induction false} KeptExactly(entries: seq<Entry>, upTo: int)
    ensures Kept(entries, upTo) == entries[CutAt(entries, upTo + 1)..] <==>
              forall i, j :: 0 <= i < j < |entries| && entries[i].index > upTo ==> entries[j].index > upTo
  {
    var c := CutAt(entries, upTo + 1);
    KeptLength(entries, upTo, c);
    if exists j :: c < j < |entries| && entries[j].index <= upTo {
      var j :| c < j < |entries| && entries[j].index <= upTo;
      KeptShort(entries, upTo, c, j);
    } else {
      KeptAll(entries, upTo, c);
    }
  }

  lemma {:induction false} KeptLength(entries: seq<Entry>, upTo: int, c: nat)
    requires c <= |entries| && forall i :: 0 <= i < c ==> entries[i].index <= upTo
    ensures |Kept(entries, upTo)| <= |entries| - c
    decreases |entries|
  {
    if c < |entries| { KeptLength(entries[..|entries| - 1], upTo, c); }
    else if |entries| > 0 { KeptLength(entries[..|entries| - 1], upTo, c - 1); }
  }

  lemma {:induction false} KeptShort(entries: seq<Entry>, upTo: int, c: nat, j: nat)
    requires c <= j < |entries| && (forall i :: 0 <= i < c ==> entries[i].index <= upTo) && entries[j].index <= upTo
    ensures |Kept(entries, upTo)| < |entries| - c
    decreases |entries|
  {
    var shorter := entries[..|entries| - 1];
    if j < |shorter| { KeptShort(shorter, upTo, c, j); } else { KeptLength(shorter, upTo, c); }
  }

  lemma {:induction false} KeptAll(entries: seq<Entry>, upTo: int, c: nat)
    requires c <= |entries| && forall i :: 0 <= i < |entries| ==> (entries[i].index > upTo <==> i >= c)
    ensures Kept(entries, upTo) == entries[c..]
    decreases |entries|
  {
    if |entries| > 0 {
      var shorter := entries[..|entries| - 1];
      KeptAll(shorter, upTo, if c <= |shorter| then c else |shorter|);
      if c < |entries| { assert entries[c..] == shorter[c..] + [entries[|entries| - 1]]; }
    }
  }

  lemma EntriesMean(es: seq<Entry>, now: Clock, crc: Crc)
    requires forall i :: 0 <= i < |es| ==> Writable(es[i])
    ensures Means(Frames(EntryRecords(es, now), crc), es, crc)
  {
    ReplayEntries(es, now, true);
    ReplayEntries(es, now, false);
    assert MeansBy(Frames(EntryRecords(es, now), crc), es, EntryRecords(es, now), crc);
  }

  lemma CompactMeans(file: Bytes, entries: seq<Entry>, upTo: int, now: Clock, crc: Crc)
    requires Means(file, entries, crc) && Ascending(entries)
    ensures Means(WalStep(file, CompactPrefix(upTo), now, crc), MemStep(entries, CompactPrefix(upTo)), crc)
  {
    MeansLoad(file, entries, crc, false);
    AllWritable(file, entries, crc);
    LoadedCompacts(file, entries, upTo, now, crc, WalStep(file, CompactPrefix(upTo), now, crc),
                   MemStep(entries, CompactPrefix(upTo)));
  }

  lemma {:induction false} KeptIsCut(entries: seq<Entry>, upTo: int)
    requires Ascending(entries)
    ensures Kept(entries, upTo) == entries[CutAt(entries, upTo + 1)..]
  {
    KeptExactly(entries, upTo);
  }

  lemma LoadedCompacts(file: Bytes, entries: seq<Entry>, upTo: int, now: Clock, crc: Crc, out: Bytes, kept: seq<Entry>)
    requires Load(file, crc, false) == Good(entries) && Ascending(entries)
    requires forall i :: 0 <= i < |entries| ==> Writable(entries[i])
    requires out == WalStep(file, CompactPrefix(upTo), now, crc) && kept == MemStep(entries, CompactPrefix(upTo))
    ensures Means(out, kept, crc)
  {
    assert kept == Kept(entries, upTo) by { KeptIsCut(entries, upTo); }
    assert forall i :: 0 <= i < |kept| ==> Writable(kept[i]) by { CutWritable(entries, CutAt(entries, upTo + 1)); }
    KeptCompacts(file, entries, upTo, now, crc, kept);
  }

  lemma {:induction false} KeptCompacts(file: Bytes, entries: seq<Entry>, upTo: int, now: Clock, crc: Crc,
                                        kept: seq<Entry>)
    requires Load(file, crc, false) == Good(entries) && kept == Kept(entries, upTo)
    requires forall i :: 0 <= i < |kept| ==> Writable(kept[i])
    ensures Means(WalStep(file, CompactPrefix(upTo), now, crc), kept, crc)
  {
    CompactShape(file, entries, upTo, now, crc);
    EntriesMean(kept, now, crc);
  }

  lemma CutWritable(entries: seq<Entry>, c: nat)
    requires c <= |entries| && forall i :: 0 <= i < |entries| ==> Writable(entries[i])
    ensures forall i :: 0 <= i < |entries[c..]| ==> Writable(entries[c..][i])
  {}

  lemma AllWritable(file: Bytes, entries: seq<Entry>, crc: Crc)
    requires Means(file, entries, crc)
    ensures forall i :: 0 <= i < |entries| ==> Writable(entries[i])
  {}

  lemma {:induction false} CompactShape(file: Bytes, entries: seq<Entry>, upTo: int, now: Clock, crc: Crc)
    requires Load(file, crc, false) == Good(entries)
    ensures WalStep(file, CompactPrefix(upTo), now, crc) == Frames(EntryRecords(Kept(entries, upTo), now), crc)
  {}

  lemma StepAscends(entries: seq<Entry>, op: Op)
    requires Ascending(entries) && (op.Append? && |entries| > 0 ==> entries[|entries| - 1].index < op.entry.index)
    ensures Ascending(MemStep(entries, op))
  {}

  /** Whatever the operations, the file goes on meaning what the memory store holds. */
  lemma {:induction false} RunMeans(file: Bytes, entries: seq<Entry>, ops: seq<Op>, now: nat -> Clock, crc: Crc)
    requires Means(file, entries, crc) && Ascending(entries) && OpsAscend(entries, ops)
    ensures Means(WalRun(file, ops, now, crc), MemRun(entries, ops), crc)
    decreases |ops|
  {
    if |ops| > 0 {
      var clock := now(|ops| - 1);
      StepAscends(entries, ops[0]);
      if ops[0].CompactPrefix? { CompactMeans(file, entries, ops[0].upTo, clock, crc); }
      else { OpMeans(file, entries, ops[0], clock, crc); }
      RunMeans(WalStep(file, ops[0], clock, crc), MemStep(entries, ops[0]), ops[1..], now, crc);
    }
  }

  /** From an empty file: loading after any ascending sequence of operations gives the memory store's entries. */
  lemma {:induction false} LoadRefinesMemory(ops: seq<Op>, now: nat -> Clock, crc: Crc)
    requires OpsAscend([], ops)
    ensures Load(WalRun([], ops, now, crc), crc, true) == Good(MemRun([], ops))
  {
    assert MeansBy([], [], [], crc);
    RunMeans([], [], ops, now, crc);
    MeansLoad(WalRun([], ops, now, crc), MemRun([], ops), crc, true);
  }

  // ---- Crashes ----

  predicate OnlyWrites(ops: seq<Op>) {
    forall i :: 0 <= i < |ops| ==> OpOk(ops[i]) && !ops[i].CompactPrefix?
  }

  function OpRecords(ops: seq<Op>, now: nat -> Clock): (rs: seq<Record>)
    requires OnlyWrites(ops)
    ensures |rs| == |ops|
    decreases |ops|
  {
    if |ops| == 0 then [] else [OpRecord(ops[0], now(|ops| - 1))] + OpRecords(ops[1..], now)
  }

  lemma {:induction false} RunAppends(file: Bytes, ops: seq<Op>, now: nat -> Clock, crc: Crc)
    requires OnlyWrites(ops)
    ensures WalRun(file, ops, now, crc) == file + Frames(OpRecords(ops, now), crc)
    decreases |ops|
  {
    if |ops| == 0 {
      assert file + [] == file;
    } else {
      var r := OpRecord(ops[0], now(|ops| - 1));
      RunAppends(file + Frame(r, crc), ops[1..], now, crc);
      assert OpRecords(ops, now)[1..] == OpRecords(ops[1..], now);
      Assoc(file, Frame(r, crc), Frames(OpRecords(ops[1..], now), crc));
    }
  }

  lemma {:induction false} ReplayCons(entries: seq<Entry>, r: Record, rs: seq<Record>, next: seq<Entry>)
    requires ReplayRecord(entries, r.data, true) == Good(next)
    ensures Replay(entries, [r] + rs, true) == Replay(next, rs, true)
  {
    assert ([r] + rs)[1..] == rs;
  }

  lemma {:induction false} MemRunCons(entries: seq<Entry>, op: Op, ops: seq<Op>)
    ensures MemRun(entries, [op] + ops) == MemRun(MemStep(entries, op), ops)
  {
    assert ([op] + ops)[1..] == ops;
  }

  lemma {:induction false} OpsSized(ops: seq<Op>, now: nat -> Clock)
    requires OnlyWrites(ops)
    ensures AllSized(OpRecords(ops, now))
    decreases |ops|
  {
    if |ops| > 0 {
      ReplayOp([], ops[0], now(|ops| - 1), true);
      OpsSized(ops[1..], now);
    }
  }

  lemma {:induction false} ReplayOps(entries: seq<Entry>, ops: seq<Op>, now: nat -> Clock, k: nat)
    requires OnlyWrites(ops) && k <= |ops|
    ensures Replay(entries, OpRecords(ops, now)[..k], true) == Good(MemRun(entries, ops[..k]))
    decreases k
  {
    if k > 0 {
      var clock, rs := now(|ops| - 1), OpRecords(ops, now);
      var next, more := MemStep(entries, ops[0]), OpRecords(ops[1..], now)[..k - 1];
      ReplayOp(entries, ops[0], clock, true);
      ReplayOps(next, ops[1..], now, k - 1);
      ReplayCons(entries, rs[0], more, next);
      assert rs[..k] == [rs[0]] + more;
      MemRunCons(entries, ops[0], ops[1..][..k - 1]);
      assert ops[..k] == [ops[0]] + ops[1..][..k - 1];
    }
  }

  /** The operations whose records reached the first `n` bytes. */
  function Survivors(file: Bytes, ops: seq<Op>, now: nat -> Clock, n: nat, crc: Crc): seq<Op>
    requires OnlyWrites(ops)
  {
    ops[..Fitting(OpRecords(ops, now), n - |file|, crc)]
  }

  lemma {:induction false} ScanAppended(rs: seq<Record>, more: seq<Record>, m: nat, crc: Crc)
    requires AllSized(rs) && AllSized(more) && m <= |Frames(more, crc)|
    ensures CutsTo(Frames(rs, crc) + Frames(more, crc)[..m], rs + more[..Fitting(more, m, crc)], crc)
  {
    ScanFrames(rs, Frames(more, crc)[..m], crc);
    ScanCut(more, m, crc);
  }

  /** Cutting the file anywhere in what was written since it meant `entries` loads without an error, and gives
      the state after exactly the operations whose records are whole. */
  lemma {:induction false} CrashLoads(file: Bytes, entries: seq<Entry>, ops: seq<Op>, now: nat -> Clock, n: nat,
                                      crc: Crc)
    requires Means(file, entries, crc) && OnlyWrites(ops) && |file| <= n <= |WalRun(file, ops, now, crc)|
    ensures Load(WalRun(file, ops, now, crc)[..n], crc, true) ==
              Good(MemRun(entries, Survivors(file, ops, now, n, crc)))
  {
    var rs :| MeansBy(file, entries, rs, crc);
    var more, m := OpRecords(ops, now), n - |file|;
    var k := Fitting(more, m, crc);
    RunAppends(file, ops, now, crc);
    OpsSized(ops, now);
    ReplayOps(entries, ops, now, k);
    ScanAppended(rs, more, m, crc);
    ReplayConcat([], rs, more[..k], true);
    assert WalRun(file, ops, now, crc)[..n] == Frames(rs, crc) + Frames(more, crc)[..m];
  }

  lemma {:induction false} MemRunConcat(entries: seq<Entry>, a: seq<Op>, b: seq<Op>)
    ensures MemRun(entries, a + b) == MemRun(MemRun(entries, a), b)
    decreases |a|
  {
    if |a| == 0 {
      assert a + b == b;
    } else {
      assert (a + b)[1..] == a[1..] + b;
      MemRunConcat(MemStep(entries, a[0]), a[1..], b);
    }
  }

  /** The same after any history, compactions included, as long as the cut lies behind the last one. */
  lemma {:induction false} CrashAfterHistory(ops: seq<Op>, more: seq<Op>, now: nat -> Clock, later: nat -> Clock,
                                             n: nat, crc: Crc)
    requires OpsAscend([], ops) && OnlyWrites(more)
    requires |WalRun([], ops, now, crc)| <= n <= |WalRun(WalRun([], ops, now, crc), more, later, crc)|
    ensures var file := WalRun([], ops, now, crc);
            Load(WalRun(file, more, later, crc)[..n], crc, true) ==
              Good(MemRun([], ops + Survivors(file, more, later, n, crc)))
  {
    assert MeansBy([], [], [], crc);
    RunMeans([], [], ops, now, crc);
    var file := WalRun([], ops, now, crc);
    CrashLoads(file, MemRun([], ops), more, later, n, crc);
    MemRunConcat([], ops, Survivors(file, more, later, n, crc));
  }

  /** A torn tail is not cut off before the next append. When it is one to three bytes long, everything written
      afterwards is lost and the file no longer loads. */
  lemma TornTailPoisons(file: Bytes, entries: seq<Entry>, torn: Bytes, r: Record, tail: Bytes, crc: Crc, strict: bool)
    requires Means(file, entries, crc) && 1 <= |torn| <= 3 && torn == MAGIC[..|torn|]
    ensures Load(file + torn, crc, strict) == Good(entries)
    ensures Load(file + (torn + Frame(r, crc) + tail), crc, strict) == Bad
  {
    var rs :| MeansBy(file, entries, rs, crc);
    ScanFrames(rs, torn, crc);
    assert rs + [] == rs;
    TornHeader(torn, r, tail, crc);
    ScanFrames(rs, torn + Frame(r, crc) + tail, crc);
  }

  /** A poisoned file stays so: a compaction cannot read it, and everything else appends to it. */
  lemma {:induction false} StaysPoisoned(file: Bytes, entries: seq<Entry>, torn: Bytes, r: Record, tail: Bytes,
                                         ops: seq<Op>, now: nat -> Clock, crc: Crc)
    requires Means(file, entries, crc) && 1 <= |torn| <= 3 && torn == MAGIC[..|torn|]
    ensures Load(WalRun(file + (torn + Frame(r, crc) + tail), ops, now, crc), crc, true) == Bad
    decreases |ops|
  {
    var bad := file + (torn + Frame(r, crc) + tail);
    TornTailPoisons(file, entries, torn, r, tail, crc, true);
    if |ops| > 0 {
      var clock := now(|ops| - 1);
      if ops[0].CompactPrefix? {
        TornTailPoisons(file, entries, torn, r, tail, crc, false);
        StaysPoisoned(file, entries, torn, r, tail, ops[1..], now, crc);
      } else {
        var f := Frame(OpRecord(ops[0], clock), crc);
        Assoc(file, torn + Frame(r, crc) + tail, f);
        Assoc(torn + Frame(r, crc), tail, f);
        StaysPoisoned(file, entries, torn, r, tail + f, ops[1..], now, crc);
      }
    }
  }

  /** A compaction gives the same file whether or not unreadable bytes follow the entries it loads. */
  lemma {:induction false} CompactionRepairs(file: Bytes, entries: seq<Entry>, longer: Bytes, ops: seq<Op>,
                                             now: nat -> Clock, crc: Crc)
    requires Means(file, entries, crc) && Load(longer, crc, false) == Good(entries)
    requires Ascending(entries) && OpsAscend(entries, ops) && |ops| > 0 && ops[0].CompactPrefix?
    ensures Load(WalRun(longer, ops, now, crc), crc, true) == Good(MemRun(entries, ops))
  {
    var clock := now(|ops| - 1);
    MeansLoad(file, entries, crc, false);
    CompactShape(file, entries, ops[0].upTo, clock, crc);
    CompactShape(longer, entries, ops[0].upTo, clock, crc);
    assert WalRun(longer, ops, now, crc) == WalRun(file, ops, now, crc);
    RunMeans(file, entries, ops, now, crc);
    MeansLoad(WalRun(file, ops, now, crc), MemRun(entries, ops), crc, true);
  }

  lemma {:induction false} WholeRuns(file: Bytes, entries: seq<Entry>, ops: seq<Op>, now: nat -> Clock, crc: Crc)
    requires Means(file, entries, crc) && Ascending(entries) && OpsAscend(entries, ops)
    ensures Load(WalRun(file, ops, now, crc), crc, true) == Good(MemRun(entries, ops))
  {
    RunMeans(file, entries, ops, now, crc);
    MeansLoad(WalRun(file, ops, now, crc), MemRun(entries, ops), crc, true);
  }

  lemma Behind(file: Bytes, torn: Bytes, f: Bytes)
    ensures file + torn + f == file + (torn + f + [])
  {}

  lemma {:induction false} WalRunWrite(file: Bytes, ops: seq<Op>, now: nat -> Clock, crc: Crc)
    requires |ops| > 0 && !ops[0].CompactPrefix?
    ensures WalRun(file, ops, now, crc) ==
              WalRun(file + Frame(OpRecord(ops[0], now(|ops| - 1)), crc), ops[1..], now, crc)
  {}

  lemma {:induction false} WritePoisons(file: Bytes, entries: seq<Entry>, torn: Bytes, ops: seq<Op>, now: nat -> Clock,
                                        crc: Crc)
    requires Means(file, entries, crc) && 1 <= |torn| <= 3 && torn == MAGIC[..|torn|]
    requires |ops| > 0 && !ops[0].CompactPrefix?
    ensures Load(WalRun(file + torn, ops, now, crc), crc, true) == Bad
  {
    var r := OpRecord(ops[0], now(|ops| - 1));
    Behind(file, torn, Frame(r, crc));
    WalRunWrite(file + torn, ops, now, crc);
    StaysPoisoned(file, entries, torn, r, [], ops[1..], now, crc);
  }

  /** The exact condition for tails of at most three bytes, over all operations: the file goes on meaning what the
      memory store holds exactly when no tail was left, or the first operation is a compaction. */
  lemma {:induction false} TornTailExactly(file: Bytes, entries: seq<Entry>, torn: Bytes, ops: seq<Op>,
                                           now: nat -> Clock, crc: Crc)
    requires Means(file, entries, crc) && |torn| <= 3 && torn == MAGIC[..|torn|]
    requires Ascending(entries) && OpsAscend(entries, ops) && |ops| > 0
    ensures Load(WalRun(file + torn, ops, now, crc), crc, true) == Good(MemRun(entries, ops)) <==>
              torn == [] || ops[0].CompactPrefix?
  {
    if torn == [] {
      assert file + torn == file;
      WholeRuns(file, entries, ops, now, crc);
    } else if ops[0].CompactPrefix? {
      TornTailPoisons(file, entries, torn, Record(0, []), [], crc, false);
      CompactionRepairs(file, entries, file + torn, ops, now, crc);
    } else {
      WritePoisons(file, entries, torn, ops, now, crc);
    }
  }

  /** A tail with a whole header swallows what is written behind it: until the file outgrows the record that the
      header announces, everything loads without an error and every later append and truncation is lost. */
  lemma {:induction false} LongTailSwallows(file: Bytes, entries: seq<Entry>, r: Record, n: nat, ops: seq<Op>,
                                            now: nat -> Clock, crc: Crc, strict: bool)
    requires Means(file, entries, crc) && Sized(r) && HEADER_SIZE <= n < |Frame(r, crc)| && OnlyWrites(ops)
    requires |WalRun(file + Frame(r, crc)[..n], ops, now, crc)| < |file| + |Frame(r, crc)|
    ensures Load(WalRun(file + Frame(r, crc)[..n], ops, now, crc), crc, strict) == Good(entries)
  {
    var torn, more := Frame(r, crc)[..n], Frames(OpRecords(ops, now), crc);
    RunAppends(file + torn, ops, now, crc);
    Assoc(file, torn, more);
    var rs :| MeansBy(file, entries, rs, crc);
    Announced(r, n, more, crc);
    ScanFrames(rs, torn + more, crc);
    assert rs + [] == rs;
  }

  /** A compaction behind such a tail makes the file whole again, without the operations it swallowed. */
  lemma {:induction false} LongTailCompacted(file: Bytes, entries: seq<Entry>, r: Record, n: nat, lost: seq<Op>,
                                             now: nat -> Clock, ops: seq<Op>, later: nat -> Clock, crc: Crc)
    requires Means(file, entries, crc) && Sized(r) && HEADER_SIZE <= n < |Frame(r, crc)| && OnlyWrites(lost)
    requires |WalRun(file + Frame(r, crc)[..n], lost, now, crc)| < |file| + |Frame(r, crc)|
    requires Ascending(entries) && OpsAscend(entries, ops) && |ops| > 0 && ops[0].CompactPrefix?
    ensures Load(WalRun(WalRun(file + Frame(r, crc)[..n], lost, now, crc), ops, later, crc), crc, true) ==
              Good(MemRun(entries, ops))
  {
    LongTailSwallows(file, entries, r, n, lost, now, crc, false);
    CompactionRepairs(file, entries, WalRun(file + Frame(r, crc)[..n], lost, now, crc), ops, later, crc);
  }

  // ---- Files that no writer left ----

  /** A record whose checksum does not fit makes the file unreadable, for the compaction too, and so it stays. */
  lemma {:induction false} DamageIsReported(file: Bytes, entries: seq<Entry>, bad: Bytes, tail: Bytes, ops: seq<Op>,
                                            now: nat -> Clock, crc: Crc, strict: bool)
    requires Means(file, entries, crc) && Damaged(bad, crc)
    ensures Load(WalRun(file + (bad + tail), ops, now, crc), crc, strict) == Bad
    decreases |ops|
  {
    DamageLoads(file, entries, bad, tail, crc, strict);
    if |ops| > 0 {
      if ops[0].CompactPrefix? {
        DamageLoads(file, entries, bad, tail, crc, false);
        DamageIsReported(file, entries, bad, tail, ops[1..], now, crc, strict);
      } else {
        var f := Frame(OpRecord(ops[0], now(|ops| - 1)), crc);
        Assoc(file, bad + tail, f);
        Assoc(bad, tail, f);
        DamageIsReported(file, entries, bad, tail + f, ops[1..], now, crc, strict);
      }
    }
  }

  lemma DamageLoads(file: Bytes, entries: seq<Entry>, bad: Bytes, tail: Bytes, crc: Crc, strict: bool)
    requires Means(file, entries, crc) && Damaged(bad, crc)
    ensures Load(file + (bad + tail), crc, strict) == Bad
  {
    var rs :| MeansBy(file, entries, rs, crc);
    ScanDamaged(rs, bad, tail, crc);
  }

  /** One more whole record: an empty one is passed over, an entry or a truncation that does not decode is an error, and
      so is an unknown type, but only for LoadAll. A compaction drops such a record, after which the file loads. */
  lemma OddRecord(file: Bytes, entries: seq<Entry>, r: Record, crc: Crc, strict: bool)
    requires Means(file, entries, crc) && Sized(r)
    ensures Load(file + Frame(r, crc), crc, strict) ==
              if r.data == [] then Good(entries)
              else
                var kind, body := r.data[0], r.data[1..];
                if kind == ENTRY_RECORD then
                  (if DecodeEntry(body).Bad? then Bad else Good(entries + [DecodeEntry(body).value]))
                else if kind == TRUNCATE_RECORD then
                  (if DecodeTruncate(body).Bad? then Bad
                   else Good(MemStep(entries, TruncateSuffix(DecodeTruncate(body).value))))
                else if strict then Bad else Good(entries)
  {
    var rs :| MeansBy(file, entries, rs, crc);
    ScanFrames(rs, Frame(r, crc), crc);
    FrameRead(r, [], crc);
    assert Frame(r, crc) + [] == Frame(r, crc) && ScanAll([], crc) == Scanned([], None);
    assert ScanAll(Frame(r, crc), crc) == Scanned([r], None);
    ReplayConcat([], rs, [r], strict);
    assert [r][1..] == [];
  }

  lemma {:induction false} UnknownRecordDropped(file: Bytes, entries: seq<Entry>, r: Record, ops: seq<Op>,
                                                now: nat -> Clock, crc: Crc)
    requires Means(file, entries, crc) && Sized(r) && r.data != [] && r.data[0] !in {ENTRY_RECORD, TRUNCATE_RECORD}
    requires Ascending(entries) && OpsAscend(entries, ops) && |ops| > 0 && ops[0].CompactPrefix?
    ensures Load(file + Frame(r, crc), crc, true) == Bad
    ensures Load(WalRun(file + Frame(r, crc), ops, now, crc), crc, true) == Good(MemRun(entries, ops))
  {
    OddRecord(file, entries, r, crc, true);
    OddRecord(file, entries, r, crc, false);
    CompactionRepairs(file, entries, file + Frame(r, crc), ops, now, crc);
  }

  // ---- What the stores hold, from the operations alone ----

  /** The operation drops whatever has this index. */
  predicate Drops(op: Op, index: int) {
    (op.TruncateSuffix? && op.fromIndex <= index) || (op.CompactPrefix? && op.upTo >= index)
  }

  predicate NoneDrops(ops: seq<Op>, index: int) { forall j :: 0 <= j < |ops| ==> !Drops(ops[j], index) }

  /** Operation k appends the entry, and none after it drops it. */
  predicate Leaves(ops: seq<Op>, k: int, e: Entry) {
    0 <= k < |ops| && ops[k] == Append(e) && NoneDrops(ops[k + 1..], e.index)
  }

  lemma StepHolds(entries: seq<Entry>, op: Op, e: Entry)
    requires Ascending(entries)
    ensures e in MemStep(entries, op) <==> op == Append(e) || (e in entries && !Drops(op, e.index))
  {
    if op.TruncateSuffix? {
      CutSplits(entries, op.fromIndex, e);
    } else if op.CompactPrefix? {
      CutSplits(entries, op.upTo + 1, e);
    }
  }

  lemma {:induction false} CutSplits(entries: seq<Entry>, index: int, e: Entry)
    requires Ascending(entries)
    ensures e in entries[..CutAt(entries, index)] <==> e in entries && e.index < index
    ensures e in entries[CutAt(entries, index)..] <==> e in entries && e.index >= index
  {
    var c := CutAt(entries, index);
    assert forall i :: c <= i < |entries| ==> entries[i].index >= index;
    if e in entries {
      var i :| 0 <= i < |entries| && entries[i] == e;
      if i < c { assert entries[..c][i] == e; } else { assert entries[c..][i - c] == e; }
    }
  }

  ghost predicate Remains(ops: seq<Op>, e: Entry) { exists k :: Leaves(ops, k, e) }

  lemma NoneDropsNext(ops: seq<Op>, index: int)
    requires |ops| > 0
    ensures NoneDrops(ops, index) <==> !Drops(ops[0], index) && NoneDrops(ops[1..], index)
  {
    assert forall j :: 0 <= j < |ops[1..]| ==> ops[1..][j] == ops[j + 1];
  }

  lemma RemainsNext(ops: seq<Op>, e: Entry)
    requires |ops| > 0
    ensures Remains(ops, e) <==> (ops[0] == Append(e) && NoneDrops(ops[1..], e.index)) || Remains(ops[1..], e)
  {
    if k :| Leaves(ops, k, e) {
      if k > 0 { assert ops[1..][k..] == ops[k + 1..] && Leaves(ops[1..], k - 1, e); }
    }
    if k :| Leaves(ops[1..], k, e) {
      assert ops[1..][k + 1..] == ops[k + 2..] && Leaves(ops, k + 1, e);
    }
    if ops[0] == Append(e) && NoneDrops(ops[1..], e.index) { assert Leaves(ops, 0, e); }
  }

  lemma {:induction false} HoldsFrom(entries: seq<Entry>, ops: seq<Op>, e: Entry)
    requires Ascending(entries) && OpsAscend(entries, ops)
    ensures e in MemRun(entries, ops) <==> (e in entries && NoneDrops(ops, e.index)) || Remains(ops, e)
    decreases |ops|
  {
    if |ops| > 0 {
      StepAscends(entries, ops[0]);
      StepHolds(entries, ops[0], e);
      NoneDropsNext(ops, e.index);
      RemainsNext(ops, e);
      HoldsFrom(MemStep(entries, ops[0]), ops[1..], e);
    }
  }

  lemma {:induction false} RunAscends(entries: seq<Entry>, ops: seq<Op>)
    requires Ascending(entries) && OpsAscend(entries, ops)
    ensures Ascending(MemRun(entries, ops))
    decreases |ops|
  {
    if |ops| > 0 {
      StepAscends(entries, ops[0]);
      RunAscends(MemStep(entries, ops[0]), ops[1..]);
    }
  }

  /** The operations alone say what both stores hold: in ascending order, exactly the entries whose append no later
      operation drops, a truncation from at or below their index or a compaction up to it or beyond. */
  lemma {:induction false} StoreHolds(ops: seq<Op>, now: nat -> Clock, e: Entry, crc: Crc)
    requires OpsAscend([], ops)
    ensures var loaded := Load(WalRun([], ops, now, crc), crc, true);
            && loaded == Good(MemRun([], ops)) && Ascending(loaded.value)
            && (e in loaded.value <==> Remains(ops, e))
  {
    assert Means([], [], crc) by { assert MeansBy([], [], [], crc); }
    WholeRuns([], [], ops, now, crc);
    HoldsFrom([], ops, e);
    RunAscends([], ops);
  }

  // ---- The stores in place ----

  class MemLogStore {
    var entries: seq<Entry>

    constructor ()
      ensures entries == []
    {
      entries := [];
    }

    method Append(e: Entry)
      modifies this
      ensures entries == MemStep(old(entries), Op.Append(e))
    {
      entries := entries + [e];
    }

    method TruncateSuffix(fromIndex: int)
      modifies this
      ensures entries == MemStep(old(entries), Op.TruncateSuffix(fromIndex))
    {
      var cutAt := FindCut(entries, fromIndex);
      entries := entries[..cutAt];
    }

    method CompactPrefix(upTo: int)
      modifies this
      ensures entries == MemStep(old(entries), Op.CompactPrefix(upTo))
    {
      var cutAt := FindCut(entries, upTo + 1);
      if cutAt > 0 { entries := entries[cutAt..]; }
    }
  }

  /** The scan both stores and both readers of the file run. */
  method FindCut(entries: seq<Entry>, index: int) returns (cutAt: nat)
    ensures cutAt == CutAt(entries, index)
  {
    cutAt := 0;
    while cutAt < |entries| && entries[cutAt].index < index
      invariant 0 <= cutAt <= |entries|
      invariant CutAt(entries, index) == cutAt + CutAt(entries[cutAt..], index)
    {
      assert entries[cutAt..][1..] == entries[cutAt + 1..];
      cutAt := cutAt + 1;
    }
  }

  /** The switch on the record type. */
  method ReplayInto(entries: seq<Entry>, data: Bytes, strict: bool) returns (r: Decoded<seq<Entry>>)
    ensures r == ReplayRecord(entries, data, strict)
  {
    if |data| == 0 { return Good(entries); }
    if data[0] == ENTRY_RECORD {
      var e := DecodeEntry(data[1..]);
      if e.Bad? { return Bad; }
      return Good(entries + [e.value]);
    }
    if data[0] == TRUNCATE_RECORD {
      var f := DecodeTruncate(data[1..]);
      if f.Bad? { return Bad; }
      var cutAt := FindCut(entries, f.value);
      return Good(entries[..cutAt]);
    }
    return if strict then Bad else Good(entries);
  }

  class WalLogStore {
    const crc: Crc
    var file: Bytes

    constructor (file: Bytes, crc: Crc)
      ensures this.file == file && this.crc == crc
    {
      this.file, this.crc := file, crc;
    }

    method Append(e: Entry, now: Clock)
      modifies this
      ensures file == WalStep(old(file), Op.Append(e), now, crc)
    {
      file := file + Frame(Record(now(0), EncodeEntry(e)), crc);
    }

    method TruncateSuffix(fromIndex: int, now: Clock)
      modifies this
      ensures file == WalStep(old(file), Op.TruncateSuffix(fromIndex), now, crc)
    {
      file := file + Frame(Record(now(0), EncodeTruncate(fromIndex)), crc);
    }

    method LoadAll() returns (r: Decoded<seq<Entry>>)
      ensures r == Load(file, crc, true)
    {
      r := ReplayFile(true);
    }

    method CompactPrefix(upTo: int, now: Clock) returns (ok: bool)
      modifies this
      ensures ok <==> Load(old(file), crc, false).Good?
      ensures file == WalStep(old(file), Op.CompactPrefix(upTo), now, crc)
    {
      var es := ReplayFile(false);
      if es.Bad? { return false; }
      var toKeep := [];
      for i := 0 to |es.value|
        invariant toKeep == Kept(es.value[..i], upTo)
      {
        assert es.value[..i + 1][..i] == es.value[..i];
        if es.value[i].index > upTo { toKeep := toKeep + [es.value[i]]; }
      }
      assert es.value[..|es.value|] == es.value;
      var written := [];
      for i := 0 to |toKeep|
        invariant written == Frames(EntryRecords(toKeep[..i], now), crc)
      {
        written := written + Frame(EntryRecord(toKeep[i], now(i)), crc);
        FrameNext(toKeep, i, now, crc);
      }
      assert toKeep[..|toKeep|] == toKeep;
      file := written;
      return true;
    }

    /** The replay loop of LoadAll and of the compaction. */
    method ReplayFile(strict: bool) returns (r: Decoded<seq<Entry>>)
      ensures r == Load(file, crc, strict)
    {
      var reader := new Reader(file, crc);
      ghost var all := reader.Pending();
      ghost var left := all.records;
      var entries: seq<Entry> := [];
      var ok := reader.Scan();
      while ok
        invariant fresh(reader)
        invariant Replay(entries, left, strict) == Replay([], all.records, strict)
        invariant ok ==> |left| > 0 && left[0] == reader.current && reader.Pending() == Scanned(left[1..], all.error)
        invariant !ok ==> left == [] && reader.lastError == all.error
        decreases |left|
      {
        var next := ReplayInto(entries, reader.current.data, strict);
        if next.Bad? { return Bad; }
        entries, left := next.value, left[1..];
        ok := reader.Scan();
      }
      if reader.lastError.Some? && reader.lastError.value != Truncated { return Bad; }
      return Good(entries);
    }
  }
}
