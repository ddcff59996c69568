/** Restarting the key-value store, after any history and after a crash.

    The index is not stored: recovery replays the file. It fails when the file holds a record the index had no room
    for, which happens exactly when a write has been refused since the last compaction.
 */
module BitcaskRecovery {
  import opened Bytes
  import opened EntryCodec
  import opened Wal
  import opened Bitcask

  /** The store a recovery leaves, over the file it read. */
  function Reopened(file: Bytes, maxKeys: nat, crc: Crc): Store {
    Store(file, |file|, Recovered(file, maxKeys, crc).index, maxKeys)
  }

  /** Bytes behind the last whole record do not change what Get answers. */
  lemma GetWithTail(s: Store, rs: seq<Record>, c: map<Bytes, Bytes>, tail: Bytes, size: int, key: Bytes, crc: Crc)
    requires Inv(s, rs, c, crc)
    ensures Agrees(Store(s.file + tail, size, s.index, s.maxKeys), c, key, crc)
  {
    var m := Last(rs, s.maxKeys);
    if key in s.index {
      assert PointsAt(s.index, rs, m, key, crc) && ShowsAt(c, rs, m, key);
      assert EventAt(rs, m[key]);
      ReadBeforeTail(rs, m[key], tail, crc);
    }
  }

  /** A record whose checksum does not fit makes recovery fail, whatever follows; the index then has every record before
      it, if no write among them was refused. */
  lemma DamagedRecovery(s: Store, rs: seq<Record>, c: map<Bytes, Bytes>, bad: Bytes, tail: Bytes, crc: Crc)
    requires Inv(s, rs, c, crc) && Damaged(bad, crc)
    ensures var r := Recovered(s.file + (bad + tail), s.maxKeys, crc);
            !r.ok && (AllTaken(rs, s.maxKeys) ==> r.index == s.index && r.count == |rs|)
  {
    ScanDamaged(rs, bad, tail, crc);
    ScanFrames(rs, [], crc);
    assert Frames(rs, crc) + [] == s.file && rs + [] == rs;
    RecoverMeans(s, rs, c, crc);
  }

  /** Get never answers with a damaged record. */
  lemma DamagedGet(s: Store, key: Bytes, bad: Bytes, tail: Bytes, crc: Crc)
    requires key in s.index && s.index[key] <= |s.file| && s.file[s.index[key]..] == bad + tail && Damaged(bad, crc)
    ensures GetFrom(s, key, crc) == Unreadable
  {
    DamagedRead(bad, tail, crc);
  }

  lemma {:induction false} ReadBeforeTail(rs: seq<Record>, i: nat, tail: Bytes, crc: Crc)
    requires AllSized(rs) && i < |rs|
    ensures ReadRecordAt(Frames(rs, crc) + tail, |Frames(rs[..i], crc)|, crc) == Got(rs[i], |Frame(rs[i], crc)|)
  {
    var a, f, b := Frames(rs[..i], crc), Frame(rs[i], crc), Frames(rs[i..][1..], crc);
    assert Frames(rs, crc) == a + (f + b) by {
      assert rs == rs[..i] + rs[i..];
      FramesConcat(rs[..i], rs[i..], crc);
    }
    Regroup(a, f, b, tail);
    ReadBehind(a, rs[i], b + tail, crc);
  }

  lemma Regroup(a: Bytes, f: Bytes, b: Bytes, tail: Bytes)
    ensures a + (f + b) + tail == a + (f + (b + tail))
  {
    Assoc(a, f + b, tail);
    Assoc(f, b, tail);
  }

  lemma ReadBehind(a: Bytes, r: Record, tail: Bytes, crc: Crc)
    requires Sized(r)
    ensures ReadRecordAt(a + (Frame(r, crc) + tail), |a|, crc) == Got(r, |Frame(r, crc)|)
  {
    FrameRead(r, tail, crc);
    assert (a + (Frame(r, crc) + tail))[|a|..] == Frame(r, crc) + tail;
  }

  /** Recovering a file cut after n bytes, when `s` is a store holding just the records that are whole. */
  lemma {:induction false} RecoverCut(s: Store, rs: seq<Record>, c: map<Bytes, Bytes>, all: seq<Record>, n: nat,
                                      key: Bytes, crc: Crc)
    requires Inv(s, rs, c, crc) && AllSized(all) && n <= |Frames(all, crc)| && rs == all[..Fitting(all, n, crc)]
    ensures var file := Frames(all, crc)[..n];
            var r := Recovered(file, s.maxKeys, crc);
            && (r.ok <==> AllTaken(rs, s.maxKeys))
            && (r.ok ==> r.count == |rs| && Agrees(Reopened(file, s.maxKeys, crc), c, key, crc))
  {
    var file := Frames(all, crc)[..n];
    ScanCut(all, n, crc);
    assert rs[0..] == rs && rs[..0] == [];
    RecoverLoop(rs, 0, 0, map[], s.maxKeys, crc);
    var r := Recovered(file, s.maxKeys, crc);
    if r.ok {
      PointsOnce(r.index, s.index, rs, Last(rs, s.maxKeys), crc);
      var tail := CutTail(rs, all, n, crc);
      GetWithTail(s, rs, c, tail, n, key, crc);
    }
  }

  lemma CutTail(rs: seq<Record>, all: seq<Record>, n: nat, crc: Crc) returns (tail: Bytes)
    requires n <= |Frames(all, crc)| && rs == all[..Fitting(all, n, crc)]
    ensures Frames(all, crc)[..n] == Frames(rs, crc) + tail
  {
    FittingMeans(all, n, crc);
    assert all == rs + all[|rs|..];
    FramesConcat(rs, all[|rs|..], crc);
    tail := Frames(all, crc)[|Frames(rs, crc)|..n];
  }

  /** From an empty store, after any writes and compactions: recovery succeeds exactly when every write since the
      last compaction was accepted, and then gives back the store as it was, so that Get agrees with the plain map
      on every key. */
  lemma {:induction false} RecoveryAgrees(maxKeys: nat, ops: seq<Op>, key: Bytes, crc: Crc)
    requires OpsOk(Fresh(maxKeys), ops, crc)
    ensures var s := Run(Fresh(maxKeys), ops, crc);
            var r := Recovered(s.file, maxKeys, crc);
            && (r.ok <==> RunClean(true, map[], maxKeys, ops))
            && (r.ok ==> Reopened(s.file, maxKeys, crc) == s && Agrees(s, RunMap(map[], maxKeys, ops), key, crc))
  {
    assert Inv(Fresh(maxKeys), [], map[], crc);
    var rs := RunKeeps(Fresh(maxKeys), [], map[], ops, crc);
    RecoverMeans(Run(Fresh(maxKeys), ops, crc), rs, RunMap(map[], maxKeys, ops), crc);
    StoreAgrees(maxKeys, ops, key, crc);
  }

  // ---- A crash while records are being appended ----

  predicate OnlyWrites(ops: seq<Op>) { forall i :: 0 <= i < |ops| ==> ops[i].WriteEvent? }

  /** The records these writes append. */
  function Logged(ops: seq<Op>): seq<Record>
    requires OnlyWrites(ops)
  {
    seq(|ops|, i requires 0 <= i < |ops| => EventRecord(ops[i].event, ops[i].ts))
  }

  lemma {:induction false} OpsConcat(s: Store, a: seq<Op>, b: seq<Op>, crc: Crc)
    ensures OpsOk(s, a + b, crc) <==> OpsOk(s, a, crc) && OpsOk(Run(s, a, crc), b, crc)
    ensures OpsOk(s, a + b, crc) ==> Run(s, a + b, crc) == Run(Run(s, a, crc), b, crc)
    decreases |a|
  {
    if |a| == 0 {
      assert a + b == b;
    } else {
      assert (a + b)[1..] == a[1..] + b;
      if OpOk(s, a[0]) { OpsConcat(Step(s, a[0], crc), a[1..], b, crc); }
    }
  }

  lemma {:induction false} WritesAppend(s: Store, ws: seq<Op>, crc: Crc)
    requires OpsOk(s, ws, crc) && OnlyWrites(ws)
    ensures Run(s, ws, crc).file == s.file + Frames(Logged(ws), crc)
    decreases |ws|
  {
    if |ws| > 0 {
      WritesAppend(Step(s, ws[0], crc), ws[1..], crc);
      assert Logged(ws)[1..] == Logged(ws[1..]);
      Assoc(s.file, Frame(Logged(ws)[0], crc), Frames(Logged(ws[1..]), crc));
    }
  }

  /** A file determines its records. */
  lemma {:induction false} FramesOnce(a: seq<Record>, b: seq<Record>, crc: Crc)
    requires AllSized(a) && AllSized(b) && Frames(a, crc) == Frames(b, crc)
    ensures a == b
  {
    ScanFrames(a, [], crc);
    ScanFrames(b, [], crc);
    assert Frames(a, crc) + [] == Frames(a, crc) && Frames(b, crc) + [] == Frames(b, crc);
    assert a + [] == a && b + [] == b;
  }

  lemma {:induction false} FittingConcat(a: seq<Record>, b: seq<Record>, n: nat, crc: Crc)
    requires n >= |Frames(a, crc)|
    ensures Fitting(a + b, n, crc) == |a| + Fitting(b, n - |Frames(a, crc)|, crc)
    decreases |a|
  {
    if |a| == 0 {
      assert a + b == b;
    } else {
      assert (a + b)[1..] == a[1..] + b;
      FittingConcat(a[1..], b, n - |Frame(a[0], crc)|, crc);
    }
  }

  lemma {:induction false} LoggedSized(s: Store, ws: seq<Op>, crc: Crc)
    requires OpsOk(s, ws, crc) && OnlyWrites(ws)
    ensures AllSized(Logged(ws))
    decreases |ws|
  {
    if |ws| > 0 {
      LoggedSized(Step(s, ws[0], crc), ws[1..], crc);
      EventIsEvent(ws[0].event, ws[0].ts);
      forall i | 0 <= i < |ws| ensures Sized(Logged(ws)[i]) {
        if i > 0 { assert Logged(ws)[i] == Logged(ws[1..])[i - 1]; }
      }
    }
  }

  /** The records in the file after any history, and after writes on top of it. */
  lemma RecordsAfter(maxKeys: nat, ops: seq<Op>, ws: seq<Op>, crc: Crc) returns (rs: seq<Record>)
    requires OpsOk(Fresh(maxKeys), ops, crc) && OpsOk(Run(Fresh(maxKeys), ops, crc), ws, crc) && OnlyWrites(ws)
    ensures OpsOk(Fresh(maxKeys), ops + ws, crc)
    ensures Inv(Run(Fresh(maxKeys), ops + ws, crc), rs, RunMap(map[], maxKeys, ops + ws), crc)
    ensures Run(Fresh(maxKeys), ops + ws, crc).maxKeys == maxKeys
    ensures AllTaken(rs, maxKeys) <==> RunClean(true, map[], maxKeys, ops + ws)
    ensures Run(Fresh(maxKeys), ops + ws, crc).file == Run(Fresh(maxKeys), ops, crc).file + Frames(Logged(ws), crc)
  {
    assert Inv(Fresh(maxKeys), [], map[], crc);
    OpsConcat(Fresh(maxKeys), ops, ws, crc);
    WritesAppend(Run(Fresh(maxKeys), ops, crc), ws, crc);
    rs := RunKeeps(Fresh(maxKeys), [], map[], ops + ws, crc);
  }

  lemma {:induction false} WritesPrefix(s: Store, ws: seq<Op>, j: nat, crc: Crc)
    requires OpsOk(s, ws, crc) && OnlyWrites(ws) && j <= |ws|
    ensures OpsOk(s, ws[..j], crc) && OnlyWrites(ws[..j]) && Logged(ws[..j]) == Logged(ws)[..j]
  {
    assert ws == ws[..j] + ws[j..];
    OpsConcat(s, ws[..j], ws[j..], crc);
  }

  /** After any history and any further writes, cut the file at any byte behind the history. Recovery sees exactly
      the writes whose records are whole: it succeeds exactly when all of those since the last compaction were
      accepted, and then Get agrees on every key with the plain map after them. */
  lemma {:induction false} CrashAgrees(maxKeys: nat, ops: seq<Op>, ws: seq<Op>, n: nat, key: Bytes, crc: Crc)
    requires OpsOk(Fresh(maxKeys), ops, crc) && OpsOk(Run(Fresh(maxKeys), ops, crc), ws, crc) && OnlyWrites(ws)
    requires |Run(Fresh(maxKeys), ops, crc).file| <= n <= |Run(Run(Fresh(maxKeys), ops, crc), ws, crc).file|
    ensures var base := Run(Fresh(maxKeys), ops, crc);
            var file, survived := Run(base, ws, crc).file[..n], ops + ws[..Fitting(Logged(ws), n - |base.file|, crc)];
            && (Recovered(file, maxKeys, crc).ok <==> RunClean(true, map[], maxKeys, survived))
            && (Recovered(file, maxKeys, crc).ok ==>
                  Agrees(Reopened(file, maxKeys, crc), RunMap(map[], maxKeys, survived), key, crc))
  {
    var base := Run(Fresh(maxKeys), ops, crc);
    var j := Fitting(Logged(ws), n - |base.file|, crc);
    var all, rs := CutRecords(maxKeys, ops, ws, n, j, crc);
    OpsConcat(Fresh(maxKeys), ops, ws[..j], crc);
    RecoverCut(Run(Fresh(maxKeys), ops + ws[..j], crc), rs, RunMap(map[], maxKeys, ops + ws[..j]), all, n, key, crc);
  }

  lemma CutRecords(maxKeys: nat, ops: seq<Op>, ws: seq<Op>, n: nat, j: nat, crc: Crc)
    returns (all: seq<Record>, rs: seq<Record>)
    requires OpsOk(Fresh(maxKeys), ops, crc) && OpsOk(Run(Fresh(maxKeys), ops, crc), ws, crc) && OnlyWrites(ws)
    requires |Run(Fresh(maxKeys), ops, crc).file| <= n
    requires j == Fitting(Logged(ws), n - |Run(Fresh(maxKeys), ops, crc).file|, crc)
    ensures AllSized(all) && Frames(all, crc) == Run(Run(Fresh(maxKeys), ops, crc), ws, crc).file
    ensures rs == all[..Fitting(all, n, crc)] && OpsOk(Run(Fresh(maxKeys), ops, crc), ws[..j], crc) &&
            OpsOk(Fresh(maxKeys), ops + ws[..j], crc)
    ensures Inv(Run(Fresh(maxKeys), ops + ws[..j], crc), rs, RunMap(map[], maxKeys, ops + ws[..j]), crc)
    ensures Run(Fresh(maxKeys), ops + ws[..j], crc).maxKeys == maxKeys
    ensures AllTaken(rs, maxKeys) <==> RunClean(true, map[], maxKeys, ops + ws[..j])
  {
    var base, log := Run(Fresh(maxKeys), ops, crc), Logged(ws);
    var old_ := RecordsAfter(maxKeys, ops, [], crc);
    assert ops + [] == ops && Logged([]) == [] && base.file + [] == base.file;
    WritesPrefix(base, ws, j, crc);
    rs := RecordsAfter(maxKeys, ops, ws[..j], crc);
    WritesAppend(base, ws, crc);
    LoggedSized(base, ws, crc);
    all := old_ + log;
    SplitRecords(old_, log, rs, n, j, crc);
  }

  lemma {:induction false} SplitRecords(old_: seq<Record>, log: seq<Record>, rs: seq<Record>, n: nat, j: nat, crc: Crc)
    requires AllSized(old_) && AllSized(log) && AllSized(rs) && n >= |Frames(old_, crc)|
    requires j == Fitting(log, n - |Frames(old_, crc)|, crc) &&
             Frames(rs, crc) == Frames(old_, crc) + Frames(log[..j], crc)
    ensures var all := old_ + log;
            AllSized(all) && Frames(all, crc) == Frames(old_, crc) + Frames(log, crc) &&
                rs == all[..Fitting(all, n, crc)]
  {
    FramesConcat(old_, log, crc);
    FramesConcat(old_, log[..j], crc);
    FramesOnce(rs, old_ + log[..j], crc);
    FittingConcat(old_, log, n, crc);
    assert (old_ + log)[..|old_| + j] == old_ + log[..j];
  }

  // ---- A file cut inside what a compaction wrote ----

  lemma {:induction false} OneMoreFrame(file: Bytes, rest: seq<Record>, r: Record, crc: Crc)
    ensures file + Frames(rest, crc) + Frame(r, crc) == file + Frames(rest + [r], crc)
  {
    FramesConcat(rest, [r], crc);
    assert Frames([r], crc) == Frame(r, crc) + [];
    Assoc(file, Frames(rest, crc), Frame(r, crc));
  }

  /** The records a compaction writes for the first j keys begin the file it writes for all. */
  lemma {:induction false} CompactPrefix(s: Store, c: map<Bytes, Bytes>, order: seq<Bytes>, j: nat, now: nat -> u64,
                                         crc: Crc)
    returns (w: Rewrite, v: Rewrite, vr: seq<Record>, rest: seq<Record>)
    requires j <= |order| && c.Keys == s.index.Keys && |s.index| <= s.maxKeys
    requires forall i, j :: 0 <= i < j < |order| ==> order[i] != order[j]
    requires forall i :: 0 <= i < |order| ==> order[i] in s.index && order[i] in c && Current(s, c, order[i], crc)
    ensures Rewritten(s, order, now, crc) == Good(w) && Built(s, order[..j], v, vr, c, crc)
    ensures w.file == v.file + Frames(rest, crc) && |rest| == |order| - j && AllSized(rest)
    decreases |order|
  {
    if j == |order| {
      assert order[..j] == order;
      v, vr := CompactLoop(s, c, order, now, crc);
      w, rest := v, [];
    } else {
      var n := |order| - 1;
      var key, done, u := order[n], order[..n], Rewrite([], map[]);
      assert Current(s, c, key, crc) && done[..j] == order[..j];
      var r := EventRecord(Event(key, c[key]), now(n));
      u, v, vr, rest := CompactPrefix(s, c, done, j, now, crc);
      RewrittenStep(s, order, c, now, u, crc);
      EventIsEvent(Event(key, c[key]), now(n));
      OneMoreFrame(v.file, rest, r, crc);
      BothSized(rest, [r]);
      w, rest := Rewrite(u.file + Frame(r, crc), u.offsets[key := |u.file|]), rest + [r];
    }
  }

  /** Cut the file, some writes after a compaction, inside what the compaction wrote: recovery succeeds, and Get
      finds the keys the walk visited first, with their payloads, and no others. */
  lemma {:induction false} CrashInCompacted(maxKeys: nat, ops: seq<Op>, order: seq<Bytes>, now: nat -> u64, ws: seq<Op>,
                                            n: nat, key: Bytes, crc: Crc)
    requires OpsOk(Fresh(maxKeys), ops, crc) && Walks(order, Run(Fresh(maxKeys), ops, crc).index) && OnlyWrites(ws)
    requires OpsOk(Compacted(Run(Fresh(maxKeys), ops, crc), order, now, crc), ws, crc)
    requires n <= |Compacted(Run(Fresh(maxKeys), ops, crc), order, now, crc).file|
    ensures var s, c := Compacted(Run(Fresh(maxKeys), ops, crc), order, now, crc), RunMap(map[], maxKeys, ops);
            n <= |Run(s, ws, crc).file| && SomeKeys(Run(s, ws, crc).file[..n], maxKeys, c, order, key, crc)
  {
    var s, c := Run(Fresh(maxKeys), ops, crc), RunMap(map[], maxKeys, ops);
    assert Inv(Fresh(maxKeys), [], map[], crc);
    var rs := RunKeeps(Fresh(maxKeys), [], map[], ops, crc);
    CutCompacted(s, rs, c, order, now, n, key, crc);
    WritesAppend(Compacted(s, order, now, crc), ws, crc);
    CutFirst(Compacted(s, order, now, crc).file, Frames(Logged(ws), crc), n);
  }

  lemma CutFirst(a: Bytes, b: Bytes, n: nat)
    requires n <= |a|
    ensures (a + b)[..n] == a[..n]
  {}

  /** The file recovers, and Get then shows the keys at the front of this order, as many as there are records. */
  predicate SomeKeys(file: Bytes, maxKeys: nat, c: map<Bytes, Bytes>, order: seq<Bytes>, key: Bytes, crc: Crc) {
    var r := Recovered(file, maxKeys, crc);
    && r.ok && r.count <= |order| && (forall i :: 0 <= i < |order| ==> order[i] in c)
    && Agrees(Reopened(file, maxKeys, crc), Part(c, order[..r.count]), key, crc)
  }

  lemma CutCompacted(s: Store, rs: seq<Record>, c: map<Bytes, Bytes>, order: seq<Bytes>, now: nat -> u64, n: nat,
                     key: Bytes, crc: Crc)
    requires Inv(s, rs, c, crc) && Walks(order, s.index) && n <= |Compacted(s, order, now, crc).file|
    ensures SomeKeys(Compacted(s, order, now, crc).file[..n], s.maxKeys, c, order, key, crc)
  {
    Bitcask.Bounded(s, rs, c, crc);
    forall i | 0 <= i < |order| ensures Current(s, c, order[i], crc) { CurrentEvent(s, rs, c, order[i], crc); }
    var all, t, vr := CompactedCut(s, c, order, now, n, crc);
    SomeRecovered(t, vr, all, n, c, order, key, crc);
  }

  lemma {:induction false} SomeRecovered(t: Store, vr: seq<Record>, all: seq<Record>, n: nat, c: map<Bytes, Bytes>,
                                         order: seq<Bytes>, key: Bytes, crc: Crc)
    requires AllSized(all) && n <= |Frames(all, crc)| && vr == all[..Fitting(all, n, crc)]
    requires |vr| <= |order| && (forall i :: 0 <= i < |order| ==> order[i] in c)
    requires Inv(t, vr, Part(c, order[..|vr|]), crc) && AllTaken(vr, t.maxKeys)
    ensures SomeKeys(Frames(all, crc)[..n], t.maxKeys, c, order, key, crc)
  {
    RecoverCut(t, vr, Part(c, order[..|vr|]), all, n, key, crc);
  }

  lemma CompactedCut(s: Store, c: map<Bytes, Bytes>, order: seq<Bytes>, now: nat -> u64, n: nat, crc: Crc)
    returns (all: seq<Record>, t: Store, vr: seq<Record>)
    requires c.Keys == s.index.Keys && |s.index| <= s.maxKeys && Walks(order, s.index)
    requires forall i :: 0 <= i < |order| ==> order[i] in c && Current(s, c, order[i], crc)
    ensures Compacted(s, order, now, crc).file == Frames(all, crc) && AllSized(all) && vr == all[..Fitting(all, n, crc)]
    ensures |vr| <= |order| && Inv(t, vr, Part(c, order[..|vr|]), crc) && AllTaken(vr, s.maxKeys) &&
            t.maxKeys == s.maxKeys
  {
    var w := Rewrite([], map[]);
    w, all := CompactLoop(s, c, order, now, crc);
    var j := Fitting(all, n, crc);
    var x, v, u, rest := CompactPrefix(s, c, order, j, now, crc);
    vr, t := u, Building(s, v);
    BothSized(vr, rest);
    SplitCompacted(all, vr, rest, crc);
    Begins(vr, rest);
  }

  lemma {:induction false} SplitCompacted(all: seq<Record>, vr: seq<Record>, rest: seq<Record>, crc: Crc)
    requires AllSized(all) && AllSized(vr + rest) && Frames(all, crc) == Frames(vr, crc) + Frames(rest, crc)
    ensures all == vr + rest
  {
    FramesConcat(vr, rest, crc);
    FramesOnce(all, vr + rest, crc);
  }

  lemma BothSized(a: seq<Record>, b: seq<Record>)
    requires AllSized(a) && AllSized(b)
    ensures AllSized(a + b)
  {}

  lemma Begins(a: seq<Record>, b: seq<Record>)
    ensures (a + b)[..|a|] == a
  {}

  // ---- What follows a torn tail ----

  /** A tail of up to three bytes: the start of a record whose header was not finished. */
  predicate Torn(torn: Bytes) { |torn| <= 3 && torn == MAGIC[..|torn|] }

  /** The index is right for the map, and between the records of the file lies a torn tail. */
  predicate TornInv(s: Store, rs: seq<Record>, torn: Bytes, more: seq<Record>, c: map<Bytes, Bytes>, crc: Crc) {
    && AllSized(rs) && AllSized(more) && s.file == Frames(rs, crc) + (torn + Frames(more, crc)) && s.size == |s.file|
    && s.index.Keys == c.Keys && |s.index| <= s.maxKeys
    && forall k {:trigger Current(s, c, k, crc)} :: k in s.index ==> Current(s, c, k, crc)
  }

  lemma TornStart(s: Store, rs: seq<Record>, c: map<Bytes, Bytes>, torn: Bytes, t: Store, crc: Crc)
    requires Inv(s, rs, c, crc) && t == Store(s.file + torn, |s.file + torn|, s.index, s.maxKeys)
    ensures TornInv(t, rs, torn, [], c, crc)
  {
    Bitcask.Bounded(s, rs, c, crc);
    assert s.file + torn == s.file + (torn + []);
    forall k | k in t.index ensures Current(t, c, k, crc) {
      CurrentEvent(s, rs, c, k, crc);
      StillCurrent(s, t, c, c, k, crc);
    }
  }

  /** A key whose entry and payload stay is still current in a longer file. */
  lemma StillCurrent(s: Store, t: Store, c: map<Bytes, Bytes>, d: map<Bytes, Bytes>, k: Bytes, crc: Crc)
    requires Current(s, c, k, crc) && k in t.index && t.index[k] == s.index[k] && k in d && d[k] == c[k]
    requires |s.file| <= |t.file| && t.file[..|s.file|] == s.file
    ensures Current(t, d, k, crc)
  {
    var o := ReadRecordAt(s.file, s.index[k], crc);
    ReadsOn(s.file, t.file, s.index[k], o.record, o.size, crc);
  }

  lemma NewCurrent(s: Store, e: Event, ts: u64, c: map<Bytes, Bytes>, crc: Crc)
    requires s.size == |s.file| && Fits(e) && Accepts(s.index, s.maxKeys, e.source)
    ensures Current(Write(s, e, ts, crc), c[e.source := e.payload], e.source, crc)
  {
    EventIsEvent(e, ts);
    AppendedRead(s.file, EventRecord(e, ts), crc);
  }

  lemma {:induction false} TornWriteFile(rs: seq<Record>, torn: Bytes, more: seq<Record>, r: Record, crc: Crc)
    ensures Frames(rs, crc) + (torn + Frames(more, crc)) + Frame(r, crc) ==
              Frames(rs, crc) + (torn + Frames(more + [r], crc))
  {
    Assoc(Frames(rs, crc), torn + Frames(more, crc), Frame(r, crc));
    OneMoreFrame(torn, more, r, crc);
  }

  lemma TornWrite(s: Store, rs: seq<Record>, torn: Bytes, more: seq<Record>, c: map<Bytes, Bytes>, e: Event, ts: u64,
                  crc: Crc)
    requires TornInv(s, rs, torn, more, c, crc) && Fits(e)
    ensures TornInv(Write(s, e, ts, crc), rs, torn, more + [EventRecord(e, ts)], Put(c, s.maxKeys, e), crc)
  {
    var t, d := Write(s, e, ts, crc), Put(c, s.maxKeys, e);
    EventIsEvent(e, ts);
    TornWriteFile(rs, torn, more, EventRecord(e, ts), crc);
    BothSized(more, [EventRecord(e, ts)]);
    SameKeys(s.index, c);
    assert t.file[..|s.file|] == s.file;
    forall k | k in t.index ensures Current(t, d, k, crc) {
      if k == e.source && Accepts(s.index, s.maxKeys, k) {
        NewCurrent(s, e, ts, c, crc);
      } else {
        assert Current(s, c, k, crc);
        StillCurrent(s, t, c, d, k, crc);
      }
    }
  }

  /** A compaction copies the records the index points to, and so leaves the torn tail behind. */
  lemma TornCompaction(s: Store, rs: seq<Record>, torn: Bytes, more: seq<Record>, c: map<Bytes, Bytes>,
                       order: seq<Bytes>, now: nat -> u64, crc: Crc) returns (cr: seq<Record>)
    requires TornInv(s, rs, torn, more, c, crc) && Walks(order, s.index)
    ensures Inv(Compacted(s, order, now, crc), cr, c, crc) && AllTaken(cr, s.maxKeys)
    ensures Compacted(s, order, now, crc).maxKeys == s.maxKeys
  {
    forall i | 0 <= i < |order| ensures Current(s, c, order[i], crc) { assert order[i] in s.index; }
    var w := Rewrite([], map[]);
    w, cr := CompactLoop(s, c, order, now, crc);
    BuiltWhole(s, order, w, cr, c, crc);
  }

  /** With a record behind it, the torn tail makes recovery fail. */
  lemma TornFails(s: Store, rs: seq<Record>, torn: Bytes, more: seq<Record>, c: map<Bytes, Bytes>, crc: Crc)
    requires TornInv(s, rs, torn, more, c, crc) && Torn(torn) && torn != [] && more != []
    ensures !Recovered(s.file, s.maxKeys, crc).ok
  {
    var f, tail := Frame(more[0], crc), Frames(more[1..], crc);
    Assoc(torn, f, tail);
    TornHeader(torn, more[0], tail, crc);
    ScanFrames(rs, torn + f + tail, crc);
  }

  lemma TornGet(s: Store, rs: seq<Record>, torn: Bytes, more: seq<Record>, c: map<Bytes, Bytes>, key: Bytes, crc: Crc)
    requires TornInv(s, rs, torn, more, c, crc)
    ensures Agrees(s, c, key, crc)
  {
    if key in s.index { assert Current(s, c, key, crc); }
  }

  lemma {:induction false} TornRun(s: Store, rs: seq<Record>, torn: Bytes, more: seq<Record>, c: map<Bytes, Bytes>,
                                   ops: seq<Op>, key: Bytes, crc: Crc)
    requires TornInv(s, rs, torn, more, c, crc) && OpsOk(s, ops, crc)
    requires Torn(torn) && torn != [] && (more != [] || ops != [])
    ensures Agrees(Run(s, ops, crc), RunMap(c, s.maxKeys, ops), key, crc)
    ensures Recovered(Run(s, ops, crc).file, s.maxKeys, crc).ok <==> RunClean(false, c, s.maxKeys, ops)
    decreases |ops|
  {
    if |ops| == 0 {
      TornGet(s, rs, torn, more, c, key, crc);
      TornFails(s, rs, torn, more, c, crc);
    } else if ops[0].WriteEvent? {
      var e, ts := ops[0].event, ops[0].ts;
      TornWrite(s, rs, torn, more, c, e, ts, crc);
      TornRun(Step(s, ops[0], crc), rs, torn, more + [EventRecord(e, ts)], Put(c, s.maxKeys, e), ops[1..], key, crc);
    } else {
      var cr := TornCompaction(s, rs, torn, more, c, ops[0].order, ops[0].now, crc);
      WholeRun(Step(s, ops[0], crc), cr, c, ops[1..], key, crc);
    }
  }

  lemma {:induction false} WholeRun(s: Store, rs: seq<Record>, c: map<Bytes, Bytes>, ops: seq<Op>, key: Bytes, crc: Crc)
    requires Inv(s, rs, c, crc) && OpsOk(s, ops, crc)
    ensures Agrees(Run(s, ops, crc), RunMap(c, s.maxKeys, ops), key, crc)
    ensures Recovered(Run(s, ops, crc).file, s.maxKeys, crc).ok <==>
              RunClean(AllTaken(rs, s.maxKeys), c, s.maxKeys, ops)
  {
    var fr := RunKeeps(s, rs, c, ops, crc);
    GetMeans(Run(s, ops, crc), fr, RunMap(c, s.maxKeys, ops), key, crc);
    RecoverMeans(Run(s, ops, crc), fr, RunMap(c, s.maxKeys, ops), crc);
  }

  lemma RecoverTorn(s: Store, rs: seq<Record>, c: map<Bytes, Bytes>, torn: Bytes, crc: Crc)
    requires Inv(s, rs, c, crc) && AllTaken(rs, s.maxKeys) && Torn(torn)
    ensures Recovered(s.file + torn, s.maxKeys, crc).ok && Recovered(s.file + torn, s.maxKeys, crc).index == s.index
  {
    ScanFrames(rs, torn, crc);
    assert rs + [] == rs && rs[0..] == rs && rs[..0] == [];
    RecoverLoop(rs, 0, 0, map[], s.maxKeys, crc);
    PointsOnce(Recovered(s.file + torn, s.maxKeys, crc).index, s.index, rs, Last(rs, s.maxKeys), crc);
  }

  /** A crash leaves a tail of at most three bytes behind a history without refused writes, and the store is
      recovered and goes on. Get agrees with the plain map all the time. The next recovery succeeds exactly when every
      write since the last compaction was accepted and either there was no tail or there has been a compaction. */
  lemma {:induction false} SecondRecovery(maxKeys: nat, ops: seq<Op>, torn: Bytes, later: seq<Op>, key: Bytes, crc: Crc)
    requires OpsOk(Fresh(maxKeys), ops, crc) && RunClean(true, map[], maxKeys, ops) && Torn(torn) && later != []
    requires OpsOk(Reopened(Run(Fresh(maxKeys), ops, crc).file + torn, maxKeys, crc), later, crc)
    ensures var t, c := Reopened(Run(Fresh(maxKeys), ops, crc).file + torn, maxKeys, crc), RunMap(map[], maxKeys, ops);
            && Agrees(Run(t, later, crc), RunMap(c, maxKeys, later), key, crc)
            && (Recovered(Run(t, later, crc).file, maxKeys, crc).ok <==> RunClean(torn == [], c, maxKeys, later))
  {
    var s, c := Run(Fresh(maxKeys), ops, crc), RunMap(map[], maxKeys, ops);
    assert Inv(Fresh(maxKeys), [], map[], crc);
    var rs := RunKeeps(Fresh(maxKeys), [], map[], ops, crc);
    var t := Reopened(s.file + torn, maxKeys, crc);
    RecoverTorn(s, rs, c, torn, crc);
    if torn == [] {
      assert s.file + torn == s.file;
      WholeRun(t, rs, c, later, key, crc);
    } else {
      TornStart(s, rs, c, torn, t, crc);
      TornRun(t, rs, torn, [], c, later, key, crc);
    }
  }
}
