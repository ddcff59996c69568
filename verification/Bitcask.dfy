/** The key-value store over a write-ahead log: an in-memory index of the latest record of each key.

    Events are keyed by their source. A write whose key is new when the index is full reaches the file but not
    the index, and reports an error. What the store means is a plain map with the same limit; file, index and
    size tracker are shown to follow it through writes, compactions in any map order, and recovery.
 */
module Bitcask {
  import opened Bytes
  import opened RaftLog
  import Quorum
  import opened EntryCodec
  import opened Wal

  datatype Event = Event(source: Bytes, payload: Bytes)

  function EncodeEvent(e: Event): Bytes {
    Be(2, |e.source| % 0x1_0000) + e.source + Be(2, |e.payload| % 0x1_0000) + e.payload
  }

  /** Bytes behind the payload are ignored. */
  function DecodeEvent(data: Bytes): Decoded<Event> {
    if |data| < 2 then Bad
    else
      var n := BeValue(data[..2]);
      if |data| < 2 + n + 2 then Bad
      else
        var m := BeValue(data[2 + n..4 + n]);
        if |data| < 4 + n + m then Bad
        else Good(Event(data[2..2 + n], data[4 + n..4 + n + m]))
  }

  predicate Fits(e: Event) { |e.source| < 0x1_0000 && |e.payload| < 0x1_0000 }

  lemma {:induction false} DecodeParts(a: Bytes, s: Bytes, b: Bytes, p: Bytes)
    requires |a| == 2 && |b| == 2 && BeValue(a) == |s| && BeValue(b) == |p|
    ensures DecodeEvent(a + s + b + p) == Good(Event(s, p))
  {
    var d, n := a + s + b + p, |s|;
    assert d[..2] == a && d[2..2 + n] == s && d[2 + n..4 + n] == b && d[4 + n..4 + n + |p|] == p;
  }

  lemma EventRound(e: Event)
    requires Fits(e)
    ensures DecodeEvent(EncodeEvent(e)) == Good(e)
  {
    var a, b := Be(2, |e.source|), Be(2, |e.payload|);
    assert BeValue(a) == |e.source| by { Be16Round(|e.source|); }
    assert BeValue(b) == |e.payload| by { Be16Round(|e.payload|); }
    assert EncodeEvent(e) == a + e.source + b + e.payload by {
      assert |e.source| % 0x1_0000 == |e.source| && |e.payload| % 0x1_0000 == |e.payload|;
    }
    DecodeParts(a, e.source, b, e.payload);
  }

  // ---- The store as a value ----

  datatype Store = Store(file: Bytes, size: int, index: map<Bytes, nat>, maxKeys: nat)

  function Indexed(index: map<Bytes, nat>, maxKeys: nat, key: Bytes, offset: nat): map<Bytes, nat> {
    if key in index || |index| < maxKeys then index[key := offset] else index
  }

  predicate Accepts(index: map<Bytes, nat>, maxKeys: nat, key: Bytes) { key in index || |index| < maxKeys }

  function EventRecord(e: Event, ts: u64): Record { Record(ts, EncodeEvent(e)) }

  function Write(s: Store, e: Event, ts: u64, crc: Crc): Store
    requires s.size >= 0
  {
    var f := Frame(EventRecord(e, ts), crc);
    s.(file := s.file + f, size := s.size + |f|, index := Indexed(s.index, s.maxKeys, e.source, s.size))
  }

  datatype Lookup = NotFound | Unreadable | Found(event: Event, ts: u64)

  function ReadEvent(file: Bytes, offset: nat, crc: Crc): Lookup {
    match ReadRecordAt(file, offset, crc)
    case Got(r, _) => var e := DecodeEvent(r.data); if e.Bad? then Unreadable else Found(e.value, r.ts)
    case _ => Unreadable
  }

  function GetFrom(s: Store, key: Bytes, crc: Crc): Lookup {
    if key in s.index then ReadEvent(s.file, s.index[key], crc) else NotFound
  }

  datatype Rewrite = Rewrite(file: Bytes, offsets: map<Bytes, nat>)

  /** Copy the latest record of each key, in this order. */
  function Rewritten(s: Store, order: seq<Bytes>, now: nat -> u64, crc: Crc): Decoded<Rewrite>
    requires forall i :: 0 <= i < |order| ==> order[i] in s.index
  {
    if |order| == 0 then Good(Rewrite([], map[]))
    else
      var n := |order| - 1;
      var w, e := Rewritten(s, order[..n], now, crc), ReadEvent(s.file, s.index[order[n]], crc);
      if w.Bad? || !e.Found? then Bad
      else Good(Rewrite(w.value.file + Frame(EventRecord(e.event, now(n)), crc),
                        w.value.offsets[order[n] := |w.value.file|]))
  }

  /** A compaction that cannot read a record changes nothing. */
  function Compacted(s: Store, order: seq<Bytes>, now: nat -> u64, crc: Crc): Store
    requires Walks(order, s.index)
  {
    var w := Rewritten(s, order, now, crc);
    if w.Bad? then s else s.(file := w.value.file, size := |w.value.file|, index := w.value.offsets)
  }

  datatype Recovery = Recovery(index: map<Bytes, nat>, count: nat, ok: bool)

  /** Replaying records from `offset` on, after `count` others. */
  function RecoverFrom(rs: seq<Record>, offset: nat, index: map<Bytes, nat>, maxKeys: nat, count: nat): Recovery
    decreases |rs|
  {
    if |rs| == 0 then Recovery(index, count, true)
    else
      var e := DecodeEvent(rs[0].data);
      if e.Bad? || !Accepts(index, maxKeys, e.value.source) then Recovery(index, count, false)
      else RecoverFrom(rs[1..], offset + HEADER_SIZE + |rs[0].data| + CHECKSUM_SIZE,
                       index[e.value.source := offset], maxKeys, count + 1)
  }

  function Recovered(file: Bytes, maxKeys: nat, crc: Crc): Recovery {
    var s := ScanAll(file, crc);
    var r := RecoverFrom(s.records, 0, map[], maxKeys, 0);
    r.(ok := r.ok && s.error in {None, Some(Truncated)})
  }

  // ---- What the file means ----

  predicate IsEvent(r: Record) { DecodeEvent(r.data).Good? && Fits(DecodeEvent(r.data).value) }

  function EventOf(r: Record): Event {
    var e := DecodeEvent(r.data);
    if e.Good? then e.value else Event([], [])
  }

  function Key(r: Record): Bytes { EventOf(r).source }

  predicate EventAt(rs: seq<Record>, i: int)
    requires 0 <= i < |rs|
  {
    IsEvent(rs[i])
  }

  predicate AllEvents(rs: seq<Record>) {
    forall i {:trigger EventAt(rs, i)} :: 0 <= i < |rs| ==> EventAt(rs, i)
  }

  /** Position of the latest accepted record of each key. */
  function Last(rs: seq<Record>, maxKeys: nat): (m: map<Bytes, nat>)
    ensures |m| <= maxKeys
  {
    if |rs| == 0 then map[]
    else Indexed(Last(rs[..|rs| - 1], maxKeys), maxKeys, Key(rs[|rs| - 1]), |rs| - 1)
  }

  predicate PointsAt(index: map<Bytes, nat>, rs: seq<Record>, m: map<Bytes, nat>, k: Bytes, crc: Crc) {
    k in index && k in m && m[k] < |rs| && index[k] == |Frames(rs[..m[k]], crc)|
  }

  /** The index holds, for each key, where its latest record starts. */
  predicate Points(index: map<Bytes, nat>, rs: seq<Record>, m: map<Bytes, nat>, crc: Crc) {
    && index.Keys == m.Keys
    && forall k {:trigger PointsAt(index, rs, m, k, crc)} :: k in m ==> PointsAt(index, rs, m, k, crc)
  }

  predicate ShowsAt(c: map<Bytes, Bytes>, rs: seq<Record>, m: map<Bytes, nat>, k: Bytes) {
    k in c && k in m && m[k] < |rs| && EventOf(rs[m[k]]) == Event(k, c[k])
  }

  /** The latest records hold this map. */
  predicate Shows(c: map<Bytes, Bytes>, rs: seq<Record>, m: map<Bytes, nat>) {
    c.Keys == m.Keys && forall k {:trigger ShowsAt(c, rs, m, k)} :: k in m ==> ShowsAt(c, rs, m, k)
  }

  /** File `rs` and store `s` hold the map `c`. */
  predicate Inv(s: Store, rs: seq<Record>, c: map<Bytes, Bytes>, crc: Crc) {
    && AllEvents(rs) && AllSized(rs) && s.file == Frames(rs, crc) && s.size == |s.file|
    && Points(s.index, rs, Last(rs, s.maxKeys), crc) && Shows(c, rs, Last(rs, s.maxKeys))
  }

  // ---- Reading back ----

  lemma {:induction false} ReadAtPosition(rs: seq<Record>, i: nat, crc: Crc)
    requires AllSized(rs) && i < |rs|
    ensures ReadRecordAt(Frames(rs, crc), |Frames(rs[..i], crc)|, crc) == Got(rs[i], |Frame(rs[i], crc)|)
  {
    assert rs == rs[..i] + rs[i..];
    FramesConcat(rs[..i], rs[i..], crc);
    FrameRead(rs[i], Frames(rs[i..][1..], crc), crc);
    assert Frames(rs, crc)[|Frames(rs[..i], crc)|..] == Frame(rs[i], crc) + Frames(rs[i..][1..], crc);
  }

  lemma {:induction false} ReadEventAt(rs: seq<Record>, i: nat, crc: Crc)
    requires AllSized(rs) && AllEvents(rs) && i < |rs|
    ensures ReadEvent(Frames(rs, crc), |Frames(rs[..i], crc)|, crc) == Found(EventOf(rs[i]), rs[i].ts) &&
            Fits(EventOf(rs[i]))
  {
    assert EventAt(rs, i);
    ReadAtPosition(rs, i, crc);
  }

  /** Get answers with the last payload accepted for the key, and its source; or says there is none. */
  lemma GetMeans(s: Store, rs: seq<Record>, c: map<Bytes, Bytes>, key: Bytes, crc: Crc)
    requires Inv(s, rs, c, crc)
    ensures var g := GetFrom(s, key, crc);
            if key in c then g.Found? && g.event == Event(key, c[key]) else g == NotFound
  {
    if key in c { CurrentEvent(s, rs, c, key, crc); }
  }

  // ---- Writing ----

  /** The plain map has room for the key. */
  predicate HasRoom(c: map<Bytes, Bytes>, maxKeys: nat, key: Bytes) { key in c || |c| < maxKeys }

  function Put(c: map<Bytes, Bytes>, maxKeys: nat, e: Event): map<Bytes, Bytes> {
    if HasRoom(c, maxKeys, e.source) then c[e.source := e.payload] else c
  }

  lemma EventIsEvent(e: Event, ts: u64)
    requires Fits(e)
    ensures IsEvent(EventRecord(e, ts)) && EventOf(EventRecord(e, ts)) == e && Sized(EventRecord(e, ts))
  {
    EventRound(e);
  }

  lemma SameKeys<X, Y>(a: map<Bytes, X>, b: map<Bytes, Y>)
    requires a.Keys == b.Keys
    ensures |a| == |b|
  {
    assert |a| == |a.Keys| && |b| == |b.Keys|;
  }

  lemma {:induction false} AppendLast(rs: seq<Record>, r: Record, maxKeys: nat)
    ensures Last(rs + [r], maxKeys) == Indexed(Last(rs, maxKeys), maxKeys, Key(r), |rs|)
  {
    assert (rs + [r])[..|rs|] == rs;
  }

  lemma AppendEvents(rs: seq<Record>, r: Record)
    requires AllEvents(rs) && IsEvent(r)
    ensures AllEvents(rs + [r])
  {
    forall i | 0 <= i < |rs| + 1 ensures EventAt(rs + [r], i) {
      if i < |rs| { assert EventAt(rs, i); }
    }
  }

  lemma {:induction false} AppendPoints(index: map<Bytes, nat>, rs: seq<Record>, r: Record, m: map<Bytes, nat>,
                                        maxKeys: nat, key: Bytes, crc: Crc)
    requires Points(index, rs, m, crc)
    ensures Points(Indexed(index, maxKeys, key, |Frames(rs, crc)|), rs + [r], Indexed(m, maxKeys, key, |rs|), crc)
  {
    SameKeys(index, m);
    var more, x, n := rs + [r], Indexed(index, maxKeys, key, |Frames(rs, crc)|), Indexed(m, maxKeys, key, |rs|);
    forall k | k in n ensures PointsAt(x, more, n, k, crc) {
      if k in m && n[k] == m[k] {
        assert PointsAt(index, rs, m, k, crc);
        assert more[..m[k]] == rs[..m[k]];
      }
      assert more[..|rs|] == rs;
    }
  }

  lemma AppendShows(c: map<Bytes, Bytes>, rs: seq<Record>, r: Record, e: Event, m: map<Bytes, nat>, maxKeys: nat)
    requires Shows(c, rs, m) && EventOf(r) == e
    ensures Shows(Put(c, maxKeys, e), rs + [r], Indexed(m, maxKeys, e.source, |rs|))
  {
    SameKeys(c, m);
    var more, d, n := rs + [r], Put(c, maxKeys, e), Indexed(m, maxKeys, e.source, |rs|);
    forall k | k in n ensures ShowsAt(d, more, n, k) {
      if k in m { assert ShowsAt(c, rs, m, k); }
    }
  }

  lemma WriteKeeps(s: Store, rs: seq<Record>, c: map<Bytes, Bytes>, e: Event, ts: u64, crc: Crc)
    requires Inv(s, rs, c, crc) && Fits(e)
    ensures Inv(Write(s, e, ts, crc), rs + [EventRecord(e, ts)], Put(c, s.maxKeys, e), crc)
  {
    var r, m := EventRecord(e, ts), Last(rs, s.maxKeys);
    EventIsEvent(e, ts);
    AppendEvents(rs, r);
    AppendLast(rs, r, s.maxKeys);
    AppendPoints(s.index, rs, r, m, s.maxKeys, e.source, crc);
    AppendShows(c, rs, r, e, m, s.maxKeys);
    FramesConcat(rs, [r], crc);
    assert Frames([r], crc) == Frame(r, crc) + [];
  }

  // ---- Which records the index took ----

  predicate Taken(rs: seq<Record>, maxKeys: nat, i: nat)
    requires i < |rs|
  {
    Accepts(Last(rs[..i], maxKeys), maxKeys, Key(rs[i]))
  }

  predicate TakenFrom(rs: seq<Record>, maxKeys: nat, i: nat) {
    forall j :: i <= j < |rs| ==> Taken(rs, maxKeys, j)
  }

  /** No write was refused for want of room. */
  predicate AllTaken(rs: seq<Record>, maxKeys: nat) { TakenFrom(rs, maxKeys, 0) }

  lemma {:induction false} AppendTaken(rs: seq<Record>, r: Record, maxKeys: nat)
    ensures AllTaken(rs + [r], maxKeys) <==> AllTaken(rs, maxKeys) && Accepts(Last(rs, maxKeys), maxKeys, Key(r))
  {
    var more := rs + [r];
    assert more[..|rs|] == rs;
    forall i: nat | i < |rs| ensures Taken(more, maxKeys, i) <==> Taken(rs, maxKeys, i) { assert more[..i] == rs[..i]; }
    assert Taken(more, maxKeys, |rs|) <==> Accepts(Last(rs, maxKeys), maxKeys, Key(r));
  }

  // ---- Compaction ----

  /** The part of `c` under these keys. */
  function Part(c: map<Bytes, Bytes>, keys: seq<Bytes>): map<Bytes, Bytes>
    requires forall i :: 0 <= i < |keys| ==> keys[i] in c
  {
    map k | k in keys :: c[k]
  }

  /** The store that a compaction has built so far. */
  function Building(s: Store, w: Rewrite): Store {
    s.(file := w.file, size := |w.file|, index := w.offsets)
  }

  /** A partly compacted file holds the keys done so far, one record each. */
  predicate Built(s: Store, order: seq<Bytes>, w: Rewrite, rs: seq<Record>, c: map<Bytes, Bytes>, crc: Crc)
    requires forall i :: 0 <= i < |order| ==> order[i] in c
  {
    && Inv(Building(s, w), rs, Part(c, order), crc) && AllTaken(rs, s.maxKeys)
    && |rs| == |order| && forall i :: 0 <= i < |rs| ==> Key(rs[i]) == order[i]
  }

  lemma RoomForNext(done: map<Bytes, nat>, index: map<Bytes, nat>, key: Bytes)
    requires done.Keys <= index.Keys && key in index && key !in done
    ensures |done| < |index|
  {
    Quorum.CardinalityMonotone(done.Keys + {key}, index.Keys);
    assert |done| == |done.Keys| && |index| == |index.Keys|;
  }

  lemma PartGrows(c: map<Bytes, Bytes>, order: seq<Bytes>, key: Bytes, maxKeys: nat)
    requires (forall i :: 0 <= i < |order| ==> order[i] in c) && key in c && |Part(c, order)| < maxKeys
    ensures Put(Part(c, order), maxKeys, Event(key, c[key])) == Part(c, order + [key])
  {}

  lemma BuildingGrows(s: Store, w: Rewrite, e: Event, ts: u64, crc: Crc)
    requires |w.offsets| < s.maxKeys
    ensures Write(Building(s, w), e, ts, crc) ==
              Building(s, Rewrite(w.file + Frame(EventRecord(e, ts), crc), w.offsets[e.source := |w.file|]))
  {}

  /** What is known before the next key is copied. */
  lemma {:induction false} CopyRoom(s: Store, order: seq<Bytes>, w: Rewrite, rs: seq<Record>, c: map<Bytes, Bytes>,
                                    key: Bytes, crc: Crc)
    requires (forall i :: 0 <= i < |order| ==> order[i] in c) && Built(s, order, w, rs, c, crc)
    requires key in c && key !in order && c.Keys == s.index.Keys && |s.index| <= s.maxKeys
    ensures |w.offsets| < s.maxKeys && |Part(c, order)| < s.maxKeys && |Last(rs, s.maxKeys)| < s.maxKeys
  {
    var p := Part(c, order);
    assert p.Keys == w.offsets.Keys == Last(rs, s.maxKeys).Keys;
    RoomForNext(w.offsets, s.index, key);
    SameKeys(w.offsets, p);
    SameKeys(w.offsets, Last(rs, s.maxKeys));
  }

  lemma {:induction false} CopyOne(s: Store, order: seq<Bytes>, w: Rewrite, rs: seq<Record>, c: map<Bytes, Bytes>,
                                   key: Bytes, ts: u64, crc: Crc)
    requires (forall i :: 0 <= i < |order| ==> order[i] in c) && Built(s, order, w, rs, c, crc)
    requires key in c && Fits(Event(key, c[key]))
    requires |w.offsets| < s.maxKeys && |Part(c, order)| < s.maxKeys && |Last(rs, s.maxKeys)| < s.maxKeys
    ensures var r := EventRecord(Event(key, c[key]), ts);
            Built(s, order + [key], Rewrite(w.file + Frame(r, crc), w.offsets[key := |w.file|]), rs + [r], c, crc)
  {
    var e := Event(key, c[key]);
    EventIsEvent(e, ts);
    WriteKeeps(Building(s, w), rs, Part(c, order), e, ts, crc);
    BuildingGrows(s, w, e, ts, crc);
    PartGrows(c, order, key, s.maxKeys);
    AppendTaken(rs, EventRecord(e, ts), s.maxKeys);
  }

  /** The record the index points to is the current one of its key. */
  predicate Current(s: Store, c: map<Bytes, Bytes>, key: Bytes, crc: Crc) {
    && key in s.index && key in c && Fits(Event(key, c[key]))
    && ReadEvent(s.file, s.index[key], crc).Found? && ReadEvent(s.file, s.index[key], crc).event == Event(key, c[key])
  }

  lemma CurrentEvent(s: Store, rs: seq<Record>, c: map<Bytes, Bytes>, key: Bytes, crc: Crc)
    requires Inv(s, rs, c, crc) && key in s.index
    ensures Current(s, c, key, crc)
  {
    var m := Last(rs, s.maxKeys);
    assert PointsAt(s.index, rs, m, key, crc) && ShowsAt(c, rs, m, key);
    ReadEventAt(rs, m[key], crc);
  }

  lemma Bounded(s: Store, rs: seq<Record>, c: map<Bytes, Bytes>, crc: Crc)
    requires Inv(s, rs, c, crc)
    ensures c.Keys == s.index.Keys && |s.index| <= s.maxKeys
  {
    SameKeys(s.index, Last(rs, s.maxKeys));
  }

  lemma {:induction false} RewrittenStep(s: Store, order: seq<Bytes>, c: map<Bytes, Bytes>, now: nat -> u64, v: Rewrite,
                                         crc: Crc)
    requires |order| > 0 && (forall i :: 0 <= i < |order| ==> order[i] in s.index)
    requires Rewritten(s, order[..|order| - 1], now, crc) == Good(v) && Current(s, c, order[|order| - 1], crc)
    ensures var n := |order| - 1;
            var r := EventRecord(Event(order[n], c[order[n]]), now(n));
            Rewritten(s, order, now, crc) == Good(Rewrite(v.file + Frame(r, crc), v.offsets[order[n] := |v.file|]))
  {}

  lemma {:induction false} CompactLoop(s: Store, c: map<Bytes, Bytes>, order: seq<Bytes>, now: nat -> u64, crc: Crc)
    returns (w: Rewrite, cr: seq<Record>)
    requires c.Keys == s.index.Keys && |s.index| <= s.maxKeys
    requires forall i, j :: 0 <= i < j < |order| ==> order[i] != order[j]
    requires forall i :: 0 <= i < |order| ==> order[i] in s.index && order[i] in c && Current(s, c, order[i], crc)
    ensures Rewritten(s, order, now, crc) == Good(w) && Built(s, order, w, cr, c, crc)
    decreases |order|
  {
    if |order| == 0 {
      w, cr := Rewrite([], map[]), [];
    } else {
      var n := |order| - 1;
      var key, done := order[n], order[..n];
      assert Current(s, c, key, crc) && done + [key] == order;
      var v, vr := CompactLoop(s, c, done, now, crc);
      RewrittenStep(s, order, c, now, v, crc);
      CopyRoom(s, done, v, vr, c, key, crc);
      CopyOne(s, done, v, vr, c, key, now(n), crc);
      var r := EventRecord(Event(key, c[key]), now(n));
      w, cr := Rewrite(v.file + Frame(r, crc), v.offsets[key := |v.file|]), vr + [r];
    }
  }

  lemma WholePart(c: map<Bytes, Bytes>, order: seq<Bytes>)
    requires (forall i :: 0 <= i < |order| ==> order[i] in c) && (forall k :: k in c ==> k in order)
    ensures Part(c, order) == c
  {}

  lemma BuiltWhole(s: Store, order: seq<Bytes>, w: Rewrite, cr: seq<Record>, c: map<Bytes, Bytes>, crc: Crc)
    requires (forall i :: 0 <= i < |order| ==> order[i] in c) && (forall k :: k in c ==> k in order)
    requires (forall i, j :: 0 <= i < j < |order| ==> order[i] != order[j]) && Built(s, order, w, cr, c, crc)
    ensures Inv(Building(s, w), cr, c, crc) && AllTaken(cr, s.maxKeys) && |cr| == |c|
    ensures forall i, j :: 0 <= i < j < |cr| ==> Key(cr[i]) != Key(cr[j])
  {
    WholePart(c, order);
    DistinctLength(order, c.Keys);
    assert |c| == |c.Keys|;
  }

  /** Compaction keeps the map, in whatever order the index is walked, and leaves exactly one record per key. */
  lemma CompactKeeps(s: Store, rs: seq<Record>, c: map<Bytes, Bytes>, order: seq<Bytes>, now: nat -> u64, crc: Crc)
    returns (cr: seq<Record>)
    requires Inv(s, rs, c, crc) && Walks(order, s.index)
    ensures Inv(Compacted(s, order, now, crc), cr, c, crc) && AllTaken(cr, s.maxKeys) && |cr| == |c|
    ensures forall i, j :: 0 <= i < j < |cr| ==> Key(cr[i]) != Key(cr[j])
  {
    Bounded(s, rs, c, crc);
    forall i | 0 <= i < |order| ensures Current(s, c, order[i], crc) { CurrentEvent(s, rs, c, order[i], crc); }
    var w;
    w, cr := CompactLoop(s, c, order, now, crc);
    BuiltWhole(s, order, w, cr, c, crc);
  }

  lemma {:induction false} DistinctLength(xs: seq<Bytes>, keys: set<Bytes>)
    requires (forall i, j :: 0 <= i < j < |xs| ==> xs[i] != xs[j]) && (forall k :: k in xs <==> k in keys)
    ensures |xs| == |keys|
    decreases |xs|
  {
    if |xs| > 0 {
      var last := xs[|xs| - 1];
      var shorter := xs[..|xs| - 1];
      assert forall k :: k in xs <==> k in shorter || k == last;
      DistinctLength(shorter, keys - {last});
    } else {
      assert keys == {};
    }
  }

  // ---- Recovery ----

  lemma {:induction false} LastGrows(rs: seq<Record>, i: nat, maxKeys: nat)
    requires i < |rs|
    ensures Last(rs[..i + 1], maxKeys) == Indexed(Last(rs[..i], maxKeys), maxKeys, Key(rs[i]), i)
  {
    assert rs[..i + 1][..i] == rs[..i];
  }

  lemma FramesGrow(rs: seq<Record>, i: nat, crc: Crc)
    requires i < |rs|
    ensures |Frames(rs[..i + 1], crc)| == |Frames(rs[..i], crc)| + HEADER_SIZE + |rs[i].data| + CHECKSUM_SIZE
  {
    assert rs[..i + 1] == rs[..i] + [rs[i]];
    FramesConcat(rs[..i], [rs[i]], crc);
    assert Frames([rs[i]], crc) == Frame(rs[i], crc) + [];
  }

  lemma {:induction false} NextRecord(rs: seq<Record>, i: nat, index: map<Bytes, nat>, maxKeys: nat, crc: Crc)
    requires i < |rs| && Points(index, rs[..i], Last(rs[..i], maxKeys), crc)
    ensures Accepts(index, maxKeys, Key(rs[i])) <==> Taken(rs, maxKeys, i)
    ensures Points(Indexed(index, maxKeys, Key(rs[i]), |Frames(rs[..i], crc)|),
                   rs[..i + 1], Last(rs[..i + 1], maxKeys), crc)
  {
    var m, key := Last(rs[..i], maxKeys), Key(rs[i]);
    SameKeys(index, m);
    LastGrows(rs, i, maxKeys);
    assert rs[..i + 1] == rs[..i] + [rs[i]];
    AppendPoints(index, rs[..i], rs[i], m, maxKeys, key, crc);
  }

  lemma {:induction false} RecoverCons(r: Record, e: Event, rest: seq<Record>, offset: nat, index: map<Bytes, nat>,
                                       maxKeys: nat, count: nat)
    requires DecodeEvent(r.data) == Good(e)
    ensures RecoverFrom([r] + rest, offset, index, maxKeys, count) ==
              if !Accepts(index, maxKeys, e.source) then Recovery(index, count, false)
              else RecoverFrom(rest, offset + HEADER_SIZE + |r.data| + CHECKSUM_SIZE,
                               index[e.source := offset], maxKeys, count + 1)
  {
    assert ([r] + rest)[1..] == rest;
  }

  lemma RecoverOne(rs: seq<Record>, i: nat, offset: nat, index: map<Bytes, nat>, maxKeys: nat, next: nat,
                   idx: map<Bytes, nat>)
    requires AllEvents(rs) && i < |rs|
    requires next == offset + HEADER_SIZE + |rs[i].data| + CHECKSUM_SIZE && idx == index[Key(rs[i]) := offset]
    ensures !Accepts(index, maxKeys, Key(rs[i])) ==> !RecoverFrom(rs[i..], offset, index, maxKeys, i).ok
    ensures Accepts(index, maxKeys, Key(rs[i])) ==>
              RecoverFrom(rs[i..], offset, index, maxKeys, i) == RecoverFrom(rs[i + 1..], next, idx, maxKeys, i + 1)
  {
    assert EventAt(rs, i);
    assert rs[i..] == [rs[i]] + rs[i + 1..];
    RecoverCons(rs[i], EventOf(rs[i]), rs[i + 1..], offset, index, maxKeys, i);
  }

  /** Outcome `r` of a recovery that has the records from `i` on still to read. */
  predicate Rebuilds(r: Recovery, rs: seq<Record>, i: nat, maxKeys: nat, crc: Crc) {
    && (r.ok <==> TakenFrom(rs, maxKeys, i))
    && (r.ok ==> Points(r.index, rs, Last(rs, maxKeys), crc) && r.count == |rs|)
  }

  /** The state of a recovery that has read `i` records. */
  predicate ReadUpTo(rs: seq<Record>, i: nat, offset: nat, index: map<Bytes, nat>, maxKeys: nat, crc: Crc)
    requires i <= |rs|
  {
    offset == |Frames(rs[..i], crc)| && Points(index, rs[..i], Last(rs[..i], maxKeys), crc)
  }

  lemma ReadOne(rs: seq<Record>, i: nat, offset: nat, index: map<Bytes, nat>, maxKeys: nat, next: nat,
                idx: map<Bytes, nat>, crc: Crc)
    requires i < |rs| && ReadUpTo(rs, i, offset, index, maxKeys, crc)
    requires next == offset + HEADER_SIZE + |rs[i].data| + CHECKSUM_SIZE && idx == index[Key(rs[i]) := offset]
    ensures Accepts(index, maxKeys, Key(rs[i])) <==> Taken(rs, maxKeys, i)
    ensures Taken(rs, maxKeys, i) ==> ReadUpTo(rs, i + 1, next, idx, maxKeys, crc)
  {
    NextRecord(rs, i, index, maxKeys, crc);
    FramesGrow(rs, i, crc);
  }

  lemma RebuildsEarlier(r: Recovery, rs: seq<Record>, i: nat, maxKeys: nat, crc: Crc)
    requires i < |rs| && if Taken(rs, maxKeys, i) then Rebuilds(r, rs, i + 1, maxKeys, crc) else !r.ok
    ensures Rebuilds(r, rs, i, maxKeys, crc)
  {
    if Taken(rs, maxKeys, i) { assert TakenFrom(rs, maxKeys, i) <==> TakenFrom(rs, maxKeys, i + 1); }
  }

  lemma {:induction false} ReadAll(rs: seq<Record>, offset: nat, index: map<Bytes, nat>, maxKeys: nat, crc: Crc)
    requires ReadUpTo(rs, |rs|, offset, index, maxKeys, crc)
    ensures Rebuilds(RecoverFrom([], offset, index, maxKeys, |rs|), rs, |rs|, maxKeys, crc)
  {
    assert rs[..|rs|] == rs;
  }

  lemma {:induction false} RecoverLoop(rs: seq<Record>, i: nat, offset: nat, index: map<Bytes, nat>, maxKeys: nat,
                                       crc: Crc)
    requires AllEvents(rs) && i <= |rs| && ReadUpTo(rs, i, offset, index, maxKeys, crc)
    ensures Rebuilds(RecoverFrom(rs[i..], offset, index, maxKeys, i), rs, i, maxKeys, crc)
    decreases |rs| - i
  {
    if i == |rs| {
      ReadAll(rs, offset, index, maxKeys, crc);
    } else {
      var next, idx := offset + HEADER_SIZE + |rs[i].data| + CHECKSUM_SIZE, index[Key(rs[i]) := offset];
      ReadOne(rs, i, offset, index, maxKeys, next, idx, crc);
      RecoverOne(rs, i, offset, index, maxKeys, next, idx);
      if Taken(rs, maxKeys, i) { RecoverLoop(rs, i + 1, next, idx, maxKeys, crc); }
      RebuildsEarlier(RecoverFrom(rs[i..], offset, index, maxKeys, i), rs, i, maxKeys, crc);
    }
  }

  lemma PointsOnce(a: map<Bytes, nat>, b: map<Bytes, nat>, rs: seq<Record>, m: map<Bytes, nat>, crc: Crc)
    requires Points(a, rs, m, crc) && Points(b, rs, m, crc)
    ensures a == b
  {
    forall k | k in m ensures a[k] == b[k] { assert PointsAt(a, rs, m, k, crc) && PointsAt(b, rs, m, k, crc); }
  }

  /** Recovery rebuilds the very index the store has, exactly when no write in the file was refused. */
  lemma RecoverMeans(s: Store, rs: seq<Record>, c: map<Bytes, Bytes>, crc: Crc)
    requires Inv(s, rs, c, crc)
    ensures var r := Recovered(s.file, s.maxKeys, crc);
            (r.ok <==> AllTaken(rs, s.maxKeys)) && (r.ok ==> r.index == s.index && r.count == |rs|)
  {
    ScanFrames(rs, [], crc);
    assert Frames(rs, crc) + [] == s.file && rs + [] == rs;
    RecoverLoop(rs, 0, 0, map[], s.maxKeys, crc);
    assert rs[0..] == rs && rs[..0] == [];
    var r := Recovered(s.file, s.maxKeys, crc);
    if r.ok { PointsOnce(r.index, s.index, rs, Last(rs, s.maxKeys), crc); }
  }

  // ---- Whole histories ----

  datatype Op = WriteEvent(event: Event, ts: u64) | Compaction(order: seq<Bytes>, now: nat -> u64)

  predicate OpOk(s: Store, op: Op) {
    s.size >= 0 && if op.WriteEvent? then Fits(op.event) else Walks(op.order, s.index)
  }

  function Step(s: Store, op: Op, crc: Crc): Store
    requires OpOk(s, op)
  {
    if op.WriteEvent? then Write(s, op.event, op.ts, crc) else Compacted(s, op.order, op.now, crc)
  }

  predicate OpsOk(s: Store, ops: seq<Op>, crc: Crc)
    decreases |ops|
  {
    |ops| > 0 ==> OpOk(s, ops[0]) && OpsOk(Step(s, ops[0], crc), ops[1..], crc)
  }

  function Run(s: Store, ops: seq<Op>, crc: Crc): Store
    requires OpsOk(s, ops, crc)
    decreases |ops|
  {
    if |ops| == 0 then s else Run(Step(s, ops[0], crc), ops[1..], crc)
  }

  /** The plain map: a write puts, a compaction does nothing. */
  function RunMap(c: map<Bytes, Bytes>, maxKeys: nat, ops: seq<Op>): map<Bytes, Bytes>
    decreases |ops|
  {
    if |ops| == 0 then c
    else RunMap(if ops[0].WriteEvent? then Put(c, maxKeys, ops[0].event) else c, maxKeys, ops[1..])
  }

  /** Every write since the last compaction found room, given that those before did. */
  predicate RunClean(clean: bool, c: map<Bytes, Bytes>, maxKeys: nat, ops: seq<Op>)
    decreases |ops|
  {
    if |ops| == 0 then clean
    else if ops[0].WriteEvent? then
      RunClean(clean && HasRoom(c, maxKeys, ops[0].event.source), Put(c, maxKeys, ops[0].event), maxKeys, ops[1..])
    else RunClean(true, c, maxKeys, ops[1..])
  }

  lemma {:induction false} WriteTaken(rs: seq<Record>, c: map<Bytes, Bytes>, e: Event, ts: u64, maxKeys: nat)
    requires Shows(c, rs, Last(rs, maxKeys)) && Fits(e)
    ensures AllTaken(rs + [EventRecord(e, ts)], maxKeys) <==> AllTaken(rs, maxKeys) && HasRoom(c, maxKeys, e.source)
  {
    EventIsEvent(e, ts);
    SameKeys(c, Last(rs, maxKeys));
    AppendTaken(rs, EventRecord(e, ts), maxKeys);
  }

  lemma {:induction false} RunKeeps(s: Store, rs: seq<Record>, c: map<Bytes, Bytes>, ops: seq<Op>, crc: Crc)
    returns (fr: seq<Record>)
    requires Inv(s, rs, c, crc) && OpsOk(s, ops, crc)
    ensures Run(s, ops, crc).maxKeys == s.maxKeys
    ensures Inv(Run(s, ops, crc), fr, RunMap(c, s.maxKeys, ops), crc)
    ensures AllTaken(fr, s.maxKeys) <==> RunClean(AllTaken(rs, s.maxKeys), c, s.maxKeys, ops)
    decreases |ops|
  {
    if |ops| == 0 {
      fr := rs;
    } else {
      var op := ops[0];
      if op.WriteEvent? {
        WriteKeeps(s, rs, c, op.event, op.ts, crc);
        WriteTaken(rs, c, op.event, op.ts, s.maxKeys);
        fr := RunKeeps(Step(s, op, crc), rs + [EventRecord(op.event, op.ts)], Put(c, s.maxKeys, op.event),
                       ops[1..], crc);
      } else {
        var cr := CompactKeeps(s, rs, c, op.order, op.now, crc);
        fr := RunKeeps(Step(s, op, crc), cr, c, ops[1..], crc);
      }
    }
  }

  const EMPTY: map<Bytes, nat> := map[]

  function Fresh(maxKeys: nat): Store { Store([], 0, EMPTY, maxKeys) }

  /** Get answers for this key what the plain map holds. */
  predicate Agrees(s: Store, c: map<Bytes, Bytes>, key: Bytes, crc: Crc) {
    var g := GetFrom(s, key, crc);
    if key in c then g.Found? && g.event == Event(key, c[key]) else g == NotFound
  }

  /** From an empty store, after any writes and compactions: the size tracker is the file length, and Get agrees
      with the plain map on every key. */
  lemma {:induction false} StoreAgrees(maxKeys: nat, ops: seq<Op>, key: Bytes, crc: Crc)
    requires OpsOk(Fresh(maxKeys), ops, crc)
    ensures var s := Run(Fresh(maxKeys), ops, crc);
            s.size == |s.file| && Agrees(s, RunMap(map[], maxKeys, ops), key, crc)
  {
    assert Inv(Fresh(maxKeys), [], map[], crc);
    var fr := RunKeeps(Fresh(maxKeys), [], map[], ops, crc);
    GetMeans(Run(Fresh(maxKeys), ops, crc), fr, RunMap(map[], maxKeys, ops), key, crc);
  }

  lemma HeadFirst(rs: seq<Record>)
    requires |rs| > 0
    ensures rs == [rs[0]] + rs[1..]
  {}

  // ---- The store in place ----

  class KvStore {
    const crc: Crc
    const maxKeys: nat
    var file: Bytes
    var size: nat
    var index: map<Bytes, nat>

    function State(): Store
      reads this
    {
      Store(file, size, index, maxKeys)
    }

    /** A store over an existing file, before recovery. */
    constructor (file: Bytes, maxKeys: nat, crc: Crc)
      ensures State() == Store(file, |file|, map[], maxKeys) && this.crc == crc
    {
      this.file, this.size, this.index, this.maxKeys, this.crc := file, |file|, map[], maxKeys, crc;
    }

    /** The index takes a new key only while there is room; overwriting always works. */
    method SetIndex(key: Bytes, offset: nat) returns (ok: bool)
      modifies this`index
      ensures ok <==> Accepts(old(index), maxKeys, key)
      ensures index == Indexed(old(index), maxKeys, key, offset)
    {
      if key !in index && |index| >= maxKeys { return false; }
      index := index[key := offset];
      return true;
    }

    method WriteEvent(e: Event, ts: u64) returns (ok: bool)
      modifies this
      ensures State() == Write(old(State()), e, ts, crc)
      ensures ok <==> Accepts(old(index), maxKeys, e.source)
    {
      var record := Frame(EventRecord(e, ts), crc);
      var offset := size;
      file, size := file + record, size + |record|;
      ok := SetIndex(e.source, offset);
    }

    method Get(key: Bytes) returns (r: Lookup)
      ensures r == GetFrom(State(), key, crc)
    {
      if key !in index { return NotFound; }
      match ReadRecordAt(file, index[key], crc)
      case Got(record, _) =>
        var e := DecodeEvent(record.data);
        if e.Bad? { return Unreadable; }
        return Found(e.value, record.ts);
      case _ =>
        return Unreadable;
    }

    /** Decode one record, index it, and say where the next one starts. */
    method RecoverRecord(record: Record, offset: nat, count: nat, ghost left: seq<Record>, ghost goal: Recovery)
      returns (ok: bool, next: nat, done: nat)
      requires |left| > 0 && left[0] == record && RecoverFrom(left, offset, index, maxKeys, count) == goal
      modifies this`index
      ensures ok ==> RecoverFrom(left[1..], next, index, maxKeys, done) == goal
      ensures !ok ==> Recovery(index, count, false) == goal
    {
      var e := DecodeEvent(record.data);
      if e.Bad? { return false, offset, count; }
      HeadFirst(left);
      RecoverCons(record, e.value, left[1..], offset, index, maxKeys, count);
      ok := SetIndex(e.value.source, offset);
      next, done := offset + HEADER_SIZE + |record.data| + CHECKSUM_SIZE, count + 1;
    }

    /** On an empty index. */
    method Recover() returns (count: nat, ok: bool)
      requires index == map[]
      modifies this`index
      ensures Recovery(index, count, ok) == Recovered(file, maxKeys, crc)
    {
      var reader := new Reader(file, crc);
      ghost var all := reader.Pending();
      ghost var left := all.records;
      var offset: nat := 0;
      count := 0;
      ghost var goal := RecoverFrom(left, offset, index, maxKeys, count);
      var more := reader.Scan();
      while more
        invariant fresh(reader)
        invariant more ==> |left| > 0 && left[0] == reader.current && reader.Pending() == Scanned(left[1..], all.error)
        invariant !more ==> left == [] && reader.lastError == all.error
        invariant RecoverFrom(left, offset, index, maxKeys, count) == goal
        decreases |left|
      {
        var stored, next, done := RecoverRecord(reader.current, offset, count, left, goal);
        if !stored { return count, false; }
        offset, count, left := next, done, left[1..];
        more := reader.Scan();
      }
      return count, reader.lastError in {None, Some(Truncated)};
    }

    method Compact(order: seq<Bytes>, now: nat -> u64) returns (ok: bool)
      requires Walks(order, index)
      modifies this
      ensures ok <==> Rewritten(old(State()), order, now, crc).Good?
      ensures State() == Compacted(old(State()), order, now, crc)
    {
      var w := Rewrite([], map[]);
      for n := 0 to |order|
        invariant State() == old(State())
        invariant Rewritten(State(), order[..n], now, crc) == Good(w)
      {
        assert order[..n + 1][..n] == order[..n];
        var e := Get(order[n]);
        if !e.Found? {
          RewrittenFails(State(), order, n + 1, now, crc);
          return false;
        }
        w := Rewrite(w.file + Frame(EventRecord(e.event, now(n)), crc), w.offsets[order[n] := |w.file|]);
      }
      assert order[..|order|] == order;
      file, size, index := w.file, |w.file|, w.offsets;
      return true;
    }
  }

  lemma {:induction false} RewrittenFails(s: Store, order: seq<Bytes>, n: nat, now: nat -> u64, crc: Crc)
    requires (forall i :: 0 <= i < |order| ==> order[i] in s.index) && n <= |order|
    requires Rewritten(s, order[..n], now, crc).Bad?
    ensures Rewritten(s, order, now, crc).Bad?
    decreases |order|
  {
    if n == |order| {
      assert order[..n] == order;
    } else {
      assert order[..|order| - 1][..n] == order[..n];
      RewrittenFails(s, order[..|order| - 1], n, now, crc);
    }
  }
}
