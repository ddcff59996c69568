/** A snapshot on its way from leader to follower: encoded, cut into chunks, reassembled, decoded, restored.

    The layout is [magic:4][version:2][index:8][term:8][count:8], then per key [klen:2][key][vlen:4][value], then
    [checksum:4], all big-endian. The cluster configuration travels as one more key. JSON is a pair of functions
    of which only the round trip is used, and the checksum is any function of the bytes.
 */
module Snapshot {
  import opened Bytes
  import opened RaftLog
  import opened Quorum

  /** 0x52414654, "RAFT". */
  const MAGIC: Bytes := [0x52, 0x41, 0x46, 0x54]
  const VERSION: Bytes := [0, 1]
  const HEADER_SIZE: nat := 30

  type Crc = Bytes -> u32
  type Kv = map<Bytes, Bytes>

  datatype Json = Json(marshal: ClusterConfig -> Bytes, unmarshal: Bytes -> Option<ClusterConfig>)

  const NO_CONFIG: ClusterConfig := ClusterConfig(Stable, [], [])

  datatype Decoded = Decoded(index: int, term: int, kv: Kv, config: ClusterConfig)

  // ---- Encoding ----

  /** Two bytes and four bytes hold the lengths. */
  predicate FitsPair(k: Bytes, v: Bytes) { |k| < 0x1_0000 && |v| < 0x1_0000_0000 }

  function Pair(k: Bytes, v: Bytes): Bytes { Be(2, |k|) + k + Be(4, |v|) + v }

  function Header(index: u64, term: u64, count: u64): (h: Bytes)
    ensures |h| == HEADER_SIZE
  {
    MAGIC + VERSION + Be(8, index) + Be(8, term) + Be(8, count)
  }

  /** The pairs in the order a map walk yields the keys. */
  function Body(kv: Kv, order: seq<Bytes>): Bytes
    requires forall i :: 0 <= i < |order| ==> order[i] in kv
  {
    if |order| == 0 then [] else Pair(order[0], kv[order[0]]) + Body(kv, order[1..])
  }

  function Full(kv: Kv, config: ClusterConfig, reserved: Bytes, json: Json): Kv { kv[reserved := json.marshal(config)] }

  predicate Encodable(kv: Kv) { forall k :: k in kv ==> FitsPair(k, kv[k]) }

  /** Fails when a key or a value is too long. */
  function Encode(index: int, term: int, full: Kv, order: seq<Bytes>, crc: Crc): Option<Bytes>
    requires Walks(order, full)
  {
    if !Encodable(full) then None
    else
      var framed := Header(Unsigned(index), Unsigned(term), Unsigned(|order|)) + Body(full, order);
      Some(framed + Be(4, crc(framed)))
  }

  // ---- Decoding ----

  function TakePair(r: Bytes): Option<(Bytes, Bytes, Bytes)> {
    if |r| < 2 then None
    else
      var n := BeValue(r[..2]);
      if |r| < 2 + n + 4 then None
      else
        var m := BeValue(r[2 + n..6 + n]);
        if |r| < 6 + n + m then None
        else Some((r[2..2 + n], r[6 + n..6 + n + m], r[6 + n + m..]))
  }

  /** `count` pairs from the front of `r`, later ones overriding earlier ones; the rest is ignored. */
  function TakePairs(r: Bytes, count: int, kv: Kv): Option<Kv>
    decreases count
  {
    if count <= 0 then Some(kv)
    else
      var p := TakePair(r);
      if p.None? then None else TakePairs(p.value.2, count - 1, kv[p.value.0 := p.value.1])
  }

  function Decode(raw: Bytes, reserved: Bytes, json: Json, crc: Crc): Option<Decoded> {
    if |raw| < HEADER_SIZE + 4 then None
    else
      var end := |raw| - 4;
      if Be32(raw[end..]) != crc(raw[..end]) || raw[..4] != MAGIC then None
      else
        var kv := TakePairs(raw[HEADER_SIZE..end], Signed(Be64(raw[22..30])), map[]);
        if kv.None? then None
        else
          var config := if reserved in kv.value && json.unmarshal(kv.value[reserved]).Some?
                        then json.unmarshal(kv.value[reserved]).value else NO_CONFIG;
          Some(Decoded(Signed(Be64(raw[6..14])), Signed(Be64(raw[14..22])), kv.value - {reserved}, config))
  }

  // ---- Encoding and decoding are inverse ----

  lemma {:induction false} PairParts(a: Bytes, k: Bytes, b: Bytes, v: Bytes, rest: Bytes)
    requires |a| == 2 && |b| == 4 && BeValue(a) == |k| && BeValue(b) == |v|
    ensures TakePair(a + k + b + v + rest) == Some((k, v, rest))
  {
    var r, n := a + k + b + v + rest, |k|;
    assert r[..2] == a && r[2..2 + n] == k && r[2 + n..6 + n] == b;
    assert r[6 + n..6 + n + |v|] == v && r[6 + n + |v|..] == rest;
  }

  lemma PairRound(k: Bytes, v: Bytes, rest: Bytes)
    requires FitsPair(k, v)
    ensures TakePair(Pair(k, v) + rest) == Some((k, v, rest))
  {
    Be16Round(|k|);
    Be32Round(|v|);
    PairParts(Be(2, |k|), k, Be(4, |v|), v, rest);
  }

  /** A pair is taken exactly where its encoding lies. */
  lemma PairExactly(r: Bytes, k: Bytes, v: Bytes, rest: Bytes)
    ensures TakePair(r) == Some((k, v, rest)) <==> FitsPair(k, v) && r == Pair(k, v) + rest
  {
    if TakePair(r) == Some((k, v, rest)) {
      var n, m := |k|, |v|;
      Widths();
      BeBack(r[..2]);
      BeBack(r[2 + n..6 + n]);
      assert r == r[..2] + r[2..2 + n] + r[2 + n..6 + n] + r[6 + n..6 + n + m] + r[6 + n + m..];
    }
    if FitsPair(k, v) && r == Pair(k, v) + rest { PairRound(k, v, rest); }
  }

  type Pairs = seq<(Bytes, Bytes)>

  /** The pairs one after the other. */
  function Joined(ps: Pairs): Bytes { if |ps| == 0 then [] else Pair(ps[0].0, ps[0].1) + Joined(ps[1..]) }

  /** Later pairs override earlier ones. */
  function PutAll(kv: Kv, ps: Pairs): Kv
    decreases |ps|
  {
    if |ps| == 0 then kv else PutAll(kv[ps[0].0 := ps[0].1], ps[1..])
  }

  /** The bytes start with these pairs, as many as announced. */
  predicate Spells(r: Bytes, count: int, ps: Pairs) {
    && |ps| == (if count < 0 then 0 else count) && (forall i :: 0 <= i < |ps| ==> FitsPair(ps[i].0, ps[i].1))
    && Joined(ps) <= r
  }

  ghost predicate HoldsPairs(r: Bytes, count: int) { exists ps :: Spells(r, count, ps) }

  lemma {:induction false} TakenSpelled(r: Bytes, count: int, kv: Kv)
    requires TakePairs(r, count, kv).Some?
    ensures HoldsPairs(r, count)
    decreases count
  {
    if count <= 0 {
      assert Spells(r, count, []);
    } else {
      var (k, v, rest) := TakePair(r).value;
      PairExactly(r, k, v, rest);
      TakenSpelled(rest, count - 1, kv[k := v]);
      var qs :| Spells(rest, count - 1, qs);
      SpellsCons(k, v, rest, count, qs);
    }
  }

  lemma {:induction false} SpelledTaken(r: Bytes, count: int, kv: Kv, ps: Pairs)
    requires Spells(r, count, ps)
    ensures TakePairs(r, count, kv) == Some(PutAll(kv, ps))
    decreases count
  {
    if count > 0 {
      var tail := SpellsTail(r, count, ps);
      PairExactly(r, ps[0].0, ps[0].1, tail);
      SpelledTaken(tail, count - 1, kv[ps[0].0 := ps[0].1], ps[1..]);
    }
  }

  /** The body decodes exactly when it starts with as many pairs as the header announces, and then to those pairs. */
  lemma {:induction false} PairsExactly(r: Bytes, count: int, kv: Kv)
    ensures TakePairs(r, count, kv).Some? <==> HoldsPairs(r, count)
    ensures forall ps :: Spells(r, count, ps) ==> TakePairs(r, count, kv) == Some(PutAll(kv, ps))
  {
    if TakePairs(r, count, kv).Some? { TakenSpelled(r, count, kv); }
    forall ps: Pairs | Spells(r, count, ps) ensures TakePairs(r, count, kv) == Some(PutAll(kv, ps)) {
      SpelledTaken(r, count, kv, ps);
    }
  }

  lemma SpellsCons(k: Bytes, v: Bytes, rest: Bytes, count: int, qs: Pairs)
    requires count >= 1 && FitsPair(k, v) && Spells(rest, count - 1, qs)
    ensures Spells(Pair(k, v) + rest, count, [(k, v)] + qs)
  {
    var ps := [(k, v)] + qs;
    assert ps[1..] == qs;
    assert Joined(ps) == Pair(k, v) + Joined(qs);
  }

  lemma SpellsTail(r: Bytes, count: int, ps: Pairs) returns (tail: Bytes)
    requires count >= 1 && Spells(r, count, ps)
    ensures r == Pair(ps[0].0, ps[0].1) + tail && Spells(tail, count - 1, ps[1..])
  {
    var f := Pair(ps[0].0, ps[0].1);
    tail := r[|f|..];
    assert r[..|Joined(ps)|] == Joined(ps) == f + Joined(ps[1..]);
    assert r[..|f|] == f && tail[..|Joined(ps[1..])|] == Joined(ps[1..]);
  }

  /** A snapshot decodes exactly when it has room for header and checksum, its stored checksum is that of the bytes
      before it, it starts with the magic, and its body starts with the announced number of pairs. */
  lemma DecodeExactly(raw: Bytes, reserved: Bytes, json: Json, crc: Crc)
    ensures Decode(raw, reserved, json, crc).Some? <==>
              && |raw| >= HEADER_SIZE + 4 && Be32(raw[|raw| - 4..]) == crc(raw[..|raw| - 4]) && raw[..4] == MAGIC
              && HoldsPairs(raw[HEADER_SIZE..|raw| - 4], Signed(Be64(raw[22..30])))
  {
    if |raw| >= HEADER_SIZE + 4 {
      PairsExactly(raw[HEADER_SIZE..|raw| - 4], Signed(Be64(raw[22..30])), map[]);
    }
  }

  function Insert(kv: Kv, from: Kv, order: seq<Bytes>): Kv
    requires forall i :: 0 <= i < |order| ==> order[i] in from
    decreases |order|
  {
    if |order| == 0 then kv else Insert(kv[order[0] := from[order[0]]], from, order[1..])
  }

  lemma {:induction false} BodyRound(full: Kv, order: seq<Bytes>, kv: Kv)
    requires Encodable(full) && forall i :: 0 <= i < |order| ==> order[i] in full
    ensures TakePairs(Body(full, order), |order|, kv) == Some(Insert(kv, full, order))
    decreases |order|
  {
    if |order| > 0 {
      PairRound(order[0], full[order[0]], Body(full, order[1..]));
      BodyRound(full, order[1..], kv[order[0] := full[order[0]]]);
    }
  }

  lemma {:induction false} InsertMeans(kv: Kv, full: Kv, order: seq<Bytes>)
    requires forall i :: 0 <= i < |order| ==> order[i] in full
    ensures forall k :: k in Insert(kv, full, order) <==> k in kv || k in order
    ensures forall k :: k in Insert(kv, full, order) ==>
              Insert(kv, full, order)[k] == if k in order then full[k] else kv[k]
    decreases |order|
  {
    if |order| > 0 {
      InsertMeans(kv[order[0] := full[order[0]]], full, order[1..]);
      assert order == [order[0]] + order[1..];
    }
  }

  lemma {:induction false} WalkInserts(full: Kv, order: seq<Bytes>)
    requires Walks(order, full)
    ensures Insert(map[], full, order) == full
  {
    InsertMeans(map[], full, order);
  }

  lemma Fields(m: Bytes, v: Bytes, i: Bytes, t: Bytes, c: Bytes, tail: Bytes)
    requires |m| == 4 && |v| == 2 && |i| == 8 && |t| == 8 && |c| == 8
    ensures var b := m + v + i + t + c + tail;
            b[..4] == m && b[6..14] == i && b[14..22] == t && b[22..30] == c && b[30..] == tail
  {}

  lemma HeaderBack(i: u64, t: u64, c: u64, tail: Bytes)
    ensures var b := Header(i, t, c) + tail;
            b[..4] == MAGIC && Be64(b[6..14]) == i && Be64(b[14..22]) == t && Be64(b[22..30]) == c
  {
    Fields(MAGIC, VERSION, Be(8, i), Be(8, t), Be(8, c), tail);
    Be64Round(i);
    Be64Round(t);
    Be64Round(c);
  }

  lemma FooterBack(h: Bytes, body: Bytes, crc: Crc)
    requires |h| == HEADER_SIZE
    ensures var framed := h + body;
            var raw := framed + Be(4, crc(framed));
            var end := |raw| - 4;
            Be32(raw[end..]) == crc(raw[..end]) && raw[HEADER_SIZE..end] == body
  {
    var framed := h + body;
    var raw := framed + Be(4, crc(framed));
    assert raw[..|framed|] == framed && raw[|framed|..] == Be(4, crc(framed)) && raw[HEADER_SIZE..|framed|] == body;
    Be32Round(crc(framed));
  }

  lemma DecodeFields(raw: Bytes, i: u64, t: u64, c: u64, full: Kv, reserved: Bytes, json: Json, crc: Crc)
    requires |raw| >= HEADER_SIZE + 4 && raw[..4] == MAGIC && Be32(raw[|raw| - 4..]) == crc(raw[..|raw| - 4])
    requires Be64(raw[6..14]) == i && Be64(raw[14..22]) == t && Be64(raw[22..30]) == c
    requires TakePairs(raw[HEADER_SIZE..|raw| - 4], Signed(c), map[]) == Some(full)
    requires reserved in full && json.unmarshal(full[reserved]).Some?
    ensures Decode(raw, reserved, json, crc) ==
              Some(Decoded(Signed(i), Signed(t), full - {reserved}, json.unmarshal(full[reserved]).value))
  {}

  /** What a snapshot with these fields and this body decodes to. */
  lemma {:induction false} DecodeFramed(i: u64, t: u64, c: u64, body: Bytes, full: Kv, reserved: Bytes, json: Json,
                                        crc: Crc)
    requires TakePairs(body, Signed(c), map[]) == Some(full) && reserved in full && json.unmarshal(full[reserved]).Some?
    ensures var framed := Header(i, t, c) + body;
            Decode(framed + Be(4, crc(framed)), reserved, json, crc) ==
              Some(Decoded(Signed(i), Signed(t), full - {reserved}, json.unmarshal(full[reserved]).value))
  {
    var framed := Header(i, t, c) + body;
    FieldsBack(i, t, c, body, crc);
    DecodeFields(framed + Be(4, crc(framed)), i, t, c, full, reserved, json, crc);
  }

  lemma FieldsBack(i: u64, t: u64, c: u64, body: Bytes, crc: Crc)
    ensures var framed := Header(i, t, c) + body;
            var raw := framed + Be(4, crc(framed));
            && |raw| >= HEADER_SIZE + 4 && raw[..4] == MAGIC && Be32(raw[|raw| - 4..]) == crc(raw[..|raw| - 4])
            && Be64(raw[6..14]) == i && Be64(raw[14..22]) == t && Be64(raw[22..30]) == c
            && raw[HEADER_SIZE..|raw| - 4] == body
  {
    var h := Header(i, t, c);
    var sum := Be(4, crc(h + body));
    FooterBack(h, body, crc);
    HeaderBack(i, t, c, body + sum);
    assert h + body + sum == h + (body + sum);
  }

  /** Encoding fails exactly when a key or a value is too long for its length field. Otherwise decoding gives back
      index, term, configuration and every pair but one under the reserved key, whatever the order in which the map was
      walked. */
  lemma SnapshotRound(index: int, term: int, kv: Kv, config: ClusterConfig, order: seq<Bytes>, reserved: Bytes,
                      json: Json, crc: Crc)
    requires InRange(index) && InRange(term) && InRange(|order|) && json.unmarshal(json.marshal(config)) == Some(config)
    requires Walks(order, Full(kv, config, reserved, json))
    ensures var full := Full(kv, config, reserved, json);
            var raw := Encode(index, term, full, order, crc);
            && (raw.Some? <==> forall k :: k in full ==> |k| < 0x1_0000 && |full[k]| < 0x1_0000_0000)
            && (raw.Some? ==> Decode(raw.value, reserved, json, crc) ==
                                Some(Decoded(index, term, kv - {reserved}, config)))
  {
    var full := Full(kv, config, reserved, json);
    if Encode(index, term, full, order, crc).Some? {
      EncodedRound(index, term, kv, config, order, reserved, json, crc);
    }
  }

  lemma EncodedRound(index: int, term: int, kv: Kv, config: ClusterConfig, order: seq<Bytes>, reserved: Bytes,
                     json: Json, crc: Crc)
    requires InRange(index) && InRange(term) && InRange(|order|) && json.unmarshal(json.marshal(config)) == Some(config)
    requires Walks(order, Full(kv, config, reserved, json))
    requires Encode(index, term, Full(kv, config, reserved, json), order, crc).Some?
    ensures var raw := Encode(index, term, Full(kv, config, reserved, json), order, crc).value;
            Decode(raw, reserved, json, crc) == Some(Decoded(index, term, kv - {reserved}, config))
  {
    var full := Full(kv, config, reserved, json);
    SignedRound(index);
    SignedRound(term);
    SignedRound(|order|);
    BodyRound(full, order, map[]);
    WalkInserts(full, order);
    DecodeFramed(Unsigned(index), Unsigned(term), Unsigned(|order|), Body(full, order), full, reserved, json, crc);
    assert full - {reserved} == kv - {reserved};
  }

  /** So the map itself comes back exactly when it does not use the reserved key. */
  lemma MapRoundExactly(index: int, term: int, kv: Kv, config: ClusterConfig, order: seq<Bytes>, reserved: Bytes,
                        json: Json, crc: Crc)
    requires InRange(index) && InRange(term) && InRange(|order|) && json.unmarshal(json.marshal(config)) == Some(config)
    requires Walks(order, Full(kv, config, reserved, json))
    requires Encode(index, term, Full(kv, config, reserved, json), order, crc).Some?
    ensures var raw := Encode(index, term, Full(kv, config, reserved, json), order, crc).value;
            Decode(raw, reserved, json, crc) == Some(Decoded(index, term, kv, config)) <==> reserved !in kv
  {
    SnapshotRound(index, term, kv, config, order, reserved, json, crc);
    if reserved in kv { assert reserved !in kv - {reserved}; } else { assert kv - {reserved} == kv; }
  }

  // ---- Chunks ----

  datatype Chunk = Chunk(offset: nat, data: Bytes, done: bool)

  /** The rest of `raw` from `offset` on, in pieces of `size`. */
  function Chunks(raw: Bytes, offset: nat, size: nat): seq<Chunk>
    requires size >= 1 && offset <= |raw|
    decreases |raw| - offset
  {
    if offset == |raw| then []
    else
      var end := if offset + size > |raw| then |raw| else offset + size;
      [Chunk(offset, raw[offset..end], end == |raw|)] + Chunks(raw, end, size)
  }

  /** The receiver's buffer after one chunk: the first chunk starts it anew. */
  function Buffered(buf: Bytes, c: Chunk): Bytes { if c.offset == 0 then c.data else buf + c.data }

  /** One chunk: the buffer afterwards, and the bytes handed over, if any. */
  function Accepted(buf: Bytes, c: Chunk): (Bytes, Option<Bytes>) {
    if c.done then ([], Some(Buffered(buf, c))) else (Buffered(buf, c), None)
  }

  /** A stream of chunks: the buffer at the end, and what each chunk handed over. */
  function Received(buf: Bytes, cs: seq<Chunk>): (Bytes, seq<Option<Bytes>>)
    decreases |cs|
  {
    if |cs| == 0 then (buf, [])
    else
      var (next, out) := Accepted(buf, cs[0]);
      var (end, outs) := Received(next, cs[1..]);
      (end, [out] + outs)
  }

  /** Nothing is handed over before the last of n chunks, then `raw`, and the buffer is empty. */
  predicate HandsOver(r: (Bytes, seq<Option<Bytes>>), n: nat, raw: Bytes) {
    && r.0 == [] && |r.1| == n > 0
    && forall i :: 0 <= i < n ==> r.1[i] == if i == n - 1 then Some(raw) else None
  }

  lemma {:induction false} ReceiveOne(buf: Bytes, c: Chunk, rest: seq<Chunk>, raw: Bytes)
    requires if c.done then rest == [] && Buffered(buf, c) ==
               raw else HandsOver(Received(Buffered(buf, c), rest), |rest|, raw)
    ensures HandsOver(Received(buf, [c] + rest), 1 + |rest|, raw)
  {
    assert ([c] + rest)[1..] == rest;
  }

  lemma {:induction false} ChunksRest(raw: Bytes, offset: nat, size: nat)
    requires size >= 1 && 0 < offset < |raw|
    ensures HandsOver(Received(raw[..offset], Chunks(raw, offset, size)), |Chunks(raw, offset, size)|, raw)
    decreases |raw| - offset
  {
    var end := if offset + size > |raw| then |raw| else offset + size;
    var c := Chunk(offset, raw[offset..end], end == |raw|);
    assert raw[..offset] + raw[offset..end] == raw[..end] && raw[..|raw|] == raw;
    if end < |raw| { ChunksRest(raw, end, size); }
    ReceiveOne(raw[..offset], c, Chunks(raw, end, size), raw);
  }

  /** One stream of chunks hands over the bytes, exactly at its last chunk, whatever an earlier stream left in the
      buffer. */
  lemma {:induction false} ChunksRound(raw: Bytes, size: nat, left: Bytes)
    requires size >= 1 && |raw| > 0
    ensures HandsOver(Received(left, Chunks(raw, 0, size)), |Chunks(raw, 0, size)|, raw)
  {
    var end := if size > |raw| then |raw| else size;
    assert raw[0..end] == raw[..end] && raw[..|raw|] == raw;
    if end < |raw| { ChunksRest(raw, end, size); }
    ReceiveOne(left, Chunk(0, raw[0..end], end == |raw|), Chunks(raw, end, size), raw);
  }

  /** Only the last chunk is marked done, and no chunk is larger than the limit. */
  lemma {:induction false} DoneOnlyLast(raw: Bytes, offset: nat, size: nat)
    requires size >= 1 && offset < |raw|
    ensures var cs := Chunks(raw, offset, size);
            |cs| > 0 && forall i :: 0 <= i < |cs| ==> (cs[i].done <==> i == |cs| - 1) && 1 <= |cs[i].data| <= size
    decreases |raw| - offset
  {
    var end := if offset + size > |raw| then |raw| else offset + size;
    if end < |raw| { DoneOnlyLast(raw, end, size); }
  }

  // ---- The whole transfer ----

  /** What the follower holds of a snapshot: its map, the index it reflects, and the node's log position. */
  datatype Follower = Follower(kv: Kv, applied: int, snapIndex: int, snapTerm: int, config: ClusterConfig)

  /** The full restore on the last chunk. A payload that does not decode, or does not carry the announced index
      and term, changes nothing; an empty configuration does not replace the live one. */
  function Restored(f: Follower, raw: Bytes, index: int, term: int, reserved: Bytes, json: Json, crc: Crc): Follower {
    var d := Decode(raw, reserved, json, crc);
    if d.None? || d.value.index != index || d.value.term != term then f
    else Follower(d.value.kv, index, index, term, if d.value.config.IsZero() then f.config else d.value.config)
  }

  /** For every map, walk order and chunk size: the last chunk hands over the payload, and the follower ends with the
      leader's map but for the reserved key, its index and term, and its configuration unless that is empty. */
  lemma {:induction false} TransferRound(f: Follower, left: Bytes, index: int, term: int, kv: Kv, config: ClusterConfig,
                                         order: seq<Bytes>, size: nat, reserved: Bytes, json: Json, crc: Crc)
    requires InRange(index) && InRange(term) && InRange(|order|) && json.unmarshal(json.marshal(config)) == Some(config)
    requires size >= 1 && Walks(order, Full(kv, config, reserved, json))
    requires Encode(index, term, Full(kv, config, reserved, json), order, crc).Some?
    ensures var raw := Encode(index, term, Full(kv, config, reserved, json), order, crc).value;
            var outs := Received(left, Chunks(raw, 0, size)).1;
            && |outs| > 0 && outs[|outs| - 1].Some?
            && Restored(f, outs[|outs| - 1].value, index, term, reserved, json, crc) ==
                 Follower(kv - {reserved}, index, index, term, if config.voters == [] then f.config else config)
  {
    EncodedRound(index, term, kv, config, order, reserved, json, crc);
    ChunksRound(Encode(index, term, Full(kv, config, reserved, json), order, crc).value, size, left);
  }

  /** A payload whose checksum does not fit, or whose index or term is not the announced one, leaves the follower as it
      is. */
  lemma RestoreRefuses(f: Follower, raw: Bytes, index: int, term: int, reserved: Bytes, json: Json, crc: Crc)
    requires |raw| >= HEADER_SIZE + 4
    requires || Be32(raw[|raw| - 4..]) != crc(raw[..|raw| - 4])
             || Signed(Be64(raw[6..14])) != index || Signed(Be64(raw[14..22])) != term
    ensures Restored(f, raw, index, term, reserved, json, crc) == f
  {
    DecodeExactly(raw, reserved, json, crc);
  }

  // ---- The loops ----

  lemma Assoc(a: Bytes, b: Bytes, c: Bytes)
    ensures (a + b) + c == a + (b + c)
  {}

  method EncodeSnapshot(index: int, term: int, full: Kv, order: seq<Bytes>, crc: Crc) returns (r: Option<Bytes>)
    requires Walks(order, full)
    ensures r == Encode(index, term, full, order, crc)
  {
    var buf := Header(Unsigned(index), Unsigned(term), Unsigned(|order|));
    ghost var all := buf + Body(full, order);
    for i := 0 to |order|
      invariant forall j :: 0 <= j < i ==> FitsPair(order[j], full[order[j]])
      invariant buf + Body(full, order[i..]) == all
    {
      var k, v := order[i], full[order[i]];
      if |k| > 0xFFFF || |v| > 0xFFFF_FFFF { return None; }
      assert order[i..][1..] == order[i + 1..];
      Assoc(buf, Pair(k, v), Body(full, order[i + 1..]));
      buf := buf + Pair(k, v);
    }
    assert buf == all;
    return Some(buf + Be(4, crc(buf)));
  }

  /** One pair at the cursor, and where the next one starts. */
  method PairAt(r: Bytes, pos: nat) returns (ok: bool, key: Bytes, val: Bytes, next: nat)
    requires pos <= |r|
    ensures ok <==> TakePair(r[pos..]).Some?
    ensures ok ==> pos <= next <= |r| && TakePair(r[pos..]) == Some((key, val, r[next..]))
  {
    ghost var rest := r[pos..];
    ok, key, val, next := false, [], [], pos;
    if pos + 2 > |r| { return; }
    var n := BeValue(r[pos..pos + 2]);
    assert rest[..2] == r[pos..pos + 2];
    if pos + 2 + n > |r| || pos + 2 + n + 4 > |r| { return; }
    var l := BeValue(r[pos + 2 + n..pos + 6 + n]);
    assert rest[2 + n..6 + n] == r[pos + 2 + n..pos + 6 + n];
    if pos + 6 + n + l > |r| { return; }
    ok, key, val, next := true, r[pos + 2..pos + 2 + n], r[pos + 6 + n..pos + 6 + n + l], pos + 6 + n + l;
    assert rest[2..2 + n] == key && rest[6 + n..6 + n + l] == val && rest[6 + n + l..] == r[next..];
  }

  /** The body loop of the decoder, with its cursor. */
  method DecodePairs(r: Bytes, count: int) returns (kv: Option<Kv>)
    ensures kv == TakePairs(r, count, map[])
  {
    var m: Kv, pos, i := map[], 0, 0;
    assert r[0..] == r;
    while i < count
      invariant 0 <= pos <= |r| && 0 <= i && (count >= 0 ==> i <= count)
      invariant TakePairs(r[pos..], count - i, m) == TakePairs(r, count, map[])
      decreases count - i
    {
      var ok, key, val, next := PairAt(r, pos);
      if !ok { return None; }
      m, pos, i := m[key := val], next, i + 1;
    }
    return Some(m);
  }

  method SendChunks(raw: Bytes, size: nat) returns (sent: seq<Chunk>)
    requires size >= 1
    ensures sent == Chunks(raw, 0, size)
  {
    sent := [];
    var offset := 0;
    while offset < |raw|
      invariant 0 <= offset <= |raw|
      invariant sent + Chunks(raw, offset, size) == Chunks(raw, 0, size)
      decreases |raw| - offset
    {
      var end := if offset + size > |raw| then |raw| else offset + size;
      ghost var rest := Chunks(raw, offset, size);
      assert rest == [Chunk(offset, raw[offset..end], end == |raw|)] + Chunks(raw, end, size);
      assert sent + rest == sent + [Chunk(offset, raw[offset..end], end == |raw|)] + Chunks(raw, end, size);
      sent := sent + [Chunk(offset, raw[offset..end], end == |raw|)];
      offset := end;
    }
  }

  /** The follower's chunk buffer. */
  class Receiver {
    var buf: Bytes

    constructor ()
      ensures buf == []
    {
      buf := [];
    }

    /** Keeps the chunk; on the last one hands over all bytes and empties the buffer. */
    method Accept(c: Chunk) returns (whole: Option<Bytes>)
      modifies this
      ensures (buf, whole) == Accepted(old(buf), c)
    {
      if c.offset == 0 { buf := []; }
      assert [] + c.data == c.data;
      buf := buf + c.data;
      if !c.done { return None; }
      whole := Some(buf);
      buf := [];
    }

    /** The stream handler. */
    method AcceptAll(cs: seq<Chunk>) returns (outs: seq<Option<Bytes>>)
      modifies this
      ensures (buf, outs) == Received(old(buf), cs)
    {
      outs := [];
      assert cs[0..] == cs && [] + Received(buf, cs).1 == Received(buf, cs).1;
      for i := 0 to |cs|
        invariant Received(old(buf), cs) == (Received(buf, cs[i..]).0, outs + Received(buf, cs[i..]).1)
      {
        ghost var before := Received(buf, cs[i..]);
        var whole := Accept(cs[i]);
        assert cs[i..][1..] == cs[i + 1..];
        assert before.1 == [whole] + Received(buf, cs[i + 1..]).1;
        assert outs + ([whole] + Received(buf, cs[i + 1..]).1) == outs + [whole] + Received(buf, cs[i + 1..]).1;
        outs := outs + [whole];
      }
      assert cs[|cs|..] == [] && outs + [] == outs;
    }
  }
}
