/** Bytes and fixed-width integers, as the on-disk and on-wire formats lay them out. */
module Bytes {

  type byte = x: int | 0 <= x < 256

  type Bytes = seq<byte>

  type u32 = x: int | 0 <= x < 0x1_0000_0000

  type u64 = x: int | 0 <= x < 0x1_0000_0000_0000_0000

  /** Signed 64-bit integers. */
  type i64 = x: int | -0x8000_0000_0000_0000 <= x < 0x8000_0000_0000_0000

  /** Two's complement. */
  function Unsigned(x: int): u64 { x % 0x1_0000_0000_0000_0000 }

  function Signed(x: u64): i64 { if x >= 0x8000_0000_0000_0000 then x - 0x1_0000_0000_0000_0000 else x }

  predicate InRange(x: int) { -0x8000_0000_0000_0000 <= x < 0x8000_0000_0000_0000 }

  lemma SignedRound(x: int)
    requires InRange(x)
    ensures Unsigned(x) == (if x < 0 then x + 0x1_0000_0000_0000_0000 else x) && Signed(Unsigned(x)) == x
  {}

  function Pow256(w: nat): nat { if w == 0 then 1 else 256 * Pow256(w - 1) }

  /** The low `w` bytes of `v`, least significant first. */
  function Le(w: nat, v: nat): (b: Bytes)
    ensures |b| == w
  {
    if w == 0 then [] else [v % 256] + Le(w - 1, v / 256)
  }

  function LeValue(b: Bytes): (v: nat)
    ensures v < Pow256(|b|)
  {
    if |b| == 0 then 0 else b[0] + 256 * LeValue(b[1..])
  }

  /** The low `w` bytes of `v`, most significant first. */
  function Be(w: nat, v: nat): (b: Bytes)
    ensures |b| == w
  {
    if w == 0 then [] else Be(w - 1, v / 256) + [v % 256]
  }

  function BeValue(b: Bytes): (v: nat)
    ensures v < Pow256(|b|)
  {
    if |b| == 0 then 0 else 256 * BeValue(b[..|b| - 1]) + b[|b| - 1]
  }

  /** Every key of the map, each once: an order in which a Go map may be walked. */
  predicate Walks<V>(order: seq<Bytes>, m: map<Bytes, V>) {
    && (forall i, j :: 0 <= i < j < |order| ==> order[i] != order[j])
    && (forall i :: 0 <= i < |order| ==> order[i] in m)
    && (forall k :: k in m ==> k in order)
  }

  lemma {:induction false} LeRound(w: nat, v: nat)
    requires v < Pow256(w)
    ensures LeValue(Le(w, v)) == v
  {
    if w > 0 {
      LeRound(w - 1, v / 256);
      assert Le(w, v)[1..] == Le(w - 1, v / 256);
    }
  }

  lemma {:induction false} BeRound(w: nat, v: nat)
    requires v < Pow256(w)
    ensures BeValue(Be(w, v)) == v
  {
    if w > 0 {
      BeRound(w - 1, v / 256);
      assert Be(w, v)[..w - 1] == Be(w - 1, v / 256);
    }
  }

  /** Writing back what was read gives the same bytes. */
  lemma {:induction false} BeBack(b: Bytes)
    ensures Be(|b|, BeValue(b)) == b
  {
    if |b| > 0 {
      var front, last := b[..|b| - 1], b[|b| - 1];
      BeBack(front);
      assert (256 * BeValue(front) + last) / 256 == BeValue(front);
      assert b == front + [last];
    }
  }

  lemma Widths()
    ensures Pow256(2) == 0x1_0000 && Pow256(4) == 0x1_0000_0000 && Pow256(8) == 0x1_0000_0000_0000_0000
  {
    assert Pow256(3) == 256 * 0x1_0000;
    assert Pow256(5) == 256 * 0x1_0000_0000;
    assert Pow256(6) == 256 * 0x100_0000_0000;
    assert Pow256(7) == 256 * 0x1_0000_0000_0000;
  }

  function Le64(b: Bytes): u64
    requires |b| == 8
  {
    Widths(); LeValue(b)
  }

  function Le32(b: Bytes): u32
    requires |b| == 4
  {
    Widths(); LeValue(b)
  }

  function Be64(b: Bytes): u64
    requires |b| == 8
  {
    Widths(); BeValue(b)
  }

  function Be32(b: Bytes): u32
    requires |b| == 4
  {
    Widths(); BeValue(b)
  }

  lemma {:induction false} Le64Round(v: u64)
    ensures Le64(Le(8, v)) == v
  {
    Widths();
    LeRound(8, v);
  }

  lemma {:induction false} Le32Round(v: u32)
    ensures Le32(Le(4, v)) == v
  {
    Widths();
    LeRound(4, v);
  }

  lemma {:induction false} Be16Round(v: nat)
    requires v < 0x1_0000
    ensures BeValue(Be(2, v)) == v
  {
    Widths();
    BeRound(2, v);
  }

  lemma {:induction false} Be64Round(v: u64)
    ensures Be64(Be(8, v)) == v
  {
    Widths();
    BeRound(8, v);
  }

  lemma {:induction false} Be32Round(v: u32)
    ensures Be32(Be(4, v)) == v
  {
    Widths();
    BeRound(4, v);
  }
}
