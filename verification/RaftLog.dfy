/** The replicated log as a node keeps it: a slice of entries that may start above index 1
    once a snapshot covers the prefix.

    Every function here scans exactly as the node does: `Find` from the end, `CutAt` and
    `Since` from the front. None of them assumes the indices to be consecutive; the lemmas
    at the end say what they mean when the indices are.
 */
module RaftLog {
  import opened Bytes

  datatype Option<+T> = None | Some(value: T)

  const COMMAND: byte := 0

  datatype Entry = Entry(index: int, term: int, kind: byte, data: Bytes)

  /** Position of the entry with this index, searched from the end; -1 when absent. */
  function Find(log: seq<Entry>, index: int): (p: int)
    ensures -1 <= p < |log|
    ensures p >= 0 ==> log[p].index == index
    ensures p == -1 ==> forall q :: 0 <= q < |log| ==> log[q].index != index
  {
    if |log| == 0 then -1
    else if log[|log| - 1].index == index then |log| - 1
    else Find(log[..|log| - 1], index)
  }

  /** entryAt: indices below 1 are never present. */
  function Locate(log: seq<Entry>, index: int): (p: int)
    ensures -1 <= p < |log|
    ensures p >= 0 ==> log[p].index == index
  {
    if index <= 0 then -1 else Find(log, index)
  }

  /** Length of the leading part whose indices are all below `index`. */
  function CutAt(log: seq<Entry>, index: int): (c: nat)
    ensures c <= |log|
    ensures forall q :: 0 <= q < c ==> log[q].index < index
    ensures c < |log| ==> log[c].index >= index
  {
    if |log| == 0 || log[0].index >= index then 0 else 1 + CutAt(log[1..], index)
  }

  /** The entries with index at least `index`, in order. */
  function Since(log: seq<Entry>, index: int): seq<Entry> {
    if |log| == 0 then []
    else Since(log[..|log| - 1], index) +
         (if log[|log| - 1].index >= index then [log[|log| - 1]] else [])
  }

  datatype Merged = Merged(log: seq<Entry>, ok: bool)

  /** The append loop: skip entries already present, truncate at the first conflict, append
      the rest. `writes` is how many log-store writes succeed before one fails; a failed write
      ends the loop with whatever has been done so far. */
  function Merge(log: seq<Entry>, entries: seq<Entry>, truncated: bool, writes: nat): Merged
    decreases |entries|
  {
    if |entries| == 0 then Merged(log, true)
    else
      var e := entries[0];
      var p := if truncated then -1 else Locate(log, e.index);
      if p >= 0 && log[p].term == e.term then Merge(log, entries[1..], truncated, writes)
      else if p >= 0 then
        if writes == 0 then Merged(log, false)
        else
          var kept := log[..CutAt(log, e.index)];
          if writes == 1 then Merged(kept, false)
          else Merge(kept + [e], entries[1..], true, writes - 2)
      else if writes == 0 then Merged(log, false)
      else Merge(log + [e], entries[1..], truncated, writes - 1)
  }

  // ---- Logs whose indices are consecutive ----

  /** The entries carry the indices first+1, first+2, ... */
  predicate Consecutive(log: seq<Entry>, first: int) {
    forall i :: 0 <= i < |log| ==> log[i].index == first + 1 + i
  }

  /** `a` is a prefix of `b`. */
  predicate Pre(a: seq<Entry>, b: seq<Entry>) {
    |a| <= |b| && b[..|a|] == a
  }

  lemma {:induction false} FindConsecutive(log: seq<Entry>, first: int, index: int)
    requires Consecutive(log, first)
    ensures Find(log, index) == if first < index <= first + |log| then index - first - 1 else -1
  {
    if |log| > 0 && log[|log| - 1].index != index {
      FindConsecutive(log[..|log| - 1], first, index);
    }
  }

  lemma {:induction false} SinceConsecutive(log: seq<Entry>, first: int, index: int)
    requires Consecutive(log, first)
    ensures Since(log, index) == if index <= first then log
                                 else if index > first + |log| then [] else log[index - first - 1..]
  {
    if |log| > 0 {
      SinceConsecutive(log[..|log| - 1], first, index);
      assert log == log[..|log| - 1] + [log[|log| - 1]];
    }
  }

  lemma {:induction false} CutConsecutive(log: seq<Entry>, first: int, index: int)
    requires Consecutive(log, first) && first < index <= first + |log| + 1
    ensures CutAt(log, index) == index - first - 1
  {
    var c := CutAt(log, index);
    if c < |log| { assert log[c].index == first + 1 + c; }
    if c > 0 { assert log[c - 1].index == first + c; }
  }

  // ---- Merging a leader's suffix into a follower's log ----

  /** Entries of equal index and term end equal prefixes. */
  predicate Agree(a: seq<Entry>, b: seq<Entry>) {
    forall i :: 0 <= i < |a| && i < |b| ==> AgreeAt(a, b, i)
  }

  predicate AgreeAt(a: seq<Entry>, b: seq<Entry>, i: int)
    requires 0 <= i < |a| && i < |b|
  {
    a[i].term == b[i].term ==> a[..i + 1] == b[..i + 1]
  }

  lemma AgreeWithOwnPrefix(full: seq<Entry>, p: nat)
    requires p <= |full|
    ensures Agree(full[..p], full)
  {
    forall i | 0 <= i < p ensures AgreeAt(full[..p], full, i) {
      assert full[..p][..i + 1] == full[..i + 1];
    }
  }

  /** One of the two is a prefix of the other. */
  predicate Comparable(a: seq<Entry>, b: seq<Entry>) {
    Pre(a, b) || Pre(b, a)
  }

  /** After a truncation the loop only appends. */
  lemma {:induction false} MergeAppends(full: seq<Entry>, p: nat, writes: nat)
    requires p <= |full|
    ensures var g := Merge(full[..p], full[p..], true, writes);
            Pre(g.log, full) && p <= |g.log| && (g.ok ==> g.log == full)
    decreases |full| - p
  {
    if p == |full| {
      assert full[..p] == full;
    } else if writes > 0 {
      assert full[..p] + [full[p]] == full[..p + 1];
      assert full[p..][1..] == full[p + 1..];
      MergeAppends(full, p + 1, writes - 1);
    }
  }

  /** One round of the loop when the log agrees with `full` up to `p`. */
  lemma {:induction false} MergeRound(log: seq<Entry>, full: seq<Entry>, first: int, p: nat, writes: nat)
    requires Consecutive(log, first) && Consecutive(full, first) && first >= 0
    requires p < |full| && p <= |log| && log[..p] == full[..p]
    ensures Merge(log, full[p..], false, writes) ==
              if p < |log| && log[p].term == full[p].term then Merge(log, full[p + 1..], false, writes)
              else if writes == 0 then Merged(log, false)
              else if p == |log| then Merge(full[..p + 1], full[p + 1..], false, writes - 1)
              else if writes == 1 then Merged(full[..p], false)
              else Merge(full[..p + 1], full[p + 1..], true, writes - 2)
  {
    var e := full[p];
    assert full[p..][1..] == full[p + 1..];
    FindConsecutive(log, first, e.index);
    CutConsecutive(log, first, e.index);
    assert log[..p] + [e] == full[..p + 1];
    if p == |log| { assert log[..p] == log; }
  }

  /** The result is the old log or a prefix of `full`, and a completed merge holds all of `full`. */
  predicate Shaped(log: seq<Entry>, full: seq<Entry>, g: Merged) {
    (g.log == log || Pre(g.log, full)) && (g.ok ==> Pre(full, g.log))
  }

  lemma PrefixPre(full: seq<Entry>, p: nat)
    requires p <= |full|
    ensures Pre(full[..p], full)
  {}

  lemma ShapedByAppending(log: seq<Entry>, full: seq<Entry>, p: nat, g: Merged)
    requires p <= |full| && Shaped(full[..p], full, g)
    ensures Shaped(log, full, g)
  {
    PrefixPre(full, p);
  }

  /** Merging the rest of `full` into a log that agrees with it up to `p`. */
  lemma {:induction false} MergeShape(log: seq<Entry>, full: seq<Entry>, first: int, p: nat, writes: nat)
    requires Consecutive(log, first) && Consecutive(full, first) && first >= 0 && Agree(log, full)
    requires p <= |full| && p <= |log| && log[..p] == full[..p]
    ensures Shaped(log, full, Merge(log, full[p..], false, writes))
    decreases |full| - p
  {
    if p == |full| {
      assert full[p..] == [] && full[..p] == full;
    } else {
      MergeRound(log, full, first, p, writes);
      if p < |log| && log[p].term == full[p].term {
        assert AgreeAt(log, full, p);
        MergeShape(log, full, first, p + 1, writes);
      } else if p < |log| {
        PrefixPre(full, p);
        if writes > 1 { MergeAppends(full, p + 1, writes - 2); }
      } else if writes > 0 {
        AgreeWithOwnPrefix(full, p + 1);
        MergeShape(full[..p + 1], full, first, p + 1, writes - 1);
        ShapedByAppending(log, full, p + 1, Merge(full[..p + 1], full[p + 1..], false, writes - 1));
      }
    }
  }

  /** A prefix comparable with `full` ends before the first disagreement. */
  lemma Diverged(log: seq<Entry>, full: seq<Entry>, p: nat, k: seq<Entry>)
    requires p < |log| && p < |full| && log[p].term != full[p].term && log[..p] == full[..p]
    requires Pre(k, log) && Comparable(k, full)
    ensures |k| <= p && full[..p][..|k|] == k
  {
    assert forall i :: 0 <= i < |k| ==> k[i] == log[i];
    assert forall i :: 0 <= i < |k| && i < |full| ==> k[i] == full[i];
    assert |k| <= p;
    assert log[..p][..|k|] == log[..|k|];
  }

  /** A prefix of the old log that `full` does not contradict survives the merge, even one cut short. */
  lemma {:induction false} MergeKeeps(log: seq<Entry>, full: seq<Entry>, first: int, p: nat, writes: nat, k: seq<Entry>)
    requires Consecutive(log, first) && Consecutive(full, first) && first >= 0 && Agree(log, full)
    requires p <= |full| && p <= |log| && log[..p] == full[..p]
    requires Pre(k, log) && Comparable(k, full)
    ensures Pre(k, Merge(log, full[p..], false, writes).log)
    decreases |full| - p
  {
    if p == |full| {
      assert full[p..] == [];
    } else {
      MergeRound(log, full, first, p, writes);
      if p < |log| && log[p].term == full[p].term {
        assert AgreeAt(log, full, p);
        MergeKeeps(log, full, first, p + 1, writes, k);
      } else if p < |log| {
        Diverged(log, full, p, k);
        if writes > 1 {
          MergeAppends(full, p + 1, writes - 2);
          var g := Merge(full[..p + 1], full[p + 1..], true, writes - 2);
          assert g.log[..|k|] == full[..|g.log|][..|k|] == full[..p][..|k|];
        }
      } else if writes > 0 {
        AgreeWithOwnPrefix(full, p + 1);
        MergeKeeps(full[..p + 1], full, first, p + 1, writes - 1, k);
      }
    }
  }
}
