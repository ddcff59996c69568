/** A node whose log prefix was replaced by a snapshot answers like one that kept the whole log.

    `Compact(n, s)` is the node `n`, whose log is complete, as it looks once everything up to index `s` lives
    in a snapshot. Each handler commutes with it, and so does every sequence of handlers and snapshots. The one
    difference a peer can see is that the conflict index of a rejection never lies below `s`.
 */
module Compaction {
  import opened Bytes
  import opened Quorum
  import opened RaftLog
  import opened RaftNode

  /** A node that never took a snapshot. */
  predicate Whole(n: Node) {
    n.snapIndex == 0 && n.snapTerm == 0 && Consecutive(n.log, 0)
  }

  function Compact(n: Node, s: nat): Node
    requires s <= |n.log|
  {
    n.(log := n.log[s..], snapIndex := s, snapTerm := if s == 0 then 0 else n.log[s - 1].term)
  }

  // ---- Reading the log ----

  lemma SuffixConsecutive(log: seq<Entry>, s: nat)
    requires Consecutive(log, 0) && s <= |log|
    ensures Consecutive(log[s..], s)
  {}

  lemma LocateSuffix(log: seq<Entry>, s: nat, index: int)
    requires Consecutive(log, 0) && s <= |log| && index > s
    ensures var p, q := Locate(log, index), Locate(log[s..], index);
            (p >= 0 <==> q >= 0) && (q >= 0 ==> p == s + q && log[p] == log[s..][q])
  {
    SuffixConsecutive(log, s);
    FindConsecutive(log, 0, index);
    FindConsecutive(log[s..], s, index);
  }

  lemma SameTerm(n: Node, s: nat, index: int)
    requires Whole(n) && s <= |n.log|
    ensures index >= s ==> Compact(n, s).TermAt(index) == n.TermAt(index)
    ensures index < s ==> Compact(n, s).TermAt(index) == None
  {
    SuffixConsecutive(n.log, s);
    FindConsecutive(n.log, 0, index);
    FindConsecutive(n.log[s..], s, index);
  }

  lemma SameLast(n: Node, s: nat)
    requires Whole(n) && s <= |n.log|
    ensures Compact(n, s).LastIndex() == n.LastIndex() == |n.log|
    ensures Compact(n, s).LastTerm() == n.LastTerm()
  {}

  lemma {:induction false} RunStartAbove(n: Node, s: nat, index: int, term: int)
    requires Whole(n) && s <= |n.log| && index >= s
    ensures Compact(n, s).RunStart(index, term) == if n.RunStart(index, term) < s then s else n.RunStart(index, term)
    ensures n.RunStart(index, term) <= index
    decreases index
  {
    if index > 1 {
      SameTerm(n, s, index - 1);
      if index > s {
        if n.TermAt(index - 1) == Some(term) { RunStartAbove(n, s, index - 1, term); }
      } else {
        RunStartBelow(n, index, term);
      }
    }
  }

  lemma {:induction false} RunStartBelow(n: Node, index: int, term: int)
    ensures n.RunStart(index, term) <= index
    decreases index
  {
    if index > 1 && n.TermAt(index - 1) == Some(term) { RunStartBelow(n, index - 1, term); }
  }

  // ---- AppendEntries ----

  /** What a compacted node answers where a complete one answers `r`. */
  function Raised(r: AppendResult, s: nat): AppendResult {
    if 0 < r.conflictIndex < s then r.(conflictIndex := s) else r
  }

  /** A request about the part above the snapshot, with consecutive entries. */
  predicate Above(a: AppendArgs, s: nat) {
    a.prevIndex >= s && Consecutive(a.entries, if a.prevIndex < 0 then 0 else a.prevIndex)
  }

  lemma SameMismatch(n: Node, s: nat, a: AppendArgs)
    requires Whole(n) && s <= |n.log| && a.prevIndex >= s
    ensures var x, y := Mismatch(n, a), Mismatch(Compact(n, s), a);
            if x.None? then y.None? else y == Some(Raised(x.value, s))
  {
    SameTerm(n, s, a.prevIndex);
    SameLast(n, s);
    var t := n.TermAt(a.prevIndex);
    if t.Some? { RunStartAbove(n, s, a.prevIndex, t.value); }
    if a.prevIndex > 0 && t.Some? { RunStartPositive(n, a.prevIndex, t.value); }
  }

  lemma {:induction false} RunStartPositive(n: Node, index: int, term: int)
    requires index >= 1
    ensures n.RunStart(index, term) >= 1
    decreases index
  {
    if index > 1 && n.TermAt(index - 1) == Some(term) { RunStartPositive(n, index - 1, term); }
  }

  lemma {:induction false} CutSuffix(log: seq<Entry>, s: nat, index: int)
    requires Consecutive(log, 0) && s < index <= |log| + 1
    ensures CutAt(log, index) == index - 1 && CutAt(log[s..], index) == index - 1 - s
  {
    CutConsecutive(log, 0, index);
    SuffixConsecutive(log, s);
    CutConsecutive(log[s..], s, index);
  }

  /** One round of the append loop before any truncation, in terms of positions. */
  lemma MergeStep(log: seq<Entry>, first: nat, entries: seq<Entry>, q: nat, writes: nat)
    requires Consecutive(log, first) && first <= q <= first + |log|
    requires |entries| > 0 && entries[0].index == q + 1
    ensures Merge(log, entries, false, writes) ==
              if q < first + |log| && log[q - first].term == entries[0].term
              then Merge(log, entries[1..], false, writes)
              else if writes == 0 then Merged(log, false)
              else if q == first + |log| then Merge(log + [entries[0]], entries[1..], false, writes - 1)
              else if writes == 1 then Merged(log[..q - first], false)
              else Merge(log[..q - first] + [entries[0]], entries[1..], true, writes - 2)
  {
    FindConsecutive(log, first, q + 1);
    CutConsecutive(log, first, q + 1);
  }

  /** `h` is what is left of `g` above `s`, and `g` kept the first `s` entries of `log`. */
  predicate SuffixOf(log: seq<Entry>, s: nat, g: Merged, h: Merged)
    requires s <= |log|
  {
    Consecutive(g.log, 0) && s <= |g.log| && g.log[..s] == log[..s] && h == Merged(g.log[s..], g.ok)
  }

  lemma CutShort(log: seq<Entry>, s: nat, q: nat)
    requires Consecutive(log, 0) && s <= q <= |log|
    ensures SuffixOf(log, s, Merged(log[..q], false), Merged(log[s..][..q - s], false))
  {
    assert log[..q][s..] == log[s..][..q - s];
    assert log[..q][..s] == log[..s];
  }

  lemma Replaced(log: seq<Entry>, s: nat, q: nat, e: Entry)
    requires Consecutive(log, 0) && s <= q <= |log| && e.index == q + 1
    ensures var k := log[..q] + [e];
            Consecutive(k, 0) && k[s..] == log[s..][..q - s] + [e] && k[..s] == log[..s]
  {}

  /** After a truncation the loop only appends. */
  lemma {:induction false} AppendSuffix(log: seq<Entry>, s: nat, entries: seq<Entry>, writes: nat)
    requires Consecutive(log, 0) && s <= |log| && Consecutive(entries, |log|)
    ensures SuffixOf(log, s, Merge(log, entries, true, writes), Merge(log[s..], entries, true, writes))
    decreases |entries|
  {
    if |entries| > 0 && writes > 0 {
      var k := log + [entries[0]];
      assert k[s..] == log[s..] + [entries[0]] && k[..s] == log[..s];
      AppendSuffix(k, s, entries[1..], writes - 1);
    }
  }

  predicate MergesAlike(log: seq<Entry>, s: nat, entries: seq<Entry>, writes: nat)
    requires s <= |log|
  {
    SuffixOf(log, s, Merge(log, entries, false, writes), Merge(log[s..], entries, false, writes))
  }

  lemma SkipAlike(log: seq<Entry>, s: nat, entries: seq<Entry>, q: nat, writes: nat)
    requires Consecutive(log, 0) && s <= q < |log| && |entries| > 0 && entries[0].index == q + 1
    requires log[q].term == entries[0].term && MergesAlike(log, s, entries[1..], writes)
    ensures MergesAlike(log, s, entries, writes)
  {
    SuffixConsecutive(log, s);
    MergeStep(log, 0, entries, q, writes);
    MergeStep(log[s..], s, entries, q, writes);
  }

  lemma AppendAlike(log: seq<Entry>, s: nat, entries: seq<Entry>, writes: nat)
    requires Consecutive(log, 0) && s <= |log| && |entries| > 0 && entries[0].index == |log| + 1
    requires writes > 0 ==> MergesAlike(log + [entries[0]], s, entries[1..], writes - 1)
    ensures MergesAlike(log, s, entries, writes)
  {
    SuffixConsecutive(log, s);
    MergeStep(log, 0, entries, |log|, writes);
    MergeStep(log[s..], s, entries, |log|, writes);
    var k := log + [entries[0]];
    assert k[s..] == log[s..] + [entries[0]] && k[..s] == log[..s];
  }

  lemma CutAlike(log: seq<Entry>, s: nat, entries: seq<Entry>, q: nat, writes: nat)
    requires Consecutive(log, 0) && s <= q < |log| && Consecutive(entries, q) && |entries| > 0
    requires log[q].term != entries[0].term
    ensures MergesAlike(log, s, entries, writes)
  {
    SuffixConsecutive(log, s);
    MergeStep(log, 0, entries, q, writes);
    MergeStep(log[s..], s, entries, q, writes);
    Replaced(log, s, q, entries[0]);
    CutShort(log, s, q);
    if writes > 1 { AppendSuffix(log[..q] + [entries[0]], s, entries[1..], writes - 2); }
  }

  /** The append loop on the suffix is the suffix of the append loop on the whole log. */
  lemma {:induction false} MergeSuffix(log: seq<Entry>, s: nat, entries: seq<Entry>, q: nat, writes: nat)
    requires Consecutive(log, 0) && s <= q <= |log| && Consecutive(entries, q)
    ensures MergesAlike(log, s, entries, writes)
    decreases |entries|
  {
    if |entries| > 0 {
      if q == |log| {
        if writes > 0 { MergeSuffix(log + [entries[0]], s, entries[1..], q + 1, writes - 1); }
        AppendAlike(log, s, entries, writes);
      } else if log[q].term == entries[0].term {
        MergeSuffix(log, s, entries[1..], q + 1, writes);
        SkipAlike(log, s, entries, q, writes);
      } else {
        CutAlike(log, s, entries, q, writes);
      }
    }
  }

  /** An accepted anchor lies within the log. */
  lemma AnchorWithin(n: Node, a: AppendArgs)
    requires Whole(n) && Mismatch(n, a).None?
    ensures a.prevIndex <= |n.log|
  {
    FindConsecutive(n.log, 0, a.prevIndex);
  }

  /** The handler past its term section. */
  function Handled(m: Node, a: AppendArgs, writes: nat): (Node, AppendResult) {
    var bad := Mismatch(m, a);
    if bad.Some? then (m, bad.value)
    else
      var g := Merge(m.log, a.entries, false, writes);
      var k := m.(log := g.log);
      (if g.ok then Commit(k, a.leaderCommit) else k, AppendResult(m.currentTerm, g.ok, 0, 0))
  }

  lemma {:induction false} MergedTransparent(m: Node, s: nat, a: AppendArgs, writes: nat)
    requires Whole(m) && s <= |m.log| && Above(a, s) && Mismatch(m, a).None?
    ensures var g, h := Merge(m.log, a.entries, false, writes), Merge(m.log[s..], a.entries, false, writes);
            && h.ok == g.ok && Whole(m.(log := g.log)) && s <= |g.log|
            && Compact(m, s).(log := h.log) == Compact(m.(log := g.log), s)
  {
    AnchorWithin(m, a);
    MergeSuffix(m.log, s, a.entries, if a.prevIndex < 0 then 0 else a.prevIndex, writes);
    var g := Merge(m.log, a.entries, false, writes);
    assert s > 0 ==> g.log[s - 1] == g.log[..s][s - 1] == m.log[s - 1];
  }

  lemma HandledTransparent(m: Node, s: nat, a: AppendArgs, writes: nat)
    requires Whole(m) && s <= |m.log| && Above(a, s)
    ensures var (x, r) := Handled(m, a, writes);
            Whole(x) && s <= |x.log| && Handled(Compact(m, s), a, writes) == (Compact(x, s), Raised(r, s))
  {
    SameMismatch(m, s, a);
    if Mismatch(m, a).None? {
      MergedTransparent(m, s, a, writes);
      SameLast(m.(log := Merge(m.log, a.entries, false, writes).log), s);
    }
  }

  /** The append handler: same verdict, same logical log, same commit index. */
  lemma AppendTransparent(n: Node, s: nat, a: AppendArgs, save: SaveOutcome, writes: nat)
    requires Whole(n) && s <= |n.log| && Above(a, s)
    ensures var (x, r) := OnAppend(n, a, save, writes);
            && Whole(x) && s <= |x.log|
            && OnAppend(Compact(n, s), a, save, writes) == (Compact(x, s), Raised(r, s))
  {
    if a.term >= n.currentTerm {
      var m := Follow(n, a.term, a.leader, save);
      assert Follow(Compact(n, s), a.term, a.leader, save) == Compact(m, s);
      assert OnAppend(n, a, save, writes) == Handled(m, a, writes);
      assert OnAppend(Compact(n, s), a, save, writes) == Handled(Compact(m, s), a, writes);
      HandledTransparent(m, s, a, writes);
    }
  }

  // ---- Votes, proposals, commit and delivery ----

  lemma VoteTransparent(n: Node, s: nat, term: int, cand: Id, lastIndex: int, lastTerm: int,
                        saveTerm: SaveOutcome, saveVote: SaveOutcome)
    requires Whole(n) && s <= |n.log|
    ensures var (x, r) := OnRequestVote(n, term, cand, lastIndex, lastTerm, saveTerm, saveVote);
            && Whole(x) && s <= |x.log|
            && OnRequestVote(Compact(n, s), term, cand, lastIndex, lastTerm, saveTerm, saveVote) == (Compact(x, s), r)
  {
    SameLast(n, s);
    VoteKeepsLog(n, term, cand, lastIndex, lastTerm, saveTerm, saveVote);
    SameVote(n, Compact(n, s), term, cand, lastIndex, lastTerm, saveTerm, saveVote);
  }

  lemma VoteKeepsLog(n: Node, term: int, cand: Id, lastIndex: int, lastTerm: int, saveTerm: SaveOutcome,
                     saveVote: SaveOutcome)
    ensures var x := OnRequestVote(n, term, cand, lastIndex, lastTerm, saveTerm, saveVote).0;
            x == n.(currentTerm := x.currentTerm, votedFor := x.votedFor, role := x.role, disk := x.disk)
  {}

  /** A vote depends on the log only through its last entry. */
  lemma SameVote(n: Node, c: Node, term: int, cand: Id, lastIndex: int, lastTerm: int, saveTerm: SaveOutcome,
                 saveVote: SaveOutcome)
    requires c == n.(log := c.log, snapIndex := c.snapIndex, snapTerm := c.snapTerm)
    requires c.LastIndex() == n.LastIndex() && c.LastTerm() == n.LastTerm()
    ensures var (x, r) := OnRequestVote(n, term, cand, lastIndex, lastTerm, saveTerm, saveVote);
            OnRequestVote(c, term, cand, lastIndex, lastTerm, saveTerm, saveVote) ==
              (x.(log := c.log, snapIndex := c.snapIndex, snapTerm := c.snapTerm), r)
  {}

  lemma ProposeTransparent(n: Node, s: nat, data: Bytes, storeOk: bool)
    requires Whole(n) && s <= |n.log|
    ensures var x := OnPropose(n, data, storeOk);
            Whole(x) && s <= |x.log| && OnPropose(Compact(n, s), data, storeOk) == Compact(x, s)
  {
    SameLast(n, s);
    if n.role == Leader && storeOk {
      var e := Entry(n.LastIndex() + 1, n.currentTerm, COMMAND, data);
      assert (n.log + [e])[s..] == n.log[s..] + [e];
    }
  }

  lemma SameAcked(n: Node, s: nat, top: int)
    requires s <= |n.log|
    ensures Compact(n, s).Acked(top) == n.Acked(top)
  {}

  predicate Commits(n: Node, term: int, top: int) {
    var p := Locate(n.log, top);
    p >= 0 && n.log[p].term == term && Passes(n.cfg, n.Acked(top))
  }

  lemma SameCommits(n: Node, s: nat, term: int, top: int)
    requires Whole(n) && s <= |n.log| && s < top
    ensures Commits(Compact(n, s), term, top) <==> Commits(n, term, top)
  {
    LocateSuffix(n.log, s, top);
    SameAcked(n, s, top);
  }

  lemma AdvanceStep(n: Node, term: int, top: int)
    requires top > n.commitIndex
    ensures AdvanceCommit(n, term, top) ==
              if Commits(n, term, top) then n.(commitIndex := top) else AdvanceCommit(n, term, top - 1)
  {}

  /** The commit rule, on a node whose snapshot covers committed entries only. */
  lemma {:induction false} CommitTransparent(n: Node, s: nat, term: int, top: int)
    requires Whole(n) && s <= |n.log| && s <= n.commitIndex
    ensures var x := AdvanceCommit(n, term, top);
            && n.commitIndex <= x.commitIndex && x == n.(commitIndex := x.commitIndex)
            && AdvanceCommit(Compact(n, s), term, top) == Compact(n, s).(commitIndex := x.commitIndex)
    decreases top - n.commitIndex
  {
    if top > n.commitIndex {
      SameCommits(n, s, term, top);
      AdvanceStep(n, term, top);
      AdvanceStep(Compact(n, s), term, top);
      if !Commits(n, term, top) { CommitTransparent(n, s, term, top - 1); }
    }
  }

  lemma {:induction false} CollectSuffix(log: seq<Entry>, s: nat, lo: int, hi: int)
    requires Consecutive(log, 0) && s <= |log| && lo > s
    ensures Collect(log[s..], lo, hi) == Collect(log, lo, hi)
    decreases hi - lo
  {
    if lo <= hi {
      LocateSuffix(log, s, hi);
      CollectSuffix(log, s, lo, hi - 1);
    }
  }

  lemma DeliverTransparent(n: Node, s: nat)
    requires Whole(n) && s <= |n.log| && s <= n.lastApplied
    ensures ApplyCommitted(Compact(n, s)) == Compact(ApplyCommitted(n), s)
  {
    CollectSuffix(n.log, s, n.lastApplied + 1, n.commitIndex);
  }

  lemma {:induction false} SinceSuffix(log: seq<Entry>, s: nat, next: int)
    requires Consecutive(log, 0) && s <= |log| && next > s
    ensures Since(log[s..], next) == Since(log, next)
  {
    SuffixConsecutive(log, s);
    SinceConsecutive(log, 0, next);
    SinceConsecutive(log[s..], s, next);
    if next <= |log| { assert log[s..][next - s - 1..] == log[next - 1..]; }
  }

  /** A leader's heartbeat to a peer that needs nothing below the snapshot. */
  lemma HeartbeatTransparent(n: Node, s: nat, term: int, peer: Id)
    requires Whole(n) && s <= |n.log| && Get(n.nextIndex, peer) > s
    ensures BuildAppend(Compact(n, s), term, peer) == BuildAppend(n, term, peer)
  {
    var next, c := Get(n.nextIndex, peer), Compact(n, s);
    assert c.TermAt(next - 1) == n.TermAt(next - 1) by { SameTerm(n, s, next - 1); }
    assert Since(c.log, next) == Since(n.log, next) by { SinceSuffix(n.log, s, next); }
  }

  lemma SnapshotTerm(n: Node, s: nat, upTo: nat)
    requires Whole(n) && s <= upTo <= |n.log| && upTo >= 1
    ensures Compact(n, s).TermAt(upTo) == Some(n.log[upTo - 1].term)
  {
    SameTerm(n, s, upTo);
    FindConsecutive(n.log, 0, upTo);
  }

  /** Taking another snapshot. */
  lemma TruncateIsCompact(n: Node, s: nat, upTo: nat)
    requires Whole(n) && s <= upTo <= |n.log| && upTo >= 1
    ensures TruncatePrefix(Compact(n, s), upTo, n.log[upTo - 1].term) == Compact(n, upTo)
  {
    var c, t := Compact(n, s), n.log[upTo - 1].term;
    CutSuffix(n.log, s, upTo + 1);
    assert c.log[upTo - s..] == n.log[upTo..];
  }

  // ---- Whole histories ----

  datatype Event =
    | Append(args: AppendArgs, save: SaveOutcome, writes: nat)
    | Ask(term: int, cand: Id, lastIndex: int, lastTerm: int, saveTerm: SaveOutcome, saveVote: SaveOutcome)
    | Elect(save: SaveOutcome)
    | HigherVoteReply(term: int)
    | Won(term: int)
    | Lead
    | Propose(data: Bytes, storeOk: bool)
    | Reply(peer: Id, term: int, top: int, lastSent: int, result: AppendResult)
    | Deliver
    | Snapshot(upTo: int)

  datatype Output = Silent | AppendReply(result: AppendResult) | VoteReply(vote: VoteResult)

  /** A snapshot at an index the log does not hold is skipped. */
  function TakeSnapshot(n: Node, upTo: int): Node {
    if n.TermAt(upTo).None? then n else TruncatePrefix(n, upTo, n.TermAt(upTo).value)
  }

  /** One event on a node; without `compacting`, snapshots leave the log alone. */
  function After(n: Node, e: Event, compacting: bool): Node {
    match e
    case Append(a, save, writes) => OnAppend(n, a, save, writes).0
    case Ask(t, c, li, lt, s1, s2) => OnRequestVote(n, t, c, li, lt, s1, s2).0
    case Elect(save) => StartElection(n, save)
    case HigherVoteReply(t) => OnHigherVoteReply(n, t)
    case Won(t) => OnWin(n, t)
    case Lead => EnterLeaderLoop(n)
    case Propose(data, ok) => OnPropose(n, data, ok)
    case Reply(p, t, top, sent, r) => OnAppendReply(n, p, t, top, sent, r)
    case Deliver => ApplyCommitted(n)
    case Snapshot(upTo) => if compacting then TakeSnapshot(n, upTo) else n
  }

  function Answer(n: Node, e: Event): Output {
    match e
    case Append(a, save, writes) => AppendReply(OnAppend(n, a, save, writes).1)
    case Ask(t, c, li, lt, s1, s2) => VoteReply(OnRequestVote(n, t, c, li, lt, s1, s2).1)
    case _ => Silent
  }

  function RaisedOutput(o: Output, s: nat): Output {
    if o.AppendReply? then AppendReply(Raised(o.result, s)) else o
  }

  /** The last entry of the rejection's conflict term lies under the snapshot. */
  predicate Hidden(n: Node, s: nat, r: AppendResult) {
    r.conflictTerm != 0 && r.conflictIndex != 0 && 0 <= LastOfTerm(n.log, r.conflictTerm) < s
  }

  /** The events compaction is transparent to: requests above the snapshot, replies except rejections whose conflict
      term the snapshot hides, and snapshots of committed and applied entries, each above the one before. */
  predicate Allowed(n: Node, s: nat, e: Event) {
    match e
    case Append(a, _, _) => Above(a, s)
    case Reply(_, t, _, _, r) => r.success || r.term > t || !Hidden(n, s, r)
    case Snapshot(upTo) => s < upTo <= n.lastApplied && upTo <= n.commitIndex
    case _ => true
  }

  predicate Covered(n: Node, s: nat) {
    Whole(n) && s <= |n.log| && s <= n.commitIndex && s <= n.lastApplied
  }

  /** The snapshot index after the event. */
  function NextCut(n: Node, s: nat, e: Event): nat {
    if e.Snapshot? && 0 < e.upTo <= |n.log| then e.upTo else s
  }

  lemma CommitKeepsCover(n: Node, s: nat, leaderCommit: int)
    requires Covered(n, s)
    ensures Covered(Commit(n, leaderCommit), s)
  {
    SameLast(n, s);
  }

  lemma AppendKeepsCover(n: Node, s: nat, a: AppendArgs, save: SaveOutcome, writes: nat)
    requires Covered(n, s) && Above(a, s)
    ensures Covered(OnAppend(n, a, save, writes).0, s)
  {
    AppendTransparent(n, s, a, save, writes);
    var m := Follow(n, a.term, a.leader, save);
    if a.term >= n.currentTerm && Mismatch(m, a).None? {
      MergedTransparent(m, s, a, writes);
      CommitKeepsCover(m.(log := Merge(m.log, a.entries, false, writes).log), s, a.leaderCommit);
    }
  }

  lemma {:induction false} LastOfSuffix(log: seq<Entry>, s: nat, term: int)
    requires s <= |log|
    ensures LastOfTerm(log[s..], term) == if LastOfTerm(log, term) >= s then LastOfTerm(log, term) - s else -1
    decreases |log|
  {
    if |log| > s && log[|log| - 1].term != term {
      assert log[s..][..|log| - s - 1] == log[..|log| - 1][s..];
      LastOfSuffix(log[..|log| - 1], s, term);
    }
  }

  /** How Fast Backup on a compacted leader differs: where the snapshot hides the conflict term, it falls back to the
      conflict index, as if the leader had no entry of that term; otherwise it moves where the complete leader does. */
  lemma BackUpCompacted(n: Node, s: nat, r: AppendResult)
    requires s <= |n.log|
    ensures BackUp(Compact(n, s).log, r.conflictIndex, r.conflictTerm) ==
              if Hidden(n, s, r) then (if r.conflictIndex < 1 then 1 else r.conflictIndex)
              else BackUp(n.log, r.conflictIndex, r.conflictTerm)
  {
    LastOfSuffix(n.log, s, r.conflictTerm);
  }

  lemma ReplyTransparent(n: Node, s: nat, peer: Id, term: int, top: int, lastSent: int, r: AppendResult)
    requires Covered(n, s) && (r.success || r.term > term || !Hidden(n, s, r))
    ensures var x := OnAppendReply(n, peer, term, top, lastSent, r);
            Covered(x, s) && OnAppendReply(Compact(n, s), peer, term, top, lastSent, r) == Compact(x, s)
  {
    if r.term <= term && !r.success {
      assert BackUp(Compact(n, s).log, r.conflictIndex, r.conflictTerm) ==
               BackUp(n.log, r.conflictIndex, r.conflictTerm) by {
        BackUpCompacted(n, s, r);
      }
    } else if r.term <= term {
      var m := if lastSent > Get(n.matchIndex, peer) then lastSent else Get(n.matchIndex, peer);
      var acked := n.(matchIndex := n.matchIndex[peer := m], nextIndex := n.nextIndex[peer := m + 1]);
      CommitTransparent(acked, s, term, top);
    }
  }

  lemma SnapshotTransparent(n: Node, s: nat, upTo: int)
    requires Covered(n, s) && s < upTo <= n.lastApplied && upTo <= n.commitIndex
    ensures Covered(n, NextCut(n, s, Snapshot(upTo)))
    ensures TakeSnapshot(Compact(n, s), upTo) == Compact(n, NextCut(n, s, Snapshot(upTo)))
  {
    if upTo <= |n.log| {
      SnapshotTerm(n, s, upTo);
      TruncateIsCompact(n, s, upTo);
    } else {
      SameTerm(n, s, upTo);
      FindConsecutive(n.log, 0, upTo);
    }
  }

  lemma ElectionTransparent(n: Node, s: nat, e: Event)
    requires Covered(n, s) && (e.Ask? || e.Elect? || e.HigherVoteReply? || e.Won? || e.Lead?)
    ensures Covered(After(n, e, false), s)
    ensures After(Compact(n, s), e, true) == Compact(After(n, e, false), s)
    ensures Answer(Compact(n, s), e) == Answer(n, e)
  {
    if e.Ask? {
      VoteTransparent(n, s, e.term, e.cand, e.lastIndex, e.lastTerm, e.saveTerm, e.saveVote);
      VoteKeepsLog(n, e.term, e.cand, e.lastIndex, e.lastTerm, e.saveTerm, e.saveVote);
    } else {
      SameLast(n, s);
    }
  }

  lemma EventTransparent(n: Node, s: nat, e: Event)
    requires Covered(n, s) && Allowed(n, s, e)
    ensures Covered(After(n, e, false), NextCut(n, s, e))
    ensures After(Compact(n, s), e, true) == Compact(After(n, e, false), NextCut(n, s, e))
    ensures Answer(Compact(n, s), e) == RaisedOutput(Answer(n, e), s)
  {
    match e
    case Append(a, save, writes) => AppendTransparent(n, s, a, save, writes); AppendKeepsCover(n, s, a, save, writes);
    case Propose(data, ok) => ProposeTransparent(n, s, data, ok);
    case Reply(p, t, top, sent, r) => ReplyTransparent(n, s, p, t, top, sent, r);
    case Deliver => DeliverTransparent(n, s);
    case Snapshot(upTo) => SnapshotTransparent(n, s, upTo);
    case _ => ElectionTransparent(n, s, e);
  }

  function Final(n: Node, es: seq<Event>, compacting: bool): Node
    decreases |es|
  {
    if |es| == 0 then n else Final(After(n, es[0], compacting), es[1..], compacting)
  }

  function Outputs(n: Node, es: seq<Event>, compacting: bool): seq<Output>
    decreases |es|
  {
    if |es| == 0 then [] else [Answer(n, es[0])] + Outputs(After(n, es[0], compacting), es[1..], compacting)
  }

  predicate AllAllowed(n: Node, s: nat, es: seq<Event>)
    decreases |es|
  {
    |es| > 0 ==> Allowed(n, s, es[0]) && AllAllowed(After(n, es[0], false), NextCut(n, s, es[0]), es[1..])
  }

  /** The snapshot index at the end. */
  function LastCut(n: Node, s: nat, es: seq<Event>): nat
    decreases |es|
  {
    if |es| == 0 then s else LastCut(After(n, es[0], false), NextCut(n, s, es[0]), es[1..])
  }

  /** The same reply, or a rejection whose conflict index was raised. */
  ghost predicate SameUpToConflict(o: Output, c: Output) {
    exists s: nat :: c == RaisedOutput(o, s)
  }

  ghost predicate AllSame(os: seq<Output>, cs: seq<Output>) {
    |os| == |cs| && forall i :: 0 <= i < |os| ==> SameUpToConflict(os[i], cs[i])
  }

  lemma SameCons(o: Output, c: Output, s: nat, os: seq<Output>, cs: seq<Output>)
    requires c == RaisedOutput(o, s) && AllSame(os, cs)
    ensures AllSame([o] + os, [c] + cs)
  {
    assert SameUpToConflict(o, c);
  }

  /** Over every history of such events, a node that takes the snapshots ends as the compaction of the node that
      takes none, and gives its peers the same answers on the way, except for raised conflict indices. */
  lemma {:induction false} HistoryTransparent(n: Node, s: nat, es: seq<Event>)
    requires Covered(n, s) && AllAllowed(n, s, es)
    ensures Covered(Final(n, es, false), LastCut(n, s, es))
    ensures Final(Compact(n, s), es, true) == Compact(Final(n, es, false), LastCut(n, s, es))
    ensures AllSame(Outputs(n, es, false), Outputs(Compact(n, s), es, true))
    decreases |es|
  {
    if |es| > 0 {
      EventTransparent(n, s, es[0]);
      HistoryTransparent(After(n, es[0], false), NextCut(n, s, es[0]), es[1..]);
      SameCons(Answer(n, es[0]), Answer(Compact(n, s), es[0]), s,
               Outputs(After(n, es[0], false), es[1..], false),
               Outputs(After(Compact(n, s), es[0], true), es[1..], true));
    }
  }

  // ---- Requests below the snapshot ----

  /** A node after compaction: its entries follow the snapshot without a gap. */
  predicate Compacted(c: Node, s: nat) {
    s >= 1 && c.snapIndex == s && Consecutive(c.log, s)
  }

  /** Sent entry `k` (0-based, so index k+1) disagrees with the one the node holds above its snapshot. */
  predicate Clashes(log: seq<Entry>, s: nat, full: seq<Entry>, k: int) {
    s <= k < |full| && k < s + |log| && full[k].term != log[k - s].term
  }

  /** Entries the snapshot covers are not found, so they go to the tail. */
  lemma {:induction false} LowRounds(log: seq<Entry>, s: nat, full: seq<Entry>, k: nat, writes: nat)
    requires Consecutive(log, s) && Consecutive(full, 0) && k <= s && k <= |full| && k <= writes
    ensures Merge(log, full, false, writes) == Merge(log + full[..k], full[k..], false, writes - k)
    decreases k
  {
    if k == 0 {
      assert log + full[..0] == log && full[0..] == full;
    } else {
      LowRounds(log, s, full, k - 1, writes);
      LowRound(log, s, full, k, writes - (k - 1));
    }
  }

  lemma LowRound(log: seq<Entry>, s: nat, full: seq<Entry>, k: nat, writes: nat)
    requires Consecutive(log, s) && Consecutive(full, 0) && 1 <= k <= s && k <= |full| && writes >= 1
    ensures Merge(log + full[..k - 1], full[k - 1..], false, writes) ==
              Merge(log + full[..k], full[k..], false, writes - 1)
  {
    var l := log + full[..k - 1];
    assert forall i :: 0 <= i < |l| ==> l[i].index == if i < |log| then s + 1 + i else i - |log| + 1;
    assert Find(l, k) == -1;
    assert full[k - 1..][1..] == full[k..] && full[k - 1..][0] == full[k - 1];
    assert l + [full[k - 1]] == log + full[..k];
  }

  lemma {:induction false} TailRounds(l: seq<Entry>, full: seq<Entry>, k: nat, writes: nat)
    requires Consecutive(full, 0) && k <= |full| && forall i :: 0 <= i < |l| ==> l[i].index <= k
    ensures Pre(l, Merge(l, full[k..], false, writes).log)
    decreases |full| - k
  {
    if k < |full| && writes > 0 {
      assert full[k..][1..] == full[k + 1..];
      TailRounds(l + [full[k]], full, k + 1, writes - 1);
    }
  }

  lemma {:induction false} OnlyAppends(l: seq<Entry>, entries: seq<Entry>, first: int, writes: nat)
    requires Consecutive(l, first) && Consecutive(entries, first + |l|)
    ensures Consecutive(Merge(l, entries, true, writes).log, first)
    decreases |entries|
  {
    if |entries| > 0 && writes > 0 { OnlyAppends(l + [entries[0]], entries[1..], first, writes - 1); }
  }

  lemma HighLookup(log: seq<Entry>, s: nat, low: seq<Entry>, k: nat)
    requires Consecutive(log, s) && Consecutive(low, 0) && |low| <= s <= k < s + |log|
    ensures Find(log + low, k + 1) == k - s && CutAt(log + low, k + 1) == k - s
  {
    var l := log + low;
    assert forall i :: 0 <= i < |l| ==> l[i].index == if i < |log| then s + 1 + i else i - |log| + 1;
    assert l[k - s].index == k + 1;
  }

  lemma {:induction false} HighEnd(log: seq<Entry>, s: nat, full: seq<Entry>, k: nat, writes: nat)
    requires s >= 1 && Consecutive(log, s) && Consecutive(full, 0) && s <= k <= |full| && s + |log| <= k
    ensures !Consecutive(Merge(log + full[..s], full[k..], false, writes).log, s)
  {
    var l := log + full[..s];
    TailRounds(l, full, k, writes);
    var g := Merge(l, full[k..], false, writes).log;
    assert g[|log|] == g[..|l|][|log|] == l[|log|] == full[0];
  }

  lemma {:induction false} HighRound(log: seq<Entry>, s: nat, full: seq<Entry>, k: nat, writes: nat)
    requires s >= 1 && Consecutive(log, s) && Consecutive(full, 0) && s <= k < |full| && k < s + |log| && writes >= 2
    ensures Merge(log + full[..s], full[k..], false, writes) ==
              if Clashes(log, s, full, k) then Merge(log[..k - s] + [full[k]], full[k + 1..], true, writes - 2)
              else Merge(log + full[..s], full[k + 1..], false, writes)
  {
    HighLookup(log, s, full[..s], k);
    assert full[k..][1..] == full[k + 1..] && full[k..][0] == full[k];
    assert (log + full[..s])[..k - s] == log[..k - s];
  }

  /** From the first entry above the snapshot on, with the misplaced ones already at the tail. */
  lemma {:induction false} HighRounds(log: seq<Entry>, s: nat, full: seq<Entry>, k: nat, writes: nat)
    requires s >= 1 && Consecutive(log, s) && Consecutive(full, 0) && s <= k <= |full| && k <= s + |log|
    requires writes > |full| - k
    ensures Consecutive(Merge(log + full[..s], full[k..], false, writes).log, s) <==>
            exists j :: k <= j && Clashes(log, s, full, j)
    decreases |full| - k
  {
    if k == s + |log| {
      HighEnd(log, s, full, k, writes);
    } else if k == |full| {
      assert full[k..] == [];
      assert (log + full[..s])[|log|] == full[0];
    } else {
      HighRound(log, s, full, k, writes);
      if Clashes(log, s, full, k) {
        OnlyAppends(log[..k - s] + [full[k]], full[k + 1..], s, writes - 2);
      } else {
        HighRounds(log, s, full, k + 1, writes);
      }
    }
  }

  /** Exactly when a request anchored at 0 leaves a compacted log in order. */
  lemma {:induction false} LowAnchorExactly(log: seq<Entry>, s: nat, full: seq<Entry>, writes: nat)
    requires s >= 1 && Consecutive(log, s) && Consecutive(full, 0) && writes > |full|
    ensures Consecutive(Merge(log, full, false, writes).log, s) <==>
              (full == [] || exists k :: Clashes(log, s, full, k))
  {
    if |full| <= s {
      LowRounds(log, s, full, |full|, writes);
      assert full[..|full|] == full;
      if full != [] { assert (log + full)[|log|].index == 1; }
    } else {
      LowRounds(log, s, full, s, writes);
      HighRounds(log, s, full, s, writes - s);
    }
  }

  /** Below its snapshot a node rejects every anchor but 0. It takes a request anchored at 0 without a check, and
      keeps its entries in order exactly when the request is empty or corrects some entry it still holds. */
  lemma LowRequest(c: Node, s: nat, a: AppendArgs, save: SaveOutcome, writes: nat)
    requires Compacted(c, s) && a.term >= c.currentTerm && 0 <= a.prevIndex < s && Consecutive(a.entries, a.prevIndex)
    requires writes > |a.entries|
    ensures a.prevIndex > 0 ==> OnAppend(c, a, save, writes).1 == AppendResult(a.term, false, c.LastIndex() + 1, 0)
    ensures a.prevIndex > 0 ==> OnAppend(c, a, save, writes).0.log == c.log
    ensures Consecutive(OnAppend(c, a, save, writes).0.log, s) <==>
              (a.prevIndex > 0 || a.entries == [] || exists k :: Clashes(c.log, s, a.entries, k))
  {
    var m := Follow(c, a.term, a.leader, save);
    FindConsecutive(m.log, s, a.prevIndex);
    if a.prevIndex == 0 {
      LowAnchorExactly(c.log, s, a.entries, writes);
      assert OnAppend(c, a, save, writes).0.log == Merge(c.log, a.entries, false, writes).log;
    }
  }
}
