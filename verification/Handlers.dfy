/** What one call of a handler does, said of entries, indices and members.

    The functions of `RaftNode` follow the code section by section. Here each is characterised without its own
    definition: which entries a follower holds after a request, which index a leader commits, what a node delivers, and
    how a request, its handling and the reply fit together. Logs are in order but may be compacted.
 */
module Handlers {
  import opened Bytes
  import opened Quorum
  import opened RaftLog
  import opened RaftNode

  /** The entries follow the compaction base without a gap. */
  predicate InOrder(n: Node) { n.snapIndex >= 0 && Consecutive(n.log, n.snapIndex) }

  /** The node's log, or its base, has this term at this index. */
  predicate Holds(n: Node, index: int, term: int) {
    || (index == n.snapIndex && term == n.snapTerm)
    || exists i :: 0 <= i < |n.log| && n.log[i].index == index && n.log[i].term == term
  }

  /** The last index of a log in order. */
  function EndOf(n: Node): int { n.snapIndex + |n.log| }

  function Min(a: int, b: int): int { if a < b then a else b }

  function Max(a: int, b: int): int { if a < b then b else a }

  lemma TermAtMeans(n: Node, index: int, term: int)
    requires InOrder(n) && index >= 1
    ensures n.TermAt(index) == Some(term) <==> Holds(n, index, term)
    ensures n.TermAt(index).Some? <==> n.snapIndex <= index <= EndOf(n)
  {
    FindConsecutive(n.log, n.snapIndex, index);
    if n.snapIndex < index <= EndOf(n) { assert n.log[index - n.snapIndex - 1].index == index; }
  }

  lemma EndMeans(n: Node)
    requires InOrder(n)
    ensures n.LastIndex() == EndOf(n) && (EndOf(n) >= 1 ==> n.TermAt(EndOf(n)) == Some(n.LastTerm()))
  {
    FindConsecutive(n.log, n.snapIndex, EndOf(n));
  }

  // ---- The append loop ----

  /** The log has the first `d` of these entries behind its first `at`, and not the next one. */
  predicate Shares(log: seq<Entry>, entries: seq<Entry>, at: nat, d: nat) {
    && d <= |entries| && at + d <= |log| && SameTerms(log, entries, at, d)
    && (d < |entries| && at + d < |log| ==> log[at + d].term != entries[d].term)
  }

  /** One write truncates, if there is something to truncate, and one appends each missing entry. */
  function Needed(log: seq<Entry>, entries: seq<Entry>, at: nat, d: nat): nat
    requires d <= |entries|
  {
    if d == |entries| then 0 else |entries| - d + if at + d < |log| then 1 else 0
  }

  lemma FindShared(log: seq<Entry>, entries: seq<Entry>, at: nat) returns (d: nat)
    requires at <= |log|
    ensures Shares(log, entries, at, d)
  {
    d := 0;
    while d < |entries| && at + d < |log| && log[at + d].term == entries[d].term
      invariant d <= |entries| && at + d <= |log|
      invariant forall i :: 0 <= i < d ==> log[at + i].term == entries[i].term
    {
      d := d + 1;
    }
  }

  lemma {:induction false} MergeSkipsOne(log: seq<Entry>, entries: seq<Entry>, first: int, at: nat, writes: nat)
    requires first >= 0 && Consecutive(log, first) && Consecutive(entries, first + at)
    requires |entries| > 0 && at < |log| && log[at].term == entries[0].term
    ensures Merge(log, entries, false, writes) == Merge(log, entries[1..], false, writes)
    ensures Consecutive(entries[1..], first + at + 1)
  {
    FindConsecutive(log, first, entries[0].index);
  }

  predicate SameTerms(log: seq<Entry>, entries: seq<Entry>, at: nat, d: nat)
    requires d <= |entries| && at + d <= |log|
  {
    forall i :: 0 <= i < d ==> log[at + i].term == entries[i].term
  }

  lemma SameTermsNext(log: seq<Entry>, entries: seq<Entry>, at: nat, d: nat)
    requires 0 < d <= |entries| && at + d <= |log| && SameTerms(log, entries, at, d)
    ensures log[at].term == entries[0].term && SameTerms(log, entries[1..], at + 1, d - 1)
  {
    assert log[at + 0].term == entries[0].term;
    forall i | 0 <= i < d - 1 ensures log[at + 1 + i].term == entries[1..][i].term {
      var j := i + 1;
      assert log[at + j].term == entries[j].term;
    }
  }

  lemma {:induction false} MergeSkips(log: seq<Entry>, entries: seq<Entry>, first: int, at: nat, d: nat, writes: nat)
    requires first >= 0 && Consecutive(log, first) && Consecutive(entries, first + at)
    requires d <= |entries| && at + d <= |log| && SameTerms(log, entries, at, d)
    ensures Merge(log, entries, false, writes) == Merge(log, entries[d..], false, writes)
    decreases d
  {
    if d > 0 {
      SameTermsNext(log, entries, at, d);
      MergeSkipsOne(log, entries, first, at, writes);
      MergeSkips(log, entries[1..], first, at + 1, d - 1, writes);
      assert entries[1..][d - 1..] == entries[d..];
    } else {
      assert entries[0..] == entries;
    }
  }

  lemma Pieces(kept: seq<Entry>, entries: seq<Entry>, d: nat, m: nat)
    requires d + 1 + m <= |entries|
    ensures kept + [entries[d]] + entries[d + 1..][..m] == kept + entries[d..d + 1 + m]
  {
    assert [entries[d]] + entries[d + 1..][..m] == entries[d..d + 1 + m];
  }

  /** Entries beyond the end of the log are appended while writes succeed. */
  lemma {:induction false} MergeExtends(log: seq<Entry>, rest: seq<Entry>, first: int, truncated: bool, writes: nat)
    requires first >= 0 && Consecutive(log, first) && Consecutive(rest, first + |log|)
    ensures Merge(log, rest, truncated, writes) ==
              if writes >= |rest| then Merged(log + rest, true) else Merged(log + rest[..writes], false)
    decreases |rest|
  {
    if |rest| == 0 {
      assert log + rest == log;
    } else {
      FindConsecutive(log, first, rest[0].index);
      if writes > 0 {
        MergeExtends(log + [rest[0]], rest[1..], first, truncated, writes - 1);
        Pieces(log, rest, 0, |rest| - 1);
        assert rest[1..][..|rest| - 1] == rest[1..] && rest[0..|rest|] == rest;
        if writes < |rest| { Pieces(log, rest, 0, writes - 1); }
      } else {
        assert log + rest[..0] == log;
      }
    }
  }

  /** What the append loop comes to: a completed one has skipped what the log had, truncated a conflict and appended
      the rest; one cut short has done so as far as its writes went. */
  predicate Merges(log: seq<Entry>, entries: seq<Entry>, at: nat, d: nat, writes: nat, g: Merged)
    requires Shares(log, entries, at, d)
  {
    var cut := if at + d < |log| then 1 else 0;
    && (g.ok <==> writes >= Needed(log, entries, at, d))
    && (g.ok ==> g.log == if d == |entries| then log else log[..at + d] + entries[d..])
    && (!g.ok ==> g.log == if writes < cut then log else log[..at + d] + entries[d..d + writes - cut])
  }

  lemma {:induction false} MergeCuts(log: seq<Entry>, e: Entry, rest: seq<Entry>, first: int, k: nat, writes: nat)
    requires first >= 0 && Consecutive(log, first) && k < |log| && e.index == first + k + 1 && log[k].term != e.term
    requires Consecutive(rest, e.index)
    ensures Merge(log, [e] + rest, false, writes) ==
              if writes == 0 then Merged(log, false)
              else if writes == 1 then Merged(log[..k], false)
              else if writes - 2 >= |rest| then Merged(log[..k] + [e] + rest, true)
              else Merged(log[..k] + [e] + rest[..writes - 2], false)
  {
    assert ([e] + rest)[1..] == rest;
    FindConsecutive(log, first, e.index);
    CutConsecutive(log, first, e.index);
    if writes > 1 { MergeExtends(log[..k] + [e], rest, first, true, writes - 2); }
  }

  lemma {:induction false} MergeConflict(log: seq<Entry>, entries: seq<Entry>, first: int, at: nat, d: nat, writes: nat)
    requires first >= 0 && Consecutive(log, first) && Consecutive(entries, first + at) && Shares(log, entries, at, d)
    requires d < |entries| && at + d < |log|
    ensures Merges(log, entries, at, d, writes, Merge(log, entries[d..], false, writes))
  {
    var e, rest, kept := entries[d], entries[d + 1..], log[..at + d];
    assert entries[d..] == [e] + rest;
    MergeCuts(log, e, rest, first, at + d, writes);
    Pieces(kept, entries, d, |rest|);
    if 1 < writes < 2 + |rest| { Pieces(kept, entries, d, writes - 2); }
    assert kept + entries[d..d] == kept;
    assert rest[..|rest|] == rest && entries[d..d + 1 + |rest|] == entries[d..];
  }

  lemma {:induction false} MergeAtEnd(log: seq<Entry>, entries: seq<Entry>, first: int, at: nat, d: nat, writes: nat)
    requires first >= 0 && Consecutive(log, first) && Consecutive(entries, first + at) && Shares(log, entries, at, d)
    requires d == |entries| || at + d == |log|
    ensures Merges(log, entries, at, d, writes, Merge(log, entries[d..], false, writes))
  {
    if d < |entries| {
      assert log[..at + d] == log;
      MergeExtends(log, entries[d..], first, false, writes);
      if writes < |entries| - d { assert entries[d..][..writes] == entries[d..d + writes]; }
    }
  }

  lemma {:induction false} MergeExactly(log: seq<Entry>, entries: seq<Entry>, first: int, at: nat, d: nat, writes: nat)
    requires first >= 0 && Consecutive(log, first) && Consecutive(entries, first + at) && Shares(log, entries, at, d)
    ensures Merges(log, entries, at, d, writes, Merge(log, entries, false, writes))
  {
    MergeSkips(log, entries, first, at, d, writes);
    if d < |entries| && at + d < |log| {
      MergeConflict(log, entries, first, at, d, writes);
    } else {
      MergeAtEnd(log, entries, first, at, d, writes);
    }
  }

  // ---- A request and its answer ----

  /** Whether the request's anchor is one the node has. */
  predicate Anchored(n: Node, a: AppendArgs) { a.prevIndex <= 0 || Holds(n, a.prevIndex, a.prevTerm) }

  lemma MismatchMeans(n: Node, a: AppendArgs)
    requires InOrder(n)
    ensures Mismatch(n, a).None? <==> Anchored(n, a)
  {
    if a.prevIndex >= 1 { TermAtMeans(n, a.prevIndex, a.prevTerm); }
  }

  /** A follower accepts a request exactly when it is of no earlier term, it has the entry the request is anchored at,
      and the log store takes the writes. Its log then ends with the entries sent, unless it had all of them, in which
      case nothing is dropped; what lies at or below the anchor never changes. */
  predicate Takes(n: Node, a: AppendArgs, writes: nat, d: nat, x: Node, r: AppendResult)
    requires n.snapIndex <= a.prevIndex
  {
    var at := a.prevIndex - n.snapIndex;
    if a.term < n.currentTerm || !Anchored(n, a) then !r.success && x.log == n.log
    else Shares(n.log, a.entries, at, d) && Merges(n.log, a.entries, at, d, writes, Merged(x.log, r.success))
  }

  lemma AnchorInside(n: Node, a: AppendArgs)
    requires InOrder(n) && n.snapIndex <= a.prevIndex && Anchored(n, a)
    ensures a.prevIndex <= EndOf(n)
  {
    if a.prevIndex >= 1 { TermAtMeans(n, a.prevIndex, a.prevTerm); }
  }

  lemma AppendMeans(n: Node, a: AppendArgs, save: SaveOutcome, writes: nat) returns (d: nat)
    requires InOrder(n) && n.snapIndex <= a.prevIndex && Consecutive(a.entries, a.prevIndex)
    ensures var (x, r) := OnAppend(n, a, save, writes); Takes(n, a, writes, d, x, r)
  {
    d := 0;
    FollowAnchors(n, a, save);
    if a.term < n.currentTerm || !Anchored(n, a) {
      AppendRefuses(n, a, save, writes);
    } else {
      var at := a.prevIndex - n.snapIndex;
      AnchorInside(n, a);
      d := FindShared(n.log, a.entries, at);
      MergeExactly(n.log, a.entries, n.snapIndex, at, d, writes);
      AppendMerges(n, a, save, writes);
    }
  }

  lemma FollowAnchors(n: Node, a: AppendArgs, save: SaveOutcome)
    requires InOrder(n)
    ensures Mismatch(Follow(n, a.term, a.leader, save), a).None? <==> Anchored(n, a)
  {
    var f := Follow(n, a.term, a.leader, save);
    MismatchMeans(f, a);
    assert Anchored(f, a) <==> Anchored(n, a);
  }

  lemma AppendRefuses(n: Node, a: AppendArgs, save: SaveOutcome, writes: nat)
    requires a.term < n.currentTerm || Mismatch(Follow(n, a.term, a.leader, save), a).Some?
    ensures var (x, r) := OnAppend(n, a, save, writes); !r.success && x.log == n.log
  {}

  lemma {:induction false} AppendMerges(n: Node, a: AppendArgs, save: SaveOutcome, writes: nat)
    requires a.term >= n.currentTerm && Mismatch(Follow(n, a.term, a.leader, save), a).None?
    ensures var (x, r) := OnAppend(n, a, save, writes);
            Merged(x.log, r.success) == Merge(n.log, a.entries, false, writes)
  {}

  /** Everything else a request changes. A stale one changes nothing. Any other makes the node a follower of the sender
      in its term, without a vote if the term is new, and moves the commit index, if the request is accepted and the
      leader's is higher, to the leader's or to the last entry, whichever is lower. */
  lemma AppendState(n: Node, a: AppendArgs, save: SaveOutcome, writes: nat)
    requires InOrder(n)
    ensures var (x, r) := OnAppend(n, a, save, writes);
            if a.term < n.currentTerm then x == n && r.term == n.currentTerm
            else
              && r.term == x.currentTerm == a.term && x.role == Follower && x.leaderId == a.leader
              && x.votedFor == (if a.term > n.currentTerm then NOBODY else n.votedFor)
              && x.disk == (if a.term > n.currentTerm && !save.Lost? then Meta(a.term, NOBODY) else n.disk)
              && x.commitIndex == (if r.success && a.leaderCommit > n.commitIndex
                                   then Min(a.leaderCommit, x.LastIndex()) else n.commitIndex)
              && x == n.(currentTerm := x.currentTerm, votedFor := x.votedFor, role := x.role, leaderId := x.leaderId,
                         log := x.log, commitIndex := x.commitIndex, disk := x.disk)
  {}

  /** The hint in a rejection: one past the end of a log that does not reach the anchor; otherwise the term found at the
      anchor and the first index of the run of that term which ends there. */
  predicate Hinted(n: Node, a: AppendArgs, r: AppendResult) {
    if n.snapIndex <= a.prevIndex <= EndOf(n) then
      && r.conflictTerm != a.prevTerm && 1 <= r.conflictIndex <= a.prevIndex
      && (forall i :: r.conflictIndex <= i <= a.prevIndex ==> Holds(n, i, r.conflictTerm))
      && (r.conflictIndex > 1 ==> !Holds(n, r.conflictIndex - 1, r.conflictTerm))
    else r.conflictIndex == EndOf(n) + 1 && r.conflictTerm == 0
  }

  lemma MismatchHints(n: Node, a: AppendArgs)
    requires InOrder(n) && !Anchored(n, a)
    ensures Mismatch(n, a).Some? && Hinted(n, a, Mismatch(n, a).value)
  {
    MismatchMeans(n, a);
    TermAtMeans(n, a.prevIndex, a.prevTerm);
    EndMeans(n);
    if n.TermAt(a.prevIndex).Some? { RunMeans(n, a.prevIndex, n.TermAt(a.prevIndex).value); }
  }

  lemma RejectionMeans(n: Node, a: AppendArgs, save: SaveOutcome, writes: nat)
    requires InOrder(n) && a.term >= n.currentTerm && !Anchored(n, a)
    ensures Hinted(n, a, OnAppend(n, a, save, writes).1)
  {
    var f := Follow(n, a.term, a.leader, save);
    assert forall i, t :: Holds(f, i, t) <==> Holds(n, i, t);
    MismatchHints(f, a);
  }

  lemma {:induction false} RunMeans(n: Node, index: int, term: int)
    requires InOrder(n) && index >= 1 && n.TermAt(index) == Some(term)
    ensures var s := n.RunStart(index, term);
            && 1 <= s <= index && (forall i :: s <= i <= index ==> Holds(n, i, term))
            && (s > 1 ==> !Holds(n, s - 1, term))
    decreases index
  {
    TermAtMeans(n, index, term);
    if index > 1 {
      TermAtMeans(n, index - 1, term);
      if n.TermAt(index - 1) == Some(term) { RunMeans(n, index - 1, term); }
    }
  }

  /** A vote request of a later term makes the node a follower without a vote; a granted one records the vote. Nothing
      else changes. */
  lemma VoteState(n: Node, term: int, cand: Id, lastIndex: int, lastTerm: int, saveTerm: SaveOutcome,
                  saveVote: SaveOutcome)
    ensures var (x, r) := OnRequestVote(n, term, cand, lastIndex, lastTerm, saveTerm, saveVote);
            && x.currentTerm == r.term == Max(n.currentTerm, term)
            && x.role == (if term > n.currentTerm then Follower else n.role)
            && x.votedFor == (if r.granted then cand else if term > n.currentTerm then NOBODY else n.votedFor)
            && (r.granted ==> x.disk == Meta(term, cand))
            && x == n.(currentTerm := x.currentTerm, role := x.role, votedFor := x.votedFor, disk := x.disk)
  {}

  // ---- Committing by counting ----

  /** An entry of this term at this index, which a majority of the members hold, the node itself included. */
  predicate Counted(ids: set<Id>, n: Node, term: int, index: int) {
    && (exists i :: 0 <= i < |n.log| && n.log[i].index == index && n.log[i].term == term)
    && Majority(ids, set a | a in ids && (a == n.id || Get(n.matchIndex, a) >= index))
  }

  lemma CountedMeans(ids: set<Id>, n: Node, term: int, index: int)
    requires InOrder(n) && n.cfg.phase == Stable && Lists(ids, n.id, n.cfg.voters)
    ensures var p := Locate(n.log, index);
            Counted(ids, n, term, index) <==> p >= 0 && n.log[p].term == term && Passes(n.cfg, n.Acked(index))
  {
    assert (exists i :: 0 <= i < |n.log| && n.log[i].index == index && n.log[i].term == term) <==>
        Locate(n.log, index) >= 0 && n.log[Locate(n.log, index)].term == term by {
      FindConsecutive(n.log, n.snapIndex, index);
    }
    AckedMajority(ids, n, index);
  }

  lemma AckedMajority(ids: set<Id>, n: Node, index: int)
    requires n.cfg.phase == Stable && Lists(ids, n.id, n.cfg.voters)
    ensures Passes(n.cfg, n.Acked(index)) <==>
              Majority(ids, set a | a in ids && (a == n.id || Get(n.matchIndex, a) >= index))
  {
    CountedMajority(ids, n.id, n.cfg.voters, n.Acked(index));
    assert (set a | a in ids && (a == n.id || Get(n.matchIndex, a) >= index)) * ids == (n.Acked(index) + {n.id}) * ids;
  }

  /** The commit index moves to the highest index up to `top` that is counted in the term, and stays if there is none
      above it. */
  lemma {:induction false} AdvanceExactly(ids: set<Id>, n: Node, term: int, top: int)
    requires InOrder(n) && n.cfg.phase == Stable && Lists(ids, n.id, n.cfg.voters)
    ensures var c := AdvanceCommit(n, term, top).commitIndex;
            && AdvanceCommit(n, term, top) == n.(commitIndex := c)
            && (c == n.commitIndex || (n.commitIndex < c <= top && Counted(ids, n, term, c)))
            && (forall i :: c < i <= top ==> !Counted(ids, n, term, i))
    decreases top - n.commitIndex
  {
    if top > n.commitIndex {
      CountedMeans(ids, n, term, top);
      AdvanceExactly(ids, n, term, top - 1);
    }
  }

  /** A reply of a later term ends the leadership. An acceptance raises what the peer is known to hold to the last entry
      sent, and what it is sent next to the one after; a rejection moves only the latter: behind the leader's own last
      entry of the conflicting term if it has one, else to the conflict itself. Other peers stay as they are. */
  lemma {:induction false} ReplyMeans(n: Node, peer: Id, term: int, top: int, lastSent: int, r: AppendResult)
    ensures var x, last := OnAppendReply(n, peer, term, top, lastSent, r), LastOfTerm(n.log, r.conflictTerm);
            if r.term > term then
              x == n.(role := Follower, currentTerm := Max(n.currentTerm, r.term),
                      votedFor := if r.term > n.currentTerm then NOBODY else n.votedFor)
            else if r.success then
              var m := n.matchIndex[peer := Max(lastSent, Get(n.matchIndex, peer))];
              var acked := n.(matchIndex := m, nextIndex := n.nextIndex[peer := m[peer] + 1]);
              x == AdvanceCommit(acked, term, top)
            else
              && x == n.(nextIndex := n.nextIndex[peer := Get(x.nextIndex, peer)])
              && Get(x.nextIndex, peer) ==
                 Max(1, if r.conflictIndex != 0 && r.conflictTerm != 0 && last >= 0 then n.log[last].index + 1
                        else r.conflictIndex)
  {}

  // ---- Sending ----

  /** The node has an entry, or the base, just before what the peer is sent next. */
  predicate Sendable(n: Node, peer: Id) { n.snapIndex < Get(n.nextIndex, peer) <= EndOf(n) + 1 }

  /** A heartbeat carries every entry from nextIndex on, and is anchored at the one before. */
  lemma HeartbeatMeans(n: Node, term: int, peer: Id)
    requires InOrder(n) && Sendable(n, peer)
    ensures var a, next := BuildAppend(n, term, peer), Get(n.nextIndex, peer);
            && a.term == term && a.leader == n.id && a.leaderCommit == n.commitIndex && a.prevIndex == next - 1
            && (a.prevIndex >= 1 ==> Holds(n, a.prevIndex, a.prevTerm))
            && a.entries == n.log[next - 1 - n.snapIndex..] && Consecutive(a.entries, a.prevIndex)
            && LastSent(a.entries) == if next <= EndOf(n) then EndOf(n) else 0
  {
    var a, next := BuildAppend(n, term, peer), Get(n.nextIndex, peer);
    SinceConsecutive(n.log, n.snapIndex, next);
    if next - 1 >= 1 { TermAtMeans(n, next - 1, a.prevTerm); }
  }

  /** On taking office a leader expects every voter to hold its whole log and knows of none that does: its first
      heartbeat to each is empty and anchored at its last entry. */
  lemma FirstHeartbeat(n: Node, term: int, peer: Id)
    requires InOrder(n) && peer in n.cfg.voters
    ensures var x := EnterLeaderLoop(n);
            var a := BuildAppend(x, term, peer);
            && Get(x.nextIndex, peer) == EndOf(n) + 1 && Get(x.matchIndex, peer) == 0 && Sendable(x, peer)
            && a.entries == [] && a.prevIndex == EndOf(n) && (EndOf(n) >= 1 ==> Holds(n, a.prevIndex, a.prevTerm))
            && x.nextIndex.Keys == x.matchIndex.Keys == Members(n.cfg.voters)
            && x == n.(nextIndex := x.nextIndex, matchIndex := x.matchIndex, leaderId := n.id, leading := n.currentTerm)
  {
    var x := EnterLeaderLoop(n);
    assert peer in Members(n.cfg.voters);
    EndMeans(n);
    HeartbeatMeans(x, term, peer);
    var t := BuildAppend(x, term, peer).prevTerm;
    assert Holds(x, EndOf(n), t) <==> Holds(n, EndOf(n), t);
  }

  /** The heartbeat of a ReadIndex round is the one a peer gets that is sent nothing. */
  lemma ProbeMeans(n: Node, term: int, peer: Id)
    requires InOrder(n) && (n.snapIndex == 0 ==> n.snapTerm == 0) && Get(n.nextIndex, peer) == EndOf(n) + 1
    ensures BuildProbe(n, term) == BuildAppend(n, term, peer)
  {
    EndMeans(n);
    HeartbeatMeans(n, term, peer);
  }

  /** A log that has taken all the entries sent has their terms at their indices. */
  lemma TakenHolds(n: Node, a: AppendArgs, d: nat, writes: nat, x: Node, r: AppendResult, j: nat)
    requires InOrder(n) && n.snapIndex <= a.prevIndex && Consecutive(a.entries, a.prevIndex) && j < |a.entries|
    requires a.term >= n.currentTerm && Anchored(n, a) && Takes(n, a, writes, d, x, r) && r.success
    ensures Holds(x, a.entries[j].index, a.entries[j].term)
  {
    var p := a.prevIndex - n.snapIndex + j;
    assert a.entries[j].index == a.prevIndex + 1 + j;
    if j >= d { assert x.log[p] == a.entries[d..][j - d]; } else { assert x.log[p] == n.log[p]; }
  }

  /** The heartbeat can be sent, and finds a follower of no later term that has the entry it is anchored at. */
  predicate Reaches(l: Node, f: Node, term: int, peer: Id) {
    && InOrder(l) && InOrder(f) && Sendable(l, peer) && f.currentTerm <= term
    && f.snapIndex < Get(l.nextIndex, peer) && Anchored(f, BuildAppend(l, term, peer))
  }

  lemma SentHolds(l: Node, f: Node, a: AppendArgs, d: nat, writes: nat, x: Node, r: AppendResult, i: int, t: int)
    requires InOrder(l) && InOrder(f) && l.snapIndex <= a.prevIndex && f.snapIndex <= a.prevIndex <= EndOf(l)
    requires a.entries == l.log[a.prevIndex - l.snapIndex..] && Consecutive(a.entries, a.prevIndex)
    requires a.term >= f.currentTerm && Anchored(f, a) && Takes(f, a, writes, d, x, r) && r.success
    requires i > a.prevIndex && Holds(l, i, t)
    ensures Holds(x, i, t)
  {
    var k :| 0 <= k < |l.log| && l.log[k].index == i && l.log[k].term == t;
    var j := k - (a.prevIndex - l.snapIndex);
    assert a.entries[j] == l.log[k];
    TakenHolds(f, a, d, writes, x, r, j);
  }

  lemma EnoughWrites(n: Node, a: AppendArgs, writes: nat, d: nat, x: Node, r: AppendResult)
    requires n.snapIndex <= a.prevIndex && a.term >= n.currentTerm && Anchored(n, a) && writes > |a.entries|
    requires Takes(n, a, writes, d, x, r)
    ensures r.success
  {}

  lemma HeartbeatTaken(l: Node, f: Node, term: int, peer: Id, save: SaveOutcome, writes: nat)
    requires Reaches(l, f, term, peer) && writes > |l.log|
    ensures var a := BuildAppend(l, term, peer);
            var (x, r) := OnAppend(f, a, save, writes);
            r.success && forall i, t :: i > a.prevIndex && Holds(l, i, t) ==> Holds(x, i, t)
  {
    var a := BuildAppend(l, term, peer);
    HeartbeatMeans(l, term, peer);
    var d := AppendMeans(f, a, save, writes);
    var (x, r) := OnAppend(f, a, save, writes);
    EnoughWrites(f, a, writes, d, x, r);
    forall i, t | i > a.prevIndex && Holds(l, i, t) ensures Holds(x, i, t) {
      SentHolds(l, f, a, d, writes, x, r, i, t);
    }
  }

  lemma AcceptedMeans(l: Node, peer: Id, term: int, top: int, lastSent: int, r: AppendResult)
    requires r.success && r.term <= term
    ensures var y := OnAppendReply(l, peer, term, top, lastSent, r);
            && Get(y.matchIndex, peer) == Max(lastSent, Get(l.matchIndex, peer))
            && Get(y.nextIndex, peer) == Get(y.matchIndex, peer) + 1
  {
    ReplyMeans(l, peer, term, top, lastSent, r);
    AdvanceKeeps(Acknowledged(l, peer, lastSent), term, top);
  }

  /** One exchange: the follower accepts and then has, behind the anchor, the leader's term at every index; the leader
      knows that it has the last entry sent, and sends what follows next. */
  lemma ExchangeReplicates(l: Node, f: Node, term: int, peer: Id, save: SaveOutcome, writes: nat)
    requires Reaches(l, f, term, peer) && writes > |l.log|
    ensures var a := BuildAppend(l, term, peer);
            var (x, r) := OnAppend(f, a, save, writes);
            var y := OnAppendReply(l, peer, term, l.LastIndex(), LastSent(a.entries), r);
            && (forall i, t :: i > a.prevIndex && Holds(l, i, t) ==> Holds(x, i, t))
            && Get(y.matchIndex, peer) == Max(LastSent(a.entries), Get(l.matchIndex, peer))
            && Get(y.nextIndex, peer) == Get(y.matchIndex, peer) + 1
  {
    var a := BuildAppend(l, term, peer);
    HeartbeatTaken(l, f, term, peer, save, writes);
    AppendState(f, a, save, writes);
    AcceptedMeans(l, peer, term, l.LastIndex(), LastSent(a.entries), OnAppend(f, a, save, writes).1);
  }

  function Acknowledged(n: Node, peer: Id, lastSent: int): Node {
    var m := Max(lastSent, Get(n.matchIndex, peer));
    n.(matchIndex := n.matchIndex[peer := m], nextIndex := n.nextIndex[peer := m + 1])
  }

  lemma {:induction false} AdvanceKeeps(n: Node, term: int, top: int)
    ensures AdvanceCommit(n, term, top) == n.(commitIndex := AdvanceCommit(n, term, top).commitIndex)
    decreases top - n.commitIndex
  {
    if top > n.commitIndex { AdvanceKeeps(n, term, top - 1); }
  }

  // ---- Reading and applying ----

  /** This member answered in time, in no later term. */
  predicate Answered(replies: seq<ProbeReply>, term: int, a: Id) {
    exists i :: 0 <= i < |replies| && replies[i].peer == a && replies[i].arrived && replies[i].term <= term
  }

  /** A ReadIndex round confirms the leader exactly when a majority of the members, itself included, answered in time
      and in no later term. */
  lemma ConfirmExactly(ids: set<Id>, n: Node, replies: seq<ProbeReply>, term: int)
    requires n.cfg.phase == Stable && Lists(ids, n.id, n.cfg.voters)
    ensures Passes(n.cfg, Confirming(replies, term)) <==>
              Majority(ids, set a | a in ids && (a == n.id || Answered(replies, term, a)))
  {
    var c := Confirming(replies, term);
    CountedMajority(ids, n.id, n.cfg.voters, c);
    assert (set a | a in ids && (a == n.id || Answered(replies, term, a))) * ids == (c + {n.id}) * ids;
  }

  lemma {:induction false} CollectMeans(n: Node, lo: int, hi: int)
    requires InOrder(n) && n.snapIndex < lo <= hi + 1 && hi <= EndOf(n)
    ensures Collect(n.log, lo, hi) == n.log[lo - 1 - n.snapIndex..hi - n.snapIndex]
    decreases hi - lo
  {
    if lo <= hi {
      CollectMeans(n, lo, hi - 1);
      FindConsecutive(n.log, n.snapIndex, hi);
    }
  }

  /** Delivering hands over exactly the entries above lastApplied up to the commit index, in order, and lastApplied
      catches up with the commit index. */
  lemma DeliverExactly(n: Node)
    requires InOrder(n) && n.snapIndex <= n.lastApplied && n.commitIndex <= EndOf(n)
    ensures var x, last := ApplyCommitted(n), Max(n.lastApplied, n.commitIndex);
            && x == n.(lastApplied := last, delivered := x.delivered)
            && x.delivered == n.delivered + if n.commitIndex <= n.lastApplied then []
                                            else n.log[n.lastApplied - n.snapIndex..n.commitIndex - n.snapIndex]
  {
    if n.commitIndex > n.lastApplied {
      CollectMeans(n, n.lastApplied + 1, n.commitIndex);
    } else {
      assert n.delivered + [] == n.delivered;
    }
  }

  // ---- Appending and compacting ----

  /** A leader whose store takes the write appends one entry of its term at the next index; otherwise nothing
      changes. */
  lemma ProposeMeans(n: Node, data: Bytes, storeOk: bool)
    requires InOrder(n)
    ensures var x := OnPropose(n, data, storeOk);
            x == if n.role == Leader && storeOk
                 then n.(log := n.log + [Entry(EndOf(n) + 1, n.currentTerm, COMMAND, data)]) else n
  {
    EndMeans(n);
  }

  lemma SuffixHolds(n: Node, x: Node, c: nat, index: int, term: int)
    requires InOrder(n) && c <= |n.log| && Holds(n, n.snapIndex + c, x.snapTerm) && index >= x.snapIndex
    requires x.log == n.log[c..] && x.snapIndex == n.snapIndex + c
    ensures Holds(x, index, term) <==> Holds(n, index, term)
  {
    if index == x.snapIndex {
      if c > 0 { assert n.log[c - 1].index == index; }
    } else if index <= EndOf(n) {
      var k := index - n.snapIndex - 1;
      assert n.log[k].index == index && x.log[k - c] == n.log[k];
    }
  }

  /** Dropping the entries a snapshot covers forgets no term at or above the snapshot's index. */
  lemma TruncateMeans(n: Node, upTo: int, term: int)
    requires InOrder(n) && n.snapIndex <= upTo <= EndOf(n) && Holds(n, upTo, term)
    ensures var x := TruncatePrefix(n, upTo, term);
            && InOrder(x) && EndOf(x) == EndOf(n) && x.log == n.log[upTo - n.snapIndex..]
            && (forall i, t :: i >= upTo ==> (Holds(x, i, t) <==> Holds(n, i, t)))
            && x == n.(log := x.log, snapIndex := upTo, snapTerm := term)
  {
    var x := TruncatePrefix(n, upTo, term);
    CutConsecutive(n.log, n.snapIndex, upTo + 1);
    forall i, t | i >= upTo ensures Holds(x, i, t) <==> Holds(n, i, t) { SuffixHolds(n, x, upTo - n.snapIndex, i, t); }
  }
}
