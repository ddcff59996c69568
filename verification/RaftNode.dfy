/** One Raft node.

    The functions give each critical section of the node as a function of its state; the class
    `RaftServer` runs the same sections in place, with the loops the node runs, and is proved
    equal to them. Faults are inputs: the outcome of each metadata save, and how many log-store
    writes succeed during one append.
 */
module RaftNode {
  import opened Bytes
  import opened Quorum
  import opened RaftLog

  datatype Role = Follower | Candidate | Leader

  const NOBODY: Id := ""

  datatype Meta = Meta(term: int, votedFor: Id)

  /** `Stray`: the save reported an error although the record reached the file. */
  datatype SaveOutcome = Saved | Lost | Stray

  function Persist(disk: Meta, m: Meta, o: SaveOutcome): Meta {
    if o.Lost? then disk else m
  }

  /** `leading` is the term of the leader loop the node is in, 0 when it is in none; `delivered` is
      everything sent to the apply channel so far. */
  datatype Node = Node(
    id: Id, cfg: ClusterConfig,
    currentTerm: int, votedFor: Id, role: Role, leaderId: Id,
    log: seq<Entry>, snapIndex: int, snapTerm: int,
    commitIndex: int, lastApplied: int, delivered: seq<Entry>,
    nextIndex: map<Id, int>, matchIndex: map<Id, int>, leading: int,
    disk: Meta)
  {
    function LastIndex(): int { if |log| == 0 then snapIndex else log[|log| - 1].index }

    function LastTerm(): int { if |log| == 0 then snapTerm else log[|log| - 1].term }

    function TermAt(index: int): Option<int> {
      if index <= 0 then None
      else
        var p := Locate(log, index);
        if p >= 0 then Some(log[p].term)
        else if index == snapIndex then Some(snapTerm)
        else None
    }

    /** First index of the run of `term` that ends at `index`, as far as the node can see. */
    function RunStart(index: int, term: int): int
      decreases index
    {
      if index > 1 && TermAt(index - 1) == Some(term) then RunStart(index - 1, term) else index
    }

    predicate UpToDate(lastIndex: int, lastTerm: int) {
      if lastTerm != LastTerm() then lastTerm > LastTerm() else lastIndex >= LastIndex()
    }

    function Acked(index: int): set<Id> {
      set a | a in Members(cfg.voters) && Get(matchIndex, a) >= index
    }
  }

  /** Reading a Go map: a missing key reads as 0. */
  function Get(m: map<Id, int>, k: Id): int {
    if k in m then m[k] else 0
  }

  datatype AppendArgs = AppendArgs(term: int, leader: Id, prevIndex: int, prevTerm: int,
                                   entries: seq<Entry>, leaderCommit: int)

  datatype AppendResult = AppendResult(term: int, success: bool, conflictIndex: int, conflictTerm: int)

  // ---- AppendEntries ----

  /** Term, vote and role after a valid AppendEntries of this term. */
  function Follow(n: Node, term: int, leader: Id, save: SaveOutcome): Node {
    var m := if term > n.currentTerm
             then n.(currentTerm := term, votedFor := NOBODY, disk := Persist(n.disk, Meta(term, NOBODY), save))
             else n;
    m.(role := Follower, leaderId := leader)
  }

  /** The rejection of the consistency check, if it fails. */
  function Mismatch(n: Node, a: AppendArgs): Option<AppendResult> {
    if a.prevIndex <= 0 then None
    else
      var t := n.TermAt(a.prevIndex);
      if t.None? then Some(AppendResult(n.currentTerm, false, n.LastIndex() + 1, 0))
      else if t.value != a.prevTerm
      then Some(AppendResult(n.currentTerm, false, n.RunStart(a.prevIndex, t.value), t.value))
      else None
  }

  function OnAppend(n: Node, a: AppendArgs, save: SaveOutcome, writes: nat): (Node, AppendResult) {
    if a.term < n.currentTerm then (n, AppendResult(n.currentTerm, false, 0, 0))
    else
      var m := Follow(n, a.term, a.leader, save);
      var bad := Mismatch(m, a);
      if bad.Some? then (m, bad.value)
      else
        var g := Merge(m.log, a.entries, false, writes);
        var k := m.(log := g.log);
        (if g.ok then Commit(k, a.leaderCommit) else k, AppendResult(m.currentTerm, g.ok, 0, 0))
  }

  /** The follower's commit index, clamped to its own last index. */
  function Commit(n: Node, leaderCommit: int): Node {
    if leaderCommit <= n.commitIndex then n
    else if leaderCommit < n.LastIndex() then n.(commitIndex := leaderCommit)
    else n.(commitIndex := n.LastIndex())
  }

  // ---- Elections ----

  datatype VoteResult = VoteResult(term: int, granted: bool)

  function OnRequestVote(n: Node, term: int, cand: Id, lastIndex: int, lastTerm: int,
                         saveTerm: SaveOutcome, saveVote: SaveOutcome): (Node, VoteResult) {
    if term < n.currentTerm then (n, VoteResult(n.currentTerm, false))
    else
      var m := if term > n.currentTerm
               then n.(currentTerm := term, votedFor := NOBODY, role := Follower,
                       disk := Persist(n.disk, Meta(term, NOBODY), saveTerm))
               else n;
      if !m.UpToDate(lastIndex, lastTerm) then (m, VoteResult(m.currentTerm, false))
      else if m.votedFor == NOBODY || m.votedFor == cand then
        var d := m.(disk := Persist(m.disk, Meta(m.currentTerm, cand), saveVote));
        if saveVote.Saved? then (d.(votedFor := cand), VoteResult(m.currentTerm, true))
        else (d, VoteResult(m.currentTerm, false))
      else (m, VoteResult(m.currentTerm, false))
  }

  /** First section of runCandidate; a failed save puts the term back and clears the vote. */
  function StartElection(n: Node, save: SaveOutcome): Node {
    var d := Persist(n.disk, Meta(n.currentTerm + 1, n.id), save);
    if save.Saved?
    then n.(currentTerm := n.currentTerm + 1, votedFor := n.id, role := Candidate, leading := 0, disk := d)
    else n.(votedFor := NOBODY, role := Follower, leading := 0, disk := d)
  }

  /** A vote reply carried a term above the election's term. The node adopts it without comparing
      it to its own term, and does not persist it. */
  function OnHigherVoteReply(n: Node, term: int): Node {
    n.(currentTerm := term, votedFor := NOBODY, role := Follower)
  }

  function OnWin(n: Node, term: int): Node {
    if n.currentTerm == term then n.(role := Leader) else n
  }

  /** The same value for all of them. */
  function All(ids: set<Id>, value: int): map<Id, int> { map a | a in ids :: value }

  /** First section of runLeader. */
  function EnterLeaderLoop(n: Node): Node {
    n.(nextIndex := All(Members(n.cfg.voters), n.LastIndex() + 1),
       matchIndex := All(Members(n.cfg.voters), 0),
       leaderId := n.id,
       leading := n.currentTerm)
  }

  // ---- Replication ----

  function OnPropose(n: Node, data: Bytes, storeOk: bool): Node {
    if n.role != Leader || !storeOk then n
    else n.(log := n.log + [Entry(n.LastIndex() + 1, n.currentTerm, COMMAND, data)])
  }

  function BuildAppend(n: Node, term: int, peer: Id): AppendArgs {
    var next := Get(n.nextIndex, peer);
    var prev := next - 1;
    AppendArgs(term, n.id, prev,
               if prev > 0 && n.TermAt(prev).Some? then n.TermAt(prev).value else 0,
               Since(n.log, next), n.commitIndex)
  }

  /** Index of the last entry sent, 0 for an empty heartbeat. */
  function LastSent(entries: seq<Entry>): int {
    if |entries| == 0 then 0 else entries[|entries| - 1].index
  }

  /** The heartbeat of a ReadIndex round: no entries, anchored at the last entry. */
  function BuildProbe(n: Node, term: int): AppendArgs {
    AppendArgs(term, n.id, n.LastIndex(), n.LastTerm(), [], n.commitIndex)
  }

  /** Highest index in (commitIndex, top] holding an entry of `term` that a quorum acknowledged. */
  function AdvanceCommit(n: Node, term: int, top: int): Node
    decreases top - n.commitIndex
  {
    if top <= n.commitIndex then n
    else
      var p := Locate(n.log, top);
      if p >= 0 && n.log[p].term == term && Passes(n.cfg, n.Acked(top)) then n.(commitIndex := top)
      else AdvanceCommit(n, term, top - 1)
  }

  /** Position of the last entry of `term`, -1 when there is none. */
  function LastOfTerm(log: seq<Entry>, term: int): (p: int)
    ensures -1 <= p < |log|
    ensures p >= 0 ==> log[p].term == term && forall q :: p < q < |log| ==> log[q].term != term
    ensures p == -1 ==> forall q :: 0 <= q < |log| ==> log[q].term != term
  {
    if |log| == 0 then -1
    else if log[|log| - 1].term == term then |log| - 1
    else LastOfTerm(log[..|log| - 1], term)
  }

  /** Where Fast Backup moves nextIndex after a rejection. */
  function BackUp(log: seq<Entry>, conflictIndex: int, conflictTerm: int): int {
    var p := LastOfTerm(log, conflictTerm);
    var next := if conflictTerm == 0 || conflictIndex == 0
                then (if conflictIndex > 0 then conflictIndex else 1)
                else if p >= 0 then log[p].index + 1 else conflictIndex;
    if next < 1 then 1 else next
  }

  /** A reply to the heartbeat round of `term`, whose last index was `top`. The node checks neither
      its role nor its term before it uses the reply. */
  function OnAppendReply(n: Node, peer: Id, term: int, top: int, lastSent: int, r: AppendResult): Node {
    if r.term > term then
      (if r.term > n.currentTerm then n.(currentTerm := r.term, votedFor := NOBODY) else n).(role := Follower)
    else if r.success then
      var m := if lastSent > Get(n.matchIndex, peer) then lastSent else Get(n.matchIndex, peer);
      var acked := n.(matchIndex := n.matchIndex[peer := m], nextIndex := n.nextIndex[peer := m + 1]);
      AdvanceCommit(acked, term, top)
    else
      n.(nextIndex := n.nextIndex[peer := BackUp(n.log, r.conflictIndex, r.conflictTerm)])
  }

  // ---- ReadIndex ----

  /** The outcome of one heartbeat of a ReadIndex round: a reply with the peer's term, or none. */
  datatype ProbeReply = ProbeReply(peer: Id, arrived: bool, term: int)

  /** A reply confirms the leader unless its term is higher; whether the append succeeded does not matter. */
  function Confirming(replies: seq<ProbeReply>, term: int): set<Id> {
    set i | 0 <= i < |replies| && replies[i].arrived && replies[i].term <= term :: replies[i].peer
  }

  // ---- Apply and compaction ----

  function Collect(log: seq<Entry>, lo: int, hi: int): seq<Entry>
    decreases hi - lo
  {
    if lo > hi then []
    else
      var p := Locate(log, hi);
      Collect(log, lo, hi - 1) + (if p >= 0 then [log[p]] else [])
  }

  function ApplyCommitted(n: Node): Node {
    if n.commitIndex <= n.lastApplied then n
    else n.(delivered := n.delivered + Collect(n.log, n.lastApplied + 1, n.commitIndex),
            lastApplied := n.commitIndex)
  }

  function TruncatePrefix(n: Node, upTo: int, term: int): Node {
    n.(log := n.log[CutAt(n.log, upTo + 1)..], snapIndex := upTo, snapTerm := term)
  }

  lemma ConfirmingNext(replies: seq<ProbeReply>, i: nat, term: int)
    requires i < |replies|
    ensures Confirming(replies[..i + 1], term) ==
              Confirming(replies[..i], term) +
              (if replies[i].arrived && replies[i].term <= term then {replies[i].peer} else {})
  {
    var a, b := replies[..i], replies[..i + 1];
    assert forall j :: 0 <= j < i ==> a[j] == b[j];
    assert b[i] == replies[i];
  }

  lemma ConfirmingPrefix(replies: seq<ProbeReply>, k: nat, term: int)
    requires k <= |replies|
    ensures Confirming(replies[..k], term) <= Confirming(replies, term)
  {
    assert forall j :: 0 <= j < k ==> replies[..k][j] == replies[j];
  }

  lemma MembersNext(xs: seq<Id>, i: nat)
    requires i < |xs|
    ensures Members(xs[..i + 1]) == Members(xs[..i]) + {xs[i]}
  {
    var a, b := xs[..i], xs[..i + 1];
    assert forall j :: 0 <= j < i ==> a[j] == b[j];
    assert b[i] == xs[i];
  }

  lemma AllNext(ids: set<Id>, a: Id, value: int)
    ensures All(ids + {a}, value) == All(ids, value)[a := value]
  {}

  /** The node in place. */
  class RaftServer {
    var id: Id
    var cfg: ClusterConfig
    var currentTerm: int
    var votedFor: Id
    var role: Role
    var leaderId: Id
    var log: seq<Entry>
    var snapIndex: int
    var snapTerm: int
    var commitIndex: int
    var lastApplied: int
    var delivered: seq<Entry>
    var nextIndex: map<Id, int>
    var matchIndex: map<Id, int>
    var leading: int
    var disk: Meta

    function State(): Node
      reads this
    {
      Node(id, cfg, currentTerm, votedFor, role, leaderId, log, snapIndex, snapTerm,
           commitIndex, lastApplied, delivered, nextIndex, matchIndex, leading, disk)
    }

    /** A node restarting: term and vote come from the metadata record, the log from its store. */
    constructor (id: Id, cfg: ClusterConfig, disk: Meta, log: seq<Entry>)
      ensures State() == Node(id, cfg, disk.term, disk.votedFor, Follower, NOBODY, log, 0, 0,
                              0, 0, [], map[], map[], 0, disk)
    {
      this.id, this.cfg, this.disk, this.log := id, cfg, disk, log;
      currentTerm, votedFor, role, leaderId := disk.term, disk.votedFor, Follower, NOBODY;
      snapIndex, snapTerm, commitIndex, lastApplied, delivered := 0, 0, 0, 0, [];
      nextIndex, matchIndex, leading := map[], map[], 0;
    }

    method EntryAt(index: int) returns (p: int)
      ensures p == Locate(log, index)
    {
      if index <= 0 { return -1; }
      p := |log| - 1;
      assert log[..p + 1] == log;
      while p >= 0
        invariant -1 <= p < |log|
        invariant Find(log, index) == Find(log[..p + 1], index)
      {
        if log[p].index == index { return; }
        assert log[..p + 1][..p] == log[..p];
        p := p - 1;
      }
    }

    method TermOf(index: int) returns (t: Option<int>)
      ensures t == State().TermAt(index)
    {
      if index <= 0 { return None; }
      var p := EntryAt(index);
      if p >= 0 { return Some(log[p].term); }
      if index == snapIndex { return Some(snapTerm); }
      return None;
    }

    method TruncateFrom(index: int)
      modifies this`log
      ensures log == old(log)[..CutAt(old(log), index)]
    {
      var cutAt := 0;
      while cutAt < |log| && log[cutAt].index < index
        invariant 0 <= cutAt <= |log|
        invariant CutAt(log, index) == cutAt + CutAt(log[cutAt..], index)
      {
        assert log[cutAt..][1..] == log[cutAt + 1..];
        cutAt := cutAt + 1;
      }
      log := log[..cutAt];
    }

    method AdoptLeader(term: int, leader: Id, save: SaveOutcome)
      requires term >= currentTerm
      modifies this
      ensures State() == Follow(old(State()), term, leader, save)
    {
      if term > currentTerm {
        currentTerm, votedFor := term, NOBODY;
        disk := Persist(disk, Meta(term, NOBODY), save);
      }
      role, leaderId := Follower, leader;
    }

    method CheckPrevious(a: AppendArgs) returns (bad: Option<AppendResult>)
      ensures bad == Mismatch(State(), a)
    {
      if a.prevIndex <= 0 { return None; }
      var t := TermOf(a.prevIndex);
      if t.None? {
        return Some(AppendResult(currentTerm, false, State().LastIndex() + 1, 0));
      }
      if t.value != a.prevTerm {
        var start := FindRunStart(a.prevIndex, t.value);
        return Some(AppendResult(currentTerm, false, start, t.value));
      }
      return None;
    }

    method FollowCommit(leaderCommit: int)
      modifies this`commitIndex
      ensures State() == Commit(old(State()), leaderCommit)
    {
      if leaderCommit > commitIndex {
        var lastIndex := State().LastIndex();
        commitIndex := if leaderCommit < lastIndex then leaderCommit else lastIndex;
      }
    }

    method HandleAppendEntries(a: AppendArgs, save: SaveOutcome, writes: nat) returns (r: AppendResult)
      modifies this
      ensures (State(), r) == OnAppend(old(State()), a, save, writes)
    {
      if a.term < currentTerm {
        return AppendResult(currentTerm, false, 0, 0);
      }
      AdoptLeader(a.term, a.leader, save);
      var bad := CheckPrevious(a);
      if bad.Some? { return bad.value; }
      ghost var m := State();
      var ok := MergeEntries(a.entries, writes);
      assert State() == m.(log := Merge(m.log, a.entries, false, writes).log);
      if ok { FollowCommit(a.leaderCommit); }
      r := AppendResult(currentTerm, ok, 0, 0);
    }

    method FindRunStart(index: int, term: int) returns (start: int)
      ensures start == State().RunStart(index, term)
    {
      start := index;
      while start > 1
        invariant State().RunStart(index, term) == State().RunStart(start, term)
      {
        var t := TermOf(start - 1);
        if t != Some(term) { return; }
        start := start - 1;
      }
    }

    method MergeEntries(entries: seq<Entry>, writes: nat) returns (ok: bool)
      modifies this`log
      ensures Merged(log, ok) == Merge(old(log), entries, false, writes)
    {
      var truncated, left := false, writes;
      for i := 0 to |entries|
        invariant Merge(log, entries[i..], truncated, left) == Merge(old(log), entries, false, writes)
      {
        var e := entries[i];
        assert entries[i..][1..] == entries[i + 1..];
        if !truncated {
          var p := EntryAt(e.index);
          if p >= 0 && log[p].term == e.term { continue; }
          if p >= 0 {
            if left == 0 { return false; }
            TruncateFrom(e.index);
            left := left - 1;
            truncated := true;
          }
        }
        if left == 0 { return false; }
        left := left - 1;
        log := log + [e];
      }
      return true;
    }

    method HandleRequestVote(term: int, cand: Id, lastLogIndex: int, lastLogTerm: int,
                             saveTerm: SaveOutcome, saveVote: SaveOutcome) returns (r: VoteResult)
      modifies this
      ensures (State(), r) == OnRequestVote(old(State()), term, cand, lastLogIndex, lastLogTerm, saveTerm, saveVote)
    {
      if term < currentTerm {
        return VoteResult(currentTerm, false);
      }
      if term > currentTerm {
        currentTerm, votedFor, role := term, NOBODY, Follower;
        disk := Persist(disk, Meta(term, NOBODY), saveTerm);
      }
      if !State().UpToDate(lastLogIndex, lastLogTerm) {
        return VoteResult(currentTerm, false);
      }
      if votedFor == NOBODY || votedFor == cand {
        disk := Persist(disk, Meta(currentTerm, cand), saveVote);
        if !saveVote.Saved? {
          return VoteResult(currentTerm, false);
        }
        votedFor := cand;
        return VoteResult(currentTerm, true);
      }
      return VoteResult(currentTerm, false);
    }

    method BeginElection(save: SaveOutcome) returns (started: bool)
      modifies this`currentTerm, this`votedFor, this`role, this`leading, this`disk
      ensures State() == StartElection(old(State()), save)
      ensures started <==> save.Saved?
    {
      leading := 0;
      disk := Persist(disk, Meta(currentTerm + 1, id), save);
      if save.Saved? {
        currentTerm, votedFor, role := currentTerm + 1, id, Candidate;
      } else {
        votedFor, role := NOBODY, Follower;
      }
      return save.Saved?;
    }

    method ProposeEntry(data: Bytes, storeOk: bool) returns (index: int, term: int, isLeader: bool)
      modifies this`log
      ensures State() == OnPropose(old(State()), data, storeOk)
      ensures isLeader <==> role == Leader && storeOk
      ensures isLeader ==> |log| > 0 && log[|log| - 1] == Entry(index, term, COMMAND, data) && term == currentTerm
    {
      if role != Leader || !storeOk { return 0, 0, false; }
      var e := Entry(State().LastIndex() + 1, currentTerm, COMMAND, data);
      log := log + [e];
      return e.index, e.term, true;
    }

    /** One peer's turn in a heartbeat round: with a snapshot store, a peer at or below the snapshot is left to the
        snapshot sender. */
    method BuildHeartbeat(term: int, peer: Id, hasStore: bool) returns (sent: Option<AppendArgs>, lastSent: int)
      ensures sent.None? <==> hasStore && Get(nextIndex, peer) <= snapIndex
      ensures sent.Some? ==> sent.value == BuildAppend(State(), term, peer) && lastSent == LastSent(sent.value.entries)
    {
      var next := Get(nextIndex, peer);
      if hasStore && next <= snapIndex { return None, 0; }
      var prev, prevTerm := next - 1, 0;
      if prev > 0 {
        var t := TermOf(prev);
        if t.Some? { prevTerm := t.value; }
      }
      var entries := [];
      lastSent := 0;
      for i := 0 to |log|
        invariant entries == Since(log[..i], next)
        invariant lastSent == LastSent(entries)
      {
        assert log[..i + 1][..i] == log[..i];
        if log[i].index >= next {
          entries := entries + [log[i]];
          lastSent := log[i].index;
        }
      }
      assert log[..|log|] == log;
      sent := Some(AppendArgs(term, id, prev, prevTerm, entries, commitIndex));
    }

    method MaybeAdvanceCommitIndex(term: int, top: int)
      modifies this`commitIndex
      ensures State() == AdvanceCommit(old(State()), term, top)
    {
      var i := top;
      while i > commitIndex
        invariant commitIndex == old(commitIndex)
        invariant AdvanceCommit(State(), term, top) == AdvanceCommit(State(), term, i)
        decreases i - commitIndex
      {
        var p := EntryAt(i);
        if p >= 0 && log[p].term == term {
          var quorum := QuorumFor(cfg, State().Acked(i));
          if quorum {
            commitIndex := i;
            return;
          }
        }
        i := i - 1;
      }
    }

    method HandleAppendReply(peer: Id, term: int, top: int, lastSent: int, r: AppendResult)
      modifies this
      ensures State() == OnAppendReply(old(State()), peer, term, top, lastSent, r)
    {
      if r.term > term {
        if r.term > currentTerm {
          currentTerm, votedFor := r.term, NOBODY;
        }
        role := Follower;
        return;
      }
      if r.success {
        if lastSent > Get(matchIndex, peer) {
          matchIndex := matchIndex[peer := lastSent];
        } else {
          matchIndex := matchIndex[peer := Get(matchIndex, peer)];
        }
        nextIndex := nextIndex[peer := matchIndex[peer] + 1];
        MaybeAdvanceCommitIndex(term, top);
      } else {
        var next := FindBackUp(r.conflictIndex, r.conflictTerm);
        nextIndex := nextIndex[peer := next];
      }
    }

    /** Fast Backup: where to retry after a rejection. */
    method FindBackUp(conflictIndex: int, conflictTerm: int) returns (next: int)
      ensures next == BackUp(log, conflictIndex, conflictTerm)
    {
      next := conflictIndex;
      if conflictTerm == 0 || conflictIndex == 0 {
        if conflictIndex <= 0 { next := 1; }
      } else {
        var i := |log| - 1;
        assert log[..i + 1] == log;
        while i >= 0 && log[i].term != conflictTerm
          invariant -1 <= i < |log|
          invariant LastOfTerm(log, conflictTerm) == LastOfTerm(log[..i + 1], conflictTerm)
        {
          assert log[..i + 1][..i] == log[..i];
          i := i - 1;
        }
        if i >= 0 { next := log[i].index + 1; }
      }
      if next < 1 { next := 1; }
    }

    /** The round stops at the first quorum; this never changes the verdict on all replies that arrive in time. */
    method ConfirmLeadership(peers: nat, replies: seq<ProbeReply>, term: int) returns (ok: bool)
      ensures ok <==> peers == 0 || Passes(cfg, Confirming(replies, term))
    {
      if peers == 0 { return true; }
      var acks := {};
      for i := 0 to |replies|
        invariant acks == Confirming(replies[..i], term)
      {
        if replies[i].arrived && replies[i].term <= term { acks := acks + {replies[i].peer}; }
        ConfirmingNext(replies, i, term);
        ok := QuorumFor(cfg, acks);
        if ok {
          ConfirmingPrefix(replies, i + 1, term);
          PassesMonotone(cfg, acks, Confirming(replies, term));
          return;
        }
      }
      assert replies[..|replies|] == replies;
      ok := QuorumFor(cfg, acks);
    }

    /** A vote reply carried a term above the election's. */
    method StepDownOnVoteReply(term: int)
      modifies this`currentTerm, this`votedFor, this`role
      ensures State() == OnHigherVoteReply(old(State()), term)
    {
      currentTerm, votedFor, role := term, NOBODY, Follower;
    }

    /** The votes for `term` reached a quorum. */
    method BecomeLeader(term: int)
      modifies this`role
      ensures State() == OnWin(old(State()), term)
    {
      if currentTerm == term { role := Leader; }
    }

    method BeginLeading()
      modifies this`nextIndex, this`matchIndex, this`leaderId, this`leading
      ensures State() == EnterLeaderLoop(old(State()))
    {
      var next := State().LastIndex() + 1;
      nextIndex, matchIndex := map[], map[];
      for i := 0 to |cfg.voters|
        invariant nextIndex == All(Members(cfg.voters[..i]), next)
        invariant matchIndex == All(Members(cfg.voters[..i]), 0)
      {
        MembersNext(cfg.voters, i);
        AllNext(Members(cfg.voters[..i]), cfg.voters[i], next);
        AllNext(Members(cfg.voters[..i]), cfg.voters[i], 0);
        nextIndex, matchIndex := nextIndex[cfg.voters[i] := next], matchIndex[cfg.voters[i] := 0];
      }
      assert cfg.voters[..|cfg.voters|] == cfg.voters;
      leaderId, leading := id, currentTerm;
    }

    method DeliverCommitted()
      modifies this`delivered, this`lastApplied
      ensures State() == ApplyCommitted(old(State()))
    {
      if commitIndex <= lastApplied { return; }
      var toApply := [];
      var i := lastApplied + 1;
      while i <= commitIndex
        invariant lastApplied + 1 <= i <= commitIndex + 1
        invariant toApply == Collect(log, lastApplied + 1, i - 1)
        modifies {}
      {
        var p := EntryAt(i);
        if p >= 0 { toApply := toApply + [log[p]]; }
        i := i + 1;
      }
      lastApplied := commitIndex;
      delivered := delivered + toApply;
    }

    method TruncateLogPrefix(upTo: int, term: int)
      modifies this`log, this`snapIndex, this`snapTerm
      ensures State() == TruncatePrefix(old(State()), upTo, term)
    {
      var cutoff := 0;
      while cutoff < |log| && log[cutoff].index <= upTo
        invariant 0 <= cutoff <= |log|
        invariant CutAt(log, upTo + 1) == cutoff + CutAt(log[cutoff..], upTo + 1)
      {
        assert log[cutoff..][1..] == log[cutoff + 1..];
        cutoff := cutoff + 1;
      }
      log := log[cutoff..];
      snapIndex, snapTerm := upTo, term;
    }
  }
}
