/** When committed entries stay committed.

    A follower that passes the consistency check truncates its log at the first conflict without looking at its
    commit index. With stale heartbeats about, that can remove entries at or below it (module `StaleGap` gives a
    run). Here: in every run, all commit indices keep naming prefixes that were committed by counting exactly as
    long as no append cuts at or below a commit index, and as long as they do, State Machine Safety holds. Runs
    that build every heartbeat while the node still leads never make such a cut.
 */
module RaftCommit {
  import opened Bytes
  import opened Quorum
  import opened RaftLog
  import opened RaftNode
  import opened RaftCluster
  import opened RaftInvariant
  import opened RaftReplication
  import opened RaftTheorems
  import Handlers

  // ---- Covered commit indices ----

  /** The log agrees with the choice's leader up to j. */
  predicate Holds(R: Reigns, c: Choice, log: Log, j: int) {
    && c.term in R && 0 <= j <= c.upTo <= |R[c.term].log| && j <= |log|
    && log[..j] == R[c.term].log[..j]
  }

  function Reach(c: Choice, k: int, whole: bool): int { if whole then c.upTo else k }

  /** Commit index k lies inside a prefix committed by counting that the log shares up to k or, for `whole`, to
      its end. */
  predicate Covered(R: Reigns, choices: set<Choice>, log: Log, k: int, whole: bool) {
    k == 0 || (k > 0 && exists c :: c in choices && k <= c.upTo && Holds(R, c, log, Reach(c, k, whole)))
  }

  predicate NodeCovered(x: Node, R: Reigns, choices: set<Choice>, whole: bool) {
    && Covered(R, choices, x.log, x.commitIndex, whole)
    && 0 <= x.lastApplied <= x.commitIndex <= |x.log| && x.delivered == x.log[..x.lastApplied]
  }

  predicate RequestCovered(m: Msg, R: Reigns, choices: set<Choice>, whole: bool)
    requires m.AppendReq?
  {
    Covered(R, choices, m.log, m.args.leaderCommit, whole)
  }

  /** Every commit index, held or announced, is covered. */
  predicate AllCovered(s: Cluster, whole: bool) {
    && (forall n {:trigger NodeCovered(s.nodes[n], s.reigns, s.choices, whole)} :: n in s.nodes ==>
          NodeCovered(s.nodes[n], s.reigns, s.choices, whole))
    && (forall m {:trigger RequestCovered(m, s.reigns, s.choices, whole)} :: m in s.net && m.AppendReq? ==>
          RequestCovered(m, s.reigns, s.choices, whole))
  }

  lemma CoveredGrows(R: Reigns, Q: Reigns, choices: set<Choice>, C: set<Choice>, log: Log, more: Log, k: int,
                     whole: bool)
    requires Extends(R, Q) && choices <= C && Pre(log, more) && Covered(R, choices, log, k, whole)
    ensures Covered(Q, C, more, k, whole)
  {
    if k > 0 {
      var c :| c in choices && k <= c.upTo && Holds(R, c, log, Reach(c, k, whole));
      var j := Reach(c, k, whole);
      assert Q[c.term].log[..j] == Q[c.term].log[..|R[c.term].log|][..j];
      assert more[..j] == more[..|log|][..j];
      assert c in C && Holds(Q, c, more, j);
    }
  }

  lemma CoveredPart(R: Reigns, choices: set<Choice>, log: Log, k: int)
    requires Covered(R, choices, log, k, true)
    ensures Covered(R, choices, log, k, false)
  {
    if k > 0 {
      var c :| c in choices && k <= c.upTo && Holds(R, c, log, c.upTo);
      assert log[..k] == log[..c.upTo][..k] == R[c.term].log[..c.upTo][..k] == R[c.term].log[..k];
      assert Holds(R, c, log, k);
    }
  }

  lemma AllCoveredPart(s: Cluster)
    requires AllCovered(s, true)
    ensures AllCovered(s, false)
  {
    forall n | n in s.nodes ensures NodeCovered(s.nodes[n], s.reigns, s.choices, false) {
      assert NodeCovered(s.nodes[n], s.reigns, s.choices, true);
      CoveredPart(s.reigns, s.choices, s.nodes[n].log, s.nodes[n].commitIndex);
    }
    forall m | m in s.net && m.AppendReq? ensures RequestCovered(m, s.reigns, s.choices, false) {
      assert RequestCovered(m, s.reigns, s.choices, true);
      CoveredPart(s.reigns, s.choices, m.log, m.args.leaderCommit);
    }
  }

  /** What the proofs below need of the invariant about choices. */
  ghost predicate Chosen(s: Cluster) {
    && ReignsOk(s.reigns) && OrdersOk(s.reigns) && ElectedOk(s.ids, s.reigns, s.votes, s.seen)
    && VotesCarry(s.reigns, s.seen, s.acks, s.votes) && MisledsOk(s.reigns, s.misled)
    && ChoicesOk(s.ids, s.nodes, s.reigns, s.acks, s.misled, s.choices)
  }

  /** Two logs agree wherever both are covered. */
  lemma CoveredAgree(s: Cluster, a: Log, i: int, b: Log, j: int, q: nat)
    requires Chosen(s) && Covered(s.reigns, s.choices, a, i, false) && Covered(s.reigns, s.choices, b, j, false)
    requires q < i && q < j
    ensures q < |a| && q < |b| && a[q] == b[q]
  {
    var R := s.reigns;
    var c :| c in s.choices && i <= c.upTo && Holds(R, c, a, i);
    var d :| d in s.choices && j <= d.upTo && Holds(R, d, b, j);
    assert ChoiceOk(c, s.ids, s.nodes, R, s.acks, s.misled) && ChoiceOk(d, s.ids, s.nodes, R, s.acks, s.misled);
    if c.term <= d.term { ChoicesAgree(s, c, d); } else { ChoicesAgree(s, d, c); }
    var p, r := R[c.term].log[..c.upTo], R[d.term].log[..d.upTo];
    assert p[q] == r[q];
    assert a[q] == a[..i][q] == R[c.term].log[..i][q] == p[q];
    assert b[q] == b[..j][q] == R[d.term].log[..j][q] == r[q];
  }

  // ---- Steps other than appends keep every commit index covered ----

  /** The node keeps its commit index and deliveries, and only adds to its log. */
  predicate Rests(x: Node, y: Node) {
    Pre(x.log, y.log) && y.commitIndex == x.commitIndex && y.lastApplied == x.lastApplied && y.delivered == x.delivered
  }

  lemma RestsCovered(x: Node, y: Node, R: Reigns, Q: Reigns, choices: set<Choice>, C: set<Choice>, whole: bool)
    requires Extends(R, Q) && choices <= C && Rests(x, y) && NodeCovered(x, R, choices, whole)
    ensures NodeCovered(y, Q, C, whole)
  {
    CoveredGrows(R, Q, choices, C, x.log, y.log, x.commitIndex, whole);
    assert y.log[..x.lastApplied] == y.log[..|x.log|][..x.lastApplied];
  }

  lemma CoveredLater(s: Cluster, t: Cluster, whole: bool)
    requires AllCovered(s, whole) && Extends(s.reigns, t.reigns) && s.choices <= t.choices &&
             s.nodes.Keys == t.nodes.Keys
    requires forall n {:trigger Rests(s.nodes[n], t.nodes[n])} :: n in s.nodes && n in t.nodes ==>
               Rests(s.nodes[n], t.nodes[n]) || NodeCovered(t.nodes[n], t.reigns, t.choices, whole)
    requires forall m {:trigger RequestCovered(m, t.reigns, t.choices, whole)} :: m in t.net && m.AppendReq? ==>
               m in s.net || RequestCovered(m, t.reigns, t.choices, whole)
    ensures AllCovered(t, whole)
  {
    forall n | n in t.nodes ensures NodeCovered(t.nodes[n], t.reigns, t.choices, whole) {
      assert n in s.nodes.Keys;
      assert NodeCovered(s.nodes[n], s.reigns, s.choices, whole);
      if Rests(s.nodes[n], t.nodes[n]) {
        RestsCovered(s.nodes[n], t.nodes[n], s.reigns, t.reigns, s.choices, t.choices, whole);
      }
    }
    forall m | m in t.net && m.AppendReq? ensures RequestCovered(m, t.reigns, t.choices, whole) {
      if m in s.net {
        assert RequestCovered(m, s.reigns, s.choices, whole);
        CoveredGrows(s.reigns, t.reigns, s.choices, t.choices, m.log, m.log, m.args.leaderCommit, whole);
      }
    }
  }

  /** Steps that neither commit, deliver nor send or take a request. */
  predicate Calm(st: Step) { !st.HandleAppend? && !Counts(st) && !st.Deliver? && !st.Heartbeat? && !st.Probe? }

  /** A calm step of one node only adds entries of its own term to its log. */
  predicate Adds(x: Node, y: Node) {
    Rests(x, y) && forall i :: |x.log| <= i < |y.log| ==> y.log[i].term <= y.currentTerm
  }

  lemma VoteAdds(x: Node, term: int, cand: Id, lastIndex: int, lastTerm: int, saveTerm: SaveOutcome,
                 saveVote: SaveOutcome)
    ensures Adds(x, OnRequestVote(x, term, cand, lastIndex, lastTerm, saveTerm, saveVote).0)
  {}

  lemma ProposalAdds(x: Node, data: Bytes, storeOk: bool)
    ensures Adds(x, OnPropose(x, data, storeOk))
  {
    var e := Entry(x.LastIndex() + 1, x.currentTerm, COMMAND, data);
    assert (x.log + [e])[..|x.log|] == x.log;
  }

  /** The step moves at most one node, which only adds to its log, and sends no request. */
  predicate CalmTo(s: Cluster, t: Cluster) {
    && t.nodes.Keys == s.nodes.Keys
    && (forall n {:trigger Rests(s.nodes[n], t.nodes[n])} :: n in s.nodes && n in t.nodes ==>
          Adds(s.nodes[n], t.nodes[n]))
    && (forall m :: m in t.net && m.AppendReq? ==> m in s.net)
  }

  lemma PutCalm(s: Cluster, t: Cluster, n: Id, y: Node)
    requires n in s.nodes && t.nodes == s.nodes[n := y] && Adds(s.nodes[n], y)
    requires forall m :: m in t.net && m.AppendReq? ==> m in s.net
    ensures CalmTo(s, t)
  {
    forall v | v in s.nodes ensures Adds(s.nodes[v], t.nodes[v]) {
      assert s.nodes[v].log[..|s.nodes[v].log|] == s.nodes[v].log;
    }
  }

  lemma VotingCalm(s: Cluster, st: Step)
    requires Enabled(s, st) && Votes(st)
    ensures CalmTo(s, Do(s, st))
  {
    var x, t := s.nodes[st.n], Do(s, st);
    if st.TimeOut? {
      PutCalm(s, t, st.n, StartElection(x, st.save));
    } else if st.CastVote? {
      VoteAdds(x, st.m.term, st.m.cand, |st.m.log|, LastTermOf(st.m.log), st.saveTerm, st.saveVote);
      PutCalm(s, t, st.n,
              OnRequestVote(x, st.m.term, st.m.cand, |st.m.log|, LastTermOf(st.m.log), st.saveTerm, st.saveVote).0);
    } else if st.SeeHigherTerm? {
      PutCalm(s, t, st.n, OnHigherVoteReply(x, st.m.vote.term));
    } else if st.StepDown? {
      PutCalm(s, t, st.n, x.(role := Follower));
    } else {
      PutCalm(s, t, st.n, OnWin(x, st.term));
    }
  }

  lemma CalmAdds(s: Cluster, st: Step)
    requires Enabled(s, st) && Calm(st)
    ensures CalmTo(s, Do(s, st))
  {
    if Votes(st) {
      VotingCalm(s, st);
    } else if st.EnterLoop? {
      PutCalm(s, Do(s, st), st.n, EnterLeaderLoop(s.nodes[st.n]));
    } else if st.Propose? {
      ProposalAdds(s.nodes[st.n], st.data, st.storeOk);
      PutCalm(s, Do(s, st), st.n, OnPropose(s.nodes[st.n], st.data, st.storeOk));
    } else {
      forall v | v in s.nodes ensures Adds(s.nodes[v], Do(s, st).nodes[v]) {
        assert s.nodes[v].log[..|s.nodes[v].log|] == s.nodes[v].log;
      }
    }
  }

  lemma CalmCovered(s: Cluster, st: Step, whole: bool)
    requires AllCovered(s, whole) && Enabled(s, st) && KeepsReigns(s, st) && Calm(st)
    ensures AllCovered(Do(s, st), whole)
  {
    StepLater(s, st);
    CalmAdds(s, st);
    CoveredLater(s, Do(s, st), whole);
  }

  /** A node announces its own commit index with its own log. */
  lemma SentCovered(s: Cluster, n: Id, m: Msg, whole: bool)
    requires AllCovered(s, whole) && n in s.nodes && m.AppendReq?
    requires m.log == s.nodes[n].log && m.args.leaderCommit == s.nodes[n].commitIndex
    ensures AllCovered(Send(s, m), whole)
  {
    assert NodeCovered(s.nodes[n], s.reigns, s.choices, whole);
    assert RequestCovered(m, s.reigns, s.choices, whole);
    CoveredLater(s, Send(s, m), whole);
  }

  lemma CountsShape(s: Cluster, st: Step, t: Cluster)
    requires Enabled(s, st) && Counts(st) && t == Do(s, st)
    ensures t.nodes.Keys == s.nodes.Keys && t.net == s.net && t.reigns == s.reigns && s.choices <= t.choices
    ensures forall n :: n in s.nodes && n != st.n ==> t.nodes[n] == s.nodes[n]
    ensures var x, y := s.nodes[st.n], t.nodes[st.n];
            y.log == x.log && y.lastApplied == x.lastApplied && y.delivered == x.delivered &&
                y.commitIndex >= x.commitIndex
            && y.currentTerm >= x.currentTerm
  {
    var x := s.nodes[st.n];
    if st.HandleReply? {
      ReplyLater(x, st.m.from, st.m.term, st.m.top, st.m.lastSent, st.m.result);
      AdvanceFacts(Noted(x, st.m.from, st.m.lastSent), st.m.term, st.m.top);
    } else {
      AdvanceFacts(x, x.leading, x.LastIndex());
    }
  }

  /** A commit by counting covers itself. */
  lemma CountsCovered(s: Cluster, st: Step, t: Cluster, whole: bool)
    requires LogsOk(s.nodes, s.reigns) && CommitsOk(s.nodes, s.choices)
    requires AllCovered(s, whole) && Enabled(s, st) && Counts(st) && t == Do(s, st)
    ensures AllCovered(t, whole)
  {
    CountsShape(s, st, t);
    var x, y := s.nodes[st.n], t.nodes[st.n];
    assert NodeCovered(x, s.reigns, s.choices, whole);
    if y.commitIndex > x.commitIndex {
      CountedRecorded(s, st, t, y.commitIndex);
      assert Holds(t.reigns, Choice(x.leading, y.commitIndex), y.log, y.commitIndex);
      assert NodeCovered(y, t.reigns, t.choices, whole);
    }
    CoveredLater(s, t, whole);
  }

  lemma DeliveredCovered(x: Node, R: Reigns, choices: set<Choice>, whole: bool)
    requires LogOk(x, R) && NodeCovered(x, R, choices, whole)
    ensures NodeCovered(ApplyCommitted(x), R, choices, whole)
  {
    CollectConsecutive(x.log, x.lastApplied, x.commitIndex);
    assert x.log[..x.lastApplied] + x.log[x.lastApplied..x.commitIndex] == x.log[..x.commitIndex];
  }

  lemma DeliverCovered(s: Cluster, n: Id, whole: bool)
    requires LogsOk(s.nodes, s.reigns) && AllCovered(s, whole) && n in s.nodes
    ensures AllCovered(Put(s, n, ApplyCommitted(s.nodes[n])), whole)
  {
    assert LogOk(s.nodes[n], s.reigns) && NodeCovered(s.nodes[n], s.reigns, s.choices, whole);
    DeliveredCovered(s.nodes[n], s.reigns, s.choices, whole);
    CoveredLater(s, Put(s, n, ApplyCommitted(s.nodes[n])), whole);
  }

  lemma OtherCovered(s: Cluster, st: Step, whole: bool)
    requires LogsOk(s.nodes, s.reigns) && CommitsOk(s.nodes, s.choices)
    requires AllCovered(s, whole) && Enabled(s, st) && KeepsReigns(s, st) && !st.HandleAppend?
    ensures AllCovered(Do(s, st), whole)
  {
    if st.Heartbeat? {
      var x := s.nodes[st.n];
      SentCovered(s, st.n, AppendReq(st.peer, BuildAppend(x, x.leading, st.peer), None, x.log), whole);
    } else if st.Probe? {
      var q := s.queries[st.read];
      var x := s.nodes[q.leader];
      SentCovered(s, q.leader, AppendReq(st.peer, BuildProbe(x, q.term), Some(st.read), x.log), whole);
    } else if Counts(st) {
      CountsCovered(s, st, Do(s, st), whole);
    } else if st.Deliver? {
      DeliverCovered(s, st.n, whole);
    } else {
      CalmCovered(s, st, whole);
    }
  }

  // ---- Appends ----

  /** The append truncates the log at or below the commit index: it passes the term and consistency checks, the
      store takes a write, and an entry it carries meets one of another term there. */
  predicate Cuts(s: Cluster, st: Step)
    requires Enabled(s, st)
  {
    st.HandleAppend? &&
    var x, a := s.nodes[st.n], st.m.args;
    && a.term >= x.currentTerm && Mismatch(x, a).None? && st.writes > 0
    && exists e :: e in a.entries && e.index <= x.commitIndex && Locate(x.log, e.index) >= 0
                   && x.log[Locate(x.log, e.index)].term != e.term
  }

  /** Without a write the log stays. */
  lemma {:induction false} MergeUnwritten(log: Log, entries: Log)
    ensures Merge(log, entries, false, 0).log == log
    decreases |entries|
  {
    if |entries| > 0 { MergeUnwritten(log, entries[1..]); }
  }

  /** With a write the loop cuts at the first conflict. */
  lemma {:induction false} MergeCuts(log: Log, full: Log, p: nat, q: nat, writes: nat)
    requires Consecutive(log, 0) && Consecutive(full, 0) && p <= q < |log| && q < |full|
    requires log[..q] == full[..q] && log[q].term != full[q].term && writes > 0
    ensures var g := Merge(log, full[p..], false, writes);
            && (|g.log| == q || (|g.log| > q && g.log[q] == full[q])) && (g.ok ==> g.log == full)
    decreases q - p
  {
    assert log[..p] == log[..q][..p] && full[..p] == full[..q][..p];
    MergeRound(log, full, 0, p, writes);
    if p < q {
      assert log[p] == log[..q][p] == full[..q][p] == full[p];
      MergeCuts(log, full, p + 1, q, writes);
    } else if writes > 1 {
      MergeAppends(full, p + 1, writes - 2);
      var g := Merge(full[..p + 1], full[p + 1..], true, writes - 2);
      assert g.log[q] == full[..|g.log|][q];
    }
  }

  /** The first place where two logs that agree up to p and differ at `pos` differ in term. */
  lemma {:induction false} FirstConflict(a: Log, b: Log, R: Reigns, p: nat, pos: nat) returns (q: nat)
    requires Sound(a, R) && Sound(b, R) && p <= pos < |a| && pos < |b| && a[..p] == b[..p] && a[pos].term != b[pos].term
    ensures p <= q <= pos && a[..q] == b[..q] && a[q].term != b[q].term
    decreases pos - p
  {
    if a[p].term != b[p].term {
      q := p;
    } else {
      SoundAgree(a, b, R, p);
      q := FirstConflict(a, b, R, p + 1, pos);
    }
  }

  /** The entry that a cut finds in conflict, as a position in the request's log. */
  lemma ConflictPosition(x: Node, m: Msg, R: Reigns, e: Entry) returns (p: nat, pos: nat)
    requires LogOk(x, R) && ReignsOk(R) && x.snapIndex == 0 && m.AppendReq? && Segment(m, R) &&
             Mismatch(x, m.args).None?
    requires e in m.args.entries && Locate(x.log, e.index) >= 0 && x.log[Locate(x.log, e.index)].term != e.term
    ensures p <= pos < |m.log| && pos < |x.log| && x.log[..p] == m.log[..p] && m.args.entries == m.log[p..]
    ensures pos == e.index - 1 && m.log[pos] == e && x.log[pos].term != e.term
  {
    p := CheckMeansAgreement(x, m, R);
    var i :| 0 <= i < |m.args.entries| && m.args.entries[i] == e;
    pos := p + i;
    assert m.log[pos] == e;
    FindConsecutive(x.log, 0, e.index);
  }

  lemma {:induction false} PassedLog(x: Node, a: AppendArgs, save: SaveOutcome, writes: nat)
    requires a.term >= x.currentTerm && Mismatch(x, a).None?
    ensures var (y, r) := OnAppend(x, a, save, writes);
            Merge(x.log, a.entries, false, writes) == Merged(y.log, r.success)
  {}

  /** What a cut leaves behind. */
  lemma CutNode(x: Node, m: Msg, save: SaveOutcome, writes: nat, R: Reigns, e: Entry, y: Node, r: AppendResult)
    returns (q: nat)
    requires LogOk(x, R) && ReignsOk(R) && x.snapIndex == 0 && m.AppendReq? && Segment(m, R)
    requires m.args.term >= x.currentTerm && Mismatch(x, m.args).None? && writes > 0
    requires e in m.args.entries && Locate(x.log, e.index) >= 0 && x.log[Locate(x.log, e.index)].term != e.term
    requires (y, r) == OnAppend(x, m.args, save, writes)
    ensures q < e.index && q < |x.log| && q < |m.log| && x.log[q].term != m.log[q].term
    ensures |y.log| == q || (|y.log| > q && y.log[q] == m.log[q])
    ensures r.success ==> y.log == m.log
  {
    var p, pos := ConflictPosition(x, m, R, e);
    q := FirstConflict(x.log, m.log, R, p, pos);
    MergeCuts(x.log, m.log, p, q, writes);
    PassedLog(x, m.args, save, writes);
  }

  /** Two logs with different terms at q are not both covered beyond q. */
  lemma NotBothCovered(s: Cluster, a: Log, i: int, b: Log, j: int, q: nat)
    requires Chosen(s) && Covered(s.reigns, s.choices, a, i, false)
    requires q < i && q < j && q < |a| && q < |b| && a[q].term != b[q].term
    ensures !Covered(s.reigns, s.choices, b, j, false)
  {
    if Covered(s.reigns, s.choices, b, j, false) { CoveredAgree(s, a, i, b, j, q); }
  }

  /** A cut leaves a commit index that is not covered. */
  lemma CutUncovers(s: Cluster, n: Id, m: Msg, save: SaveOutcome, writes: nat, e: Entry, y: Node, r: AppendResult)
    requires Chosen(s) && n in s.nodes && LogOk(s.nodes[n], s.reigns) && s.nodes[n].snapIndex == 0
    requires m.AppendReq? && Segment(m, s.reigns) && RequestCovered(m, s.reigns, s.choices, false)
    requires NodeCovered(s.nodes[n], s.reigns, s.choices, false)
    requires m.args.term >= s.nodes[n].currentTerm && Mismatch(s.nodes[n], m.args).None? && writes > 0
    requires e in m.args.entries && e.index <= s.nodes[n].commitIndex && Locate(s.nodes[n].log, e.index) >= 0
    requires s.nodes[n].log[Locate(s.nodes[n].log, e.index)].term != e.term
    requires (y, r) == OnAppend(s.nodes[n], m.args, save, writes) && Appends(s.nodes[n], y, m, r)
    ensures !NodeCovered(y, s.reigns, s.choices, false)
  {
    var x := s.nodes[n];
    var q := CutNode(x, m, save, writes, s.reigns, e, y, r);
    if m.args.leaderCommit > x.commitIndex {
      NotBothCovered(s, x.log, x.commitIndex, m.log, m.args.leaderCommit, q);
    }
    assert y.commitIndex == x.commitIndex;
    if |y.log| > q { NotBothCovered(s, x.log, x.commitIndex, y.log, y.commitIndex, q); }
  }

  /** A request that conflicts nowhere below k carries the same entries there, as far as it goes. */
  lemma NoConflict(x: Node, m: Msg, R: Reigns, k: int)
    requires LogOk(x, R) && ReignsOk(R) && x.snapIndex == 0 && m.AppendReq? && Segment(m, R) &&
             Mismatch(x, m.args).None?
    requires 0 <= k <= |x.log|
    requires forall e :: e in m.args.entries && e.index <= k && Locate(x.log, e.index) >= 0 ==>
               x.log[Locate(x.log, e.index)].term == e.term
    ensures Comparable(x.log[..k], m.log)
  {
    var p := CheckMeansAgreement(x, m, R);
    var h := Least(k, |m.log|);
    if h <= p {
      assert x.log[..h] == x.log[..p][..h] && m.log[..h] == m.log[..p][..h];
    } else {
      SameTerm(x.log, m.log, m.args.entries, R, p, h, k);
      SoundAgree(x.log, m.log, R, h - 1);
    }
    CommonPrefix(x.log, m.log, k);
  }

  lemma SameTerm(log: Log, full: Log, entries: Log, R: Reigns, p: nat, h: nat, k: int)
    requires Consecutive(log, 0) && Consecutive(full, 0) && p < h <= |full| && h <= |log| && h <= k &&
             entries == full[p..]
    requires forall e :: e in entries && e.index <= k && Locate(log, e.index) >= 0 ==>
             log[Locate(log, e.index)].term == e.term
    ensures log[h - 1].term == full[h - 1].term
  {
    var e := entries[h - 1 - p];
    assert e == full[h - 1] && e in entries;
    FindConsecutive(log, 0, h);
  }

  lemma CommonPrefix(a: Log, b: Log, k: nat)
    requires k <= |a| && a[..Least(k, |b|)] == b[..Least(k, |b|)]
    ensures Comparable(a[..k], b)
  {
    if |b| < k { assert a[..k][..|b|] == a[..|b|] && b[..|b|] == b; }
  }

  /** An append that does not cut keeps everything up to the commit index. */
  lemma UncutKeeps(s: Cluster, n: Id, m: Msg, save: SaveOutcome, writes: nat)
    requires ReignsOk(s.reigns) && Enabled(s, HandleAppend(n, m, save, writes)) &&
             !Cuts(s, HandleAppend(n, m, save, writes))
    requires LogOk(s.nodes[n], s.reigns) && s.nodes[n].snapIndex == 0 && Segment(m, s.reigns)
    requires 0 <= s.nodes[n].commitIndex <= |s.nodes[n].log|
    ensures Pre(s.nodes[n].log[..s.nodes[n].commitIndex], OnAppend(s.nodes[n], m.args, save, writes).0.log)
  {
    var x, y := s.nodes[n], OnAppend(s.nodes[n], m.args, save, writes).0;
    var k := x.log[..x.commitIndex];
    if m.args.term >= x.currentTerm && Mismatch(x, m.args).None? {
      FollowShape(x, m.args.term, m.args.leader, save);
      if writes == 0 {
        MergeUnwritten(x.log, m.args.entries);
        UnwrittenLog(x, m.args, save);
      } else {
        NoConflict(x, m, s.reigns, x.commitIndex);
        AppendKeepsPrefix(x, m, save, writes, s.reigns, k);
      }
    } else {
      RefusedLog(x, m.args, save, writes);
    }
  }

  lemma UnwrittenLog(x: Node, a: AppendArgs, save: SaveOutcome)
    ensures OnAppend(x, a, save, 0).0.log == x.log
  {
    if a.term >= x.currentTerm { MergeUnwritten(Follow(x, a.term, a.leader, save).log, a.entries); }
  }

  lemma RefusedLog(x: Node, a: AppendArgs, save: SaveOutcome, writes: nat)
    requires a.term < x.currentTerm || Mismatch(x, a).Some?
    ensures OnAppend(x, a, save, writes).0.log == x.log
  {}

  /** A follower whose old commit prefix survives stays covered. */
  lemma AppendCovered(x: Node, y: Node, m: Msg, r: AppendResult, R: Reigns, choices: set<Choice>, p: Log, whole: bool)
    requires m.AppendReq? && Appends(x, y, m, r) && NodeCovered(x, R, choices, whole) &&
             RequestCovered(m, R, choices, whole)
    requires Pre(p, x.log) && Pre(p, y.log) && x.commitIndex <= |p|
    requires Covered(R, choices, p, x.commitIndex, whole)
    ensures NodeCovered(y, R, choices, whole)
  {
    CoveredGrows(R, R, choices, choices, p, y.log, x.commitIndex, whole);
    assert x.delivered == p[..x.lastApplied] == y.log[..x.lastApplied];
    if y.commitIndex != x.commitIndex {
      var c :| c in choices && m.args.leaderCommit <= c.upTo &&
          Holds(R, c, m.log, Reach(c, m.args.leaderCommit, whole));
      CoveredGrows(R, R, choices, choices, m.log, y.log, m.args.leaderCommit, whole);
    }
  }

  lemma OwnPrefixCovered(x: Node, R: Reigns, choices: set<Choice>)
    requires NodeCovered(x, R, choices, false)
    ensures Covered(R, choices, x.log[..x.commitIndex], x.commitIndex, false)
  {
    if x.commitIndex > 0 {
      var c :| c in choices && x.commitIndex <= c.upTo && Holds(R, c, x.log, x.commitIndex);
      assert x.log[..x.commitIndex][..x.commitIndex] == x.log[..x.commitIndex];
      assert Holds(R, c, x.log[..x.commitIndex], x.commitIndex);
    }
  }

  lemma AppendNodes(s: Cluster, n: Id, m: Msg, save: SaveOutcome, writes: nat, whole: bool)
    requires n in s.nodes && m.AppendReq?
    requires AllCovered(s, whole)
    requires NodeCovered(OnAppend(s.nodes[n], m.args, save, writes).0, s.reigns, s.choices, whole)
    ensures AllCovered(DoAppend(s, n, m, save, writes), whole)
  {
    CoveredLater(s, DoAppend(s, n, m, save, writes), whole);
  }

  /** What the invariant gives for one append. */
  ghost predicate Appendable(s: Cluster, n: Id, m: Msg, save: SaveOutcome, writes: nat) {
    && Chosen(s) && n in s.nodes && LogOk(s.nodes[n], s.reigns) && s.nodes[n].snapIndex == 0
    && m.AppendReq? && AppendReqOk(m, s.nodes, s.reigns, s.choices) && Segment(m, s.reigns)
    && var (y, r) := OnAppend(s.nodes[n], m.args, save, writes); Appends(s.nodes[n], y, m, r)
  }

  lemma InvAppendable(s: Cluster, n: Id, m: Msg, save: SaveOutcome, writes: nat)
    requires Inv(s) && Enabled(s, HandleAppend(n, m, save, writes))
    ensures Appendable(s, n, m, save, writes)
  {
    AppendFacts(s.ids, s.nodes, s.reigns, s.choices, s.net, n, m, save, writes);
  }

  lemma UncutCovers(s: Cluster, n: Id, m: Msg, save: SaveOutcome, writes: nat)
    requires Appendable(s, n, m, save, writes) && Enabled(s, HandleAppend(n, m, save, writes)) && AllCovered(s, false)
    requires !Cuts(s, HandleAppend(n, m, save, writes))
    ensures AllCovered(DoAppend(s, n, m, save, writes), false)
  {
    var x := s.nodes[n];
    var (y, r) := OnAppend(x, m.args, save, writes);
    assert NodeCovered(x, s.reigns, s.choices, false) && RequestCovered(m, s.reigns, s.choices, false);
    UncutKeeps(s, n, m, save, writes);
    OwnPrefixCovered(x, s.reigns, s.choices);
    AppendCovered(x, y, m, r, s.reigns, s.choices, x.log[..x.commitIndex], false);
    AppendNodes(s, n, m, save, writes, false);
  }

  lemma CutBreaks(s: Cluster, n: Id, m: Msg, save: SaveOutcome, writes: nat)
    requires Appendable(s, n, m, save, writes) && Enabled(s, HandleAppend(n, m, save, writes)) && AllCovered(s, false)
    requires Cuts(s, HandleAppend(n, m, save, writes))
    ensures !AllCovered(DoAppend(s, n, m, save, writes), false)
  {
    var x := s.nodes[n];
    var (y, r) := OnAppend(x, m.args, save, writes);
    assert NodeCovered(x, s.reigns, s.choices, false) && RequestCovered(m, s.reigns, s.choices, false);
    var e :| e in m.args.entries && e.index <= x.commitIndex && Locate(x.log, e.index) >= 0
             && x.log[Locate(x.log, e.index)].term != e.term;
    CutUncovers(s, n, m, save, writes, e, y, r);
    var t := DoAppend(s, n, m, save, writes);
    assert n in t.nodes && t.nodes[n] == y && !NodeCovered(t.nodes[n], t.reigns, t.choices, false);
  }

  /** The exact condition, for one step: commit indices stay covered unless an append cuts below one. */
  lemma StepCoversExactly(s: Cluster, st: Step)
    requires Inv(s) && AllCovered(s, false) && Enabled(s, st)
    ensures AllCovered(Do(s, st), false) <==> !Cuts(s, st)
  {
    if st.HandleAppend? {
      InvAppendable(s, st.n, st.m, st.save, st.writes);
      if Cuts(s, st) {
        CutBreaks(s, st.n, st.m, st.save, st.writes);
      } else {
        UncutCovers(s, st.n, st.m, st.save, st.writes);
      }
    } else {
      InvKeepsReigns(s, st);
      OtherCovered(s, st, false);
    }
  }

  // ---- Runs ----

  predicate CutsAt(run: seq<Cluster>, steps: seq<Step>, i: nat) {
    i < |steps| && i < |run| && Enabled(run[i], steps[i]) && Cuts(run[i], steps[i])
  }

  predicate Uncut(run: seq<Cluster>, steps: seq<Step>, i: nat) {
    forall h: nat :: h < i ==> !CutsAt(run, steps, h)
  }

  predicate CoveredUpTo(run: seq<Cluster>, i: nat)
    requires i < |run|
  {
    forall h: nat {:trigger run[h]} :: h <= i ==> AllCovered(run[h], false)
  }

  lemma InitCovered(s: Cluster, whole: bool)
    requires Init(s)
    ensures AllCovered(s, whole)
  {}

  lemma RunStepExactly(run: seq<Cluster>, steps: seq<Step>, i: nat)
    requires IsRunBy(run, steps) && i < |steps| && AllCovered(run[i], false)
    ensures AllCovered(run[i + 1], false) <==> !CutsAt(run, steps, i)
  {
    RunByIsRun(run, steps);
    RunKeeps(run, i);
    assert StepsTo(run[i], steps[i], run[i + 1]);
    StepCoversExactly(run[i], steps[i]);
  }

  /** The exact condition, for runs: all commit indices have stayed covered exactly when no append has cut at or
      below one. */
  lemma {:induction false} RunCoversExactly(run: seq<Cluster>, steps: seq<Step>, i: nat)
    requires IsRunBy(run, steps) && i < |run|
    ensures CoveredUpTo(run, i) <==> Uncut(run, steps, i)
  {
    if i == 0 {
      InitCovered(run[0], false);
    } else {
      RunCoversExactly(run, steps, i - 1);
      if CoveredUpTo(run, i - 1) {
        RunStepExactly(run, steps, i - 1);
        assert CoveredUpTo(run, i) <==> AllCovered(run[i], false);
      } else {
        assert !CoveredUpTo(run, i) by {
          var h: nat :| h <= i - 1 && !AllCovered(run[h], false);
          assert h <= i;
        }
      }
    }
  }

  /** What two nodes have delivered agrees as far as both go. */
  lemma DeliveredAgree(s: Cluster, n: Id, m: Id, q: nat)
    requires Chosen(s) && AllCovered(s, false) && n in s.nodes && m in s.nodes
    requires q < |s.nodes[n].delivered| && q < |s.nodes[m].delivered|
    ensures s.nodes[n].delivered[q] == s.nodes[m].delivered[q]
  {
    var x, y := s.nodes[n], s.nodes[m];
    assert NodeCovered(x, s.reigns, s.choices, false) && NodeCovered(y, s.reigns, s.choices, false);
    CoveredAgree(s, x.log, x.commitIndex, y.log, y.commitIndex, q);
  }

  /** State Machine Safety: until an append cuts at or below a commit index, no two nodes, at whatever moments,
      deliver different entries at one index, and the k-th entry delivered anywhere is the one with index k. */
  lemma StateMachineSafety(run: seq<Cluster>, steps: seq<Step>, i: nat, j: nat, n: Id, m: Id, k: int)
    requires IsRunBy(run, steps) && i < |run| && j < |run| && n in run[i].nodes && m in run[j].nodes
    requires Uncut(run, steps, i) && Uncut(run, steps, j)
    requires 1 <= k <= |run[i].nodes[n].delivered| && k <= |run[j].nodes[m].delivered|
    ensures run[i].nodes[n].delivered[k - 1] == run[j].nodes[m].delivered[k - 1]
    ensures run[i].nodes[n].delivered[k - 1].index == k
  {
    var h := if i <= j then j else i;
    RunByIsRun(run, steps);
    DeliveredLater(run, i, h, n);
    DeliveredLater(run, j, h, m);
    assert Chosen(run[h]) by { RunKeeps(run, h); }
    RunCoversExactly(run, steps, h);
    assert AllCovered(run[h], false);
    DeliveredAgree(run[h], n, m, k - 1);
    assert AllCovered(run[i], false) by { RunCoversExactly(run, steps, i); }
    DeliveredInOrder(run, i, n, k);
  }

  lemma DeliveredLater(run: seq<Cluster>, i: nat, h: nat, n: Id)
    requires IsRun(run) && i <= h < |run| && n in run[i].nodes
    ensures n in run[h].nodes && Pre(run[i].nodes[n].delivered, run[h].nodes[n].delivered)
  {
    RunLater(run, i, h);
    assert n in run[h].nodes.Keys;
    assert NodeLater(run[i].nodes[n], run[h].nodes[n]);
  }

  lemma DeliveredInOrder(run: seq<Cluster>, i: nat, n: Id, k: int)
    requires IsRun(run) && i < |run| && n in run[i].nodes && 1 <= k <= |run[i].nodes[n].delivered| &&
             AllCovered(run[i], false)
    ensures run[i].nodes[n].delivered[k - 1].index == k
  {
    RunKeeps(run, i);
    var x := run[i].nodes[n];
    assert LogOk(x, run[i].reigns) && NodeCovered(x, run[i].reigns, run[i].choices, false);
    assert x.delivered[k - 1] == x.log[k - 1];
  }

  /** The node has delivered exactly its log up to the commit index. */
  predicate CaughtUp(x: Node) {
    0 <= x.lastApplied == x.commitIndex <= |x.log| && x.delivered == x.log[..x.commitIndex]
  }

  lemma DeliverCatchesUp(x: Node)
    requires Consecutive(x.log, 0) && x.snapIndex == 0 && 0 <= x.lastApplied <= x.commitIndex <= |x.log|
    requires x.delivered == x.log[..x.lastApplied]
    ensures CaughtUp(ApplyCommitted(x))
  {
    Handlers.DeliverExactly(x);
    assert x.log[..x.lastApplied] + x.log[x.lastApplied..x.commitIndex] == x.log[..x.commitIndex];
  }

  /** Until an append cuts at or below a commit index, every deliver step leaves its node caught up. */
  lemma DeliveredAll(run: seq<Cluster>, steps: seq<Step>, i: nat)
    requires IsRunBy(run, steps) && i < |steps| && steps[i].Deliver? && Uncut(run, steps, i)
    ensures steps[i].n in run[i + 1].nodes && CaughtUp(run[i + 1].nodes[steps[i].n])
  {
    var s, n := run[i], steps[i].n;
    assert StepsTo(s, steps[i], run[i + 1]);
    RunByIsRun(run, steps);
    assert AllCovered(s, false) by { RunCoversExactly(run, steps, i); }
    assert NodeCovered(s.nodes[n], s.reigns, s.choices, false);
    assert LogOk(s.nodes[n], s.reigns) && s.nodes[n].snapIndex == 0 by { RunKeeps(run, i); }
    DeliverCatchesUp(s.nodes[n]);
  }
}
