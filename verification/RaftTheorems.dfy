/** The safety theorems that hold over every run. */
module RaftTheorems {
  import opened Quorum
  import opened RaftLog
  import opened RaftNode
  import opened RaftCluster
  import opened RaftInvariant
  import opened RaftSafety
  import opened RaftReplication

  // ---- The invariant holds in every state of every run ----

  lemma InitKeeps(s: Cluster)
    requires Init(s)
    ensures Inv(s)
  {}

  predicate Votes(st: Step) { st.TimeOut? || st.CastVote? || st.SeeHigherTerm? || st.StepDown? || st.Win? }

  predicate Sends(st: Step) { st.Propose? || st.Heartbeat? || st.EnterLoop? }

  predicate Handles(st: Step) { st.HandleAppend? || st.HandleReply? || st.CommitAlone? }

  lemma VotingKeeps(s: Cluster, st: Step)
    requires Inv(s) && Enabled(s, st) && Votes(st)
    ensures Inv(Do(s, st))
  {
    if st.TimeOut? {
      TimeOutKeeps(s, st.n, st.save);
    } else if st.CastVote? {
      CastVoteKeeps(s, st.n, st.m, st.saveTerm, st.saveVote);
    } else if st.SeeHigherTerm? {
      SeeHigherTermKeeps(s, st.n, st.m);
    } else if st.StepDown? {
      StepDownKeeps(s, st.n);
    } else {
      WinKeeps(s, st.n, st.term);
    }
  }

  lemma SendingKeeps(s: Cluster, st: Step)
    requires Inv(s) && Enabled(s, st) && Sends(st)
    ensures Inv(Do(s, st))
  {
    if st.EnterLoop? {
      EnterLoopKeeps(s, st.n);
    } else if st.Propose? {
      ProposeKeeps(s, st.n, st.data, st.storeOk);
    } else {
      HeartbeatKeeps(s, st.n, st.peer);
    }
  }

  lemma HandlingKeeps(s: Cluster, st: Step)
    requires Inv(s) && Enabled(s, st) && Handles(st)
    ensures Inv(Do(s, st))
  {
    if st.HandleAppend? {
      AppendKeeps(s, st.n, st.m, st.save, st.writes);
    } else if st.HandleReply? {
      ReplyKeeps(s, st.n, st.m);
    } else {
      CommitAloneKeeps(s, st.n);
    }
  }

  lemma ReadingKeeps(s: Cluster, st: Step)
    requires Inv(s) && Enabled(s, st) && !Votes(st) && !Sends(st) && !Handles(st)
    ensures Inv(Do(s, st))
  {
    if st.Deliver? {
      DeliverKeeps(s, st.n);
    } else if st.BeginRead? {
      BeginReadKeeps(s, st.n, st.read);
    } else if st.Probe? {
      ProbeKeeps(s, st.read, st.peer);
    } else {
      ConfirmKeeps(s, st.m);
    }
  }

  lemma StepKeeps(s: Cluster, st: Step)
    requires Inv(s) && Enabled(s, st)
    ensures Inv(Do(s, st))
  {
    if Votes(st) {
      VotingKeeps(s, st);
    } else if Sends(st) {
      SendingKeeps(s, st);
    } else if Handles(st) {
      HandlingKeeps(s, st);
    } else {
      ReadingKeeps(s, st);
    }
  }

  lemma {:induction false} RunKeeps(run: seq<Cluster>, i: nat)
    requires IsRun(run) && i < |run|
    ensures Inv(run[i])
  {
    if i == 0 {
      InitKeeps(run[0]);
    } else {
      RunKeeps(run, i - 1);
      assert Follows(run[i - 1], run[i]);
      var st :| StepsTo(run[i - 1], st, run[i]);
      StepKeeps(run[i - 1], st);
    }
  }

  // ---- What only grows ----

  predicate SameQuery(q: Read, r: Read) {
    r.leader == q.leader && r.term == q.term && r.index == q.index && r.settled == q.settled
    && r.terms == q.terms && r.commits == q.commits
  }

  predicate NodeLater(x: Node, y: Node) {
    y.cfg == x.cfg && y.currentTerm >= x.currentTerm && Pre(x.delivered, y.delivered)
  }

  /** Along a run terms, reigns, choices, deliveries and ReadIndex records only grow. */
  predicate Later(s: Cluster, t: Cluster) {
    && s.ids == t.ids && Extends(s.reigns, t.reigns) && s.choices <= t.choices
    && s.nodes.Keys <= t.nodes.Keys && s.queries.Keys <= t.queries.Keys
    && (forall n {:trigger NodeLater(s.nodes[n], t.nodes[n])} :: n in s.nodes ==> NodeLater(s.nodes[n], t.nodes[n]))
    && (forall r {:trigger SameQuery(s.queries[r], t.queries[r])} :: r in s.queries ==>
          SameQuery(s.queries[r], t.queries[r]))
  }

  lemma ExtendsTrans(P: Reigns, Q: Reigns, R: Reigns)
    requires Extends(P, Q) && Extends(Q, R)
    ensures Extends(P, R)
  {
    forall k | k in P ensures k in R && Pre(P[k].log, R[k].log) { PreTrans(P[k].log, Q[k].log, R[k].log); }
  }

  lemma LaterTrans(s: Cluster, t: Cluster, u: Cluster)
    requires Later(s, t) && Later(t, u)
    ensures Later(s, u)
  {
    assert Extends(s.reigns, u.reigns) by { ExtendsTrans(s.reigns, t.reigns, u.reigns); }
    assert forall n :: n in s.nodes.Keys ==> n in t.nodes.Keys;
    forall n | n in s.nodes ensures NodeLater(s.nodes[n], u.nodes[n]) {
      assert NodeLater(s.nodes[n], t.nodes[n]) && NodeLater(t.nodes[n], u.nodes[n]);
      PreTrans(s.nodes[n].delivered, t.nodes[n].delivered, u.nodes[n].delivered);
    }
    assert forall r :: r in s.queries.Keys ==> r in t.queries.Keys;
    forall r | r in s.queries ensures SameQuery(s.queries[r], u.queries[r]) {
      assert SameQuery(s.queries[r], t.queries[r]) && SameQuery(t.queries[r], u.queries[r]);
    }
  }

  /** A step that moves one node and keeps the reigns and queries. */
  lemma PutLater(s: Cluster, t: Cluster, n: Id, y: Node)
    requires n in s.nodes && t.nodes == s.nodes[n := y] && NodeLater(s.nodes[n], y)
    requires t.ids == s.ids && t.reigns == s.reigns && s.choices <= t.choices && t.queries == s.queries
    ensures Later(s, t)
  {}

  lemma VoteLater(x: Node, term: int, cand: Id, lastIndex: int, lastTerm: int, saveTerm: SaveOutcome,
                  saveVote: SaveOutcome)
    ensures NodeLater(x, OnRequestVote(x, term, cand, lastIndex, lastTerm, saveTerm, saveVote).0)
  {}

  lemma AppendLater(x: Node, a: AppendArgs, save: SaveOutcome, writes: nat)
    ensures NodeLater(x, OnAppend(x, a, save, writes).0)
  {
    if a.term >= x.currentTerm { FollowShape(x, a.term, a.leader, save); }
  }

  lemma ReplyLater(x: Node, peer: Id, term: int, top: int, lastSent: int, r: AppendResult)
    ensures NodeLater(x, OnAppendReply(x, peer, term, top, lastSent, r))
  {
    if r.term <= term && r.success { AdvanceFacts(Noted(x, peer, lastSent), term, top); }
  }

  lemma ReignLater(s: Cluster, n: Id, y: Node, r: Reign, t: Cluster)
    requires n in s.nodes && NodeLater(s.nodes[n], y)
    requires y.currentTerm in s.reigns ==>
               r == s.reigns[y.currentTerm].(log := r.log) && Pre(s.reigns[y.currentTerm].log, r.log)
    requires t.ids == s.ids && t.nodes == s.nodes[n := y] && t.reigns == s.reigns[y.currentTerm := r] &&
             t.choices == s.choices && t.queries == s.queries
    ensures Later(s, t)
  {}

  /** What a step needs so that reigns only grow: no term is won twice, and a leader's log is its reign's. */
  predicate KeepsReigns(s: Cluster, st: Step)
    requires Enabled(s, st)
  {
    && (st.Win? && OnWin(s.nodes[st.n], st.term).role == Leader ==> s.nodes[st.n].currentTerm !in s.reigns)
    && (st.Propose? && s.nodes[st.n].role == Leader && s.nodes[st.n].currentTerm in s.reigns ==>
          s.reigns[s.nodes[st.n].currentTerm].log == s.nodes[st.n].log)
  }

  lemma InvKeepsReigns(s: Cluster, st: Step)
    requires Inv(s) && Enabled(s, st)
    ensures KeepsReigns(s, st)
  {
    if st.Win? && OnWin(s.nodes[st.n], st.term).role == Leader { var m := WinFacts(s, st.n, st.term); }
  }

  lemma VotingLater(s: Cluster, st: Step)
    requires Enabled(s, st) && Votes(st) && KeepsReigns(s, st)
    ensures Later(s, Do(s, st))
  {
    match st
    case TimeOut(n, save) =>
      PutLater(s, Do(s, st), n, StartElection(s.nodes[n], save));
    case CastVote(n, m, saveTerm, saveVote) =>
      VoteLater(s.nodes[n], m.term, m.cand, |m.log|, LastTermOf(m.log), saveTerm, saveVote);
      PutLater(s, Do(s, st), n,
               OnRequestVote(s.nodes[n], m.term, m.cand, |m.log|, LastTermOf(m.log), saveTerm, saveVote).0);
    case SeeHigherTerm(n, m) =>
      PutLater(s, Do(s, st), n, OnHigherVoteReply(s.nodes[n], m.vote.term));
    case StepDown(n) =>
      PutLater(s, Do(s, st), n, s.nodes[n].(role := Follower));
    case Win(n, term) =>
      var y := OnWin(s.nodes[n], term);
      if y.role == Leader {
        ReignLater(s, n, y, Do(s, st).reigns[y.currentTerm], Do(s, st));
      } else {
        PutLater(s, Do(s, st), n, y);
      }
  }

  lemma SendingLater(s: Cluster, st: Step)
    requires Enabled(s, st) && Sends(st) && KeepsReigns(s, st)
    ensures Later(s, Do(s, st))
  {
    match st
    case EnterLoop(n) =>
      PutLater(s, Do(s, st), n, EnterLeaderLoop(s.nodes[n]));
    case Propose(n, data, storeOk) =>
      var y := OnPropose(s.nodes[n], data, storeOk);
      if y.role == Leader && y.currentTerm in s.reigns {
        ReignLater(s, n, y, s.reigns[y.currentTerm].(log := y.log), Do(s, st));
      } else {
        PutLater(s, Do(s, st), n, y);
      }
    case Heartbeat(n, peer) =>
  }

  lemma HandlingLater(s: Cluster, st: Step)
    requires Enabled(s, st) && Handles(st)
    ensures Later(s, Do(s, st))
  {
    match st
    case HandleAppend(n, m, save, writes) =>
      AppendLater(s.nodes[n], m.args, save, writes);
      PutLater(s, Do(s, st), n, OnAppend(s.nodes[n], m.args, save, writes).0);
    case HandleReply(n, m) =>
      ReplyLater(s.nodes[n], m.from, m.term, m.top, m.lastSent, m.result);
      PutLater(s, Do(s, st), n, OnAppendReply(s.nodes[n], m.from, m.term, m.top, m.lastSent, m.result));
    case CommitAlone(n) =>
      AdvanceFacts(s.nodes[n], s.nodes[n].leading, s.nodes[n].LastIndex());
      PutLater(s, Do(s, st), n, AdvanceCommit(s.nodes[n], s.nodes[n].leading, s.nodes[n].LastIndex()));
  }

  lemma ReadingLater(s: Cluster, st: Step)
    requires Enabled(s, st) && !Votes(st) && !Sends(st) && !Handles(st)
    ensures Later(s, Do(s, st))
  {
    if st.Deliver? { PutLater(s, Do(s, st), st.n, ApplyCommitted(s.nodes[st.n])); }
  }

  lemma StepLater(s: Cluster, st: Step)
    requires Enabled(s, st) && KeepsReigns(s, st)
    ensures Later(s, Do(s, st))
  {
    if Votes(st) {
      VotingLater(s, st);
    } else if Sends(st) {
      SendingLater(s, st);
    } else if Handles(st) {
      HandlingLater(s, st);
    } else {
      ReadingLater(s, st);
    }
  }

  lemma {:induction false} RunLater(run: seq<Cluster>, i: nat, j: nat)
    requires IsRun(run) && i <= j < |run|
    ensures Later(run[i], run[j])
    decreases j
  {
    if i < j {
      RunLater(run, i, j - 1);
      OneStepLater(run, j);
      LaterTrans(run[i], run[j - 1], run[j]);
    }
  }

  lemma OneStepLater(run: seq<Cluster>, j: nat)
    requires IsRun(run) && 0 < j < |run|
    ensures Later(run[j - 1], run[j])
  {
    RunKeeps(run, j - 1);
    assert Follows(run[j - 1], run[j]);
    var st :| StepsTo(run[j - 1], st, run[j]);
    InvKeepsReigns(run[j - 1], st);
    StepLater(run[j - 1], st);
  }

  // ---- The theorems ----

  lemma VotingRole(s: Cluster, st: Step, n: Id)
    requires Enabled(s, st) && Votes(st) && n in s.nodes && s.nodes[n].role != Leader
    ensures n in Do(s, st).nodes
    ensures Do(s, st).nodes[n].role == Leader ==> st.Win? && st.n == n && s.nodes[n].currentTerm == st.term
  {}

  lemma HandlingRole(s: Cluster, st: Step, n: Id)
    requires Enabled(s, st) && Handles(st) && n in s.nodes && s.nodes[n].role != Leader
    ensures n in Do(s, st).nodes && Do(s, st).nodes[n].role != Leader
  {
    if st.HandleAppend? {
      FollowsRole(s.nodes[st.n], st.m.args, st.save, st.writes);
    } else if st.HandleReply? {
      ReplyRole(s.nodes[st.n], st.m);
    }
  }

  /** No step but a won election makes a leader. */
  lemma OnlyWinsLead(s: Cluster, st: Step, n: Id)
    requires Enabled(s, st) && n in s.nodes && s.nodes[n].role != Leader && n in Do(s, st).nodes
    requires Do(s, st).nodes[n].role == Leader
    ensures st.Win? && st.n == n && s.nodes[n].currentTerm == st.term
  {
    if Votes(st) {
      VotingRole(s, st, n);
    } else if Handles(st) {
      HandlingRole(s, st, n);
    }
  }

  lemma FollowsRole(x: Node, a: AppendArgs, save: SaveOutcome, writes: nat)
    ensures OnAppend(x, a, save, writes).0.role in {x.role, Follower}
  {}

  lemma {:induction false} AdvanceRole(x: Node, term: int, top: int)
    ensures AdvanceCommit(x, term, top).role == x.role
    decreases top - x.commitIndex
  {
    if top > x.commitIndex { AdvanceRole(x, term, top - 1); }
  }

  lemma ReplyRole(x: Node, m: Msg)
    requires m.AppendResp?
    ensures OnAppendReply(x, m.from, m.term, m.top, m.lastSent, m.result).role in {x.role, Follower}
  {
    if m.result.term <= m.term && m.result.success {
      var k := if m.lastSent > Get(x.matchIndex, m.from) then m.lastSent else Get(x.matchIndex, m.from);
      var acked := x.(matchIndex := x.matchIndex[m.from := k], nextIndex := x.nextIndex[m.from := k + 1]);
      AdvanceRole(acked, m.term, m.top);
    }
  }

  /** In every run, a node that takes office does so in the term it asked for votes in, and a majority of the members
      have voted for it there, for the very log it has. */
  lemma TakesOffice(run: seq<Cluster>, steps: seq<Step>, i: nat, n: Id)
    requires IsRunBy(run, steps) && i < |steps| && n in run[i].nodes && run[i].nodes[n].role != Leader
    requires n in run[i + 1].nodes && run[i + 1].nodes[n].role == Leader
    ensures var x := run[i].nodes[n];
            var voters := Grants(run[i], n, x.currentTerm) + {n};
            && steps[i] == Win(n, x.currentTerm) && run[i + 1].nodes[n] == x.(role := Leader)
            && Majority(run[i].ids, voters)
            && forall v :: v in voters ==> Vote(x.currentTerm, v, n, x.log) in run[i].votes
  {
    assert StepsTo(run[i], steps[i], run[i + 1]);
    RunByIsRun(run, steps);
    RunKeeps(run, i);
    OnlyWinsLead(run[i], steps[i], n);
    OfficeExactly(run[i], n, steps[i].term);
    var m := WinFacts(run[i], n, steps[i].term);
  }

  /** Election Safety: at most one node ever leads a given term. */
  lemma ElectionSafety(run: seq<Cluster>, i: nat, j: nat, n: Id, m: Id)
    requires IsRun(run) && i <= j < |run| && n in run[i].nodes && m in run[j].nodes
    requires run[i].nodes[n].role == Leader && run[j].nodes[m].role == Leader
    requires run[i].nodes[n].currentTerm == run[j].nodes[m].currentTerm
    ensures n == m
  {
    RunKeeps(run, i);
    RunKeeps(run, j);
    RunLater(run, i, j);
  }

  /** Log Matching: two logs, of any two nodes at any two moments, that hold entries of the same index and
      term are identical up to that entry. */
  lemma LogMatching(run: seq<Cluster>, i: nat, j: nat, n: Id, m: Id, k: int)
    requires IsRun(run) && i < |run| && j < |run| && n in run[i].nodes && m in run[j].nodes
    requires 1 <= k <= |run[i].nodes[n].log| && k <= |run[j].nodes[m].log|
    requires run[i].nodes[n].log[k - 1].term == run[j].nodes[m].log[k - 1].term
    ensures run[i].nodes[n].log[..k] == run[j].nodes[m].log[..k]
    ensures run[i].nodes[n].log[k - 1].index == k
  {
    var h := if i <= j then j else i;
    assert Sound(run[i].nodes[n].log, run[h].reigns) && Consecutive(run[i].nodes[n].log, 0) by {
      SoundInRun(run, i, h, n);
    }
    assert Sound(run[j].nodes[m].log, run[h].reigns) by { SoundInRun(run, j, h, m); }
    SoundAgree(run[i].nodes[n].log, run[j].nodes[m].log, run[h].reigns, k - 1);
  }

  lemma SoundInRun(run: seq<Cluster>, i: nat, h: nat, n: Id)
    requires IsRun(run) && i <= h < |run| && n in run[i].nodes
    ensures Sound(run[i].nodes[n].log, run[h].reigns) && Consecutive(run[i].nodes[n].log, 0)
  {
    RunKeeps(run, i);
    RunLater(run, i, h);
    SoundLater(run[i], run[h], n);
  }

  lemma SoundLater(s: Cluster, t: Cluster, n: Id)
    requires LogsOk(s.nodes, s.reigns) && n in s.nodes && Extends(s.reigns, t.reigns)
    ensures Sound(s.nodes[n].log, t.reigns) && Consecutive(s.nodes[n].log, 0)
  {
    assert LogOk(s.nodes[n], s.reigns);
    SoundExtends(s.nodes[n].log, s.reigns, t.reigns);
  }

  /** Any two prefixes committed by counting are comparable. */
  lemma ChoicesAgree(s: Cluster, c: Choice, d: Choice)
    requires ReignsOk(s.reigns) && OrdersOk(s.reigns) && ElectedOk(s.ids, s.reigns, s.votes, s.seen)
    requires VotesCarry(s.reigns, s.seen, s.acks, s.votes) && MisledsOk(s.reigns, s.misled)
    requires ChoiceOk(c, s.ids, s.nodes, s.reigns, s.acks, s.misled)
    requires ChoiceOk(d, s.ids, s.nodes, s.reigns, s.acks, s.misled) && c.term <= d.term
    ensures Comparable(s.reigns[c.term].log[..c.upTo], s.reigns[d.term].log[..d.upTo])
  {
    var R := s.reigns;
    var p, q, l := R[c.term].log[..c.upTo], R[d.term].log[..d.upTo], R[d.term].log;
    assert Pre(q, l);
    if c.term < d.term {
      LeaderCompleteness(s.ids, s.nodes, R, s.seen, s.acks, s.misled, s.votes, c, d.term);
      assert ReignOk(d.term, R[d.term]);
      PreTrans(p, R[d.term].base, l);
    }
    if |p| <= |q| { PreChain(p, q, l); } else { PreChain(q, p, l); }
  }

  /** The step counts acknowledgements under the term of the node's leader loop. */
  predicate Counts(st: Step) { st.HandleReply? || st.CommitAlone? }

  /** A commit by counting takes a prefix of the log that the leader of the term put there. */
  lemma {:induction false} CountedPrefix(x: Node, z: Node, R: Reigns, top: int, k: int)
    requires LogOk(x, R) && x.commitIndex >= 0 && z == x.(matchIndex := z.matchIndex, nextIndex := z.nextIndex)
    requires k == AdvanceCommit(z, x.leading, top).commitIndex > x.commitIndex
    ensures x.leading in R && 1 <= k <= |R[x.leading].log| && k <= |x.log| && x.log[..k] == R[x.leading].log[..k]
  {
    AdvanceFacts(z, x.leading, top);
    FindConsecutive(x.log, 0, k);
    assert SoundAt(x.log, R, k - 1);
  }

  predicate Recorded(s: Cluster, t: Cluster, n: Id, k: int) {
    && n in s.nodes && Choice(s.nodes[n].leading, k) in t.choices && s.nodes[n].leading in s.reigns
    && 1 <= k <= |s.reigns[s.nodes[n].leading].log| && k <= |s.nodes[n].log|
    && s.nodes[n].log[..k] == s.reigns[s.nodes[n].leading].log[..k]
  }

  lemma ReplyRecorded(s: Cluster, n: Id, m: Msg, k: int)
    requires LogsOk(s.nodes, s.reigns) && CommitsOk(s.nodes, s.choices) && Enabled(s, HandleReply(n, m))
    requires k == DoReply(s, n, m).nodes[n].commitIndex > s.nodes[n].commitIndex
    ensures Recorded(s, DoReply(s, n, m), n, k)
  {
    var z := Noted(s.nodes[n], m.from, m.lastSent);
    ReplyShape(s, n, m);
    assert LogOk(s.nodes[n], s.reigns) && Bounded(s.choices, s.nodes[n].commitIndex);
    CountedPrefix(s.nodes[n], z, s.reigns, m.top, k);
  }

  lemma AloneRecorded(s: Cluster, n: Id, top: int, k: int)
    requires LogsOk(s.nodes, s.reigns) && CommitsOk(s.nodes, s.choices) && n in s.nodes
    requires k == DoAdvance(s, n, s.nodes[n].leading, top).nodes[n].commitIndex > s.nodes[n].commitIndex
    ensures Recorded(s, DoAdvance(s, n, s.nodes[n].leading, top), n, k)
  {
    assert LogOk(s.nodes[n], s.reigns) && Bounded(s.choices, s.nodes[n].commitIndex);
    CountedPrefix(s.nodes[n], s.nodes[n], s.reigns, top, k);
  }

  lemma CountedRecorded(s: Cluster, st: Step, t: Cluster, k: int)
    requires LogsOk(s.nodes, s.reigns) && CommitsOk(s.nodes, s.choices) && Enabled(s, st) && t == Do(s, st) &&
             Counts(st)
    requires st.n in t.nodes && k == t.nodes[st.n].commitIndex > s.nodes[st.n].commitIndex
    ensures Recorded(s, t, st.n, k)
  {
    if st.HandleReply? {
      ReplyRecorded(s, st.n, st.m, k);
    } else {
      AloneRecorded(s, st.n, s.nodes[st.n].LastIndex(), k);
    }
  }

  /** Leader Completeness over runs: what a node commits by counting under a term is in the log of every leader of
      a higher term. */
  lemma CountedIsInLaterLeaders(run: seq<Cluster>, i: nat, j: nat, st: Step, n: Id, k: int)
    requires IsRun(run) && i + 1 < |run| && j < |run| && n in run[j].nodes
    requires Enabled(run[i], st) && run[i + 1] == Do(run[i], st) && Counts(st) && st.n in run[i + 1].nodes
    requires k == run[i + 1].nodes[st.n].commitIndex > run[i].nodes[st.n].commitIndex
    requires run[j].nodes[n].role == Leader && run[j].nodes[n].currentTerm > run[i].nodes[st.n].leading
    ensures 1 <= k <= |run[i].nodes[st.n].log| && Pre(run[i].nodes[st.n].log[..k], run[j].nodes[n].log)
  {
    var u, h := run[j].nodes[n].currentTerm, if i + 1 <= j then j else i + 1;
    assert Recorded(run[i], run[i + 1], st.n, k) by {
      RunKeeps(run, i);
      CountedRecorded(run[i], st, run[i + 1], k);
    }
    assert u in run[j].reigns && run[j].reigns[u].log == run[j].nodes[n].log && ReignsOk(run[j].reigns) by {
      RunKeeps(run, j);
    }
    assert Extends(run[i].reigns, run[h].reigns) by { RunLater(run, i, h); }
    assert Extends(run[j].reigns, run[h].reigns) by { RunLater(run, j, h); }
    assert Choice(run[i].nodes[st.n].leading, k) in run[h].choices by { RunLater(run, i + 1, h); }
    RunKeeps(run, h);
    ChosenIsInReign(run[i], run[h], Choice(run[i].nodes[st.n].leading, k), u);
    InBase(run[i].nodes[st.n].log[..k], run[j].reigns, run[h].reigns, u);
  }

  lemma InBase(p: Log, R: Reigns, Q: Reigns, u: int)
    requires ReignsOk(R) && Extends(R, Q) && u in R && Pre(p, Q[u].base)
    ensures Pre(p, R[u].log)
  {
    assert ReignOk(u, R[u]);
    PreTrans(p, R[u].base, R[u].log);
  }

  lemma ChosenIsInReign(s: Cluster, t: Cluster, c: Choice, u: int)
    requires OrdersOk(t.reigns) && ElectedOk(t.ids, t.reigns, t.votes, t.seen)
    requires VotesCarry(t.reigns, t.seen, t.acks, t.votes) && MisledsOk(t.reigns, t.misled)
    requires ChoicesOk(t.ids, t.nodes, t.reigns, t.acks, t.misled, t.choices) && c in t.choices
    requires Extends(s.reigns, t.reigns) && c.term in s.reigns && 1 <= c.upTo <= |s.reigns[c.term].log|
    requires u in t.reigns && c.term < u
    ensures Pre(s.reigns[c.term].log[..c.upTo], t.reigns[u].base)
  {
    assert ChoiceOk(c, t.ids, t.nodes, t.reigns, t.acks, t.misled);
    LeaderCompleteness(t.ids, t.nodes, t.reigns, t.seen, t.acks, t.misled, t.votes, c, u);
    SamePrefix(s.reigns, t.reigns, Ack(c.term, "", c.upTo));
  }

  /** ReadIndex: take a call that began in state i on a leader that held no entry of an earlier term above its
      commit index. Once the confirmations it has collected, with the leader itself, pass the quorum test, the index it
      captured is at least every commit index any node had when the call began. */
  lemma ReadIndexIsCurrent(run: seq<Cluster>, i: nat, j: nat, n: Id, read: nat, v: Id)
    requires IsRun(run) && i + 1 <= j < |run|
    requires Enabled(run[i], BeginRead(n, read)) && run[i + 1] == Do(run[i], BeginRead(n, read))
    requires Settled(run[i].nodes[n])
    requires read in run[j].queries && Passes(run[i].nodes[n].cfg, run[j].queries[read].confirmed)
    requires v in run[i].nodes
    ensures run[j].queries[read].index == run[i].nodes[n].commitIndex
    ensures run[i].nodes[v].commitIndex <= run[j].queries[read].index
  {
    var x, r := run[i].nodes[n], run[j].queries[read];
    RunLater(run, i + 1, j);
    assert SameQuery(run[i + 1].queries[read], r);
    SameIds(run, i, j);
    assert x.cfg.phase == Stable && Lists(run[i].ids, n, x.cfg.voters) by { RunKeeps(run, i); }
    assert QueryOk(run[j].ids, run[j].nodes, r) by { RunKeeps(run, j); }
    ConfirmedMajority(run[i].ids, n, x.cfg, r);
    assert run[i].nodes.Keys == run[i].ids by { RunKeeps(run, i); }
  }

  /** The peers that confirmed, with the leader, had at most its term when the call began. */
  lemma ConfirmedMajority(ids: set<Id>, n: Id, cfg: ClusterConfig, r: Read)
    requires cfg.phase == Stable && Lists(ids, n, cfg.voters) && Passes(cfg, r.confirmed) && r.leader == n
    requires Fulfilled(ids, r) && r.terms[n] == r.term && forall v :: v in r.confirmed ==>
             v in ids && r.terms[v] <= r.term
    ensures Majority(ids, AtMost(r.terms, r.term))
  {
    CountedMajority(ids, n, cfg.voters, r.confirmed);
    MajorityGrows(ids, r.confirmed + {n}, AtMost(r.terms, r.term));
  }

  lemma SameIds(run: seq<Cluster>, i: nat, j: nat)
    requires IsRun(run) && i <= j < |run|
    ensures run[i].ids == run[j].ids
  {
    RunLater(run, i, j);
  }
}
