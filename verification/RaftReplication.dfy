/** The replication and ReadIndex steps keep the invariant. */
module RaftReplication {
  import opened Quorum
  import opened RaftLog
  import opened RaftNode
  import opened RaftCluster
  import opened RaftInvariant
  import opened RaftSafety

  // ---- Sending ----

  /** A new AppendEntries request or reply leaves votes alone. */
  lemma ReplicationMessage(s: Cluster, m: Msg)
    requires VotesOk(s.nodes, s.votes, s.net) && RequestsOk(s.nodes, s.reigns, s.votes, s.net) &&
             GrantsOk(s.votes, s.net)
    requires m.AppendReq? || m.AppendResp?
    ensures var net := s.net + {m};
            VotesOk(s.nodes, s.votes, net) && RequestsOk(s.nodes, s.reigns, s.votes, net) && GrantsOk(s.votes, net)
  {
    var net := s.net + {m};
    forall w | w in s.votes ensures VoteOk(w, s.nodes, net) { assert VoteOk(w, s.nodes, s.net); }
    forall k | k in net && k.VoteReq? ensures RequestOk(k, s.nodes, s.reigns, s.votes) { assert k in s.net; }
    forall k | k in net && k.VoteResp? && k.vote.granted
      ensures exists l :: Vote(k.term, k.voter, k.cand, l) in s.votes
    {
      assert k in s.net;
    }
  }

  lemma OneMoreRequest(s: Cluster, m: Msg)
    requires AppendReqsOk(s.nodes, s.reigns, s.choices, s.net) && RepliesOk(s.nodes, s.reigns, s.acks, s.misled, s.net)
    requires QueriesOk(s.ids, s.nodes, s.reigns, s.queries, s.net)
    requires m.AppendReq? && AppendReqOk(m, s.nodes, s.reigns, s.choices)
    requires m.tag.Some? ==> m.tag.value in s.queries
    ensures var net := s.net + {m};
            && AppendReqsOk(s.nodes, s.reigns, s.choices, net) && RepliesOk(s.nodes, s.reigns, s.acks, s.misled, net)
            && QueriesOk(s.ids, s.nodes, s.reigns, s.queries, net)
  {
    var net := s.net + {m};
    forall k | k in net && k.AppendReq? ensures AppendReqOk(k, s.nodes, s.reigns, s.choices) {
      if k != m { assert k in s.net; }
    }
    forall k | k in net && k.AppendResp? ensures ReplyOk(k, s.nodes, s.reigns, s.acks, s.misled) { assert k in s.net; }
  }

  lemma Sent(s: Cluster, m: Msg)
    requires Inv(s) && m.AppendReq? && AppendReqOk(m, s.nodes, s.reigns, s.choices)
    requires m.tag.Some? ==> m.tag.value in s.queries
    ensures Inv(Send(s, m))
  {
    ReplicationMessage(s, m);
    OneMoreRequest(s, m);
  }

  /** What a heartbeat carries: a suffix of the sender's log, anchored at the entry before it. */
  lemma HeartbeatShape(x: Node, term: int, peer: Id)
    requires Consecutive(x.log, 0) && x.snapIndex == 0
    ensures var a := BuildAppend(x, term, peer);
            && (a.prevIndex <= 0 ==> a.entries == x.log)
            && (0 < a.prevIndex <= |x.log| ==>
                  a.entries == x.log[a.prevIndex..] && a.prevTerm == x.log[a.prevIndex - 1].term)
            && (a.prevIndex > |x.log| ==> a.entries == [] && a.prevTerm == 0)
  {
    var next := Get(x.nextIndex, peer);
    HeartbeatEntries(x.log, next);
    FindConsecutive(x.log, 0, next - 1);
  }

  lemma {:induction false} HeartbeatEntries(log: Log, next: int)
    requires Consecutive(log, 0)
    ensures Since(log, next) == if next <= 1 then log else if next > |log| then [] else log[next - 1..]
  {
    SinceConsecutive(log, 0, next);
    if next == 1 { assert log[0..] == log; }
  }

  /** A deposed leader still holds what it led with, unless a later leader started without it. */
  lemma DeposedHolds(X: map<Id, Node>, n: Id, t: int, R: Reigns, acks: set<Ack>)
    requires AcksOk(X, R, acks) && Retained(X, R, acks) && t in R && R[t].leader == n && n in X && X[n].currentTerm > t
    ensures StaleOk(X[n].log, t, X, R)
  {
    forall i | 1 <= i <= |R[t].log| ensures KeptOrMissed(X[n].log, t, R, i) {
      var a := Ack(t, n, i);
      assert a in acks && RetainedBy(X[n], R, a);
    }
  }

  lemma HeartbeatReq(X: map<Id, Node>, n: Id, peer: Id, t: int, R: Reigns, choices: set<Choice>)
    requires n in X && peer in X && n != peer && X[n].id == n && X[n].snapIndex == 0
    requires LogOk(X[n], R) && Bounded(choices, X[n].commitIndex) && t in R && R[t].leader == n
    requires Pre(X[n].log, R[t].log) || StaleOk(X[n].log, t, X, R)
    ensures AppendReqOk(AppendReq(peer, BuildAppend(X[n], t, peer), None, X[n].log), X, R, choices)
  {
    HeartbeatShape(X[n], t, peer);
  }

  lemma HeartbeatKeeps(s: Cluster, n: Id, peer: Id)
    requires Inv(s) && Enabled(s, Heartbeat(n, peer))
    ensures Inv(Do(s, Heartbeat(n, peer)))
  {
    var t := s.nodes[n].leading;
    assert MatchOk(s.nodes[n], n, s.nodes, s.reigns, s.acks, s.misled) && LogOk(s.nodes[n], s.reigns);
    if s.nodes[n].currentTerm > t { DeposedHolds(s.nodes, n, t, s.reigns, s.acks); }
    HeartbeatReq(s.nodes, n, peer, t, s.reigns, s.choices);
    Sent(s, AppendReq(peer, BuildAppend(s.nodes[n], t, peer), None, s.nodes[n].log));
  }

  lemma ProbeOk(ids: set<Id>, X: map<Id, Node>, n: Id, peer: Id, term: int, tag: nat, R: Reigns, choices: set<Choice>)
    requires ConfigOk(ids, X) && LogsOk(X, R) && CommitsOk(X, choices)
    requires n in X && peer in X && n != peer && term in R && R[term].leader == n
    ensures AppendReqOk(AppendReq(peer, BuildProbe(X[n], term), Some(tag), X[n].log), X, R, choices)
  {
    assert LogOk(X[n], R);
    assert X[n].log[|X[n].log|..] == [];
  }

  lemma ProbeKeeps(s: Cluster, read: nat, peer: Id)
    requires Inv(s) && Enabled(s, Probe(read, peer))
    ensures Inv(Do(s, Probe(read, peer)))
  {
    var q := s.queries[read];
    assert QueryOk(s.ids, s.nodes, q);
    ProbeOk(s.ids, s.nodes, q.leader, peer, q.term, read, s.reigns, s.choices);
    Sent(s, AppendReq(peer, BuildProbe(s.nodes[q.leader], q.term), Some(read), s.nodes[q.leader].log));
  }

  // ---- Steps of one node that neither send nor learn ----

  lemma {:induction false} CollectConsecutive(log: Log, i: int, j: int)
    requires Consecutive(log, 0) && 0 <= i <= j <= |log|
    ensures Collect(log, i + 1, j) == log[i..j]
    decreases j - i
  {
    if i < j {
      CollectConsecutive(log, i, j - 1);
      FindConsecutive(log, 0, j);
      assert log[i..j] == log[i..j - 1] + [log[j - 1]];
    }
  }

  lemma DeliverKeeps(s: Cluster, n: Id)
    requires Inv(s) && Enabled(s, Deliver(n))
    ensures Inv(Do(s, Deliver(n)))
  {
    MovedQuietly(s, n, ApplyCommitted(s.nodes[n]));
  }

  lemma LoopEntered(X: map<Id, Node>, n: Id, R: Reigns, acks: set<Ack>, misled: set<Misled>)
    requires n in X && X[n].role == Leader && LeadersOk(X, R)
    ensures var y := EnterLeaderLoop(X[n]); MatchOk(y, n, X, R, acks, misled) && Moves(X[n], y)
  {}

  lemma EnterLoopKeeps(s: Cluster, n: Id)
    requires Inv(s) && Enabled(s, EnterLoop(n))
    ensures Inv(Do(s, EnterLoop(n)))
  {
    LoopEntered(s.nodes, n, s.reigns, s.acks, s.misled);
    Moved(s, n, EnterLeaderLoop(s.nodes[n]));
  }

  lemma SeeHigherTermKeeps(s: Cluster, n: Id, m: Msg)
    requires Inv(s) && Enabled(s, SeeHigherTerm(n, m))
    ensures Inv(Do(s, SeeHigherTerm(n, m)))
  {
    MovedQuietly(s, n, OnHigherVoteReply(s.nodes[n], m.vote.term));
  }

  lemma StepDownKeeps(s: Cluster, n: Id)
    requires Inv(s) && Enabled(s, StepDown(n))
    ensures Inv(Do(s, StepDown(n)))
  {
    MovedQuietly(s, n, s.nodes[n].(role := Follower));
  }

  // ---- A follower handles AppendEntries ----

  function Least(x: int, y: int): int { if x < y then x else y }

  /** What the handler may do to a follower. */
  predicate Appends(x: Node, y: Node, m: Msg, r: AppendResult)
    requires m.AppendReq?
  {
    && y.id == x.id && y.cfg == x.cfg && y.snapIndex == x.snapIndex && y.snapTerm == x.snapTerm
    && y.lastApplied == x.lastApplied && y.delivered == x.delivered && y.leading == x.leading &&
        y.matchIndex == x.matchIndex
    && (m.args.term < x.currentTerm ==> y == x && !r.success && r.term == x.currentTerm)
    && (m.args.term >= x.currentTerm ==>
          && y.currentTerm == r.term == m.args.term && y.role == Follower
          && (y.currentTerm == x.currentTerm ==> y.votedFor == x.votedFor))
    && (y.log == x.log || (m.args.entries != [] && Pre(y.log, m.log)))
    && (r.success ==> Pre(m.log, y.log))
    && (y.commitIndex == x.commitIndex ||
          (r.success && m.args.leaderCommit > x.commitIndex && y.commitIndex == Least(m.args.leaderCommit, |y.log|)))
  }

  /** The requirements on a request that do not involve the whole cluster. */
  predicate Segment(m: Msg, R: Reigns)
    requires m.AppendReq?
  {
    var a := m.args;
    && Sound(m.log, R) && Consecutive(m.log, 0)
    && (a.prevIndex <= 0 ==> a.entries == m.log)
    && (0 < a.prevIndex <= |m.log| ==> a.entries == m.log[a.prevIndex..] && a.prevTerm == m.log[a.prevIndex - 1].term)
    && (a.prevIndex > |m.log| ==> a.entries == [] && a.prevTerm == 0)
  }

  /** Passing the consistency check means agreeing with the sender up to the anchor. */
  lemma CheckMeansAgreement(x: Node, m: Msg, R: Reigns) returns (p: nat)
    requires LogOk(x, R) && ReignsOk(R) && x.snapIndex == 0 && m.AppendReq? && Segment(m, R)
    requires Mismatch(x, m.args).None?
    ensures p <= |m.log| && p <= |x.log| && x.log[..p] == m.log[..p] && m.args.entries == m.log[p..]
  {
    var a := m.args;
    if a.prevIndex <= 0 {
      p := 0;
    } else {
      p := a.prevIndex;
      FindConsecutive(x.log, 0, p);
      assert 1 <= p <= |x.log| && x.log[p - 1].term == a.prevTerm;
      assert SoundAt(x.log, R, p - 1) && ReignOk(a.prevTerm, R[a.prevTerm]);
      SoundAgree(x.log, m.log, R, p - 1);
    }
  }

  lemma SoundAgreeAll(a: Log, b: Log, R: Reigns)
    requires Sound(a, R) && Sound(b, R)
    ensures Agree(a, b)
  {
    forall i | 0 <= i < |a| && i < |b| ensures AgreeAt(a, b, i) {
      if a[i].term == b[i].term { SoundAgree(a, b, R, i); }
    }
  }

  lemma {:induction false} MergedLog(log: Log, m: Msg, writes: nat, R: Reigns, p: nat)
    requires Sound(log, R) && Consecutive(log, 0) && m.AppendReq? && Sound(m.log, R) && Consecutive(m.log, 0)
    requires p <= |m.log| && p <= |log| && log[..p] == m.log[..p] && m.args.entries == m.log[p..]
    ensures var g := Merge(log, m.args.entries, false, writes);
            && (g.log == log || (m.args.entries != [] && Pre(g.log, m.log)))
            && (g.ok ==> Pre(m.log, g.log)) && Consecutive(g.log, 0)
  {
    SoundAgreeAll(log, m.log, R);
    MergeShape(log, m.log, 0, p, writes);
    var g := Merge(log, m.args.entries, false, writes);
    if g.log != log {
      forall i | 0 <= i < |g.log| ensures g.log[i].index == i + 1 { assert g.log[i] == m.log[i]; }
    }
  }

  lemma CommitClamped(k: Node, leaderCommit: int)
    requires Consecutive(k.log, 0) && k.snapIndex == 0
    ensures Commit(k, leaderCommit) ==
              if leaderCommit <= k.commitIndex then k else k.(commitIndex := Least(leaderCommit, |k.log|))
  {}

  /** The node after adopting the leader's term, before its log is touched. */
  predicate Followed(x: Node, f: Node, term: int) {
    && f.id == x.id && f.cfg == x.cfg && f.snapIndex == x.snapIndex && f.snapTerm == x.snapTerm
    && f.lastApplied == x.lastApplied && f.delivered == x.delivered && f.leading == x.leading &&
        f.matchIndex == x.matchIndex
    && f.log == x.log && f.commitIndex == x.commitIndex && f.currentTerm == term && f.role == Follower
    && (term == x.currentTerm ==> f.votedFor == x.votedFor)
  }

  lemma FollowShape(x: Node, term: int, leader: Id, save: SaveOutcome)
    requires term >= x.currentTerm
    ensures Followed(x, Follow(x, term, leader, save), term)
  {}

  lemma MismatchShape(f: Node, a: AppendArgs)
    ensures Mismatch(f, a).Some? ==> !Mismatch(f, a).value.success && Mismatch(f, a).value.term == f.currentTerm
  {}

  lemma MergedNode(x: Node, f: Node, m: Msg, g: Merged, y: Node)
    requires m.AppendReq? && m.args.term >= x.currentTerm && Followed(x, f, m.args.term) && x.snapIndex == 0
    requires (g.log == x.log || (m.args.entries != [] && Pre(g.log, m.log))) && (g.ok ==> Pre(m.log, g.log)) &&
             Consecutive(g.log, 0)
    requires y == if g.ok then Commit(f.(log := g.log), m.args.leaderCommit) else f.(log := g.log)
    ensures Appends(x, y, m, AppendResult(f.currentTerm, g.ok, 0, 0))
  {
    if g.ok { CommitClamped(f.(log := g.log), m.args.leaderCommit); }
  }

  lemma Appended(x: Node, m: Msg, save: SaveOutcome, writes: nat, R: Reigns)
    requires LogOk(x, R) && ReignsOk(R) && x.snapIndex == 0 && m.AppendReq? && Segment(m, R)
    ensures var (y, r) := OnAppend(x, m.args, save, writes); Appends(x, y, m, r)
  {
    if m.args.term >= x.currentTerm {
      var f := Follow(x, m.args.term, m.args.leader, save);
      FollowShape(x, m.args.term, m.args.leader, save);
      MismatchShape(f, m.args);
      if Mismatch(f, m.args).None? {
        var p := CheckMeansAgreement(f, m, R);
        MergedLog(x.log, m, writes, R, p);
        MergedNode(x, f, m, Merge(x.log, m.args.entries, false, writes), OnAppend(x, m.args, save, writes).0);
      }
    }
  }

  /** A prefix of the follower's log that the sender's log does not contradict survives. */
  lemma AppendKeepsPrefix(x: Node, m: Msg, save: SaveOutcome, writes: nat, R: Reigns, k: Log)
    requires LogOk(x, R) && ReignsOk(R) && x.snapIndex == 0 && m.AppendReq? && Segment(m, R)
    requires Pre(k, x.log) && (m.args.entries == [] || Comparable(k, m.log))
    ensures Pre(k, OnAppend(x, m.args, save, writes).0.log)
  {
    var f := Follow(x, m.args.term, m.args.leader, save);
    if m.args.term >= x.currentTerm && Mismatch(f, m.args).None? && m.args.entries != [] {
      var p := CheckMeansAgreement(f, m, R);
      SoundAgreeAll(x.log, m.log, R);
      MergeKeeps(x.log, m.log, 0, p, writes, k);
    }
  }

  lemma AppendedLogOk(x: Node, y: Node, m: Msg, r: AppendResult, R: Reigns)
    requires m.AppendReq? && Segment(m, R) && Appends(x, y, m, r) && LogOk(x, R)
    ensures LogOk(y, R)
  {
    if y.log != x.log {
      forall i | 0 <= i < |y.log| ensures y.log[i].index == i + 1 && SoundAt(y.log, R, i) {
        assert SoundAt(m.log, R, i);
        assert y.log[i] == m.log[i];
        assert y.log[..i + 1] == m.log[..i + 1];
      }
    }
  }

  /** A request does not contradict what its leader holds, unless a later leader started without it. */
  lemma NotContradicted(m: Msg, X: map<Id, Node>, R: Reigns, choices: set<Choice>, p: Log)
    requires m.AppendReq? && AppendReqOk(m, X, R, choices) && m.args.entries != []
    requires 1 <= |p| && Pre(p, R[m.args.term].log)
    ensures Comparable(p, m.log) || Missed(R, R.Keys, p, m.args.term)
  {
    var l := R[m.args.term].log;
    if Pre(m.log, l) {
      if |p| <= |m.log| { PreChain(p, m.log, l); } else { PreChain(m.log, p, l); }
    } else {
      assert KeptOrMissed(m.log, m.args.term, R, |p|);
    }
  }

  lemma AppendRetains(X: map<Id, Node>, n: Id, m: Msg, save: SaveOutcome, writes: nat, R: Reigns, choices: set<Choice>,
                      a: Ack,
                      y: Node, r: AppendResult)
    requires n in X && LogOk(X[n], R) && ReignsOk(R) && X[n].snapIndex == 0
    requires m.AppendReq? && AppendReqOk(m, X, R, choices) && Segment(m, R)
    requires (y, r) == OnAppend(X[n], m.args, save, writes) && Appends(X[n], y, m, r)
    requires AckOk(a, X, R) && a.node == n
    requires RetainedBy(X[n], R, a)
    ensures RetainedBy(y, R, a)
  {
    var p, t := Prefix(R, a), m.args.term;
    if Pre(p, X[n].log) && y.log != X[n].log {
      if a.term < t && !Pre(p, R[t].base) {
        assert t in R.Keys && a.term < t;
      } else {
        if a.term < t {
          assert ReignOk(t, R[t]);
          PreTrans(p, R[t].base, R[t].log);
        }
        NotContradicted(m, X, R, choices, p);
        if Comparable(p, m.log) {
          AppendKeepsPrefix(X[n], m, save, writes, R, p);
        } else {
          MissedBelow(R, p, t, a.term);
        }
      }
    }
  }

  lemma MissedBelow(R: Reigns, p: Log, t: int, lo: int)
    requires Missed(R, R.Keys, p, t) && lo <= t
    ensures Missed(R, R.Keys, p, lo)
  {
    var u :| u in R.Keys && u in R && t < u && !Pre(p, R[u].base);
    assert lo < u;
  }

  /** A request reaches as far as the log it was built from. */
  lemma SentReaches(m: Msg, X: map<Id, Node>, R: Reigns, choices: set<Choice>)
    requires m.AppendReq? && AppendReqOk(m, X, R, choices)
    ensures LastSent(m.args.entries) == if m.args.entries == [] then 0 else |m.log|
  {
    var e := m.args.entries;
    if e != [] { assert e[|e| - 1] == m.log[|m.log| - 1]; }
  }

  /** Where the request carries the leader's prefix, a successful append leaves it in the follower's log. */
  lemma AppendAcks(m: Msg, R: Reigns, X: map<Id, Node>, y: Node, r: AppendResult, n: Id, a: Ack)
    requires m.AppendReq? && n in X && m.args.term >= X[n].currentTerm && Appends(X[n], y, m, r) && r.success
    requires a in NewAcks(R, n, m)
    ensures AckOk(a, X[n := y], R) && Pre(Prefix(R, a), y.log)
  {
    assert Agreed(R, m, a.upTo);
    assert Pre(Prefix(R, a), m.log);
    PreTrans(Prefix(R, a), m.log, y.log);
  }

  lemma FewerAgreed(R: Reigns, n: Id, m: Msg, a: Ack, i: int)
    requires m.AppendReq? && a in NewAcks(R, n, m) && 1 <= i <= a.upTo
    ensures Ack(a.term, a.node, i) in NewAcks(R, n, m)
  {
    var l := R[m.args.term].log;
    assert l[..i] == l[..a.upTo][..i] == m.log[..a.upTo][..i] == m.log[..i];
    assert Agreed(R, m, i);
  }

  lemma AppendedAcks(X: map<Id, Node>, n: Id, m: Msg, save: SaveOutcome, writes: nat, R: Reigns, choices: set<Choice>,
                     acks: set<Ack>, new_: set<Ack>, y: Node, r: AppendResult)
    requires n in X && LogOk(X[n], R) && ReignsOk(R) && X[n].snapIndex == 0
    requires m.AppendReq? && AppendReqOk(m, X, R, choices) && Segment(m, R) && m.args.term >= X[n].currentTerm
    requires (y, r) == OnAppend(X[n], m.args, save, writes) && Appends(X[n], y, m, r)
    requires AcksOk(X, R, acks) && Retained(X, R, acks)
    requires new_ == if r.success && m.tag.None? then NewAcks(R, n, m) else {}
    ensures AcksOk(X[n := y], R, acks + new_) && Retained(X[n := y], R, acks + new_)
  {
    var Y := X[n := y];
    var A := acks + new_;
    forall a | a in A ensures AckOk(a, Y, R) {
      if a in acks { assert AckOk(a, X, R); } else { AppendAcks(m, R, X, y, r, n, a); }
    }
    forall a, i | a in A && 1 <= i <= a.upTo ensures Ack(a.term, a.node, i) in A {
      if a in acks { assert Ack(a.term, a.node, i) in acks; } else { FewerAgreed(R, n, m, a, i); }
    }
    assert AcksOk(Y, R, A);
    forall a | a in A && a.node in Y ensures RetainedBy(Y[a.node], R, a) {
      if a !in acks {
        AppendAcks(m, R, X, y, r, n, a);
      } else if a.node == n {
        assert AckOk(a, X, R);
        AppendRetains(X, n, m, save, writes, R, choices, a, y, r);
      } else {
        assert RetainedBy(X[a.node], R, a);
      }
    }
  }

  lemma AppendedCarry(X: map<Id, Node>, n: Id, m: Msg, R: Reigns, seen: Seen, acks: set<Ack>, A: set<Ack>,
                      votes: set<Vote>,
                      net: set<Msg>)
    requires n in X && m.AppendReq? && X[n].currentTerm <= m.args.term
    requires VotesCarry(R, seen, acks, votes) && VotesOk(X, votes, net)
    requires forall a :: a in A && a !in acks ==> a.term == m.args.term && a.node == n
    ensures VotesCarry(R, seen, A, votes)
  {
    forall a, w | a in A && w in votes ensures Carries(R, seen, a, w) {
      if a in acks { assert Carries(R, seen, a, w); } else { assert VoteOk(w, X, net); }
    }
  }

  lemma FreshAgrees(R: Reigns, m: Msg, i: nat)
    requires m.AppendReq? && m.args.term in R && Pre(m.log, R[m.args.term].log) && i <= |m.log|
    ensures Agreed(R, m, i)
  {
    assert R[m.args.term].log[..|m.log|][..i] == R[m.args.term].log[..i];
  }

  lemma ElectorsTerm(ids: set<Id>, X: map<Id, Node>, R: Reigns, votes: set<Vote>, seen: Seen, net: set<Msg>, t: int,
                     v: Id)
    requires VotesOk(X, votes, net) && ElectedOk(ids, R, votes, seen) && t in R && v in R[t].voters
    ensures v in X && t <= X[v].currentTerm
  {
    assert ElectorOk(t, v, R, votes, seen);
    assert VoteOk(Vote(t, v, R[t].leader, R[t].base), X, net);
  }

  /** A request that lacks its leader's prefix comes after a later leader started without that prefix, and the
      node that acknowledges it, being in no later term, did not elect any later leader. */
  lemma AppendMisled(ids: set<Id>, X: map<Id, Node>, n: Id, m: Msg, R: Reigns, choices: set<Choice>, votes: set<Vote>,
                     seen: Seen,
                     net: set<Msg>, b: Misled)
    requires n in X && m.AppendReq? && AppendReqOk(m, X, R, choices) && X[n].currentTerm <= m.args.term
    requires VotesOk(X, votes, net) && ElectedOk(ids, R, votes, seen) && b in NewMisled(R, n, m)
    ensures MisledOk(b, R)
  {
    SentReaches(m, X, R, choices);
    assert !Agreed(R, m, b.upTo) && b.upTo <= |R[b.term].log| && b.upTo <= |m.log|;
    if Pre(m.log, R[b.term].log) { FreshAgrees(R, m, b.upTo); }
    assert KeptOrMissed(m.log, b.term, R, b.upTo);
    forall t | t in R && t > b.term ensures n !in R[t].voters {
      if n in R[t].voters { ElectorsTerm(ids, X, R, votes, seen, net, t, n); }
    }
  }

  lemma AppendedMisled(ids: set<Id>, X: map<Id, Node>, n: Id, m: Msg, R: Reigns, choices: set<Choice>,
                       votes: set<Vote>, seen: Seen,
                       net: set<Msg>, misled: set<Misled>, M: set<Misled>)
    requires n in X && m.AppendReq? && AppendReqOk(m, X, R, choices) && X[n].currentTerm <= m.args.term
    requires VotesOk(X, votes, net) && ElectedOk(ids, R, votes, seen) && MisledsOk(R, misled)
    requires forall b :: b in M ==> b in misled || b in NewMisled(R, n, m)
    ensures MisledsOk(R, M)
  {
    forall b | b in M ensures MisledOk(b, R) {
      if b !in misled { AppendMisled(ids, X, n, m, R, choices, votes, seen, net, b); }
    }
  }

  /** Everything a successful request reached is counted, as held or as misled. */
  lemma AppendCounts(X: map<Id, Node>, Y: map<Id, Node>, n: Id, m: Msg, R: Reigns, choices: set<Choice>, A: set<Ack>,
                     M: set<Misled>)
    requires m.AppendReq? && AppendReqOk(m, X, R, choices) && Evolves(X, Y, R, R)
    requires NewAcks(R, n, m) <= A && NewMisled(R, n, m) <= M
    ensures CountedUpTo(LastSent(m.args.entries), m.args.term, n, Y, R, A, M)
  {
    var t, k := m.args.term, LastSent(m.args.entries);
    SentReaches(m, X, R, choices);
    forall i | 1 <= i <= k && i <= |R[t].log| ensures Counted(A, M, t, n, i) {
      if Agreed(R, m, i) {
        assert Ack(t, n, i) in NewAcks(R, n, m);
      } else {
        var b := Misled(t, n, i, R.Keys);
        assert b in NewMisled(R, n, m);
      }
    }
  }

  lemma AppendedVotes(X: map<Id, Node>, n: Id, m: Msg, R: Reigns, votes: set<Vote>, net: set<Msg>, y: Node,
                      r: AppendResult)
    requires n in X && m.AppendReq? && Appends(X[n], y, m, r) && m.args.term in R && R[m.args.term].leader != n
    requires VotesOk(X, votes, net) && RequestsOk(X, R, votes, net) && LeadersOk(X, R)
    ensures VotesOk(X[n := y], votes, net) && RequestsOk(X[n := y], R, votes, net) && LeadersOk(X[n := y], R)
  {
    var Y := X[n := y];
    forall w | w in votes ensures VoteOk(w, Y, net) { assert VoteOk(w, X, net); }
    forall k | k in net && k.VoteReq? ensures RequestOk(k, Y, R, votes) { assert RequestOk(k, X, R, votes); }
  }

  lemma AppendFacts(ids: set<Id>, X: map<Id, Node>, R: Reigns, choices: set<Choice>, net: set<Msg>,
                    n: Id, m: Msg, save: SaveOutcome, writes: nat)
    requires ConfigOk(ids, X) && ReignsOk(R) && LogsOk(X, R) && CommitsOk(X, choices) &&
             AppendReqsOk(X, R, choices, net)
    requires n in X && m in net && m.AppendReq? && m.to == n
    ensures AppendReqOk(m, X, R, choices) && Segment(m, R) && m.args.term in R && R[m.args.term].leader != n
    ensures LogOk(X[n], R) && X[n].snapIndex == 0
    ensures var (y, r) := OnAppend(X[n], m.args, save, writes);
            Appends(X[n], y, m, r) && LogOk(y, R) && Bounded(choices, y.commitIndex)
  {
    var (y, r) := OnAppend(X[n], m.args, save, writes);
    assert AppendReqOk(m, X, R, choices) && LogOk(X[n], R);
    Appended(X[n], m, save, writes, R);
    AppendedLogOk(X[n], y, m, r, R);
  }

  lemma AppendedChoices(s: Cluster, n: Id, y: Node, A: set<Ack>, M: set<Misled>)
    requires n in s.nodes && y.currentTerm >= s.nodes[n].currentTerm && s.acks <= A && s.misled <= M
    requires ChoicesOk(s.ids, s.nodes, s.reigns, s.acks, s.misled, s.choices)
    requires y.currentTerm in s.reigns && s.reigns[y.currentTerm].leader != n
    ensures ChoicesOk(s.ids, s.nodes[n := y], s.reigns, A, M, s.choices)
  {
    var Y := s.nodes[n := y];
    forall c | c in s.choices ensures Leads(c, Y, s.reigns) {
      assert ChoiceOk(c, s.ids, s.nodes, s.reigns, s.acks, s.misled);
    }
    ChoicesLater(s.ids, s.nodes, Y, s.reigns, s.reigns, s.acks, A, s.misled, M, s.choices);
  }

  lemma AppendedRest(s: Cluster, n: Id, y: Node, A: set<Ack>, M: set<Misled>)
    requires n in s.nodes && y.currentTerm >= s.nodes[n].currentTerm && s.acks <= A && s.misled <= M
    requires y.leading == s.nodes[n].leading && y.matchIndex == s.nodes[n].matchIndex
    requires AppendReqsOk(s.nodes, s.reigns, s.choices, s.net) && RepliesOk(s.nodes, s.reigns, s.acks, s.misled, s.net)
    requires MatchesOk(s.nodes, s.reigns, s.acks, s.misled) && QueriesOk(s.ids, s.nodes, s.reigns, s.queries, s.net)
    ensures var Y := s.nodes[n := y];
            && AppendReqsOk(Y, s.reigns, s.choices, s.net) && RepliesOk(Y, s.reigns, A, M, s.net)
            && MatchesOk(Y, s.reigns, A, M) && QueriesOk(s.ids, Y, s.reigns, s.queries, s.net)
  {
    var Y := s.nodes[n := y];
    assert Evolves(s.nodes, Y, s.reigns, s.reigns);
    assert MatchOk(s.nodes[n], n, s.nodes, s.reigns, s.acks, s.misled);
    AppendReqsLater(s.nodes, Y, s.reigns, s.reigns, s.choices, s.choices, s.net);
    RepliesLater(s.nodes, Y, s.reigns, s.reigns, s.acks, A, s.misled, M, s.net);
    MatchesLater(s.nodes, n, y, s.reigns, s.reigns, s.acks, A, s.misled, M);
    QueriesLater(s.ids, s.nodes, Y, s.reigns, s.reigns, s.queries, s.net);
  }

  /** The cluster once the request is handled, before the reply is sent. */
  function Installs(s: Cluster, n: Id, m: Msg, y: Node, r: AppendResult): Cluster
    requires m.AppendReq?
  {
    s.(nodes := s.nodes[n := y],
       acks := s.acks + if r.success && m.tag.None? then NewAcks(s.reigns, n, m) else {},
       misled := s.misled + if r.success && m.tag.None? then NewMisled(s.reigns, n, m) else {})
  }

  lemma AppendInstalls(s: Cluster, n: Id, m: Msg, save: SaveOutcome, writes: nat, y: Node, r: AppendResult)
    requires Inv(s) && n in s.nodes && m in s.net && m.AppendReq? && m.to == n && m.args.term >= s.nodes[n].currentTerm
    requires (y, r) == OnAppend(s.nodes[n], m.args, save, writes)
    ensures Inv(Installs(s, n, m, y, r))
  {
    var new_ := if r.success && m.tag.None? then NewAcks(s.reigns, n, m) else {};
    var A, M := s.acks + new_, Installs(s, n, m, y, r).misled;
    AppendFacts(s.ids, s.nodes, s.reigns, s.choices, s.net, n, m, save, writes);
    AppendedVotes(s.nodes, n, m, s.reigns, s.votes, s.net, y, r);
    AppendedAcks(s.nodes, n, m, save, writes, s.reigns, s.choices, s.acks, new_, y, r);
    AppendedCarry(s.nodes, n, m, s.reigns, s.seen, s.acks, A, s.votes, s.net);
    AppendedMisled(s.ids, s.nodes, n, m, s.reigns, s.choices, s.votes, s.seen, s.net, s.misled, M);
    MovedNodes(s.ids, s.nodes, n, y, s.reigns, s.choices);
    AppendedChoices(s, n, y, A, M);
    AppendedRest(s, n, y, A, M);
  }

  lemma OneMoreReply(s: Cluster, m: Msg)
    requires AppendReqsOk(s.nodes, s.reigns, s.choices, s.net) && RepliesOk(s.nodes, s.reigns, s.acks, s.misled, s.net)
    requires QueriesOk(s.ids, s.nodes, s.reigns, s.queries, s.net)
    requires m.AppendResp? && ReplyOk(m, s.nodes, s.reigns, s.acks, s.misled) && m.from in s.ids
    requires m.tag.Some? ==> m.tag.value in s.queries && s.nodes[m.from].currentTerm <= m.result.term
    ensures var net := s.net + {m};
            && AppendReqsOk(s.nodes, s.reigns, s.choices, net) && RepliesOk(s.nodes, s.reigns, s.acks, s.misled, net)
            && QueriesOk(s.ids, s.nodes, s.reigns, s.queries, net)
  {
    var net := s.net + {m};
    forall k | k in net && k.AppendReq? ensures AppendReqOk(k, s.nodes, s.reigns, s.choices) { assert k in s.net; }
    forall k | k in net && k.AppendResp? ensures ReplyOk(k, s.nodes, s.reigns, s.acks, s.misled) {
      if k != m { assert k in s.net; }
    }
    if m.tag.Some? { assert QueryOk(s.ids, s.nodes, s.queries[m.tag.value]); }
  }

  lemma Replied(s: Cluster, m: Msg)
    requires Inv(s) && m.AppendResp? && ReplyOk(m, s.nodes, s.reigns, s.acks, s.misled)
    requires m.tag.Some? ==> m.tag.value in s.queries && s.nodes[m.from].currentTerm <= m.result.term
    ensures Inv(Send(s, m))
  {
    ReplicationMessage(s, m);
    OneMoreReply(s, m);
  }

  lemma AnswerOk(s: Cluster, t: Cluster, n: Id, m: Msg, y: Node, r: AppendResult)
    requires n in s.nodes && m in s.net && m.AppendReq? && AppendReqOk(m, s.nodes, s.reigns, s.choices)
    requires t == Installs(s, n, m, y, r) && y.currentTerm >= s.nodes[n].currentTerm
    ensures ReplyOk(Answer(n, m, r), t.nodes, t.reigns, t.acks, t.misled)
  {
    if r.success && m.tag.None? {
      AppendCounts(s.nodes, t.nodes, n, m, s.reigns, s.choices, t.acks, t.misled);
    }
  }

  lemma AnswerTag(s: Cluster, n: Id, m: Msg, save: SaveOutcome, writes: nat)
    requires n in s.nodes && m in s.net && m.AppendReq? && QueriesOk(s.ids, s.nodes, s.reigns, s.queries, s.net)
    requires m.args.term >= s.nodes[n].currentTerm
    ensures m.tag.Some? ==> m.tag.value in s.queries
    ensures var (y, r) := OnAppend(s.nodes[n], m.args, save, writes); y.currentTerm == r.term == m.args.term
  {}

  lemma AppendAnswered(s: Cluster, n: Id, m: Msg, save: SaveOutcome, writes: nat, y: Node, r: AppendResult)
    requires Inv(s) && n in s.nodes && m in s.net && m.AppendReq? && m.to == n && m.args.term >= s.nodes[n].currentTerm
    requires (y, r) == OnAppend(s.nodes[n], m.args, save, writes)
    ensures Inv(Send(Installs(s, n, m, y, r), Answer(n, m, r)))
  {
    AppendInstalls(s, n, m, save, writes, y, r);
    AnswerTag(s, n, m, save, writes);
    AnswerOk(s, Installs(s, n, m, y, r), n, m, y, r);
    Replied(Installs(s, n, m, y, r), Answer(n, m, r));
  }

  lemma StaleAnswered(s: Cluster, n: Id, m: Msg, r: AppendResult)
    requires Inv(s) && n in s.nodes && m in s.net && m.AppendReq? && m.to == n && !r.success &&
             r.term == s.nodes[n].currentTerm
    ensures Inv(Send(s, Answer(n, m, r)))
  {
    assert AppendReqOk(m, s.nodes, s.reigns, s.choices);
    Replied(s, Answer(n, m, r));
  }

  function Answer(n: Id, m: Msg, r: AppendResult): Msg
    requires m.AppendReq?
  {
    AppendResp(n, m.args.leader, m.args.term, |m.log|, LastSent(m.args.entries), m.tag, r)
  }

  lemma AppendShape(s: Cluster, n: Id, m: Msg, save: SaveOutcome, writes: nat)
    requires n in s.nodes && m.AppendReq?
    ensures var (y, r) := OnAppend(s.nodes[n], m.args, save, writes);
            DoAppend(s, n, m, save, writes) == Send(Installs(s, n, m, y, r), Answer(n, m, r))
    ensures var (y, r) := OnAppend(s.nodes[n], m.args, save, writes);
            m.args.term < s.nodes[n].currentTerm ==>
              !r.success && r.term == s.nodes[n].currentTerm &&
                  DoAppend(s, n, m, save, writes) == Send(s, Answer(n, m, r))
  {
    var (y, r) := OnAppend(s.nodes[n], m.args, save, writes);
    if m.args.term < s.nodes[n].currentTerm {
      assert s.nodes[n := y] == s.nodes && s.acks + {} == s.acks && s.misled + {} == s.misled;
    }
  }

  lemma AppendKeeps(s: Cluster, n: Id, m: Msg, save: SaveOutcome, writes: nat)
    requires Inv(s) && Enabled(s, HandleAppend(n, m, save, writes))
    ensures Inv(Do(s, HandleAppend(n, m, save, writes)))
  {
    var (y, r) := OnAppend(s.nodes[n], m.args, save, writes);
    AppendShape(s, n, m, save, writes);
    if m.args.term < s.nodes[n].currentTerm {
      StaleAnswered(s, n, m, r);
    } else {
      AppendAnswered(s, n, m, save, writes, y, r);
    }
  }

  // ---- A leader, present or past, handles a reply ----

  lemma {:induction false} AdvanceFacts(x: Node, term: int, top: int)
    ensures var y := AdvanceCommit(x, term, top);
            && y == x.(commitIndex := y.commitIndex) && y.commitIndex >= x.commitIndex
            && (y.commitIndex > x.commitIndex ==>
                  && Locate(x.log, y.commitIndex) >= 0 && x.log[Locate(x.log, y.commitIndex)].term == term
                  && Passes(x.cfg, x.Acked(y.commitIndex)))
    decreases top - x.commitIndex
  {
    if top > x.commitIndex {
      var p := Locate(x.log, top);
      if !(p >= 0 && x.log[p].term == term && Passes(x.cfg, x.Acked(top))) {
        AdvanceFacts(x, term, top - 1);
      }
    }
  }

  /** The node may commit k under the term of its leader loop. */
  predicate MayCommit(x: Node, k: int) {
    x.leading != 0 && x.commitIndex < k && 1 <= k <= |x.log| && x.log[k - 1].term == x.leading &&
        Passes(x.cfg, x.Acked(k))
  }

  /** The peers counted by matchIndex, and the node itself, were counted for that prefix. */
  lemma CountedPeers(ids: set<Id>, X: map<Id, Node>, n: Id, R: Reigns, acks: set<Ack>, misled: set<Misled>, k: int)
    requires n in X && ConfigOk(ids, X) && MatchOk(X[n], n, X, R, acks, misled) && AcksOk(X, R, acks) &&
             MayCommit(X[n], k)
    requires k <= |R[X[n].leading].log|
    ensures Majority(ids, Counters(ids, acks, misled, X[n].leading, k))
  {
    var x := X[n];
    var q := Counters(ids, acks, misled, x.leading, k);
    CountedMajority(ids, n, x.cfg.voters, x.Acked(k));
    forall v | v in x.Acked(k) + {n} ensures v in q {
      if v != n {
        assert CountedUpTo(x.matchIndex[v], x.leading, v, X, R, acks, misled);
      } else {
        assert Ack(x.leading, R[x.leading].leader, k) in acks;
      }
      assert Counted(acks, misled, x.leading, v, k);
    }
    MajorityGrows(ids, x.Acked(k) + {n}, q);
  }

  lemma NewChoice(ids: set<Id>, X: map<Id, Node>, n: Id, R: Reigns, acks: set<Ack>, misled: set<Misled>, k: int)
    requires n in X && ConfigOk(ids, X) && LogsOk(X, R) && MatchesOk(X, R, acks, misled) && AcksOk(X, R, acks)
    requires MayCommit(X[n], k)
    ensures ChoiceOk(Choice(X[n].leading, k), ids, X[n := X[n].(commitIndex := k)], R, acks, misled)
    ensures X[n].log[..k] == R[X[n].leading].log[..k]
  {
    var x := X[n];
    assert LogOk(x, R) && MatchOk(x, n, X, R, acks, misled);
    assert SoundAt(x.log, R, k - 1);
    CountedPeers(ids, X, n, R, acks, misled, k);
  }

  lemma CommitNodes(ids: set<Id>, X: map<Id, Node>, n: Id, R: Reigns, choices: set<Choice>, c: Choice)
    requires n in X && ConfigOk(ids, X) && LogsOk(X, R) && CommitsOk(X, choices) && c.upTo >= 1
    ensures var Y := X[n := X[n].(commitIndex := c.upTo)];
            ConfigOk(ids, Y) && LogsOk(Y, R) && CommitsOk(Y, choices + {c})
  {
    var C := choices + {c};
    forall v | v in X ensures Bounded(C, X[v].commitIndex) { BoundedLater(choices, C, X[v].commitIndex); }
    assert Bounded(C, c.upTo) by { assert c in C; }
    assert LogOk(X[n], R);
    MovedNodes(ids, X, n, X[n].(commitIndex := c.upTo), R, C);
  }

  lemma CommitChoices(ids: set<Id>, X: map<Id, Node>, n: Id, R: Reigns, acks: set<Ack>, misled: set<Misled>,
                      choices: set<Choice>,
                      k: int)
    requires n in X && LeadersOk(X, R) && ChoicesOk(ids, X, R, acks, misled, choices) && k >= X[n].commitIndex
    requires ChoiceOk(Choice(X[n].leading, k), ids, X[n := X[n].(commitIndex := k)], R, acks, misled)
    ensures ChoicesOk(ids, X[n := X[n].(commitIndex := k)], R, acks, misled, choices + {Choice(X[n].leading, k)})
  {
    MovedChoices(ids, X, n, X[n].(commitIndex := k), R, acks, misled, choices);
  }

  lemma UnmovedRest(s: Cluster, n: Id, k: int)
    requires n in s.nodes
    requires VotesOk(s.nodes, s.votes, s.net) && RequestsOk(s.nodes, s.reigns, s.votes, s.net) &&
             LeadersOk(s.nodes, s.reigns)
    ensures var Y := s.nodes[n := s.nodes[n].(commitIndex := k)];
            VotesOk(Y, s.votes, s.net) && RequestsOk(Y, s.reigns, s.votes, s.net) && LeadersOk(Y, s.reigns)
  {
    var Y := s.nodes[n := s.nodes[n].(commitIndex := k)];
    forall w | w in s.votes ensures VoteOk(w, Y, s.net) { assert VoteOk(w, s.nodes, s.net); }
    forall m | m in s.net && m.VoteReq? ensures RequestOk(m, Y, s.reigns, s.votes) {
      assert RequestOk(m, s.nodes, s.reigns, s.votes);
    }
  }

  lemma CommittedRest(s: Cluster, n: Id, y: Node, c: Choice)
    requires n in s.nodes && y == s.nodes[n].(commitIndex := y.commitIndex)
    requires AppendReqsOk(s.nodes, s.reigns, s.choices, s.net) && RepliesOk(s.nodes, s.reigns, s.acks, s.misled, s.net)
    requires MatchesOk(s.nodes, s.reigns, s.acks, s.misled) && QueriesOk(s.ids, s.nodes, s.reigns, s.queries, s.net)
    ensures var Y := s.nodes[n := y];
            && AppendReqsOk(Y, s.reigns, s.choices + {c}, s.net) && RepliesOk(Y, s.reigns, s.acks, s.misled, s.net)
            && MatchesOk(Y, s.reigns, s.acks, s.misled) && QueriesOk(s.ids, Y, s.reigns, s.queries, s.net)
  {
    assert MatchOk(s.nodes[n], n, s.nodes, s.reigns, s.acks, s.misled);
    MovedRest(s, n, y);
    AppendReqsLater(s.nodes, s.nodes[n := y], s.reigns, s.reigns, s.choices, s.choices + {c}, s.net);
  }

  lemma Committed(s: Cluster, n: Id, k: int)
    requires Inv(s) && n in s.nodes && MayCommit(s.nodes[n], k)
    ensures Inv(s.(nodes := s.nodes[n := s.nodes[n].(commitIndex := k)],
                   choices := s.choices + {Choice(s.nodes[n].leading, k)}))
  {
    var y, c := s.nodes[n].(commitIndex := k), Choice(s.nodes[n].leading, k);
    NewChoice(s.ids, s.nodes, n, s.reigns, s.acks, s.misled, k);
    CommitNodes(s.ids, s.nodes, n, s.reigns, s.choices, c);
    CommitChoices(s.ids, s.nodes, n, s.reigns, s.acks, s.misled, s.choices, k);
    UnmovedRest(s, n, k);
    MovedAcks(s.nodes, n, y, s.reigns, s.acks);
    CommittedRest(s, n, y, c);
  }

  /** The acknowledgement recorded, before the commit index is looked at. */
  function Noted(x: Node, peer: Id, lastSent: int): Node {
    var v := if lastSent > Get(x.matchIndex, peer) then lastSent else Get(x.matchIndex, peer);
    x.(matchIndex := x.matchIndex[peer := v], nextIndex := x.nextIndex[peer := v + 1])
  }

  lemma NotedFacts(X: map<Id, Node>, n: Id, R: Reigns, acks: set<Ack>, misled: set<Misled>, net: set<Msg>, m: Msg)
    requires n in X && MatchesOk(X, R, acks, misled) && RepliesOk(X, R, acks, misled, net)
    requires m in net && m.AppendResp? && m.tag.None? && m.result.success && m.term == X[n].leading
    ensures var y := Noted(X[n], m.from, m.lastSent); Moves(X[n], y) && MatchOk(y, n, X, R, acks, misled)
  {
    var x, y := X[n], Noted(X[n], m.from, m.lastSent);
    assert MatchOk(x, n, X, R, acks, misled) && ReplyOk(m, X, R, acks, misled);
    if x.leading != 0 {
      forall p | p in y.matchIndex ensures CountedUpTo(y.matchIndex[p], y.leading, p, X, R, acks, misled) {
        if p != m.from { assert CountedUpTo(x.matchIndex[p], x.leading, p, X, R, acks, misled); }
      }
    }
  }

  lemma ReplyKeepsQuietly(X: map<Id, Node>, n: Id, R: Reigns, acks: set<Ack>, misled: set<Misled>, net: set<Msg>,
                          m: Msg)
    requires n in X && ReignsOk(R) && LeadersOk(X, R) && RepliesOk(X, R, acks, misled, net)
    requires m in net && m.AppendResp? && m.term == X[n].leading && (m.result.term > m.term || !m.result.success)
    ensures var y := OnAppendReply(X[n], m.from, m.term, m.top, m.lastSent, m.result);
            Moves(X[n], y) && y.leading == X[n].leading && y.matchIndex == X[n].matchIndex
  {
    assert ReplyOk(m, X, R, acks, misled) && ReignOk(m.term, R[m.term]);
  }

  lemma {:induction false} Advances(X: map<Id, Node>, n: Id, R: Reigns, top: int, y: Node)
    requires n in X && LogsOk(X, R) && X[n].leading != 0 && X[n].commitIndex >= 0 &&
             y == AdvanceCommit(X[n], X[n].leading, top)
    ensures y == X[n].(commitIndex := y.commitIndex) && y.commitIndex >= X[n].commitIndex
    ensures y.commitIndex > X[n].commitIndex ==> MayCommit(X[n], y.commitIndex)
  {
    AdvanceFacts(X[n], X[n].leading, top);
    assert LogOk(X[n], R);
    FindConsecutive(X[n].log, 0, y.commitIndex);
  }

  lemma AdvanceKeeps(s: Cluster, n: Id, top: int)
    requires Inv(s) && n in s.nodes && s.nodes[n].leading != 0
    ensures Inv(DoAdvance(s, n, s.nodes[n].leading, top))
  {
    var y := AdvanceCommit(s.nodes[n], s.nodes[n].leading, top);
    Advances(s.nodes, n, s.reigns, top, y);
    if y.commitIndex > s.nodes[n].commitIndex {
      Committed(s, n, y.commitIndex);
    } else {
      assert s.nodes[n := y] == s.nodes && s.choices + {} == s.choices;
    }
  }

  /** The commit of a node without peers. */
  lemma CommitAloneKeeps(s: Cluster, n: Id)
    requires Inv(s) && Enabled(s, CommitAlone(n))
    ensures Inv(Do(s, CommitAlone(n)))
  {
    assert ReignOk(s.nodes[n].currentTerm, s.reigns[s.nodes[n].currentTerm]);
    AdvanceKeeps(s, n, s.nodes[n].LastIndex());
  }

  lemma ReplyShape(s: Cluster, n: Id, m: Msg)
    requires n in s.nodes && m.AppendResp?
    ensures var y := OnAppendReply(s.nodes[n], m.from, m.term, m.top, m.lastSent, m.result);
            var z := Noted(s.nodes[n], m.from, m.lastSent);
            if m.result.term > m.term || !m.result.success then DoReply(s, n, m) == Put(s, n, y)
            else y == AdvanceCommit(z, m.term, m.top) && DoReply(s, n, m) == DoAdvance(Put(s, n, z), n, m.term, m.top)
  {
    assert s.choices + {} == s.choices;
    var y := OnAppendReply(s.nodes[n], m.from, m.term, m.top, m.lastSent, m.result);
    var z := Noted(s.nodes[n], m.from, m.lastSent);
    assert s.nodes[n := z][n := y] == s.nodes[n := y];
  }

  lemma ReplyKeeps(s: Cluster, n: Id, m: Msg)
    requires Inv(s) && Enabled(s, HandleReply(n, m))
    ensures Inv(Do(s, HandleReply(n, m)))
  {
    ReplyShape(s, n, m);
    if m.result.term > m.term || !m.result.success {
      ReplyKeepsQuietly(s.nodes, n, s.reigns, s.acks, s.misled, s.net, m);
      MovedQuietly(s, n, OnAppendReply(s.nodes[n], m.from, m.term, m.top, m.lastSent, m.result));
    } else {
      var z := Noted(s.nodes[n], m.from, m.lastSent);
      assert m.term != 0 by {
        assert ReplyOk(m, s.nodes, s.reigns, s.acks, s.misled) && ReignOk(m.term, s.reigns[m.term]);
      }
      NotedFacts(s.nodes, n, s.reigns, s.acks, s.misled, s.net, m);
      Moved(s, n, z);
      AdvanceKeeps(Put(s, n, z), n, m.top);
    }
  }

  // ---- ReadIndex ----

  /** What was committed by counting, in the leader's term or an earlier one, is at most the leader's commit
      index, once that covers the log the leader started with. */
  lemma ChoiceBelow(s: Cluster, t: int, c: Choice)
    requires OrdersOk(s.reigns) && ElectedOk(s.ids, s.reigns, s.votes, s.seen)
    requires VotesCarry(s.reigns, s.seen, s.acks, s.votes) && MisledsOk(s.reigns, s.misled)
    requires ChoiceOk(c, s.ids, s.nodes, s.reigns, s.acks, s.misled) && c.term <= t && t in s.reigns
    requires s.reigns[t].leader in s.nodes && s.nodes[s.reigns[t].leader].currentTerm == t
    requires s.nodes[s.reigns[t].leader].commitIndex >= |s.reigns[t].base|
    ensures c.upTo <= s.nodes[s.reigns[t].leader].commitIndex
  {
    if c.term < t {
      LeaderCompleteness(s.ids, s.nodes, s.reigns, s.seen, s.acks, s.misled, s.votes, c, t);
    }
  }

  /** A settled leader has committed the log it started with. */
  lemma SettledCoversBase(x: Node, t: int, r: Reign)
    requires Settled(x) && x.currentTerm == t && x.log == r.log && ReignOk(t, r) && x.commitIndex >= 0
    ensures x.commitIndex >= |r.base|
  {
    if |r.base| > 0 { assert x.log[|r.base| - 1].term != t; }
  }

  /** A settled leader, while a majority has moved to no later term, knows every commit index in the cluster. */
  lemma ReadFloor(s: Cluster, n: Id, v: Id)
    requires ReignsOk(s.reigns) && OrdersOk(s.reigns) && ElectedOk(s.ids, s.reigns, s.votes, s.seen)
    requires VotesCarry(s.reigns, s.seen, s.acks, s.votes) && MisledsOk(s.reigns, s.misled)
    requires ChoicesOk(s.ids, s.nodes, s.reigns, s.acks, s.misled, s.choices) && CommitsOk(s.nodes, s.choices)
    requires VotesOk(s.nodes, s.votes, s.net) && LeadersOk(s.nodes, s.reigns) && s.ids == s.nodes.Keys
    requires n in s.nodes && v in s.nodes && s.nodes[n].role == Leader && Settled(s.nodes[n])
    requires Majority(s.ids, AtMost(TermsOf(s.nodes), s.nodes[n].currentTerm))
    ensures s.nodes[v].commitIndex <= s.nodes[n].commitIndex
  {
    var t := s.nodes[n].currentTerm;
    assert Bounded(s.choices, s.nodes[v].commitIndex) && Bounded(s.choices, s.nodes[n].commitIndex);
    assert ReignOk(t, s.reigns[t]);
    SettledCoversBase(s.nodes[n], t, s.reigns[t]);
    if s.nodes[v].commitIndex > 0 {
      var c :| c in s.choices && s.nodes[v].commitIndex <= c.upTo;
      assert ChoiceOk(c, s.ids, s.nodes, s.reigns, s.acks, s.misled);
      NoLaterReign(s, t, c.term);
      ChoiceBelow(s, t, c);
    }
  }

  lemma NoLaterReign(s: Cluster, t: int, u: int)
    requires ElectedOk(s.ids, s.reigns, s.votes, s.seen) && VotesOk(s.nodes, s.votes, s.net) &&
             s.ids == s.nodes.Keys && u in s.reigns
    requires Majority(s.ids, AtMost(TermsOf(s.nodes), t))
    ensures u <= t
  {
    var q := AtMost(TermsOf(s.nodes), t);
    MajoritiesMeet(s.ids, s.reigns[u].voters, q);
    var v :| v in s.reigns[u].voters && v in q;
    ElectorsTerm(s.ids, s.nodes, s.reigns, s.votes, s.seen, s.net, u, v);
  }

  lemma NewQuery(s: Cluster, n: Id, read: nat)
    requires Inv(s) && Enabled(s, BeginRead(n, read))
    ensures var q := DoBeginRead(s, n, read).queries[read];
            QueryOk(s.ids, s.nodes, q) && q.term in s.reigns && s.reigns[q.term].leader == q.leader
  {
    var q := DoBeginRead(s, n, read).queries[read];
    if q.settled && Majority(s.ids, AtMost(q.terms, q.term)) {
      forall v | v in s.ids ensures q.commits[v] <= q.index { ReadFloor(s, n, v); }
    }
  }

  lemma QueriesWith(s: Cluster, read: nat, q: Read)
    requires QueriesOk(s.ids, s.nodes, s.reigns, s.queries, s.net)
    requires QueryOk(s.ids, s.nodes, q) && q.term in s.reigns && s.reigns[q.term].leader == q.leader
    requires read in s.queries ==> q.terms == s.queries[read].terms
    ensures QueriesOk(s.ids, s.nodes, s.reigns, s.queries[read := q], s.net)
  {
    var Q := s.queries[read := q];
    forall i | i in Q
      ensures QueryOk(s.ids, s.nodes, Q[i]) && Q[i].term in s.reigns && s.reigns[Q[i].term].leader == Q[i].leader
    {
      if i != read { assert QueryOk(s.ids, s.nodes, s.queries[i]); }
    }
  }

  lemma BeginReadKeeps(s: Cluster, n: Id, read: nat)
    requires Inv(s) && Enabled(s, BeginRead(n, read))
    ensures Inv(Do(s, BeginRead(n, read)))
  {
    NewQuery(s, n, read);
    QueriesWith(s, read, DoBeginRead(s, n, read).queries[read]);
  }

  lemma ConfirmedQuery(s: Cluster, m: Msg, q: Read)
    requires QueriesOk(s.ids, s.nodes, s.reigns, s.queries, s.net) && Enabled(s, ConfirmRead(m))
    requires q == s.queries[m.tag.value].(confirmed := s.queries[m.tag.value].confirmed + {m.from})
    ensures QueryOk(s.ids, s.nodes, q) && q.term in s.reigns && s.reigns[q.term].leader == q.leader
  {
    assert QueryOk(s.ids, s.nodes, s.queries[m.tag.value]);
  }

  lemma ConfirmKeeps(s: Cluster, m: Msg)
    requires Inv(s) && Enabled(s, ConfirmRead(m))
    ensures Inv(Do(s, ConfirmRead(m)))
  {
    var q := DoConfirm(s, m).queries[m.tag.value];
    ConfirmedQuery(s, m, q);
    QueriesWith(s, m.tag.value, q);
  }
}
