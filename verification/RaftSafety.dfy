/** The voting and proposing steps keep the invariant. */
module RaftSafety {
  import opened Bytes
  import opened Quorum
  import opened RaftLog
  import opened RaftNode
  import opened RaftCluster
  import opened RaftInvariant

  // ---- What any step leaves true ----

  /** Terms of nodes only rise, reigns only grow, and only a leader of its own term extends its log. */
  predicate Evolves(X: map<Id, Node>, Y: map<Id, Node>, R: Reigns, Q: Reigns) {
    && X.Keys == Y.Keys && Extends(R, Q)
    && (forall n :: n in X ==> Y[n].currentTerm >= X[n].currentTerm)
    && (forall t :: t in R && Q[t].log != R[t].log ==> R[t].leader in X && X[R[t].leader].currentTerm <= t)
  }

  lemma SamePrefix(R: Reigns, Q: Reigns, a: Ack)
    requires Extends(R, Q) && a.term in R && 1 <= a.upTo <= |R[a.term].log|
    ensures a.upTo <= |Q[a.term].log| && Prefix(Q, a) == Prefix(R, a)
    ensures Q[a.term].log[a.upTo - 1] == R[a.term].log[a.upTo - 1]
  {
    var l, k := R[a.term].log, Q[a.term].log;
    assert k[..|l|] == l;
    assert k[..a.upTo] == k[..|l|][..a.upTo];
  }

  lemma MissedGrows(R: Reigns, Q: Reigns, S: set<int>, T: set<int>, p: Log, lo: int)
    requires Extends(R, Q) && S <= T && Missed(R, S, p, lo)
    ensures Missed(Q, T, p, lo)
  {
    var t :| t in S && t in R && lo < t && !Pre(p, R[t].base);
    assert t in T && t in Q && Q[t].base == R[t].base;
  }

  lemma CountedLater(k: int, t: int, v: Id, X: map<Id, Node>, Y: map<Id, Node>, R: Reigns, Q: Reigns,
                     acks: set<Ack>, A: set<Ack>, misled: set<Misled>, M: set<Misled>)
    requires Evolves(X, Y, R, Q) && acks <= A && misled <= M && CountedUpTo(k, t, v, X, R, acks, misled)
    ensures CountedUpTo(k, t, v, Y, Q, A, M)
  {
    forall i | 1 <= i <= k && i <= |Q[t].log| ensures Counted(A, M, t, v, i) {
      assert i <= |R[t].log|;
      assert Counted(acks, misled, t, v, i);
    }
  }

  lemma RepliesLater(X: map<Id, Node>, Y: map<Id, Node>, R: Reigns, Q: Reigns, acks: set<Ack>, A: set<Ack>,
                     misled: set<Misled>, M: set<Misled>, net: set<Msg>)
    requires Evolves(X, Y, R, Q) && acks <= A && misled <= M && RepliesOk(X, R, acks, misled, net)
    ensures RepliesOk(Y, Q, A, M, net)
  {
    forall m | m in net && m.AppendResp? ensures ReplyOk(m, Y, Q, A, M) {
      assert ReplyOk(m, X, R, acks, misled);
      if m.tag.None? && m.result.success { CountedLater(m.lastSent, m.term, m.from, X, Y, R, Q, acks, A, misled, M); }
    }
  }

  lemma MatchLater(x: Node, n: Id, X: map<Id, Node>, Y: map<Id, Node>, R: Reigns, Q: Reigns, acks: set<Ack>,
                   A: set<Ack>,
                   misled: set<Misled>, M: set<Misled>)
    requires Evolves(X, Y, R, Q) && acks <= A && misled <= M && MatchOk(x, n, X, R, acks, misled)
    ensures MatchOk(x, n, Y, Q, A, M)
  {
    if x.leading != 0 {
      forall p | p in x.matchIndex ensures CountedUpTo(x.matchIndex[p], x.leading, p, Y, Q, A, M) {
        CountedLater(x.matchIndex[p], x.leading, p, X, Y, R, Q, acks, A, misled, M);
      }
    }
  }

  lemma MatchesLater(X: map<Id, Node>, n: Id, y: Node, R: Reigns, Q: Reigns, acks: set<Ack>, A: set<Ack>,
                     misled: set<Misled>, M: set<Misled>)
    requires n in X && Evolves(X, X[n := y], R, Q) && acks <= A && misled <= M
    requires MatchesOk(X, R, acks, misled) && MatchOk(y, n, X, R, acks, misled)
    ensures MatchesOk(X[n := y], Q, A, M)
  {
    var Y := X[n := y];
    forall k | k in Y ensures MatchOk(Y[k], k, Y, Q, A, M) {
      assert MatchOk(X[k], k, X, R, acks, misled);
      MatchLater(Y[k], k, X, Y, R, Q, acks, A, misled, M);
    }
  }

  lemma StaleLater(log: Log, t: int, X: map<Id, Node>, Y: map<Id, Node>, R: Reigns, Q: Reigns)
    requires Evolves(X, Y, R, Q) && t in R && StaleOk(log, t, X, R)
    ensures StaleOk(log, t, Y, Q)
  {
    assert Q[t].log == R[t].log;
    assert R.Keys <= Q.Keys by { forall u | u in R.Keys ensures u in Q.Keys { assert u in R; } }
    forall i | 1 <= i <= |Q[t].log| ensures KeptOrMissed(log, t, Q, i) {
      assert KeptOrMissed(log, t, R, i);
      if !Pre(R[t].log[..i], log) { MissedGrows(R, Q, R.Keys, Q.Keys, R[t].log[..i], t); }
    }
  }

  lemma AppendReqsLater(X: map<Id, Node>, Y: map<Id, Node>, R: Reigns, Q: Reigns, choices: set<Choice>, C: set<Choice>,
                        net: set<Msg>)
    requires Evolves(X, Y, R, Q) && choices <= C && AppendReqsOk(X, R, choices, net)
    ensures AppendReqsOk(Y, Q, C, net)
  {
    forall m | m in net && m.AppendReq? ensures AppendReqOk(m, Y, Q, C) {
      assert AppendReqOk(m, X, R, choices);
      SoundExtends(m.log, R, Q);
      BoundedLater(choices, C, m.args.leaderCommit);
      if m.args.entries != [] {
        if Pre(m.log, R[m.args.term].log) {
          PreTrans(m.log, R[m.args.term].log, Q[m.args.term].log);
        } else {
          StaleLater(m.log, m.args.term, X, Y, R, Q);
        }
      }
    }
  }

  lemma BoundedLater(choices: set<Choice>, C: set<Choice>, k: int)
    requires choices <= C && Bounded(choices, k)
    ensures Bounded(C, k)
  {
    if k > 0 {
      var c :| c in choices && k <= c.upTo;
      assert c in C;
    }
  }

  lemma QueriesLater(ids: set<Id>, X: map<Id, Node>, Y: map<Id, Node>, R: Reigns, S: Reigns, Q: map<nat, Read>,
                     net: set<Msg>)
    requires Evolves(X, Y, R, S) && QueriesOk(ids, X, R, Q, net)
    ensures QueriesOk(ids, Y, S, Q, net)
  {
    forall i | i in Q ensures QueryOk(ids, Y, Q[i]) && Q[i].term in S && S[Q[i].term].leader == Q[i].leader {
      assert QueryOk(ids, X, Q[i]);
    }
  }

  /** While a leader is in its term, its commit index is at least what it committed by counting. */
  predicate Leads(c: Choice, Y: map<Id, Node>, R: Reigns) {
    c.term in R && R[c.term].leader in Y &&
    (Y[R[c.term].leader].currentTerm == c.term ==> Y[R[c.term].leader].commitIndex >= c.upTo)
  }

  lemma ChoicesLater(ids: set<Id>, X: map<Id, Node>, Y: map<Id, Node>, R: Reigns, Q: Reigns, acks: set<Ack>,
                     A: set<Ack>,
                     misled: set<Misled>, M: set<Misled>, choices: set<Choice>)
    requires Evolves(X, Y, R, Q) && acks <= A && misled <= M && ChoicesOk(ids, X, R, acks, misled, choices)
    requires forall c {:trigger Leads(c, Y, R)} :: c in choices ==> Leads(c, Y, R)
    ensures ChoicesOk(ids, Y, Q, A, M, choices)
  {
    forall c | c in choices ensures ChoiceOk(c, ids, Y, Q, A, M) {
      assert ChoiceOk(c, ids, X, R, acks, misled) && Leads(c, Y, R);
      SamePrefix(R, Q, Ack(c.term, "", c.upTo));
      MoreCounters(ids, acks, A, misled, M, c.term, c.upTo);
    }
  }

  lemma MoreCounters(ids: set<Id>, acks: set<Ack>, A: set<Ack>, misled: set<Misled>, M: set<Misled>, term: int,
                     upTo: int)
    requires acks <= A && misled <= M && Majority(ids, Counters(ids, acks, misled, term, upTo))
    ensures Majority(ids, Counters(ids, A, M, term, upTo))
  {
    MajorityGrows(ids, Counters(ids, acks, misled, term, upTo), Counters(ids, A, M, term, upTo));
  }

  // ---- Steps that leave the log and the commit index of a node alone ----

  /** What such a step may do to the node: its term never falls, within a term its vote is kept and
      a leader stays one. */
  predicate Moves(x: Node, y: Node) {
    && y.id == x.id && y.cfg == x.cfg && y.snapIndex == x.snapIndex && y.snapTerm == x.snapTerm
    && y.log == x.log && y.commitIndex == x.commitIndex
    && y.currentTerm >= x.currentTerm
    && (y.currentTerm == x.currentTerm ==>
          (y.votedFor == x.votedFor || x.votedFor == NOBODY) && (y.role == Leader <==> x.role == Leader))
    && (y.currentTerm > x.currentTerm ==> y.role != Leader)
    && (y.leading == x.leading || y.leading == 0 || (x.role == Leader && y.leading == y.currentTerm == x.currentTerm))
  }

  lemma MovedVotes(X: map<Id, Node>, n: Id, y: Node, R: Reigns, votes: set<Vote>, net: set<Msg>)
    requires n in X && Moves(X[n], y) && NOBODY !in X
    requires VotesOk(X, votes, net) && RequestsOk(X, R, votes, net) && LeadersOk(X, R)
    ensures VotesOk(X[n := y], votes, net) && RequestsOk(X[n := y], R, votes, net) && LeadersOk(X[n := y], R)
  {
    var Y := X[n := y];
    forall w | w in votes ensures VoteOk(w, Y, net) { assert VoteOk(w, X, net); }
    forall m | m in net && m.VoteReq? ensures RequestOk(m, Y, R, votes) { assert RequestOk(m, X, R, votes); }
  }

  lemma MovedAcks(X: map<Id, Node>, n: Id, y: Node, R: Reigns, acks: set<Ack>)
    requires n in X && y.log == X[n].log && y.currentTerm >= X[n].currentTerm && AcksOk(X, R, acks) &&
             Retained(X, R, acks)
    ensures AcksOk(X[n := y], R, acks) && Retained(X[n := y], R, acks)
  {
    var Y := X[n := y];
    forall a | a in acks ensures AckOk(a, Y, R) { assert AckOk(a, X, R); }
    forall a | a in acks && a.node in Y ensures RetainedBy(Y[a.node], R, a) { assert RetainedBy(X[a.node], R, a); }
  }

  lemma MovedNodes(ids: set<Id>, X: map<Id, Node>, n: Id, y: Node, R: Reigns, choices: set<Choice>)
    requires n in X && y.id == X[n].id && y.cfg == X[n].cfg && y.snapIndex == X[n].snapIndex &&
             y.snapTerm == X[n].snapTerm
    requires LogOk(y, R) && Bounded(choices, y.commitIndex)
    requires ConfigOk(ids, X) && LogsOk(X, R) && CommitsOk(X, choices)
    ensures var Y := X[n := y]; ConfigOk(ids, Y) && LogsOk(Y, R) && CommitsOk(Y, choices)
  {
    var Y := X[n := y];
    forall k | k in Y ensures LogOk(Y[k], R) {
      if k != n { assert LogOk(X[k], R); }
    }
  }

  /** Replies, requests, matches, choices and queries survive a step of one node that keeps the reigns. */
  lemma MovedRest(s: Cluster, n: Id, y: Node)
    requires n in s.nodes && y.currentTerm >= s.nodes[n].currentTerm
    requires AppendReqsOk(s.nodes, s.reigns, s.choices, s.net) && RepliesOk(s.nodes, s.reigns, s.acks, s.misled, s.net)
    requires MatchesOk(s.nodes, s.reigns, s.acks, s.misled) && MatchOk(y, n, s.nodes, s.reigns, s.acks, s.misled)
    requires QueriesOk(s.ids, s.nodes, s.reigns, s.queries, s.net)
    ensures var Y := s.nodes[n := y];
            && AppendReqsOk(Y, s.reigns, s.choices, s.net) && RepliesOk(Y, s.reigns, s.acks, s.misled, s.net)
            && MatchesOk(Y, s.reigns, s.acks, s.misled) && QueriesOk(s.ids, Y, s.reigns, s.queries, s.net)
  {
    var Y := s.nodes[n := y];
    assert Evolves(s.nodes, Y, s.reigns, s.reigns);
    AppendReqsLater(s.nodes, Y, s.reigns, s.reigns, s.choices, s.choices, s.net);
    RepliesLater(s.nodes, Y, s.reigns, s.reigns, s.acks, s.acks, s.misled, s.misled, s.net);
    MatchesLater(s.nodes, n, y, s.reigns, s.reigns, s.acks, s.acks, s.misled, s.misled);
    QueriesLater(s.ids, s.nodes, Y, s.reigns, s.reigns, s.queries, s.net);
  }

  lemma MovedChoices(ids: set<Id>, X: map<Id, Node>, n: Id, y: Node, R: Reigns, acks: set<Ack>, misled: set<Misled>,
                     choices: set<Choice>)
    requires n in X && ChoicesOk(ids, X, R, acks, misled, choices) && LeadersOk(X, R)
    requires y.currentTerm >= X[n].currentTerm
    requires y.currentTerm == X[n].currentTerm ==> y.commitIndex >= X[n].commitIndex
    ensures ChoicesOk(ids, X[n := y], R, acks, misled, choices)
  {
    var Y := X[n := y];
    forall c | c in choices ensures Leads(c, Y, R) { assert ChoiceOk(c, ids, X, R, acks, misled); }
    ChoicesLater(ids, X, Y, R, R, acks, acks, misled, misled, choices);
  }

  lemma Moved(s: Cluster, n: Id, y: Node)
    requires Inv(s) && n in s.nodes && Moves(s.nodes[n], y) && MatchOk(y, n, s.nodes, s.reigns, s.acks, s.misled)
    ensures Inv(Put(s, n, y))
  {
    MovedVotes(s.nodes, n, y, s.reigns, s.votes, s.net);
    MovedAcks(s.nodes, n, y, s.reigns, s.acks);
    assert LogOk(s.nodes[n], s.reigns);
    MovedNodes(s.ids, s.nodes, n, y, s.reigns, s.choices);
    MovedChoices(s.ids, s.nodes, n, y, s.reigns, s.acks, s.misled, s.choices);
    MovedRest(s, n, y);
  }

  lemma MovedQuietly(s: Cluster, n: Id, y: Node)
    requires Inv(s) && n in s.nodes && Moves(s.nodes[n], y)
    requires (y.leading == s.nodes[n].leading || y.leading == 0) && y.matchIndex == s.nodes[n].matchIndex
    ensures Inv(Put(s, n, y))
  {
    assert MatchOk(s.nodes[n], n, s.nodes, s.reigns, s.acks, s.misled);
    Moved(s, n, y);
  }

  // ---- Votes and vote messages ----

  /** Messages about votes do not touch replication. */
  lemma VoteMessage(s: Cluster, m: Msg)
    requires AppendReqsOk(s.nodes, s.reigns, s.choices, s.net) && RepliesOk(s.nodes, s.reigns, s.acks, s.misled, s.net)
    requires QueriesOk(s.ids, s.nodes, s.reigns, s.queries, s.net)
    requires m.VoteReq? || m.VoteResp?
    ensures var net := s.net + {m};
            && AppendReqsOk(s.nodes, s.reigns, s.choices, net) && RepliesOk(s.nodes, s.reigns, s.acks, s.misled, net)
            && QueriesOk(s.ids, s.nodes, s.reigns, s.queries, net)
  {
    var net := s.net + {m};
    forall k | k in net && k.AppendReq? ensures AppendReqOk(k, s.nodes, s.reigns, s.choices) { assert k in s.net; }
    forall k | k in net && k.AppendResp? ensures ReplyOk(k, s.nodes, s.reigns, s.acks, s.misled) { assert k in s.net; }
  }

  lemma SameRequests(X: map<Id, Node>, R: Reigns, votes: set<Vote>, V: set<Vote>, net: set<Msg>, m: Msg)
    requires RequestsOk(X, R, votes, net) && m.VoteResp? && votes <= V
    ensures RequestsOk(X, R, V, net + {m})
  {
    forall k | k in net + {m} && k.VoteReq? ensures RequestOk(k, X, R, V) {
      assert k in net && RequestOk(k, X, R, votes);
    }
  }

  lemma NewRequest(X: map<Id, Node>, R: Reigns, votes: set<Vote>, net: set<Msg>, m: Msg)
    requires RequestsOk(X, R, votes, net) && m.VoteReq?
    requires RequestOk(m, X, R, votes + {Vote(m.term, m.cand, m.cand, m.log)})
    requires forall k :: k in net && k.VoteReq? && k.cand == m.cand ==> k.term != m.term
    ensures RequestsOk(X, R, votes + {Vote(m.term, m.cand, m.cand, m.log)}, net + {m})
  {
    var V := votes + {Vote(m.term, m.cand, m.cand, m.log)};
    forall k | k in net + {m} && k.VoteReq? ensures RequestOk(k, X, R, V) {
      if k in net { assert RequestOk(k, X, R, votes); }
    }
  }

  lemma MoreGrants(votes: set<Vote>, net: set<Msg>, V: set<Vote>, m: Msg)
    requires GrantsOk(votes, net) && votes <= V
    requires m.VoteResp? && m.vote.granted ==> exists l :: Vote(m.term, m.voter, m.cand, l) in V
    ensures GrantsOk(V, net + {m})
  {
    forall k | k in net + {m} && k.VoteResp? && k.vote.granted
      ensures exists l :: Vote(k.term, k.voter, k.cand, l) in V
    {
      if k in net {
        var l :| Vote(k.term, k.voter, k.cand, l) in votes;
        assert Vote(k.term, k.voter, k.cand, l) in V;
      }
    }
  }

  lemma SameVotes(X: map<Id, Node>, votes: set<Vote>, net: set<Msg>, m: Msg)
    requires VotesOk(X, votes, net)
    ensures VotesOk(X, votes, net + {m})
  {
    forall u | u in votes ensures VoteOk(u, X, net + {m}) { assert VoteOk(u, X, net); }
  }

  /** The vote is the node's first in its current term. */
  predicate FirstVote(w: Vote, X: map<Id, Node>, R: Reigns, votes: set<Vote>, seen: Seen, acks: set<Ack>) {
    && w.voter in X && X[w.voter].currentTerm == w.term && (w.term, w.voter) !in seen
    && (forall a {:trigger CarriesNow(R, a, w)} :: a in acks ==> CarriesNow(R, a, w))
  }

  /** `Carries`, for a vote that is given now. */
  predicate CarriesNow(R: Reigns, a: Ack, w: Vote) {
    a.node == w.voter && a.term < w.term && OwnTerm(R, a) ==>
      Pre(Prefix(R, a), w.log) || Missed(R, R.Keys, Prefix(R, a), a.term)
  }

  lemma NewVoteFollows(ids: set<Id>, X: map<Id, Node>, R: Reigns, votes: set<Vote>, seen: Seen, net: set<Msg>, w: Vote)
    requires VotesOk(X, votes, net) && ElectedOk(ids, R, votes, seen) && w.voter in X &&
             X[w.voter].currentTerm == w.term
    ensures FollowsOk(w, R)
  {
    forall i | 0 <= i < |w.log| && w.log[i].term in R && w.voter in R[w.log[i].term].voters
      ensures w.log[i].term <= w.term
    {
      var t := w.log[i].term;
      assert ElectorOk(t, w.voter, R, votes, seen);
      assert VoteOk(Vote(t, w.voter, R[t].leader, R[t].base), X, net);
    }
  }

  lemma NewVoteSeen(ids: set<Id>, R: Reigns, votes: set<Vote>, seen: Seen, w: Vote)
    requires SeenOk(R, votes, seen) && ElectedOk(ids, R, votes, seen) && (w.term, w.voter) !in seen
    ensures var S := seen[(w.term, w.voter) := R.Keys];
            SeenOk(R, votes + {w}, S) && ElectedOk(ids, R, votes + {w}, S)
  {
    var S, V := seen[(w.term, w.voter) := R.Keys], votes + {w};
    forall k | k in S ensures S[k] <= R.Keys && exists c, l :: Vote(k.0, k.1, c, l) in V {
      if k in seen {
        var c, l :| Vote(k.0, k.1, c, l) in votes;
        assert Vote(k.0, k.1, c, l) in V;
      } else {
        assert Vote(k.0, k.1, w.cand, w.log) in V;
      }
    }
    forall t, v | t in R && v in R[t].voters ensures ElectorOk(t, v, R, V, S) {
      assert ElectorOk(t, v, R, votes, seen);
    }
  }

  lemma NewVoteCarries(R: Reigns, seen: Seen, acks: set<Ack>, votes: set<Vote>, w: Vote)
    requires VotesCarry(R, seen, acks, votes) && SeenOk(R, votes, seen) && (w.term, w.voter) !in seen
    requires forall a {:trigger CarriesNow(R, a, w)} :: a in acks ==> CarriesNow(R, a, w)
    ensures VotesCarry(R, seen[(w.term, w.voter) := R.Keys], acks, votes + {w})
  {
    var S := seen[(w.term, w.voter) := R.Keys];
    forall a, u | a in acks && u in votes + {w} ensures Carries(R, S, a, u) {
      if u in votes { assert Carries(R, seen, a, u); } else { assert CarriesNow(R, a, w); }
    }
  }

  lemma NewVotes(X: map<Id, Node>, R: Reigns, votes: set<Vote>, seen: Seen, net: set<Msg>, w: Vote)
    requires VotesOk(X, votes, net) && VotesFollow(R, votes) && SeenOk(R, votes, seen)
    requires VoteOk(w, X, net) && FollowsOk(w, R) && (w.term, w.voter) !in seen
    ensures VotesOk(X, votes + {w}, net) && VotesFollow(R, votes + {w})
  {}

  /** Adding a first vote together with the message that announces it. */
  lemma Voted(s: Cluster, w: Vote, m: Msg)
    requires Inv(s) && (m.VoteReq? || m.VoteResp?)
    requires VoteOk(w, s.nodes, s.net + {m}) && RequestsOk(s.nodes, s.reigns, s.votes + {w}, s.net + {m})
    requires FirstVote(w, s.nodes, s.reigns, s.votes, s.seen, s.acks)
    requires m.VoteResp? && m.vote.granted ==> w == Vote(m.term, m.voter, m.cand, w.log)
    ensures Inv(s.(net := s.net + {m}, votes := s.votes + {w}, seen := s.seen[(w.term, w.voter) := s.reigns.Keys]))
  {
    SameVotes(s.nodes, s.votes, s.net, m);
    NewVoteFollows(s.ids, s.nodes, s.reigns, s.votes, s.seen, s.net, w);
    NewVotes(s.nodes, s.reigns, s.votes, s.seen, s.net + {m}, w);
    NewVoteSeen(s.ids, s.reigns, s.votes, s.seen, w);
    NewVoteCarries(s.reigns, s.seen, s.acks, s.votes, w);
    assert w in s.votes + {w};
    MoreGrants(s.votes, s.net, s.votes + {w}, m);
    VoteMessage(s, m);
  }

  /** A node neither voted nor asked for votes in a term above its own. */
  lemma FirstRequest(s: Cluster, n: Id)
    requires VotesOk(s.nodes, s.votes, s.net) && RequestsOk(s.nodes, s.reigns, s.votes, s.net) && n in s.nodes
    requires SeenOk(s.reigns, s.votes, s.seen)
    ensures forall k :: k in s.seen && k.1 == n ==> k.0 <= s.nodes[n].currentTerm
    ensures forall m :: m in s.net && m.VoteReq? && m.cand == n ==> m.term <= s.nodes[n].currentTerm
  {
    forall k | k in s.seen && k.1 == n ensures k.0 <= s.nodes[n].currentTerm {
      var c, l :| Vote(k.0, k.1, c, l) in s.votes;
      assert VoteOk(Vote(k.0, k.1, c, l), s.nodes, s.net);
    }
    forall m | m in s.net && m.VoteReq? && m.cand == n ensures m.term <= s.nodes[n].currentTerm {
      assert RequestOk(m, s.nodes, s.reigns, s.votes);
    }
  }

  lemma OwnVoteCarries(X: map<Id, Node>, R: Reigns, acks: set<Ack>, n: Id, w: Vote)
    requires n in X && Retained(X, R, acks) && w.voter == n && w.log == X[n].log
    ensures forall a {:trigger CarriesNow(R, a, w)} :: a in acks ==> CarriesNow(R, a, w)
  {
    forall a | a in acks ensures CarriesNow(R, a, w) {
      if a.node == n { assert RetainedBy(X[n], R, a); }
    }
  }

  /** The node has just raised its term and voted for itself, and has told nobody yet. */
  predicate MayAsk(s: Cluster, n: Id) {
    && n in s.nodes && s.nodes[n].currentTerm >= 1 && s.nodes[n].votedFor == n && s.nodes[n].leading == 0
    && LogOk(s.nodes[n], s.reigns) && (s.nodes[n].currentTerm, n) !in s.seen
    && (forall m :: m in s.net && m.VoteReq? && m.cand == n ==> m.term < s.nodes[n].currentTerm)
  }

  lemma CandidacyFacts(s: Cluster, n: Id, y: Node)
    requires n in s.nodes && s.nodes[n].id == n && y == StartElection(s.nodes[n], Saved)
    requires LogsOk(s.nodes, s.reigns) && VotesOk(s.nodes, s.votes, s.net) &&
             RequestsOk(s.nodes, s.reigns, s.votes, s.net)
    requires SeenOk(s.reigns, s.votes, s.seen)
    ensures MayAsk(Put(s, n, y), n)
  {
    assert LogOk(s.nodes[n], s.reigns);
    FirstRequest(s, n);
  }

  lemma TimeOutKeeps(s: Cluster, n: Id, save: SaveOutcome)
    requires Inv(s) && Enabled(s, TimeOut(n, save))
    ensures Inv(Do(s, TimeOut(n, save)))
  {
    var y := StartElection(s.nodes[n], save);
    MovedQuietly(s, n, y);
    if save.Saved? {
      CandidacyFacts(s, n, y);
      Candidacy(Put(s, n, y), n);
    }
  }

  lemma Candidacy(s: Cluster, n: Id)
    requires Inv(s) && MayAsk(s, n)
    ensures Inv(s.(net := s.net + {VoteReq(s.nodes[n].currentTerm, n, s.nodes[n].log)},
                   votes := s.votes + {Vote(s.nodes[n].currentTerm, n, n, s.nodes[n].log)},
                   seen := s.seen[(s.nodes[n].currentTerm, n) := s.reigns.Keys]))
  {
    var y := s.nodes[n];
    var m, w := VoteReq(y.currentTerm, n, y.log), Vote(y.currentTerm, n, n, y.log);
    NewRequest(s.nodes, s.reigns, s.votes, s.net, m);
    OwnVoteCarries(s.nodes, s.reigns, s.acks, n, w);
    Voted(s, w, m);
  }

  /** A refusal, or a vote repeated, only adds a message. */
  lemma Repeated(s: Cluster, m: Msg)
    requires Inv(s) && m.VoteResp? && (m.vote.granted ==> exists l :: Vote(m.term, m.voter, m.cand, l) in s.votes)
    ensures Inv(s.(net := s.net + {m}))
  {
    SameVotes(s.nodes, s.votes, s.net, m);
    SameRequests(s.nodes, s.reigns, s.votes, s.votes, s.net, m);
    MoreGrants(s.votes, s.net, s.votes, m);
    VoteMessage(s, m);
  }

  /** The vote restriction: what the voter acknowledged is in the log of the candidate it votes for. */
  lemma VoteRestriction(R: Reigns, x: Node, a: Ack, w: Vote)
    requires ReignsOk(R) && LogOk(x, R) && x.snapIndex == 0 && x.snapTerm == 0
    requires Sound(w.log, R) && x.UpToDate(|w.log|, LastTermOf(w.log))
    requires RetainedBy(x, R, a)
    ensures CarriesNow(R, a, w)
  {
    if OwnTerm(R, a) && Pre(Prefix(R, a), x.log) {
      assert |x.log| > 0 ==> x.LastIndex() == |x.log| by {
        if |x.log| > 0 { assert x.log[|x.log| - 1].index == |x.log|; }
      }
      UpToDateCarries(R, a, x.log, w.log);
    }
  }

  /** A vote given before in this term was the same vote. */
  lemma VotedBefore(s: Cluster, n: Id, m: Msg, y: Node)
    requires VotesOk(s.nodes[n := y], s.votes, s.net) && RequestsOk(s.nodes, s.reigns, s.votes, s.net)
    requires SeenOk(s.reigns, s.votes, s.seen) && m in s.net && m.VoteReq?
    requires y.currentTerm == m.term && y.votedFor == m.cand && (m.term, n) in s.seen
    ensures Vote(m.term, n, m.cand, m.log) in s.votes
  {
    var c, l :| Vote((m.term, n).0, (m.term, n).1, c, l) in s.votes;
    assert VoteOk(Vote(m.term, n, c, l), s.nodes[n := y], s.net);
    assert VoteReq(m.term, c, l) == m;
  }

  lemma GrantCarries(X: map<Id, Node>, R: Reigns, acks: set<Ack>, n: Id, w: Vote)
    requires Retained(X, R, acks) && ReignsOk(R)
    requires n in X && LogOk(X[n], R) && X[n].snapIndex == 0 && X[n].snapTerm == 0 && w.voter == n
    requires Sound(w.log, R) && X[n].UpToDate(|w.log|, LastTermOf(w.log))
    ensures forall a {:trigger CarriesNow(R, a, w)} :: a in acks ==> CarriesNow(R, a, w)
  {
    forall a | a in acks ensures CarriesNow(R, a, w) {
      if a.node == n {
        assert RetainedBy(X[n], R, a);
        VoteRestriction(R, X[n], a, w);
      }
    }
  }

  lemma VoteMoves(x: Node, term: int, cand: Id, lastIndex: int, lastTerm: int, saveTerm: SaveOutcome,
                  saveVote: SaveOutcome)
    ensures var (y, r) := OnRequestVote(x, term, cand, lastIndex, lastTerm, saveTerm, saveVote);
            && Moves(x, y) && y.leading == x.leading && y.matchIndex == x.matchIndex
            && (r.granted ==> x.UpToDate(lastIndex, lastTerm) && y.currentTerm == term && y.votedFor == cand)
  {}

  lemma CastVoteShape(s: Cluster, n: Id, m: Msg, saveTerm: SaveOutcome, saveVote: SaveOutcome)
    requires n in s.nodes && m.VoteReq?
    ensures var (y, r) := OnRequestVote(s.nodes[n], m.term, m.cand, |m.log|, LastTermOf(m.log), saveTerm, saveVote);
            DoCastVote(s, n, m, saveTerm, saveVote) == AfterVote(Put(s, n, y), n, m, r)
  {
    assert s.votes + {} == s.votes;
  }

  function AfterVote(s: Cluster, n: Id, m: Msg, r: VoteResult): Cluster
    requires m.VoteReq?
  {
    var t := s.(net := s.net + {VoteResp(m.term, n, m.cand, r)});
    if r.granted then t.(votes := s.votes + {Vote(m.term, n, m.cand, m.log)}, seen := See(s, m.term, n)) else t
  }

  lemma CastVoteKeeps(s: Cluster, n: Id, m: Msg, saveTerm: SaveOutcome, saveVote: SaveOutcome)
    requires Inv(s) && Enabled(s, CastVote(n, m, saveTerm, saveVote))
    ensures Inv(Do(s, CastVote(n, m, saveTerm, saveVote)))
  {
    var (y, r) := OnRequestVote(s.nodes[n], m.term, m.cand, |m.log|, LastTermOf(m.log), saveTerm, saveVote);
    CastVoteShape(s, n, m, saveTerm, saveVote);
    VoteMoves(s.nodes[n], m.term, m.cand, |m.log|, LastTermOf(m.log), saveTerm, saveVote);
    MovedQuietly(s, n, y);
    VoteAnswered(Put(s, n, y), n, m, r);
  }

  lemma VoteAnswered(s: Cluster, n: Id, m: Msg, r: VoteResult)
    requires Inv(s) && n in s.nodes && m in s.net && m.VoteReq?
    requires r.granted ==> s.nodes[n].UpToDate(|m.log|, LastTermOf(m.log))
    requires r.granted ==> s.nodes[n].currentTerm == m.term && s.nodes[n].votedFor == m.cand
    ensures Inv(AfterVote(s, n, m, r))
  {
    var k := VoteResp(m.term, n, m.cand, r);
    if !r.granted {
      Repeated(s, k);
    } else if (m.term, n) in s.seen {
      assert s.nodes[n := s.nodes[n]] == s.nodes;
      VotedBefore(s, n, m, s.nodes[n]);
      Repeated(s, k);
      assert s.votes + {Vote(m.term, n, m.cand, m.log)} == s.votes;
    } else {
      Granted(s, n, m, r);
    }
  }

  lemma Granted(s: Cluster, n: Id, m: Msg, r: VoteResult)
    requires Inv(s) && n in s.nodes && m in s.net && m.VoteReq? && (m.term, n) !in s.seen
    requires s.nodes[n].UpToDate(|m.log|, LastTermOf(m.log)) && s.nodes[n].currentTerm == m.term &&
             s.nodes[n].votedFor == m.cand
    ensures Inv(s.(net := s.net + {VoteResp(m.term, n, m.cand, r)}, votes := s.votes + {Vote(m.term, n, m.cand, m.log)},
                   seen := s.seen[(m.term, n) := s.reigns.Keys]))
  {
    var w := Vote(m.term, n, m.cand, m.log);
    assert RequestOk(m, s.nodes, s.reigns, s.votes) && LogOk(s.nodes[n], s.reigns);
    GrantCarries(s.nodes, s.reigns, s.acks, n, w);
    SameRequests(s.nodes, s.reigns, s.votes, s.votes + {w}, s.net, VoteResp(m.term, n, m.cand, r));
    Voted(s, w, VoteResp(m.term, n, m.cand, r));
  }

  // ---- Steps that start or extend a reign ----

  /** `y` is what the leader of reign `r` of term `t` looks like after winning or proposing. */
  predicate Rules(x: Node, y: Node, n: Id, R: Reigns, t: int, r: Reign) {
    && y == x.(role := Leader, log := y.log) && y.currentTerm == t && Pre(x.log, y.log)
    && (y.leading == 0 || y.leading == t)
    && r.leader == n && r.log == y.log && ReignOk(t, r)
    && (if t in R then r == R[t].(log := r.log) && Pre(R[t].log, r.log) else r.before == R.Keys)
  }

  lemma ReignGrows(X: map<Id, Node>, R: Reigns, y: Node, n: Id, t: int, r: Reign)
    requires n in X && ReignsOk(R) && Rules(X[n], y, n, R, t, r) && LogOk(X[n], R)
    requires forall i :: |X[n].log| <= i < |y.log| ==> y.log[i].term == t
    ensures Evolves(X, X[n := y], R, R[t := r]) && ReignsOk(R[t := r]) && LogOk(y, R[t := r])
  {
    var x, Q := X[n], R[t := r];
    SoundExtends(x.log, R, Q);
    forall i | 0 <= i < |y.log| ensures SoundAt(y.log, Q, i) {
      if i < |x.log| {
        assert SoundAt(x.log, Q, i);
        assert y.log[i] == x.log[i];
        assert y.log[..i + 1] == x.log[..i + 1];
      }
    }
    forall k | k in Q ensures ReignOk(k, Q[k]) && Sound(Q[k].log, Q) {
      if k != t {
        assert ReignOk(k, R[k]);
        SoundExtends(R[k].log, R, Q);
      }
    }
  }

  lemma GrownOrders(R: Reigns, t: int, r: Reign, misled: set<Misled>)
    requires OrdersOk(R) && MisledsOk(R, misled) && Extends(R, R[t := r]) && (t !in R ==> r.before == R.Keys)
    ensures OrdersOk(R[t := r]) && MisledsOk(R[t := r], misled)
  {
    var Q := R[t := r];
    forall k | k in Q ensures OrderOk(k, Q) {
      if k in R { assert OrderOk(k, R); }
      forall u | u in Q[k].before && u in Q ensures Q[u].before <= Q[k].before { assert u in R && OrderOk(u, R); }
    }
    forall b | b in misled ensures MisledOk(b, Q) {
      assert MisledOk(b, R);
      SamePrefix(R, Q, Ack(b.term, b.node, b.upTo));
      MissedGrows(R, Q, b.known, b.known, R[b.term].log[..b.upTo], b.term);
    }
  }

  lemma GrownLogs(X: map<Id, Node>, R: Reigns, Q: Reigns, n: Id, y: Node)
    requires LogsOk(X, R) && Extends(R, Q) && LogOk(y, Q)
    ensures LogsOk(X[n := y], Q)
  {
    var Y := X[n := y];
    forall k | k in Y ensures LogOk(Y[k], Q) {
      if k != n {
        assert LogOk(X[k], R);
        SoundExtends(X[k].log, R, Q);
      }
    }
  }

  lemma GrownLeaders(X: map<Id, Node>, R: Reigns, n: Id, y: Node, t: int, r: Reign)
    requires n in X && LeadersOk(X, R) && Rules(X[n], y, n, R, t, r)
    ensures LeadersOk(X[n := y], R[t := r])
  {}

  lemma GrownVotes(X: map<Id, Node>, R: Reigns, n: Id, y: Node, t: int, r: Reign, votes: set<Vote>, net: set<Msg>)
    requires n in X && Rules(X[n], y, n, R, t, r) && Extends(R, R[t := r])
    requires VotesOk(X, votes, net) && RequestsOk(X, R, votes, net) && VotesFollow(R, votes)
    ensures VotesOk(X[n := y], votes, net) && RequestsOk(X[n := y], R[t := r], votes, net) &&
            VotesFollow(R[t := r], votes)
  {
    var Y, Q := X[n := y], R[t := r];
    forall m | m in net && m.VoteReq? ensures RequestOk(m, Y, Q, votes) {
      assert RequestOk(m, X, R, votes);
      SoundExtends(m.log, R, Q);
    }
    forall w | w in votes ensures VoteOk(w, Y, net) && FollowsOk(w, Q) {
      assert VoteOk(w, X, net) && FollowsOk(w, R);
      assert RequestOk(VoteReq(w.term, w.cand, w.log), X, R, votes);
      forall i | 0 <= i < |w.log| ensures w.log[i].term in R { assert SoundAt(w.log, R, i); }
    }
  }

  lemma GrownElections(ids: set<Id>, R: Reigns, t: int, r: Reign, votes: set<Vote>, seen: Seen)
    requires Extends(R, R[t := r]) && SeenOk(R, votes, seen) && ElectedOk(ids, R, votes, seen)
    requires t !in R ==> r.before == R.Keys && Majority(ids, r.voters)
    requires t !in R ==> forall v :: v in r.voters ==> Vote(t, v, r.leader, r.base) in votes
    ensures SeenOk(R[t := r], votes, seen) && ElectedOk(ids, R[t := r], votes, seen)
  {
    var Q := R[t := r];
    forall k, v | k in Q && v in Q[k].voters ensures ElectorOk(k, v, Q, votes, seen) {
      if k in R {
        assert ElectorOk(k, v, R, votes, seen);
      } else {
        assert Vote(t, v, r.leader, r.base) in votes;
      }
    }
  }

  lemma GrownAcks(X: map<Id, Node>, R: Reigns, n: Id, y: Node, t: int, r: Reign, acks: set<Ack>)
    requires n in X && Rules(X[n], y, n, R, t, r) && Extends(R, R[t := r])
    requires AcksOk(X, R, acks) && Retained(X, R, acks)
    ensures AcksOk(X[n := y], R[t := r], acks + AcksUpTo(t, n, |r.log|))
    ensures Retained(X[n := y], R[t := r], acks + AcksUpTo(t, n, |r.log|))
  {
    var Y, Q, A := X[n := y], R[t := r], acks + AcksUpTo(t, n, |r.log|);
    forall a | a in A ensures AckOk(a, Y, Q) {
      if a in acks { assert AckOk(a, X, R); SamePrefix(R, Q, a); }
    }
    forall a, i | a in A && 1 <= i <= a.upTo ensures Ack(a.term, a.node, i) in A {
      if a in acks { assert Ack(a.term, a.node, i) in acks; }
    }
    forall k, i | k in Q && 1 <= i <= |Q[k].log| ensures Ack(k, Q[k].leader, i) in A {
      if k != t { assert Ack(k, R[k].leader, i) in acks; }
    }
    assert AcksOk(Y, Q, A);
    forall a | a in A && a.node in Y ensures RetainedBy(Y[a.node], Q, a) {
      if a in acks {
        assert AckOk(a, X, R) && RetainedBy(X[a.node], R, a);
        SamePrefix(R, Q, a);
        if Pre(Prefix(R, a), X[a.node].log) {
          if a.node == n { PreTrans(Prefix(R, a), X[n].log, y.log); }
        } else {
          MissedGrows(R, Q, R.Keys, Q.Keys, Prefix(R, a), a.term);
        }
      }
    }
  }

  lemma GrownCarries(X: map<Id, Node>, R: Reigns, n: Id, y: Node, t: int, r: Reign, seen: Seen, acks: set<Ack>,
                     votes: set<Vote>,
                     net: set<Msg>)
    requires n in X && Rules(X[n], y, n, R, t, r) && Extends(R, R[t := r])
    requires AcksOk(X, R, acks) && VotesCarry(R, seen, acks, votes) && VotesOk(X, votes, net)
    ensures VotesCarry(R[t := r], seen, acks + AcksUpTo(t, n, |r.log|), votes)
  {
    var Q, A := R[t := r], acks + AcksUpTo(t, n, |r.log|);
    forall a, w | a in A && w in votes ensures Carries(Q, seen, a, w) {
      assert VoteOk(w, X, net);
      if a in acks && a.node == w.voter && a.term < w.term {
        assert AckOk(a, X, R) && Carries(R, seen, a, w);
        SamePrefix(R, Q, a);
        if OwnTerm(R, a) && !Pre(Prefix(R, a), w.log) {
          MissedGrows(R, Q, seen[(w.term, w.voter)], seen[(w.term, w.voter)], Prefix(R, a), a.term);
        }
      }
    }
  }

  lemma GrownRest(s: Cluster, n: Id, y: Node, Q: Reigns, A: set<Ack>)
    requires n in s.nodes && s.acks <= A && Evolves(s.nodes, s.nodes[n := y], s.reigns, Q)
    requires y == s.nodes[n].(role := Leader, log := y.log)
    requires ConfigOk(s.ids, s.nodes) && CommitsOk(s.nodes, s.choices) && MatchesOk(s.nodes, s.reigns, s.acks, s.misled)
    requires AppendReqsOk(s.nodes, s.reigns, s.choices, s.net) && RepliesOk(s.nodes, s.reigns, s.acks, s.misled, s.net)
    requires QueriesOk(s.ids, s.nodes, s.reigns, s.queries, s.net)
    ensures var Y := s.nodes[n := y];
            && ConfigOk(s.ids, Y) && CommitsOk(Y, s.choices) && MatchesOk(Y, Q, A, s.misled)
            && AppendReqsOk(Y, Q, s.choices, s.net) && RepliesOk(Y, Q, A, s.misled, s.net)
            && QueriesOk(s.ids, Y, Q, s.queries, s.net)
  {
    var Y := s.nodes[n := y];
    assert MatchOk(s.nodes[n], n, s.nodes, s.reigns, s.acks, s.misled);
    MatchesLater(s.nodes, n, y, s.reigns, Q, s.acks, A, s.misled, s.misled);
    AppendReqsLater(s.nodes, Y, s.reigns, Q, s.choices, s.choices, s.net);
    RepliesLater(s.nodes, Y, s.reigns, Q, s.acks, A, s.misled, s.misled, s.net);
    QueriesLater(s.ids, s.nodes, Y, s.reigns, Q, s.queries, s.net);
  }

  lemma GrownChoices(s: Cluster, n: Id, y: Node, Q: Reigns, A: set<Ack>)
    requires n in s.nodes && s.acks <= A && Evolves(s.nodes, s.nodes[n := y], s.reigns, Q)
    requires y == s.nodes[n].(role := Leader, log := y.log)
    requires ChoicesOk(s.ids, s.nodes, s.reigns, s.acks, s.misled, s.choices)
    ensures ChoicesOk(s.ids, s.nodes[n := y], Q, A, s.misled, s.choices)
  {
    var Y := s.nodes[n := y];
    forall c | c in s.choices ensures Leads(c, Y, s.reigns) {
      assert ChoiceOk(c, s.ids, s.nodes, s.reigns, s.acks, s.misled);
    }
    ChoicesLater(s.ids, s.nodes, Y, s.reigns, Q, s.acks, A, s.misled, s.misled, s.choices);
  }

  lemma Reigned(s: Cluster, n: Id, y: Node, r: Reign)
    requires Inv(s) && n in s.nodes && Rules(s.nodes[n], y, n, s.reigns, y.currentTerm, r)
    requires forall i :: |s.nodes[n].log| <= i < |y.log| ==> y.log[i].term == y.currentTerm
    requires y.currentTerm !in s.reigns ==>
               Majority(s.ids, r.voters) && forall v :: v in r.voters ==> Vote(y.currentTerm, v, n, r.base) in s.votes
    ensures Inv(s.(nodes := s.nodes[n := y], reigns := s.reigns[y.currentTerm := r],
                   acks := s.acks + AcksUpTo(y.currentTerm, n, |y.log|)))
  {
    var R, t := s.reigns, y.currentTerm;
    assert LogOk(s.nodes[n], R);
    ReignGrows(s.nodes, R, y, n, t, r);
    GrownOrders(R, t, r, s.misled);
    GrownLogs(s.nodes, R, R[t := r], n, y);
    GrownLeaders(s.nodes, R, n, y, t, r);
    GrownVotes(s.nodes, R, n, y, t, r, s.votes, s.net);
    GrownElections(s.ids, R, t, r, s.votes, s.seen);
    GrownAcks(s.nodes, R, n, y, t, r, s.acks);
    GrownCarries(s.nodes, R, n, y, t, r, s.seen, s.acks, s.votes, s.net);
    GrownChoices(s, n, y, R[t := r], s.acks + AcksUpTo(t, n, |r.log|));
    GrownRest(s, n, y, R[t := r], s.acks + AcksUpTo(t, n, |r.log|));
  }

  /** Whoever votes for a node in a term votes for the log it asked with. */
  lemma VotersAgree(s: Cluster, n: Id, m: Msg, v: Id)
    requires VotesOk(s.nodes, s.votes, s.net) && RequestsOk(s.nodes, s.reigns, s.votes, s.net) &&
             GrantsOk(s.votes, s.net)
    requires m in s.net && m.VoteReq? && m.cand == n && v in Grants(s, n, m.term) + {n}
    ensures Vote(m.term, v, n, m.log) in s.votes
  {
    assert RequestOk(m, s.nodes, s.reigns, s.votes);
    if v != n {
      var k := VoteResp(m.term, v, n, VoteResult(m.term, true));
      assert k in s.net && k.vote.granted;
      var l :| Vote(k.term, k.voter, k.cand, l) in s.votes;
      assert VoteOk(Vote(k.term, k.voter, k.cand, l), s.nodes, s.net);
      assert VoteReq(m.term, n, l) == m;
    }
  }

  /** Election Safety: two majorities of one term voted for the same node. */
  lemma OneWinner(ids: set<Id>, X: map<Id, Node>, R: Reigns, votes: set<Vote>, seen: Seen, net: set<Msg>, t: int, n: Id,
                  q: set<Id>, log: Log)
    requires VotesOk(X, votes, net) && ElectedOk(ids, R, votes, seen) && t in R
    requires Majority(ids, q) && forall v :: v in q ==> Vote(t, v, n, log) in votes
    ensures R[t].leader == n
  {
    MajoritiesMeet(ids, R[t].voters, q);
    var v :| v in R[t].voters && v in q;
    assert ElectorOk(t, v, R, votes, seen);
    assert Vote(t, v, R[t].leader, R[t].base) in votes && Vote(t, v, n, log) in votes;
  }

  /** The log a majority votes for in a term without a leader holds only entries of earlier terms: it shares a
      voter with the election of each of them. */
  lemma EarlierTerms(ids: set<Id>, R: Reigns, votes: set<Vote>, seen: Seen, t: int, n: Id, q: set<Id>, log: Log, i: nat)
    requires ElectedOk(ids, R, votes, seen) && VotesFollow(R, votes) && Sound(log, R) && t !in R && i < |log|
    requires Majority(ids, q) && forall v :: v in q ==> Vote(t, v, n, log) in votes
    ensures log[i].term < t
  {
    assert SoundAt(log, R, i);
    MajoritiesMeet(ids, R[log[i].term].voters, q);
    var v :| v in R[log[i].term].voters && v in q;
    assert FollowsOk(Vote(t, v, n, log), R);
  }

  lemma WinFacts(s: Cluster, n: Id, term: int) returns (m: Msg)
    requires Inv(s) && Enabled(s, Win(n, term)) && OnWin(s.nodes[n], term).role == Leader
    ensures m.VoteReq? && m.term == term && m.term == s.nodes[n].currentTerm && m.term !in s.reigns && m.term >= 1 &&
            s.nodes[n].leading == 0
    ensures m.log == s.nodes[n].log && LogOk(s.nodes[n], s.reigns)
    ensures forall i :: 0 <= i < |m.log| ==> m.log[i].term < m.term
    ensures Majority(s.ids, Grants(s, n, m.term) + {n})
    ensures forall v :: v in Grants(s, n, m.term) + {n} ==> Vote(m.term, v, n, m.log) in s.votes
  {
    m :| m in s.net && m.VoteReq? && m.term == term && m.cand == n;
    assert RequestOk(m, s.nodes, s.reigns, s.votes);
    var q := Grants(s, n, m.term) + {n};
    CountedMajority(s.ids, n, s.nodes[n].cfg.voters, Grants(s, n, m.term));
    forall v | v in q ensures Vote(m.term, v, n, m.log) in s.votes { VotersAgree(s, n, m, v); }
    if m.term in s.reigns {
      OneWinner(s.ids, s.nodes, s.reigns, s.votes, s.seen, s.net, m.term, n, q, m.log);
    }
    forall i | 0 <= i < |m.log| ensures m.log[i].term < m.term {
      EarlierTerms(s.ids, s.reigns, s.votes, s.seen, m.term, n, q, m.log, i);
    }
    assert LogOk(s.nodes[n], s.reigns);
  }

  lemma OfficeKeeps(s: Cluster, n: Id, term: int)
    requires Inv(s) && Enabled(s, Win(n, term)) && OnWin(s.nodes[n], term).role == Leader
    ensures Inv(DoWin(s, n, term))
  {
    var m := WinFacts(s, n, term);
    var x := OnWin(s.nodes[n], term);
    Reigned(s, n, x, Reign(n, Grants(s, n, term) + {n}, x.log, x.log, s.reigns.Keys));
  }

  /** A quorum of the votes asked for in a term makes the node leader exactly when it is still in that term. Votes of a
      term it has left change nothing. */
  lemma OfficeExactly(s: Cluster, n: Id, term: int)
    requires Enabled(s, Win(n, term))
    ensures var x, t := s.nodes[n], Do(s, Win(n, term));
            if x.currentTerm == term then t.nodes == s.nodes[n := x.(role := Leader)] else t == s
  {
    assert s.nodes[n := s.nodes[n]] == s.nodes;
  }

  lemma WinKeeps(s: Cluster, n: Id, term: int)
    requires Inv(s) && Enabled(s, Win(n, term))
    ensures Inv(Do(s, Win(n, term)))
  {
    if OnWin(s.nodes[n], term).role == Leader { OfficeKeeps(s, n, term); } else { OfficeExactly(s, n, term); }
  }

  lemma ProposalRules(x: Node, n: Id, R: Reigns, data: Bytes, storeOk: bool)
    requires LogOk(x, R) && x.snapIndex == 0 && x.role == Leader && x.currentTerm in R &&
             (x.leading == 0 || x.leading == x.currentTerm)
    requires ReignOk(x.currentTerm, R[x.currentTerm]) && R[x.currentTerm].leader == n && x.log == R[x.currentTerm].log
    ensures var y := OnPropose(x, data, storeOk);
            && Rules(x, y, n, R, x.currentTerm, R[x.currentTerm].(log := y.log))
            && forall i :: |x.log| <= i < |y.log| ==> y.log[i].term == x.currentTerm
  {}

  lemma ProposeKeeps(s: Cluster, n: Id, data: Bytes, storeOk: bool)
    requires Inv(s) && Enabled(s, Propose(n, data, storeOk))
    ensures Inv(Do(s, Propose(n, data, storeOk)))
  {
    var x := s.nodes[n];
    var y := OnPropose(x, data, storeOk);
    if x.role == Leader {
      assert LogOk(x, s.reigns) && ReignOk(x.currentTerm, s.reigns[x.currentTerm]);
      ProposalRules(x, n, s.reigns, data, storeOk);
      Reigned(s, n, y, s.reigns[x.currentTerm].(log := y.log));
    } else {
      assert s.nodes[n := y] == s.nodes;
    }
  }
}
