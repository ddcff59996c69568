/** What every reachable cluster state satisfies.

    The idea that carries the proof: a log is `Sound` when each entry of term t sits where, and
    after what, the leader of t put it. Two sound logs then agree up to any entry they share, which
    is Log Matching. `Retained` and `VotesCarry` say that an acknowledged prefix is given up only
    once some leader of a later term has started without it. A deposed leader's loop may still send
    the log its node has come to hold, and count what such a request reached: `MisledOk` says that
    this too takes a later leader that started without the prefix. `LeaderCompleteness` concludes,
    by induction over the order in which elections were won, that a prefix counted by a majority is
    in the starting log of every leader of a later term.
 */
module RaftInvariant {
  import opened Quorum
  import opened RaftLog
  import opened RaftNode
  import opened RaftCluster

  type Log = seq<Entry>

  // ---- Logs and reigns ----

  predicate Sound(log: Log, R: Reigns) {
    forall i {:trigger SoundAt(log, R, i)} :: 0 <= i < |log| ==> SoundAt(log, R, i)
  }

  predicate SoundAt(log: Log, R: Reigns, i: int)
    requires 0 <= i < |log|
  {
    log[i].term in R && i < |R[log[i].term].log| && log[..i + 1] == R[log[i].term].log[..i + 1]
  }

  predicate ReignOk(t: int, r: Reign) {
    && t >= 1 && Pre(r.base, r.log) && Consecutive(r.log, 0)
    && (forall i :: 0 <= i < |r.base| ==> r.log[i].term < t)
    && (forall i :: |r.base| <= i < |r.log| ==> r.log[i].term == t)
  }

  predicate ReignsOk(R: Reigns) {
    forall t {:trigger ReignOk(t, R[t])} :: t in R ==> ReignOk(t, R[t]) && Sound(R[t].log, R)
  }

  /** Reigns only appear, and their logs only grow. */
  predicate Extends(R: Reigns, Q: Reigns) {
    forall t :: t in R ==> t in Q && Q[t].leader == R[t].leader && Q[t].voters == R[t].voters
                           && Q[t].base == R[t].base && Q[t].before == R[t].before && Pre(R[t].log, Q[t].log)
  }

  /** The terms won before a reign are themselves reigns, and precede it with all that preceded them. */
  predicate OrderOk(t: int, R: Reigns)
    requires t in R
  {
    t !in R[t].before && R[t].before <= R.Keys && forall u :: u in R[t].before && u in R ==> R[u].before <= R[t].before
  }

  predicate OrdersOk(R: Reigns) {
    forall t {:trigger OrderOk(t, R)} :: t in R ==> OrderOk(t, R)
  }

  // ---- Nodes ----

  predicate ConfigOk(ids: set<Id>, X: map<Id, Node>) {
    && X.Keys == ids && NOBODY !in ids
    && forall n :: n in ids ==> X[n].id == n && X[n].snapIndex == 0 && X[n].snapTerm == 0
                                && X[n].cfg.phase == Stable && Lists(ids, n, X[n].cfg.voters)
  }

  predicate LogOk(x: Node, R: Reigns) {
    x.currentTerm >= 0 && Sound(x.log, R) && Consecutive(x.log, 0)
  }

  predicate LogsOk(X: map<Id, Node>, R: Reigns) {
    forall n {:trigger LogOk(X[n], R)} :: n in X ==> LogOk(X[n], R)
  }

  predicate LeadersOk(X: map<Id, Node>, R: Reigns) {
    && (forall n :: n in X && X[n].role == Leader ==>
          && X[n].currentTerm in R && R[X[n].currentTerm].leader == n && X[n].log == R[X[n].currentTerm].log
          && (X[n].leading == 0 || X[n].leading == X[n].currentTerm))
    && (forall t :: t in R ==>
          R[t].leader in X && X[R[t].leader].currentTerm >= t &&
          (X[R[t].leader].currentTerm == t ==> X[R[t].leader].role == Leader))
  }

  // ---- Votes ----

  predicate VoteOk(w: Vote, X: map<Id, Node>, net: set<Msg>) {
    && w.voter in X && w.cand in X && w.term <= X[w.voter].currentTerm
    && (w.term == X[w.voter].currentTerm ==> X[w.voter].votedFor == w.cand)
    && VoteReq(w.term, w.cand, w.log) in net
  }

  predicate VotesOk(X: map<Id, Node>, votes: set<Vote>, net: set<Msg>) {
    && (forall w {:trigger VoteOk(w, X, net)} :: w in votes ==> VoteOk(w, X, net))
    && (forall w, u :: w in votes && u in votes && w.term == u.term && w.voter == u.voter ==> w.cand == u.cand)
  }

  predicate RequestOk(m: Msg, X: map<Id, Node>, R: Reigns, votes: set<Vote>)
    requires m.VoteReq?
  {
    && m.cand in X && 1 <= m.term <= X[m.cand].currentTerm
    && Sound(m.log, R) && Consecutive(m.log, 0)
    && (X[m.cand].currentTerm == m.term && m.term !in R ==> X[m.cand].log == m.log && X[m.cand].leading == 0)
    && Vote(m.term, m.cand, m.cand, m.log) in votes
  }

  predicate RequestsOk(X: map<Id, Node>, R: Reigns, votes: set<Vote>, net: set<Msg>) {
    && (forall m {:trigger RequestOk(m, X, R, votes)} :: m in net && m.VoteReq? ==> RequestOk(m, X, R, votes))
    && (forall m, k :: m in net && m.VoteReq? && k in net && k.VoteReq? && m.term == k.term && m.cand == k.cand ==>
          m == k)
  }

  ghost predicate GrantsOk(votes: set<Vote>, net: set<Msg>) {
    forall m :: m in net && m.VoteResp? && m.vote.granted ==>
      exists l :: Vote(m.term, m.voter, m.cand, l) in votes
  }

  /** A log voted for holds no entry of a later term the voter elected: when the vote was given, that term
      had no leader yet. */
  predicate FollowsOk(w: Vote, R: Reigns) {
    forall i :: 0 <= i < |w.log| && w.log[i].term in R && w.voter in R[w.log[i].term].voters ==> w.log[i].term <= w.term
  }

  predicate VotesFollow(R: Reigns, votes: set<Vote>) {
    forall w {:trigger FollowsOk(w, R)} :: w in votes ==> FollowsOk(w, R)
  }

  type Seen = map<(int, Id), set<int>>

  ghost predicate SeenOk(R: Reigns, votes: set<Vote>, seen: Seen) {
    && (forall w :: w in votes ==> (w.term, w.voter) in seen)
    && (forall k :: k in seen ==> seen[k] <= R.Keys && exists c, l :: Vote(k.0, k.1, c, l) in votes)
  }

  /** The voter gave this vote, knowing no term won after the election. */
  predicate ElectorOk(t: int, v: Id, R: Reigns, votes: set<Vote>, seen: Seen)
    requires t in R
  {
    Vote(t, v, R[t].leader, R[t].base) in votes && (t, v) in seen && seen[(t, v)] <= R[t].before
  }

  predicate ElectedOk(ids: set<Id>, R: Reigns, votes: set<Vote>, seen: Seen) {
    forall t :: t in R ==>
      && Majority(ids, R[t].voters)
      && forall v {:trigger ElectorOk(t, v, R, votes, seen)} :: v in R[t].voters ==> ElectorOk(t, v, R, votes, seen)
  }

  // ---- Acknowledged prefixes ----

  function Prefix(R: Reigns, a: Ack): Log {
    if a.term in R && 0 <= a.upTo <= |R[a.term].log| then R[a.term].log[..a.upTo] else []
  }

  /** Some leader of a term in `S` above `lo` started without `p`. */
  predicate Missed(R: Reigns, S: set<int>, p: Log, lo: int) {
    exists t :: t in S && t in R && lo < t && !Pre(p, R[t].base)
  }

  predicate AckOk(a: Ack, X: map<Id, Node>, R: Reigns) {
    && a.term in R && 1 <= a.upTo <= |R[a.term].log|
    && a.node in X && a.term <= X[a.node].currentTerm
  }

  predicate AcksOk(X: map<Id, Node>, R: Reigns, acks: set<Ack>) {
    && (forall a {:trigger AckOk(a, X, R)} :: a in acks ==> AckOk(a, X, R))
    && (forall a, i :: a in acks && 1 <= i <= a.upTo ==> Ack(a.term, a.node, i) in acks)
    && (forall t, i :: t in R && 1 <= i <= |R[t].log| ==> Ack(t, R[t].leader, i) in acks)
  }

  predicate RetainedBy(x: Node, R: Reigns, a: Ack) {
    Pre(Prefix(R, a), x.log) || Missed(R, R.Keys, Prefix(R, a), a.term)
  }

  predicate Retained(X: map<Id, Node>, R: Reigns, acks: set<Ack>) {
    forall a {:trigger RetainedBy(X[a.node], R, a)} :: a in acks && a.node in X ==> RetainedBy(X[a.node], R, a)
  }

  /** The prefix ends with an entry of the acknowledged term itself. */
  predicate OwnTerm(R: Reigns, a: Ack) {
    a.term in R && 1 <= a.upTo <= |R[a.term].log| && R[a.term].log[a.upTo - 1].term == a.term
  }

  predicate Carries(R: Reigns, seen: Seen, a: Ack, w: Vote) {
    a.node == w.voter && a.term < w.term && OwnTerm(R, a) ==>
      && (w.term, w.voter) in seen
      && (Pre(Prefix(R, a), w.log) || Missed(R, seen[(w.term, w.voter)], Prefix(R, a), a.term))
  }

  predicate VotesCarry(R: Reigns, seen: Seen, acks: set<Ack>, votes: set<Vote>) {
    forall a, w {:trigger Carries(R, seen, a, w)} :: a in acks && w in votes ==> Carries(R, seen, a, w)
  }

  /** Whoever acknowledges a request that lacks the leader's prefix does so after a later leader started without
      it, and elected no later leader known then. */
  predicate MisledOk(b: Misled, R: Reigns) {
    && b.term in R && 1 <= b.upTo <= |R[b.term].log| && b.known <= R.Keys
    && (forall t :: t in R && t !in b.known ==> b.known <= R[t].before)
    && (forall t :: t in b.known && t in R && t > b.term ==> b.node !in R[t].voters)
    && Missed(R, b.known, R[b.term].log[..b.upTo], b.term)
  }

  predicate MisledsOk(R: Reigns, misled: set<Misled>) {
    forall b {:trigger MisledOk(b, R)} :: b in misled ==> MisledOk(b, R)
  }

  // ---- Commitment ----

  /** The node acknowledged a request of this term that reached this index. */
  predicate Counted(acks: set<Ack>, misled: set<Misled>, term: int, v: Id, upTo: int) {
    Ack(term, v, upTo) in acks || exists b :: b in misled && b.term == term && b.node == v && b.upTo == upTo
  }

  function Counters(ids: set<Id>, acks: set<Ack>, misled: set<Misled>, term: int, upTo: int): set<Id> {
    set v | v in ids && Counted(acks, misled, term, v, upTo)
  }

  /** Everything the leader holds up to this index is counted for the node, and what the leader may still append
      is not reached. */
  predicate CountedUpTo(k: int, t: int, v: Id, X: map<Id, Node>, R: Reigns, acks: set<Ack>, misled: set<Misled>) {
    && t in R && R[t].leader in X && (k <= |R[t].log| || X[R[t].leader].currentTerm > t)
    && forall i {:trigger Counted(acks, misled, t, v, i)} :: 1 <= i <= k && i <= |R[t].log| ==>
        Counted(acks, misled, t, v, i)
  }

  predicate ChoiceOk(c: Choice, ids: set<Id>, X: map<Id, Node>, R: Reigns, acks: set<Ack>, misled: set<Misled>) {
    && c.term in R && 1 <= c.upTo <= |R[c.term].log| && R[c.term].log[c.upTo - 1].term == c.term
    && Majority(ids, Counters(ids, acks, misled, c.term, c.upTo))
    && R[c.term].leader in X
    && (X[R[c.term].leader].currentTerm == c.term ==> X[R[c.term].leader].commitIndex >= c.upTo)
  }

  predicate ChoicesOk(ids: set<Id>, X: map<Id, Node>, R: Reigns, acks: set<Ack>, misled: set<Misled>,
                      choices: set<Choice>) {
    forall c {:trigger ChoiceOk(c, ids, X, R, acks, misled)} :: c in choices ==> ChoiceOk(c, ids, X, R, acks, misled)
  }

  /** Every commit index goes back to an index committed by counting. */
  predicate Bounded(choices: set<Choice>, k: int) {
    k == 0 || (k > 0 && exists c :: c in choices && k <= c.upTo)
  }

  predicate CommitsOk(X: map<Id, Node>, choices: set<Choice>) {
    forall n :: n in X ==> Bounded(choices, X[n].commitIndex)
  }

  // ---- Replication messages ----

  predicate KeptOrMissed(log: Log, t: int, R: Reigns, i: int)
    requires t in R && 0 <= i <= |R[t].log|
  {
    Pre(R[t].log[..i], log) || Missed(R, R.Keys, R[t].log[..i], t)
  }

  /** What the node of a deposed leader holds: its own entries, unless a later leader started without them. */
  predicate StaleOk(log: Log, t: int, X: map<Id, Node>, R: Reigns)
    requires t in R
  {
    && R[t].leader in X && X[R[t].leader].currentTerm > t
    && forall i {:trigger KeptOrMissed(log, t, R, i)} :: 1 <= i <= |R[t].log| ==> KeptOrMissed(log, t, R, i)
  }

  predicate AppendReqOk(m: Msg, X: map<Id, Node>, R: Reigns, choices: set<Choice>)
    requires m.AppendReq?
  {
    var a := m.args;
    && a.term in R && a.leader == R[a.term].leader && a.leader in X && m.to in X && m.to != a.leader
    && Sound(m.log, R) && Consecutive(m.log, 0) && Bounded(choices, a.leaderCommit)
    && (a.prevIndex <= 0 ==> a.entries == m.log)
    && (0 < a.prevIndex <= |m.log| ==> a.entries == m.log[a.prevIndex..] && a.prevTerm == m.log[a.prevIndex - 1].term)
    && (a.prevIndex > |m.log| ==> a.entries == [] && a.prevTerm == 0)
    && (a.entries != [] ==> m.tag.None? && (Pre(m.log, R[a.term].log) || StaleOk(m.log, a.term, X, R)))
  }

  predicate AppendReqsOk(X: map<Id, Node>, R: Reigns, choices: set<Choice>, net: set<Msg>) {
    forall m {:trigger AppendReqOk(m, X, R, choices)} :: m in net && m.AppendReq? ==> AppendReqOk(m, X, R, choices)
  }

  predicate ReplyOk(m: Msg, X: map<Id, Node>, R: Reigns, acks: set<Ack>, misled: set<Misled>)
    requires m.AppendResp?
  {
    && m.term in R && m.from in X
    && (m.tag.None? && m.result.success ==> CountedUpTo(m.lastSent, m.term, m.from, X, R, acks, misled))
  }

  predicate RepliesOk(X: map<Id, Node>, R: Reigns, acks: set<Ack>, misled: set<Misled>, net: set<Msg>) {
    forall m {:trigger ReplyOk(m, X, R, acks, misled)} :: m in net && m.AppendResp? ==> ReplyOk(m, X, R, acks, misled)
  }

  predicate MatchOk(x: Node, n: Id, X: map<Id, Node>, R: Reigns, acks: set<Ack>, misled: set<Misled>) {
    x.leading != 0 ==>
      && x.leading in R && R[x.leading].leader == n
      && (forall p :: p in x.matchIndex ==> CountedUpTo(x.matchIndex[p], x.leading, p, X, R, acks, misled))
  }

  predicate MatchesOk(X: map<Id, Node>, R: Reigns, acks: set<Ack>, misled: set<Misled>) {
    forall n {:trigger MatchOk(X[n], n, X, R, acks, misled)} :: n in X ==> MatchOk(X[n], n, X, R, acks, misled)
  }

  // ---- ReadIndex ----

  /** The nodes whose term is at most t. */
  function AtMost(terms: map<Id, int>, t: int): set<Id> {
    set v | v in terms && terms[v] <= t
  }

  /** The promise of a ReadIndex call, given by the state it started in. */
  predicate Fulfilled(ids: set<Id>, r: Read) {
    r.terms.Keys == ids && r.commits.Keys == ids && r.leader in ids &&
    (r.settled && Majority(ids, AtMost(r.terms, r.term)) ==>
       forall v :: v in ids ==> r.commits[v] <= r.index)
  }

  predicate QueryOk(ids: set<Id>, X: map<Id, Node>, r: Read) {
    && Fulfilled(ids, r) && r.terms[r.leader] == r.term
    && (forall v :: v in ids && v in X ==> r.terms[v] <= X[v].currentTerm)
    && (forall v :: v in r.confirmed ==> v in ids && r.terms[v] <= r.term)
  }

  predicate QueriesOk(ids: set<Id>, X: map<Id, Node>, R: Reigns, Q: map<nat, Read>, net: set<Msg>) {
    && (forall i {:trigger QueryOk(ids, X, Q[i])} :: i in Q ==>
          QueryOk(ids, X, Q[i]) && Q[i].term in R && R[Q[i].term].leader == Q[i].leader)
    && (forall m :: m in net && m.AppendReq? && m.tag.Some? ==> m.tag.value in Q)
    && (forall m :: m in net && m.AppendResp? && m.tag.Some? ==>
          m.tag.value in Q && m.from in ids && m.from in Q[m.tag.value].terms &&
          Q[m.tag.value].terms[m.from] <= m.result.term)
  }

  ghost predicate Inv(s: Cluster) {
    && ConfigOk(s.ids, s.nodes)
    && ReignsOk(s.reigns)
    && OrdersOk(s.reigns)
    && LogsOk(s.nodes, s.reigns)
    && LeadersOk(s.nodes, s.reigns)
    && VotesOk(s.nodes, s.votes, s.net)
    && VotesFollow(s.reigns, s.votes)
    && SeenOk(s.reigns, s.votes, s.seen)
    && RequestsOk(s.nodes, s.reigns, s.votes, s.net)
    && GrantsOk(s.votes, s.net)
    && ElectedOk(s.ids, s.reigns, s.votes, s.seen)
    && AcksOk(s.nodes, s.reigns, s.acks)
    && Retained(s.nodes, s.reigns, s.acks)
    && VotesCarry(s.reigns, s.seen, s.acks, s.votes)
    && MisledsOk(s.reigns, s.misled)
    && ChoicesOk(s.ids, s.nodes, s.reigns, s.acks, s.misled, s.choices)
    && CommitsOk(s.nodes, s.choices)
    && AppendReqsOk(s.nodes, s.reigns, s.choices, s.net)
    && RepliesOk(s.nodes, s.reigns, s.acks, s.misled, s.net)
    && MatchesOk(s.nodes, s.reigns, s.acks, s.misled)
    && QueriesOk(s.ids, s.nodes, s.reigns, s.queries, s.net)
  }

  // ---- Consequences that need no step ----

  lemma SoundAgree(a: Log, b: Log, R: Reigns, i: nat)
    requires Sound(a, R) && Sound(b, R) && i < |a| && i < |b| && a[i].term == b[i].term
    ensures a[..i + 1] == b[..i + 1]
  {
    assert SoundAt(a, R, i) && SoundAt(b, R, i);
  }

  /** Every entry's term is at most the last one's, and the log is a prefix of that term's reign. */
  lemma SoundLast(log: Log, R: Reigns)
    requires Sound(log, R) && ReignsOk(R) && |log| > 0
    ensures LastTermOf(log) in R && Pre(log, R[LastTermOf(log)].log)
    ensures forall i :: 0 <= i < |log| ==> log[i].term <= LastTermOf(log)
  {
    var t := LastTermOf(log);
    assert SoundAt(log, R, |log| - 1) && log[..|log|] == log;
    assert Pre(log, R[t].log);
    assert ReignOk(t, R[t]);
    forall i | 0 <= i < |log| ensures log[i].term <= t {
      assert log[i] == R[t].log[i];
    }
  }

  lemma SoundExtends(log: Log, R: Reigns, Q: Reigns)
    requires Sound(log, R) && Extends(R, Q)
    ensures Sound(log, Q)
  {
    forall i | 0 <= i < |log| ensures SoundAt(log, Q, i) {
      assert SoundAt(log, R, i);
      var t := log[i].term;
      assert Pre(R[t].log, Q[t].log);
      assert Q[t].log[..i + 1] == Q[t].log[..|R[t].log|][..i + 1];
    }
  }

  lemma PreTrans(a: Log, b: Log, c: Log)
    requires Pre(a, b) && Pre(b, c)
    ensures Pre(a, c)
  {
    assert c[..|a|] == c[..|b|][..|a|];
  }

  /** Two prefixes of one log are comparable. */
  lemma PreChain(a: Log, b: Log, c: Log)
    requires Pre(a, c) && Pre(b, c) && |a| <= |b|
    ensures Pre(a, b)
  {
    assert b[..|a|] == c[..|b|][..|a|] == c[..|a|];
  }

  /** A prefix ending in an entry of term T that is in a voter's log is in the log of any candidate the voter
      finds up to date, unless a later leader started without it. */
  lemma UpToDateCarries(R: Reigns, a: Ack, mine: Log, theirs: Log)
    requires ReignsOk(R) && Sound(mine, R) && Sound(theirs, R) && OwnTerm(R, a)
    requires Pre(Prefix(R, a), mine)
    requires LastTermOf(theirs) > LastTermOf(mine) || (LastTermOf(theirs) == LastTermOf(mine) && |theirs| >= |mine|)
    ensures Pre(Prefix(R, a), theirs) || Missed(R, R.Keys, Prefix(R, a), a.term)
  {
    var p := Prefix(R, a);
    SoundLast(mine, R);
    assert p[a.upTo - 1] == mine[a.upTo - 1];
    assert a.term <= LastTermOf(mine);
    assert ReignOk(a.term, R[a.term]);
    assert |theirs| > 0;
    SoundLast(theirs, R);
    var t := LastTermOf(theirs);
    if t == LastTermOf(mine) {
      PreChain(mine, theirs, R[t].log);
      PreTrans(p, mine, theirs);
    } else {
      assert t > a.term;
      if Pre(p, R[t].base) {
        assert ReignOk(t, R[t]);
        assert theirs[|theirs| - 1] == R[t].log[|theirs| - 1];
        assert |theirs| > |R[t].base|;
        PreTrans(p, R[t].base, R[t].log);
        PreChain(p, theirs, R[t].log);
      } else {
        assert t in R.Keys && a.term < t;
      }
    }
  }

  /** A later leader that started without a counted prefix was elected after another such leader. */
  lemma EarlierMiss(R: Reigns, seen: Seen, acks: set<Ack>, misled: set<Misled>, votes: set<Vote>, c: Choice, t: int,
                    v: Id) returns (u: int)
    requires VotesCarry(R, seen, acks, votes) && MisledsOk(R, misled)
    requires c.term in R && 1 <= c.upTo <= |R[c.term].log| && R[c.term].log[c.upTo - 1].term == c.term
    requires t in R && c.term < t && v in R[t].voters && ElectorOk(t, v, R, votes, seen)
    requires Counted(acks, misled, c.term, v, c.upTo)
    requires !Pre(R[c.term].log[..c.upTo], R[t].base)
    ensures u in R[t].before && u in R && c.term < u && !Pre(R[c.term].log[..c.upTo], R[u].base)
  {
    var a := Ack(c.term, v, c.upTo);
    if a in acks {
      var w := Vote(t, v, R[t].leader, R[t].base);
      assert Carries(R, seen, a, w);
      u :| u in seen[(t, v)] && u in R && c.term < u && !Pre(Prefix(R, a), R[u].base);
    } else {
      var b :| b in misled && b.term == c.term && b.node == v && b.upTo == c.upTo;
      assert MisledOk(b, R);
      u :| u in b.known && u in R && c.term < u && !Pre(R[c.term].log[..c.upTo], R[u].base);
    }
  }

  /** Leader Completeness: a prefix committed in one term is in the starting log of every leader of a later term. */
  lemma {:induction false} LeaderCompleteness(ids: set<Id>, X: map<Id, Node>, R: Reigns, seen: Seen, acks: set<Ack>,
                                              misled: set<Misled>, votes: set<Vote>, c: Choice, t: int)
    requires OrdersOk(R) && ElectedOk(ids, R, votes, seen) && VotesCarry(R, seen, acks, votes) && MisledsOk(R, misled)
    requires ChoiceOk(c, ids, X, R, acks, misled)
    requires t in R && c.term < t
    ensures Pre(R[c.term].log[..c.upTo], R[t].base)
    decreases R[t].before
  {
    if !Pre(R[c.term].log[..c.upTo], R[t].base) {
      var q := Counters(ids, acks, misled, c.term, c.upTo);
      MajoritiesMeet(ids, q, R[t].voters);
      var v :| v in q && v in R[t].voters && v in ids;
      assert ElectorOk(t, v, R, votes, seen);
      var u := EarlierMiss(R, seen, acks, misled, votes, c, t, v);
      assert OrderOk(t, R) && OrderOk(u, R);
      LeaderCompleteness(ids, X, R, seen, acks, misled, votes, c, u);
    }
  }
}
