/** A cluster of nodes and its runs.

    Messages, once sent, stay in `net` for ever, so a run may lose, duplicate, delay and reorder
    them at will. Each step is one critical section of one node. The remaining fields are history
    that no node reads: which votes were given, the log each elected leader started from and has
    now, which prefixes were acknowledged under a leader's term, and which were committed by
    counting.

    A leader loop checks the node's role in one critical section and builds a heartbeat in another, so
    a heartbeat may carry the loop's term and the log of a node that has since followed later leaders.

    Hypotheses on a run, all visible in `Enabled`: membership is fixed, no node restarts, no
    snapshot is installed, a term seen in a vote reply is adopted only when it is above the node's
    own, and a self-vote whose save failed is rolled back only if no vote was given in the current
    term.
 */
module RaftCluster {
  import opened Bytes
  import opened Quorum
  import opened RaftLog
  import opened RaftNode

  /** `log` is the log of the candidate when it asked. */
  datatype Vote = Vote(term: int, voter: Id, cand: Id, log: seq<Entry>)

  /** One won election: who won it with whose votes, the winner's log then (`base`) and now, and the terms won
      before it. */
  datatype Reign = Reign(leader: Id, voters: set<Id>, base: seq<Entry>, log: seq<Entry>, before: set<int>)

  type Reigns = map<int, Reign>

  /** While in `term`, `node` held the first `upTo` entries of that term's leader. */
  datatype Ack = Ack(term: int, node: Id, upTo: int)

  /** In `term`, `node` acknowledged a request that reached index `upTo` without carrying the leader's first
      `upTo` entries; `known` are the terms won until then. */
  datatype Misled = Misled(term: int, node: Id, upTo: int, known: set<int>)

  datatype Choice = Choice(term: int, upTo: int)

  /** A ReadIndex call: what it captured, whether the leader then held no entry of an earlier term above its
      commit index, the terms and commit indices of all nodes when it began, and the peers whose reply
      confirmed the leader since. */
  datatype Read = Read(leader: Id, term: int, index: int, settled: bool,
                       terms: map<Id, int>, commits: map<Id, int>, confirmed: set<Id>)

  /** `log` in a request is the sender's log when it was built; only the arguments travel. A tag
      names the ReadIndex call a heartbeat belongs to. */
  datatype Msg =
    | VoteReq(term: int, cand: Id, log: seq<Entry>)
    | VoteResp(term: int, voter: Id, cand: Id, vote: VoteResult)
    | AppendReq(to: Id, args: AppendArgs, tag: Option<nat>, log: seq<Entry>)
    | AppendResp(from: Id, to: Id, term: int, top: int, lastSent: int, tag: Option<nat>, result: AppendResult)

  /** `seen` gives, for the vote of a node in a term, the terms won until it was cast. */
  datatype Cluster = Cluster(
    ids: set<Id>, nodes: map<Id, Node>, net: set<Msg>,
    votes: set<Vote>, seen: map<(int, Id), set<int>>, reigns: Reigns, acks: set<Ack>, misled: set<Misled>,
    choices: set<Choice>, queries: map<nat, Read>)

  datatype Step =
    | TimeOut(n: Id, save: SaveOutcome)
    | CastVote(n: Id, m: Msg, saveTerm: SaveOutcome, saveVote: SaveOutcome)
    | SeeHigherTerm(n: Id, m: Msg)
    | StepDown(n: Id)
    | Win(n: Id, term: int)
    | EnterLoop(n: Id)
    | Propose(n: Id, data: Bytes, storeOk: bool)
    | Heartbeat(n: Id, peer: Id)
    | HandleAppend(n: Id, m: Msg, save: SaveOutcome, writes: nat)
    | HandleReply(n: Id, m: Msg)
    | CommitAlone(n: Id)
    | Deliver(n: Id)
    | BeginRead(n: Id, read: nat)
    | Probe(read: nat, peer: Id)
    | ConfirmRead(m: Msg)

  function LastTermOf(log: seq<Entry>): int {
    if |log| == 0 then 0 else log[|log| - 1].term
  }

  function AcksUpTo(term: int, node: Id, k: int): set<Ack> {
    set i | 1 <= i <= k :: Ack(term, node, i)
  }

  function Grants(s: Cluster, n: Id, term: int): set<Id> {
    set v | v in s.ids && VoteResp(term, v, n, VoteResult(term, true)) in s.net
  }

  predicate Asked(s: Cluster, n: Id, term: int) {
    exists m :: m in s.net && m.VoteReq? && m.term == term && m.cand == n
  }

  predicate Enabled(s: Cluster, st: Step) {
    match st
    case TimeOut(n, save) =>
      n in s.ids && n in s.nodes && s.nodes[n].role != Leader &&
      (save.Saved? || s.nodes[n].votedFor == NOBODY)
    case CastVote(n, m, _, _) =>
      n in s.ids && n in s.nodes && m in s.net && m.VoteReq? && m.cand != n
    case SeeHigherTerm(n, m) =>
      n in s.ids && n in s.nodes && m in s.net && m.VoteResp? && m.cand == n &&
      s.nodes[n].role != Leader && m.vote.term > s.nodes[n].currentTerm
    case StepDown(n) =>
      n in s.ids && n in s.nodes && s.nodes[n].role == Candidate
    case Win(n, term) =>
      n in s.ids && n in s.nodes && s.nodes[n].role != Leader && Asked(s, n, term) &&
      Passes(s.nodes[n].cfg, Grants(s, n, term))
    case EnterLoop(n) =>
      n in s.ids && n in s.nodes && s.nodes[n].role == Leader
    case Propose(n, _, _) =>
      n in s.ids && n in s.nodes
    case Heartbeat(n, peer) =>
      n in s.ids && n in s.nodes && peer in s.ids && peer != n && s.nodes[n].leading != 0
    case HandleAppend(n, m, _, _) =>
      n in s.ids && n in s.nodes && m in s.net && m.AppendReq? && m.to == n
    case HandleReply(n, m) =>
      n in s.ids && n in s.nodes && m in s.net && m.AppendResp? && m.to == n && m.tag.None? &&
      m.term == s.nodes[n].leading
    case CommitAlone(n) =>
      n in s.ids && n in s.nodes && s.nodes[n].cfg.voters == [] &&
      s.nodes[n].role == Leader && s.nodes[n].leading == s.nodes[n].currentTerm
    case Deliver(n) =>
      n in s.ids && n in s.nodes
    case BeginRead(n, read) =>
      n in s.ids && n in s.nodes && s.nodes[n].role == Leader && read !in s.queries
    case Probe(read, peer) =>
      read in s.queries && s.queries[read].leader in s.nodes && peer in s.ids && peer != s.queries[read].leader
    case ConfirmRead(m) =>
      m in s.net && m.AppendResp? && m.tag.Some? && m.tag.value in s.queries &&
      m.result.term <= s.queries[m.tag.value].term
  }

  function Do(s: Cluster, st: Step): Cluster
    requires Enabled(s, st)
  {
    match st
    case TimeOut(n, save) => DoTimeOut(s, n, save)
    case CastVote(n, m, saveTerm, saveVote) => DoCastVote(s, n, m, saveTerm, saveVote)
    case SeeHigherTerm(n, m) => Put(s, n, OnHigherVoteReply(s.nodes[n], m.vote.term))
    case StepDown(n) => Put(s, n, s.nodes[n].(role := Follower))
    case Win(n, term) => DoWin(s, n, term)
    case EnterLoop(n) => Put(s, n, EnterLeaderLoop(s.nodes[n]))
    case Propose(n, data, storeOk) => DoPropose(s, n, data, storeOk)
    case Heartbeat(n, peer) =>
      Send(s, AppendReq(peer, BuildAppend(s.nodes[n], s.nodes[n].leading, peer), None, s.nodes[n].log))
    case HandleAppend(n, m, save, writes) => DoAppend(s, n, m, save, writes)
    case HandleReply(n, m) => DoReply(s, n, m)
    case CommitAlone(n) => DoAdvance(s, n, s.nodes[n].leading, s.nodes[n].LastIndex())
    case Deliver(n) => Put(s, n, ApplyCommitted(s.nodes[n]))
    case BeginRead(n, read) => DoBeginRead(s, n, read)
    case Probe(read, peer) => DoProbe(s, read, peer)
    case ConfirmRead(m) => DoConfirm(s, m)
  }

  /** Node `n` moves to state `x`. */
  function Put(s: Cluster, n: Id, x: Node): Cluster {
    s.(nodes := s.nodes[n := x])
  }

  function Send(s: Cluster, m: Msg): Cluster {
    s.(net := s.net + {m})
  }

  function DoProbe(s: Cluster, read: nat, peer: Id): Cluster
    requires read in s.queries && s.queries[read].leader in s.nodes
  {
    var x := s.nodes[s.queries[read].leader];
    Send(s, AppendReq(peer, BuildProbe(x, s.queries[read].term), Some(read), x.log))
  }

  function DoConfirm(s: Cluster, m: Msg): Cluster
    requires m.AppendResp? && m.tag.Some? && m.tag.value in s.queries
  {
    var r := s.queries[m.tag.value];
    s.(queries := s.queries[m.tag.value := r.(confirmed := r.confirmed + {m.from})])
  }

  /** The first vote of a node in a term fixes what it had seen. */
  function See(s: Cluster, term: int, n: Id): map<(int, Id), set<int>> {
    if (term, n) in s.seen then s.seen else s.seen[(term, n) := s.reigns.Keys]
  }

  function DoTimeOut(s: Cluster, n: Id, save: SaveOutcome): Cluster
    requires n in s.nodes
  {
    var x := StartElection(s.nodes[n], save);
    if save.Saved? then
      s.(nodes := s.nodes[n := x],
         net := s.net + {VoteReq(x.currentTerm, n, x.log)},
         votes := s.votes + {Vote(x.currentTerm, n, n, x.log)},
         seen := See(s, x.currentTerm, n))
    else s.(nodes := s.nodes[n := x])
  }

  function DoCastVote(s: Cluster, n: Id, m: Msg, saveTerm: SaveOutcome, saveVote: SaveOutcome): Cluster
    requires n in s.nodes && m.VoteReq?
  {
    var (x, r) := OnRequestVote(s.nodes[n], m.term, m.cand, |m.log|, LastTermOf(m.log), saveTerm, saveVote);
    s.(nodes := s.nodes[n := x],
       net := s.net + {VoteResp(m.term, n, m.cand, r)},
       votes := s.votes + if r.granted then {Vote(m.term, n, m.cand, m.log)} else {},
       seen := if r.granted then See(s, m.term, n) else s.seen)
  }

  /** The votes asked for in `term` reached a quorum. Whether the node still is in that term is for the node to check:
      a node that comes out as leader reigns in the term it is in. */
  function DoWin(s: Cluster, n: Id, term: int): Cluster
    requires n in s.nodes
  {
    var x := OnWin(s.nodes[n], term);
    var t := x.currentTerm;
    if x.role == Leader then
      s.(nodes := s.nodes[n := x],
         reigns := s.reigns[t := Reign(n, Grants(s, n, term) + {n}, x.log, x.log, s.reigns.Keys)],
         acks := s.acks + AcksUpTo(t, n, |x.log|))
    else s.(nodes := s.nodes[n := x])
  }

  function DoPropose(s: Cluster, n: Id, data: Bytes, storeOk: bool): Cluster
    requires n in s.nodes
  {
    var x := OnPropose(s.nodes[n], data, storeOk);
    var t := x.currentTerm;
    if x.role == Leader && t in s.reigns then
      s.(nodes := s.nodes[n := x],
         reigns := s.reigns[t := s.reigns[t].(log := x.log)],
         acks := s.acks + AcksUpTo(t, n, |x.log|))
    else s.(nodes := s.nodes[n := x])
  }

  /** The request carries the first `i` entries of its term's leader. */
  predicate Agreed(R: Reigns, m: Msg, i: int)
    requires m.AppendReq?
  {
    m.args.term in R && 0 <= i <= |R[m.args.term].log| && i <= |m.log| && R[m.args.term].log[..i] == m.log[..i]
  }

  function NewAcks(R: Reigns, n: Id, m: Msg): set<Ack>
    requires m.AppendReq?
  {
    set i | 1 <= i <= LastSent(m.args.entries) && Agreed(R, m, i) :: Ack(m.args.term, n, i)
  }

  function NewMisled(R: Reigns, n: Id, m: Msg): set<Misled>
    requires m.AppendReq?
  {
    set i | 1 <= i <= LastSent(m.args.entries) && m.args.term in R && i <= |R[m.args.term].log| && !Agreed(R, m, i) ::
      Misled(m.args.term, n, i, R.Keys)
  }

  function DoAppend(s: Cluster, n: Id, m: Msg, save: SaveOutcome, writes: nat): Cluster
    requires n in s.nodes && m.AppendReq?
  {
    var (x, r) := OnAppend(s.nodes[n], m.args, save, writes);
    var sent := LastSent(m.args.entries);
    s.(nodes := s.nodes[n := x],
       net := s.net + {AppendResp(n, m.args.leader, m.args.term, |m.log|, sent, m.tag, r)},
       acks := s.acks + if r.success && m.tag.None? then NewAcks(s.reigns, n, m) else {},
       misled := s.misled + if r.success && m.tag.None? then NewMisled(s.reigns, n, m) else {})
  }

  function DoReply(s: Cluster, n: Id, m: Msg): Cluster
    requires n in s.nodes && m.AppendResp?
  {
    var x := OnAppendReply(s.nodes[n], m.from, m.term, m.top, m.lastSent, m.result);
    s.(nodes := s.nodes[n := x],
       choices := s.choices + if x.commitIndex > s.nodes[n].commitIndex
                              then {Choice(m.term, x.commitIndex)} else {})
  }

  function DoAdvance(s: Cluster, n: Id, term: int, top: int): Cluster
    requires n in s.nodes
  {
    var x := AdvanceCommit(s.nodes[n], term, top);
    s.(nodes := s.nodes[n := x],
       choices := s.choices + if x.commitIndex > s.nodes[n].commitIndex then {Choice(term, x.commitIndex)} else {})
  }

  function TermsOf(X: map<Id, Node>): map<Id, int> {
    map v | v in X :: X[v].currentTerm
  }

  function CommitsOf(X: map<Id, Node>): map<Id, int> {
    map v | v in X :: X[v].commitIndex
  }

  /** No entry of an earlier term lies above the commit index. */
  predicate Settled(x: Node) {
    forall i :: 0 <= i < |x.log| && x.log[i].term != x.currentTerm ==> x.log[i].index <= x.commitIndex
  }

  function DoBeginRead(s: Cluster, n: Id, read: nat): Cluster
    requires n in s.nodes
  {
    var x := s.nodes[n];
    s.(queries := s.queries[read := Read(n, x.currentTerm, x.commitIndex, Settled(x),
                                     TermsOf(s.nodes), CommitsOf(s.nodes), {})])
  }

  // ---- Runs ----

  predicate Fresh(x: Node, n: Id, ids: set<Id>) {
    && x.id == n && x.cfg.phase == Stable && Lists(ids, n, x.cfg.voters)
    && x.currentTerm == 0 && x.votedFor == NOBODY && x.role == Follower
    && x.log == [] && x.snapIndex == 0 && x.snapTerm == 0
    && x.commitIndex == 0 && x.lastApplied == 0 && x.delivered == []
    && x.matchIndex == map[] && x.leading == 0
  }

  predicate Init(s: Cluster) {
    && NOBODY !in s.ids && s.nodes.Keys == s.ids
    && (forall n :: n in s.ids ==> Fresh(s.nodes[n], n, s.ids))
    && s.net == {} && s.votes == {} && s.seen == map[] && s.reigns == map[]
    && s.acks == {} && s.misled == {} && s.choices == {} && s.queries == map[]
  }

  /** A run: an initial state, and each later state the effect of an enabled step. */
  ghost predicate IsRun(run: seq<Cluster>) {
    && |run| > 0 && Init(run[0])
    && forall i :: 0 < i < |run| ==> Follows(run[i - 1], run[i])
  }

  ghost predicate Follows(s: Cluster, t: Cluster) {
    exists st :: StepsTo(s, st, t)
  }

  predicate StepsTo(s: Cluster, st: Step, t: Cluster) {
    Enabled(s, st) && t == Do(s, st)
  }

  /** A run together with the steps it takes. */
  predicate IsRunBy(run: seq<Cluster>, steps: seq<Step>) {
    && |run| == |steps| + 1 && Init(run[0])
    && forall i {:trigger StepsTo(run[i], steps[i], run[i + 1])} :: 0 <= i < |steps| ==>
        StepsTo(run[i], steps[i], run[i + 1])
  }

  lemma RunByIsRun(run: seq<Cluster>, steps: seq<Step>)
    requires IsRunBy(run, steps)
    ensures IsRun(run)
  {
    forall i | 0 < i < |run| ensures Follows(run[i - 1], run[i]) {
      var h := i - 1;
      assert StepsTo(run[h], steps[h], run[h + 1]);
    }
  }
}
