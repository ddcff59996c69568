/** Runs whose heartbeats are prompt: each is built while the node still leads.

    In such runs a request carries nothing but its leader's own log, a node holds no entry of a term above its own,
    and every commit index is covered by a whole prefix committed by counting, in a term the node has reached.
    Hence no append ever cuts at or below a commit index, and whatever a node has committed is in the log of every
    later leader.
 */
module RaftPrompt {
  import opened Quorum
  import opened RaftLog
  import opened RaftNode
  import opened RaftCluster
  import opened RaftInvariant
  import opened RaftReplication
  import opened RaftTheorems
  import opened RaftCommit

  predicate TermsBounded(x: Node) {
    forall i :: 0 <= i < |x.log| ==> x.log[i].term <= x.currentTerm
  }

  /** The request carries its leader's own entries. */
  predicate Own(m: Msg, R: Reigns)
    requires m.AppendReq?
  {
    m.args.entries != [] ==> m.args.term in R && Pre(m.log, R[m.args.term].log)
  }

  predicate Bounds(X: map<Id, Node>) {
    forall n {:trigger TermsBounded(X[n])} :: n in X ==> TermsBounded(X[n])
  }

  predicate Owns(net: set<Msg>, R: Reigns) {
    forall m {:trigger Own(m, R)} :: m in net && m.AppendReq? ==> Own(m, R)
  }

  predicate Prompt(s: Cluster) {
    AllCovered(s, true) && Bounds(s.nodes) && Owns(s.net, s.reigns)
  }

  predicate PromptStep(s: Cluster, st: Step)
    requires Enabled(s, st)
  {
    st.Heartbeat? ==> s.nodes[st.n].role == Leader
  }

  // ---- Terms and requests ----

  lemma OwnLater(m: Msg, R: Reigns, Q: Reigns)
    requires m.AppendReq? && Own(m, R) && Extends(R, Q)
    ensures Own(m, Q)
  {
    if m.args.entries != [] { PreTrans(m.log, R[m.args.term].log, Q[m.args.term].log); }
  }

  lemma AddsBounded(x: Node, y: Node)
    requires TermsBounded(x) && Adds(x, y) && y.currentTerm >= x.currentTerm
    ensures TermsBounded(y)
  {
    forall i | 0 <= i < |y.log| ensures y.log[i].term <= y.currentTerm {
      if i < |x.log| { assert y.log[i] == y.log[..|x.log|][i] == x.log[i]; }
    }
  }

  lemma OwnsLater(net: set<Msg>, more: set<Msg>, R: Reigns, Q: Reigns)
    requires Owns(net, R) && Extends(R, Q)
    requires forall m :: m in more && m.AppendReq? ==> m in net || Own(m, Q)
    ensures Owns(more, Q)
  {
    forall m | m in more && m.AppendReq? ensures Own(m, Q) {
      if m in net { OwnLater(m, R, Q); }
    }
  }

  lemma CalmKeepsTerms(s: Cluster, st: Step, t: Cluster)
    requires Bounds(s.nodes) && Owns(s.net, s.reigns) && Enabled(s, st) && KeepsReigns(s, st) && Calm(st) &&
             t == Do(s, st)
    ensures Bounds(t.nodes) && Owns(t.net, t.reigns)
  {
    StepLater(s, st);
    CalmAdds(s, st);
    forall n | n in t.nodes ensures TermsBounded(t.nodes[n]) {
      assert n in s.nodes.Keys;
      assert NodeLater(s.nodes[n], t.nodes[n]) && Rests(s.nodes[n], t.nodes[n]);
      AddsBounded(s.nodes[n], t.nodes[n]);
    }
    OwnsLater(s.net, t.net, s.reigns, t.reigns);
  }

  lemma CountsKeepsTerms(s: Cluster, st: Step, t: Cluster)
    requires Bounds(s.nodes) && Owns(s.net, s.reigns) && Enabled(s, st) && Counts(st) && t == Do(s, st)
    ensures Bounds(t.nodes) && Owns(t.net, t.reigns)
  {
    CountsShape(s, st, t);
    forall n | n in t.nodes ensures TermsBounded(t.nodes[n]) {
      assert n in s.nodes.Keys && TermsBounded(s.nodes[n]);
    }
  }

  lemma ProbeOwns(s: Cluster, read: nat, peer: Id)
    requires Owns(s.net, s.reigns) && Enabled(s, Probe(read, peer))
    ensures Owns(DoProbe(s, read, peer).net, s.reigns)
  {}

  /** A heartbeat built while leading carries the leader's own log. */
  lemma HeartbeatOwns(s: Cluster, n: Id, peer: Id)
    requires Owns(s.net, s.reigns) && LeadersOk(s.nodes, s.reigns)
    requires Enabled(s, Heartbeat(n, peer)) && s.nodes[n].role == Leader
    ensures Owns(Do(s, Heartbeat(n, peer)).net, s.reigns)
  {
    var l := s.nodes[n].log;
    assert l[..|l|] == l;
  }

  lemma OtherKeepsTerms(s: Cluster, st: Step)
    requires Bounds(s.nodes) && Owns(s.net, s.reigns) && LeadersOk(s.nodes, s.reigns)
    requires Enabled(s, st) && KeepsReigns(s, st) && PromptStep(s, st) && !st.HandleAppend?
    ensures Bounds(Do(s, st).nodes) && Owns(Do(s, st).net, Do(s, st).reigns)
  {
    if st.Heartbeat? {
      HeartbeatOwns(s, st.n, st.peer);
    } else if st.Probe? {
      ProbeOwns(s, st.read, st.peer);
    } else if Counts(st) {
      CountsKeepsTerms(s, st, Do(s, st));
    } else if st.Deliver? {
      forall n | n in Do(s, st).nodes ensures TermsBounded(Do(s, st).nodes[n]) { assert TermsBounded(s.nodes[n]); }
    } else {
      CalmKeepsTerms(s, st, Do(s, st));
    }
  }

  // ---- Appends ----

  lemma AppendBounded(x: Node, y: Node, m: Msg, r: AppendResult, R: Reigns)
    requires m.AppendReq? && Appends(x, y, m, r) && Own(m, R) && ReignsOk(R) && TermsBounded(x)
    ensures TermsBounded(y)
  {
    if y.log != x.log && m.args.term >= x.currentTerm {
      var t := m.args.term;
      assert ReignOk(t, R[t]);
      forall i | 0 <= i < |y.log| ensures y.log[i].term <= t {
        assert y.log[i] == m.log[..|y.log|][i] == R[t].log[..|m.log|][i];
      }
    }
  }

  /** A whole committed prefix that a node holds is one of its leader's, when that leads a term it can follow. */
  lemma ChosenNotContradicted(s: Cluster, x: Node, m: Msg, c: Choice)
    requires Chosen(s) && TermsBounded(x) && c in s.choices && Holds(s.reigns, c, x.log, c.upTo)
    requires m.AppendReq? && Own(m, s.reigns) && m.args.entries != [] && m.args.term >= x.currentTerm
    ensures Comparable(s.reigns[c.term].log[..c.upTo], m.log)
  {
    var R, t := s.reigns, m.args.term;
    var p, l := R[c.term].log[..c.upTo], R[t].log;
    assert ChoiceOk(c, s.ids, s.nodes, R, s.acks, s.misled);
    assert x.log[c.upTo - 1] == x.log[..c.upTo][c.upTo - 1] == p[c.upTo - 1];
    if c.term < t {
      LeaderCompleteness(s.ids, s.nodes, R, s.seen, s.acks, s.misled, s.votes, c, t);
      assert ReignOk(t, R[t]);
      PreTrans(p, R[t].base, l);
    }
    if |p| <= |m.log| { PreChain(p, m.log, l); } else { PreChain(m.log, p, l); }
  }

  lemma ChosenKept(s: Cluster, n: Id, m: Msg, save: SaveOutcome, writes: nat, c: Choice)
    requires Appendable(s, n, m, save, writes) && TermsBounded(s.nodes[n]) && Own(m, s.reigns)
    requires c in s.choices && Holds(s.reigns, c, s.nodes[n].log, c.upTo)
    ensures Pre(s.reigns[c.term].log[..c.upTo], OnAppend(s.nodes[n], m.args, save, writes).0.log)
  {
    var x, p := s.nodes[n], s.reigns[c.term].log[..c.upTo];
    if m.args.term >= x.currentTerm {
      if m.args.entries != [] { ChosenNotContradicted(s, x, m, c); }
      AppendKeepsPrefix(x, m, save, writes, s.reigns, p);
    }
  }

  lemma PromptAppendNode(s: Cluster, n: Id, m: Msg, save: SaveOutcome, writes: nat)
    requires Appendable(s, n, m, save, writes) && TermsBounded(s.nodes[n]) && Own(m, s.reigns)
    requires NodeCovered(s.nodes[n], s.reigns, s.choices, true) && RequestCovered(m, s.reigns, s.choices, true)
    ensures NodeCovered(OnAppend(s.nodes[n], m.args, save, writes).0, s.reigns, s.choices, true)
  {
    var x, R := s.nodes[n], s.reigns;
    var (y, r) := OnAppend(x, m.args, save, writes);
    if x.commitIndex > 0 {
      var c :| c in s.choices && x.commitIndex <= c.upTo && Holds(R, c, x.log, c.upTo);
      var p := R[c.term].log[..c.upTo];
      ChosenKept(s, n, m, save, writes, c);
      assert p[..c.upTo] == p && Holds(R, c, p, Reach(c, x.commitIndex, true));
      AppendCovered(x, y, m, r, R, s.choices, p, true);
    } else {
      AppendCovered(x, y, m, r, R, s.choices, [], true);
    }
  }

  lemma PromptAppend(s: Cluster, n: Id, m: Msg, save: SaveOutcome, writes: nat)
    requires Appendable(s, n, m, save, writes) && Prompt(s) && m in s.net
    ensures Prompt(DoAppend(s, n, m, save, writes))
  {
    var (y, r) := OnAppend(s.nodes[n], m.args, save, writes);
    var t := DoAppend(s, n, m, save, writes);
    assert TermsBounded(s.nodes[n]) && Own(m, s.reigns);
    assert NodeCovered(s.nodes[n], s.reigns, s.choices, true) && RequestCovered(m, s.reigns, s.choices, true);
    PromptAppendNode(s, n, m, save, writes);
    AppendNodes(s, n, m, save, writes, true);
    AppendBounded(s.nodes[n], y, m, r, s.reigns);
    forall v | v in t.nodes ensures TermsBounded(t.nodes[v]) {
      if v != n { assert TermsBounded(s.nodes[v]); }
    }
  }

  // ---- Runs ----

  lemma StepStaysPrompt(s: Cluster, st: Step)
    requires Inv(s) && Prompt(s) && Enabled(s, st) && PromptStep(s, st)
    ensures Prompt(Do(s, st))
  {
    if st.HandleAppend? {
      InvAppendable(s, st.n, st.m, st.save, st.writes);
      PromptAppend(s, st.n, st.m, st.save, st.writes);
    } else {
      InvKeepsReigns(s, st);
      OtherCovered(s, st, true);
      OtherKeepsTerms(s, st);
    }
  }

  predicate PromptRun(run: seq<Cluster>, steps: seq<Step>) {
    forall i: nat {:trigger steps[i]} :: i < |steps| && i < |run| && Enabled(run[i], steps[i]) ==>
        PromptStep(run[i], steps[i])
  }

  lemma {:induction false} RunStaysPrompt(run: seq<Cluster>, steps: seq<Step>, i: nat)
    requires IsRunBy(run, steps) && PromptRun(run, steps) && i < |run|
    ensures Prompt(run[i])
  {
    if i == 0 {
      InitCovered(run[0], true);
    } else {
      var h := i - 1;
      RunStaysPrompt(run, steps, h);
      RunByIsRun(run, steps);
      RunKeeps(run, h);
      assert StepsTo(run[h], steps[h], run[h + 1]);
      StepStaysPrompt(run[h], steps[h]);
    }
  }

  /** A run with prompt heartbeats never cuts at or below a commit index, so State Machine Safety holds in it. */
  lemma PromptNeverCuts(run: seq<Cluster>, steps: seq<Step>, i: nat)
    requires IsRunBy(run, steps) && PromptRun(run, steps) && i < |run|
    ensures Uncut(run, steps, i)
  {
    forall h: nat | h <= i ensures AllCovered(run[h], false) {
      RunStaysPrompt(run, steps, h);
      AllCoveredPart(run[h]);
    }
    RunCoversExactly(run, steps, i);
  }

  lemma PromptStateMachineSafety(run: seq<Cluster>, steps: seq<Step>, i: nat, j: nat, n: Id, m: Id, k: int)
    requires IsRunBy(run, steps) && PromptRun(run, steps) && i < |run| && j < |run| && n in run[i].nodes &&
             m in run[j].nodes
    requires 1 <= k <= |run[i].nodes[n].delivered| && k <= |run[j].nodes[m].delivered|
    ensures run[i].nodes[n].delivered[k - 1] == run[j].nodes[m].delivered[k - 1]
    ensures run[i].nodes[n].delivered[k - 1].index == k
  {
    PromptNeverCuts(run, steps, i);
    PromptNeverCuts(run, steps, j);
    StateMachineSafety(run, steps, i, j, n, m, k);
  }

  lemma PromptDeliversAll(run: seq<Cluster>, steps: seq<Step>, i: nat)
    requires IsRunBy(run, steps) && PromptRun(run, steps) && i < |steps| && steps[i].Deliver?
    ensures steps[i].n in run[i + 1].nodes && CaughtUp(run[i + 1].nodes[steps[i].n])
  {
    PromptNeverCuts(run, steps, i);
    DeliveredAll(run, steps, i);
  }

  /** In a run with prompt heartbeats, what a node has committed, by counting or by hearsay, is in the log of every
      leader of a term above the node's. */
  lemma CommittedIsInLaterLeaders(run: seq<Cluster>, steps: seq<Step>, i: nat, j: nat, v: Id, n: Id)
    requires IsRunBy(run, steps) && PromptRun(run, steps) && i < |run| && j < |run| && v in run[i].nodes &&
             n in run[j].nodes
    requires run[j].nodes[n].role == Leader && run[j].nodes[n].currentTerm > run[i].nodes[v].currentTerm
    ensures 0 <= run[i].nodes[v].commitIndex <= |run[i].nodes[v].log|
    ensures Pre(run[i].nodes[v].log[..run[i].nodes[v].commitIndex], run[j].nodes[n].log)
  {
    var x, u, h := run[i].nodes[v], run[j].nodes[n].currentTerm, if i <= j then j else i;
    RunByIsRun(run, steps);
    RunStaysPrompt(run, steps, i);
    assert NodeCovered(x, run[i].reigns, run[i].choices, true) && TermsBounded(x);
    if x.commitIndex > 0 {
      var c :| c in run[i].choices && x.commitIndex <= c.upTo && Holds(run[i].reigns, c, x.log, c.upTo);
      ReachedTerm(run, i, x, c);
      ChosenReachesLeader(run, i, j, h, c, u, n);
      HeldReachesLeader(run[i].reigns, x, c, run[j].nodes[n].log);
    }
  }

  lemma ReachedTerm(run: seq<Cluster>, i: nat, x: Node, c: Choice)
    requires IsRun(run) && i < |run| && c in run[i].choices && TermsBounded(x) && Holds(run[i].reigns, c, x.log, c.upTo)
    ensures 1 <= c.upTo && c.term <= x.currentTerm
  {
    RunKeeps(run, i);
    assert ChoiceOk(c, run[i].ids, run[i].nodes, run[i].reigns, run[i].acks, run[i].misled);
    assert x.log[c.upTo - 1] == x.log[..c.upTo][c.upTo - 1];
  }

  lemma ChosenReachesLeader(run: seq<Cluster>, i: nat, j: nat, h: nat, c: Choice, u: int, n: Id)
    requires IsRun(run) && i <= h < |run| && j <= h && c in run[i].choices && c.term in run[i].reigns
    requires 1 <= c.upTo <= |run[i].reigns[c.term].log| && n in run[j].nodes && run[j].nodes[n].role == Leader
    requires u == run[j].nodes[n].currentTerm > c.term
    ensures Pre(run[i].reigns[c.term].log[..c.upTo], run[j].nodes[n].log)
  {
    assert u in run[j].reigns && run[j].reigns[u].log == run[j].nodes[n].log && ReignsOk(run[j].reigns) by {
      RunKeeps(run, j);
    }
    assert Extends(run[j].reigns, run[h].reigns) by { RunLater(run, j, h); }
    assert Extends(run[i].reigns, run[h].reigns) && c in run[h].choices by { RunLater(run, i, h); }
    RunKeeps(run, h);
    ChosenIsInReign(run[i], run[h], c, u);
    InBase(run[i].reigns[c.term].log[..c.upTo], run[j].reigns, run[h].reigns, u);
  }

  lemma HeldReachesLeader(R: Reigns, x: Node, c: Choice, log: Log)
    requires 0 <= x.commitIndex <= c.upTo && Holds(R, c, x.log, c.upTo) && Pre(R[c.term].log[..c.upTo], log)
    ensures Pre(x.log[..x.commitIndex], log)
  {
    var p := R[c.term].log[..c.upTo];
    assert x.log[..x.commitIndex] == p[..x.commitIndex];
    PreTrans(x.log[..x.commitIndex], p, log);
  }
}
