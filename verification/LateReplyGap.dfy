/** A run of three nodes in which a late vote reply gives one term two leaders.

    A candidate adopts the term of any vote reply above its election's term, without comparing it to its own
    (`LooseEnabled`). "n" runs for term 1 and "a", already in term 2, refuses it. Before the refusal arrives, "n" votes
    for "a" in term 2. The refusal then makes "n" adopt term 2 once more and forget the vote, and "n" votes for "b".
 */
module LateReplyGap {
  import opened Quorum
  import opened RaftNode
  import opened RaftCluster

  // ---- Runs without the guard ----

  /** What the code asks before it adopts the term of a vote reply: that it is above the election's. */
  predicate LooseEnabled(s: Cluster, st: Step) {
    if st.SeeHigherTerm? then
      st.n in s.ids && st.n in s.nodes && st.m in s.net && st.m.VoteResp? && st.m.cand == st.n &&
      s.nodes[st.n].role != Leader && st.m.vote.term > st.m.term
    else Enabled(s, st)
  }

  function LooseDo(s: Cluster, st: Step): Cluster
    requires LooseEnabled(s, st)
  {
    if st.SeeHigherTerm? then Put(s, st.n, OnHigherVoteReply(s.nodes[st.n], st.m.vote.term)) else Do(s, st)
  }

  predicate LooseTo(s: Cluster, st: Step, t: Cluster) { LooseEnabled(s, st) && t == LooseDo(s, st) }

  predicate IsLooseRun(run: seq<Cluster>, steps: seq<Step>) {
    && |run| == |steps| + 1 && Init(run[0])
    && forall i {:trigger LooseTo(run[i], steps[i], run[i + 1])} :: 0 <= i < |steps| ==>
         LooseTo(run[i], steps[i], run[i + 1])
  }

  predicate Ends(run: seq<Cluster>, steps: seq<Step>, s: Cluster) { IsLooseRun(run, steps) && run[|run| - 1] == s }

  lemma Grow(run: seq<Cluster>, steps: seq<Step>, s: Cluster, st: Step)
    returns (more: seq<Cluster>, taken: seq<Step>, t: Cluster)
    requires Ends(run, steps, s) && LooseEnabled(s, st)
    ensures Ends(more, taken, t) && t == LooseDo(s, st)
  {
    t := LooseDo(s, st);
    more, taken := run + [t], steps + [st];
    forall i | 0 <= i < |taken| ensures LooseTo(more[i], taken[i], more[i + 1]) {
      if i < |steps| { assert LooseTo(run[i], steps[i], run[i + 1]); }
    }
  }

  // ---- The states the nodes go through ----

  const THREE: set<Id> := {"a", "b", "n"}

  function Started(id: Id, voters: seq<Id>): Node {
    Node(id, ClusterConfig(Stable, voters, []), 0, NOBODY, Follower, NOBODY, [], 0, 0, 0, 0, [], map[], map[], 0,
         Meta(0, NOBODY))
  }

  const A0: Node := Started("a", ["b", "n"])
  const A1: Node := A0.(currentTerm := 1, votedFor := "a", role := Candidate, disk := Meta(1, "a"))
  const A2: Node := A1.(currentTerm := 2, disk := Meta(2, "a"))
  const A3: Node := A2.(role := Leader)
  const B0: Node := Started("b", ["a", "n"])
  const B1: Node := B0.(currentTerm := 1, votedFor := "b", role := Candidate, disk := Meta(1, "b"))
  const B2: Node := B1.(currentTerm := 2, disk := Meta(2, "b"))
  const B3: Node := B2.(role := Leader)
  const N0: Node := Started("n", ["a", "b"])
  const N1: Node := N0.(currentTerm := 1, votedFor := "n", role := Candidate, disk := Meta(1, "n"))
  const N2: Node := N1.(currentTerm := 2, votedFor := "a", role := Follower, disk := Meta(2, "a"))
  const N3: Node := N2.(votedFor := NOBODY)
  const N4: Node := N3.(votedFor := "b", disk := Meta(2, "b"))

  predicate At(s: Cluster, a: Node, b: Node, n: Node) {
    s.ids == THREE && s.nodes == map["a" := a, "b" := b, "n" := n]
  }

  /** The step leads to these node states, with these messages sent. */
  predicate Takes(s: Cluster, st: Step, a: Node, b: Node, n: Node, sent: set<Msg>) {
    LooseEnabled(s, st) && At(LooseDo(s, st), a, b, n) && sent <= LooseDo(s, st).net
  }

  const ASK_N: Msg := VoteReq(1, "n", [])
  const ASK_A: Msg := VoteReq(2, "a", [])
  const ASK_B: Msg := VoteReq(2, "b", [])
  const REFUSED: Msg := VoteResp(1, "a", "n", VoteResult(2, false))

  function Yes(cand: Id): Msg { VoteResp(2, "n", cand, VoteResult(2, true)) }

  lemma OnePeer(voters: seq<Id>, acks: set<Id>, i: nat)
    requires |voters| == 2 && i < 2 && voters[i] in acks
    ensures Passes(ClusterConfig(Stable, voters, []), acks)
  {
    var v1 := voters[..1];
    assert v1[..0] == [];
    assert CountAcks(v1, acks) == if voters[0] in acks then 1 else 0;
  }

  // ---- The steps ----

  lemma AskN(s: Cluster)
    requires At(s, A0, B0, N0)
    ensures Takes(s, TimeOut("n", Saved), A0, B0, N1, {ASK_N})
  {}

  lemma AskA1(s: Cluster)
    requires At(s, A0, B0, N1) && ASK_N in s.net
    ensures Takes(s, TimeOut("a", Saved), A1, B0, N1, {ASK_N})
  {}

  lemma AskA2(s: Cluster)
    requires At(s, A1, B0, N1) && ASK_N in s.net
    ensures Takes(s, TimeOut("a", Saved), A2, B0, N1, {ASK_N, ASK_A})
  {}

  lemma RefuseN(s: Cluster)
    requires At(s, A2, B0, N1) && {ASK_N, ASK_A} <= s.net
    ensures Takes(s, CastVote("a", ASK_N, Saved, Saved), A2, B0, N1, {ASK_A, REFUSED})
  {
    assert ASK_N in s.net;
  }

  lemma GrantA(s: Cluster)
    requires At(s, A2, B0, N1) && {ASK_A, REFUSED} <= s.net
    ensures Takes(s, CastVote("n", ASK_A, Saved, Saved), A2, B0, N2, {ASK_A, REFUSED, Yes("a")})
  {
    assert ASK_A in s.net;
    assert OnRequestVote(N1, 2, "a", 0, 0, Saved, Saved) == (N2, VoteResult(2, true));
  }

  lemma WinA(s: Cluster)
    requires At(s, A2, B0, N2) && {ASK_A, REFUSED, Yes("a")} <= s.net
    ensures Takes(s, Win("a", 2), A3, B0, N2, {REFUSED})
  {
    assert ASK_A in s.net && Yes("a") in s.net;
    assert "n" in Grants(s, "a", 2);
    OnePeer(A0.cfg.voters, Grants(s, "a", 2), 1);
    assert Asked(s, "a", 2);
  }

  /** "n" adopts the term it is in, and forgets its vote. */
  lemma Forget(s: Cluster)
    requires At(s, A3, B0, N2) && REFUSED in s.net
    ensures Takes(s, SeeHigherTerm("n", REFUSED), A3, B0, N3, {})
  {}

  lemma AskB1(s: Cluster)
    requires At(s, A3, B0, N3)
    ensures Takes(s, TimeOut("b", Saved), A3, B1, N3, {})
  {}

  lemma AskB2(s: Cluster)
    requires At(s, A3, B1, N3)
    ensures Takes(s, TimeOut("b", Saved), A3, B2, N3, {ASK_B})
  {}

  lemma GrantB(s: Cluster)
    requires At(s, A3, B2, N3) && ASK_B in s.net
    ensures Takes(s, CastVote("n", ASK_B, Saved, Saved), A3, B2, N4, {ASK_B, Yes("b")})
  {
    assert OnRequestVote(N3, 2, "b", 0, 0, Saved, Saved) == (N4, VoteResult(2, true));
  }

  lemma WinB(s: Cluster)
    requires At(s, A3, B2, N4) && {ASK_B, Yes("b")} <= s.net
    ensures Takes(s, Win("b", 2), A3, B3, N4, {})
  {
    assert ASK_B in s.net && Yes("b") in s.net;
    assert "n" in Grants(s, "b", 2);
    OnePeer(B0.cfg.voters, Grants(s, "b", 2), 1);
    assert Asked(s, "b", 2);
  }

  // ---- The run ----

  function Start(): Cluster {
    Cluster(THREE, map["a" := A0, "b" := B0, "n" := N0], {}, {}, map[], map[], {}, {}, {}, map[])
  }

  lemma Peers(x: Id, p: Id, q: Id)
    requires {x, p, q} == THREE && x != p && x != q && p != q
    ensures Lists(THREE, x, [p, q])
  {
    var v := [p, q];
    assert v[0] == p && v[1] == q;
    assert p in Members(v) && q in Members(v);
    assert Members(v) == THREE - {x};
  }

  lemma StartsFresh()
    ensures Init(Start())
  {
    Peers("a", "b", "n");
    Peers("b", "a", "n");
    Peers("n", "a", "b");
  }

  lemma FirstLeader() returns (run: seq<Cluster>, steps: seq<Step>, s: Cluster)
    ensures Ends(run, steps, s) && At(s, A3, B0, N2) && REFUSED in s.net
  {
    s := Start();
    StartsFresh();
    run, steps := [s], [];
    AskN(s);
    run, steps, s := Grow(run, steps, s, TimeOut("n", Saved));
    AskA1(s);
    run, steps, s := Grow(run, steps, s, TimeOut("a", Saved));
    AskA2(s);
    run, steps, s := Grow(run, steps, s, TimeOut("a", Saved));
    RefuseN(s);
    run, steps, s := Grow(run, steps, s, CastVote("a", ASK_N, Saved, Saved));
    GrantA(s);
    run, steps, s := Grow(run, steps, s, CastVote("n", ASK_A, Saved, Saved));
    WinA(s);
    run, steps, s := Grow(run, steps, s, Win("a", 2));
  }

  lemma SecondLeader(run0: seq<Cluster>, steps0: seq<Step>, s0: Cluster)
    returns (run: seq<Cluster>, steps: seq<Step>, s: Cluster)
    requires Ends(run0, steps0, s0) && At(s0, A3, B0, N2) && REFUSED in s0.net
    ensures Ends(run, steps, s) && At(s, A3, B3, N4)
  {
    run, steps, s := run0, steps0, s0;
    Forget(s);
    run, steps, s := Grow(run, steps, s, SeeHigherTerm("n", REFUSED));
    AskB1(s);
    run, steps, s := Grow(run, steps, s, TimeOut("b", Saved));
    AskB2(s);
    run, steps, s := Grow(run, steps, s, TimeOut("b", Saved));
    GrantB(s);
    run, steps, s := Grow(run, steps, s, CastVote("n", ASK_B, Saved, Saved));
    WinB(s);
    run, steps, s := Grow(run, steps, s, Win("b", 2));
  }

  /** Two nodes lead one term. */
  predicate TwoLeaders(s: Cluster) {
    && "a" in s.nodes && "b" in s.nodes && s.nodes["a"].role == Leader && s.nodes["b"].role == Leader
    && s.nodes["a"].currentTerm == s.nodes["b"].currentTerm
  }

  lemma Outcome(s: Cluster)
    requires At(s, A3, B3, N4)
    ensures TwoLeaders(s)
  {}

  /** Election Safety fails without the guard: a run from an initial state at whose end two nodes lead term 2. */
  lemma LateReplyElectsTwo() returns (run: seq<Cluster>, steps: seq<Step>, s: Cluster)
    ensures Ends(run, steps, s) && TwoLeaders(s)
  {
    run, steps, s := FirstLeader();
    run, steps, s := SecondLeader(run, steps, s);
    Outcome(s);
  }
}
