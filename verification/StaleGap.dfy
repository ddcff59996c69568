/** A run of five nodes in which a stale heartbeat breaks State Machine Safety.

    "d" wins term 1. "c" wins term 2 and sends its entry X to "f", but the message is delayed. "a" wins term 3 with
    an empty log, commits its own entry Y at the same index, and "d" learns of it. The leader loop of "d", which has
    not noticed yet that "d" was deposed, now sends a heartbeat of term 1 with the log and the commit index of term 3
    to "f". "f", which no election has reached, takes Y and commits it. Then the delayed message of term 2 arrives:
    "f" truncates Y, which it has committed, and takes X. "f" delivers X where "a" delivers Y.
 */
module StaleGap {
  import opened Quorum
  import opened RaftLog
  import opened RaftNode
  import opened RaftCluster

  const X: Entry := Entry(1, 2, COMMAND, [])
  const Y: Entry := Entry(1, 3, COMMAND, [])

  const FIVE: set<Id> := {"a", "c", "d", "f", "g"}

  function Started(id: Id, voters: seq<Id>): Node {
    Node(id, ClusterConfig(Stable, voters, []), 0, NOBODY, Follower, NOBODY, [], 0, 0, 0, 0, [], map[], map[], 0,
         Meta(0, NOBODY))
  }

  // The states the nodes go through.
  const A0: Node := Started("a", ["c", "d", "f", "g"])
  const A1: Node := A0.(currentTerm := 1, votedFor := "d", disk := Meta(1, "d"))
  const A2: Node := A1.(currentTerm := 2, votedFor := "c", disk := Meta(2, "c"))
  const A3: Node := A2.(currentTerm := 3, votedFor := "a", role := Candidate, disk := Meta(3, "a"))
  const A4: Node := A3.(role := Leader)
  const A5: Node := A4.(nextIndex := Each(A0, 1), matchIndex := Each(A0, 0), leaderId := "a", leading := 3)
  const A6: Node := A5.(log := [Y])
  const A7: Node := A6.(nextIndex := A6.nextIndex["d" := 2], matchIndex := A6.matchIndex["d" := 1])
  const A8: Node := A7.(nextIndex := A7.nextIndex["g" := 2], matchIndex := A7.matchIndex["g" := 1], commitIndex := 1)
  const A9: Node := A8.(lastApplied := 1, delivered := [Y])
  const C0: Node := Started("c", ["a", "d", "f", "g"])
  const C1: Node := C0.(currentTerm := 1, votedFor := "d", disk := Meta(1, "d"))
  const C2: Node := C1.(currentTerm := 2, votedFor := "c", role := Candidate, disk := Meta(2, "c"))
  const C3: Node := C2.(role := Leader)
  const C4: Node := C3.(nextIndex := Each(C0, 1), matchIndex := Each(C0, 0), leaderId := "c", leading := 2)
  const C5: Node := C4.(log := [X])
  const D0: Node := Started("d", ["a", "c", "f", "g"])
  const D1: Node := D0.(currentTerm := 1, votedFor := "d", role := Candidate, disk := Meta(1, "d"))
  const D2: Node := D1.(role := Leader)
  const D3: Node := D2.(nextIndex := Each(D0, 1), matchIndex := Each(D0, 0), leaderId := "d", leading := 1)
  const D4: Node := D3.(currentTerm := 3, votedFor := "a", role := Follower, disk := Meta(3, "a"))
  const D5: Node := D4.(leaderId := "a", log := [Y])
  const D6: Node := D5.(commitIndex := 1)
  const F0: Node := Started("f", ["a", "c", "d", "g"])
  const F1: Node := F0.(currentTerm := 1, leaderId := "d", disk := Meta(1, NOBODY), log := [Y], commitIndex := 1)
  const F2: Node := F1.(currentTerm := 2, leaderId := "c", disk := Meta(2, NOBODY), log := [X])
  const F3: Node := F2.(lastApplied := 1, delivered := [X])
  const G0: Node := Started("g", ["a", "c", "d", "f"])
  const G1: Node := G0.(currentTerm := 2, votedFor := "c", disk := Meta(2, "c"))
  const G2: Node := G1.(currentTerm := 3, votedFor := "a", disk := Meta(3, "a"))
  const G3: Node := G2.(leaderId := "a", log := [Y])

  /** The same value for all peers of the node. */
  function Each(x: Node, value: int): map<Id, int> { All(Members(x.cfg.voters), value) }

  predicate At(s: Cluster, a: Node, c: Node, d: Node, f: Node, g: Node) {
    s.ids == FIVE && s.nodes == map["a" := a, "c" := c, "d" := d, "f" := f, "g" := g]
  }

  // ---- Quorums and logs of one entry ----

  lemma TwoPeers(voters: seq<Id>, acks: set<Id>, i: nat, j: nat)
    requires |voters| == 4 && i < j < 4 && voters[i] in acks && voters[j] in acks
    ensures Passes(ClusterConfig(Stable, voters, []), acks)
  {
    var v3, v2, v1 := voters[..3], voters[..2], voters[..1];
    assert v3[..2] == v2 && v2[..1] == v1 && v1[..0] == [];
    assert CountAcks(v1, acks) == if voters[0] in acks then 1 else 0;
    assert CountAcks(v2, acks) == CountAcks(v1, acks) + if voters[1] in acks then 1 else 0;
    assert CountAcks(v3, acks) == CountAcks(v2, acks) + if voters[2] in acks then 1 else 0;
  }

  lemma OnePeer(voters: seq<Id>, acks: set<Id>, i: nat)
    requires |voters| == 4 && i < 4 && forall k :: 0 <= k < 4 && k != i ==> voters[k] !in acks
    ensures !Passes(ClusterConfig(Stable, voters, []), acks)
  {
    var v3, v2, v1 := voters[..3], voters[..2], voters[..1];
    assert v3[..2] == v2 && v2[..1] == v1 && v1[..0] == [];
    assert CountAcks(v1, acks) == if voters[0] in acks then 1 else 0;
    assert CountAcks(v2, acks) == CountAcks(v1, acks) + if voters[1] in acks then 1 else 0;
    assert CountAcks(v3, acks) == CountAcks(v2, acks) + if voters[2] in acks then 1 else 0;
  }

  lemma FindOnly(e: Entry)
    requires e.index == 1
    ensures Locate([e], 1) == 0 && Locate([], 1) == -1
  {}

  lemma SinceOnly(e: Entry)
    requires e.index == 1
    ensures Since([e], 1) == [e] && Since([e], 2) == []
  {
    assert [e][..0] == [];
  }

  lemma MergeOnly(e: Entry)
    requires e.index == 1
    ensures Merge([], [e], false, 1) == Merged([e], true)
  {
    FindOnly(e);
    assert [] + [e] == [e] && [e][1..] == [];
  }

  lemma MergeOver(x: Entry, y: Entry)
    requires x.index == 1 && y.index == 1 && x.term != y.term
    ensures Merge([x], [y], false, 2) == Merged([y], true)
  {
    FindOnly(x);
    CutConsecutive([x], 0, 1);
    assert [x][..0] + [y] == [y];
    assert Merge([y], [y][1..], true, 0) == Merged([y], true);
  }

  // ---- The run ----

  /** The run so far, by these steps, ends in this state. */
  ghost predicate Ends(run: seq<Cluster>, steps: seq<Step>, s: Cluster) {
    IsRunBy(run, steps) && run[|run| - 1] == s
  }

  lemma Grow(run: seq<Cluster>, steps: seq<Step>, s: Cluster, st: Step)
    returns (more: seq<Cluster>, taken: seq<Step>, t: Cluster)
    requires Ends(run, steps, s) && Enabled(s, st)
    ensures Ends(more, taken, t) && t == Do(s, st)
  {
    t := Do(s, st);
    more, taken := run + [t], steps + [st];
    forall i | 0 <= i < |taken| ensures StepsTo(more[i], taken[i], more[i + 1]) {
      if i < |steps| { assert StepsTo(run[i], steps[i], run[i + 1]); }
    }
  }

  const ASK1: Msg := VoteReq(1, "d", [])
  const ASK2: Msg := VoteReq(2, "c", [])
  const ASK3: Msg := VoteReq(3, "a", [])
  const DELAYED: Msg := AppendReq("f", AppendArgs(2, "c", 0, 0, [X], 0), None, [X])
  const TO_D: Msg := AppendReq("d", AppendArgs(3, "a", 0, 0, [Y], 0), None, [Y])
  const TO_G: Msg := AppendReq("g", AppendArgs(3, "a", 0, 0, [Y], 0), None, [Y])
  const FROM_D: Msg := AppendResp("d", "a", 3, 1, 1, None, AppendResult(3, true, 0, 0))
  const FROM_G: Msg := AppendResp("g", "a", 3, 1, 1, None, AppendResult(3, true, 0, 0))
  const TELL_D: Msg := AppendReq("d", AppendArgs(3, "a", 1, 3, [], 1), None, [Y])
  const STALE: Msg := AppendReq("f", AppendArgs(1, "d", 0, 0, [Y], 1), None, [Y])

  function Yes(term: int, voter: Id, cand: Id): Msg { VoteResp(term, voter, cand, VoteResult(term, true)) }

  /** The step is enabled and leads to these node states and messages. */
  predicate Takes(s: Cluster, st: Step, a: Node, c: Node, d: Node, f: Node, g: Node, sent: set<Msg>) {
    Enabled(s, st) && At(Do(s, st), a, c, d, f, g) && sent <= Do(s, st).net
  }

  lemma Place(s: Cluster, t: Cluster, a: Node, c: Node, d: Node, f: Node, g: Node, n: Id, y: Node)
    requires At(s, a, c, d, f, g) && t.ids == s.ids && t.nodes == s.nodes[n := y] && n in FIVE
    ensures At(t, if n == "a" then y else a, if n == "c" then y else c, if n == "d" then y else d,
               if n == "f" then y else f, if n == "g" then y else g)
  {}

  // ---- Term 1: "d" is elected ----

  lemma AskD(s: Cluster)
    requires At(s, A0, C0, D0, F0, G0)
    ensures Takes(s, TimeOut("d", Saved), A0, C0, D1, F0, G0, {ASK1})
  {}

  lemma GrantCD(s: Cluster)
    requires At(s, A0, C0, D1, F0, G0) && ASK1 in s.net
    ensures Takes(s, CastVote("c", ASK1, Saved, Saved), A0, C1, D1, F0, G0, {ASK1, Yes(1, "c", "d")})
  {}

  lemma GrantAD(s: Cluster)
    requires At(s, A0, C1, D1, F0, G0) && {ASK1, Yes(1, "c", "d")} <= s.net
    ensures Takes(s, CastVote("a", ASK1, Saved, Saved), A1, C1, D1, F0, G0, {ASK1, Yes(1, "c", "d"), Yes(1, "a", "d")})
  {}

  lemma WinD(s: Cluster)
    requires At(s, A1, C1, D1, F0, G0) && {ASK1, Yes(1, "c", "d"), Yes(1, "a", "d")} <= s.net
    ensures Takes(s, Win("d", 1), A1, C1, D2, F0, G0, {})
  {
    assert Yes(1, "a", "d") in s.net && Yes(1, "c", "d") in s.net && ASK1 in s.net;
    assert "a" in Grants(s, "d", 1) && "c" in Grants(s, "d", 1);
    TwoPeers(D0.cfg.voters, Grants(s, "d", 1), 0, 1);
    assert Asked(s, "d", 1);
  }

  lemma EnterD(s: Cluster)
    requires At(s, A1, C1, D2, F0, G0)
    ensures Takes(s, EnterLoop("d"), A1, C1, D3, F0, G0, {})
  {}

  // ---- Term 2: "c" is elected, and its request to "f" is delayed ----

  lemma AskC(s: Cluster)
    requires At(s, A1, C1, D3, F0, G0)
    ensures Takes(s, TimeOut("c", Saved), A1, C2, D3, F0, G0, {ASK2})
  {}

  lemma GrantAC(s: Cluster)
    requires At(s, A1, C2, D3, F0, G0) && ASK2 in s.net
    ensures Takes(s, CastVote("a", ASK2, Saved, Saved), A2, C2, D3, F0, G0, {ASK2, Yes(2, "a", "c")})
  {
    assert OnRequestVote(A1, 2, "c", 0, 0, Saved, Saved) == (A2, VoteResult(2, true));
    Place(s, Do(s, CastVote("a", ASK2, Saved, Saved)), A1, C2, D3, F0, G0, "a", A2);
  }

  lemma GrantGC(s: Cluster)
    requires At(s, A2, C2, D3, F0, G0) && {ASK2, Yes(2, "a", "c")} <= s.net
    ensures Takes(s, CastVote("g", ASK2, Saved, Saved), A2, C2, D3, F0, G1, {ASK2, Yes(2, "a", "c"), Yes(2, "g", "c")})
  {}

  lemma WinC(s: Cluster)
    requires At(s, A2, C2, D3, F0, G1) && {ASK2, Yes(2, "a", "c"), Yes(2, "g", "c")} <= s.net
    ensures Takes(s, Win("c", 2), A2, C3, D3, F0, G1, {})
  {
    assert Yes(2, "a", "c") in s.net && Yes(2, "g", "c") in s.net && ASK2 in s.net;
    assert "a" in Grants(s, "c", 2) && "g" in Grants(s, "c", 2);
    TwoPeers(C0.cfg.voters, Grants(s, "c", 2), 0, 3);
    assert Asked(s, "c", 2);
  }

  lemma EnterC(s: Cluster)
    requires At(s, A2, C3, D3, F0, G1)
    ensures Takes(s, EnterLoop("c"), A2, C4, D3, F0, G1, {})
  {}

  lemma ProposeC(s: Cluster)
    requires At(s, A2, C4, D3, F0, G1)
    ensures Takes(s, Propose("c", [], true), A2, C5, D3, F0, G1, {})
  {
    ProposedC();
    Place(s, Do(s, Propose("c", [], true)), A2, C4, D3, F0, G1, "c", C5);
  }

  lemma ProposedC()
    ensures OnPropose(C4, [], true) == C5
  {
    assert C4.log == [] && [] + [X] == [X];
  }

  /** A node that has sent nothing yet sends its one entry. */
  lemma WholeLog(x: Node, e: Entry, peer: Id)
    requires x.log == [e] && e.index == 1 && x.nextIndex == Each(x, 1) && peer in x.cfg.voters
    ensures forall term :: BuildAppend(x, term, peer) == AppendArgs(term, x.id, 0, 0, [e], x.commitIndex)
  {
    SinceOnly(e);
    assert peer in Members(x.cfg.voters);
  }

  lemma SentAs(s: Cluster, n: Id, peer: Id, m: Msg)
    requires Enabled(s, Heartbeat(n, peer)) && m ==
               AppendReq(peer, BuildAppend(s.nodes[n], s.nodes[n].leading, peer), None, s.nodes[n].log)
    ensures Do(s, Heartbeat(n, peer)) == Send(s, m)
  {}

  lemma SendC(s: Cluster)
    requires At(s, A2, C5, D3, F0, G1)
    ensures Takes(s, Heartbeat("c", "f"), A2, C5, D3, F0, G1, {DELAYED})
  {
    BuiltC();
    SentAs(s, "c", "f", DELAYED);
  }

  lemma BuiltC()
    ensures BuildAppend(C5, 2, "f") == DELAYED.args && C5.leading == 2 && C5.log == [X]
  {
    assert C5.cfg.voters[2] == "f";
    WholeLog(C5, X, "f");
  }

  // ---- Term 3: "a" is elected and commits ----

  lemma AskA(s: Cluster)
    requires At(s, A2, C5, D3, F0, G1) && DELAYED in s.net
    ensures Takes(s, TimeOut("a", Saved), A3, C5, D3, F0, G1, {DELAYED, ASK3})
  {}

  lemma GrantDA(s: Cluster)
    requires At(s, A3, C5, D3, F0, G1) && {DELAYED, ASK3} <= s.net
    ensures Takes(s, CastVote("d", ASK3, Saved, Saved), A3, C5, D4, F0, G1, {DELAYED, ASK3, Yes(3, "d", "a")})
  {
    assert ASK3 in s.net;
    assert OnRequestVote(D3, 3, "a", 0, 0, Saved, Saved) == (D4, VoteResult(3, true));
    Place(s, Do(s, CastVote("d", ASK3, Saved, Saved)), A3, C5, D3, F0, G1, "d", D4);
  }

  lemma GrantGA(s: Cluster)
    requires At(s, A3, C5, D4, F0, G1) && {DELAYED, ASK3, Yes(3, "d", "a")} <= s.net
    ensures Takes(s, CastVote("g", ASK3, Saved, Saved), A3, C5, D4, F0, G2,
                  {DELAYED, ASK3, Yes(3, "d", "a"), Yes(3, "g", "a")})
  {
    assert ASK3 in s.net;
    assert OnRequestVote(G1, 3, "a", 0, 0, Saved, Saved) == (G2, VoteResult(3, true));
    Place(s, Do(s, CastVote("g", ASK3, Saved, Saved)), A3, C5, D4, F0, G1, "g", G2);
  }

  lemma WinA(s: Cluster)
    requires At(s, A3, C5, D4, F0, G2) && {DELAYED, ASK3, Yes(3, "d", "a"), Yes(3, "g", "a")} <= s.net
    ensures Takes(s, Win("a", 3), A4, C5, D4, F0, G2, {DELAYED})
  {
    assert Yes(3, "d", "a") in s.net && Yes(3, "g", "a") in s.net && ASK3 in s.net;
    assert "d" in Grants(s, "a", 3) && "g" in Grants(s, "a", 3);
    TwoPeers(A0.cfg.voters, Grants(s, "a", 3), 1, 3);
    assert Asked(s, "a", 3);
    Place(s, Do(s, Win("a", 3)), A3, C5, D4, F0, G2, "a", A4);
  }

  lemma EnterA(s: Cluster)
    requires At(s, A4, C5, D4, F0, G2) && DELAYED in s.net
    ensures Takes(s, EnterLoop("a"), A5, C5, D4, F0, G2, {DELAYED})
  {
    assert EnterLeaderLoop(A4) == A5;
    Place(s, Do(s, EnterLoop("a")), A4, C5, D4, F0, G2, "a", A5);
  }

  lemma ProposeA(s: Cluster)
    requires At(s, A5, C5, D4, F0, G2) && DELAYED in s.net
    ensures Takes(s, Propose("a", [], true), A6, C5, D4, F0, G2, {DELAYED})
  {
    ProposedA();
    Place(s, Do(s, Propose("a", [], true)), A5, C5, D4, F0, G2, "a", A6);
  }

  lemma ProposedA()
    ensures OnPropose(A5, [], true) == A6
  {
    assert A5.log == [] && [] + [Y] == [Y];
  }

  lemma SendD(s: Cluster)
    requires At(s, A6, C5, D4, F0, G2) && DELAYED in s.net
    ensures Takes(s, Heartbeat("a", "d"), A6, C5, D4, F0, G2, {DELAYED, TO_D})
  {
    BuiltA();
    SentAs(s, "a", "d", TO_D);
  }

  lemma BuiltA()
    ensures BuildAppend(A6, 3, "d") == TO_D.args && BuildAppend(A6, 3, "g") == TO_G.args && A6.leading == 3 &&
            A6.log == [Y]
  {
    assert A6.cfg.voters[1] == "d" && A6.cfg.voters[3] == "g";
    WholeLog(A6, Y, "d");
    WholeLog(A6, Y, "g");
  }

  lemma SendG(s: Cluster)
    requires At(s, A6, C5, D4, F0, G2) && {DELAYED, TO_D} <= s.net
    ensures Takes(s, Heartbeat("a", "g"), A6, C5, D4, F0, G2, {DELAYED, TO_D, TO_G})
  {
    BuiltA();
    SentAs(s, "a", "g", TO_G);
  }

  lemma TakeD(s: Cluster)
    requires At(s, A6, C5, D4, F0, G2) && {DELAYED, TO_D, TO_G} <= s.net
    ensures Takes(s, HandleAppend("d", TO_D, Saved, 1), A6, C5, D5, F0, G2, {DELAYED, TO_G, FROM_D})
  {
    assert TO_D in s.net;
    TakenD();
    Place(s, Do(s, HandleAppend("d", TO_D, Saved, 1)), A6, C5, D4, F0, G2, "d", D5);
  }

  lemma TakenD()
    ensures OnAppend(D4, TO_D.args, Saved, 1) == (D5, AppendResult(3, true, 0, 0))
  {
    MergeOnly(Y);
    assert D4.log == [];
  }

  lemma TakeG(s: Cluster)
    requires At(s, A6, C5, D5, F0, G2) && {DELAYED, TO_G, FROM_D} <= s.net
    ensures Takes(s, HandleAppend("g", TO_G, Saved, 1), A6, C5, D5, F0, G3, {DELAYED, FROM_D, FROM_G})
  {
    assert TO_G in s.net;
    TakenG();
    Place(s, Do(s, HandleAppend("g", TO_G, Saved, 1)), A6, C5, D5, F0, G2, "g", G3);
  }

  lemma TakenG()
    ensures OnAppend(G2, TO_G.args, Saved, 1) == (G3, AppendResult(3, true, 0, 0))
  {
    MergeOnly(Y);
    assert G2.log == [];
  }

  /** One acknowledgement of five is not enough. */
  lemma CountOne()
    ensures AdvanceCommit(A7, 3, 1) == A7
  {
    FindOnly(Y);
    OnePeer(A7.cfg.voters, A7.Acked(1), 1);
    assert AdvanceCommit(A7, 3, 0) == A7;
  }

  lemma CountTwo()
    ensures AdvanceCommit(A8.(commitIndex := 0), 3, 1) == A8
  {
    FindOnly(Y);
    var x := A8.(commitIndex := 0);
    assert x.cfg.voters[1] == "d" && x.cfg.voters[3] == "g";
    assert "d" in Members(x.cfg.voters) && "g" in Members(x.cfg.voters);
    TwoPeers(x.cfg.voters, x.Acked(1), 1, 3);
  }

  lemma ReplyD(s: Cluster)
    requires At(s, A6, C5, D5, F0, G3) && {DELAYED, FROM_D, FROM_G} <= s.net
    ensures Takes(s, HandleReply("a", FROM_D), A7, C5, D5, F0, G3, {DELAYED, FROM_G})
  {
    RepliedD();
    assert FROM_D in s.net;
    Place(s, Do(s, HandleReply("a", FROM_D)), A6, C5, D5, F0, G3, "a", A7);
  }

  lemma RepliedD()
    ensures OnAppendReply(A6, "d", 3, 1, 1, AppendResult(3, true, 0, 0)) == A7
  {
    CountOne();
    assert Get(A6.matchIndex, "d") == 0;
  }

  lemma ReplyG(s: Cluster)
    requires At(s, A7, C5, D5, F0, G3) && {DELAYED, FROM_G} <= s.net
    ensures Takes(s, HandleReply("a", FROM_G), A8, C5, D5, F0, G3, {DELAYED})
  {
    RepliedG();
    assert FROM_G in s.net;
    Place(s, Do(s, HandleReply("a", FROM_G)), A7, C5, D5, F0, G3, "a", A8);
  }

  lemma RepliedG()
    ensures OnAppendReply(A7, "g", 3, 1, 1, AppendResult(3, true, 0, 0)) == A8
  {
    CountTwo();
    assert Get(A7.matchIndex, "g") == 0;
  }

  // ---- "d" learns of the commit, and its old leader loop passes it on ----

  lemma TellShape()
    ensures BuildAppend(A8, 3, "d") == TELL_D.args && A8.leading == 3 && A8.log == [Y]
  {
    SinceOnly(Y);
    FindOnly(Y);
    assert Get(A8.nextIndex, "d") == 2;
    assert A8.log == [Y];
  }

  lemma TellD(s: Cluster)
    requires At(s, A8, C5, D5, F0, G3) && DELAYED in s.net
    ensures Takes(s, Heartbeat("a", "d"), A8, C5, D5, F0, G3, {DELAYED, TELL_D})
  {
    TellShape();
    SentAs(s, "a", "d", TELL_D);
  }

  lemma LearnD(s: Cluster)
    requires At(s, A8, C5, D5, F0, G3) && {DELAYED, TELL_D} <= s.net
    ensures Takes(s, HandleAppend("d", TELL_D, Saved, 0), A8, C5, D6, F0, G3, {DELAYED})
  {
    assert TELL_D in s.net;
    LearnedD();
    Place(s, Do(s, HandleAppend("d", TELL_D, Saved, 0)), A8, C5, D5, F0, G3, "d", D6);
  }

  lemma LearnedD()
    ensures OnAppend(D5, TELL_D.args, Saved, 0).0 == D6
  {
    FindOnly(Y);
    assert D5.log == [Y];
    assert Mismatch(Follow(D5, 3, "a", Saved), TELL_D.args) == None;
  }

  lemma SendStale(s: Cluster)
    requires At(s, A8, C5, D6, F0, G3) && DELAYED in s.net
    ensures Takes(s, Heartbeat("d", "f"), A8, C5, D6, F0, G3, {DELAYED, STALE})
  {
    BuiltD();
    SentAs(s, "d", "f", STALE);
  }

  lemma BuiltD()
    ensures BuildAppend(D6, 1, "f") == STALE.args && D6.leading == 1 && D6.log == [Y]
  {
    assert D6.cfg.voters[2] == "f";
    WholeLog(D6, Y, "f");
  }

  // ---- "f" commits one entry and delivers another ----

  lemma TakeStale(s: Cluster)
    requires At(s, A8, C5, D6, F0, G3) && {DELAYED, STALE} <= s.net
    ensures Takes(s, HandleAppend("f", STALE, Saved, 1), A8, C5, D6, F1, G3, {DELAYED})
  {
    assert STALE in s.net;
    TakenStale();
    Place(s, Do(s, HandleAppend("f", STALE, Saved, 1)), A8, C5, D6, F0, G3, "f", F1);
  }

  lemma TakenStale()
    ensures OnAppend(F0, STALE.args, Saved, 1).0 == F1
  {
    MergeOnly(Y);
    assert F0.log == [];
  }

  lemma TakeDelayed(s: Cluster)
    requires At(s, A8, C5, D6, F1, G3) && DELAYED in s.net
    ensures Takes(s, HandleAppend("f", DELAYED, Saved, 2), A8, C5, D6, F2, G3, {})
  {
    TakenDelayed();
    Place(s, Do(s, HandleAppend("f", DELAYED, Saved, 2)), A8, C5, D6, F1, G3, "f", F2);
  }

  lemma TakenDelayed()
    ensures OnAppend(F1, DELAYED.args, Saved, 2).0 == F2
  {
    MergeOver(Y, X);
    assert F1.log == [Y];
  }

  lemma CollectOnly(e: Entry)
    requires e.index == 1
    ensures Collect([e], 1, 1) == [e]
  {
    FindOnly(e);
    assert Collect([e], 1, 0) == [];
  }

  lemma DeliverF(s: Cluster)
    requires At(s, A8, C5, D6, F2, G3)
    ensures Takes(s, Deliver("f"), A8, C5, D6, F3, G3, {})
  {
    DeliveredF();
    Place(s, Do(s, Deliver("f")), A8, C5, D6, F2, G3, "f", F3);
  }

  lemma DeliveredF()
    ensures ApplyCommitted(F2) == F3
  {
    CollectOnly(X);
    assert F2.log == [X] && [] + [X] == [X];
  }

  lemma DeliverA(s: Cluster)
    requires At(s, A8, C5, D6, F3, G3)
    ensures Takes(s, Deliver("a"), A9, C5, D6, F3, G3, {})
  {
    DeliveredA();
    Place(s, Do(s, Deliver("a")), A8, C5, D6, F3, G3, "a", A9);
  }

  lemma DeliveredA()
    ensures ApplyCommitted(A8) == A9
  {
    CollectOnly(Y);
    assert A8.log == [Y] && [] + [Y] == [Y];
  }

  // ---- The whole run ----

  lemma Peers(n: Id, p: Id, q: Id, r: Id, t: Id)
    requires {n, p, q, r, t} == FIVE && NoDup([p, q, r, t]) && n !in [p, q, r, t]
    ensures Lists(FIVE, n, [p, q, r, t])
  {
    var v := [p, q, r, t];
    assert v[0] == p && v[1] == q && v[2] == r && v[3] == t;
    assert p in Members(v) && q in Members(v) && r in Members(v) && t in Members(v);
    assert Members(v) == FIVE - {n};
  }

  function Start(): Cluster {
    Cluster(FIVE, map["a" := A0, "c" := C0, "d" := D0, "f" := F0, "g" := G0], {}, {}, map[], map[], {}, {}, {}, map[])
  }

  lemma StartsFresh(s: Cluster)
    requires s == Start()
    ensures Init(s)
  {
    AllFresh();
    forall n | n in s.ids ensures Fresh(s.nodes[n], n, s.ids) {}
  }

  lemma AllFresh()
    ensures Fresh(A0, "a", FIVE) && Fresh(C0, "c", FIVE) && Fresh(D0, "d", FIVE) && Fresh(F0, "f", FIVE) &&
            Fresh(G0, "g", FIVE)
  {
    assert Fresh(A0, "a", FIVE) by { Peers("a", "c", "d", "f", "g"); }
    assert Fresh(C0, "c", FIVE) by { Peers("c", "a", "d", "f", "g"); }
    assert Fresh(D0, "d", FIVE) by { Peers("d", "a", "c", "f", "g"); }
    assert Fresh(F0, "f", FIVE) by { Peers("f", "a", "c", "d", "g"); }
    assert Fresh(G0, "g", FIVE) by { Peers("g", "a", "c", "d", "f"); }
  }

  lemma FirstTerm() returns (run: seq<Cluster>, steps: seq<Step>, s: Cluster)
    ensures Ends(run, steps, s) && At(s, A1, C1, D3, F0, G0)
  {
    s := Start();
    StartsFresh(s);
    run, steps := [s], [];
    AskD(s);
    run, steps, s := Grow(run, steps, s, TimeOut("d", Saved));
    GrantCD(s);
    run, steps, s := Grow(run, steps, s, CastVote("c", ASK1, Saved, Saved));
    GrantAD(s);
    run, steps, s := Grow(run, steps, s, CastVote("a", ASK1, Saved, Saved));
    WinD(s);
    run, steps, s := Grow(run, steps, s, Win("d", 1));
    EnterD(s);
    run, steps, s := Grow(run, steps, s, EnterLoop("d"));
  }

  lemma SecondElection(run0: seq<Cluster>, steps0: seq<Step>, s0: Cluster)
    returns (run: seq<Cluster>, steps: seq<Step>, s: Cluster)
    requires Ends(run0, steps0, s0) && At(s0, A1, C1, D3, F0, G0)
    ensures Ends(run, steps, s) && At(s, A2, C3, D3, F0, G1)
  {
    run, steps, s := run0, steps0, s0;
    AskC(s);
    run, steps, s := Grow(run, steps, s, TimeOut("c", Saved));
    GrantAC(s);
    run, steps, s := Grow(run, steps, s, CastVote("a", ASK2, Saved, Saved));
    GrantGC(s);
    run, steps, s := Grow(run, steps, s, CastVote("g", ASK2, Saved, Saved));
    WinC(s);
    run, steps, s := Grow(run, steps, s, Win("c", 2));
  }

  lemma SecondTerm(run0: seq<Cluster>, steps0: seq<Step>, s0: Cluster)
    returns (run: seq<Cluster>, steps: seq<Step>, s: Cluster)
    requires Ends(run0, steps0, s0) && At(s0, A2, C3, D3, F0, G1)
    ensures Ends(run, steps, s) && At(s, A2, C5, D3, F0, G1) && DELAYED in s.net
  {
    run, steps, s := run0, steps0, s0;
    EnterC(s);
    run, steps, s := Grow(run, steps, s, EnterLoop("c"));
    ProposeC(s);
    run, steps, s := Grow(run, steps, s, Propose("c", [], true));
    SendC(s);
    run, steps, s := Grow(run, steps, s, Heartbeat("c", "f"));
  }

  lemma ThirdElection(run0: seq<Cluster>, steps0: seq<Step>, s0: Cluster)
    returns (run: seq<Cluster>, steps: seq<Step>, s: Cluster)
    requires Ends(run0, steps0, s0) && At(s0, A2, C5, D3, F0, G1) && DELAYED in s0.net
    ensures Ends(run, steps, s) && At(s, A4, C5, D4, F0, G2) && DELAYED in s.net
  {
    run, steps, s := run0, steps0, s0;
    AskA(s);
    run, steps, s := Grow(run, steps, s, TimeOut("a", Saved));
    GrantDA(s);
    run, steps, s := Grow(run, steps, s, CastVote("d", ASK3, Saved, Saved));
    GrantGA(s);
    run, steps, s := Grow(run, steps, s, CastVote("g", ASK3, Saved, Saved));
    WinA(s);
    run, steps, s := Grow(run, steps, s, Win("a", 3));
  }

  lemma ThirdSend(run0: seq<Cluster>, steps0: seq<Step>, s0: Cluster)
    returns (run: seq<Cluster>, steps: seq<Step>, s: Cluster)
    requires Ends(run0, steps0, s0) && At(s0, A4, C5, D4, F0, G2) && DELAYED in s0.net
    ensures Ends(run, steps, s) && At(s, A6, C5, D4, F0, G2) && {DELAYED, TO_D, TO_G} <= s.net
  {
    run, steps, s := run0, steps0, s0;
    EnterA(s);
    run, steps, s := Grow(run, steps, s, EnterLoop("a"));
    ProposeA(s);
    run, steps, s := Grow(run, steps, s, Propose("a", [], true));
    SendD(s);
    run, steps, s := Grow(run, steps, s, Heartbeat("a", "d"));
    SendG(s);
    run, steps, s := Grow(run, steps, s, Heartbeat("a", "g"));
  }

  lemma ThirdCommit(run0: seq<Cluster>, steps0: seq<Step>, s0: Cluster)
    returns (run: seq<Cluster>, steps: seq<Step>, s: Cluster)
    requires Ends(run0, steps0, s0) && At(s0, A6, C5, D4, F0, G2) && {DELAYED, TO_D, TO_G} <= s0.net
    ensures Ends(run, steps, s) && At(s, A8, C5, D5, F0, G3) && DELAYED in s.net
  {
    run, steps, s := run0, steps0, s0;
    TakeD(s);
    run, steps, s := Grow(run, steps, s, HandleAppend("d", TO_D, Saved, 1));
    TakeG(s);
    run, steps, s := Grow(run, steps, s, HandleAppend("g", TO_G, Saved, 1));
    ReplyD(s);
    run, steps, s := Grow(run, steps, s, HandleReply("a", FROM_D));
    ReplyG(s);
    run, steps, s := Grow(run, steps, s, HandleReply("a", FROM_G));
  }

  lemma PassedOn(run0: seq<Cluster>, steps0: seq<Step>, s0: Cluster)
    returns (run: seq<Cluster>, steps: seq<Step>, s: Cluster)
    requires Ends(run0, steps0, s0) && At(s0, A8, C5, D5, F0, G3) && DELAYED in s0.net
    ensures Ends(run, steps, s) && At(s, A8, C5, D6, F1, G3) && DELAYED in s.net
  {
    run, steps, s := run0, steps0, s0;
    TellD(s);
    run, steps, s := Grow(run, steps, s, Heartbeat("a", "d"));
    LearnD(s);
    run, steps, s := Grow(run, steps, s, HandleAppend("d", TELL_D, Saved, 0));
    SendStale(s);
    run, steps, s := Grow(run, steps, s, Heartbeat("d", "f"));
    TakeStale(s);
    run, steps, s := Grow(run, steps, s, HandleAppend("f", STALE, Saved, 1));
  }

  lemma Overwritten(run0: seq<Cluster>, steps0: seq<Step>, s0: Cluster)
    returns (run: seq<Cluster>, steps: seq<Step>, s: Cluster)
    requires Ends(run0, steps0, s0) && At(s0, A8, C5, D6, F1, G3) && DELAYED in s0.net
    ensures Ends(run, steps, s) && At(s, A9, C5, D6, F3, G3)
  {
    run, steps, s := run0, steps0, s0;
    TakeDelayed(s);
    run, steps, s := Grow(run, steps, s, HandleAppend("f", DELAYED, Saved, 2));
    DeliverF(s);
    run, steps, s := Grow(run, steps, s, Deliver("f"));
    DeliverA(s);
    run, steps, s := Grow(run, steps, s, Deliver("a"));
  }

  /** Two nodes have delivered different entries at index 1. */
  predicate Disagree(s: Cluster) {
    && "a" in s.nodes && "f" in s.nodes && X.index == Y.index == 1 && X != Y
    && s.nodes["a"].delivered == [Y] && s.nodes["f"].delivered == [X]
  }

  lemma Outcome(s: Cluster)
    requires At(s, A9, C5, D6, F3, G3)
    ensures Disagree(s)
  {}

  /** State Machine Safety fails: a run, from an initial state and by steps the nodes take, at whose end two nodes
      have delivered different entries at index 1. */
  lemma StaleHeartbeatBreaksSafety() returns (run: seq<Cluster>, steps: seq<Step>, s: Cluster)
    ensures Ends(run, steps, s) && Disagree(s)
  {
    run, steps, s := FirstTerm();
    run, steps, s := SecondElection(run, steps, s);
    run, steps, s := SecondTerm(run, steps, s);
    run, steps, s := ThirdElection(run, steps, s);
    run, steps, s := ThirdSend(run, steps, s);
    run, steps, s := ThirdCommit(run, steps, s);
    run, steps, s := PassedOn(run, steps, s);
    run, steps, s := Overwritten(run, steps, s);
    Outcome(s);
  }
}
