/** Why ReadIndex needs a leader without entries of earlier terms above its commit index.

    New leaders append no entry when they take office. The run built here, in a cluster of two, elects one that
    holds an entry committed before but has not heard of the commit: its ReadIndex call is confirmed and yields
    an index below one already committed.
 */
module ReadGap {
  import opened Quorum
  import opened RaftLog
  import opened RaftNode
  import opened RaftCluster

  const E: Entry := Entry(1, 1, COMMAND, [])

  function Started(id: Id, peer: Id): Node {
    Node(id, ClusterConfig(Stable, [peer], []), 0, NOBODY, Follower, NOBODY, [], 0, 0, 0, 0, [], map[], map[], 0,
         Meta(0, NOBODY))
  }

  // The states "a" and "b" go through.
  const A0: Node := Started("a", "b")
  const A1: Node := A0.(currentTerm := 1, votedFor := "a", role := Candidate, disk := Meta(1, "a"))
  const A2: Node := A1.(role := Leader)
  const A3: Node := A2.(nextIndex := map["b" := 1], matchIndex := map["b" := 0], leaderId := "a", leading := 1)
  const A4: Node := A3.(log := [E])
  const A5: Node := A4.(matchIndex := map["b" := 1], nextIndex := map["b" := 2], commitIndex := 1)
  const A6: Node := A5.(currentTerm := 2, votedFor := "b", role := Follower, disk := Meta(2, "b"))
  const A7: Node := A6.(leaderId := "b")
  const B0: Node := Started("b", "a")
  const B1: Node := B0.(currentTerm := 1, votedFor := "a", disk := Meta(1, "a"))
  const B2: Node := B1.(leaderId := "a", log := [E])
  const B3: Node := B2.(currentTerm := 2, votedFor := "b", role := Candidate, disk := Meta(2, "b"))
  const B4: Node := B3.(role := Leader)

  const AB: set<Id> := {"a", "b"}

  predicate Two(s: Cluster, a: Node, b: Node) { s.ids == AB && s.nodes == map["a" := a, "b" := b] }

  const REPLICATE: Msg := AppendReq("b", AppendArgs(1, "a", 0, 0, [E], 0), None, [E])
  const REPLICATED: Msg := AppendResp("b", "a", 1, 1, 1, None, AppendResult(1, true, 0, 0))
  const PROBE: Msg := AppendReq("a", AppendArgs(2, "b", 1, 1, [], 0), Some(0), [E])
  const PROBED: Msg := AppendResp("a", "b", 2, 1, 0, Some(0), AppendResult(2, true, 0, 0))

  // ---- Term 1: "a" is elected and commits an entry ----

  lemma Passing(peer: Id, acks: set<Id>)
    requires peer in acks
    ensures Passes(ClusterConfig(Stable, [peer], []), acks)
  {
    assert [peer][..0] == [];
    assert CountAcks([peer], acks) == CountAcks([peer][..0], acks) + 1;
  }

  lemma AskFirst(s: Cluster)
    requires Two(s, A0, B0)
    ensures Enabled(s, TimeOut("a", Saved)) && Two(Do(s, TimeOut("a", Saved)), A1, B0)
    ensures VoteReq(1, "a", []) in Do(s, TimeOut("a", Saved)).net
  {}

  lemma GrantFirst(s: Cluster)
    requires Two(s, A1, B0) && VoteReq(1, "a", []) in s.net
    ensures var st := CastVote("b", VoteReq(1, "a", []), Saved, Saved);
            && Enabled(s, st) && Two(Do(s, st), A1, B1) && VoteReq(1, "a", []) in Do(s, st).net
            && VoteResp(1, "b", "a", VoteResult(1, true)) in Do(s, st).net
  {}

  lemma WinFirst(s: Cluster)
    requires Two(s, A1, B1) && VoteReq(1, "a", []) in s.net && VoteResp(1, "b", "a", VoteResult(1, true)) in s.net
    ensures Enabled(s, Win("a", 1)) && Two(Do(s, Win("a", 1)), A2, B1) && 1 in Do(s, Win("a", 1)).reigns
  {
    assert "b" in Grants(s, "a", 1);
    Passing("b", Grants(s, "a", 1));
    assert Asked(s, "a", 1);
  }

  lemma EnterFirst(s: Cluster)
    requires Two(s, A2, B1) && 1 in s.reigns
    ensures Enabled(s, EnterLoop("a")) && Two(Do(s, EnterLoop("a")), A3, B1) && 1 in Do(s, EnterLoop("a")).reigns
  {
    assert Members(["b"]) == {"b"} by { assert ["b"][0] in Members(["b"]); }
    var x := EnterLeaderLoop(A2);
    assert x.nextIndex.Keys == {"b"} && x.matchIndex.Keys == {"b"};
    assert x.nextIndex == map["b" := 1] && x.matchIndex == map["b" := 0];
    assert x == A3;
  }

  lemma ProposeFirst(s: Cluster)
    requires Two(s, A3, B1) && 1 in s.reigns
    ensures Enabled(s, Propose("a", [], true)) && Two(Do(s, Propose("a", [], true)), A4, B1)
  {
    assert [] + [E] == [E];
  }

  lemma SinceOne(e: Entry)
    requires e.index == 1
    ensures Since([e], 1) == [e]
  {
    assert Since([], 1) == [] && [e][..0] == [];
  }

  lemma HeartbeatOfA()
    ensures BuildAppend(A4, 1, "b") == REPLICATE.args
  {
    SinceOne(E);
    assert Get(A4.nextIndex, "b") == 1;
    assert A4.log == [E];
  }

  lemma SendFirst(s: Cluster)
    requires Two(s, A4, B1)
    ensures Enabled(s, Heartbeat("a", "b")) && Two(Do(s, Heartbeat("a", "b")), A4, B1) &&
            REPLICATE in Do(s, Heartbeat("a", "b")).net
  {
    HeartbeatOfA();
    assert Do(s, Heartbeat("a", "b")) == Send(s, REPLICATE);
  }

  lemma TakeFirst(s: Cluster)
    requires Two(s, A4, B1) && REPLICATE in s.net
    ensures var st := HandleAppend("b", REPLICATE, Saved, 1);
            Enabled(s, st) && Two(Do(s, st), A4, B2) && REPLICATED in Do(s, st).net
  {
    FindConsecutive([], 0, 1);
    assert [] + [E] == [E] && [E][1..] == [];
    assert Merge([], [E], false, 1) == Merged([E], true);
  }

  lemma CommitFirst(s: Cluster)
    requires Two(s, A4, B2) && REPLICATED in s.net
    ensures Enabled(s, HandleReply("a", REPLICATED)) && Two(Do(s, HandleReply("a", REPLICATED)), A5, B2)
  {
    var n := A4.(matchIndex := map["b" := 1], nextIndex := map["b" := 2]);
    FindConsecutive([E], 0, 1);
    assert "b" in n.Acked(1) by { assert ["b"][0] in Members(["b"]); }
    Passing("b", n.Acked(1));
    assert AdvanceCommit(n, 1, 1) == A5;
    assert A4.matchIndex["b" := 1] == map["b" := 1] && A4.nextIndex["b" := 2] == map["b" := 2];
  }

  // ---- Term 2: "b" is elected, knowing of no commit ----

  lemma AskSecond(s: Cluster)
    requires Two(s, A5, B2)
    ensures Enabled(s, TimeOut("b", Saved)) && Two(Do(s, TimeOut("b", Saved)), A5, B3)
    ensures VoteReq(2, "b", [E]) in Do(s, TimeOut("b", Saved)).net
  {}

  lemma GrantSecond(s: Cluster)
    requires Two(s, A5, B3) && VoteReq(2, "b", [E]) in s.net
    ensures var st := CastVote("a", VoteReq(2, "b", [E]), Saved, Saved);
            && Enabled(s, st) && Two(Do(s, st), A6, B3) && VoteReq(2, "b", [E]) in Do(s, st).net
            && VoteResp(2, "a", "b", VoteResult(2, true)) in Do(s, st).net
  {}

  lemma WinSecond(s: Cluster)
    requires Two(s, A6, B3) && VoteReq(2, "b", [E]) in s.net && VoteResp(2, "a", "b", VoteResult(2, true)) in s.net
    ensures Enabled(s, Win("b", 2)) && Two(Do(s, Win("b", 2)), A6, B4)
  {
    assert "a" in Grants(s, "b", 2);
    Passing("a", Grants(s, "b", 2));
    assert Asked(s, "b", 2);
  }

  // ---- The read ----

  predicate Reading(s: Cluster, confirmed: set<Id>) {
    0 in s.queries && s.queries[0].leader == "b" && s.queries[0].term == 2 && s.queries[0].index == 0 &&
        s.queries[0].confirmed == confirmed
  }

  lemma Begin(s: Cluster)
    requires Two(s, A6, B4) && 0 !in s.queries
    ensures Enabled(s, BeginRead("b", 0)) && Two(Do(s, BeginRead("b", 0)), A6, B4) &&
            Reading(Do(s, BeginRead("b", 0)), {})
  {}

  lemma Ask(s: Cluster)
    requires Two(s, A6, B4) && Reading(s, {})
    ensures var st := Probe(0, "a");
            Enabled(s, st) && Two(Do(s, st), A6, B4) && Reading(Do(s, st), {}) && PROBE in Do(s, st).net
  {}

  lemma Answer(s: Cluster)
    requires Two(s, A6, B4) && Reading(s, {}) && PROBE in s.net
    ensures var st := HandleAppend("a", PROBE, Saved, 0);
            Enabled(s, st) && Two(Do(s, st), A7, B4) && Reading(Do(s, st), {}) && PROBED in Do(s, st).net
  {
    FindConsecutive([E], 0, 1);
    assert Mismatch(Follow(A6, 2, "b", Saved), PROBE.args) == None;
  }

  lemma Confirm(s: Cluster)
    requires Two(s, A7, B4) && Reading(s, {}) && PROBED in s.net
    ensures Enabled(s, ConfirmRead(PROBED)) && Reading(Do(s, ConfirmRead(PROBED)), {"a"})
  {}

  // ---- The run ----

  lemma Grow(run: seq<Cluster>, st: Step) returns (more: seq<Cluster>)
    requires IsRun(run) && Enabled(run[|run| - 1], st)
    ensures IsRun(more) && |more| == |run| + 1 && more[..|run|] == run && more[|run|] == Do(run[|run| - 1], st)
  {
    more := run + [Do(run[|run| - 1], st)];
    forall i | 0 < i < |more| ensures Follows(more[i - 1], more[i]) {
      if i < |run| { assert Follows(run[i - 1], run[i]); } else { assert StepsTo(more[i - 1], st, more[i]); }
    }
  }

  /** The run so far ends with the nodes in these states, and no read has begun. */
  ghost predicate Reaches(run: seq<Cluster>, a: Node, b: Node) {
    IsRun(run) && Two(run[|run| - 1], a, b) && run[|run| - 1].queries == map[]
  }

  lemma FirstElection() returns (run: seq<Cluster>)
    ensures Reaches(run, A2, B1) && 1 in run[|run| - 1].reigns
  {
    var s := Cluster(AB, map["a" := A0, "b" := B0], {}, {}, map[], map[], {}, {}, {}, map[]);
    StartsFresh(s);
    run := [s];
    AskFirst(s);
    run := Grow(run, TimeOut("a", Saved));
    GrantFirst(run[1]);
    run := Grow(run, CastVote("b", VoteReq(1, "a", []), Saved, Saved));
    WinFirst(run[2]);
    run := Grow(run, Win("a", 1));
  }

  lemma FirstSend(start: seq<Cluster>) returns (run: seq<Cluster>)
    requires Reaches(start, A2, B1) && 1 in start[|start| - 1].reigns
    ensures Reaches(run, A4, B1) && REPLICATE in run[|run| - 1].net
  {
    var n := |start|;
    EnterFirst(start[n - 1]);
    run := Grow(start, EnterLoop("a"));
    ProposeFirst(run[n]);
    run := Grow(run, Propose("a", [], true));
    SendFirst(run[n + 1]);
    run := Grow(run, Heartbeat("a", "b"));
  }

  lemma FirstCommit(start: seq<Cluster>) returns (run: seq<Cluster>)
    requires Reaches(start, A4, B1) && REPLICATE in start[|start| - 1].net
    ensures Reaches(run, A5, B2)
  {
    var n := |start|;
    TakeFirst(start[n - 1]);
    run := Grow(start, HandleAppend("b", REPLICATE, Saved, 1));
    CommitFirst(run[n]);
    run := Grow(run, HandleReply("a", REPLICATED));
  }

  lemma SecondElection(start: seq<Cluster>) returns (run: seq<Cluster>)
    requires Reaches(start, A5, B2)
    ensures Reaches(run, A6, B4)
  {
    var n := |start|;
    AskSecond(start[n - 1]);
    run := Grow(start, TimeOut("b", Saved));
    GrantSecond(run[n]);
    run := Grow(run, CastVote("a", VoteReq(2, "b", [E]), Saved, Saved));
    WinSecond(run[n + 1]);
    run := Grow(run, Win("b", 2));
  }

  lemma ReadBegins(start: seq<Cluster>) returns (run: seq<Cluster>)
    requires Reaches(start, A6, B4)
    ensures IsRun(run) && |run| == |start| + 1 && run[..|start|] == start
    ensures Enabled(start[|start| - 1], BeginRead("b", 0)) && run[|start|] == Do(start[|start| - 1], BeginRead("b", 0))
    ensures Two(run[|start|], A6, B4) && Reading(run[|start|], {})
  {
    Begin(start[|start| - 1]);
    run := Grow(start, BeginRead("b", 0));
  }

  lemma ReadConfirmed(start: seq<Cluster>) returns (run: seq<Cluster>)
    requires IsRun(start) && Two(start[|start| - 1], A6, B4) && Reading(start[|start| - 1], {})
    ensures IsRun(run) && |run| > |start| && run[..|start|] == start && Reading(run[|run| - 1], {"a"})
  {
    var n := |start|;
    Ask(start[n - 1]);
    run := Grow(start, Probe(0, "a"));
    Answer(run[n]);
    run := Grow(run, HandleAppend("a", PROBE, Saved, 0));
    Confirm(run[n + 1]);
    run := Grow(run, ConfirmRead(PROBED));
  }

  lemma StartsFresh(s: Cluster)
    requires s == Cluster(AB, map["a" := A0, "b" := B0], {}, {}, map[], map[], {}, {}, {}, map[])
    ensures Init(s)
  {
    assert Members(["b"]) == {"b"} by { assert ["b"][0] in Members(["b"]); }
    assert Members(["a"]) == {"a"} by { assert ["a"][0] in Members(["a"]); }
    assert AB - {"a"} == {"b"} && AB - {"b"} == {"a"};
  }

  lemma SecondLeader() returns (run: seq<Cluster>)
    ensures Reaches(run, A6, B4)
  {
    run := FirstElection();
    run := FirstSend(run);
    run := FirstCommit(run);
    run := SecondElection(run);
  }

  /** The call of `before` is still there, and confirmed, in the last state, and is below what "a" had committed; the
      leader held an entry of an earlier term above its commit index. */
  predicate Stale(before: Cluster, last: Cluster) {
    && "a" in before.nodes && "b" in before.nodes && 0 in last.queries && !Settled(before.nodes["b"])
    && Passes(before.nodes["b"].cfg, last.queries[0].confirmed)
    && last.queries[0].index < before.nodes["a"].commitIndex
  }

  lemma StaleEnd(before: Cluster, last: Cluster)
    requires Two(before, A6, B4) && Reading(last, {"a"})
    ensures Stale(before, last)
  {
    Passing("a", {"a"});
    assert B4.log[0].term != B4.currentTerm && B4.log[0].index > B4.commitIndex;
  }

  lemma SameUpTo(a: seq<Cluster>, b: seq<Cluster>, i: nat)
    requires i < |a| <= |b| && b[..|a|] == a
    ensures a[i] == b[i]
  {
    assert b[..|a|][i] == b[i];
  }

  /** A confirmed ReadIndex call that misses a commit made before it began. */
  lemma FreshLeaderReadsStale() returns (run: seq<Cluster>, i: nat)
    ensures IsRun(run) && i + 1 < |run|
    ensures Enabled(run[i], BeginRead("b", 0)) && run[i + 1] == Do(run[i], BeginRead("b", 0))
    ensures Stale(run[i], run[|run| - 1])
  {
    var before := SecondLeader();
    var begun := ReadBegins(before);
    run := ReadConfirmed(begun);
    i := |before| - 1;
    SameUpTo(begun, run, i);
    SameUpTo(begun, run, i + 1);
    SameUpTo(before, begun, i);
    StaleEnd(before[i], run[|run| - 1]);
  }
}
