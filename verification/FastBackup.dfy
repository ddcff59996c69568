/** How fast a leader finds the point where a follower's log agrees with its own.

    One exchange is a heartbeat built by the leader, handled by the follower, and its reply handled by the
    leader. While the follower rejects, neither log changes; only nextIndex moves.
 */
module FastBackup {
  import opened Bytes
  import opened Quorum
  import opened RaftLog
  import opened RaftNode
  import opened RaftCluster
  import opened RaftInvariant
  import opened RaftTheorems

  predicate Ordered(log: seq<Entry>) {
    && (forall i :: 0 <= i < |log| ==> log[i].term >= 1)
    && (forall i, j :: 0 <= i <= j < |log| ==> log[i].term <= log[j].term)
  }

  /** Log Matching in the form a term's single leader gives it: an entry of term t in `a` and a later or equal
      one of the same term in `b` come from one log, so `b` agrees with `a` up to the former. */
  predicate Coherent(a: seq<Entry>, b: seq<Entry>) {
    forall i, j {:trigger CoherentAt(a, b, i, j)} :: 0 <= i < |a| && i <= j < |b| ==> CoherentAt(a, b, i, j)
  }

  predicate CoherentAt(a: seq<Entry>, b: seq<Entry>, i: int, j: int)
    requires 0 <= i < |a| && i <= j < |b|
  {
    a[i].term == b[j].term ==> a[..i + 1] == b[..i + 1]
  }

  /** A leader and a follower of no later term, with uncompacted logs that obey Log Matching. */
  predicate Pair(l: Node, f: Node) {
    && l.snapIndex == 0 && f.snapIndex == 0 && f.currentTerm <= l.currentTerm
    && Consecutive(l.log, 0) && Consecutive(f.log, 0) && Ordered(l.log) && Ordered(f.log)
    && Coherent(f.log, l.log)
  }

  function Request(l: Node, p: Id): AppendArgs { BuildAppend(l, l.currentTerm, p) }

  /** The follower rejects on its consistency check, after adopting the leader's term. */
  predicate Rejects(l: Node, f: Node, p: Id) {
    Mismatch(Follow(f, l.currentTerm, l.id, Saved), Request(l, p)).Some?
  }

  function Rejection(l: Node, f: Node, p: Id): AppendResult
    requires Rejects(l, f, p)
  {
    Mismatch(Follow(f, l.currentTerm, l.id, Saved), Request(l, p)).value
  }

  /** The leader after the rejection. */
  function BackedUp(l: Node, f: Node, p: Id): Node
    requires Rejects(l, f, p)
  {
    OnAppendReply(l, p, l.currentTerm, l.LastIndex(), LastSent(Request(l, p).entries), Rejection(l, f, p))
  }

  /** The two handlers do what the functions above say. */
  lemma RejectionIsTheHandlers(l: Node, f: Node, p: Id, writes: nat)
    requires Pair(l, f) && Rejects(l, f, p)
    ensures OnAppend(f, Request(l, p), Saved, writes) == (Follow(f, l.currentTerm, l.id, Saved), Rejection(l, f, p))
    ensures var r := Rejection(l, f, p);
            BackedUp(l, f, p) == l.(nextIndex := l.nextIndex[p := BackUp(l.log, r.conflictIndex, r.conflictTerm)])
  {}

  // ---- Reading the follower's rejection ----

  lemma TermAtPosition(x: Node, i: int)
    requires x.snapIndex == 0 && Consecutive(x.log, 0)
    ensures x.TermAt(i) == if 1 <= i <= |x.log| then Some(x.log[i - 1].term) else None
  {
    FindConsecutive(x.log, 0, i);
  }

  lemma {:induction false} RunStartFacts(x: Node, i: int, t: int)
    requires x.snapIndex == 0 && Consecutive(x.log, 0) && 1 <= i <= |x.log| && x.log[i - 1].term == t
    ensures var s := x.RunStart(i, t);
            && 1 <= s <= i && x.log[s - 1].term == t && (s > 1 ==> x.log[s - 2].term != t)
    decreases i
  {
    TermAtPosition(x, i - 1);
    if i > 1 && x.log[i - 2].term == t { RunStartFacts(x, i - 1, t); }
  }

  /** What the leader learns: either the follower's log is too short, or the run of a term that disagrees. */
  lemma RejectionFacts(l: Node, f: Node, p: Id)
    requires Pair(l, f) && Rejects(l, f, p)
    ensures var prev, r := Get(l.nextIndex, p) - 1, Rejection(l, f, p);
            && prev >= 1
            && (prev > |f.log| ==> r.conflictIndex == |f.log| + 1 && r.conflictTerm == 0)
            && (prev <= |f.log| ==>
                  && r.conflictTerm == f.log[prev - 1].term &&
                      (prev <= |l.log| ==> r.conflictTerm != l.log[prev - 1].term)
                  && 1 <= r.conflictIndex <= prev && f.log[r.conflictIndex - 1].term == r.conflictTerm
                  && (r.conflictIndex > 1 ==> f.log[r.conflictIndex - 2].term != r.conflictTerm))
  {
    var prev, x := Get(l.nextIndex, p) - 1, Follow(f, l.currentTerm, l.id, Saved);
    TermAtPosition(l, prev);
    TermAtPosition(x, prev);
    assert x.log == f.log;
    if 1 <= prev <= |f.log| { RunStartFacts(x, prev, f.log[prev - 1].term); }
  }

  // ---- One rejection ----

  /** The leader's last entry of the conflicting term lies before the anchor. */
  lemma {:induction false} LastOfConflictTerm(L: seq<Entry>, F: seq<Entry>, prev: int, t: int)
    requires Coherent(F, L) && 1 <= prev <= |F| && F[prev - 1].term == t && (prev <= |L| ==> L[prev - 1].term != t)
    ensures LastOfTerm(L, t) < prev - 1
  {
    forall q | prev - 1 <= q < |L| ensures L[q].term != t {
      assert CoherentAt(F, L, prev - 1, q);
      assert F[..prev][prev - 1] == F[prev - 1] && L[..prev][prev - 1] == L[prev - 1];
    }
  }

  /** Where the leader goes next: below the anchor, and not below a common prefix. */
  lemma BackUpBounds(L: seq<Entry>, F: seq<Entry>, prev: int, ci: int, t: int, k: nat)
    requires Consecutive(L, 0) && Ordered(L) && Ordered(F) && Coherent(F, L)
    requires 1 <= prev <= |F| && F[prev - 1].term == t && (prev <= |L| ==> L[prev - 1].term != t)
    requires 1 <= ci <= prev && F[ci - 1].term == t
    requires k <= |L| && k <= |F| && L[..k] == F[..k]
    ensures k + 1 <= BackUp(L, ci, t) <= prev
  {
    var j := LastOfTerm(L, t);
    LastOfConflictTerm(L, F, prev, t);
    assert forall i :: 0 <= i < k ==> L[i] == F[i] by {
      assert forall i :: 0 <= i < k ==> L[..k][i] == F[..k][i];
    }
    assert k < prev;
    if j >= 0 && k >= 1 {
      assert L[k - 1].term <= t;
      assert forall q :: j < q < |L| ==> L[q].term > t;
    }
  }

  /** Each rejection moves nextIndex strictly down, but never below the end of a common prefix. */
  lemma RejectionLowers(l: Node, f: Node, p: Id, k: nat)
    requires Pair(l, f) && Rejects(l, f, p)
    requires k <= |l.log| && k <= |f.log| && l.log[..k] == f.log[..k]
    ensures k + 1 <= Get(BackedUp(l, f, p).nextIndex, p) < Get(l.nextIndex, p)
  {
    var prev, r := Get(l.nextIndex, p) - 1, Rejection(l, f, p);
    RejectionIsTheHandlers(l, f, p, 0);
    RejectionFacts(l, f, p);
    if prev <= |f.log| { BackUpBounds(l.log, f.log, prev, r.conflictIndex, r.conflictTerm, k); }
  }

  /** After a rejection over a conflicting term, the next one, if there is one, names a smaller term. */
  lemma ConflictTermsFall(l: Node, f: Node, p: Id)
    requires Pair(l, f) && Rejects(l, f, p) && Get(l.nextIndex, p) - 1 <= |f.log|
    requires Rejects(BackedUp(l, f, p), f, p)
    ensures Get(BackedUp(l, f, p).nextIndex, p) - 1 <= |f.log|
    ensures Rejection(BackedUp(l, f, p), f, p).conflictTerm < Rejection(l, f, p).conflictTerm
  {
    var prev, r := Get(l.nextIndex, p) - 1, Rejection(l, f, p);
    var m := BackedUp(l, f, p);
    RejectionIsTheHandlers(l, f, p, 0);
    RejectionFacts(l, f, p);
    RejectionFacts(m, f, p);
    LastOfConflictTerm(l.log, f.log, prev, r.conflictTerm);
  }

  // ---- The whole exchange ----

  lemma StillAPair(l: Node, f: Node, p: Id)
    requires Pair(l, f) && Rejects(l, f, p)
    ensures Pair(BackedUp(l, f, p), f) && BackedUp(l, f, p).log == l.log && Get(BackedUp(l, f, p).nextIndex, p) >= 1
    ensures Get(BackedUp(l, f, p).nextIndex, p) < Get(l.nextIndex, p)
  {
    RejectionIsTheHandlers(l, f, p, 0);
    RejectionLowers(l, f, p, 0);
  }

  /** How often the follower rejects before it accepts. */
  function Rejections(l: Node, f: Node, p: Id): nat
    requires Pair(l, f)
    decreases Get(l.nextIndex, p)
  {
    if Rejects(l, f, p) then StillAPair(l, f, p); 1 + Rejections(BackedUp(l, f, p), f, p) else 0
  }

  function TermsIn(log: seq<Entry>): set<int> {
    set i | 0 <= i < |log| :: log[i].term
  }

  lemma FewerTerms(F: seq<Entry>, i: nat, j: nat)
    requires Ordered(F) && 1 <= i < j <= |F| && F[i - 1].term < F[j - 1].term
    ensures |TermsIn(F[..i])| < |TermsIn(F[..j])|
  {
    var t := F[j - 1].term;
    assert F[..j][j - 1].term == t;
    forall u | u in TermsIn(F[..i]) ensures u in TermsIn(F[..j]) - {t} {
      var k :| 0 <= k < i && F[..i][k].term == u;
      assert F[k].term <= F[i - 1].term && F[..j][k].term == u;
    }
    CardinalityMonotone(TermsIn(F[..i]), TermsIn(F[..j]) - {t});
  }

  /** From one conflict to the next: the anchor falls, and so does the follower's term there. */
  lemma NextAnchor(l: Node, f: Node, p: Id)
    requires Pair(l, f) && Rejects(l, f, p) && Get(l.nextIndex, p) - 1 <= |f.log|
    ensures var prev, m := Get(l.nextIndex, p) - 1, BackedUp(l, f, p);
            && prev >= 1 && Pair(m, f) && 0 <= Get(m.nextIndex, p) - 1 < prev
            && (Rejects(m, f, p) ==>
                  Get(m.nextIndex, p) - 1 >= 1 && f.log[Get(m.nextIndex, p) - 2].term < f.log[prev - 1].term)
  {
    var m := BackedUp(l, f, p);
    StillAPair(l, f, p);
    RejectionFacts(l, f, p);
    if Rejects(m, f, p) {
      ConflictTermsFall(l, f, p);
      RejectionFacts(m, f, p);
    }
  }

  lemma {:induction false} RejectionsWithin(l: Node, f: Node, p: Id)
    requires Pair(l, f) && 0 <= Get(l.nextIndex, p) - 1 <= |f.log|
    ensures Rejections(l, f, p) <= |TermsIn(f.log[..Get(l.nextIndex, p) - 1])|
    decreases Get(l.nextIndex, p)
  {
    if Rejects(l, f, p) {
      var prev, m := Get(l.nextIndex, p) - 1, BackedUp(l, f, p);
      NextAnchor(l, f, p);
      assert f.log[..prev][prev - 1].term in TermsIn(f.log[..prev]);
      assert Rejections(l, f, p) == 1 + Rejections(m, f, p);
      if Rejects(m, f, p) {
        RejectionsWithin(m, f, p);
        FewerTerms(f.log, Get(m.nextIndex, p) - 1, prev);
      }
    }
  }

  lemma TermsOfPrefix(F: seq<Entry>, k: nat)
    requires k <= |F|
    ensures |TermsIn(F[..k])| <= |TermsIn(F)|
  {
    forall u | u in TermsIn(F[..k]) ensures u in TermsIn(F) {
      var i :| 0 <= i < k && F[..k][i].term == u;
      assert F[i].term == u;
    }
    CardinalityMonotone(TermsIn(F[..k]), TermsIn(F));
  }

  /** A log too short for the anchor is reported once; after that the anchor lies within it. */
  lemma {:induction false} FirstRejection(l: Node, f: Node, p: Id)
    requires Pair(l, f) && Rejects(l, f, p) && Get(l.nextIndex, p) - 1 > |f.log|
    ensures Pair(BackedUp(l, f, p), f) && Get(BackedUp(l, f, p).nextIndex, p) - 1 == |f.log|
    ensures Rejections(l, f, p) == 1 + Rejections(BackedUp(l, f, p), f, p)
  {
    StillAPair(l, f, p);
    RejectionFacts(l, f, p);
    RejectionIsTheHandlers(l, f, p, 0);
  }

  lemma {:induction false} WithinTheLog(l: Node, f: Node, p: Id)
    requires Pair(l, f) && 0 <= Get(l.nextIndex, p) - 1 <= |f.log|
    ensures Rejections(l, f, p) <= |TermsIn(f.log)|
  {
    var k := Get(l.nextIndex, p) - 1;
    assert Rejections(l, f, p) <= |TermsIn(f.log[..k])| by { RejectionsWithin(l, f, p); }
    TermsOfPrefix(f.log, k);
  }

  lemma AnchorPositive(l: Node, f: Node, p: Id)
    requires Pair(l, f) && Rejects(l, f, p)
    ensures Get(l.nextIndex, p) - 1 >= 1
  {}

  /** A follower rejects at most once more than there are distinct terms in its log. */
  lemma {:induction false} RejectionsBounded(l: Node, f: Node, p: Id)
    requires Pair(l, f)
    ensures Rejections(l, f, p) <= |TermsIn(f.log)| + 1
  {
    if Rejects(l, f, p) {
      AnchorPositive(l, f, p);
      if Get(l.nextIndex, p) - 1 > |f.log| {
        FirstRejection(l, f, p);
        WithinTheLog(BackedUp(l, f, p), f, p);
      } else {
        WithinTheLog(l, f, p);
      }
    }
  }

  /** An anchor above 0 that the follower accepts has the same term on both sides. */
  lemma AcceptedTerm(l: Node, f: Node, p: Id)
    requires Pair(l, f) && !Rejects(l, f, p) && Get(l.nextIndex, p) - 1 > 0
    ensures var prev := Get(l.nextIndex, p) - 1;
            prev <= |l.log| && prev <= |f.log| && l.log[prev - 1].term == f.log[prev - 1].term
  {
    var prev, x := Get(l.nextIndex, p) - 1, Follow(f, l.currentTerm, l.id, Saved);
    assert x.log == f.log;
    TermAtPosition(l, prev);
    TermAtPosition(x, prev);
  }

  /** An accepted anchor is a common prefix. */
  lemma AcceptedAnchor(l: Node, f: Node, p: Id)
    requires Pair(l, f) && !Rejects(l, f, p)
    ensures var q := if Get(l.nextIndex, p) < 1 then 0 else Get(l.nextIndex, p) - 1;
            && q <= |l.log| && q <= |f.log| && f.log[..q] == l.log[..q] && Request(l, p).entries == l.log[q..]
  {
    var prev := Get(l.nextIndex, p) - 1;
    SinceConsecutive(l.log, 0, prev + 1);
    if prev > 0 {
      AcceptedTerm(l, f, p);
      assert CoherentAt(f.log, l.log, prev - 1, prev - 1);
    }
  }

  lemma {:induction false} AcceptedIsMerged(f: Node, a: AppendArgs, writes: nat)
    requires a.term >= f.currentTerm && Mismatch(Follow(f, a.term, a.leader, Saved), a).None?
    ensures var r, g := OnAppend(f, a, Saved, writes), Merge(f.log, a.entries, false, writes);
            r.0.log == g.log && r.1.success == g.ok
  {}

  /** Once it accepts, and its log store writes succeed, the follower holds the leader's whole log. */
  lemma AcceptedMeansCaughtUp(l: Node, f: Node, p: Id, writes: nat)
    requires Pair(l, f) && !Rejects(l, f, p)
    requires OnAppend(f, Request(l, p), Saved, writes).1.success
    ensures Pre(l.log, OnAppend(f, Request(l, p), Saved, writes).0.log)
  {
    AcceptedAnchor(l, f, p);
    AcceptedIsMerged(f, Request(l, p), writes);
    CoherentAgree(f.log, l.log);
    MergeShape(f.log, l.log, 0, if Get(l.nextIndex, p) < 1 then 0 else Get(l.nextIndex, p) - 1, writes);
  }

  lemma CoherentAgree(a: seq<Entry>, b: seq<Entry>)
    requires Coherent(a, b)
    ensures Agree(a, b)
  {
    forall i | 0 <= i < |a| && i < |b| ensures AgreeAt(a, b, i) { assert CoherentAt(a, b, i, i); }
  }

  // ---- The hypothesis holds in every run ----

  lemma SoundCoherent(a: seq<Entry>, b: seq<Entry>, R: Reigns)
    requires Sound(a, R) && Sound(b, R)
    ensures Coherent(a, b)
  {
    forall i, j | 0 <= i < |a| && i <= j < |b| ensures CoherentAt(a, b, i, j) {
      assert SoundAt(a, R, i) && SoundAt(b, R, j);
      assert b[..j + 1][..i + 1] == b[..i + 1];
      if a[i].term == b[j].term {
        assert R[a[i].term].log[..j + 1][..i + 1] == R[a[i].term].log[..i + 1];
      }
    }
  }

  lemma SoundOrdered(log: seq<Entry>, R: Reigns)
    requires Sound(log, R) && ReignsOk(R)
    ensures Ordered(log)
  {
    forall j | 0 <= j < |log|
      ensures log[j].term >= 1
      ensures forall i :: 0 <= i <= j ==> log[i].term <= log[j].term
    {
      assert SoundAt(log, R, j);
      var r := R[log[j].term];
      assert ReignOk(log[j].term, r);
      assert forall i :: 0 <= i <= j ==> log[i] == log[..j + 1][i] == r.log[i];
    }
  }

  /** In every state of every run, a node and any other of no later term form such a pair. */
  lemma ReachablePair(run: seq<Cluster>, i: nat, n: Id, m: Id)
    requires IsRun(run) && i < |run| && n in run[i].nodes && m in run[i].nodes
    requires run[i].nodes[m].currentTerm <= run[i].nodes[n].currentTerm
    ensures Pair(run[i].nodes[n], run[i].nodes[m])
  {
    RunKeeps(run, i);
    var s := run[i];
    assert LogOk(s.nodes[n], s.reigns) && LogOk(s.nodes[m], s.reigns);
    SoundCoherent(s.nodes[m].log, s.nodes[n].log, s.reigns);
    SoundOrdered(s.nodes[m].log, s.reigns);
    SoundOrdered(s.nodes[n].log, s.reigns);
  }

  /** Agreement at equal indices alone would not do: here a rejection moves nextIndex up. */
  lemma PairwiseMatchingIsNotEnough()
    ensures var d: Bytes := [];
            var L, F := [Entry(1, 1, COMMAND, d), Entry(2, 2, COMMAND, d)], [Entry(1, 2, COMMAND, d)];
            Agree(F, L) && Ordered(L) && Ordered(F) && BackUp(L, 1, 2) > 2
  {
    var d: Bytes := [];
    var L := [Entry(1, 1, COMMAND, d), Entry(2, 2, COMMAND, d)];
    assert LastOfTerm(L, 2) == 1;
  }
}
