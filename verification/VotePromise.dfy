/** One node never gives its vote to two candidates in one term, across crashes and failing saves.

    The node is the one of `RaftNode`; a restart reloads term and vote from the metadata record. The
    promise does not hold of every event: `Guarded` names the three situations in which the node
    forgets a vote, and the lemmas below show that in each of them the guard is exactly what is needed.
 */
module VotePromise {
  import opened Quorum
  import opened RaftLog
  import opened RaftNode

  datatype Event =
    | Ask(term: int, cand: Id, lastIndex: int, lastTerm: int, saveTerm: SaveOutcome, saveVote: SaveOutcome)
    | Replicate(args: AppendArgs, save: SaveOutcome, writes: nat)
    | Install(term: int, leader: Id, save: SaveOutcome)
    | Elect(save: SaveOutcome)
    | HigherVoteReply(term: int)
    | AppendReply(peer: Id, term: int, top: int, lastSent: int, result: AppendResult)
    | Restart(log: seq<Entry>)

  datatype Grant = Grant(term: int, cand: Id)

  /** The term section of HandleInstallSnapshot is the one of HandleAppendEntries. */
  function After(n: Node, e: Event): Node {
    match e
    case Ask(t, c, li, lt, s1, s2) => OnRequestVote(n, t, c, li, lt, s1, s2).0
    case Replicate(a, s, w) => OnAppend(n, a, s, w).0
    case Install(t, l, s) => if t < n.currentTerm then n else Follow(n, t, l, s)
    case Elect(s) => StartElection(n, s)
    case HigherVoteReply(t) => OnHigherVoteReply(n, t)
    case AppendReply(p, t, top, sent, r) => OnAppendReply(n, p, t, top, sent, r)
    case Restart(log) => Reloaded(n, log)
  }

  function Reloaded(n: Node, log: seq<Entry>): Node {
    Node(n.id, n.cfg, n.disk.term, n.disk.votedFor, Follower, NOBODY, log, 0, 0, 0, 0, [], map[], map[], 0, n.disk)
  }

  /** The votes an event gives, the node's own included. */
  function Given(n: Node, e: Event): seq<Grant> {
    match e
    case Ask(t, c, li, lt, s1, s2) =>
      if OnRequestVote(n, t, c, li, lt, s1, s2).1.granted then [Grant(t, c)] else []
    case Elect(s) => if s.Saved? then [Grant(n.currentTerm + 1, n.id)] else []
    case _ => []
  }

  function Played(n: Node, es: seq<Event>): Node {
    if |es| == 0 then n else After(Played(n, es[..|es| - 1]), es[|es| - 1])
  }

  function AllGiven(n: Node, es: seq<Event>): seq<Grant> {
    if |es| == 0 then []
    else AllGiven(n, es[..|es| - 1]) + Given(Played(n, es[..|es| - 1]), es[|es| - 1])
  }

  /** Candidates have names; a term from a vote reply is adopted only above the node's own term, or at it
      when no vote was given there; a self-election may fail to save only when no vote was given. */
  predicate Guarded(n: Node, e: Event) {
    match e
    case Ask(_, c, _, _, _, _) => c != NOBODY
    case HigherVoteReply(t) => SafeToAdopt(n, t)
    case Elect(s) => s.Saved? || SafeToRollBack(n)
    case _ => true
  }

  predicate SafeToAdopt(n: Node, term: int) {
    term > n.currentTerm || (term == n.currentTerm && n.votedFor == NOBODY)
  }

  predicate SafeToRollBack(n: Node) {
    n.votedFor == NOBODY
  }

  predicate GuardedRun(n: Node, es: seq<Event>) {
    forall i {:trigger es[i]} :: 0 <= i < |es| ==> Guarded(Played(n, es[..i]), es[i])
  }

  // ---- What is remembered ----

  /** A record of term and vote that rules out a second vote beside g. */
  predicate Remembers(term: int, votedFor: Id, g: Grant) {
    g.term < term || (g.term == term && votedFor == g.cand)
  }

  predicate Keeps(n: Node, g: Grant) {
    Remembers(n.currentTerm, n.votedFor, g) && Remembers(n.disk.term, n.disk.votedFor, g)
  }

  lemma AppendTerms(n: Node, a: AppendArgs, save: SaveOutcome, writes: nat)
    ensures var y := OnAppend(n, a, save, writes).0;
            var f := Follow(n, a.term, a.leader, save);
            if a.term < n.currentTerm then y == n
            else y.currentTerm == f.currentTerm && y.votedFor == f.votedFor && y.disk == f.disk && y.id == n.id
  {}

  lemma {:induction false} AdvanceTerms(n: Node, term: int, top: int)
    ensures var y := AdvanceCommit(n, term, top);
            y.currentTerm == n.currentTerm && y.votedFor == n.votedFor && y.disk == n.disk && y.id == n.id
    decreases top - n.commitIndex
  {
    if top > n.commitIndex { AdvanceTerms(n, term, top - 1); }
  }

  lemma ReplyTerms(n: Node, p: Id, t: int, top: int, sent: int, r: AppendResult)
    ensures var y := OnAppendReply(n, p, t, top, sent, r);
            && y.disk == n.disk && y.id == n.id && y.currentTerm >= n.currentTerm
            && (y.currentTerm == n.currentTerm ==> y.votedFor == n.votedFor)
  {
    if r.term <= t && r.success {
      var m := if sent > Get(n.matchIndex, p) then sent else Get(n.matchIndex, p);
      AdvanceTerms(n.(matchIndex := n.matchIndex[p := m], nextIndex := n.nextIndex[p := m + 1]), t, top);
    }
  }

  /** A guarded event forgets no vote, keeps its own votes, and gives none that contradicts a remembered one. */
  lemma EventKeeps(n: Node, e: Event, g: Grant)
    requires Guarded(n, e) && n.id != NOBODY && g.cand != NOBODY
    ensures After(n, e).id == n.id
    ensures Keeps(n, g) ==> Keeps(After(n, e), g)
    ensures g in Given(n, e) ==> Keeps(After(n, e), g)
    ensures forall h :: h in Given(n, e) && Keeps(n, g) && h.term == g.term ==> h.cand == g.cand
  {
    match e
    case Replicate(a, s, w) => AppendTerms(n, a, s, w);
    case AppendReply(p, t, top, sent, r) => ReplyTerms(n, p, t, top, sent, r);
    case Ask(t, c, li, lt, s1, s2) =>
    case Install(t, l, s) =>
    case Elect(s) =>
    case HigherVoteReply(t) =>
    case Restart(log) =>
  }

  lemma {:induction false} RunKeepsVotes(n: Node, es: seq<Event>, g: Grant)
    requires n.id != NOBODY && GuardedRun(n, es) && g in AllGiven(n, es)
    ensures g.cand != NOBODY && Played(n, es).id == n.id && Keeps(Played(n, es), g)
  {
    var init, last := es[..|es| - 1], es[|es| - 1];
    var m := Played(n, init);
    GuardedPrefix(n, es);
    SameId(n, init);
    assert Guarded(m, last);
    if g in AllGiven(n, init) {
      RunKeepsVotes(n, init, g);
    }
    EventKeeps(m, last, g);
  }

  lemma {:induction false} GuardedPrefix(n: Node, es: seq<Event>)
    requires GuardedRun(n, es) && |es| > 0
    ensures GuardedRun(n, es[..|es| - 1]) && Guarded(Played(n, es[..|es| - 1]), es[|es| - 1])
  {
    var init := es[..|es| - 1];
    forall i {:trigger init[i]} | 0 <= i < |init| ensures Guarded(Played(n, init[..i]), init[i]) {
      assert init[..i] == es[..i] && init[i] == es[i];
    }
  }

  lemma {:induction false} SameId(n: Node, es: seq<Event>)
    requires n.id != NOBODY && GuardedRun(n, es)
    ensures Played(n, es).id == n.id
  {
    if |es| > 0 {
      GuardedPrefix(n, es);
      SameId(n, es[..|es| - 1]);
      EventKeeps(Played(n, es[..|es| - 1]), es[|es| - 1], Grant(0, n.id));
    }
  }

  /** The vote promise: over every guarded sequence of events, restarts and failing saves included, the votes
      given in one term all go to one candidate. */
  lemma {:induction false} OneVotePerTerm(n: Node, es: seq<Event>, g: Grant, h: Grant)
    requires n.id != NOBODY && GuardedRun(n, es)
    requires g in AllGiven(n, es) && h in AllGiven(n, es) && g.term == h.term
    ensures g.cand == h.cand
  {
    var init, last := es[..|es| - 1], es[|es| - 1];
    var m := Played(n, init);
    GuardedPrefix(n, es);
    SameId(n, init);
    if g in AllGiven(n, init) && h in AllGiven(n, init) {
      OneVotePerTerm(n, init, g, h);
    } else if g in AllGiven(n, init) {
      RunKeepsVotes(n, init, g);
      EventKeeps(m, last, g);
    } else if h in AllGiven(n, init) {
      RunKeepsVotes(n, init, h);
      EventKeeps(m, last, h);
    }
  }

  // ---- What a vote means ----

  /** Whether this vote request is granted by this node. */
  predicate Grants(n: Node, term: int, cand: Id, lastIndex: int, lastTerm: int, saveTerm: SaveOutcome,
                   saveVote: SaveOutcome) {
    OnRequestVote(n, term, cand, lastIndex, lastTerm, saveTerm, saveVote).1.granted
  }

  /** No other candidate can get this node's vote of the term, now or after a crash, whatever it sends and however the
      saves end. */
  ghost predicate Bound(n: Node, term: int, cand: Id) {
    && (forall other, li, lt, s1, s2 :: other != cand ==> !Grants(n, term, other, li, lt, s1, s2))
    && (forall other, li, lt, s1, s2, log :: other != cand ==> !Grants(Reloaded(n, log), term, other, li, lt, s1, s2))
  }

  /** Index and term of the last entry, or of the compaction base when the log is empty. */
  function End(n: Node): (int, int) {
    if n.log == [] then (n.snapIndex, n.snapTerm) else (n.log[|n.log| - 1].index, n.log[|n.log| - 1].term)
  }

  /** A vote is granted exactly when the term is current, nobody else has this term's vote, the vote is on disk, and the
      candidate's last entry is of a later term than the voter's, or of the same term and no lower index. It then binds
      the node to this candidate, crashes included. The vote's record suffices: the save of the new term before it may
      have failed. */
  lemma GrantBinds(n: Node, term: int, cand: Id, lastIndex: int, lastTerm: int, saveTerm: SaveOutcome,
                   saveVote: SaveOutcome)
    requires cand != NOBODY
    ensures Grants(n, term, cand, lastIndex, lastTerm, saveTerm, saveVote) <==>
              && term >= n.currentTerm && saveVote.Saved? && (term == n.currentTerm ==> n.votedFor in {NOBODY, cand})
              && (lastTerm > End(n).1 || (lastTerm == End(n).1 && lastIndex >= End(n).0))
    ensures Grants(n, term, cand, lastIndex, lastTerm, saveTerm, saveVote) ==>
              Bound(OnRequestVote(n, term, cand, lastIndex, lastTerm, saveTerm, saveVote).0, term, cand)
  {
    var m := OnRequestVote(n, term, cand, lastIndex, lastTerm, saveTerm, saveVote).0;
    if Grants(n, term, cand, lastIndex, lastTerm, saveTerm, saveVote) { HeldVoteBinds(m, term, cand); }
  }

  lemma HeldVoteBinds(n: Node, term: int, cand: Id)
    requires cand != NOBODY && n.currentTerm == term && n.votedFor == cand && n.disk == Meta(term, cand)
    ensures Bound(n, term, cand)
  {}

  /** An election starts exactly when its self-vote is on disk, in the next term, and binds the node to itself there. */
  lemma SelfVoteBinds(n: Node, save: SaveOutcome)
    requires n.id != NOBODY
    ensures var m := StartElection(n, save);
            if save.Saved?
            then m.role == Candidate && m.currentTerm == n.currentTerm + 1 && Bound(m, m.currentTerm, n.id)
            else m.role == Follower && m.currentTerm == n.currentTerm
  {
    var m := StartElection(n, save);
    if save.Saved? { HeldVoteBinds(m, m.currentTerm, n.id); }
  }

  // ---- The guards are exact ----

  /** Every vote the node may have given is still ruled in after it moved to m. */
  ghost predicate ForgetsNothing(n: Node, m: Node) {
    forall g: Grant :: g.cand != NOBODY && Remembers(n.currentTerm, n.votedFor, g) ==>
        Remembers(m.currentTerm, m.votedFor, g)
  }

  /** Adopting the term of a vote reply forgets no vote exactly when it is above the node's own term, or
      equal to it with no vote given. */
  lemma AdoptExactly(n: Node, term: int)
    ensures ForgetsNothing(n, OnHigherVoteReply(n, term)) <==> SafeToAdopt(n, term)
  {
    var m := OnHigherVoteReply(n, term);
    if term < n.currentTerm {
      var g := Grant(term, "x");
      assert g.cand != NOBODY && Remembers(n.currentTerm, n.votedFor, g) && !Remembers(m.currentTerm, m.votedFor, g);
    } else if term == n.currentTerm && n.votedFor != NOBODY {
      var g := Grant(term, n.votedFor);
      assert Remembers(n.currentTerm, n.votedFor, g) && !Remembers(m.currentTerm, m.votedFor, g);
    }
  }

  /** Rolling back an unsaved self-election forgets no vote exactly when none was given in the current term. */
  lemma RollBackExactly(n: Node, save: SaveOutcome)
    requires !save.Saved?
    ensures ForgetsNothing(n, StartElection(n, save)) <==> SafeToRollBack(n)
  {
    var m := StartElection(n, save);
    if n.votedFor != NOBODY {
      var g := Grant(n.currentTerm, n.votedFor);
      assert Remembers(n.currentTerm, n.votedFor, g) && !Remembers(m.currentTerm, m.votedFor, g);
    }
  }

  function Asked(term: int, cand: Id): Event {
    Ask(term, cand, 0, 0, Saved, Saved)
  }

  /** Two candidates get the vote of one term when a late vote reply is adopted at the node's own term. */
  lemma {:induction false} LateReplyGivesTwoVotes(n: Node)
    requires n == Node("n", ClusterConfig(Stable, ["a", "b"], []), 4, "n", Candidate, NOBODY, [], 0, 0, 0, 0, [],
                       map[], map[], 0, Meta(4, "n"))
    ensures var es := [Asked(5, "a"), HigherVoteReply(5), Asked(5, "b")];
            Grant(5, "a") in AllGiven(n, es) && Grant(5, "b") in AllGiven(n, es)
  {
    var es := [Asked(5, "a"), HigherVoteReply(5), Asked(5, "b")];
    var e1, e2 := es[..1], es[..2];
    assert es[..2][..1] == e1 && e1[..0] == [];
    assert Given(n, Asked(5, "a")) == [Grant(5, "a")];
    assert AllGiven(n, []) == [] && Played(n, []) == n;
    assert AllGiven(n, e1) == AllGiven(n, e1[..0]) + Given(Played(n, e1[..0]), e1[0]);
    assert Grant(5, "a") in AllGiven(n, e1);
    var m1 := Played(n, e1);
    assert m1 == After(Played(n, e1[..0]), e1[0]) && m1.currentTerm == 5 && m1.votedFor == "a" && m1.log == [];
    var m2 := Played(n, e2);
    assert m2 == After(Played(n, e2[..1]), e2[1]) && m2.currentTerm == 5 && m2.votedFor == NOBODY && m2.log == [] &&
           m2.snapTerm == 0 && m2.snapIndex == 0;
    assert AllGiven(n, e2) == AllGiven(n, e2[..1]) + Given(Played(n, e2[..1]), e2[1]);
    assert Given(m2, Asked(5, "b")) == [Grant(5, "b")];
    assert AllGiven(n, es) == AllGiven(n, es[..2]) + Given(Played(n, es[..2]), es[2]);
  }

  /** A vote binds the node exactly when the candidate has a name: one given to the empty name reads like no vote. */
  lemma BindsExactly(n: Node, term: int, cand: Id, lastIndex: int, lastTerm: int, saveTerm: SaveOutcome,
                     saveVote: SaveOutcome)
    requires Grants(n, term, cand, lastIndex, lastTerm, saveTerm, saveVote)
    ensures Bound(OnRequestVote(n, term, cand, lastIndex, lastTerm, saveTerm, saveVote).0, term, cand) <==>
              cand != NOBODY
  {
    var m := OnRequestVote(n, term, cand, lastIndex, lastTerm, saveTerm, saveVote).0;
    if cand == NOBODY {
      assert Grants(m, term, "x", lastIndex, lastTerm, Saved, Saved);
    } else {
      HeldVoteBinds(m, term, cand);
    }
  }
}
