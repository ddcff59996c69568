/** Membership and quorum counting.

    A configuration lists the peers of one node; the node itself is in neither list and
    always counts once. `QuorumFor` is the loop the node runs; everything else in the
    project reasons about majorities of sets, and the lemmas below connect the two.
 */
module Quorum {

  type Id = string

  datatype Phase = Stable | Joint

  datatype ClusterConfig = ClusterConfig(phase: Phase, voters: seq<Id>, newVoters: seq<Id>) {
    predicate IsZero() { |voters| == 0 }
    function OldQuorumSize(): nat { (|voters| + 1) / 2 + 1 }
    function NewQuorumSize(): nat { (|newVoters| + 1) / 2 + 1 }
  }

  function CountAcks(voters: seq<Id>, acks: set<Id>): nat {
    if |voters| == 0 then 0
    else CountAcks(voters[..|voters| - 1], acks) + (if voters[|voters| - 1] in acks then 1 else 0)
  }

  /** The rule quorumFor applies: the node itself plus the acknowledging peers reach the threshold. */
  predicate Passes(cfg: ClusterConfig, acks: set<Id>) {
    && 1 + CountAcks(cfg.voters, acks) >= cfg.OldQuorumSize()
    && (cfg.phase == Joint ==> 1 + CountAcks(cfg.newVoters, acks) >= cfg.NewQuorumSize())
  }

  method QuorumFor(cfg: ClusterConfig, acks: set<Id>) returns (ok: bool)
    ensures ok <==> Passes(cfg, acks)
  {
    var count := 1;
    for i := 0 to |cfg.voters|
      invariant count == 1 + CountAcks(cfg.voters[..i], acks)
    {
      assert cfg.voters[..i + 1][..i] == cfg.voters[..i];
      if cfg.voters[i] in acks { count := count + 1; }
    }
    assert cfg.voters[..|cfg.voters|] == cfg.voters;
    if cfg.phase == Stable {
      return count >= cfg.OldQuorumSize();
    }
    var newCount := 1;
    for i := 0 to |cfg.newVoters|
      invariant newCount == 1 + CountAcks(cfg.newVoters[..i], acks)
    {
      assert cfg.newVoters[..i + 1][..i] == cfg.newVoters[..i];
      if cfg.newVoters[i] in acks { newCount := newCount + 1; }
    }
    assert cfg.newVoters[..|cfg.newVoters|] == cfg.newVoters;
    return count >= cfg.OldQuorumSize() && newCount >= cfg.NewQuorumSize();
  }

  lemma {:induction false} CountMonotone(voters: seq<Id>, a: set<Id>, b: set<Id>)
    requires a <= b
    ensures CountAcks(voters, a) <= CountAcks(voters, b)
  {
    if |voters| > 0 { CountMonotone(voters[..|voters| - 1], a, b); }
  }

  /** More acknowledgements never lose a quorum. */
  lemma PassesMonotone(cfg: ClusterConfig, a: set<Id>, b: set<Id>)
    requires a <= b && Passes(cfg, a)
    ensures Passes(cfg, b)
  {
    CountMonotone(cfg.voters, a, b);
    CountMonotone(cfg.newVoters, a, b);
  }

  // ---- From counting to majorities of sets ----

  predicate NoDup(xs: seq<Id>) {
    forall i, j :: 0 <= i < j < |xs| ==> xs[i] != xs[j]
  }

  function Members(xs: seq<Id>): set<Id> {
    set i | 0 <= i < |xs| :: xs[i]
  }

  /** More than half of `members` are in `s`. */
  predicate Majority(members: set<Id>, s: set<Id>) {
    2 * |s * members| > |members|
  }

  /** The peer list of `self` describes the membership `members`. */
  predicate Lists(members: set<Id>, self: Id, voters: seq<Id>) {
    NoDup(voters) && self in members && Members(voters) == members - {self}
  }

  lemma {:induction false} CountIsCardinality(voters: seq<Id>, acks: set<Id>)
    requires NoDup(voters)
    ensures CountAcks(voters, acks) == |acks * Members(voters)|
    ensures |Members(voters)| == |voters|
  {
    if |voters| > 0 {
      var rest, last := voters[..|voters| - 1], voters[|voters| - 1];
      CountIsCardinality(rest, acks);
      MembersLast(voters);
      OneMore(acks, Members(rest), last);
    }
  }

  lemma MembersLast(voters: seq<Id>)
    requires |voters| > 0 && NoDup(voters)
    ensures var rest, last := voters[..|voters| - 1], voters[|voters| - 1];
            Members(voters) == Members(rest) + {last} && last !in Members(rest)
  {
    var rest, last := voters[..|voters| - 1], voters[|voters| - 1];
    forall x | x in Members(voters) ensures x in Members(rest) + {last} {
      var i :| 0 <= i < |voters| && voters[i] == x;
      if i < |rest| { assert rest[i] == x; }
    }
    forall x | x in Members(rest) ensures x in Members(voters) && x != last {
      var i :| 0 <= i < |rest| && rest[i] == x;
      assert voters[i] == x;
    }
    assert voters[|voters| - 1] in Members(voters);
  }

  lemma OneMore(acks: set<Id>, rest: set<Id>, last: Id)
    requires last !in rest
    ensures |acks * (rest + {last})| == |acks * rest| + (if last in acks then 1 else 0) && |rest + {last}| == |rest| + 1
  {
    if last in acks {
      assert acks * (rest + {last}) == acks * rest + {last};
    } else {
      assert acks * (rest + {last}) == acks * rest;
    }
  }

  /** Reaching the counted threshold is the same as holding a strict majority, the node itself included. */
  lemma {:induction false} CountedMajority(members: set<Id>, self: Id, voters: seq<Id>, acks: set<Id>)
    requires Lists(members, self, voters)
    ensures 1 + CountAcks(voters, acks) >= (|voters| + 1) / 2 + 1 <==> Majority(members, acks + {self})
  {
    CountIsCardinality(voters, acks);
    assert members == Members(voters) + {self};
    assert (acks + {self}) * members == acks * Members(voters) + {self};
  }

  lemma MajoritiesMeet(members: set<Id>, a: set<Id>, b: set<Id>)
    requires Majority(members, a) && Majority(members, b)
    ensures exists x :: x in a && x in b && x in members
  {
    var p, q := a * members, b * members;
    if p * q == {} {
      assert |p + q| == |p| + |q|;
      assert p + q <= members;
      CardinalityMonotone(p + q, members);
    } else {
      var x :| x in p * q;
      assert x in a && x in b && x in members;
    }
  }

  lemma {:induction false} CardinalityMonotone<T>(a: set<T>, b: set<T>)
    requires a <= b
    ensures |a| <= |b|
    decreases a
  {
    if a != {} {
      var x :| x in a;
      CardinalityMonotone(a - {x}, b - {x});
    }
  }

  lemma MajorityGrows(members: set<Id>, a: set<Id>, b: set<Id>)
    requires Majority(members, a) && a <= b
    ensures Majority(members, b)
  {
    CardinalityMonotone(a * members, b * members);
  }

  /** Any two acknowledgement sets that pass the stable test over one membership share a member,
      whichever nodes counted them. */
  lemma StableQuorumsMeet(members: set<Id>, x: Id, cx: ClusterConfig, ax: set<Id>,
                          y: Id, cy: ClusterConfig, ay: set<Id>)
    requires cx.phase == Stable && Lists(members, x, cx.voters) && Passes(cx, ax)
    requires cy.phase == Stable && Lists(members, y, cy.voters) && Passes(cy, ay)
    ensures exists m :: m in members && m in ax + {x} && m in ay + {y}
  {
    CountedMajority(members, x, cx.voters, ax);
    CountedMajority(members, y, cy.voters, ay);
    MajoritiesMeet(members, ax + {x}, ay + {y});
  }

  /** A set that passes the joint test meets every majority of the old membership and every
      majority of the new one, so neither side can decide on its own during the transition. */
  lemma JointQuorumMeetsBoth(old_: set<Id>, new_: set<Id>, x: Id, c: ClusterConfig, acks: set<Id>, other: set<Id>)
    requires c.phase == Joint && Passes(c, acks)
    requires Lists(old_, x, c.voters) && Lists(new_, x, c.newVoters)
    ensures Majority(old_, other) ==> exists m :: m in old_ && m in acks + {x} && m in other
    ensures Majority(new_, other) ==> exists m :: m in new_ && m in acks + {x} && m in other
  {
    CountedMajority(old_, x, c.voters, acks);
    CountedMajority(new_, x, c.newVoters, acks);
    if Majority(old_, other) { MajoritiesMeet(old_, acks + {x}, other); }
    if Majority(new_, other) { MajoritiesMeet(new_, acks + {x}, other); }
  }
}
