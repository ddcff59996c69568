/** The consistent-hash ring that assigns keys to nodes.

    Every node owns one point per virtual node. Hash functions are parameters, so two nodes may well share a
    point. The meaning of a lookup is stated without the sorted slice: the point at the smallest clockwise
    distance from the key.
 */
module HashRing {
  import opened Bytes
  import opened RaftLog

  type Id = string

  datatype Node = Node(id: Id, addr: string)

  /** Point of the i-th virtual node of a node. */
  type VHash = (Id, nat) -> u32

  datatype Ring = Ring(points: seq<u32>, owner: map<u32, Node>, nodes: map<Id, Node>)

  const EMPTY: Ring := Ring([], map[], map[])

  // ---- The ring as a value ----

  function PointsOf(id: Id, vnodes: nat, vhash: VHash): seq<u32> {
    seq(vnodes, i requires 0 <= i < vnodes => vhash(id, i))
  }

  function Place(sorted: seq<u32>, p: u32): seq<u32> {
    if |sorted| == 0 || p <= sorted[0] then [p] + sorted else [sorted[0]] + Place(sorted[1..], p)
  }

  function Sort(ps: seq<u32>): seq<u32> {
    if |ps| == 0 then [] else Place(Sort(ps[..|ps| - 1]), ps[|ps| - 1])
  }

  function Claim(owner: map<u32, Node>, n: Node, ps: seq<u32>): map<u32, Node> {
    if |ps| == 0 then owner else Claim(owner, n, ps[..|ps| - 1])[ps[|ps| - 1] := n]
  }

  function Release(owner: map<u32, Node>, ps: seq<u32>): map<u32, Node> {
    if |ps| == 0 then owner else Release(owner, ps[..|ps| - 1]) - {ps[|ps| - 1]}
  }

  function Owned(ps: seq<u32>, owner: map<u32, Node>): seq<u32> {
    if |ps| == 0 then []
    else Owned(ps[..|ps| - 1], owner) + (if ps[|ps| - 1] in owner then [ps[|ps| - 1]] else [])
  }

  function Removed(r: Ring, id: Id, vnodes: nat, vhash: VHash): Ring {
    if id !in r.nodes then r
    else
      var owner := Release(r.owner, PointsOf(id, vnodes, vhash));
      Ring(Owned(r.points, owner), owner, r.nodes - {id})
  }

  /** A node already registered under this id is removed first. */
  function Added(r: Ring, n: Node, vnodes: nat, vhash: VHash): Ring {
    var q, ps := Removed(r, n.id, vnodes, vhash), PointsOf(n.id, vnodes, vhash);
    Ring(Sort(q.points + ps), Claim(q.owner, n, ps), q.nodes[n.id := n])
  }

  /** Position of the first point at or after `h`; the number of points when there is none. */
  function Search(points: seq<u32>, h: u32): (i: nat)
    ensures i <= |points|
    ensures forall j :: 0 <= j < i ==> points[j] < h
    ensures i < |points| ==> points[i] >= h
  {
    if |points| == 0 || points[0] >= h then 0 else 1 + Search(points[1..], h)
  }

  /** The node a hash value belongs to. */
  function Lookup(r: Ring, h: u32): Option<Node> {
    if |r.points| == 0 then None
    else
      var i := Search(r.points, h);
      var p := r.points[if i == |r.points| then 0 else i];
      if p in r.owner then Some(r.owner[p]) else None
  }

  // ---- What a lookup means ----

  /** How far clockwise `p` lies from `h`. */
  function Distance(h: u32, p: u32): u32 { if p >= h then p - h else p + 0x1_0000_0000 - h }

  predicate Nearest(owner: map<u32, Node>, h: u32, p: u32) {
    p in owner && forall q :: q in owner ==> Distance(h, p) <= Distance(h, q)
  }

  predicate Ordered(ps: seq<u32>) { forall i, j :: 0 <= i < j < |ps| ==> ps[i] <= ps[j] }

  predicate Among(p: u32, n: Node, vnodes: nat, vhash: VHash) { p in PointsOf(n.id, vnodes, vhash) }

  /** The slice is sorted and lists exactly the owned points, and each owner is registered under its own id
      and claims its point. */
  ghost predicate Valid(r: Ring, vnodes: nat, vhash: VHash) {
    && Ordered(r.points) && (forall p :: p in r.points <==> p in r.owner)
    && (forall p :: p in r.owner ==>
          r.owner[p].id in r.nodes && r.nodes[r.owner[p].id] == r.owner[p] && Among(p, r.owner[p], vnodes, vhash))
    && (forall id :: id in r.nodes ==> r.nodes[id].id == id)
  }

  lemma NearestOnce(owner: map<u32, Node>, h: u32, p: u32, q: u32)
    requires Nearest(owner, h, p) && Nearest(owner, h, q)
    ensures p == q
  {}

  /** A lookup finds the node at the smallest clockwise distance, and fails only on a ring without points. */
  lemma LookupIsNearest(r: Ring, h: u32, vnodes: nat, vhash: VHash) returns (p: u32)
    requires Valid(r, vnodes, vhash)
    ensures Lookup(r, h).None? <==> r.owner == map[]
    ensures Lookup(r, h).Some? ==> Nearest(r.owner, h, p) && Lookup(r, h) == Some(r.owner[p])
    ensures Lookup(r, h).Some? ==>
              Lookup(r, h).value.id in r.nodes && r.nodes[Lookup(r, h).value.id] == Lookup(r, h).value
  {
    if |r.points| == 0 {
      p := 0;
      assert forall q :: q !in r.owner;
    } else {
      var i := Search(r.points, h);
      p := r.points[if i == |r.points| then 0 else i];
      assert p in r.points;
      forall q | q in r.owner ensures Distance(h, p) <= Distance(h, q) {
        assert q in r.points;
        var j :| 0 <= j < |r.points| && r.points[j] == q;
        assert i <= j < |r.points| ==> r.points[i] <= q;
        assert r.points[0] <= q;
      }
    }
  }

  // ---- What the parts do ----

  lemma {:induction false} PlaceAdds(sorted: seq<u32>, p: u32)
    ensures multiset(Place(sorted, p)) == multiset(sorted) + multiset{p}
  {
    if |sorted| > 0 && p > sorted[0] {
      PlaceAdds(sorted[1..], p);
      assert sorted == [sorted[0]] + sorted[1..];
    }
  }

  lemma Prepended(first: u32, rest: seq<u32>)
    requires Ordered(rest) && forall q :: q in multiset(rest) ==> first <= q
    ensures Ordered([first] + rest)
  {
    forall j | 0 <= j < |rest| ensures first <= rest[j] { assert rest[j] in multiset(rest); }
  }

  lemma {:induction false} PlaceSorts(sorted: seq<u32>, p: u32)
    requires Ordered(sorted)
    ensures Ordered(Place(sorted, p))
  {
    if |sorted| > 0 && p > sorted[0] {
      PlaceSorts(sorted[1..], p);
      PlaceAdds(sorted[1..], p);
      forall q | q in multiset(sorted[1..]) + multiset{p} ensures sorted[0] <= q {
        if q != p { assert q in sorted[1..]; }
      }
      Prepended(sorted[0], Place(sorted[1..], p));
    }
  }

  /** Sorting permutes. */
  lemma {:induction false} SortSorts(ps: seq<u32>)
    ensures Ordered(Sort(ps)) && multiset(Sort(ps)) == multiset(ps)
    ensures forall p :: p in Sort(ps) <==> p in ps
  {
    if |ps| > 0 {
      SortSorts(ps[..|ps| - 1]);
      PlaceSorts(Sort(ps[..|ps| - 1]), ps[|ps| - 1]);
      PlaceAdds(Sort(ps[..|ps| - 1]), ps[|ps| - 1]);
      assert ps == ps[..|ps| - 1] + [ps[|ps| - 1]];
    }
    forall p | true ensures p in Sort(ps) <==> p in ps {
      assert p in Sort(ps) <==> p in multiset(Sort(ps));
      assert p in ps <==> p in multiset(ps);
    }
  }

  lemma {:induction false} ClaimMeans(owner: map<u32, Node>, n: Node, ps: seq<u32>)
    ensures forall p :: p in Claim(owner, n, ps) <==> p in owner || p in ps
    ensures forall p :: p in Claim(owner, n, ps) ==> Claim(owner, n, ps)[p] == if p in ps then n else owner[p]
  {
    if |ps| > 0 {
      ClaimMeans(owner, n, ps[..|ps| - 1]);
      assert ps == ps[..|ps| - 1] + [ps[|ps| - 1]];
    }
  }

  lemma {:induction false} ReleaseMeans(owner: map<u32, Node>, ps: seq<u32>)
    ensures forall p :: p in Release(owner, ps) <==> p in owner && p !in ps
    ensures forall p :: p in Release(owner, ps) ==> Release(owner, ps)[p] == owner[p]
  {
    if |ps| > 0 {
      ReleaseMeans(owner, ps[..|ps| - 1]);
      assert ps == ps[..|ps| - 1] + [ps[|ps| - 1]];
    }
  }

  lemma {:induction false} OwnedMeans(ps: seq<u32>, owner: map<u32, Node>)
    requires Ordered(ps)
    ensures Ordered(Owned(ps, owner)) && forall p :: p in Owned(ps, owner) <==> p in ps && p in owner
  {
    if |ps| > 0 {
      var front, last := ps[..|ps| - 1], ps[|ps| - 1];
      OwnedMeans(front, owner);
      assert ps == front + [last];
      forall j | 0 <= j < |Owned(front, owner)| ensures Owned(front, owner)[j] <= last {
        assert Owned(front, owner)[j] in front;
      }
    }
  }

  // ---- Every reachable ring is valid ----

  lemma RemoveKeeps(r: Ring, id: Id, vnodes: nat, vhash: VHash)
    requires Valid(r, vnodes, vhash)
    ensures Valid(Removed(r, id, vnodes, vhash), vnodes, vhash) && id !in Removed(r, id, vnodes, vhash).nodes
  {
    if id in r.nodes {
      var ps := PointsOf(id, vnodes, vhash);
      ReleaseMeans(r.owner, ps);
      OwnedMeans(r.points, Release(r.owner, ps));
    }
  }

  lemma AddKeeps(r: Ring, n: Node, vnodes: nat, vhash: VHash)
    requires Valid(r, vnodes, vhash)
    ensures Valid(Added(r, n, vnodes, vhash), vnodes, vhash)
  {
    var q, ps := Removed(r, n.id, vnodes, vhash), PointsOf(n.id, vnodes, vhash);
    RemoveKeeps(r, n.id, vnodes, vhash);
    SortSorts(q.points + ps);
    ClaimMeans(q.owner, n, ps);
  }

  datatype Op = Add(node: Node) | Remove(id: Id)

  function Run(ops: seq<Op>, vnodes: nat, vhash: VHash): Ring {
    if |ops| == 0 then EMPTY
    else
      var r, op := Run(ops[..|ops| - 1], vnodes, vhash), ops[|ops| - 1];
      if op.Add? then Added(r, op.node, vnodes, vhash) else Removed(r, op.id, vnodes, vhash)
  }

  lemma {:induction false} RunValid(ops: seq<Op>, vnodes: nat, vhash: VHash)
    ensures Valid(Run(ops, vnodes, vhash), vnodes, vhash)
  {
    if |ops| > 0 {
      var r, op := Run(ops[..|ops| - 1], vnodes, vhash), ops[|ops| - 1];
      RunValid(ops[..|ops| - 1], vnodes, vhash);
      if op.Add? { AddKeeps(r, op.node, vnodes, vhash); } else { RemoveKeeps(r, op.id, vnodes, vhash); }
    }
  }

  // ---- Who owns a point ----

  /** A registered node that is removed takes every point it hashes to with it; all other points stay. */
  lemma RemoveOwns(r: Ring, id: Id, p: u32, vnodes: nat, vhash: VHash)
    ensures var d := Removed(r, id, vnodes, vhash);
            && (p in d.owner <==> p in r.owner && !(id in r.nodes && p in PointsOf(id, vnodes, vhash)))
            && (p in d.owner ==> d.owner[p] == r.owner[p]) && d.nodes == r.nodes - {id}
  {
    ReleaseMeans(r.owner, PointsOf(id, vnodes, vhash));
    if id !in r.nodes { assert r.nodes - {id} == r.nodes; }
  }

  /** A node that is added owns every point it hashes to; all other points stay. */
  lemma AddOwns(r: Ring, n: Node, p: u32, vnodes: nat, vhash: VHash)
    ensures var a := Added(r, n, vnodes, vhash);
            && (p in PointsOf(n.id, vnodes, vhash) ==> p in a.owner && a.owner[p] == n)
            && (p !in PointsOf(n.id, vnodes, vhash) ==>
                  (p in a.owner <==> p in r.owner) && (p in a.owner ==> a.owner[p] == r.owner[p]))
            && a.nodes == r.nodes[n.id := n]
  {
    RemoveOwns(r, n.id, p, vnodes, vhash);
    ClaimMeans(Removed(r, n.id, vnodes, vhash).owner, n, PointsOf(n.id, vnodes, vhash));
    assert (r.nodes - {n.id})[n.id := n] == r.nodes[n.id := n];
  }

  function IdOf(op: Op): Id { if op.Add? then op.node.id else op.id }

  /** Some operation adds the id, and none after it removes it. */
  predicate Registered(ops: seq<Op>, id: Id) {
    exists i :: 0 <= i < |ops| && ops[i].Add? && ops[i].node.id == id && NeverRemoved(ops, i, id)
  }

  predicate NeverRemoved(ops: seq<Op>, i: int, id: Id)
    requires 0 <= i < |ops|
  {
    forall j :: i < j < |ops| ==> ops[j] != Remove(id)
  }

  /** Operation i decides who owns the point: it adds, or removes while registered, a node that hashes to it. */
  predicate Touches(ops: seq<Op>, i: int, p: u32, vnodes: nat, vhash: VHash)
    requires 0 <= i < |ops|
  {
    p in PointsOf(IdOf(ops[i]), vnodes, vhash) && (ops[i].Add? || Registered(ops[..i], ops[i].id))
  }

  /** Operation i adds a node at the point, and no later one touches the point. */
  predicate Claims(ops: seq<Op>, i: int, p: u32, vnodes: nat, vhash: VHash) {
    && 0 <= i < |ops| && ops[i].Add? && Touches(ops, i, p, vnodes, vhash)
    && forall j :: i < j < |ops| ==> !Touches(ops, j, p, vnodes, vhash)
  }

  lemma RegisteredNext(ops: seq<Op>, id: Id)
    requires |ops| > 0
    ensures var op := ops[|ops| - 1];
            Registered(ops, id) <==> if IdOf(op) == id then op.Add? else Registered(ops[..|ops| - 1], id)
  {
    var front, last := ops[..|ops| - 1], |ops| - 1;
    if Registered(ops, id) && IdOf(ops[last]) != id {
      var i :| 0 <= i < |ops| && ops[i].Add? && ops[i].node.id == id && NeverRemoved(ops, i, id);
      assert front[i] == ops[i] && NeverRemoved(front, i, id);
    }
    if Registered(front, id) && IdOf(ops[last]) != id {
      var i :| 0 <= i < |front| && front[i].Add? && front[i].node.id == id && NeverRemoved(front, i, id);
      assert ops[i] == front[i] && NeverRemoved(ops, i, id);
    }
    if ops[last].Add? && IdOf(ops[last]) == id { assert NeverRemoved(ops, last, id); }
  }

  /** The nodes of a ring are those added and not removed since. */
  lemma {:induction false} RunRegisters(ops: seq<Op>, id: Id, vnodes: nat, vhash: VHash)
    ensures id in Run(ops, vnodes, vhash).nodes <==> Registered(ops, id)
  {
    if |ops| > 0 {
      var front, op := ops[..|ops| - 1], ops[|ops| - 1];
      RunRegisters(front, id, vnodes, vhash);
      RegisteredNext(ops, id);
      if op.Add? { AddOwns(Run(front, vnodes, vhash), op.node, 0, vnodes, vhash); }
      else { RemoveOwns(Run(front, vnodes, vhash), op.id, 0, vnodes, vhash); }
    }
  }

  lemma ClaimsNext(ops: seq<Op>, i: int, p: u32, vnodes: nat, vhash: VHash)
    requires 0 <= i < |ops| - 1
    ensures Claims(ops, i, p, vnodes, vhash) <==>
              Claims(ops[..|ops| - 1], i, p, vnodes, vhash) && !Touches(ops, |ops| - 1, p, vnodes, vhash)
  {
    var front := ops[..|ops| - 1];
    forall j | 0 <= j < |front| ensures Touches(front, j, p, vnodes, vhash) <==> Touches(ops, j, p, vnodes, vhash) {
      assert front[..j] == ops[..j];
    }
  }

  /** The history alone says who owns a point: the node whose addition was the last operation to touch it. */
  lemma {:induction false} RunOwns(ops: seq<Op>, p: u32, vnodes: nat, vhash: VHash)
    ensures var r := Run(ops, vnodes, vhash);
            && (p in r.owner <==> exists i :: Claims(ops, i, p, vnodes, vhash))
            && forall i :: Claims(ops, i, p, vnodes, vhash) ==> p in r.owner && r.owner[p] == ops[i].node
  {
    if |ops| > 0 {
      var front, last := ops[..|ops| - 1], |ops| - 1;
      var q, op := Run(front, vnodes, vhash), ops[last];
      RunOwns(front, p, vnodes, vhash);
      if op.Add? {
        AddOwns(q, op.node, p, vnodes, vhash);
      } else {
        RemoveOwns(q, op.id, p, vnodes, vhash);
        RunRegisters(front, op.id, vnodes, vhash);
      }
      assert Claims(ops, last, p, vnodes, vhash) <==> op.Add? && Touches(ops, last, p, vnodes, vhash);
      forall i | 0 <= i < last
        ensures Claims(ops, i, p, vnodes, vhash) <==>
                  Claims(front, i, p, vnodes, vhash) && !Touches(ops, last, p, vnodes, vhash)
      {
        ClaimsNext(ops, i, p, vnodes, vhash);
      }
      assert forall i :: Claims(front, i, p, vnodes, vhash) ==> front[i] == ops[i];
    }
  }

  /** After any sequence of additions and removals, collisions or not, a lookup gives the node added by the operation
      that claims the nearest claimed point clockwise, and fails exactly when no point is claimed. */
  lemma RunLookup(ops: seq<Op>, h: u32, vnodes: nat, vhash: VHash) returns (p: u32, i: int)
    ensures var found := Lookup(Run(ops, vnodes, vhash), h);
            && (found.None? <==> forall j, q :: !Claims(ops, j, q, vnodes, vhash))
            && (found.Some? ==>
                  && Claims(ops, i, p, vnodes, vhash) && found == Some(ops[i].node)
                  && forall j, q :: Claims(ops, j, q, vnodes, vhash) ==> Distance(h, p) <= Distance(h, q))
  {
    var r := Run(ops, vnodes, vhash);
    RunValid(ops, vnodes, vhash);
    p := LookupIsNearest(r, h, vnodes, vhash);
    i := 0;
    forall j, q | Claims(ops, j, q, vnodes, vhash) ensures q in r.owner { RunOwns(ops, q, vnodes, vhash); }
    if r.owner != map[] {
      RunOwns(ops, p, vnodes, vhash);
      i :| Claims(ops, i, p, vnodes, vhash);
    }
  }

  predicate HashesTo(op: Op, p: u32, vnodes: nat, vhash: VHash) { p in PointsOf(IdOf(op), vnodes, vhash) }

  /** No two ids the history mentions hash to one point. */
  predicate Unshared(ops: seq<Op>, vnodes: nat, vhash: VHash) {
    forall i, j, p :: 0 <= i < |ops| && 0 <= j < |ops| && HashesTo(ops[i], p, vnodes, vhash) &&
                        HashesTo(ops[j], p, vnodes, vhash)
      ==> IdOf(ops[i]) == IdOf(ops[j])
  }

  /** Without collisions a registered node owns all its points, so a lookup fails only when no node is registered. */
  lemma {:induction false} UnsharedAnswers(ops: seq<Op>, h: u32, vnodes: nat, vhash: VHash)
    requires vnodes > 0 && Unshared(ops, vnodes, vhash)
    ensures Lookup(Run(ops, vnodes, vhash), h).None? <==> Run(ops, vnodes, vhash).nodes == map[]
  {
    var r := Run(ops, vnodes, vhash);
    RunValid(ops, vnodes, vhash);
    var q := LookupIsNearest(r, h, vnodes, vhash);
    if r.nodes != map[] {
      var id :| id in r.nodes;
      RunRegisters(ops, id, vnodes, vhash);
      var i := LastAdded(ops, id);
      UnsharedClaims(ops, i, vnodes, vhash);
      RunOwns(ops, vhash(id, 0), vnodes, vhash);
    }
  }

  lemma LastAdded(ops: seq<Op>, id: Id) returns (i: int)
    requires Registered(ops, id)
    ensures 0 <= i < |ops| && ops[i].Add? && ops[i].node.id == id && forall j :: i < j < |ops| ==> IdOf(ops[j]) != id
  {
    i :| 0 <= i < |ops| && ops[i].Add? && ops[i].node.id == id && NeverRemoved(ops, i, id);
    for k := i + 1 to |ops|
      invariant 0 <= i < k && ops[i].Add? && ops[i].node.id == id && NeverRemoved(ops, i, id)
      invariant forall j :: i < j < k ==> IdOf(ops[j]) != id
    {
      if IdOf(ops[k]) == id {
        assert ops[k] != Remove(id);
        i := k;
      }
    }
  }

  lemma UnsharedClaims(ops: seq<Op>, i: int, vnodes: nat, vhash: VHash)
    requires vnodes > 0 && Unshared(ops, vnodes, vhash) && 0 <= i < |ops| && ops[i].Add?
    requires forall j :: i < j < |ops| ==> IdOf(ops[j]) != IdOf(ops[i])
    ensures Claims(ops, i, vhash(IdOf(ops[i]), 0), vnodes, vhash)
  {
    var p := vhash(IdOf(ops[i]), 0);
    assert PointsOf(IdOf(ops[i]), vnodes, vhash)[0] == p;
    forall j | i < j < |ops| ensures !Touches(ops, j, p, vnodes, vhash) {
      assert HashesTo(ops[i], p, vnodes, vhash) && !HashesTo(ops[j], p, vnodes, vhash);
    }
  }

  lemma {:induction false} RunNext(ops: seq<Op>, op: Op, vnodes: nat, vhash: VHash)
    ensures var r := Run(ops, vnodes, vhash);
            Run(ops + [op], vnodes, vhash) ==
              if op.Add? then Added(r, op.node, vnodes, vhash) else Removed(r, op.id, vnodes, vhash)
  {
    assert (ops + [op])[..|ops|] == ops;
  }

  /** With collisions a lookup can fail although a node is registered: the removal of another took its points. */
  lemma {:induction false} SharedPointsLoseNode(a: Node, b: Node, h: u32, vnodes: nat, vhash: VHash)
    requires a.id != b.id
    requires forall p :: p in PointsOf(a.id, vnodes, vhash) ==> p in PointsOf(b.id, vnodes, vhash)
    ensures var r := Run([] + [Add(a)] + [Add(b)] + [Remove(b.id)], vnodes, vhash);
            a.id in r.nodes && Lookup(r, h) == None
  {
    var r1, r2 := Added(EMPTY, a, vnodes, vhash), Added(Added(EMPTY, a, vnodes, vhash), b, vnodes, vhash);
    var r := Removed(r2, b.id, vnodes, vhash);
    RunNext([], Add(a), vnodes, vhash);
    RunNext([] + [Add(a)], Add(b), vnodes, vhash);
    RunNext([] + [Add(a)] + [Add(b)], Remove(b.id), vnodes, vhash);
    RunValid([] + [Add(a)] + [Add(b)] + [Remove(b.id)], vnodes, vhash);
    forall p: u32 ensures p !in r.owner && a.id in r.nodes {
      AddOwns(EMPTY, a, p, vnodes, vhash);
      AddOwns(r1, b, p, vnodes, vhash);
      RemoveOwns(r2, b.id, p, vnodes, vhash);
    }
    var p := LookupIsNearest(r, h, vnodes, vhash);
    assert p !in r.owner;
  }

  /** A removal leaves no node to be found exactly when the removed node hashes to every point there was. */
  lemma RemoveSilencesExactly(r: Ring, id: Id, h: u32, vnodes: nat, vhash: VHash)
    requires Valid(r, vnodes, vhash) && id in r.nodes
    ensures Lookup(Removed(r, id, vnodes, vhash), h).None? <==>
              forall p :: p in r.owner ==> p in PointsOf(id, vnodes, vhash)
  {
    var d := Removed(r, id, vnodes, vhash);
    RemoveKeeps(r, id, vnodes, vhash);
    var x := LookupIsNearest(d, h, vnodes, vhash);
    forall p ensures p in d.owner <==> p in r.owner && p !in PointsOf(id, vnodes, vhash) {
      RemoveOwns(r, id, p, vnodes, vhash);
    }
  }

  // ---- Which keys move ----

  /** One of the node's points is as near as any point of the ring. */
  predicate Nearer(r: Ring, n: Node, h: u32, vnodes: nat, vhash: VHash) {
    exists x :: x in PointsOf(n.id, vnodes, vhash) && forall q :: q in r.owner ==> Distance(h, x) <= Distance(h, q)
  }

  lemma SameDistance(h: u32, p: u32, q: u32)
    requires Distance(h, p) <= Distance(h, q) <= Distance(h, p)
    ensures p == q
  {}

  lemma NearerMoves(r: Ring, n: Node, h: u32, x: u32, vnodes: nat, vhash: VHash)
    requires Valid(r, vnodes, vhash) && n.id !in r.nodes && x in PointsOf(n.id, vnodes, vhash)
    requires forall q :: q in r.owner ==> Distance(h, x) <= Distance(h, q)
    ensures Lookup(Added(r, n, vnodes, vhash), h) == Some(n)
  {
    var a := Added(r, n, vnodes, vhash);
    AddOwns(r, n, x, vnodes, vhash);
    assert Valid(a, vnodes, vhash) by { AddKeeps(r, n, vnodes, vhash); }
    var q := LookupIsNearest(a, h, vnodes, vhash);
    AddOwns(r, n, q, vnodes, vhash);
    if q !in PointsOf(n.id, vnodes, vhash) { SameDistance(h, x, q); }
  }

  lemma OthersStay(r: Ring, n: Node, h: u32, vnodes: nat, vhash: VHash)
    requires Valid(r, vnodes, vhash) && n.id !in r.nodes && !Nearer(r, n, h, vnodes, vhash)
    ensures Lookup(Added(r, n, vnodes, vhash), h) == Lookup(r, h)
  {
    var a, ps := Added(r, n, vnodes, vhash), PointsOf(n.id, vnodes, vhash);
    AddKeeps(r, n, vnodes, vhash);
    var q := LookupIsNearest(a, h, vnodes, vhash);
    var p := LookupIsNearest(r, h, vnodes, vhash);
    forall y ensures y in r.owner ==> y in a.owner { AddOwns(r, n, y, vnodes, vhash); }
    if a.owner == map[] {
      assert r.owner == map[];
    } else {
      AddOwns(r, n, q, vnodes, vhash);
      assert q !in ps;
      NearestOnce(r.owner, h, p, q);
    }
  }

  /** Adding a node under a new id moves to it exactly the keys that one of its points is nearest to, a point it shares
      included; every other key stays where it was. */
  lemma AddMovesToNew(r: Ring, n: Node, h: u32, vnodes: nat, vhash: VHash)
    requires Valid(r, vnodes, vhash) && n.id !in r.nodes
    ensures Lookup(Added(r, n, vnodes, vhash), h) ==
              if Nearer(r, n, h, vnodes, vhash) then Some(n) else Lookup(r, h)
  {
    if Nearer(r, n, h, vnodes, vhash) {
      var x :| x in PointsOf(n.id, vnodes, vhash) && forall q :: q in r.owner ==> Distance(h, x) <= Distance(h, q);
      NearerMoves(r, n, h, x, vnodes, vhash);
    } else {
      OthersStay(r, n, h, vnodes, vhash);
    }
  }

  /** Removing a node moves only keys whose point is one of the node's hashes. */
  lemma RemoveMovesOwn(r: Ring, id: Id, h: u32, p: u32, vnodes: nat, vhash: VHash)
    requires Valid(r, vnodes, vhash) && Nearest(r.owner, h, p) && p !in PointsOf(id, vnodes, vhash)
    ensures Lookup(Removed(r, id, vnodes, vhash), h) == Lookup(r, h)
  {
    var d := Removed(r, id, vnodes, vhash);
    RemoveKeeps(r, id, vnodes, vhash);
    ReleaseMeans(r.owner, PointsOf(id, vnodes, vhash));
    var q := LookupIsNearest(r, h, vnodes, vhash);
    var x := LookupIsNearest(d, h, vnodes, vhash);
    NearestOnce(r.owner, h, p, q);
    assert p in d.owner && Nearest(d.owner, h, p);
    NearestOnce(d.owner, h, p, x);
  }

  /** After a removal, a lookup gives the owner of the nearest point that is not one of the node's hashes. */
  lemma RemoveLookup(r: Ring, id: Id, h: u32, vnodes: nat, vhash: VHash) returns (q: u32)
    requires Valid(r, vnodes, vhash) && id in r.nodes
    ensures var found, ps := Lookup(Removed(r, id, vnodes, vhash), h), PointsOf(id, vnodes, vhash);
            && (found.None? <==> forall p :: p in r.owner ==> p in ps)
            && (found.Some? ==>
                  && q in r.owner && q !in ps && found == Some(r.owner[q])
                  && forall p :: p in r.owner && p !in ps ==> Distance(h, q) <= Distance(h, p))
  {
    var d := Removed(r, id, vnodes, vhash);
    RemoveKeeps(r, id, vnodes, vhash);
    RemoveSilencesExactly(r, id, h, vnodes, vhash);
    q := LookupIsNearest(d, h, vnodes, vhash);
    RemoveOwns(r, id, q, vnodes, vhash);
    forall p | p in r.owner && p !in PointsOf(id, vnodes, vhash) ensures p in d.owner {
      RemoveOwns(r, id, p, vnodes, vhash);
    }
  }

  /** No registered node other than `id` owns one of its hashes. */
  predicate Apart(r: Ring, id: Id, vnodes: nat, vhash: VHash) {
    forall p :: p in r.owner && p in PointsOf(id, vnodes, vhash) ==> r.owner[p].id == id
  }

  /** Removing a node keeps every point of every other node exactly when none of them shares one with it, or the node
      was not registered. */
  lemma RemoveKeepsExactly(r: Ring, id: Id, vnodes: nat, vhash: VHash)
    ensures var d := Removed(r, id, vnodes, vhash);
            (forall p :: p in r.owner && r.owner[p].id != id ==> p in d.owner && d.owner[p] == r.owner[p]) <==>
              id !in r.nodes || Apart(r, id, vnodes, vhash)
  {
    var d := Removed(r, id, vnodes, vhash);
    if id in r.nodes {
      ReleaseMeans(r.owner, PointsOf(id, vnodes, vhash));
      if !Apart(r, id, vnodes, vhash) {
        var p :| p in r.owner && p in PointsOf(id, vnodes, vhash) && r.owner[p].id != id;
        assert p !in d.owner;
      }
    }
  }

  /** Without collisions, removing a node moves only its own keys. */
  lemma RemoveMovesOnlyItsKeys(r: Ring, id: Id, h: u32, vnodes: nat, vhash: VHash)
    requires Valid(r, vnodes, vhash) && Apart(r, id, vnodes, vhash)
    requires Lookup(r, h).Some? && Lookup(r, h).value.id != id
    ensures Lookup(Removed(r, id, vnodes, vhash), h) == Lookup(r, h)
  {
    var p := LookupIsNearest(r, h, vnodes, vhash);
    RemoveMovesOwn(r, id, h, p, vnodes, vhash);
  }

  /** Adding a fresh node and removing it again gives back the owners exactly when the node shares no point with
      the ring. */
  lemma AddRemoveExactly(r: Ring, n: Node, vnodes: nat, vhash: VHash)
    requires Valid(r, vnodes, vhash) && n.id !in r.nodes
    ensures Removed(Added(r, n, vnodes, vhash), n.id, vnodes, vhash).owner == r.owner <==>
              (forall p :: p in PointsOf(n.id, vnodes, vhash) ==> p !in r.owner)
  {
    var a, ps := Added(r, n, vnodes, vhash), PointsOf(n.id, vnodes, vhash);
    ClaimMeans(r.owner, n, ps);
    ReleaseMeans(a.owner, ps);
    var d := Removed(a, n.id, vnodes, vhash);
    assert d.owner == Release(a.owner, ps);
    if forall p :: p in ps ==> p !in r.owner {
      assert forall p :: p in d.owner <==> p in r.owner;
      assert d.owner == r.owner;
    }
  }

  /** In that case every lookup is restored. */
  lemma AddRemoveRestores(r: Ring, n: Node, h: u32, vnodes: nat, vhash: VHash)
    requires Valid(r, vnodes, vhash) && n.id !in r.nodes
    requires forall p :: p in PointsOf(n.id, vnodes, vhash) ==> p !in r.owner
    ensures Lookup(Removed(Added(r, n, vnodes, vhash), n.id, vnodes, vhash), h) == Lookup(r, h)
  {
    var a := Added(r, n, vnodes, vhash);
    var d := Removed(a, n.id, vnodes, vhash);
    AddKeeps(r, n, vnodes, vhash);
    RemoveKeeps(a, n.id, vnodes, vhash);
    AddRemoveExactly(r, n, vnodes, vhash);
    var p := LookupIsNearest(r, h, vnodes, vhash);
    var q := LookupIsNearest(d, h, vnodes, vhash);
    if r.owner != map[] { NearestOnce(r.owner, h, p, q); }
  }

  // ---- The ring in place ----

  class HashRing {
    const vnodes: nat
    const vhash: VHash
    var points: seq<u32>
    var owner: map<u32, Node>
    var nodes: map<Id, Node>

    function State(): Ring
      reads this
    {
      Ring(points, owner, nodes)
    }

    constructor (vnodeCount: int, vhash: VHash)
      ensures State() == EMPTY && this.vhash == vhash && vnodes == if vnodeCount <= 0 then 150 else vnodeCount
    {
      this.vnodes := if vnodeCount <= 0 then 150 else vnodeCount;
      this.vhash, points, owner, nodes := vhash, [], map[], map[];
    }

    method RemoveNode(id: Id)
      modifies this
      ensures State() == Removed(old(State()), id, vnodes, vhash)
    {
      if id !in nodes { return; }
      nodes := nodes - {id};
      ghost var all := PointsOf(id, vnodes, vhash);
      for i := 0 to vnodes
        invariant owner == Release(old(owner), all[..i]) && points == old(points) && nodes == old(nodes) - {id}
      {
        assert all[..i + 1][..i] == all[..i];
        owner := owner - {vhash(id, i)};
      }
      assert all[..vnodes] == all;
      var kept := [];
      for i := 0 to |points|
        invariant kept == Owned(points[..i], owner)
      {
        assert points[..i + 1][..i] == points[..i];
        if points[i] in owner { kept := kept + [points[i]]; }
      }
      assert points[..|points|] == points;
      points := kept;
    }

    method AddNode(n: Node)
      modifies this
      ensures State() == Added(old(State()), n, vnodes, vhash)
    {
      if n.id in nodes { RemoveNode(n.id); }
      nodes := nodes[n.id := n];
      ghost var q := Removed(old(State()), n.id, vnodes, vhash);
      ghost var all := PointsOf(n.id, vnodes, vhash);
      for i := 0 to vnodes
        invariant points == q.points + all[..i] && owner == Claim(q.owner, n, all[..i]) && nodes == q.nodes[n.id := n]
      {
        assert all[..i + 1][..i] == all[..i] && all[..i + 1] == all[..i] + [vhash(n.id, i)];
        var h := vhash(n.id, i);
        points, owner := points + [h], owner[h := n];
      }
      assert all[..vnodes] == all;
      points := Sort(points);
    }

    /** The binary search, on the sorted slice. */
    method Find(h: u32) returns (r: Option<Node>)
      requires Ordered(points)
      ensures r == Lookup(State(), h)
    {
      if |points| == 0 { return None; }
      var lo, hi := 0, |points|;
      while lo < hi
        invariant 0 <= lo <= hi <= |points|
        invariant forall j :: 0 <= j < lo ==> points[j] < h
        invariant forall j :: hi <= j < |points| ==> points[j] >= h
      {
        var mid := (lo + hi) / 2;
        if points[mid] >= h { hi := mid; } else { lo := mid + 1; }
      }
      if lo < |points| { assert points[lo] >= h; }
      assert lo == Search(points, h);
      var p := points[if lo == |points| then 0 else lo];
      return if p in owner then Some(owner[p]) else None;
    }
  }
}
