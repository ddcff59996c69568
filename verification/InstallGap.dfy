/** What installing a snapshot does to entries a node has already committed or applied.

    The handler compares the snapshot with the log and with what the state machine has applied, but never with the
    commit index. A snapshot below what the node has reached, whose last entry the log no longer holds, empties the
    log and puts the state machine back.
 */
module InstallGap {
  import opened RaftLog
  import opened RaftNode
  import opened KvReplay

  /** The node already holds the snapshot's last entry and its state machine has applied it. */
  predicate AlreadyThere(n: Node, applied: int, index: int, term: int) {
    var p := Locate(n.log, index);
    p >= 0 && n.log[p].term == term && applied >= index
  }

  /** The same, said of the log's entries: the last one with the snapshot's index has its term. */
  predicate There(n: Node, applied: int, index: int, term: int) {
    && 1 <= index <= applied
    && exists i :: 0 <= i < |n.log| && n.log[i].index == index && n.log[i].term == term && LastWith(n.log, i, index)
  }

  predicate LastWith(log: seq<Entry>, i: int, index: int)
    requires 0 <= i < |log|
  {
    forall j :: i < j < |log| ==> log[j].index != index
  }

  lemma {:induction false} FindsLast(log: seq<Entry>, index: int)
    ensures var p := Find(log, index); p >= 0 ==> LastWith(log, p, index)
  {
    if |log| > 0 && log[|log| - 1].index != index { FindsLast(log[..|log| - 1], index); }
  }

  lemma ThereExactly(n: Node, applied: int, index: int, term: int)
    ensures AlreadyThere(n, applied, index, term) <==> There(n, applied, index, term)
  {
    FindsLast(n.log, index);
  }

  function AtLeast(x: int, y: int): int { if x < y then y else x }

  /** The log section of a snapshot installation; the state machine has applied up to `applied`. */
  function Installed(n: Node, applied: int, index: int, term: int): Node {
    if AlreadyThere(n, applied, index, term) then TruncatePrefix(n, index, term)
    else n.(log := [], snapIndex := index, snapTerm := term,
            commitIndex := AtLeast(n.commitIndex, index), lastApplied := AtLeast(n.lastApplied, index))
  }

  /** The state machine after the installation. */
  function Restored(n: Node, m: Machine, snapshot: View, index: int, term: int): Machine {
    if AlreadyThere(n, m.lastApplied, index, term) then m else Machine(snapshot, index)
  }

  /** The log section, exactly. A node that is already there keeps the entries above the snapshot; any other starts anew
      from it, with commit index and lastApplied raised to it if they lie below. */
  lemma InstallMeans(n: Node, applied: int, index: int, term: int)
    requires n.snapIndex >= 0 && Consecutive(n.log, n.snapIndex)
    ensures var m, there := Installed(n, applied, index, term), There(n, applied, index, term);
            && (there ==> n.snapIndex < index <= n.snapIndex + |n.log| && m.log == n.log[index - n.snapIndex..])
            && (!there ==> m.log == []) && m.snapIndex == index && m.snapTerm == term
            && m.commitIndex == (if there || n.commitIndex >= index then n.commitIndex else index)
            && m.lastApplied == (if there || n.lastApplied >= index then n.lastApplied else index)
            && m == n.(log := m.log, snapIndex := index, snapTerm := term, commitIndex := m.commitIndex,
                       lastApplied := m.lastApplied)
  {
    ThereExactly(n, applied, index, term);
    if There(n, applied, index, term) {
      FindConsecutive(n.log, n.snapIndex, index);
      CutConsecutive(n.log, n.snapIndex, index + 1);
    }
  }

  /** After a snapshot the node still has everything it committed, in its log or under the snapshot, exactly when
      it already held the snapshot's last entry or the snapshot reaches its commit index. */
  lemma InstallKeepsCommitted(n: Node, applied: int, index: int, term: int)
    requires n.snapIndex >= 0 && Consecutive(n.log, n.snapIndex) && n.commitIndex <= n.LastIndex()
    ensures var m := Installed(n, applied, index, term);
            m.commitIndex <= m.LastIndex() <==> (There(n, applied, index, term) || n.commitIndex <= index)
  {
    ThereExactly(n, applied, index, term);
    if AlreadyThere(n, applied, index, term) {
      FindConsecutive(n.log, n.snapIndex, index);
      CutConsecutive(n.log, n.snapIndex, index + 1);
    }
  }

  /** Take a node that has sent the first `lastApplied` entries of `ds` to a state machine which has applied `done` of
      them, the others still being queued, and a snapshot of the first `index`. The machine is restored, applies what
      is queued, and then what the node delivers. That gives the map of `ds` exactly when
      - the node already held the snapshot's last entry, and so restored nothing; or
      - the snapshot lies below what was applied, and no entry between them is the last to write its key and changed
        what the snapshot shows; or
      - the snapshot lies among the queued entries; or
      - the snapshot lies above them, and no key that a queued entry writes, and no entry above the snapshot, was
        changed between them. */
  lemma {:induction false} InstallKeepsApplied(n: Node, m: Machine, ds: seq<Delivery>, done: nat, index: nat, term: int)
    requires done <= n.lastApplied <= |ds| && index <= |ds| && m.data == Effects(map[], ds[..done])
    ensures var k := Installed(n, m.lastApplied, index, term);
            var r := Restored(n, m, Effects(map[], ds[..index]), index, term);
            0 <= k.lastApplied <= |ds| &&
            (Effects(Effects(r.data, ds[done..n.lastApplied]), ds[k.lastApplied..]) == Effects(map[], ds) <==>
               || There(n, m.lastApplied, index, term)
               || (index < done && AllHarmless(map[], Without(ds, index, done)))
               || done <= index <= n.lastApplied
               || (n.lastApplied < index && NothingPutBack(ds, done, n.lastApplied, index)))
  {
    var sent: nat, snapshot := n.lastApplied, Effects(map[], ds[..index]);
    ThereExactly(n, m.lastApplied, index, term);
    if AlreadyThere(n, m.lastApplied, index, term) {
      Drained(m.data, ds, done, sent);
      EffectsSplit(map[], ds, done);
    } else if index <= sent {
      Drained(snapshot, ds, done, sent);
      if index < done { RestoreExactly(map[], ds, index, done); } else { OverlapConverges(map[], ds, done, index); }
    } else {
      LateQueueExactly(ds, done, sent, index);
    }
  }

  /** The queue and what follows it are one run of entries. */
  lemma {:induction false} Drained(view: View, ds: seq<Delivery>, done: nat, sent: nat)
    requires done <= sent <= |ds|
    ensures Effects(Effects(view, ds[done..sent]), ds[sent..]) == Effects(view, ds[done..])
  {
    EffectsConcat(view, ds[done..sent], ds[sent..]);
    assert ds[done..sent] + ds[sent..] == ds[done..];
  }

  /** No key that a queued entry writes, and no entry above the snapshot, was changed in between. */
  ghost predicate NothingPutBack(ds: seq<Delivery>, done: nat, sent: nat, index: nat)
    requires done <= sent <= index <= |ds|
  {
    forall key :: Touched(ds[done..sent], key) && !Touched(ds[index..], key) ==>
      Lookup(Effects(map[], ds[..sent]), key) == Lookup(Effects(map[], ds[..index]), key)
  }

  lemma {:induction false} LateQueueAt(ds: seq<Delivery>, done: nat, sent: nat, index: nat, key: string)
    requires done <= sent <= index <= |ds|
    ensures var snapshot := Effects(map[], ds[..index]);
            Lookup(Effects(Effects(snapshot, ds[done..sent]), ds[index..]), key) == Lookup(Effects(map[], ds), key) <==>
              (Touched(ds[done..sent], key) && !Touched(ds[index..], key) ==>
                 Lookup(Effects(map[], ds[..sent]), key) == Lookup(snapshot, key))
  {
    var snapshot, queued, rest := Effects(map[], ds[..index]), ds[done..sent], ds[index..];
    EffectsSplit(map[], ds, index);
    if Touched(rest, key) {
      TouchedForgets(Effects(snapshot, queued), snapshot, rest, key);
    } else {
      Untouched(Effects(snapshot, queued), rest, key);
      Untouched(snapshot, rest, key);
      if Touched(queued, key) {
        TouchedForgets(snapshot, Effects(map[], ds[..done]), queued, key);
        EffectsConcat(map[], ds[..done], queued);
        assert ds[..done] + queued == ds[..sent];
      } else {
        Untouched(snapshot, queued, key);
      }
    }
  }

  /** Queued entries older than the snapshot are applied on top of it. */
  lemma {:induction false} LateQueueExactly(ds: seq<Delivery>, done: nat, sent: nat, index: nat)
    requires done <= sent <= index <= |ds|
    ensures Effects(Effects(Effects(map[], ds[..index]), ds[done..sent]), ds[index..]) == Effects(map[], ds) <==>
              NothingPutBack(ds, done, sent, index)
  {
    var a, b := Effects(Effects(Effects(map[], ds[..index]), ds[done..sent]), ds[index..]), Effects(map[], ds);
    forall key ensures Lookup(a, key) == Lookup(b, key) <==>
                         (Touched(ds[done..sent], key) && !Touched(ds[index..], key) ==>
                            Lookup(Effects(map[], ds[..sent]), key) == Lookup(Effects(map[], ds[..index]), key))
    {
      LateQueueAt(ds, done, sent, index, key);
    }
    if NothingPutBack(ds, done, sent, index) { SameLookup(a, b); }
  }
}
