/** The plain key-value state machine: delivering entries again converges.

    After a restart, and after a snapshot taken between the two halves of one apply, some entries are applied
    twice. The lemmas say that this does not matter, whatever the entries.
 */
module KvReplay {
  import opened RaftLog

  datatype Command = Command(op: string, key: string, value: string)

  /** A command entry; one whose data does not parse carries no command. */
  datatype Delivery = Delivery(index: int, command: Option<Command>)

  type View = map<string, string>

  /** Operations other than "set" and "del" leave the map alone. */
  function Effect(view: View, d: Delivery): View {
    if d.command.None? then view
    else
      var c := d.command.value;
      if c.op == "set" then view[c.key := c.value]
      else if c.op == "del" then view - {c.key}
      else view
  }

  function Effects(view: View, ds: seq<Delivery>): View {
    if |ds| == 0 then view else Effect(Effects(view, ds[..|ds| - 1]), ds[|ds| - 1])
  }

  datatype Machine = Machine(data: View, lastApplied: int)

  /** An entry that does not parse, or whose durable write fails, leaves everything as it is. */
  function Applied(m: Machine, d: Delivery, storeOk: bool): Machine {
    if d.command.None? || !storeOk then m else Machine(Effect(m.data, d), d.index)
  }

  /** The startup path skips entries already applied. */
  function AppliedDirect(m: Machine, d: Delivery, storeOk: bool): Machine {
    if d.index <= m.lastApplied then m else Applied(m, d, storeOk)
  }

  function DirectAll(m: Machine, ds: seq<Delivery>): Machine
    decreases |ds|
  {
    if |ds| == 0 then m else DirectAll(AppliedDirect(m, ds[0], true), ds[1..])
  }

  /** The entries up to the first one above `index`. */
  function UpTo(ds: seq<Delivery>, index: int): (k: nat)
    ensures k <= |ds| && (forall i :: 0 <= i < k ==> ds[i].index <= index) && (k < |ds| ==> ds[k].index > index)
  {
    if |ds| == 0 || ds[0].index > index then 0 else 1 + UpTo(ds[1..], index)
  }

  /** Rebuilding the map from the log, up to the index the durable store reports. */
  function Recovered(view: View, ds: seq<Delivery>, durable: int): Machine {
    Machine(Effects(view, ds[..UpTo(ds, durable)]), durable)
  }

  // ---- The last write of a key decides ----

  predicate Writes(d: Delivery, key: string) {
    d.command.Some? && d.command.value.op in {"set", "del"} && d.command.value.key == key
  }

  predicate Touched(ds: seq<Delivery>, key: string) { exists i :: 0 <= i < |ds| && Writes(ds[i], key) }

  predicate SameAt(a: View, b: View, key: string) { (key in a <==> key in b) && (key in a ==> a[key] == b[key]) }

  lemma {:induction false} EffectsConcat(view: View, a: seq<Delivery>, b: seq<Delivery>)
    ensures Effects(view, a + b) == Effects(Effects(view, a), b)
    decreases |b|
  {
    if |b| == 0 {
      assert a + b == a;
    } else {
      EffectsConcat(view, a, b[..|b| - 1]);
      assert (a + b)[..|a + b| - 1] == a + b[..|b| - 1];
    }
  }

  lemma {:induction false} Untouched(view: View, ds: seq<Delivery>, key: string)
    requires !Touched(ds, key)
    ensures SameAt(Effects(view, ds), view, key)
  {
    if |ds| > 0 {
      var front := ds[..|ds| - 1];
      assert forall i :: 0 <= i < |front| ==> front[i] == ds[i];
      assert !Touched(front, key) && !Writes(ds[|ds| - 1], key);
      Untouched(view, front, key);
    }
  }

  /** Where a key is written, the map before does not matter. */
  lemma {:induction false} TouchedForgets(v: View, w: View, ds: seq<Delivery>, key: string)
    requires Touched(ds, key)
    ensures SameAt(Effects(v, ds), Effects(w, ds), key)
  {
    var front, last := ds[..|ds| - 1], ds[|ds| - 1];
    if !Writes(last, key) {
      var i :| 0 <= i < |ds| && Writes(ds[i], key);
      assert front[i] == ds[i];
      TouchedForgets(v, w, front, key);
    }
  }

  lemma {:induction false} OverlapAt(view: View, ds: seq<Delivery>, j: nat, k: nat, key: string)
    requires j <= k <= |ds|
    ensures SameAt(Effects(Effects(view, ds[..k]), ds[j..]), Effects(view, ds), key)
  {
    assert ds == ds[..j] + ds[j..] && ds[..k] == ds[..j] + ds[j..k];
    EffectsConcat(view, ds[..j], ds[j..]);
    EffectsConcat(view, ds[..j], ds[j..k]);
    if Touched(ds[j..], key) {
      TouchedForgets(Effects(view, ds[..k]), Effects(view, ds[..j]), ds[j..], key);
    } else {
      assert forall i :: 0 <= i < k - j ==> ds[j..k][i] == ds[j..][i];
      assert !Touched(ds[j..k], key);
      Untouched(Effects(view, ds[..j]), ds[j..k], key);
      Untouched(Effects(view, ds[..k]), ds[j..], key);
      Untouched(Effects(view, ds[..j]), ds[j..], key);
    }
  }

  /** Applying entries j, j+1, ... to the map reached after k of them gives the map after all of them, for every
      j at most k. */
  lemma {:induction false} OverlapConverges(view: View, ds: seq<Delivery>, j: nat, k: nat)
    requires j <= k <= |ds|
    ensures Effects(Effects(view, ds[..k]), ds[j..]) == Effects(view, ds)
  {
    var a, b := Effects(Effects(view, ds[..k]), ds[j..]), Effects(view, ds);
    forall key | key in a.Keys + b.Keys ensures key in a && key in b && a[key] == b[key] {
      OverlapAt(view, ds, j, k, key);
    }
    assert a.Keys == b.Keys;
  }

  // ---- Snapshots and restarts ----

  /** A snapshot may pair the map after an entry with the index before it. Whoever restores it and applies the
      entries above that index ends with the right map. */
  lemma TornSnapshotConverges(view: View, ds: seq<Delivery>, k: nat, torn: bool)
    requires k <= |ds| && (torn ==> k < |ds|)
    ensures var captured := Effects(view, ds[..if torn then k + 1 else k]);
            Effects(captured, ds[k..]) == Effects(view, ds)
  {
    OverlapConverges(view, ds, k, if torn then k + 1 else k);
  }

  predicate Increasing(ds: seq<Delivery>) { forall i, j :: 0 <= i < j < |ds| ==> ds[i].index < ds[j].index }

  lemma {:induction false} DirectAbove(m: Machine, ds: seq<Delivery>)
    requires Increasing(ds) && forall i :: 0 <= i < |ds| ==> ds[i].index > m.lastApplied
    ensures DirectAll(m, ds).data == Effects(m.data, ds)
    decreases |ds|
  {
    if |ds| > 0 {
      var n := AppliedDirect(m, ds[0], true);
      DirectAbove(n, ds[1..]);
      EffectsConcat(m.data, [ds[0]], ds[1..]);
      assert [ds[0]] + ds[1..] == ds;
      assert Effects(m.data, [ds[0]]) == n.data by { assert [ds[0]][..0] == []; }
    }
  }

  lemma {:induction false} DirectSkips(m: Machine, ds: seq<Delivery>, k: nat)
    requires k <= |ds| && forall i :: 0 <= i < k ==> ds[i].index <= m.lastApplied
    ensures DirectAll(m, ds) == DirectAll(m, ds[k..])
    decreases k
  {
    if k > 0 {
      DirectSkips(m, ds[1..], k - 1);
      assert ds[1..][k - 1..] == ds[k..];
    } else {
      assert ds[0..] == ds;
    }
  }

  lemma {:induction false} EffectsSplit(view: View, ds: seq<Delivery>, k: nat)
    requires k <= |ds|
    ensures Effects(Effects(view, ds[..k]), ds[k..]) == Effects(view, ds)
  {
    EffectsConcat(view, ds[..k], ds[k..]);
    assert ds[..k] + ds[k..] == ds;
  }

  /** A restart rebuilds the map of the whole log: recovery up to the durable index, then every entry of the log
      offered again to the startup path. */
  lemma {:induction false} RestartRebuilds(ds: seq<Delivery>, durable: int)
    requires Increasing(ds)
    ensures DirectAll(Recovered(map[], ds, durable), ds).data == Effects(map[], ds)
  {
    var k, m := UpTo(ds, durable), Recovered(map[], ds, durable);
    DirectSkips(m, ds, k);
    AboveDurable(ds, durable);
    DirectAbove(m, ds[k..]);
    EffectsSplit(map[], ds, k);
  }

  /** The entries recovery leaves lie above the durable index. */
  lemma {:induction false} AboveDurable(ds: seq<Delivery>, durable: int)
    requires Increasing(ds)
    ensures var rest := ds[UpTo(ds, durable)..];
            Increasing(rest) && forall i :: 0 <= i < |rest| ==> rest[i].index > durable
  {
    var k := UpTo(ds, durable);
    forall i | k <= i < |ds| ensures ds[i].index > durable {
      if i > k { assert ds[k].index < ds[i].index; }
    }
  }

  // ---- Failed writes ----

  /** An entry with the outcome of its durable write. */
  datatype Attempt = Attempt(d: Delivery, ok: bool)

  function AppliedAll(m: Machine, rs: seq<Attempt>): Machine {
    if |rs| == 0 then m else Applied(AppliedAll(m, rs[..|rs| - 1]), rs[|rs| - 1].d, rs[|rs| - 1].ok)
  }

  /** The entries, whatever became of them. */
  function Entries(rs: seq<Attempt>): seq<Delivery> { seq(|rs|, i requires 0 <= i < |rs| => rs[i].d) }

  function Lookup(view: View, key: string): Option<string> { if key in view then Some(view[key]) else None }

  /** What a write leaves under its key. */
  function Result(d: Delivery): Option<string>
    requires d.command.Some?
  {
    if d.command.value.op == "set" then Some(d.command.value.value) else None
  }

  /** Attempt i is the last write of this key. */
  predicate LastWrite(rs: seq<Attempt>, i: int, key: string) {
    0 <= i < |rs| && Writes(rs[i].d, key) && forall j :: i < j < |rs| ==> !Writes(rs[j].d, key)
  }

  /** What the last successful write of the key left, or what the key held at first if there is none. */
  function LastSuccess(view: View, rs: seq<Attempt>, key: string): Option<string> {
    if |rs| == 0 then Lookup(view, key)
    else if rs[|rs| - 1].ok && Writes(rs[|rs| - 1].d, key) then Result(rs[|rs| - 1].d)
    else LastSuccess(view, rs[..|rs| - 1], key)
  }

  /** If attempt i is the last write of its key and failed, it has the same effect as the last successful one. */
  predicate Harmless(view: View, rs: seq<Attempt>, i: int)
    requires 0 <= i < |rs|
  {
    rs[i].d.command.Some? && !rs[i].ok && LastWrite(rs, i, rs[i].d.command.value.key) ==>
      LastSuccess(view, rs, rs[i].d.command.value.key) == Result(rs[i].d)
  }

  predicate AllHarmless(view: View, rs: seq<Attempt>) {
    forall i {:trigger Harmless(view, rs, i)} :: 0 <= i < |rs| ==> Harmless(view, rs, i)
  }

  /** The running map shows the last successful write of each key. */
  lemma {:induction false} RunningShows(m: Machine, rs: seq<Attempt>, key: string)
    ensures Lookup(AppliedAll(m, rs).data, key) == LastSuccess(m.data, rs, key)
  {
    if |rs| > 0 { RunningShows(m, rs[..|rs| - 1], key); }
  }

  lemma SameLookup(a: View, b: View)
    requires forall key :: Lookup(a, key) == Lookup(b, key)
    ensures a == b
  {
    forall key | key in a.Keys + b.Keys ensures key in a && key in b && a[key] == b[key] {
      assert Lookup(a, key) == Lookup(b, key);
    }
    assert a.Keys == b.Keys;
  }

  lemma EntriesFront(rs: seq<Attempt>, k: nat)
    requires k <= |rs|
    ensures Entries(rs[..k]) == Entries(rs)[..k]
  {}

  /** An attempt at another key, or a failed one, leaves the key as it was. */
  lemma {:induction false} LastSuccessAt(view: View, rs: seq<Attempt>, k: nat, key: string)
    requires k <= |rs| && forall j :: k <= j < |rs| ==> !Writes(rs[j].d, key) || !rs[j].ok
    ensures LastSuccess(view, rs, key) == LastSuccess(view, rs[..k], key)
    decreases |rs| - k
  {
    if k == |rs| {
      assert rs[..k] == rs;
    } else {
      LastSuccessAt(view, rs, k + 1, key);
      assert rs[..k + 1][..k] == rs[..k];
    }
  }

  lemma {:induction false} IntendedAt(view: View, ds: seq<Delivery>, k: nat, key: string)
    requires k <= |ds| && forall j :: k <= j < |ds| ==> !Writes(ds[j], key)
    ensures Lookup(Effects(view, ds), key) == Lookup(Effects(view, ds[..k]), key)
    decreases |ds| - k
  {
    if k == |ds| {
      assert ds[..k] == ds;
    } else {
      IntendedAt(view, ds, k + 1, key);
      assert ds[..k + 1][..k] == ds[..k];
    }
  }

  lemma {:induction false} WrittenAt(view: View, ds: seq<Delivery>, i: nat, key: string)
    requires i < |ds| && Writes(ds[i], key) && forall j :: i < j < |ds| ==> !Writes(ds[j], key)
    ensures Lookup(Effects(view, ds), key) == Result(ds[i])
  {
    IntendedAt(view, ds, i + 1, key);
    assert ds[..i + 1][..i] == ds[..i];
  }

  lemma {:induction false} FindLastWrite(rs: seq<Attempt>, key: string) returns (i: int)
    ensures if i == -1 then forall j :: 0 <= j < |rs| ==> !Writes(rs[j].d, key) else LastWrite(rs, i, key)
  {
    i := -1;
    for k := 0 to |rs|
      invariant if i == -1 then forall j :: 0 <= j < k ==> !Writes(rs[j].d, key)
                else 0 <= i < k && Writes(rs[i].d, key) && forall j :: i < j < k ==> !Writes(rs[j].d, key)
    {
      if Writes(rs[k].d, key) { i := k; }
    }
  }

  /** One key: the running map shows what the log says, unless the last write of the key failed and would have
      changed it. */
  lemma {:induction false} FailedAt(m: Machine, rs: seq<Attempt>, i: nat, key: string)
    requires LastWrite(rs, i, key)
    ensures Lookup(AppliedAll(m, rs).data, key) == Lookup(Effects(m.data, Entries(rs)), key) <==>
              Harmless(m.data, rs, i)
  {
    WrittenAt(m.data, Entries(rs), i, key);
    RunningShows(m, rs, key);
    if rs[i].ok {
      LastSuccessAt(m.data, rs, i + 1, key);
      assert rs[..i + 1][..i] == rs[..i];
    }
  }

  lemma {:induction false} UnwrittenAt(m: Machine, rs: seq<Attempt>, key: string)
    requires forall j :: 0 <= j < |rs| ==> !Writes(rs[j].d, key)
    ensures Lookup(AppliedAll(m, rs).data, key) == Lookup(Effects(m.data, Entries(rs)), key)
  {
    RunningShows(m, rs, key);
    LastSuccessAt(m.data, rs, 0, key);
    IntendedAt(m.data, Entries(rs), 0, key);
  }

  /** The exact condition, over every sequence of deliveries and write outcomes: the running map is the map of the
      log exactly when every key's last write succeeded or has the same effect as its last successful one. */
  lemma {:induction false} FailedWritesExactly(m: Machine, rs: seq<Attempt>)
    ensures AppliedAll(m, rs).data == Effects(m.data, Entries(rs)) <==> AllHarmless(m.data, rs)
  {
    var a, b := AppliedAll(m, rs).data, Effects(m.data, Entries(rs));
    if a == b {
      forall i | 0 <= i < |rs| ensures Harmless(m.data, rs, i) {
        if rs[i].d.command.Some? && LastWrite(rs, i, rs[i].d.command.value.key) {
          FailedAt(m, rs, i, rs[i].d.command.value.key);
        }
      }
    }
    if AllHarmless(m.data, rs) {
      forall key ensures Lookup(a, key) == Lookup(b, key) {
        var i := FindLastWrite(rs, key);
        if i == -1 {
          UnwrittenAt(m, rs, key);
        } else {
          assert Harmless(m.data, rs, i);
          FailedAt(m, rs, i, key);
        }
      }
      SameLookup(a, b);
    }
  }

  lemma {:induction false} LastAppliedReaches(m: Machine, rs: seq<Attempt>, j: nat)
    requires j < |rs| && rs[j].ok && rs[j].d.command.Some? && Increasing(Entries(rs))
    ensures AppliedAll(m, rs).lastApplied >= rs[j].d.index
  {
    var front := rs[..|rs| - 1];
    if j < |front| {
      assert Entries(rs)[j].index < Entries(rs)[|rs| - 1].index;
      EntriesFront(rs, |rs| - 1);
      LastAppliedReaches(m, front, j);
    }
  }

  /** While the process runs nothing retries a failed write: once any later entry has been applied, even the startup
      path, which applies what lies above lastApplied, would take it for applied. */
  lemma {:induction false} FailedWriteIsSkipped(m: Machine, rs: seq<Attempt>, i: nat, j: nat, storeOk: bool)
    requires i < j < |rs| && rs[j].ok && rs[j].d.command.Some? && Increasing(Entries(rs))
    ensures AppliedDirect(AppliedAll(m, rs), rs[i].d, storeOk) == AppliedAll(m, rs)
  {
    LastAppliedReaches(m, rs, j);
    assert Entries(rs)[i].index < Entries(rs)[j].index;
  }

  /** A restart, with every entry still in the log, brings all failed writes back: it changes the map exactly when
      a key's last write had failed and differs in effect from its last successful one. */
  lemma {:induction false} RestartBringsBack(rs: seq<Attempt>, durable: int)
    requires Increasing(Entries(rs))
    ensures var ds, running := Entries(rs), AppliedAll(Machine(map[], 0), rs).data;
            var restarted := DirectAll(Recovered(map[], ds, durable), ds).data;
            restarted == Effects(map[], ds) && (restarted == running <==> AllHarmless(map[], rs))
  {
    RestartRebuilds(Entries(rs), durable);
    FailedWritesExactly(Machine(map[], 0), rs);
  }

  // ---- A snapshot below what was applied ----

  /** Entries lo, lo+1, ... below hi were never applied. */
  function Without(ds: seq<Delivery>, lo: int, hi: int): seq<Attempt> {
    seq(|ds|, i requires 0 <= i < |ds| => Attempt(ds[i], !(lo <= i < hi)))
  }

  lemma {:induction false} WithoutApplied(m: Machine, ds: seq<Delivery>, lo: nat, hi: nat)
    requires lo <= hi <= |ds|
    ensures AppliedAll(m, Without(ds, lo, hi)).data == Effects(Effects(m.data, ds[..lo]), ds[hi..])
    decreases |ds|
  {
    if |ds| > 0 {
      var front := ds[..|ds| - 1];
      var rs := Without(ds, lo, hi);
      if hi < |ds| {
        assert rs[..|ds| - 1] == Without(front, lo, hi);
        WithoutApplied(m, front, lo, hi);
        assert front[..lo] == ds[..lo] && ds[hi..][..|ds[hi..]| - 1] == front[hi..];
      } else if lo < hi {
        assert rs[..|ds| - 1] == Without(front, lo, hi - 1);
        WithoutApplied(m, front, lo, hi - 1);
        assert front[..lo] == ds[..lo] && front[hi - 1..] == [] && ds[hi..] == [];
      } else {
        assert rs[..|ds| - 1] == Without(front, lo - 1, hi - 1);
        WithoutApplied(m, front, lo - 1, hi - 1);
        assert front[..lo - 1] == front && front[hi - 1..] == [] && ds[hi..] == [] && ds[..lo] == ds;
      }
    }
  }

  /** Restoring the map after lo entries and going on with entry hi, above lo, gives the map of all entries exactly
      when no key's last write lies in between and changed what the snapshot shows. */
  lemma {:induction false} RestoreExactly(view: View, ds: seq<Delivery>, lo: nat, hi: nat)
    requires lo <= hi <= |ds|
    ensures Effects(Effects(view, ds[..lo]), ds[hi..]) == Effects(view, ds) <==>
              AllHarmless(view, Without(ds, lo, hi))
  {
    var rs := Without(ds, lo, hi);
    WithoutApplied(Machine(view, 0), ds, lo, hi);
    assert Entries(rs) == ds;
    FailedWritesExactly(Machine(view, 0), rs);
  }

  // ---- Entries that were never committed ----

  /** The startup path applies the whole log. That gives the map of the committed entries exactly when no key's last
      write is an uncommitted one that changed it. */
  lemma {:induction false} StartupCommittedExactly(ds: seq<Delivery>, durable: int, commit: nat)
    requires Increasing(ds) && commit <= |ds|
    ensures DirectAll(Recovered(map[], ds, durable), ds).data == Effects(map[], ds[..commit]) <==>
              AllHarmless(map[], Without(ds, commit, |ds|))
  {
    RestartRebuilds(ds, durable);
    RestoreExactly(map[], ds, commit, |ds|);
    assert ds[|ds|..] == [];
  }

  lemma {:induction false} RedeliveredAt(view: View, good: seq<Delivery>, key: string)
    ensures Lookup(Effects(view, good), key) == Lookup(Effects(map[], good), key) <==>
              Touched(good, key) || key !in view
  {
    if Touched(good, key) {
      TouchedForgets(view, map[], good, key);
    } else {
      Untouched(view, good, key);
      Untouched(map[], good, key);
    }
  }

  /** After a restart the node delivers its committed log, from the first entry on, to the map the startup path left.
      Once that log has replaced uncommitted entries, the map is the right one exactly when every key the startup path
      left is written by the committed log: nothing removes the others. */
  lemma {:induction false} TruncatedEntriesExactly(ds: seq<Delivery>, durable: int, good: seq<Delivery>)
    requires Increasing(ds)
    ensures var started := DirectAll(Recovered(map[], ds, durable), ds).data;
            Effects(started, good) == Effects(map[], good) <==> forall key :: key in started ==> Touched(good, key)
  {
    RestartRebuilds(ds, durable);
    var started := Effects(map[], ds);
    var a, b := Effects(started, good), Effects(map[], good);
    forall key ensures Lookup(a, key) == Lookup(b, key) <==> Touched(good, key) || key !in started {
      RedeliveredAt(started, good, key);
    }
    if forall key :: key in started ==> Touched(good, key) { SameLookup(a, b); }
  }

  // ---- In place ----

  class KvStateMachine {
    var data: View
    var lastApplied: int

    function State(): Machine
      reads this
    {
      Machine(data, lastApplied)
    }

    constructor ()
      ensures State() == Machine(map[], 0)
    {
      data, lastApplied := map[], 0;
    }

    method Apply(d: Delivery, storeOk: bool)
      modifies this
      ensures State() == Applied(old(State()), d, storeOk)
    {
      if d.command.None? || !storeOk { return; }
      var c := d.command.value;
      if c.op == "set" {
        data := data[c.key := c.value];
      } else if c.op == "del" {
        data := data - {c.key};
      }
      lastApplied := d.index;
    }

    /** The loop that consumes the apply channel. */
    method Run(rs: seq<Attempt>)
      modifies this
      ensures State() == AppliedAll(old(State()), rs)
    {
      for i := 0 to |rs|
        invariant State() == AppliedAll(old(State()), rs[..i])
      {
        Apply(rs[i].d, rs[i].ok);
        assert rs[..i + 1][..i] == rs[..i];
      }
      assert rs[..|rs|] == rs;
    }

    method ApplyDirect(d: Delivery, storeOk: bool)
      modifies this
      ensures State() == AppliedDirect(old(State()), d, storeOk)
    {
      if d.index <= lastApplied { return; }
      Apply(d, storeOk);
    }

    method RecoverFromStore(ds: seq<Delivery>, durable: int)
      modifies this
      ensures State() == Recovered(old(data), ds, durable)
    {
      var i := 0;
      while i < |ds| && ds[i].index <= durable
        invariant 0 <= i <= |ds|
        invariant data == Effects(old(data), ds[..i])
        invariant forall j :: 0 <= j < i ==> ds[j].index <= durable
      {
        assert ds[..i + 1][..i] == ds[..i];
        if ds[i].command.Some? {
          var c := ds[i].command.value;
          if c.op == "set" {
            data := data[c.key := c.value];
          } else if c.op == "del" {
            data := data - {c.key};
          }
        }
        i := i + 1;
      }
      assert i == UpTo(ds, durable);
      lastApplied := durable;
    }

    method RestoreSnapshot(snapshot: View, index: int)
      modifies this
      ensures State() == Machine(snapshot, index)
    {
      data, lastApplied := snapshot, index;
    }
  }
}
