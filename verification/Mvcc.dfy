/** The multi-version state machine and its change log, against a history that keeps everything.

    The machine keeps a bounded window of versions per key and the log a bounded window of events. The reference
    is computed from the list of delivered entries alone: `History` is every successful write of a key, `Events`
    every successful write of all keys. Entries are command entries; one whose data does not parse carries no
    command.
 */
module Mvcc {
  import opened RaftLog

  /** `expected` is 0 for an unconditional write. Every operation but "del" sets the value. */
  datatype Command = Command(op: string, key: string, value: string, expected: nat)

  datatype Delivery = Delivery(index: int, command: Option<Command>)

  datatype Version = Version(number: nat, value: string, deleted: bool)

  datatype ChangeEvent = ChangeEvent(op: string, key: string, value: string, version: nat, offset: int)

  // ---- The machine and the log as values ----

  datatype Machine = Machine(versions: map<string, seq<Version>>, latest: map<string, nat>, conflicts: map<int, nat>,
                             retention: nat, lastApplied: int)

  function VersionsOf(m: Machine, key: string): seq<Version> { if key in m.versions then m.versions[key] else [] }

  function LatestOf(m: Machine, key: string): nat { if key in m.latest then m.latest[key] else 0 }

  function Trim(vs: seq<Version>, retention: nat): seq<Version> {
    if retention != 0 && |vs| > retention then vs[|vs| - retention..] else vs
  }

  predicate Conflicts(m: Machine, c: Command) { c.expected > 0 && LatestOf(m, c.key) != c.expected }

  function Written(m: Machine, index: int, c: Command): Machine {
    var next := LatestOf(m, c.key) + 1;
    var vs := VersionsOf(m, c.key) + [Version(next, c.value, c.op == "del")];
    m.(versions := m.versions[c.key := Trim(vs, m.retention)], latest := m.latest[c.key := next], lastApplied := index)
  }

  function Applied(m: Machine, d: Delivery): Machine {
    if d.command.None? then m
    else if Conflicts(m, d.command.value) then m.(conflicts := m.conflicts[d.index := LatestOf(m, d.command.value.key)])
    else Written(m, d.index, d.command.value)
  }

  /** The event a delivery publishes. */
  function Published(m: Machine, d: Delivery): Option<ChangeEvent> {
    if d.command.None? || Conflicts(m, d.command.value) then None
    else
      var c := d.command.value;
      Some(ChangeEvent(c.op, c.key, c.value, LatestOf(m, c.key) + 1, d.index))
  }

  datatype Log = Log(history: seq<ChangeEvent>, limit: nat, base: int, closed: bool)

  function Publish(l: Log, ev: ChangeEvent): Log {
    if l.closed then l
    else
      var b, h := if |l.history| == 0 then ev.offset else l.base, l.history + [ev];
      if |h| > l.limit
      then l.(history := h[1..], base := if |h| > 1 then h[1].offset else b)
      else l.(history := h, base := b)
  }

  function From(events: seq<ChangeEvent>, start: int): seq<ChangeEvent> {
    if |events| == 0 then []
    else From(events[..|events| - 1], start) +
         (if events[|events| - 1].offset >= start then [events[|events| - 1]] else [])
  }

  datatype ReplayResult = OutOfRange | Replayed(events: seq<ChangeEvent>)

  function ReplayFrom(l: Log, start: int): ReplayResult {
    if |l.history| == 0 then Replayed([])
    else if start < l.base then OutOfRange
    else Replayed(From(l.history, start))
  }

  datatype Found = Missing | Found(value: string)

  function Get(m: Machine, key: string): Found {
    if key !in m.latest then Missing
    else
      var vs := VersionsOf(m, key);
      if |vs| == 0 || vs[|vs| - 1].deleted then Missing else Found(vs[|vs| - 1].value)
  }

  /** The version number Get reports beside the value, that of a deletion included. */
  function GetNumber(m: Machine, key: string): nat {
    if key !in m.latest || |VersionsOf(m, key)| == 0 then 0 else m.latest[key]
  }

  function GetVersion(m: Machine, key: string, number: nat): Found { FindVersion(VersionsOf(m, key), number) }

  function FindVersion(vs: seq<Version>, number: nat): Found {
    if |vs| == 0 then Missing
    else if vs[0].number == number then (if vs[0].deleted then Missing else Found(vs[0].value))
    else FindVersion(vs[1..], number)
  }

  // ---- The reference ----

  /** Every successful write of a key, numbered from 1. */
  function History(ds: seq<Delivery>, key: string): (h: seq<Version>)
    ensures forall i :: 0 <= i < |h| ==> h[i].number == i + 1
  {
    if |ds| == 0 then []
    else
      var before, d := ds[..|ds| - 1], ds[|ds| - 1];
      var h := History(before, key);
      if d.command.Some? && d.command.value.key == key && Succeeds(d.command.value, |h|)
      then h + [Version(|h| + 1, d.command.value.value, d.command.value.op == "del")]
      else h
  }

  /** A conditional write succeeds exactly when its expected version is the number of writes so far. */
  predicate Succeeds(c: Command, writes: nat) { c.expected == 0 || c.expected == writes }

  function Events(ds: seq<Delivery>): seq<ChangeEvent> {
    if |ds| == 0 then []
    else
      var before, d := ds[..|ds| - 1], ds[|ds| - 1];
      if d.command.Some? && Succeeds(d.command.value, |History(before, d.command.value.key)|)
      then var c := d.command.value;
           Events(before) + [ChangeEvent(c.op, c.key, c.value, |History(before, c.key)| + 1, d.index)]
      else Events(before)
  }

  /** The last `n` of a sequence. */
  function LastOf<T>(xs: seq<T>, n: nat): seq<T> { if |xs| > n then xs[|xs| - n..] else xs }

  function Kept(h: seq<Version>, retention: nat): seq<Version> { if retention == 0 then h else LastOf(h, retention) }

  // ---- Whole runs ----

  function Fresh(retention: nat): Machine { Machine(map[], map[], map[], retention, 0) }

  function Run(retention: nat, ds: seq<Delivery>): Machine {
    if |ds| == 0 then Fresh(retention) else Applied(Run(retention, ds[..|ds| - 1]), ds[|ds| - 1])
  }

  /** The machine holds the last versions of the history of each key. */
  predicate Refines(m: Machine, ds: seq<Delivery>, key: string) {
    && VersionsOf(m, key) == Kept(History(ds, key), m.retention)
    && LatestOf(m, key) == |History(ds, key)| && (key in m.latest <==> |History(ds, key)| > 0)
  }

  lemma TrimKept(h: seq<Version>, v: Version, retention: nat)
    ensures Trim(Kept(h, retention) + [v], retention) == Kept(h + [v], retention)
  {}

  lemma WriteRefines(m: Machine, index: int, c: Command, h: seq<Version>)
    requires VersionsOf(m, c.key) == Kept(h, m.retention) && LatestOf(m, c.key) == |h|
    ensures var w, v := Written(m, index, c), Version(|h| + 1, c.value, c.op == "del");
            && VersionsOf(w, c.key) == Kept(h + [v], m.retention) && w.retention == m.retention
            && c.key in w.latest && LatestOf(w, c.key) == |h| + 1
  {
    TrimKept(h, Version(|h| + 1, c.value, c.op == "del"), m.retention);
  }

  lemma OtherKey(m: Machine, d: Delivery, key: string)
    requires d.command.Some? ==> d.command.value.key != key || Conflicts(m, d.command.value)
    ensures var w := Applied(m, d);
            && VersionsOf(w, key) == VersionsOf(m, key) && LatestOf(w, key) == LatestOf(m, key)
            && (key in w.latest <==> key in m.latest) && w.retention == m.retention
  {}

  /** After any deliveries, each key has exactly the last min(retention, n) of its n successful writes. */
  lemma {:induction false} RunRefines(retention: nat, ds: seq<Delivery>, key: string)
    ensures Run(retention, ds).retention == retention && Refines(Run(retention, ds), ds, key)
  {
    if |ds| > 0 {
      var before, d := ds[..|ds| - 1], ds[|ds| - 1];
      var m := Run(retention, before);
      RunRefines(retention, before, key);
      if d.command.Some? && d.command.value.key == key && !Conflicts(m, d.command.value) {
        WriteRefines(m, d.index, d.command.value, History(before, key));
      } else {
        OtherKey(m, d, key);
      }
    }
  }

  lemma {:induction false} FindNumbered(vs: seq<Version>, first: nat, number: nat)
    requires forall i :: 0 <= i < |vs| ==> vs[i].number == first + i
    ensures FindVersion(vs, number) ==
              if first <= number < first + |vs| && !vs[number - first].deleted
              then Found(vs[number - first].value) else Missing
    decreases |vs|
  {
    if |vs| > 0 { FindNumbered(vs[1..], first + 1, number); }
  }

  lemma {:induction false} FindKept(h: seq<Version>, retention: nat, number: nat)
    requires forall i :: 0 <= i < |h| ==> h[i].number == i + 1
    ensures var w := if retention == 0 || |h| < retention then |h| else retention;
            FindVersion(Kept(h, retention), number) ==
              if |h| - w < number <= |h| && !h[number - 1].deleted then Found(h[number - 1].value) else Missing
  {
    var w := if retention == 0 || |h| < retention then |h| else retention;
    assert Kept(h, retention) == h[|h| - w..];
    FindNumbered(h[|h| - w..], |h| - w + 1, number);
  }

  /** GetVersion returns the v-th successful write if the window still holds it and it is not a deletion. */
  lemma {:induction false} GetVersionMeans(retention: nat, ds: seq<Delivery>, key: string, number: nat)
    ensures var h := History(ds, key);
            var w := if retention == 0 || |h| < retention then |h| else retention;
            GetVersion(Run(retention, ds), key, number) ==
              if |h| - w < number <= |h| && !h[number - 1].deleted then Found(h[number - 1].value) else Missing
  {
    RunRefines(retention, ds, key);
    FindKept(History(ds, key), retention, number);
  }

  /** Get returns the last successful write unless it is a deletion, and the number of successful writes. */
  lemma {:induction false} GetMeans(retention: nat, ds: seq<Delivery>, key: string)
    ensures var h := History(ds, key);
            && Get(Run(retention, ds), key) ==
                 (if |h| > 0 && !h[|h| - 1].deleted then Found(h[|h| - 1].value) else Missing)
            && GetNumber(Run(retention, ds), key) == |h|
  {
    RunRefines(retention, ds, key);
  }

  /** A conditional write is recorded as a conflict exactly when its expected version is not the number of
      successful writes of the key, and then changes no key. */
  lemma {:induction false} ConflictExactly(retention: nat, ds: seq<Delivery>, d: Delivery, key: string)
    requires d.command.Some?
    ensures var m, c := Run(retention, ds), d.command.value;
            var n := |History(ds, c.key)|;
            && (Conflicts(m, c) <==> !Succeeds(c, n))
            && (Conflicts(m, c) ==> Applied(m, d).conflicts == m.conflicts[d.index := n])
            && (Conflicts(m, c) ==>
                  Get(Applied(m, d), key) == Get(m, key) && Applied(m, d).lastApplied == m.lastApplied)
            && (!Conflicts(m, c) ==> Applied(m, d).conflicts == m.conflicts)
  {
    RunRefines(retention, ds, d.command.value.key);
  }

  /** Delivery i is a conditional write that names another version than the key has. */
  predicate Fails(ds: seq<Delivery>, i: int) {
    && 0 <= i < |ds| && ds[i].command.Some?
    && !Succeeds(ds[i].command.value, |History(ds[..i], ds[i].command.value.key)|)
  }

  lemma FailsNext(ds: seq<Delivery>, i: int)
    requires 0 <= i < |ds| - 1
    ensures Fails(ds[..|ds| - 1], i) <==> Fails(ds, i)
  {
    assert ds[..|ds| - 1][..i] == ds[..i];
  }

  /** After any deliveries, the conflicts recorded are exactly those of the failed conditional writes, each with the
      version the key had then. */
  lemma {:induction false} RunConflicts(retention: nat, ds: seq<Delivery>, index: int)
    requires Increasing(ds)
    ensures var c := Run(retention, ds).conflicts;
            && (index in c <==> exists i :: Fails(ds, i) && ds[i].index == index)
            && forall i :: Fails(ds, i) && ds[i].index == index ==>
                 index in c && c[index] == |History(ds[..i], ds[i].command.value.key)|
  {
    if |ds| > 0 {
      var before, last := ds[..|ds| - 1], |ds| - 1;
      RunConflicts(retention, before, index);
      if ds[last].command.Some? { ConflictExactly(retention, before, ds[last], ""); }
      forall i | 0 <= i < last
        ensures (Fails(before, i) <==> Fails(ds, i)) && before[i] == ds[i] && before[..i] == ds[..i]
      {
        FailsNext(ds, i);
      }
    }
  }

  /** lastApplied is the index of the last delivery that published an event. */
  lemma {:induction false} RunApplied(retention: nat, ds: seq<Delivery>)
    ensures Run(retention, ds).lastApplied == if |Events(ds)| == 0 then 0 else Events(ds)[|Events(ds)| - 1].offset
  {
    if |ds| > 0 {
      RunApplied(retention, ds[..|ds| - 1]);
      PublishedIsEvent(retention, ds);
    }
  }

  // ---- The change log ----

  function RunLog(retention: nat, limit: nat, ds: seq<Delivery>): Log {
    if |ds| == 0 then Log([], limit, 0, false)
    else
      var before, d := ds[..|ds| - 1], ds[|ds| - 1];
      var l, ev := RunLog(retention, limit, before), Published(Run(retention, before), d);
      if ev.None? then l else Publish(l, ev.value)
  }

  lemma PublishedIsEvent(retention: nat, ds: seq<Delivery>)
    requires |ds| > 0
    ensures var before, d := ds[..|ds| - 1], ds[|ds| - 1];
            var ev := Published(Run(retention, before), d);
            Events(ds) == if ev.None? then Events(before) else Events(before) + [ev.value]
  {
    var before, d := ds[..|ds| - 1], ds[|ds| - 1];
    if d.command.Some? { RunRefines(retention, before, d.command.value.key); }
  }

  predicate Holds(l: Log, all: seq<ChangeEvent>, limit: nat) {
    && l.limit == limit && !l.closed && l.history == LastOf(all, limit)
    && (|l.history| > 0 ==> l.base == l.history[0].offset)
  }

  lemma PublishHolds(l: Log, all: seq<ChangeEvent>, limit: nat, ev: ChangeEvent)
    requires limit >= 1 && Holds(l, all, limit)
    ensures Holds(Publish(l, ev), all + [ev], limit)
  {
    var h := l.history + [ev];
    if |h| > limit { assert h[1..] == LastOf(all + [ev], limit); } else { assert h == LastOf(all + [ev], limit); }
  }

  /** An open log holds the last `limit` events, and its base is the offset of the first of them. */
  lemma {:induction false} RunLogKeeps(retention: nat, limit: nat, ds: seq<Delivery>)
    requires limit >= 1
    ensures var l := RunLog(retention, limit, ds);
            Holds(l, Events(ds), limit)
  {
    if |ds| > 0 {
      var before := ds[..|ds| - 1];
      RunLogKeeps(retention, limit, before);
      PublishedIsEvent(retention, ds);
      var ev := Published(Run(retention, before), ds[|ds| - 1]);
      if ev.Some? { PublishHolds(RunLog(retention, limit, before), Events(before), limit, ev.value); }
    }
  }

  predicate Increasing(ds: seq<Delivery>) { forall i, j :: 0 <= i < j < |ds| ==> ds[i].index < ds[j].index }

  predicate Offsets(events: seq<ChangeEvent>) {
    forall i, j :: 0 <= i < j < |events| ==> events[i].offset < events[j].offset
  }

  lemma {:induction false} EventsBounded(ds: seq<Delivery>, bound: int)
    requires forall i :: 0 <= i < |ds| ==> ds[i].index < bound
    ensures forall i :: 0 <= i < |Events(ds)| ==> Events(ds)[i].offset < bound
  {
    if |ds| > 0 { EventsBounded(ds[..|ds| - 1], bound); }
  }

  lemma {:induction false} EventsIncrease(ds: seq<Delivery>)
    requires Increasing(ds)
    ensures Offsets(Events(ds))
  {
    if |ds| > 0 {
      EventsIncrease(ds[..|ds| - 1]);
      EventsBounded(ds[..|ds| - 1], ds[|ds| - 1].index);
    }
  }

  lemma {:induction false} FromSuffix(events: seq<ChangeEvent>, k: nat, start: int)
    requires Offsets(events) && k < |events| && start >= events[k].offset
    ensures From(events, start) == From(events[k..], start)
    decreases |events|
  {
    if k < |events| - 1 {
      var front := events[..|events| - 1];
      FromSuffix(front, k, start);
      assert events[k..][..|events[k..]| - 1] == front[k..];
    } else {
      assert events[k..] == [events[k]];
      FromBelow(events[..k], start);
    }
  }

  lemma {:induction false} FromBelow(events: seq<ChangeEvent>, start: int)
    requires forall i :: 0 <= i < |events| ==> events[i].offset < start
    ensures From(events, start) == []
  {
    if |events| > 0 { FromBelow(events[..|events| - 1], start); }
  }

  /** Replay from an offset either reports that it cannot or returns every event ever published from there on;
      it reports so exactly when the offset lies before the first of the last `limit` events. */
  lemma {:induction false} ReplayComplete(retention: nat, limit: nat, ds: seq<Delivery>, start: int)
    requires limit >= 1 && Increasing(ds)
    ensures var all := Events(ds);
            var kept := LastOf(all, limit);
            ReplayFrom(RunLog(retention, limit, ds), start) ==
              if |kept| > 0 && start < kept[0].offset then OutOfRange else Replayed(From(all, start))
  {
    RunLogKeeps(retention, limit, ds);
    EventsIncrease(ds);
    var l, all := RunLog(retention, limit, ds), Events(ds);
    var k := |all| - |l.history|;
    assert l.history == all[k..];
    if |all| > 0 && start >= l.history[0].offset { FromSuffix(all, k, start); }
  }

  // ---- Events rebuild the map ----

  function Fold(view: map<string, string>, events: seq<ChangeEvent>): map<string, string> {
    if |events| == 0 then view
    else
      var v, e := Fold(view, events[..|events| - 1]), events[|events| - 1];
      if e.op == "del" then v - {e.key} else v[e.key := e.value]
  }

  /** The map holds what the machine would answer for this key. */
  predicate Agrees(view: map<string, string>, m: Machine, key: string) {
    Get(m, key) == if key in view then Found(view[key]) else Missing
  }

  lemma {:induction false} FoldConcat(view: map<string, string>, a: seq<ChangeEvent>, b: seq<ChangeEvent>)
    ensures Fold(view, a + b) == Fold(Fold(view, a), b)
    decreases |b|
  {
    if |b| == 0 {
      assert a + b == a;
    } else {
      FoldConcat(view, a, b[..|b| - 1]);
      assert (a + b)[..|a + b| - 1] == a + b[..|b| - 1];
    }
  }

  /** What the fold shows of a key follows the key's history. */
  predicate Shows(view: map<string, string>, h: seq<Version>, key: string) {
    if |h| > 0 && !h[|h| - 1].deleted then key in view && view[key] == h[|h| - 1].value else key !in view
  }

  lemma {:induction false} FoldShows(ds: seq<Delivery>, key: string)
    ensures Shows(Fold(map[], Events(ds)), History(ds, key), key)
  {
    if |ds| > 0 {
      var before, d := ds[..|ds| - 1], ds[|ds| - 1];
      FoldShows(before, key);
      if d.command.Some? && Succeeds(d.command.value, |History(before, d.command.value.key)|) {
        var c := d.command.value;
        FoldOne(Fold(map[], Events(before)), Events(before),
                ChangeEvent(c.op, c.key, c.value, |History(before, c.key)| + 1, d.index));
      }
    }
  }

  lemma {:induction false} FoldOne(view: map<string, string>, events: seq<ChangeEvent>, e: ChangeEvent)
    requires view == Fold(map[], events)
    ensures Fold(map[], events + [e]) == if e.op == "del" then view - {e.key} else view[e.key := e.value]
  {
    assert (events + [e])[..|events|] == events;
  }

  /** Folding all events gives the map that Get shows. */
  lemma {:induction false} FoldRebuilds(retention: nat, ds: seq<Delivery>, key: string)
    ensures Agrees(Fold(map[], Events(ds)), Run(retention, ds), key)
  {
    GetMeans(retention, ds, key);
    FoldShows(ds, key);
  }

  function Before(events: seq<ChangeEvent>, start: int): seq<ChangeEvent> {
    if |events| == 0 then []
    else Before(events[..|events| - 1], start) +
         (if events[|events| - 1].offset < start then [events[|events| - 1]] else [])
  }

  lemma {:induction false} BeforeThenFrom(events: seq<ChangeEvent>, start: int)
    requires Offsets(events)
    ensures Before(events, start) + From(events, start) == events
  {
    if |events| > 0 {
      var front, last := events[..|events| - 1], events[|events| - 1];
      BeforeThenFrom(front, start);
      if last.offset < start { FromBelow(front, start); }
      assert events == front + [last];
    }
  }

  /** A consumer that has folded every event before `start` and replays from `start` ends with the current map. */
  lemma {:induction false} CatchUp(retention: nat, limit: nat, ds: seq<Delivery>, start: int, key: string)
    requires limit >= 1 && Increasing(ds) && ReplayFrom(RunLog(retention, limit, ds), start).Replayed?
    ensures var got := ReplayFrom(RunLog(retention, limit, ds), start).events;
            Agrees(Fold(Fold(map[], Before(Events(ds), start)), got), Run(retention, ds), key)
  {
    var all := Events(ds);
    FoldRebuilds(retention, ds, key);
    ReplayComplete(retention, limit, ds, start);
    EventsIncrease(ds);
    BeforeThenFrom(all, start);
    FoldConcat(map[], Before(all, start), From(all, start));
  }

  // ---- In place ----

  class ChangeLog {
    var history: seq<ChangeEvent>
    const limit: nat
    var base: int
    var closed: bool

    function State(): Log
      reads this
    {
      Log(history, limit, base, closed)
    }

    constructor (historyLimit: int)
      ensures State() == Log([], if historyLimit <= 0 then 1000 else historyLimit, 0, false)
    {
      limit := if historyLimit <= 0 then 1000 else historyLimit;
      history, base, closed := [], 0, false;
    }

    method Record(ev: ChangeEvent)
      requires limit >= 1
      modifies this
      ensures State() == Publish(old(State()), ev)
      ensures old(closed) ==> State() == old(State())
    {
      if closed { return; }
      if |history| == 0 { base := ev.offset; }
      history := history + [ev];
      if |history| > limit {
        history := history[1..];
        base := history[0].offset;
      }
    }

    method Replay(start: int) returns (r: ReplayResult)
      ensures r == ReplayFrom(State(), start)
    {
      if |history| == 0 { return Replayed([]); }
      if start < base { return OutOfRange; }
      var result := [];
      for i := 0 to |history|
        invariant result == From(history[..i], start)
      {
        assert history[..i + 1][..i] == history[..i];
        if history[i].offset >= start { result := result + [history[i]]; }
      }
      assert history[..|history|] == history;
      return Replayed(result);
    }
  }

  class StateMachine {
    var versions: map<string, seq<Version>>
    var latest: map<string, nat>
    var conflicts: map<int, nat>
    const retention: nat
    var lastApplied: int
    const changeLog: ChangeLog?

    function State(): Machine
      reads this
    {
      Machine(versions, latest, conflicts, retention, lastApplied)
    }

    constructor (retention: nat, changeLog: ChangeLog?)
      ensures State() == Fresh(retention) && this.changeLog == changeLog
    {
      this.retention, this.changeLog := retention, changeLog;
      versions, latest, conflicts, lastApplied := map[], map[], map[], 0;
    }

    method Collect(key: string)
      requires key in versions
      modifies this`versions
      ensures versions == old(versions)[key := Trim(old(versions)[key], retention)]
    {
      if retention == 0 { return; }
      var vs := versions[key];
      if |vs| > retention { versions := versions[key := vs[|vs| - retention..]]; }
    }

    /** Apply one delivery, and publish the event of a successful write. */
    method Apply(d: Delivery)
      requires changeLog != null ==> changeLog.limit >= 1
      modifies this, changeLog
      ensures State() == Applied(old(State()), d)
      ensures changeLog != null ==>
                var ev, before := Published(old(State()), d), old(changeLog.State());
                changeLog.State() == if ev.None? then before else Publish(before, ev.value)
    {
      if d.command.None? { return; }
      var c := d.command.value;
      if c.expected > 0 {
        var current := LatestOf(State(), c.key);
        if current != c.expected {
          conflicts := conflicts[d.index := current];
          return;
        }
      }
      var next := LatestOf(State(), c.key) + 1;
      versions := versions[c.key := VersionsOf(State(), c.key) + [Version(next, c.value, c.op == "del")]];
      latest := latest[c.key := next];
      Collect(c.key);
      lastApplied := d.index;
      if changeLog != null { changeLog.Record(ChangeEvent(c.op, c.key, c.value, next, d.index)); }
    }

    method Read(key: string) returns (r: Found, version: nat)
      ensures r == Get(State(), key) && version == GetNumber(State(), key)
    {
      if key !in latest || key !in versions || |versions[key]| == 0 { return Missing, 0; }
      var last := versions[key][|versions[key]| - 1];
      return if last.deleted then Missing else Found(last.value), latest[key];
    }

    method ReadVersion(key: string, number: nat) returns (r: Found)
      ensures r == GetVersion(State(), key, number)
    {
      var vs := VersionsOf(State(), key);
      for i := 0 to |vs|
        invariant FindVersion(vs, number) == FindVersion(vs[i..], number)
      {
        if vs[i].number == number { return if vs[i].deleted then Missing else Found(vs[i].value); }
        assert vs[i..][1..] == vs[i + 1..];
      }
      return Missing;
    }
  }
}
