/**
  The list of stopwatch records held in the app's `timers` state, and the
  `map` / `find` / `some` / `reduce` expressions the handlers apply to it.
  Times are whole milliseconds.
 */
module Timers {

  datatype Option<T> = None | Some(value: T)

  /** One stopwatch record: `{ id, time, isRunning, title, isActive }`. */
  datatype Timer = Timer(id: int, time: nat, isRunning: bool, title: string, isActive: bool)

  /** `timers.map(f)`: the same list with every record passed through `f`. */
  function MapTimers(ts: seq<Timer>, f: Timer -> Timer): (r: seq<Timer>)
    ensures |r| == |ts|
    ensures forall i :: 0 <= i < |ts| ==> r[i] == f(ts[i])
  {
    if ts == [] then [] else [f(ts[0])] + MapTimers(ts[1..], f)
  }

  predicate HasId(ts: seq<Timer>, id: int) {
    exists i :: 0 <= i < |ts| && ts[i].id == id
  }

  /** No two records share an id. */
  predicate UniqueIds(ts: seq<Timer>) {
    forall i, j :: 0 <= i < |ts| && 0 <= j < |ts| && ts[i].id == ts[j].id ==> i == j
  }

  /** `timers.some(t => t.id === id && t.isRunning)`. */
  predicate IsRunning(ts: seq<Timer>, id: int) {
    exists i :: 0 <= i < |ts| && ts[i].id == id && ts[i].isRunning
  }

  /** `timers.some(t => t.isRunning)`: some id is running exactly when some record is. */
  predicate AnyRunning(ts: seq<Timer>): (b: bool)
    ensures b <==> exists id :: IsRunning(ts, id)
  {
    var b := exists i :: 0 <= i < |ts| && ts[i].isRunning;
    assert b ==> exists id :: IsRunning(ts, id) by {
      if b {
        var i :| 0 <= i < |ts| && ts[i].isRunning;
        assert IsRunning(ts, ts[i].id);
      }
    }
    b
  }

  /** Position of the first record with this id, or -1 when there is none. */
  function IndexOf(ts: seq<Timer>, id: int): (k: int)
    ensures -1 <= k < |ts|
    ensures 0 <= k ==> ts[k].id == id && forall j :: 0 <= j < k ==> ts[j].id != id
    ensures k < 0 <==> !HasId(ts, id)
  {
    if ts == [] then -1
    else if ts[0].id == id then 0
    else
      var k := IndexOf(ts[1..], id);
      assert forall j :: 1 <= j < |ts| ==> ts[j] == ts[1..][j - 1];
      if k < 0 then -1 else k + 1
  }

  /** `timers.find(t => t.id === id)`: the first record with this id, if any. */
  function Find(ts: seq<Timer>, id: int): (r: Option<Timer>)
    ensures r.None? <==> !HasId(ts, id)
    ensures r.Some? ==> r.value.id == id && r.value in ts
    ensures UniqueIds(ts) ==> forall i :: 0 <= i < |ts| && ts[i].id == id ==> r == Some(ts[i])
    ensures UniqueIds(ts) ==> (IsRunning(ts, id) <==> r.Some? && r.value.isRunning)
  {
    var k := IndexOf(ts, id);
    if k < 0 then None else Some(ts[k])
  }

  /** Like `Array.prototype.find`, `Find` returns the first record with the id. */
  lemma FindReturnsFirst(ts: seq<Timer>, id: int)
    ensures Find(ts, id).Some? ==>
      exists k :: 0 <= k < |ts| && Find(ts, id).value == ts[k] && forall j :: 0 <= j < k ==> ts[j].id != id
  {
    if Find(ts, id).Some? {
      var k := IndexOf(ts, id);
      assert Find(ts, id).value == ts[k];
    }
  }

  /** `timers.map(t => t.id === id ? { ...t, time } : t)`. */
  function WithTime(ts: seq<Timer>, id: int, time: nat): (r: seq<Timer>)
    ensures |r| == |ts|
    ensures forall i :: 0 <= i < |ts| && ts[i].id == id ==> r[i] == ts[i].(time := time)
    ensures forall i :: 0 <= i < |ts| && ts[i].id != id ==> r[i] == ts[i]
    ensures !HasId(ts, id) ==> r == ts
  {
    MapTimers(ts, (t: Timer) => if t.id == id then t.(time := time) else t)
  }

  /** `timers.map(t => t.id === id ? { ...t, isRunning } : t)`. */
  function WithRunning(ts: seq<Timer>, id: int, isRunning: bool): (r: seq<Timer>)
    ensures |r| == |ts|
    ensures forall i :: 0 <= i < |ts| && ts[i].id == id ==> r[i] == ts[i].(isRunning := isRunning)
    ensures forall i :: 0 <= i < |ts| && ts[i].id != id ==> r[i] == ts[i]
    ensures HasId(ts, id) ==> (IsRunning(r, id) <==> isRunning)
    ensures forall other :: other != id ==> (IsRunning(r, other) <==> IsRunning(ts, other))
  {
    var r := MapTimers(ts, (t: Timer) => if t.id == id then t.(isRunning := isRunning) else t);
    assert forall other :: other != id && IsRunning(ts, other) ==> IsRunning(r, other) by {
      forall other | other != id && IsRunning(ts, other) ensures IsRunning(r, other) {
        var i :| 0 <= i < |ts| && ts[i].id == other && ts[i].isRunning;
        assert r[i] == ts[i];
      }
    }
    r
  }

  /** `timers.map(t => t.id === id ? { ...t, time: 0, isRunning: false } : t)`. */
  function Reset(ts: seq<Timer>, id: int): (r: seq<Timer>)
    ensures |r| == |ts|
    ensures forall i :: 0 <= i < |ts| && ts[i].id == id ==> r[i] == ts[i].(time := 0, isRunning := false)
    ensures forall i :: 0 <= i < |ts| && ts[i].id != id ==> r[i] == ts[i]
    ensures !IsRunning(r, id)
    ensures forall other :: other != id ==> (IsRunning(r, other) <==> IsRunning(ts, other))
  {
    var r := MapTimers(ts, (t: Timer) => if t.id == id then t.(time := 0, isRunning := false) else t);
    assert forall other :: other != id && IsRunning(ts, other) ==> IsRunning(r, other) by {
      forall other | other != id && IsRunning(ts, other) ensures IsRunning(r, other) {
        var i :| 0 <= i < |ts| && ts[i].id == other && ts[i].isRunning;
        assert r[i] == ts[i];
      }
    }
    r
  }

  /** `timers.map(t => ({ ...t, isRunning: false }))`. */
  function StopAll(ts: seq<Timer>): (r: seq<Timer>)
    ensures |r| == |ts|
    ensures forall i :: 0 <= i < |ts| ==> r[i] == ts[i].(isRunning := false)
    ensures !AnyRunning(r)
  {
    MapTimers(ts, (t: Timer) => t.(isRunning := false))
  }

  /** One tick of the interval clock: every running record gains `step` ms, stopped ones stay frozen. */
  function Advance(ts: seq<Timer>, step: nat): (r: seq<Timer>)
    ensures |r| == |ts|
    ensures forall i :: 0 <= i < |ts| && ts[i].isRunning ==> r[i] == ts[i].(time := ts[i].time + step)
    ensures forall i :: 0 <= i < |ts| && !ts[i].isRunning ==> r[i] == ts[i]
  {
    MapTimers(ts, (t: Timer) => if t.isRunning then t.(time := t.time + step) else t)
  }

  /** `timers.reduce((sum, t) => sum + t.time, 0)`. */
  function TotalTime(ts: seq<Timer>): nat {
    if ts == [] then 0 else TotalTime(ts[..|ts| - 1]) + ts[|ts| - 1].time
  }

  /** No record's time exceeds the sum, and the sum is zero exactly when every record is at zero. */
  lemma {:induction false} TotalTimeBounds(ts: seq<Timer>)
    ensures forall i :: 0 <= i < |ts| ==> ts[i].time <= TotalTime(ts)
    ensures TotalTime(ts) == 0 <==> forall i :: 0 <= i < |ts| ==> ts[i].time == 0
  {
    if ts != [] {
      var n := |ts| - 1;
      TotalTimeBounds(ts[..n]);
      assert forall i :: 0 <= i < n ==> ts[..n][i] == ts[i];
    }
  }

  /**
    `timers.reduce((sum, t) => sum + Math.floor(t.time / 1000), 0)`: whole
    seconds, floored per record, so it undercounts the total time by less than
    a second per record.
   */
  function TotalSeconds(ts: seq<Timer>): (r: nat)
    ensures 1000 * r <= TotalTime(ts) <= 1000 * r + 999 * |ts|
  {
    if ts == [] then 0 else TotalSeconds(ts[..|ts| - 1]) + ts[|ts| - 1].time / 1000
  }

  /** The two sums read nothing but the `time` fields, position by position. */
  lemma {:induction false} TotalsDependOnTimesOnly(a: seq<Timer>, b: seq<Timer>)
    requires |a| == |b|
    requires forall i :: 0 <= i < |a| ==> a[i].time == b[i].time
    ensures TotalTime(a) == TotalTime(b)
    ensures TotalSeconds(a) == TotalSeconds(b)
  {
    if a != [] {
      TotalsDependOnTimesOnly(a[..|a| - 1], b[..|b| - 1]);
    }
  }

  /** A tick never decreases either sum: elapsed time only grows while timers run. */
  lemma {:induction false} AdvanceGrowsTotals(ts: seq<Timer>, step: nat)
    ensures TotalTime(ts) <= TotalTime(Advance(ts, step))
    ensures TotalSeconds(ts) <= TotalSeconds(Advance(ts, step))
  {
    if ts != [] {
      var r := Advance(ts, step);
      var n := |ts| - 1;
      assert Advance(ts[..n], step) == r[..n];
      AdvanceGrowsTotals(ts[..n], step);
    }
  }
}
