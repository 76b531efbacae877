/**
  The newest-first `workoutHistory` list and the two expressions that shrink
  it: `prev.filter(workout => workout.id !== id)` and the clear button's `[]`.
 */
module History {
  import opened Timers

  /**
    One saved workout. `totalWorkoutMs` is the summed elapsed time in
    milliseconds (the app stores that sum divided by 1000 as seconds).
   */
  datatype WorkoutRecord = WorkoutRecord(
    id: int,
    date: string,
    time: string,
    rounds: nat,
    calories: nat,
    totalWorkoutMs: nat,
    timers: seq<Timer>)

  /** `history.filter(workout => workout.id !== id)`. */
  function DeleteById(h: seq<WorkoutRecord>, id: int): (r: seq<WorkoutRecord>)
    ensures |r| <= |h|
    ensures forall k :: 0 <= k < |r| ==> r[k].id != id
    ensures forall x :: x in r <==> x in h && x.id != id
    ensures (forall k :: 0 <= k < |h| ==> h[k].id != id) ==> r == h
  {
    if h == [] then []
    else
      var rest := DeleteById(h[1..], id);
      assert forall x :: x in h <==> x == h[0] || x in h[1..];
      if h[0].id == id then rest else [h[0]] + rest
  }

  /** Deleting works segment by segment, so the kept records stay in their original order. */
  lemma {:induction false} DeleteDistributes(a: seq<WorkoutRecord>, b: seq<WorkoutRecord>, id: int)
    ensures DeleteById(a + b, id) == DeleteById(a, id) + DeleteById(b, id)
  {
    if a != [] {
      assert (a + b)[0] == a[0];
      assert (a + b)[1..] == a[1..] + b;
      DeleteDistributes(a[1..], b, id);
    } else {
      assert a + b == b;
    }
  }

  /** Each record not carrying the id keeps its multiplicity; those carrying it are all gone. */
  lemma {:induction false} DeleteCounts(h: seq<WorkoutRecord>, id: int)
    ensures forall x :: multiset(DeleteById(h, id))[x] == if x.id == id then 0 else multiset(h)[x]
  {
    if h != [] {
      DeleteCounts(h[1..], id);
      assert h == [h[0]] + h[1..];
      assert multiset(h) == multiset([h[0]]) + multiset(h[1..]);
    }
  }

  /** Deleting the same id twice is the same as deleting it once. */
  lemma DeleteIdempotent(h: seq<WorkoutRecord>, id: int)
    ensures DeleteById(DeleteById(h, id), id) == DeleteById(h, id)
  {
  }

  /** Deleting the record just prepended by a stop, when its id is new, restores the earlier list. */
  lemma DeleteUndoesPrepend(h: seq<WorkoutRecord>, rec: WorkoutRecord)
    requires forall k :: 0 <= k < |h| ==> h[k].id != rec.id
    ensures DeleteById([rec] + h, rec.id) == h
  {
    assert ([rec] + h)[1..] == h;
  }
}
