/**
 * `netlify/functions/autoCancel.js`: the sweep over the records directly
 * under `deposits` that cancels every `pending` one created more than thirty
 * minutes ago, and reports how many it cancelled.
 *
 * Only the status `pending` is swept: `initiated` and `processing` deposits,
 * and every deposit stored at `deposits/{uid}/{depId}`, are never touched.
 */
module AutoCancel {
  import opened Js
  import opened Store

  const ThirtyMinutes: int := 30 * 60 * 1000

  /**
   * `now - (dep.createdAt || 0) > THIRTY_MIN`, with JavaScript's coercions:
   * a falsy or missing `createdAt` counts as 0, `true` as 1, a numeric string
   * as its value, and anything that subtracts to NaN (an object, a non-numeric string) is
   * never old.
   */
  predicate IsOld(now: int, createdAt: Option<Value>)
  {
    if !TruthyValue(createdAt) then now > ThirtyMinutes
    else match createdAt.value
      case Num(n) => now - n > ThirtyMinutes
      case Bool(_) => now - 1 > ThirtyMinutes
      case Hundredths(h) => 100 * now - h > 100 * ThirtyMinutes
      case Str(s) => ParseNumber(s).Some? && now - ParseNumber(s).value > ThirtyMinutes
      case _ => false
  }

  /** `dep.status === 'pending' && now - (dep.createdAt || 0) > THIRTY_MIN`. */
  predicate IsStale(dep: Record, now: int)
  {
    Get(dep, "status") == Some(Str("pending")) && IsOld(now, Get(dep, "createdAt"))
  }

  /** The flat deposits of a snapshot. */
  function FlatDeposits(t: Tree): set<Path>
  {
    set p | p in t && IsFlatDeposit(p)
  }

  /** The deposits the sweep cancels. */
  function StalePaths(t: Tree, now: int): set<Path>
  {
    set p | p in t && IsFlatDeposit(p) && IsStale(t[p], now)
  }

  /** The fields the cancellation writes; `timeTxt` and `date` are the locale strings of `now`. */
  function CancelFields(now: int, timeTxt: string, date: string): Record
  {
    map["status" := Str("cancelled"), "timestamp" := Num(now), "timeTxt" := Str(timeTxt), "date" := Str(date)]
  }

  /** The ledger after a sweep at `now`. */
  function Swept(t: Tree, now: int, timeTxt: string, date: string): Tree
  {
    Patch(t, Uniform(StalePaths(t, now), CancelFields(now, timeTxt, date)))
  }

  /** A deposit without `createdAt` is swept exactly when it is pending and `now` is past thirty minutes. */
  lemma MissingCreatedAtIsZero(dep: Record, now: int)
    requires "createdAt" !in dep
    ensures IsStale(dep, now) <==> Get(dep, "status") == Some(Str("pending")) && now > ThirtyMinutes
  {
  }

  /** A pending deposit with a numeric `createdAt` is swept exactly when it is strictly more than thirty minutes old. */
  lemma StaleByAge(dep: Record, now: int, createdAt: int)
    requires Get(dep, "status") == Some(Str("pending")) && Get(dep, "createdAt") == Some(Num(createdAt))
    ensures IsStale(dep, now) <==> now - createdAt > ThirtyMinutes
  {
  }

  /**
   * What the sweep does to each record: a stale deposit is cancelled with
   * `timestamp = now` and keeps its other fields; every other record is
   * unchanged; no record appears or disappears.
   */
  lemma SweptRecords(t: Tree, now: int, timeTxt: string, date: string)
    ensures var after := Swept(t, now, timeTxt, date);
            && after.Keys == t.Keys
            && (forall p :: p in t && IsFlatDeposit(p) && IsStale(t[p], now) ==>
                  after[p] == t[p] + CancelFields(now, timeTxt, date))
            && (forall p :: p in t && !(IsFlatDeposit(p) && IsStale(t[p], now)) ==> after[p] == t[p])
  {
    assert StalePaths(t, now) <= t.Keys;
  }

  /** The count is at most the number of deposits. */
  lemma CountBound(t: Tree, now: int)
    ensures |StalePaths(t, now)| <= |FlatDeposits(t)|
  {
    SubsetSize(StalePaths(t, now), FlatDeposits(t));
  }

  /** A second sweep at the same instant cancels nothing. */
  lemma {:induction false} SweepIdempotent(t: Tree, now: int, timeTxt: string, date: string)
    ensures StalePaths(Swept(t, now, timeTxt, date), now) == {}
    ensures Swept(Swept(t, now, timeTxt, date), now, timeTxt, date) == Swept(t, now, timeTxt, date)
  {
    var after := Swept(t, now, timeTxt, date);
    SweptRecords(t, now, timeTxt, date);
    forall p | p in after && IsFlatDeposit(p) ensures !IsStale(after[p], now) {
      if IsStale(t[p], now) {
        assert Get(after[p], "status") == Some(Str("cancelled"));
      }
    }
    assert StalePaths(after, now) == {};
    assert Uniform(StalePaths(after, now), CancelFields(now, timeTxt, date)) == map[];
    assert Patch(after, map[]) == after;
  }

  /** Records at `deposits/{uid}/{depId}` are never swept. */
  lemma NestedUntouched(t: Tree, now: int, timeTxt: string, date: string, p: Path)
    requires p in t && IsNestedDeposit(p)
    ensures Swept(t, now, timeTxt, date)[p] == t[p]
  {
    SweptRecords(t, now, timeTxt, date);
  }

  /** `exports.handler`: one pass over the snapshot, one update per stale deposit. */
  method Handler(db: Database, now: nat, timeTxt: string, date: string) returns (code: int, cancelled: nat)
    modifies db
    ensures code == 200
    ensures cancelled == |StalePaths(old(db.root), now)|
    ensures db.root == Swept(old(db.root), now, timeTxt, date)
  {
    var snapshot := db.root;
    var fields := CancelFields(now, timeTxt, date);
    var count: nat := 0;
    ghost var done: set<Path> := {};
    var todo := snapshot.Keys;
    while todo != {}
      invariant todo <= snapshot.Keys
      invariant done <= StalePaths(snapshot, now)
      invariant forall p :: p in StalePaths(snapshot, now) ==> (p in done <==> p !in todo)
      invariant count == |done|
      invariant db.root == Patch(snapshot, Uniform(done, fields))
      decreases todo
    {
      var p :| p in todo;
      var dep := snapshot[p];
      if IsFlatDeposit(p) && IsStale(dep, now) {
        PatchStep(snapshot, Uniform(done, fields), p, fields);
        UniformStep(done, p, fields);
        db.UpdateFields(map[p := fields]);
        done := done + {p};
        count := count + 1;
      }
      todo := todo - {p};
    }
    assert done == StalePaths(snapshot, now);
    code, cancelled := 200, count;
  }
}
