/**
 The administrator's week page: the status changes offered for a week, the
 update a status change writes, and the default lock time.
 */
module WeekManagement {
  import opened Wrappers
  import opened Records

  /** The status buttons shown for a week. */
  function Transitions(s: WeekStatus): (r: seq<WeekStatus>)
    ensures s !in r
    ensures r == [] <==> s == FINALIZED
    ensures FINALIZED in r <==> s == LOCKED
    ensures OPEN in r <==> s == LOCKED
    ensures LOCKED in r <==> s == OPEN
  {
    match s
    case OPEN => [LOCKED]
    case LOCKED => [OPEN, FINALIZED]
    case FINALIZED => []
  }

  /** Every move but finalising can be undone from the page, and a finalised week can no longer move. */
  lemma MovesReversibleUntilFinal(s: WeekStatus, t: WeekStatus)
    requires t in Transitions(s)
    ensures t != FINALIZED ==> s in Transitions(t)
    ensures t == FINALIZED ==> Transitions(t) == []
  {
  }

  /** A week reaches FINALIZED only by passing through LOCKED. */
  lemma FinalizeOnlyFromLocked(path: seq<WeekStatus>)
    requires |path| >= 2 && path[0] != FINALIZED && path[|path| - 1] == FINALIZED
    requires forall i :: 0 <= i < |path| - 1 ==> path[i + 1] in Transitions(path[i])
    ensures exists i :: 0 <= i < |path| && path[i] == LOCKED
  {
    var n := |path| - 1;
    assert FINALIZED in Transitions(path[n - 1]);
  }

  datatype WeekAction = SetDefaultLock | ChangeStatus(target: WeekStatus)

  /** The buttons of a week's card: the lock-time button for every week, then the status buttons. */
  function Buttons(s: WeekStatus): (r: seq<WeekAction>)
    ensures |r| >= 1 && r[0] == SetDefaultLock
    ensures forall t :: ChangeStatus(t) in r <==> t in Transitions(s)
  {
    var ts := Transitions(s);
    var r := [SetDefaultLock] + seq(|ts|, i requires 0 <= i < |ts| => ChangeStatus(ts[i]));
    assert forall i :: 0 <= i < |ts| ==> r[i + 1] == ChangeStatus(ts[i]);
    r
  }

  /** `updateWeekStatus`: the status and the finalisation time, set exactly when finalising. */
  function StatusPatch(status: WeekStatus, now: Time): (p: WeekPatch)
    ensures p.status == Some(status) && p.locksAt.None?
    ensures p.finalizedAt.Some? && (p.finalizedAt.value.Some? <==> status == FINALIZED)
    ensures p.finalizedAt.value.Some? ==> p.finalizedAt.value.value == now
  {
    WeekPatch(Some(status), Some(if status == FINALIZED then Some(now) else None), None)
  }

  function UpdateWeekStatus(weeks: Weeks, id: Id, status: WeekStatus, now: Time): (r: Weeks)
    ensures r.Keys == weeks.Keys && forall k :: k in weeks && k != id ==> r[k] == weeks[k]
    ensures id in weeks ==>
      r[id] == weeks[id].(status := status, finalizedAt := if status == FINALIZED then Some(now) else None)
  {
    UpdateWeek(weeks, id, StatusPatch(status, now))
  }

  /** After any status change a week carries a finalisation time exactly when it is finalised. */
  lemma FinalizedAtTracksStatus(weeks: Weeks, id: Id, status: WeekStatus, now: Time)
    requires id in weeks
    ensures var w := UpdateWeekStatus(weeks, id, status, now)[id];
      w.finalizedAt.Some? <==> w.status == FINALIZED
  {
  }

  /** `setDefaultLockTime`: `lockTime` is the next Sunday noon as the date helper computes it. */
  function SetDefaultLockTime(weeks: Weeks, id: Id, lockTime: Time): (r: Weeks)
    ensures r.Keys == weeks.Keys && forall k :: k in weeks && k != id ==> r[k] == weeks[k]
    ensures id in weeks ==> r[id] == weeks[id].(locksAt := lockTime)
  {
    UpdateWeek(weeks, id, WeekPatch(None, None, Some(lockTime)))
  }

  /** The two updates touch different columns, so their order does not matter. */
  lemma LockTimeAndStatusCommute(weeks: Weeks, id: Id, status: WeekStatus, now: Time, lockTime: Time)
    ensures SetDefaultLockTime(UpdateWeekStatus(weeks, id, status, now), id, lockTime)
         == UpdateWeekStatus(SetDefaultLockTime(weeks, id, lockTime), id, status, now)
  {
    var a := SetDefaultLockTime(UpdateWeekStatus(weeks, id, status, now), id, lockTime);
    var b := UpdateWeekStatus(SetDefaultLockTime(weeks, id, lockTime), id, status, now);
    assert a.Keys == b.Keys;
    forall k | k in a ensures a[k] == b[k] {
    }
  }
}
