/**
 Choosing "the current week" from the weeks table. A query that filters, orders
 by a column descending and keeps one row is `Latest`; the hook that most pages
 use prefers an open week whose window contains the present moment and falls
 back to the most recently opened open week.
 */
module CurrentWeek {
  import opened Wrappers
  import opened Records

  /**
   The row with the greatest `key` among those `keep` accepts; among rows with
   equal keys the earliest in `rows` is taken.
   */
  function Latest(rows: seq<Week>, keep: Week -> bool, key: Week -> int): (r: Option<Week>)
    ensures r.None? <==> forall i :: 0 <= i < |rows| ==> !keep(rows[i])
    ensures r.Some? ==> r.value in rows && keep(r.value)
    ensures r.Some? ==> forall i :: 0 <= i < |rows| && keep(rows[i]) ==> key(rows[i]) <= key(r.value)
  {
    if rows == [] then None
    else
      var rest := Latest(rows[1..], keep, key);
      assert forall i :: 1 <= i < |rows| ==> rows[i] == rows[1..][i - 1];
      if !keep(rows[0]) then rest
      else if rest.Some? && key(rest.value) > key(rows[0]) then rest
      else Some(rows[0])
  }

  /** An open week whose window `[opens_at, locks_at)` contains `now`. */
  predicate OpenNow(w: Week, now: Time) {
    w.status == OPEN && w.opensAt <= now < w.locksAt
  }

  function OpensAt(w: Week): int { w.opensAt }

  /** `useCurrentWeek`. */
  function HookWeek(rows: seq<Week>, now: Time): (r: Option<Week>)
    ensures r.Some? ==> r.value in rows && r.value.status == OPEN
    ensures r.None? <==> forall i :: 0 <= i < |rows| ==> rows[i].status != OPEN
    ensures (exists i :: 0 <= i < |rows| && OpenNow(rows[i], now)) ==>
      && r.Some? && OpenNow(r.value, now)
      && forall i :: 0 <= i < |rows| && OpenNow(rows[i], now) ==> rows[i].opensAt <= r.value.opensAt
    ensures (forall i :: 0 <= i < |rows| ==> !OpenNow(rows[i], now)) && r.Some? ==>
      forall i :: 0 <= i < |rows| && rows[i].status == OPEN ==> rows[i].opensAt <= r.value.opensAt
  {
    var inWindow := Latest(rows, (w: Week) => OpenNow(w, now), OpensAt);
    if inWindow.Some? then
      assert forall i :: 0 <= i < |rows| && rows[i].status != OPEN ==> !OpenNow(rows[i], now);
      inWindow
    else Latest(rows, (w: Week) => w.status == OPEN, OpensAt)
  }

  /** When no open week is in its window the hook still returns one, and it is then outside its window. */
  lemma FallbackOutsideWindow(rows: seq<Week>, now: Time, i: int)
    requires 0 <= i < |rows| && rows[i].status == OPEN
    requires forall j :: 0 <= j < |rows| ==> !OpenNow(rows[j], now)
    ensures HookWeek(rows, now).Some?
    ensures !OpenNow(HookWeek(rows, now).value, now)
    ensures HookWeek(rows, now).value.opensAt >= rows[i].opensAt
  {
  }
}
