/**
 What the dashboard pages compute from the current week and its legs: the time
 left before the lock split into days, hours and minutes, the stake with a
 page's fallback amount, and the legs of a given status.
 */
module WeekView {
  import opened Wrappers
  import opened Records

  const MsPerMinute: int := 60000
  const MsPerHour: int := 3600000
  const MsPerDay: int := 86400000

  datatype Countdown = Countdown(days: nat, hours: nat, minutes: nat)

  /**
   The whole days, hours and minutes in `diff` milliseconds, computed as the
   pages do: `⌊diff / day⌋`, `⌊(diff % day) / hour⌋`, `⌊(diff % hour) / minute⌋`.
   */
  function Split(diff: int): (c: Countdown)
    requires diff > 0
    ensures c.hours < 24 && c.minutes < 60
    ensures c.days * MsPerDay + c.hours * MsPerHour + c.minutes * MsPerMinute <= diff
    ensures diff < c.days * MsPerDay + c.hours * MsPerHour + c.minutes * MsPerMinute + MsPerMinute
  {
    var days := diff / MsPerDay;
    var hours := (diff % MsPerDay) / MsPerHour;
    var minutes := (diff % MsPerHour) / MsPerMinute;
    HourRemainder(diff);
    Countdown(days, hours, minutes)
  }

  lemma HourRemainder(diff: int)
    requires diff > 0
    ensures diff % MsPerHour == (diff % MsPerDay) % MsPerHour
  {
    var days := diff / MsPerDay;
    var rd := diff % MsPerDay;
    var q := rd / MsPerHour;
    var rr := rd % MsPerHour;
    assert diff == days * MsPerDay + rd;
    assert rd == q * MsPerHour + rr;
    assert diff == (days * 24 + q) * MsPerHour + rr;
    HourModUnique(diff, days * 24 + q, rr);
  }

  /** A remainder below an hour, left after whole hours, is the remainder modulo an hour. */
  lemma HourModUnique(x: int, q: int, r: int)
    requires x == q * MsPerHour + r && 0 <= r < MsPerHour
    ensures x % MsPerHour == r
  {
  }

  /** The split is the only one with hours below 24 and minutes below 60 that accounts for `diff` to the minute. */
  lemma SplitUnique(diff: int, d: nat, h: nat, m: nat)
    requires diff > 0 && h < 24 && m < 60
    requires d * MsPerDay + h * MsPerHour + m * MsPerMinute <= diff < d * MsPerDay + h * MsPerHour + m * MsPerMinute + MsPerMinute
    ensures Split(diff) == Countdown(d, h, m)
  {
    var c := Split(diff);
    var a := c.hours * MsPerHour + c.minutes * MsPerMinute;
    var b := h * MsPerHour + m * MsPerMinute;
    assert 0 <= a < MsPerDay && 0 <= b < MsPerDay;
    assert c.days == d;
    assert c.hours == h;
  }

  /** `week?.stake_amount || fallback`: no week, or a stake of 0, gives the fallback. */
  function StakeOr(week: Option<Week>, fallback: int): (r: int)
    ensures week.Some? && week.value.stakeAmount != 0 ==> r == week.value.stakeAmount
    ensures week.None? || week.value.stakeAmount == 0 ==> r == fallback
    ensures fallback != 0 ==> r != 0
  {
    if week.Some? && week.value.stakeAmount != 0 then week.value.stakeAmount else fallback
  }

  /** `legs.filter(leg => ss.has(leg.status))`, order kept. */
  function WithStatus(legs: seq<Leg>, ss: set<LegStatus>): (r: seq<Leg>)
    ensures |r| <= |legs|
    ensures forall i :: 0 <= i < |r| ==> r[i].status in ss
  {
    if legs == [] then []
    else
      var init := legs[..|legs| - 1];
      var last := legs[|legs| - 1];
      assert legs == init + [last];
      WithStatus(init, ss) + (if last.status in ss then [last] else [])
  }

  /** The filter keeps exactly the legs of the given statuses. */
  lemma {:induction false} WithStatusMembers(legs: seq<Leg>, ss: set<LegStatus>)
    ensures forall l :: l in WithStatus(legs, ss) <==> l in legs && l.status in ss
  {
    if legs != [] {
      var init := legs[..|legs| - 1];
      WithStatusMembers(init, ss);
      assert legs == init + [legs[|legs| - 1]];
    }
  }

  lemma WithStatusAppend(legs: seq<Leg>, l: Leg, ss: set<LegStatus>)
    ensures WithStatus(legs + [l], ss) == WithStatus(legs, ss) + (if l.status in ss then [l] else [])
  {
    assert (legs + [l])[..|legs|] == legs;
  }

  /** Every leg has exactly one status, so a status set and its complement split the legs. */
  lemma {:induction false} StatusPartition(legs: seq<Leg>, ss: set<LegStatus>)
    ensures |WithStatus(legs, ss)| + |WithStatus(legs, AllLegStatuses - ss)| == |legs|
  {
    if legs != [] {
      var init := legs[..|legs| - 1];
      var last := legs[|legs| - 1];
      StatusPartition(init, ss);
      var st := last.status;
      assert st == PENDING || st == OK || st == DUPLICATE || st == CONFLICT || st == REJECTED;
      assert st in AllLegStatuses;
    }
  }

  /** `eq('week_id', weekId)` on the legs. */
  function WeekLegs(legs: seq<Leg>, weekId: Id): (r: seq<Leg>)
    ensures forall i :: 0 <= i < |r| ==> r[i].weekId == weekId && r[i] in legs
    ensures forall l :: l in legs && l.weekId == weekId ==> l in r
  {
    if legs == [] then []
    else
      assert forall i :: 1 <= i < |legs| ==> legs[i] == legs[1..][i - 1];
      (if legs[0].weekId == weekId then [legs[0]] else []) + WeekLegs(legs[1..], weekId)
  }

  /** Disjoint status sets count disjoint legs. */
  lemma {:induction false} WithStatusDisjoint(legs: seq<Leg>, a: set<LegStatus>, b: set<LegStatus>)
    requires a !! b
    ensures |WithStatus(legs, a)| + |WithStatus(legs, b)| == |WithStatus(legs, a + b)|
  {
    if legs != [] {
      WithStatusDisjoint(legs[..|legs| - 1], a, b);
    }
  }

  /** The decimal odds of the legs, in order. */
  function Decimals(legs: seq<Leg>): (r: seq<real>)
    ensures |r| == |legs| && forall i :: 0 <= i < |legs| ==> r[i] == legs[i].decimalOdds
  {
    seq(|legs|, i requires 0 <= i < |legs| => legs[i].decimalOdds)
  }

  lemma DecimalsAppend(legs: seq<Leg>, extra: seq<Leg>)
    ensures Decimals(legs + extra) == Decimals(legs) + Decimals(extra)
  {
  }
}
