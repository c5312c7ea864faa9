/**
 The group page: the open week with the highest number, who has submitted, the
 preview over approved legs only, and its own countdown text.
 */
module GroupCoordination {
  import opened Wrappers
  import opened Text
  import opened JsNum
  import opened Parlay
  import opened Records
  import opened CurrentWeek
  import opened WeekView
  import Dashboard

  function WeekNumber(w: Week): int { w.weekNumber }

  /** The group page's current week: the open week with the greatest week number, whatever its dates. */
  function GroupWeek(rows: seq<Week>): (r: Option<Week>)
    ensures r.None? <==> forall i :: 0 <= i < |rows| ==> rows[i].status != OPEN
    ensures r.Some? ==> r.value in rows && r.value.status == OPEN
    ensures r.Some? ==> forall i :: 0 <= i < |rows| && rows[i].status == OPEN ==> rows[i].weekNumber <= r.value.weekNumber
  {
    Latest(rows, (w: Week) => w.status == OPEN, WeekNumber)
  }

  /** The users who have a leg in the week. */
  function UserIds(legs: seq<Leg>): (r: set<Id>)
    ensures forall u :: u in r <==> exists i :: 0 <= i < |legs| && legs[i].userId == u
  {
    if legs == [] then {}
    else
      assert forall i :: 1 <= i < |legs| ==> legs[i] == legs[1..][i - 1];
      {legs[0].userId} + UserIds(legs[1..])
  }

  /** `new Set(legs.map(leg => leg.user_id)).size`. */
  function SubmittedUsers(legs: seq<Leg>): (n: nat)
    ensures n <= |legs|
    ensures n == 0 <==> legs == []
  {
    UserIdsBound(legs);
    assert legs != [] ==> legs[0].userId in UserIds(legs);
    |UserIds(legs)|
  }

  lemma {:induction false} UserIdsBound(legs: seq<Leg>)
    ensures |UserIds(legs)| <= |legs|
  {
    if legs != [] {
      UserIdsBound(legs[1..]);
    }
  }

  /** With one leg per user, as submission enforces, the count of users is the count of legs. */
  lemma {:induction false} OneLegEachCountsAll(legs: seq<Leg>)
    requires forall i, j :: 0 <= i < j < |legs| ==> legs[i].userId != legs[j].userId
    ensures SubmittedUsers(legs) == |legs|
  {
    if legs != [] {
      OneLegEachCountsAll(legs[1..]);
      assert legs[0].userId !in UserIds(legs[1..]) by {
        forall i | 0 <= i < |legs[1..]| ensures legs[1..][i].userId != legs[0].userId {
          assert legs[1..][i] == legs[i + 1];
        }
      }
    }
  }

  /** `okLegs`: the approved legs, in order. */
  function OkLegs(legs: seq<Leg>): seq<Leg> {
    WithStatus(legs, {OK})
  }

  /** The number shown as "pending approval": every leg not yet approved. */
  function PendingApproval(legs: seq<Leg>): (n: nat)
    ensures n == |WithStatus(legs, AllLegStatuses - {OK})|
    ensures n <= |legs|
  {
    StatusPartition(legs, {OK});
    |legs| - |OkLegs(legs)|
  }

  datatype Preview = Preview(combinedDecimal: real, stakeAmount: int, projectedPayout: int, legCount: nat)

  /** `calculateParlay` on the group page: approved legs only, stake falling back to 13000 cents. */
  function ParlayPreview(legs: seq<Leg>, week: Option<Week>): (r: Option<Preview>)
    ensures r.None? <==> forall i :: 0 <= i < |legs| ==> legs[i].status != OK
    ensures r.Some? ==> r.value.legCount == |OkLegs(legs)| > 0
    ensures r.Some? ==> r.value.combinedDecimal == ParlayDecimal(Decimals(OkLegs(legs)))
    ensures r.Some? ==> r.value.stakeAmount == StakeOr(week, 13000) != 0
    ensures r.Some? ==> r.value.projectedPayout == Round(r.value.stakeAmount as real * r.value.combinedDecimal)
  {
    var ok := OkLegs(legs);
    WithStatusMembers(legs, {OK});
    assert |ok| == 0 ==> forall i :: 0 <= i < |legs| ==> legs[i] !in ok;
    assert |ok| > 0 ==> ok[0] in legs;
    if |ok| == 0 then None
    else
      var combined := ParlayDecimal(Decimals(ok));
      var stake := StakeOr(week, 13000);
      Some(Preview(combined, stake, ParlayPayout(stake, combined), |ok|))
  }

  /**
   The group preview counts a subset of the dashboard's legs: whenever it exists
   the dashboard's does too, and pending legs alone give a dashboard preview but
   no group preview.
   */
  lemma PreviewsCompared(legs: seq<Leg>, week: Option<Week>)
    ensures ParlayPreview(legs, week).Some? ==> Dashboard.ParlayPreview(legs, week).Some?
    ensures ParlayPreview(legs, week).Some? ==>
      ParlayPreview(legs, week).value.legCount <= Dashboard.ParlayPreview(legs, week).value.legsCount
    ensures (forall i :: 0 <= i < |legs| ==> legs[i].status == PENDING) && legs != [] ==>
      ParlayPreview(legs, week).None? && Dashboard.ParlayPreview(legs, week).Some?
  {
    StatusPartition(legs, {OK});
    StatusPartition(legs, Dashboard.Counted);
    WithStatusSubset(legs, {OK}, Dashboard.Counted);
    if legs != [] {
      assert legs[0].status == PENDING ==> legs[0].status in Dashboard.Counted;
    }
  }

  lemma {:induction false} WithStatusSubset(legs: seq<Leg>, a: set<LegStatus>, b: set<LegStatus>)
    requires a <= b
    ensures |WithStatus(legs, a)| <= |WithStatus(legs, b)|
  {
    if legs != [] {
      WithStatusSubset(legs[..|legs| - 1], a, b);
    }
  }

  /** `getTimeUntilLock` on the group page: never minutes alone. */
  function LockText(week: Option<Week>, now: Time): (r: string)
    ensures r == "No active week" <==> week.None?
    ensures r == "Locked" <==> week.Some? && week.value.locksAt - now <= 0
    ensures week.Some? && week.value.locksAt - now > 0 ==> 'h' in r
  {
    if week.None? then "No active week"
    else
      var diff := week.value.locksAt - now;
      if diff <= 0 then "Locked"
      else CountdownText(Split(diff))
  }

  /** The number the group page's countdown leads with: days, else hours (possibly 0). */
  function LeadCount(c: Countdown): nat {
    if c.days > 0 then c.days else c.hours
  }

  /** The text of a running countdown on the group page: days and hours, else hours and minutes. */
  function CountdownText(c: Countdown): (r: string)
    ensures 'h' in r
  {
    var lead := ShowNat(LeadCount(c));
    var rest := if c.days > 0 then "d " + ShowNat(c.hours) + "h" else "h " + ShowNat(c.minutes) + "m";
    assert 'h' in rest by {
      if c.days > 0 { assert rest[|rest| - 1] == 'h'; } else { assert rest[0] == 'h'; }
    }
    assert (lead + rest)[|lead| + |rest| - 1] == rest[|rest| - 1] && (lead + rest)[|lead|] == rest[0];
    lead + rest
  }

  /** The group countdown leads with the days, or else the hours, which `parseInt` reads back. */
  lemma LockTextLeadCount(week: Week, now: Time)
    requires week.locksAt - now > 0
    ensures ParseInt(LockText(Some(week), now)) == Finite(LeadCount(Split(week.locksAt - now)) as real)
  {
    var c := Split(week.locksAt - now);
    var r := LockText(Some(week), now);
    assert r == CountdownText(c);
    CountdownLeadCount(c);
  }

  lemma CountdownLeadCount(c: Countdown)
    ensures ParseInt(CountdownText(c)) == Finite(LeadCount(c) as real)
  {
    var rest := if c.days > 0 then "d " + ShowNat(c.hours) + "h" else "h " + ShowNat(c.minutes) + "m";
    assert CountdownText(c) == ShowNat(LeadCount(c)) + rest;
    Dashboard.ReadCount(LeadCount(c), rest);
  }

  /**
   The group countdown always shows a second number after the first unit and
   a space: the hours after "d ", else the minutes after "h ".
   */
  lemma LockTextSecondCount(week: Week, now: Time)
    requires week.locksAt - now > 0
    ensures SecondCountShown(LockText(Some(week), now), Split(week.locksAt - now))
  {
    var c := Split(week.locksAt - now);
    var r := LockText(Some(week), now);
    assert r == CountdownText(c);
    CountdownSecondCount(c);
  }

  /**
   Past the leading count of `c` and two characters — the unit letter `d` or
   `h` and a space — `r` holds the next unit's count: hours after days,
   minutes after hours.
   */
  ghost predicate SecondCountShown(r: string, c: Countdown) {
    var k := |ShowNat(LeadCount(c))| + 2;
    && k <= |r|
    && r[k - 2] == (if c.days > 0 then 'd' else 'h') && r[k - 1] == ' '
    && ParseInt(r[k..]) == Finite((if c.days > 0 then c.hours else c.minutes) as real)
  }

  lemma CountdownSecondCount(c: Countdown)
    ensures SecondCountShown(CountdownText(c), c)
  {
    var lead := ShowNat(LeadCount(c));
    var unit := if c.days > 0 then "d " else "h ";
    var second := if c.days > 0 then c.hours else c.minutes;
    var last := if c.days > 0 then "h" else "m";
    assert CountdownText(c) == lead + (unit + ShowNat(second) + last);
    Dashboard.Regroup(lead, unit, ShowNat(second), last);
    Dashboard.ReadCount(second, last);
    Dashboard.CountAfterUnit(lead, unit, ShowNat(second) + last);
  }

  /** The two pages' countdowns agree from one hour before the lock. */
  lemma LockTextsAgree(week: Week, now: Time)
    requires week.locksAt - now > 0
    requires Split(week.locksAt - now).days > 0 || Split(week.locksAt - now).hours > 0
    ensures LockText(Some(week), now) == Dashboard.LockText(Some(week), now)
  {
  }

  /** Inside the last hour the group page prefixes "0h " to the dashboard's minutes. */
  lemma LockTextsLastHour(week: Week, now: Time)
    requires week.locksAt - now > 0
    requires Split(week.locksAt - now).days == 0 && Split(week.locksAt - now).hours == 0
    ensures LockText(Some(week), now) == "0h " + Dashboard.LockText(Some(week), now)
  {
    var m := ShowNat(Split(week.locksAt - now).minutes);
    assert ShowNat(0) == "0";
    assert LockText(Some(week), now) == "0" + ("h " + m + "m");
    assert Dashboard.LockText(Some(week), now) == m + "m";
    assert "0" + ("h " + m + "m") == "0h " + (m + "m");
  }
}
