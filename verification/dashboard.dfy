/**
 The member dashboard: its own choice of the current week, the countdown to the
 lock, the parlay preview over the week's legs and when the submit button shows.
 */
module Dashboard {
  import opened Wrappers
  import opened Text
  import opened JsNum
  import opened Parlay
  import opened Records
  import opened CurrentWeek
  import opened WeekView

  /** An open week whose window `[opens_at, locks_at]` contains `now`, the lock instant included. */
  predicate OpenInclusive(w: Week, now: Time) {
    w.status == OPEN && w.opensAt <= now <= w.locksAt
  }

  /** The dashboard's current week: no fallback outside the window. */
  function DashboardWeek(rows: seq<Week>, now: Time): (r: Option<Week>)
    ensures r.None? <==> forall i :: 0 <= i < |rows| ==> !OpenInclusive(rows[i], now)
    ensures r.Some? ==> r.value in rows && OpenInclusive(r.value, now)
    ensures r.Some? ==> forall i :: 0 <= i < |rows| && OpenInclusive(rows[i], now) ==> rows[i].opensAt <= r.value.opensAt
  {
    Latest(rows, (w: Week) => OpenInclusive(w, now), OpensAt)
  }

  /** Where the hook falls back to an open week outside its window, the dashboard shows none. */
  lemma NoFallback(rows: seq<Week>, now: Time, i: int)
    requires 0 <= i < |rows| && rows[i].status == OPEN
    requires forall j :: 0 <= j < |rows| ==> !OpenInclusive(rows[j], now)
    ensures DashboardWeek(rows, now).None? && HookWeek(rows, now).Some?
  {
  }

  /** Away from the lock instant of any week, the dashboard and the hook pick weeks opened at the same time. */
  lemma AgreesWithHookOffLockInstant(rows: seq<Week>, now: Time)
    requires forall i :: 0 <= i < |rows| ==> rows[i].locksAt != now
    ensures DashboardWeek(rows, now).Some? ==>
      HookWeek(rows, now).Some? && HookWeek(rows, now).value.opensAt == DashboardWeek(rows, now).value.opensAt
  {
    var d := DashboardWeek(rows, now);
    if d.Some? {
      var i :| 0 <= i < |rows| && rows[i] == d.value;
      assert OpenNow(rows[i], now);
      var h := HookWeek(rows, now).value;
      var j :| 0 <= j < |rows| && rows[j] == h;
      assert OpenInclusive(rows[j], now);
    }
  }

  /** The number the dashboard's countdown leads with: days, else hours, else minutes. */
  function LeadCount(c: Countdown): nat {
    if c.days > 0 then c.days else if c.hours > 0 then c.hours else c.minutes
  }

  /** `getTimeUntilLock` on the dashboard. */
  function LockText(week: Option<Week>, now: Time): (r: string)
    ensures r == "" <==> week.None?
    ensures r == "LOCKED" <==> week.Some? && week.value.locksAt - now <= 0
    ensures week.Some? && week.value.locksAt - now > 0 ==>
      r[|r| - 1] == (if Split(week.value.locksAt - now).days > 0 then 'h' else 'm')
    ensures week.Some? && week.value.locksAt - now > 0 ==>
      (r[0] == '0' <==> Split(week.value.locksAt - now) == Countdown(0, 0, 0))
  {
    if week.None? then ""
    else
      var diff := week.value.locksAt - now;
      if diff <= 0 then "LOCKED"
      else CountdownText(Split(diff))
  }

  /** The text of a running countdown: two units from the largest nonzero one, or minutes alone. */
  function CountdownText(c: Countdown): (r: string)
    ensures |r| >= 2 && r[|r| - 1] == (if c.days > 0 then 'h' else 'm')
    ensures r[0] == '0' <==> c == Countdown(0, 0, 0)
  {
    var lead := ShowNat(LeadCount(c));
    var rest := if c.days > 0 then "d " + ShowNat(c.hours) + "h"
      else if c.hours > 0 then "h " + ShowNat(c.minutes) + "m"
      else "m";
    assert (lead + rest)[0] == lead[0] && (lead + rest)[|lead + rest| - 1] == rest[|rest| - 1];
    lead + rest
  }

  /** `parseInt` reads a rendered count back from the front of a text whose next character is a unit letter. */
  lemma ReadCount(n: nat, tail: string)
    requires tail != [] && (tail[0] == 'd' || tail[0] == 'h' || tail[0] == 'm')
    ensures ParseInt(ShowNat(n) + tail) == Finite(n as real)
  {
    var e: string := "";
    assert e + ShowNat(n) + tail == ShowNat(n) + tail;
    ParseIntIgnoresTail(n, e, tail);
  }

  /** The countdown leads with its largest nonzero unit (minutes when all are zero), which `parseInt` reads back. */
  lemma LockTextLeadCount(week: Week, now: Time)
    requires week.locksAt - now > 0
    ensures ParseInt(LockText(Some(week), now)) == Finite(LeadCount(Split(week.locksAt - now)) as real)
  {
    var c := Split(week.locksAt - now);
    var r := LockText(Some(week), now);
    assert r == CountdownText(c);
    CountdownLeadCount(c);
  }

  lemma CountdownLeadCount(c: Countdown)
    ensures ParseInt(CountdownText(c)) == Finite(LeadCount(c) as real)
  {
    var rest := if c.days > 0 then "d " + ShowNat(c.hours) + "h"
      else if c.hours > 0 then "h " + ShowNat(c.minutes) + "m"
      else "m";
    assert CountdownText(c) == ShowNat(LeadCount(c)) + rest;
    ReadCount(LeadCount(c), rest);
  }

  /**
   With days or hours left the countdown shows a second number after the first
   unit and a space: the hours after "d ", the minutes after "h ".
   */
  lemma LockTextSecondCount(week: Week, now: Time)
    requires week.locksAt - now > 0
    requires Split(week.locksAt - now).days > 0 || Split(week.locksAt - now).hours > 0
    ensures SecondCountShown(LockText(Some(week), now), Split(week.locksAt - now))
  {
    var c := Split(week.locksAt - now);
    var r := LockText(Some(week), now);
    assert r == CountdownText(c);
    CountdownSecondCount(c);
  }

  /**
   Past the leading count of `c` and two characters — the unit letter `d` or
   `h` and a space — `r` holds the next unit's count: hours after days,
   minutes after hours.
   */
  ghost predicate SecondCountShown(r: string, c: Countdown) {
    var k := |ShowNat(LeadCount(c))| + 2;
    && k <= |r|
    && r[k - 2] == (if c.days > 0 then 'd' else 'h') && r[k - 1] == ' '
    && ParseInt(r[k..]) == Finite((if c.days > 0 then c.hours else c.minutes) as real)
  }

  lemma CountdownSecondCount(c: Countdown)
    requires c.days > 0 || c.hours > 0
    ensures SecondCountShown(CountdownText(c), c)
  {
    var lead := ShowNat(LeadCount(c));
    var unit := if c.days > 0 then "d " else "h ";
    var second := if c.days > 0 then c.hours else c.minutes;
    var last := if c.days > 0 then "h" else "m";
    assert CountdownText(c) == lead + (unit + ShowNat(second) + last);
    Regroup(lead, unit, ShowNat(second), last);
    ReadCount(second, last);
    CountAfterUnit(lead, unit, ShowNat(second) + last);
  }

  lemma Regroup(a: string, b: string, c: string, d: string)
    ensures a + (b + c + d) == a + b + (c + d)
  {
  }

  /** Whatever follows a two-character unit reads back as it would on its own. */
  lemma CountAfterUnit(lead: string, unit: string, t: string)
    requires |unit| == 2
    ensures var r := lead + unit + t;
      var k := |lead| + 2;
      && k <= |r| && r[k - 2] == unit[0] && r[k - 1] == unit[1] && ParseInt(r[k..]) == ParseInt(t)
  {
    SplitAfterUnit(lead, unit, t);
  }

  lemma SplitAfterUnit(lead: string, unit: string, t: string)
    requires |unit| == 2
    ensures var r := lead + unit + t;
      var k := |lead| + 2;
      && k <= |r| && r[k - 2..k] == unit && r[k..] == t
  {
    var r := lead + unit + t;
    var k := |lead| + 2;
    assert r[k - 2..k] == unit;
    assert r[k..] == t;
  }

  /** The statuses the dashboard's preview counts. */
  const Counted: set<LegStatus> := {OK, PENDING}

  datatype Preview = Preview(legsCount: nat, combinedDecimal: real, projectedPayout: int, stake: int)

  /** `calculateParlay` on the dashboard: approved and pending legs, stake falling back to 1000 cents. */
  function ParlayPreview(legs: seq<Leg>, week: Option<Week>): (r: Option<Preview>)
    ensures r.None? <==> forall i :: 0 <= i < |legs| ==> legs[i].status !in Counted
    ensures r.Some? ==> r.value.legsCount == |WithStatus(legs, Counted)| > 0
    ensures r.Some? ==> r.value.combinedDecimal == ParlayDecimal(Decimals(WithStatus(legs, Counted)))
    ensures r.Some? ==> r.value.stake == StakeOr(week, 1000) != 0
    ensures r.Some? ==> r.value.projectedPayout == Round(r.value.stake as real * r.value.combinedDecimal)
  {
    var valid := WithStatus(legs, Counted);
    WithStatusMembers(legs, Counted);
    assert |valid| == 0 ==> forall i :: 0 <= i < |legs| ==> legs[i] !in valid;
    assert |valid| > 0 ==> valid[0] in legs;
    PreviewOf(valid, week)
  }

  /** The preview over the legs already filtered. */
  function PreviewOf(valid: seq<Leg>, week: Option<Week>): Option<Preview> {
    if |valid| == 0 then None
    else
      var combined := ParlayDecimal(Decimals(valid));
      var stake := StakeOr(week, 1000);
      Some(Preview(|valid|, combined, ParlayPayout(stake, combined), stake))
  }

  /** A leg that is neither approved nor pending leaves the preview as it was. */
  lemma PreviewSkipsUncounted(legs: seq<Leg>, l: Leg, week: Option<Week>)
    requires l.status !in Counted
    ensures ParlayPreview(legs + [l], week) == ParlayPreview(legs, week)
  {
    var v0 := WithStatus(legs, Counted);
    WithStatusAppend(legs, l, Counted);
    assert WithStatus(legs + [l], Counted) == v0 + [];
    assert v0 + [] == v0;
    assert ParlayPreview(legs + [l], week) == PreviewOf(v0, week);
  }

  /** A counted leg adds one to the count and multiplies the combined odds by its own. */
  lemma PreviewCountsLeg(legs: seq<Leg>, l: Leg, week: Option<Week>)
    requires l.status in Counted
    ensures var before := ParlayPreview(legs, week);
      var after := ParlayPreview(legs + [l], week);
      && after.Some?
      && after.value.legsCount == (if before.Some? then before.value.legsCount else 0) + 1
      && after.value.combinedDecimal == (if before.Some? then before.value.combinedDecimal else 1.0) * l.decimalOdds
  {
    var valid := WithStatus(legs, Counted);
    WithStatusAppend(legs, l, Counted);
    DecimalsAppend(valid, [l]);
    assert Decimals([l]) == [l.decimalOdds];
    ParlayAppend(Decimals(valid), l.decimalOdds);
    assert ParlayPreview(legs + [l], week) == PreviewOf(valid + [l], week);
    assert ParlayPreview(legs, week) == PreviewOf(valid, week);
  }

  /** When every counted leg pays more than its stake back, the preview's combined odds exceed each of them. */
  lemma PreviewBeatsEachLeg(legs: seq<Leg>, week: Option<Week>)
    requires ParlayPreview(legs, week).Some?
    requires forall i :: 0 <= i < |legs| ==> legs[i].decimalOdds > 1.0
    ensures ParlayPreview(legs, week).value.combinedDecimal > 1.0
    ensures forall i :: 0 <= i < |legs| && legs[i].status in Counted ==>
      ParlayPreview(legs, week).value.combinedDecimal >= legs[i].decimalOdds
  {
    var valid := WithStatus(legs, Counted);
    WithStatusMembers(legs, Counted);
    var ds := Decimals(valid);
    forall i | 0 <= i < |ds| ensures ds[i] > 1.0 {
      assert valid[i] in legs;
    }
    ParlayDominatesLegs(ds);
    forall i | 0 <= i < |legs| && legs[i].status in Counted
      ensures ParlayDecimal(ds) >= legs[i].decimalOdds
    {
      assert legs[i] in valid;
      var k :| 0 <= k < |valid| && valid[k] == legs[i];
      assert ds[k] == legs[i].decimalOdds;
    }
  }

  /** The leg `legs.find(leg => leg.user_id === user?.id)`: the user's first leg of the week. */
  function UserLeg(legs: seq<Leg>, user: Option<Id>): (r: Option<Leg>)
    ensures r.Some? ==> user.Some? && r.value in legs && r.value.userId == user.value
    ensures r.None? <==> user.None? || forall i :: 0 <= i < |legs| ==> legs[i].userId != user.value
    ensures r.Some? ==>
      exists k :: 0 <= k < |legs| && legs[k] == r.value && forall i :: 0 <= i < k ==> legs[i].userId != user.value
  {
    if user.None? || legs == [] then None
    else if legs[0].userId == user.value then Some(legs[0])
    else
      var rest := UserLeg(legs[1..], user);
      assert forall i :: 1 <= i < |legs| ==> legs[i] == legs[1..][i - 1];
      assert rest.Some? ==>
        exists k :: 0 <= k < |legs| && legs[k] == rest.value && forall i :: 0 <= i < k ==> legs[i].userId != user.value
      by {
        if rest.Some? {
          var k :| 0 <= k < |legs[1..]| && legs[1..][k] == rest.value
            && forall i :: 0 <= i < k ==> legs[1..][i].userId != user.value;
          assert legs[k + 1] == rest.value;
          assert forall i :: 0 <= i < k + 1 ==> legs[i].userId != user.value;
        }
      }
      rest
  }

  /** The submit button shows when the week is open and the user has no leg in it. */
  function CanSubmit(week: Option<Week>, legs: seq<Leg>, user: Option<Id>): (b: bool)
    ensures b <==> (week.Some? && week.value.status == OPEN
      && (user.None? || forall i :: 0 <= i < |legs| ==> legs[i].userId != user.value))
  {
    week.Some? && week.value.status == OPEN && UserLeg(legs, user).None?
  }

  /** Once the user's leg is among the week's legs, the button is gone. */
  lemma SubmittedLegHidesButton(week: Option<Week>, legs: seq<Leg>, l: Leg)
    ensures !CanSubmit(week, legs + [l], Some(l.userId))
  {
    assert (legs + [l])[|legs|] == l;
  }
}
