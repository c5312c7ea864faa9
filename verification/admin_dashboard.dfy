/**
 The administrator's overview: the most recently created week, the counts of its
 legs by status, their average odds, participation and the reminder alert.
 */
module AdminDashboard {
  import opened Wrappers
  import opened JsNum
  import opened Records
  import opened CurrentWeek
  import opened WeekView

  function CreatedAt(w: Week): int { w.createdAt }

  /** The overview's week: the most recently created one, whatever its status. */
  function AdminWeek(rows: seq<Week>): (r: Option<Week>)
    ensures r.None? <==> rows == []
    ensures r.Some? ==> r.value in rows
    ensures r.Some? ==> forall i :: 0 <= i < |rows| ==> rows[i].createdAt <= r.value.createdAt
  {
    Latest(rows, (w: Week) => true, CreatedAt)
  }

  /**
   The week created strictly after every other one is the overview's week,
   whatever its status and the others' statuses.
   */
  lemma NewestWeekWhateverStatus(rows: seq<Week>, k: int)
    requires 0 <= k < |rows|
    requires forall i :: 0 <= i < |rows| && i != k ==> rows[i].createdAt < rows[k].createdAt
    ensures AdminWeek(rows) == Some(rows[k])
  {
    var r := AdminWeek(rows);
    var i :| 0 <= i < |rows| && rows[i] == r.value;
    assert rows[k].createdAt <= rows[i].createdAt;
    assert i == k;
  }

  datatype Stats = Stats(
    totalUsers: nat,
    pendingLegs: nat,
    approvedLegs: nat,
    rejectedLegs: nat,
    currentWeekSubmissions: nat,
    totalStake: int,
    averageOdds: int,
    weekStatus: Option<WeekStatus>)

  /** The sum of the absolute American odds. */
  function SumAbsOdds(legs: seq<Leg>): (s: real)
    ensures s >= 0.0
  {
    if legs == [] then 0.0 else SumAbsOdds(legs[..|legs| - 1]) + Abs(legs[|legs| - 1].americanOdds)
  }

  /** `Math.round` of the mean absolute American odds, 0 without legs. */
  function AverageOdds(legs: seq<Leg>): (avg: int)
    ensures avg >= 0
    ensures legs == [] ==> avg == 0
  {
    if |legs| > 0 then
      var mean := SumAbsOdds(legs) / |legs| as real;
      RoundMonotone(0.0, mean);
      RoundOfInt(0);
      Round(mean)
    else 0
  }

  /** When every leg's absolute odds lie between two whole numbers, so does the average. */
  lemma AverageWithinBounds(legs: seq<Leg>, lo: int, hi: int)
    requires legs != []
    requires forall i :: 0 <= i < |legs| ==> lo as real <= Abs(legs[i].americanOdds) <= hi as real
    ensures lo <= AverageOdds(legs) <= hi
  {
    var n := |legs| as real;
    SumBounds(legs, lo as real, hi as real);
    TimesIsProduct(|legs|, lo as real);
    TimesIsProduct(|legs|, hi as real);
    var mean := SumAbsOdds(legs) / n;
    MeanBounds(SumAbsOdds(legs), n, lo as real, hi as real);
    RoundMonotone(lo as real, mean);
    RoundMonotone(mean, hi as real);
    RoundOfInt(lo);
    RoundOfInt(hi);
  }

  /** `n` copies of `x` added up, so that the bounds below stay linear. */
  function Times(n: nat, x: real): real {
    if n == 0 then 0.0 else Times(n - 1, x) + x
  }

  lemma {:induction false} TimesIsProduct(n: nat, x: real)
    ensures Times(n, x) == n as real * x
  {
    if n > 0 {
      TimesIsProduct(n - 1, x);
      assert n as real * x == (n - 1) as real * x + x;
    }
  }

  lemma {:induction false} SumBounds(legs: seq<Leg>, lo: real, hi: real)
    requires forall i :: 0 <= i < |legs| ==> lo <= Abs(legs[i].americanOdds) <= hi
    ensures Times(|legs|, lo) <= SumAbsOdds(legs) <= Times(|legs|, hi)
  {
    if legs != [] {
      var init := legs[..|legs| - 1];
      assert forall i :: 0 <= i < |init| ==> init[i] == legs[i];
      SumBounds(init, lo, hi);
    }
  }

  lemma MeanBounds(sum: real, n: real, lo: real, hi: real)
    requires n > 0.0 && n * lo <= sum <= n * hi
    ensures lo <= sum / n <= hi
  {
    assert sum / n * n == sum;
  }

  /** `fetchDashboardStats`: `userCount` is the profile count, null when the count fails. */
  function ComputeStats(userCount: Option<nat>, weekRows: seq<Week>, legs: seq<Leg>): (s: Stats)
    ensures s.totalUsers == userCount.GetOr(0)
    ensures s.pendingLegs + s.approvedLegs + s.rejectedLegs <= s.currentWeekSubmissions
    ensures AdminWeek(weekRows).None? ==> s.currentWeekSubmissions == 0 && s.averageOdds == 0 && s.weekStatus.None?
    ensures AdminWeek(weekRows).Some? ==>
      && s.currentWeekSubmissions == |WeekLegs(legs, AdminWeek(weekRows).value.id)|
      && s.weekStatus == Some(AdminWeek(weekRows).value.status)
      && s.totalStake == AdminWeek(weekRows).value.stakeAmount
    ensures s.averageOdds >= 0
  {
    var week := AdminWeek(weekRows);
    var weekLegs := if week.Some? then WeekLegs(legs, week.value.id) else [];
    var pending := |WithStatus(weekLegs, {PENDING})|;
    var approved := |WithStatus(weekLegs, {OK})|;
    var rejected := |WithStatus(weekLegs, {REJECTED})|;
    WithStatusDisjoint(weekLegs, {PENDING}, {OK});
    WithStatusDisjoint(weekLegs, {PENDING, OK}, {REJECTED});
    assert {PENDING} + {OK} == {PENDING, OK};
    Stats(userCount.GetOr(0), pending, approved, rejected, |weekLegs|,
      if week.Some? then week.value.stakeAmount else 0, AverageOdds(weekLegs),
      if week.Some? then Some(week.value.status) else None)
  }

  /** The participation figure: legs over members as a rounded percentage, 0 without members. */
  function Participation(s: Stats): (p: int)
    ensures s.totalUsers == 0 ==> p == 0
    ensures p >= 0
    ensures s.currentWeekSubmissions <= s.totalUsers ==> p <= 100
  {
    if s.totalUsers > 0 then
      var x := s.currentWeekSubmissions as real / s.totalUsers as real * 100.0;
      RoundMonotone(0.0, x);
      RoundOfInt(0);
      if s.currentWeekSubmissions <= s.totalUsers then
        MeanBounds(s.currentWeekSubmissions as real, s.totalUsers as real, 0.0, 1.0);
        RoundMonotone(x, 100.0);
        RoundOfInt(100);
        Round(x)
      else Round(x)
    else 0
  }

  /** The figure counts legs, not members, so a member with two legs can push it past 100. */
  lemma ParticipationCountsLegs(s: Stats)
    requires s.totalUsers == 1 && s.currentWeekSubmissions == 2
    ensures Participation(s) == 200
  {
    RoundOfInt(200);
  }

  /** The reminder: how many members have not submitted, shown only when that is positive. */
  function NotSubmittedAlert(s: Stats): (r: Option<nat>)
    ensures r.Some? <==> s.currentWeekSubmissions < s.totalUsers
    ensures r.Some? ==> r.value > 0 && r.value + s.currentWeekSubmissions == s.totalUsers
  {
    if s.currentWeekSubmissions < s.totalUsers then Some(s.totalUsers - s.currentWeekSubmissions) else None
  }

  /** With the alert showing, participation is below 100 percent. */
  lemma AlertMeansIncomplete(s: Stats)
    requires NotSubmittedAlert(s).Some?
    ensures Participation(s) <= 100
  {
  }
}
