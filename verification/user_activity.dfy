/**
 The activity card: for every member, whether they have a leg in the current
 week, listed with submitters first and then by name, and the completion ratio.
 */
module UserActivity {
  import opened Wrappers
  import opened Text
  import opened JsNum
  import opened Records
  import opened WeekView
  import Dashboard

  datatype Activity = Activity(userId: Id, name: string, hasSubmitted: bool, legStatus: Option<LegStatus>, submittedAt: Option<Time>)

  /** A member's activity, taken from their first leg of the week when there is one. */
  function ActivityOf(p: Profile, weekLegs: seq<Leg>): (a: Activity)
    ensures a.userId == p.userId && a.name == p.name
    ensures a.hasSubmitted <==> exists i :: 0 <= i < |weekLegs| && weekLegs[i].userId == p.userId
    ensures a.hasSubmitted <==> a.legStatus.Some?
    ensures a.hasSubmitted ==> exists i :: (0 <= i < |weekLegs| && weekLegs[i].userId == p.userId
      && a.legStatus == Some(weekLegs[i].status) && a.submittedAt == Some(weekLegs[i].createdAt))
  {
    var leg := Dashboard.UserLeg(weekLegs, Some(p.userId));
    if leg.Some? then
      Activity(p.userId, p.name, true, Some(leg.value.status), Some(leg.value.createdAt))
    else Activity(p.userId, p.name, false, None, None)
  }

  /** The leg the card reports is the member's earliest-listed one. */
  lemma ActivityFromFirstLeg(p: Profile, weekLegs: seq<Leg>, i: int)
    requires 0 <= i < |weekLegs| && weekLegs[i].userId == p.userId
    requires forall k :: 0 <= k < i ==> weekLegs[k].userId != p.userId
    ensures ActivityOf(p, weekLegs).legStatus == Some(weekLegs[i].status)
    ensures ActivityOf(p, weekLegs).submittedAt == Some(weekLegs[i].createdAt)
  {
    FirstMatch(weekLegs, p.userId, i);
  }

  lemma {:induction false} FirstMatch(legs: seq<Leg>, u: Id, i: int)
    requires 0 <= i < |legs| && legs[i].userId == u
    requires forall k :: 0 <= k < i ==> legs[k].userId != u
    ensures Dashboard.UserLeg(legs, Some(u)) == Some(legs[i])
  {
    if i > 0 {
      FirstMatch(legs[1..], u, i - 1);
    }
  }

  /** One activity per profile, in the profiles' order. */
  function Activities(users: seq<Profile>, weekLegs: seq<Leg>): (r: seq<Activity>)
    ensures |r| == |users|
    ensures forall i :: 0 <= i < |users| ==> r[i] == ActivityOf(users[i], weekLegs)
  {
    seq(|users|, i requires 0 <= i < |users| => ActivityOf(users[i], weekLegs))
  }

  /** The sort's comparator as an order: submitters first, then names in ascending order. */
  predicate ListedBefore(a: Activity, b: Activity) {
    (a.hasSubmitted && !b.hasSubmitted) || (a.hasSubmitted == b.hasSubmitted && StrLe(a.name, b.name))
  }

  predicate Listed(acts: seq<Activity>) {
    forall i :: 0 <= i < |acts| - 1 ==> ListedBefore(acts[i], acts[i + 1])
  }

  /** Inserting after every activity not listed after `x`, which keeps ties in their order. */
  function Insert(x: Activity, acts: seq<Activity>): (r: seq<Activity>)
    requires Listed(acts)
    ensures Listed(r)
    ensures multiset(r) == multiset(acts) + multiset{x}
    ensures |r| == |acts| + 1
    ensures r[|r| - 1] == x || (|acts| > 0 && r[|r| - 1] == acts[|acts| - 1])
  {
    if acts == [] || ListedBefore(acts[|acts| - 1], x) then acts + [x]
    else
      var init, last := acts[..|acts| - 1], acts[|acts| - 1];
      StrLeTotal(last.name, x.name);
      assert acts == init + [last];
      Insert(x, init) + [last]
  }

  /** `userActivities.sort(...)`, a stable sort. */
  function Sort(acts: seq<Activity>): (r: seq<Activity>)
    ensures Listed(r)
    ensures multiset(r) == multiset(acts)
  {
    if acts == [] then []
    else
      assert acts == acts[..|acts| - 1] + [acts[|acts| - 1]];
      Insert(acts[|acts| - 1], Sort(acts[..|acts| - 1]))
  }

  /** In a listed sequence no member without a leg comes before a member with one. */
  lemma {:induction false} SubmittersFirst(acts: seq<Activity>, i: int, j: int)
    requires Listed(acts) && 0 <= i < j < |acts| && acts[j].hasSubmitted
    ensures acts[i].hasSubmitted
    decreases j - i
  {
    if i + 1 < j {
      SubmittersFirst(acts, i + 1, j);
    }
    assert ListedBefore(acts[i], acts[i + 1]);
  }

  /** The card's list, or nothing fetched while there is no current week. */
  function Load(currentWeekId: Option<Id>, users: seq<Profile>, legs: seq<Leg>, shown: seq<Activity>): (r: seq<Activity>)
    ensures currentWeekId.None? ==> r == shown
    ensures currentWeekId.Some? ==> Listed(r) && |r| == |users|
    ensures currentWeekId.Some? ==>
      multiset(r) == multiset(Activities(users, WeekLegs(legs, currentWeekId.value)))
  {
    if currentWeekId.None? then shown
    else
      var r := Sort(Activities(users, WeekLegs(legs, currentWeekId.value)));
      assert |multiset(r)| == |r|;
      r
  }

  function SubmittedCount(acts: seq<Activity>): (n: nat)
    ensures n <= |acts|
  {
    if acts == [] then 0 else (if acts[0].hasSubmitted then 1 else 0) + SubmittedCount(acts[1..])
  }

  /** Reordering the activities does not change how many have submitted. */
  lemma {:induction false} SubmittedCountPermutation(a: seq<Activity>, b: seq<Activity>)
    requires multiset(a) == multiset(b)
    ensures SubmittedCount(a) == SubmittedCount(b)
    decreases |a|
  {
    if a == [] {
      assert |b| == |multiset(b)| == 0;
    } else {
      assert a[0] in multiset(b);
      var i :| 0 <= i < |b| && b[i] == a[0];
      var b' := b[..i] + b[i + 1..];
      assert b == b[..i] + [b[i]] + b[i + 1..];
      assert multiset(b) == multiset(b[..i]) + multiset{b[i]} + multiset(b[i + 1..]);
      assert multiset(b') == multiset(b[..i]) + multiset(b[i + 1..]);
      assert a == [a[0]] + a[1..];
      assert multiset(a) == multiset{a[0]} + multiset(a[1..]);
      assert multiset(a[1..]) == multiset(a) - multiset{a[0]};
      assert multiset(b') == multiset(b) - multiset{b[i]};
      SubmittedCountPermutation(a[1..], b');
      SubmittedCountRemove(b, i);
    }
  }

  lemma {:induction false} SubmittedCountRemove(b: seq<Activity>, i: int)
    requires 0 <= i < |b|
    ensures SubmittedCount(b) == SubmittedCount(b[..i] + b[i + 1..]) + (if b[i].hasSubmitted then 1 else 0)
  {
    if i > 0 {
      SubmittedCountRemove(b[1..], i - 1);
      assert b[1..][..i - 1] + b[1..][i..] == (b[..i] + b[i + 1..])[1..];
    } else {
      assert b[..0] + b[1..] == b[1..];
    }
  }

  /** The card's count is the number of members with a leg in the week, whatever the order. */
  lemma CountIndependentOfOrder(currentWeekId: Id, users: seq<Profile>, legs: seq<Leg>, shown: seq<Activity>)
    ensures SubmittedCount(Load(Some(currentWeekId), users, legs, shown))
         == SubmittedCount(Activities(users, WeekLegs(legs, currentWeekId)))
  {
    SubmittedCountPermutation(Load(Some(currentWeekId), users, legs, shown), Activities(users, WeekLegs(legs, currentWeekId)));
  }

  /** The completion percentage: `Math.round(submitted / total * 100)`, 0 without members. */
  function CompletionPercent(submitted: nat, total: nat): (p: int)
    requires submitted <= total
    ensures 0 <= p <= 100
    ensures total == 0 ==> p == 0
    ensures submitted == total && total > 0 ==> p == 100
    ensures submitted == 0 ==> p == 0
  {
    if total > 0 then
      var x := submitted as real / total as real * 100.0;
      assert 0.0 <= x <= 100.0;
      assert submitted == total ==> x == 100.0;
      RoundMonotone(0.0, x);
      RoundMonotone(x, 100.0);
      RoundOfInt(0);
      RoundOfInt(100);
      Round(x)
    else 0
  }
}
