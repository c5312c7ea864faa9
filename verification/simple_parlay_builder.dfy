/**
 The parlay builder: pending legs are picked one by one, the combined odds and
 payout are shown as the selection changes, and a parlay needs two selections.
 */
module SimpleParlayBuilder {
  import opened Wrappers
  import opened JsNum
  import opened Parlay
  import opened Records
  import opened WeekView

  /** `handleLegToggle`: a selected id is filtered out, any other id is appended. */
  function Toggle(selected: seq<Id>, id: Id): (r: seq<Id>)
    ensures id in r <==> id !in selected
    ensures forall x :: x != id ==> (x in r <==> x in selected)
    ensures id !in selected ==> r == selected + [id]
  {
    if id in selected then Without(selected, id) else selected + [id]
  }

  /** `ids.filter(x => x !== id)`. */
  function Without(ids: seq<Id>, id: Id): (r: seq<Id>)
    ensures id !in r && |r| <= |ids|
    ensures forall x :: x != id ==> (x in r <==> x in ids)
    ensures id !in ids ==> r == ids
  {
    if ids == [] then []
    else (if ids[0] == id then [] else [ids[0]]) + Without(ids[1..], id)
  }

  predicate NoDuplicates(ids: seq<Id>) {
    forall i, j :: 0 <= i < j < |ids| ==> ids[i] != ids[j]
  }

  lemma {:induction false} WithoutKeepsDistinct(ids: seq<Id>, id: Id)
    requires NoDuplicates(ids)
    ensures NoDuplicates(Without(ids, id))
  {
    if ids != [] {
      assert NoDuplicates(ids[1..]) by {
        forall i, j | 0 <= i < j < |ids[1..]| ensures ids[1..][i] != ids[1..][j] {
          assert ids[1..][i] == ids[i + 1] && ids[1..][j] == ids[j + 1];
        }
      }
      WithoutKeepsDistinct(ids[1..], id);
      var rest := Without(ids[1..], id);
      if ids[0] != id {
        assert ids[0] !in ids[1..] by {
          forall k | 0 <= k < |ids[1..]| ensures ids[1..][k] != ids[0] {
            assert ids[1..][k] == ids[k + 1];
          }
        }
        assert ids[0] !in rest;
        var r := [ids[0]] + rest;
        forall i, j | 0 <= i < j < |r| ensures r[i] != r[j] {
          if i == 0 {
            assert r[j] == rest[j - 1] && r[j] in rest;
          } else {
            assert r[i] == rest[i - 1] && r[j] == rest[j - 1];
          }
        }
      } else {
        assert Without(ids, id) == [] + rest;
      }
    }
  }

  /** The selection never holds an id twice. */
  lemma ToggleKeepsDistinct(selected: seq<Id>, id: Id)
    requires NoDuplicates(selected)
    ensures NoDuplicates(Toggle(selected, id))
  {
    if id in selected {
      WithoutKeepsDistinct(selected, id);
    }
  }

  /** Picking an unselected leg and dropping it again restores the selection. */
  lemma ToggleTwice(selected: seq<Id>, id: Id)
    requires id !in selected
    ensures Toggle(Toggle(selected, id), id) == selected
  {
    WithoutAppended(selected, id);
  }

  lemma {:induction false} WithoutAppended(ids: seq<Id>, id: Id)
    requires id !in ids
    ensures Without(ids + [id], id) == ids
  {
    if ids == [] {
      assert Without([id], id) == [] + Without([], id);
    } else {
      assert (ids + [id])[1..] == ids[1..] + [id];
      WithoutAppended(ids[1..], id);
      assert ids == [ids[0]] + ids[1..];
    }
  }

  /** `selectedLegData`: the pending legs whose ids are selected, in the order of the legs. */
  function Chosen(legs: seq<Leg>, selected: seq<Id>): (r: seq<Leg>)
    ensures |r| <= |legs|
    ensures forall i :: 0 <= i < |r| ==> r[i] in legs && r[i].status == PENDING && r[i].id in selected
    ensures forall l :: l in legs && l.status == PENDING && l.id in selected ==> l in r
  {
    if legs == [] then []
    else
      var init := legs[..|legs| - 1];
      var last := legs[|legs| - 1];
      assert legs == init + [last];
      Chosen(init, selected) + (if last.status == PENDING && last.id in selected then [last] else [])
  }

  /** The figures the builder shows; with nothing chosen only the two zeros are defined. */
  datatype Calculation = Calculation(totalOdds: Num, payout: Num, profit: Option<Num>, decimalOdds: Option<real>)

  /** `parseFloat(totalStake) || 0`: NaN and 0 both give 0. */
  function StakeValue(text: string, parseFloat: string -> Num): (r: Num)
    ensures !r.NaN?
    ensures parseFloat(text).NaN? ==> r == Finite(0.0)
    ensures !parseFloat(text).NaN? ==> r == parseFloat(text)
  {
    var n := parseFloat(text);
    if n.NaN? || n == Finite(0.0) then Finite(0.0) else n
  }

  /** The American figure for combined odds; at exactly 1 the division by zero yields minus infinity. */
  function CombinedAmerican(decimal: real): (r: Num)
    ensures decimal != 1.0 ==> r == Finite(DecimalToAmerican(decimal) as real)
    ensures decimal == 1.0 ==> r == Inf(true)
  {
    if decimal >= 2.0 then Finite(Round((decimal - 1.0) * 100.0) as real)
    else if decimal == 1.0 then Inf(true)
    else Finite(Round(-100.0 / (decimal - 1.0)) as real)
  }

  /** `calculateParlayOdds`. */
  function Calculate(legs: seq<Leg>, selected: seq<Id>, stakeText: string, parseFloat: string -> Num): (r: Calculation)
    ensures Chosen(legs, selected) == [] <==> r.decimalOdds.None?
    ensures Chosen(legs, selected) == [] ==> r.totalOdds == Finite(0.0) && r.payout == Finite(0.0) && r.profit.None?
    ensures r.decimalOdds.Some? ==> r.decimalOdds.value == ParlayDecimal(Decimals(Chosen(legs, selected)))
    ensures r.decimalOdds.Some? ==> r.totalOdds == CombinedAmerican(r.decimalOdds.value)
    ensures r.decimalOdds.Some? && StakeValue(stakeText, parseFloat).Finite? ==>
      var stake := StakeValue(stakeText, parseFloat).v;
      r.payout == Finite(stake * r.decimalOdds.value) && r.profit == Some(Finite(stake * r.decimalOdds.value - stake))
  {
    var chosen := Chosen(legs, selected);
    if chosen == [] then Calculation(Finite(0.0), Finite(0.0), None, None)
    else
      var combined := ParlayDecimal(Decimals(chosen));
      var stake := StakeValue(stakeText, parseFloat);
      var payout := NumMul(stake, Finite(combined));
      Calculation(CombinedAmerican(combined), payout, Some(NumAdd(payout, NumNeg(stake))), Some(combined))
  }

  /** A single pending leg with whole American odds shows those odds again (-100 shows as +100). */
  lemma SingleLegShowsItsOdds(leg: Leg, a: int, stakeText: string, parseFloat: string -> Num)
    requires leg.status == PENDING && (a >= 100 || a <= -100)
    requires leg.decimalOdds == AmericanToDecimal(a as real)
    ensures Calculate([leg], [leg.id], stakeText, parseFloat).totalOdds == Finite((if a == -100 then 100 else a) as real)
  {
    assert [leg][..0] == [];
    assert Chosen([leg], [leg.id]) == [leg];
    assert Decimals([leg]) == [leg.decimalOdds];
    ParlayOfOne(leg.decimalOdds);
    DecimalAmericanRoundTrip(a);
  }

  /** Stake text that does not parse counts as nothing staked: no payout and no profit. */
  lemma UnparsableStakePaysNothing(legs: seq<Leg>, selected: seq<Id>, stakeText: string, parseFloat: string -> Num)
    requires parseFloat(stakeText).NaN? && Chosen(legs, selected) != []
    ensures Calculate(legs, selected, stakeText, parseFloat).payout == Finite(0.0)
    ensures Calculate(legs, selected, stakeText, parseFloat).profit == Some(Finite(0.0))
  {
  }

  /** Legs that are not pending never contribute, whether selected or not. */
  lemma {:induction false} SettledLegsIgnored(legs: seq<Leg>, selected: seq<Id>, extra: Id)
    requires forall i :: 0 <= i < |legs| && legs[i].id == extra ==> legs[i].status != PENDING
    ensures Chosen(legs, selected + [extra]) == Chosen(legs, selected)
  {
    if legs != [] {
      var init := legs[..|legs| - 1];
      SettledLegsIgnored(init, selected, extra);
    }
  }

  datatype CreateOutcome =
    | TooFewLegs
    | Created(legCount: nat, totalOdds: Num, selected: seq<Id>, stakeText: string)

  /**
   `handleCreateParlay`: the guard counts the selected ids, not the legs they
   name; on success the selection and the stake are reset.
   */
  function Create(legs: seq<Leg>, selected: seq<Id>, stakeText: string, parseFloat: string -> Num): (r: CreateOutcome)
    ensures r.TooFewLegs? <==> |selected| < 2
    ensures r.Created? ==> r.legCount == |selected| && r.selected == [] && r.stakeText == ""
    ensures r.Created? ==> r.totalOdds == Calculate(legs, selected, stakeText, parseFloat).totalOdds
  {
    if |selected| < 2 then TooFewLegs
    else Created(|selected|, Calculate(legs, selected, stakeText, parseFloat).totalOdds, [], "")
  }

  /** Two selected ids that no longer name pending legs still pass the guard, with odds shown as 0. */
  lemma StaleSelectionCreates(legs: seq<Leg>, a: Id, b: Id, stakeText: string, parseFloat: string -> Num)
    requires forall i :: 0 <= i < |legs| ==> legs[i].status != PENDING
    ensures Create(legs, [a, b], stakeText, parseFloat) == Created(2, Finite(0.0), [], "")
  {
    NothingPendingNothingChosen(legs, [a, b]);
  }

  lemma {:induction false} NothingPendingNothingChosen(legs: seq<Leg>, selected: seq<Id>)
    requires forall i :: 0 <= i < |legs| ==> legs[i].status != PENDING
    ensures Chosen(legs, selected) == []
  {
    if legs != [] {
      NothingPendingNothingChosen(legs[..|legs| - 1], selected);
    }
  }
}
