/**
 The dialog that edits a submitted leg: the form loaded from the row, the
 decimal-odds preview, and the update it sends.

 As written, the submit guard is the odds validator, which admits 0; the
 decimal odds of 0 are `100 / 0 + 1 = Infinity`, reach the database as null and
 are refused by the NOT NULL column, so the edit fails with a generic error.
 `SubmitEdit` models that; `SubmitEditGuarded` is the guard that also refuses 0,
 under which every accepted edit of an existing leg is stored.
 */
module EditLeg {
  import opened Wrappers
  import opened JsNum
  import opened Parlay
  import opened OddsValidation
  import opened Records

  /** The form's fields; the odds and the line are text, the decimal odds are the preview. */
  datatype EditForm = EditForm(
    gameDesc: string,
    selection: string,
    americanOdds: string,
    decimalOdds: Num,
    bookmaker: string,
    line: string,
    playerName: string,
    marketKey: string,
    propCategory: string)

  /** The form as the dialog fills it from a leg when it opens. */
  function LoadForm(leg: Leg): (f: EditForm)
    ensures f.americanOdds == ShowNum(leg.americanOdds)
    ensures f.decimalOdds == Finite(leg.decimalOdds)
    ensures f.line == "" <==> leg.line.None?
    ensures f.playerName == OrEmpty(leg.playerName) && f.propCategory == OrEmpty(leg.propCategory)
  {
    EditForm(leg.gameDesc, leg.selection, ShowNum(leg.americanOdds), Finite(leg.decimalOdds),
      leg.bookmaker, if leg.line.Some? then ShowNum(leg.line.value) else "",
      OrEmpty(leg.playerName), leg.marketKey, OrEmpty(leg.propCategory))
  }

  /** `handleOddsChange`: the text is kept; the preview follows only odds the validator accepts. */
  function OddsChange(f: EditForm, value: string): (r: EditForm)
    ensures r.americanOdds == value
    ensures r == f.(americanOdds := value, decimalOdds := r.decimalOdds)
    ensures !IsValidOdds(Some(ParseInt(value))) ==> r.decimalOdds == f.decimalOdds
    ensures IsValidOdds(Some(ParseInt(value))) && ParseInt(value).v != 0.0 ==>
      r.decimalOdds == Finite(AmericanToDecimal(ParseInt(value).v))
  {
    var odds := ParseInt(value);
    f.(americanOdds := value,
       decimalOdds := if IsValidOdds(Some(odds)) then AmericanToDecimalJs(odds) else f.decimalOdds)
  }

  /** The update `handleSubmit` sends for odds read from the form. */
  function EditPatch(f: EditForm, odds: Num, now: Time, parseFloat: string -> Num): (p: LegPatch)
    ensures p.americanOdds == Some(odds) && p.decimalOdds == Some(AmericanToDecimalJs(odds))
    ensures p.playerName == Some(OrNull(f.playerName)) && p.propCategory == Some(OrNull(f.propCategory))
    ensures p.line == Some(if f.line == "" then None else Some(parseFloat(f.line)))
    ensures p.status.None? && p.notes.None? && p.updatedAt == Some(now)
  {
    LegPatch(Some(f.gameDesc), Some(f.selection), Some(odds), Some(AmericanToDecimalJs(odds)),
      Some(f.bookmaker), Some(f.marketKey), Some(OrNull(f.playerName)),
      Some(if f.line != "" then Some(parseFloat(f.line)) else None),
      Some(OrNull(f.propCategory)), None, None, Some(now))
  }

  datatype EditOutcome =
    | NoLeg
    | InvalidOdds
    | UpdateFailed(error: DbError)
    | Updated(legs: Legs)

  function Store(legs: Legs, id: Id, p: LegPatch): EditOutcome {
    match UpdateLeg(legs, id, p)
    case Failure(e) => UpdateFailed(e)
    case Success(legs') => Updated(legs')
  }

  /** `handleSubmit` as written: the guard is the odds validator alone. */
  function SubmitEdit(leg: Option<Leg>, f: EditForm, legs: Legs, now: Time, parseFloat: string -> Num): (r: EditOutcome)
    ensures leg.None? ==> r == NoLeg
    ensures leg.Some? && !IsValidOdds(Some(ParseInt(f.americanOdds))) ==> r == InvalidOdds
    ensures r.Updated? ==> r.legs.Keys == legs.Keys && forall k :: k in legs && k != leg.value.id ==> r.legs[k] == legs[k]
    ensures r.UpdateFailed? <==>
      leg.Some? && leg.value.id in legs && ParseInt(f.americanOdds) == Finite(0.0)
  {
    if leg.None? then NoLeg
    else
      var odds := ParseInt(f.americanOdds);
      if !IsValidOdds(Some(odds)) then InvalidOdds
      else Store(legs, leg.value.id, EditPatch(f, odds, now, parseFloat))
  }

  /** Odds "0" pass the guard and the preview shows an infinite multiplier. */
  lemma ZeroOddsPreview(f: EditForm)
    ensures OddsChange(f, "0").decimalOdds == Inf(false)
  {
    ParseZero();
  }

  /** Odds "0" on an existing leg end in a refused write of `decimal_odds`. */
  lemma ZeroOddsEditFails(leg: Leg, f: EditForm, legs: Legs, now: Time, parseFloat: string -> Num)
    requires leg.id in legs && f.americanOdds == "0"
    ensures SubmitEdit(Some(leg), f, legs, now, parseFloat) == UpdateFailed(NotNullViolation("decimal_odds"))
  {
    ParseZero();
  }

  lemma ParseZero()
    ensures ParseInt("0") == Finite(0.0)
  {
    ParseShowInt(0);
    assert ShowInt(0) == "0";
  }

  /** The guard that also refuses 0, as the submission form's validator does. */
  predicate EditableOdds(odds: Num) {
    IsValidOdds(Some(odds)) && odds.v != 0.0
  }

  /** `handleSubmit` with the corrected guard. */
  function SubmitEditGuarded(leg: Option<Leg>, f: EditForm, legs: Legs, now: Time, parseFloat: string -> Num): (r: EditOutcome)
    ensures leg.None? ==> r == NoLeg
    ensures leg.Some? && !EditableOdds(ParseInt(f.americanOdds)) ==> r == InvalidOdds
    ensures !r.UpdateFailed?
    ensures leg.Some? && EditableOdds(ParseInt(f.americanOdds)) ==> r.Updated?
    ensures r.Updated? ==> r.legs.Keys == legs.Keys && forall k :: k in legs && k != leg.value.id ==> r.legs[k] == legs[k]
    ensures r.Updated? && leg.value.id in legs ==>
      var row := r.legs[leg.value.id];
      && row.americanOdds == ParseInt(f.americanOdds).v
      && row.decimalOdds == AmericanToDecimal(row.americanOdds)
      && row.playerName == OrNull(f.playerName) && row.propCategory == OrNull(f.propCategory)
      && row.updatedAt == now && row.status == legs[leg.value.id].status
  {
    if leg.None? then NoLeg
    else
      var odds := ParseInt(f.americanOdds);
      if !EditableOdds(odds) then InvalidOdds
      else Store(legs, leg.value.id, EditPatch(f, odds, now, parseFloat))
  }

  /** Off 0 the corrected guard behaves exactly as the original. */
  lemma GuardsAgreeOffZero(leg: Option<Leg>, f: EditForm, legs: Legs, now: Time, parseFloat: string -> Num)
    requires ParseInt(f.americanOdds) != Finite(0.0)
    ensures SubmitEditGuarded(leg, f, legs, now, parseFloat) == SubmitEdit(leg, f, legs, now, parseFloat)
  {
  }

  /**
   Saving the form unchanged rewrites the odds as `parseInt` reads them back:
   whole odds are kept, fractional odds are truncated toward zero, and the
   decimal odds are recomputed from the result.
   */
  lemma UnchangedFormRewritesOdds(leg: Leg, legs: Legs, now: Time, parseFloat: string -> Num)
    requires leg.id in legs && -10000.0 <= leg.americanOdds <= 10000.0 && Trunc(leg.americanOdds) != 0
    ensures var r := SubmitEditGuarded(Some(leg), LoadForm(leg), legs, now, parseFloat);
      && r.Updated?
      && r.legs[leg.id].americanOdds == Trunc(leg.americanOdds) as real
      && r.legs[leg.id].decimalOdds == AmericanToDecimal(Trunc(leg.americanOdds) as real)
  {
    ParseShowNum(leg.americanOdds);
  }

  /** Whole odds survive the round trip through the form. */
  lemma WholeOddsKept(leg: Leg, legs: Legs, now: Time, parseFloat: string -> Num)
    requires leg.id in legs && -10000.0 <= leg.americanOdds <= 10000.0 && leg.americanOdds != 0.0
    requires leg.americanOdds == leg.americanOdds.Floor as real
    ensures SubmitEditGuarded(Some(leg), LoadForm(leg), legs, now, parseFloat).Updated?
    ensures SubmitEditGuarded(Some(leg), LoadForm(leg), legs, now, parseFloat).legs[leg.id].americanOdds == leg.americanOdds
  {
    assert Trunc(leg.americanOdds) as real == leg.americanOdds;
    UnchangedFormRewritesOdds(leg, legs, now, parseFloat);
  }

  /** An empty player name or category is saved as null, whatever the row held before. */
  lemma EmptyTextSavedAsNull(leg: Leg, legs: Legs, now: Time, parseFloat: string -> Num)
    requires leg.id in legs && EditableOdds(ParseInt(ShowNum(leg.americanOdds)))
    ensures var r := SubmitEditGuarded(Some(leg), LoadForm(leg), legs, now, parseFloat);
      && r.Updated?
      && r.legs[leg.id].playerName == (if leg.playerName == Some("") then None else leg.playerName)
      && r.legs[leg.id].propCategory == (if leg.propCategory == Some("") then None else leg.propCategory)
  {
    OrNullOrEmpty(leg.playerName);
    OrNullOrEmpty(leg.propCategory);
  }
}
