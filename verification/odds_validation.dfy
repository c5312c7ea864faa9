/**
 Validators for odds and lines as they arrive from forms and from the odds feed,
 and the signed rendering of American odds. A nullable number is an
 `Option<Num>`: `None` stands for both `null` and `undefined`.
 */
module OddsValidation {
  import opened Wrappers
  import opened JsNum

  const MaxAbsOdds: real := 10000.0

  /** `isValidOdds`: present, a number, not NaN, finite, and within ±10000. */
  predicate IsValidOdds(odds: Option<Num>) {
    match odds
    case None => false
    case Some(NaN) => false
    case Some(Inf(_)) => false
    case Some(Finite(v)) => !(v < -MaxAbsOdds || v > MaxAbsOdds)
  }

  /** `isValidLine`: present, not NaN and finite; there is no range bound. */
  predicate IsValidLine(line: Option<Num>) {
    match line
    case None => false
    case Some(NaN) => false
    case Some(Inf(_)) => false
    case Some(Finite(_)) => true
  }

  /** `isValidPlayerPropPrice` delegates to the odds validator. */
  predicate IsValidPlayerPropPrice(price: Option<Num>) {
    IsValidOdds(price)
  }

  /** `isValidYesPrice` delegates to the odds validator. */
  predicate IsValidYesPrice(price: Option<Num>) {
    IsValidOdds(price)
  }

  /**
   `formatOdds`: "N/A" for anything the validator refuses, otherwise the number
   with a `+` in front when it is positive.
   */
  function FormatOdds(odds: Option<Num>): (r: string)
    ensures |r| >= 1
    ensures r == "N/A" <==> !IsValidOdds(odds)
    ensures IsValidOdds(odds) ==> (r[0] == '+' <==> odds.value.v > 0.0)
    ensures IsValidOdds(odds) && odds.value.v < 0.0 ==> r[0] == '-'
  {
    if !IsValidOdds(odds) then "N/A"
    else
      var v := odds.value.v;
      var digits := ShowNum(v);
      assert digits[0] != 'N' && digits[0] != '+';
      if v > 0.0 then
        assert ("+" + digits)[0] == '+';
        "+" + digits
      else digits
  }

  /** Exactly the present, finite numbers in [-10000, 10000] are valid odds. */
  lemma ValidOddsCharacterised(odds: Option<Num>)
    ensures IsValidOdds(odds) <==>
      odds.Some? && odds.value.Finite? && -10000.0 <= odds.value.v <= 10000.0
  {
  }

  /** Every valid odds value is also a valid line. */
  lemma ValidOddsIsValidLine(odds: Option<Num>)
    ensures IsValidOdds(odds) ==> IsValidLine(odds)
  {
  }

  /** A valid line need not be valid odds: lines have no range bound. */
  lemma LineWithoutRangeBound()
    ensures IsValidLine(Some(Finite(20000.0))) && !IsValidOdds(Some(Finite(20000.0)))
  {
  }

  /** The validator has no zero or whole-number check: 0 and -110.5 pass it. */
  lemma ZeroAndFractionAccepted()
    ensures IsValidOdds(Some(Finite(0.0)))
    ensures IsValidOdds(Some(Finite(-110.5)))
  {
  }

  /** The two price validators agree with the odds validator on every input. */
  lemma PriceValidatorsAgree(price: Option<Num>)
    ensures IsValidPlayerPropPrice(price) == IsValidOdds(price)
    ensures IsValidYesPrice(price) == IsValidOdds(price)
  {
  }

  /** Zero is valid and renders without a sign. */
  lemma FormatZero()
    ensures FormatOdds(Some(Finite(0.0))) == "0"
  {
    ShowNumOfInt(0);
  }

  /**
   Rendering valid whole odds and reading them back with `parseInt` gives the
   odds again; the `+` prefix of positive odds is read as a sign.
   */
  lemma {:induction false} FormatOddsParses(n: int)
    requires -10000 <= n <= 10000
    ensures ParseInt(FormatOdds(Some(Finite(n as real)))) == Finite(n as real)
  {
    ShowNumOfInt(n);
    if n > 0 {
      assert FormatOdds(Some(Finite(n as real))) == "+" + ShowNat(n);
      ParseSignedShowNat(n, "+");
    } else {
      ParseShowInt(n);
    }
  }
}
