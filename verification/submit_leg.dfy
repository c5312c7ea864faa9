/**
 The manual leg form: its validation, the note sanitiser and the leg it inserts
 for the signed-in user in the current week.
 */
module SubmitLeg {
  import opened Wrappers
  import opened Text
  import opened JsNum
  import opened Parlay
  import opened OddsValidation
  import opened Records

  datatype OddsSource = Api | Manual

  function SourceName(s: OddsSource): string {
    match s
    case Api => "api"
    case Manual => "manual"
  }

  /** The form's fields, as typed. The source starts as `Manual`. */
  datatype Form = Form(
    gameDesc: string,
    marketKey: string,
    selection: string,
    line: string,
    americanOdds: string,
    notes: string,
    source: OddsSource)

  datatype FormError = MissingField | InvalidOdds | NotesTooLong

  const MaxNotesLength: nat := 500

  /** The odds as the form reads them: `parseInt` must give a number in range other than 0. */
  predicate AcceptedOdds(odds: Num) {
    odds.Finite? && -10000.0 <= odds.v <= 10000.0 && odds.v != 0.0
  }

  /**
   `validateForm`: required fields first (descriptions and selection must not be
   blank), then the odds, then the length of the raw notes.
   */
  function ValidateForm(f: Form): (r: Option<FormError>)
    ensures r.None? ==> Trim(f.gameDesc) != "" && Trim(f.selection) != "" && f.marketKey != ""
    ensures r.None? ==> AcceptedOdds(ParseInt(f.americanOdds)) && |f.notes| <= MaxNotesLength
    ensures r == Some(MissingField) <==>
      IsBlank(f.gameDesc) || f.marketKey == "" || IsBlank(f.selection) || f.americanOdds == ""
    ensures r == Some(InvalidOdds) ==> !AcceptedOdds(ParseInt(f.americanOdds))
    ensures r == Some(NotesTooLong) ==> |f.notes| > MaxNotesLength
  {
    TrimEmptyIffBlank(f.gameDesc);
    TrimEmptyIffBlank(f.selection);
    if Trim(f.gameDesc) == "" || f.marketKey == "" || Trim(f.selection) == "" || f.americanOdds == "" then
      Some(MissingField)
    else
      var odds := ParseInt(f.americanOdds);
      if odds.NaN? || odds.v < -10000.0 || odds.v > 10000.0 || odds.v == 0.0 then Some(InvalidOdds)
      else if |f.notes| > MaxNotesLength then Some(NotesTooLong)
      else None
  }

  /** A form passes exactly when every check passes; the checks' order only decides the message. */
  lemma ValidFormCharacterised(f: Form)
    ensures ValidateForm(f).None? <==>
      && !IsBlank(f.gameDesc) && f.marketKey != "" && !IsBlank(f.selection) && f.americanOdds != ""
      && AcceptedOdds(ParseInt(f.americanOdds)) && |f.notes| <= MaxNotesLength
  {
    TrimEmptyIffBlank(f.gameDesc);
    TrimEmptyIffBlank(f.selection);
  }

  /** `notes.trim().replace(/<[^>]*>/g, '') || null`. */
  function SanitizeNotes(notes: string): (r: Option<string>)
    ensures r.Some? ==> r.value != "" && TagFree(r.value) && |r.value| <= |notes|
    ensures IsBlank(notes) ==> r.None?
  {
    var t := Trim(notes);
    StripTagsTagFree(t);
    TrimEmptyIffBlank(notes);
    OrNull(StripTags(t))
  }

  /** Notes without any `<` are only trimmed, and kept when something is left. */
  lemma PlainNotesOnlyTrimmed(notes: string)
    requires '<' !in notes && !IsBlank(notes)
    ensures SanitizeNotes(notes) == Some(Trim(notes))
  {
    var t := Trim(notes);
    TrimEmptyIffBlank(notes);
    assert '<' !in t by {
      var i :| OccursAt(notes, t, i);
      forall j | 0 <= j < |t|
        ensures t[j] != '<'
      {
        assert t[j] == notes[i + j];
      }
    }
    StripTagsKeepsPlainText(t);
  }

  /** Sanitised notes pass through the sanitiser again unchanged when they have no surrounding white space. */
  lemma SanitizeStable(notes: string)
    requires SanitizeNotes(notes).Some?
    requires Trim(SanitizeNotes(notes).value) == SanitizeNotes(notes).value
    ensures SanitizeNotes(SanitizeNotes(notes).value) == SanitizeNotes(notes)
  {
    var s := SanitizeNotes(notes).value;
    StripTagsTagFree(Trim(notes));
    StripTagsFixesTagFree(s);
  }

  /** The insert built from a validated form. `parseFloat` stands for the runtime's number parser. */
  function FormDraft(f: Form, userId: Id, weekId: Id, parseFloat: string -> Num): (d: LegDraft)
    requires ValidateForm(f).None?
    ensures d.americanOdds == ParseInt(f.americanOdds)
    ensures d.decimalOdds == Finite(AmericanToDecimal(ParseInt(f.americanOdds).v))
    ensures d.gameDesc == Trim(f.gameDesc) && d.selection == Trim(f.selection)
    ensures d.notes == SanitizeNotes(f.notes)
    ensures d.line.None? <==> f.line == ""
  {
    var odds := ParseInt(f.americanOdds);
    LegDraft(userId, weekId, "americanfootball_nfl", "NFL", None, Trim(f.gameDesc), f.marketKey,
      Trim(f.selection), if f.line != "" then Some(parseFloat(f.line)) else None,
      odds, Finite(AmericanToDecimal(odds.v)), SourceName(f.source), "draftkings",
      SanitizeNotes(f.notes), PENDING, None, None, None)
  }

  datatype SubmitOutcome =
    | Invalid(error: FormError)
    | SignedOut
    | InsertFailed(dbError: DbError)
    | Submitted(legs: Legs)

  /**
   `handleSubmit`: the form is validated before the user is checked; then the
   leg is inserted under the id the database assigns.
   */
  function Submit(f: Form, user: Option<Id>, weekId: Id, legs: Legs, weeks: Weeks, newId: Id,
                  now: Time, parseFloat: string -> Num): (r: SubmitOutcome)
    ensures ValidateForm(f).Some? ==> r == Invalid(ValidateForm(f).value)
    ensures ValidateForm(f).None? && user.None? ==> r == SignedOut
    ensures r.Submitted? <==> ValidateForm(f).None? && user.Some? && newId !in legs && weekId in weeks
    ensures r.InsertFailed? ==> r.dbError != NotNullViolation("american_odds") && r.dbError != NotNullViolation("decimal_odds")
    ensures r.Submitted? ==>
      (r.legs.Keys == legs.Keys + {newId} && forall k :: k in legs ==> r.legs[k] == legs[k])
    ensures r.Submitted? ==>
      var leg := r.legs[newId];
      && leg.userId == user.value && leg.weekId == weekId && leg.status == PENDING
      && leg.americanOdds != 0.0 && -10000.0 <= leg.americanOdds <= 10000.0
      && leg.decimalOdds == AmericanToDecimal(leg.americanOdds)
      && (leg.notes.Some? ==> TagFree(leg.notes.value) && |leg.notes.value| <= MaxNotesLength)
  {
    match ValidateForm(f)
    case Some(e) => Invalid(e)
    case None =>
      if user.None? then SignedOut
      else
        match InsertLeg(legs, weeks, newId, FormDraft(f, user.value, weekId, parseFloat), now)
        case Failure(e) => InsertFailed(e)
        case Success(legs') => Submitted(legs')
  }

  /** Odds rendered by `formatOdds` are read back by the form's validator, except 0. */
  lemma FormattedOddsAccepted(n: int)
    requires -10000 <= n <= 10000 && n != 0
    ensures AcceptedOdds(ParseInt(FormatOdds(Some(Finite(n as real)))))
  {
    FormatOddsParses(n);
  }

  /**
   Whole-number parsing drops a fraction instead of refusing it: "-110.5" is
   read as -110.
   */
  lemma FractionDropped(n: int, fraction: string)
    ensures ParseInt(ShowInt(n) + "." + fraction) == Finite(n as real)
  {
    var m: nat := if n < 0 then -n else n;
    var sign := if n < 0 then "-" else "";
    var tail := "." + fraction;
    assert ShowInt(n) == sign + ShowNat(m);
    assert ShowInt(n) + "." + fraction == sign + ShowNat(m) + tail;
    ParseIntIgnoresTail(m, sign, tail);
  }

  /** A form whose odds carry a fraction passes validation when the whole part is acceptable. */
  lemma FractionalOddsAccepted(f: Form, n: int, fraction: string)
    requires !IsBlank(f.gameDesc) && f.marketKey != "" && !IsBlank(f.selection) && |f.notes| <= MaxNotesLength
    requires -10000 <= n <= 10000 && n != 0
    requires f.americanOdds == ShowInt(n) + "." + fraction
    ensures ValidateForm(f).None?
  {
    FractionDropped(n, fraction);
    ValidFormCharacterised(f);
  }
}
