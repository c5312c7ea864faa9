/**
 The older manual leg dialog: odds typed as text are converted inline, and the
 leg is inserted under a week id generated on the spot.
 */
module CreateLeg {
  import opened Wrappers
  import opened Text
  import opened JsNum
  import opened Parlay
  import opened Records

  datatype CreateForm = CreateForm(
    sport: string,
    league: string,
    gameDate: string,
    teamA: string,
    teamB: string,
    betType: string,
    selection: string,
    odds: string,
    stake: string)

  /**
   The dialog's inline conversion, evaluated with the runtime's arithmetic:
   `a > 0 ? a / 100 + 1 : 100 / Math.abs(a) + 1`.
   */
  function InlineDecimal(a: Num): (d: Num)
    ensures a.Finite? && a.v != 0.0 ==> d == Finite(AmericanToDecimal(a.v))
  {
    if NumGt(a, Finite(0.0)) then NumAdd(NumDiv(a, Finite(100.0)), Finite(1.0))
    else NumAdd(NumDiv(Finite(100.0), NumAbs(a)), Finite(1.0))
  }

  /** The inline conversion and `americanToDecimal` agree on every number, including 0, NaN and the infinities. */
  lemma InlineIsAmericanToDecimal(a: Num)
    ensures InlineDecimal(a) == AmericanToDecimalJs(a)
  {
  }

  /** The insert the dialog builds for a signed-in user. */
  function CreateDraft(f: CreateForm, userId: Id, weekId: Id): (d: LegDraft)
    ensures d.userId == userId && d.weekId == weekId
    ensures d.gameDesc == f.teamA + " vs " + f.teamB
    ensures d.sportKey == LowerStr(f.sport) && d.marketKey == f.betType && d.selection == f.selection
    ensures d.status == PENDING && d.source == "manual" && d.bookmaker == "Manual Entry"
    ensures d.americanOdds == ParseInt(f.odds) && d.decimalOdds == AmericanToDecimalJs(ParseInt(f.odds))
    ensures d.line.None? && d.notes.None? && d.playerName.None? && d.gameId.None?
  {
    var odds := ParseInt(f.odds);
    InlineIsAmericanToDecimal(odds);
    LegDraft(userId, weekId, LowerStr(f.sport), f.league, None, f.teamA + " vs " + f.teamB,
      f.betType, f.selection, None, odds, InlineDecimal(odds), "manual", "Manual Entry",
      None, PENDING, None, None, None)
  }

  datatype CreateOutcome =
    | SignedOut
    | InsertFailed(error: DbError)
    | Created(legs: Legs)

  /**
   `handleSubmit`: refused without a user; otherwise the draft is inserted.
   `weekId` is the freshly generated identifier and `newId` the id the database assigns.
   */
  function Submit(user: Option<Id>, f: CreateForm, legs: Legs, weeks: Weeks, weekId: Id, newId: Id, now: Time): (r: CreateOutcome)
    ensures user.None? ==> r == SignedOut
    ensures r.Created? <==>
      user.Some? && newId !in legs && weekId in weeks && ParseInt(f.odds).Finite? && ParseInt(f.odds).v != 0.0
    ensures r.Created? ==>
      (r.legs.Keys == legs.Keys + {newId} && forall k :: k in legs ==> r.legs[k] == legs[k])
    ensures r.Created? ==>
      var leg := r.legs[newId];
      && leg.americanOdds == ParseInt(f.odds).v && leg.americanOdds != 0.0
      && leg.userId == user.value && leg.status == PENDING && leg.source == "manual"
      && leg.bookmaker == "Manual Entry" && leg.gameDesc == f.teamA + " vs " + f.teamB
      && leg.decimalOdds == AmericanToDecimal(leg.americanOdds)
  {
    if user.None? then SignedOut
    else
      var d := CreateDraft(f, user.value, weekId);
      assert d.americanOdds.Finite? && d.decimalOdds.Finite? <==>
        ParseInt(f.odds).Finite? && ParseInt(f.odds).v != 0.0;
      match InsertLeg(legs, weeks, newId, d, now)
      case Failure(e) => InsertFailed(e)
      case Success(legs') => Created(legs')
  }

  /** Odds text that `parseInt` cannot read reaches the database as null and is refused. */
  lemma UnreadableOddsRefused(user: Id, f: CreateForm, legs: Legs, weeks: Weeks, weekId: Id, newId: Id, now: Time)
    requires newId !in legs && ParseInt(f.odds).NaN?
    ensures Submit(Some(user), f, legs, weeks, weekId, newId, now) == InsertFailed(NotNullViolation("american_odds"))
  {
  }

  /** A generated week id names no existing week, so the insert is refused by the week foreign key. */
  lemma GeneratedWeekIdRefused(user: Id, f: CreateForm, legs: Legs, weeks: Weeks, weekId: Id, newId: Id, now: Time)
    requires weekId !in weeks
    ensures !Submit(Some(user), f, legs, weeks, weekId, newId, now).Created?
  {
  }
}
