/**
 The rows the application reads and writes: legs, weeks and profiles with their
 status enumerations, and the two tables it changes as maps from row id to row.
 A write is a function from the table to a new table or to the error the
 database reports.

 Values travel to the database as JSON, where a non-finite number becomes
 `null`; `null` in a NOT NULL column is refused, in a nullable one it is stored
 as null. `legs.week_id` is a foreign key into `weeks`.
 */
module Records {
  import opened Wrappers
  import opened JsNum

  type Id = string

  /** An instant, in milliseconds since the epoch. */
  type Time = int

  datatype LegStatus = PENDING | OK | DUPLICATE | CONFLICT | REJECTED

  datatype WeekStatus = OPEN | LOCKED | FINALIZED

  datatype Role = MEMBER | COMMISSIONER

  const AllLegStatuses: set<LegStatus> := {PENDING, OK, DUPLICATE, CONFLICT, REJECTED}

  datatype Leg = Leg(
    id: Id,
    userId: Id,
    weekId: Id,
    sportKey: string,
    league: string,
    gameId: Option<string>,
    gameDesc: string,
    marketKey: string,
    selection: string,
    line: Option<real>,
    americanOdds: real,
    decimalOdds: real,
    source: string,
    bookmaker: string,
    notes: Option<string>,
    status: LegStatus,
    playerName: Option<string>,
    propType: Option<string>,
    propCategory: Option<string>,
    createdAt: Time,
    updatedAt: Time)

  datatype Week = Week(
    id: Id,
    seasonId: Id,
    weekNumber: int,
    status: WeekStatus,
    opensAt: Time,
    locksAt: Time,
    finalizedAt: Option<Time>,
    stakeAmount: int,
    createdAt: Time,
    updatedAt: Time)

  datatype Profile = Profile(
    id: Id,
    userId: Id,
    name: string,
    email: string,
    teamName: Option<string>,
    role: Role,
    createdAt: Time,
    updatedAt: Time)

  type Legs = map<Id, Leg>

  type Weeks = map<Id, Week>

  datatype DbError =
    | NotNullViolation(column: string)
    | ForeignKeyViolation(column: string)
    | DuplicateKey

  /** How a number reaches the database: `JSON.stringify` sends NaN and the infinities as `null`. */
  function JsonNumber(n: Num): (r: Option<real>)
    ensures r.Some? <==> n.Finite?
    ensures r.Some? ==> r.value == n.v
  {
    if n.Finite? then Some(n.v) else None
  }

  /** A nullable number column: absent and non-finite values are both stored as null. */
  function JsonNullableNumber(n: Option<Num>): (r: Option<real>)
    ensures r.Some? <==> n.Some? && n.value.Finite?
    ensures r.Some? ==> r.value == n.value.v
  {
    if n.Some? then JsonNumber(n.value) else None
  }

  /** `s || null` for a text column: the empty string is stored as null. */
  function OrNull(s: string): (r: Option<string>)
    ensures r.None? <==> s == ""
    ensures r.Some? ==> r.value == s
  {
    if s == "" then None else Some(s)
  }

  /** `s || ''` when a nullable text column is loaded into a form field. */
  function OrEmpty(s: Option<string>): (r: string)
    ensures s.Some? ==> r == s.value
    ensures s.None? ==> r == ""
  {
    s.GetOr("")
  }

  /** Loading a nullable text into a field and saving it back keeps it, except that an empty text becomes null. */
  lemma OrNullOrEmpty(s: Option<string>)
    ensures OrNull(OrEmpty(s)) == (if s == Some("") then None else s)
  {
  }

  /** The object handed to `insert` on the legs table; the database adds the id and timestamps. */
  datatype LegDraft = LegDraft(
    userId: Id,
    weekId: Id,
    sportKey: string,
    league: string,
    gameId: Option<string>,
    gameDesc: string,
    marketKey: string,
    selection: string,
    line: Option<Num>,
    americanOdds: Num,
    decimalOdds: Num,
    source: string,
    bookmaker: string,
    notes: Option<string>,
    status: LegStatus,
    playerName: Option<string>,
    propType: Option<string>,
    propCategory: Option<string>)

  /** The draft as a stored row: every column carries the draft's value. */
  ghost predicate StoredAs(leg: Leg, id: Id, d: LegDraft, now: Time) {
    && leg.id == id && leg.userId == d.userId && leg.weekId == d.weekId
    && leg.sportKey == d.sportKey && leg.league == d.league && leg.gameId == d.gameId
    && leg.gameDesc == d.gameDesc && leg.marketKey == d.marketKey && leg.selection == d.selection
    && leg.line == JsonNullableNumber(d.line)
    && Some(leg.americanOdds) == JsonNumber(d.americanOdds)
    && Some(leg.decimalOdds) == JsonNumber(d.decimalOdds)
    && leg.source == d.source && leg.bookmaker == d.bookmaker && leg.notes == d.notes
    && leg.status == d.status && leg.playerName == d.playerName && leg.propType == d.propType
    && leg.propCategory == d.propCategory && leg.createdAt == now && leg.updatedAt == now
  }

  /**
   Inserting a draft under a fresh id. The insert is refused when the id is taken,
   when a NOT NULL odds column would receive null, or when the week does not exist.
   */
  function InsertLeg(legs: Legs, weeks: Weeks, id: Id, d: LegDraft, now: Time): (r: Result<Legs, DbError>)
    ensures r.Success? <==>
      id !in legs && d.americanOdds.Finite? && d.decimalOdds.Finite? && d.weekId in weeks
    ensures r.Success? ==> r.value.Keys == legs.Keys + {id} && StoredAs(r.value[id], id, d, now)
    ensures r.Success? ==> forall k :: k in legs ==> r.value[k] == legs[k]
  {
    if id in legs then Failure(DuplicateKey)
    else if !d.americanOdds.Finite? then Failure(NotNullViolation("american_odds"))
    else if !d.decimalOdds.Finite? then Failure(NotNullViolation("decimal_odds"))
    else if d.weekId !in weeks then Failure(ForeignKeyViolation("week_id"))
    else
      var leg := Leg(id, d.userId, d.weekId, d.sportKey, d.league, d.gameId, d.gameDesc,
        d.marketKey, d.selection, JsonNullableNumber(d.line), d.americanOdds.v, d.decimalOdds.v,
        d.source, d.bookmaker, d.notes, d.status, d.playerName, d.propType, d.propCategory, now, now);
      Success(legs[id := leg])
  }

  /**
   The object handed to `update` on the legs table: `None` leaves a column as it
   is, `Some(v)` writes `v` (for a nullable column `v` may itself be null).
   */
  datatype LegPatch = LegPatch(
    gameDesc: Option<string>,
    selection: Option<string>,
    americanOdds: Option<Num>,
    decimalOdds: Option<Num>,
    bookmaker: Option<string>,
    marketKey: Option<string>,
    playerName: Option<Option<string>>,
    line: Option<Option<Num>>,
    propCategory: Option<Option<string>>,
    status: Option<LegStatus>,
    notes: Option<Option<string>>,
    updatedAt: Option<Time>)

  const EmptyLegPatch := LegPatch(None, None, None, None, None, None, None, None, None, None, None, None)

  /** A patch that would put null into a NOT NULL column. */
  predicate WritesNullOdds(p: LegPatch) {
    (p.americanOdds.Some? && !p.americanOdds.value.Finite?)
    || (p.decimalOdds.Some? && !p.decimalOdds.value.Finite?)
  }

  function ApplyLegPatch(leg: Leg, p: LegPatch): (r: Leg)
    requires !WritesNullOdds(p)
    ensures r.id == leg.id && r.userId == leg.userId && r.weekId == leg.weekId
    ensures r.sportKey == leg.sportKey && r.league == leg.league && r.gameId == leg.gameId
    ensures r.source == leg.source && r.propType == leg.propType && r.createdAt == leg.createdAt
    ensures p == EmptyLegPatch ==> r == leg
  {
    leg.(
      gameDesc := p.gameDesc.GetOr(leg.gameDesc),
      selection := p.selection.GetOr(leg.selection),
      americanOdds := if p.americanOdds.Some? then p.americanOdds.value.v else leg.americanOdds,
      decimalOdds := if p.decimalOdds.Some? then p.decimalOdds.value.v else leg.decimalOdds,
      bookmaker := p.bookmaker.GetOr(leg.bookmaker),
      marketKey := p.marketKey.GetOr(leg.marketKey),
      playerName := p.playerName.GetOr(leg.playerName),
      line := if p.line.Some? then JsonNullableNumber(p.line.value) else leg.line,
      propCategory := p.propCategory.GetOr(leg.propCategory),
      status := p.status.GetOr(leg.status),
      notes := p.notes.GetOr(leg.notes),
      updatedAt := p.updatedAt.GetOr(leg.updatedAt))
  }

  /**
   `update(patch).eq('id', id)` on the legs table. No row matching the id is not
   an error: nothing changes. Otherwise only that row changes.
   */
  function UpdateLeg(legs: Legs, id: Id, p: LegPatch): (r: Result<Legs, DbError>)
    ensures r.Failure? <==> id in legs && WritesNullOdds(p)
    ensures id !in legs ==> r == Success(legs)
    ensures r.Success? ==> r.value.Keys == legs.Keys
    ensures r.Success? ==> forall k :: k in legs && k != id ==> r.value[k] == legs[k]
    ensures r.Success? && id in legs ==> r.value[id] == ApplyLegPatch(legs[id], p)
  {
    if id !in legs then Success(legs)
    else if p.americanOdds.Some? && !p.americanOdds.value.Finite? then Failure(NotNullViolation("american_odds"))
    else if p.decimalOdds.Some? && !p.decimalOdds.value.Finite? then Failure(NotNullViolation("decimal_odds"))
    else Success(legs[id := ApplyLegPatch(legs[id], p)])
  }

  /** The object handed to `update` on the weeks table. */
  datatype WeekPatch = WeekPatch(
    status: Option<WeekStatus>,
    finalizedAt: Option<Option<Time>>,
    locksAt: Option<Time>)

  function ApplyWeekPatch(w: Week, p: WeekPatch): (r: Week)
    ensures r.id == w.id && r.seasonId == w.seasonId && r.weekNumber == w.weekNumber
    ensures r.opensAt == w.opensAt && r.stakeAmount == w.stakeAmount
    ensures r.createdAt == w.createdAt && r.updatedAt == w.updatedAt
  {
    w.(
      status := p.status.GetOr(w.status),
      finalizedAt := p.finalizedAt.GetOr(w.finalizedAt),
      locksAt := p.locksAt.GetOr(w.locksAt))
  }

  /** `update(patch).eq('id', id)` on the weeks table; only the matching row changes. */
  function UpdateWeek(weeks: Weeks, id: Id, p: WeekPatch): (r: Weeks)
    ensures r.Keys == weeks.Keys
    ensures forall k :: k in weeks && k != id ==> r[k] == weeks[k]
    ensures id in weeks ==> r[id] == ApplyWeekPatch(weeks[id], p)
  {
    if id in weeks then weeks[id := ApplyWeekPatch(weeks[id], p)] else weeks
  }

  /** A row that does not exist cannot be referenced by a new leg. */
  lemma InsertNeedsWeek(legs: Legs, weeks: Weeks, id: Id, d: LegDraft, now: Time)
    requires d.weekId !in weeks
    ensures InsertLeg(legs, weeks, id, d, now).Failure?
  {
  }
}
