/**
 The odds-refresh function: for each sport it reads the bookmakers' offers for
 every event, keeps one price per selection (DraftKings preferred, otherwise
 the first bookmaker that offers it), names the league, and falls back to two
 fixed games when the feed yields nothing.
 */
module FetchOdds {
  import opened Wrappers
  import opened JsNum
  import opened Records

  datatype Outcome = Outcome(name: string, price: Num, point: Option<Num>)

  datatype Market = Market(key: string, outcomes: seq<Outcome>)

  datatype Bookmaker = Bookmaker(key: string, title: string, markets: seq<Market>)

  /** One event of the feed's response. */
  datatype OddsEvent = OddsEvent(
    id: string,
    sportKey: string,
    sportTitle: string,
    commenceTime: string,
    homeTeam: string,
    awayTeam: string,
    bookmakers: seq<Bookmaker>)

  /** The six selections a game row carries. */
  datatype Slot = MoneylineHome | MoneylineAway | SpreadHome | SpreadAway | TotalOver | TotalUnder

  /**
   The chosen outcome per selection; `None` is the initial `null`. A spread or
   total side keeps the whole outcome, so its line and its price are read from
   the same one.
   */
  datatype BestOdds = BestOdds(
    moneylineHome: Option<Outcome>,
    moneylineAway: Option<Outcome>,
    spreadHome: Option<Outcome>,
    spreadAway: Option<Outcome>,
    totalOver: Option<Outcome>,
    totalUnder: Option<Outcome>)

  const NoOdds := BestOdds(None, None, None, None, None, None)

  function Get(b: BestOdds, s: Slot): Option<Outcome> {
    match s
    case MoneylineHome => b.moneylineHome
    case MoneylineAway => b.moneylineAway
    case SpreadHome => b.spreadHome
    case SpreadAway => b.spreadAway
    case TotalOver => b.totalOver
    case TotalUnder => b.totalUnder
  }

  const PreferredBookmaker := "draftkings"

  /**
   One outcome of one market of one bookmaker, as `extractBestOdds` visits it.
   Within a market the home test is tried before the away test (and Over before
   Under); a side already filled is overwritten only by the preferred bookmaker.
   */
  function Step(home: string, away: string, b: BestOdds, preferred: bool, marketKey: string, o: Outcome): BestOdds {
    if marketKey == "h2h" then
      if o.name == home && (b.moneylineHome.None? || preferred) then b.(moneylineHome := Some(o))
      else if o.name == away && (b.moneylineAway.None? || preferred) then b.(moneylineAway := Some(o))
      else b
    else if marketKey == "spreads" then
      if o.name == home && (b.spreadHome.None? || preferred) then b.(spreadHome := Some(o))
      else if o.name == away && (b.spreadAway.None? || preferred) then b.(spreadAway := Some(o))
      else b
    else if marketKey == "totals" then
      if o.name == "Over" && (b.totalOver.None? || preferred) then b.(totalOver := Some(o))
      else if o.name == "Under" && (b.totalUnder.None? || preferred) then b.(totalUnder := Some(o))
      else b
    else b
  }

  function ScanOutcomes(home: string, away: string, preferred: bool, marketKey: string, os: seq<Outcome>, b: BestOdds): BestOdds
    decreases |os|
  {
    if os == [] then b
    else ScanOutcomes(home, away, preferred, marketKey, os[1..], Step(home, away, b, preferred, marketKey, os[0]))
  }

  function ScanMarkets(home: string, away: string, preferred: bool, ms: seq<Market>, b: BestOdds): BestOdds
    decreases |ms|
  {
    if ms == [] then b
    else ScanMarkets(home, away, preferred, ms[1..], ScanOutcomes(home, away, preferred, ms[0].key, ms[0].outcomes, b))
  }

  function ScanBookmakers(home: string, away: string, bs: seq<Bookmaker>, b: BestOdds): BestOdds
    decreases |bs|
  {
    if bs == [] then b
    else ScanBookmakers(home, away, bs[1..], ScanMarkets(home, away, bs[0].key == PreferredBookmaker, bs[0].markets, b))
  }

  /** `extractBestOdds`. */
  function ExtractBestOdds(e: OddsEvent): BestOdds {
    ScanBookmakers(e.homeTeam, e.awayTeam, e.bookmakers, NoOdds)
  }

  // ---------------------------------------------------------------------------
  // The same fold over a flat list of offers
  // ---------------------------------------------------------------------------

  datatype Offer = Offer(preferred: bool, marketKey: string, outcome: Outcome)

  function OutcomeOffers(preferred: bool, marketKey: string, os: seq<Outcome>): (r: seq<Offer>)
    ensures |r| == |os|
    ensures forall j :: 0 <= j < |os| ==> r[j] == Offer(preferred, marketKey, os[j])
  {
    if os == [] then [] else [Offer(preferred, marketKey, os[0])] + OutcomeOffers(preferred, marketKey, os[1..])
  }

  function MarketOffers(preferred: bool, ms: seq<Market>): seq<Offer> {
    if ms == [] then [] else OutcomeOffers(preferred, ms[0].key, ms[0].outcomes) + MarketOffers(preferred, ms[1..])
  }

  /** Every outcome of every market of every bookmaker, in visiting order. */
  function Offers(bs: seq<Bookmaker>): seq<Offer> {
    if bs == [] then [] else MarketOffers(bs[0].key == PreferredBookmaker, bs[0].markets) + Offers(bs[1..])
  }

  function FoldOffers(home: string, away: string, offers: seq<Offer>, b: BestOdds): BestOdds
    decreases |offers|
  {
    if offers == [] then b
    else
      var x := offers[0];
      FoldOffers(home, away, offers[1..], Step(home, away, b, x.preferred, x.marketKey, x.outcome))
  }

  lemma {:induction false} FoldOffersConcat(home: string, away: string, p: seq<Offer>, q: seq<Offer>, b: BestOdds)
    ensures FoldOffers(home, away, p + q, b) == FoldOffers(home, away, q, FoldOffers(home, away, p, b))
    decreases |p|
  {
    if p != [] {
      var x := p[0];
      var b' := Step(home, away, b, x.preferred, x.marketKey, x.outcome);
      assert (p + q)[1..] == p[1..] + q;
      assert (p + q)[0] == x;
      assert FoldOffers(home, away, p + q, b) == FoldOffers(home, away, p[1..] + q, b');
      assert FoldOffers(home, away, p, b) == FoldOffers(home, away, p[1..], b');
      FoldOffersConcat(home, away, p[1..], q, b');
    } else {
      assert p + q == q;
    }
  }

  lemma {:induction false} ScanOutcomesIsFold(home: string, away: string, preferred: bool, key: string, os: seq<Outcome>, b: BestOdds)
    ensures ScanOutcomes(home, away, preferred, key, os, b) == FoldOffers(home, away, OutcomeOffers(preferred, key, os), b)
    decreases |os|
  {
    if os != [] {
      var offers := OutcomeOffers(preferred, key, os);
      assert offers[1..] == OutcomeOffers(preferred, key, os[1..]);
      ScanOutcomesIsFold(home, away, preferred, key, os[1..], Step(home, away, b, preferred, key, os[0]));
    }
  }

  lemma {:induction false} ScanMarketsIsFold(home: string, away: string, preferred: bool, ms: seq<Market>, b: BestOdds)
    ensures ScanMarkets(home, away, preferred, ms, b) == FoldOffers(home, away, MarketOffers(preferred, ms), b)
    decreases |ms|
  {
    if ms != [] {
      var first := OutcomeOffers(preferred, ms[0].key, ms[0].outcomes);
      ScanOutcomesIsFold(home, away, preferred, ms[0].key, ms[0].outcomes, b);
      FoldOffersConcat(home, away, first, MarketOffers(preferred, ms[1..]), b);
      ScanMarketsIsFold(home, away, preferred, ms[1..], FoldOffers(home, away, first, b));
    }
  }

  /** The nested loops of `extractBestOdds` visit exactly the flat list of offers, in order. */
  lemma {:induction false} ScanBookmakersIsFold(home: string, away: string, bs: seq<Bookmaker>, b: BestOdds)
    ensures ScanBookmakers(home, away, bs, b) == FoldOffers(home, away, Offers(bs), b)
    decreases |bs|
  {
    if bs != [] {
      var preferred := bs[0].key == PreferredBookmaker;
      var first := MarketOffers(preferred, bs[0].markets);
      ScanMarketsIsFold(home, away, preferred, bs[0].markets, b);
      FoldOffersConcat(home, away, first, Offers(bs[1..]), b);
      ScanBookmakersIsFold(home, away, bs[1..], FoldOffers(home, away, first, b));
    }
  }

  // ---------------------------------------------------------------------------
  // Which offer ends up in a slot
  // ---------------------------------------------------------------------------

  /** The offer is a candidate for the slot: the right market and the right outcome name. */
  predicate Hits(home: string, away: string, x: Offer, s: Slot) {
    match s
    case MoneylineHome => x.marketKey == "h2h" && x.outcome.name == home
    case MoneylineAway => x.marketKey == "h2h" && x.outcome.name == away
    case SpreadHome => x.marketKey == "spreads" && x.outcome.name == home
    case SpreadAway => x.marketKey == "spreads" && x.outcome.name == away
    case TotalOver => x.marketKey == "totals" && x.outcome.name == "Over"
    case TotalUnder => x.marketKey == "totals" && x.outcome.name == "Under"
  }

  predicate NoHits(home: string, away: string, offers: seq<Offer>, s: Slot) {
    forall j :: 0 <= j < |offers| ==> !Hits(home, away, offers[j], s)
  }

  predicate NoPreferredHits(home: string, away: string, offers: seq<Offer>, s: Slot) {
    forall j :: 0 <= j < |offers| ==> !(Hits(home, away, offers[j], s) && offers[j].preferred)
  }

  /** Offer `j` is the last preferred candidate for the slot. */
  predicate IsLastPreferredHit(home: string, away: string, offers: seq<Offer>, j: int, s: Slot) {
    && 0 <= j < |offers| && Hits(home, away, offers[j], s) && offers[j].preferred
    && NoPreferredHits(home, away, offers[j + 1..], s)
  }

  /** Offer `j` is the first candidate for the slot. */
  predicate IsFirstHit(home: string, away: string, offers: seq<Offer>, j: int, s: Slot) {
    0 <= j < |offers| && Hits(home, away, offers[j], s) && NoHits(home, away, offers[..j], s)
  }

  /**
   With distinct team names one offer touches at most one slot: the slot it is a
   candidate for, and only when that slot is empty or the offer is preferred.
   */
  lemma StepSlot(home: string, away: string, b: BestOdds, x: Offer, s: Slot)
    requires home != away
    ensures Get(Step(home, away, b, x.preferred, x.marketKey, x.outcome), s) ==
      if Hits(home, away, x, s) && (Get(b, s).None? || x.preferred) then Some(x.outcome) else Get(b, s)
  {
  }

  /** An offer list without candidates leaves the slot alone. */
  lemma {:induction false} FoldNoHits(home: string, away: string, offers: seq<Offer>, b: BestOdds, s: Slot)
    requires home != away && NoHits(home, away, offers, s)
    ensures Get(FoldOffers(home, away, offers, b), s) == Get(b, s)
    decreases |offers|
  {
    if offers != [] {
      var x := offers[0];
      StepSlot(home, away, b, x, s);
      FoldNoHits(home, away, offers[1..], Step(home, away, b, x.preferred, x.marketKey, x.outcome), s);
    }
  }

  /** Without preferred candidates a filled slot stays as it is. */
  lemma {:induction false} FoldKeepsFilled(home: string, away: string, offers: seq<Offer>, b: BestOdds, s: Slot)
    requires home != away && NoPreferredHits(home, away, offers, s) && Get(b, s).Some?
    ensures Get(FoldOffers(home, away, offers, b), s) == Get(b, s)
    decreases |offers|
  {
    if offers != [] {
      var x := offers[0];
      StepSlot(home, away, b, x, s);
      FoldKeepsFilled(home, away, offers[1..], Step(home, away, b, x.preferred, x.marketKey, x.outcome), s);
    }
  }

  /** A filled slot is never emptied, and a candidate always fills an empty slot. */
  lemma {:induction false} FoldFills(home: string, away: string, offers: seq<Offer>, b: BestOdds, s: Slot)
    requires home != away
    requires Get(b, s).Some? || !NoHits(home, away, offers, s)
    ensures Get(FoldOffers(home, away, offers, b), s).Some?
    decreases |offers|
  {
    if offers != [] {
      var x, rest := offers[0], offers[1..];
      var b' := Step(home, away, b, x.preferred, x.marketKey, x.outcome);
      StepSlot(home, away, b, x, s);
      if Get(b', s).None? {
        var j :| 0 <= j < |offers| && Hits(home, away, offers[j], s);
        assert j > 0 && Hits(home, away, rest[j - 1], s);
      }
      FoldFills(home, away, rest, b', s);
    }
  }

  /** The last preferred candidate is what the slot ends up holding. */
  lemma {:induction false} FoldLastPreferred(home: string, away: string, offers: seq<Offer>, b: BestOdds, s: Slot, j: int)
    requires home != away && IsLastPreferredHit(home, away, offers, j, s)
    ensures Get(FoldOffers(home, away, offers, b), s) == Some(offers[j].outcome)
    decreases |offers|
  {
    var x, rest := offers[0], offers[1..];
    var b' := Step(home, away, b, x.preferred, x.marketKey, x.outcome);
    StepSlot(home, away, b, x, s);
    if j == 0 {
      assert rest == offers[j + 1..];
      FoldKeepsFilled(home, away, rest, b', s);
    } else {
      assert offers[j + 1..] == rest[j..];
      assert IsLastPreferredHit(home, away, rest, j - 1, s);
      FoldLastPreferred(home, away, rest, b', s, j - 1);
    }
  }

  /** Without preferred candidates, an empty slot ends up holding the first candidate. */
  lemma {:induction false} FoldFirstHit(home: string, away: string, offers: seq<Offer>, b: BestOdds, s: Slot, j: int)
    requires home != away && NoPreferredHits(home, away, offers, s) && Get(b, s).None?
    requires IsFirstHit(home, away, offers, j, s)
    ensures Get(FoldOffers(home, away, offers, b), s) == Some(offers[j].outcome)
    decreases |offers|
  {
    var x, rest := offers[0], offers[1..];
    var b' := Step(home, away, b, x.preferred, x.marketKey, x.outcome);
    StepSlot(home, away, b, x, s);
    assert NoPreferredHits(home, away, rest, s) by {
      assert forall k :: 0 <= k < |rest| ==> rest[k] == offers[k + 1];
    }
    if j == 0 {
      FoldKeepsFilled(home, away, rest, b', s);
    } else {
      assert offers[..j][0] == x;
      assert rest[..j - 1] == offers[1..j];
      assert IsFirstHit(home, away, rest, j - 1, s);
      FoldFirstHit(home, away, rest, b', s, j - 1);
    }
  }

  /**
   The rule of `extractBestOdds`, for teams with different names: a selection
   stays null exactly when no bookmaker offers it; when DraftKings offers it the
   last DraftKings price wins; otherwise the first bookmaker to offer it wins.
   */
  lemma ExtractBestOddsRule(e: OddsEvent, s: Slot)
    requires e.homeTeam != e.awayTeam
    ensures var r := Get(ExtractBestOdds(e), s); var offers := Offers(e.bookmakers);
      && (r.None? <==> NoHits(e.homeTeam, e.awayTeam, offers, s))
      && (forall j :: IsLastPreferredHit(e.homeTeam, e.awayTeam, offers, j, s) ==> r == Some(offers[j].outcome))
      && (NoPreferredHits(e.homeTeam, e.awayTeam, offers, s) ==>
            forall j :: IsFirstHit(e.homeTeam, e.awayTeam, offers, j, s) ==> r == Some(offers[j].outcome))
  {
    var home, away, offers := e.homeTeam, e.awayTeam, Offers(e.bookmakers);
    ScanBookmakersIsFold(home, away, e.bookmakers, NoOdds);
    if NoHits(home, away, offers, s) {
      FoldNoHits(home, away, offers, NoOdds, s);
    } else {
      FoldFills(home, away, offers, NoOdds, s);
    }
    forall j | IsLastPreferredHit(home, away, offers, j, s)
      ensures Get(ExtractBestOdds(e), s) == Some(offers[j].outcome)
    {
      FoldLastPreferred(home, away, offers, NoOdds, s, j);
    }
    if NoPreferredHits(home, away, offers, s) {
      forall j | IsFirstHit(home, away, offers, j, s)
        ensures Get(ExtractBestOdds(e), s) == Some(offers[j].outcome)
      {
        FoldFirstHit(home, away, offers, NoOdds, s, j);
      }
    }
  }

  /** Offers from other markets, or naming neither team nor Over/Under, change nothing. */
  lemma IrrelevantOfferIgnored(home: string, away: string, b: BestOdds, x: Offer)
    requires forall s: Slot :: !Hits(home, away, x, s)
    ensures Step(home, away, b, x.preferred, x.marketKey, x.outcome) == b
  {
    assert !Hits(home, away, x, MoneylineHome) && !Hits(home, away, x, MoneylineAway);
    assert !Hits(home, away, x, SpreadHome) && !Hits(home, away, x, SpreadAway);
    assert !Hits(home, away, x, TotalOver) && !Hits(home, away, x, TotalUnder);
  }

  /** With distinct team names, a home-team outcome never fills an away side. */
  lemma HomeNeverFillsAway(home: string, away: string, b: BestOdds, x: Offer)
    requires home != away && x.outcome.name == home
    ensures var r := Step(home, away, b, x.preferred, x.marketKey, x.outcome);
      r.moneylineAway == b.moneylineAway && r.spreadAway == b.spreadAway
  {
  }

  /**
   The emptiness test looks at the line, and an outcome without a point leaves
   the line undefined, which is not null: such a first offer still blocks a later
   bookmaker's priced line.
   */
  lemma MissingPointStillBlocks(home: string, away: string)
    requires home != away
    ensures var first := Outcome(home, Finite(-110.0), None);
      var later := Outcome(home, Finite(-105.0), Some(Finite(-3.5)));
      var e := OddsEvent("g", "americanfootball_nfl", "NFL", "t", home, away,
        [Bookmaker("fanduel", "FanDuel", [Market("spreads", [first])]),
         Bookmaker("betmgm", "BetMGM", [Market("spreads", [later])])]);
      ExtractBestOdds(e).spreadHome == Some(first)
  {
    var first := Outcome(home, Finite(-110.0), None);
    var later := Outcome(home, Finite(-105.0), Some(Finite(-3.5)));
    var m1, m2 := Market("spreads", [first]), Market("spreads", [later]);
    var b1 := ScanMarkets(home, away, false, [m1], NoOdds);
    assert ScanOutcomes(home, away, false, "spreads", [first], NoOdds) == NoOdds.(spreadHome := Some(first));
    assert [m1][1..] == [];
    var o1 := ScanOutcomes(home, away, false, "spreads", [first], NoOdds);
    assert ScanMarkets(home, away, false, [], o1) == o1;
    assert b1 == ScanMarkets(home, away, false, [], o1);
    assert b1 == NoOdds.(spreadHome := Some(first));
    assert ScanOutcomes(home, away, false, "spreads", [later], b1) == b1;
    var b2 := ScanMarkets(home, away, false, [m2], b1);
    assert [m2][1..] == [];
    assert b2 == b1;
    var bs := [Bookmaker("fanduel", "FanDuel", [m1]), Bookmaker("betmgm", "BetMGM", [m2])];
    assert ScanBookmakers(home, away, bs[1..], b1) == b2;
  }

  // ---------------------------------------------------------------------------
  // Rows for the odds cache, and the fallback
  // ---------------------------------------------------------------------------

  /** A row of `odds_cache` as written by the function. */
  datatype GameRow = GameRow(
    externalGameId: string,
    sport: string,
    league: string,
    gameDate: string,
    teamA: string,
    teamB: string,
    moneylineHome: Option<Num>,
    moneylineAway: Option<Num>,
    spreadHome: Option<Num>,
    spreadHomeOdds: Option<Num>,
    spreadAway: Option<Num>,
    spreadAwayOdds: Option<Num>,
    totalOver: Option<Num>,
    totalOverOdds: Option<Num>,
    totalUnder: Option<Num>,
    totalUnderOdds: Option<Num>,
    updatedAt: Time)

  const Sports: seq<string> := ["americanfootball_nfl", "americanfootball_nfl_preseason"]

  /** The stored league name of a sport key. */
  function LeagueName(sport: string): (r: string)
    ensures r == "AMERICANFOOTBALL NFL PRESEASON" <==> sport == "americanfootball_nfl_preseason"
    ensures r == "AMERICANFOOTBALL NFL" <==> sport != "americanfootball_nfl_preseason"
  {
    if sport == "americanfootball_nfl_preseason" then "AMERICANFOOTBALL NFL PRESEASON" else "AMERICANFOOTBALL NFL"
  }

  function Price(o: Option<Outcome>): Option<Num> {
    if o.Some? then Some(o.value.price) else None
  }

  function Point(o: Option<Outcome>): Option<Num> {
    if o.Some? then o.value.point else None
  }

  /** The row built for one event of one sport. */
  function ToRow(sport: string, e: OddsEvent, now: Time): (r: GameRow)
    ensures r.league == LeagueName(sport)
    ensures r.teamA == e.homeTeam && r.teamB == e.awayTeam && r.externalGameId == e.id
  {
    var b := ExtractBestOdds(e);
    GameRow(e.id, e.sportTitle, LeagueName(sport), e.commenceTime, e.homeTeam, e.awayTeam,
      Price(b.moneylineHome), Price(b.moneylineAway),
      Point(b.spreadHome), Price(b.spreadHome), Point(b.spreadAway), Price(b.spreadAway),
      Point(b.totalOver), Price(b.totalOver), Point(b.totalUnder), Price(b.totalUnder), now)
  }

  /**
   Each side's line and price in a row come from one and the same offered
   outcome: a price in the row means some bookmaker offered exactly that price
   with exactly that line for that side.
   */
  lemma {:induction false} RowSidesFromOneOutcome(sport: string, e: OddsEvent, now: Time)
    requires e.homeTeam != e.awayTeam
    ensures var r := ToRow(sport, e, now); var offers := Offers(e.bookmakers);
      && OfferedTogether(e.homeTeam, e.awayTeam, offers, SpreadHome, r.spreadHomeOdds, r.spreadHome)
      && OfferedTogether(e.homeTeam, e.awayTeam, offers, SpreadAway, r.spreadAwayOdds, r.spreadAway)
      && OfferedTogether(e.homeTeam, e.awayTeam, offers, TotalOver, r.totalOverOdds, r.totalOver)
      && OfferedTogether(e.homeTeam, e.awayTeam, offers, TotalUnder, r.totalUnderOdds, r.totalUnder)
  {
    ScanBookmakersIsFold(e.homeTeam, e.awayTeam, e.bookmakers, NoOdds);
    SlotFromOneOutcome(e, SpreadHome);
    SlotFromOneOutcome(e, SpreadAway);
    SlotFromOneOutcome(e, TotalOver);
    SlotFromOneOutcome(e, TotalUnder);
  }

  /** Some candidate offer for slot `s` carries exactly this price with exactly this line. */
  ghost predicate OfferedTogether(home: string, away: string, offers: seq<Offer>, s: Slot,
                                  price: Option<Num>, point: Option<Num>) {
    price.Some? ==>
      exists j :: 0 <= j < |offers| && Hits(home, away, offers[j], s)
        && offers[j].outcome.price == price.value && offers[j].outcome.point == point
  }

  /** The outcome a slot ends up with is one of that slot's candidate offers. */
  lemma SlotFromOneOutcome(e: OddsEvent, s: Slot)
    requires e.homeTeam != e.awayTeam
    ensures OfferedTogether(e.homeTeam, e.awayTeam, Offers(e.bookmakers), s,
      Price(Get(ExtractBestOdds(e), s)), Point(Get(ExtractBestOdds(e), s)))
  {
    ScanBookmakersIsFold(e.homeTeam, e.awayTeam, e.bookmakers, NoOdds);
    FoldProvenance(e.homeTeam, e.awayTeam, Offers(e.bookmakers), NoOdds, s);
  }

  /** Whatever a slot holds after the fold was already there, or is one of its candidate offers. */
  lemma {:induction false} FoldProvenance(home: string, away: string, offers: seq<Offer>, b: BestOdds, s: Slot)
    requires home != away
    ensures var r := Get(FoldOffers(home, away, offers, b), s);
      r == Get(b, s) || exists j :: 0 <= j < |offers| && Hits(home, away, offers[j], s) && r == Some(offers[j].outcome)
    decreases |offers|
  {
    if offers != [] {
      var x, rest := offers[0], offers[1..];
      var b' := Step(home, away, b, x.preferred, x.marketKey, x.outcome);
      StepSlot(home, away, b, x, s);
      FoldProvenance(home, away, rest, b', s);
      var r := Get(FoldOffers(home, away, offers, b), s);
      if r != Get(b', s) {
        var j :| 0 <= j < |rest| && Hits(home, away, rest[j], s) && r == Some(rest[j].outcome);
        assert offers[j + 1] == rest[j];
      } else if r != Get(b, s) {
        assert Hits(home, away, offers[0], s) && r == Some(offers[0].outcome);
      }
    }
  }

  const Day: int := 24 * 60 * 60 * 1000

  /** The two fixed preseason games used when the feed yields nothing. */
  function FallbackGames(now: Time): seq<GameRow> {
    [ GameRow("test-game-1", "American Football", "AMERICANFOOTBALL NFL PRESEASON", "now+1d",
        "Kansas City Chiefs", "Buffalo Bills",
        Some(Finite(-150.0)), Some(Finite(130.0)),
        Some(Finite(-3.5)), Some(Finite(-110.0)), Some(Finite(3.5)), Some(Finite(-110.0)),
        Some(Finite(42.5)), Some(Finite(-110.0)), Some(Finite(42.5)), Some(Finite(-110.0)), now),
      GameRow("test-game-2", "American Football", "AMERICANFOOTBALL NFL PRESEASON", "now+2d",
        "Dallas Cowboys", "Philadelphia Eagles",
        Some(Finite(105.0)), Some(Finite(-125.0)),
        Some(Finite(1.5)), Some(Finite(-110.0)), Some(Finite(-1.5)), Some(Finite(-110.0)),
        Some(Finite(38.5)), Some(Finite(-105.0)), Some(Finite(38.5)), Some(Finite(-115.0)), now) ]
  }

  /** The feed's answer for one sport: `None` when the request failed or was not OK. */
  datatype SportFetch = SportFetch(sport: string, response: Option<seq<OddsEvent>>)

  function RowsOf(sport: string, events: seq<OddsEvent>, now: Time): (r: seq<GameRow>)
    ensures |r| == |events|
    ensures forall j :: 0 <= j < |events| ==> r[j] == ToRow(sport, events[j], now)
  {
    if events == [] then [] else [ToRow(sport, events[0], now)] + RowsOf(sport, events[1..], now)
  }

  /** The rows collected over all sports, in order. */
  function Collected(fetches: seq<SportFetch>, now: Time): seq<GameRow> {
    if fetches == [] then []
    else
      var f := fetches[0];
      (if f.response.Some? then RowsOf(f.sport, f.response.value, now) else []) + Collected(fetches[1..], now)
  }

  predicate AnySuccess(fetches: seq<SportFetch>) {
    exists j :: 0 <= j < |fetches| && fetches[j].response.Some?
  }

  function EventCount(fetches: seq<SportFetch>): nat {
    if fetches == [] then 0
    else (if fetches[0].response.Some? then |fetches[0].response.value| else 0) + EventCount(fetches[1..])
  }

  lemma {:induction false} CollectedCount(fetches: seq<SportFetch>, now: Time)
    ensures |Collected(fetches, now)| == EventCount(fetches)
  {
    if fetches != [] {
      CollectedCount(fetches[1..], now);
    }
  }

  /** The games stored by one refresh: the collected rows, or the fallback when there are none. */
  function GamesToStore(fetches: seq<SportFetch>, now: Time): (r: seq<GameRow>)
    ensures !AnySuccess(fetches) || |Collected(fetches, now)| == 0 ==> r == FallbackGames(now)
    ensures AnySuccess(fetches) && |Collected(fetches, now)| > 0 ==> r == Collected(fetches, now)
    ensures |r| > 0
  {
    var all := Collected(fetches, now);
    if !AnySuccess(fetches) || |all| == 0 then FallbackGames(now) else all
  }

  /** One refresh with the feed as a function from sport key to answer. */
  function RefreshGames(feed: string -> Option<seq<OddsEvent>>, now: Time): seq<GameRow> {
    GamesToStore([SportFetch(Sports[0], feed(Sports[0])), SportFetch(Sports[1], feed(Sports[1]))], now)
  }

  /** The fallback replaces the feed's games exactly when no request succeeded or none returned an event. */
  lemma {:induction false} FallbackIffNothingCollected(fetches: seq<SportFetch>, now: Time)
    ensures (!AnySuccess(fetches) || EventCount(fetches) == 0) ==> GamesToStore(fetches, now) == FallbackGames(now)
    ensures (AnySuccess(fetches) && EventCount(fetches) > 0) ==> GamesToStore(fetches, now) == Collected(fetches, now)
  {
    CollectedCount(fetches, now);
  }

  /** A preseason event is stored under the preseason league; any other sport under the regular one. */
  lemma PreseasonLeague(e: OddsEvent, now: Time)
    ensures ToRow("americanfootball_nfl_preseason", e, now).league == "AMERICANFOOTBALL NFL PRESEASON"
    ensures ToRow("americanfootball_nfl", e, now).league == "AMERICANFOOTBALL NFL"
  {
  }
}
