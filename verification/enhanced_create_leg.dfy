/**
 The leg-creation dialog that works from cached games: the selectable bets of a
 game, the player-prop bets with their category and name filters, the short
 prop labels, and the leg it submits.
 */
module EnhancedCreateLeg {
  import opened Wrappers
  import opened Text
  import opened JsNum
  import opened Parlay
  import opened OddsValidation
  import opened Records
  import opened PropUtils

  datatype PlayerProp = PlayerProp(
    playerName: string,
    marketKey: string,
    category: string,
    point: Option<Num>,
    price: Option<Num>,
    overPrice: Option<Num>,
    underPrice: Option<Num>)

  /** Players keyed by name, in insertion order. */
  type PlayersTable = seq<(string, PlayerProp)>

  /** Markets keyed by market key. */
  type MarketsTable = seq<(string, PlayersTable)>

  /** Categories keyed by category name. */
  type PropsTable = seq<(string, MarketsTable)>

  /** A cached game row as the dialog reads it. */
  datatype Game = Game(
    id: Id,
    externalGameId: string,
    sport: string,
    league: string,
    teamA: string,
    teamB: string,
    moneylineHome: Option<Num>,
    moneylineAway: Option<Num>,
    spreadHome: Option<Num>,
    spreadHomeOdds: Option<Num>,
    spreadAway: Option<Num>,
    spreadAwayOdds: Option<Num>,
    totalOver: Option<Num>,
    totalOverOdds: Option<Num>,
    totalUnder: Option<Num>,
    totalUnderOdds: Option<Num>,
    playerProps: Option<PropsTable>)

  datatype BetKind = Moneyline | Spread | Total | PlayerPropKind

  /** A selectable bet; `odds` has passed the odds validator. */
  datatype BetOption = BetOption(
    kind: BetKind,
    selection: string,
    odds: real,
    line: Option<Num>,
    description: string,
    playerName: Option<string>,
    propType: Option<string>,
    propCategory: Option<string>)

  predicate OddsInRange(x: real) {
    -10000.0 <= x <= 10000.0
  }

  // ---------------------------------------------------------------------------
  // Game bets
  // ---------------------------------------------------------------------------

  /** A spread as shown in a selection: `+` before a positive line, the number as is otherwise. */
  function SpreadText(x: real): (r: string)
    ensures |r| >= 1
    ensures r[0] == '+' <==> x > 0.0
    ensures x < 0.0 ==> r[0] == '-'
  {
    var digits := ShowNum(x);
    if x > 0.0 then
      assert ("+" + digits)[0] == '+';
      "+" + digits
    else
      assert digits[0] != '+';
      digits
  }

  function MoneylineOption(team: string, odds: real): BetOption {
    BetOption(Moneyline, team + " ML", odds, None, team + " to win", None, None, None)
  }

  function SpreadOption(team: string, line: real, odds: real): BetOption {
    var s := team + " " + SpreadText(line);
    BetOption(Spread, s, odds, Some(Finite(line)), s, None, None, None)
  }

  function TotalOption(side: string, line: real, odds: real): BetOption {
    BetOption(Total, side + " " + ShowNum(line), odds, Some(Finite(line)),
      side + " " + ShowNum(line) + " total points", None, None, None)
  }

  function Rank(k: BetKind): int {
    match k
    case Moneyline => 0
    case Spread => 1
    case Total => 2
    case PlayerPropKind => 3
  }

  function CountKind(os: seq<BetOption>, k: BetKind): (n: nat)
    ensures n <= |os|
  {
    if os == [] then 0 else (if os[0].kind == k then 1 else 0) + CountKind(os[1..], k)
  }

  lemma {:induction false} CountKindConcat(a: seq<BetOption>, b: seq<BetOption>, k: BetKind)
    ensures CountKind(a + b, k) == CountKind(a, k) + CountKind(b, k)
    decreases |a|
  {
    if a == [] {
      assert a + b == b;
    } else {
      assert (a + b)[1..] == a[1..] + b;
      CountKindConcat(a[1..], b, k);
    }
  }

  /** The number of options of one kind among options that all have a single kind. */
  lemma {:induction false} CountOfUniform(os: seq<BetOption>, kind: BetKind, k: BetKind)
    requires forall i :: 0 <= i < |os| ==> os[i].kind == kind
    ensures CountKind(os, k) == (if k == kind then |os| else 0)
    decreases |os|
  {
    if os != [] {
      CountOfUniform(os[1..], kind, k);
    }
  }

  function Bit(b: bool): nat {
    if b then 1 else 0
  }

  /** The two moneyline options, each present when its odds are valid. */
  function MoneylineOptions(g: Game): (r: seq<BetOption>)
    ensures |r| == Bit(IsValidOdds(g.moneylineHome)) + Bit(IsValidOdds(g.moneylineAway))
    ensures forall k :: 0 <= k < |r| ==> r[k].kind == Moneyline && OddsInRange(r[k].odds)
    ensures IsValidOdds(g.moneylineHome) ==> r[0] == MoneylineOption(g.teamA, g.moneylineHome.value.v)
    ensures IsValidOdds(g.moneylineAway) ==> r[|r| - 1] == MoneylineOption(g.teamB, g.moneylineAway.value.v)
  {
    (if IsValidOdds(g.moneylineHome) then [MoneylineOption(g.teamA, g.moneylineHome.value.v)] else [])
    + (if IsValidOdds(g.moneylineAway) then [MoneylineOption(g.teamB, g.moneylineAway.value.v)] else [])
  }

  /** The two spread options, each present when its line and its odds are valid. */
  function SpreadOptions(g: Game): (r: seq<BetOption>)
    ensures |r| == Bit(IsValidLine(g.spreadHome) && IsValidOdds(g.spreadHomeOdds))
      + Bit(IsValidLine(g.spreadAway) && IsValidOdds(g.spreadAwayOdds))
    ensures forall k :: 0 <= k < |r| ==>
      r[k].kind == Spread && OddsInRange(r[k].odds) && r[k].line.Some? && r[k].line.value.Finite?
    ensures IsValidLine(g.spreadHome) && IsValidOdds(g.spreadHomeOdds) ==>
      r[0] == SpreadOption(g.teamA, g.spreadHome.value.v, g.spreadHomeOdds.value.v)
    ensures IsValidLine(g.spreadAway) && IsValidOdds(g.spreadAwayOdds) ==>
      r[|r| - 1] == SpreadOption(g.teamB, g.spreadAway.value.v, g.spreadAwayOdds.value.v)
  {
    (if IsValidLine(g.spreadHome) && IsValidOdds(g.spreadHomeOdds)
     then [SpreadOption(g.teamA, g.spreadHome.value.v, g.spreadHomeOdds.value.v)] else [])
    + (if IsValidLine(g.spreadAway) && IsValidOdds(g.spreadAwayOdds)
       then [SpreadOption(g.teamB, g.spreadAway.value.v, g.spreadAwayOdds.value.v)] else [])
  }

  /** The over and under options, each present when its line and its odds are valid. */
  function TotalOptions(g: Game): (r: seq<BetOption>)
    ensures |r| == Bit(IsValidLine(g.totalOver) && IsValidOdds(g.totalOverOdds))
      + Bit(IsValidLine(g.totalUnder) && IsValidOdds(g.totalUnderOdds))
    ensures forall k :: 0 <= k < |r| ==>
      r[k].kind == Total && OddsInRange(r[k].odds) && r[k].line.Some? && r[k].line.value.Finite?
    ensures IsValidLine(g.totalOver) && IsValidOdds(g.totalOverOdds) ==>
      r[0] == TotalOption("Over", g.totalOver.value.v, g.totalOverOdds.value.v)
    ensures IsValidLine(g.totalUnder) && IsValidOdds(g.totalUnderOdds) ==>
      r[|r| - 1] == TotalOption("Under", g.totalUnder.value.v, g.totalUnderOdds.value.v)
  {
    (if IsValidLine(g.totalOver) && IsValidOdds(g.totalOverOdds)
     then [TotalOption("Over", g.totalOver.value.v, g.totalOverOdds.value.v)] else [])
    + (if IsValidLine(g.totalUnder) && IsValidOdds(g.totalUnderOdds)
       then [TotalOption("Under", g.totalUnder.value.v, g.totalUnderOdds.value.v)] else [])
  }

  /**
   `getBetOptions`: home and away moneyline, home and away spread, over and
   under, each included when its odds pass the odds validator and its line (for
   spreads and totals) passes the line validator.
   */
  function GetBetOptions(g: Game): (r: seq<BetOption>)
    ensures |r| <= 6
    ensures forall k :: 0 <= k < |r| ==> OddsInRange(r[k].odds)
    ensures forall k :: 0 <= k < |r| && r[k].kind != Moneyline ==> r[k].line.Some? && r[k].line.value.Finite?
    ensures forall i, j :: 0 <= i < j < |r| ==> Rank(r[i].kind) <= Rank(r[j].kind)
  {
    var ml, sp, tot := MoneylineOptions(g), SpreadOptions(g), TotalOptions(g);
    KindsInOrder(ml, sp, tot);
    ml + sp + tot
  }

  /**
   Moneyline options, then spreads, then totals: the concatenation keeps each
   part's guarantees and lists the kinds in rank order.
   */
  lemma KindsInOrder(ml: seq<BetOption>, sp: seq<BetOption>, tot: seq<BetOption>)
    requires forall k :: 0 <= k < |ml| ==> ml[k].kind == Moneyline && OddsInRange(ml[k].odds)
    requires forall k :: 0 <= k < |sp| ==>
      sp[k].kind == Spread && OddsInRange(sp[k].odds) && sp[k].line.Some? && sp[k].line.value.Finite?
    requires forall k :: 0 <= k < |tot| ==>
      tot[k].kind == Total && OddsInRange(tot[k].odds) && tot[k].line.Some? && tot[k].line.value.Finite?
    ensures var r := ml + sp + tot;
      && (forall k :: 0 <= k < |r| ==> OddsInRange(r[k].odds))
      && (forall k :: 0 <= k < |r| && r[k].kind != Moneyline ==> r[k].line.Some? && r[k].line.value.Finite?)
      && (forall i, j :: 0 <= i < j < |r| ==> Rank(r[i].kind) <= Rank(r[j].kind))
  {
    var r := ml + sp + tot;
    forall k | 0 <= k < |r|
      ensures OddsInRange(r[k].odds)
      ensures r[k].kind != Moneyline ==> r[k].line.Some? && r[k].line.value.Finite?
      ensures Rank(r[k].kind) == if k < |ml| then 0 else if k < |ml| + |sp| then 1 else 2
    {
      if k < |ml| {
        assert r[k] == ml[k];
      } else if k < |ml| + |sp| {
        assert r[k] == sp[k - |ml|];
      } else {
        assert r[k] == tot[k - |ml| - |sp|];
      }
    }
  }

  /** How many options of each kind `getBetOptions` offers: one per side whose prices are valid. */
  lemma BetOptionCounts(g: Game)
    ensures CountKind(GetBetOptions(g), Moneyline) ==
      Bit(IsValidOdds(g.moneylineHome)) + Bit(IsValidOdds(g.moneylineAway))
    ensures CountKind(GetBetOptions(g), Spread) ==
      Bit(IsValidLine(g.spreadHome) && IsValidOdds(g.spreadHomeOdds))
      + Bit(IsValidLine(g.spreadAway) && IsValidOdds(g.spreadAwayOdds))
    ensures CountKind(GetBetOptions(g), Total) ==
      Bit(IsValidLine(g.totalOver) && IsValidOdds(g.totalOverOdds))
      + Bit(IsValidLine(g.totalUnder) && IsValidOdds(g.totalUnderOdds))
    ensures CountKind(GetBetOptions(g), PlayerPropKind) == 0
  {
    var ml, sp, tot := MoneylineOptions(g), SpreadOptions(g), TotalOptions(g);
    assert GetBetOptions(g) == ml + sp + tot;
    CountOfBlocks(ml, sp, tot);
  }

  /** Counting the kinds across a moneyline block, a spread block and a total block. */
  lemma CountOfBlocks(ml: seq<BetOption>, sp: seq<BetOption>, tot: seq<BetOption>)
    requires forall k :: 0 <= k < |ml| ==> ml[k].kind == Moneyline
    requires forall k :: 0 <= k < |sp| ==> sp[k].kind == Spread
    requires forall k :: 0 <= k < |tot| ==> tot[k].kind == Total
    ensures CountKind(ml + sp + tot, Moneyline) == |ml|
    ensures CountKind(ml + sp + tot, Spread) == |sp|
    ensures CountKind(ml + sp + tot, Total) == |tot|
    ensures CountKind(ml + sp + tot, PlayerPropKind) == 0
  {
    forall k: BetKind
      ensures CountKind(ml + sp + tot, k) == CountKind(ml, k) + CountKind(sp, k) + CountKind(tot, k)
    {
      CountKindConcat(ml + sp, tot, k);
      CountKindConcat(ml, sp, k);
    }
    forall k: BetKind
      ensures CountKind(ml, k) == (if k == Moneyline then |ml| else 0)
      ensures CountKind(sp, k) == (if k == Spread then |sp| else 0)
      ensures CountKind(tot, k) == (if k == Total then |tot| else 0)
    {
      CountOfUniform(ml, Moneyline, k);
      CountOfUniform(sp, Spread, k);
      CountOfUniform(tot, Total, k);
    }
  }

  /** The first option is the home moneyline whenever its odds are valid. */
  lemma HomeMoneylineFirst(g: Game)
    requires IsValidOdds(g.moneylineHome)
    ensures GetBetOptions(g)[0] == MoneylineOption(g.teamA, g.moneylineHome.value.v)
  {
  }

  /** A game without a valid price offers nothing. */
  lemma NoValidPricesNoOptions(g: Game)
    requires !IsValidOdds(g.moneylineHome) && !IsValidOdds(g.moneylineAway)
    requires !IsValidOdds(g.spreadHomeOdds) && !IsValidOdds(g.spreadAwayOdds)
    requires !IsValidOdds(g.totalOverOdds) && !IsValidOdds(g.totalUnderOdds)
    ensures GetBetOptions(g) == []
  {
  }

  /** The six conditions under which `getBetOptions` pushes an option. */
  predicate OffersHomeMoneyline(g: Game) { IsValidOdds(g.moneylineHome) }
  predicate OffersAwayMoneyline(g: Game) { IsValidOdds(g.moneylineAway) }
  predicate OffersHomeSpread(g: Game) { IsValidLine(g.spreadHome) && IsValidOdds(g.spreadHomeOdds) }
  predicate OffersAwaySpread(g: Game) { IsValidLine(g.spreadAway) && IsValidOdds(g.spreadAwayOdds) }
  predicate OffersOver(g: Game) { IsValidLine(g.totalOver) && IsValidOdds(g.totalOverOdds) }
  predicate OffersUnder(g: Game) { IsValidLine(g.totalUnder) && IsValidOdds(g.totalUnderOdds) }

  /** Equal texts behind a common suffix are equal. */
  lemma SuffixCancels(a: string, b: string, suffix: string)
    ensures a + suffix == b + suffix ==> a == b
  {
    assert (a + suffix)[..|a|] == a;
    assert (b + suffix)[..|b|] == b;
  }

  /**
   The fixed order of `getBetOptions`: home moneyline, away moneyline, home
   spread, away spread, over, under, each present exactly when offered.
   */
  lemma BetOptionsOrder(g: Game)
    ensures var r := GetBetOptions(g);
      var nm := Bit(OffersHomeMoneyline(g)) + Bit(OffersAwayMoneyline(g));
      var ns := Bit(OffersHomeSpread(g)) + Bit(OffersAwaySpread(g));
      && |r| == nm + ns + Bit(OffersOver(g)) + Bit(OffersUnder(g))
      && (OffersHomeMoneyline(g) ==> r[0] == MoneylineOption(g.teamA, g.moneylineHome.value.v))
      && (OffersAwayMoneyline(g) ==> r[nm - 1] == MoneylineOption(g.teamB, g.moneylineAway.value.v))
      && (OffersHomeSpread(g) ==> r[nm] == SpreadOption(g.teamA, g.spreadHome.value.v, g.spreadHomeOdds.value.v))
      && (OffersAwaySpread(g) ==> r[nm + ns - 1] == SpreadOption(g.teamB, g.spreadAway.value.v, g.spreadAwayOdds.value.v))
      && (OffersOver(g) ==> r[nm + ns] == TotalOption("Over", g.totalOver.value.v, g.totalOverOdds.value.v))
      && (OffersUnder(g) ==> r[|r| - 1] == TotalOption("Under", g.totalUnder.value.v, g.totalUnderOdds.value.v))
  {
    var ml, sp, tot := MoneylineOptions(g), SpreadOptions(g), TotalOptions(g);
    assert GetBetOptions(g) == ml + sp + tot;
    assert |ml| == Bit(OffersHomeMoneyline(g)) + Bit(OffersAwayMoneyline(g));
    assert |sp| == Bit(OffersHomeSpread(g)) + Bit(OffersAwaySpread(g));
    assert |tot| == Bit(OffersOver(g)) + Bit(OffersUnder(g));
    BlockEnds(ml, sp, tot);
  }

  /** The first and last element of each of three concatenated blocks. */
  lemma BlockEnds<T>(a: seq<T>, b: seq<T>, c: seq<T>)
    ensures var r := a + b + c;
      && |r| == |a| + |b| + |c|
      && (|a| > 0 ==> r[0] == a[0] && r[|a| - 1] == a[|a| - 1])
      && (|b| > 0 ==> r[|a|] == b[0] && r[|a| + |b| - 1] == b[|b| - 1])
      && (|c| > 0 ==> r[|a| + |b|] == c[0] && r[|r| - 1] == c[|c| - 1])
  {
  }

  /** A moneyline option is offered for a team exactly at that team's valid price. */
  lemma MoneylineOffered(g: Game, odds: real)
    ensures OffersHomeMoneyline(g) && odds == g.moneylineHome.value.v ==>
      MoneylineOption(g.teamA, odds) in GetBetOptions(g)
    ensures OffersAwayMoneyline(g) && odds == g.moneylineAway.value.v ==>
      MoneylineOption(g.teamB, odds) in GetBetOptions(g)
    ensures g.teamA != g.teamB ==>
      (MoneylineOption(g.teamA, odds) in GetBetOptions(g) <==>
       OffersHomeMoneyline(g) && odds == g.moneylineHome.value.v)
    ensures g.teamA != g.teamB ==>
      (MoneylineOption(g.teamB, odds) in GetBetOptions(g) <==>
       OffersAwayMoneyline(g) && odds == g.moneylineAway.value.v)
  {
    var ml, sp, tot := MoneylineOptions(g), SpreadOptions(g), TotalOptions(g);
    assert GetBetOptions(g) == ml + sp + tot;
    if g.teamA != g.teamB {
      SuffixCancels(g.teamA, g.teamB, " ML");
      var home, away := MoneylineOption(g.teamA, odds), MoneylineOption(g.teamB, odds);
      if home in GetBetOptions(g) {
        assert home in ml;
      }
      if away in GetBetOptions(g) {
        assert away in ml;
      }
    }
  }

  /** A spread option is offered for a team exactly at that team's valid line and price. */
  lemma SpreadOffered(g: Game, line: real, odds: real)
    ensures OffersHomeSpread(g) && line == g.spreadHome.value.v && odds == g.spreadHomeOdds.value.v ==>
      SpreadOption(g.teamA, line, odds) in GetBetOptions(g)
    ensures OffersAwaySpread(g) && line == g.spreadAway.value.v && odds == g.spreadAwayOdds.value.v ==>
      SpreadOption(g.teamB, line, odds) in GetBetOptions(g)
    ensures g.teamA != g.teamB ==>
      (SpreadOption(g.teamA, line, odds) in GetBetOptions(g) <==>
       OffersHomeSpread(g) && line == g.spreadHome.value.v && odds == g.spreadHomeOdds.value.v)
    ensures g.teamA != g.teamB ==>
      (SpreadOption(g.teamB, line, odds) in GetBetOptions(g) <==>
       OffersAwaySpread(g) && line == g.spreadAway.value.v && odds == g.spreadAwayOdds.value.v)
  {
    var ml, sp, tot := MoneylineOptions(g), SpreadOptions(g), TotalOptions(g);
    assert GetBetOptions(g) == ml + sp + tot;
    if g.teamA != g.teamB {
      SuffixCancels(g.teamA, g.teamB, " ");
      SuffixCancels(g.teamA + " ", g.teamB + " ", SpreadText(line));
      var home, away := SpreadOption(g.teamA, line, odds), SpreadOption(g.teamB, line, odds);
      if home in GetBetOptions(g) {
        assert home in sp;
      }
      if away in GetBetOptions(g) {
        assert away in sp;
      }
    }
  }

  /** The over and under options are offered exactly at their own valid lines and prices. */
  lemma TotalOffered(g: Game, line: real, odds: real)
    ensures TotalOption("Over", line, odds) in GetBetOptions(g) <==>
      OffersOver(g) && line == g.totalOver.value.v && odds == g.totalOverOdds.value.v
    ensures TotalOption("Under", line, odds) in GetBetOptions(g) <==>
      OffersUnder(g) && line == g.totalUnder.value.v && odds == g.totalUnderOdds.value.v
  {
    var ml, sp, tot := MoneylineOptions(g), SpreadOptions(g), TotalOptions(g);
    assert GetBetOptions(g) == ml + sp + tot;
    var over, under := TotalOption("Over", line, odds), TotalOption("Under", line, odds);
    assert over.selection[0] == 'O';
    assert under.selection[0] == 'U';
    if over in GetBetOptions(g) {
      assert over in tot;
    }
    if under in GetBetOptions(g) {
      assert under in tot;
    }
  }

  // ---------------------------------------------------------------------------
  // Prop labels
  // ---------------------------------------------------------------------------

  /** The dialog's own, shorter caption table. */
  const PropNames: map<string, string> := map[
    "player_pass_yds" := "Passing Yards",
    "player_pass_tds" := "Passing TDs",
    "player_pass_completions" := "Completions",
    "player_pass_attempts" := "Pass Attempts",
    "player_pass_interceptions" := "Interceptions",
    "player_rush_yds" := "Rushing Yards",
    "player_rush_tds" := "Rushing TDs",
    "player_rush_attempts" := "Rush Attempts",
    "player_receptions" := "Receptions",
    "player_reception_yds" := "Receiving Yards",
    "player_reception_tds" := "Receiving TDs",
    "player_anytime_td" := "Anytime TD",
    "player_1st_td" := "First TD",
    "player_sacks" := "Sacks",
    "player_tackles_assists" := "Tackles + Assists",
    "player_field_goals" := "Field Goals",
    "player_kicking_points" := "Kicking Points",
    "player_pass_rush_reception_yds" := "Pass + Rush + Rec Yards",
    "player_rush_reception_yds" := "Rush + Rec Yards"
  ]

  /**
   `formatPropName`: the table's caption, or else the key with underscores turned
   into spaces and nothing else changed (no capitalisation).
   */
  function FormatPropName(marketKey: string): (r: string)
    ensures marketKey in PropNames ==> r == PropNames[marketKey]
    ensures marketKey !in PropNames ==>
      |r| == |marketKey| && '_' !in r
      && forall i :: 0 <= i < |r| ==> r[i] == (if marketKey[i] == '_' then ' ' else marketKey[i])
  {
    if marketKey in PropNames && PropNames[marketKey] != "" then PropNames[marketKey]
    else ReplaceChar(marketKey, '_', ' ')
  }

  /**
   The dialog's table is shorter than the one behind `formatPropDisplayName`:
   "player_last_td" has a label there and is only de-underscored here.
   */
  lemma LabelTablesDisagree()
    ensures "player_last_td" in PropLabels && "player_last_td" !in PropNames
    ensures FormatPropName("player_last_td") == ReplaceChar("player_last_td", '_', ' ')
    ensures FormatPropName("player_last_td") != FormatPropDisplayName("player_last_td")
  {
    assert IsTouchdownProp("player_last_td");
    TouchdownMarkets("player_last_td");
    LastTouchdownUnnamed();
    LastTouchdownLabel();
  }

  /** No key of the dialog's table has the length of "player_last_td". */
  lemma LastTouchdownUnnamed()
    ensures "player_last_td" !in PropNames
  {
    assert forall k | k in PropNames :: |k| != 14;
  }

  /** Outside both tables the two label functions produce the same words, differing in case only. */
  lemma SameWordsOutsideTables(key: string)
    requires key !in PropLabels && key !in PropNames
    ensures LowerStr(FormatPropName(key)) == LowerStr(FormatPropDisplayName(key))
  {
    var a, b := FormatPropName(key), FormatPropDisplayName(key);
    assert forall i :: 0 <= i < |key| ==> ToLower(a[i]) == ToLower(b[i]);
  }

  // ---------------------------------------------------------------------------
  // Player-prop bets
  // ---------------------------------------------------------------------------

  function PropOption(category: string, marketKey: string, playerName: string, selection: string,
                      odds: real, line: Option<Num>): BetOption {
    BetOption(PlayerPropKind, selection, odds, line, selection, Some(playerName), Some(marketKey), Some(category))
  }

  /** The bets offered for one player's prop in one market. */
  function PropOptions(category: string, marketKey: string, playerName: string, p: PlayerProp): (r: seq<BetOption>)
    ensures |r| <= 2
    ensures !IsValidLine(p.point) ==> |r| <= 1
    ensures forall k :: 0 <= k < |r| ==>
      r[k].kind == PlayerPropKind && OddsInRange(r[k].odds)
      && r[k].playerName == Some(playerName) && r[k].propType == Some(marketKey) && r[k].propCategory == Some(category)
  {
    var caption := playerName + " " + FormatPropName(marketKey);
    if IsValidLine(p.point) then
      var x := p.point.value.v;
      var pointText := ShowNum(x);
      var overText := caption + " Over " + pointText;
      var over :=
        if IsValidPlayerPropPrice(p.overPrice)
        then [PropOption(category, marketKey, playerName, overText, p.overPrice.value.v, Some(Finite(x)))]
        else [];
      var under :=
        if IsValidPlayerPropPrice(p.underPrice)
        then [PropOption(category, marketKey, playerName, caption + " Under " + pointText, p.underPrice.value.v, Some(Finite(-x)))]
        else [];
      var fallback :=
        if !IsValidPlayerPropPrice(p.overPrice) && !IsValidPlayerPropPrice(p.underPrice) && IsValidPlayerPropPrice(p.price)
        then [PropOption(category, marketKey, playerName, overText, p.price.value.v, Some(Finite(x)))]
        else [];
      over + under + fallback
    else if IsValidPlayerPropPrice(p.price) then
      [PropOption(category, marketKey, playerName, caption, p.price.value.v, p.point)]
    else []
  }

  /** With a valid point, the Over bet carries the point as its line and the Under bet its negation. */
  lemma OverUnderLines(category: string, marketKey: string, playerName: string, p: PlayerProp)
    requires IsValidLine(p.point) && IsValidPlayerPropPrice(p.overPrice) && IsValidPlayerPropPrice(p.underPrice)
    ensures var r := PropOptions(category, marketKey, playerName, p);
      |r| == 2 && r[0].line == Some(Finite(p.point.value.v)) && r[1].line == Some(Finite(-p.point.value.v))
      && r[0].odds == p.overPrice.value.v && r[1].odds == p.underPrice.value.v
  {
  }

  /** The main price is used only when neither side has a valid price of its own. */
  lemma MainPriceOnlyAsFallback(category: string, marketKey: string, playerName: string, p: PlayerProp)
    requires IsValidLine(p.point)
    ensures var r := PropOptions(category, marketKey, playerName, p);
      (IsValidPlayerPropPrice(p.overPrice) || IsValidPlayerPropPrice(p.underPrice)) ==>
        forall k :: 0 <= k < |r| ==>
          (IsValidPlayerPropPrice(p.overPrice) && r[k].odds == p.overPrice.value.v)
          || (IsValidPlayerPropPrice(p.underPrice) && r[k].odds == p.underPrice.value.v)
    ensures var r := PropOptions(category, marketKey, playerName, p);
      (!IsValidPlayerPropPrice(p.overPrice) && !IsValidPlayerPropPrice(p.underPrice)) ==>
        (|r| == 1 <==> IsValidPlayerPropPrice(p.price))
  {
  }

  /** The category filter: an empty or 'all' selection lets every category through. */
  predicate CategoryAllowed(selected: string, category: string) {
    !(selected != "" && selected != "all" && category != selected)
  }

  /** The player filter: a non-empty term must occur in the name, ignoring ASCII case. */
  predicate PlayerMatches(search: string, playerName: string) {
    !(search != "" && !Contains(LowerStr(playerName), LowerStr(search)))
  }

  /** Every option carries its player's name, market and category and passes both filters. */
  ghost predicate Admissible(o: BetOption, selected: string, search: string) {
    && o.kind == PlayerPropKind && OddsInRange(o.odds)
    && o.playerName.Some? && o.propType.Some? && o.propCategory.Some?
    && CategoryAllowed(selected, o.propCategory.value)
    && PlayerMatches(search, o.playerName.value)
  }

  function PlayerOptions(category: string, marketKey: string, players: PlayersTable, selected: string, search: string): (r: seq<BetOption>)
    requires CategoryAllowed(selected, category)
    ensures forall k :: 0 <= k < |r| ==> Admissible(r[k], selected, search)
  {
    if players == [] then []
    else
      var (name, prop) := players[0];
      var here := if PlayerMatches(search, name) then PropOptions(category, marketKey, name, prop) else [];
      here + PlayerOptions(category, marketKey, players[1..], selected, search)
  }

  function MarketOptions(category: string, markets: MarketsTable, selected: string, search: string): (r: seq<BetOption>)
    requires CategoryAllowed(selected, category)
    ensures forall k :: 0 <= k < |r| ==> Admissible(r[k], selected, search)
  {
    if markets == [] then []
    else
      PlayerOptions(category, markets[0].0, markets[0].1, selected, search)
      + MarketOptions(category, markets[1..], selected, search)
  }

  /** The options in visiting order, before sorting. */
  function CategoryOptions(props: PropsTable, selected: string, search: string): (r: seq<BetOption>)
    ensures forall k :: 0 <= k < |r| ==> Admissible(r[k], selected, search)
  {
    if props == [] then []
    else
      var (category, markets) := props[0];
      (if CategoryAllowed(selected, category) then MarketOptions(category, markets, selected, search) else [])
      + CategoryOptions(props[1..], selected, search)
  }

  // ---------------------------------------------------------------------------
  // Sorting by player name
  // ---------------------------------------------------------------------------

  function SortKey(o: BetOption): string {
    o.playerName.GetOr("")
  }

  predicate SortedByName(os: seq<BetOption>) {
    forall i :: 0 <= i < |os| - 1 ==> StrLe(SortKey(os[i]), SortKey(os[i + 1]))
  }

  /** Inserting after every element whose name does not come after `x`, which keeps equal names in order. */
  function InsertByName(x: BetOption, os: seq<BetOption>): (r: seq<BetOption>)
    requires SortedByName(os)
    ensures SortedByName(r)
    ensures multiset(r) == multiset(os) + multiset{x}
    ensures |r| == |os| + 1
    ensures r[|r| - 1] == x || (|os| > 0 && r[|r| - 1] == os[|os| - 1])
  {
    if os == [] || StrLe(SortKey(os[|os| - 1]), SortKey(x)) then os + [x]
    else
      var init, last := os[..|os| - 1], os[|os| - 1];
      StrLeTotal(SortKey(last), SortKey(x));
      assert os == init + [last];
      var r := InsertByName(x, init) + [last];
      r
  }

  /** A stable insertion sort by player name. */
  function SortByName(os: seq<BetOption>): (r: seq<BetOption>)
    ensures SortedByName(r)
    ensures multiset(r) == multiset(os)
  {
    if os == [] then []
    else
      assert os == os[..|os| - 1] + [os[|os| - 1]];
      InsertByName(os[|os| - 1], SortByName(os[..|os| - 1]))
  }

  /**
   `getPlayerPropOptions`: nothing for a game without props, otherwise every
   admissible option of the visited props, ordered by player name.
   */
  function GetPlayerPropOptions(g: Game, selected: string, search: string): (r: seq<BetOption>)
    ensures g.playerProps.None? ==> r == []
    ensures g.playerProps.Some? ==> multiset(r) == multiset(CategoryOptions(g.playerProps.value, selected, search))
    ensures SortedByName(r)
    ensures forall k :: 0 <= k < |r| ==> Admissible(r[k], selected, search)
  {
    if g.playerProps.None? then []
    else
      var unsorted := CategoryOptions(g.playerProps.value, selected, search);
      var r := SortByName(unsorted);
      forall k | 0 <= k < |r|
        ensures Admissible(r[k], selected, search)
      {
        assert r[k] in multiset(unsorted);
      }
      r
  }

  /** Selecting a category lets through only that category's options. */
  lemma SelectedCategoryOnly(g: Game, selected: string, search: string)
    requires selected != "" && selected != "all"
    ensures forall o | o in GetPlayerPropOptions(g, selected, search) :: o.propCategory == Some(selected)
  {
    var r := GetPlayerPropOptions(g, selected, search);
    forall o | o in r
      ensures o.propCategory == Some(selected)
    {
      var k :| 0 <= k < |r| && r[k] == o;
    }
  }

  // ---------------------------------------------------------------------------
  // Submitting the chosen bet
  // ---------------------------------------------------------------------------

  /** `s.replace(' ', '_')` with a string pattern: only the first space is replaced. */
  function ReplaceFirstSpace(s: string): (r: string)
    ensures |r| == |s|
    ensures ' ' !in s ==> r == s
    ensures ' ' in s ==>
      (r[IndexOf(s, ' ')] == '_' && forall i :: 0 <= i < |s| && i != IndexOf(s, ' ') ==> r[i] == s[i])
  {
    if s == [] then []
    else if s[0] == ' ' then "_" + s[1..]
    else [s[0]] + ReplaceFirstSpace(s[1..])
  }

  function KindKey(k: BetKind): string {
    match k
    case Moneyline => "moneyline"
    case Spread => "spread"
    case Total => "total"
    case PlayerPropKind => "player_prop"
  }

  /** The ids of a user's legs in a week. */
  function LegsOfUserInWeek(legs: Legs, userId: Id, weekId: Id): (ids: set<Id>)
    ensures forall id :: id in ids <==> id in legs && legs[id].userId == userId && legs[id].weekId == weekId
  {
    set id | id in legs && legs[id].userId == userId && legs[id].weekId == weekId
  }

  /** The insert built from the chosen game and bet. */
  function BetDraft(userId: Id, weekId: Id, g: Game, bet: BetOption): (d: LegDraft)
    ensures d.status == PENDING && d.source == "odds_api" && d.bookmaker == "DraftKings"
    ensures d.americanOdds == Finite(bet.odds)
    ensures d.decimalOdds == AmericanToDecimalJs(Finite(bet.odds))
    ensures d.marketKey == (if bet.kind == PlayerPropKind then bet.propType.GetOr("") else KindKey(bet.kind))
    ensures d.gameDesc == g.teamA + " vs " + g.teamB && d.gameId == Some(g.externalGameId)
    ensures bet.kind != PlayerPropKind ==> d.playerName.None? && d.propType.None? && d.propCategory.None?
  {
    var isProp := bet.kind == PlayerPropKind;
    LegDraft(userId, weekId, ReplaceFirstSpace(LowerStr(g.sport)), g.league, Some(g.externalGameId),
      g.teamA + " vs " + g.teamB,
      if isProp then bet.propType.GetOr("") else KindKey(bet.kind),
      bet.selection, bet.line, Finite(bet.odds), AmericanToDecimalJs(Finite(bet.odds)),
      "odds_api", "DraftKings", None, PENDING,
      if isProp then bet.playerName else None,
      if isProp then bet.propType else None,
      if isProp then bet.propCategory else None)
  }

  datatype SubmitOutcome =
    | NothingSelected
    | AlreadySubmitted
    | EligibilityCheckFailed
    | InsertFailed(error: DbError)
    | Submitted(legs: Legs)

  /**
   `handleSubmitLeg`: needs a user, a game and a bet; refuses when the user
   already has a leg in the week (`maybeSingle` errs on more than one); then
   inserts the leg under the id the database assigns.
   */
  function SubmitLeg(user: Option<Id>, game: Option<Game>, bet: Option<BetOption>, weekId: Id,
                     legs: Legs, weeks: Weeks, newId: Id, now: Time): (r: SubmitOutcome)
    ensures user.None? || game.None? || bet.None? ==> r == NothingSelected
    ensures user.Some? && LegsOfUserInWeek(legs, user.value, weekId) != {} ==> !r.Submitted?
    ensures user.Some? && game.Some? && bet.Some? ==>
      (r.Submitted? <==>
         LegsOfUserInWeek(legs, user.value, weekId) == {} && newId !in legs && weekId in weeks
         && bet.value.odds != 0.0)
    ensures r.Submitted? ==>
      newId in r.legs && StoredAs(r.legs[newId], newId, BetDraft(user.value, weekId, game.value, bet.value), now)
    ensures r.Submitted? ==>
      (newId !in legs && r.legs.Keys == legs.Keys + {newId} && forall k :: k in legs ==> r.legs[k] == legs[k])
    ensures r.Submitted? ==>
      var leg := r.legs[newId];
      && leg.status == PENDING && leg.userId == user.value && leg.weekId == weekId
      && bet.value.odds != 0.0 && leg.decimalOdds == AmericanToDecimal(bet.value.odds)
      && leg.marketKey == (if bet.value.kind == PlayerPropKind then bet.value.propType.GetOr("") else KindKey(bet.value.kind))
  {
    if user.None? || game.None? || bet.None? then NothingSelected
    else
      var existing := LegsOfUserInWeek(legs, user.value, weekId);
      if |existing| > 1 then EligibilityCheckFailed
      else if |existing| == 1 then AlreadySubmitted
      else
        var d := BetDraft(user.value, weekId, game.value, bet.value);
        match InsertLeg(legs, weeks, newId, d, now)
        case Failure(e) => InsertFailed(e)
        case Success(legs') => Submitted(legs')
  }

  /** A second submission for the same user and week is refused, whatever is chosen. */
  lemma {:induction false} SecondSubmissionRefused(user: Id, game: Game, bet: BetOption, weekId: Id,
      legs: Legs, weeks: Weeks, id1: Id, id2: Id, now: Time)
    requires SubmitLeg(Some(user), Some(game), Some(bet), weekId, legs, weeks, id1, now).Submitted?
    ensures var legs' := SubmitLeg(Some(user), Some(game), Some(bet), weekId, legs, weeks, id1, now).legs;
      SubmitLeg(Some(user), Some(game), Some(bet), weekId, legs', weeks, id2, now) == AlreadySubmitted
  {
    var legs' := SubmitLeg(Some(user), Some(game), Some(bet), weekId, legs, weeks, id1, now).legs;
    assert LegsOfUserInWeek(legs, user, weekId) == {};
    assert LegsOfUserInWeek(legs', user, weekId) == {id1};
  }
}
