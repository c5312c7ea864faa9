/**
 Labels for markets and player props, the one-line description of a leg, and
 the touchdown-market predicates.
 */
module PropUtils {
  import opened Wrappers
  import opened Text
  import opened Records

  /** The label table of `formatPropDisplayName`. */
  const PropLabels: map<string, string> := map[
    "player_pass_yds" := "Passing Yards",
    "player_pass_tds" := "Passing TDs",
    "player_pass_completions" := "Completions",
    "player_pass_attempts" := "Pass Attempts",
    "player_pass_interceptions" := "Interceptions",
    "player_pass_longest_completion" := "Longest Completion",
    "player_rush_yds" := "Rushing Yards",
    "player_rush_tds" := "Rushing TDs",
    "player_rush_attempts" := "Rush Attempts",
    "player_rush_longest" := "Longest Rush",
    "player_receptions" := "Receptions",
    "player_reception_yds" := "Receiving Yards",
    "player_reception_tds" := "Receiving TDs",
    "player_reception_longest" := "Longest Reception",
    "player_anytime_td" := "Anytime TD",
    "player_1st_td" := "First TD",
    "player_last_td" := "Last TD",
    "player_sacks" := "Sacks",
    "player_tackles_assists" := "Tackles + Assists",
    "player_interceptions" := "Interceptions",
    "player_fumbles_recovered" := "Fumbles Recovered",
    "player_field_goals" := "Field Goals",
    "player_kicking_points" := "Kicking Points",
    "player_extra_points" := "Extra Points",
    "player_pass_rush_reception_yds" := "Pass + Rush + Rec Yards",
    "player_rush_reception_yds" := "Rush + Rec Yards",
    "player_pass_reception_yds" := "Pass + Rec Yards",
    "h2h" := "Moneyline",
    "spreads" := "Point Spread",
    "totals" := "Total Points",
    "total" := "Total Points"
  ]

  /** Position `i` of `s` is matched by `\b\w`: a word character not preceded by one. */
  predicate WordStart(s: string, i: int)
    requires 0 <= i < |s|
  {
    IsWordChar(s[i]) && (i == 0 || !IsWordChar(s[i - 1]))
  }

  function TitleFrom(s: string, afterWord: bool): (r: string)
    ensures |r| == |s|
    ensures forall i :: 0 < i < |s| ==> r[i] == (if WordStart(s, i) then ToUpper(s[i]) else s[i])
    ensures |s| > 0 ==> r[0] == (if IsWordChar(s[0]) && !afterWord then ToUpper(s[0]) else s[0])
  {
    if s == [] then []
    else
      var rest := TitleFrom(s[1..], IsWordChar(s[0]));
      var r := [if IsWordChar(s[0]) && !afterWord then ToUpper(s[0]) else s[0]] + rest;
      assert forall i :: 1 < i < |s| ==> WordStart(s, i) == WordStart(s[1..], i - 1);
      r
  }

  /** `s.replace(/\b\w/g, l => l.toUpperCase())`: the first character of every word is upper-cased. */
  function TitleCase(s: string): (r: string)
    ensures |r| == |s|
    ensures forall i :: 0 <= i < |s| ==> r[i] == (if WordStart(s, i) then ToUpper(s[i]) else s[i])
  {
    TitleFrom(s, false)
  }

  /** The label of a key missing from the table: underscores become spaces, then words are capitalised. */
  function FallbackLabel(key: string): (r: string)
    ensures |r| == |key|
    ensures '_' !in r
    ensures forall i :: 0 <= i < |key| ==> ToLower(r[i]) == ToLower(if key[i] == '_' then ' ' else key[i])
  {
    var spaced := ReplaceChar(key, '_', ' ');
    var r := TitleCase(spaced);
    assert forall i :: 0 <= i < |r| ==> r[i] != '_';
    r
  }

  /** `formatPropDisplayName`: a table lookup, falling back to the capitalised key. */
  function FormatPropDisplayName(propType: string): (r: string)
    ensures propType in PropLabels ==> r == PropLabels[propType]
    ensures propType !in PropLabels ==> r == FallbackLabel(propType)
  {
    if propType in PropLabels && PropLabels[propType] != "" then PropLabels[propType]
    else FallbackLabel(propType)
  }

  /** The truthiness of an optional string: present and non-empty. */
  predicate Truthy(s: Option<string>) {
    s.Some? && s.value != ""
  }

  datatype BetCategory = PlayerPropBet | GameBet

  /** `getBetTypeCategory`. */
  function GetBetTypeCategory(leg: Leg): (c: BetCategory)
    ensures c == PlayerPropBet <==> Truthy(leg.playerName) && Truthy(leg.propType)
  {
    if Truthy(leg.playerName) && Truthy(leg.propType) then PlayerPropBet else GameBet
  }

  /** `formatLegDescription`: "player - label: selection" for player props, the bare selection otherwise. */
  function FormatLegDescription(leg: Leg): (r: string)
    ensures Truthy(leg.playerName) && Truthy(leg.propType) ==>
      r == leg.playerName.value + " - " + FormatPropDisplayName(leg.propType.value) + ": " + leg.selection
    ensures !(Truthy(leg.playerName) && Truthy(leg.propType)) ==> r == leg.selection
  {
    if Truthy(leg.playerName) && Truthy(leg.propType) then
      leg.playerName.value + " - " + FormatPropDisplayName(leg.propType.value) + ": " + leg.selection
    else leg.selection
  }

  /** `isAnytimeTouchdownProp`. */
  predicate IsAnytimeTouchdownProp(marketKey: string) {
    marketKey == "player_anytime_td"
  }

  const TouchdownKeys: seq<string> := ["player_anytime_td", "player_1st_td", "player_last_td"]

  /** `isTouchdownProp`: membership in the three touchdown markets. */
  predicate IsTouchdownProp(marketKey: string) {
    marketKey in TouchdownKeys
  }

  // ---------------------------------------------------------------------------
  // Properties
  // ---------------------------------------------------------------------------

  /** The game markets get their listed labels; 'totals' and 'total' share one. */
  lemma GameMarketLabels()
    ensures FormatPropDisplayName("h2h") == "Moneyline"
    ensures FormatPropDisplayName("spreads") == "Point Spread"
    ensures FormatPropDisplayName("totals") == "Total Points"
    ensures FormatPropDisplayName("total") == "Total Points"
  {
  }

  /** The anytime-touchdown market gets its listed label. */
  lemma AnytimeTouchdownLabel()
    ensures FormatPropDisplayName("player_anytime_td") == "Anytime TD"
  {
    assert "player_anytime_td" in PropLabels;
    assert PropLabels["player_anytime_td"] == "Anytime TD";
  }

  /** The combined-yards market gets its listed label. */
  lemma CombinedYardsLabel()
    ensures FormatPropDisplayName("player_pass_rush_reception_yds") == "Pass + Rush + Rec Yards"
  {
    assert "player_pass_rush_reception_yds" in PropLabels;
    assert PropLabels["player_pass_rush_reception_yds"] == "Pass + Rush + Rec Yards";
  }

  /** The last-touchdown market gets its listed label. */
  lemma LastTouchdownLabel()
    ensures FormatPropDisplayName("player_last_td") == "Last TD"
  {
    assert "player_last_td" in PropLabels;
    assert PropLabels["player_last_td"] == "Last TD";
  }

  /** No label in the table is empty, so the `||` fallback is reached only for missing keys. */
  lemma LabelsNonEmpty(key: string)
    requires key in PropLabels
    ensures PropLabels[key] != ""
  {
  }

  /** Capitalising twice is capitalising once: word starts are unchanged by capitalising. */
  lemma {:induction false} TitleCaseIdempotent(s: string)
    ensures TitleCase(TitleCase(s)) == TitleCase(s)
  {
    var t := TitleCase(s);
    assert forall i :: 0 <= i < |s| ==> IsWordChar(t[i]) == IsWordChar(s[i]);
    assert forall i :: 0 <= i < |s| ==> WordStart(t, i) == WordStart(s, i);
  }

  /** Capitalising changes letter case only. */
  lemma {:induction false} TitleCaseKeepsLowerForm(s: string)
    ensures LowerStr(TitleCase(s)) == LowerStr(s)
  {
    var t := TitleCase(s);
    assert forall i :: 0 <= i < |s| ==> ToLower(t[i]) == ToLower(s[i]);
  }

  /** An unknown snake-case key is shown as capitalised words: "sack_yds" becomes "Sack Yds". */
  lemma FallbackExample()
    ensures FormatPropDisplayName("sack_yds") == "Sack Yds"
  {
    assert "sack_yds" !in PropLabels by {
      assert forall k | k in PropLabels :: |k| != 8;
    }
    CapitaliseExample();
  }

  lemma CapitaliseExample()
    ensures FallbackLabel("sack_yds") == "Sack Yds"
  {
    var spaced := ReplaceChar("sack_yds", '_', ' ');
    assert spaced == "sack yds" by {
      forall i | 0 <= i < 8
        ensures spaced[i] == "sack yds"[i]
      {
      }
    }
    SackYdsCapitalised();
  }

  /** The words of "sack yds" start at positions 0 and 5. */
  lemma SackYdsCapitalised()
    ensures TitleCase("sack yds") == "Sack Yds"
  {
    var s := "sack yds";
    var r := TitleCase(s);
    assert WordStart(s, 0) && WordStart(s, 5);
    assert IsWordChar(s[0]) && IsWordChar(s[1]) && IsWordChar(s[2]) && !IsWordChar(s[4]);
    assert IsWordChar(s[5]) && IsWordChar(s[6]);
    assert !WordStart(s, 1) && !WordStart(s, 2) && !WordStart(s, 3) && !WordStart(s, 4);
    assert !WordStart(s, 6) && !WordStart(s, 7);
    assert r[0] == 'S' && r[1] == 'a' && r[2] == 'c' && r[3] == 'k';
    assert r[4] == ' ' && r[5] == 'Y' && r[6] == 'd' && r[7] == 's';
  }

  /** The prop format is used exactly for the legs categorised as player props. */
  lemma DescriptionMatchesCategory(leg: Leg)
    ensures GetBetTypeCategory(leg) == PlayerPropBet <==> FormatLegDescription(leg) != leg.selection
  {
    var d := FormatLegDescription(leg);
    if GetBetTypeCategory(leg) == PlayerPropBet {
      assert |d| > |leg.selection|;
    }
  }

  /** Anytime-touchdown markets are touchdown markets. */
  lemma AnytimeIsTouchdown(marketKey: string)
    ensures IsAnytimeTouchdownProp(marketKey) ==> IsTouchdownProp(marketKey)
  {
  }

  /** Exactly three markets are touchdown markets, and every one of them has a label. */
  lemma TouchdownMarkets(marketKey: string)
    ensures IsTouchdownProp(marketKey) <==>
      marketKey == "player_anytime_td" || marketKey == "player_1st_td" || marketKey == "player_last_td"
    ensures |TouchdownKeys| == 3 && TouchdownKeys[0] != TouchdownKeys[1]
      && TouchdownKeys[1] != TouchdownKeys[2] && TouchdownKeys[0] != TouchdownKeys[2]
    ensures IsTouchdownProp(marketKey) ==> marketKey in PropLabels
  {
  }
}
