# Parlay pal — a Dafny model of the league's betting rules

The application runs a weekly group parlay. Every member submits one "leg" (a
single bet) per week. A commissioner approves or rejects the legs and moves the
week through OPEN, LOCKED and FINALIZED. The approved legs are combined into one
parlay, whose decimal odds are the product of the legs' odds. This project models
the deterministic rules inside the screens and the odds-refresh function:

- **Odds arithmetic**: American and decimal odds, the combined odds and the payout.
- **Validation**: the odds validators and the manual-entry forms.
- **Odds refresh**: the bookmaker-odds selection done by the refresh function.
- **Bet options**: the bet options offered for a cached game.
- **Lifecycles**: the leg and week lifecycles, as writes to in-memory tables.
- **Derived figures**: the choice of the "current week", parlay previews,
  countdowns and the administrators' statistics.

Modelling conventions:

- Numbers are exact rationals (`real`).
- A JavaScript number that may be NaN or infinite is a `JsNum.Num`, and a nullable one is an `Option<Num>`.
- `Math.round` is `JsNum.Round`, which is ⌊x + ½⌋.
- `parseInt` is modelled in full (`JsNum.ParseInt`).
- `parseFloat` is a function parameter.
- Tables are maps from ids to rows for writes (`Records.Legs`, `Records.Weeks`), and sequences of rows for query results.
- Every query, insert and update is a function of those values. Whether a request fails is a parameter.
- The clock is a parameter `now` (milliseconds).

Modules follow the source files: `Parlay` (`src/lib/parlay.ts`),
`OddsValidation`, `PropUtils`, `FetchOdds`, `EnhancedCreateLeg`, `SubmitLeg`,
`EditLeg`, `CreateLeg`, `LegApproval`, `WeekManagement`, `CurrentWeek`
(`useCurrentWeek`), `Dashboard`, `GroupCoordination`, `SimpleParlayBuilder`,
`UserManagement`, `UserActivity`, `AdminDashboard`. The shared modules are:

- `Records`: the rows and the table writes.
- `WeekView`: the countdown split and the status filters.
- `JsNum`: numbers, rendering and `parseInt`.
- `Text`: strings.
- `Wrappers`: `Option` and `Result`.

## Model

| member | source | states |
|---|---|---|
| Parlay.AmericanToDecimal | src/lib/parlay.ts:3-5 | for non-zero odds the multiplier exceeds 1; positive odds pay `a` per 100 staked, negative odds need `|a|` staked to win 100 |
| Parlay.AmericanToDecimalJs | src/lib/parlay.ts:4 | on every runtime number: agrees with the exact conversion off 0, gives +Infinity at 0 (division by `|0|`), propagates NaN |
| Parlay.DecimalToAmerican | src/lib/parlay.ts:7-10 | at least +100 from decimal 2 upward, at most -100 strictly between 1 and 2 |
| Parlay.DecimalAmericanRoundTrip | src/lib/parlay.ts:3-10 | converting whole odds with `|a| >= 100` to decimal and back returns them, except -100, which returns +100 |
| Parlay.DecimalAmericanRoundTripLossy | src/lib/parlay.ts:3-10 | inside (-100, 100) the round trip is lossy: +50 comes back as -200 |
| Parlay.ParlayOfNone | src/lib/parlay.ts:12-14 | the empty parlay has combined odds 1 |
| Parlay.ParlayAppend | src/lib/parlay.ts:12-14 | appending a leg multiplies the combined odds by that leg's odds |
| Parlay.ParlayConcat | src/lib/parlay.ts:12-14 | the combined odds of two lists concatenated are the product of their combined odds |
| Parlay.ParlayPermutation | src/lib/parlay.ts:12-14 | the combined odds do not depend on the order of the legs (any permutation gives the same product) |
| Parlay.ParlayDominatesLegs | src/lib/parlay.ts:12-14 | when every leg's odds exceed 1, the combined odds exceed 1 and are at least every leg's odds |
| Parlay.ParlayPayout | src/lib/parlay.ts:16-19 | the payout in cents is the stake times the decimal odds, rounded |
| Parlay.PayoutAtEvenReturn | src/lib/parlay.ts:16-19 | at decimal odds 1 a whole stake comes back unchanged |
| Parlay.PayoutMonotone | src/lib/parlay.ts:16-19 | for a non-negative stake the payout never decreases as the odds grow |
| Parlay.ThreeLegScenario | src/lib/parlay.ts:12-19 | legs 1.91, 2.50 and 1.80 combine to 8.595, and 1000 cents pay 8595 |
| OddsValidation.ValidOddsCharacterised | src/lib/oddsValidation.ts:3-13 | odds are valid exactly when present, finite (not NaN or infinite) and between -10000 and 10000 |
| OddsValidation.ZeroAndFractionAccepted | src/lib/oddsValidation.ts:9-12 | 0 and -110.5 pass the odds validator: it has no zero or whole-number check |
| OddsValidation.ValidOddsIsValidLine | src/lib/oddsValidation.ts:15-22 | valid odds are always a valid line |
| OddsValidation.LineWithoutRangeBound | src/lib/oddsValidation.ts:15-22 | a line has no range bound: 20000 is a valid line but not valid odds |
| OddsValidation.FormatOdds | src/lib/oddsValidation.ts:24-31 | "N/A" exactly when the odds are invalid; otherwise a leading '+' exactly for positive odds and '-' for negative ones |
| OddsValidation.FormatZero | src/lib/oddsValidation.ts:24-31 | odds 0 render as "0" |
| OddsValidation.FormatOddsParses | src/lib/oddsValidation.ts:24-31 | `parseInt` reads a formatted whole number in range back as that number |
| OddsValidation.PriceValidatorsAgree | src/lib/oddsValidation.ts:33-39 | the player-prop and yes-price validators accept exactly what the odds validator accepts |
| PropUtils.GameMarketLabels | src/lib/propUtils.ts:46-50 | 'h2h' is "Moneyline", 'spreads' "Point Spread", and both 'totals' and 'total' are "Total Points" |
| PropUtils.AnytimeTouchdownLabel | src/lib/propUtils.ts:26 | the key 'player_anytime_td' is shown as "Anytime TD" |
| PropUtils.LastTouchdownLabel | src/lib/propUtils.ts:28 | the key 'player_last_td' is shown as "Last TD" |
| PropUtils.CombinedYardsLabel | src/lib/propUtils.ts:42 | the key 'player_pass_rush_reception_yds' is shown as "Pass + Rush + Rec Yards" |
| PropUtils.LabelsNonEmpty | src/lib/propUtils.ts:4-53 | every table label is non-empty, so the `||` fallback is taken only for keys outside the table |
| PropUtils.FormatPropDisplayName | src/lib/propUtils.ts:3-54 | a listed key gives its label, any other key gives the fallback label |
| PropUtils.FallbackLabel | src/lib/propUtils.ts:53 | the fallback keeps the key's length, contains no '_', and matches the key with '_' as ' ' up to letter case |
| PropUtils.TitleCase | src/lib/propUtils.ts:53 | exactly the characters that start a word (a word character not preceded by one) are upper-cased |
| PropUtils.TitleCaseIdempotent | src/lib/propUtils.ts:53 | capitalising twice changes nothing more than capitalising once |
| PropUtils.TitleCaseKeepsLowerForm | src/lib/propUtils.ts:53 | capitalising changes only letter case |
| PropUtils.FallbackExample | src/lib/propUtils.ts:53 | an unlisted key 'sack_yds' is shown as "Sack Yds" |
| PropUtils.FormatLegDescription | src/lib/propUtils.ts:56-69 | with a player name and a prop type both non-empty the description is "player - label: selection", otherwise the bare selection |
| PropUtils.GetBetTypeCategory | src/lib/propUtils.ts:71-77 | 'player_prop' exactly when player name and prop type are both non-empty |
| PropUtils.DescriptionMatchesCategory | src/lib/propUtils.ts:56-77 | a leg is a player prop exactly when its description differs from its selection |
| PropUtils.AnytimeIsTouchdown | src/lib/propUtils.ts:79-85 | an anytime-touchdown key is a touchdown key |
| PropUtils.TouchdownMarkets | src/lib/propUtils.ts:83-85 | exactly three distinct keys are touchdown keys, all of them labelled in the table |
| FetchOdds.ScanBookmakersIsFold | supabase/functions/fetch-odds/index.ts:264-302 | the three nested loops visit the flat list of (bookmaker, market, outcome) offers in order, one step each |
| FetchOdds.FoldNoHits | supabase/functions/fetch-odds/index.ts:257-301 | with distinct home and away team names, a slot that no offer names keeps its starting value, so it stays null |
| FetchOdds.FoldFills | supabase/functions/fetch-odds/index.ts:264-298 | with distinct home and away team names, a filled slot is never emptied, and any candidate fills an empty slot |
| FetchOdds.FoldLastPreferred | supabase/functions/fetch-odds/index.ts:264-298 | with distinct home and away team names, the slot ends with the last DraftKings candidate, whatever came before |
| FetchOdds.FoldFirstHit | supabase/functions/fetch-odds/index.ts:264-298 | with distinct home and away team names, without DraftKings candidates an empty slot ends with the first candidate |
| FetchOdds.ExtractBestOddsRule | supabase/functions/fetch-odds/index.ts:256-305 | with distinct home and away team names, each slot is null iff no offer names it; else the last DraftKings candidate if any; else the first candidate |
| FetchOdds.FoldProvenance | supabase/functions/fetch-odds/index.ts:264-298 | with distinct home and away team names, whatever a slot holds is its starting value or one of its candidate offers |
| FetchOdds.RowSidesFromOneOutcome | supabase/functions/fetch-odds/index.ts:139-148 | with distinct home and away team names, for the home and away spread, the over and the under, a stored price comes with the line of the same offered outcome for that side |
| FetchOdds.IrrelevantOfferIgnored | supabase/functions/fetch-odds/index.ts:269-300 | an offer from another market, or naming neither team nor Over/Under, changes nothing |
| FetchOdds.HomeNeverFillsAway | supabase/functions/fetch-odds/index.ts:272-287 | with distinct team names, a home-team outcome never fills an away slot |
| FetchOdds.MissingPointStillBlocks | supabase/functions/fetch-odds/index.ts:281-283 | with distinct home and away team names, a first spread outcome without a point still blocks a later non-DraftKings outcome |
| FetchOdds.LeagueName | supabase/functions/fetch-odds/index.ts:127-130 | "AMERICANFOOTBALL NFL PRESEASON" iff the sport key is the preseason key, else "AMERICANFOOTBALL NFL" |
| FetchOdds.PreseasonLeague | supabase/functions/fetch-odds/index.ts:127-135 | a preseason event's row carries the preseason league, a regular one the regular league |
| FetchOdds.ToRow | supabase/functions/fetch-odds/index.ts:132-150 | the row carries the league of its sport and the event's home team, away team and id |
| FetchOdds.CollectedCount | supabase/functions/fetch-odds/index.ts:115-151 | one row is collected for every event of every successful sport request |
| FetchOdds.GamesToStore | supabase/functions/fetch-odds/index.ts:162-165 | the fallback games replace the collected ones exactly when no request succeeded or nothing was collected; never empty |
| FetchOdds.FallbackIffNothingCollected | supabase/functions/fetch-odds/index.ts:162-165 | the same decision stated over the event count of the successful requests |
| EnhancedCreateLeg.GetBetOptions | src/components/dashboard/EnhancedCreateLegModal.tsx:296-360 | at most six options, all with odds in range, a finite line for spreads and totals, in the order moneyline, spread, total |
| EnhancedCreateLeg.BetOptionCounts | src/components/dashboard/EnhancedCreateLegModal.tsx:300-357 | the number of options of each kind is the number of its sides whose odds, and for spreads and totals whose line, are valid; no prop options |
| EnhancedCreateLeg.BetOptionsOrder | src/components/dashboard/EnhancedCreateLegModal.tsx:296-360 | the options come in the fixed order home moneyline, away moneyline, home spread, away spread, over, under, each at its position exactly when offered |
| EnhancedCreateLeg.MoneylineOffered | src/components/dashboard/EnhancedCreateLegModal.tsx:300-315 | a team's moneyline option is offered exactly at that team's valid price (when the two team names differ) |
| EnhancedCreateLeg.SpreadOffered | src/components/dashboard/EnhancedCreateLegModal.tsx:318-337 | a team's spread option is offered exactly at that team's valid line and price (when the two team names differ) |
| EnhancedCreateLeg.TotalOffered | src/components/dashboard/EnhancedCreateLegModal.tsx:340-357 | the over and the under option are each offered exactly at their own valid line and price |
| EnhancedCreateLeg.HomeMoneylineFirst | src/components/dashboard/EnhancedCreateLegModal.tsx:300-307 | with valid home moneyline odds the first option is the home team's moneyline |
| EnhancedCreateLeg.NoValidPricesNoOptions | src/components/dashboard/EnhancedCreateLegModal.tsx:296-360 | a game without any valid price offers nothing |
| EnhancedCreateLeg.SpreadText | src/components/dashboard/EnhancedCreateLegModal.tsx:319 | a spread is shown with '+' exactly when positive, and negative spreads keep their '-' |
| EnhancedCreateLeg.PropOptions | src/components/dashboard/EnhancedCreateLegModal.tsx:377-433 | at most two options per prop, at most one when the point is not a valid line; each carries its player, market and category |
| EnhancedCreateLeg.OverUnderLines | src/components/dashboard/EnhancedCreateLegModal.tsx:378-404 | with a valid point and both prices the Over option has line = point and the Under option line = -point |
| EnhancedCreateLeg.MainPriceOnlyAsFallback | src/components/dashboard/EnhancedCreateLegModal.tsx:406-419 | the main price is used only when neither the over nor the under price is valid |
| EnhancedCreateLeg.GetPlayerPropOptions | src/components/dashboard/EnhancedCreateLegModal.tsx:363-440 | the options are a permutation of the filtered ones, sorted by player name, each from an allowed category and a matching player |
| EnhancedCreateLeg.SelectedCategoryOnly | src/components/dashboard/EnhancedCreateLegModal.tsx:370 | with a category selected (not empty or 'all') every option comes from that category |
| EnhancedCreateLeg.FormatPropName | src/components/dashboard/EnhancedCreateLegModal.tsx:443-466 | a listed key gives its label, any other key only has '_' replaced by ' ' |
| EnhancedCreateLeg.LabelTablesDisagree | src/components/dashboard/EnhancedCreateLegModal.tsx:443-466 | 'player_last_td' is in the shared table but not in this dialog's, so the dialog shows the key with underscores as spaces, which differs from the shared label |
| EnhancedCreateLeg.SameWordsOutsideTables | src/components/dashboard/EnhancedCreateLegModal.tsx:465 | outside both tables the two label functions differ only in letter case |
| EnhancedCreateLeg.LegsOfUserInWeek | src/components/dashboard/EnhancedCreateLegModal.tsx:484-489 | exactly the legs of that user in that week |
| EnhancedCreateLeg.BetDraft | src/components/dashboard/EnhancedCreateLegModal.tsx:501-525 | a PENDING 'odds_api' DraftKings leg whose decimal odds are converted from its odds, market key the prop type for props and the bet type otherwise |
| EnhancedCreateLeg.SubmitLeg | src/components/dashboard/EnhancedCreateLegModal.tsx:474-530 | nothing without user, game and bet; with all three, a leg is stored exactly when the user has no leg that week, the id is new, the week exists and the odds are non-zero; the stored row is the drafted leg |
| EnhancedCreateLeg.SecondSubmissionRefused | src/components/dashboard/EnhancedCreateLegModal.tsx:484-499 | after one successful submission the same user's second one in that week is refused |
| SubmitLeg.ValidateForm | src/components/dashboard/SubmitLegModal.tsx:35-66 | missing-field error iff a description or selection is blank or market or odds empty; else odds out of range, NaN or 0 are refused; else raw notes over 500 characters |
| SubmitLeg.ValidFormCharacterised | src/components/dashboard/SubmitLegModal.tsx:35-66 | a form passes exactly when every check passes, whatever their order |
| SubmitLeg.SanitizeNotes | src/components/dashboard/SubmitLegModal.tsx:91 | stored notes are non-empty, tag-free and no longer than the input; blank notes are stored as null |
| SubmitLeg.PlainNotesOnlyTrimmed | src/components/dashboard/SubmitLegModal.tsx:91 | notes without '<' are only trimmed |
| SubmitLeg.SanitizeStable | src/components/dashboard/SubmitLegModal.tsx:91 | sanitising a sanitised, trimmed note again changes nothing |
| SubmitLeg.FormDraft | src/components/dashboard/SubmitLegModal.tsx:73-93 | the insert carries the parsed odds, their decimal conversion, the trimmed texts and the sanitised notes |
| SubmitLeg.Submit | src/components/dashboard/SubmitLegModal.tsx:68-93 | a leg is stored exactly when the form is valid, a user is signed in, the id is new and the week exists; it is PENDING with odds in range, non-zero, and decimal odds converted from them |
| SubmitLeg.FormattedOddsAccepted | src/components/dashboard/SubmitLegModal.tsx:45-46 | odds rendered by `formatOdds` (non-zero, in range) pass the form's odds check |
| SubmitLeg.FractionDropped | src/components/dashboard/SubmitLegModal.tsx:45 | `parseInt` drops a fraction: "-110.5" reads as -110 |
| SubmitLeg.FractionalOddsAccepted | src/components/dashboard/SubmitLegModal.tsx:35-66 | a form whose odds carry a fraction passes when the whole part is acceptable |
| EditLeg.LoadForm | src/components/dashboard/EditLegModal.tsx:39-53 | the form shows the leg's odds as text, its decimal odds, an empty line for no line, and empty texts for null names |
| EditLeg.OddsChange | src/components/dashboard/EditLegModal.tsx:55-63 | the text always follows the input; the preview is recomputed only for odds the validator accepts and is kept otherwise |
| EditLeg.ZeroOddsPreview | src/components/dashboard/EditLegModal.tsx:55-63 | typing "0" makes the preview +Infinity |
| EditLeg.EditPatch | src/components/dashboard/EditLegModal.tsx:81-92 | the update writes the odds, their conversion, empty name and category as null, an empty line as null, and the time |
| EditLeg.SubmitEdit | src/components/dashboard/EditLegModal.tsx:65-99 | nothing without a leg; invalid odds refused; the update fails exactly for an existing leg with odds 0 |
| EditLeg.ZeroOddsEditFails | src/components/dashboard/EditLegModal.tsx:69-85 | odds "0" on an existing leg end in a refused write of `decimal_odds` |
| EditLeg.SubmitEditGuarded | src/components/dashboard/EditLegModal.tsx:65-99 | with 0 also refused, every accepted edit of an existing leg is stored with decimal odds converted from the odds and the status kept |
| EditLeg.GuardsAgreeOffZero | src/components/dashboard/EditLegModal.tsx:69-77 | off 0, the corrected guard behaves exactly as the original |
| EditLeg.UnchangedFormRewritesOdds | src/components/dashboard/EditLegModal.tsx:44-85 | saving an unchanged form stores the odds truncated toward zero and decimal odds recomputed from them |
| EditLeg.WholeOddsKept | src/components/dashboard/EditLegModal.tsx:44-85 | whole odds survive the round trip through the form |
| EditLeg.EmptyTextSavedAsNull | src/components/dashboard/EditLegModal.tsx:88-90 | an empty player name or category is saved as null |
| CreateLeg.InlineDecimal | src/components/dashboard/CreateLegModal.tsx:73-79 | for finite non-zero odds the inline conversion equals `americanToDecimal` |
| CreateLeg.InlineIsAmericanToDecimal | src/components/dashboard/CreateLegModal.tsx:73-79 | on every runtime number, 0 and NaN included, the inline conversion is `americanToDecimal` |
| CreateLeg.CreateDraft | src/components/dashboard/CreateLegModal.tsx:83-96 | "teamA vs teamB", the lower-cased sport, the bet type as market, PENDING, 'manual', 'Manual Entry' |
| CreateLeg.Submit | src/components/dashboard/CreateLegModal.tsx:57-98 | nothing without a user; created exactly when the id is new, the week exists and the odds are finite and non-zero |
| CreateLeg.UnreadableOddsRefused | src/components/dashboard/CreateLegModal.tsx:73-91 | unreadable odds reach the table as null and are refused |
| CreateLeg.GeneratedWeekIdRefused | src/components/dashboard/CreateLegModal.tsx:85 | a week id that names no week is refused by the table's reference to weeks |
| LegApproval.FilterStatuses | src/components/admin/LegApproval.tsx:30-42 | 'all_statuses' shows every status, 'pending'/'conflict'/'approved' one each, any other value PENDING and CONFLICT |
| LegApproval.Shown | src/components/admin/LegApproval.tsx:30-42 | exactly the legs whose status the filter admits |
| LegApproval.ShownByFilter | src/components/admin/LegApproval.tsx:30-42 | every leg shows under 'all_statuses'; an approved leg is hidden under the default filter |
| LegApproval.Actions | src/components/admin/LegApproval.tsx:384-426 | an OK leg offers only PENDING; any other offers OK, DUPLICATE, CONFLICT and REJECTED, without repeats |
| LegApproval.ActionsReachApproval | src/components/admin/LegApproval.tsx:384-426 | every non-OK leg can be approved, and an approved leg can go back to PENDING and be approved again |
| LegApproval.StatusPatch | src/components/admin/LegApproval.tsx:84-87 | the update writes the status and the draft note, null when the note is empty |
| LegApproval.StatusPatchKeepsRow | src/components/admin/LegApproval.tsx:84-87 | only status and notes of the row change |
| LegApproval.UpdateLegStatus | src/components/admin/LegApproval.tsx:80-104 | on success the leg gets the status and note, leaves the selection and its draft is cleared; on failure nothing changes |
| LegApproval.NoteWrittenOnce | src/components/admin/LegApproval.tsx:84-99 | a second update after a successful one writes a null note |
| LegApproval.Toggle | src/components/admin/LegApproval.tsx:139-149 | membership of exactly one id flips |
| LegApproval.ToggleTwice | src/components/admin/LegApproval.tsx:139-149 | toggling twice restores the selection |
| LegApproval.SelectAll | src/components/admin/LegApproval.tsx:151-154 | the selection is exactly the displayed legs' ids |
| LegApproval.SelectAllChecks | src/components/admin/LegApproval.tsx:151-158 | after selecting all the select-all box is checked; after clearing it is not |
| LegApproval.SelectAllSize | src/components/admin/LegApproval.tsx:151-154 | with distinct ids the selection has one entry per displayed leg |
| LegApproval.BatchUpdate | src/components/admin/LegApproval.tsx:106-137 | empty batch refused; failure iff some selected update fails; on success every selected leg updated, count = selection size, selection cleared |
| LegApproval.BatchOfOneIsSingleUpdate | src/components/admin/LegApproval.tsx:80-137 | a batch of one writes the same table as the single update |
| LegApproval.BatchKeepsDrafts | src/components/admin/LegApproval.tsx:106-137 | unlike the single update, a successful batch leaves the draft notes alone |
| WeekManagement.Transitions | src/components/admin/WeekManagement.tsx:143-172 | OPEN offers LOCKED; LOCKED offers OPEN and FINALIZED; FINALIZED offers nothing; never the current status |
| WeekManagement.MovesReversibleUntilFinal | src/components/admin/WeekManagement.tsx:143-172 | every offered move except finalising can be undone, and a finalized week has no moves |
| WeekManagement.FinalizeOnlyFromLocked | src/components/admin/WeekManagement.tsx:143-172 | any sequence of offered moves that reaches FINALIZED passes through LOCKED |
| WeekManagement.Buttons | src/components/admin/WeekManagement.tsx:134-172 | the lock-time action is offered in every status, and a status button exactly for each offered move |
| WeekManagement.StatusPatch | src/components/admin/WeekManagement.tsx:36-39 | writes the status, and `finalized_at` = now iff the status is FINALIZED, null otherwise |
| WeekManagement.UpdateWeekStatus | src/components/admin/WeekManagement.tsx:32-50 | only status and `finalized_at` of that week change; other weeks are untouched |
| WeekManagement.FinalizedAtTracksStatus | src/components/admin/WeekManagement.tsx:36-39 | after any status update `finalized_at` is set exactly when the week is FINALIZED |
| WeekManagement.SetDefaultLockTime | src/components/admin/WeekManagement.tsx:52-71 | only `locks_at` of that week changes |
| WeekManagement.LockTimeAndStatusCommute | src/components/admin/WeekManagement.tsx:32-71 | setting the lock time and changing the status touch disjoint fields, so their order does not matter |
| CurrentWeek.Latest | src/hooks/useCurrentWeek.ts:32-36 | the query with `order(...).limit(1)`: none iff no row is kept, else a kept row with the greatest key |
| CurrentWeek.HookWeek | src/hooks/useCurrentWeek.ts:24-62 | always an OPEN week; null iff none is OPEN; prefers the latest-opening week with opens_at ≤ now < locks_at, else the latest-opening OPEN week |
| CurrentWeek.FallbackOutsideWindow | src/hooks/useCurrentWeek.ts:41-56 | with no week in its window the fallback still returns an OPEN week outside it, opening no earlier than any OPEN week |
| WeekView.Split | src/components/dashboard/Dashboard.tsx:111-113 | days, hours < 24 and minutes < 60 decompose the remaining time, down to the minute |
| WeekView.SplitUnique | src/components/dashboard/Dashboard.tsx:111-113 | that decomposition is the only one |
| WeekView.StakeOr | src/components/dashboard/Dashboard.tsx:126 | the week's stake unless there is no week or it is 0, then the fallback |
| WeekView.WithStatusMembers | src/components/dashboard/Dashboard.tsx:121 | the filter keeps exactly the legs whose status is listed |
| WeekView.StatusPartition | src/components/admin/EnhancedAdminDashboard.tsx:68-70 | a status set and its complement split the legs between them |
| WeekView.WithStatusDisjoint | src/components/admin/EnhancedAdminDashboard.tsx:68-70 | filters on disjoint status sets count separately what their union counts |
| WeekView.WeekLegs | src/components/admin/EnhancedAdminDashboard.tsx:63-66 | exactly the legs of the given week |
| Dashboard.DashboardWeek | src/components/dashboard/Dashboard.tsx:38-50 | the OPEN week with opens_at ≤ now ≤ locks_at (inclusive) and the greatest opens_at; none iff there is none |
| Dashboard.NoFallback | src/components/dashboard/Dashboard.tsx:38-50 | unlike the hook, the dashboard shows no week when only out-of-window OPEN weeks exist |
| Dashboard.AgreesWithHookOffLockInstant | src/components/dashboard/Dashboard.tsx:38-50 | except at the exact lock instant, a dashboard week is one the hook's window rule also picks |
| Dashboard.LockText | src/components/dashboard/Dashboard.tsx:102-118 | "" iff no week, "LOCKED" iff locks_at − now ≤ 0; otherwise ends in 'h' with days, else in 'm', and starts with '0' iff under a minute is left |
| Dashboard.LockTextLeadCount | src/components/dashboard/Dashboard.tsx:111-117 | before the lock, `parseInt` of the text is the days left, else the hours, else the minutes |
| Dashboard.LockTextSecondCount | src/components/dashboard/Dashboard.tsx:111-116 | with days or hours left, the lead count is followed by "d " and the hours, or by "h " and the minutes, which `parseInt` reads back |
| Dashboard.ParlayPreview | src/components/dashboard/Dashboard.tsx:120-134 | none iff no leg is OK or PENDING; else their count, product of their decimal odds, stake (default 1000), rounded payout |
| Dashboard.PreviewSkipsUncounted | src/components/dashboard/Dashboard.tsx:121-122 | adding a leg that is neither OK nor PENDING changes nothing |
| Dashboard.PreviewCountsLeg | src/components/dashboard/Dashboard.tsx:121-130 | adding an OK or PENDING leg adds one leg and multiplies the combined odds by its odds |
| Dashboard.PreviewBeatsEachLeg | src/components/dashboard/Dashboard.tsx:124-130 | with all odds above 1 the combined odds exceed 1 and every counted leg's odds |
| Dashboard.UserLeg | src/components/dashboard/Dashboard.tsx:91 | the signed-in user's first leg in list order, none iff no user or no leg of theirs |
| Dashboard.CanSubmit | src/components/dashboard/Dashboard.tsx:222 | offered iff the week is OPEN and a signed-in user has no leg |
| Dashboard.SubmittedLegHidesButton | src/components/dashboard/Dashboard.tsx:222 | once a user's leg is listed the button is gone |
| GroupCoordination.GroupWeek | src/components/group/GroupCoordination.tsx:22-28 | the OPEN week with the greatest week number; none iff none is OPEN |
| GroupCoordination.UserIds | src/components/group/GroupCoordination.tsx:71 | exactly the user ids among the legs |
| GroupCoordination.SubmittedUsers | src/components/group/GroupCoordination.tsx:71 | at most the number of legs, and 0 only without legs |
| GroupCoordination.OneLegEachCountsAll | src/components/group/GroupCoordination.tsx:71 | with one leg per user it equals the number of legs |
| GroupCoordination.PendingApproval | src/components/group/GroupCoordination.tsx:171 | legs − OK legs is the count of non-OK legs, never negative |
| GroupCoordination.ParlayPreview | src/components/group/GroupCoordination.tsx:75-89 | none iff no leg is OK; else their count, product of decimals, stake (default 13000), rounded payout |
| GroupCoordination.PreviewsCompared | src/components/group/GroupCoordination.tsx:75-89 | whenever this preview exists the dashboard's does too, with no fewer legs; all-PENDING legs show only on the dashboard |
| GroupCoordination.LockText | src/components/group/GroupCoordination.tsx:93-107 | "No active week" iff no week, "Locked" iff diff ≤ 0, otherwise always contains hours |
| GroupCoordination.LockTextLeadCount | src/components/group/GroupCoordination.tsx:102-106 | before the lock, `parseInt` of the text is the days left, else the hours (0 in the last hour) |
| GroupCoordination.LockTextSecondCount | src/components/group/GroupCoordination.tsx:102-106 | before the lock, the lead count is followed by "d " and the hours, or by "h " and the minutes, which `parseInt` reads back |
| GroupCoordination.LockTextsAgree | src/components/group/GroupCoordination.tsx:93-107 | with days or hours left the text is the dashboard's |
| GroupCoordination.LockTextsLastHour | src/components/group/GroupCoordination.tsx:93-107 | in the last hour it is "0h " before the dashboard's minutes-only text: it never shows minutes alone |
| SimpleParlayBuilder.Toggle | src/components/dashboard/SimpleParlayBuilder.tsx:25-31 | adds an absent id at the end, removes a present one, leaves other ids alone |
| SimpleParlayBuilder.ToggleKeepsDistinct | src/components/dashboard/SimpleParlayBuilder.tsx:25-31 | the selection never holds duplicates |
| SimpleParlayBuilder.ToggleTwice | src/components/dashboard/SimpleParlayBuilder.tsx:25-31 | toggling an absent id twice restores the selection |
| SimpleParlayBuilder.Chosen | src/components/dashboard/SimpleParlayBuilder.tsx:23-34 | exactly the PENDING legs that are selected |
| SimpleParlayBuilder.SettledLegsIgnored | src/components/dashboard/SimpleParlayBuilder.tsx:23-34 | selecting a leg that is not PENDING changes nothing |
| SimpleParlayBuilder.StakeValue | src/components/dashboard/SimpleParlayBuilder.tsx:53 | an unparsable stake counts as 0, anything else as parsed |
| SimpleParlayBuilder.CombinedAmerican | src/components/dashboard/SimpleParlayBuilder.tsx:39-51 | follows `decimalToAmerican`, and decimal 1 gives -Infinity |
| SimpleParlayBuilder.Calculate | src/components/dashboard/SimpleParlayBuilder.tsx:33-62 | empty choice gives 0 and 0; else decimal is the product of the chosen odds, payout stake × decimal, profit payout − stake |
| SimpleParlayBuilder.SingleLegShowsItsOdds | src/components/dashboard/SimpleParlayBuilder.tsx:39-51 | one leg with whole odds `|a| ≥ 100` shows its own odds back, -100 as +100 |
| SimpleParlayBuilder.UnparsableStakePaysNothing | src/components/dashboard/SimpleParlayBuilder.tsx:53-60 | an unparsable stake pays 0 with profit 0 |
| SimpleParlayBuilder.Create | src/components/dashboard/SimpleParlayBuilder.tsx:64-88 | refused iff fewer than 2 are selected; otherwise the selection and stake are reset |
| SimpleParlayBuilder.StaleSelectionCreates | src/components/dashboard/SimpleParlayBuilder.tsx:64-88 | the guard counts selected ids, not PENDING legs: two stale ids create a parlay with no legs' odds |
| UserManagement.CountLegsSplit | src/components/admin/UserManagement.tsx:67-75 | counts over disjoint status sets add up |
| UserManagement.StatsFor | src/components/admin/UserManagement.tsx:67-75 | approved + pending + rejected ≤ total, the difference being the DUPLICATE and CONFLICT legs |
| UserManagement.StatsMap | src/components/admin/UserManagement.tsx:65-76 | one entry per profile, a failed legs query counting as no legs |
| UserManagement.MemberWithoutLegs | src/components/admin/UserManagement.tsx:65-76 | a member without legs gets an entry with all counts 0 |
| UserManagement.FilterUsers | src/components/admin/UserManagement.tsx:150-154 | keeps exactly the users whose lower-cased name, email or team contains the lower-cased term, adding none |
| UserManagement.FilterUsersAppend | src/components/admin/UserManagement.tsx:150-154 | the filter keeps the users' order |
| UserManagement.EmptySearchKeepsAll | src/components/admin/UserManagement.tsx:150-154 | an empty search keeps every user |
| UserManagement.UpdateUserInfo | src/components/admin/UserManagement.tsx:117-144 | only that user's name and team change, an empty team stored as null |
| UserManagement.UnchangedEditKeepsProfile | src/components/admin/UserManagement.tsx:117-144 | saving the dialog unchanged keeps the profile, except that an empty team becomes null |
| UserManagement.UpdateUserRole | src/components/admin/UserManagement.tsx:92-115 | only that user's role changes |
| UserManagement.InfoAndRoleCommute | src/components/admin/UserManagement.tsx:92-144 | the two edits touch disjoint fields and commute |
| UserActivity.ActivityOf | src/components/admin/UserActivityCard.tsx:50-59 | submitted iff the user has a leg in the week; status and time present exactly then, taken from such a leg |
| UserActivity.ActivityFromFirstLeg | src/components/admin/UserActivityCard.tsx:51 | status and time come from the user's first leg |
| UserActivity.Activities | src/components/admin/UserActivityCard.tsx:50-59 | one activity per profile, in profile order |
| UserActivity.Sort | src/components/admin/UserActivityCard.tsx:62-67 | a permutation ordered submitters first, then by name |
| UserActivity.SubmittersFirst | src/components/admin/UserActivityCard.tsx:62-67 | in the sorted list no non-submitter precedes a submitter |
| UserActivity.Load | src/components/admin/UserActivityCard.tsx:27-69 | nothing fetched without a current week; else the sorted activities of every profile |
| UserActivity.SubmittedCount | src/components/admin/UserActivityCard.tsx:82-83 | submitted count ≤ total |
| UserActivity.CountIndependentOfOrder | src/components/admin/UserActivityCard.tsx:62-83 | sorting does not change the count |
| UserActivity.CompletionPercent | src/components/admin/UserActivityCard.tsx:170-174 | between 0 and 100; 0 with no users or no submissions; 100 when all submitted |
| AdminDashboard.AdminWeek | src/components/admin/EnhancedAdminDashboard.tsx:55-60 | the most recently created week, whatever its status; none iff no weeks |
| AdminDashboard.NewestWeekWhateverStatus | src/components/admin/EnhancedAdminDashboard.tsx:55-60 | the week created strictly after every other one is chosen, whatever any week's status |
| AdminDashboard.AverageOdds | src/components/admin/EnhancedAdminDashboard.tsx:72-83 | never negative and 0 without legs |
| AdminDashboard.AverageWithinBounds | src/components/admin/EnhancedAdminDashboard.tsx:72-83 | when every leg's absolute odds lie between two whole numbers, so does the rounded mean |
| AdminDashboard.ComputeStats | src/components/admin/EnhancedAdminDashboard.tsx:50-85 | users from the count (0 when it fails); pending + approved + rejected ≤ submissions; submissions are that week's legs; stake and status from it |
| AdminDashboard.Participation | src/components/admin/EnhancedAdminDashboard.tsx:216 | 0 without users, never negative, at most 100 when submissions ≤ users |
| AdminDashboard.ParticipationCountsLegs | src/components/admin/EnhancedAdminDashboard.tsx:216 | it counts legs, not members: one member, two legs gives 200 |
| AdminDashboard.NotSubmittedAlert | src/components/admin/EnhancedAdminDashboard.tsx:281-286 | shown iff submissions < users, with users − submissions > 0 |
| AdminDashboard.AlertMeansIncomplete | src/components/admin/EnhancedAdminDashboard.tsx:216-286 | while the alert shows, participation is at most 100 |
| Records.InsertLeg | src/integrations/supabase/types.ts:38-86 | stored iff the id is new, the week exists and both odds are numbers; nothing else changes |
| Records.InsertNeedsWeek | src/integrations/supabase/types.ts:78-86 | an insert naming no week is refused |
| Records.UpdateLeg | src/integrations/supabase/types.ts:58-86 | fails iff the row exists and the update writes null odds; otherwise only that row changes, or nothing when it is missing |
| Records.JsonNumber | src/components/dashboard/EditLegModal.tsx:85 | a number survives serialisation iff finite; NaN and infinities arrive as null |
| Records.OrNull | src/components/dashboard/EditLegModal.tsx:88-90 | `s || null`: null exactly for the empty string |
| Records.OrNullOrEmpty | src/components/dashboard/EditLegModal.tsx:48-90 | loading a nullable text as `|| ''` and saving it as `|| null` keeps it, except that "" becomes null |
| JsNum.Round | src/lib/parlay.ts:8 | `Math.round`: the nearest integer, halves rounded up |
| JsNum.RoundMonotone | src/lib/parlay.ts:18 | rounding never reverses an order |
| JsNum.ParseShowInt | src/components/dashboard/SubmitLegModal.tsx:45 | `parseInt` reads back any rendered integer |
| JsNum.ParseShowNum | src/components/dashboard/EditLegModal.tsx:44-69 | `parseInt` of a rendered number is that number truncated toward zero |
| Text.Trim | src/components/dashboard/SubmitLegModal.tsx:36 | the result is a slice of the input with no white space at either end |
| Text.TrimEmptyIffBlank | src/components/dashboard/SubmitLegModal.tsx:36 | trimming gives "" exactly for white-space-only text |
| Text.StripTags | src/components/dashboard/SubmitLegModal.tsx:91 | never longer than its input and adds no character |
| Text.StripTagsTagFree | src/components/dashboard/SubmitLegModal.tsx:91 | after stripping, no '<' is followed later by '>' |
| Text.StripTagsIdempotent | src/components/dashboard/SubmitLegModal.tsx:91 | stripping twice changes nothing more than stripping once |
| Text.Contains | src/components/admin/UserManagement.tsx:150-154 | `includes`: true exactly when the needle occurs at some position |
| Text.LowerStr | src/components/dashboard/CreateLegModal.tsx:86 | `toLowerCase` character by character on ASCII letters |

## Left out

- Network and database I/O. Every query, insert, update and edge-function call becomes a function over in-memory values. A request failure is a parameter (`requestFailed`, `failed`, `None` for a failed query). Row-level security, the 6-hour cache purge, the one-second pause between sport requests and the toasts are not modelled.
- Concurrency. The batch update's `Promise.all` is a sequential map with the failed ids given as a set. Races between the duplicate check and the insert are not modelled. The database's uniqueness constraint is not part of this model.
- IEEE floating point. Numbers are exact rationals. `toFixed` renderings, signed zero and `parseInt` on digit strings beyond 2^53 are not modelled.
- `parseFloat` for lines and stakes is a function parameter.
- JsNum.ShowNum: renders at most twenty fractional digits and never uses exponent notation, which the runtime uses from 1e21 upwards and below 1e-6. A rational with a longer or repeating expansion is cut there, whereas the runtime prints the shortest decimal that reads back as the same double.
- `formatCurrency` (`Intl.NumberFormat`) and the locale date renderings are not modelled.
- `localeCompare` is replaced by code-unit lexicographic order (`Text.StrLe`). Locale collation tables are not part of this model.
- Case mapping and white space follow ASCII letters and the ECMAScript white-space set. There is no Unicode case folding.
- `src/lib/dateUtils.ts` is not part of this model. The default lock time it computes is a parameter of `WeekManagement.SetDefaultLockTime`.
- The profile join of the leg lists is not modelled: it only adds display names.
- Query ties. `CurrentWeek.Latest` keeps the first of several rows with the greatest key. The database's order among equal keys is unspecified.
- The fallback games' contents are fixed constants in `FetchOdds.FallbackGames`. Their dates are not modelled.
- `getAvailableCategories` and the rest of the dialog's rendering are not modelled.
- Parlay.DecimalToAmerican: requires decimal ≠ 1, where the source divides by zero. The runtime value at 1 (-Infinity) is modelled separately by `SimpleParlayBuilder.CombinedAmerican`.
- Parlay.AmericanToDecimal: requires odds ≠ 0, where the source divides by |0|. The runtime value (+Infinity) is `Parlay.AmericanToDecimalJs`.
- CreateLeg.Submit: the week id is a parameter. The source generates a fresh random UUID, which names no week, so the table refuses the insert (`CreateLeg.GeneratedWeekIdRefused`).
- GroupCoordination: the completion percentage over the fixed target of 13 users is display arithmetic and is not modelled.
- Prototype keys of the label tables (e.g. "constructor") are not modelled. The tables are maps with exactly the listed keys.
- Auth, routing, the admin notification and settings mocks and the remaining presentation components are not part of this model.

## Findings

| source | as written | input that shows it | evidently intended | confidence | as-written member | corrected member |
|---|---|---|---|---|---|---|
| src/components/dashboard/EditLegModal.tsx:69-85 | The edit guard is `isValidOdds`, which admits 0. `americanToDecimal(0)` is `100 / 0 + 1 = Infinity`. Serialised, that is null, which the NOT NULL `decimal_odds` column refuses, so the save fails with a generic error. | odds text "0" on an existing leg | refuse 0 as the submission form does (`SubmitLegModal.tsx:46`), so that every accepted edit is stored | high (not executed) | EditLeg.ZeroOddsEditFails | EditLeg.SubmitEditGuarded |
