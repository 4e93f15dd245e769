# School election app: verified model of its client logic and request validators

This project models the parts of a school-election web application that have
behaviour you can state precisely. It covers:

- the voting page's 25-second re-vote cooldown and its vote submission;
- the server's two request validators (server/index.js registers only a `GET /` greeting and uses neither validator, so in this server neither one is reachable from a request; they are modelled as written);
- the vote total, the leader and the per-party shares on the results views;
- the admin panel's CSV export, vote reset and create-party form;
- the two admin password forms.

Each source file becomes one Dafny module:

| module | file | source |
|---|---|---|
| `VotePage` | vote.dfy | client/src/pages/Vote.jsx |
| `Validation` | validation.dfy | server/middleware/validation.js |
| `Results` | results.dfy | client/src/pages/Results.jsx |
| `ResultsChart` | results_chart.dfy | client/src/components/admin/ResultsChart.jsx |
| `Admin` | admin.dfy | client/src/pages/Admin.jsx |
| `AdminLoginPage` | admin_login_page.dfy | client/src/pages/AdminLoginPage.jsx |
| `AdminLoginDialog` | admin_login_dialog.dfy | client/src/components/admin/AdminLogin.jsx |

Three helper modules support them:

- `Wrappers` holds `Option`.
- `Parties` holds the party row, the "set a party's vote counter" request that both pages send, the table's reaction to it, and the vote total that three pages compute with the same `reduce`.
- `Text` holds JavaScript's `String(n)`, `join` and `split`, with split/join round-trip lemmas.

The code changes state step by step in four places: the voting page, the admin
panel's actions and form, and the two login forms. There the model is a class
whose fields are the component's React state, plus the browser-storage slots it
writes. Each handler or effect is a method whose `modifies` clause names the
fields it may change. The timer tick, the resolution of a request and the clock
reading are explicit method calls and parameters. The validators, the result
folds and the CSV text are pure code, so they become functions and lemmas.

In several places the code does not do what a reader might expect of such a flow. The model follows the code:

- A stored vote mark later than the clock still locks the page, with more than 25 seconds left. The code does not fail open (`VotePage.FutureMarkLocks`).
- A successful vote writes the mark but does not lock the page in the same session. The lock takes effect on the next mount (`VotePage.VotePage.Settle`, `VotePage.ScenarioVoteThenReload`). No second vote can be cast in between, though: the success screen replaces the party grid until the 2 s redirect unmounts the page (`VotePage.VotePage.ShowsPartyGrid`).
- The vote request sets `votes` to the client's snapshot plus one. It is not an atomic increment (`VotePage.VoteWritesSnapshotPlusOne`).
- There is no cancel step and no failure taxonomy. A request just succeeds or fails.
- The colour pattern is case-insensitive (the regular expression has the `i` flag), so `#3b82f6` is accepted.

## Model

| member | source | states |
|---|---|---|
| `VotePage.MountGate` | client/src/pages/Vote.jsx:27-37 | the mount effect locks iff the mark parses and elapsed = now − mark < 25000 ms; when locked, countdown c satisfies (c−1)·1000 < 25000 − elapsed ≤ c·1000 (the ceiling); an absent, empty or NaN mark leaves it unlocked with 0; `voteLocked ⇔ countdown > 0` holds |
| `VotePage.CeilSeconds` | client/src/pages/Vote.jsx:33 | `Math.ceil(d/1000)` for positive d is the least r with d ≤ 1000·r, and is at least 1 |
| `VotePage.CountdownInRange` | client/src/pages/Vote.jsx:30-34 | for 0 ≤ elapsed < 25000 the page locks with a countdown between 1 and 25 |
| `VotePage.UnlockedAtCooldown` | client/src/pages/Vote.jsx:29-31 | exactly 25000 ms after the mark the page is unlocked with countdown 0 |
| `VotePage.FutureMarkLocks` | client/src/pages/Vote.jsx:30-34 | a mark later than now still locks, with countdown above 25 (no fail-open) |
| `VotePage.TickGate` | client/src/pages/Vote.jsx:39-49 | a tick on a locked page lowers countdown by exactly 1 and unlocks exactly on the 1→0 step; otherwise nothing changes; it preserves `voteLocked ⇔ countdown > 0` |
| `VotePage.UnlocksAfterCountdown` | client/src/pages/Vote.jsx:39-49 | from a locked state with countdown c, after k ≤ c ticks the countdown is c − k, and the page is locked iff k < c |
| `VotePage.ProgressPercent` | client/src/pages/Vote.jsx:76 | the progress bar is 0 when unlocked, within [0, 100] for a countdown up to 25, and negative for the countdown a future mark produces |
| `VotePage.ProgressPerTick` | client/src/pages/Vote.jsx:76 | each tick that keeps the page locked advances the bar by exactly 4 points |
| `VotePage.VoteRequest` | client/src/pages/Vote.jsx:52-56 | the `update` call's payload, `{ votes: party.votes + 1 }` for the party's id; `VoteWritesSnapshotPlusOne` states its effect |
| `VotePage.VoteWritesSnapshotPlusOne` | client/src/pages/Vote.jsx:52-56 | the request names the party's id and sets its votes to the snapshot's votes + 1: on the table the voted row ends at snapshot + 1 whatever it held; with a current snapshot that is an increment; rows with other ids are unchanged |
| `VotePage.VotePage.constructor` | client/src/pages/Vote.jsx:16-37 | the initial state followed by the mount effect gives exactly `MountGate(mark, now)`, nothing selected, nothing pending, no success screen |
| `VotePage.VotePage.Tick` | client/src/pages/Vote.jsx:39-49 | the new `(voteLocked, countdown)` is `TickGate` of the old; only those two fields change; the page invariant is kept |
| `VotePage.VotePage.ShowsPartyGrid` | client/src/pages/Vote.jsx:79 | the party cards are rendered exactly when the page is not showing the success screen (`showSuccess && selectedParty`) |
| `VotePage.VotePage.HandleVote` | client/src/pages/Vote.jsx:70-74 | called only from a rendered party card (the grid is shown); a vote is sent iff the page is unlocked and no request is pending; then the party is selected and exactly one `votes + 1` request is appended; otherwise nothing changes |
| `VotePage.VotePage.Settle` | client/src/pages/Vote.jsx:58-61 | resolution clears the pending flag; only success writes the mark (to now) and shows the success screen, which hides the party grid; failure leaves both unchanged; the lock is untouched |
| `Validation.ValidateParty` | server/middleware/validation.js:1-17 | `next` iff the name has a non-white-space character and the colour is `#` plus exactly six hex digits in either case; a bad name gives 400 with the name message whatever the colour; a good name with a bad colour gives 400 with the colour message |
| `Validation.Trim` | server/middleware/validation.js:4 | `String.prototype.trim`, removing JavaScript white space from both ends; `TrimEmptyIffBlank` states when it leaves nothing |
| `Validation.IsHexColor` | server/middleware/validation.js:10 | the language of `/^#[0-9A-F]{6}$/i`; `ColorExamples` pins it on accepted and rejected inputs |
| `Validation.NameRejected` | server/middleware/validation.js:4 | the guard `!name \|\| name.trim().length === 0`; `NameCheck` states it rejects exactly a missing or blank name |
| `Validation.ColorRejected` | server/middleware/validation.js:10 | the guard `!color \|\| !/^#[0-9A-F]{6}$/i.test(color)`; `ValidateParty` states when it fires |
| `Validation.TrimEmptyIffBlank` | server/middleware/validation.js:4 | `name.trim().length === 0` iff every character of the name is JavaScript white space |
| `Validation.NameCheck` | server/middleware/validation.js:4-8 | the name guard rejects exactly a missing name or one with no visible character |
| `Validation.NameErrorFirst` | server/middleware/validation.js:4-14 | when both fields are bad the name error is reported |
| `Validation.ColorExamples` | server/middleware/validation.js:10-14 | lower-case hex is accepted; five digits or a trailing space are rejected; a blank name wins over a bad colour |
| `Validation.ValidateVote` | server/middleware/validation.js:19-29 | `next` iff the id is present and non-empty; otherwise 400 with the id message |
| `Parties.TotalVotes` | client/src/pages/Results.jsx:22 | the `reduce((sum, p) => sum + p.votes, 0)` total, a left fold from 0, computed the same way at ResultsChart.jsx:21 and Admin.jsx:81; its meaning is stated by `TotalVotesAppend` and `TotalVotesBounds` |
| `Parties.TotalVotesAppend` | client/src/pages/Results.jsx:22 | the `reduce` total splits over concatenation: the total of a + b is total(a) + total(b) |
| `Parties.TotalVotesBounds` | client/src/components/admin/ResultsChart.jsx:21 | with non-negative counts the total is non-negative and at least every party's count |
| `Parties.ApplyAllZeroes` | client/src/pages/Admin.jsx:73 | applying `votes: 0` updates zeroes exactly the rows whose ids they name and changes no other field |
| `Results.LeaderIndex` | client/src/pages/Results.jsx:23-25 | the fold's leader, when not the `{votes: 0}` sentinel, has positive votes, the maximum count, and no earlier party with as many (ties go to the earliest); the sentinel survives iff no party has a positive count |
| `Results.LeaderVotes` | client/src/pages/Results.jsx:23-25 | `leader.votes` is the larger of 0 and every count: at least 0, at least every count, and either 0 or some party's count |
| `Results.LeaderCardShown` | client/src/pages/Results.jsx:64 | the guard `leader.votes > 0`; `LeaderCardShownIff` states when it holds |
| `Results.LeaderCardShownIff` | client/src/pages/Results.jsx:64 | the leader card is shown iff some party has a positive count (so never for an empty or all-zero list) |
| `Results.LeaderAtMostTotal` | client/src/pages/Results.jsx:22-25 | with non-negative counts 0 ≤ leader.votes ≤ totalVotes |
| `Results.TieGoesToEarliest` | client/src/pages/Results.jsx:23 | of two parties tied on 3 votes the first one leads |
| `ResultsChart.ChartData` | client/src/components/admin/ResultsChart.jsx:15-19 | `chartData`, one `{ name, votos, color }` per party in order; `ChartTotalIsTotalVotes` states its length and sum |
| `ResultsChart.ChartTotalIsTotalVotes` | client/src/components/admin/ResultsChart.jsx:15-21 | `chartData` has one entry per party and its `votos` add up to `totalVotes` |
| `ResultsChart.Share` | client/src/components/admin/ResultsChart.jsx:78-81 | the share shown on a card (and, by the same formula, in the tooltip) is 0 when the total is 0, within [0, 100] when 0 ≤ votes ≤ total, and 100 for the only voted party |
| `ResultsChart.CardsAgainst` | client/src/components/admin/ResultsChart.jsx:77-81 | the cards with each share taken of a given total, the general form the induction needs |
| `ResultsChart.SumSharesAgainst` | client/src/components/admin/ResultsChart.jsx:77-81 | shares taken of one positive total add up to the list's total's share of it |
| `ResultsChart.SummaryCards` | client/src/components/admin/ResultsChart.jsx:77-98 | the rendered cards, shares taken of the list's own total; `SummaryCardsFacts` states their properties |
| `ResultsChart.CardFacts` | client/src/components/admin/ResultsChart.jsx:77-98 | card i shows party i's name and count, with a share within [0, 100] that is 0 when nobody voted |
| `ResultsChart.SummaryCardsFacts` | client/src/components/admin/ResultsChart.jsx:77-98 | one card per party in list order with its name and count; every share is within [0, 100]; shares add up to 100 when any vote exists and are all 0 otherwise |
| `Admin.RoundedHundredths` | client/src/pages/Admin.jsx:84 | the percentage's hundredths are the integer nearest to votes·10000/total, ties up |
| `Admin.FixedTwo` | client/src/pages/Admin.jsx:84 | `toFixed(2)` of k/100: the text is digits, a point and two digits; read without the point its digits spell exactly k; the whole part has no leading zero |
| `Admin.PercentText` | client/src/pages/Admin.jsx:84-85 | the percentage is `0` when the total is not positive; otherwise it has two decimals, starts with `-` exactly when the count is negative, and reads back as ± the rounded hundredths of \|votes\|·100/total; it holds only digits, `.` and `-`, so never a comma or line feed |
| `Admin.RowFields` | client/src/pages/Admin.jsx:83-86 | a row's fields: name, symbol, count and `percentage%`; `CsvRowRoundTrip` reads them back |
| `Admin.RowLine` | client/src/pages/Admin.jsx:89 | a row joined by commas, unquoted; `CsvRowRoundTrip`, `RowFieldCount` and `CommaInNameShiftsColumns` state how it splits |
| `Admin.TotalLine` | client/src/pages/Admin.jsx:92 | the template `Total de Votos,,,${totalVotes}`; `TotalLineColumns` states its columns |
| `Admin.RowLines` | client/src/pages/Admin.jsx:83-90 | one comma-joined line per party, in list order, each percentage taken of the same total; `CsvLinesShape` places them in the export |
| `Admin.CsvLines` | client/src/pages/Admin.jsx:88-93 | the header, the rows, an empty line and the total line; `CsvLinesShape` states them position by position |
| `Admin.ExportCsv` | client/src/pages/Admin.jsx:80-93 | the lines joined by LF; `CsvLayout` and `ExportLineCount` state how it splits back |
| `Admin.CsvLinesShape` | client/src/pages/Admin.jsx:88-93 | the export has parties.length + 3 lines: header, each party's line in order, an empty line, the total line |
| `Admin.HeaderLine` | client/src/pages/Admin.jsx:82-89 | the header is `Partido,Símbolo,Votos,Porcentaje` |
| `Admin.TotalLineColumns` | client/src/pages/Admin.jsx:92 | the total line has no line feed and splits on commas into the label, two empty fields and the total, which reads back exactly |
| `Admin.CsvLinesAvoidLineFeed` | client/src/pages/Admin.jsx:83-93 | no line of the export holds a line feed when no name or symbol does |
| `Admin.CsvLayout` | client/src/pages/Admin.jsx:80-93 | provided no name or symbol holds a line feed (nothing upstream ensures that: the name check only rejects blank names and the export does not quote), the export splits on LF into parties.length + 3 lines: the header, each party's line in list order, an empty line, and `Total de Votos,,,` followed by the sum of all counts |
| `Admin.CsvRowRoundTrip` | client/src/pages/Admin.jsx:83-90 | a party line whose name and symbol hold no comma splits back into name, symbol, count and `percent%`, and the count reads back exactly |
| `Admin.RowFieldCount` | client/src/pages/Admin.jsx:85-89 | with no quoting, a party's line splits on commas into 4 fields plus one per comma in its name and symbol |
| `Admin.CommaInNameShiftsColumns` | client/src/pages/Admin.jsx:85-89 | a name `a,b` (a, b and the symbol comma-free) splits into a, b, the symbol, the count and the percentage: the symbol lands in the count's column and the count in the percentage's |
| `Admin.RowOccurrences` | client/src/pages/Admin.jsx:84-89 | any character other than a comma, digit, `.`, `-` or `%` occurs in a party's line exactly as often as in its name and symbol |
| `Admin.CsvLinesLineFeeds` | client/src/pages/Admin.jsx:88-93 | the export's lines hold exactly the line feeds of the names and symbols (the header and total line hold none) |
| `Admin.ExportLineCount` | client/src/pages/Admin.jsx:80-93 | for any list, the export splits on LF into parties.length + 3 lines plus one per line feed in a name or symbol |
| `Admin.ResetRequests` | client/src/pages/Admin.jsx:114-116 | the `forEach`'s requests, `votes: 0` per listed party in order; `ResetAllZeroes` states their effect |
| `Admin.ResetAllZeroes` | client/src/pages/Admin.jsx:108-117 | once the table applies the reset requests, every row listed on the page has 0 votes and all other fields unchanged; rows the page did not list are untouched |
| `Admin.ResetAllOnCurrentList` | client/src/pages/Admin.jsx:71-78 | with an up-to-date list every row ends at 0 votes and nothing else changes |
| `Admin.AdminPanel.ResetAllVotes` | client/src/pages/Admin.jsx:108-117 | after confirmation exactly one `votes: 0` request per listed party is appended, in list order; without it nothing is sent |
| `Admin.AdminPanel.ResetVotes` | client/src/pages/Admin.jsx:280 | the row button appends one `votes: 0` request for that party |
| `Admin.AdminPanel.DeleteParty` | client/src/pages/Admin.jsx:287-295 | after confirmation one delete request for that party is appended; without it nothing is sent |
| `Admin.AdminPanel.constructor` | client/src/pages/Admin.jsx:41-47 | the form starts as name "", symbol "sol", colour "#3B82F6", description "", with the dialog closed and nothing pending |
| `Admin.AdminPanel.EditName` | client/src/pages/Admin.jsx:175-177 | only the form's name changes |
| `Admin.AdminPanel.EditSymbol` | client/src/pages/Admin.jsx:185-187 | only the form's symbol changes |
| `Admin.AdminPanel.EditColor` | client/src/pages/Admin.jsx:207-216 | only the form's colour changes |
| `Admin.AdminPanel.EditDescription` | client/src/pages/Admin.jsx:225-227 | only the form's description changes |
| `Admin.AdminPanel.SetDialogOpen` | client/src/pages/Admin.jsx:159 | the dialog's open state becomes the requested one |
| `Admin.AdminPanel.CreateEnabled` | client/src/pages/Admin.jsx:234 | the negation of `disabled={!newParty.name \|\| isPending}`; `ClickCreate` states what it gates |
| `Admin.AdminPanel.ClickCreate` | client/src/pages/Admin.jsx:231-234 | a create request is sent iff the name is non-empty and no create is pending (the button is disabled otherwise); it carries the form and marks it pending |
| `Admin.AdminPanel.SettleCreate` | client/src/pages/Admin.jsx:55-62 | success closes the dialog and resets the form to "", "sol", "#3B82F6", ""; failure keeps both; either way nothing is pending |
| `Admin.UpperAscii` | client/src/pages/Admin.jsx:195 | `toUpperCase` on a character: a lower-case ASCII letter becomes its capital (code − 32), anything else is unchanged |
| `Admin.SymbolLabel` | client/src/pages/Admin.jsx:195 | the label has the symbol's length, its first character upper-cased and the rest unchanged |
| `Admin.SymbolLabels` | client/src/pages/Admin.jsx:193-197 | the picker shows Sol, Agua, Tierra, Aire, Fuego, Estrella, in that order |
| `Admin.SymbolLabelInjective` | client/src/pages/Admin.jsx:195 | two symbols starting with a lower-case letter get the same label only if they are equal |
| `Text.NatToString` | client/src/pages/Admin.jsx:85 | `String(n)` for a natural: at least one digit, only digits, no leading zero; `NatToStringValue` proves the digits spell n |
| `Text.IntToString` | client/src/pages/Admin.jsx:85 | `String(n)` of a count: a leading `-` exactly for a negative number, then only digits |
| `Text.IntToStringRoundTrip` | client/src/pages/Admin.jsx:85 | a count written by `String(n)` reads back as the same integer |
| `Text.Join` | client/src/pages/Admin.jsx:88-93 | `Array.prototype.join` with a one-character separator; `SplitJoin` and `JoinOccurrences` state what it produces |
| `Text.Split` | client/src/pages/Admin.jsx:88-93 | `String.prototype.split` on one character, the reader the export is stated against; `SplitCount` gives its piece count |
| `Text.SplitJoin` | client/src/pages/Admin.jsx:88-93 | splitting a join gives back the parts when no part holds the separator |
| `Text.SplitCount` | client/src/pages/Admin.jsx:88-93 | `split` yields one more piece than the string has separators |
| `Text.JoinOccurrences` | client/src/pages/Admin.jsx:88-93 | a join holds the parts' occurrences of a character, plus one per separator when it is the separator |
| `AdminLoginPage.LoginPage.constructor` | client/src/pages/AdminLoginPage.jsx:10-11 | the form starts with an empty password and no error |
| `AdminLoginPage.LoginPage.Submit` | client/src/pages/AdminLoginPage.jsx:13-22 | accepted iff the password is exactly `admin2024`; acceptance stores `adminAuth = 'true'` and goes to `/admin`; rejection sets the error, clears the password and leaves `adminAuth` and the route unchanged |
| `AdminLoginPage.LoginPage.Edit` | client/src/pages/AdminLoginPage.jsx:63-66 | editing sets the password and clears the error |
| `AdminLoginDialog.LoginDialog.constructor` | client/src/components/admin/AdminLogin.jsx:11-12 | the dialog starts with an empty password and no error |
| `AdminLoginDialog.LoginDialog.Submit` | client/src/components/admin/AdminLogin.jsx:14-24 | accepted iff the password is exactly `admin2025`; every submit ends with an empty password; acceptance calls `onSuccess` once and clears the error; rejection sets the error and calls nothing |
| `AdminLoginDialog.LoginDialog.Cancel` | client/src/components/admin/AdminLogin.jsx:64-68 | cancel closes the dialog and clears the password and the error |
| `AdminLoginDialog.LoginDialog.Edit` | client/src/components/admin/AdminLogin.jsx:54 | editing sets the password and leaves the error as it is |

## Left out

- Network and storage are not modelled as mechanisms. The party table, `fetch`, the data client behind `Party.update`, `localStorage` and React Query's cache invalidation are out. A request is an entry appended to a list the page keeps. The table's reaction is the function `Parties.Apply`. A stored slot is a field.
- Real timers are out: the 1 s countdown timer, the 2 s redirect after a vote, and the results page's 3 s refetch. Ticks and request resolutions are explicit method calls.
- `parseInt` details are out. The stored mark is absent, empty, NaN, or a parsed millisecond count.
- Many clients voting at once on the same counter is out. That includes the updates lost to the snapshot-plus-one write, which is concurrency beyond one client's state.
- Floating point is out. Shares are exact rationals. The one-decimal display rounding of the chart's shares is not modelled.
- Admin.RoundedHundredths: rounds the exact quotient, not the nearest double, so a percentage that lands exactly on a half-hundredth may round differently from `toFixed(2)` on the double.
- Admin.SymbolLabel: upper-cases ASCII letters only; `toUpperCase` on other letters (and on `ß`, which becomes two characters) is not modelled. The six symbols are ASCII.
- Text.NatToString: decimal form only; JavaScript writes numbers of 10^21 and more in exponent form.
- Validation.ValidateParty: request fields are absent or strings. A name that is another JSON type makes `trim` throw, and the server answers 500; that is not modelled.
- Download plumbing is out: the Blob, the link element and `click`. `window.confirm` is the `confirmed` parameter.
- Not modelled, by choice: page markup, animation, routing, the party cards, the home page, the confirmation page's lookup by id, the REST server's bootstrap, and the `fetch` wrappers.
