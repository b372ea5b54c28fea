# Trade journal ledger core

This project is a Dafny model of the ledger and metrics core of a browser
trading journal (`app.js`). The journal keeps one in-memory store,
`dataStore`, with four parts:

- `trades`. Each trade has a list of `decisions`. A decision is a fill with
  a signed `quantity` (exits are negative) and a `price`.
- `moneyEntries`. Each entry is a deposit, withdrawal or other cash movement
  with a `type` and an `amount`.
- `templates`.
- `settings`.

The model covers these parts of the journal:

- **Trade P/L and account rollups** (`Analytics`). These are net P/L, the
  current balance, total deposits, total withdrawals and the win rate. They
  are pure functions over the store's lists.
- **The money-management table** (`MoneyTable`). Entries are sorted newest
  first and each row is shown beside a running balance. The balance walk is
  an imperative loop, modelled twice:
  - as written (`AnnotateRunningBalance`), where the current balance lands
    on the oldest row;
  - corrected (`AnnotateNewestFirst`), where each row shows the balance
    right after its entry (see Findings).
- **The store** (`Store.DataStore`). This is a class whose methods do what
  the journal does on a button press: save a trade, save a money entry,
  delete a money entry, and load a stored document. Its table method,
  `MoneyTableRows`, builds the corrected table, not the one the page
  shows.
- **Helpers the store depends on**:
  - JavaScript's `trim` and `toUpperCase` for the trade form (`Text`);
  - the CSV quote-doubling rule used by the export, which is rule 7 of
    section 2 of RFC 4180 (`Csv`);
  - the settings merge done on load (`Persistence`).
- **Generic facts about sums and filters** (`Seqs`), and the entity types
  with the sample data the page starts with (`Journal`).

Representation choices:

- Amounts and prices are `real`. This means exact arithmetic, with no IEEE
  rounding.
- Quantities and sentiment are `int`.
- Dates are integers `yyyymmdd`, so "newer" is "larger".
- Ids are opaque strings supplied by the caller.
- The JavaScript field `type` is called `kind` in the model.
- A form field that may be missing from the page is an `Option`.

## Model

| member | source | states |
|---|---|---|
| Analytics.NetPL | app.js:104-106 | minus the sum of quantity × price over the trade's fills |
| Analytics.CurrentBalance | app.js:108-114 | the signed sum of the money entries ("Deposit" adds, any other type subtracts) plus the sum of every trade's P/L |
| Analytics.TotalDeposits | app.js:116-120 | the sum of the amounts of the entries whose type is exactly "Deposit" |
| Analytics.TotalWithdrawals | app.js:122-126 | the sum of the amounts of the entries whose type is exactly "Withdrawal" |
| Journal.SeedTrades | app.js:43-70 | the two sample trades: AAPL closed with three fills, TSLA open with one |
| Journal.SeedMoneyEntries | app.js:71-86 | the sample deposit of 10000 and withdrawal of 1000 |
| Journal.DefaultSettings | app.js:95-100 | the default theme, initial balance, risk and auto-save settings |
| Store.NewTrade | app.js:511-522 | the trade the form builds: symbol trimmed and upper-cased, setup and notes trimmed, missing notes empty, status "open", no fills |
| Store.NewMoneyEntry | app.js:541-547 | the entry the form builds: the given date, type and amount, the description trimmed or empty when the field is missing |
| Store.WithoutEntry | app.js:558 | the entries whose id differs from the given one, in their original order |
| Analytics.WinRate | app.js:128-133 | the win rate is in [0, 100]; it is 0 exactly when no closed trade has positive P/L (including when nothing is closed); it is 100 exactly when there is a closed trade and every closed trade is a winner |
| Analytics.NetPLNoDecisions | app.js:104-106 | a trade without fills has P/L 0 |
| Analytics.NetPLAddDecision | app.js:104-106 | one more fill lowers the P/L by quantity × price, so buys cost and sells (negative quantity) earn |
| Analytics.NetPLRoundTrip | app.js:104-106 | buying q at one price and selling q at another earns q × (exit − entry) |
| Analytics.NetPLReorder | app.js:104-106 | the P/L does not depend on the order of the fills |
| Analytics.SeedAaplNetPL | app.js:44-57 | the sample AAPL trade (+100@150, −50@155, −50@158) has P/L 650 |
| Analytics.BalanceReorder | app.js:108-114 | the balance does not depend on the order of the money entries or of the trades |
| Analytics.BalanceAddEntry | app.js:108-114 | one more entry adds its amount when its type is exactly "Deposit" and subtracts it for any other type |
| Analytics.BalanceAddTrade | app.js:108-114 | one more trade moves the balance by exactly that trade's P/L |
| Analytics.TotalOfKindAddEntry | app.js:116-126 | the per-type total grows by an entry's amount only when the entry has that exact type |
| Analytics.MoneyBalanceByKind | app.js:108-126 | the cash part of the balance is deposits − withdrawals − entries of any other type |
| Analytics.BalanceFromTotals | app.js:108-126 | when every entry is a "Deposit" or a "Withdrawal", the balance is deposits − withdrawals + total trading P/L |
| Analytics.SeedBalance | app.js:42-86 | the sample store's balance is 10000 − 1000 + 650 − 10000 = −350 |
| Analytics.WinRateOnlyClosed | app.js:128-133 | the win rate is the same when computed over the closed trades alone |
| Analytics.WinRateIgnoresOpen | app.js:128-133 | inserting a trade that is not closed anywhere in the list leaves the win rate unchanged |
| Analytics.WinRateBreakEven | app.js:128-133 | a closed trade with P/L exactly 0 is not a winner |
| Analytics.SeedWinRate | app.js:42-70 | the sample store's win rate is 100 (its one closed trade made money) |
| Text.Trim | app.js:513-515 | the trimmed string is the part of the input after its leading white space, with only white space cut off after it; neither of its ends is white space |
| Text.TrimStart | app.js:513-515 | drops exactly the leading white space and keeps the rest in place |
| Text.TrimEnd | app.js:513-515 | drops exactly the trailing white space and keeps the rest in place |
| Text.TrimInTwoSteps | app.js:513-515 | trimming both ends at once is the same as dropping the leading white space and then the trailing white space |
| Text.TrimIdempotent | app.js:513-515 | trimming twice is trimming once |
| Text.TrimUntouched | app.js:513-515 | a string with no white space at its ends is left unchanged, including any white space inside it |
| Text.TrimPadded | app.js:513-515 | trimming front + inner + back, with only white space in front and back, gives inner |
| Text.ToUpper | app.js:513 | upper-casing keeps the length, upper-cases each character in place, and leaves no lower-case ASCII letter |
| Text.ToUpperIdempotent | app.js:513 | upper-casing twice is upper-casing once |
| Text.SymbolExample | app.js:513 | the symbol typed as " aapl " is stored as "AAPL" |
| Csv.UnescapeEscape | app.js:589 | doubling the quotes can be undone: reading the doubled text back gives the original |
| Csv.QuoteRoundTrip | app.js:589 | a quoted field reads back as the original text |
| Csv.QuoteInjective | app.js:589 | two different texts never quote to the same field |
| Csv.QuoteField | app.js:589 | a quoted field starts and ends with a quote |
| Csv.EscapeWithoutQuotes | app.js:600 | text with no quote in it is written unchanged |
| Csv.EscapeConcat | app.js:600 | quote doubling works piecewise on concatenated text |
| Csv.QuoteExample | app.js:589 | `a"b` is written as `"a""b"` |
| Persistence.MergeSettings | app.js:665 | the merged settings have the union of the keys; a stored value wins; a key that was not stored keeps its current value |
| Persistence.MergeIdempotent | app.js:665 | loading the same settings twice gives the same result as loading them once |
| Persistence.MergeCoversAll | app.js:665 | stored settings that name every current key replace the current settings |
| Persistence.MergeThemeOnly | app.js:665 | storing only a theme changes the theme and keeps the default balance, risk and auto-save |
| MoneyTable.SortNewestFirst | app.js:242 | the sorted entries are ordered by date, newest first, and are a permutation of the store's entries |
| MoneyTable.InsertNewestFirst | app.js:242 | inserting into a newest-first list keeps it newest first and adds exactly that entry |
| MoneyTable.SeedSortsNewestFirst | app.js:71-86 | the sample entries sort to [withdrawal of 2025-01-15, deposit of 2025-01-01] |
| MoneyTable.AnnotateRunningBalance | app.js:242-256 | the loop as written: same length and order as the sorted entries; row i shows the starting balance minus the signed amounts of every entry after i; at the end the balance is the starting balance minus all signed amounts |
| MoneyTable.AsWrittenRowStep | app.js:252-255 | as written, each row's balance is the next row's balance minus the next row's signed amount, and the last row shows the starting balance |
| MoneyTable.AsWrittenNewestRowIsWrong | app.js:242-256 | on the sample entries, the newest row as written shows the current balance less the 10000 deposit, while the balance after that entry is the current balance |
| MoneyTable.AnnotateNewestFirst | app.js:242-256 | the corrected walk: same length and order; the newest row shows the current balance; each row's balance is the next older row's balance plus its own signed amount; at the end the balance is the current balance minus all signed amounts |
| MoneyTable.ClosingBalanceIsTradingPL | app.js:242-256 | starting from the current balance and taking off every entry's signed amount leaves the total trading P/L |
| Store.NewTradeShape | app.js:511-522 | a new trade is open and has no fills, so its P/L is 0; its symbol has no white space at either end and no lower-case letter |
| Store.SavedTradeKeepsMetrics | app.js:511-524 | saving a trade from the form changes neither the balance nor the win rate |
| Store.SavedEntryMovesBalance | app.js:541-549 | saving an entry moves the balance up by its amount for "Deposit" and down by its amount for any other type |
| Store.DeleteRemovesExactlyId | app.js:558 | after the delete no entry with the id is left, and every other entry appears as often as before |
| Store.DeleteKeepsOrder | app.js:558 | the delete keeps the surviving entries in their relative order |
| Store.DeleteAbsentId | app.js:558 | deleting an id no entry has leaves the list as it was |
| Store.BalanceAfterDelete | app.js:558 | the balance loses exactly the signed amounts of the removed entries |
| Store.DataStore.constructor | app.js:42-101 | the store starts with the sample trades, entries and template, and the default settings |
| Store.DataStore.SaveTrade | app.js:501-524 | if the symbol, setup and sentiment fields exist, exactly one new open trade is appended and nothing else changes; otherwise nothing changes; the balance and win rate stay the same |
| Store.DataStore.SaveMoneyEntry | app.js:531-549 | if the date, type and amount fields exist, exactly one entry is appended and the balance moves by ± its amount; otherwise nothing changes |
| Store.DataStore.DeleteMoneyEntry | app.js:556-558 | the entries become the old ones without the id, in order; no entry with the id survives; the balance loses the removed entries' signed amounts |
| Store.DataStore.MoneyTableRows | app.js:242-256 | the corrected walk (see Findings); the as-written table is MoneyTable.AnnotateRunningBalance. One row per entry, newest first; the newest row shows the current balance; consecutive rows differ by the newer row's signed amount; the walk ends at the total trading P/L |
| Store.DataStore.LoadData | app.js:657-666 | each list present in the stored document replaces the store's list; stored settings are merged over the current ones; with no stored document nothing changes |

## Left out

- DOM reads and rendering, tabs, modals and event wiring are not modelled. A
  form field that may be absent from the page is an `Option` parameter, and
  the field's text is the parameter's value.
- Chart.js construction and the hard-coded dashboard numbers and sample chart
  points are left out. They are a foreign library and fixed literals.
- Browser storage (`safeStorage`, `saveData`) and JSON encoding are left out.
  `LoadData` takes the already-parsed document. A JSON parse error, which the
  source catches and logs, is the same as having no document.
- `uid()` is random, so ids are parameters. The current date from
  `dayjs`/`Date` is also a parameter (`createdDate`).
- `parseFloat`/`parseInt` of the form text are not modelled. Amount and
  sentiment arrive as numbers, so NaN from unparsable input is not modelled.
- Date strings are integers. `new Date(...)` parsing is not modelled.
- `formatPL`/`toFixed` and floating-point rounding are left out. Amounts are
  exact reals.
- The `confirm()` dialog in `deleteMoneyEntry` is left out. The model covers
  the confirmed path only.
- The template list's UI actions are left out. They are log-only stubs in the
  source.
- `exportOrganizedCSV` and `exportJSON` as wholes are left out:
  - they do Blob and download plumbing;
  - `exportOrganizedCSV` writes to an undeclared `css` at app.js:595 and throws
    there.

  Only the quote-doubling rule of app.js:589 and app.js:600 is modelled.
- Text.ToUpper: covers ASCII letters only. JavaScript's full Unicode case
  mapping (for example 'ß' becoming "SS") has no counterpart here.
- Text.IsWhitespace: lists the ECMAScript white-space and line-terminator code
  points by value, without a Unicode category table.
- MoneyTable.SortNewestFirst: the model proves order and permutation. It
  does not prove that entries with equal dates keep their original order,
  as JavaScript's stable `sort` does.
- Csv.UnescapeQuotes and Csv.UnquoteField: these are reading-side partners
  for the round-trip lemmas. The source has no CSV reader.

## Findings

| source | as written | input that shows it | evidently intended | confidence | as-written member | corrected member |
|---|---|---|---|---|---|---|
| app.js:242-256 | The entries are sorted newest first. The loop then walks from the last (oldest) row to the first. It gives the current balance to the oldest row and subtracts each entry's effect on the way to newer rows. | The sample store: a deposit of 10000 on 2025-01-01 and a withdrawal of 1000 on 2025-01-15. The newest row, the withdrawal, shows the current balance minus 10000. The oldest row, the deposit, shows the current balance. | Each row shows the balance right after its entry. The newest row shows the current balance, and each older row differs from the newer one by that newer entry's signed amount. | not executed | MoneyTable.AsWrittenNewestRowIsWrong | MoneyTable.AnnotateNewestFirst |
