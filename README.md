# Inventory tracker core, modelled in Dafny

The program is a single React component (`src/App.js`) that keeps an in-memory
inventory of stock items, shows a demand forecast per item and lists the items that
need attention. This project models its logic:

- **Alert check** (`checkForAlerts` and the effect that re-runs it on every inventory
  change): an item is kept when its expiry text is not `"N/A"` and reads as a date whose
  UTC midnight is before the current instant, or when its quantity is strictly more than
  twice its reorder level. The alert list is the inventory filtered by that test.
- **Demand forecast** (`forecastDemand`): `Math.round` of the mean of the sales figures,
  modelled without floating point as `(2*sum + n) / (2*n)` (floor division), the
  integer that rounds the mean half up. An empty list or a figure that is NaN gives NaN.
- **Add item** (`handleAddItem`): when name, quantity and sales are all non-empty, a
  record is appended with id `inventory.length + 1`, reorder level 10, the quantity
  through `parseInt`, the sales split on `','` and each token through `Number`, name and
  expiry copied as typed; the form is emptied and the alert effect runs.

Modules, one per concern:

| file | module | contents |
|---|---|---|
| numbers.dfy | JsNumbers | JS numbers from text: `Num` (NaN or an integer), `parseInt`, `Number` |
| text.dfy | Text | `split` on one character and `join` |
| dates.dfy | Dates | `YYYY-MM-DD` parsing to an ordered day number; the current instant; the `<` comparison |
| items.dfy | Items | the record, the form, the seed inventory, the well-formedness invariant |
| alerts.dfy | Alerts | the alert test and the filter |
| forecast.dfy | Forecast | the rounded mean |
| ingest.dfy | Ingest | the presence check and the new record |
| app.dfy | InventoryApp, Session | the component state as a class with its handlers; a client session |

The current time and the wall clock are a parameter (`now: Moment`) of the operations
that read them: a day on the UTC calendar and the milliseconds since its midnight,
compared with the UTC midnight that `new Date('YYYY-MM-DD')` gives an expiry date.
React's state setters become assignments to the fields of
`InventoryApp.App`; the effect on `[inventory]` is the call to `CheckForAlerts` at the end
of the handlers that change the inventory (the constructor, for the first render, and
`AddItem`).

The model follows the code as written, including where a more careful design would do
otherwise:
- an empty expiry is stored as the empty string, not as `"N/A"` (such an item never
  alerts for expiry, since the empty string is not a date);
- the new id is the inventory length plus one, not one more than the largest id;
- a negative or non-numeric quantity is not rejected (`parseInt` gives the number or NaN);
- a sales token that is not a number is stored as NaN rather than rejected;
- forecasting an empty sales list is NaN (`0 / 0`), not an error; the add handler never
  creates one, since splitting any string gives at least one token.

## Model

| member | source | states |
|---|---|---|
| JsNumbers.ParseInt | src/App.js:43 | `parseInt` yields a number exactly when a digit follows the optional sign |
| JsNumbers.ToNumber | src/App.js:44 | `Number("")` is 0; a non-empty token is a number exactly when it is an optional sign followed by one or more digits |
| JsNumbers.IntStringRoundTrip | src/App.js:43-44 | both conversions read the decimal spelling of any integer back as that integer |
| JsNumbers.ParseIntIgnoresTail | src/App.js:43 | `parseInt` stops at the first non-digit after the number: junk after it is ignored |
| JsNumbers.ParseIntAgreesWithToNumber | src/App.js:43-44 | on every text made of an optional sign and one or more digits, `parseInt` and `Number` give the same integer |
| Text.SplitShape | src/App.js:44 | `split(',')` yields one token more than there are commas, and no token holds a comma |
| Text.JoinSplit | src/App.js:44 | joining the tokens with commas gives back the sales text |
| Text.SplitJoin | src/App.js:44 | splitting a comma-join of comma-free tokens gives back the tokens |
| Dates.OrdinalOrder | src/App.js:20-21 | the day number of a parsed date orders dates as the calendar does (year, then month, then day) and is one-to-one |
| Dates.ParseFormat | src/App.js:20 | a `YYYY-MM-DD` string (what a date input produces) parses to the day number of that date |
| Dates.MidnightBeforeIsInstantOrder | src/App.js:18-21 | the expiry test is "the expiry day's midnight is strictly earlier than the current instant" |
| Items.SeedWellFormed | src/App.js:6-10 | the seed items have ids 1, 2, 3 in order, positive reorder levels and sales |
| Items.IdsIncrease | src/App.js:45 | in a well-formed inventory ids strictly increase with position, so they are unique |
| Alerts.AlertsOf | src/App.js:19-24 | an item is in the alert list if and only if it is in the inventory and is expiring or overstocked; the list is no longer than the inventory |
| Alerts.AlertPositions | src/App.js:19-24 | the positions kept by the filter strictly increase and are exactly those whose item is expiring or overstocked |
| Alerts.AlertsAreSubsequence | src/App.js:19 | the alert list is the inventory items at those positions, in order: nothing reordered, repeated or invented |
| Alerts.AlertsOfAppend | src/App.js:19-24 | filtering a concatenation is the concatenation of the filtered parts |
| Alerts.AlertsIdempotent | src/App.js:19-24 | filtering the alert list again leaves it unchanged |
| Alerts.NotApplicableIsNoDate | src/App.js:20-21 | the `'N/A'` test adds nothing: an item is expiring exactly when its expiry parses to a date whose midnight has passed |
| Alerts.SeedAlerts | src/App.js:7-9 | on the seed data only Milk can alert, exactly once the instant is past midnight of 2024-10-30; T-Shirt (50, not above 60) and Laptop (10, not above 10) never do |
| Forecast.RoundedMean | src/App.js:35 | the result `r` satisfies `r - 1/2 <= sum/n < r + 1/2`: the mean rounded to nearest, halves up |
| Forecast.RoundedMeanUnique | src/App.js:35 | only one integer satisfies that rounding condition |
| Forecast.ForecastDemand | src/App.js:34-36 | the forecast is a number exactly when the sales are non-empty and none is NaN, and then it is the mean rounded half up |
| Forecast.ForecastWithinRange | src/App.js:35 | a forecast lies between the smallest and the largest sales figure |
| Forecast.ForecastConstant | src/App.js:35 | sales that are all `c` forecast `c` |
| Forecast.SeedForecasts | src/App.js:7-9 | the seed sales forecast 5, 12 and 3 |
| Ingest.ParseSales | src/App.js:44 | one figure per comma-separated token (commas + 1), each token converted by `Number` |
| Ingest.NewItemData | src/App.js:41-47 | the new record has id length + 1, reorder level 10, name and expiry copied verbatim, quantity by `parseInt`, sales by ParseSales |
| Ingest.AddKeepsWellFormed | src/App.js:45-49 | appending the new record keeps "the item at position i has id i + 1" |
| Ingest.SalesRoundTrip | src/App.js:44 | integers typed comma-separated are stored as exactly those integers |
| Ingest.AddBreadExample | src/App.js:41-47 | name "Bread", quantity "15", empty expiry, sales "1,2,3" give the record (length + 1, "Bread", 15, "", [1, 2, 3], 10) |
| Ingest.NegativeQuantityKept | src/App.js:43 | a quantity of "-5" is stored as -5 |
| InventoryApp.WithField | src/App.js:77-100 | after an input's change that input holds the typed value and the other three inputs keep theirs |
| InventoryApp.EditsCommute | src/App.js:77-100 | changes to two different inputs give the same form in either order |
| InventoryApp.LastEditWins | src/App.js:77-100 | a later change to an input replaces an earlier one |
| InventoryApp.App.constructor | src/App.js:6-13 | the component starts with the seed inventory, an empty form and the seed's alerts at the given instant |
| InventoryApp.App.CheckForAlerts | src/App.js:17-31 | the alert list becomes the filter of the inventory at `now`; inventory and form unchanged |
| InventoryApp.App.Edit | src/App.js:77-100 | one form field is replaced; inventory and alerts unchanged; the invariant is kept |
| InventoryApp.App.AddItem | src/App.js:39-54 | without name, quantity or sales nothing changes; otherwise exactly one record is appended after the unchanged old items, the form is emptied, and the alerts are the old inventory's at `now` followed by the new item if it needs one; ids stay equal to positions |

## Left out

- The notification text and the timer that clears it after three seconds
  (`src/App.js:50-51`): user-interface feedback with no effect on the inventory.
- Rendering (`src/App.js:56-119`), apart from the inputs' change handlers, which
  `InventoryApp.App.Edit` models.
- React's scheduling: state updates are applied at once, and the alert effect is run at
  the end of the handler that changed the inventory, not after a later render.
- Dates.ParseDate: only the `YYYY-MM-DD` form is read; the other formats a JS engine
  accepts are treated as invalid dates, and days 29 to 31 are accepted in every month.
- JsNumbers.ParseInt: leading whitespace and the `0x` prefix are not modelled; values
  beyond 2^53 are kept exact, while JS rounds them to the nearest double and gives
  `Infinity` past about 1.8e308.
- JsNumbers.ToNumber: whitespace, decimal fractions, exponents, hexadecimal, binary
  (`0b`) and octal (`0o`) prefixes and `Infinity` are not modelled (such tokens are NaN here), so every sales figure is an
  integer or NaN; values beyond 2^53 are kept exact, while JS rounds them to the nearest
  double and gives `Infinity` past about 1.8e308.
- JsNumbers.IntStringRoundTrip: the exact read-back holds in JS only for integers of
  magnitude at most 2^53; larger ones come back rounded to a double.
- Ingest.SalesRoundTrip: likewise exact in JS only for figures of magnitude at most 2^53.
- Forecast.ForecastDemand: the floating-point division is exact here; sums beyond 2^53,
  where doubles lose precision, are not modelled.
- The stylesheet import (`src/App.js:2`).
