# Purchase-price portfolio of crypto-dash, modelled in Dafny

crypto-dash is a browser dashboard that lets a user record, for each coin,
the price they bought it at. It keeps those records in `localStorage` and
shows profit or loss against the live market price. This project models
three parts of it:

- **The portfolio store** (`PortfolioContext.jsx`), in `portfolio_context.dfy`. It holds a table from
  coin id to a stored entry. The entry is either the canonical record
  `{price, name, symbol, timestamp}` or a bare number that an older release
  stored. The store loads the table once from the durable slot
  `crypto-purchase-prices`, falling back to the empty table. It validates
  and stores a price, and it deletes an entry. It writes the whole table back
  after every mutation and keeps the in-memory change even when the write
  fails. It also derives a rounded profit/loss percentage and the key count.
  The store is the class `PortfolioStore`. Its fields are `table`, `persisted`
  (the last table handed to `setItem`) and `durable` (what the slot actually
  holds). The pure functions `AfterSet` and `AfterDelete` specify its two
  mutations, and the lemmas beside them state their properties.
- **The coin card** (`CoinCard.jsx`), in `coin_card.dfy`. This covers how the card reads an entry
  (`purchaseData?.price || purchaseData`), its profit/loss gate, its border
  class and its printed price. It also covers the purchase form: the class
  `CoinCardForm` over `showInput`, `isEditing` and `inputPrice`, with the
  add, edit, type, save, cancel and delete handlers.
- **The portfolio icon** (`PortfolioIcon.jsx`), in `portfolio_icon.dfy`. This covers the holdings list
  (one row per table key) and the badge, tooltip, empty view and plural,
  which depend only on the key count.

`js_values.dfy` holds the JavaScript behaviour these rely on, over
mathematical reals:
- a number type with NaN and the infinities, and the comparison `>= 0` on it;
- `parseFloat(x.toFixed(2))`, as `Round2`;
- `String.prototype.trim`.

Some values are inputs to the model because the code gets them from outside:
- the result of `parseFloat` (`Option<real>`, where `None` is NaN);
- the clock reading (`now`);
- whether `localStorage.setItem` succeeds (`writeOk`);
- the answer to `window.confirm` (`confirmed`);
- the hover state (`hovered`);
- the order in which `Object.entries` lists the keys (`order`).

Some behaviours of the code are worth stating plainly, and the model keeps them:
- Unlike the card (CoinCard.jsx:12) and the holdings list
  (PortfolioIcon.jsx:85-88), which normalise a bare number, `getProfitLoss`
  reads `purchaseData.price` directly. A bare-number entry therefore gets a NaN
  percent and `isProfit == false` (`LegacyScenario`, `BorderClassByEntry`).
- `isProfit` is computed from the unrounded change, not from the rounded
  percent (`RoundedZeroLoss`).
- Neither `setPurchasePrice` nor `deletePurchasePrice` rejects an empty coin id.
- Loading does not check what it parsed. A loaded entry may carry a zero or
  negative price, and `getProfitLoss` then gives an infinite, NaN or
  sign-reversed result. Only entries written by `setPurchasePrice` are
  guaranteed a positive price (`PortfolioStore.Valid`, `WrittenEntryProfitLoss`).

## Model

| member | source | states |
|---|---|---|
| `JsValues.Round2` | PortfolioContext.jsx:72 | `parseFloat(x.toFixed(2))` is within 0.005 of `x` and keeps its sign (or zero); a tie rounds away from zero, so a non-negative value never drops by a full 0.005 and a negative one never rises by it; from 10^21 in magnitude the value comes back unrounded |
| `JsValues.Round2IsCents` | PortfolioContext.jsx:72 | below 10^21 in magnitude the percent is a whole number of hundredths |
| `JsValues.Round2OfCents` | PortfolioContext.jsx:72 | a value that already has at most two decimals is left unchanged |
| `JsValues.ToFixed2` | PortfolioContext.jsx:72 | rounding keeps a number finite exactly when it was finite, and does not turn a non-negative value negative |
| `JsValues.Trim` | CoinCard.jsx:27 | `trim()` returns a middle slice of `s` whose cut-off prefix and suffix are all trim characters, and leaves no trim character at either end |
| `JsValues.TrimEmptyIffBlank` | CoinCard.jsx:27 | `s.trim() === ''` exactly when every character of `s` is a JavaScript whitespace or line terminator |
| `PortfolioContext.InitialTable` | PortfolioContext.jsx:14-21 | the table the store starts from; its contract is stated by `PortfolioStore.Load` |
| `PortfolioContext.OrElse` | PortfolioContext.jsx:36-37 | the fallback of a name or symbol gives the field when it is present and non-empty, and the fallback when it is missing or empty; the result is non-empty whenever the fallback is |
| `PortfolioContext.PortfolioStore.Load` | PortfolioContext.jsx:14-21 | the initial table is the parsed stored table, or empty when nothing is stored or parsing fails; nothing has been written yet |
| `PortfolioContext.PortfolioStore.SetPurchasePrice` | PortfolioContext.jsx:24-49 | returns true exactly for a parsed price above 0; rejection changes nothing and writes nothing; acceptance stores `AfterSet`, writes the full new table, updates the slot only if the write succeeds, and keeps the object invariant |
| `PortfolioContext.PortfolioStore.DeletePurchasePrice` | PortfolioContext.jsx:51-62 | the table loses `coinId` and nothing else; the full table is always written, even when the key was absent; the slot changes only if the write succeeds |
| `PortfolioContext.NewRecord` | PortfolioContext.jsx:34-39 | the record a set writes; stated by `SetStoresRecord` (price, defaulted name and symbol, timestamp) and `RowAfterSet` |
| `PortfolioContext.AfterSet` | PortfolioContext.jsx:24-49 | the table after `setPurchasePrice`; stated by `SetRejectsInvalid`, `SetStoresRecord`, `SetTwiceOverwrites` and `SetCount`, and tied to the store by `PortfolioStore.SetPurchasePrice` |
| `PortfolioContext.AfterDelete` | PortfolioContext.jsx:51-62 | the table after `deletePurchasePrice`; stated by `DeleteRemovesOnlyKey` and `DeleteCount`, and tied to the store by `PortfolioStore.DeletePurchasePrice` |
| `PortfolioContext.GetPortfolioSummary` | PortfolioContext.jsx:78-83 | the key count and the table; stated by `SetCount`, `DeleteCount` and `PortfolioIcon.OneRowPerEntry` |
| `PortfolioContext.SetRejectsInvalid` | PortfolioContext.jsx:25-29 | NaN or a price of 0 or less leaves the table unchanged |
| `PortfolioContext.SetStoresRecord` | PortfolioContext.jsx:31-40 | an accepted set adds or overwrites exactly `coinId`, with that price and the call's timestamp; name and symbol fall back to the id when missing or empty; every other entry is kept |
| `PortfolioContext.SetTwiceOverwrites` | PortfolioContext.jsx:32-40 | two sets on one id equal the later set alone: one entry with the later price, and at most one more key than before |
| `PortfolioContext.DeleteRemovesOnlyKey` | PortfolioContext.jsx:53-54 | delete removes only `coinId`; on an absent key the table is unchanged |
| `PortfolioContext.SetCount` | PortfolioContext.jsx:80 | `totalItems` grows by one exactly when an accepted set adds a new id, and is otherwise unchanged |
| `PortfolioContext.DeleteCount` | PortfolioContext.jsx:80 | `totalItems` drops by one exactly when the deleted id was present, and is otherwise unchanged |
| `PortfolioContext.Normalize` | PortfolioIcon.jsx:85-88 | the read-time normal form: always a record, and a record is its own normal form |
| `PortfolioContext.ChangePercent` | PortfolioContext.jsx:69 | the change is finite exactly for a present, non-zero purchase price; +Infinity only for a zero price with a positive current price |
| `PortfolioContext.GetProfitLoss` | PortfolioContext.jsx:64-75 | null exactly when there is no entry or the entry is the falsy number 0; the percent is finite exactly for a record with a non-zero price; a bare-number entry yields NaN and no profit |
| `PortfolioContext.ProfitLossOfRecord` | PortfolioContext.jsx:68-73 | for a record priced p > 0 the percent is within 0.005 of `(cur - p) / p * 100`, and `isProfit` holds exactly when cur >= p |
| `PortfolioContext.BreakEvenAfterSet` | PortfolioContext.jsx:24-75 | after setting price p, reading at p gives `{percent: 0, isProfit: true}` |
| `PortfolioContext.RoundedZeroLoss` | PortfolioContext.jsx:69-73 | a 0.001 % loss shows percent 0 but `isProfit` false, because the flag is taken before rounding |
| `PortfolioContext.EthScenario` | PortfolioContext.jsx:24-75 | "eth" set at 2000.50 and read at 1800 gives -10.02 % and a loss |
| `PortfolioContext.LegacyScenario` | PortfolioContext.jsx:65-73 | the bare number 42000 read at 45000 gives a NaN percent and no profit |
| `PortfolioContext.WrittenEntryProfitLoss` | PortfolioContext.jsx:24-75 | any entry the store wrote itself, and has not deleted since, has a finite percent and is a profit exactly when cur >= its price |
| `CoinCard.PurchasePriceOf` | CoinCard.jsx:11-12 | the purchase price the card shows: the record's price, or the entry itself when that price is falsy; stated by `DisplayedPriceIsNormalised` |
| `CoinCard.CardProfitLoss` | CoinCard.jsx:13 | the card's gated profit/loss; stated by `GatingIsRedundant` |
| `CoinCard.BorderClass` | CoinCard.jsx:16-20 | `getBorderClass()`; stated by `BorderClassByEntry` |
| `CoinCard.ChangeSign` | PortfolioContext.jsx:69-73 | for a non-zero price p, the change is non-negative exactly when p > 0 and cur >= p, or p < 0 and cur <= p |
| `CoinCard.FormattedPrice` | CoinCard.jsx:90-99 | the number `formatPurchasePrice()` prints; stated by `FormattedPriceIsNormalised` |
| `CoinCard.CardCoinData` | CoinCard.jsx:39-44 | the name and symbol the card passes to `setPurchasePrice`; used by the `Save` contract |
| `CoinCard.DisplayedPriceIsNormalised` | CoinCard.jsx:11-12 | the card's purchase price is absent without an entry; it is the normalised entry's price when that price is non-zero; it is truthy exactly when `getProfitLoss` finds an entry |
| `CoinCard.GatingIsRedundant` | CoinCard.jsx:13 | profit/loss is requested only when a purchase price shows, which gives the same result as calling `getProfitLoss` directly |
| `CoinCard.BorderClassByEntry` | CoinCard.jsx:16-20 | no border without a (truthy) entry; a record priced p > 0 gets `profit-border` exactly when cur >= p, else `loss-border`; a non-zero bare number always gets `loss-border`; zero and negative record prices are covered too |
| `CoinCard.FormattedPriceIsNormalised` | CoinCard.jsx:90-99 | the card prints a price exactly when the normalised entry's price is non-zero, and that is the price it prints |
| `CoinCard.EditPrefill` | CoinCard.jsx:57 | the value Edit stores is the empty string exactly when no purchase price shows, and otherwise is not a string |
| `CoinCard.CheckInput` | CoinCard.jsx:27-36 | empty or whitespace-only text raises the first alert; NaN or a value of 0 or less raises the second; non-blank text with a positive parsed price is submitted, and only such a price; a non-string `inputPrice` other than the falsy 0 throws at `trim()` |
| `CoinCard.CheckInputFixed` | CoinCard.jsx:27-36 | the corrected check never throws, agrees with `CheckInput` wherever that does not throw, and submits only positive prices |
| `CoinCard.EditThenSaveThrows` | CoinCard.jsx:23-58 | as written, Edit followed by Update throws for every entry the card shows a price for |
| `CoinCard.EditThenSaveFixedResubmits` | CoinCard.jsx:23-58 | with the corrected check, Edit followed by Update re-submits the normalised price whenever it is positive |
| `CoinCard.Buttons` | CoinCard.jsx:122-198 | the buttons of the purchase section; stated by `DeleteOfferedOnlyWhenEditing` |
| `CoinCard.DeleteOfferedOnlyWhenEditing` | CoinCard.jsx:121-199 | in the form, Delete is offered exactly in edit mode and Cancel always; outside it, Edit and Delete exactly when a purchase price shows |
| `CoinCard.CoinCardForm.constructor` | CoinCard.jsx:7-9 | the form starts closed, not editing, with empty input |
| `CoinCard.CoinCardForm.AddPrice` | CoinCard.jsx:81-87 | Add opens the form, not in edit mode, with empty input |
| `CoinCard.CoinCardForm.Edit` | CoinCard.jsx:52-58 | Edit opens the form in edit mode, prefilled with the current purchase price or `''` |
| `CoinCard.CoinCardForm.Type` | CoinCard.jsx:130 | typing replaces `inputPrice` with the text and leaves the mode flags alone |
| `CoinCard.CoinCardForm.Cancel` | CoinCard.jsx:72-78 | Cancel closes the form and clears the input |
| `CoinCard.CoinCardForm.Delete` | CoinCard.jsx:61-69 | only when confirmed: removes the entry, writes it back and closes the form; `inputPrice` is never cleared; unconfirmed, nothing changes |
| `CoinCard.CoinCardForm.Submit` | CoinCard.jsx:39-48 | a positive price that passed the checks is stored as `AfterSet` with the card's name and symbol and written back, and the form is closed and cleared |
| `CoinCard.CoinCardForm.Save` | CoinCard.jsx:23-49 | as written: the outcome is `CheckInput`; a submitted price is stored and the form is closed and cleared; an alert or a throw changes neither the form nor the store |
| `CoinCard.CoinCardForm.SaveFixed` | CoinCard.jsx:23-49 | the same handler with the corrected check |
| `PortfolioIcon.RowOf` | PortfolioIcon.jsx:85-108 | the row of one `[coinId, data]` pair; stated by `RowIsNormalised` and `RowAfterSet` |
| `PortfolioIcon.RowIsNormalised` | PortfolioIcon.jsx:85-108 | a row shows the entry's normal form: a bare number shows the id as name and symbol and the number as price; a date appears only for a record with a timestamp |
| `PortfolioIcon.RowAfterSet` | PortfolioIcon.jsx:85-108 | a freshly set coin's row shows its price, its given or defaulted name and symbol, and the time of the set |
| `PortfolioIcon.Rows` | PortfolioIcon.jsx:84-91 | the list has one row per listed key, in that order, each the row of that key's entry |
| `PortfolioIcon.OneRowPerEntry` | PortfolioIcon.jsx:84-91 | exactly one row per table key: as many rows as `totalItems`, no id twice, and every id present |
| `PortfolioIcon.ShowBadge` | PortfolioIcon.jsx:24-28 | the badge condition; stated by `CountViewsMatchRows` |
| `PortfolioIcon.ShowTooltip` | PortfolioIcon.jsx:31-35 | the tooltip condition; stated by `CountViewsMatchRows` |
| `PortfolioIcon.ShowEmptyState` | PortfolioIcon.jsx:60-63 | the empty-portfolio condition; stated by `CountViewsMatchRows` |
| `PortfolioIcon.CoinWord` | PortfolioIcon.jsx:35 | the plural of "coin"; stated by `CountViewsMatchRows` |
| `PortfolioIcon.CountViewsMatchRows` | PortfolioIcon.jsx:24-60 | the badge shows exactly when there are rows; the empty view exactly when there are none; the tooltip only while hovered and with the badge; "coin" exactly for one row, else "coins" |
| `PortfolioIcon.CountViewsAfterMutation` | PortfolioIcon.jsx:24-60 | after an accepted set the badge shows; deleting the only entry brings back the empty view |

## Findings

| source | as written | input that shows it | evidently intended | confidence | as-written member | corrected member |
|---|---|---|---|---|---|---|
| CoinCard.jsx:57 | `handleEdit` stores `purchasePrice` itself, a number (or the record object), in `inputPrice`; `handleSavePrice` (line 27) then calls `inputPrice.trim()`, which throws a TypeError on a non-string | an entry `{price: 100, ...}`: press Edit, then Update without typing; the handler throws and nothing is saved | Update re-saves the shown price, e.g. by checking `String(inputPrice)` | high; not executed | `CoinCard.EditThenSaveThrows` | `CoinCard.EditThenSaveFixedResubmits` |

## Left out

- Browser storage and JSON are not modelled. A parsed stored value is modelled directly as a table. JSON round-trips are taken as exact. Stored shapes other than a number or a four-field record are not modelled; this includes `null`, strings, arrays, records with missing fields, and the text `null`, which would make the table itself null. A missing timestamp is modelled as the empty string, which is falsy in the same way.
- `parseFloat` is an input, not a string parser. Its result is finite or NaN; a parse to `Infinity` is not modelled.
- Numbers are mathematical reals, not IEEE-754 doubles. Binary rounding of the division and of `toFixed` is not modelled. Negative zero from rounding reads as 0.
- String output is not modelled: the `toFixed` and `toLocaleString` display strings, `toLocaleDateString`, the `toUpperCase` of symbols, the form headings, and the ▲/▼ indicator text.
- `console.error` logging and the text of the two `alert` calls are not modelled. The alerts appear only as the `SaveCheck` outcome.
- React plumbing is not modelled. Each state updater is one sequential step. Rendering, routing and icons are left out.
- The hover and click toggles of PortfolioIcon.jsx are not modelled. Hover enters only as the `hovered` argument.
- `usePortfolio` throwing outside the provider (PortfolioContext.jsx:5-11) is not modelled.
- PortfolioManager.jsx, ProfitLossIndicator.jsx and Header.jsx are not part of this model. PortfolioManager reads context members that the provider does not offer.
- Several browser tabs writing the same slot (last writer wins) is not modelled.
