# Mobile Bazar invoice front end — verified model of its helpers

The Mobile Bazar invoice front end is a browser page for a phone shop. Staff
log in, fill in an invoice (quantity, rate, CGST and SGST), browse and filter
the invoice history, manage model/variant stock and IMEIs, and send an invoice
by WhatsApp or e-mail. Almost everything happens in a remote service reached
through one RPC helper. The page itself holds only a few pieces of logic, and
this project models them in Dafny:

- the date normaliser `toISODate` (`DateNormalizer`);
- the amount formula of `updateAmounts` (`InvoiceAmounts`);
- the IMEI list and its "at least one IMEI" check in `submitMobile` (`MobileForm`);
- the stock search of `renderStock`, as a method with a loop (`StockSearch`);
- the recipient checks of `sendInvoice` (`SendInvoice`);
- the keep/drop test that `filterByDate` adds to the history table (`HistoryFilter`);
- the success/error split of `callAPI`'s reply (`RpcGateway`).

The JavaScript built-ins these helpers rely on are modelled in `JsBuiltins`:
`split`, `join`, `padStart`, `toLowerCase`, `indexOf`, `trim`, and
`parseFloat(x) || 0`. `Seqs` holds the order-preserving filter used by
`Array.prototype.filter` and by the `forEach` loop of `renderStock`.
`Wrappers` holds `Option` and `Result`.

Some behaviour of the code is easy to miss, and the model keeps it as written:

- `toISODate` does not check the slash form for plausibility. Any three pieces
  around two slashes are rearranged as `C-pad2(A)-pad2(B)`, so `2024/05/01`
  becomes `01-2024-05`.
- Padding never truncates a piece that is already two characters or longer.
- A result that is not in ISO form is emptied when normalised a second time.
- The check in `callAPI` tests whether `result.error` is truthy, not whether
  the field is present. A reply whose `error` is the empty string is
  therefore a success, and the call returns `result.data` (which is
  `undefined` when the reply has no `data` field). `EmptyErrorMessageIsSuccess`
  states this case; `ReplyRoundTrip` covers only non-empty messages.
- The IMEI check blocks a submission exactly when the whole text area is
  white space. The kept lines are not trimmed: an IMEI keeps any spaces or
  tabs typed around it.

## Model

| member | source | states |
|---|---|---|
| JsBuiltins.Split | mobile-bazar-invoice/js/app.js:88 | `split` on one character always gives at least one piece, and no piece contains the separator |
| JsBuiltins.SplitCount | mobile-bazar-invoice/js/app.js:88-89 | the number of pieces is the number of separators plus one |
| JsBuiltins.SplitThenJoin | mobile-bazar-invoice/js/app.js:88 | joining the pieces with the separator gives the original string back |
| JsBuiltins.JoinThenSplit | mobile-bazar-invoice/js/app.js:599 | splitting a join of separator-free pieces gives the pieces back |
| JsBuiltins.Join | mobile-bazar-invoice/js/app.js:599 | joining separator-free pieces puts exactly one separator between neighbours: a join of n pieces has n − 1 separators (none for the empty array) |
| JsBuiltins.PadStart | mobile-bazar-invoice/js/app.js:90-91 | `padStart` gives length max(n, length of s), keeps `s` as the suffix, and puts only fill characters before it |
| JsBuiltins.ToLowerCase | mobile-bazar-invoice/js/app.js:562 | lower-casing keeps the length, leaves no ASCII capital, turns each capital `A`–`Z` into its lower-case letter (code + 32) and keeps every other character |
| JsBuiltins.ToLowerCaseIdempotent | mobile-bazar-invoice/js/app.js:562 | lower-casing twice is the same as lower-casing once |
| JsBuiltins.ToLowerCaseAppend | mobile-bazar-invoice/js/app.js:562-566 | lower-casing a concatenation is the concatenation of the lower-cased parts |
| JsBuiltins.IndexOf | mobile-bazar-invoice/js/app.js:567 | `indexOf` is -1 exactly when the needle does not occur; otherwise it is the first index where it occurs |
| JsBuiltins.Trim | mobile-bazar-invoice/js/app.js:506 | `trim` is empty exactly when the string is all white space; otherwise it starts and ends with a non-white-space character |
| JsBuiltins.TrimIsInfix | mobile-bazar-invoice/js/app.js:506 | `trim` is the infix of the string left after cutting off its leading white space (`k` characters) and its trailing white space: everything before and after the result is white space |
| JsBuiltins.FloatOrZero | mobile-bazar-invoice/js/app.js:99-105 | `parseFloat(x) or 0` is 0 exactly when the parse fails or yields 0, and otherwise the parsed number |
| Seqs.Filter | mobile-bazar-invoice/js/app.js:506 | the filter keeps only elements that pass the test, keeps every element that passes, and is no longer than the input |
| Seqs.FilterMultiset | mobile-bazar-invoice/js/app.js:506 | every element that passes the test is kept as many times as it occurs in the input, and every other element not at all |
| Seqs.FilterIsSubsequence | mobile-bazar-invoice/js/app.js:506 | the filtered list keeps input order: it is a subsequence of the input |
| DateNormalizer.ToISODate | mobile-bazar-invoice/js/app.js:85-96 | a non-empty result is either the input itself, when it is already ISO, or comes from an input with exactly two slashes |
| DateNormalizer.PassesThroughEmptyAndIso | mobile-bazar-invoice/js/app.js:86-87 | the empty string and every `^\d{4}-\d{2}-\d{2}$` string are returned unchanged |
| DateNormalizer.SlashForm | mobile-bazar-invoice/js/app.js:88-94 | for any slash-free `m`, `d`, `y`, `m/d/y` becomes `y-pad2(m)-pad2(d)`, with no range check |
| DateNormalizer.WrongSlashCount | mobile-bazar-invoice/js/app.js:88-95 | a non-empty, non-ISO string without exactly two slashes becomes `""` |
| DateNormalizer.TwoSlashesIsSlashForm | mobile-bazar-invoice/js/app.js:88-89 | every string with exactly two slashes is `p0/p1/p2` for its three pieces, so the lemmas above cover all inputs |
| DateNormalizer.DigitSlashDateGivesIso | mobile-bazar-invoice/js/app.js:87-94 | a 1–2 digit month and day with a 4-digit year give an ISO date |
| DateNormalizer.NoSlashInResult | mobile-bazar-invoice/js/app.js:85-96 | the output never contains `/` |
| DateNormalizer.SecondPass | mobile-bazar-invoice/js/app.js:85-96 | normalising twice keeps an ISO result and empties any other result |
| DateNormalizer.ExamplePadded | mobile-bazar-invoice/js/app.js:88-94 | `5/1/2024` gives `2024-05-01` |
| DateNormalizer.ExampleIso | mobile-bazar-invoice/js/app.js:87 | `2024-05-01` is returned unchanged |
| DateNormalizer.ExampleNoRangeCheck | mobile-bazar-invoice/js/app.js:88-94 | `2024/05/01` gives `01-2024-05` |
| DateNormalizer.ExampleNoTruncation | mobile-bazar-invoice/js/app.js:90-93 | `123/7/2024` gives `2024-123-07`: the long month is kept whole |
| DateNormalizer.ExampleNotADate | mobile-bazar-invoice/js/app.js:86-95 | `not-a-date` gives `""` |
| DateNormalizer.ExampleTwoParts | mobile-bazar-invoice/js/app.js:88-95 | `12/25` has only two pieces and gives `""` |
| InvoiceAmounts.ComputeAmounts | mobile-bazar-invoice/js/app.js:99-106 | the grand total is base + CGST + SGST, and the two taxes together are base × (cgst + sgst) / 100 with unparsable rates read as 0 |
| InvoiceAmounts.GrandTotalIsTaxedBase | mobile-bazar-invoice/js/app.js:99-106 | base = qty × rate, and grand total = base × (1 + (cgst + sgst)/100) |
| InvoiceAmounts.TaxComponents | mobile-bazar-invoice/js/app.js:104-105 | CGST is base × cgst / 100 and SGST is base × sgst / 100, each from its own rate, with unparsable rates read as 0 |
| InvoiceAmounts.ZeroRatesGrandIsBase | mobile-bazar-invoice/js/app.js:102-106 | with both rates zero or unparsable, both taxes are 0 and the grand total equals the base |
| InvoiceAmounts.UnparsableIsZero | mobile-bazar-invoice/js/app.js:99-103 | an unparsable input in any of the four positions gives the same amounts as 0 |
| InvoiceAmounts.NonNegativeInputs | mobile-bazar-invoice/js/app.js:101-106 | non-negative inputs give non-negative taxes and 0 ≤ base ≤ grand total |
| InvoiceAmounts.EqualRatesEqualTaxes | mobile-bazar-invoice/js/app.js:104-105 | equal CGST and SGST rates give equal tax amounts |
| InvoiceAmounts.ExampleInvoice | mobile-bazar-invoice/js/app.js:99-106 | 2, 500, 9, 9 give 1000, 90, 90, 1180 |
| InvoiceAmounts.ExampleUnequalRates | mobile-bazar-invoice/js/app.js:99-106 | 1, 1000, 18 and an unparsable SGST give 1000, 180, 0, 1180 |
| MobileForm.ImeiList | mobile-bazar-invoice/js/app.js:506 | every IMEI is a line whose trim is non-empty and holds no line break |
| MobileForm.ImeiListIsNonBlankLines | mobile-bazar-invoice/js/app.js:506 | the IMEI list is the in-order subsequence of the `\n` lines whose trim is non-empty, kept verbatim, each non-blank line as many times as it occurs and no blank line at all |
| MobileForm.ImeiListEmptyIffBlank | mobile-bazar-invoice/js/app.js:506-509 | the IMEI list is empty exactly when the whole text is white space |
| MobileForm.SubmitMobile | mobile-bazar-invoice/js/app.js:502-512 | the submission fails exactly when the IMEI list is empty; a sent record has a non-empty IMEI list and the form's set name and variant |
| MobileForm.SubmitRejectedIffBlank | mobile-bazar-invoice/js/app.js:502-512 | the submission is blocked, before any call, exactly when the text is all white space |
| MobileForm.SubmitAccepted | mobile-bazar-invoice/js/app.js:502-507 | otherwise the record holds the form's set name and variant, the price as `parseFloat(...) or 0`, and the IMEI list |
| MobileForm.EditRoundTrip | mobile-bazar-invoice/js/app.js:506 | re-submitting the text the edit dialog writes (`imeis.join('\n')`, line 599) gives the same IMEIs when none is blank or contains a line break |
| StockSearch.RenderStock | mobile-bazar-invoice/js/app.js:561-583 | the loop appends exactly the records `StockMatches` selects, in list order |
| StockSearch.StockMatches | mobile-bazar-invoice/js/app.js:562-567 | a record is shown exactly when it is in the list and its lower-cased `setName + " " + variant` contains the lower-cased query; no more records than the list holds |
| StockSearch.StockMatchesSpec | mobile-bazar-invoice/js/app.js:562-567 | a record is shown exactly when the lower-cased `setName + " " + variant` contains the lower-cased query; the result is an order-preserving subsequence |
| StockSearch.EmptyQueryShowsAll | mobile-bazar-invoice/js/app.js:562-567 | an empty query shows every record |
| StockSearch.QueryCaseIgnored | mobile-bazar-invoice/js/app.js:562 | a query and its lower-cased form show the same records |
| StockSearch.SetNameHitIsShown | mobile-bazar-invoice/js/app.js:566-567 | a record whose set name contains the query, ignoring case, is shown |
| StockSearch.VariantHitIsShown | mobile-bazar-invoice/js/app.js:566-567 | a record whose variant contains the query, ignoring case, is shown |
| SendInvoice.PlanSend | mobile-bazar-invoice/js/app.js:245-268 | a planned send keeps the chosen method and, for "whatsapp" or "email", has a non-empty recipient; only those two methods can be blocked |
| SendInvoice.BlockedIff | mobile-bazar-invoice/js/app.js:245-253 | sending is blocked exactly for "whatsapp" with an empty number or "email" with an empty address, and the number check comes first |
| SendInvoice.RecipientChoice | mobile-bazar-invoice/js/app.js:264-269 | if sending goes ahead, the recipient is the number for "whatsapp" and the e-mail otherwise; for either known channel it is non-empty |
| SendInvoice.OtherMethodUnchecked | mobile-bazar-invoice/js/app.js:245-268 | any other method value is not checked and passes the e-mail input, even when it is empty |
| HistoryFilter.KeepRow | mobile-bazar-invoice/js/app.js:413-426 | a row without a valid date is always kept, and a dated row is never kept under an end that lies before the start |
| HistoryFilter.BeforeIsKeyOrder | mobile-bazar-invoice/js/app.js:416-423 | on valid days, the calendar comparison matches the order of day numbers |
| HistoryFilter.ClosedRange | mobile-bazar-invoice/js/app.js:417-424 | a dated row is kept exactly when its day lies in [start, end], bounds included (the program's behaviour when the browser runs at UTC) |
| HistoryFilter.OptionalBounds | mobile-bazar-invoice/js/app.js:417-424 | each bound is tested on its own: a dated row is kept exactly when the start is unset or not after its day, and the end is unset or not before it; a lone start drops earlier days and a lone end later days |
| HistoryFilter.UndatedOrUnboundedKept | mobile-bazar-invoice/js/app.js:413-426 | rows with an empty or invalid date, and all rows when no bound is set, are kept |
| HistoryFilter.SingleDay | mobile-bazar-invoice/js/app.js:417-424 | with start = end, a dated row is kept exactly when it is that day |
| HistoryFilter.EmptyRange | mobile-bazar-invoice/js/app.js:417-424 | an end before the start drops every dated row |
| HistoryFilter.EarlierStartKeepsMore | mobile-bazar-invoice/js/app.js:417-420 | moving the start earlier never drops a row |
| RpcGateway.CallApi | mobile-bazar-invoice/js/app.js:33-37 | a null or undefined reply, and only such a reply, fails with the `TypeError` of reading `.error`; a remote error carries a truthy value; a reply object without an `error` field succeeds |
| RpcGateway.ReplyRoundTrip | mobile-bazar-invoice/js/app.js:31-37 | a `data` reply is returned as sent; an `error` reply with a non-empty message fails with that message |
| RpcGateway.EmptyErrorMessageIsSuccess | mobile-bazar-invoice/js/app.js:33-37 | an `error` that is the empty string is falsy, so the call succeeds and returns the reply's `data`, which this reply lacks, so `undefined` |
| RpcGateway.SuccessIff | mobile-bazar-invoice/js/app.js:33-37 | the call succeeds exactly when the reply is neither null nor undefined and its `error` is falsy, and then it returns `data` |
| RpcGateway.RemoteErrorIsResultError | mobile-bazar-invoice/js/app.js:33-35 | for a reply that is neither null nor undefined, the call fails exactly when `result.error` is truthy, and then with that very value, whatever other fields the reply holds |
| RpcGateway.ExampleInvalidSession | mobile-bazar-invoice/js/app.js:33-34 | `{"error":"Invalid session"}` fails with "Invalid session" |

## Left out

- All DOM reads and writes, SweetAlert dialogs, jQuery/DataTables, `window.open` and scrolling: presentation only. The inputs are parameters and the results are return values.
- `fetch`, `URLSearchParams`, `JSON.stringify` and `response.json()` in `callAPI`, and the remote actions themselves: network I/O. The model starts from the reply that has already been parsed. A fetch or JSON failure, which `callAPI` rethrows unchanged, is not modelled.
- RpcGateway.CallApi: the thrown `Error` carries the raw `error` value. For a string this is exactly the message. The string conversion of any other value is not modelled.
- `parseFloat`'s prefix parsing, IEEE-754 arithmetic and `toFixed(2)` rounding: the amounts are exact `real`s, and a parse is `Some(value)` or `None` (NaN).
- JsBuiltins.ToLowerCase: maps only ASCII `A`–`Z`. JavaScript's full Unicode case mapping, including mappings that change the length, is not modelled.
- Strings are sequences of Unicode scalar values, while JavaScript strings are sequences of UTF-16 code units. For text inside the Basic Multilingual Plane the two agree. A character outside it is one element here but two code units in JavaScript, so `padStart`, `indexOf` offsets and lengths differ: `"😀/1/2024"` gives `2024-😀-01` in JavaScript but `2024-0😀-01` in the model. Lone surrogates are not representable.
- `filterByDate`: `new Date(...)` is not modelled. The model does not capture the month/day overflow normalisation, the rule that maps years 0–99 to 1900–1999, the UTC-versus-local offset between `new Date(start)` (UTC midnight for a `YYYY-MM-DD` string) and `new Date(y, m-1, d)` (local midnight), or the `Number` coercion of the pieces of the cell. The closed range [start, end] is therefore the program's behaviour only when the browser runs at UTC: east of UTC (for example at UTC+05:30) a row dated on the start day is dropped, and west of UTC a row dated on the end day is dropped. The test works on (year, month, day) triples, and a cell that the browser would turn into an Invalid Date is the `InvalidDate` case. Installing and removing the test in DataTables' search list is not modelled.
- `sendInvoice`: `collectInvoiceData` (DOM reads) and the handling of the reply (opening the WhatsApp link, showing the PDF link) are not modelled. Only the pre-send checks and the request's `method` and `recipient` are.
- `submitMobile`: the choice between `updateMobileRecord` and `addMobile` (taken from a DOM attribute), the refresh of set names, and the modal handling are not modelled.
- `viewInvoice`: the copying of a fetched invoice onto the form, including the 300 ms timer before the variant is selected, is not modelled. Its date goes through `toISODate`, which is modelled.
- `setInterval(updateTime)`, login, logout, `clearForm`, the module globals (`currentUser`, `currentUserType`, `mobilesData`, `imeiStockData`) and the other render functions: timers, ambient UI state and HTML building, with no invariant to state.
