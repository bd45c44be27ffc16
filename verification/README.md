# geldvoorelkaar.nl project scraper — decision pipeline

A Dafny model of the per-project decision logic of the scraper's
`exports.run` (`scraper.js`). Each run fetches the platform's start page. For
every `.projectInfo` block, in document order, the `data.each` callback does
the following:

- it reads the project id (the first run of digits in the detail link);
- it skips ids the `projects` store already holds;
- it rejects a block whose Graydon default probability is above 2 or whose
  CreditSafe score is below 50;
- it rejects a block whose adjusted yield `interest - 0.9 - 2.0` is below 2.5;
- otherwise it records the project, with the yield rounded to cents and the
  duration's month count, writes the whole store to `results.json` and mails
  the project.

The model is purely functional:

- `Scraper.Step(store, block, fields)` is one call of the callback. It returns
  the new store and one outcome: `Known`, `HighRisk`, `LowYield`,
  `Accepted(project)` or `Failed(NoProjectId | NoTermMonths)`.
- `Scraper.Process` folds `Step` over a page. It stops at the first `Failed`,
  because the JavaScript throws there (`null[0]`) and the throw ends the
  `each` loop.
- `Scraper.Run` reads the labels of each block and processes the page.
- `Scraper.Cycle` adds the failed request, after which nothing is read.
- The write of `results.json` and the mail appear as a list of effects
  (`Write(snapshot)`, `Notify(project)`), in the order the source performs
  them.

JavaScript's coercions are modelled as written:

- `JsNumber.Number` is `NaN` or a finite real. Every comparison with `NaN` is
  false.
- `Decimal.ParseFloat` is `parseFloat`: the longest decimal literal after
  leading white space.
- `Decimal.ToNumber` is the unary `+`: a blank string gives 0, and otherwise
  the whole trimmed string must be one literal.
- `JsString` models `trim`, `slice(0, -1)`, `replace(',', '.')` (first
  occurrence only) and `match(/\d+/)`.

The gates and the store are as `scraper.js` has them:

- The risk gate compares the numeric Graydon rating with 2 and the CreditSafe
  score with 50 (`scraper.js:74`).
- The classification is recorded and never tested.
- `results.json` is written after every acceptance (`scraper.js:118`).
- The yield offset is 0.9 + 2.0 (`scraper.js:79`).

A consequence of the code as written is that an interest label with no digit
reads as `NaN`. `NaN - 2.9 < 2.5` is false, so such a block passes the yield
gate and is accepted with a `NaN` interest and yield. This is proved by
`BlockProperties.InterestWithoutDigitsIsNaN` and
`BlockProperties.NaNInterestIsAccepted`.

Modules, in dependency order:

- `Optional` (optional.dfy)
- `JsString` (js_string.dfy)
- `JsNumber` (js_number.dfy)
- `Decimal` (decimal.dfy)
- `Scraper` (scraper.dfy)
- `RunProperties` (run_properties.dfy), properties of whole runs
- `BlockProperties` (block_properties.dfy), how the site's label shapes read
  and what `Step` then decides

## Model

| member | source | states |
|---|---|---|
| JsString.Trim | scraper.js:57-61 | the result is an infix of the label, with only white space cut at either end, and it neither starts nor ends with white space |
| JsString.TrimAllSpace | scraper.js:61 | a label made only of white space trims to the empty string |
| JsString.DropLast | scraper.js:59 | `slice(0, -1)` removes exactly the last character, and an empty label stays empty |
| JsString.ReplaceFirst | scraper.js:59 | without a comma the label is unchanged; otherwise only the first comma becomes a point and every other character is kept |
| JsString.MatchDigits | scraper.js:56 | `None` exactly when the text has no digit; otherwise a non-empty digit run with no digit before it and none right after it |
| JsString.FirstDigitRunUnique | scraper.js:56 | at most one run satisfies that description, so the id (and the month count) is determined by the text |
| JsNumber.Round | scraper.js:91 | `Math.round` gives NaN exactly for NaN, and otherwise the integer within half a unit, with halves rounded up |
| Decimal.Scan | scraper.js:59 | a literal found is well formed, starts the text, and is followed by neither a digit nor (when it has no point) a point |
| Decimal.ScanReadsMaximalLiteral | scraper.js:59 | conversely, any well-formed literal that starts the text and cannot be extended is exactly what the scan finds |
| Decimal.ScanFindsLiteral | scraper.js:59 | the scan finds something whenever some literal starts the text |
| Decimal.ParseFloatReadsLiteral | scraper.js:59 | `parseFloat` reads a literal's exact value, whatever non-numeric text follows it |
| Decimal.ParseFloatNaN | scraper.js:59 | `parseFloat` gives NaN exactly when no literal starts the text after leading white space |
| Decimal.ToNumber | scraper.js:74 | unary `+` on a blank string is 0 |
| Decimal.ToNumberReadsLiteral | scraper.js:74 | unary `+` reads a literal's exact value, also when white space surrounds it |
| Decimal.ToNumberNaN | scraper.js:74 | unary `+` gives NaN exactly when the trimmed text is non-empty and is not a single literal |
| Scraper.LowYieldGate | scraper.js:79-80 | `interest - 0.9 - 2.0 < 2.5` holds exactly for a readable interest below 5.4, and never for NaN |
| Scraper.Cents | scraper.js:91 | `Math.round(x * 100) / 100` is NaN exactly for NaN, and otherwise the whole number of cents in (x - 0.005, x + 0.005] |
| Scraper.NewProject | scraper.js:84-93 | the record keeps id, title, classification, rating, credit, interest and month digits; its yield is NaN exactly for a NaN interest, and otherwise whole cents within half a cent of interest - 2.9 and at least 2.5 |
| Scraper.Step | scraper.js:53-93 | each outcome holds exactly when its check is the first to decide, in source order: no id, known id, risk gate, yield gate, no month digits, accepted. Only an acceptance changes the store, and it adds just the new id with the record built from the block |
| Scraper.Process | scraper.js:53-129 | over a page the store only grows and no entry it held is modified; at most one outcome per block, and at least one for a non-empty page |
| Scraper.Cycle | scraper.js:38-41 | a failed request leaves the store unchanged, with no outcome and no effect; a fetched page is processed |
| RunProperties.StepSeesOnlyMembership | scraper.js:69-80 | a step's outcome depends on the store only through whether the id is already in it |
| RunProperties.ProcessStopsOnlyAtFailure | scraper.js:53-93 | a run stops at its first `Failed` outcome and nowhere else |
| RunProperties.HeldIdIsKnown | scraper.js:69 | a block whose id was stored before the run is reported `Known`, wherever it stands on the page |
| RunProperties.RepeatedIdIsKnown | scraper.js:69-86 | after a block is accepted, a later block of the same page with the same id is `Known` |
| RunProperties.ProcessMailsEachNewProjectOnce | scraper.js:84-127 | every mailed project was new and is stored as mailed, no id is mailed twice, every key the run adds was mailed, and the store grows by one key per mail |
| RunProperties.MailsAreAcceptances | scraper.js:84-127 | the projects mailed in a run are exactly the projects of its `Accepted` outcomes, in the same order, and nothing else is mailed |
| RunProperties.MailThenThrow | scraper.js:53-56 | a block accepted before a block without an id is stored and mailed, and the run still ends in `Failed(NoProjectId)` |
| RunProperties.ProcessWithoutMailKeepsStore | scraper.js:84-127 | a run that mails nothing leaves the store unchanged |
| RunProperties.ProcessWritesBeforeEachMail | scraper.js:117-127 | each store write is followed at once by the mail of a project in the written snapshot, and each mail by such a write; every snapshot is part of the final store, and the last one is the final store |
| RunProperties.ProcessAgainChangesNothing | scraper.js:53-93 | processing the page again on a store with the keys the first run left adds nothing, writes and mails nothing, accepts no block and stops at the same place |
| RunProperties.RunIsIdempotent | scraper.js:53-93 | a second run of the same page on the first run's store leaves it unchanged and has no effect |
| BlockProperties.InterestReadsDecimalComma | scraper.js:59 | an interest label `whole,fraction%` reads as whole + 0.fraction |
| BlockProperties.RatingReadsDecimalComma | scraper.js:74 | a rating label `whole,fraction` reads as whole + 0.fraction |
| BlockProperties.CreditReadsWholeNumber | scraper.js:74 | a CreditSafe label of digits reads as their value |
| BlockProperties.ParseFloatWithoutDigits | scraper.js:59 | `parseFloat` of text without a digit is NaN |
| BlockProperties.InterestWithoutDigitsIsNaN | scraper.js:59 | an interest label without a digit reads as NaN |
| BlockProperties.NaNInterestIsAccepted | scraper.js:79-93 | a new, low-risk block with month digits whose interest reads as NaN is accepted and stored, with NaN interest and NaN yield |
| BlockProperties.BlankCreditIsHighRisk | scraper.js:74 | a new block with a blank CreditSafe label is rejected as `HighRisk`, because `+''` is 0 |
| BlockProperties.CentsIsIdempotent | scraper.js:91 | rounding an already rounded yield to cents changes nothing |
| BlockProperties.InterestSixFifty | scraper.js:59 | the label `6,50%` reads as 6.5 |
| BlockProperties.SixFiftyIsAccepted | scraper.js:59-93 | a new block with rating `1,2`, score `75`, interest `6,50%` and month digits is accepted with a yield of 3.6, and the store gains just its id |

## Left out

- The `curl` request (`scraper.js:38-47`) is process and network I/O. `Cycle`
  takes its result as a parameter: either a failed request or the page's
  blocks.
- The cheerio selection (`scraper.js:49-50`, and the selectors at 55-61 and
  92) is a foreign library. The model takes each block's label texts as
  input, already trimmed where the source trims them. A block without a
  `.button` link is given the empty link, which fails like a link without
  digits. The `if (!data)` check at `scraper.js:52` cannot fire.
- The mail transport and `sendMail` (`scraper.js:14-24`, `100-127`) are foreign
  calls. A mail is the `Notify(project)` effect. The HTML body text and the
  asynchronous send result are not modelled.
- Loading and writing `results.json` (`scraper.js:29-31`, `117-122`) is file
  I/O and JSON serialisation. A write is the `Write(snapshot)` effect. A
  failed write is only logged by the source, so it does not change the
  decisions. JSON turns `NaN` into `null`, which is not modelled.
- index.js (HTTP server, port selection and the `setInterval` scheduler) is
  glue and timer-driven concurrency. Successive runs are modelled by calling
  `Run` again on the store the previous run returned.
- Console logging is not modelled.
- Decimal.ParseFloat: numbers are exact reals, not IEEE-754 doubles. So
  `6.5 - 0.9 - 2.0` is exactly 3.6, and `Math.round` sees no binary rounding
  error. Exponents (`1e3`), `Infinity` and hexadecimal literals are not
  recognised.
- Decimal.ToNumber: the same simplification applies to the unary `+`. A label
  written as an exponent, `Infinity`, or a hexadecimal (`0x…`), binary
  (`0b…`) or octal (`0o…`) literal reads as NaN here, where JavaScript would
  read a number.
- RunProperties.ProcessMailsEachNewProjectOnce: a `Notify` effect stands for
  the call of `sendMail` (`scraper.js:125`), not for a delivered mail. When a
  later block of the same page throws (`scraper.js:56` or `92`), the uncaught
  exception ends the Node process before the asynchronous sends complete,
  while `results.json` already holds the accepted ids (`scraper.js:118`). On
  the next start those ids are `Known`, so their mail is never sent. The
  model does not tell a sent mail from a lost one; `MailThenThrow` shows a
  run where this happens.
- A throw in the callback is modelled as the end of the run. What then
  happens to the Node process (an uncaught exception in the `exec` callback)
  is not modelled.
