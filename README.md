# Lucky-draw claim flow: a verified model

This project models the server side of a promotional "lucky money" draw.
A visitor submits an Instagram handle. The Next.js route
`app/api/save-result/route.ts` validates and cleans the handle, draws a prize
amount from a fixed weighted table, and forwards the claim to a Google Apps
Script web app (`google-apps-script.js`). The web app keeps one spreadsheet
row per claimed handle and refuses a second claim for a handle it already
holds. The model covers:

- the prize table `LUCKY_CONFIG` and `weightedRandom` (`prize_draw.dfy`);
- the handle validation, the cleaning and the response shaping of `POST` (`save_result.dfy`);
- `doPost` over a sheet held as a sequence of rows (`apps_script.dfy`);
- the trimming and lower-casing that both sides apply to handles (`js_string.dfy`);
- one claim end to end, and what a repeated claim returns (`claim_flow.dfy`).

Modelling choices:

- `Math.random() * totalWeight` is replaced by an integer `r`. All weights are
  integers, so a real draw picks the same entry as its floor, and each integer
  `r` in `[0, 100)` stands for an equally likely draw.
- `weightedRandom` is a method with the source's `for` loop and its mutable
  `random`. `Bucket` is its reference definition: the entry whose prefix-sum
  interval contains `r`.
- `weightedRandom` is total on all integers. A negative `r` picks entry 0 at
  the first comparison. An `r` of at least the total reaches the fallback,
  which is also entry 0.
- The spreadsheet is the class `Sheet` whose field `rows` is a sequence.
  Sheet row n (1-based) is `rows[n - 1]` and `getLastRow()` is `|rows|`.
  `DoPost` scans and appends in place. The function `Claim` is its
  specification, for use in lemmas.
- The clock, the time-zone formatting, the environment variable and the HTTP
  exchange become parameters. `now` is the ISO timestamp, `dateFormatted` is
  the output of `Utilities.formatDate`, `scriptUrl` is
  `process.env.GOOGLE_APPS_SCRIPT_URL`, and `upstream` is the store's answer as
  `fetch` and `response.json()` deliver it.

Behaviour of the code worth noting:

- The draw's fallback is the first table entry, `LUCKY_CONFIG[0]`, not the last.
- The Apps Script side only lower-cases and trims. The `@` is stripped by the
  route alone.
- A handle that is only `@` (or `@` plus whitespace) passes validation and
  reaches the store as the empty handle. The model keeps this behaviour
  (`CleanHandle`, `Admit`, `AtOnlyAdmitted`).
- Only one leading `@` is stripped, so the stored key is not idempotent:
  `"@@a"` is stored as `"@a"`, whose own key is `"a"`. Claims for `"@@a"` and
  `"@a"` are therefore kept as different handles, while `"@a"` and `"a"` share
  one (`KeyNotIdempotent`). A key that does not start with `@` is its own key
  (`KeyIdempotent`).

## Model

| member | source | states |
|---|---|---|
| PrizeDraw.LuckyConfigWeights | app/api/save-result/route.ts:6-16 | every configured weight is positive, the weights sum to 100, and each weight equals the percentage in its entry's comment |
| PrizeDraw.Bucket | app/api/save-result/route.ts:20-28 | for every r in [0, total) the selected index i satisfies prefix(i) <= r < prefix(i+1) |
| PrizeDraw.BucketUnique | app/api/save-result/route.ts:23-28 | the weight intervals partition [0, total): an index whose interval holds r is the selected one |
| PrizeDraw.BucketCount | app/api/save-result/route.ts:19-31 | for any table with positive weights, exactly weight_i of the integers in [0, total) select entry i |
| PrizeDraw.LuckyConfigOdds | app/api/save-result/route.ts:7-15 | in the configured table each entry is selected by as many of the 100 draws as its comment's percentage |
| PrizeDraw.DrawnFromTable | app/api/save-result/route.ts:23-30 | every draw, including the fallback, is an amount of the table |
| PrizeDraw.WeightedRandom | app/api/save-result/route.ts:19-31 | loop with invariant random == r - prefix(k); returns the amount of the entry whose interval holds r, and the first entry's amount (not the last's) when r is outside [0, total) |
| PrizeDraw.Interval | app/api/save-result/route.ts:21 | the draws in [lo, hi): exactly those integers, hi - lo of them |
| JsString.TrimShape | app/api/save-result/route.ts:39 | `trim` returns a string without surrounding whitespace, no longer than its input, empty exactly when the input is all whitespace |
| JsString.TrimPadded | app/api/save-result/route.ts:47 | whitespace on either side of a string does not change its trimmed form |
| JsString.TrimIdempotent | app/api/save-result/route.ts:47 | trimming twice is trimming once |
| JsString.LowerCaseIdempotent | google-apps-script.js:30 | lower-casing an already lower-cased string leaves it unchanged |
| JsString.LowerCaseAt | google-apps-script.js:30 | each character of the lower-case form is the lower-case form of the input character at that place |
| JsString.TrimLowerCase | google-apps-script.js:30 | lower-casing then trimming equals trimming then lower-casing |
| SaveResult.IsBlankMeansWhitespace | app/api/save-result/route.ts:39-44 | the validation rejects exactly an absent handle and a handle made only of whitespace |
| SaveResult.CleanHandle | app/api/save-result/route.ts:47 | the cleaned handle is the trimmed input with at most one leading `@` removed; its length is \|trim\| or \|trim\| - 1, the latter exactly when the trimmed input starts with `@` |
| SaveResult.CleanHandleRoundTrip | app/api/save-result/route.ts:47 | cleaning removes a prepended `@` from a trimmed handle and leaves a trimmed handle without `@` unchanged |
| SaveResult.MessageOr | app/api/save-result/route.ts:98 | an absent or empty message is replaced by the fallback, any other message is kept |
| SaveResult.AtOnlyAdmitted | app/api/save-result/route.ts:39-47 | the handle `" @ "` passes validation and is cleaned to the empty handle |
| SaveResult.Admit | app/api/save-result/route.ts:34-58 | unparsable body gives 500; blank handle gives 400; otherwise a missing or empty URL gives 500; only when all checks pass is the cleaned handle produced |
| SaveResult.Shape | app/api/save-result/route.ts:84-126 | store success gives success with the locally drawn amount and cleaned handle; duplicate passes previousAmount and previousDate through; a store failure or no usable answer gives 500 |
| SaveResult.Prepare | app/api/save-result/route.ts:35-61 | a rejected request gets its early response and no draw happens; an admitted one gets the cleaned handle and the drawn amount |
| SaveResult.Post | app/api/save-result/route.ts:33-127 | a blank handle answers 400 and a missing URL 500, both with nothing sent to the store; otherwise the store receives the cleaned handle and the drawn amount and the response is the shaped reply |
| AppsScript.NormalizeShape | google-apps-script.js:30 | the key has no upper-case letter and no surrounding whitespace, and equals the lower-cased trimmed handle |
| AppsScript.NormalizeIdempotent | google-apps-script.js:41 | normalizing a key again leaves it unchanged |
| AppsScript.NormalizeVariant | google-apps-script.js:30-41 | spellings differing in ASCII case, with any surrounding whitespace, have the same key |
| AppsScript.HandleColumn | google-apps-script.js:38 | the column read is the handle of rows 2..lastRow, in order |
| AppsScript.FindClaim | google-apps-script.js:40-45 | returns the first index whose normalized handle equals the key, or none when no handle does |
| AppsScript.WithHeader | google-apps-script.js:24-26 | an empty sheet gets the header as row 1; a non-empty sheet is kept, so data rows start at row 2 |
| AppsScript.Claim | google-apps-script.js:15-91 | a parse error changes nothing; a duplicate leaves the sheet unchanged; a saved claim appends one row [timestamp, key, amount, date] after `WithHeader(rows)` (on an empty sheet, the header and then that row) and reports the key and row = \|WithHeader(rows)\| + 1, which is 2 on a first claim |
| AppsScript.DuplicateIffClaimed | google-apps-script.js:35-68 | a claim with a handle is answered duplicate exactly when some data row (row 2 or later) has its key, and saved exactly when none has |
| AppsScript.DuplicateIsFirstClaim | google-apps-script.js:40-56 | a duplicate reply carries the amount and date of the first data row, in row order, whose key matches |
| AppsScript.ClaimKeepsUnique | google-apps-script.js:37-68 | if no two data rows share a key before a claim, none do after it: sequential claims store at most one row per key |
| AppsScript.ClaimedStays | google-apps-script.js:37-68 | a key some data row holds is still held after any claim: claimed is a final state |
| AppsScript.HeaderNotCompared | google-apps-script.js:37-38 | replacing row 1 changes neither the reply nor the data rows |
| AppsScript.SecondClaimIsDuplicate | google-apps-script.js:40-68 | after a saved claim, a claim with the same key is a duplicate carrying the first claim's amount and date, and writes nothing |
| AppsScript.Sheet.AppendRow | google-apps-script.js:63-68 | the new row goes after all existing rows |
| AppsScript.Sheet.DoPost | google-apps-script.js:15-91 | the scan loop and append produce exactly the reply and sheet of Claim; a duplicate writes nothing; a save keeps every row of `WithHeader(old rows)` and adds one after them |
| ClaimFlow.Flow | app/api/save-result/route.ts:61-118 | a rejected request leaves the sheet alone; an admitted one always answers 200 (won or duplicate); a win records the drawn amount under the handle's key |
| ClaimFlow.ClaimOnce | app/api/save-result/route.ts:61-118 | the route against the sheet produces exactly Flow's response and rows |
| ClaimFlow.FlowDuplicateIff | app/api/save-result/route.ts:84-118 | an admitted claim is answered "already claimed" exactly when some data row already holds its key, and won exactly when none does |
| ClaimFlow.FirstClaimWins | google-apps-script.js:24-79 | on an empty sheet a valid claim wins an amount of the table and leaves the header plus one data row |
| ClaimFlow.RepeatClaimIsDuplicate | google-apps-script.js:37-68 | a later claim whose handle has the same key answers duplicate with the first win's amount and date, and does not touch the sheet |
| ClaimFlow.KeyOfVariant | app/api/save-result/route.ts:47 | whitespace around a handle, a leading `@` and ASCII case do not change its key |
| ClaimFlow.SpellingsShareKey | app/api/save-result/route.ts:47 | `"@Foo "`, `"foo"` and `"FOO"` share one key |
| ClaimFlow.KeyIdempotent | app/api/save-result/route.ts:47 | a key that is empty or does not start with `@` is its own key |
| ClaimFlow.KeyNotIdempotent | app/api/save-result/route.ts:47 | only one `@` is stripped: `"@@a"` keys as `"@a"`, whose key is `"a"`, so keying twice can differ from keying once |

## Left out

- The user interface: `app/page.tsx`, `app/components/WheelSpinner.tsx` and `app/components/Leaderboard.tsx` are React state, animation timing and floating-point wheel geometry.
- `app/api/leaderboard/route.ts` is a plain proxy. The `get_leaderboard` handler that orders the winners is not part of this model.
- HTTP transport, `fetch`, the `redirect: 'follow'` option and JSON encoding are left out. The store's answer is the `Upstream` parameter: either a reply or "no usable answer".
- `console.error` logging is left out, because it has no effect on any response.
- Concurrency: two claims for the same handle that interleave between the scan and the append can both be saved. The model covers sequential claims only.
- SaveResult.Admit: a JSON `instagram` field that is not a string is not modelled. A falsy one (`0`, `false`, `null`) already fails the `!instagram` test and gets the 400 of an absent handle, which `None` covers. A truthy one (a number, `true`, an object, an array) makes `.trim()` throw a TypeError, which the catch turns into a 500. The model has no case for that.
- JsString.LowerCaseAt: `toLowerCase` is modelled on ASCII letters only. Unicode case mapping, such as Vietnamese letters with diacritics, is not modelled.
- AppsScript.Claim: a failed reply carries only the exception's class name (`SyntaxError`, `TypeError`), not the full `error.toString()` text.
- AppsScript.Claim: `getLastRow()` is read as the number of rows held. Blank rows that Sheets would skip are not modelled.
- AppsScript.Claim: a cell returns exactly the text appended to it. Sheets converts number-like or date-like text: it drops leading zeros, so `"0123"` is read back as `"123"`, and it may turn the formatted date into a date value. That conversion is not modelled. AppsScript.SecondClaimIsDuplicate and ClaimFlow.RepeatClaimIsDuplicate rely on cells coming back verbatim.
- AppsScript.Claim: the amount sent by the route is assumed to be an integer, so it is stored as a number cell.
- Timestamps, `new Date(...)` and `Utilities.formatDate` are opaque strings passed in as parameters.
