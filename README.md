# Random phone number generator — a verified model

This project models the browser tool that generates plausible phone numbers for a country chosen from a static catalog. Two source files make up the core:

- `lib/phoneGenerator.ts`, the generator:
  - `secureRandom`, `randomChoice` and `randomDigit`;
  - `generatePhoneNumber`, which picks a prefix, appends random digits up to `country.length`, fills the `X` placeholders of the format mask and prepends the dial code;
  - `generatePhoneNumbers`, which repeats that `count` times;
  - the `join('\n')` that builds the export text.
- `app/sjh/page.tsx`, the page:
  - the country picker: a debounced, case-insensitive search and a list that reveals fifty entries at a time;
  - the page state: the selected country and its restoration from browser storage, the quantity check of `handleGenerate`, the delayed generation, the list of generated numbers that reveals a hundred at a time, the guard and file name of `handleDownload`, and the `#0001` position label.

Randomness is explicit. `crypto.getRandomValues` becomes an `Entropy` stream of 32-bit draws, and every generation step takes the index of its first draw and returns the index after its last one. Given that stream the generator is deterministic, so its results can be stated exactly.

JavaScript's failure values are modelled as data:

- `NaN` and `undefined`, where the code relies on them, are `Option.None`.
- The `TypeError` thrown by `generatePhoneNumber` on an empty prefix list is `Result.Err(PrefixUndefined)`.

Modules, one per file:

| module | file | models |
|---|---|---|
| `Options` | `options.dfy` | `Option`, `Result` and the one failure the generator can raise |
| `JsText` | `js_text.dfy` | the built-ins used: ASCII `toLowerCase`, `includes`, `slice(0, n)`, `toString` of naturals, `padStart`, one-argument `parseInt` |
| `PhoneCountries` | `phone_country.dfy` | the catalog record `Country` and the invariant a record is meant to meet |
| `PhoneGenerator` | `phone_generator.dfy` | `lib/phoneGenerator.ts` |
| `IncrementalReveal` | `incremental_reveal.dfy` | the page-size reveal step both lists share |
| `CountrySelect` | `country_select.dfy` | the search filter and the picker state (`class Picker`) |
| `PhoneGeneratorPage` | `phone_page.dfy` | the page state (`class Page`) and its pure rules |

The loops of the generator are methods proved against specification functions:

| method | specification function |
|---|---|
| `BuildNumber` | `Digits` |
| `FillFormat` | `ReplaceEach` |
| `GeneratePhoneNumber` | `PhoneNumber` |
| `GeneratePhoneNumbers` | `Batch` |

The fill has two definitions:

- `ReplaceEach` is the loop as written: one `replace('X', ch)` per character.
- `Substitute` is an independent left-to-right reference fill.

`ReplaceEachIsSubstitute` proves the two agree whenever the raw number holds no `X`. `ReplaceEachKeepsLiterals` proves that the loop as written keeps every literal character of the mask in place even when the number holds an `X`. `FillThenUnfill` then states exactly what a mask with too few or too many placeholders ends up holding.

The code checks none of its inputs, and the model follows the code:

- An empty prefix list is not reported as an invalid record. It throws a `TypeError` (`randomChoice([])` is `undefined`, and `.length` is read on it), and the batch aborts.
- A prefix longer than `country.length` is not an error. The digit loop runs zero times and the raw number is the prefix alone.
- A mask with too few placeholders silently drops the trailing digits, and one with too many leaves `X`s in the output. The generator checks neither; `WellFormed` states the record invariant, and the lemmas say what holds with it and without it.
- A quantity of `0` is not rejected. `parseInt("0") || 10` is `10`, so ten numbers are requested (`RequestedCountDefaults`).
- A quantity in exponent notation is read only up to the `e`: `1e5` requests one number (`RequestedCountStopsAtExponent`).

## Model

| member | source | states |
|---|---|---|
| PhoneGenerator.Remainder | lib/phoneGenerator.ts:7 | JavaScript `%` on a non-negative dividend is below the divisor's magnitude and agrees with the mathematical remainder for a positive divisor |
| PhoneGenerator.SecureRandom | lib/phoneGenerator.ts:3-8 | the result is NaN (None) exactly when the range is empty; for `max >= min` it lies in `[min, max]` and equals `min + r % (max - min + 1)` |
| PhoneGenerator.RandomChoice | lib/phoneGenerator.ts:10-12 | `undefined` (None) exactly for an empty array; otherwise the element at index `r % length`, which is a member of the array |
| PhoneGenerator.RandomDigit | lib/phoneGenerator.ts:14-16 | a single decimal digit character whose value is `r % 10` |
| PhoneGenerator.Digits | lib/phoneGenerator.ts:22-25 | the appended run has exactly the requested length and consists of digits |
| PhoneGenerator.DigitsAt | lib/phoneGenerator.ts:22-25 | the i-th appended digit is `entropy(at + i) % 10`, one draw per digit in loop order |
| PhoneGenerator.DigitsLocal | lib/phoneGenerator.ts:22-25 | the appended digits depend only on the draws the loop reads, `[at, at + n)` |
| PhoneGenerator.ChosenPrefix | lib/phoneGenerator.ts:19 | for a non-empty prefix list the chosen prefix is one of the record's prefixes |
| PhoneGenerator.RawNumber | lib/phoneGenerator.ts:19-25 | the raw number starts with the chosen prefix; its length is `country.length` when the prefix fits and the prefix's length otherwise; everything after the prefix is a digit |
| PhoneGenerator.BuildNumber | lib/phoneGenerator.ts:20-25 | the digit loop yields the prefix followed by `Digits` over exactly `max(length - prefix.length, 0)` draws, and consumes those draws |
| PhoneGenerator.ReplaceFirstX | lib/phoneGenerator.ts:29 | `replace('X', c)` preserves length |
| PhoneGenerator.ReplaceFirstXAt | lib/phoneGenerator.ts:29 | only the first `X` changes, to `c`; every other position keeps its character, and a string without `X` is unchanged |
| PhoneGenerator.ReplaceEach | lib/phoneGenerator.ts:27-30 | the repeated replacement preserves the mask's length; `ReplaceEachKeepsLiterals` keeps every literal in place |
| PhoneGenerator.ReplaceEachKeepsLiterals | lib/phoneGenerator.ts:27-30 | for every number, including one that holds `X`, each literal character of the mask stays at its position |
| PhoneGenerator.Substitute | lib/phoneGenerator.ts:27-30 | the reference left-to-right fill preserves the mask's length |
| PhoneGenerator.SubstituteAt | lib/phoneGenerator.ts:27-30 | each literal character of the mask stays at its position; each placeholder position holds `X` or a character of the number |
| PhoneGenerator.Unfill | lib/phoneGenerator.ts:27-30 | reading the placeholder positions yields one character per placeholder |
| PhoneGenerator.FillFormat | lib/phoneGenerator.ts:27-30 | the fill loop computes `ReplaceEach`, keeps the mask's length and every literal character at its position for any number, and equals the reference fill when the number holds no `X` |
| PhoneGenerator.SubstituteNothing | lib/phoneGenerator.ts:27-30 | filling with nothing leaves the mask unchanged |
| PhoneGenerator.ReplaceEachPastLiteral | lib/phoneGenerator.ts:29 | every replacement passes over a leading literal character |
| PhoneGenerator.ReplaceEachIsSubstitute | lib/phoneGenerator.ts:27-30 | for a number without `X`, the loop as written equals the left-to-right reference fill |
| PhoneGenerator.Placed | lib/phoneGenerator.ts:27-30 | the expected content of `n` placeholders has length `n` |
| PhoneGenerator.FillThenUnfill | lib/phoneGenerator.ts:27-30 | the placeholders of the filled mask hold the first `#X` characters of the number, with the surplus dropped, or the whole number followed by `X`s that stay unfilled |
| PhoneGenerator.PhoneNumber | lib/phoneGenerator.ts:18-33 | generation throws exactly when the prefix list is empty; otherwise it consumes at least one draw |
| PhoneGenerator.GeneratePhoneNumber | lib/phoneGenerator.ts:18-33 | the method equals `PhoneNumber`, throws exactly on an empty prefix list, and otherwise returns the dial code, a space and the filled mask of `RawNumber` |
| PhoneGenerator.PhoneNumberLocal | lib/phoneGenerator.ts:18-33 | one generation depends only on the draws in `[at, next)`: streams that agree there give the same number and the same next cursor |
| PhoneGenerator.WellFormedPhoneNumber | lib/phoneGenerator.ts:18-33 | for a well-formed record generation succeeds; the raw number has exactly `length` digits; the output is dial code, space and the reference fill; the placeholders read back as the raw number |
| PhoneGenerator.Batch | lib/phoneGenerator.ts:35-41 | a batch throws exactly when `count > 0` and the prefix list is empty; otherwise it holds `max(count, 0)` numbers |
| PhoneGenerator.GeneratePhoneNumbers | lib/phoneGenerator.ts:35-41 | the push loop computes `Batch` and returns `max(count, 0)` numbers |
| PhoneGenerator.BatchUnroll | lib/phoneGenerator.ts:35-41 | a batch is its first generation followed by the rest of the batch, which starts at the next unused draw |
| PhoneGenerator.BatchElement | lib/phoneGenerator.ts:35-41 | the k-th number of a batch is exactly one generation run at the k-th cursor, in generation order |
| PhoneGenerator.CursorIncreases | lib/phoneGenerator.ts:35-41 | successive generations of a batch start at strictly later draws |
| PhoneGenerator.CursorNext | lib/phoneGenerator.ts:35-41 | generation `k` of a batch ends exactly where generation `k + 1` starts; with `PhoneNumberLocal`, each number reads only its own slice `[Cursor k, Cursor k+1)` of the draws |
| PhoneGenerator.Join | lib/phoneGenerator.ts:44 | `numbers.join('\n')`; it has no contract of its own and is tied down by `SplitJoin` and `ExportRoundTrip` |
| PhoneGenerator.Split | lib/phoneGenerator.ts:44 | the reader's inverse of the export, `split('\n')`, always yields at least one line |
| PhoneGenerator.SplitJoin | lib/phoneGenerator.ts:44 | a non-empty list of lines without `'\n'`, joined and split again, comes back unchanged |
| PhoneGenerator.EmptyExportIsOneLine | lib/phoneGenerator.ts:44 | the empty list exports as text that reads back as one empty line, not as an empty list |
| PhoneGenerator.ExportRoundTrip | lib/phoneGenerator.ts:44 | for a well-formed record whose dial code and mask hold no line break, the export of any non-empty batch reads back as that batch |
| PhoneCountries.CountX | lib/phoneGenerator.ts:27-30 | the placeholder count is at most the mask's length and is zero exactly when the mask has no `X` |
| JsText.ToLowerAscii | app/sjh/page.tsx:62-66 | `toLowerCase` keeps the length and maps each character through ASCII lowercasing, leaving no ASCII capital behind |
| JsText.Includes | app/sjh/page.tsx:64-66 | `includes` is true exactly when the needle occurs at some index of the haystack |
| JsText.IncludesLower | app/sjh/page.tsx:62-66 | a verbatim occurrence is still an occurrence after both strings are lowercased |
| JsText.Slice0 | app/sjh/page.tsx:71 | `slice(0, n)` is the prefix of length `min(n, length)` |
| JsText.DecimalString | lib/phoneGenerator.ts:15 | `toString` of a natural number is a non-empty run of digits with no leading zero except for 0 itself |
| JsText.PadStart | app/sjh/page.tsx:392 | `padStart(w, f)` has length `max(w, length)` and is fill characters followed by the original string |
| JsText.TrimStart | app/sjh/page.tsx:250 | `parseInt`'s trim removes a prefix made only of white space and leaves no leading white space |
| JsText.DigitValue | app/sjh/page.tsx:250 | a character has a digit value below 36 exactly when it is a decimal digit or an ASCII letter, and 36 otherwise; a decimal digit has its decimal value |
| JsText.LeadingDigits | app/sjh/page.tsx:250 | the digit run `parseInt` reads is the longest prefix made of digits of the radix |
| JsText.ParseInt | app/sjh/page.tsx:250 | one-argument `parseInt`; it has no contract of its own and is tied down by the read-back lemmas `ParseIntOfDigitsBefore`, `ParseIntOfDigits`, `ParseIntOfDecimal` and `ParseIntOfPaddedDecimal` |
| JsText.LeadingDigitsBefore | app/sjh/page.tsx:250 | a decimal run followed by a non-digit, or by nothing, is exactly the run `parseInt` reads |
| JsText.ParseIntOfUnsigned | app/sjh/page.tsx:250 | text starting with a digit has no white space or sign to skip and is read as a magnitude |
| JsText.ParseMagnitudeOfDigits | app/sjh/page.tsx:250 | a decimal run followed by a non-alphanumeric character, or by nothing, is read in base 10 as its value, never as hex |
| JsText.ParseIntOfDigitsBefore | app/sjh/page.tsx:250 | `parseInt` of a decimal run followed by a non-alphanumeric character, or by nothing, is the run's value |
| JsText.ParseIntOfDigits | app/sjh/page.tsx:250 | `parseInt` of a non-empty digit string is its decimal value |
| JsText.ParseIntOfDecimal | app/sjh/page.tsx:250 | `parseInt(n.toString())` is `n` for every natural `n` |
| JsText.ParseIntOfPaddedDecimal | app/sjh/page.tsx:392 | `parseInt(n.toString().padStart(w, '0'))` is `n` |
| IncrementalReveal.Grow | app/sjh/page.tsx:80 | `Math.min(prev + page, length)` is at most both bounds and equals one of them |
| IncrementalReveal.OnSentinel | app/sjh/page.tsx:79-80 | the observer only grows a count below the length, keeps it at most the length, makes progress for a positive page, and never shrinks it |
| IncrementalReveal.RevealsStayAtEnd | app/sjh/page.tsx:79-80 | once the count reaches the length, further sentinel events leave it unchanged |
| IncrementalReveal.RevealsReachEnd | app/sjh/page.tsx:79-80 | after `k` events with `visible + k * page >= length`, the count is exactly `max(visible, length)` |
| IncrementalReveal.RevealsStayWithin | app/sjh/page.tsx:232-233 | a count that starts within the list stays between its start and the length through any number of events |
| CountrySelect.FilterMatching | app/sjh/page.tsx:62-67 | the filter is no longer than the catalog and keeps exactly the catalog countries whose lowercased name or code, or dial code, contains the query |
| CountrySelect.FilteredCountries | app/sjh/page.tsx:60-68 | an empty debounced query yields the whole catalog; a non-empty one keeps exactly the countries matching its lowercased form |
| CountrySelect.Matches | app/sjh/page.tsx:63-67 | the filter callback; it has no contract of its own and is tied down by `FilterMatching` and `SearchFindsTypedText` |
| CountrySelect.SearchIgnoresCase | app/sjh/page.tsx:61-62 | the search lists the same countries whatever the case of the query |
| CountrySelect.SearchFindsTypedText | app/sjh/page.tsx:62-67 | a catalog country whose name or code contains the non-empty typed text verbatim is always listed |
| CountrySelect.EmbedsSkip | app/sjh/page.tsx:62-67 | a skipped catalog entry keeps the rest of the matches embedded, one position later |
| CountrySelect.EmbedsKeep | app/sjh/page.tsx:62-67 | a kept catalog entry embeds at the front, ahead of the rest |
| CountrySelect.FilterIsSubsequence | app/sjh/page.tsx:62-67 | the filtered list is a subsequence of the catalog, in the catalog's order |
| CountrySelect.FilterMultiplicity | app/sjh/page.tsx:62-67 | a matching country is kept as many times as the catalog lists it, and a non-matching one not at all |
| CountrySelect.Picker.constructor | app/sjh/page.tsx:42-44 | the picker starts with empty queries and one page of fifty |
| CountrySelect.Picker.Filtered | app/sjh/page.tsx:60-68 | the memo for the current debounced query: the whole catalog when the query is empty, and only catalog countries in any case |
| CountrySelect.Picker.Visible | app/sjh/page.tsx:70-72 | the visible countries are the first `min(visibleCount, filtered length)` matches, all from the catalog; in a valid state that is at least the first page of fifty, or all matches when fewer |
| CountrySelect.Picker.HasMore | app/sjh/page.tsx:175 | the sentinel is rendered exactly when fewer countries are visible than match |
| CountrySelect.Picker.ShowsNoMatch | app/sjh/page.tsx:181 | the "nothing found" message shows exactly when the debounced query is non-empty and no catalog country matches it |
| CountrySelect.Picker.Type | app/sjh/page.tsx:131 | typing, or the clear button at line 137, sets the search text and nothing else |
| CountrySelect.Picker.DebounceElapsed | app/sjh/page.tsx:49-58 | when the debounce fires, the list follows the current query and is reset to fifty |
| CountrySelect.Picker.Open | app/sjh/page.tsx:95-99 | opening clears the search text and resets the count to fifty |
| CountrySelect.Picker.SentinelSeen | app/sjh/page.tsx:75-93 | one reveal step of fifty, taken only while matches are hidden and never past the filtered length |
| PhoneGeneratorPage.RequestedCount | app/sjh/page.tsx:250-254 | an unparsable or zero quantity requests ten; a parsed non-zero value is requested when it lies in [1, 10000] and refused otherwise; any request lies in [1, 10000] |
| PhoneGeneratorPage.EffectiveCount | app/sjh/page.tsx:250 | `parseInt(quantity) \|\| 10` is never zero: NaN and 0 give ten, any other parsed value is kept |
| PhoneGeneratorPage.RequestedCountOfDecimal | app/sjh/page.tsx:250-254 | every count in [1, 10000] typed in decimal is requested exactly |
| PhoneGeneratorPage.RequestedCountAboveMaximum | app/sjh/page.tsx:251-254 | a typed count above 10000 is refused |
| PhoneGeneratorPage.RequestedCountDefaults | app/sjh/page.tsx:250 | the empty field and a typed `0` both request the default of ten |
| PhoneGeneratorPage.RequestedCountStopsAtExponent | app/sjh/page.tsx:250 | `parseInt` stops before the exponent, so a quantity typed as `1e5` requests one number |
| PhoneGeneratorPage.FindIndex | app/sjh/page.tsx:212 | `find` by code returns the first catalog position with that code, or nothing when no entry has it |
| PhoneGeneratorPage.RestoredCountry | app/sjh/page.tsx:206-219 | with no stored code, or one the catalog lacks, the selection stays; with a known code it becomes a catalog entry with that code |
| PhoneGeneratorPage.DownloadFileName | app/sjh/page.tsx:272 | the file name is the country name followed by `_手机号_`, the count in decimal and `个.txt` |
| PhoneGeneratorPage.DownloadFileNameReadsBack | app/sjh/page.tsx:272 | the count in the file name, read after the name and `_手机号_`, parses back to the number of exported numbers |
| PhoneGeneratorPage.IndexLabel | app/sjh/page.tsx:392 | the label is `#` followed by at least four digits |
| PhoneGeneratorPage.IndexLabelReadsBack | app/sjh/page.tsx:392 | the digits of the label at index `i` read back as the one-based position `i + 1` |
| PhoneGeneratorPage.Page.constructor | app/sjh/page.tsx:193-201 | the page starts with the first catalog entry selected, quantity `"10"`, no numbers, not generating, one page of a hundred |
| PhoneGeneratorPage.Page.RestoreStored | app/sjh/page.tsx:206-219 | the mount effect sets the selection to `RestoredCountry` of the stored code and keeps the page invariant |
| PhoneGeneratorPage.Page.Select | app/sjh/page.tsx:429 | choosing a catalog country makes it the selection |
| PhoneGeneratorPage.Page.SetQuantity | app/sjh/page.tsx:333 | editing the field sets the quantity text |
| PhoneGeneratorPage.Page.HandleGenerate | app/sjh/page.tsx:248-264 | a refused quantity changes nothing; an accepted one sets generating, resets the list to a hundred and schedules exactly that count for the selected country |
| PhoneGeneratorPage.Page.GenerationDue | app/sjh/page.tsx:259-263 | the timer stores the batch and ends generating, with exactly the requested count; when the batch throws, the numbers stay and the page stays generating |
| PhoneGeneratorPage.Page.VisibleNumbers | app/sjh/page.tsx:289-291 | the visible numbers are the first `min(visiblePhones, generated length)` numbers; in a valid state at least the first hundred, or all when fewer |
| PhoneGeneratorPage.Page.SentinelSeen | app/sjh/page.tsx:229-241 | one reveal step of a hundred, taken only while numbers are hidden and never past their count |
| PhoneGeneratorPage.Page.HandleDownload | app/sjh/page.tsx:266-274 | download is refused exactly when nothing has been generated; otherwise the file name embeds the country name and count, and the content is the numbers joined by line breaks |

## Left out

- Uniformity and modulo bias of `secureRandom`: these are probabilistic claims. The model fixes the draws and states exactly which values they give.
- `crypto.getRandomValues` is a foreign call. It is replaced by the `Entropy` parameter, an infinite stream that never runs out.
- The Blob, object URL and anchor-click mechanics of `downloadPhoneNumbers`: DOM I/O. Only the joined content and the file name are modelled.
- Clipboard writes, the copied-index timer, `navigator.vibrate` haptics and `alert`: environment side effects. An alert is modelled as its guard, which leaves the state unchanged.
- `localStorage` reads and writes, and `JSON.parse`: I/O on foreign data. `Page.RestoreStored` takes the parsed code as an `Option<string>`. The write-back effect at app/sjh/page.tsx:221-225 stores `selected.code` and changes no modelled state.
- `IntersectionObserver` wiring, the 200 ms debounce timer and the 100 ms generation delay: asynchronous scheduling. Each callback is a method (`SentinelSeen`, `DebounceElapsed`, `GenerationDue`), and the environment decides when they run. The closure captures of `count` and `selectedCountry` are the `pending` request.
- Interleavings such as a second click while a generation is pending are excluded: the button is disabled while `isGenerating`, so `HandleGenerate` requires it to be false.
- JSX rendering, icons, CSS classes and `NavigationMenu`: UI only. The conditions that show the sentinel and the "nothing found" message are `Picker.HasMore` and `Picker.ShowsNoMatch`.
- JsText.ParseInt: the result is an unbounded integer. It does not model the loss of precision of a digit run above 2^53, which JavaScript rounds to the nearest double.
- JsText.IsWhiteSpace: the space separators are those of category Zs as listed in Unicode 15; a later Unicode version that adds one would not be followed.
- JsText.ToLowerAscii: folds only A–Z, not the full Unicode `toLowerCase`.
- Strings are sequences of Unicode code points, as `for (const char of number)` iterates them. JavaScript's `length` counts UTF-16 code units instead, so `country.length - prefix.length` in `RawNumber` differs from the source for a prefix holding a character outside the Basic Multilingual Plane; prefixes are digit strings, so this does not arise for well-formed records.
- The contents of the `phoneCountries` catalog (`lib/phoneCountries` is not part of this model): the catalog is a parameter, assumed non-empty because page state starts with `phoneCountries[0]`.
- Record fields with values JavaScript would treat specially (a fractional or NaN `length`) are not modelled; `length` is an integer.
