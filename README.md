# simple_ads — a verified model of the scraper's core

`src/simple_ads.py` watches a Dutch second-hand marketplace. Its main block is written as an endless loop of rounds (src/simple_ads.py:333-415). Each round has three steps:

1. **Fetch.** It fetches recent listings and stores every listing that has a price in an SQLite table `advertisements`. The `link` column is unique, and the insert is insert-or-ignore.
2. **Classify.** It sends the descriptions of all rows with no brand yet and a non-empty description to a language-model classifier in one batched request, with three attempts and backoff. It parses each answer's `Merk: <brand>` segment and writes the brand, or the sentinel `Onbekend`, back by link. A row with no brand and a NULL or empty description is never sent, so it is never branded, compared or notified.
3. **Compare and notify.** For every branded, not-yet-notified row, it tries the watch-list terms in order as case-insensitive whole words. On the first match it builds a Telegram MarkdownV2 message. It sets `brand_notified = 1` only when the Telegram call succeeds.

The model covers that deterministic core. It has one module per concern:

| module | file | what it holds |
|---|---|---|
| `MarkdownV2` | markdown.dfy | the escaper, with its inverse and the round trip |
| `AdStore` | store.dfy | the table as a class over `seq<Ad>`, with one method per SQL statement and the specification functions they follow |
| `BrandParse` | brand.dfy | the leftmost `Merk: ([^,]+)` search, Python's `strip()`, and the brand one answer yields |
| `WatchMatch` | watch.dfy | the `\b…\b` case-insensitive whole-word test and the first-match scan of the watch list |
| `Classifier` | classifier.dfy | the retry loop of the classifier call, with outcomes abstracted |
| `Notifier` | notifier.dfy | the send guard and the message layout |
| `Workflow` | workflow.dfy | the fetch, classify and notify loops, one whole round, and the properties that link them |

External outcomes are parameters:
- `attempt(i)` is what the classifier's i-th request yields.
- `deliver(i)` is whether the Telegram POST for the i-th pending row succeeds.
- `formatPrice` is the `:.2f` rendering of a price.

Points where the model follows the code's exact behaviour:
- **The sentinel string** is `Onbekend`. The prompt asks the classifier for it (src/simple_ads.py:173), and the loop writes it for an answer without a usable brand (src/simple_ads.py:365, 376).
- **The waits between classifier attempts** are 1 s and 2 s. The code sleeps `2 ** i` only when another attempt follows (src/simple_ads.py:227-230), so the third transport failure returns `[]` at once.
- **Missing answers.** A count mismatch only prints a warning (src/simple_ads.py:353-354). A row past the end of the answer list is left with the default `None` (src/simple_ads.py:357-359), but `re.search` on `None` then raises `TypeError` (src/simple_ads.py:362). That ends the row loop, and with it the program. Rows handled before that point keep their new brand, because each update commits on its own. `ClassifyRows` models this as the outcome `Crashed(n)`. A non-string element in the answer list raises in the same way. See "Findings".

## Model

| member | source | states |
|---|---|---|
| MarkdownV2.EscapeMarkdownV2 | src/simple_ads.py:36-48 | doubling the backslashes and then escaping each reserved character in one left-to-right pass gives `Escaped(text)`, in which every backslash and every one of `_*[]()~\`>#+-=\|{}.!` is prefixed by a backslash and the other characters are kept |
| MarkdownV2.EscapedAppend | src/simple_ads.py:40-48 | escaping works character by character: the escape of a concatenation is the concatenation of the escapes |
| MarkdownV2.EscapedLength | src/simple_ads.py:40-48 | the escaped text is longer than the input by exactly the number of characters that need escaping |
| MarkdownV2.UnescapeEscaped | src/simple_ads.py:36-48 | round trip: unescaping the escaped text gives back the original text |
| MarkdownV2.EscapedUnescape | src/simple_ads.py:36-48 | the other direction: any text that unescapes to `s` is exactly `Escaped(s)`, so escaping is injective and its image is exactly the well-formed escaped texts |
| AdStore.UnprocessedAds | src/simple_ads.py:117-127 | the unprocessed query returns no more entries than there are rows, each taken from a row with no brand (NULL or empty) and a non-empty description; one entry per qualifying row is `QueriesExactly` with `QueryLinksDistinct` |
| AdStore.PendingAds | src/simple_ads.py:129-150 | the comparison query returns no more entries than there are rows, each taken from a row with a non-empty brand and `brand_notified = 0`; one entry per qualifying row is `QueriesExactly` with `QueryLinksDistinct` |
| AdStore.LinksAt | src/simple_ads.py:305 | the link column has one entry per row, in row order |
| AdStore.InLinks | src/simple_ads.py:305 | a link is in the link column exactly when some row carries it |
| AdStore.InsertOrIgnoreUnique | src/simple_ads.py:76-95 | insert-or-ignore keeps links unique; afterwards a row with the link exists; an existing link leaves the table unchanged, and a new link appends the row with brand NULL and status 0 |
| AdStore.WithBrandAt | src/simple_ads.py:97-105 | the brand update sets the brand of exactly the rows with that link and leaves all other rows and all other columns unchanged |
| AdStore.WithNotifiedAt | src/simple_ads.py:107-115 | the status update sets `brand_notified` of exactly the rows with that link and leaves everything else unchanged |
| AdStore.UpdatesOfAbsentLink | src/simple_ads.py:97-115 | an update whose link is in no row changes nothing |
| AdStore.WithBrandKeepsLinks | src/simple_ads.py:97-105 | the brand update keeps the link column and link uniqueness |
| AdStore.WithNotifiedKeepsLinks | src/simple_ads.py:107-115 | the status update keeps the link column and link uniqueness |
| AdStore.UnprocessedAdsComplete | src/simple_ads.py:124 | every row that meets the unprocessed condition is returned by the query |
| AdStore.PendingAdsComplete | src/simple_ads.py:135-147 | every row that meets the comparison condition is returned by the query |
| AdStore.QueriesExactly | src/simple_ads.py:117-150 | with unique links, a row's link is returned by each query exactly when that row meets the query's condition (both directions) |
| AdStore.QueryLinksDistinct | src/simple_ads.py:117-150 | with unique links, neither query returns a link twice |
| AdStore.QueriesDisjoint | src/simple_ads.py:117-150 | no link is in both the unprocessed and the comparison result |
| AdStore.SetBrandLeavesUnprocessed | src/simple_ads.py:97-127 | after a brand update with a non-empty brand, the link is no longer returned by the unprocessed query |
| AdStore.SetNotifiedPending | src/simple_ads.py:107-150 | for a branded row, after setting its status the comparison query returns its link exactly when the status is 0 |
| AdStore.AdTable.constructor | src/simple_ads.py:299-310 | the table of a fresh database is empty and valid |
| AdStore.AdTable.SaveAdvertisement | src/simple_ads.py:76-95 | reports a new row exactly when the link was absent; the new table is the insert-or-ignore of the old one; link uniqueness is kept |
| AdStore.AdTable.UpdateBrand | src/simple_ads.py:97-105 | the new table is the brand update of the old one; uniqueness is kept |
| AdStore.AdTable.UpdateNotifiedStatus | src/simple_ads.py:107-115 | the new table is the status update of the old one; uniqueness is kept |
| AdStore.AdTable.GetUnprocessedAds | src/simple_ads.py:117-127 | returns the unprocessed query of the current rows and changes nothing |
| AdStore.AdTable.GetAdsForComparison | src/simple_ads.py:129-150 | returns the comparison query of the current rows and changes nothing |
| BrandParse.RunEnd | src/simple_ads.py:362 | the greedy `[^,]+` run stops at the first comma or at the end of the text |
| BrandParse.MerkSearch | src/simple_ads.py:362 | finds the leftmost position where `Merk: ` is followed by a non-comma, or reports that there is none anywhere |
| BrandParse.StripBounds | src/simple_ads.py:365 | `strip()` removes exactly the leading and trailing Unicode whitespace: everything cut is whitespace, and what is kept starts and ends with non-whitespace |
| BrandParse.ClassifiedBrand | src/simple_ads.py:362-376 | the stored brand is never empty, contains no comma, and has no surrounding whitespace |
| BrandParse.ClassifiedBrandMeaning | src/simple_ads.py:362-376 | with no `Merk: ` segment the brand is `Onbekend`; otherwise it is the stripped group of the leftmost segment, or `Onbekend` when that group is only whitespace |
| BrandParse.BrandOfWellFormedAnswer | src/simple_ads.py:174 | an answer in the requested form `Merk: <brand>, …` yields exactly `<brand>`, for every brand with no comma and no surrounding whitespace |
| BrandParse.RunEndStopsAtComma | src/simple_ads.py:362 | the captured run ends exactly at the first comma after its start |
| BrandParse.NoMerkWithoutM | src/simple_ads.py:362 | an answer without a capital M contains no `Merk: ` segment |
| BrandParse.ExampleWithBrand | src/simple_ads.py:178 | the prompt's own example answer `Merk: LEGO, Titel: Technic Bugatti Chiron` yields `LEGO` |
| BrandParse.ExampleWithoutBrand | src/simple_ads.py:365 | an answer with only a title yields `Onbekend` |
| WatchMatch.SearchWord | src/simple_ads.py:391 | finds the leftmost position where the term matches case-insensitively with a word boundary on both sides, or reports that there is none |
| WatchMatch.WholeWordMatch | src/simple_ads.py:391 | the watch test holds exactly when the term occurs somewhere in the brand as a whole word, ignoring ASCII case |
| WatchMatch.FirstMatchFrom | src/simple_ads.py:387-406 | the index of the first watch term from `i` on that matches; no earlier term matches; none means no term matches |
| WatchMatch.ScanWatchList | src/simple_ads.py:386-406 | the inner loop stops at the first matching term: the found term matches and no earlier one does, and when nothing is found no term matches |
| WatchMatch.ExampleMatch | src/simple_ads.py:391 | `LEGO` and `lego` both match the brand `LEGO Technic` |
| WatchMatch.ExampleNoMatchInsideWord | src/simple_ads.py:391 | `LEGO` does not match inside the word `ALEGORIC` |
| Classifier.FirstAnswer | src/simple_ads.py:199-230 | finds the first of the three attempts whose outcome is not a transport error, or reports that all of them failed in transport |
| Classifier.RetryPolicy | src/simple_ads.py:153-231 | no request is made for empty input or a missing key; at most three requests are made; every request but the last failed in transport; the first other outcome is final, and only a list gives items; three transport failures give `[]`; the waits are 1 s then 2 s, one after each failure that is retried |
| Classifier.GetBrandInterpretation | src/simple_ads.py:153-231 | the retry loop returns the list, the request count and the waits that `Interpret` describes, and `RetryPolicy` characterises |
| Notifier.SendTelegramMessage | src/simple_ads.py:50-73 | a POST is made exactly when both the token and the chat id are set; success means a POST was made and delivered |
| Notifier.ComposeMessage | src/simple_ads.py:392-399 | the message has the fixed layout, with the title, brand, term, price text and link each escaped for MarkdownV2 |
| Workflow.FetchPhase | src/simple_ads.py:269-283 | the table after the fetch loop is the insert-or-ignore of every priced listing in order; uniqueness is kept |
| Workflow.FetchAddsOnlyPricedListings | src/simple_ads.py:273-280 | the fetch only appends, keeping the old rows as a prefix, and every added row is a fresh row built from a listing that has a price |
| Workflow.FetchStoresEveryPricedLink | src/simple_ads.py:273-280 | afterwards every priced listing's link is in the table |
| Workflow.HandledCount | src/simple_ads.py:356-362 | the rows the loop gets through all have string answers, and the row where it stops has a missing or non-string answer |
| Workflow.AnswerBrand | src/simple_ads.py:362-376 | the brand one answer gives is never empty and has no surrounding whitespace |
| Workflow.ClassifyRows | src/simple_ads.py:356-376 | the loop brands the rows in answer order up to the first unusable answer; it completes exactly when every row had a string answer, and otherwise stops at that row |
| Workflow.ClassifyPhase | src/simple_ads.py:340-376 | classify step: the query, one classifier call as `Interpret` describes (none for an empty query), then the loop over its answers |
| Workflow.ApplyBrandsKeepsLinks | src/simple_ads.py:373-376 | branding keeps the number of rows and each row's link |
| Workflow.ApplyBrandsAt | src/simple_ads.py:356-376 | rows whose link is not among the classified entries are unchanged; a classified row changes only its brand, to a non-empty one |
| Workflow.ClassifiedRowsLeaveQueue | src/simple_ads.py:340-376 | after the loop, the unprocessed query contains only rows that were already unprocessed and that the loop did not reach |
| Workflow.ApplyBrandsLastWins | src/simple_ads.py:356-376 | each row ends with the brand from the last classified entry that carries its link |
| Workflow.LastBrandForDistinct | src/simple_ads.py:356-376 | when entry links are distinct, the last entry carrying entry i's link is entry i |
| Workflow.AnswersMapPositionally | src/simple_ads.py:353-376 | positional mapping: the row that has the i-th entry's link gets the brand of the i-th answer |
| Workflow.MissingKeyStopsClassifying | src/simple_ads.py:159-165 | with the key unset and at least one unprocessed row, the classifier gives no answers, the loop stops at row 0 and the table is left unchanged |
| Workflow.ClassifyRowsIntended | src/simple_ads.py:353-376 | the corrected loop brands every row, reading a missing or non-string answer as no interpretation (the sentinel) |
| Workflow.IntendedClassifyEmptiesQueue | src/simple_ads.py:340-376 | the corrected loop over the whole unprocessed query leaves that query empty, whatever the answers |
| Workflow.NotifyPhase | src/simple_ads.py:380-411 | the table after the notify loop marks exactly the links of the pending rows that matched and were delivered; the posted messages are one per matching row when sending is configured |
| Workflow.MarkNotifiedAt | src/simple_ads.py:400-401 | marking sets `brand_notified = 1` on exactly the rows whose link was marked and changes nothing else |
| Workflow.NotifiedLinksExactly | src/simple_ads.py:385-406 | a link is marked exactly when some pending row with that link matched a term and its send succeeded |
| Workflow.NotifiedOnlyOnSuccess | src/simple_ads.py:380-411 | after the loop a pending row is still pending exactly when it did not both match and get delivered, so a failed send is offered again the next time a round runs on the same database |
| Workflow.PendingRowAfterNotify | src/simple_ads.py:380-411 | the same, for one pending row |
| Workflow.MarkedRowsLeavePending | src/simple_ads.py:400-401 | a marked link is no longer returned by the comparison query |
| Workflow.UnmarkedRowsStayPending | src/simple_ads.py:403-411 | a pending row whose link was not marked is still returned by the comparison query |
| Workflow.PostedMessagesBound | src/simple_ads.py:385-406 | at most one message per pending row, and none at all when the token or chat id is unset |
| Workflow.ScraperRound | src/simple_ads.py:333-415 | one round: fetch, then classify; a crash ends the round with only the rows already branded, and nothing is compared or sent; otherwise the notify loop runs over the classified table |

## Left out

- HTTP and the network: the Telegram POST (src/simple_ads.py:59-73) and the classifier POST (src/simple_ads.py:166-204). Their outcomes are the parameters `deliver` and `attempt`. The prompt text and the JSON navigation of the response are reduced to the outcome kinds in `Classifier.Response`.
- JSON navigation of the classifier's response that meets a value of the wrong type raises outside the retry handler (src/simple_ads.py:206-210). Examples are a body that is not an object, `candidates` that is a string, `parts` that is an object, or a `parts[0]` that is a string containing `text`. That crash is not modelled; `Classifier.Response` treats only missing, empty or non-string fields, as `BadShape`. Within one round the table ends the same either way, because the as-written classify loop also stops at row 0 on `[]`.
- The marketplace library: the category lookup and the search query (src/simple_ads.py:241-271). The fetch step takes the listings as a parameter. When the search or a save raises, the loop stops; that is the call with the listings offered before the failure.
- SQLite plumbing: connections, commits and `ALTER TABLE` (src/simple_ads.py:292-327). Also the `id` and `timestamp` columns, which the core never reads. The insert keeps rows in insertion order; the queries return rows in that order, which SQLite does not promise.
- Configuration (src/simple_ads.py:11-28). Keys and tokens are `Option<string>` parameters. The watch list is a `seq<string>`. In the code `BRANDS_TO_MONITOR` is the raw environment string, so the loop iterates over its single characters; the model takes any sequence of terms, which includes that one.
- An unset watch list is not modelled. With `BRANDS_TO_MONITOR` unset, `for monitored_brand in None` (src/simple_ads.py:387) raises `TypeError` as soon as there is one pending row. The model's `watch` is always a sequence, so `NotifyPhase` and `ScraperRound` do not capture that crash.
- The main loop does not survive its first round. `POLL_INTERVAL_MINUTES` is the raw environment value, a string or `None` (src/simple_ads.py:23). So `time.sleep(POLL_INTERVAL_MINUTES * 60)` (src/simple_ads.py:415) raises `TypeError`: a string times 60 is a string, and `None` times 60 raises. Nothing catches it, so one process runs exactly one round. The model therefore stops at one round, `ScraperRound`. "The next round" in this model means the next start of the program on the same `simple_ads.db`. Every table method starts from any valid table, which covers such a start.
- `print` logging and the classifier's `time.sleep` (src/simple_ads.py:228). The sleeps are returned as a list of seconds.
- Price formatting `:.2f` is the parameter `formatPrice`. Floating point is not modelled; prices are `real`.
- `re.escape` of the watch term is modelled by comparing the term literally. `\b` and `IGNORECASE` are modelled with ASCII word characters and ASCII case folding; Python's Unicode-aware `\w` and case folding are not modelled.
- The title pattern `Titel: (.+)` (src/simple_ads.py:363) is matched but never used by the code, so it is left out.

## Findings

| source | as written | input that shows it | evidently intended | confidence | as-written member | corrected member |
|---|---|---|---|---|---|---|
| src/simple_ads.py:353-362 | for a row past the end of the answer list, `interpreted_result` stays `None`, and `re.search` on `None` raises `TypeError`; that ends the classify loop and the program | `GEMINI_API_KEY` unset and one unprocessed row: the classifier returns `[]`, and row 0 raises. The same happens after three transport failures | a mismatch is only a warning, and a missing answer means no interpretation, so the row gets the sentinel `Onbekend` and the loop continues | not executed | Workflow.MissingKeyStopsClassifying | Workflow.IntendedClassifyEmptiesQueue |

`Workflow.ClassifyRows` and `Workflow.ScraperRound` keep the behaviour as written, crash included. `Workflow.ClassifyRowsIntended` is the corrected loop. `Workflow.IntendedClassifyEmptiesQueue` proves that, whatever the answers, the corrected loop leaves no unprocessed row behind.
