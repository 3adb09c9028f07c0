# TibiaSearch core, modelled in Dafny

TibiaSearch is a desktop helper for the game Tibia. This project models its core logic:

- **Market-price refresh** (`scripts/refresh_market_prices.py`).
  - It reads the item names and ids from a wiki table and fills the missing ids into the two item catalogs.
  - It fetches market prices in batches of 100 ids, with a throttle and a retry policy.
  - It skips the run when the server's scan timestamp has not changed.
- **Item-resource refresh** (`scripts/refresh_tibia_items.py`).
  - It parses the wiki tables of creature products and delivery-task items into item records.
  - It falls back to a saved snapshot when the page cannot be fetched.
- **One-shot id back-fill** (`scripts/add_item_ids_to_resources.py`), with its change counter.
- **Search history** (`history.py`): most recent first, de-duplicated, bounded.
- **Application logic** (`app.py`), without the GUI:
  - the number and duration parsers and formatters;
  - the imbuement and equipment catalog builders;
  - the character store and the imbuement price store;
  - the imbue-slot capacity rules;
  - the price total of an imbuement.

The model keeps each piece of source in its own form:

- **Pure code** becomes functions, with lemmas about them.
- **Code that changes state** becomes imperative Dafny, each method proved against a specification function:
  - catalog items updated in place become `array`s;
  - `TableParser`, `Throttle`, `HistoryManager`, `CharacterStore` and `ImbuementStore` become classes with fields;
  - loops become `while`/`for` loops with invariants.

**Modules:**

| module | contents |
|---|---|
| `Wrappers` | `Option`, `Result`, a collect-over-sequence helper |
| `PyText`, `PyJson`, `PyFloat`, `Ordering` | The Python built-ins the code relies on.<br>`str.strip`, `re.sub(r"\s+", " ")`, `str.lower`, `int()`.<br>`float()` on decimal text, `str < str`, `sorted(key=...)`.<br>Decoded JSON values, `isinstance` and truthiness. |
| `Names` | `normalize_name`, `normalize_header` |
| `HtmlTables` | The `TableParser` of both scrape scripts, over a token stream.<br>`find_table` and `find_column`. |
| `ItemIds` | `fetch_item_ids`, `load_item_ids` / `find_item_id_table`.<br>`build_alias_mapping`, `apply_ids_to_items`. |
| `Catalog` | `apply_item_ids`, `update_items_with_prices` |
| `MarketValues` | `_parse_market_values`, `_extract_last_update` |
| `Fetcher` | `Throttle`, `_compute_retry_after`, the retry loop of `_fetch_market_batch` |
| `Refresh`, `RefreshScenarios` | `_refresh_server_impl`: the freshness gate, the id mapping, the batches, the price write and the metadata.<br>The repository's two sequential refresh tests, as lemmas. |
| `TibiaItems` | `clean_item_name`, `split_providers`, `parse_weight`.<br>`parse_creature_products`, `parse_delivery_items`, `write_resource`, the snapshot fallback. |
| `History` | `HistoryManager` |
| `AppFormat` | `_parse_int_safe`, `_format_number` / `_format_gp` / `_format_price`.<br>`_parse_price_input`, `CharacterWindow._parse_int`, `_parse_duration`, `_format_duration`. |
| `AppCatalog` | `build_imbuements`, `build_items` |
| `AppStores` | `CharacterStore` and `ImbuementStore`.<br>`_apply_selected_imbue` and `_remove_imbue`.<br>`_calculate_total`. |

**What the model takes as parameters:**

- The network and the file system become parameters and return values:
  - each market reply is an element of an injected series;
  - each batch outcome, the page, the snapshot and the dump are inputs;
  - what would be written is returned.
- The clock is a `now` value in an environment record.
- `random.uniform` is an injected draw in `[0, 1)`.
- `slugify`, `urljoin` and `str()` of a nested JSON list or object are injected functions.

## Model

| member | source | states |
|---|---|---|
| Names.NormalizeNameIsKey | scripts/refresh_market_prices.py:124-127 | Every name key is stripped, single-spaced, lower-case and has no right single quote. |
| Names.NormalizeNameIdempotent | scripts/refresh_market_prices.py:124-127 | `normalize_name` applied twice is applied once. |
| Names.NameKeyFixed | scripts/refresh_market_prices.py:124-127 | A string already in key shape is its own key. |
| Names.NormalizeNameIgnoresCase | scripts/refresh_market_prices.py:124-127 | Names differing only in letter case have the same key. |
| Names.NormalizeNameIgnoresQuotes | scripts/refresh_market_prices.py:125 | Writing `’` or `'` gives the same key. |
| Names.NormalizeNameIgnoresRuns | scripts/refresh_market_prices.py:126 | Runs of whitespace inside a name do not change its key. |
| Names.NormalizeNameIgnoresPadding | scripts/refresh_market_prices.py:125 | Leading and trailing whitespace does not change the key. |
| Names.NormalizeHeaderShape | scripts/refresh_market_prices.py:120-121 | A header key has no edge whitespace, single spaces only, and no upper-case letters. |
| Names.NormalizeHeaderIdempotent | scripts/refresh_market_prices.py:120-121 | `normalize_header` is idempotent. |
| Names.NormalizeHeaderIgnoresCase | scripts/refresh_tibia_items.py:111-112 | Header keys ignore letter case. |
| Ordering.StrLeTotalPreorder | scripts/refresh_tibia_items.py:257 | Python's string order, used as a sort key, is total and transitive. |
| Ordering.PairLeTotalPreorder | app.py:294 | The tuple order on `(slot, name)` is total and transitive. |
| Ordering.SortBySorted | scripts/refresh_tibia_items.py:257 | `sorted(key=...)` returns an ordered permutation of its input. |
| HtmlTables.TableParser.HandleStartTag | scripts/refresh_tibia_items.py:46-62 | Each flag and accumulator changes as `handle_starttag` changes it. A link is recorded from an `a` tag only inside a cell, and only when links are captured. |
| HtmlTables.TableParser.HandleData | scripts/refresh_market_prices.py:94-96 | Text is collected only inside a cell. |
| HtmlTables.TableParser.HandleEndTag | scripts/refresh_market_prices.py:98-113 | A cell, row or table is closed as `handle_endtag` closes it. Empty rows and empty tables are dropped. |
| HtmlTables.TableParser.Feed | scripts/refresh_market_prices.py:172-175 | Feeding a stream is running the handlers token by token. |
| HtmlTables.ParseTablesOf | scripts/refresh_tibia_items.py:105-108 | `parse_tables` equals the tables a fresh parser holds after the whole stream. |
| HtmlTables.ParseTablesShape | scripts/refresh_tibia_items.py:68-84 | No empty table or row is recorded. Cell text is stripped, single-space-joined fragments. Every link is a non-empty `href`, and there are none unless links are captured. |
| HtmlTables.NoAnchorNoLinks | scripts/refresh_tibia_items.py:46-62 | Without `a` tags, no cell carries links. |
| HtmlTables.NoRowNoTables | scripts/refresh_market_prices.py:81-92 | Cells are recorded only inside rows: a stream without `tr` yields no table. |
| HtmlTables.NoTableTagNoTables | scripts/refresh_market_prices.py:81-92 | Rows are recorded only inside tables: a stream without `table` yields no table. |
| HtmlTables.Fragments | scripts/refresh_market_prices.py:100-103 | The kept fragments of a cell are non-empty and stripped. |
| HtmlTables.Hrefs | scripts/refresh_tibia_items.py:56-60 | Only truthy `href` values are taken. |
| HtmlTables.FindTable | scripts/refresh_market_prices.py:178-189 | Returns the first table whose normalized header set holds every required header, with its header row and remaining rows. Returns `None` exactly when no table matches. |
| HtmlTables.FindColumn | scripts/refresh_tibia_items.py:159-165 | Returns the lowest column whose normalized header contains any candidate. Returns `None` exactly when none does. |
| HtmlTables.ContainsAnyMeaning | scripts/refresh_tibia_items.py:162-164 | The candidate test holds exactly when some candidate occurs in the normalized header. |
| HtmlTables.ColumnOr | scripts/refresh_tibia_items.py:174-175 | `find_column(...) or k` also replaces a column found at index 0 with `k`. |
| HtmlTables.ColumnOrNone | scripts/refresh_tibia_items.py:211-212 | `find_column(...) or None` treats a column found at index 0 as missing. |
| ItemIds.IdColumnAsWritten | scripts/add_item_ids_to_resources.py:45 | As written, the id column is never 0: an id header found at column 0 is read from column 1. |
| ItemIds.IdColumn | scripts/add_item_ids_to_resources.py:45 | The first id-like header's column, and column 1 only when there is none. |
| ItemIds.IdColumnsAgree | scripts/add_item_ids_to_resources.py:45 | The two agree unless the id header is at column 0. |
| ItemIds.IdColumnAsWrittenMisses | scripts/refresh_market_prices.py:213 | On an `ID \| Item` table the written code reads ids from the name column and drops the row `17 \| Foo`. |
| ItemIds.RowEntryAccepts | scripts/add_item_ids_to_resources.py:48-56 | A row is kept exactly when both cells exist, the name is not blank and the id cell holds a digit. It is kept under its name key, with the first digit run as its id. |
| ItemIds.ExtractIdMapping | scripts/refresh_market_prices.py:216-225 | The row loop fills the dictionary row by row; a later row overwrites an earlier one. |
| ItemIds.IdMappingSources | scripts/add_item_ids_to_resources.py:47-56 | Every key and id in the mapping comes from one accepted row. |
| ItemIds.IdMappingCovers | scripts/add_item_ids_to_resources.py:47-56 | Every accepted row's key is in the mapping. |
| ItemIds.ItemIdsFromDumpMeaning | scripts/refresh_market_prices.py:201-227 | `fetch_item_ids` fails exactly when there is no dump or no table with both "item" and "id" headers. Otherwise it returns the mapping of the first such table, with names read from the name column and ids from `find_column(...) or 1` as written. |
| ItemIds.FetchItemIds | scripts/refresh_market_prices.py:201-227 | The method computes that mapping, reading ids from the column as written. |
| ItemIds.TableIdsAgree | scripts/refresh_market_prices.py:213-225 | The mapping read with the written id column equals the one read with the intended column unless the first id-like header is column 0. |
| ItemIds.TableIdsIdFirst | scripts/refresh_market_prices.py:213-225 | On an `ID \| Item` table with the row `17 \| Foo`, the written code reads the empty mapping. The intended code maps Foo's key to 17. |
| ItemIds.ItemIdsFromDumpAgree | scripts/refresh_market_prices.py:201-227 | The written and intended loaders fail on the same dumps. They return the same mapping unless the found table's first id-like header is column 0. |
| ItemIds.FindItemIdTable | scripts/add_item_ids_to_resources.py:27-35 | Raises exactly when no table has both "item" and "id" headers. Otherwise it returns `find_table`'s result. |
| ItemIds.LoadItemIds | scripts/add_item_ids_to_resources.py:38-59 | `load_item_ids` returns the table's mapping, with ids read from `find_column(...) or 1` as written, and raises when it is empty. |
| ItemIds.LoadedMappingNonEmpty | scripts/add_item_ids_to_resources.py:57-58 | A successful load rests on at least one accepted row. |
| ItemIds.BuildAliasMappingMeaning | scripts/add_item_ids_to_resources.py:62-75 | An alias is added exactly when its canonical name resolves, and it carries that name's id. |
| ItemIds.NoSourcesNoAliases | scripts/refresh_market_prices.py:230-243 | With no canonical name resolving, there are no aliases. |
| ItemIds.PickId | scripts/add_item_ids_to_resources.py:82 | A mapped id wins over an alias. A mapped id of 0 is falsy and falls through to the alias. |
| ItemIds.ApplyIdsToItems | scripts/add_item_ids_to_resources.py:78-87 | Rewrites the items in place with their back-filled ids and returns how many changed. |
| ItemIds.BackfillItem | scripts/add_item_ids_to_resources.py:80-86 | One loop pass: the item gets its picked id, and `changed` holds exactly when that altered it. |
| ItemIds.BackfillChanges | scripts/add_item_ids_to_resources.py:83-86 | An item changes exactly when an id is found that it does not already equal. |
| ItemIds.BackfillAllIdempotent | scripts/add_item_ids_to_resources.py:78-87 | Back-filling twice is back-filling once. |
| ItemIds.BackfillTwiceChangesNothing | scripts/add_item_ids_to_resources.py:78-87 | A second run with the same mappings reports 0 changes. |
| Catalog.ApplyItemIds | scripts/refresh_market_prices.py:320-332 | Fills missing ids in place and returns the int ids held afterwards, in item order. |
| Catalog.FillItemId | scripts/refresh_market_prices.py:322-331 | One loop pass: the item after the back-fill and the int id it then holds. |
| Catalog.WithIdKeepsIntId | scripts/refresh_market_prices.py:324-325 | An item already holding an int id is left exactly as it was. |
| Catalog.WithIdFromMapping | scripts/refresh_market_prices.py:326-329 | A new id comes only from the mapping entry of the name key. Nothing but `id` changes. |
| Catalog.HeldIdsExact | scripts/refresh_market_prices.py:330-332 | An id is returned exactly when some item holds it. |
| Catalog.AssignIdsIdempotent | scripts/refresh_market_prices.py:320-332 | Assigning ids twice is assigning them once. |
| Catalog.UpdateItemsWithPrices | scripts/refresh_market_prices.py:335-370 | Rewrites the items in place and returns the three counters of the per-item effects. |
| Catalog.PriceItem | scripts/refresh_market_prices.py:341-369 | One loop pass: the item after pricing and which counter it bumps. |
| Catalog.UnprocessedKeepsGold | scripts/refresh_market_prices.py:359-360 | Items whose id is not among the processed ids keep their `gold`. |
| Catalog.ProcessedGetsPrice | scripts/refresh_market_prices.py:363-368 | A processed item gets its market value. An absent offer or `-1` gives 0. |
| Catalog.MissingIdGold | scripts/refresh_market_prices.py:352-357 | An item without an id gets `gold` 0 when values are given. Otherwise it is left alone. |
| Catalog.TallyCounts | scripts/refresh_market_prices.py:341-370 | `updated` counts every processed item, priced or not. `missing_ids` counts every item without an id. `without_price` counts the unpriced processed items, plus the missing ones when values are given. |
| Catalog.NoValuesOnlyIds | scripts/refresh_market_prices.py:354-362 | Without market values, nothing is updated or unpriced, and only ids change. |
| Catalog.TallyBound | scripts/refresh_market_prices.py:341-370 | `updated + missing_ids` and `without_price` are each bounded by the item count. |
| MarketValues.OfferValue | scripts/refresh_market_prices.py:658-667 | A missing, non-integer or `-1` offer gives 0. A negative offer gives 0. Any other offer is kept. |
| MarketValues.ParseMarketValues | scripts/refresh_market_prices.py:644-668 | The entry loop computes `MarketValuesOf`. |
| MarketValues.MarketValuesNonNegative | scripts/refresh_market_prices.py:667 | Every decoded price is at least 0. |
| MarketValues.MarketValuesFailure | scripts/refresh_market_prices.py:648-651 | Decoding raises only when the items value is a truthy number, which cannot be iterated. |
| MarketValues.BothShapesAgree | scripts/refresh_market_prices.py:645-647 | The `{"items": [...]}` shape and a bare list decode alike. |
| MarketValues.ValuesOfKeys | scripts/refresh_market_prices.py:651-657 | An id is a key exactly when some dictionary entry has it as its `int(id)`. Other entries are skipped. |
| MarketValues.ValuesOfLastWins | scripts/refresh_market_prices.py:651-667 | An id's price comes from the last entry carrying it. |
| MarketValues.DecodeTestResponse | test_market_refresh.py:93-118 | The test's market reply decodes to `{1: 10, 2: 0}`. |
| MarketValues.ExtractLastUpdate | scripts/refresh_market_prices.py:568-576 | Returns a timestamp exactly when every step of the path has the expected type. |
| MarketValues.ExtractLastUpdateRoundTrip | scripts/refresh_market_prices.py:568-576 | The timestamp placed in a world-data response is the one extracted. |
| Fetcher.RequiredDelay | scripts/refresh_market_prices.py:48-52 | The delay is 0 before the first `mark`, and afterwards within `[0, delay_seconds]`. |
| Fetcher.RequiredDelayIsShortest | scripts/refresh_market_prices.py:48-52 | It is the shortest wait after which `delay_seconds` have passed since the last request. |
| Fetcher.Throttle.Mark | scripts/refresh_market_prices.py:61-62 | `mark` records the request time. |
| Fetcher.Uniform | scripts/refresh_market_prices.py:612 | A draw of `uniform(lo, hi)` lies in `[lo, hi]`. |
| Fetcher.ComputeRetryAfter | scripts/refresh_market_prices.py:629-642 | The wait is never below the throttle delay. With a `Retry-After` it is that value plus jitter. Without one, it is a draw from `BACKOFF_NO_RETRY_AFTER[min(attempt-1, 2)]`. |
| Fetcher.RetryAfterScenario | test_market_refresh.py:93-118 | `Retry-After: 2` with a jitter of 0.2 waits 2.2 s. |
| Fetcher.AttemptStep | scripts/refresh_market_prices.py:589-626 | The loop continues only on a retryable reply before the last attempt. |
| Fetcher.AfterReply | scripts/refresh_market_prices.py:594-625 | After a reply, the loop retries only on a retryable reply (429, a 5xx code, a network error) before the last attempt. |
| Fetcher.AttemptsRequests | scripts/refresh_market_prices.py:587-589 | A batch costs between 1 and 3 requests. |
| Fetcher.NotRetryableEndsBatch | scripts/refresh_market_prices.py:594-618 | Any reply that is not retried ends the batch after one request. Another HTTP code gives up with `None`. A reply gives its decoded values. |
| Fetcher.AttemptsSleepForward | scripts/refresh_market_prices.py:601-626 | Every pause is non-negative, so the clock never runs backwards. |
| Fetcher.AttemptsValuesNonNegative | scripts/refresh_market_prices.py:597 | A fetched batch holds no negative price. |
| Fetcher.RetryScenario | test_market_refresh.py:93-118 | A 429 reply, then the payload: one sleep of 2.2 s, `{1: 10, 2: 0}` on the second request, and the throttle marked at that request. |
| Fetcher.MarketFetcher.FetchMarketBatch | scripts/refresh_market_prices.py:578-627 | The imperative retry loop computes `Attempts` and ends in the final state it describes. |
| Fetcher.MarketFetcher.Attempt | scripts/refresh_market_prices.py:590-626 | One pass of the loop body. |
| Fetcher.MarketFetcher.Handle | scripts/refresh_market_prices.py:594-625 | The reply handling of the loop body: parsed values end the batch, a 429 sleeps the `Retry-After` wait, a 5xx code or a network error sleeps a back-off, another code or the last attempt gives up. It ends in the state `AfterReply` describes. |
| Fetcher.MarketFetcher.RetryAfter | scripts/refresh_market_prices.py:629-642 | `_compute_retry_after`, drawing once. |
| Fetcher.MarketFetcher.Wait | scripts/refresh_market_prices.py:54-59 | `Throttle.wait` sleeps exactly the required delay when it is positive, and does not sleep otherwise. |
| Fetcher.MarketFetcher.Backoff | scripts/refresh_market_prices.py:612-613 | The server-error pause is a draw from `SERVER_ERROR_BACKOFF`, never below the throttle delay. |
| Refresh.SortedUnique | scripts/refresh_market_prices.py:482 | `sorted(set(ids))` is increasing and holds exactly the ids. |
| Refresh.IncreasingUnique | scripts/refresh_market_prices.py:482 | Only one increasing sequence holds a given set of ids. |
| Refresh.BatchesConcat | scripts/refresh_market_prices.py:489-490 | The batches, in order, concatenate to the id list. |
| Refresh.BatchesShape | scripts/refresh_market_prices.py:489-490 | There are `ceil(N/100)` batches, each of 1 to 100 ids. |
| Refresh.BatchAt | scripts/refresh_market_prices.py:490 | Batch `k` is the slice starting at `100*k`. |
| Refresh.BatchLoopTotals | scripts/refresh_market_prices.py:484-503 | The loop runs one round per batch, and `failed_batches` counts the unanswered ones. `processed_ids` is the union of the answered batches. Every key comes from an answered batch. There is one pause per answered batch but the last. |
| Refresh.BatchLoopNonNegative | scripts/refresh_market_prices.py:499 | The gathered values are non-negative when every batch's are. |
| Refresh.BatchLoopStaysCrashed | scripts/refresh_market_prices.py:494 | Once a batch fetch raises, the loop is over. |
| Refresh.RunBatches | scripts/refresh_market_prices.py:489-503 | The imperative loop computes `BatchLoop`. |
| Fetcher.ThrottledTwice | scripts/refresh_market_prices.py:48-59 | A second `Throttle.wait` straight after a first sleeps nothing. |
| Fetcher.WaitBeforeBatch | scripts/refresh_market_prices.py:491-492 | The throttle wait before a batch, followed by the batch's attempts, ends with the same result, clock and sleeps as the attempts alone. |
| Refresh.LoadMapping | scripts/refresh_market_prices.py:463-474 | A fresh cache gives its mapping. Otherwise `fetch_item_ids` gives its mapping or its failure. |
| Refresh.FillAndFetch | scripts/refresh_market_prices.py:479-503 | Both catalogs get their ids in place, and the batch loop runs over the sorted distinct ids. |
| Refresh.WritePrices | scripts/refresh_market_prices.py:509-531 | Both catalogs are priced in place, and the three counters are the sums of both catalogs' tallies. |
| Refresh.SettleCatalogs | scripts/refresh_market_prices.py:505-545 | Past the loop, the catalogs, the metadata, the save flag and the summary are as `Settle` describes. |
| Refresh.RefreshCatalogs | scripts/refresh_market_prices.py:476-545 | Past the mapping, the refresh is as `RefreshWith` describes. |
| Refresh.RefreshServerImpl | scripts/refresh_market_prices.py:439-555 | The imperative refresh, catalogs in place, computes `RefreshOf`. |
| Refresh.RefreshSkips | scripts/refresh_market_prices.py:445-455 | The run is skipped exactly when the remote timestamp is non-empty and equals the stored one. A skip fetches nothing, changes no catalog, and records only `last_refresh_at`. |
| Refresh.LoopAnswered | scripts/refresh_market_prices.py:489-500 | A finished loop ran `ceil(N/100)` rounds and processed some id exactly when a batch was answered. |
| Refresh.RefreshSavesIffAnswered | scripts/refresh_market_prices.py:509-531 | The catalogs are written exactly when some batch was answered. |
| Refresh.RefreshThenSkip | scripts/refresh_market_prices.py:533-535 | Past the batches the remote timestamp is recorded even if every batch failed, so the next run against the same world data is skipped. |
| Refresh.RefreshFailuresWriteNothing | scripts/refresh_market_prices.py:469-474 | An id-mapping failure, or a raised batch, writes no metadata and no catalog. |
| RefreshScenarios.SkipTest | test_market_refresh.py:71-91 | Equal stored and remote timestamps skip the refresh, whatever the market would answer. |
| RefreshScenarios.RetryTestUpdatesFour | test_market_refresh.py:93-118 | The retry test's run reports `updated_items == 4` over one batch. |
| RefreshScenarios.AnsweredBatchUpdatesFour | test_market_refresh.py:113-118 | One answered batch prices all four catalog entries: Foo at 10, Bar at 0. |
| RefreshScenarios.FooBarSettles | test_market_refresh.py:113-118 | With the batch answered `{1: 10, 2: 0}`, both catalogs are written, four items count as updated, and Foo and Bar carry prices 10 and 0. |
| TibiaItems.CleanItemName | scripts/refresh_tibia_items.py:123-126 | The result has no edge whitespace. |
| TibiaItems.CleanItemNamePrefix | scripts/refresh_tibia_items.py:123-126 | A padded "Item <name>", in any case, cleans to the name. |
| TibiaItems.CleanItemNamePlain | scripts/refresh_tibia_items.py:123-126 | A name not starting with the "item" word is only stripped. |
| TibiaItems.CleanItemNameOnce | scripts/refresh_tibia_items.py:125 | The prefix is dropped once, so cleaning is not idempotent. |
| TibiaItems.SplitProvidersOk | scripts/refresh_tibia_items.py:129-133 | Every provider is non-empty, stripped and comma-free. |
| TibiaItems.SplitProvidersEmpty | scripts/refresh_tibia_items.py:130-131 | Empty text gives no providers. |
| TibiaItems.ProvidersRoundTrip | scripts/refresh_tibia_items.py:129-133 | Providers joined with ", " split back into themselves. |
| TibiaItems.ParseWeight | scripts/refresh_tibia_items.py:136-142 | A weight is never negative. |
| TibiaItems.ParseWeightNoDigits | scripts/refresh_tibia_items.py:139-141 | Text without digits weighs 0. |
| TibiaItems.ParseWeightLabelled | scripts/refresh_tibia_items.py:136-142 | "Weight: 12 oz" reads as 12. |
| TibiaItems.ParseWeightDecimalMark | scripts/refresh_tibia_items.py:137 | "12.5" and "12,5" both read as 12.5. |
| TibiaItems.SearchNumber | scripts/refresh_tibia_items.py:138 | The search finds no number exactly when the text has no digit. |
| TibiaItems.ReadRow | scripts/refresh_tibia_items.py:180-198 | One iteration of the row loop. |
| TibiaItems.CollectItems | scripts/refresh_tibia_items.py:215-238 | The row loop collects `TableItems`. |
| TibiaItems.ParsePage | scripts/refresh_tibia_items.py:168-239 | The page parser computes `ParseItems`. |
| TibiaItems.RowItemKept | scripts/refresh_tibia_items.py:180-198 | A row yields an item exactly when its name cell exists and cleans to a non-empty name. The item then has a url and a non-empty category. For creature products the url is the wiki base plus the slug. |
| TibiaItems.DeliveryItemUrl | scripts/refresh_tibia_items.py:226-228 | A delivery item's url is empty unless the name cell has a link, and then it is that first link, joined. |
| TibiaItems.ItemsOfRows | scripts/refresh_tibia_items.py:180-199 | The items are exactly the rows that yield one, none invented and none lost. |
| TibiaItems.ItemsOk | test_tibia_items_resources.py:22-33 | Every parsed item meets the resource tests' schema. |
| TibiaItems.ParseItemsMeaning | scripts/refresh_tibia_items.py:169-172 | A page fails exactly when no table has "item" and "weight" headers, with the page's own error. |
| TibiaItems.ColumnsFound | scripts/refresh_tibia_items.py:174-175 | In a matching table the name and weight columns are found under headers that name them. |
| TibiaItems.DeliveryUrlsNeedAnchors | scripts/refresh_tibia_items.py:226-228 | Without anchor tags, every delivery item's url is empty. |
| TibiaItems.ResourcePayloadSorted | scripts/refresh_tibia_items.py:249-258 | The written items are the given ones, ordered by lower-cased name. |
| TibiaItems.RefreshResourceFallback | scripts/refresh_tibia_items.py:263-290 | Live items win. The snapshot is used exactly when the page fails. A missing snapshot raises. Every written file has version 1 and sorted items. |
| History.HistoryManager.constructor | history.py:12-24 | A JSON list loads as its elements' `str()`, cut to the limit. Anything else loads as an empty list. |
| History.HistoryManager.Add | history.py:33-41 | Updates the list as `AddTo` and saves it, unless the term is blank. |
| History.AddBlank | history.py:34-36 | A term that is blank after stripping changes nothing. |
| History.AddFront | history.py:37-40 | The stripped term comes first, then the other entries in their old order, cut to the limit. |
| History.AddMovesToFront | history.py:37-39 | Within the limit, re-adding a present term only reorders the list. |
| History.AddUnique | history.py:37-39 | A list without duplicates stays without duplicates. |
| History.AddTwice | history.py:33-41 | Adding a term twice is adding it once. |
| History.AddBounded | history.py:40 | The list never grows past the limit. |
| History.LoadedBounded | history.py:20 | Loading never yields more entries than the limit. |
| History.SaveLoadRoundTrip | history.py:20-29 | Loading what was saved gives the entries back. |
| History.LoadedEmpty | history.py:13-24 | A missing, unreadable or non-list file loads as an empty history. |
| History.Saved | history.py:26-31 | The saved document is a JSON list holding each entry as a string, in order. |
| AppFormat.ParseIntSafeMeaning | app.py:109-120 | After removing commas and stripping: what `int` accepts is the value, and anything else is 0. |
| AppFormat.BareSignUnparseable | app.py:116-117 | `""`, `"-"` and `"+"` are rejected by `int` too, so the explicit test changes nothing. |
| AppFormat.ParseIntSafeGrouped | app.py:109-120 | A comma-grouped number reads back as itself. |
| AppFormat.ParseIntSafeStr | app.py:113-120 | `str(v)` reads back as `v`. |
| AppFormat.SafePointUnparseable | app.py:113-120 | A decimal point makes the text unparseable: "1.5" gives 0. |
| AppFormat.FormatNumberGrouped | app.py:133-135 | A whole number is written point-grouped. `_format_gp` does the same and adds " gp". |
| AppFormat.ParsePriceInputFormatNumber | app.py:1226-1235 | The price parser reads every `_format_number` text back. |
| AppFormat.ParsePriceInputFormatPrice | app.py:1161-1164 | A price shown in the list reads back as itself, or 0 below 1. |
| AppFormat.PricePointIsGrouping | app.py:1229 | Points are grouping marks: "1.5" reads as 15. |
| AppFormat.ParseBoundedInt | app.py:2158-2167 | Returns a value exactly when the stripped text is all digits and the value is within the bounds. That value is the number the digits spell. |
| AppFormat.ParseBoundedIntDecimal | app.py:2158-2167 | The digits of `n` parse as `n` exactly when `n` is within the bounds. |
| AppFormat.ParseBoundedIntRefusesSigns | app.py:2160 | A sign makes the text rejected. |
| AppFormat.ParseBoundedIntAgrees | app.py:113-120 | Where the strict parser accepts a text, the lenient one reads the same number. |
| AppFormat.ParseDurationClock | app.py:138-144 | `HH:MMh` and `H:MMh` read as hours·3600 + minutes·60. |
| AppFormat.ParseDurationNeedsSuffix | app.py:141 | Text not ending in 'h' after stripping gives 0. |
| AppFormat.ParseDurationBounds | app.py:141-144 | Every parsed duration is whole minutes, below 100 h and 100 min. |
| AppFormat.FormatDurationFields | app.py:1529-1535 | A positive duration is three colon-separated fields. Minutes and seconds are two digits each and below 60, and the fields add back up to the duration. |
| AppFormat.DurationRoundTrip | app.py:1529-1535 | An `HH:MMh` entry under 100 h is shown back as `HH:MM:00`. |
| AppCatalog.GetDefault | app.py:49 | `dict.get(key, default)`. |
| AppCatalog.ReadGroup | app.py:50-62 | The inner tier loop computes `GroupOf`. |
| AppCatalog.BuildImbuements | app.py:47-63 | The loops compute `ImbuementsOf`, or raise what the first bad entry raises. |
| AppCatalog.BuildImbuementsRoundTrip | app.py:47-63 | Imbuement data in the resource's shape builds back into one imbuement per tier. The order is the data's, and each carries its group's category and its tier's materials. |
| AppCatalog.BuildImbuementsEdges | app.py:49-50 | A document without "imbuements" has none. A non-object group raises. |
| AppCatalog.CategorySlotInverts | app.py:257-262 | The category-to-slot map inverts the allowed categories of each slot. |
| AppCatalog.AppendEntries | app.py:271-293 | The inner entry loop appends every entry that yields an item, in order. |
| AppCatalog.BuildItems | app.py:265-295 | The loops and the sort compute `EquipmentItemsOf`. |
| AppCatalog.EntryItemOk | app.py:274-285 | A kept entry has a stripped, non-empty name and a category its slot allows. |
| AppCatalog.BuildItemsMeaning | app.py:294 | The catalog is ordered by slot, then name. It is a permutation of the kept entries. Every item has a stripped name and an allowed category. |
| AppCatalog.BuildItemsKeeps | app.py:268-293 | Every entry that names an item of an allowed category is in the catalog. |
| AppCatalog.EntryOutsideSlots | app.py:282-285 | An entry of a category no slot takes is left out. |
| AppCatalog.EntryInSlot | app.py:274-293 | A well-formed entry gives its stripped name, its slot, its slot count and its category. |
| AppStores.DefaultCharacter | app.py:374-381 | A level 1 druid named "Default": every stat 0 and every equipment slot empty. |
| AppStores.Names | app.py:450-451 | The names of the characters, in list order. |
| AppStores.CharacterStore.constructor | app.py:435-440 | Takes the characters `_load` collected (none when the file is missing) and the stored `active_character`. The list is those characters, or `[DefaultCharacter()]` when there are none. The active name is the stored one when it is among the names, and otherwise the first character's name. The list is never empty and the active name is listed. The per-entry normalization at app.py:393-434 is not part of this contract (see "## Left out"). |
| AppStores.CharacterStore.GetActive | app.py:453-458 | Returns the first entry with the active name. Without one, it returns the first entry, which becomes active. |
| AppStores.CharacterStore.SetActive | app.py:460-462 | Takes the name as given, listed or not, and keeps the list. |
| AppStores.CharacterStore.AddCharacter | app.py:464-467 | Appends the character and makes it active. |
| AppStores.CharacterStore.DeleteCharacter | app.py:469-475 | Removes every entry with the name, and falls back to the default character when none is left. A deleted active name moves to the first entry's. |
| AppStores.Without | app.py:470 | A character is kept exactly when it is in the list and has another name. |
| AppStores.DeletedMeaning | app.py:469-473 | The list is never empty. It keeps exactly the others, or the default alone. |
| AppStores.DeletedNameGone | app.py:470 | A deleted name other than "Default" is gone. |
| AppStores.DeletedKeepsActive | app.py:474-475 | A listed active name stays listed after a delete. |
| AppStores.CharacterStore.IsNameUnique | app.py:477-484 | True exactly when no entry, other than those named `ignore`, has the name up to case. |
| AppStores.NameTakenCaseless | app.py:478-483 | A name differing only in case from a listed one is taken. An empty `ignore` skips nothing. |
| AppStores.NameTakenIgnoresSelf | app.py:480-481 | A character keeping its own name passes when it ignores itself. |
| AppStores.CharacterStore.UpdateCharacter | app.py:486-493 | Replaces the first entry with the old name. The active name follows a rename. |
| AppStores.ReplacedMeaning | app.py:487-490 | The length is kept, and only the first entry with the old name changes. |
| AppStores.ReplacedKeepsActive | app.py:491-492 | A listed active name stays listed after an update. |
| AppStores.CharacterStore.ApplyImbue | app.py:2249-2277 | The active character's slot gains the key when the slot has room, and is written back under the window's character name. |
| AppStores.WithImbueMeaning | app.py:2262-2273 | The key is added exactly when the slot holds a known item with `len(imbues) < imbue_slots`. |
| AppStores.WithImbueWithinCapacity | app.py:2269-2271 | Adding never takes a slot past its item's capacity. |
| AppStores.AppliedImbueWithinCapacity | app.py:2249-2277 | Every slot of every character stays within capacity. |
| AppStores.AppliedImbueActive | app.py:2273-2275 | In a window showing the active character, only that character's slot changes. |
| AppStores.EquipWithinCapacity | app.py:2274-2275 | Writing a slot within capacity back through `update_character` keeps every slot of the list within capacity. |
| AppStores.CharacterStore.RemoveImbue | app.py:2279-2294 | Pops the entry at the index from the active character's slot. An index past the end changes nothing. An index below `-len` raises `IndexError`. |
| AppStores.WithoutImbueMeaning | app.py:2286-2289 | An index at or past the end changes nothing. A valid index, from the front or the back, drops exactly that entry. |
| AppStores.WithoutImbueShrinks | app.py:2289 | Removing keeps the item, takes one entry off and stays within capacity. |
| AppStores.RemovedImbueWithinCapacity | app.py:2279-2294 | Every slot of every character stays within capacity. |
| AppStores.PriceOf | app.py:526-527 | A material without a price costs 0. |
| AppStores.ImbuementStore.GetPrice | app.py:526-527 | The same, read from the store. Prices are non-negative when the stored ones are. |
| AppStores.ImbuementStore.SetPrice | app.py:529-531 | Stores `max(0, price)`, changes nothing else, and keeps every price non-negative. |
| AppStores.ImbuementStore.IsFavorite | app.py:533-534 | A key is a favourite exactly when it is marked true. |
| AppStores.ImbuementStore.SetFavorite | app.py:536-538 | Marks the key and changes nothing else. |
| AppStores.TotalNonNegative | app.py:1783-1784 | With non-negative quantities and prices, the total is at least 0. |
| AppStores.CalculateTotalNonNegative | app.py:1783-1784 | The same for an imbuement priced from the store. |
| AppStores.TotalAppend | app.py:1784 | The total of two material lists is the sum of their totals. |
| AppStores.TotalIgnoresOthers | app.py:529-531 | Re-pricing a material an imbuement does not use leaves its total alone. |
| AppStores.TotalOneMaterial | app.py:1784 | One material costs its quantity times its price. |

## Left out

- **Network, files and caches.** `urlopen`, `fetch_html`, every `load_*`/`save_*`, `update_resource` and JSON decoding errors are out. Their results are inputs, and what they would write is a returned value. `Fetcher.Reply` has no case for an exception that escapes `_fetch_market_batch`, such as a `UnicodeDecodeError` from `_decode_json_response` (scripts/refresh_market_prices.py:317) or a `TimeoutError` while the response is read. That outcome is represented only by the injected `Crashed` batch result of `Refresh.RunBatches`.
- **Cache freshness.** The ids-cache TTL check is an input flag (`cachedIds`). `iso_timestamp` is an input string.
- **Concurrency.** The single-flight coordinator in `refresh_server` and `_ServerFlight` is out.
- **Logging.** The `log` callbacks and message boxes are out.
- **Sleeps.** The sleeps between answered batches in `_refresh_server_impl` are recorded as a list of pauses. They are not applied to a clock.
- Refresh.RunBatches: the `throttle.wait()` before every batch after the first (scripts/refresh_market_prices.py:491-492) is not a step of the loop, and the throttle's clock is not carried from one batch to the next, because each batch's fetch is an injected outcome. The fetch's first attempt begins with the same wait, and `Fetcher.WaitBeforeBatch` proves that the extra wait changes neither the fetch's result, its clock nor its sleeps.
- **Broken entry point.** `main()` of the market script refers to undefined names and is out.
- **HTML tokenizing.** `HTMLParser`'s tokenizing, `html.unescape` and `strip_highlight_wrappers` are out. The parser takes a token stream.
- **Injected helpers.** `slugify`, `urljoin` and `str()` of nested JSON are injected functions, because they depend on Unicode normalization and URL libraries.
- **Floats.**
  - `float()` is modelled on decimal text only; exponents, `inf`, `nan` and underscores are out.
  - Weights are exact reals, not IEEE doubles.
  - `_parse_float_safe`, `_format_rate` and `_format_number` with decimals are out.
  - `_format_number` on whole numbers ignores float rounding above 2^53.
  - JSON numbers with a fraction are not values of the model's `Json`, so the branches they would take are absent:
    - MarketValues.OfferValue and MarketValues.EntryId: `int()` truncates a float (`int(10.5)` is 10); not modelled.
    - Catalog.WithId: a float id such as `17.0` fails `isinstance(..., int)` and would be replaced from the mapping; not modelled.
    - ItemIds.Backfill: `17.0 != 17` is false in Python, so a float id equal to the mapped id counts no change; not modelled.
- **Text.** `str.lower`, `str.casefold` and the `re.IGNORECASE` match of `clean_item_name`'s `^item\s+` (scripts/refresh_tibia_items.py:125) are ASCII-only: under that flag Python also matches `ı` (U+0131) and `İ` (U+0130) to `i`, and the model does not. `\d` and `str.isdigit` accept ASCII digits only.
- AppStores.CharacterStore.constructor: takes the already-normalized entries. The per-entry normalization of `_load` is not modelled: names, levels, stats and equipment read from the file.
- **`save()` of both stores** is out: it writes a file.
- **A character is data.** It is a value, not a shared dict. In `_apply_selected_imbue` and `_remove_imbue` the model replaces the entry named by the window's `current_character_name` with its changed copy, through `update_character`. In the source, the dict returned by `get_active` is mutated in place through aliasing and then written under `current_character_name`. The model assumes the two names agree, which the window keeps true (app.py:2078 and app.py:2141). If they differed, the source's aliasing would also change the active entry, and the model does not capture that.
- AppStores.CharacterStore.ApplyImbue: the non-list `imbues` and non-dict `equipment` branches are out, because the store only holds normalized characters.
- AppStores.CharacterStore.RemoveImbue: the non-list `imbues` and non-dict `equipment` branches are out, for the same reason.
- AppStores.ImbuementStore.constructor: takes the loaded maps. The `int()`/`bool()` conversions of `_load` and its exception fallback are out. A price loaded from the file may be negative; only `set_price` clamps.
- **Other GUI code.** `TibiaSearchApp`, `CharacterWindow` widgets, `tray.py`, `_parse_session_log`, hunts, `ItemPriceStore` and `build_tibia_items` are outside the modelled core.
- **Sort stability.** `Ordering.SortBy` is proved ordered and a permutation. It is not proved stable; Python's sort is stable.

## Findings

| source | as written | input that shows it | evidently intended | confidence | as-written member | corrected member |
|---|---|---|---|---|---|---|
| scripts/add_item_ids_to_resources.py:45 | `find_column(headers, ["item id", "id"]) or 1` turns an id column found at index 0 into column 1 (the same line is at scripts/refresh_market_prices.py:213) | a table with headers `ID \| Item` and row `17 \| Foo`: the id is read from the name cell "Foo", which has no digit, so the row is dropped | use the id column wherever it is found, and column 1 only when none is | not executed | ItemIds.IdColumnAsWritten, used by ItemIds.ItemIdsFromDump, ItemIds.FetchItemIds and ItemIds.LoadItemIds (shown by ItemIds.IdColumnAsWrittenMisses and ItemIds.TableIdsIdFirst) | ItemIds.IdColumn and ItemIds.IntendedItemIdsFromDump (related by ItemIds.TableIdsAgree and ItemIds.ItemIdsFromDumpAgree) |

## Where the code differs from its description

- `build_imbuements` does not sort: the imbuements keep the data's order (app.py:47-63). Only `build_items` sorts.
- In the refresh pipeline, the `-1` test of `update_items_with_prices` (scripts/refresh_market_prices.py:364) never fires. `_parse_market_values` has already turned `-1` into 0. It only matters when the function is called directly with raw values.
- `_refresh_server_impl` records the remote `last_update` even when every batch failed (scripts/refresh_market_prices.py:533-534). That skips the next refresh; see `Refresh.RefreshThenSkip`.
