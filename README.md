# Quotation engine of the purchase-requirement service — a Dafny model

This project models the core of a purchase-requirement web service written in Go, which uses echo and GORM v1.

In that service:

- A **requirement** is a purchase request. It has **lines** (`requires`): a product and an amount each.
- Providers answer a requirement with **quotations**. A quotation has a header and one **detail** per line, holding a unit price.
- After every quotation write, the service ranks the requirement's quotations by their total, `sum(unit_price * amount)`. It stores each quotation's 1-based rank as its `winner_level`.
- An administrator then picks a winner and moves the requirement through its states:

  | state | meaning |
  |---|---|
  | "0" | draft |
  | "1" | quoted |
  | "2" | rejected |
  | "3" | winner set |
  | "4" | closed |

- Providers can also be imported in bulk from a spreadsheet. The import is all-or-nothing, because providers have a unique RUC (the tax number).

## Structure of the model

The database is one object, `Store.Store`.

- Its tables are `seq` fields, and it keeps an auto-increment counter per table.
- The modelled handlers that write, or that read several tables, are methods of that class: `CalculateWinnerLevelQuotation`, `SetWinnerQuotation`, `CreateQuotation`, `UpdateQuotation`, `GetQuotations`, `ComparativeTable`, `CreateRequirement`, `UpdateRequirement`, `SetRejectedRequirement`, `SetClosedRequirement` and `SetTempUploadProvider` (as `ImportProviders`).
- The listings `GetRequirements`, `GetProviders` and `GetProviderSearch` are modelled in `Pagination`, as their offset arithmetic and as projections of the rows the database returns.
- The handlers listed under "Other handlers" in "## Left out" are not modelled.
- Each method's `ensures` gives the new tables as a pure function of the old ones.
- Every method also keeps `Valid()`. This predicate says:
  - keys are positive, increasing, and no larger than their counter;
  - RUCs are unique;
  - every foreign key declared in `main.go:63-73` points at an existing row.

The pure functions live in their own modules, and the lemmas about them state what the service promises:

| module | content |
|---|---|
| `Models` | One datatype per table. Key lookups (the inner joins). `KeyHit`/`AnyHit`: which rows an update through a model value reaches. |
| `Sorting` | A stable insertion sort, standing for `ORDER BY`, with sortedness and permutation proved. |
| `Ranking` | The aggregation query of `CalculateWinnerLevelQuotation`, and the ranking it writes back. |
| `Listing` | The header query and the nested merge loop of `GetQuotations`. |
| `Comparative` | The three queries of `ComparativeTable`, and its in-place sequence-numbering loop over an `array`. |
| `Lifecycle` | Requirement state changes and requirement patches. |
| `QuotationUpdates` | Winner selection, the per-requirement quotation cap, quotation patches, and detail price updates. |
| `Pagination` | The 64-bit offset arithmetic of the listings, the "minimal data" projections (as loops), and the five-row provider search. |
| `ProviderImport` | Trimming cells, mapping spreadsheet rows to providers, and the all-or-nothing insert with its unique-RUC check. |
| `Integrity` | Whole-database consistency (`Tables`, `Consistent`). Each write preserves it. |
| `Store` | The class. |

### Behaviours the code has and the model keeps

- **Zero-key updates.** GORM drops the primary-key condition when the key is zero, so such an update reaches every row. `SetWinnerQuotation` with `id == 0` therefore marks every quotation of every requirement as winner (`QuotationUpdates.ZeroKeyMarksAll`). A state change with requirement id 0 rewrites every requirement (`Lifecycle.SetStateZeroKey`).
- **Winner selection is manual only.** The automatic branch calls a stub that returns 0 (`controller/quotation.go:306-308`). Its result is then overwritten by the request's id (`controller/quotation.go:330`). The model follows this code, not the intended "pick the quotation ranked 1". An automatic request therefore marks every quotation, and the rank-1 quotation is never the only winner of a requirement with two quotations (`QuotationUpdates.AutomaticSelectionMarksAll`).
- **No ownership check on the winner.** The chosen quotation is not checked to belong to the requirement. A quotation of another requirement can therefore become a second winner of its own requirement (`QuotationUpdates.ForeignWinnerExample`). `QuotationUpdates.SelectionKeepsSingleWinner` gives the condition under which the single-winner property survives.
- **A failed selection still clears.** The clearing of winners is not undone when marking the winner fails. The model's failure branch leaves the requirement's quotations cleared.
- **A dead branch in CreateQuotation.** The foreign keys make the "state change reached no row" branch of `CreateQuotation` unreachable. It is still written in the model.
- **Sequence numbering with no lines.** With zero requirement lines, the loop's threshold test passes on every entry, so numbering starts at 2 (`Comparative.SequenceOf`).

## Model

| member | source | states |
|---|---|---|
| Sorting.SortBy | controller/quotation.go:291 | The ordered result is a permutation of its input and is sorted by the key. |
| Ranking.JoinedLinesComplete | controller/quotation.go:287-288 | Every detail of the quotation whose line exists appears in the inner join with that line. |
| Ranking.SummationAppend | controller/quotation.go:286 | The summation over a concatenation of detail tables is the sum of their summations. |
| Ranking.SummationOwnDetailsOnly | controller/quotation.go:287 | A quotation with no detail of its own has an empty join and a summation of 0. |
| Ranking.SummationNonNegative | controller/quotation.go:286 | Non-negative prices and amounts give a non-negative summation. |
| Ranking.AggregateRowsSound | controller/quotation.go:285-290 | Every aggregated row is the row of a quotation of the requirement that has at least one joined detail. |
| Ranking.AggregateRowsComplete | controller/quotation.go:285-290 | Every quotation of the requirement with a joined detail yields an aggregated row. |
| Ranking.AggregateRowsDistinct | controller/quotation.go:289 | With distinct quotation keys, the grouping yields one row per quotation and only existing keys. |
| Ranking.WinnerLevelQuery | controller/quotation.go:285-292 | The query result is the aggregated rows, permuted and ordered by ascending summation. |
| Ranking.QueryRowOrigin | controller/quotation.go:285-292 | Each row of the ordered query is the row of a quotation of the requirement. |
| Ranking.QueryRowsDistinct | controller/quotation.go:289 | The ordered query has no two rows for one quotation. |
| Ranking.Ranked | controller/quotation.go:297-303 | Writing the levels back changes only `winner_level`, and leaves quotations without a level row as they were. |
| Ranking.RankedLevel | controller/quotation.go:297-303 | Each ranked quotation gets a level l in 1..number of rows, and row l is its own row, with its own summation. |
| Ranking.RankedKeepsOthers | controller/quotation.go:290 | Quotations of other requirements, and quotations without details, keep their level. |
| Ranking.RankedLevelsDistinct | controller/quotation.go:297-303 | Two ranked quotations never share a level. |
| Ranking.RankedLevelsOnto | controller/quotation.go:297-303 | Every level 1..number of rows is held by some ranked quotation. |
| Ranking.RankedRespectsSummation | controller/quotation.go:291-300 | A strictly cheaper quotation gets a strictly smaller level, and a smaller level never means a dearer quotation. |
| Ranking.RerankIdempotent | controller/quotation.go:278-304 | Ranking again without new writes changes nothing. |
| Ranking.RankedStep | controller/quotation.go:297-303 | One iteration of the update loop sets the level of the k-th row's quotation to k+1. |
| Ranking.ExampleSummations | controller/quotation.go:286 | In a two-line example, the summations are 50 and 45. |
| Ranking.ExampleRanking | controller/quotation.go:278-304 | In that example, the quotation totalling 45 is ranked 1 and the one totalling 50 is ranked 2. |
| Listing.HeaderRows | controller/quotation.go:63-73 | The header query is a permutation of the joined headers and is ordered by winner level. |
| Listing.HeaderRowOrigin | controller/quotation.go:63-73 | Every header row comes from a quotation of the requirement and carries its key, level, winner flag, provider and user, with count 1. |
| Listing.MergeListing | controller/quotation.go:88-106 | The nested loop produces exactly the merge of headers with price rows. |
| Listing.MergeSound | controller/quotation.go:88-106 | Every merged row joins a header with a price row of the same quotation. |
| Listing.MergeComplete | controller/quotation.go:88-106 | Every header with a matching price row appears, joined with it. |
| Listing.MergeKeepsHeaderOrder | controller/quotation.go:88-106 | Merged rows stay in ascending winner-level order. |
| Listing.MergeTakesSummation | controller/quotation.go:100-103 | A merged row carries the summation of the price row with its key. |
| Listing.ListingRowOrigin | controller/quotation.go:50-115 | Each listed row is a quotation of the requirement, with its own summation, level and winner flag. |
| Comparative.RequireRowOrigin | controller/quotation.go:220-226 | Each table line is a line of the requirement joined with its existing product. |
| Comparative.RequireRowsAscending | controller/quotation.go:220-226 | Table lines come out in ascending line key. |
| Comparative.RankedQuotations | controller/quotation.go:233-240 | The quotations of the requirement with an existing provider, ordered by winner level, as a permutation. |
| Comparative.RequireRowsComplete | controller/quotation.go:220-226 | Every line of the requirement whose product exists yields its row. |
| Comparative.QuotationsOfComplete | controller/quotation.go:233-237 | Every quotation of the requirement whose provider exists is kept by the join. |
| Comparative.RankedQuotationsMembers | controller/quotation.go:233-238 | The ranked list holds exactly the quotations of the requirement whose provider exists. |
| Comparative.DetailPrices | controller/quotation.go:233-240 | A quotation's price rows all name that quotation and start with sequence 0. |
| Comparative.DetailPriceOrigin | controller/quotation.go:234-236 | Every price row carries the unit price of a detail of that quotation. |
| Comparative.DetailPriceComplete | controller/quotation.go:234-236 | Every detail of the quotation yields a price row with its unit price. |
| Comparative.PriceRowOrigin | controller/quotation.go:233-240 | Every price row is a price row of some ranked quotation. |
| Comparative.PriceRowsComplete | controller/quotation.go:233-240 | Every price row of every ranked quotation is in the list. |
| Comparative.ProviderRows | controller/quotation.go:247-253 | One provider row per ranked quotation, holding its provider's name and manager and the quotation's delivery date. |
| Comparative.ProviderRowsOfRanked | controller/quotation.go:247-253 | For the ranked quotations the provider always exists, so every row names that provider. |
| Comparative.AssignSequences | controller/quotation.go:256-265 | The in-place loop gives entry i the block number of i: i / width + 1. |
| Comparative.SequenceMonotone | controller/quotation.go:256-265 | Sequences never decrease along the list and start at 1. |
| Comparative.SequenceBlocks | controller/quotation.go:256-265 | An entry has sequence b+1 exactly when it lies in the b-th run of width entries. |
| Comparative.PriceRowOwner | controller/quotation.go:233-240 | When every quotation prices `width` lines, price row i is price row i mod width of the quotation at rank position i / width. |
| Comparative.SequenceIsRankPosition | controller/quotation.go:233-265 | Then a row's sequence is the 1-based rank of the quotation offering it. |
| QuotationUpdates.ChosenWinner | controller/quotation.go:326-330 | The automatic result is computed for id 0 and then overwritten, so the marked id is always the request's id. |
| QuotationUpdates.AutomaticSelectionMarksAll | controller/quotation.go:326-343 | With an automatic request (id 0), the rank-1 quotation and every other quotation of the requirement become winners, so it is never the only winner. |
| QuotationUpdates.SelectionOutcome | controller/quotation.go:337-343 | After clear-then-set, a quotation is winner exactly when the update reaches it, or when it belongs to another requirement and already was; nothing else changes. |
| QuotationUpdates.WinnerChosen | controller/quotation.go:337-343 | Choosing a quotation of the requirement makes it that requirement's only winner. |
| QuotationUpdates.SelectionKeepsSingleWinner | controller/quotation.go:337-343 | A winner of the same requirement keeps every requirement's single winner. |
| QuotationUpdates.ForeignWinnerExample | controller/quotation.go:337-343 | A winner from another requirement leaves that requirement with two winners. |
| QuotationUpdates.ZeroKeyMarksAll | controller/quotation.go:343 | With id 0, every quotation of the table becomes winner and the update counts as affecting rows. |
| QuotationUpdates.FirstSetting | controller/quotation.go:414-415 | The setting `db.First` reads has a key no larger than any other setting's. |
| QuotationUpdates.QuotationCap | controller/quotation.go:414-415 | The cap is the quotation limit of a setting whose key is no larger than any other, or 0 without settings. |
| QuotationUpdates.QuotationCapOfIncreasing | controller/quotation.go:414-415 | With increasing keys, the cap is the table's first setting's limit. |
| QuotationUpdates.CountAppend | controller/quotation.go:418-428 | Inserting a quotation raises its requirement's count by one and no other. |
| QuotationUpdates.CountSameRequirements | controller/quotation.go:418-428 | Rewriting quotations without changing their requirement keeps every count. |
| QuotationUpdates.PatchQuotationProperties | controller/quotation.go:474-485 | Patching is idempotent, keeps the key, is a no-op for an empty patch, and can set but never clear the winner flag. |
| QuotationUpdates.LastPrice | controller/quotation.go:488-492 | A detail's new price is the last request entry reaching it, and there is none exactly when no entry reaches it. |
| QuotationUpdates.ApplyPricesEffect | controller/quotation.go:488-492 | The price loop changes only unit prices, each to that detail's last reaching entry, or else keeps it. |
| QuotationUpdates.ApplyPricesKeepsKeys | controller/quotation.go:488-492 | The price loop keeps every detail key. |
| QuotationUpdates.ApplyPricesStep | controller/quotation.go:488-492 | One loop iteration applies one request entry. |
| Lifecycle.StateOf | controller/requirement.go:179-185 | A state is reported exactly for an existing requirement, and it is that row's state. |
| Lifecycle.StateOfAt | controller/requirement.go:179-185 | With distinct keys, the state of row k is its own. |
| Lifecycle.SetStateReachesTarget | controller/requirement.go:179-185 | A state change on an existing id sets that requirement's state, keeps every other state and keeps every key. |
| Lifecycle.SetStateOnlyState | controller/requirement.go:206-212 | A state change alters only `state`, on exactly the rows it reaches, and is a no-op when it reaches none. |
| Lifecycle.SetStateZeroKey | controller/quotation.go:352-356 | With id 0, every requirement gets the new state. |
| Lifecycle.PatchRequirementProperties | controller/requirement.go:151-158 | Patching is idempotent, keeps the key, and is a no-op for an empty patch. |
| Lifecycle.PatchRequirementState | controller/requirement.go:151-158 | An empty state in the patch keeps the stored state, and a non-empty one replaces it. |
| Pagination.NormalizePage | controller/requirement.go:26-28 | Page 0 becomes 1, and any other page is kept. |
| Pagination.OffsetSkipsPreviousPages | controller/requirement.go:29 | The 64-bit offset is limit × (page − 1) modulo 2^64, exactly so when there is no overflow. |
| Pagination.FirstPageStartsAtZero | controller/provider.go:29-32 | Pages 0 and 1 start at offset 0. |
| Pagination.MinimalRequirements | controller/requirement.go:47-54 | The projection loop keeps only key and name of each requirement, in order. |
| Pagination.RequirementListing | controller/requirement.go:47-54 | Minimal data keeps key and name of every row and clears the rest; other types return the rows unchanged. |
| Pagination.RequirementListingIdempotent | controller/requirement.go:47-54 | Projecting twice is projecting once. |
| Pagination.MinimalProviders | controller/provider.go:49-56 | The projection loop keeps only key and name of each provider, in order. |
| Pagination.ProviderListing | controller/provider.go:49-56 | Minimal data keeps key and name of every provider; other types return the rows unchanged. |
| Pagination.ProviderSearch | controller/provider.go:86-98 | At most five results, each carrying the matching provider's key and name as a product record. |
| Pagination.SearchResults | controller/provider.go:92-98 | The search loop produces exactly that result. |
| ProviderImport.TrimSpace | controller/provider.go:287-292 | The trimmed cell is the maximal slice without surrounding white space, and everything cut was white space. |
| ProviderImport.TrimSpaceIdempotent | controller/provider.go:287-292 | Trimming twice is trimming once. |
| ProviderImport.TrimSpaceFixes | controller/provider.go:287-292 | A cell without surrounding white space is kept as is. |
| ProviderImport.RowToProvider | controller/provider.go:286-294 | RUC from column 1, name from column 2, and manager, email, phone and address all from column 6, trimmed; active and unkeyed. |
| ProviderImport.MapRows | controller/provider.go:284-296 | The loop maps every row after the header, in order. |
| ProviderImport.FirstConflict | controller/provider.go:305-317 | The first provider whose RUC is already stored or earlier in the batch, and none exactly when the batch is conflict-free. |
| ProviderImport.StageProviders | controller/provider.go:305-317 | The insert loop stops at the first conflict; without one, it stages every provider with the next keys. |
| ProviderImport.CommitKeepsRucsUnique | controller/provider.go:305-317 | A committed batch keeps RUCs unique. |
| ProviderImport.ReimportRejected | controller/provider.go:305-317 | Importing the same non-empty batch again fails at its first row. |
| Integrity.SetStateKeepsKeys | controller/requirement.go:179-185 | A state change keeps keys and user references. |
| Integrity.PatchRequirementsKeepsKeys | controller/requirement.go:151-158 | A patch naming an existing user, or none, keeps keys and user references. |
| Integrity.PatchQuotationsKeepsKeys | controller/quotation.go:474-485 | A patch whose references exist, or are 0, keeps keys and references. |
| Integrity.ApplyPricesKeepsRefs | controller/quotation.go:488-492 | Price updates keep detail keys and references. |
| Integrity.InsertQuotationConsistent | controller/quotation.go:431-436 | Inserting a header with existing references, and details of existing lines, keeps the database consistent. |
| Integrity.InsertRequirementConsistent | controller/requirement.go:124-129 | Inserting a requirement of an existing user, with lines of existing products, keeps the database consistent. |
| Integrity.ImportConsistent | controller/provider.go:305-317 | A conflict-free import keeps the database consistent. |
| Integrity.SetStateConsistent | controller/requirement.go:206-212 | A state change keeps the database consistent. |
| Integrity.RankedConsistent | controller/quotation.go:297-303 | Writing levels keeps the database consistent. |
| Integrity.SelectionConsistent | controller/quotation.go:337-343 | Clearing and setting winners keep the database consistent. |
| Integrity.PatchQuotationConsistent | controller/quotation.go:474-492 | Patching a quotation and its prices keeps the database consistent. |
| Store.Store.CalculateWinnerLevelQuotation | controller/quotation.go:278-304 | The quotations become the ranking of the old quotations by the aggregation query. |
| Store.Store.SetWinnerQuotation | controller/quotation.go:314-370 | Clear, then mark the request's id. Fail if the mark reaches no row, leaving winners cleared. Otherwise set the state to "3", and succeed exactly when that reaches a requirement. |
| Store.Store.CreateQuotation | controller/quotation.go:395-460 | Refuse at the cap. Refuse on a broken foreign key, with no change. Otherwise insert header and details with fresh keys, mark the requirement "1", re-rank, and raise the count by one. |
| Store.Store.UpdateQuotation | controller/quotation.go:462-502 | Fail with no change when the patch reaches no row, is empty under a zero key, or breaks a foreign key. Otherwise patch, reprice and re-rank the request's requirement. |
| Store.Store.GetQuotations | controller/quotation.go:50-115 | The result is the merge of the ordered headers with the ordered price query. |
| Store.Store.ComparativeTable | controller/quotation.go:205-275 | Lines, sequenced prices and provider rows of the ranked quotations. |
| Store.Store.CreateRequirement | controller/requirement.go:94-137 | Refuse without lines. Refuse on a broken foreign key. Otherwise insert a draft of the caller, now, with its lines under fresh keys. |
| Store.Store.UpdateRequirement | controller/requirement.go:139-165 | Apply the patch when it reaches a row, is not empty under a zero key, and names an existing user or none; otherwise fail with no change. |
| Store.Store.SetRejectedRequirement | controller/requirement.go:167-192 | Set state "2" on the rows the key reaches, and succeed exactly when it reaches one. |
| Store.Store.SetClosedRequirement | controller/requirement.go:194-219 | Set state "4" on the rows the key reaches, and succeed exactly when it reaches one. |
| Store.Store.ImportProviders | controller/provider.go:247-324 | A data row with fewer than six cells fails with no change. Without a RUC conflict, append every row's provider with fresh keys and report the count. Otherwise report the first conflicting provider and change nothing. |

## Left out

These operations and effects of the three handler files are not part of the model:

- **HTTP and authentication.** Request binding, JSON responses and their messages and status codes are not modelled. The JWT user and `time.Now()` become parameters of the methods (`user`, `now`).
- **File handling.** Opening the uploaded workbook and copying the file (`SetTempUploadProvider`, `GetTempUploadProvider`) are not modelled. The sheet's rows are a parameter.
- **Listing filters and windows.** The `LIKE` filters and `count(*)` totals of the paginated listings are not modelled. The same goes for the `ORDER BY id desc` / `OFFSET` / `LIMIT` window and the provider search's `OR ruc LIKE`. These are SQL text matching and windowing. `Pagination` models the offset arithmetic and the projections applied to the rows the database returns.
- **Other handlers.** `PurchaseOrder`, `GetQuotationByID`, `GetRequirementByID`, `GetProviderByID`, `CreateProvider`, `UpdateProvider`, `ValidateRucProvider` and the `Delete*` handlers are not modelled. They are single CRUD statements outside the ranking engine. `controller/user.go`, `controller/product.go`, `controller/require.go`, statistics and export are not part of this model.
- **Association saving.** `UpdateRequirement` also saves attached lines; these are not modelled. The model patches the header columns only.
- Store.Store.CreateRequirement: `db.Create` also inserts any quotations nested in the request, and any quotation details nested in its lines (the `Quotations` field of `models/requirement.go:21`, the `QuotationDetails` field of `models/require.go:18`). The model's request carries neither, so the model does not capture quotations created this way. Such quotations bypass CreateQuotation's cap, its state "1" change and its re-ranking.
- **Client-supplied keys.** An insert with a client-supplied primary key is not modelled. Keys always come from the counters.
- **Rolled-back counters.** InnoDB spends an auto-increment value on an insert that fails. The model's counters do not advance on a failed insert: not on a rolled-back import (`Store.Store.ImportProviders`), and not when a foreign key refuses the insert of `Store.Store.CreateQuotation` or `Store.Store.CreateRequirement` (both leave `this` unchanged). Keys after such a failure are therefore smaller in the model than in the database; they are still fresh and increasing.
- **Database errors.** Column widths (`varchar(n)`), `not null` and other database errors are not modelled, except foreign keys and the unique RUC. `log.Panic` on a failed ranking query is not modelled either.
- **Timestamps.** `created_at`/`updated_at` are not kept.
- **Floating point.** Prices and amounts are `float32` in the source; the model uses exact `real` arithmetic, with no rounding.
- **Tie order.** SQL leaves the order of rows with equal `ORDER BY` values free. The model's `Sorting.SortBy` is stable, so it breaks every tie by table order, and the contracts below state that one resolution where the database may choose another:
- Store.Store.CalculateWinnerLevelQuotation: of two quotations with equal totals, the one earlier in the table gets the lower level.
- Store.Store.GetQuotations: headers with equal winner levels are listed in table order.
- Comparative.PriceRowOwner: the price rows of each quotation are contiguous and in detail-table order. In SQL every row of a quotation ties on `winner_level`, and two quotations can share a level (for example after an `UpdateQuotation` whose patch sets `winnerLevel` with `requirementId` 0), so their rows may interleave.
- Comparative.SequenceIsRankPosition: rests on that same contiguous order.
- Store.Store.ComparativeTable: its price and provider rows follow the ranked quotations in that order.
- **Concurrency.** Handlers run one at a time. Interleavings between the clear and the set of a winner selection, or between a write and its re-rank, are not modelled.
- Ranking.Ranked: its write-back matches rows by `id == key`. This equals the source's zero-key behaviour because every row key the aggregation query returns is positive.
- **Changed-row counts.** MySQL's "changed rows" reading of `RowsAffected` is not modelled. The model counts matched rows, so an update to a row's current value still counts.
- **Header count.** `count(*)` in the listing header query is 1 per quotation, because of its grouping by quotation key. It is not computed otherwise.
- **Sequence cast.** `uint(sequence)` in the comparative table is exact in the model, since sequences are small naturals.
- ProviderImport.RowToProvider: a data row with fewer than six cells makes the source panic; the mapping requires six cells in every data row (`WellFormed`). `Store.Store.ImportProviders` checks this first and answers `Failure(ShortRow)` with no change, as the recovering middleware answers the panic before any write.
- Store.Store.UpdateQuotation: like the source, it re-ranks only the request's `requirementId`. Prices of details belonging to other quotations are applied too, because the loop updates by detail key alone.
