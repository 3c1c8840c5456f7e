# finreal server core in Dafny

finreal is a SvelteKit personal-finance application backed by Supabase.
This project models the server side that decides what the application
answers. It covers:

- the authentication hook (routing guard, session check, sign-out cookie clearing, the header filter);
- the sign-out action;
- the analytics bucketing of transactions by month and the analytics row filter;
- the category summary page (totals, counts, ranking, first page);
- the JSON endpoints for category transaction counts, bank balances, financial data and filtered transactions;
- the paged transaction list and its description update;
- the category and rule management actions, with their guards;
- delete-then-insert of a transaction's category allocations;
- the date helpers, the prediction-response validation, and the filter-state types.

The database is modelled as sequences of rows. Each Supabase call that can
fail takes a parameter saying whether it fails: a `bool`, or a `set<Call>`
naming the failing calls. A handler is a function from the request and the
backend's answers to the response, or a method on a class holding the
tables it changes. Money is integer cents. A JavaScript `NaN` is `None`.

Supporting modules:

- `Js` models `parseInt`, `Number` on integer spellings, string padding, trimming over JavaScript's full white-space set (line terminators, the byte-order mark and every Unicode space separator), and lexicographic string order.
- `Seqs` holds sums, filters and an insertion sort standing for `Array.prototype.sort`.
- `OrderedMaps` models insertion-ordered JavaScript objects.
- `Forms` models form-field truthiness and the database's reading of a row id.

## Model

| member | source | states |
|---|---|---|
| Analytics.GroupTransactionsByPeriod | src/routes/analytics/+page.server.ts:21-56 | The output is one bucket per distinct period key of the input, sorted ascending by key, with no key twice. Each bucket holds that key's income (amounts ≥ 0) and expenses (the magnitude of negative amounts). Every row's key has a bucket and every bucket comes from some row. The buckets' income plus expenses equals the sum of the rows' magnitudes. Empty input gives empty output. |
| Analytics.Conservation | src/routes/analytics/+page.server.ts:22-55 | Summed over all buckets, income plus expenses equals the sum of the absolute amounts of the rows. |
| Analytics.PointsDistinct | src/routes/analytics/+page.server.ts:38-44 | No period key appears in two output buckets. |
| Analytics.AddRow | src/routes/analytics/+page.server.ts:46-51 | A row with amount ≥ 0 adds to its bucket's income, and zero counts as income. A negative row adds its magnitude to expenses. Other buckets are unchanged. |
| Analytics.AddRowKeys | src/routes/analytics/+page.server.ts:38-44 | A new key is appended after the keys already seen. A known key leaves the key list as it was. |
| Analytics.MonthKeyFormat | src/routes/analytics/+page.server.ts:28-29 | For years 1000–9999, the month key is `YYYY-MM`: 7 characters, a dash at index 4, four digits reading the year and two digits reading the 1-based month. |
| Analytics.MonthKeyChronological | src/routes/analytics/+page.server.ts:54-55 | For years 1000–9999, comparing keys as strings orders them exactly as (year, month), so within that range the ascending sort is chronological. |
| Analytics.FindByName | src/routes/analytics/+page.server.ts:139-139 | The result is the id of the first category with that exact name, or none when no category has it. |
| Analytics.FilterAction | src/routes/analytics/+page.server.ts:125-225 | The action fails with `Failed to fetch analytics data` exactly when the query fails or a date bound cannot be read. Otherwise the chart is the bucketing of the rows the filter keeps: the same buckets as a multiset, sorted by period, and conserving magnitudes. |
| Analytics.DefaultWindow | src/routes/analytics/+page.server.ts:153-157 | Blank date bounds become 2024-01-01 and 2024-12-31. |
| Analytics.TransfersExcluded | src/routes/analytics/+page.server.ts:159-162 | Rows of the category named `transfers ♻️` never pass. Without that category nothing is excluded. |
| Analytics.TypeFilterPartition | src/routes/analytics/+page.server.ts:164-171 | No row is both income and expense, and a zero amount is neither. Any other row passes `all` exactly when it passes income or expense. |
| Analytics.ValidIdsDropNaN | src/routes/analytics/+page.server.ts:174-177 | Selected ids that `Number` reads as NaN are all dropped. |
| Analytics.ValidIdsOfIntStrings | src/routes/analytics/+page.server.ts:175-177 | Decimal spellings of ids come back as exactly those ids, in order. |
| Analytics.InvalidSelectionIgnored | src/routes/analytics/+page.server.ts:174-186 | A selection made only of NaN ids filters like no selection. |
| Analytics.NegationComplements | src/routes/analytics/+page.server.ts:179-185 | On a row passing every other condition, the negated and plain category filters are complements. The plain filter keeps exactly the selected categories. |
| Analytics.SubcategoryOnlyIncludes | src/routes/analytics/+page.server.ts:188-197 | A subcategory filter rejects every row without a subcategory. |
| Analytics.SearchIgnored | src/routes/analytics/+page.server.ts:152-197 | The search value and its negation do not change the query. |
| CategoriesPage.ParseFilters | src/routes/categories/+page.server.ts:7-18 | A missing `dateFrom` or `dateTo` becomes the empty string. A present one is kept as it is. |
| CategoriesPage.ApplyDateRange | src/routes/categories/+page.server.ts:55-65 | The builder gains exactly the date conditions of the filter, after the ones it had. |
| CategoriesPage.DateConditionsShape | src/routes/categories/+page.server.ts:55-65 | The lower bound is applied to both joined tables. The upper bound is applied exactly when `to` is non-empty. |
| CategoriesPage.SummarizeSubcategoryAddsAllocation | src/routes/categories/+page.server.ts:90-98 | One more allocation adds one to a subcategory's count and its amount, null read as 0, to its total. Id and name stay. |
| CategoriesPage.SubcategoryNullAmountsTotalZero | src/routes/categories/+page.server.ts:91-92 | A subcategory whose transactions are null, or whose amounts are all null, totals 0, and its count is its number of rows. |
| CategoriesPage.SummarizeCategorySpec | src/routes/categories/+page.server.ts:83-108 | A category's total is the sum of its amounts, with a missing amount counted as 0. Its count is its number of rows. Its subcategories are a permutation of their summaries, ordered by descending absolute total. |
| CategoriesPage.NullAmountsCountAsZero | src/routes/categories/+page.server.ts:86-92 | Rows whose amounts are all missing sum to 0. |
| CategoriesPage.CategoryLeIsRank | src/routes/categories/+page.server.ts:110-118 | The comparator puts totals ≥ 0 first by descending total, then negative totals by ascending total. |
| CategoriesPage.RankedCategories | src/routes/categories/+page.server.ts:110-118 | The sorted list is a permutation of the input. Non-negative totals precede negative ones, descending among themselves. Negative totals ascend. |
| CategoriesPage.LoadSpec | src/routes/categories/+page.server.ts:68-133 | On a query error the page has no data, 0 pages and page 1, and echoes the filters. Otherwise it holds the first min(20, n) ranked categories. The page count is the ceiling of n / 20, and the current page is 1. |
| Dates.UtcDayZero | src/lib/utils/dates.ts:17-17 | Day 0 of a month is a valid date whose next day is the first of that month. |
| Dates.LastDayOfMonthIsLastDay | src/lib/utils/dates.ts:35-38 | From year 100 on, for months 0..11 the result is in the same year and month (`Date.UTC` reads years 0–99 as 1900–1999, as `UtcYear` models). February has 28 or 29 days by the Gregorian rule, April, June, September and November have 30, and the rest 31. The next day is the 1st. |
| Dates.DecemberEndsOn31st | src/lib/utils/dates.ts:35-38 | Month 11 gives December 31 of the same year. |
| Dates.FormatDateRoundTrip | src/lib/utils/dates.ts:45-47 | Formatting a date gives 10 characters with dashes at indices 4 and 7, and reading that string gives back the date. |
| Dates.IsoDateRoundTrip | src/lib/utils/dates.ts:45-47 | `YYYY-MM-DD` with zero-padded month and day reads back as the same date. |
| Dates.DefaultRangeIsMonth | src/lib/utils/dates.ts:9-27 | The default range runs from day `01` to the last day of the same month. Both ends share the `YYYY-MM-` prefix, and from ≤ to. |
| Dates.DefaultRangeDates | src/lib/utils/dates.ts:9-27 | The two ends are the ISO strings of the first and the last day of the month. |
| Hooks.SignOutPostPasses | src/hooks.server.ts:86-93 | A POST to `/auth/signout` is always resolved. |
| Hooks.WithoutSession | src/hooks.server.ts:86-108 | Without a session, a request is resolved exactly when it is on an auth route. Other `/api/` paths get 401 `{"error":"Unauthorized"}`, and everything else a 303 to `/auth`. |
| Hooks.WithSession | src/hooks.server.ts:110-115 | With a session, an auth path not containing `/auth/confirm` (other than the sign-out POST) is redirected 303 to `/`. Everything else is resolved. |
| Hooks.ConfirmAlwaysReachable | src/hooks.server.ts:111-113 | Paths under `/auth/confirm` are resolved whether or not there is a session. |
| Hooks.RedirectsSettle | src/hooks.server.ts:96-113 | Following a redirect once with GET is resolved, so redirects never loop. |
| Hooks.CheckedSessionSpec | src/hooks.server.ts:54-67 | A session is returned only when one is present and the user check succeeds. The user is returned with it, and otherwise both are null. |
| Hooks.SafeGetSession | src/hooks.server.ts:38-68 | On a sign-out POST, every `sb-` cookie is deleted, the others are kept and the answer is null/null. Otherwise the jar is unchanged and the answer is the checked session. |
| Hooks.Handle | src/hooks.server.ts:81-116 | The outcome is the routing guard applied to whether a checked session exists. On a sign-out POST every `sb-` cookie is deleted and the rest kept; otherwise the jar is unchanged. |
| Hooks.UnconfirmedSessionIsNoSession | src/hooks.server.ts:58-65 | A session whose user check fails routes exactly like no session. |
| Hooks.OnlySupabaseHeadersPass | src/hooks.server.ts:70-78 | Only `content-range` and `x-supabase-api-version` pass the header filter, compared case-sensitively. |
| Cookies.CookieJar.SetAll | src/hooks.server.ts:21-28 | The jar becomes the old jar with each write applied in order, each forced to path `/` and `secure` in production. |
| Cookies.SetAllForcesRootPath | src/hooks.server.ts:21-28 | Every cookie written carries path `/` and the production flag. Unwritten cookies stay. |
| Cookies.CookieJar.DeleteSupabaseCookies | src/hooks.server.ts:44-50 | The jar becomes exactly its cookies not starting with `sb-`, in order. |
| SignOut.SignOutAction | src/routes/auth/signout/+page.server.ts:5-45 | As written: a sign-out error returns its message and touches no cookie. A success clears the `sb-` cookies, writes the two expired tokens, and still answers `Unknown error occurred`. |
| SignOut.SignOutActionCorrected | src/routes/auth/signout/+page.server.ts:5-45 | As intended: a success clears the jar the same way and redirects 303 to `/auth`. |
| SignOut.SignedOutJarShape | src/routes/auth/signout/+page.server.ts:19-34 | After sign-out the jar is the non-`sb-` cookies followed by the two tokens with value `''` and epoch expiry. |
| SignOut.RedirectIsSwallowed | src/routes/auth/signout/+page.server.ts:36-44 | The catch turns every thrown value, the redirect included, into a failure. |
| SignOut.RedirectPassesThrough | src/routes/auth/signout/+page.server.ts:36-44 | With the redirect rethrown, a redirect comes out exactly when one was thrown. Errors are answered as before. |
| Prediction.CategoryListIsLines | src/lib/services/openai.ts:13-28 | The category list is the newline join of, for each category in order, its `- name (id: N)` header followed by its indented subcategory lines. |
| Prediction.HeadersOnly | src/lib/services/openai.ts:23-26 | Without subcategories there is exactly one line per category, in input order. |
| Prediction.Find | src/lib/services/openai.ts:96-96 | The result is the first element satisfying the predicate, or none when no element does. |
| Prediction.AcceptedIffInTaxonomy | src/lib/services/openai.ts:86-112 | A parsed answer is accepted exactly when `categoryId` is a number, `subcategoryId` is null or a number, and the pair lies in the supplied taxonomy. The pair is then returned unchanged. |
| Prediction.ValidationOrder | src/lib/services/openai.ts:87-107 | A non-numeric `categoryId` is rejected first, then a missing `subcategoryId`, then an unknown category, each with its own message. |
| Prediction.PredictOutcomes | src/lib/services/openai.ts:69-116 | A failed request gives `Failed to predict category` and an empty answer `No prediction received from AI`. Every other failure gives `Failed to parse AI prediction`. A success is well typed and in the taxonomy. |
| CategoryCounts.CategoryTransactionCounts | src/routes/api/category-transaction-counts/+server.ts:4-56 | An RPC error answers 500 `Failed to fetch category transaction counts`, and null data answers 500 `Internal server error`. Otherwise the counts are the expected grouping of the rows. |
| CategoryCounts.OneCategoryPerId | src/routes/api/category-transaction-counts/+server.ts:18-43 | There is one output category per distinct `category_id`, in order of first appearance. |
| CategoryCounts.LaterRowsKeepFirst | src/routes/api/category-transaction-counts/+server.ts:21-28 | Later rows never change a category's name or count. |
| CategoryCounts.OrZero | src/routes/api/category-transaction-counts/+server.ts:25-25 | A null or 0 count becomes 0, and any other count is kept. |
| CategoryCounts.FalsySubcategoryIgnored | src/routes/api/category-transaction-counts/+server.ts:33-33 | A row without a truthy subcategory id changes no subcategory. |
| CategoryCounts.RepeatedSubcategoryOverwrites | src/routes/api/category-transaction-counts/+server.ts:34-38 | A repeated subcategory id keeps its position and takes the later row's name and count. The others are unchanged. |
| CategoryCounts.SubcategoriesTruthyAndDistinct | src/routes/api/category-transaction-counts/+server.ts:33-38 | Recorded subcategory ids are non-zero and never repeat. |
| CategoryCounts.GroupedIsExpected | src/routes/api/category-transaction-counts/+server.ts:18-46 | The loop over the rows builds exactly the expected categories. |
| ManageCategories.CategoryStore.UpsertCategory | src/routes/manage/categories/+page.server.ts:21-70 | An empty trimmed name gives 400 before any call, and a missing session gives 401. Id `'0'` appends a category owned by the session user, and any other id renames only that row. Backend errors give 500 `Failed to save category`. A success returns the refreshed list. Only an insert advances the category counter, by one, and the subcategory counter never moves. |
| ManageCategories.CategoryStore.UpsertSubcategory | src/routes/manage/categories/+page.server.ts:72-114 | A name and a category id are required (400), and there is no session check. Without an id it inserts under the category; with one it renames only that row. Errors give 500. Only an insert advances the subcategory counter, by one, and the category counter never moves. |
| ManageCategories.CategoryStore.InsertCategory | src/routes/manage/categories/+page.server.ts:41-48 | The insert appends one category with the next id, owned by the given user, and advances the counter by one. No other table changes, and ids stay unique. |
| ManageCategories.CategoryStore.RenameCategory | src/routes/manage/categories/+page.server.ts:51-56 | The update renames only the category with that id. No other table or counter changes, and ids stay unique. |
| ManageCategories.CategoryStore.InsertSubcategory | src/routes/manage/categories/+page.server.ts:83-92 | The insert appends one subcategory with the next id under the given category. No other table changes, and ids stay unique. |
| ManageCategories.CategoryStore.RenameSubcategory | src/routes/manage/categories/+page.server.ts:93-100 | The update renames only the row with that id. No other table changes, and ids stay unique. |
| ManageCategories.CategoryStore.DeleteCategory | src/routes/manage/categories/+page.server.ts:116-169 | An id is required. A category with subcategories is refused (400), a check made before the allocation check, and so is one with allocations (400). Otherwise exactly that category is removed. Categories in use are never removed. Neither id counter moves. |
| ManageCategories.CategoryStore.DeleteSubcategory | src/routes/manage/categories/+page.server.ts:171-212 | An id is required. A subcategory with allocations is refused (400). Otherwise exactly that subcategory is removed. Neither id counter moves. |
| ManageCategories.CategoryStore.RemoveCategory | src/routes/manage/categories/+page.server.ts:151-156 | The delete removes exactly the categories with that id and keeps every other one and the uniqueness of ids. |
| ManageCategories.CategoryStore.RemoveSubcategory | src/routes/manage/categories/+page.server.ts:194-199 | The delete removes exactly the subcategories with that id and keeps every other one and the uniqueness of ids. |
| ManageCategories.KeptCategories | src/routes/manage/categories/+page.server.ts:138-156 | Deleting by id keeps every other category and the distinctness of ids. |
| ManageCategories.KeptSubcategories | src/routes/manage/categories/+page.server.ts:175-199 | Deleting by id keeps every other subcategory and the distinctness of ids. |
| ManageCategories.RenameCategoryKeepsTable | src/routes/manage/categories/+page.server.ts:44-57 | A rename keeps every row in place with its id and owner, so ids stay unique. Only the row with that id changes, and it takes the new name. An absent id changes nothing, and a second rename of the same id overrides the first. |
| ManageCategories.RenameSubcategoryKeepsTable | src/routes/manage/categories/+page.server.ts:93-101 | A rename keeps every subcategory in place, under the same category and with the same id, so ids stay unique. Only the row with that id is renamed. An absent id changes nothing, and the last of two renames of one id stays. |
| ManageRules.RulesByIdSpec | src/routes/manage/rules/+page.server.ts:5-21 | The returned list is a permutation of the rules, ordered by id ascending, and strictly so when ids are distinct. |
| ManageRules.RuleFieldsRoundTrip | src/routes/manage/rules/+page.server.ts:77-82 | Form fields written from a rule map back to the same rule. |
| ManageRules.RuleStore.CreateRule | src/routes/manage/rules/+page.server.ts:51-97 | The session is checked first (401), then pattern and category (400). A success appends the mapped rule with the next id, advances the counter by one, and returns the list ordered by id. Errors give 500. |
| ManageRules.RuleStore.UpsertRule | src/routes/manage/rules/+page.server.ts:99-147 | The session is checked first, then id, pattern and category. Only the row with `Number(id)` is replaced, with the same field mapping. The id counter does not move. |
| ManageRules.RuleStore.DeleteRule | src/routes/manage/rules/+page.server.ts:149-179 | An id is required and there is no session check. Only the row with `Number(id)` is removed. The id counter does not move. |
| ManageRules.RuleStore.AppendRule | src/routes/manage/rules/+page.server.ts:75-84 | The insert appends the rule with the next id and advances the counter by one; ids stay unique. |
| ManageRules.RuleStore.ReplaceRule | src/routes/manage/rules/+page.server.ts:124-134 | The update overwrites the rows with that id, keeping the id, so ids stay unique. The counter does not move. |
| ManageRules.RuleStore.RemoveRule | src/routes/manage/rules/+page.server.ts:160-165 | The delete removes exactly the rows with that id; ids stay unique and the counter does not move. |
| ManageRules.RuleStore.ApplyRule | src/routes/manage/rules/+page.server.ts:181-214 | An id is required, and the RPC receives `parseInt(id)`. The answer is the list with the affected count, or 500 `Failed to apply rule`. |
| TransactionStore.AllocationTable.UpdateTransactionCategories | src/lib/server/transactions.ts:41-71 | A delete failure answers 500 and leaves the table unchanged. An insert failure answers 500 after the transaction's rows are gone. A success replaces exactly that transaction's rows with the input. |
| TransactionStore.ReplacedHoldsInput | src/lib/server/transactions.ts:43-63 | After the replacement, the transaction's allocations equal the input list exactly. |
| TransactionStore.ReplacedKeepsOthers | src/lib/server/transactions.ts:43-47 | Other transactions' rows are untouched. |
| TransactionStore.ReplaceIdempotent | src/lib/server/transactions.ts:43-63 | Replacing twice with the same list equals replacing once. |
| TransactionStore.FailedInsertLosesAllocations | src/lib/server/transactions.ts:53-67 | After a failed insert the transaction has no allocations, so the operation is not atomic. |
| TransactionStore.GetTransactionSpec | src/lib/server/transactions.ts:5-39 | A transaction is found exactly when the query succeeds and one row has the id. Every failure is a 500 `Internal server error`. |
| FinancialData.ChecksInOrder | src/routes/api/financial-data/+server.ts:7-34 | The RPC is called exactly when period, offset and count are valid. The checks run in the order period, offset, count, each with its own 400 message. An RPC error is 500 `Failed to fetch financial data`. |
| FinancialData.Defaults | src/routes/api/financial-data/+server.ts:7-9 | With no parameters the call is for `month`, 5 periods, offset 0. |
| FinancialData.NumericPrefixAccepted | src/routes/api/financial-data/+server.ts:8-9 | `parseInt` accepts a numeric prefix, so offset `'3x'` is read as 3. |
| FinancialData.TransformKeepsRows | src/routes/api/financial-data/+server.ts:36-40 | Rows keep their number, and null data becomes `[]`. |
| FilteredTransactions.CategoryIdsKeepNaN | src/routes/api/transactions/filtered/+server.ts:19-19 | A selected value that starts with neither white space, a sign nor a digit reaches the RPC as NaN in its own place. The list keeps its length. |
| FilteredTransactions.TotalPages | src/routes/api/transactions/filtered/+server.ts:50-50 | The page count is the least integer not below total / pageSize. It is null when the page size is NaN or 0. |
| FilteredTransactions.DefaultArguments | src/routes/api/transactions/filtered/+server.ts:11-16 | The defaults are type `all`, column `operation_date`, direction `desc`, page 1 and size 30, with null dates, null categories and a null search. |
| FilteredTransactions.ArgumentsSpec | src/routes/api/transactions/filtered/+server.ts:9-34 | Non-empty values pass unchanged and empty ones take their defaults or null: page 1 and page size 30 when those are empty. `isNegative` holds iff the value is `'true'`. An empty category list becomes null. |
| FilteredTransactions.ResponseSpec | src/routes/api/transactions/filtered/+server.ts:36-58 | An RPC error gives 500. A missing result row gives total 0 and no rows. The current page echoes the request, and the page count covers the total. |
| TransactionsPage.Window | src/routes/transactions/+server.ts:57-57 | The range holds at most 20 rows, the rows from the offset on, and none past the end. |
| TransactionsPage.PageCount | src/routes/transactions/+server.ts:64-64 | The page count is the ceiling of count / 20, and 0 for no rows. |
| TransactionsPage.PageSpec | src/routes/transactions/+server.ts:6-70 | For a page number already read, a page from 1 on is the ≤ 20 rows from position (page − 1) × 20 of the date order, newest first, all from the table. The page count covers the table, and the page is echoed unclamped. A page that is NaN or below 1 gets the error answer. |
| TransactionsPage.DefaultPageIsFirst | src/routes/transactions/+server.ts:5-5 | A missing or empty `page` parameter asks for page 1. |
| TransactionsPage.DecimalPageParam | src/routes/transactions/+server.ts:5-5 | A page number written in decimal is read back as that page. |
| TransactionsPage.WindowSpec | src/routes/transactions/+server.ts:56-57 | A page is ordered newest first and holds only rows of the table. |
| TransactionsPage.FailuresAnswerFirstPage | src/routes/transactions/+server.ts:14-62 | A count or fetch error answers 500 with no rows, 0 pages and page 1. |
| TransactionsPage.EveryRowOnItsPage | src/routes/transactions/+server.ts:6-64 | The row at rank k is row k mod 20 of page k / 20 + 1, and that page is within the count. |
| TransactionsPage.EveryRowOnItsDecimalPage | src/routes/transactions/+server.ts:5-57 | Asking for page k / 20 + 1 in decimal shows the row at rank k at place k mod 20. |
| TransactionsPage.RankOnPage | src/routes/transactions/+server.ts:6-7 | Rank k lies at offset (k / 20) × 20 + k mod 20, and its page is within the page count. |
| TransactionsPage.WithDescriptionSpec | src/routes/transactions/+server.ts:77-80 | The update changes only `user_description` of the row with that id. Repeating it changes nothing more. |
| TransactionsPage.TransactionTable.UpdateDescription | src/routes/transactions/+server.ts:73-87 | An error, or an id the database cannot read, gives 500 and leaves the table unchanged. Otherwise only that row's description changes. |
| BankBalances.Banks | src/routes/api/bank-balances/+server.ts:19-26 | There is one bank per row, in order. |
| BankBalances.ProjectionSpec | src/routes/api/bank-balances/+server.ts:19-26 | `bank_id`, `bank_name` and `balance` are mapped to `id`, `name` and `balance`. `accountCounts` holds only `bank_account`. |
| BankBalances.TotalOfRows | src/routes/api/bank-balances/+server.ts:28-28 | The total balance is the sum of the rows' balances. |
| BankBalances.TotalNotNegative | src/routes/api/bank-balances/+server.ts:28-28 | Non-negative balances give a non-negative total. |
| BankBalances.FailuresAnswerNothing | src/routes/api/bank-balances/+server.ts:9-42 | An RPC error answers 500 with no banks, total 0 and `Failed to fetch bank data`. Null data answers 500 `Internal server error`. |
| Filters.NamesRoundTrip | src/lib/types/filters.ts:1-25 | Each field admits exactly its listed strings, and names and values convert both ways. |
| Filters.SharedFiltersRoundTrip | src/lib/types/filters.ts:1-48 | Moving the shared filters between the two states loses nothing. |
| Filters.DefaultsAgree | src/lib/types/filters.ts:50-93 | The transaction default is: all types, no dates, categories, subcategories or search, and sort by date descending. The analytics default equals it without the sort, with period `month`. |
| Forms.BlankFieldIsMissing | src/routes/manage/categories/+page.server.ts:24-28 | A field made only of white space, every Unicode space separator included, trims to `''` and fails the form guard. |
| Forms.IdeographicSpaceIsBlank | src/routes/manage/categories/+page.server.ts:24-28 | A name of one U+3000 space is refused like a missing name. |
| Js.ParseIntPrefix | src/routes/api/financial-data/+server.ts:8-9 | `parseInt` reads the leading decimal digits and ignores what follows. |
| Js.ParseIntOfIntString | src/routes/transactions/+server.ts:5-5 | `parseInt` of a decimal spelling gives back the number. |
| Js.NumberOfIntString | src/routes/analytics/+page.server.ts:176-176 | `Number` of a decimal spelling gives back the number. |
| Seqs.SortSorted | src/routes/analytics/+page.server.ts:54-55 | Sorting with a total preorder yields a sorted permutation. |
| OrderedMaps.PutGet | src/routes/api/category-transaction-counts/+server.ts:34-34 | After setting a key, reading it gives the new value, other keys are unchanged, and the key keeps its first position. |

## Left out

- The week branch of `groupTransactionsByPeriod` uses `date-fns` week arithmetic. The week key is a parameter (`weekKey`) of the model.
- The analytics `load` function only reads categories and is not modelled.
- `Number` is modelled on integer spellings: decimal with an optional sign, `0x`/`0o`/`0b` literals, surrounding white space and the empty string. Fractions, exponents and `Infinity` are read as NaN.
- MonthKeyChronological: the source writes the year unpadded (`getFullYear()`), so across digit counts the string order is not chronological (`999-12` sorts after `1000-01`). The format and order are proved for years 1000–9999 only.
- FilterAction: the `filters` field is a typed record. The source parses it with `JSON.parse(... || '{}')` and reads `dateRange.from`, `type.value` and the others unchecked, so a missing or partial field throws a TypeError; that path is not modelled. The type is an enumeration, where the source sends every `type.value` other than `all` and `income` to the expense branch (`ExpenseType` stands for all of those).
- Analytics date bounds not in `YYYY-MM-DD` form are treated as a failing query. The source passes them to the database unchecked.
- Cookies are identified by name only; domain and path variants of one name are not distinguished.
- Array.prototype.sort is modelled as a stable insertion sort. The tie order the database gives for equal dates is not modelled.
- Dates work in UTC. Local-time effects of `new Date()` and the current clock are not modelled, so `DEFAULT_CATEGORY_FILTERS` (which reads the clock) is left out.
- The `secure` flag is a parameter. In `setAll` it is `process.env.NODE_ENV === 'production'` (the `production` parameter). The sign-out action sets no `secure`, so SvelteKit's default applies (true except on `http://localhost`); the `secureDefault` parameter stands for it.
- The database's cast of a text id to a number is approximated by `Number` on the id.
- A NaN that JSON serialises as `null` is `None`.
- The Supabase RPCs are opaque. Their results are inputs to the model, and the `!inner` joins are not modelled.
- The OpenAI HTTP request and the prompt wording are left out. JSON parsing is a parameter (`parseJson`).
- TransactionsPage.ListPage: a page that is NaN or below 1 is answered as a failed fetch, and a range starting past the end gives no rows. This is how the database's answer is modelled.
- Amounts are integer cents, not floating-point numbers, so the income filter `amount >= 0.01` is `amount >= 1` cent.
- The client-side stores, the API client and the Svelte components are not part of this model.
- `undefined` and `null` for the PATCH description are not distinguished.
- The `PATCH` handler of `src/routes/transactions/+server.ts` reads `params.id`, but that route has no `[id]` segment. The id is an `Option<string>`, and a missing id fails as the database would.
- The outer `catch` blocks that map unexpected exceptions to `Internal server error` are modelled only where a reachable input (null data) triggers them.

## Findings

| source | as written | input that shows it | evidently intended | confidence | as-written member | corrected member |
|---|---|---|---|---|---|---|
| src/routes/auth/signout/+page.server.ts:36-44 | `throw redirect(303, '/auth')` sits inside the `try`. The `catch` catches it, and since a redirect is not an `Error` it answers `{ success: false, error: 'Unknown error occurred' }`. | any sign-out that succeeds | a 303 redirect to `/auth` after the cookies are cleared | not executed | SignOut.SignOutAction | SignOut.SignOutActionCorrected |
