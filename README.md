# Vesta core, modelled in Dafny

Vesta is an iOS app for a one-person beauty shop. It records each day's
treatments (how many of each and for how much), the day's discounts and
surcharges ("adjustments"), and each month's expenses by category. From
these it shows a calendar with daily and monthly revenue, and a monthly
settlement with revenue, expenses, net profit and revenue per treatment.

This project models the app's core in Dafny and proves properties of
the model:

- **The five entity services.** Each service keeps an in-memory list that
  mirrors one collection in the remote document store. Each is a class
  with a `seq` field and one method per service call. After a store call
  succeeds, the method patches the list; after a store call fails, it
  leaves the list alone.
- **The arithmetic of the settlement and calendar screens.**
- **The pure helpers.** These are the model types' computed properties,
  Korean currency formatting and parsing, hex colour decoding, and the
  colour-palette lookup.

The store is an oracle: every remote call becomes a parameter holding
the store's answer.

- `AddReply` is either the new document id or a rejection.
- `WriteReply` answers an update, a delete or a batch commit.
- `FetchReply` is either the documents a query returned or a rejection.
- A loop that makes one remote call per step takes a function from the
  step number to that step's answer.

A method's contract ties its new list to a pure function of the old
list and the answers. Lemmas then prove what the app promises about
those functions: "accumulates", "replaces", "skips", "reindexes",
"sorted", "nothing else changes".

Dates are instants in seconds on one fixed-offset clock.
`StartOfDay(t) = t - t % 86400`, and two instants are on the same day
when their starts of day are equal. A month is a `(year, month)` pair.

| file | models |
|---|---|
| `Wrappers.dfy` | `Option`, `Result`, `Outcome` |
| `Lists.dfy` | filter, sum, first match, trim and sort-by-key on sequences, with their lemmas |
| `Dates.dfy` | start of day and same day |
| `Decimal.dfy` | decimal digits of a natural number, zero padding, parsing digits |
| `Models.dfy` | the five entities, Swift's truncating `Int` division, unit price, adjustment classification |
| `Store.dfy` | the store's answers and the service errors |
| `Documents.dfy` | remove, replace and find by document id, and keeping the query results that decode |
| `Ordering.dfy` | the display order: next order, reorder batch, reindexing |
| `RecordService.dfy`, `ExpenseService.dfy`, `CategoryService.dfy`, `TreatmentService.dfy`, `AdjustmentService.dfy` | the services |
| `Settlement.dfy` | the settlement screen's month keys, totals and revenue by treatment |
| `CalendarView.dfy` | the calendar screen's totals, count step, day grid and lookups |
| `Currency.dfy` | `formattedWithComma`, `formattedCurrency`, `formattedKoreanCurrency`, `intFromCurrencyString` |
| `ColorHex.dfy` | the integer part of `Color(hex:)` |
| `TreatmentColors.dfy` | the fifteen-colour palette and `name(for:)` |

## Model

| member | source | states |
|---|---|---|
| RecordService.RecordService.FetchRecords | Vesta/Vesta/Core/Services/RecordService.swift:33-55 | A successful query replaces the list. A failed one keeps the stale list and records `FetchFailed`. |
| RecordService.RecordService.FetchMonthlyRecords | Vesta/Vesta/Core/Services/RecordService.swift:62-107 | Returns the month's documents that decode, in order, and leaves the cached list alone. A failed query returns nothing and records `FetchFailed`. |
| RecordService.RecordService.AddOrUpdateRecord | Vesta/Vesta/Core/Services/RecordService.swift:119-194 | A stored record of the same day and treatment gets count + 1 and total + price, and its id is returned. Otherwise one record is appended: count 1, total = price, the start of the day, the store's new id. A rejected call leaves the list unchanged and is reported. |
| RecordService.RecordService.UpdateRecordCount | Vesta/Vesta/Core/Services/RecordService.swift:204-247 | A count <= 0 deletes every record with the id; no zero count is stored. A positive count sets count and total on the first record with the id. A rejected call changes nothing. All counts positive before means all counts positive after. |
| RecordService.RecordService.DeleteRecord | Vesta/Vesta/Core/Services/RecordService.swift:255-277 | On success, exactly the records with the id are removed, and the rest keep their order. On rejection, nothing changes. |
| RecordService.RecordService.ClearRecords | Vesta/Vesta/Core/Services/RecordService.swift:292-294 | The list becomes empty. |
| RecordService.SetCountFacts | Vesta/Vesta/Core/Services/RecordService.swift:234-237 | A count update keeps the length and leaves every record without the id unchanged. A record with the id is either unchanged or has only its count and total replaced, and when some record has the id, one of them is patched. |
| RecordService.CountPatchAt | Vesta/Vesta/Core/Services/RecordService.swift:234-237 | With unique ids, a count update for a record's id changes that record and no other. |
| RecordService.AppendFacts | Vesta/Vesta/Core/Services/RecordService.swift:163-186 | After a first tap, the appended record is the one the next lookup finds, and the day's revenue rises by the price. |
| RecordService.TwoTaps | Vesta/Vesta/Core/Services/RecordService.swift:131-186 | With unique ids and an unused new id, two taps on a new (day, treatment), both store calls succeeding, give one record with count 2 and total 2 × price, and the day's revenue rises by 2 × price. |
| RecordService.RevenueAfterUpdate | Vesta/Vesta/Core/Services/RecordService.swift:131-162 | Replacing a record of the day by one of the same day changes the day's revenue by the change in its total. |
| RecordService.TotalRevenueOn | Vesta/Vesta/Core/Services/RecordService.swift:284-289 | `getTotalRevenue(for:)`: the sum of the totals of the records on the day. `TotalRevenueAsSum`, `RevenueAfterUpdate` and `AppendFacts` state how it relates to all records and how it changes. |
| RecordService.TotalRevenueAsSum | Vesta/Vesta/Core/Services/RecordService.swift:284-289 | `getTotalRevenue(d)` is the sum, over all records, of the total of those on the same day as d. |
| RecordService.GroupByTreatment | Vesta/Vesta/Core/Services/RecordService.swift:298-300 | The grouping has a key for exactly the treatment ids that occur. |
| RecordService.GroupByTreatmentFacts | Vesta/Vesta/Core/Services/RecordService.swift:298-300 | Every record is in its treatment's group. No group is empty. A group holds only records of its treatment, each as often as it occurs in the list. Each group is the list's records of that treatment in list order. |
| RecordService.SetCountKeepsPositive | Vesta/Vesta/Core/Services/RecordService.swift:234-237 | Storing a positive count keeps all counts positive. |
| RecordService.RemoveIdKeepsPositive | Vesta/Vesta/Core/Services/RecordService.swift:210-214 | Deleting records keeps all counts positive. |
| ExpenseService.ExpenseService.FetchExpenses | Vesta/Vesta/Core/Services/ExpenseService.swift:32-52 | A successful query replaces the list. A failed one keeps it and records `FetchFailed`. |
| ExpenseService.ExpenseService.UpsertExpense | Vesta/Vesta/Core/Services/ExpenseService.swift:64-131 | A stored expense of the month and category gets the new amount, and its id is returned. Otherwise one expense is appended with the month, category, amount and new id. A rejected call leaves the list unchanged and is reported. |
| ExpenseService.ExpenseService.DeleteExpense | Vesta/Vesta/Core/Services/ExpenseService.swift:139-161 | On success, exactly the expenses with the id are removed. On rejection, nothing changes. Validity is preserved. |
| ExpenseService.ExpenseService.CopyFromPreviousMonth | Vesta/Vesta/Core/Services/ExpenseService.swift:170-243 | An empty previous month changes nothing. The set of categories present is computed once, before the loop. Each previous expense of a category not present is appended under the target month. A rejected copy is skipped and the loop goes on. Only a failed fetch fails the call. |
| ExpenseService.ExpenseService.GroupExpensesByCategory | Vesta/Vesta/Core/Services/ExpenseService.swift:272-278 | The loop builds the category-to-expense map defined by `GroupLast`. |
| ExpenseService.ExpenseService.ClearExpenses | Vesta/Vesta/Core/Services/ExpenseService.swift:266-268 | The list becomes empty. |
| ExpenseService.TotalExpense | Vesta/Vesta/Core/Services/ExpenseService.swift:250-254 | `getTotalExpense(for:)`: the sum of the month's amounts. `UpsertReplaceFacts`, `UpsertAppendFacts` and `UpsertTotal` state how an upsert changes it, and `Settlement.ExpensesAgreeWithService` equates it with the screen's total. |
| ExpenseService.ExpenseAmount | Vesta/Vesta/Core/Services/ExpenseService.swift:261-263 | The amount of the first expense of the month and category, and 0 when there is none. |
| ExpenseService.UpsertReplaceFacts | Vesta/Vesta/Core/Services/ExpenseService.swift:74-100 | With unique ids, an in-place upsert keeps the length and makes the new amount the one looked up. The month total changes by the new amount minus the old one; the amount is replaced, not added. |
| ExpenseService.UpsertAppendFacts | Vesta/Vesta/Core/Services/ExpenseService.swift:101-123 | An upsert with no match appends exactly one expense. The new amount is then the one looked up, and the month total rises by it. |
| ExpenseService.UpsertTotal | Vesta/Vesta/Core/Services/ExpenseService.swift:64-131 | When every cached expense is stored and ids are unique, either way the amount looked up afterwards is the new amount, and the month total changes by the difference. |
| ExpenseService.UpsertKeepsValid | Vesta/Vesta/Core/Services/ExpenseService.swift:64-131 | Suppose every expense is stored, ids are unique and each (month, category) has at most one expense. An upsert whose new id is unused keeps all three. |
| ExpenseService.UpsertIdempotent | Vesta/Vesta/Core/Services/ExpenseService.swift:64-131 | For a valid list and an unused new id, upserting the same amount twice gives the list one upsert gives. |
| ExpenseService.SetAmountUnchanged | Vesta/Vesta/Core/Services/ExpenseService.swift:94-96 | Setting the amount an expense already has changes nothing. |
| ExpenseService.RemoveKeepsValid | Vesta/Vesta/Core/Services/ExpenseService.swift:151 | Deleting keeps the list valid. |
| ExpenseService.CopiesFacts | Vesta/Vesta/Core/Services/ExpenseService.swift:202-229 | Every copy is under the target month, with a category the target month lacked. It has the store's id and the category and amount of the previous expense it answers. There are never more copies than previous expenses. |
| ExpenseService.CopiesAllAdded | Vesta/Vesta/Core/Services/ExpenseService.swift:202-232 | When every add succeeds, the copies match, in order and in category and amount, the previous expenses whose category is not present. Two previous expenses of the same missing category are both copied. |
| ExpenseService.CopiesIntoEmptyMonth | Vesta/Vesta/Core/Services/ExpenseService.swift:202-229 | When every add succeeds, an empty target month receives a copy of every previous expense, in order, with its category and amount. |
| ExpenseService.GroupLastFacts | Vesta/Vesta/Core/Services/ExpenseService.swift:272-278 | The map has a key for exactly the categories present, and each key's value is the last expense of that category. |
| CategoryService.CategoryService.FetchCategories | Vesta/Vesta/Core/Services/CategoryService.swift:30-50 | A successful query replaces the list. A failed one keeps it and records `FetchFailed`. |
| CategoryService.CategoryService.AddCategory | Vesta/Vesta/Core/Services/CategoryService.swift:61-102 | The new category gets the next order. On success it is appended with its id and the list is sorted by order. On rejection, nothing changes. |
| CategoryService.CategoryService.UpdateCategory | Vesta/Vesta/Core/Services/CategoryService.swift:110-145 | A nil id fails with `InvalidId` before any store call, and the list is unchanged. On success, the first category with the id is replaced. On rejection, nothing changes. |
| CategoryService.CategoryService.DeleteCategory | Vesta/Vesta/Core/Services/CategoryService.swift:153-175 | On success, exactly the categories with the id are removed. On rejection, nothing changes. |
| CategoryService.CategoryService.ReorderCategories | Vesta/Vesta/Core/Services/CategoryService.swift:183-223 | The batch holds one update per category with an id. On commit, the list is the input with each order set to its index. On rejection, nothing changes. |
| CategoryService.CategoryService.ClearCategories | Vesta/Vesta/Core/Services/CategoryService.swift:235-237 | The list becomes empty. |
| CategoryService.CategoryService.CreateDefaultCategories | Vesta/Vesta/Core/Services/CategoryService.swift:243-276 | The five defaults are tried in order, with orders 0 to 4. Each accepted one is appended, each rejected one is skipped, and the call never fails. |
| CategoryService.DefaultsAddedFacts | Vesta/Vesta/Core/Services/CategoryService.swift:252-273 | Every created default is the default at its order, stored under the store's id, and the orders rise along the list. |
| CategoryService.DefaultsAllAdded | Vesta/Vesta/Core/Services/CategoryService.swift:244-273 | When every add succeeds, the list is 재료비, 인건비, 월세, 관리비, 기타, with orders 0 to 4. |
| CategoryService.AddCategoryFacts | Vesta/Vesta/Core/Services/CategoryService.swift:70-91 | After an add, the list is sorted, the new category comes last with an order above all others, and the rest is a permutation of the old list. An already-sorted list just grows by the new category. |
| CategoryService.ReorderFacts | Vesta/Vesta/Core/Services/CategoryService.swift:209-213 | After a reorder, the orders are 0, 1, 2, … and nothing else changes, so the list is sorted and the next order is its length. |
| Ordering.NextOrderFacts | Vesta/Vesta/Core/Services/CategoryService.swift:70-71 | The next order is above every order, and it is 0 for an empty list; otherwise it is one more than some order. |
| Ordering.BuildUpdates | Vesta/Vesta/Core/Services/CategoryService.swift:188-199 | The loop builds the batch `OrderUpdates` defines. |
| Ordering.OrderUpdatesFacts | Vesta/Vesta/Core/Services/CategoryService.swift:190-199 | The batch has one (id, index) update per entry with an id, in list order, and skips entries without an id. |
| Ordering.OrderUpdatesAllStored | Vesta/Vesta/Core/Services/TreatmentService.swift:202-211 | When every entry has an id, the batch is exactly (id of entry i, i) for each i. |
| Ordering.ReindexedFacts | Vesta/Vesta/Core/Services/TreatmentService.swift:221-226 | Reindexing sets each order to its position, so the list is sorted and the next order is its length. |
| Documents.FindIdFacts | Vesta/Vesta/Core/Services/CategoryService.swift:230-232 | A lookup by id finds nothing exactly when no entry has the id. Otherwise it finds the first entry with the id. |
| Documents.RemoveIdFacts | Vesta/Vesta/Core/Services/CategoryService.swift:165 | Removing by id leaves no entry with the id and keeps every other entry as often as before. It is the identity when no entry has the id. |
| Documents.ReplaceIdFacts | Vesta/Vesta/Core/Services/CategoryService.swift:133-135 | Replacing by id keeps the length and is the identity when no entry has the id. With unique ids, it changes only the entry with the id. |
| Documents.ReplaceIdKeepsUnique | Vesta/Vesta/Core/Services/AdjustmentService.swift:182-184 | Replacing with an entry of the same id keeps ids unique, and the lookup then finds the new entry. |
| Documents.Decodable | Vesta/Vesta/Core/Services/AdjustmentService.swift:86-88 | Never more results than documents, and a value is a result exactly when some document decodes to it. When all documents decode, the results are their values in order. |
| TreatmentService.TreatmentService.FetchTreatments | Vesta/Vesta/Core/Services/TreatmentService.swift:31-51 | A successful query replaces the list. A failed one keeps it and records `FetchFailed`. |
| TreatmentService.TreatmentService.AddTreatment | Vesta/Vesta/Core/Services/TreatmentService.swift:64-110 | The new treatment gets the next order. On success it is appended with its id and the list is sorted by order. On rejection, nothing changes. |
| TreatmentService.TreatmentService.UpdateTreatment | Vesta/Vesta/Core/Services/TreatmentService.swift:118-157 | A nil id fails with `InvalidId`, and the list is unchanged. On success, the first treatment with the id is replaced, stamped with the update time. On rejection, nothing changes. |
| TreatmentService.TreatmentService.DeleteTreatment | Vesta/Vesta/Core/Services/TreatmentService.swift:165-187 | On success, exactly the treatments with the id are removed. On rejection, nothing changes. |
| TreatmentService.TreatmentService.ReorderTreatments | Vesta/Vesta/Core/Services/TreatmentService.swift:195-236 | The batch skips treatments without an id. On commit, the list is the input with order = index and the update time stamped. On rejection, nothing changes. |
| TreatmentService.TreatmentService.ClearTreatments | Vesta/Vesta/Core/Services/TreatmentService.swift:248-250 | The list becomes empty. |
| TreatmentService.AddTreatmentFacts | Vesta/Vesta/Core/Services/TreatmentService.swift:75-99 | After an add, the list is sorted, the new treatment comes last with an order above all others, and the rest is a permutation of the old list. |
| TreatmentService.UpdateThenGet | Vesta/Vesta/Core/Services/TreatmentService.swift:143-147 | With unique ids, a committed update keeps the length and the uniqueness of ids. `getTreatment(byId:)` then returns the updated treatment. |
| TreatmentService.ReorderFacts | Vesta/Vesta/Core/Services/TreatmentService.swift:221-226 | After a reorder, the list equals the input with order = index, so it is sorted and the next order is its length. |
| AdjustmentService.AdjustmentService.FetchAdjustments | Vesta/Vesta/Core/Services/AdjustmentService.swift:33-55 | A successful query replaces the list. A failed one keeps it and records `FetchFailed`. |
| AdjustmentService.AdjustmentService.FetchMonthlyAdjustments | Vesta/Vesta/Core/Services/AdjustmentService.swift:62-99 | Returns the month's documents that decode and leaves the cached list alone. A failed query returns nothing and records `FetchFailed`. |
| AdjustmentService.AdjustmentService.AddAdjustment | Vesta/Vesta/Core/Services/AdjustmentService.swift:111-151 | On success, exactly one adjustment is appended: the start of the day, the signed amount, the reason and the new id. On rejection, nothing changes. |
| AdjustmentService.AdjustmentService.UpdateAdjustment | Vesta/Vesta/Core/Services/AdjustmentService.swift:159-194 | A nil id fails with `InvalidId`. On success, the first adjustment with the id is replaced. On rejection, nothing changes. |
| AdjustmentService.AdjustmentService.DeleteAdjustment | Vesta/Vesta/Core/Services/AdjustmentService.swift:202-224 | On success, exactly the adjustments with the id are removed. On rejection, nothing changes. |
| AdjustmentService.AdjustmentService.ClearAdjustments | Vesta/Vesta/Core/Services/AdjustmentService.swift:259-261 | The list becomes empty. |
| AdjustmentService.TotalAdjustment | Vesta/Vesta/Core/Services/AdjustmentService.swift:231-236 | `getTotalAdjustment(for:)`: the sum of the day's amounts. `TotalsSplit` splits it into discounts and additions, and `AddAdjustmentFacts` states how an add changes it. |
| AdjustmentService.TotalDiscount | Vesta/Vesta/Core/Services/AdjustmentService.swift:241-246 | The day's negative amounts sum to at most 0. |
| AdjustmentService.TotalExtra | Vesta/Vesta/Core/Services/AdjustmentService.swift:251-256 | The day's positive amounts sum to at least 0. |
| AdjustmentService.TotalsSplit | Vesta/Vesta/Core/Services/AdjustmentService.swift:231-256 | The day's discounts sum to <= 0 and its additions to >= 0. Together they make the day's total, since a zero amount counts in neither. |
| AdjustmentService.AddAdjustmentFacts | Vesta/Vesta/Core/Services/AdjustmentService.swift:120-139 | Adding an adjustment changes its own day's total by its amount and no other day's total. |
| AdjustmentService.AddAdjustmentSplit | Vesta/Vesta/Core/Services/AdjustmentService.swift:231-256 | A discount lowers its day's discount total by its size, and an addition raises the day's extra total. Neither touches the other total. |
| Settlement.YearMonthString | Vesta/Vesta/Features/Settlement/ViewModels/SettlementViewModel.swift:43-45 | The key is at least four digits, a dash, then two digits, and exactly seven characters for years up to 9999. |
| Settlement.YearMonthRoundTrip | Vesta/Vesta/Features/Settlement/ViewModels/SettlementViewModel.swift:43-45 | The key reads back as its month. |
| Settlement.YearMonthStringInjective | Vesta/Vesta/Features/Settlement/ViewModels/SettlementViewModel.swift:237-239 | Different months have different keys, so the previous month's key never equals the current one. |
| Settlement.PreviousMonth | Vesta/Vesta/Features/Settlement/ViewModels/SettlementViewModel.swift:233-239 | Exactly one calendar month earlier; January goes to December of the year before. |
| Settlement.NextMonth | Vesta/Vesta/Features/Settlement/ViewModels/SettlementViewModel.swift:175-183 | Exactly one calendar month later; December goes to January of the year after. |
| Settlement.PreviousNextInverse | Vesta/Vesta/Features/Settlement/ViewModels/SettlementViewModel.swift:165-183 | Going back a month and then forward, or forward and then back, returns to the same month. |
| Settlement.TotalRevenue | Vesta/Vesta/Features/Settlement/ViewModels/SettlementViewModel.swift:52-56 | `totalRevenue`: the month's record totals plus its adjustment amounts. `RevenueSplit` and `NetProfitChanges` state its parts and changes. |
| Settlement.TotalExpense | Vesta/Vesta/Features/Settlement/ViewModels/SettlementViewModel.swift:59-61 | `totalExpense`: the sum of all loaded expenses. `ExpensesAgreeWithService` equates it with the service's month total. |
| Settlement.NetProfit | Vesta/Vesta/Features/Settlement/ViewModels/SettlementViewModel.swift:64-66 | `netProfit`: revenue minus expenses. `NetProfitChanges` states how each entry moves it and when it is negative. |
| Settlement.RevenueSplit | Vesta/Vesta/Features/Settlement/ViewModels/SettlementViewModel.swift:52-56 | `totalRevenue` is the resolving records' totals, plus the totals of records of unknown treatments (dropped from the table but counted here), plus the adjustments. |
| Settlement.NetProfitChanges | Vesta/Vesta/Features/Settlement/ViewModels/SettlementViewModel.swift:52-66 | Each record or adjustment raises the net profit by its amount, and each expense lowers it. The profit is negative exactly when expenses exceed revenue. |
| Settlement.ExpensesAgreeWithService | Vesta/Vesta/Features/Settlement/ViewModels/SettlementViewModel.swift:59-61 | For one month's expenses, the screen's total and per-category amount equal the expense service's. |
| Settlement.GetExpenseAmount | Vesta/Vesta/Features/Settlement/ViewModels/SettlementViewModel.swift:195-197 | The first expense of the category gives the amount, and 0 when there is none. |
| Settlement.RevenueTotals | Vesta/Vesta/Features/Settlement/ViewModels/SettlementViewModel.swift:71-75 | The dictionary the `for` loop builds. `RevenueTotalsFacts` states its keys and values, and `AccumulateRevenue` is the loop. |
| Settlement.AccumulateRevenue | Vesta/Vesta/Features/Settlement/ViewModels/SettlementViewModel.swift:73-75 | The loop fills the dictionary `RevenueTotals` defines. |
| Settlement.RevenueTotalsFacts | Vesta/Vesta/Features/Settlement/ViewModels/SettlementViewModel.swift:71-75 | The dictionary has a key for exactly the treatment ids that occur, and each value is the sum of that id's record totals. |
| Settlement.JoinRows | Vesta/Vesta/Features/Settlement/ViewModels/SettlementViewModel.swift:78-83 | The `compactMap`, taking ids in any order: one row per resolving id, each the treatment's name and colour with its sum. The rows add up to the resolving records' totals. |
| Settlement.RevenueByTreatment | Vesta/Vesta/Features/Settlement/ViewModels/SettlementViewModel.swift:69-87 | One row per distinct treatment id that resolves, none for unknown ids. Each row's amount is the sum of that id's records. The rows are sorted by amount, largest first, and add up to the resolving records' totals. |
| CalendarView.RecordTotal | Vesta/Vesta/Features/Calendar/ViewModels/CalendarViewModel.swift:51-57 | `monthlyRevenue` and `totalRecordAmount`: the sum of record totals. `DayWithinMonth` bounds a day's revenue by the month's. |
| CalendarView.AdjustmentTotal | Vesta/Vesta/Features/Calendar/ViewModels/CalendarViewModel.swift:59-61 | `totalAdjustmentAmount`: the sum of the selected day's adjustment amounts. It is the second term of `dailyTotal`, which `DailyTotalOfDay` relates to the services' day totals. |
| CalendarView.DailyTotal | Vesta/Vesta/Features/Calendar/ViewModels/CalendarViewModel.swift:63-65 | `dailyTotal`: records plus adjustments. `DailyTotalOfDay` relates it to the two services' day totals. |
| CalendarView.DailyTotalOfDay | Vesta/Vesta/Features/Calendar/ViewModels/CalendarViewModel.swift:55-65 | For a fetched day, `dailyTotal` is the record service's day revenue plus the adjustment service's day total, which splits into discounts and additions. |
| CalendarView.DayWithinMonth | Vesta/Vesta/Features/Calendar/ViewModels/CalendarViewModel.swift:51-53 | With no negative totals, a day's revenue lies between 0 and `monthlyRevenue`. |
| CalendarView.NewCount | Vesta/Vesta/Features/Calendar/ViewModels/CalendarViewModel.swift:186 | count + 1 on increment. On decrement, count − 1 but never below 0. |
| CalendarView.CountStepsInverse | Vesta/Vesta/Features/Calendar/ViewModels/CalendarViewModel.swift:186 | For a positive count, a step up undoes a step down, and the other way round. |
| CalendarView.NewTotal | Vesta/Vesta/Features/Calendar/ViewModels/CalendarViewModel.swift:187-188 | For a positive count, the new total is the record's unit price times the new count. |
| CalendarView.NewTotalAtPrice | Vesta/Vesta/Features/Calendar/ViewModels/CalendarViewModel.swift:187-188 | When all units cost one price, the new total is that price times the new count. |
| CalendarView.RecomputedTotal | Vesta/Vesta/Features/Calendar/ViewModels/CalendarViewModel.swift:187-188 | For a positive count and a non-negative total, recomputing the total at its own count never exceeds the old total and falls short of it by less than the count. |
| CalendarView.UpdateRecordCount | Vesta/Vesta/Features/Calendar/ViewModels/CalendarViewModel.swift:180-202 | A record without an id is ignored and the service is untouched. Otherwise the new count and its total go to the record service, so decrementing a count-1 record deletes it when the delete succeeds. All counts positive before means all counts positive after. |
| CalendarView.DaysInMonth | Vesta/Vesta/Features/Calendar/ViewModels/CalendarViewModel.swift:262-287 | No month range gives no cells. Otherwise `firstWeekday - 1` blanks come first, then the date of day d at position `firstWeekday - 2 + d`, and the length is `firstWeekday - 1 + n`. |
| CalendarView.DayCellsFacts | Vesta/Vesta/Features/Calendar/ViewModels/CalendarViewModel.swift:280-284 | For a month that starts on a day boundary, each day cell is a start of day, and two cells are the same day exactly when they are the same cell. |
| CalendarView.HasRecords | Vesta/Vesta/Features/Calendar/ViewModels/CalendarViewModel.swift:289-291 | True exactly when some monthly record falls on the same day as the date. |
| CalendarView.HasRecordsRevenue | Vesta/Vesta/Features/Calendar/ViewModels/CalendarViewModel.swift:289-291 | A day without records has no revenue. A day with records of positive totals has positive revenue. |
| CalendarView.GetTreatment | Vesta/Vesta/Features/Calendar/ViewModels/CalendarViewModel.swift:293-295 | None exactly when no treatment has the id. Otherwise it is the first treatment in the list with the id. |
| CalendarView.GetTreatmentUnique | Vesta/Vesta/Features/Calendar/ViewModels/CalendarViewModel.swift:293-295 | With unique ids, looking up a stored treatment's id finds that treatment. |
| Models.DailyRecord.UnitPrice | Vesta/Vesta/Core/Models/DailyRecord.swift:43-46 | 0 when count <= 0. For a positive count, the truncated quotient: `u·count <= total < (u+1)·count` for a non-negative total, and the mirror bounds for a negative one. |
| Models.TruncDiv | Vesta/Vesta/Core/Models/DailyRecord.swift:45 | Swift's `/` on `Int`: it equals Euclidean division on non-negative operands, and the remainder takes the dividend's sign. |
| Models.NewRecord | Vesta/Vesta/Core/Models/DailyRecord.swift:34-39 | The date is truncated to the start of its day. Treatment, count and total are stored unchanged. |
| Models.DailyAdjustment.IsDiscount | Vesta/Vesta/Core/Models/DailyAdjustment.swift:37-39 | A negative amount. `IsAddition`, `AbsoluteAmount` and `TypeDescription` state how it relates to the other classifications. |
| Models.DailyAdjustment.IsAddition | Vesta/Vesta/Core/Models/DailyAdjustment.swift:37-44 | An addition is never a discount, and a zero amount is neither. |
| Models.DailyAdjustment.AbsoluteAmount | Vesta/Vesta/Core/Models/DailyAdjustment.swift:47-49 | `|amount| >= 0`: the negated amount for a discount, the amount otherwise. |
| Models.DailyAdjustment.TypeDescription | Vesta/Vesta/Core/Models/DailyAdjustment.swift:52-54 | "할인" exactly for a discount, otherwise "추가금액", so a zero amount shows "추가금액". |
| Models.NewAdjustment | Vesta/Vesta/Core/Models/DailyAdjustment.swift:29-34 | The date is truncated to the start of its day. Amount and reason are stored unchanged. |
| Models.NewTreatment | Vesta/Core/Models/Treatment.swift:35-43 | No id yet. The fields are as given, and both timestamps are the creation time. |
| Models.NewCategory | Vesta/Vesta/Core/Models/ExpenseCategory.swift:29-34 | No id yet. The fields are as given. |
| Models.NewExpense | Vesta/Core/Models/MonthlyExpense.swift:32-37 | No id yet. The fields are as given. |
| Dates.StartOfDay | Vesta/Vesta/Shared/Extensions/Date+Formatting.swift:69-71 | The first second of the day: a multiple of 86400 at or before the instant, and within 86400 seconds of it. |
| Dates.SameDayWindow | Vesta/Vesta/Shared/Extensions/Date+Formatting.swift:92-94 | Two instants are on the same day exactly when they lie in one 86400-second window starting at a multiple of 86400. |
| Dates.StartOfDayIdempotent | Vesta/Vesta/Core/Models/DailyRecord.swift:35 | Truncating a stored start of day again changes nothing. |
| Currency.FormattedWithComma | Vesta/Vesta/Shared/Extensions/Int+Currency.swift:29-36 | A minus sign exactly for negatives. Then a comma every three digits from the right, and removing the commas leaves the decimal digits of the magnitude. |
| Currency.Group | Vesta/Vesta/Shared/Extensions/Int+Currency.swift:31-36 | The result is comma-grouped, and without its commas it is the input digits. |
| Currency.FormattedCurrency | Vesta/Vesta/Shared/Extensions/Int+Currency.swift:23-27 | "₩" followed by the comma-grouped number. |
| Currency.FormattedKoreanCurrency | Vesta/Vesta/Shared/Extensions/Int+Currency.swift:15-21 | The text always ends in "원". `KoreanCurrencyParts` states both forms, and `KoreanCurrencyDoesNotParse` states that neither parses back. |
| Currency.KoreanCurrencyParts | Vesta/Vesta/Shared/Extensions/Int+Currency.swift:11-21 | From 10000 up: decimal digits followed by "만원", where the digits times 10000 is n with the remainder below 10000 dropped. From the 64-bit minimum up to 9999: text followed by "원", where the text parses back to n. |
| Currency.ExampleAbbreviated | Vesta/Vesta/Shared/Extensions/Int+Currency.swift:12-14 | 50000 gives "5만원", and 125000 gives "12만원". |
| Currency.ExampleSmall | Vesta/Vesta/Shared/Extensions/Int+Currency.swift:13 | 3500 gives "3,500원". |
| Currency.ExampleGrouped | Vesta/Vesta/Shared/Extensions/Int+Currency.swift:30 | 50000 gives "50,000". |
| Currency.IntFromCurrencyString | Vesta/Vesta/Shared/Extensions/Int+Currency.swift:39-47 | Any parsed value lies within the 64-bit range; its value is stated by `ParseCleanedSigned`. |
| Currency.ParseInt | Vesta/Vesta/Shared/Extensions/Int+Currency.swift:46 | Only an optional sign followed by digits parses, and only to a value in the 64-bit range; its value is stated by `ParseSigned`. |
| Currency.ParseSigned | Vesta/Vesta/Shared/Extensions/Int+Currency.swift:46 | An optional "+" or "-" followed by one or more digits, leading zeros allowed, parses to the signed value of the digits when that fits in 64 bits, and to nil otherwise. |
| Currency.ParseCleanedSigned | Vesta/Vesta/Shared/Extensions/Int+Currency.swift:39-47 | Text that becomes whitespace, a sign, digits and whitespace once its commas and won signs are removed parses to the signed value of the digits when it fits in 64 bits, and to nil otherwise. |
| Currency.ExampleLeadingZeros | Vesta/Vesta/Shared/Extensions/Int+Currency.swift:46 | "007" parses to 7, and "+5" to 5. |
| Currency.ExampleSpaced | Vesta/Vesta/Shared/Extensions/Int+Currency.swift:41-46 | " 1,2,3 " parses to 123: commas anywhere are dropped and surrounding spaces trimmed. |
| Currency.CurrencyRoundTrip | Vesta/Vesta/Shared/Extensions/Int+Currency.swift:24-47 | For every 64-bit `Int`, parsing `formattedWithComma` or `formattedCurrency` gives the number back. |
| Currency.KoreanCurrencyDoesNotParse | Vesta/Vesta/Shared/Extensions/Int+Currency.swift:15-21 | The abbreviated form never parses back: its "원" suffix is neither removed nor a digit. |
| Currency.ExampleParse | Vesta/Vesta/Shared/Extensions/Int+Currency.swift:41 | "50,000" parses to 50000. |
| ColorHex.Channels | Vesta/Shared/Extensions/Color+Hex.swift:13-24 | Each channel is in 0..255. A trimmed length other than 6 gives (0, 0, 0). Trimming drops characters other than ASCII letters and digits from both ends. |
| ColorHex.HexPrefix | Vesta/Shared/Extensions/Color+Hex.swift:16 | The longest prefix of hexadecimal digits, which is where `scanHexInt64` stops. |
| ColorHex.ScanHex | Vesta/Shared/Extensions/Color+Hex.swift:16 | On a string of hexadecimal digits, the value they spell. |
| ColorHex.SixDigitChannels | Vesta/Shared/Extensions/Color+Hex.swift:19-21 | For six hexadecimal digits after trimming, red, green and blue are the values of the first, second and third digit pairs. |
| ColorHex.ByteSplit | Vesta/Shared/Extensions/Color+Hex.swift:21 | The shifts and masks recover each byte of a value built from three bytes. |
| ColorHex.HashPrefixedChannels | Vesta/Shared/Extensions/Color+Hex.swift:14-21 | A leading "#" is trimmed, and "#" plus six hexadecimal digits gives the three pairs' values. |
| ColorHex.MainPinkChannels | Vesta/Shared/Extensions/Color+Hex.swift:12-21 | "#FFA0B9" gives (255, 160, 185). |
| TreatmentColors.NameIn | Vesta/Vesta/Shared/Constants/TreatmentColors.swift:41-43 | Nil exactly when no entry matches ignoring case; otherwise it is the name of the first entry that matches. |
| TreatmentColors.Upper | Vesta/Vesta/Shared/Constants/TreatmentColors.swift:42 | `uppercased()` on ASCII letters, character by character; other characters are kept as they are. |
| TreatmentColors.PaletteDistinct | Vesta/Vesta/Shared/Constants/TreatmentColors.swift:22-38 | The palette has fifteen entries whose codes differ pairwise, even ignoring case (from `CodesDistinct` and `PaletteUpper`). |
| TreatmentColors.CodesDistinct | Vesta/Vesta/Shared/Constants/TreatmentColors.swift:22-38 | The fifteen codes as written differ pairwise. |
| TreatmentColors.PaletteUpper | Vesta/Vesta/Shared/Constants/TreatmentColors.swift:22-38 | Every palette code is already upper case. |
| TreatmentColors.NameFor | Vesta/Vesta/Shared/Constants/TreatmentColors.swift:41-43 | Nil exactly when no palette entry matches ignoring case; otherwise the name of an entry that matches. |
| TreatmentColors.NameForUnique | Vesta/Vesta/Shared/Constants/TreatmentColors.swift:41-43 | At most one entry matches a code, and a found name is that entry's. |
| TreatmentColors.LowerCaseLookup | Vesta/Vesta/Shared/Constants/TreatmentColors.swift:41-43 | "#ffa0b9" finds "메인 핑크". |

## Left out

- The Firestore gateway (FirestoreService.swift) is not part of this model. Each service call takes the store's answer as a parameter. The gateway's mapping of store failures to error kinds is folded into the services: add → `AddFailed`, update and batch → `UpdateFailed`, delete → `DeleteFailed`, query → `FetchFailed`. So the gateway's re-wrapping of a missing document as a fetch failure is not modelled.
- The user id and authentication (AuthService.swift) are left out. The services' `userId` arguments are dropped, and a view-model call made without a signed-in user is not modelled.
- The store's field names are left out, since they are a storage concern. An update writes "totalAmount" where the stored record's key is "total_amount", and expenses are queried on "yearMonth" where the key is "year_month".
- The queries themselves are left out, and their answers are parameters. This covers the day query and the month window of `fetchMonthlyRecords` and `fetchMonthlyAdjustments`, how Firestore orders results, and the month query of `fetchExpenses`.
- Concurrency is left out: `async`/`await`, `async let`, `@MainActor`, and the Combine subscriptions that copy service lists into the view models. Calls run one after another on one snapshot.
- `isLoading` and `print` logging are left out. The `errorMessage` strings are modelled only as the error of the last failed call (`lastError`).
- Dates are instants on one fixed-offset clock. Time zones, daylight saving and `Calendar` arithmetic are not modelled. `DayDate` assumes every day has 86400 seconds. `getDaysInMonth` takes the first weekday and the day range as parameters. A failure of `date(bySetting:)` for a single day is not modelled: every day of the range gets its cell.
- Swift `Int` is unbounded in the model, apart from parsing (`Int(String)` yields nil outside the 64-bit range). Overflow traps in sums and in `count + 1` are not modelled.
- `formattedWithComma` stands for `NumberFormatter` with the `ko_KR` locale: a minus sign, then digits grouped by three with ","; its `?? "\(self)"` fallback is never taken. Whitespace trimming uses the Unicode space-separator characters and tab.
- Floating point is left out: the division by 255 and `toHex()` in Color+Hex.swift.
- Swift's `sort` is not stable. The model sorts by a stable insertion sort, and its contracts promise only order and permutation, which holds for any correct sort. `RevenueByTreatment` leaves the order between equal amounts unspecified, as the source does.
- The dictionary iteration order of `revenueByTreatment` is unspecified. `JoinRows` takes ids in any order (`:|`), and its contract holds for every order.
- `reorderTreatments` reads the clock once per treatment in the source. The model uses one `now` for the whole batch. The `updatedAt` values in the category batch are not stored locally and are not modelled.
- `copiedCount` in `copyFromPreviousMonth` is used only for logging and is not modelled.
- The view models' navigation state (`currentDate`, `selectedDate`) and their fetch methods are left out. `PreviousMonth` and `NextMonth` model the month arithmetic. The refetch after `updateRecordCount` is not modelled either.
- The calendar's `addRecord`, `deleteRecord`, `saveAdjustment` and `deleteAdjustment` and the settlement's `updateExpense` and `copyExpensesFromPreviousMonth` are left out. They only forward to the service methods modelled here, with the screen's date or month key.
- The settlement's `getTreatment(byId:)` and `getCategory(byId:)` are left out. They are the same first-match-by-id lookup as `Documents.FindId`, which `CalendarView.GetTreatment` also models.
- The SwiftUI views, the app shell and the constants files are left out; they are UI only.
- CalendarView.UpdateRecordCount: requires a record with an id to have a nonzero count. The source divides by the count and traps on zero. The record service keeps counts positive (`RecordService.RecordService.UpdateRecordCount`), so such a record does not reach the screen.
- CalendarView.DaysInMonth: requires `firstWeekday >= 1` when the month has a range. The source's `1..<firstWeekday` traps otherwise, and `Calendar` gives weekdays from 1 to 7.
- ColorHex.Channels and TreatmentColors.Upper: only ASCII is modelled. Trimming keeps ASCII letters and digits, where the source keeps all of Unicode `CharacterSet.alphanumerics`. Upper-casing maps ASCII letters only, where `uppercased()` applies full Unicode case mapping. Lengths count characters, not grapheme clusters. So "é123456" or "#ﬀa0b9" do not behave as in the source, while the palette's own codes, being ASCII, do.
