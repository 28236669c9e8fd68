# Customer purchase records: extraction, counting and the Excel report

This project models the core of a small Java program that reads customer
purchase sentences from `.txt` files, turns each matching sentence into an
11-field record, counts the records, and writes a three-sheet Excel report.

The modelled parts are:

- **`CustomerDetailsFiles.run`** is the per-file worker. It reads the file line
  by line and matches each line against the purchase pattern. For each match it
  builds the row `[folder, file, customer, product, id, quantity, price, total,
  date, status, wishlist]` and appends it to the shared list. The wishlist has
  every `"a pair of "` and `"a "` deleted from it (`replaceAll`).
- **`ProcessingCustomerRecords.main`**, reduced to its logic:
  - the worker count `ceil(folders / folderCount)`;
  - the `.txt` filter and one task per text file;
  - the summary pass `printCustomerCountSummary`, which updates the static
    counters and maps and the folder, file and product totals;
  - `saveToExcel`, with its three sheets and the row writers
    `createProductSummaryRows` and `createWishlistSummaryRows`.

## How the model is organised

- `options.dfy` (`Options`): the optional value used for matches, parses and
  listings.
- `java_text.dfy` (`JavaText`): the Java library behaviour the code relies on.
  - `Integer.parseInt` (`ParseInt`): optional sign, ASCII digits, 32-bit range.
  - `String.valueOf(int)` (`IntToString`).
  - ASCII `toLowerCase` (`ToLower`).
  - `String.split(", ")` (`Split`): the raw pieces (`SplitAll`), then trailing
    empty pieces dropped (`DropTrailingEmpty`).
- `counts.dfy` (`Counts`): a `ConcurrentHashMap<String, Integer>` counter as a
  `map<string, int>`.
  - `Add` is `put(k, getOrDefault(k, 0) + q)`; it is also `merge(k, q, Integer::sum)`.
  - `AddEach` counts a list of names.
  - `SumValues` is the sum of the values.
- `spreadsheet.dfy` (`Spreadsheet`): a POI sheet as a `class Sheet` holding a
  map from row index to cells.
  - `CreateRow` is `createHeaderRow`/`createDataRow`.
  - `Place` writes a block of rows at consecutive indices.
- `customer_details.dfy` (`CustomerDetails`): the worker.
  - Classes `RecordList` (the shared `List<String[]>`) and `CustomerDetailsFiles`,
    with `Run` as an imperative loop over the lines.
  - `StripArticles` is the wishlist rewrite.
  - `BuildRow` builds the 11-field row.
  - `Extract` is the specification of a whole run.
- `aggregation.dfy` (`Aggregation`): the specification of the summary pass.
  - `Store` holds the nine static counters and maps.
  - `Step` is one row's effect on a `Store`.
  - `Apply` runs `Step` over a sequence of records.
- `processing.dfy` (`Processing`): `class ProcessingCustomerRecords` holds the
  static state as fields, and its methods mirror the Java methods.
  - Each method is proved to leave the state described by `Apply`, `Place`,
    `ProductRows` and `WishlistRows`.
  - `Process` is `main` after the configuration has been read.

These are left as parameters:

- the regex, as a function from a line to an optional tuple of groups;
- `Double.parseDouble` followed by `String.valueOf(double)`, as a function from
  text to optional text;
- the directory listing (`Option<seq<Folder>>`);
- the file contents, as the lines read and whether reading failed part-way.

Two behaviours of the code are worth stating outright:

- **Wishlist rewrite.** `replaceAll("(a pair of |a )", "")` deletes every
  occurrence, not only the quantifier at the head of the phrase, and also
  inside words (`StripTwoItems`, `StripInsideWord`).
- **Worker count.** There is no lower bound on the worker count: zero folders
  gives `newFixedThreadPool(0)`, which throws, so no report is produced
  (`Processing.ThreadCountPositive`, `Processing.ProcessingCustomerRecords.Process`).

Java exceptions that end a method are modelled as an early stop that keeps
every effect made before it:

- `NumberFormatException` in `run` (`RunOutcome.NumberFormatError`);
- `IOException` while reading (`RunOutcome.ReadError`);
- `parseInt` or an index error in the summary pass (`completed == false`).

## Model

| member | source | states |
|---|---|---|
| JavaText.ParseInt | ecommerce/src/main/java/com/multithread/task/ecommerceV01/ProcessingCustomerRecords.java:114 | `Integer.parseInt`: an optional sign and at least one ASCII digit, with the value in the 32-bit range; anything else is the `NumberFormatException` (`None`). Its properties are `ParseIntRoundTrip` and `DigitsCanonical` |
| JavaText.IntToString | ecommerce/src/main/java/com/multithread/task/ecommerceV01/CustomerDetailsFiles.java:44 | `String.valueOf(int)`: a `-` for negatives, then the digits without leading zeros (`NatToStringDigits`) |
| JavaText.Split | ecommerce/src/main/java/com/multithread/task/ecommerceV01/ProcessingCustomerRecords.java:143 | `String.split(", ")`: the pieces between separators, with trailing empty pieces dropped (`SplitSpec`, `SplitJoin`, `SplitAllPiecesFree`, `DropTrailingEmptySpec`) |
| JavaText.ParseIntRoundTrip | ecommerce/src/main/java/com/multithread/task/ecommerceV01/CustomerDetailsFiles.java:44 | `Integer.parseInt(String.valueOf(n)) == n` for every 32-bit int `n` |
| JavaText.DigitsCanonical | ecommerce/src/main/java/com/multithread/task/ecommerceV01/CustomerDetailsFiles.java:29 | a digit string within int range parses to its decimal value, and its rendering by `String.valueOf` has the same value with no leading zeros |
| JavaText.NatToStringDigits | ecommerce/src/main/java/com/multithread/task/ecommerceV01/CustomerDetailsFiles.java:44 | the decimal rendering of a natural number is a non-empty digit string that reads back as that number and starts with `0` only for 0 |
| JavaText.SplitJoin | ecommerce/src/main/java/com/multithread/task/ecommerceV01/ProcessingCustomerRecords.java:143 | the raw pieces of a split, joined again with `", "`, give back the wishlist text |
| JavaText.SplitAllPiecesFree | ecommerce/src/main/java/com/multithread/task/ecommerceV01/ProcessingCustomerRecords.java:143 | no raw piece contains `", "`, so the text is cut at every occurrence; with `SplitJoin` this fixes the pieces, because `", "` cannot overlap itself |
| JavaText.SplitAllNoSeparator | ecommerce/src/main/java/com/multithread/task/ecommerceV01/ProcessingCustomerRecords.java:143 | a text without `", "` is one piece |
| JavaText.DropTrailingEmptySpec | ecommerce/src/main/java/com/multithread/task/ecommerceV01/ProcessingCustomerRecords.java:143 | `split` keeps a prefix of the raw pieces, drops only empty pieces, and its last piece is non-empty |
| JavaText.SplitSpec | ecommerce/src/main/java/com/multithread/task/ecommerceV01/ProcessingCustomerRecords.java:143 | for a non-empty text the split is the raw pieces with the trailing empty pieces removed |
| JavaText.SplitPair | ecommerce/src/main/java/com/multithread/task/ecommerceV01/ProcessingCustomerRecords.java:143 | two non-empty comma-free items joined with `", "` split into exactly those two items |
| JavaText.SplitTwoItems | ecommerce/src/test/java/com/multithread/task/ecommerce/ProcessingCustomerRecordsTest.java:109 | `"laptop, smartwatch"` splits into `["laptop", "smartwatch"]` |
| JavaText.SplitLoneSeparator | ecommerce/src/main/java/com/multithread/task/ecommerceV01/ProcessingCustomerRecords.java:143 | `", "` splits into no pieces at all, because Java drops trailing empty pieces |
| JavaText.SplitSingleItem | ecommerce/src/test/java/com/multithread/task/ecommerce/ProcessingCustomerRecordsTest.java:107 | `"smartwatch"` splits into `["smartwatch"]` |
| Counts.Add | ecommerce/src/main/java/com/multithread/task/ecommerceV01/ProcessingCustomerRecords.java:123 | `put(k, getOrDefault(k, 0) + q)`: the key set gains `k`, the entry for `k` grows by `q` (a missing entry counts as 0), and every other entry is unchanged |
| Counts.SumAdd | ecommerce/src/main/java/com/multithread/task/ecommerceV01/ProcessingCustomerRecords.java:152 | adding `q` to one entry raises the sum of all values by `q` |
| Counts.SumAddEach | ecommerce/src/main/java/com/multithread/task/ecommerceV01/ProcessingCustomerRecords.java:144-147 | counting a list of names raises the sum of the values by the length of the list |
| Counts.AddEachGet | ecommerce/src/main/java/com/multithread/task/ecommerceV01/ProcessingCustomerRecords.java:145-147 | after counting a list of names, the key set gains exactly those names and each entry grows by the number of occurrences of its name |
| Counts.AddEachCommutes | ecommerce/src/main/java/com/multithread/task/ecommerceV01/ProcessingCustomerRecords.java:145-147 | counting two lists gives the same map in either order |
| Counts.AddCommutes | ecommerce/src/main/java/com/multithread/task/ecommerceV01/ProcessingCustomerRecords.java:123 | two `getOrDefault`+`put` increments give the same map in either order |
| Counts.SumValuesRemove | ecommerce/src/main/java/com/multithread/task/ecommerceV01/ProcessingCustomerRecords.java:152 | the sum of the values is one entry plus the sum over the other entries |
| Spreadsheet.Place | ecommerce/src/main/java/com/multithread/task/ecommerceV01/ProcessingCustomerRecords.java:215-217 | writing a block of rows at consecutive indices from a start row, one `createDataRow` per block row (`PlaceSpec`, `PlaceSize`, `PlaceAfter`) |
| Spreadsheet.PlaceSpec | ecommerce/src/main/java/com/multithread/task/ecommerceV01/ProcessingCustomerRecords.java:215-217 | writing a block of rows from index `start` puts block row `i` at `start + i` and leaves every other row as it was |
| Spreadsheet.PlaceSize | ecommerce/src/main/java/com/multithread/task/ecommerceV01/ProcessingCustomerRecords.java:215-217 | a block written below all existing rows adds exactly as many rows as it has |
| Spreadsheet.PlaceAfter | ecommerce/src/main/java/com/multithread/task/ecommerceV01/ProcessingCustomerRecords.java:236-239 | a block written below all existing rows keeps every earlier row and adds its own, and there are no other rows |
| Spreadsheet.Sheet.constructor | ecommerce/src/main/java/com/multithread/task/ecommerceV01/ProcessingCustomerRecords.java:212 | a newly created sheet has its name and no rows |
| Spreadsheet.Sheet.CreateRow | ecommerce/src/main/java/com/multithread/task/ecommerceV01/ProcessingCustomerRecords.java:262-268 | `createDataRow`/`createHeaderRow` replace the row at the index by the given cells and change no other row |
| CustomerDetails.StripArticles | ecommerce/src/main/java/com/multithread/task/ecommerceV01/CustomerDetailsFiles.java:36 | `replaceAll("(a pair of \|a )", "")`: scanning left to right, `"a pair of "` is deleted where it starts, otherwise `"a "`, otherwise one character is kept (`StripArticlesDeletes`, `StripKeepsPrefix`) |
| CustomerDetails.BuildRow | ecommerce/src/main/java/com/multithread/task/ecommerceV01/CustomerDetailsFiles.java:26-50 | the 11-field row built from one match, or the `NumberFormatException` when the quantity, price or total does not parse (`BuildRowLayout`) |
| CustomerDetails.ProcessLine | ecommerce/src/main/java/com/multithread/task/ecommerceV01/CustomerDetailsFiles.java:23-53 | one line read: no match adds nothing, a match whose numbers do not parse stops the run, any other match appends its row |
| CustomerDetails.Extract | ecommerce/src/main/java/com/multithread/task/ecommerceV01/CustomerDetailsFiles.java:20-60 | the rows a whole run appends and whether it stopped early, line by line (`ExtractConcat`, `ExtractCount`, `ExtractRowShape`) |
| CustomerDetails.StripArticlesDeletes | ecommerce/src/main/java/com/multithread/task/ecommerceV01/CustomerDetailsFiles.java:36 | the wishlist rewrite only deletes: the result is a subsequence of the input, never longer, and shorter by an even number of characters |
| CustomerDetails.StripArticlesNoArticle | ecommerce/src/main/java/com/multithread/task/ecommerceV01/CustomerDetailsFiles.java:36 | text in which `"a "` does not occur is left unchanged |
| CustomerDetails.StripPairArticle | ecommerce/src/main/java/com/multithread/task/ecommerceV01/CustomerDetailsFiles.java:36 | a leading `"a pair of "` is deleted as a whole |
| CustomerDetails.StripArticle | ecommerce/src/main/java/com/multithread/task/ecommerceV01/CustomerDetailsFiles.java:36 | a leading `"a "` that does not begin `"a pair of "` is deleted |
| CustomerDetails.StripKeepsPrefix | ecommerce/src/main/java/com/multithread/task/ecommerceV01/CustomerDetailsFiles.java:36 | a prefix at none of whose positions `"a "` starts is kept, and the scan goes on after it |
| CustomerDetails.StripSingleItem | ecommerce/src/test/java/com/multithread/task/ecommerce/CustomerDetailsFilesTest.java:65 | `"a smartwatch"` becomes `"smartwatch"` |
| CustomerDetails.StripTwoItems | ecommerce/src/main/java/com/multithread/task/ecommerceV01/CustomerDetailsFiles.java:36 | `"a pair of headphones and a smartphone"` becomes `"headphones and smartphone"`: every quantifier is removed, not only the first |
| CustomerDetails.StripInsideWord | ecommerce/src/main/java/com/multithread/task/ecommerceV01/CustomerDetailsFiles.java:36 | the deletion also applies inside words: `"a camera bag"` becomes `"camerbag"` |
| CustomerDetails.BuildRowLayout | ecommerce/src/main/java/com/multithread/task/ecommerceV01/CustomerDetailsFiles.java:26-50 | a row is built exactly when the quantity, price and total parse. It then has 11 fields: folder and file from the path, groups 1 to 3, the quantity `String.valueOf(parseInt(group 4))` (it reads back as that number and has no `+` sign or leading zeros), the rendered price and total, groups 9 and 10, and the stripped group 11 |
| CustomerDetails.ExtractRowShape | ecommerce/src/main/java/com/multithread/task/ecommerceV01/CustomerDetailsFiles.java:38-50 | every appended row has 11 fields, takes its folder and file name from the path, and has a quantity field that parses |
| CustomerDetails.ExtractCount | ecommerce/src/main/java/com/multithread/task/ecommerceV01/CustomerDetailsFiles.java:23-25 | a run that is not aborted appends exactly one row per matching line; an aborted run appends fewer |
| CustomerDetails.ExtractSkipsNonMatching | ecommerce/src/main/java/com/multithread/task/ecommerceV01/CustomerDetailsFiles.java:24-25 | a line the pattern does not match contributes nothing, wherever it stands |
| CustomerDetails.ExtractConcat | ecommerce/src/main/java/com/multithread/task/ecommerceV01/CustomerDetailsFiles.java:23-55 | lines are handled one after another: the rows for `first + second` are those for `first`, followed by those for `second` unless the run stopped inside `first` |
| CustomerDetails.ProcessLineFollowed | ecommerce/src/main/java/com/multithread/task/ecommerceV01/CustomerDetailsFiles.java:24-53 | handling one line in front commutes with appending the rows of later lines |
| CustomerDetails.ExtractTestLine | ecommerce/src/test/java/com/multithread/task/ecommerce/CustomerDetailsFilesTest.java:53-65 | the test sentence about Alice's laptop gives exactly one row: `[folder, file, "Alice", "laptop", "L123", "1", "999.99", "999.99", "2024-07-10", "delivered", "smartwatch"]` |
| CustomerDetails.RecordList.constructor | ecommerce/src/main/java/com/multithread/task/ecommerceV01/ProcessingCustomerRecords.java:43 | the shared list starts empty |
| CustomerDetails.RecordList.Add | ecommerce/src/main/java/com/multithread/task/ecommerceV01/CustomerDetailsFiles.java:51-53 | an append adds the row at the end and keeps the rows already there |
| CustomerDetails.CustomerDetailsFiles.constructor | ecommerce/src/main/java/com/multithread/task/ecommerceV01/CustomerDetailsFiles.java:13-17 | the worker keeps its file, its pattern and the shared list |
| CustomerDetails.CustomerDetailsFiles.Run | ecommerce/src/main/java/com/multithread/task/ecommerceV01/CustomerDetailsFiles.java:20-60 | the list gains exactly the rows `Extract` gives for the lines read, after the rows already there. The run reports a number error if a row could not be built, otherwise a read error if reading failed, otherwise success |
| Aggregation.StatusOf | ecommerce/src/main/java/com/multithread/task/ecommerceV01/ProcessingCustomerRecords.java:126 | the `switch` on `deliveryStatus.toLowerCase()`: the three status words in any ASCII case, anything else unrecognised (`ExampleStatuses`) |
| Aggregation.ProductStep | ecommerce/src/main/java/com/multithread/task/ecommerceV01/ProcessingCustomerRecords.java:123 | `productCounts.put(product, getOrDefault(product, 0) + quantity)` (`StepProducts`) |
| Aggregation.StatusStep | ecommerce/src/main/java/com/multithread/task/ecommerceV01/ProcessingCustomerRecords.java:126-139 | the status switch: one counter incremented and one per-status map merged with the quantity (`StepStatus`) |
| Aggregation.WishlistStep | ecommerce/src/main/java/com/multithread/task/ecommerceV01/ProcessingCustomerRecords.java:142-148 | a non-empty wishlist is split on `", "`; the total grows by the number of pieces and each piece is counted (`StepWishlist`) |
| Aggregation.Step | ecommerce/src/main/java/com/multithread/task/ecommerceV01/ProcessingCustomerRecords.java:119-148 | one row's effect on the nine static counters and maps (`StepFields`, `StepCommutes`) |
| Aggregation.Apply | ecommerce/src/main/java/com/multithread/task/ecommerceV01/ProcessingCustomerRecords.java:110-149 | the summary loop over usable rows, in list order (`ApplySnoc`, `ApplyProductSum`, `ApplyStatusTotal`, `ApplyWishlistBalance`, `ApplyPermutation`) |
| Aggregation.ParseRow | ecommerce/src/main/java/com/multithread/task/ecommerceV01/ProcessingCustomerRecords.java:110-116 | the fields the summary reads: a row is usable exactly when it has at least 11 fields and field 5 parses as an int; anything else is the exception that ends the pass. Its properties are `ParsedCount`, `BuiltRowReadBack` and `CollectedParse` |
| Aggregation.BuiltRowReadBack | ecommerce/src/main/java/com/multithread/task/ecommerceV01/ProcessingCustomerRecords.java:110-116 | the summary reads back what the worker wrote: a row built from a match parses to a record with the match's folder, file, product, quantity, status and stripped wishlist |
| Aggregation.ParsedCount | ecommerce/src/main/java/com/multithread/task/ecommerceV01/ProcessingCustomerRecords.java:110-114 | the summary pass gets through exactly the rows before the first unusable one |
| Aggregation.Records | ecommerce/src/main/java/com/multithread/task/ecommerceV01/ProcessingCustomerRecords.java:110-116 | usable rows give one record each |
| Aggregation.RecognisedCount | ecommerce/src/main/java/com/multithread/task/ecommerceV01/ProcessingCustomerRecords.java:126-139 | the number of records with one of the three known statuses never exceeds the number of records |
| Aggregation.StepFields | ecommerce/src/main/java/com/multithread/task/ecommerceV01/ProcessingCustomerRecords.java:113-148 | one row's effect on all nine counters and maps at once: product count plus quantity, one status counter and map, and the wishlist pieces |
| Aggregation.StepProducts | ecommerce/src/main/java/com/multithread/task/ecommerceV01/ProcessingCustomerRecords.java:123 | a row raises its product's count by its quantity and changes no other product |
| Aggregation.StepStatus | ecommerce/src/main/java/com/multithread/task/ecommerceV01/ProcessingCustomerRecords.java:126-139 | `"delivered"`, `"cancelled"` and `"shipped"`, in any letter case, raise exactly the matching counter by 1 and the matching product map by the quantity. Any other status changes none of the three counters or maps |
| Aggregation.StepWishlist | ecommerce/src/main/java/com/multithread/task/ecommerceV01/ProcessingCustomerRecords.java:142-148 | a wishlist is split on `", "`. Each piece adds 1 to its own count, and the wishlist total grows by the number of pieces. An empty wishlist changes neither |
| Aggregation.ApplyProductSum | ecommerce/src/main/java/com/multithread/task/ecommerceV01/ProcessingCustomerRecords.java:123 | over any rows, the sum of the product counts grows by the sum of the quantities |
| Aggregation.ApplyStatusTotal | ecommerce/src/main/java/com/multithread/task/ecommerceV01/ProcessingCustomerRecords.java:126-139 | `delivered + cancelled + shipped` grows by the number of rows with a known status, so by at most the number of rows |
| Aggregation.ApplyWishlistBalance | ecommerce/src/main/java/com/multithread/task/ecommerceV01/ProcessingCustomerRecords.java:142-148 | the wishlist total grows by the number of pieces, and always moves in step with the sum of the wishlist counts |
| Aggregation.ApplyStatusWithinProducts | ecommerce/src/main/java/com/multithread/task/ecommerceV01/ProcessingCustomerRecords.java:123-139 | with non-negative quantities, a product's delivered + cancelled + shipped never exceeds its product count, if that held before |
| Aggregation.StepCommutes | ecommerce/src/main/java/com/multithread/task/ecommerceV01/ProcessingCustomerRecords.java:110-149 | two rows leave the same counters and maps in either order |
| Aggregation.ApplySnoc | ecommerce/src/main/java/com/multithread/task/ecommerceV01/ProcessingCustomerRecords.java:110 | the rows are handled one after another, in list order |
| Aggregation.ApplyPermutation | ecommerce/src/main/java/com/multithread/task/ecommerceV01/ProcessingCustomerRecords.java:110-149 | the final counters and maps depend only on the multiset of rows, not on their order |
| Aggregation.ExampleStatuses | ecommerce/src/main/java/com/multithread/task/ecommerceV01/ProcessingCustomerRecords.java:126-137 | `"delivered"` and `"shipped"` are recognised as those statuses |
| Aggregation.DeliveredShippedDelivered | ecommerce/src/test/java/com/multithread/task/ecommerce/ProcessingCustomerRecordsTest.java:105-121 | any delivered/shipped/delivered rows of two different delivered products, starting from empty, give delivered 2, shipped 1 and cancelled 0, with the per-status maps holding their quantities |
| Aggregation.ThreeRowExample | ecommerce/src/test/java/com/multithread/task/ecommerce/ProcessingCustomerRecordsTest.java:105-121 | the test's laptop 1 / tablet 2 / smartphone 3 rows give delivered 2, shipped 1, cancelled 0, the delivered map `{laptop: 1, smartphone: 3}` and the shipped map `{tablet: 2}` |
| Processing.ThreadCount | ecommerce/src/main/java/com/multithread/task/ecommerceV01/ProcessingCustomerRecords.java:56 | `(int) Math.ceil((double) folders / folderCount)`, with the casts of NaN and infinity written out (`ThreadCountCeiling`, `ThreadCountPositive`) |
| Processing.IsTextFile | ecommerce/src/main/java/com/multithread/task/ecommerceV01/ProcessingCustomerRecords.java:62 | `name.toLowerCase().endsWith(".txt")` (`TextFileExamples`) |
| Processing.Tasks | ecommerce/src/main/java/com/multithread/task/ecommerceV01/ProcessingCustomerRecords.java:61-67 | one `CustomerDetailsFiles` task per `.txt` file of each listable folder, folder by folder (`TasksContents`, `TasksCount`) |
| Processing.Collected | ecommerce/src/main/java/com/multithread/task/ecommerceV01/ProcessingCustomerRecords.java:61-78 | the rows the tasks append to the shared list, task after task (`RunTasks`, `CollectedParse`) |
| Processing.ProductRow | ecommerce/src/main/java/com/multithread/task/ecommerceV01/ProcessingCustomerRecords.java:273-278 | the product summary row `[name, d, c, s, d + c + s]` (`ProductRowReadBack`) |
| Processing.WishlistRow | ecommerce/src/main/java/com/multithread/task/ecommerceV01/ProcessingCustomerRecords.java:286-287 | the wishlist summary row `[name, count]` (`WishlistRowReadBack`) |
| Processing.ThreadCountCeiling | ecommerce/src/main/java/com/multithread/task/ecommerceV01/ProcessingCustomerRecords.java:56 | for a positive `folderCount` the worker count is the least `t` with `t * folderCount >= folders` |
| Processing.ThreadCountPositive | ecommerce/src/main/java/com/multithread/task/ecommerceV01/ProcessingCustomerRecords.java:56-57 | the pool can be created (the count is positive) exactly when there is at least one folder and `folderCount >= 0`. Nothing clamps the count, so zero folders gives 0 |
| Processing.ThreadCountExample | ecommerce/src/main/java/com/multithread/task/ecommerceV01/ProcessingCustomerRecords.java:56 | 5 folders in groups of 2 need 3 workers, 4 need 2, and 0 need 0 |
| Processing.TextFiles | ecommerce/src/main/java/com/multithread/task/ecommerceV01/ProcessingCustomerRecords.java:62 | only names whose lower-cased form ends in `.txt` are kept |
| Processing.TextFilesCount | ecommerce/src/main/java/com/multithread/task/ecommerceV01/ProcessingCustomerRecords.java:62 | every text file is kept as often as it is listed, and no other file is kept |
| Processing.TextFileExamples | ecommerce/src/main/java/com/multithread/task/ecommerceV01/ProcessingCustomerRecords.java:62 | `a.TXT` and `b.txt` are text files and `c.csv` is not |
| Processing.TextFilesMember | ecommerce/src/main/java/com/multithread/task/ecommerceV01/ProcessingCustomerRecords.java:62 | a name is kept exactly when it is listed and its lower-cased form ends in `.txt` |
| Processing.TasksContents | ecommerce/src/main/java/com/multithread/task/ecommerceV01/ProcessingCustomerRecords.java:61-67 | a task names the file `(folder, file)` exactly when some listable folder of that name lists `file` and `file` is a `.txt` name |
| Processing.TasksCount | ecommerce/src/main/java/com/multithread/task/ecommerceV01/ProcessingCustomerRecords.java:61-67 | there are as many tasks as `.txt` files in listable folders, so a file listed twice gets two tasks |
| Processing.CollectedParse | ecommerce/src/main/java/com/multithread/task/ecommerceV01/ProcessingCustomerRecords.java:110-116 | every row the workers produce is usable by the summary pass, so on the program's own data the pass never stops early |
| Processing.EnumerationSize | ecommerce/src/main/java/com/multithread/task/ecommerceV01/ProcessingCustomerRecords.java:272 | visiting a key set once per key takes exactly as many steps as there are keys |
| Processing.ProductRowReadBack | ecommerce/src/main/java/com/multithread/task/ecommerceV01/ProcessingCustomerRecords.java:273-278 | a product row is `[name, d, c, s, d + c + s]`, with missing per-status entries read as 0. The total column is the status sum, not the product count |
| Processing.ProductRowWithinProducts | ecommerce/src/main/java/com/multithread/task/ecommerceV01/ProcessingCustomerRecords.java:276 | while the status counts stay within the product counts, the total column never exceeds the product's count |
| Processing.WishlistRowReadBack | ecommerce/src/main/java/com/multithread/task/ecommerceV01/ProcessingCustomerRecords.java:286-287 | a wishlist row is `[name, count]`, and the count reads back as the product's wishlist count |
| Processing.DetailSheetLayout | ecommerce/src/main/java/com/multithread/task/ecommerceV01/ProcessingCustomerRecords.java:213-217 | the detail sheet has the 11-column header at row 0 and record `i` at row `i + 1`, so n + 1 rows in all |
| Processing.SummaryCountsRow | ecommerce/src/main/java/com/multithread/task/ecommerceV01/ProcessingCustomerRecords.java:224-229 | row 3 of the summary sheet reads back as `[totalCount, delivered, cancelled, shipped]` |
| Processing.SummarySheetLayout | ecommerce/src/main/java/com/multithread/task/ecommerceV01/ProcessingCustomerRecords.java:219-239 | the summary sheet holds its five head rows as written, then the product rows from row 9, and nothing else: 5 + (number of products) rows |
| Processing.SummaryProductRows | ecommerce/src/main/java/com/multithread/task/ecommerceV01/ProcessingCustomerRecords.java:239 | row `9 + i` of the summary sheet is the product row of the `i`-th product visited |
| Processing.WishlistSheetLayout | ecommerce/src/main/java/com/multithread/task/ecommerceV01/ProcessingCustomerRecords.java:242-244 | the wishlist sheet has its header at row 0, then one row per wishlist product from row 1 |
| Processing.SumCounts | ecommerce/src/main/java/com/multithread/task/ecommerceV01/ProcessingCustomerRecords.java:152 | the stream sum of a map's values equals the sum of its values |
| Processing.CountTotal | ecommerce/src/main/java/com/multithread/task/ecommerceV01/ProcessingCustomerRecords.java:156-168 | the counts made from a list of names add up to the length of the list |
| Processing.ProcessingCustomerRecords.constructor | ecommerce/src/main/java/com/multithread/task/ecommerceV01/ProcessingCustomerRecords.java:13-26 | all static maps start empty and all counters at 0 |
| Processing.ProcessingCustomerRecords.CountWishlistItems | ecommerce/src/main/java/com/multithread/task/ecommerceV01/ProcessingCustomerRecords.java:144-147 | each wishlist piece adds 1 to its count and the wishlist total grows by the number of pieces. No other counter changes |
| Processing.ProcessingCustomerRecords.CountRow | ecommerce/src/main/java/com/multithread/task/ecommerceV01/ProcessingCustomerRecords.java:123-148 | the static state after one row is `Step` of the state before |
| Processing.ProcessingCustomerRecords.CountStatus | ecommerce/src/main/java/com/multithread/task/ecommerceV01/ProcessingCustomerRecords.java:126-139 | the status switch has exactly the effect of `StatusStep` |
| Processing.ProcessingCustomerRecords.CountWishlist | ecommerce/src/main/java/com/multithread/task/ecommerceV01/ProcessingCustomerRecords.java:142-148 | the wishlist branch has exactly the effect of `WishlistStep` |
| Processing.ProcessingCustomerRecords.CountRows | ecommerce/src/main/java/com/multithread/task/ecommerceV01/ProcessingCustomerRecords.java:110-149 | the row loop stops at the first unusable row. The state is `Apply` over the rows before it, and the folder and file maps count those rows |
| Processing.ProcessingCustomerRecords.AddTotals | ecommerce/src/main/java/com/multithread/task/ecommerceV01/ProcessingCustomerRecords.java:152-192 | `totalProductCount` becomes the sum of the product counts. `totalCount[0]` and `totalProduct[0]` grow by the folder-count sum and the product-count sum, and the file total is the file-count sum |
| Processing.ProcessingCustomerRecords.PrintCustomerCountSummary | ecommerce/src/main/java/com/multithread/task/ecommerceV01/ProcessingCustomerRecords.java:103-207 | the pass completes exactly when every row is usable. Then `totalCount[0]` and the file total grow by the number of rows, and `totalProductCount` is the sum of the product counts, which grew by the sum of the quantities. Otherwise the totals are untouched |
| Processing.ProcessingCustomerRecords.CreateProductSummaryRows | ecommerce/src/main/java/com/multithread/task/ecommerceV01/ProcessingCustomerRecords.java:270-281 | one product row per key of `productCounts`, in some enumeration of the keys, at consecutive rows from the start index; no other row changes |
| Processing.ProcessingCustomerRecords.CreateWishlistSummaryRows | ecommerce/src/main/java/com/multithread/task/ecommerceV01/ProcessingCustomerRecords.java:283-292 | one `[name, count]` row per wishlist key, at consecutive rows from row 1; no other row changes |
| Processing.ProcessingCustomerRecords.SaveToExcel | ecommerce/src/main/java/com/multithread/task/ecommerceV01/ProcessingCustomerRecords.java:209-244 | three new sheets with the source's names: the detail rows, the summary head with its product rows from row 9, and the wishlist rows |
| Processing.RunTasks | ecommerce/src/main/java/com/multithread/task/ecommerceV01/ProcessingCustomerRecords.java:61-78 | running one worker per file on one shared list leaves every file's rows, in task order |
| Processing.ProcessingCustomerRecords.Process | ecommerce/src/main/java/com/multithread/task/ecommerceV01/ProcessingCustomerRecords.java:28-101 | with no folder listing, or a worker count that is not positive, nothing happens and there is no report. Otherwise the collected rows all pass the summary: the state is `Apply` over every row, `totalCount[0]` grows by the number of rows, `totalProductCount` is the product-count sum and `totalProduct[0]` grows by it. The report holds the detail sheet with every row, the summary sheet with its head and one product row per product key, and the wishlist sheet with one row per wishlist key |

## Left out

- Threads: the executor, its pool size, `shutdown`/`awaitTermination` and the
  `synchronized` append. The tasks run one after another on one list, in
  listing order (`Processing.RunTasks`). With real threads, the rows of
  different files can interleave in any order.
- Processing.ProcessingCustomerRecords.Process: the summary and report do not
  depend on the interleaving only for the counters and maps
  (`Aggregation.ApplyPermutation`). The detail sheet's row order is stated for
  the sequential order only.
- The regex engine: a match is the parameter `Pattern`, an optional tuple of the
  groups the code reads. The `java.util.regex` semantics of the purchase pattern
  are not modelled.
- Floating point: `Double.parseDouble` and `String.valueOf(double)` for price
  and total are the parameter `DecimalText`, from text to optional text.
- Apache POI and the file write: a sheet is a map from row index to cells. The
  cell objects, the `.xlsx` format, the output file and its `IOException` are
  not modelled.
- The configuration file (`readConfigSettings`, `ConfigSettings`), the directory
  listing and file reading are inputs. These are the folder listing, the
  `folderCount` value and the file contents.
- Console output, `formatTime` and the clock are not modelled. Neither are the
  wishlist loop at lines 197-201 (its body does nothing), the unused
  `wishListCount` and the commented-out `saveToCSV`.
- Map iteration order: `ConcurrentHashMap` iterates in hash order. The row
  writers return the order they used, which is proved to be an enumeration of
  the key set. The tests that depend on static state left by other tests are
  not used as contracts.
- Aggregation.Step: the counters and map values are unbounded integers. Java's
  32-bit `int` wrap-around on overflow of a count or a sum is not modelled.
- Processing.ProductRowReadBack: the read-back of the total column assumes
  `d + c + s` fits in an `int`. With Java's wrap-around the written total would
  be negative.
- JavaText.ToLower: lower-casing is ASCII only, which assumes a default
  locale that lower-cases `A`-`Z` as ASCII does. `toLowerCase()` at
  `ProcessingCustomerRecords.java:126` uses the default locale. Under a Turkish
  locale `"DELIVERED"` and `"SHIPPED"` lower-case to a dotless `ı` and are not
  counted, which the model does not reproduce. Non-ASCII letters are not
  modelled either.
- JavaText.ParseInt: accepts ASCII digits only. Java also accepts other Unicode
  decimal digits, which the purchase pattern's `\d` does not produce.
- Processing.ThreadCount: `Math.ceil` on doubles is modelled as integer
  arithmetic. `folderCount == 0` gives 0 workers for no folders and the
  largest `int` otherwise; a negative `folderCount` gives a count that is not
  positive.
- Exceptions that end a run are early stops that keep every earlier effect. The
  stack trace and error messages are not modelled.
- Aggregation.ParseRow: `null` fields are not modelled. A `null` wishlist is
  skipped at line 142, a `null` product throws before any static update, and a
  `null` status throws after the product count has been updated (lines 123
  and 126). The rows this program builds never hold `null`, because every
  field comes from a regex group that takes part in every match, or from
  `String.valueOf`.
- Spreadsheet row limits of the `.xlsx` format are not modelled.
