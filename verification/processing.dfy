/**
 * The driver of the report: the worker-count formula, the ".txt" filter,
 * the summary pass over the collected rows (updating the shared counters
 * in place), and the three sheets of the workbook.
 */
module Processing {
  import opened Options
  import opened JavaText
  import opened Counts
  import opened Spreadsheet
  import opened Aggregation
  import CustomerDetails

  // ---------------------------------------------------------------------
  // Dispatch
  // ---------------------------------------------------------------------

  /**
   * `(int) Math.ceil((double) folders / folderCount)`. For a positive
   * `folderCount` the double quotient is close enough to the exact one that
   * the ceiling is the integer ceiling; `0 / 0` is NaN, which casts to 0;
   * a positive number over 0 is infinity, which casts to `Integer.MAX_VALUE`;
   * a negative `folderCount` gives the ceiling of a non-positive quotient.
   */
  function ThreadCount(folders: nat, folderCount: int): int {
    if folderCount > 0 then (folders + folderCount - 1) / folderCount
    else if folderCount == 0 then (if folders == 0 then 0 else IntMax)
    else -(folders / -folderCount)
  }

  /** For a positive `folderCount` the worker count is the least `t` with `t * folderCount >= folders`. */
  lemma ThreadCountCeiling(folders: nat, folderCount: int)
    requires folderCount > 0
    ensures var t := ThreadCount(folders, folderCount);
      t >= 0 && t * folderCount >= folders && (t - 1) * folderCount < folders
  {
    var t := ThreadCount(folders, folderCount);
    var r := (folders + folderCount - 1) % folderCount;
    assert folders + folderCount - 1 == t * folderCount + r;
    assert (t - 1) * folderCount == t * folderCount - folderCount;
  }

  /**
   * The pool can be created (its size is positive) exactly when there is
   * at least one folder and `folderCount` is not negative; in particular an
   * empty directory gives 0 and no clamp to 1 is applied.
   */
  lemma ThreadCountPositive(folders: nat, folderCount: int)
    ensures ThreadCount(folders, folderCount) > 0 <==> folders > 0 && folderCount >= 0
  {
    if folderCount > 0 {
      ThreadCountCeiling(folders, folderCount);
    } else if folderCount < 0 {
      assert folders / -folderCount >= 0;
    }
  }

  /** Five folders, two per worker: three workers. */
  lemma ThreadCountExample()
    ensures ThreadCount(5, 2) == 3 && ThreadCount(4, 2) == 2 && ThreadCount(0, 2) == 0
  {
  }

  /** The file-name filter: the lower-cased name ends in ".txt". */
  predicate IsTextFile(name: string) {
    EndsWith(ToLower(name), ".txt")
  }

  /** The names that pass the filter, in listing order. */
  function TextFiles(names: seq<string>): (r: seq<string>)
    ensures forall i :: 0 <= i < |r| ==> IsTextFile(r[i])
    decreases |names|
  {
    if names == [] then []
    else (if IsTextFile(names[0]) then [names[0]] else []) + TextFiles(names[1..])
  }

  /** Every ".txt" name is kept exactly as often as it is listed, and every other name is dropped. */
  lemma {:induction false} TextFilesCount(names: seq<string>)
    ensures forall f :: multiset(TextFiles(names))[f] == if IsTextFile(f) then multiset(names)[f] else 0
    decreases |names|
  {
    if names != [] {
      TextFilesCount(names[1..]);
      assert names == [names[0]] + names[1..];
    }
  }

  /** The test of the filter is case-insensitive and needs the whole suffix. */
  lemma TextFileExamples()
    ensures IsTextFile("a.TXT") && IsTextFile("b.txt") && !IsTextFile("c.csv")
  {
    assert ToLower("a.TXT") == "a.txt";
    assert ToLower("b.txt") == "b.txt";
    assert ToLower("c.csv") == "c.csv";
  }

  /** A sub-directory of the input directory: its name and its file listing (`None` when it cannot be listed). */
  datatype Folder = Folder(name: string, entries: Option<seq<string>>)

  /** One task per ".txt" file of each listable folder, folder by folder. */
  function Tasks(folders: seq<Folder>): seq<CustomerDetails.FileRef>
    decreases |folders|
  {
    if folders == [] then []
    else
      var f := folders[|folders| - 1];
      var files := if f.entries.Some? then TextFiles(f.entries.value) else [];
      Tasks(folders[..|folders| - 1]) + seq(|files|, i requires 0 <= i < |files| => CustomerDetails.FileRef(f.name, files[i]))
  }

  /** The number of tasks is the number of ".txt" files in listable folders. */
  lemma {:induction false} TasksCount(folders: seq<Folder>)
    ensures |Tasks(folders)| == TextFileCount(folders)
    decreases |folders|
  {
    if folders != [] {
      TasksCount(folders[..|folders| - 1]);
    }
  }

  /** A name passes the filter exactly when it is listed and is a ".txt" name. */
  lemma TextFilesMember(names: seq<string>, x: string)
    ensures x in TextFiles(names) <==> x in names && IsTextFile(x)
  {
    TextFilesCount(names);
    assert x in TextFiles(names) <==> multiset(TextFiles(names))[x] > 0;
    assert x in names <==> multiset(names)[x] > 0;
  }

  /** The folder can be listed, and `t` names one of its ".txt" files. */
  predicate ListsTextFile(f: Folder, t: CustomerDetails.FileRef) {
    f.entries.Some? && t.folder == f.name && t.name in f.entries.value && IsTextFile(t.name)
  }

  /**
   * The tasks name exactly the ".txt" files of the listable folders: a task
   * exists for a file precisely when some folder lists it under that folder's name.
   */
  lemma {:induction false} TasksContents(folders: seq<Folder>, t: CustomerDetails.FileRef)
    ensures t in Tasks(folders) <==> exists i :: 0 <= i < |folders| && ListsTextFile(folders[i], t)
    decreases |folders|
  {
    if folders != [] {
      var init, f := folders[..|folders| - 1], folders[|folders| - 1];
      TasksContents(init, t);
      var files := if f.entries.Some? then TextFiles(f.entries.value) else [];
      var block := seq(|files|, i requires 0 <= i < |files| => CustomerDetails.FileRef(f.name, files[i]));
      assert Tasks(folders) == Tasks(init) + block;
      assert t in block <==> t.folder == f.name && t.name in files by {
        if t in block {
          var i :| 0 <= i < |block| && block[i] == t;
        }
        if t.folder == f.name && t.name in files {
          var i :| 0 <= i < |files| && files[i] == t.name;
          assert block[i] == t;
        }
      }
      if f.entries.Some? {
        TextFilesMember(f.entries.value, t.name);
      }
      if exists i :: 0 <= i < |folders| && ListsTextFile(folders[i], t) {
        var i :| 0 <= i < |folders| && ListsTextFile(folders[i], t);
        if i < |init| {
          assert init[i] == folders[i];
        }
      }
      if exists i :: 0 <= i < |init| && ListsTextFile(init[i], t) {
        var i :| 0 <= i < |init| && ListsTextFile(init[i], t);
        assert folders[i] == init[i];
      }
    }
  }

  /** The number of ".txt" files in listable folders. */
  function TextFileCount(folders: seq<Folder>): nat
    decreases |folders|
  {
    if folders == [] then 0
    else
      var f := folders[|folders| - 1];
      TextFileCount(folders[..|folders| - 1]) + (if f.entries.Some? then |TextFiles(f.entries.value)| else 0)
  }

  /** The rows the tasks append, one task after the other. */
  function Collected(tasks: seq<CustomerDetails.FileRef>, contents: CustomerDetails.FileRef -> CustomerDetails.FileText,
                     pattern: CustomerDetails.Pattern, decimal: CustomerDetails.DecimalText): seq<seq<string>>
    decreases |tasks|
  {
    if tasks == [] then []
    else
      var t := tasks[|tasks| - 1];
      Collected(tasks[..|tasks| - 1], contents, pattern, decimal)
        + CustomerDetails.Extract(t, contents(t).lines, pattern, decimal).rows
  }

  /** Every collected row parses, so the summary pass never stops early on them. */
  lemma {:induction false} CollectedParse(tasks: seq<CustomerDetails.FileRef>, contents: CustomerDetails.FileRef -> CustomerDetails.FileText,
                                          pattern: CustomerDetails.Pattern, decimal: CustomerDetails.DecimalText)
    ensures AllParse(Collected(tasks, contents, pattern, decimal))
    ensures ParsedCount(Collected(tasks, contents, pattern, decimal)) == |Collected(tasks, contents, pattern, decimal)|
    decreases |tasks|
  {
    if tasks != [] {
      var t := tasks[|tasks| - 1];
      var before := Collected(tasks[..|tasks| - 1], contents, pattern, decimal);
      var rows := CustomerDetails.Extract(t, contents(t).lines, pattern, decimal).rows;
      CollectedParse(tasks[..|tasks| - 1], contents, pattern, decimal);
      CustomerDetails.ExtractRowShape(t, contents(t).lines, pattern, decimal);
      forall i | 0 <= i < |before + rows|
        ensures ParseRow((before + rows)[i]).Some?
      {
        if i >= |before| {
          assert (before + rows)[i] == rows[i - |before|];
          assert rows[i - |before|] in rows;
        }
      }
    }
    var all := Collected(tasks, contents, pattern, decimal);
    assert all[..|all|] == all;
    PrefixParsed(all, |all|);
  }

  // ---------------------------------------------------------------------
  // The report rows
  // ---------------------------------------------------------------------

  /** Header of the detail sheet. */
  const DetailHeader: seq<string> := ["Folder", "File", "Customer Name", "Product Name", "Product ID",
    "Quantity", "Price", "Total", "Purchased Date", "Delivery Status", "Wishlist Items"]

  /** Headers of the summary sheet. */
  const CustomerSummaryTitle: seq<string> := ["Customer Summary"]
  const CustomerSummaryHeader: seq<string> := ["Total Customers", "Delivered Count", "Cancelled Count", "Shipped Count"]
  const ProductSummaryTitle: seq<string> := ["Product Summary"]
  const ProductSummaryHeader: seq<string> := ["Product Name", "Delivered Count", "Cancelled Count", "Shipped Count", "Total Count"]

  /** Header of the wishlist sheet. */
  const WishlistHeader: seq<string> := ["Product Name", "Wishlist Count"]

  /** Row index of the first product row of the summary sheet. */
  const ProductRowsStart: nat := 9

  /** The row of the product summary for one product; missing per-status entries read as 0. */
  function ProductRow(s: Store, name: string): seq<string> {
    var d := Get(s.deliveredProductCounts, name);
    var c := Get(s.cancelledProductCounts, name);
    var sh := Get(s.shippedProductCounts, name);
    [name, IntToString(d), IntToString(c), IntToString(sh), IntToString(d + c + sh)]
  }

  /** The product rows for the products in `order`. */
  function ProductRows(s: Store, order: seq<string>): seq<seq<string>> {
    seq(|order|, i requires 0 <= i < |order| => ProductRow(s, order[i]))
  }

  /** One more product adds its row at the end. */
  lemma ProductRowsSnoc(s: Store, order: seq<string>, name: string)
    ensures ProductRows(s, order + [name]) == ProductRows(s, order) + [ProductRow(s, name)]
  {
  }

  /** The row of the wishlist summary for one item. */
  function WishlistRow(s: Store, name: string): seq<string> {
    [name, IntToString(Get(s.wishlistProductCounts, name))]
  }

  /** The wishlist rows for the items in `order`. */
  function WishlistRows(s: Store, order: seq<string>): seq<seq<string>> {
    seq(|order|, i requires 0 <= i < |order| => WishlistRow(s, order[i]))
  }

  /** One more item adds its row at the end. */
  lemma WishlistRowsSnoc(s: Store, order: seq<string>, name: string)
    ensures WishlistRows(s, order + [name]) == WishlistRows(s, order) + [WishlistRow(s, name)]
  {
  }

  /** The customer count row: the total and the three status counters, as text. */
  function CountsRow(totalCount: int, s: Store): seq<string> {
    [IntToString(totalCount), IntToString(s.deliveredCount), IntToString(s.cancelledCount), IntToString(s.shippedCount)]
  }

  /** The fixed rows of the summary sheet: titles, headers and the customer counts. */
  function SummaryHead(totalCount: int, s: Store): Rows {
    map[0 := CustomerSummaryTitle,
        2 := CustomerSummaryHeader,
        3 := CountsRow(totalCount, s),
        6 := ProductSummaryTitle,
        8 := ProductSummaryHeader]
  }

  /** `order` lists every key of `keys` exactly once. */
  predicate IsEnumeration(order: seq<string>, keys: set<string>) {
    && (forall i :: 0 <= i < |order| ==> order[i] in keys)
    && (forall k :: k in keys ==> k in order)
    && (forall i, j :: 0 <= i < j < |order| ==> order[i] != order[j])
  }

  /**
   * Part way through visiting the keys `all`: `order` lists the keys
   * visited so far, each once, and `remaining` holds the others.
   */
  predicate Visiting(order: seq<string>, remaining: set<string>, all: set<string>) {
    && remaining <= all
    && (forall i :: 0 <= i < |order| ==> order[i] in all && order[i] !in remaining)
    && (forall k :: k in all ==> k in remaining || k in order)
    && (forall i, j :: 0 <= i < j < |order| ==> order[i] != order[j])
  }

  /** Visiting one more key keeps the invariant; with none remaining, the order is an enumeration. */
  lemma VisitNext(order: seq<string>, remaining: set<string>, all: set<string>, k: string)
    requires Visiting(order, remaining, all) && k in remaining
    ensures Visiting(order + [k], remaining - {k}, all)
  {
  }

  /** Nothing visited yet; and all visited gives an enumeration. */
  lemma VisitBounds(order: seq<string>, all: set<string>)
    ensures Visiting([], all, all)
    ensures Visiting(order, {}, all) ==> IsEnumeration(order, all)
  {
  }

  /** An enumeration has as many entries as the set has elements. */
  lemma {:induction false} EnumerationSize(order: seq<string>, keys: set<string>)
    requires IsEnumeration(order, keys)
    ensures |order| == |keys|
    decreases |order|
  {
    if order != [] {
      var last := order[|order| - 1];
      var init := order[..|order| - 1];
      assert IsEnumeration(init, keys - {last}) by {
        forall k | k in keys - {last} ensures k in init {
          var i :| 0 <= i < |order| && order[i] == k;
          assert i < |order| - 1;
          assert init[i] == k;
        }
      }
      EnumerationSize(init, keys - {last});
    }
  }

  /**
   * A product row has five cells: the name and, reading back as numbers,
   * the delivered, cancelled and shipped quantities and their sum; the last
   * cell is the sum of the three status cells, and it never exceeds the
   * product's count when the per-status counts stay within it.
   */
  lemma ProductRowReadBack(s: Store, name: string)
    requires var d, c, sh := Get(s.deliveredProductCounts, name), Get(s.cancelledProductCounts, name), Get(s.shippedProductCounts, name);
      InIntRange(d) && InIntRange(c) && InIntRange(sh) && InIntRange(d + c + sh)
    ensures var row := ProductRow(s, name);
      && |row| == 5 && row[0] == name
      && ParseInt(row[1]) == Some(Get(s.deliveredProductCounts, name))
      && ParseInt(row[2]) == Some(Get(s.cancelledProductCounts, name))
      && ParseInt(row[3]) == Some(Get(s.shippedProductCounts, name))
      && ParseInt(row[4]) == Some(ParseInt(row[1]).value + ParseInt(row[2]).value + ParseInt(row[3]).value)
  {
    var d, c, sh := Get(s.deliveredProductCounts, name), Get(s.cancelledProductCounts, name), Get(s.shippedProductCounts, name);
    ParseIntRoundTrip(d);
    ParseIntRoundTrip(c);
    ParseIntRoundTrip(sh);
    ParseIntRoundTrip(d + c + sh);
  }

  /** While every status count stays within its product count, so does the row's total column. */
  lemma ProductRowWithinProducts(s: Store, name: string)
    requires var d, c, sh := Get(s.deliveredProductCounts, name), Get(s.cancelledProductCounts, name), Get(s.shippedProductCounts, name);
      InIntRange(d) && InIntRange(c) && InIntRange(sh) && InIntRange(d + c + sh)
    requires StatusWithinProducts(s)
    ensures var total := ParseInt(ProductRow(s, name)[4]);
      total.Some? && total.value <= Get(s.productCounts, name)
  {
    ProductRowReadBack(s, name);
  }

  /** A wishlist row has the item's name and its count, which reads back as a number. */
  lemma WishlistRowReadBack(s: Store, name: string)
    requires InIntRange(Get(s.wishlistProductCounts, name))
    ensures var row := WishlistRow(s, name);
      |row| == 2 && row[0] == name && ParseInt(row[1]) == Some(Get(s.wishlistProductCounts, name))
  {
    ParseIntRoundTrip(Get(s.wishlistProductCounts, name));
  }

  /** The detail sheet: the header at row 0 and record `i` at row `i + 1`, so one row more than there are records. */
  lemma DetailSheetLayout(csvData: seq<seq<string>>)
    ensures var rows := Place(map[0 := DetailHeader], 1, csvData);
      && |rows.Keys| == |csvData| + 1
      && 0 in rows && rows[0] == DetailHeader && |rows[0]| == CustomerDetails.RowWidth
      && (forall i :: 0 <= i < |csvData| ==> i + 1 in rows && rows[i + 1] == csvData[i])
  {
    PlaceSpec(map[0 := DetailHeader], 1, csvData);
    PlaceSize(map[0 := DetailHeader], 1, csvData);
  }

  /** The count row reads back as the four counters. */
  lemma SummaryCountsRow(totalCount: int, s: Store)
    requires InIntRange(totalCount) && InIntRange(s.deliveredCount) && InIntRange(s.cancelledCount) && InIntRange(s.shippedCount)
    ensures var row := CountsRow(totalCount, s);
      && |row| == 4
      && ParseInt(row[0]) == Some(totalCount)
      && ParseInt(row[1]) == Some(s.deliveredCount)
      && ParseInt(row[2]) == Some(s.cancelledCount)
      && ParseInt(row[3]) == Some(s.shippedCount)
  {
    ParseIntRoundTrip(totalCount);
    ParseIntRoundTrip(s.deliveredCount);
    ParseIntRoundTrip(s.cancelledCount);
    ParseIntRoundTrip(s.shippedCount);
  }

  /** A map with the five keys 0, 2, 3, 6 and 8 has exactly those keys, all below row 9. */
  lemma FiveRowKeys(r0: seq<string>, r2: seq<string>, r3: seq<string>, r6: seq<string>, r8: seq<string>)
    ensures var head := map[0 := r0, 2 := r2, 3 := r3, 6 := r6, 8 := r8];
      head.Keys == {0, 2, 3, 6, 8} && |head| == 5 && forall k :: k in head ==> k < 9
  {
  }

  /**
   * The summary sheet: the titles at rows 0 and 6, the headers at rows 2
   * and 8, the counts at row 3 and one row per product from row 9; rows
   * 1, 4, 5 and 7 stay empty.
   */
  lemma SummarySheetLayout(totalCount: int, s: Store, order: seq<string>)
    ensures var head := SummaryHead(totalCount, s);
      var rows := Place(head, ProductRowsStart, ProductRows(s, order));
      && |rows.Keys| == 5 + |order|
      && head.Keys == {0, 2, 3, 6, 8} && head[3] == CountsRow(totalCount, s)
      && (forall k :: k in rows <==> k in head || 9 <= k < 9 + |order|)
      && (forall k :: k in head ==> k in rows && rows[k] == head[k])
  {
    var head := SummaryHead(totalCount, s);
    FiveRowKeys(CustomerSummaryTitle, CustomerSummaryHeader, CountsRow(totalCount, s), ProductSummaryTitle, ProductSummaryHeader);
    var block := ProductRows(s, order);
    assert |block| == |order|;
    PlaceAfter(head, ProductRowsStart, block);
  }

  /** Row 9 + i of the summary sheet is the product row of the i-th product. */
  lemma SummaryProductRows(totalCount: int, s: Store, order: seq<string>)
    ensures var rows := Place(SummaryHead(totalCount, s), ProductRowsStart, ProductRows(s, order));
      forall i :: 0 <= i < |order| ==> 9 + i in rows && rows[9 + i] == ProductRow(s, order[i])
  {
    var block := ProductRows(s, order);
    var rows := Place(SummaryHead(totalCount, s), ProductRowsStart, block);
    PlaceSpec(SummaryHead(totalCount, s), ProductRowsStart, block);
    forall i | 0 <= i < |order|
      ensures 9 + i in rows && rows[9 + i] == ProductRow(s, order[i])
    {
      assert block[i] == ProductRow(s, order[i]);
    }
  }

  lemma WishlistSheetLayout(s: Store, order: seq<string>)
    ensures var rows := Place(map[0 := WishlistHeader], 1, WishlistRows(s, order));
      && |rows.Keys| == 1 + |order|
      && 0 in rows && rows[0] == WishlistHeader
      && (forall i :: 0 <= i < |order| ==> 1 + i in rows && rows[1 + i] == WishlistRow(s, order[i]))
  {
    var block := WishlistRows(s, order);
    assert |block| == |order| && forall i :: 0 <= i < |order| ==> block[i] == WishlistRow(s, order[i]);
    PlaceSpec(map[0 := WishlistHeader], 1, block);
    PlaceSize(map[0 := WishlistHeader], 1, block);
  }

  /** Appending one block row is writing one more row. */
  lemma PlaceSnoc(rows: Rows, start: nat, block: seq<seq<string>>, row: seq<string>)
    ensures Place(rows, start, block + [row]) == Place(rows, start, block)[start + |block| := row]
  {
    assert (block + [row])[..|block|] == block;
  }

  // ---------------------------------------------------------------------
  // Summing counts
  // ---------------------------------------------------------------------

  /** The sum of the values of a count map, one entry at a time (the `forEach` accumulations). */
  method SumCounts(m: CountMap) returns (total: int)
    ensures total == SumValues(m)
  {
    total := 0;
    var rest := m;
    while rest != map[]
      invariant total + SumValues(rest) == SumValues(m)
      decreases |rest|
    {
      var k :| k in rest;
      SumValuesRemove(rest, k);
      total := total + rest[k];
      rest := rest - {k};
    }
  }

  /** Counting one per key gives as many in total as there are keys. */
  lemma CountTotal(keys: seq<string>)
    ensures SumValues(AddEach(map[], keys)) == |keys|
  {
    SumAddEach(map[], keys);
  }

  /** The folder names of the rows. */
  function Folders(recs: seq<Record>): (r: seq<string>)
    ensures |r| == |recs|
  {
    seq(|recs|, i requires 0 <= i < |recs| => recs[i].folder)
  }

  /** The file names of the rows. */
  function Files(recs: seq<Record>): (r: seq<string>)
    ensures |r| == |recs|
  {
    seq(|recs|, i requires 0 <= i < |recs| => recs[i].file)
  }

  /** Parsing one more row extends the parsed list by that row. */
  lemma RecordsSnoc(rows: seq<seq<string>>, i: nat)
    requires i < |rows| && AllParse(rows[..i + 1])
    ensures AllParse(rows[..i])
    ensures Records(rows[..i + 1]) == Records(rows[..i]) + [ParseRow(rows[i]).value]
  {
    assert rows[..i + 1][..i] == rows[..i];
    assert rows[..i + 1][i] == rows[i];
  }

  /** The effect of the summary pass on one more row that parses. */
  lemma RowStep(rows: seq<seq<string>>, i: nat, s: Store)
    requires i < |rows| && AllParse(rows[..i]) && ParseRow(rows[i]).Some?
    ensures AllParse(rows[..i + 1])
    ensures var r, before := ParseRow(rows[i]).value, Records(rows[..i]);
      && Apply(s, Records(rows[..i + 1])) == Step(Apply(s, before), r)
      && AddEach(map[], Folders(Records(rows[..i + 1]))) == Add(AddEach(map[], Folders(before)), r.folder, 1)
      && AddEach(map[], Files(Records(rows[..i + 1]))) == Add(AddEach(map[], Files(before)), r.file, 1)
  {
    assert AllParse(rows[..i + 1]) by {
      assert forall j :: 0 <= j < i ==> rows[..i + 1][j] == rows[..i][j];
    }
    RecordsSnoc(rows, i);
    var r, before := ParseRow(rows[i]).value, Records(rows[..i]);
    NamesSnoc(before, r);
    AddEachSnoc(map[], Folders(before), r.folder);
    AddEachSnoc(map[], Files(before), r.file);
    ApplySnoc(s, before, r);
  }

  /** One more row adds its folder (or file) name to the list of names. */
  lemma NamesSnoc(recs: seq<Record>, r: Record)
    ensures Folders(recs + [r]) == Folders(recs) + [r.folder]
    ensures Files(recs + [r]) == Files(recs) + [r.file]
  {
  }

  /** `AddEach` over one more name adds one to that name. */
  lemma AddEachSnoc(m: CountMap, keys: seq<string>, k: string)
    ensures AddEach(m, keys + [k]) == Add(AddEach(m, keys), k, 1)
  {
    assert (keys + [k])[..|keys|] == keys;
  }

  // ---------------------------------------------------------------------
  // The shared counters
  // ---------------------------------------------------------------------

  /** The static state of the program: the count maps and counters the summary updates. */
  class ProcessingCustomerRecords {
    var productCounts: CountMap
    var wishlistProductCounts: CountMap
    var deliveredProductCounts: CountMap
    var cancelledProductCounts: CountMap
    var shippedProductCounts: CountMap
    var deliveredCount: int
    var cancelledCount: int
    var shippedCount: int
    var totalProductCount: int
    var totalWishlistCount: int
    var totalCount: int
    var totalProduct: int

    /** The counters the summary pass updates, as a value. */
    function Snapshot(): Store
      reads this
    {
      Store(productCounts, wishlistProductCounts, deliveredProductCounts, cancelledProductCounts,
            shippedProductCounts, deliveredCount, cancelledCount, shippedCount, totalWishlistCount)
    }

    /** Everything starts empty and at zero. */
    constructor ()
      ensures Snapshot() == EmptyStore
      ensures totalProductCount == 0 && totalCount == 0 && totalProduct == 0
    {
      productCounts, wishlistProductCounts := map[], map[];
      deliveredProductCounts, cancelledProductCounts, shippedProductCounts := map[], map[], map[];
      deliveredCount, cancelledCount, shippedCount := 0, 0, 0;
      totalProductCount, totalWishlistCount, totalCount, totalProduct := 0, 0, 0, 0;
    }

    /** Adds one to the entry of each wishlist item, in order, and the number of items to the total. */
    method CountWishlistItems(items: seq<string>)
      modifies this
      ensures Snapshot() == old(Snapshot()).(
        wishlistProductCounts := AddEach(old(wishlistProductCounts), items),
        totalWishlistCount := old(totalWishlistCount) + |items|)
      ensures totalProductCount == old(totalProductCount) && totalCount == old(totalCount) && totalProduct == old(totalProduct)
    {
      totalWishlistCount := totalWishlistCount + |items|;
      var j := 0;
      while j < |items|
        invariant 0 <= j <= |items|
        invariant Snapshot() == old(Snapshot()).(
          wishlistProductCounts := AddEach(old(wishlistProductCounts), items[..j]),
          totalWishlistCount := old(totalWishlistCount) + |items|)
        invariant totalProductCount == old(totalProductCount) && totalCount == old(totalCount) && totalProduct == old(totalProduct)
      {
        var item := items[j];
        AddEachSnoc(old(wishlistProductCounts), items[..j], item);
        assert items[..j + 1] == items[..j] + [item];
        wishlistProductCounts := Add(wishlistProductCounts, item, 1);
        j := j + 1;
      }
      assert items[..j] == items;
    }

    /** The body of the summary loop for one parsed row: products, status, wishlist. */
    method CountRow(r: Record)
      modifies this
      ensures Snapshot() == Step(old(Snapshot()), r)
      ensures totalProductCount == old(totalProductCount) && totalCount == old(totalCount) && totalProduct == old(totalProduct)
    {
      productCounts := Add(productCounts, r.product, r.quantity);
      CountStatus(r);
      CountWishlist(r);
    }

    /** The `switch` on the lower-cased status. */
    method CountStatus(r: Record)
      modifies this
      ensures Snapshot() == StatusStep(old(Snapshot()), r)
      ensures totalProductCount == old(totalProductCount) && totalCount == old(totalCount) && totalProduct == old(totalProduct)
    {
      match StatusOf(r.status) {
        case Delivered =>
          deliveredCount := deliveredCount + 1;
          deliveredProductCounts := Add(deliveredProductCounts, r.product, r.quantity);
        case Cancelled =>
          cancelledCount := cancelledCount + 1;
          cancelledProductCounts := Add(cancelledProductCounts, r.product, r.quantity);
        case Shipped =>
          shippedCount := shippedCount + 1;
          shippedProductCounts := Add(shippedProductCounts, r.product, r.quantity);
        case Unrecognised =>
      }
    }

    /** A non-empty wishlist is split on ", " and its pieces counted. */
    method CountWishlist(r: Record)
      modifies this
      ensures Snapshot() == WishlistStep(old(Snapshot()), r)
      ensures totalProductCount == old(totalProductCount) && totalCount == old(totalCount) && totalProduct == old(totalProduct)
    {
      if r.wishlist != "" {
        var wishlistProducts := Split(r.wishlist);
        CountWishlistItems(wishlistProducts);
      }
    }

    /**
     * The summary pass. The counters end as `Apply` of the rows that were
     * read: all of them, or those before the first row that is too short or
     * whose quantity does not parse, where the pass throws. Only a complete
     * pass goes on to the totals: the folder and file counts each add up to
     * the number of rows, `totalCount` grows by that number,
     * `totalProductCount` becomes the sum of the product counts and
     * `totalProduct` grows by it.
     */
    method PrintCustomerCountSummary(csvData: seq<seq<string>>)
      returns (folderCounts: CountMap, fileCounts: CountMap, totalFileCount: int, completed: bool)
      modifies this
      ensures var n := ParsedCount(csvData);
        && Snapshot() == Apply(old(Snapshot()), Records(csvData[..n]))
        && completed == (n == |csvData|)
      ensures completed ==>
        && folderCounts == AddEach(map[], Folders(Records(csvData)))
        && fileCounts == AddEach(map[], Files(Records(csvData)))
        && totalFileCount == |csvData|
        && totalCount == old(totalCount) + |csvData|
        && totalProductCount == SumValues(productCounts)
        && totalProductCount == SumValues(old(productCounts)) + QuantitySum(Records(csvData))
        && totalProduct == old(totalProduct) + totalProductCount
      ensures !completed ==>
        totalProductCount == old(totalProductCount) && totalCount == old(totalCount) && totalProduct == old(totalProduct)
    {
      var n;
      folderCounts, fileCounts, n := CountRows(csvData);
      completed := n == |csvData|;
      totalFileCount := 0;
      if completed {
        assert csvData[..n] == csvData;
        ghost var recs := Records(csvData);
        ApplyProductSum(old(Snapshot()), recs);
        CountTotal(Folders(recs));
        CountTotal(Files(recs));
        ghost var snap := Snapshot();
        totalFileCount := AddTotals(folderCounts, fileCounts);
        assert Snapshot() == snap;
      }
    }

    /**
     * The loop of the summary pass: each row's folder and file are counted
     * and its effect applied to the counters, up to the first row that
     * does not parse; `n` is the number of rows handled.
     */
    method CountRows(csvData: seq<seq<string>>) returns (folderCounts: CountMap, fileCounts: CountMap, n: nat)
      modifies this
      ensures n == ParsedCount(csvData)
      ensures Snapshot() == Apply(old(Snapshot()), Records(csvData[..n]))
      ensures folderCounts == AddEach(map[], Folders(Records(csvData[..n])))
      ensures fileCounts == AddEach(map[], Files(Records(csvData[..n])))
      ensures totalProductCount == old(totalProductCount) && totalCount == old(totalCount) && totalProduct == old(totalProduct)
    {
      folderCounts, fileCounts := map[], map[];
      var i := 0;
      while i < |csvData|
        invariant 0 <= i <= |csvData|
        invariant AllParse(csvData[..i])
        invariant Snapshot() == Apply(old(Snapshot()), Records(csvData[..i]))
        invariant folderCounts == AddEach(map[], Folders(Records(csvData[..i])))
        invariant fileCounts == AddEach(map[], Files(Records(csvData[..i])))
        invariant totalProductCount == old(totalProductCount) && totalCount == old(totalCount) && totalProduct == old(totalProduct)
      {
        var rowData := csvData[i];
        var parsed := ParseRow(rowData);
        if parsed.None? {
          PrefixParsed(csvData, i);
          return folderCounts, fileCounts, i;
        }
        var r := parsed.value;
        RowStep(csvData, i, old(Snapshot()));
        folderCounts := Add(folderCounts, r.folder, 1);
        fileCounts := Add(fileCounts, r.file, 1);
        CountRow(r);
        i := i + 1;
      }
      PrefixParsed(csvData, i);
      n := i;
    }

    /**
     * The totals after a complete pass: `totalProductCount` is the sum of
     * the product counts, `totalCount` grows by the sum of the folder
     * counts, the file total is the sum of the file counts and
     * `totalProduct` grows by the sum of the product counts again.
     */
    method AddTotals(folderCounts: CountMap, fileCounts: CountMap) returns (totalFileCount: int)
      modifies this
      ensures Snapshot() == old(Snapshot())
      ensures totalProductCount == SumValues(productCounts)
      ensures totalCount == old(totalCount) + SumValues(folderCounts)
      ensures totalFileCount == SumValues(fileCounts)
      ensures totalProduct == old(totalProduct) + SumValues(productCounts)
    {
      totalProductCount := SumCounts(productCounts);
      var folderTotal := SumCounts(folderCounts);
      totalCount := totalCount + folderTotal;
      totalFileCount := SumCounts(fileCounts);
      var productTotal := SumCounts(productCounts);
      totalProduct := totalProduct + productTotal;
    }

    /**
     * Writes one product row per key of `productCounts`, from row
     * `startRowIndex` on, in the order `order` in which the keys are visited
     * (hash order, left open here).
     */
    method CreateProductSummaryRows(sheet: Sheet, startRowIndex: nat) returns (order: seq<string>)
      modifies sheet
      ensures IsEnumeration(order, productCounts.Keys)
      ensures sheet.rows == Place(old(sheet.rows), startRowIndex, ProductRows(Snapshot(), order))
    {
      ghost var s := Snapshot();
      var rowIndex := startRowIndex;
      var keys := productCounts.Keys;
      order := [];
      VisitBounds(order, keys);
      while keys != {}
        invariant Visiting(order, keys, productCounts.Keys)
        invariant rowIndex == startRowIndex + |order|
        invariant sheet.rows == Place(old(sheet.rows), startRowIndex, ProductRows(s, order))
        decreases |keys|
      {
        var productName :| productName in keys;
        var deliveredCount := Get(deliveredProductCounts, productName);
        var cancelledCount := Get(cancelledProductCounts, productName);
        var shippedCount := Get(shippedProductCounts, productName);
        var totalCount := deliveredCount + cancelledCount + shippedCount;
        var data := [productName, IntToString(deliveredCount), IntToString(cancelledCount),
                     IntToString(shippedCount), IntToString(totalCount)];
        assert data == ProductRow(s, productName);
        PlaceSnoc(old(sheet.rows), startRowIndex, ProductRows(s, order), data);
        ProductRowsSnoc(s, order, productName);
        ghost var block := ProductRows(s, order);
        assert rowIndex == startRowIndex + |block|;
        sheet.CreateRow(rowIndex, data);
        assert sheet.rows == Place(old(sheet.rows), startRowIndex, block + [data]);
        VisitNext(order, keys, productCounts.Keys, productName);
        rowIndex := rowIndex + 1;
        order := order + [productName];
        keys := keys - {productName};
      }
      VisitBounds(order, productCounts.Keys);
    }

    /** Writes one wishlist row per key of `wishlistProductCounts`, from row 1 on, in visiting order. */
    method CreateWishlistSummaryRows(sheet: Sheet) returns (order: seq<string>)
      modifies sheet
      ensures IsEnumeration(order, wishlistProductCounts.Keys)
      ensures sheet.rows == Place(old(sheet.rows), 1, WishlistRows(Snapshot(), order))
    {
      ghost var s := Snapshot();
      var rowIndex := 1;
      var keys := wishlistProductCounts.Keys;
      order := [];
      VisitBounds(order, keys);
      while keys != {}
        invariant Visiting(order, keys, wishlistProductCounts.Keys)
        invariant rowIndex == 1 + |order|
        invariant sheet.rows == Place(old(sheet.rows), 1, WishlistRows(s, order))
        decreases |keys|
      {
        var productName :| productName in keys;
        var wishlistCount := wishlistProductCounts[productName];
        var data := [productName, IntToString(wishlistCount)];
        assert data == WishlistRow(s, productName);
        PlaceSnoc(old(sheet.rows), 1, WishlistRows(s, order), data);
        WishlistRowsSnoc(s, order, productName);
        ghost var block := WishlistRows(s, order);
        assert rowIndex == 1 + |block|;
        sheet.CreateRow(rowIndex, data);
        assert sheet.rows == Place(old(sheet.rows), 1, block + [data]);
        VisitNext(order, keys, wishlistProductCounts.Keys, productName);
        rowIndex := rowIndex + 1;
        order := order + [productName];
        keys := keys - {productName};
      }
      VisitBounds(order, wishlistProductCounts.Keys);
    }

    /**
     * Builds the three sheets: the records under their header, the summary
     * counts and product rows, and the wishlist rows.
     */
    method SaveToExcel(csvData: seq<seq<string>>) returns (workbook: Workbook, productOrder: seq<string>, wishlistOrder: seq<string>)
      ensures fresh(workbook.details) && fresh(workbook.summary) && fresh(workbook.wishlist)
      ensures workbook.details.name == "Customer Details"
      ensures workbook.summary.name == "Customer and Product Summary"
      ensures workbook.wishlist.name == "Wishlist Product Summary"
      ensures workbook.details.rows == Place(map[0 := DetailHeader], 1, csvData)
      ensures IsEnumeration(productOrder, productCounts.Keys)
      ensures workbook.summary.rows == Place(SummaryHead(totalCount, Snapshot()), ProductRowsStart, ProductRows(Snapshot(), productOrder))
      ensures IsEnumeration(wishlistOrder, wishlistProductCounts.Keys)
      ensures workbook.wishlist.rows == Place(map[0 := WishlistHeader], 1, WishlistRows(Snapshot(), wishlistOrder))
    {
      var detailedSheet := new Sheet("Customer Details");
      detailedSheet.CreateRow(0, DetailHeader);
      var i := 0;
      while i < |csvData|
        invariant 0 <= i <= |csvData|
        invariant detailedSheet.rows == Place(map[0 := DetailHeader], 1, csvData[..i])
      {
        PlaceSnoc(map[0 := DetailHeader], 1, csvData[..i], csvData[i]);
        assert csvData[..i + 1] == csvData[..i] + [csvData[i]];
        detailedSheet.CreateRow(i + 1, csvData[i]);
        i := i + 1;
      }
      assert csvData[..i] == csvData;

      var summarySheet := new Sheet("Customer and Product Summary");
      summarySheet.CreateRow(0, CustomerSummaryTitle);
      summarySheet.CreateRow(2, CustomerSummaryHeader);
      summarySheet.CreateRow(3, [IntToString(totalCount), IntToString(deliveredCount),
                                 IntToString(cancelledCount), IntToString(shippedCount)]);
      var rowIndex := 6;
      summarySheet.CreateRow(rowIndex, ProductSummaryTitle);
      rowIndex := rowIndex + 2;
      summarySheet.CreateRow(rowIndex, ProductSummaryHeader);
      rowIndex := rowIndex + 1;
      assert summarySheet.rows == SummaryHead(totalCount, Snapshot());
      productOrder := CreateProductSummaryRows(summarySheet, rowIndex);

      var wishlistSheet := new Sheet("Wishlist Product Summary");
      wishlistSheet.CreateRow(0, WishlistHeader);
      wishlistOrder := CreateWishlistSummaryRows(wishlistSheet);

      workbook := Workbook(detailedSheet, summarySheet, wishlistSheet);
    }

    /**
     * The whole program on a directory listing (`None` when the directory
     * cannot be listed): when the pool can be created, every ".txt" file of
     * every listable folder is processed, one after the other, into one
     * list of rows; then the summary updates the counters and the workbook
     * is built. When the pool size is not positive the pool cannot be
     * created and nothing happens.
     */
    method Process(root: Option<seq<Folder>>, folderCount: int, pattern: CustomerDetails.Pattern,
                   decimal: CustomerDetails.DecimalText, contents: CustomerDetails.FileRef -> CustomerDetails.FileText)
      returns (rows: seq<seq<string>>, report: Option<Workbook>, productOrder: seq<string>, wishlistOrder: seq<string>)
      modifies this
      ensures root.None? || ThreadCount(|root.value|, folderCount) <= 0 ==>
        && report.None? && rows == []
        && Snapshot() == old(Snapshot())
        && totalProductCount == old(totalProductCount) && totalCount == old(totalCount) && totalProduct == old(totalProduct)
      ensures root.Some? && ThreadCount(|root.value|, folderCount) > 0 ==>
        && rows == Collected(Tasks(root.value), contents, pattern, decimal)
        && AllParse(rows)
        && Snapshot() == Apply(old(Snapshot()), Records(rows))
        && totalCount == old(totalCount) + |rows|
        && totalProductCount == SumValues(productCounts)
        && totalProduct == old(totalProduct) + totalProductCount
        && report.Some?
        && report.value.details.rows == Place(map[0 := DetailHeader], 1, rows)
        && IsEnumeration(productOrder, productCounts.Keys)
        && report.value.summary.rows == Place(SummaryHead(totalCount, Snapshot()), ProductRowsStart, ProductRows(Snapshot(), productOrder))
        && IsEnumeration(wishlistOrder, wishlistProductCounts.Keys)
        && report.value.wishlist.rows == Place(map[0 := WishlistHeader], 1, WishlistRows(Snapshot(), wishlistOrder))
    {
      rows := [];
      report := None;
      productOrder, wishlistOrder := [], [];
      if root.None? {
        return;
      }
      var folders := root.value;
      var numThreads := ThreadCount(|folders|, folderCount);
      if numThreads <= 0 {
        return;
      }
      var tasks := Tasks(folders);
      rows := RunTasks(tasks, pattern, decimal, contents);
      CollectedParse(tasks, contents, pattern, decimal);
      var _, _, _, completed := PrintCustomerCountSummary(rows);
      assert rows[..|rows|] == rows;
      if completed {
        var workbook;
        workbook, productOrder, wishlistOrder := SaveToExcel(rows);
        report := Some(workbook);
      }
    }
  }

  /**
   * Runs one CustomerDetailsFiles task per text file, one after another, all
   * appending to the same record list; the list ends up holding every task's rows
   * in task order.
   */
  method RunTasks(tasks: seq<CustomerDetails.FileRef>, pattern: CustomerDetails.Pattern,
                  decimal: CustomerDetails.DecimalText, contents: CustomerDetails.FileRef -> CustomerDetails.FileText)
    returns (rows: seq<seq<string>>)
    ensures rows == Collected(tasks, contents, pattern, decimal)
  {
    var csvData := new CustomerDetails.RecordList();
    var t := 0;
    while t < |tasks|
      invariant 0 <= t <= |tasks|
      invariant csvData.rows == Collected(tasks[..t], contents, pattern, decimal)
    {
      var file := tasks[t];
      var worker := new CustomerDetails.CustomerDetailsFiles(file, pattern, csvData);
      var _ := worker.Run(contents(file), decimal);
      assert tasks[..t + 1][..t] == tasks[..t];
      t := t + 1;
    }
    assert tasks[..t] == tasks;
    rows := csvData.rows;
  }

  /** The rows before the stopping point all parse, so the pass stops exactly there. */
  lemma {:induction false} PrefixParsed(rows: seq<seq<string>>, i: nat)
    requires i <= |rows| && AllParse(rows[..i])
    requires i < |rows| ==> ParseRow(rows[i]).None?
    ensures ParsedCount(rows) == i
    decreases i
  {
    if i > 0 {
      assert rows[..i][0] == rows[0];
      assert rows[1..][..i - 1] == rows[..i][1..];
      PrefixParsed(rows[1..], i - 1);
    }
  }
}
