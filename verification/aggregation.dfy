/**
 * The effect of the summary pass on the shared counters, as pure functions:
 * a parsed row (`Record`), the counters (`Store`), the effect of one row
 * (`Step`) and of a list of rows (`Apply`). The class in
 * `processing.dfy` is proved to leave its fields equal to `Apply`.
 */
module Aggregation {
  import opened Options
  import opened JavaText
  import opened Counts
  import CustomerDetails

  // ---------------------------------------------------------------------
  // Rows as the summary reads them
  // ---------------------------------------------------------------------

  /** The three delivery statuses the summary counts, and everything else. */
  datatype Status = Delivered | Cancelled | Shipped | Unrecognised

  /** The `switch` on the lower-cased status text. */
  function StatusOf(text: string): Status {
    var t := ToLower(text);
    if t == "delivered" then Delivered
    else if t == "cancelled" then Cancelled
    else if t == "shipped" then Shipped
    else Unrecognised
  }

  /** The fields of a row that the summary uses, with the quantity parsed. */
  datatype Record = Record(folder: string, file: string, product: string, quantity: int,
                           status: string, wishlist: string)

  /**
   * Reads fields 0, 1, 3, 5, 9 and 10 of a row; `None` stands for the
   * exception thrown when the row is shorter than 11 fields or its quantity
   * is not an `int`.
   */
  function ParseRow(row: seq<string>): (r: Option<Record>)
    ensures r.Some? <==> |row| >= CustomerDetails.RowWidth && ParseInt(row[5]).Some?
    ensures r.Some? ==> r.value == Record(row[0], row[1], row[3], ParseInt(row[5]).value, row[9], row[10])
  {
    if |row| < CustomerDetails.RowWidth then None
    else match ParseInt(row[5])
      case None => None
      case Some(q) => Some(Record(row[0], row[1], row[3], q, row[9], row[10]))
  }

  /**
   * The summary pass reads back what the worker wrote: a row built from a
   * match parses, and its record carries the match's folder, file, product,
   * quantity, status and stripped wishlist.
   */
  lemma BuiltRowReadBack(file: CustomerDetails.FileRef, g: CustomerDetails.Groups, decimal: CustomerDetails.DecimalText)
    ensures var row := CustomerDetails.BuildRow(file, g, decimal);
      row.Some? ==>
        ParseRow(row.value) == Some(Record(file.folder, file.name, g.product, ParseInt(g.quantity).value,
                                           g.status, CustomerDetails.StripArticles(g.wishlist)))
  {
    CustomerDetails.BuildRowLayout(file, g, decimal);
  }

  /** The number of leading rows that parse: the pass stops at the first that does not. */
  function ParsedCount(rows: seq<seq<string>>): (n: nat)
    ensures n <= |rows|
    ensures forall i :: 0 <= i < n ==> ParseRow(rows[i]).Some?
    ensures n < |rows| ==> ParseRow(rows[n]).None?
    decreases |rows|
  {
    if rows == [] || ParseRow(rows[0]).None? then 0 else 1 + ParsedCount(rows[1..])
  }

  /** All rows parse. */
  predicate AllParse(rows: seq<seq<string>>) {
    forall i :: 0 <= i < |rows| ==> ParseRow(rows[i]).Some?
  }

  /** The parsed rows, in order. */
  function Records(rows: seq<seq<string>>): (recs: seq<Record>)
    requires AllParse(rows)
    ensures |recs| == |rows|
    decreases |rows|
  {
    if rows == [] then [] else Records(rows[..|rows| - 1]) + [ParseRow(rows[|rows| - 1]).value]
  }

  // ---------------------------------------------------------------------
  // The counters and the effect of one row
  // ---------------------------------------------------------------------

  /** The static maps and counters the summary pass updates. */
  datatype Store = Store(
    productCounts: CountMap,
    wishlistProductCounts: CountMap,
    deliveredProductCounts: CountMap,
    cancelledProductCounts: CountMap,
    shippedProductCounts: CountMap,
    deliveredCount: int,
    cancelledCount: int,
    shippedCount: int,
    totalWishlistCount: int)

  /** The counters before any row has been seen. */
  const EmptyStore: Store := Store(map[], map[], map[], map[], map[], 0, 0, 0, 0)

  /** The wishlist items of a row: none for an empty text, otherwise the pieces between ", ". */
  function WishlistPieces(wishlist: string): seq<string> {
    if wishlist == "" then [] else Split(wishlist)
  }

  /** 1 when the row's status is `st`, else 0. */
  function StatusHit(r: Record, st: Status): nat {
    if StatusOf(r.status) == st then 1 else 0
  }

  /** A per-status product map after the row: its quantity is added only when the status is `st`. */
  function StatusAdd(m: CountMap, r: Record, st: Status): CountMap {
    if StatusOf(r.status) == st then Add(m, r.product, r.quantity) else m
  }

  /** The product map after a row: the row's quantity is added to its product. */
  function ProductStep(s: Store, r: Record): Store {
    s.(productCounts := Add(s.productCounts, r.product, r.quantity))
  }

  /** The `switch` on the status: the matching counter and per-status product map, if any. */
  function StatusStep(s: Store, r: Record): Store {
    match StatusOf(r.status)
    case Delivered =>
      s.(deliveredCount := s.deliveredCount + 1,
         deliveredProductCounts := Add(s.deliveredProductCounts, r.product, r.quantity))
    case Cancelled =>
      s.(cancelledCount := s.cancelledCount + 1,
         cancelledProductCounts := Add(s.cancelledProductCounts, r.product, r.quantity))
    case Shipped =>
      s.(shippedCount := s.shippedCount + 1,
         shippedProductCounts := Add(s.shippedProductCounts, r.product, r.quantity))
    case Unrecognised => s
  }

  /** The wishlist part of a row: one per piece, and the total grows by the number of pieces. */
  function WishlistStep(s: Store, r: Record): Store {
    var items := WishlistPieces(r.wishlist);
    s.(wishlistProductCounts := AddEach(s.wishlistProductCounts, items),
       totalWishlistCount := s.totalWishlistCount + |items|)
  }

  /** The counters after one row of the loop body: product, then status, then wishlist. */
  function Step(s: Store, r: Record): Store {
    WishlistStep(StatusStep(ProductStep(s, r), r), r)
  }

  /** The effect of a row, field by field. */
  lemma StepFields(s: Store, r: Record)
    ensures Step(s, r) == Store(
      Add(s.productCounts, r.product, r.quantity),
      AddEach(s.wishlistProductCounts, WishlistPieces(r.wishlist)),
      StatusAdd(s.deliveredProductCounts, r, Delivered),
      StatusAdd(s.cancelledProductCounts, r, Cancelled),
      StatusAdd(s.shippedProductCounts, r, Shipped),
      s.deliveredCount + StatusHit(r, Delivered),
      s.cancelledCount + StatusHit(r, Cancelled),
      s.shippedCount + StatusHit(r, Shipped),
      s.totalWishlistCount + |WishlistPieces(r.wishlist)|)
  {
    var p := ProductStep(s, r);
    assert StatusStep(p, r) == p.(
      deliveredProductCounts := StatusAdd(s.deliveredProductCounts, r, Delivered),
      cancelledProductCounts := StatusAdd(s.cancelledProductCounts, r, Cancelled),
      shippedProductCounts := StatusAdd(s.shippedProductCounts, r, Shipped),
      deliveredCount := s.deliveredCount + StatusHit(r, Delivered),
      cancelledCount := s.cancelledCount + StatusHit(r, Cancelled),
      shippedCount := s.shippedCount + StatusHit(r, Shipped));
  }

  /** The counters after the rows `recs`, first to last. */
  function Apply(s: Store, recs: seq<Record>): Store
    decreases |recs|
  {
    if recs == [] then s else Step(Apply(s, recs[..|recs| - 1]), recs[|recs| - 1])
  }

  /** Sum of the three status counters. */
  function StatusTotal(s: Store): int {
    s.deliveredCount + s.cancelledCount + s.shippedCount
  }

  /** The quantity of the row with the given product name, 0 for any other key. */
  function QuantityFor(r: Record, k: string): int {
    if k == r.product then r.quantity else 0
  }

  /**
   * One row: the product's entry grows by exactly the row's quantity and
   * no other product entry changes.
   */
  lemma StepProducts(s: Store, r: Record)
    ensures forall k :: Get(Step(s, r).productCounts, k) == Get(s.productCounts, k) + QuantityFor(r, k)
    ensures Step(s, r).productCounts.Keys == s.productCounts.Keys + {r.product}
  {
    StepFields(s, r);
  }

  /**
   * One row: a recognised status raises exactly its own counter by one and
   * its own product map by the quantity; an unrecognised status changes
   * none of the three counters and none of the three maps.
   */
  lemma StepStatus(s: Store, r: Record)
    ensures var t, st := Step(s, r), StatusOf(r.status);
      && t.deliveredCount == s.deliveredCount + (if st == Delivered then 1 else 0)
      && t.cancelledCount == s.cancelledCount + (if st == Cancelled then 1 else 0)
      && t.shippedCount == s.shippedCount + (if st == Shipped then 1 else 0)
      && (forall k :: Get(t.deliveredProductCounts, k)
            == Get(s.deliveredProductCounts, k) + (if st == Delivered then QuantityFor(r, k) else 0))
      && (forall k :: Get(t.cancelledProductCounts, k)
            == Get(s.cancelledProductCounts, k) + (if st == Cancelled then QuantityFor(r, k) else 0))
      && (forall k :: Get(t.shippedProductCounts, k)
            == Get(s.shippedProductCounts, k) + (if st == Shipped then QuantityFor(r, k) else 0))
    ensures StatusOf(r.status) == Unrecognised ==>
      && Step(s, r).deliveredProductCounts == s.deliveredProductCounts
      && Step(s, r).cancelledProductCounts == s.cancelledProductCounts
      && Step(s, r).shippedProductCounts == s.shippedProductCounts
      && StatusTotal(Step(s, r)) == StatusTotal(s)
  {
    StepFields(s, r);
  }

  /**
   * One row: every wishlist piece adds one to its entry and the wishlist
   * total grows by the number of pieces; an empty wishlist changes neither.
   */
  lemma StepWishlist(s: Store, r: Record)
    ensures var t, items := Step(s, r), WishlistPieces(r.wishlist);
      && t.totalWishlistCount == s.totalWishlistCount + |items|
      && (forall k :: Get(t.wishlistProductCounts, k) == Get(s.wishlistProductCounts, k) + multiset(items)[k])
    ensures r.wishlist == "" ==>
      Step(s, r).wishlistProductCounts == s.wishlistProductCounts
      && Step(s, r).totalWishlistCount == s.totalWishlistCount
  {
    StepFields(s, r);
    AddEachGet(s.wishlistProductCounts, WishlistPieces(r.wishlist));
  }

  // ---------------------------------------------------------------------
  // Totals over a list of rows
  // ---------------------------------------------------------------------

  /** Sum of the quantities of the rows. */
  function QuantitySum(recs: seq<Record>): int
    decreases |recs|
  {
    if recs == [] then 0 else QuantitySum(recs[..|recs| - 1]) + recs[|recs| - 1].quantity
  }

  /** Number of rows whose status is one of the three counted ones. */
  function RecognisedCount(recs: seq<Record>): (n: nat)
    ensures n <= |recs|
    decreases |recs|
  {
    if recs == [] then 0
    else RecognisedCount(recs[..|recs| - 1]) + (if StatusOf(recs[|recs| - 1].status) == Unrecognised then 0 else 1)
  }

  /** Number of wishlist pieces of the rows. */
  function WishlistTotal(recs: seq<Record>): nat
    decreases |recs|
  {
    if recs == [] then 0 else WishlistTotal(recs[..|recs| - 1]) + |WishlistPieces(recs[|recs| - 1].wishlist)|
  }

  /** The sum of all product entries grows by the sum of the rows' quantities. */
  lemma {:induction false} ApplyProductSum(s: Store, recs: seq<Record>)
    ensures SumValues(Apply(s, recs).productCounts) == SumValues(s.productCounts) + QuantitySum(recs)
    decreases |recs|
  {
    if recs != [] {
      var init, last := recs[..|recs| - 1], recs[|recs| - 1];
      ApplyProductSum(s, init);
      StepFields(Apply(s, init), last);
      SumAdd(Apply(s, init).productCounts, last.product, last.quantity);
    }
  }

  /**
   * The three status counters together grow by the number of rows with a
   * counted status, hence by at most the number of rows.
   */
  lemma {:induction false} ApplyStatusTotal(s: Store, recs: seq<Record>)
    ensures StatusTotal(Apply(s, recs)) == StatusTotal(s) + RecognisedCount(recs)
    ensures StatusTotal(s) <= StatusTotal(Apply(s, recs)) <= StatusTotal(s) + |recs|
    decreases |recs|
  {
    if recs != [] {
      ApplyStatusTotal(s, recs[..|recs| - 1]);
      StepFields(Apply(s, recs[..|recs| - 1]), recs[|recs| - 1]);
    }
  }

  /**
   * The wishlist total grows by the number of pieces, and it always exceeds
   * the sum of the wishlist entries by the same amount as before.
   */
  lemma {:induction false} ApplyWishlistBalance(s: Store, recs: seq<Record>)
    ensures Apply(s, recs).totalWishlistCount == s.totalWishlistCount + WishlistTotal(recs)
    ensures Apply(s, recs).totalWishlistCount - SumValues(Apply(s, recs).wishlistProductCounts)
         == s.totalWishlistCount - SumValues(s.wishlistProductCounts)
    decreases |recs|
  {
    if recs != [] {
      var init, last := recs[..|recs| - 1], recs[|recs| - 1];
      ApplyWishlistBalance(s, init);
      StepFields(Apply(s, init), last);
      SumAddEach(Apply(s, init).wishlistProductCounts, WishlistPieces(last.wishlist));
    }
  }

  /** Each per-status entry plus the others never exceeds the product entry. */
  ghost predicate StatusWithinProducts(s: Store) {
    forall k :: Get(s.deliveredProductCounts, k) + Get(s.cancelledProductCounts, k) + Get(s.shippedProductCounts, k)
             <= Get(s.productCounts, k)
  }

  /** No row has a negative quantity. */
  predicate NonNegative(recs: seq<Record>) {
    forall i :: 0 <= i < |recs| ==> recs[i].quantity >= 0
  }

  /**
   * With non-negative quantities the per-status quantities of a product
   * never add up to more than its product count, since each row adds its
   * quantity to the product and to at most one status map.
   */
  lemma {:induction false} ApplyStatusWithinProducts(s: Store, recs: seq<Record>)
    requires StatusWithinProducts(s) && NonNegative(recs)
    ensures StatusWithinProducts(Apply(s, recs))
    decreases |recs|
  {
    if recs != [] {
      var init, last := recs[..|recs| - 1], recs[|recs| - 1];
      ApplyStatusWithinProducts(s, init);
      var a := Apply(s, init);
      StepProducts(a, last);
      StepStatus(a, last);
    }
  }

  // ---------------------------------------------------------------------
  // Order does not matter
  // ---------------------------------------------------------------------

  /** A per-status update commutes with another. */
  lemma StatusAddCommutes(m: CountMap, a: Record, b: Record, st: Status)
    ensures StatusAdd(StatusAdd(m, a, st), b, st) == StatusAdd(StatusAdd(m, b, st), a, st)
  {
    if StatusOf(a.status) == st && StatusOf(b.status) == st {
      AddCommutes(m, a.product, a.quantity, b.product, b.quantity);
    }
  }

  /** Two rows have the same effect in either order. */
  lemma StepCommutes(s: Store, a: Record, b: Record)
    ensures Step(Step(s, a), b) == Step(Step(s, b), a)
  {
    StepFields(s, a);
    StepFields(s, b);
    StepFields(Step(s, a), b);
    StepFields(Step(s, b), a);
    AddCommutes(s.productCounts, a.product, a.quantity, b.product, b.quantity);
    AddEachCommutes(s.wishlistProductCounts, WishlistPieces(a.wishlist), WishlistPieces(b.wishlist));
    StatusAddCommutes(s.deliveredProductCounts, a, b, Delivered);
    StatusAddCommutes(s.cancelledProductCounts, a, b, Cancelled);
    StatusAddCommutes(s.shippedProductCounts, a, b, Shipped);
  }

  /** Appending a row applies one more step. */
  lemma ApplySnoc(s: Store, recs: seq<Record>, x: Record)
    ensures Apply(s, recs + [x]) == Step(Apply(s, recs), x)
  {
    assert (recs + [x])[..|recs|] == recs;
  }

  /** A row can be moved to the end of the list without changing the result. */
  lemma {:induction false} MoveToEnd(s: Store, a: seq<Record>, x: Record, b: seq<Record>)
    ensures Apply(s, a + [x] + b) == Apply(s, a + b + [x])
    decreases |b|
  {
    if b != [] {
      var init, last := b[..|b| - 1], b[|b| - 1];
      assert a + [x] + b == (a + [x] + init) + [last];
      assert a + b + [x] == ((a + init) + [last]) + [x];
      calc {
        Apply(s, a + [x] + b);
        { ApplySnoc(s, a + [x] + init, last); }
        Step(Apply(s, a + [x] + init), last);
        { MoveToEnd(s, a, x, init); }
        Step(Apply(s, a + init + [x]), last);
        { ApplySnoc(s, a + init, x); }
        Step(Step(Apply(s, a + init), x), last);
        { StepCommutes(Apply(s, a + init), x, last); }
        Step(Step(Apply(s, a + init), last), x);
        { ApplySnoc(s, a + init, last); }
        Step(Apply(s, (a + init) + [last]), x);
        { ApplySnoc(s, (a + init) + [last], x); }
        Apply(s, a + b + [x]);
      }
    } else {
      assert a + [x] + b == a + b + [x];
    }
  }

  /** The last row of `ys` occurs in any `xs` with the same multiset; taking it out leaves equal multisets. */
  lemma SplitAtLast<T>(xs: seq<T>, ys: seq<T>) returns (before: seq<T>, after: seq<T>)
    requires ys != [] && multiset(xs) == multiset(ys)
    ensures xs == before + [ys[|ys| - 1]] + after
    ensures multiset(before + after) == multiset(ys[..|ys| - 1])
  {
    var init, y := ys[..|ys| - 1], ys[|ys| - 1];
    assert ys == init + [y];
    assert y in multiset(xs);
    var j :| 0 <= j < |xs| && xs[j] == y;
    before, after := xs[..j], xs[j + 1..];
    assert xs == before + [y] + after;
    MultisetRemove(before, y, after);
    MultisetRemove(init, y, []);
  }

  lemma MultisetRemove<T>(a: seq<T>, y: T, b: seq<T>)
    ensures multiset(a + [y] + b) - multiset{y} == multiset(a + b)
  {
    assert multiset(a + [y] + b) == multiset(a) + multiset{y} + multiset(b);
    assert multiset(a + b) == multiset(a) + multiset(b);
  }

  lemma {:induction false} ApplyPermutation(s: Store, xs: seq<Record>, ys: seq<Record>)
    requires multiset(xs) == multiset(ys)
    ensures Apply(s, xs) == Apply(s, ys)
    decreases |ys|
  {
    if ys == [] {
      assert |xs| == |multiset(xs)| == 0;
    } else {
      var init, y := ys[..|ys| - 1], ys[|ys| - 1];
      var before, after := SplitAtLast(xs, ys);
      assert ys == init + [y];
      calc {
        Apply(s, xs);
        { MoveToEnd(s, before, y, after); }
        Apply(s, (before + after) + [y]);
        { ApplySnoc(s, before + after, y); }
        Step(Apply(s, before + after), y);
        { ApplyPermutation(s, before + after, init); }
        Step(Apply(s, init), y);
        { ApplySnoc(s, init, y); }
        Apply(s, ys);
      }
    }
  }

  // ---------------------------------------------------------------------
  // The three-row example
  // ---------------------------------------------------------------------

  /** Two delivered rows for different products around one shipped row. */
  lemma DeliveredShippedDelivered(a: Record, b: Record, c: Record)
    requires StatusOf(a.status) == Delivered && StatusOf(b.status) == Shipped && StatusOf(c.status) == Delivered
    requires a.product != c.product
    ensures var t := Apply(EmptyStore, [a, b, c]);
      && t.deliveredCount == 2 && t.shippedCount == 1 && t.cancelledCount == 0
      && t.deliveredProductCounts == map[a.product := a.quantity, c.product := c.quantity]
      && t.shippedProductCounts == map[b.product := b.quantity]
  {
    ApplySnoc(EmptyStore, [], a);
    ApplySnoc(EmptyStore, [a], b);
    ApplySnoc(EmptyStore, [a, b], c);
    assert [a] == [] + [a] && [a, b] == [a] + [b] && [a, b, c] == [a, b] + [c];
    var t := Apply(EmptyStore, [a, b, c]);
    Extensional(t.deliveredProductCounts, map[a.product := a.quantity, c.product := c.quantity]);
  }

  /** The status texts of the example. */
  lemma ExampleStatuses()
    ensures StatusOf("delivered") == Delivered && StatusOf("shipped") == Shipped
  {
    assert ToLower("delivered") == "delivered";
    assert ToLower("shipped") == "shipped";
  }

  /**
   * Rows delivered/shipped/delivered for laptop 1, tablet 2, smartphone 3
   * give two delivered, one shipped and none cancelled, with laptop 1 and
   * smartphone 3 delivered and tablet 2 shipped.
   */
  lemma ThreeRowExample(laptop: Record, tablet: Record, smartphone: Record)
    requires laptop == Record("folder1", "file1.txt", "laptop", 1, "delivered", "smartwatch")
    requires tablet == Record("folder1", "file1.txt", "tablet", 2, "shipped", "headphones and smartphone")
    requires smartphone == Record("folder1", "file2.txt", "smartphone", 3, "delivered", "laptop, smartwatch")
    ensures var t := Apply(EmptyStore, [laptop, tablet, smartphone]);
      && t.deliveredCount == 2 && t.shippedCount == 1 && t.cancelledCount == 0
      && t.deliveredProductCounts == map["laptop" := 1, "smartphone" := 3]
      && t.shippedProductCounts == map["tablet" := 2]
  {
    ExampleStatuses();
    DeliveredShippedDelivered(laptop, tablet, smartphone);
  }
}
