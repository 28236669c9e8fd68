/**
 * Per-file record extraction: each line of one file for which the purchase
 * pattern finds a match becomes one 11-field row appended to the shared list.
 */
module CustomerDetails {
  import opened Options
  import opened JavaText

  /**
   * The captured groups of one match of the purchase pattern that the row
   * uses: groups 1 (customer), 2 (product), 3 (product id), 4 (quantity),
   * 5 (price), 7 (total), 9 (delivery date), 10 (delivery status) and
   * 11 (wishlist phrase).
   */
  datatype Groups = Groups(
    customer: string, product: string, productId: string,
    quantity: string, price: string, total: string,
    date: string, status: string, wishlist: string)

  /** The compiled pattern: the groups of the first match found in a line, if any. */
  type Pattern = string -> Option<Groups>

  /**
   * `String.valueOf(Double.parseDouble(text))`: the text of the parsed
   * `double`, or `None` where parsing throws `NumberFormatException`.
   */
  type DecimalText = string -> Option<string>

  /** A file: the name of its parent folder and its own name. */
  datatype FileRef = FileRef(folder: string, name: string)

  /**
   * What reading a file yields: the lines delivered before the end of the
   * file, and whether reading then failed with an `IOException` (a file that
   * cannot be opened delivers no line and fails).
   */
  datatype FileText = FileText(lines: seq<string>, readFails: bool)

  /** How one run over a file ends. */
  datatype RunOutcome =
    | Finished           // every line was read
    | ReadError          // an IOException, caught and reported
    | NumberFormatError  // a number did not parse; the exception leaves `run`

  // ---------------------------------------------------------------------
  // The wishlist rewrite: replaceAll("(a pair of |a )", "")
  // ---------------------------------------------------------------------

  const PairArticle: string := "a pair of "
  const Article: string := "a "

  /**
   * Deletes every occurrence of `"a pair of "` or `"a "`, scanning left to
   * right and trying `"a pair of "` first at each position; the scan resumes
   * after each deleted occurrence.
   */
  function StripArticles(s: string): string
    decreases |s|
  {
    if s == [] then []
    else if StartsWith(s, PairArticle) then StripArticles(s[|PairArticle|..])
    else if StartsWith(s, Article) then StripArticles(s[|Article|..])
    else [s[0]] + StripArticles(s[1..])
  }

  /** `sub` is obtained from `s` by deleting characters. */
  predicate IsSubsequence(sub: string, s: string)
    decreases |s|
  {
    sub == [] || (s != [] && ((sub[0] == s[0] && IsSubsequence(sub[1..], s[1..])) || IsSubsequence(sub, s[1..])))
  }

  /**
   * The rewrite only deletes: its result is a subsequence of the input, never
   * longer, and shorter by an even number of characters (10 or 2 per deletion).
   */
  lemma StripArticlesDeletes(s: string)
    ensures IsSubsequence(StripArticles(s), s)
    ensures |StripArticles(s)| <= |s|
    ensures (|s| - |StripArticles(s)|) % 2 == 0
  {
    StripArticlesSubsequence(s);
    StripArticlesShorter(s);
  }

  lemma {:induction false} StripArticlesShorter(s: string)
    ensures |StripArticles(s)| <= |s|
    ensures (|s| - |StripArticles(s)|) % 2 == 0
    decreases |s|
  {
    if s == [] {
    } else if StartsWith(s, PairArticle) {
      var t := s[|PairArticle|..];
      StripArticlesShorter(t);
      assert StripArticles(s) == StripArticles(t) && |s| == |t| + 10;
      EvenPlus(|t| - |StripArticles(t)|, 5);
    } else if StartsWith(s, Article) {
      var t := s[|Article|..];
      StripArticlesShorter(t);
      assert StripArticles(s) == StripArticles(t) && |s| == |t| + 2;
      EvenPlus(|t| - |StripArticles(t)|, 1);
    } else {
      var t := s[1..];
      StripArticlesShorter(t);
      assert |StripArticles(s)| == 1 + |StripArticles(t)|;
    }
  }

  lemma EvenPlus(x: int, k: int)
    requires x % 2 == 0
    ensures (x + 2 * k) % 2 == 0
  {
  }

  lemma {:induction false} StripArticlesSubsequence(s: string)
    ensures IsSubsequence(StripArticles(s), s)
    decreases |s|
  {
    if s == [] {
    } else if StartsWith(s, PairArticle) {
      var t := s[|PairArticle|..];
      StripArticlesSubsequence(t);
      SubsequenceOfSuffix(StripArticles(t), s, |PairArticle|);
    } else if StartsWith(s, Article) {
      var t := s[|Article|..];
      StripArticlesSubsequence(t);
      SubsequenceOfSuffix(StripArticles(t), s, |Article|);
    } else {
      var t := s[1..];
      assert StripArticles(s) == [s[0]] + StripArticles(t);
      StripArticlesSubsequence(t);
      SubsequenceCons(s[0], StripArticles(t), t);
      assert s == [s[0]] + t;
    }
  }

  /** Putting the same character in front of both keeps a subsequence. */
  lemma SubsequenceCons(c: char, sub: string, s: string)
    requires IsSubsequence(sub, s)
    ensures IsSubsequence([c] + sub, [c] + s)
  {
    assert ([c] + sub)[1..] == sub && ([c] + s)[1..] == s;
  }

  /** A subsequence of a suffix is a subsequence of the whole. */
  lemma {:induction false} SubsequenceOfSuffix(sub: string, s: string, n: nat)
    requires n <= |s| && IsSubsequence(sub, s[n..])
    ensures IsSubsequence(sub, s)
    decreases n
  {
    if n > 0 {
      assert s[1..][n - 1..] == s[n..];
      SubsequenceOfSuffix(sub, s[1..], n - 1);
    }
  }

  /** Text in which `"a "` does not occur is left as it is. */
  lemma {:induction false} StripArticlesNoArticle(s: string)
    requires !Contains(s, Article)
    ensures StripArticles(s) == s
    decreases |s|
  {
    if s != [] {
      PairArticleStartsWithArticle(s);
      StripArticlesNoArticle(s[1..]);
      assert s == [s[0]] + s[1..];
    }
  }

  /** Whatever starts with `"a pair of "` starts with `"a "`. */
  lemma PairArticleStartsWithArticle(s: string)
    ensures StartsWith(s, PairArticle) ==> StartsWith(s, Article)
  {
    if StartsWith(s, PairArticle) {
      assert s[..2] == s[..|PairArticle|][..2];
    }
  }

  /** Text that starts with `"a pair of "` has `'p'` as its third character. */
  lemma PairArticleThirdChar(s: string)
    ensures StartsWith(s, PairArticle) ==> s[2] == 'p'
  {
    if StartsWith(s, PairArticle) {
      assert s[..|PairArticle|][2] == s[2];
    }
  }

  /** Text that starts with `"a "` has `'a'` and a space as its first two characters. */
  lemma ArticleChars(s: string)
    ensures StartsWith(s, Article) ==> s[0] == 'a' && s[1] == ' '
  {
    if StartsWith(s, Article) {
      assert s[..2] == Article;
    }
  }

  /** A leading `"a "` that does not begin `"a pair of "` is deleted. */
  lemma StripArticle(rest: string)
    requires !StartsWith(Article + rest, PairArticle)
    ensures StripArticles(Article + rest) == StripArticles(rest)
  {
    assert (Article + rest)[|Article|..] == rest;
  }

  /** A leading `"a pair of "` is deleted. */
  lemma StripPairArticle(rest: string)
    ensures StripArticles(PairArticle + rest) == StripArticles(rest)
  {
    assert (PairArticle + rest)[|PairArticle|..] == rest;
  }

  /** No `'a'` of `p` is directly followed by a space, counting the first character of `rest`. */
  predicate NoArticleStart(p: string, rest: string) {
    && (forall i :: 0 <= i < |p| - 1 ==> !(p[i] == 'a' && p[i + 1] == ' '))
    && (p != [] && rest != [] ==> !(p[|p| - 1] == 'a' && rest[0] == ' '))
  }

  /** A prefix at none of whose positions an article starts is kept as it is. */
  lemma {:induction false} StripKeepsPrefix(p: string, rest: string)
    requires NoArticleStart(p, rest)
    ensures StripArticles(p + rest) == p + StripArticles(rest)
    decreases |p|
  {
    var s := p + rest;
    if p == [] {
      assert s == rest;
    } else {
      NoArticleAtHead(p, rest);
      NoArticleStartTail(p, rest);
      assert s[1..] == p[1..] + rest;
      calc {
        StripArticles(s);
        { StripNoArticleHead(s); }
        [p[0]] + StripArticles(p[1..] + rest);
        { StripKeepsPrefix(p[1..], rest); }
        [p[0]] + (p[1..] + StripArticles(rest));
        { assert p == [p[0]] + p[1..]; }
        p + StripArticles(rest);
      }
    }
  }

  /** The joined text does not start with `"a "` when the prefix rules it out. */
  lemma NoArticleAtHead(p: string, rest: string)
    requires p != [] && NoArticleStart(p, rest)
    ensures !StartsWith(p + rest, Article)
  {
    var s := p + rest;
    ArticleChars(s);
    if |p| > 1 {
      assert s[0] == p[0] && s[1] == p[1];
    } else if rest != [] {
      assert s[0] == p[0] && s[1] == rest[0];
    } else {
      assert |s| == 1;
    }
  }

  lemma StripNoArticleHead(s: string)
    requires s != [] && !StartsWith(s, Article)
    ensures StripArticles(s) == [s[0]] + StripArticles(s[1..])
  {
    PairArticleStartsWithArticle(s);
  }

  lemma NoArticleStartTail(p: string, rest: string)
    requires p != [] && NoArticleStart(p, rest)
    ensures NoArticleStart(p[1..], rest)
  {
    var t := p[1..];
    forall i | 0 <= i < |t| - 1
      ensures !(t[i] == 'a' && t[i + 1] == ' ')
    {
      assert t[i] == p[i + 1] && t[i + 1] == p[i + 2];
    }
  }

  /** `"a "` before a word with no `"a "` in it leaves the word. */
  lemma StripArticleWord(w: string)
    requires |w| > 0 && w[0] != 'p'
    requires forall i :: 0 <= i < |w| - 1 ==> !(w[i] == 'a' && w[i + 1] == ' ')
    ensures StripArticles(Article + w) == w
  {
    assert (Article + w)[2] == w[0];
    PairArticleThirdChar(Article + w);
    StripArticle(w);
    NoArticleWithoutA(w);
    StripArticlesNoArticle(w);
  }

  /** The single-item phrase of the extraction test. */
  lemma StripSingleItem()
    ensures StripArticles("a smartwatch") == "smartwatch"
  {
    assert "a smartwatch" == Article + "smartwatch";
    StripArticleWord("smartwatch");
  }

  /** Every quantifier of a two-item phrase is removed, not only the first. */
  lemma StripTwoItems()
    ensures StripArticles("a pair of " + "headphones and " + "a smartphone") == "headphones and " + "smartphone"
  {
    StripTwoItemsParts("a pair of " + "headphones and " + "a smartphone", "headphones and ", "a smartphone");
  }

  lemma StripTwoItemsParts(phrase: string, first: string, second: string)
    requires phrase == PairArticle + (first + second)
    requires first == "headphones and " && second == "a smartphone"
    ensures StripArticles(phrase) == first + "smartphone"
  {
    StripPairArticle(first + second);
    StripTwoItemsTail(first, second);
  }

  lemma HeadphonesNoArticle(first: string, second: string)
    requires first == "headphones and " && second == "a smartphone"
    ensures NoArticleStart(first, second)
  {
  }

  lemma StripTwoItemsTail(first: string, second: string)
    requires first == "headphones and " && second == "a smartphone"
    ensures StripArticles(first + second) == first + "smartphone"
  {
    HeadphonesNoArticle(first, second);
    StripKeepsPrefix(first, second);
    StripSmartphone(second);
  }

  lemma StripSmartphone(second: string)
    requires second == "a smartphone"
    ensures StripArticles(second) == "smartphone"
  {
    assert second == Article + "smartphone";
    StripArticleWord("smartphone");
  }

  /** The rewrite is not word-aware: a word ending in `a` loses that letter and the space after it. */
  lemma CamerNoArticle(first: string, second: string)
    requires first == "camer" && second == "a bag"
    ensures NoArticleStart(first, second)
  {
  }

  lemma StripInsideWord()
    ensures StripArticles("a camera bag") == "camerbag"
  {
    StripInsideWordParts("a camera bag", "camer", "a " + "bag");
  }

  lemma StripInsideWordParts(phrase: string, first: string, second: string)
    requires phrase == Article + (first + second)
    requires first == "camer" && second == "a " + "bag"
    ensures StripArticles(phrase) == first + "bag"
  {
    PairArticleThirdChar(phrase);
    StripArticle(first + second);
    CamerNoArticle(first, second);
    StripKeepsPrefix(first, second);
    StripArticleWord("bag");
  }

  /** Text in which no `'a'` is directly followed by a space has no `"a "`. */
  lemma {:induction false} NoArticleWithoutA(s: string)
    requires forall i :: 0 <= i < |s| - 1 ==> !(s[i] == 'a' && s[i + 1] == ' ')
    ensures !Contains(s, Article)
    decreases |s|
  {
    if s != [] {
      NoArticleWithoutA(s[1..]);
      ArticleChars(s);
    }
  }

  // ---------------------------------------------------------------------
  // Row building and the line loop
  // ---------------------------------------------------------------------

  /** Number of fields of a row. */
  const RowWidth: nat := 11

  /**
   * The row built for one match, or `None` when the quantity, the price or
   * the total does not parse (the exception that ends the run).
   */
  function BuildRow(file: FileRef, g: Groups, decimal: DecimalText): Option<seq<string>> {
    match ParseInt(g.quantity)
    case None => None
    case Some(quantity) =>
      match decimal(g.price)
      case None => None
      case Some(price) =>
        match decimal(g.total)
        case None => None
        case Some(total) =>
          Some([file.folder, file.name, g.customer, g.product, g.productId,
                IntToString(quantity), price, total, g.date, g.status, StripArticles(g.wishlist)])
  }

  /**
   * A row is built exactly when the three numbers parse; it then has the 11
   * fields in their order, and its quantity field is `String.valueOf` of the
   * parsed quantity: it reads back as that number, and a `+` sign or leading
   * zeros in the matched text are not kept.
   */
  lemma BuildRowLayout(file: FileRef, g: Groups, decimal: DecimalText)
    ensures var r := BuildRow(file, g, decimal);
      && (r.Some? <==> ParseInt(g.quantity).Some? && decimal(g.price).Some? && decimal(g.total).Some?)
      && (r.Some? ==>
        && |r.value| == RowWidth
        && r.value[0] == file.folder && r.value[1] == file.name
        && r.value[2] == g.customer && r.value[3] == g.product && r.value[4] == g.productId
        && r.value[5] == IntToString(ParseInt(g.quantity).value)
        && ParseInt(r.value[5]) == ParseInt(g.quantity)
        && |r.value[5]| > 0 && (r.value[5][0] == '0' ==> r.value[5] == "0")
        && r.value[6] == decimal(g.price).value && r.value[7] == decimal(g.total).value
        && r.value[8] == g.date && r.value[9] == g.status
        && r.value[10] == StripArticles(g.wishlist))
  {
    if ParseInt(g.quantity).Some? {
      QuantityText(ParseInt(g.quantity).value);
    }
  }

  /** `String.valueOf` of a parsed quantity reads back as it and has no leading zero. */
  lemma QuantityText(q: int)
    requires InIntRange(q)
    ensures var t := IntToString(q);
      ParseInt(t) == Some(q) && |t| > 0 && (t[0] == '0' ==> t == "0")
  {
    ParseIntRoundTrip(q);
    if q >= 0 {
      NatToStringDigits(q);
    }
  }

  /** The rows a run appends, and whether it stopped at a number that did not parse. */
  datatype Extraction = Extraction(rows: seq<seq<string>>, aborted: bool)

  /**
   * One line's effect in front of what the later lines give: no match adds
   * nothing, a match whose row cannot be built stops the run, any other match
   * puts its row first.
   */
  function ProcessLine(file: FileRef, line: string, rest: Extraction, pattern: Pattern, decimal: DecimalText): Extraction {
    match pattern(line)
    case None => rest
    case Some(g) =>
      match BuildRow(file, g, decimal)
      case None => Extraction([], true)
      case Some(row) => Extraction([row] + rest.rows, rest.aborted)
  }

  /** The rows appended for `lines`, in line order, up to the first row that cannot be built. */
  function Extract(file: FileRef, lines: seq<string>, pattern: Pattern, decimal: DecimalText): Extraction
    decreases |lines|
  {
    if lines == [] then Extraction([], false)
    else ProcessLine(file, lines[0], Extract(file, lines[1..], pattern, decimal), pattern, decimal)
  }

  /** The extraction of `a`'s lines followed by `b`'s: `b` counts only if `a` did not stop. */
  function Followed(a: Extraction, b: Extraction): Extraction {
    if a.aborted then a else Extraction(a.rows + b.rows, b.aborted)
  }

  /** The number of lines for which the pattern finds a match. */
  function MatchCount(lines: seq<string>, pattern: Pattern): nat
    decreases |lines|
  {
    if lines == [] then 0
    else (if pattern(lines[0]).Some? then 1 else 0) + MatchCount(lines[1..], pattern)
  }

  /**
   * Every appended row has the 11 fields, with the folder and the file name
   * taken from the file, not from the text, and a quantity field that parses.
   */
  lemma {:induction false} ExtractRowShape(file: FileRef, lines: seq<string>, pattern: Pattern, decimal: DecimalText)
    ensures forall row :: row in Extract(file, lines, pattern, decimal).rows ==>
      |row| == RowWidth && row[0] == file.folder && row[1] == file.name && ParseInt(row[5]).Some?
    decreases |lines|
  {
    if lines != [] {
      ExtractRowShape(file, lines[1..], pattern, decimal);
      if pattern(lines[0]).Some? {
        BuildRowLayout(file, pattern(lines[0]).value, decimal);
      }
    }
  }

  /**
   * One row per matching line: a run that is not aborted appends exactly as
   * many rows as there are matching lines, an aborted one fewer.
   */
  lemma {:induction false} ExtractCount(file: FileRef, lines: seq<string>, pattern: Pattern, decimal: DecimalText)
    ensures var e := Extract(file, lines, pattern, decimal);
      if e.aborted then |e.rows| < MatchCount(lines, pattern) else |e.rows| == MatchCount(lines, pattern)
    decreases |lines|
  {
    if lines != [] {
      ExtractCount(file, lines[1..], pattern, decimal);
    }
  }

  /** A line the pattern does not match contributes nothing, wherever it stands. */
  lemma {:induction false} ExtractSkipsNonMatching(file: FileRef, before: seq<string>, line: string, after: seq<string>,
                                                   pattern: Pattern, decimal: DecimalText)
    requires pattern(line).None?
    ensures Extract(file, before + [line] + after, pattern, decimal) == Extract(file, before + after, pattern, decimal)
    decreases |before|
  {
    if before == [] {
      assert (before + [line] + after)[1..] == before + after;
    } else {
      ExtractSkipsNonMatching(file, before[1..], line, after, pattern, decimal);
      assert (before + [line] + after)[1..] == before[1..] + [line] + after;
      assert (before + after)[1..] == before[1..] + after;
    }
  }

  /**
   * Lines are processed one after another: the rows for `first + second` are
   * those for `first` followed, unless the run stopped inside `first`, by
   * those for `second`.
   */
  lemma {:induction false} ExtractConcat(file: FileRef, first: seq<string>, second: seq<string>,
                                         pattern: Pattern, decimal: DecimalText)
    ensures Extract(file, first + second, pattern, decimal)
      == Followed(Extract(file, first, pattern, decimal), Extract(file, second, pattern, decimal))
    decreases |first|
  {
    if first == [] {
      assert first + second == second;
    } else {
      var whole := first + second;
      assert whole[0] == first[0];
      assert whole[1..] == first[1..] + second;
      ExtractConcat(file, first[1..], second, pattern, decimal);
      ProcessLineFollowed(file, first[0], Extract(file, first[1..], pattern, decimal),
                          Extract(file, second, pattern, decimal), pattern, decimal);
    }
  }

  /** Processing a line in front commutes with appending a later extraction. */
  lemma ProcessLineFollowed(file: FileRef, line: string, a: Extraction, b: Extraction, pattern: Pattern, decimal: DecimalText)
    ensures ProcessLine(file, line, Followed(a, b), pattern, decimal)
      == Followed(ProcessLine(file, line, a, pattern, decimal), b)
  {
    if pattern(line).Some? && BuildRow(file, pattern(line).value, decimal).Some? && !a.aborted {
      var row := BuildRow(file, pattern(line).value, decimal).value;
      assert [row] + (a.rows + b.rows) == ([row] + a.rows) + b.rows;
    }
  }

  /** The line of the extraction test yields exactly the expected row. */
  lemma ExtractTestLine(file: FileRef, line: string, pattern: Pattern, decimal: DecimalText)
    requires pattern(line) == Some(Groups("Alice", "laptop", "L123", "1", "999.99", "999.99",
                                          "2024-07-10", "delivered", "a smartwatch"))
    requires decimal("999.99") == Some("999.99")
    ensures Extract(file, [line], pattern, decimal)
      == Extraction([[file.folder, file.name, "Alice", "laptop", "L123", "1", "999.99", "999.99",
                      "2024-07-10", "delivered", "smartwatch"]], false)
  {
    var g := pattern(line).value;
    var row := [file.folder, file.name, "Alice", "laptop", "L123", "1", "999.99", "999.99",
                "2024-07-10", "delivered", "smartwatch"];
    assert BuildRow(file, g, decimal) == Some(row) by {
      QuantityOne();
      StripSingleItem();
    }
    assert [line][1..] == [];
    assert Extract(file, [line][1..], pattern, decimal) == Extraction([], false);
  }

  lemma QuantityOne()
    ensures ParseInt("1") == Some(1) && IntToString(1) == "1"
  {
    assert "1"[0] == '1';
    assert AllDigits("1") && DigitsValue("1") == 1 by {
      assert "1"[..0] == [];
    }
  }

  // ---------------------------------------------------------------------
  // The shared list and the per-file task
  // ---------------------------------------------------------------------

  /** The list of rows shared by all file tasks; it only grows at its end. */
  class RecordList {
    var rows: seq<seq<string>>

    constructor ()
      ensures rows == []
    {
      rows := [];
    }

    /** The synchronized `add`: appends one row. */
    method Add(row: seq<string>)
      modifies this
      ensures rows == old(rows) + [row]
    {
      rows := rows + [row];
    }
  }

  /** The task that extracts the rows of one file into the shared list. */
  class CustomerDetailsFiles {
    const file: FileRef
    const pattern: Pattern
    const csvData: RecordList

    constructor (file: FileRef, pattern: Pattern, csvData: RecordList)
      ensures this.file == file && this.pattern == pattern && this.csvData == csvData
    {
      this.file := file;
      this.pattern := pattern;
      this.csvData := csvData;
    }

    /**
     * Reads the file line by line and appends one row per matching line.
     * Rows already in the list are kept and nothing else changes; a number
     * that does not parse ends the run (rows appended before stay), and a
     * read error ends it after the lines read so far.
     */
    method Run(text: FileText, decimal: DecimalText) returns (outcome: RunOutcome)
      modifies csvData
      ensures var e := Extract(file, text.lines, pattern, decimal);
        && csvData.rows == old(csvData.rows) + e.rows
        && outcome == (if e.aborted then NumberFormatError else if text.readFails then ReadError else Finished)
    {
      var lines := text.lines;
      ghost var all := Extract(file, lines, pattern, decimal);
      var i := 0;
      while i < |lines|
        invariant 0 <= i <= |lines|
        invariant csvData.rows + Extract(file, lines[i..], pattern, decimal).rows == old(csvData.rows) + all.rows
        invariant Extract(file, lines[i..], pattern, decimal).aborted == all.aborted
      {
        var line := lines[i];
        ghost var here := Extract(file, lines[i..], pattern, decimal);
        ghost var next := Extract(file, lines[i + 1..], pattern, decimal);
        assert lines[i..][0] == line && lines[i..][1..] == lines[i + 1..];
        var matcher := pattern(line);
        if matcher.Some? {
          var rowData := BuildRow(file, matcher.value, decimal);
          if rowData.None? {
            assert here == Extraction([], true);
            return NumberFormatError;
          }
          assert here == Extraction([rowData.value] + next.rows, next.aborted);
          assert csvData.rows + [rowData.value] + next.rows == csvData.rows + ([rowData.value] + next.rows);
          csvData.Add(rowData.value);
        } else {
          assert here == next;
        }
        i := i + 1;
      }
      assert lines[i..] == [];
      outcome := if text.readFails then ReadError else Finished;
    }
  }
}
