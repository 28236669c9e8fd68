/**
 * The few `java.lang.String` and `java.lang.Integer` operations that the
 * extraction and aggregation code relies on, written out over `seq<char>`.
 */
module JavaText {
  import opened Options

  /** Bounds of a Java `int`. */
  const IntMin: int := -0x8000_0000
  const IntMax: int := 0x7fff_ffff

  predicate InIntRange(n: int) {
    IntMin <= n <= IntMax
  }

  // ---------------------------------------------------------------------
  // Case, prefixes, suffixes, substrings
  // ---------------------------------------------------------------------

  /** `Character.toLowerCase` on the ASCII letters; every other character is kept. */
  function LowerChar(c: char): char {
    if 'A' <= c <= 'Z' then (c as int - 'A' as int + 'a' as int) as char else c
  }

  /** `String.toLowerCase()` for text whose letters are ASCII. */
  function ToLower(s: string): string {
    seq(|s|, i requires 0 <= i < |s| => LowerChar(s[i]))
  }

  predicate StartsWith(s: string, prefix: string) {
    |prefix| <= |s| && s[..|prefix|] == prefix
  }

  predicate EndsWith(s: string, suffix: string) {
    |suffix| <= |s| && s[|s| - |suffix|..] == suffix
  }

  /** `s.contains(t)`: `t` occurs at some position of `s`. */
  predicate Contains(s: string, t: string)
    decreases |s|
  {
    StartsWith(s, t) || (s != [] && Contains(s[1..], t))
  }

  // ---------------------------------------------------------------------
  // Integer.parseInt and String.valueOf(int)
  // ---------------------------------------------------------------------

  predicate IsDigit(c: char) {
    '0' <= c <= '9'
  }

  predicate AllDigits(s: string) {
    forall i :: 0 <= i < |s| ==> IsDigit(s[i])
  }

  /** The value of a string of decimal digits, most significant first. */
  function DigitsValue(s: string): nat
    requires AllDigits(s)
    decreases |s|
  {
    if s == [] then 0 else 10 * DigitsValue(s[..|s| - 1]) + (s[|s| - 1] as int - '0' as int)
  }

  function DigitChar(d: nat): char
    requires d < 10
  {
    ('0' as int + d) as char
  }

  /** Decimal rendering of a natural number, without leading zeros. */
  function NatToString(n: nat): string
    decreases n
  {
    if n < 10 then [DigitChar(n)] else NatToString(n / 10) + [DigitChar(n % 10)]
  }

  /** `String.valueOf(int)`. */
  function IntToString(n: int): string {
    if n < 0 then "-" + NatToString(-n) else NatToString(n)
  }

  /**
   * `Integer.parseInt(s)`: an optional sign followed by at least one decimal
   * digit, whose value lies in the `int` range; `None` stands for the
   * `NumberFormatException` thrown otherwise.
   */
  function ParseInt(s: string): Option<int> {
    if s == [] then None
    else
      var digits := if s[0] == '-' || s[0] == '+' then s[1..] else s;
      if digits == [] || !AllDigits(digits) then None
      else
        var v: int := if s[0] == '-' then -(DigitsValue(digits) as int) else DigitsValue(digits);
        if InIntRange(v) then Some(v) else None
  }

  /** `NatToString` yields digits only, with no leading zero, that read back as `n`. */
  lemma {:induction false} NatToStringDigits(n: nat)
    ensures |NatToString(n)| > 0 && AllDigits(NatToString(n))
    ensures DigitsValue(NatToString(n)) == n
    ensures NatToString(n)[0] == '0' ==> n == 0
    decreases n
  {
    if n >= 10 {
      NatToStringDigits(n / 10);
      var s := NatToString(n);
      assert s == NatToString(n / 10) + [DigitChar(n % 10)];
      assert s[..|s| - 1] == NatToString(n / 10);
    }
  }

  /** Reading back what `String.valueOf(int)` wrote gives the same `int`. */
  lemma ParseIntRoundTrip(n: int)
    requires InIntRange(n)
    ensures ParseInt(IntToString(n)) == Some(n)
  {
    if n < 0 {
      ParseNegative(n);
    } else {
      ParseNonNegative(n);
    }
  }

  /** The rendering of a non-negative `int` has no sign and reads back as it. */
  lemma ParseNonNegative(n: nat)
    requires n <= IntMax
    ensures ParseInt(NatToString(n)) == Some(n)
  {
    NatToStringDigits(n);
    var s := NatToString(n);
    assert IsDigit(s[0]);
  }

  /** The rendering of a negative `int` is a minus sign, then digits that read back as its magnitude. */
  lemma ParseNegative(n: int)
    requires IntMin <= n < 0
    ensures ParseInt("-" + NatToString(-n)) == Some(n)
  {
    NatToStringDigits(-n);
    var s := "-" + NatToString(-n);
    assert s[0] == '-' && s[1..] == NatToString(-n);
  }

  /**
   * A digit string in range parses to its value, and rendering that value
   * again drops any leading zeros: the rendered text is digits only and starts
   * with `0` only when it is `"0"`.
   */
  lemma DigitsCanonical(d: string)
    requires d != [] && AllDigits(d) && DigitsValue(d) <= IntMax
    ensures ParseInt(d) == Some(DigitsValue(d))
    ensures var t := IntToString(DigitsValue(d));
      AllDigits(t) && DigitsValue(t) == DigitsValue(d) && (t[0] == '0' ==> t == "0")
  {
    assert IsDigit(d[0]);
    NatToStringDigits(DigitsValue(d));
  }

  // ---------------------------------------------------------------------
  // String.split(", ")
  // ---------------------------------------------------------------------

  /** The literal separator the wishlist text is split on. */
  const Separator: string := ", "

  /**
   * The pieces between the occurrences of `Separator`, found left to right,
   * keeping every piece (also empty ones): the first stage of `Pattern.split`.
   */
  function SplitAll(s: string): (pieces: seq<string>)
    ensures |pieces| >= 1
    decreases |s|
  {
    if s == [] then [""]
    else if StartsWith(s, Separator) then [""] + SplitAll(s[2..])
    else
      var rest := SplitAll(s[1..]);
      [[s[0]] + rest[0]] + rest[1..]
  }

  /** `String.join(", ", pieces)`. */
  function Join(pieces: seq<string>): string
    requires |pieces| >= 1
    decreases |pieces|
  {
    if |pieces| == 1 then pieces[0] else pieces[0] + Separator + Join(pieces[1..])
  }

  /** Removes the empty strings at the end of `pieces`. */
  function DropTrailingEmpty(pieces: seq<string>): (r: seq<string>)
    decreases |pieces|
  {
    if pieces != [] && pieces[|pieces| - 1] == "" then DropTrailingEmpty(pieces[..|pieces| - 1])
    else pieces
  }

  /**
   * `s.split(", ")`: when the separator does not occur the result is `[s]`,
   * otherwise the pieces with trailing empty strings removed.
   */
  function Split(s: string): seq<string> {
    if !Contains(s, Separator) then [s] else DropTrailingEmpty(SplitAll(s))
  }

  /** Joining the pieces with the separator gives back the string. */
  lemma {:induction false} SplitJoin(s: string)
    ensures Join(SplitAll(s)) == s
    decreases |s|
  {
    if s == [] {
    } else if StartsWith(s, Separator) {
      SplitJoin(s[2..]);
      assert s == Separator + s[2..];
    } else {
      SplitJoin(s[1..]);
      var rest := SplitAll(s[1..]);
      if |rest| > 1 {
        assert rest[1..] == SplitAll(s)[1..];
        assert Join(rest) == rest[0] + Separator + Join(rest[1..]);
      }
      assert s == [s[0]] + s[1..];
    }
  }

  /** The first piece is a prefix of the string. */
  lemma {:induction false} SplitAllFirstPrefix(s: string)
    ensures StartsWith(s, SplitAll(s)[0])
    decreases |s|
  {
    if s != [] && !StartsWith(s, Separator) {
      SplitAllFirstPrefix(s[1..]);
      var p := SplitAll(s[1..])[0];
      assert SplitAll(s)[0] == [s[0]] + p;
      assert s[..|p| + 1] == [s[0]] + s[1..][..|p|];
    }
  }

  /**
   * No piece contains the separator: the string is cut at every occurrence.
   * With `SplitJoin` this fixes the pieces, as `", "` cannot overlap itself.
   */
  lemma {:induction false} SplitAllPiecesFree(s: string)
    ensures forall i :: 0 <= i < |SplitAll(s)| ==> !Contains(SplitAll(s)[i], Separator)
    decreases |s|
  {
    assert !Contains("", Separator);
    if s != [] && StartsWith(s, Separator) {
      SplitAllPiecesFree(s[2..]);
      assert SplitAll(s) == [""] + SplitAll(s[2..]);
    } else if s != [] {
      SplitAllPiecesFree(s[1..]);
      SplitAllFirstPrefix(s[1..]);
      var rest := SplitAll(s[1..]);
      var first := [s[0]] + rest[0];
      assert first[1..] == rest[0];
      assert StartsWith(first, Separator) ==> StartsWith(s, Separator);
      assert !Contains(first, Separator);
      assert SplitAll(s) == [first] + rest[1..];
      forall i | 1 <= i < |SplitAll(s)|
        ensures !Contains(SplitAll(s)[i], Separator)
      {
        assert SplitAll(s)[i] == rest[i];
      }
    }
  }

  /** Without a separator there is one piece, the string itself. */
  lemma {:induction false} SplitAllNoSeparator(s: string)
    requires !Contains(s, Separator)
    ensures SplitAll(s) == [s]
    decreases |s|
  {
    if s != [] {
      SplitAllNoSeparator(s[1..]);
      assert s == [s[0]] + s[1..];
    }
  }

  /**
   * `DropTrailingEmpty` keeps a prefix, removes only empty strings, and leaves
   * a result that is empty or ends in a non-empty piece.
   */
  lemma {:induction false} DropTrailingEmptySpec(pieces: seq<string>)
    ensures var r := DropTrailingEmpty(pieces);
      r <= pieces
      && (forall i :: |r| <= i < |pieces| ==> pieces[i] == "")
      && (r == [] || r[|r| - 1] != "")
    decreases |pieces|
  {
    if pieces != [] && pieces[|pieces| - 1] == "" {
      DropTrailingEmptySpec(pieces[..|pieces| - 1]);
    }
  }

  /**
   * For a non-empty string, `Split` is `SplitAll` with trailing empty pieces
   * dropped, whether or not the separator occurs; and the kept pieces, joined,
   * followed by the dropped separators, rebuild the string.
   */
  lemma SplitSpec(s: string)
    requires s != []
    ensures Split(s) == DropTrailingEmpty(SplitAll(s))
    ensures Split(s) <= SplitAll(s)
    ensures Split(s) == [] || Split(s)[|Split(s)| - 1] != ""
    ensures forall i :: |Split(s)| <= i < |SplitAll(s)| ==> SplitAll(s)[i] == ""
  {
    if !Contains(s, Separator) {
      SplitAllNoSeparator(s);
    }
    DropTrailingEmptySpec(SplitAll(s));
  }

  // ---------------------------------------------------------------------
  // Concrete cases
  // ---------------------------------------------------------------------

  /** A string without a comma holds no separator. */
  lemma {:induction false} NoCommaNoSeparator(s: string)
    requires forall i :: 0 <= i < |s| ==> s[i] != ','
    ensures !Contains(s, Separator)
    decreases |s|
  {
    if s != [] {
      NoCommaNoSeparator(s[1..]);
      SeparatorStartsWithComma(s);
    }
  }

  /** A comma-free prefix is glued to the first piece of what follows it. */
  lemma {:induction false} SplitAllCommaFreePrefix(p: string, rest: string)
    requires forall i :: 0 <= i < |p| ==> p[i] != ','
    ensures SplitAll(p + rest) == [p + SplitAll(rest)[0]] + SplitAll(rest)[1..]
    decreases |p|
  {
    var s := p + rest;
    if p == [] {
      assert s == rest;
      assert p + SplitAll(rest)[0] == SplitAll(rest)[0];
      assert SplitAll(rest) == [SplitAll(rest)[0]] + SplitAll(rest)[1..];
    } else {
      SplitAllCommaFreePrefix(p[1..], rest);
      assert s[1..] == p[1..] + rest;
      SeparatorStartsWithComma(s);
      var r := SplitAll(s[1..]);
      assert SplitAll(s) == [[s[0]] + r[0]] + r[1..];
      assert [s[0]] + (p[1..] + SplitAll(rest)[0]) == p + SplitAll(rest)[0];
    }
  }

  /** A string that starts with the separator starts with a comma. */
  lemma SeparatorStartsWithComma(s: string)
    ensures StartsWith(s, Separator) ==> s[0] == ','
  {
    if StartsWith(s, Separator) {
      assert s[..2][0] == s[0];
    }
  }

  /** Two comma-free, non-empty items joined by the separator split into the two items. */
  lemma SplitPair(a: string, b: string)
    requires a != [] && b != []
    requires forall i :: 0 <= i < |a| ==> a[i] != ','
    requires forall i :: 0 <= i < |b| ==> b[i] != ','
    ensures Split(a + Separator + b) == [a, b]
  {
    NoCommaNoSeparator(b);
    SplitAllNoSeparator(b);
    var tail := Separator + b;
    assert tail[2..] == b;
    assert StartsWith(tail, Separator);
    assert SplitAll(tail) == [""] + [b];
    SplitAllCommaFreePrefix(a, tail);
    assert a + Separator + b == a + tail;
    SplitSpecContains(a, tail);
    assert a + SplitAll(tail)[0] == a;
    assert SplitAll(a + tail) == [a, b];
  }

  /** Two wishlist items give two pieces. */
  lemma SplitTwoItems()
    ensures Split("laptop, smartwatch") == ["laptop", "smartwatch"]
  {
    assert "laptop, smartwatch" == "laptop" + Separator + "smartwatch";
    SplitPair("laptop", "smartwatch");
  }

  /** A lone separator has only empty pieces, all of them dropped. */
  lemma SplitLoneSeparator()
    ensures Split(", ") == []
  {
    assert StartsWith(", ", Separator);
    assert ", "[2..] == [];
    assert SplitAll(", ") == ["", ""];
    assert Contains(", ", Separator);
    assert ["", ""][..1] == [""];
    assert [""][..0] == [];
  }

  /** Text without a separator is one piece. */
  lemma SplitSingleItem()
    ensures Split("smartwatch") == ["smartwatch"]
  {
    NoCommaNoSeparator("smartwatch");
  }

  /** A string that has a piece before a separator contains the separator. */
  lemma {:induction false} SplitSpecContains(p: string, rest: string)
    requires StartsWith(rest, Separator)
    ensures Contains(p + rest, Separator)
    decreases |p|
  {
    if p == [] {
      assert p + rest == rest;
    } else {
      SplitSpecContains(p[1..], rest);
      assert (p + rest)[1..] == p[1..] + rest;
    }
  }
}
