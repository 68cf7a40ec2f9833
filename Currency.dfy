/** Money amounts as text (Int+Currency.swift): the Korean-locale decimal
    spelling with a comma every three digits, the abbreviated "만원"
    (ten-thousand won) form, the "₩"-prefixed form, and parsing a typed
    amount back into an `Int`. */
module Currency {
  import opened Wrappers
  import opened Lists
  import opened Decimal
  import Models

  /** The range of Swift's 64-bit `Int`; `Int(String)` yields nil outside it. */
  const MinInt: int := -0x8000_0000_0000_0000
  const MaxInt: int := 0x7FFF_FFFF_FFFF_FFFF

  predicate NotComma(c: char) { c != ',' }

  predicate NotWon(c: char) { c != '₩' }

  // ------------------------------------------------------------ formatting

  /** A comma-grouped digit string: counted from the right, every fourth
      character is a comma and all others are digits, so the leftmost group
      has one to three digits and every other group exactly three. */
  ghost predicate GroupedDigits(s: string)
  {
    && |s| >= 1 && |s| % 4 != 0
    && (forall i :: 0 <= i < |s| ==> (s[i] == ',' <==> (|s| - i) % 4 == 0))
    && (forall i :: 0 <= i < |s| ==> s[i] == ',' || IsDigit(s[i]))
  }

  /** Inserts a comma before every group of three digits counted from the right. */
  function Group(ds: string): (s: string)
    requires AllDigits(ds) && |ds| >= 1
    ensures GroupedDigits(s)
    ensures Filter(s, NotComma) == ds
    decreases |ds|
  {
    if |ds| <= 3 then
      GroupShort(ds);
      ds
    else
      var g := Group(ds[..|ds| - 3]);
      GroupJoin(g, ds);
      g + [','] + ds[|ds| - 3..]
  }

  /** One to three digits are already grouped. */
  lemma GroupShort(ds: string)
    requires AllDigits(ds) && 1 <= |ds| <= 3
    ensures GroupedDigits(ds) && Filter(ds, NotComma) == ds
  {
    forall i | 0 <= i < |ds|
      ensures ds[i] != ',' && (|ds| - i) % 4 != 0
    {
      SmallRemainder(|ds| - i);
    }
    FilterAll(ds, NotComma);
  }

  lemma SmallRemainder(k: int)
    requires 1 <= k <= 3
    ensures k % 4 == k
  {
  }

  /** The grouped head of a digit string, a comma and its last three digits
      make the grouped string. */
  lemma GroupJoin(g: string, ds: string)
    requires AllDigits(ds) && |ds| > 3
    requires GroupedDigits(g) && Filter(g, NotComma) == ds[..|ds| - 3]
    ensures GroupedDigits(g + [','] + ds[|ds| - 3..])
    ensures Filter(g + [','] + ds[|ds| - 3..], NotComma) == ds
  {
    var head, tail := ds[..|ds| - 3], ds[|ds| - 3..];
    GroupStep(g, tail);
    GroupStepFilter(g, head, tail);
    assert head + tail == ds;
  }

  /** Appending a comma and three digits to a grouped string keeps it grouped. */
  lemma GroupStep(g: string, tail: string)
    requires GroupedDigits(g) && |tail| == 3 && AllDigits(tail)
    ensures GroupedDigits(g + [','] + tail)
  {
    var s := g + [','] + tail;
    assert |s| % 4 == |g| % 4;
    forall i | 0 <= i < |s|
      ensures (s[i] == ',' <==> (|s| - i) % 4 == 0)
      ensures s[i] == ',' || IsDigit(s[i])
    {
      if i < |g| {
        assert s[i] == g[i];
        assert (|s| - i) % 4 == (|g| - i) % 4;
      } else if i > |g| {
        assert s[i] == tail[i - |g| - 1];
      }
    }
  }

  lemma GroupStepFilter(g: string, head: string, tail: string)
    requires Filter(g, NotComma) == head && AllDigits(tail)
    ensures Filter(g + [','] + tail, NotComma) == head + tail
  {
    var rest := [','] + tail;
    assert g + [','] + tail == g + rest;
    assert Filter(rest, NotComma) == tail by {
      FilterAppend([','], tail, NotComma);
      assert Filter([','], NotComma) == [] by { assert [','][1..] == []; }
      FilterAll(tail, NotComma);
      assert [] + tail == tail;
    }
    FilterAppend(g, rest, NotComma);
  }

  function Sign(n: int): string
  {
    if n < 0 then "-" else ""
  }

  /** `formattedWithComma`: a minus sign for negative amounts, then the digits
      of the magnitude grouped by commas. */
  function FormattedWithComma(n: int): (s: string)
    ensures |s| >= 1
    ensures n < 0 <==> s[0] == '-'
    ensures GroupedDigits(s[|Sign(n)|..])
    ensures Filter(s[|Sign(n)|..], NotComma) == Digits(Models.Abs(n))
  {
    var s := Sign(n) + Group(Digits(Models.Abs(n)));
    assert s[|Sign(n)|..] == Group(Digits(Models.Abs(n)));
    s
  }

  /** `formattedCurrency`: the grouped amount after a won sign. */
  function FormattedCurrency(n: int): (s: string)
    ensures |s| >= 2 && s[0] == '₩' && s[1..] == FormattedWithComma(n)
  {
    "₩" + FormattedWithComma(n)
  }

  /** `formattedKoreanCurrency`: from 10000 up, the number of whole
      ten-thousands followed by "만원" (the remainder is dropped); below
      that, the grouped amount followed by "원". */
  function FormattedKoreanCurrency(n: int): (s: string)
    ensures |s| >= 2 && s[|s| - 1] == '원'
  {
    if n >= 10000 then Digits(n / 10000) + "만원" else FormattedWithComma(n) + "원"
  }

  // --------------------------------------------------------------- parsing

  /** The characters of `CharacterSet.whitespaces`: the Unicode space
      separators (category Zs) and the horizontal tab. */
  predicate IsWhitespace(c: char)
  {
    || c == ' ' || c == '\t' || c == '\U{00A0}' || c == '\U{1680}'
    || ('\U{2000}' <= c <= '\U{200A}')
    || c == '\U{202F}' || c == '\U{205F}' || c == '\U{3000}'
  }

  /** Swift's `Int(String)`: an optional `+` or `-`, then one or more ASCII
      digits and nothing else, with a value that fits in 64 bits. */
  function ParseInt(t: string): (r: Option<int>)
    ensures r.Some? ==> MinInt <= r.value <= MaxInt
    ensures r.Some? ==> |t| >= 1 && IsDigit(t[|t| - 1])
    ensures r.Some? ==> forall i :: 0 < i < |t| ==> IsDigit(t[i])
    ensures r.Some? ==> IsDigit(t[0]) || t[0] == '-' || t[0] == '+'
  {
    if t == [] then None
    else
      var negative := t[0] == '-';
      var body := if t[0] == '-' || t[0] == '+' then t[1..] else t;
      if body == [] || !AllDigits(body) then None
      else
        assert forall i :: 0 < i < |t| ==> t[i] == body[i - (|t| - |body|)];
        var magnitude: int := ParseDigits(body);
        var v := if negative then -magnitude else magnitude;
        if MinInt <= v <= MaxInt then Some(v) else None
  }

  /** `intFromCurrencyString`: removes every comma and won sign, trims
      whitespace, and parses what is left. */
  function IntFromCurrencyString(s: string): (r: Option<int>)
    ensures r.Some? ==> MinInt <= r.value <= MaxInt
  {
    ParseInt(Trim(Filter(Filter(s, NotComma), NotWon), IsWhitespace))
  }

  // ---------------------------------------------------------------- lemmas

  /** The sign followed by the magnitude's digits parses back to the number. */
  lemma ParseSpelled(n: int)
    requires MinInt <= n <= MaxInt
    ensures ParseInt(Sign(n) + Digits(Models.Abs(n))) == Some(n)
  {
    var d := Digits(Models.Abs(n));
    ParseDigitsOfDigits(Models.Abs(n));
    if n < 0 {
      assert Sign(n) + d == "-" + d;
      ParseNegative(d, -n);
    } else {
      assert Sign(n) + d == d;
      ParseNonNegative(d, n);
    }
  }

  lemma ParseNegative(d: string, m: nat)
    requires |d| >= 1 && AllDigits(d) && ParseDigits(d) == m && m <= -MinInt
    ensures ParseInt("-" + d) == Some(-(m as int))
  {
    var t := "-" + d;
    assert t[0] == '-' && t[1..] == d;
  }

  lemma ParseNonNegative(d: string, m: nat)
    requires |d| >= 1 && AllDigits(d) && ParseDigits(d) == m && m <= MaxInt
    ensures ParseInt(d) == Some(m)
  {
    assert IsDigit(d[0]);
  }

  /** Removing commas and won signs from a signed grouped amount leaves the
      sign and the magnitude's digits. */
  lemma CleanFormatted(n: int)
    ensures Filter(Filter(FormattedWithComma(n), NotComma), NotWon) == Sign(n) + Digits(Models.Abs(n))
    ensures Filter(Filter(FormattedCurrency(n), NotComma), NotWon) == Sign(n) + Digits(Models.Abs(n))
  {
    CleanGrouped(n);
    CleanWon(n);
  }

  lemma CleanGrouped(n: int)
    ensures Filter(FormattedWithComma(n), NotComma) == Sign(n) + Digits(Models.Abs(n))
    ensures Filter(Sign(n) + Digits(Models.Abs(n)), NotWon) == Sign(n) + Digits(Models.Abs(n))
  {
    var sign, d := Sign(n), Digits(Models.Abs(n));
    var g := Group(d);
    assert FormattedWithComma(n) == sign + g;
    FilterAppend(sign, g, NotComma);
    FilterAll(sign, NotComma);
    FilterAll(sign + d, NotWon);
  }

  lemma CleanWon(n: int)
    ensures Filter(Filter(FormattedCurrency(n), NotComma), NotWon) == Sign(n) + Digits(Models.Abs(n))
  {
    var t := Sign(n) + Digits(Models.Abs(n));
    CleanGrouped(n);
    FilterAppend("₩", FormattedWithComma(n), NotComma);
    assert Filter("₩", NotComma) == "₩";
    FilterAppend("₩", t, NotWon);
    assert Filter("₩", NotWon) == "";
  }

  /** A string whose cleaned form is a spelled-out number parses to it. */
  lemma ParseCleaned(s: string, n: int)
    requires MinInt <= n <= MaxInt
    requires Filter(Filter(s, NotComma), NotWon) == Sign(n) + Digits(Models.Abs(n))
    ensures IntFromCurrencyString(s) == Some(n)
  {
    var d := Digits(Models.Abs(n));
    var t := Sign(n) + d;
    assert t[|t| - 1] == d[|d| - 1];
    assert t[0] == '-' || t[0] == d[0];
    TrimUnchanged(t, IsWhitespace);
    ParseSpelled(n);
  }

  /** `Int(String)` on an optional sign and a digit string: the signed
      value of the digits, leading zeros allowed, exactly when it fits in
      64 bits. */
  lemma ParseSigned(sign: string, d: string)
    requires sign == "" || sign == "+" || sign == "-"
    requires |d| >= 1 && AllDigits(d)
    ensures var v := if sign == "-" then -(ParseDigits(d) as int) else ParseDigits(d);
      ParseInt(sign + d) == if MinInt <= v <= MaxInt then Some(v) else None
  {
    var t := sign + d;
    if sign == "" {
      assert t == d && IsDigit(t[0]);
    } else if sign == "-" {
      assert t[0] == '-' && t[1..] == d;
    } else {
      assert t[0] == '+' && t[1..] == d;
    }
  }

  /** Typed text whose cleaned form is a signed digit string padded with
      whitespace parses to the signed value of the digits when it fits in
      64 bits, and to nothing otherwise. */
  lemma ParseCleanedSigned(s: string, pre: string, sign: string, d: string, post: string)
    requires sign == "" || sign == "+" || sign == "-"
    requires |d| >= 1 && AllDigits(d)
    requires forall i :: 0 <= i < |pre| ==> IsWhitespace(pre[i])
    requires forall i :: 0 <= i < |post| ==> IsWhitespace(post[i])
    requires Filter(Filter(s, NotComma), NotWon) == pre + (sign + d) + post
    ensures var v := if sign == "-" then -(ParseDigits(d) as int) else ParseDigits(d);
      IntFromCurrencyString(s) == if MinInt <= v <= MaxInt then Some(v) else None
  {
    var t := sign + d;
    SignedEnds(sign, d);
    TrimPadded(pre, t, post, IsWhitespace);
    ParseSigned(sign, d);
  }

  lemma SignedEnds(sign: string, d: string)
    requires sign == "" || sign == "+" || sign == "-"
    requires |d| >= 1 && AllDigits(d)
    ensures var t := sign + d; !IsWhitespace(t[0]) && !IsWhitespace(t[|t| - 1])
  {
    var t := sign + d;
    assert t[|t| - 1] == d[|d| - 1];
    if sign == "" { assert t[0] == d[0]; } else { assert t[0] == sign[0]; }
  }

  /** Parsing a formatted amount gives the amount back, for every `Int`. */
  lemma CurrencyRoundTrip(n: int)
    requires MinInt <= n <= MaxInt
    ensures IntFromCurrencyString(FormattedWithComma(n)) == Some(n)
    ensures IntFromCurrencyString(FormattedCurrency(n)) == Some(n)
  {
    CleanFormatted(n);
    ParseCleaned(FormattedWithComma(n), n);
    ParseCleaned(FormattedCurrency(n), n);
  }

  /** The abbreviated form: from 10000 up, the digits before "만원" count
      the whole ten-thousands of the amount and the rest is dropped; below
      10000, the text before "원" is the grouped amount, which parses back. */
  lemma {:induction false} KoreanCurrencyParts(n: int)
    ensures var s := FormattedKoreanCurrency(n);
      n >= 10000 ==>
        && |s| > 2 && s[|s| - 2..] == "만원" && AllDigits(s[..|s| - 2])
        && ParseDigits(s[..|s| - 2]) * 10000 <= n < ParseDigits(s[..|s| - 2]) * 10000 + 10000
    ensures var s := FormattedKoreanCurrency(n);
      MinInt <= n < 10000 ==>
        && |s| > 1 && s[|s| - 1] == '원'
        && IntFromCurrencyString(s[..|s| - 1]) == Some(n)
  {
    var s := FormattedKoreanCurrency(n);
    if n >= 10000 {
      var d := Digits(n / 10000);
      assert s[..|s| - 2] == d;
      ParseDigitsOfDigits(n / 10000);
    } else if MinInt <= n {
      assert s[..|s| - 1] == FormattedWithComma(n);
      CurrencyRoundTrip(n);
    }
  }

  /** A string ending in a character that is kept by cleaning and is not a
      digit never parses. */
  lemma TrailingNonDigit(s: string)
    requires |s| >= 1
    requires !IsDigit(s[|s| - 1]) && NotComma(s[|s| - 1]) && NotWon(s[|s| - 1])
    requires !IsWhitespace(s[|s| - 1])
    ensures IntFromCurrencyString(s) == None
  {
    var c := s[|s| - 1];
    var p := s[..|s| - 1];
    assert s == p + [c];
    assert Filter([c], NotComma) == [c] by { assert [c][1..] == []; }
    assert Filter([c], NotWon) == [c] by { assert [c][1..] == []; }
    FilterAppend(p, [c], NotComma);
    var c1 := Filter(p, NotComma);
    FilterAppend(c1, [c], NotWon);
    var c2 := Filter(c1, NotWon) + [c];
    assert Filter(Filter(s, NotComma), NotWon) == c2;
    TrimKeepsLast(c2, IsWhitespace);
  }

  /** The abbreviated form does not parse back: its unit suffix is neither
      removed nor trimmed, so the parse always fails. */
  lemma KoreanCurrencyDoesNotParse(n: int)
    ensures IntFromCurrencyString(FormattedKoreanCurrency(n)) == None
  {
    var s := FormattedKoreanCurrency(n);
    assert s[|s| - 1] == '원';
    TrailingNonDigit(s);
  }

  /** The values the doc comments give. */
  lemma ExampleAbbreviated()
    ensures FormattedKoreanCurrency(50000) == "5만원"
    ensures FormattedKoreanCurrency(125000) == "12만원"
  {
    assert Digits(12) == "12";
  }

  lemma ExampleSmall()
    ensures FormattedKoreanCurrency(3500) == "3,500원"
  {
    DigitsSmallExample();
    GroupSmallExample("3500");
    CommaOf(3500, "3500", "3,500");
    KoreanSmallOf(3500, "3,500");
  }

  lemma ExampleGrouped()
    ensures FormattedWithComma(50000) == "50,000"
  {
    DigitsExample();
    GroupExample("50000");
    CommaOf(50000, "50000", "50,000");
  }

  lemma CommaOf(n: nat, d: string, g: string)
    requires Digits(n) == d && AllDigits(d) && |d| >= 1 && Group(d) == g
    ensures FormattedWithComma(n) == g
  {
    assert Sign(n) == "" && Models.Abs(n) == n;
  }

  lemma KoreanSmallOf(n: int, g: string)
    requires n < 10000 && FormattedWithComma(n) == g
    ensures FormattedKoreanCurrency(n) == g + "원"
  {
  }

  lemma DigitsSmallExample()
    ensures Digits(3500) == "3500"
  {
    assert Digits(3) == "3";
    assert Digits(35) == "35";
    assert Digits(350) == "350";
  }

  lemma DigitsExample()
    ensures Digits(50000) == "50000"
  {
    assert Digits(5) == "5";
    assert Digits(50) == "50";
    assert Digits(500) == "500";
    assert Digits(5000) == "5000";
  }

  lemma GroupSmallExample(ds: string)
    requires ds == "3500"
    ensures Group(ds) == "3,500"
  {
    assert ds[..1] == "3" && ds[1..] == "500";
  }

  lemma GroupExample(ds: string)
    requires ds == "50000"
    ensures Group(ds) == "50,000"
  {
    assert ds[..2] == "50" && ds[2..] == "000";
    assert Group("50") == "50";
  }

  /** Leading zeros and a plus sign are accepted. */
  lemma ExampleLeadingZeros()
    ensures ParseInt("007") == Some(7)
    ensures ParseInt("+5") == Some(5)
  {
    assert ParseDigits("007") == 7 by {
      assert "007"[..2] == "00" && "00"[..1] == "0";
    }
    ParseSigned("", "007");
    ParseSigned("+", "5");
  }

  /** Commas anywhere and surrounding spaces are ignored. */
  lemma ExampleSpaced()
    ensures IntFromCurrencyString(" 1,2,3 ") == Some(123)
  {
    var s := " 1,2,3 ";
    CleanSpaced();
    assert ParseDigits("123") == 123 by {
      assert "123"[..2] == "12" && "12"[..1] == "1";
    }
    ParseCleanedSigned(s, " ", "", "123", " ");
  }

  lemma CleanSpaced()
    ensures Filter(Filter(" 1,2,3 ", NotComma), NotWon) == " 123 "
  {
    SpacedTail();
    assert Filter("1,2,3 ", NotComma) == "123 " by { assert "1,2,3 "[1..] == ",2,3 "; }
    assert Filter(" 1,2,3 ", NotComma) == " 123 " by { assert " 1,2,3 "[1..] == "1,2,3 "; }
    SpacedNoWon();
  }

  lemma SpacedTail()
    ensures Filter(",2,3 ", NotComma) == "23 "
  {
    assert Filter("3 ", NotComma) == "3 " by { FilterAll("3 ", NotComma); }
    assert Filter(",3 ", NotComma) == "3 " by { assert ",3 "[1..] == "3 "; }
    assert Filter("2,3 ", NotComma) == "23 " by { assert "2,3 "[1..] == ",3 "; }
    assert ",2,3 "[1..] == "2,3 ";
  }

  lemma SpacedNoWon()
    ensures Filter(" 123 ", NotWon) == " 123 "
  {
    FilterAll(" 123 ", NotWon);
  }


  lemma ExampleParse()
    ensures IntFromCurrencyString("50,000") == Some(50000)
  {
    ExampleGrouped();
    CurrencyRoundTrip(50000);
  }
}
