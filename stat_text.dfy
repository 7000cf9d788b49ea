/**
 * The hero statistics' text split: a figure such as "5,000+" is read as the
 * number 5000 and the suffix "+" before its counter is animated.
 */
module StatText {
  import opened Wrappers

  predicate IsAsciiDigit(c: char)
  {
    '0' <= c <= '9'
  }

  /** `text.replace(/[^0-9]/g, '')`: the digits, in order. */
  function KeepDigits(s: string): (r: string)
    ensures forall i :: 0 <= i < |r| ==> IsAsciiDigit(r[i])
    ensures |r| <= |s|
  {
    if |s| == 0 then []
    else if IsAsciiDigit(s[|s| - 1]) then KeepDigits(s[..|s| - 1]) + [s[|s| - 1]]
    else KeepDigits(s[..|s| - 1])
  }

  /** `text.replace(/[0-9,]/g, '')`: everything but digits and commas, in order. */
  function StripDigitsAndCommas(s: string): (r: string)
    ensures forall i :: 0 <= i < |r| ==> !IsAsciiDigit(r[i]) && r[i] != ','
    ensures |r| <= |s|
  {
    if |s| == 0 then []
    else if IsAsciiDigit(s[|s| - 1]) || s[|s| - 1] == ',' then StripDigitsAndCommas(s[..|s| - 1])
    else StripDigitsAndCommas(s[..|s| - 1]) + [s[|s| - 1]]
  }

  /** The number of commas. */
  function CommaCount(s: string): nat
  {
    if |s| == 0 then 0
    else CommaCount(s[..|s| - 1]) + (if s[|s| - 1] == ',' then 1 else 0)
  }

  /** The value of a string of decimal digits, most significant first. */
  function DecimalValue(digits: string): nat
    requires forall i :: 0 <= i < |digits| ==> IsAsciiDigit(digits[i])
  {
    if |digits| == 0 then 0
    else
      var last := digits[|digits| - 1];
      assert IsAsciiDigit(last);
      10 * DecimalValue(digits[..|digits| - 1]) + (last as int - '0' as int)
  }

  /**
   * The number and suffix of a statistic, or None where `parseInt` gives
   * NaN (no digit at all) and the figure is left as it is.
   */
  function SplitStat(text: string): Option<(nat, string)>
  {
    var digits := KeepDigits(text);
    if |digits| == 0 then None
    else Some((DecimalValue(digits), StripDigitsAndCommas(text)))
  }

  // ---------------------------------------------------------------------
  // Properties
  // ---------------------------------------------------------------------

  /**
   * The digit filter keeps a character exactly when it is a digit, and keeps
   * the kept ones in order: it maps a concatenation to the concatenation of
   * the filtered parts.
   */
  lemma {:induction false} KeepDigitsFilters(a: string, b: string)
    ensures KeepDigits(a + b) == KeepDigits(a) + KeepDigits(b)
    ensures |b| == 1 ==> KeepDigits(b) == (if IsAsciiDigit(b[0]) then b else [])
    decreases |b|
  {
    if |b| > 0 {
      var init := b[..|b| - 1];
      assert (a + b)[..|a + b| - 1] == a + init;
      assert (a + b)[|a + b| - 1] == b[|b| - 1];
      KeepDigitsFilters(a, init);
      if |b| == 1 {
        assert init == [];
      }
    } else {
      assert a + b == a;
    }
  }

  /**
   * The suffix filter keeps a character exactly when it is neither a digit
   * nor a comma, and keeps the kept ones in order.
   */
  lemma {:induction false} StripDigitsAndCommasFilters(a: string, b: string)
    ensures StripDigitsAndCommas(a + b) == StripDigitsAndCommas(a) + StripDigitsAndCommas(b)
    ensures |b| == 1 ==> StripDigitsAndCommas(b) == (if IsAsciiDigit(b[0]) || b[0] == ',' then [] else b)
    decreases |b|
  {
    if |b| > 0 {
      var init := b[..|b| - 1];
      assert (a + b)[..|a + b| - 1] == a + init;
      assert (a + b)[|a + b| - 1] == b[|b| - 1];
      StripDigitsAndCommasFilters(a, init);
      if |b| == 1 {
        assert init == [];
      }
    } else {
      assert a + b == a;
    }
  }

  /**
   * Every character of the text goes to exactly one of the digits, the
   * suffix and the dropped commas.
   */
  lemma {:induction false} SplitPartitions(s: string)
    ensures multiset(s) == multiset(KeepDigits(s)) + multiset(StripDigitsAndCommas(s)) + multiset{}[',' := CommaCount(s)]
    ensures |KeepDigits(s)| + |StripDigitsAndCommas(s)| + CommaCount(s) == |s|
  {
    if |s| == 0 {
      assert multiset{}[',' := 0] == multiset{};
    } else {
      var init := s[..|s| - 1];
      var c := s[|s| - 1];
      SplitPartitions(init);
      SplitStep(init, c);
      assert s == init + [c];
    }
  }

  /** One more character lands in exactly one of the three parts. */
  lemma SplitStep(init: string, c: char)
    ensures var s := init + [c];
      multiset(s) == multiset(init) + multiset{c} &&
      KeepDigits(s) == KeepDigits(init) + (if IsAsciiDigit(c) then [c] else []) &&
      StripDigitsAndCommas(s) == StripDigitsAndCommas(init) + (if IsAsciiDigit(c) || c == ',' then [] else [c]) &&
      multiset{}[',' := CommaCount(s)] == multiset{}[',' := CommaCount(init)] + (if c == ',' then multiset{c} else multiset{})
  {
    var s := init + [c];
    assert s[..|s| - 1] == init;
  }

  /** A statistic is animated exactly when its text holds a digit. */
  lemma AnimatedIffDigit(text: string)
    ensures SplitStat(text).Some? <==> exists i :: 0 <= i < |text| && IsAsciiDigit(text[i])
  {
    KeepDigitsEmptyIff(text);
  }

  lemma {:induction false} KeepDigitsEmptyIff(s: string)
    ensures |KeepDigits(s)| == 0 <==> forall i :: 0 <= i < |s| ==> !IsAsciiDigit(s[i])
  {
    if |s| > 0 {
      var init := s[..|s| - 1];
      KeepDigitsEmptyIff(init);
      assert forall i :: 0 <= i < |init| ==> init[i] == s[i];
    }
  }

  /** The example the source's own comment gives. */
  lemma SplitThousands()
    ensures SplitStat("5,000+") == Some((5000, "+"))
  {
    assert "5,000+"[..5] == "5,000";
    assert "5,000"[..4] == "5,00";
    assert "5,00"[..3] == "5,0";
    assert "5,0"[..2] == "5,";
    assert "5,"[..1] == "5";
    assert "5"[..0] == "";
    assert KeepDigits("5,000+") == "5000";
    assert "5000"[..3] == "500";
    assert "500"[..2] == "50";
    assert "50"[..1] == "5";
    assert DecimalValue("5000") == 5000;
    assert StripDigitsAndCommas("5,000+") == "+";
  }

  lemma SplitPercent()
    ensures SplitStat("98%") == Some((98, "%"))
  {
    assert "98%"[..2] == "98";
    assert "98"[..1] == "9";
    assert "9"[..0] == "";
    assert KeepDigits("98%") == "98";
    assert DecimalValue("98") == 98;
    assert StripDigitsAndCommas("98%") == "%";
  }

  /** Digits on both sides of a separator are run together into one number. */
  lemma SplitJoinsDigits()
    ensures SplitStat("24/7") == Some((247, "/"))
  {
    assert "24/7"[..3] == "24/";
    assert "24/"[..2] == "24";
    assert "24"[..1] == "2";
    assert "2"[..0] == "";
    assert KeepDigits("24/7") == "247";
    assert "247"[..2] == "24";
    assert DecimalValue("247") == 247;
    assert StripDigitsAndCommas("24/7") == "/";
  }

  /** A figure without digits is left alone. */
  lemma SplitWithoutDigits()
    ensures SplitStat("N/A") == None
  {
    assert "N/A"[..2] == "N/";
    assert "N/"[..1] == "N";
    assert "N"[..0] == "";
  }
}
