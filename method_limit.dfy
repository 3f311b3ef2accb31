/**
 * `checkMethodLimit` and its four partition tests (MethodLimitPartitionTest.java):
 * a class with more methods than the limit yields one violation message.
 */
module MethodLimit {
  import opened Wrappers
  import opened Strings

  /** Java's `int`. */
  newtype int32 = x: int | -0x8000_0000 <= x < 0x8000_0000

  const MaxMethods: int32 := 30

  /**
   * The violation text; Java writes each `int` in decimal when concatenating.
   * It opens with "Class has " followed by the count's digits and closes with ")."
   */
  function Message(methodCount: int32, max: int32): (r: string)
    ensures |r| > 10 && r[..10] == "Class has " && r[|r| - 2..] == ")."
  {
    "Class has " + IntToDecimal(methodCount as int) + " methods (max allowed is " + IntToDecimal(max as int) + ")."
  }

  /** Starts a fresh list and adds the violation only when the count exceeds the limit. */
  method CheckMethodLimit(methodCount: int32, max: int32) returns (violations: seq<string>)
    ensures |violations| <= 1
    ensures violations == [] <==> methodCount <= max
    ensures methodCount > max ==> violations == [Message(methodCount, max)]
  {
    violations := [];
    if methodCount > max {
      violations := violations + [Message(methodCount, max)];
    }
  }

  /** In `x + sep + y`, with `x` free of `sep`'s first character, that character first appears at `|x|`. */
  lemma SeparatorPosition(x: string, y: string, sep: string)
    requires |sep| > 0 && Lacks(x, sep[0])
    ensures (x + sep + y)[|x|] == sep[0]
    ensures forall i :: 0 <= i < |x| ==> (x + sep + y)[i] != sep[0]
  {
  }

  /** If `x + sep + y == u + sep + v` and neither `x` nor `u` holds `sep`'s first character, the parts agree. */
  lemma SplitAtSeparator(x: string, y: string, u: string, v: string, sep: string)
    requires |sep| > 0 && Lacks(x, sep[0]) && Lacks(u, sep[0])
    requires x + sep + y == u + sep + v
    ensures x == u && y == v
  {
    var whole := x + sep + y;
    SeparatorPosition(x, y, sep);
    SeparatorPosition(u, v, sep);
    assert |x| == |u|;
    assert x == whole[..|x|] == u;
    assert y == whole[|x| + |sep|..] == v;
  }

  /** The message split into its fixed parts and the two numbers (a separate step so the solver re-brackets the concatenation once). */
  lemma MessageParts(methodCount: int32, max: int32)
    ensures Message(methodCount, max) ==
      "Class has " + (IntToDecimal(methodCount as int) + " methods (max allowed is " + (IntToDecimal(max as int) + ")."))
  {
  }

  /** The message reports the count and the limit exactly: different inputs give different texts. */
  lemma MessageDeterminesCounts(c1: int32, m1: int32, c2: int32, m2: int32)
    requires Message(c1, m1) == Message(c2, m2)
    ensures c1 == c2 && m1 == m2
  {
    var head, mid, tail := "Class has ", " methods (max allowed is ", ").";
    var d1, d2 := IntToDecimal(c1 as int), IntToDecimal(c2 as int);
    var e1, e2 := IntToDecimal(m1 as int), IntToDecimal(m2 as int);
    var w1, w2 := d1 + mid + (e1 + tail), d2 + mid + (e2 + tail);
    MessageParts(c1, m1);
    MessageParts(c2, m2);
    assert head + w1 == head + w2;
    assert w1 == (head + w1)[|head|..] == (head + w2)[|head|..] == w2;
    DecimalLacks(c1 as int, ' ');
    DecimalLacks(c2 as int, ' ');
    SplitAtSeparator(d1, e1 + tail, d2, e2 + tail, mid);
    DecimalLacks(m1 as int, ')');
    DecimalLacks(m2 as int, ')');
    assert e1 + tail + "" == e2 + tail + "";
    SplitAtSeparator(e1, "", e2, "", tail);
    DecimalRoundTrip(c1 as int);
    DecimalRoundTrip(c2 as int);
    DecimalRoundTrip(m1 as int);
    DecimalRoundTrip(m2 as int);
  }

  /** The expected text, assembled from its parts (a separate step: the solver joins these literals only outside the larger proof). */
  lemma ExpectedTextParts()
    ensures "Class has " + "31" + " methods (max allowed is " + "30" + ")." == "Class has 31 methods (max allowed is 30)."
  {
  }

  /** The text the test expects for 31 methods against 30. */
  lemma MessageText31()
    ensures Message(31, 30) == "Class has 31 methods (max allowed is 30)."
  {
    assert DigitChar(3) == '3' && DigitChar(1) == '1' && DigitChar(0) == '0';
    assert IntToDecimal(31) == "31" && IntToDecimal(30) == "30";
    var count: int32, max: int32 := 31, 30;
    assert count as int == 31 && max as int == 30;
    assert Message(count, max) == "Class has " + "31" + " methods (max allowed is " + "30" + ").";
    ExpectedTextParts();
  }

  /** Partition P1: 29 methods against the limit of 30 gives no violation. */
  method TestMethodCountBelowLimit() returns (violations: seq<string>)
    ensures |violations| == 0
  {
    violations := CheckMethodLimit(29, MaxMethods);
  }

  /** Partition P2: exactly 30 methods is still within the limit. */
  method TestMethodCountAtLimit() returns (violations: seq<string>)
    ensures |violations| == 0
  {
    violations := CheckMethodLimit(30, MaxMethods);
  }

  /** Partition P3: 31 methods gives one violation with the exact text. */
  method TestMethodCountExceedsLimit() returns (violations: seq<string>)
    ensures |violations| == 1
    ensures violations[0] == "Class has 31 methods (max allowed is 30)."
  {
    violations := CheckMethodLimit(31, MaxMethods);
    MessageText31();
  }

  /** Partition P4: an empty class gives no violation. */
  method TestEmptyClass() returns (violations: seq<string>)
    ensures |violations| == 0
  {
    violations := CheckMethodLimit(0, MaxMethods);
  }
}
