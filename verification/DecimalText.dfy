/** Decimal numbers as the feature code checks them, and the grammar of section 6 of RFC 8259. */
module DecimalText {
  import opened Wire

  const ZERO: Byte := 48
  const NINE: Byte := 57
  const MINUS: Byte := 45
  const PLUS: Byte := 43
  const POINT: Byte := 46

  predicate Digit(c: Byte) {
    ZERO <= c <= NINE
  }

  predicate Exponent(c: Byte) {
    c == 101 || c == 69
  }

  // ----- the grammar -----

  ghost predicate Digits(s: seq<Byte>) {
    s != [] && forall i :: 0 <= i < |s| ==> Digit(s[i])
  }

  ghost predicate Sign(s: seq<Byte>) {
    s == [] || s == [MINUS]
  }

  ghost predicate Whole(s: seq<Byte>) {
    s == [ZERO] || (Digits(s) && s[0] != ZERO)
  }

  ghost predicate Fraction(s: seq<Byte>) {
    s == [] || (s[0] == POINT && Digits(s[1..]))
  }

  ghost predicate Power(s: seq<Byte>) {
    s == [] || (Exponent(s[0]) && (Digits(s[1..]) || (|s| > 1 && (s[1] == PLUS || s[1] == MINUS) && Digits(s[2..]))))
  }

  ghost predicate Number(text: seq<Byte>) {
    exists a, b, c, d :: Parts(text, a, b, c, d)
  }

  ghost predicate Parts(text: seq<Byte>, a: seq<Byte>, b: seq<Byte>, c: seq<Byte>, d: seq<Byte>) {
    text == a + b + c + d && Sign(a) && Whole(b) && Fraction(c) && Power(d)
  }

  // ----- the scan -----

  /** How many digits the text has from a position on. */
  function Run(text: seq<Byte>, i: nat): (n: nat)
    requires i <= |text|
    ensures i + n <= |text|
    decreases |text| - i
  {
    if i == |text| || !Digit(text[i]) then 0 else 1 + Run(text, i + 1)
  }

  /** The position after the sign. */
  function AfterSign(text: seq<Byte>): (i: nat)
    ensures i <= |text|
  {
    if text != [] && text[0] == MINUS then 1 else 0
  }

  /** The position after the whole part, or -1 when there is none. */
  function AfterWhole(text: seq<Byte>, i: nat): (k: int)
    requires i <= |text|
    ensures k < 0 || i < k <= |text|
  {
    if i == |text| || !Digit(text[i]) then -1
    else if text[i] == ZERO then i + 1
    else i + Run(text, i)
  }

  function AfterFraction(text: seq<Byte>, i: nat): (k: int)
    requires i <= |text|
    ensures k < 0 || i <= k <= |text|
  {
    if i == |text| || text[i] != POINT then i
    else if Run(text, i + 1) == 0 then -1
    else i + 1 + Run(text, i + 1)
  }

  /** Where an exponent's digits start. */
  function PowerDigits(text: seq<Byte>, i: nat): (k: nat)
    requires i < |text|
    ensures i < k <= |text|
  {
    if i + 1 < |text| && (text[i + 1] == PLUS || text[i + 1] == MINUS) then i + 2 else i + 1
  }

  function AfterPower(text: seq<Byte>, i: nat): (k: int)
    requires i <= |text|
    ensures k < 0 || i <= k <= |text|
  {
    if i == |text| || !Exponent(text[i]) then i
    else
      var j := PowerDigits(text, i);
      if Run(text, j) == 0 then -1 else j + Run(text, j)
  }

  predicate Accepted(text: seq<Byte>) {
    var i := AfterWhole(text, AfterSign(text));
    i >= 0 &&
    var j := AfterFraction(text, i);
    j >= 0 && AfterPower(text, j) == |text|
  }

  // ----- the scan accepts only numbers -----

  lemma {:induction false} RunDigits(text: seq<Byte>, i: nat)
    requires i <= |text|
    ensures var n := Run(text, i);
            && (forall k :: i <= k < i + n ==> Digit(text[k]))
            && (i + n < |text| ==> !Digit(text[i + n]))
    decreases |text| - i
  {
    if i < |text| && Digit(text[i]) {
      RunDigits(text, i + 1);
    }
  }

  lemma {:induction false} RunIsDigits(text: seq<Byte>, i: nat)
    requires i <= |text| && 0 < Run(text, i)
    ensures Digits(text[i..i + Run(text, i)])
  {
    RunDigits(text, i);
  }

  lemma AcceptedIsNumber(text: seq<Byte>)
    requires Accepted(text)
    ensures Number(text)
  {
    var h := AfterSign(text);
    var i := AfterWhole(text, h);
    var j := AfterFraction(text, i);
    var a, b, c, d := text[..h], text[h..i], text[i..j], text[j..];
    FourParts(text, h, i, j);
    WholePart(text, h);
    FractionPart(text, i);
    PowerPart(text, j);
    assert Parts(text, a, b, c, d);
  }

  lemma FourParts(text: seq<Byte>, h: nat, i: nat, j: nat)
    requires h <= i <= j <= |text|
    ensures text == text[..h] + text[h..i] + text[i..j] + text[j..]
  {
  }

  lemma WholePart(text: seq<Byte>, h: nat)
    requires h <= |text| && AfterWhole(text, h) >= 0
    ensures Whole(text[h..AfterWhole(text, h)])
  {
    if text[h] != ZERO {
      RunIsDigits(text, h);
    }
  }

  lemma FractionPart(text: seq<Byte>, i: nat)
    requires i <= |text| && AfterFraction(text, i) >= 0
    ensures Fraction(text[i..AfterFraction(text, i)])
  {
    if i < |text| && text[i] == POINT {
      RunIsDigits(text, i + 1);
      assert text[i..AfterFraction(text, i)][1..] == text[i + 1..AfterFraction(text, i)];
    }
  }

  lemma PowerPart(text: seq<Byte>, j: nat)
    requires j <= |text| && AfterPower(text, j) == |text|
    ensures Power(text[j..])
  {
    if j < |text| {
      var k := PowerDigits(text, j);
      RunIsDigits(text, k);
      assert text[k..k + Run(text, k)] == text[k..];
      assert text[j..][k - j..] == text[k..];
    }
  }

  // ----- every number is accepted -----

  lemma {:induction false} RunOf(text: seq<Byte>, i: nat, k: nat)
    requires i <= k <= |text| && (forall x :: i <= x < k ==> Digit(text[x])) && (k < |text| ==> !Digit(text[k]))
    ensures Run(text, i) == k - i
    decreases k - i
  {
    if i < k {
      RunOf(text, i + 1, k);
    }
  }

  lemma NumberIsAccepted(text: seq<Byte>, a: seq<Byte>, b: seq<Byte>, c: seq<Byte>, d: seq<Byte>)
    requires Parts(text, a, b, c, d)
    ensures Accepted(text)
  {
    var h := |a|;
    var i := h + |b|;
    var j := i + |c|;
    assert text[h..i] == b && text[i..j] == c && text[j..] == d;
    SignScanned(text, a, b);
    WholeScanned(text, h, i, b);
    FractionScanned(text, i, j, c);
    PowerScanned(text, j, d);
  }

  lemma SignScanned(text: seq<Byte>, a: seq<Byte>, b: seq<Byte>)
    requires a + b <= text && Sign(a) && Whole(b)
    ensures AfterSign(text) == |a|
  {
    assert text[|a|] == (a + b)[|a|] == b[0];
    if a != [] {
      assert text[0] == (a + b)[0];
    }
  }

  lemma WholeScanned(text: seq<Byte>, h: nat, i: nat, b: seq<Byte>)
    requires h <= i <= |text| && text[h..i] == b && Whole(b) && (i < |text| ==> !Digit(text[i]))
    ensures AfterWhole(text, h) == i
  {
    assert text[h] == b[0];
    if b != [ZERO] {
      forall x | h <= x < i
        ensures Digit(text[x])
      {
        assert text[x] == b[x - h];
      }
      RunOf(text, h, i);
    }
  }

  lemma FractionScanned(text: seq<Byte>, i: nat, j: nat, c: seq<Byte>)
    requires i <= j <= |text| && text[i..j] == c && Fraction(c)
    requires j < |text| ==> !Digit(text[j]) && text[j] != POINT
    ensures AfterFraction(text, i) == j
  {
    if c != [] {
      assert text[i] == c[0];
      forall x | i + 1 <= x < j
        ensures Digit(text[x])
      {
        assert text[x] == c[1..][x - i - 1];
      }
      RunOf(text, i + 1, j);
    }
  }

  lemma PowerScanned(text: seq<Byte>, j: nat, d: seq<Byte>)
    requires j <= |text| && text[j..] == d && Power(d)
    ensures AfterPower(text, j) == |text|
  {
    if d != [] {
      assert text[j] == d[0];
      var k := if Digits(d[1..]) then 1 else 2;
      assert |d| > 1 && text[j + 1] == d[1];
      assert Digits(d[1..]) ==> Digit(d[1..][0]) && d[1..][0] == d[1];
      assert PowerDigits(text, j) == j + k;
      forall x | j + k <= x < |text|
        ensures Digit(text[x])
      {
        assert text[x] == d[k..][x - j - k];
      }
      RunOf(text, j + k, |text|);
    }
  }

  /** The check accepts exactly the numbers of the grammar. */
  lemma AcceptsExactlyNumbers(text: seq<Byte>)
    ensures Accepted(text) <==> Number(text)
  {
    if Accepted(text) {
      AcceptedIsNumber(text);
    }
    if a, b, c, d :| Parts(text, a, b, c, d) {
      NumberIsAccepted(text, a, b, c, d);
    }
  }

  // ----- the loop -----

  method SkipDigits(text: seq<Byte>, start: nat) returns (i: nat)
    requires start <= |text|
    ensures i == start + Run(text, start)
  {
    i := start;
    while i < |text| && Digit(text[i])
      invariant i <= |text| && i + Run(text, i) == start + Run(text, start)
    {
      i := i + 1;
    }
  }

  /** The check as the program runs it. */
  method DecimalGrammar(text: seq<Byte>) returns (ok: bool)
    ensures ok <==> Number(text)
  {
    AcceptsExactlyNumbers(text);
    ok := Scan(text);
  }

  method Scan(text: seq<Byte>) returns (ok: bool)
    ensures ok <==> Accepted(text)
  {
    var i := 0;
    if i < |text| && text[i] == MINUS {
      i := i + 1;
    }
    var whole := ScanWhole(text, i);
    if whole < 0 {
      return false;
    }
    var fraction := ScanFraction(text, whole);
    if fraction < 0 {
      return false;
    }
    var end := ScanPower(text, fraction);
    ok := end == |text|;
  }

  method ScanWhole(text: seq<Byte>, start: nat) returns (i: int)
    requires start <= |text|
    ensures i == AfterWhole(text, start)
  {
    if start == |text| {
      return -1;
    }
    if text[start] == ZERO {
      return start + 1;
    }
    if text[start] < 49 || text[start] > NINE {
      return -1;
    }
    i := SkipDigits(text, start);
  }

  method ScanFraction(text: seq<Byte>, at: nat) returns (i: int)
    requires at <= |text|
    ensures i == AfterFraction(text, at)
  {
    i := at;
    if i < |text| && text[i] == POINT {
      var start := i + 1;
      i := SkipDigits(text, start);
      if i == start {
        return -1;
      }
    }
  }

  method ScanPower(text: seq<Byte>, at: nat) returns (i: int)
    requires at <= |text|
    ensures i == AfterPower(text, at)
  {
    i := at;
    if i < |text| && Exponent(text[i]) {
      var start := i + 1;
      if start < |text| && (text[start] == PLUS || text[start] == MINUS) {
        start := start + 1;
      }
      i := SkipDigits(text, start);
      if i == start {
        return -1;
      }
    }
  }
}
