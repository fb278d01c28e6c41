/** Job identifiers: a time stamp, a dash and the start counter in hexadecimal. */
module JobIds {

  const DIGITS := "0123456789abcdef"

  /** The hexadecimal numeral of a number, most significant digit first. */
  function StringId(value: nat): string {
    if value < 16 then [DIGITS[value]] else StringId(value / 16) + [DIGITS[value % 16]]
  }

  /** Takes the low digit off until nothing is left, putting each in front of the others. */
  method PrintId(value: nat) returns (s: string)
    ensures s == StringId(value)
  {
    if value == 0 {
      return "0";
    }
    s := [];
    var rest := value;
    while rest > 0
      invariant StringId(value) == if rest > 0 then StringId(rest) + s else s
    {
      s := [DIGITS[rest % 16]] + s;
      rest := rest / 16;
    }
  }

  predicate IsDigit(c: char) {
    '0' <= c <= '9' || 'a' <= c <= 'f'
  }

  function DigitValue(c: char): (v: nat)
    requires IsDigit(c)
    ensures v < 16 && DIGITS[v] == c
  {
    if c <= '9' then (c - '0') as nat else (c - 'a') as nat + 10
  }

  ghost predicate Numeral(s: string) {
    s != "" && forall i :: 0 <= i < |s| ==> IsDigit(s[i])
  }

  /** No leading zero, except in the numeral of zero. */
  ghost predicate Canonical(s: string) {
    Numeral(s) && (|s| > 1 ==> s[0] != '0')
  }

  function Parse(s: string): nat
    requires forall i :: 0 <= i < |s| ==> IsDigit(s[i])
  {
    if s == "" then 0 else 16 * Parse(s[..|s| - 1]) + DigitValue(s[|s| - 1])
  }

  lemma {:induction false} PrintedIdParsesBack(value: nat)
    ensures Canonical(StringId(value)) && Parse(StringId(value)) == value
    ensures value > 0 ==> StringId(value)[0] != '0'
  {
    if value < 16 {
      OneDigit(value);
    } else {
      PrintedIdParsesBack(value / 16);
      LastDigit(StringId(value / 16), value % 16);
    }
  }

  lemma OneDigit(d: nat)
    requires d < 16
    ensures IsDigit(DIGITS[d]) && DigitValue(DIGITS[d]) == d && (DIGITS[d] == '0' <==> d == 0)
    ensures Parse([DIGITS[d]]) == d
  {
    assert [DIGITS[d]][..0] == "";
  }

  lemma LastDigit(init: string, d: nat)
    requires Canonical(init) && init[0] != '0' && d < 16
    ensures var s := init + [DIGITS[d]];
      Canonical(s) && s[0] != '0' && Parse(s) == 16 * Parse(init) + d
  {
    var s := init + [DIGITS[d]];
    assert s[..|s| - 1] == init;
    OneDigit(d);
  }

  lemma {:induction false} ParsedNumeralPrintsBack(s: string)
    requires Canonical(s)
    ensures StringId(Parse(s)) == s
    ensures s[0] != '0' ==> Parse(s) > 0
  {
    var init, c := s[..|s| - 1], s[|s| - 1];
    assert s == init + [c];
    if |s| == 1 {
      SingleDigit(c);
      assert s == [c];
    } else {
      assert Numeral(init) && init[0] == s[0];
      ParsedNumeralPrintsBack(init);
      ParseAppended(init, c);
      DigitsSplit(Parse(s), Parse(init), DigitValue(c));
    }
  }

  lemma SingleDigit(c: char)
    requires IsDigit(c)
    ensures Parse([c]) == DigitValue(c) && StringId(DigitValue(c)) == [c]
  {
    assert [c][..0] == "";
  }

  lemma ParseAppended(init: string, c: char)
    requires Numeral(init) && IsDigit(c)
    ensures Numeral(init + [c]) && Parse(init + [c]) == 16 * Parse(init) + DigitValue(c)
  {
    assert (init + [c])[..|init|] == init;
  }

  lemma DigitsSplit(value: nat, high: nat, low: nat)
    requires value == 16 * high + low && high > 0 && low < 16
    ensures StringId(value) == StringId(high) + [DIGITS[low]]
  {
    assert value / 16 == high && value % 16 == low;
  }

  function JobId(stamp: string, counter: nat): string {
    stamp + "-" + StringId(counter)
  }

  /** Two equal identifiers carry the same counter, whatever the clock said. */
  lemma CounterIsInId(stamp1: string, n1: nat, stamp2: string, n2: nat)
    requires JobId(stamp1, n1) == JobId(stamp2, n2)
    ensures n1 == n2 && stamp1 == stamp2
  {
    var id := JobId(stamp1, n1);
    LastDash(stamp1, n1);
    LastDash(stamp2, n2);
    assert |stamp1| == |stamp2|;
    assert stamp1 == id[..|stamp1|] == stamp2;
    assert StringId(n1) == id[|stamp1| + 1..] == StringId(n2);
    PrintedIdParsesBack(n1);
    PrintedIdParsesBack(n2);
  }

  /** The dash before the counter is the last one. */
  lemma LastDash(stamp: string, n: nat)
    ensures var id := JobId(stamp, n);
      |stamp| < |id| && id[|stamp|] == '-' && forall i :: |stamp| < i < |id| ==> id[i] != '-'
  {
    PrintedIdParsesBack(n);
    var id := JobId(stamp, n);
    assert forall i :: |stamp| < i < |id| ==> id[i] == StringId(n)[i - |stamp| - 1];
  }
}
