/** Numbers as they are written, digit by digit. */
module Decimal {
  predicate AllDigits(s: string) { forall i :: 0 <= i < |s| ==> '0' <= s[i] <= '9' }

  function ValueOf(s: string): nat
    requires AllDigits(s)
    decreases |s|
  {
    if s == "" then 0 else 10 * ValueOf(s[..|s| - 1]) + (s[|s| - 1] as int - '0' as int)
  }

  lemma AppendedDigit(p: string, d: char)
    requires AllDigits(p) && '0' <= d <= '9'
    ensures AllDigits(p + [d]) && ValueOf(p + [d]) == 10 * ValueOf(p) + (d as int - '0' as int)
  {
    assert (p + [d])[..|p|] == p;
  }

  lemma {:induction false} LongerIsLarger(p: string, s: string)
    requires AllDigits(p) && AllDigits(s)
    ensures AllDigits(p + s) && ValueOf(p) <= ValueOf(p + s)
    decreases |s|
  {
    if s == "" {
      assert p + s == p;
    } else {
      var init := s[..|s| - 1];
      LongerIsLarger(p, init);
      AppendedDigit(p + init, s[|s| - 1]);
      assert p + s == (p + init) + [s[|s| - 1]];
    }
  }

  lemma DigitsFollow(s: string)
    requires s != "" && '0' <= s[0] <= '9'
    ensures AllDigits(s) <==> AllDigits(s[1..])
  {
    assert forall i :: 0 < i < |s| ==> s[i] == s[1..][i - 1];
  }

  /** The rest of a number that is read from left to right. */
  lemma NextDigit(p: string, s: string)
    requires AllDigits(p) && s != "" && '0' <= s[0] <= '9'
    ensures var p' := p + [s[0]];
            && AllDigits(p') && ValueOf(p') == 10 * ValueOf(p) + (s[0] as int - '0' as int)
            && p' + s[1..] == p + s && (AllDigits(s) <==> AllDigits(s[1..]))
  {
    AppendedDigit(p, s[0]);
    DigitsFollow(s);
  }
}
