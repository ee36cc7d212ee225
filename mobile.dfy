/** The "mobile" field validator: a mainland-China mobile number is '1', a
    two-character operator prefix, and eight ASCII digits, with nothing
    before or after. The validator's regular expression is written out as a
    hand-coded automaton over runes, and shown to accept exactly the strings
    of that shape. */
module Validation {
  import opened Common

  /** The second and third characters of a number, `p` and `c`: the
      alternation `[38][0-9]|4[579]|5[^4]|66|7[1-35-8]|9[189]`. A negated
      class of Go's regexp matches every rune it does not list, newline
      included. */
  predicate OperatorPrefix(p: char, c: char)
  {
    || ((p == '3' || p == '8') && IsDigit(c))
    || (p == '4' && (c == '5' || c == '7' || c == '9'))
    || (p == '5' && c != '4')
    || (p == '6' && c == '6')
    || (p == '7' && ('1' <= c <= '3' || '5' <= c <= '8'))
    || (p == '9' && (c == '1' || c == '8' || c == '9'))
  }

  /** The shape the pattern describes, stated position by position. */
  predicate MobileShape(s: string)
  {
    && |s| == 11
    && s[0] == '1'
    && OperatorPrefix(s[1], s[2])
    && forall i :: 3 <= i < 11 ==> IsDigit(s[i])
  }

  /** The states of the automaton: before anything, after the leading '1',
      after the first prefix character, after n of the eight digits, or
      failed. */
  datatype MobileState = Start | One | Prefix(p: char) | Digits(n: nat) | Failed

  function MobileStep(st: MobileState, c: char): MobileState
  {
    match st
    case Start => if c == '1' then One else Failed
    case One => if c in "3456789" then Prefix(c) else Failed
    case Prefix(p) => if OperatorPrefix(p, c) then Digits(0) else Failed
    case Digits(n) => if n < 8 && IsDigit(c) then Digits(n + 1) else Failed
    case Failed => Failed
  }

  function MobileRun(st: MobileState, s: string): MobileState
    decreases |s|
  {
    if s == [] then st else MobileRun(MobileStep(st, s[0]), s[1..])
  }

  /** ValidateMobile: the whole string is matched, so the automaton must end
      having read exactly eight digits. */
  predicate ValidateMobile(s: string)
  {
    MobileRun(Start, s) == Digits(8)
  }

  lemma {:induction false} FailedStays(s: string)
    ensures MobileRun(Failed, s) == Failed
  {
    if s != [] {
      FailedStays(s[1..]);
    }
  }

  /** From n digits read, the automaton accepts exactly the strings of
      8 - n digits. */
  lemma {:induction false} DigitsRun(n: nat, s: string)
    requires n <= 8
    ensures MobileRun(Digits(n), s) == Digits(8) <==>
              |s| == 8 - n && forall i :: 0 <= i < |s| ==> IsDigit(s[i])
    decreases |s|
  {
    if s == [] {
    } else if n < 8 && IsDigit(s[0]) {
      DigitsRun(n + 1, s[1..]);
      assert forall i :: 1 <= i < |s| ==> s[i] == s[1..][i - 1];
    } else {
      FailedStays(s[1..]);
    }
  }

  /** The automaton accepts exactly the strings of the pattern's shape. */
  lemma ValidateMobileIff(s: string)
    ensures ValidateMobile(s) <==> MobileShape(s)
  {
    if |s| < 3 {
      if s != [] { FailedOrShort(s); }
    } else {
      var st1 := MobileStep(Start, s[0]);
      var st2 := MobileStep(st1, s[1]);
      var st3 := MobileStep(st2, s[2]);
      assert s[1..][1..][1..] == s[3..];
      assert MobileRun(Start, s) == MobileRun(st1, s[1..]);
      assert MobileRun(st1, s[1..]) == MobileRun(st2, s[1..][1..]);
      assert MobileRun(st2, s[1..][1..]) == MobileRun(st3, s[3..]);
      if st3 == Digits(0) {
        DigitsRun(0, s[3..]);
        assert forall i :: 3 <= i < |s| ==> s[i] == s[3..][i - 3];
      } else {
        assert st3 == Failed;
        FailedStays(s[3..]);
      }
    }
  }

  /** Fewer than three characters never reach the digits. */
  lemma FailedOrShort(s: string)
    requires 0 < |s| < 3
    ensures MobileRun(Start, s) != Digits(8)
  {
    var st1 := MobileStep(Start, s[0]);
    if |s| == 1 {
      assert MobileRun(Start, s) == MobileRun(st1, s[1..]);
    } else {
      assert s[1..][1..] == [];
      assert MobileRun(Start, s) == MobileRun(st1, s[1..]);
      assert MobileRun(st1, s[1..]) == MobileRun(MobileStep(st1, s[1]), []);
    }
  }

  /** A prefix "15" takes any third character but '4', letters included. */
  lemma FiveTakesAnyButFour(c: char, digits: string)
    requires |digits| == 8 && forall i :: 0 <= i < 8 ==> IsDigit(digits[i])
    ensures ValidateMobile(['1', '5', c] + digits) <==> c != '4'
  {
    var s := ['1', '5', c] + digits;
    ValidateMobileIff(s);
    assert forall i :: 3 <= i < 11 ==> s[i] == digits[i - 3];
  }

  const EIGHT_DIGITS := "12345678"

  /** "15a12345678" is accepted and "15412345678" is not. */
  lemma MobileExamples()
    ensures ValidateMobile("15a12345678")
    ensures !ValidateMobile("15412345678")
  {
    assert forall i :: 0 <= i < 8 ==> IsDigit(EIGHT_DIGITS[i]);
    FiveTakesAnyButFour('a', EIGHT_DIGITS);
    FiveTakesAnyButFour('4', EIGHT_DIGITS);
    assert "15a12345678" == ['1', '5', 'a'] + EIGHT_DIGITS;
    assert "15412345678" == ['1', '5', '4'] + EIGHT_DIGITS;
  }
}
