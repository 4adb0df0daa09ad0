/** Decimal text, as Go's strconv reads it. */
module Decimal {
  import opened Kube

  const INT_MAX := 0x7fff_ffff_ffff_ffff

  predicate IsDigit(c: char) {
    '0' <= c <= '9'
  }

  predicate AllDigits(s: string) {
    forall i | 0 <= i < |s| :: IsDigit(s[i])
  }

  function Value(s: string): (n: nat)
    requires AllDigits(s)
  {
    if s == "" then 0 else 10 * Value(s[..|s| - 1]) + (s[|s| - 1] - '0') as int
  }

  function Digit(d: nat): char
    requires d < 10
  {
    '0' + d as char
  }

  function Print(n: nat): string {
    if n < 10 then [Digit(n)] else Print(n / 10) + [Digit(n % 10)]
  }

  /** Reading what was printed gives the number back. */
  lemma {:induction false} ValueOfPrint(n: nat)
    ensures Print(n) != "" && AllDigits(Print(n)) && Value(Print(n)) == n
  {
    var p := Print(n);
    if n < 10 {
      assert p[..|p| - 1] == "";
    } else {
      ValueOfPrint(n / 10);
      assert p[..|p| - 1] == Print(n / 10);
    }
  }

  lemma {:induction false} LeadingZeros(zeros: string, s: string)
    requires forall i | 0 <= i < |zeros| :: zeros[i] == '0'
    requires AllDigits(s)
    ensures AllDigits(zeros + s) && Value(zeros + s) == Value(s)
  {
    var t := zeros + s;
    if s != "" {
      LeadingZeros(zeros, s[..|s| - 1]);
      assert t[..|t| - 1] == zeros + s[..|s| - 1];
    } else {
      assert t == zeros;
      ZerosAreZero(zeros);
    }
  }

  lemma {:induction false} ZerosAreZero(zeros: string)
    requires forall i | 0 <= i < |zeros| :: zeros[i] == '0'
    ensures AllDigits(zeros) && Value(zeros) == 0
  {
    if zeros != "" { ZerosAreZero(zeros[..|zeros| - 1]); }
  }

  predicate Signed(s: string) {
    s != "" && (s[0] == '+' || s[0] == '-')
  }

  function Unsigned(s: string): string {
    if Signed(s) then s[1..] else s
  }

  /** strconv.Atoi: an optional sign and at least one digit, within int64. */
  function Atoi(s: string): Option<int> {
    var digits := Unsigned(s);
    if digits == "" || !AllDigits(digits) then None
    else
      var v: int := Value(digits);
      var n := if Signed(s) && s[0] == '-' then -v else v;
      if -INT_MAX - 1 <= n <= INT_MAX then Some(n) else None
  }

  /** Printed numbers read back, with either sign and within int64; a sign alone does not. */
  lemma AtoiReads(n: int)
    requires n >= 0
    ensures Atoi(Print(n)) == (if n <= INT_MAX then Some(n) else None)
    ensures Atoi("+" + Print(n)) == (if n <= INT_MAX then Some(n) else None)
    ensures Atoi("-" + Print(n)) == (if n <= INT_MAX + 1 then Some(-n) else None)
    ensures Atoi("") == None && Atoi("+") == None && Atoi("-") == None
  {
    ValueOfPrint(n);
    hide Print, Value;
    assert IsDigit(Print(n)[0]);
    assert ("+" + Print(n))[1..] == Print(n) && ("-" + Print(n))[1..] == Print(n);
    assert "+"[1..] == "" && "-"[1..] == "";
  }
}
