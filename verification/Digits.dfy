/** Numbers as text: what "%ud", "%d", "%lu" and "%uxi" write and digit loops read. */
module Digits {

  /** The value of a hexadecimal digit of either case, or -1. */
  function CharVal(c: char): (r: int)
    ensures -1 <= r < 16
  {
    if '0' <= c <= '9' then c as int - '0' as int
    else if 'a' <= c <= 'f' then c as int - 'a' as int + 10
    else if 'A' <= c <= 'F' then c as int - 'A' as int + 10
    else -1
  }

  function Digit(d: nat): (c: char)
    requires d < 16
    ensures CharVal(c) == d
  {
    if d < 10 then ('0' as int + d) as char else ('a' as int + d - 10) as char
  }

  /** "%uxi" and "%ud": the number in base b without leading zeros. */
  function Text(n: nat, b: nat): (s: string)
    requires b == 10 || b == 16
    ensures s != ""
  {
    if n < b then [Digit(n)] else Text(n / b, b) + [Digit(n % b)]
  }

  /** The digits read after acc. */
  function Read(acc: nat, s: string, b: nat): nat
    decreases |s|
  {
    if s == "" then acc else Read(acc * b + (if CharVal(s[0]) < 0 then 0 else CharVal(s[0])), s[1..], b)
  }

  lemma {:induction false} ReadSnoc(acc: nat, s: string, c: char, b: nat)
    requires CharVal(c) >= 0
    ensures Read(acc, s + [c], b) == Read(acc, s, b) * b + CharVal(c)
    decreases |s|
  {
    if s == "" {
      assert s + [c] == [c] && [c][1..] == "";
    } else {
      assert (s + [c])[1..] == s[1..] + [c];
      ReadSnoc(acc * b + (if CharVal(s[0]) < 0 then 0 else CharVal(s[0])), s[1..], c, b);
    }
  }

  lemma {:induction false} TextDigits(n: nat, b: nat)
    requires b == 10 || b == 16
    ensures forall c :: c in Text(n, b) ==> 0 <= CharVal(c) < b
  {
    if n >= b { TextDigits(n / b, b); }
  }

  lemma DivMod(n: nat, b: nat)
    requires b == 10 || b == 16
    ensures n / b * b + n % b == n
  {
  }

  /** What is written is read. */
  lemma {:induction false} ReadText(n: nat, b: nat)
    requires b == 10 || b == 16
    ensures Read(0, Text(n, b), b) == n
  {
    if n >= b {
      ReadText(n / b, b);
      ReadSnoc(0, Text(n / b, b), Digit(n % b), b);
      DivMod(n, b);
    } else {
      assert [Digit(n)][1..] == "";
    }
  }
}
