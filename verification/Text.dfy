/** Reading digits, and cutting texts apart where they were joined. */
module Text {

  predicate IsDigit(c: char) {
    '0' <= c <= '9'
  }

  function Digit(c: char): int
    requires IsDigit(c)
  {
    c as int - '0' as int
  }

  function TwoDigits(n: nat): string
    requires n < 100
  {
    ['0' + (n / 10) as char, '0' + (n % 10) as char]
  }

  lemma DigitsRead(a: char, b: char, n: nat)
    requires n < 100
    ensures [a, b] == TwoDigits(n) <==> IsDigit(a) && IsDigit(b) && 10 * Digit(a) + Digit(b) == n
  {
    var t := TwoDigits(n);
    assert IsDigit(t[0]) && IsDigit(t[1]) && Digit(t[0]) == n / 10 && Digit(t[1]) == n % 10;
    if IsDigit(a) && IsDigit(b) && 10 * Digit(a) + Digit(b) == n {
      assert Digit(a) == n / 10 && Digit(b) == n % 10;
      assert a == t[0] && b == t[1];
    }
  }

  /** Two texts cut at the same place. */
  lemma Cut(p: string, x: string, q: string, y: string)
    requires |p| == |q| && p + x == q + y
    ensures p == q && x == y
  {
    assert p == (p + x)[..|p|] && q == (q + y)[..|q|];
    assert x == (p + x)[|p|..] && y == (q + y)[|q|..];
  }

  /** Two texts cut at their first bar. */
  lemma CutAtBar(a: string, x: string, b: string, y: string)
    requires '|' !in a && '|' !in b && a + "|" + x == b + "|" + y
    ensures a == b && x == y
  {
    var s := a + "|" + x;
    assert s == b + "|" + y;
    assert s[|a|] == '|' && s[|b|] == '|';
    assert forall k :: 0 <= k < |a| ==> s[k] == a[k];
    assert forall k :: 0 <= k < |b| ==> s[k] == b[k];
    assert |a| == |b|;
    assert a == s[..|a|] && b == s[..|b|];
    assert x == s[|a| + 1..] && y == s[|b| + 1..];
  }
}
