/** Zero-padded decimal numbers, as in `f'{n:05d}'`, and strings cut at a separator. */
module Decimal {

  predicate IsDigit(c: char) {
    '0' <= c <= '9'
  }

  predicate AllDigits(s: string) {
    forall i :: 0 <= i < |s| ==> IsDigit(s[i])
  }

  function Digit(d: nat): (c: char)
    requires d < 10
    ensures IsDigit(c)
  {
    ((d + 48) as char)
  }

  /** The decimal digits of n, at least w of them. */
  function Pad(n: nat, w: nat): (s: string)
    ensures AllDigits(s) && |s| >= w && |s| > 0
    decreases n, w
  {
    if n < 10 && w <= 1 then [Digit(n)]
    else Pad(n / 10, if w > 0 then w - 1 else 0) + [Digit(n % 10)]
  }

  function Value(s: string): nat
    requires AllDigits(s)
  {
    if s == [] then 0 else Value(s[..|s| - 1]) * 10 + (s[|s| - 1] as nat - 48)
  }

  lemma {:induction false} ValueOfPad(n: nat, w: nat)
    ensures Value(Pad(n, w)) == n
    decreases n, w
  {
    var s := Pad(n, w);
    if n < 10 && w <= 1 {
      assert s[..0] == [];
    } else {
      var rest := if w > 0 then w - 1 else 0;
      ValueOfPad(n / 10, rest);
      assert s[..|s| - 1] == Pad(n / 10, rest);
    }
  }

  /** The padded form is as wide as asked for, or else has no leading zero. */
  lemma {:induction false} PadShape(n: nat, w: nat)
    requires |Pad(n, w)| > w && |Pad(n, w)| > 1
    ensures Pad(n, w)[0] != '0'
    decreases n, w
  {
    var rest := if w > 0 then w - 1 else 0;
    if |Pad(n / 10, rest)| > 1 {
      PadShape(n / 10, rest);
    } else {
      assert w <= 1 && 0 < n / 10 < 10;
      assert Pad(n / 10, rest) == [Digit(n / 10)];
    }
  }

  /** Different numbers have different padded forms. */
  lemma PadInjective(m: nat, n: nat, w: nat)
    requires Pad(m, w) == Pad(n, w)
    ensures m == n
  {
    ValueOfPad(m, w);
    ValueOfPad(n, w);
  }

  lemma PadOne(d: nat, w: nat)
    requires d < 10 && w <= 1
    ensures Pad(d, w) == [('0' as int + d) as char]
  {
  }

  lemma PadMore(n: nat, d: nat, w: nat)
    requires d < 10 && (n > 0 || w > 1)
    ensures Pad(10 * n + d, w) == Pad(n, if w > 0 then w - 1 else 0) + [('0' as int + d) as char]
  {
  }

  lemma Zeros()
    ensures Pad(0, 2) == "00" && Pad(0, 3) == "000" && Pad(0, 4) == "0000" && Pad(0, 5) == "00000"
  {
    PadOne(0, 1);
    PadMore(0, 0, 2);
    PadMore(0, 0, 3);
    PadMore(0, 0, 4);
    PadMore(0, 0, 5);
  }

  lemma Twelve()
    ensures Pad(12, 5) == "00012"
  {
    Zeros();
    PadMore(0, 1, 4);
    PadMore(1, 2, 5);
  }

  /** The separator's first place decides where a string is cut. */
  lemma CutAtFirst(a: string, b: string, a': string, b': string, sep: char)
    requires a + [sep] + b == a' + [sep] + b'
    requires sep !in a && sep !in a'
    ensures a == a' && b == b'
  {
    var s := a + [sep] + b;
    assert s[|a|] == sep && s[|a'|] == sep;
    assert forall i :: 0 <= i < |a| ==> s[i] != sep;
    assert forall i :: 0 <= i < |a'| ==> s[i] != sep;
    assert a == s[..|a|] && a' == s[..|a'|];
    assert b == s[|a| + 1..] && b' == s[|a'| + 1..];
  }

  /** The separator's last place decides where a string is cut. */
  lemma CutAtLast(a: string, b: string, a': string, b': string, sep: char)
    requires a + [sep] + b == a' + [sep] + b'
    requires sep !in b && sep !in b'
    ensures a == a' && b == b'
  {
    var s := a + [sep] + b;
    assert s[|a|] == sep && s[|a'|] == sep;
    assert forall i :: |a| < i < |s| ==> s[i] == b[i - |a| - 1];
    assert forall i :: |a'| < i < |s| ==> s[i] == b'[i - |a'| - 1];
    assert a == s[..|a|] && a' == s[..|a'|];
    assert b == s[|a| + 1..] && b' == s[|a'| + 1..];
  }
}
