/** Decimal rendering and searching in strings, as fmt and strings do them. */
module Text {
  import opened Sequences

  predicate IsDigit(c: char) {
    '0' <= c <= '9'
  }

  predicate AllDigits(s: string) {
    forall i :: 0 <= i < |s| ==> IsDigit(s[i])
  }

  function Digit(d: nat): (c: char)
    requires d < 10
    ensures IsDigit(c)
  {
    '0' + d as char
  }

  /** The "%d" of a non-negative number. */
  function Decimal(n: nat): (s: string)
    ensures s != [] && AllDigits(s)
  {
    if n < 10 then [Digit(n)] else Decimal(n / 10) + [Digit(n % 10)]
  }

  lemma {:induction false} DecimalInjective(m: nat, n: nat)
    requires Decimal(m) == Decimal(n)
    ensures m == n
    decreases m + n
  {
    var s, t := Decimal(m), Decimal(n);
    assert s[|s| - 1] == Digit(m % 10) && t[|t| - 1] == Digit(n % 10);
    assert |s| == 1 <==> m < 10;
    assert |t| == 1 <==> n < 10;
    if m >= 10 {
      assert s[..|s| - 1] == Decimal(m / 10) && t[..|t| - 1] == Decimal(n / 10);
      DecimalInjective(m / 10, n / 10);
    }
  }

  /** A number is determined by a string that ends in a separator and its digits, and so
      is what comes before. */
  lemma {:induction false} SplitAtLastSeparator(a: string, m: nat, b: string, n: nat, sep: char)
    requires !IsDigit(sep)
    requires a + [sep] + Decimal(m) == b + [sep] + Decimal(n)
    ensures a == b && m == n
  {
    var s, t := a + [sep] + Decimal(m), b + [sep] + Decimal(n);
    assert s[|a|] == sep && t[|b|] == sep;
    assert forall i :: |a| < i < |s| ==> s[i] == Decimal(m)[i - |a| - 1];
    assert forall i :: |b| < i < |t| ==> t[i] == Decimal(n)[i - |b| - 1];
    assert |a| == |b|;
    assert s[..|a|] == a && t[..|b|] == b;
    assert s[|a| + 1..] == Decimal(m) && t[|b| + 1..] == Decimal(n);
    DecimalInjective(m, n);
  }

  /** The number that a string of digits stands for. */
  function NumberIn(s: string): int {
    if s == [] then 0 else NumberIn(s[..|s| - 1]) * 10 + (s[|s| - 1] as int - '0' as int)
  }

  /** The digits are those of the number, the first of them not zero. */
  lemma {:induction false} DecimalIsNumber(n: nat)
    ensures NumberIn(Decimal(n)) == n
    ensures Decimal(n)[0] == '0' ==> Decimal(n) == "0"
  {
    if n < 10 {
      assert [Digit(n)][..0] == [];
      assert NumberIn([]) == 0;
    } else {
      DecimalIsNumber(n / 10);
      var front := Decimal(n / 10);
      assert (front + [Digit(n % 10)])[..|front|] == front;
      assert NumberIn("0") == 0 by {
        assert "0"[..0] == [];
      }
    }
  }

  /** strings.Contains. */
  predicate Contains(s: string, pattern: string) {
    exists i :: 0 <= i <= |s| - |pattern| && pattern <= s[i..]
  }

  /** The pattern stands somewhere in the string, with anything before and after. */
  lemma {:induction false} ContainsExactlyWhen(s: string, pattern: string)
    ensures Contains(s, pattern) <==> exists a, b :: s == a + pattern + b
  {
    if i :| 0 <= i <= |s| - |pattern| && pattern <= s[i..] {
      assert s == s[..i] + pattern + s[i + |pattern|..];
    }
    if a, b :| s == a + pattern + b {
      assert s[|a|..] == pattern + b;
    }
  }

  /** strings.Index for one character. */
  function IndexOf(s: string, c: char): (r: Option<nat>)
    ensures r.None? <==> c !in s
    ensures r.Some? ==> r.value < |s| && s[r.value] == c && c !in s[..r.value]
  {
    if s == [] then None
    else if s[0] == c then Some(0)
    else match IndexOf(s[1..], c)
      case None => None
      case Some(i) =>
        assert s[..i + 1] == [s[0]] + s[1..][..i];
        Some(i + 1)
  }

  lemma {:induction false} IndexOfFirst(a: string, c: char, b: string)
    requires c !in a
    ensures IndexOf(a + [c] + b, c) == Some(|a|)
  {
    var s := a + [c] + b;
    assert s[|a|] == c;
    assert s[..|a|] == a;
    var i := IndexOf(s, c).value;
    assert i <= |a| by {
      assert forall j :: 0 <= j < i ==> s[..i][j] == s[j];
    }
    assert i >= |a| by {
      assert forall j :: 0 <= j < |a| ==> s[j] in a;
    }
  }
}
