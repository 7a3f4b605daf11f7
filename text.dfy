/** The few string operations the routes perform: `startsWith`, `split(" ")[1]`,
    template concatenation, and the decimal text of an id inside a template string. */
module Text {
  import opened Schemas

  predicate StartsWith(s: string, prefix: string) {
    |prefix| <= |s| && s[..|prefix|] == prefix
  }

  /** Index of the first occurrence of `c` in `s`, or |s| when there is none. */
  function Find(s: string, c: char): (i: nat)
    ensures i <= |s|
    ensures i < |s| ==> s[i] == c
    ensures forall k :: 0 <= k < i ==> s[k] != c
  {
    if |s| == 0 then 0
    else if s[0] == c then 0
    else 1 + Find(s[1..], c)
  }

  /** JavaScript's `s.split(" ")[1]`: the text between the first and the second
      space, or up to the end; undefined when `s` holds no space at all. */
  function SecondField(s: string): (r: Option<string>)
    ensures r.None? <==> ' ' !in s
    ensures r.Some? ==> ' ' !in r.value
  {
    var i := Find(s, ' ');
    if i == |s| then
      None
    else
      var rest := s[i + 1..];
      Some(rest[..Find(rest, ' ')])
  }

  /** Joining two space-free words with one space is undone by `split(" ")[1]`. */
  lemma {:induction false} SecondFieldOfJoin(a: string, b: string)
    requires ' ' !in a && ' ' !in b
    ensures SecondField(a + " " + b) == Some(b)
  {
    var s := a + " " + b;
    FindAbsent(a, ' ');
    FindAfterPrefix(a, " " + b, ' ');
    assert s == a + (" " + b);
    assert Find(" " + b, ' ') == 0;
    assert s[|a| + 1..] == b;
    FindAbsent(b, ' ');
    assert b[..|b|] == b;
  }

  /** `split(" ")[1]` ignores whatever follows the second word. */
  lemma {:induction false} SecondFieldOfWords(a: string, b: string, rest: string)
    requires ' ' !in a && ' ' !in b
    ensures SecondField(a + " " + b + " " + rest) == Some(b)
  {
    var s := a + " " + b + " " + rest;
    assert s == a + (" " + b + " " + rest);
    FindAfterPrefix(a, " " + b + " " + rest, ' ');
    assert Find(" " + b + " " + rest, ' ') == 0;
    var tail := s[|a| + 1..];
    assert tail == b + (" " + rest);
    FindAfterPrefix(b, " " + rest, ' ');
    assert Find(" " + rest, ' ') == 0;
    assert tail[..|b|] == b;
  }

  lemma {:induction false} FindAbsent(s: string, c: char)
    requires c !in s
    ensures Find(s, c) == |s|
  {
    if |s| > 0 {
      assert s[1..] <= s[1..];
      assert forall x :: x in s[1..] ==> x in s;
      FindAbsent(s[1..], c);
    }
  }

  lemma {:induction false} FindAfterPrefix(a: string, b: string, c: char)
    requires c !in a
    ensures Find(a + b, c) == |a| + Find(b, c)
  {
    if |a| > 0 {
      assert (a + b)[1..] == a[1..] + b;
      assert forall x :: x in a[1..] ==> x in a;
      FindAfterPrefix(a[1..], b, c);
    } else {
      assert a + b == b;
    }
  }

  // ------------------------------------------------------------ decimal ids

  predicate IsDigit(c: char) {
    '0' <= c <= '9'
  }

  function Digit(d: nat): (c: char)
    requires d < 10
    ensures IsDigit(c)
  {
    ('0' as int + d) as char
  }

  function DigitValue(c: char): (d: nat)
    requires IsDigit(c)
    ensures d < 10 && Digit(d) == c
  {
    c as int - '0' as int
  }

  /** The text of an id as it appears inside a template string. */
  function Decimal(n: nat): (s: string)
    ensures |s| >= 1
    ensures forall i :: 0 <= i < |s| ==> IsDigit(s[i])
  {
    if n < 10 then [Digit(n)] else Decimal(n / 10) + [Digit(n % 10)]
  }

  function ParseDecimal(s: string): nat
    requires forall i :: 0 <= i < |s| ==> IsDigit(s[i])
  {
    if |s| == 0 then 0
    else ParseDecimal(s[..|s| - 1]) * 10 + DigitValue(s[|s| - 1])
  }

  /** Reading the decimal text back gives the id. */
  lemma {:induction false} DecimalRoundTrip(n: nat)
    ensures ParseDecimal(Decimal(n)) == n
  {
    var s := Decimal(n);
    if n < 10 {
      assert s[..0] == [];
    } else {
      DecimalRoundTrip(n / 10);
      assert s[..|s| - 1] == Decimal(n / 10);
      assert DigitValue(s[|s| - 1]) == n % 10;
    }
  }

  /** So distinct ids have distinct texts. */
  lemma DecimalInjective(m: nat, n: nat)
    requires Decimal(m) == Decimal(n)
    ensures m == n
  {
    DecimalRoundTrip(m);
    DecimalRoundTrip(n);
  }
}
