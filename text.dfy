/**
 * The JavaScript string operations the core relies on: `toLowerCase`, `includes`,
 * `split`, `join`, and the two-decimal money text written by `toFixed(2)`.
 */
module Text {

  /**
   * A capital letter whose lower case is one other character: the capitals of ASCII,
   * Latin-1, Latin Extended-A (where capitals and small letters alternate), basic Greek
   * and basic Cyrillic.
   */
  predicate IsUpperChar(c: char) {
    var n := c as int;
    if n < 0x80 then 'A' <= c <= 'Z'
    else
    || (0xC0 <= n <= 0xDE && n != 0xD7)
    || (0x100 <= n <= 0x12F && n % 2 == 0)
    || (0x132 <= n <= 0x137 && n % 2 == 0)
    || (0x139 <= n <= 0x148 && n % 2 == 1)
    || (0x14A <= n <= 0x177 && n % 2 == 0)
    || n == 0x178
    || (0x179 <= n <= 0x17E && n % 2 == 1)
    || (0x391 <= n <= 0x3A9 && n != 0x3A2)
    || 0x400 <= n <= 0x42F
  }

  /** `toLowerCase` on one character: a capital of `IsUpperChar` becomes its small letter, anything else is kept. */
  function LowerChar(c: char): char {
    var n := c as int;
    if n < 0x80 then (if 'A' <= c <= 'Z' then (n + 0x20) as char else c)
    else if (0xC0 <= n <= 0xDE && n != 0xD7) || (0x391 <= n <= 0x3A9 && n != 0x3A2) || 0x410 <= n <= 0x42F then
      (n + 0x20) as char
    else if 0x400 <= n <= 0x40F then (n + 0x50) as char
    else if n == 0x178 then 0xFF as char
    else if IsUpperChar(c) then (n + 1) as char
    else c
  }

  /** `s.toLowerCase()`. */
  function Lower(s: string): (r: string)
    ensures |r| == |s|
    ensures forall i :: 0 <= i < |s| ==> r[i] == LowerChar(s[i])
  {
    seq(|s|, i requires 0 <= i < |s| => LowerChar(s[i]))
  }

  /** A capital becomes a different character that is not a capital; anything else is kept. */
  lemma LowerCharSpec(c: char)
    ensures !IsUpperChar(LowerChar(c))
    ensures !IsUpperChar(c) ==> LowerChar(c) == c
    ensures IsUpperChar(c) ==> LowerChar(c) != c
  {
  }

  predicate IsLower(s: string) {
    forall i :: 0 <= i < |s| ==> !IsUpperChar(s[i])
  }

  lemma LowerIsLower(s: string)
    ensures IsLower(Lower(s))
    ensures IsLower(s) ==> Lower(s) == s
  {
    forall i | 0 <= i < |s| ensures !IsUpperChar(Lower(s)[i]) && (!IsUpperChar(s[i]) ==> Lower(s)[i] == s[i]) {
      LowerCharSpec(s[i]);
    }
  }

  /** Lower-casing twice is lower-casing once: rules prepared at load time stay lower case. */
  lemma LowerIdempotent(s: string)
    ensures Lower(Lower(s)) == Lower(s)
  {
    LowerIsLower(s);
  }

  predicate IsPrefix(p: string, s: string) {
    |p| <= |s| && s[..|p|] == p
  }

  /** `s.includes(sub)`. */
  predicate Contains(s: string, sub: string)
    decreases |s|
  {
    IsPrefix(sub, s) || (|s| > 0 && Contains(s[1..], sub))
  }

  lemma {:induction false} ContainsAt(s: string, sub: string, i: nat)
    requires i + |sub| <= |s| && s[i..i + |sub|] == sub
    ensures Contains(s, sub)
    decreases i
  {
    if i > 0 {
      assert s[1..][i - 1..i - 1 + |sub|] == s[i..i + |sub|];
      ContainsAt(s[1..], sub, i - 1);
    }
  }

  lemma {:induction false} ContainsWitness(s: string, sub: string) returns (i: nat)
    requires Contains(s, sub)
    ensures i + |sub| <= |s| && s[i..i + |sub|] == sub
    decreases |s|
  {
    if IsPrefix(sub, s) {
      i := 0;
    } else {
      var j := ContainsWitness(s[1..], sub);
      assert s[1..][j..j + |sub|] == s[j + 1..j + 1 + |sub|];
      i := j + 1;
    }
  }

  /** Text containing `sub` still contains it after anything is added around it. */
  lemma ContainsExtend(a: string, s: string, b: string, sub: string)
    requires Contains(s, sub)
    ensures Contains(a + s + b, sub)
  {
    var i := ContainsWitness(s, sub);
    assert (a + s + b)[|a| + i..|a| + i + |sub|] == s[i..i + |sub|];
    ContainsAt(a + s + b, sub, |a| + i);
  }

  /** Lower-casing keeps an occurrence: text containing `sub` contains it lower-cased once both are lower-cased. */
  lemma ContainsLower(s: string, sub: string)
    requires Contains(s, sub)
    ensures Contains(Lower(s), Lower(sub))
  {
    var i := ContainsWitness(s, sub);
    assert Lower(s)[i..i + |sub|] == Lower(sub);
    ContainsAt(Lower(s), Lower(sub), i);
  }

  /** `s.split(sep)` for a one-character separator. */
  function Split(s: string, sep: char): (parts: seq<string>)
    ensures |parts| >= 1
    decreases |s|
  {
    if |s| == 0 then [""]
    else
      var rest := Split(s[1..], sep);
      if s[0] == sep then [""] + rest else [[s[0]] + rest[0]] + rest[1..]
  }

  /** `xs.join(sep)`. */
  function Join(xs: seq<string>, sep: string): string
    decreases |xs|
  {
    if |xs| == 0 then ""
    else if |xs| == 1 then xs[0]
    else xs[0] + sep + Join(xs[1..], sep)
  }

  lemma {:induction false} SplitNoSeparator(a: string, sep: char)
    requires sep !in a
    ensures Split(a, sep) == [a]
    decreases |a|
  {
    if |a| > 0 {
      SplitNoSeparator(a[1..], sep);
      assert [a[0]] + a[1..] == a;
    }
  }

  lemma {:induction false} SplitAtSeparator(a: string, b: string, sep: char)
    requires sep !in a
    ensures Split(a + [sep] + b, sep) == [a] + Split(b, sep)
    decreases |a|
  {
    var s := a + [sep] + b;
    if |a| == 0 {
      assert s[0] == sep && s[1..] == b;
    } else {
      assert s[0] == a[0] && s[1..] == a[1..] + [sep] + b;
      SplitAtSeparator(a[1..], b, sep);
      assert [a[0]] + a[1..] == a;
    }
  }

  /** Splitting what was joined gives the parts back, when no part holds the separator. */
  lemma {:induction false} SplitJoin(xs: seq<string>, sep: char)
    requires |xs| >= 1
    requires forall k :: 0 <= k < |xs| ==> sep !in xs[k]
    ensures Split(Join(xs, [sep]), sep) == xs
    decreases |xs|
  {
    if |xs| == 1 {
      SplitNoSeparator(xs[0], sep);
    } else {
      SplitJoin(xs[1..], sep);
      SplitAtSeparator(xs[0], Join(xs[1..], [sep]), sep);
      assert [xs[0]] + xs[1..] == xs;
    }
  }

  function DigitChar(d: nat): char
    requires d < 10
  {
    ('0' as int + d) as char
  }

  /** Decimal digits of a natural number. */
  function NatText(n: nat): (r: string)
    ensures |r| >= 1
    decreases n
  {
    if n < 10 then [DigitChar(n)] else NatText(n / 10) + [DigitChar(n % 10)]
  }

  /**
   * `$${(cents / 100).toFixed(2)}`: a signed amount of cents as dollar text with two
   * decimals, the form of the purchase records' money columns ("$12.34").
   */
  function DollarText(cents: int): (r: string)
    ensures |r| >= 5 && r[0] == '$'
  {
    var m := if cents < 0 then -cents else cents;
    "$" + (if cents < 0 then "-" else "") + NatText(m / 100) + "." + [DigitChar(m % 100 / 10), DigitChar(m % 10)]
  }
}
