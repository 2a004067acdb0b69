/**
 * String operations that the translation layer borrows from JavaScript:
 * the truthiness of `s.trim()`, `String.prototype.split` on one character,
 * `includes`, template rendering of a non-negative index and `parseInt`.
 */
module Text {
  import opened Common

  // ---------------------------------------------------------------------
  // Whitespace and blank strings (`!s || !s.trim()`)
  // ---------------------------------------------------------------------

  /** The characters `String.prototype.trim` removes: ECMAScript WhiteSpace and LineTerminator. */
  predicate IsWhitespace(c: char) {
    var n := c as int;
    n == 0x09 || n == 0x0A || n == 0x0B || n == 0x0C || n == 0x0D || n == 0x20
    || n == 0xA0 || n == 0x1680 || (0x2000 <= n <= 0x200A)
    || n == 0x2028 || n == 0x2029 || n == 0x202F || n == 0x205F
    || n == 0x3000 || n == 0xFEFF
  }

  /** `s.trim()` is the empty string: every character is whitespace (the empty string included). */
  predicate IsBlank(s: string) {
    forall i :: 0 <= i < |s| ==> IsWhitespace(s[i])
  }

  // ---------------------------------------------------------------------
  // Substrings (`s.includes(sub)`)
  // ---------------------------------------------------------------------

  predicate IsPrefix(p: string, s: string) {
    |p| <= |s| && s[..|p|] == p
  }

  /** `s.includes(sub)`: `sub` occurs in `s` starting at some position. */
  predicate Contains(s: string, sub: string)
    decreases |s|
  {
    IsPrefix(sub, s) || (|s| > 0 && Contains(s[1..], sub))
  }

  /** `sub` occurs in `s` at position `i`. */
  predicate OccursAt(s: string, sub: string, i: int) {
    0 <= i && i + |sub| <= |s| && s[i..i + |sub|] == sub
  }

  /** `includes` agrees with the positional definition of an occurrence. */
  lemma {:induction false} ContainsAt(s: string, sub: string)
    ensures Contains(s, sub) <==> exists i :: OccursAt(s, sub, i)
    decreases |s|
  {
    forall i | OccursAt(s, sub, i) && |s| == 0 ensures IsPrefix(sub, s) {
      assert |sub| == 0;
    }
    if IsPrefix(sub, s) {
      assert OccursAt(s, sub, 0);
    } else if |s| > 0 {
      ContainsAt(s[1..], sub);
      if exists i :: OccursAt(s, sub, i) {
        var i :| OccursAt(s, sub, i);
        assert i != 0;
        assert OccursAt(s[1..], sub, i - 1) by { assert s[1..][i - 1..i - 1 + |sub|] == s[i..i + |sub|]; }
      }
      if Contains(s[1..], sub) {
        var j :| OccursAt(s[1..], sub, j);
        assert OccursAt(s, sub, j + 1) by { assert s[1..][j..j + |sub|] == s[j + 1..j + 1 + |sub|]; }
      }
    }
  }

  /** `s.includes(c)` for a one-character string is membership of `c`. */
  lemma {:induction false} ContainsChar(s: string, c: char)
    ensures Contains(s, [c]) <==> c in s
    decreases |s|
  {
    if s != [] {
      ContainsChar(s[1..], c);
      assert s == [s[0]] + s[1..];
    }
  }

  /** Every character of a contained string occurs in the containing one. */
  lemma {:induction false} ContainsHasChar(s: string, sub: string, c: char)
    requires Contains(s, sub) && c in sub
    ensures c in s
    decreases |s|
  {
    if IsPrefix(sub, s) {
      assert c in s[..|sub|];
    } else {
      ContainsHasChar(s[1..], sub, c);
    }
  }

  // ---------------------------------------------------------------------
  // Splitting on one character (`s.split(sep)`) and its inverse
  // ---------------------------------------------------------------------

  /**
   * `s.split(sep)` for a one-character separator: the maximal runs between
   * separators, so `"a..b"` gives `["a", "", "b"]` and `""` gives `[""]`.
   */
  function Split(s: string, sep: char): (parts: seq<string>)
    ensures |parts| >= 1
    decreases |s|
  {
    if s == [] then [""]
    else
      var rest := Split(s[1..], sep);
      if s[0] == sep then [""] + rest else [[s[0]] + rest[0]] + rest[1..]
  }

  /** `parts.join(sep)`. */
  function Join(parts: seq<string>, sep: char): string
    requires |parts| >= 1
    decreases |parts|
  {
    if |parts| == 1 then parts[0] else parts[0] + [sep] + Join(parts[1..], sep)
  }

  predicate NoSeparator(parts: seq<string>, sep: char) {
    forall i :: 0 <= i < |parts| ==> sep !in parts[i]
  }

  /** Joining the pieces of a split gives the original string back. */
  lemma {:induction false} JoinSplit(s: string, sep: char)
    ensures Join(Split(s, sep), sep) == s
    decreases |s|
  {
    if s != [] {
      JoinSplit(s[1..], sep);
      var rest := Split(s[1..], sep);
      if s[0] == sep {
        assert Split(s, sep)[1..] == rest;
      } else {
        var parts := Split(s, sep);
        if |rest| == 1 {
          assert Join(parts, sep) == [s[0]] + rest[0];
        } else {
          assert parts[1..] == rest[1..];
          assert Join(rest, sep) == rest[0] + [sep] + Join(rest[1..], sep);
          assert Join(parts, sep) == [s[0]] + rest[0] + [sep] + Join(rest[1..], sep);
        }
      }
    }
    assert s == [] ==> Split(s, sep) == [""];
  }

  /** No piece of a split contains the separator. */
  lemma {:induction false} SplitNoSeparator(s: string, sep: char)
    ensures NoSeparator(Split(s, sep), sep)
    decreases |s|
  {
    if s != [] {
      SplitNoSeparator(s[1..], sep);
      var rest := Split(s[1..], sep);
      if s[0] != sep {
        var parts := Split(s, sep);
        forall i | 0 <= i < |parts| ensures sep !in parts[i] {
          if i == 0 {
            assert sep !in rest[0];
            assert parts[0] == [s[0]] + rest[0];
          } else {
            assert parts[i] == rest[i];
          }
        }
      }
    }
  }

  /** A separator-free prefix sticks to the first piece of the split. */
  lemma {:induction false} SplitPrefixed(p: string, t: string, sep: char)
    requires sep !in p
    ensures Split(p + t, sep) == [p + Split(t, sep)[0]] + Split(t, sep)[1..]
    decreases |p|
  {
    if p != [] {
      SplitPrefixed(p[1..], t, sep);
      assert (p + t)[1..] == p[1..] + t;
      assert [p[0]] + (p[1..] + Split(t, sep)[0]) == p + Split(t, sep)[0];
    } else {
      assert p + t == t;
      assert p + Split(t, sep)[0] == Split(t, sep)[0];
      assert Split(t, sep) == [Split(t, sep)[0]] + Split(t, sep)[1..];
    }
  }

  /** Splitting a join of separator-free pieces gives the pieces back. */
  lemma {:induction false} SplitJoin(parts: seq<string>, sep: char)
    requires |parts| >= 1 && NoSeparator(parts, sep)
    ensures Split(Join(parts, sep), sep) == parts
    decreases |parts|
  {
    var p := parts[0];
    assert sep !in p;
    if |parts| == 1 {
      SplitPrefixed(p, "", sep);
      assert p + "" == p;
    } else {
      var tail := Join(parts[1..], sep);
      assert NoSeparator(parts[1..], sep) by {
        forall i | 0 <= i < |parts| - 1 ensures sep !in parts[1..][i] { assert parts[1..][i] == parts[i + 1]; }
      }
      SplitJoin(parts[1..], sep);
      assert ([sep] + tail)[1..] == tail;
      assert Split([sep] + tail, sep) == [""] + parts[1..];
      SplitPrefixed(p, [sep] + tail, sep);
      assert Join(parts, sep) == p + ([sep] + tail);
      assert p + "" == p;
    }
  }

  /** A string without the separator splits into itself alone. */
  lemma {:induction false} SplitWithoutSeparator(s: string, sep: char)
    requires sep !in s
    ensures Split(s, sep) == [s]
  {
    SplitPrefixed(s, "", sep);
    assert s + "" == s;
  }

  /** Two strings with the same split are equal. */
  lemma {:induction false} SplitInjective(s: string, t: string, sep: char)
    requires Split(s, sep) == Split(t, sep)
    ensures s == t
  {
    JoinSplit(s, sep);
    JoinSplit(t, sep);
  }

  /** A string that contains the separator splits into at least two pieces. */
  lemma {:induction false} SplitAtSeparator(s: string, sep: char)
    requires sep in s
    ensures |Split(s, sep)| >= 2
    decreases |s|
  {
    if s[0] != sep {
      assert sep in s[1..] by { var i :| 0 <= i < |s| && s[i] == sep; assert s[1..][i - 1] == sep; }
      SplitAtSeparator(s[1..], sep);
    }
  }

  // ---------------------------------------------------------------------
  // Decimal rendering (`${n}`) and `parseInt`
  // ---------------------------------------------------------------------

  predicate IsDigit(c: char) { '0' <= c <= '9' }

  function DigitChar(d: nat): char
    requires d < 10
  {
    "0123456789"[d]
  }

  function DigitValue(c: char): nat
    requires IsDigit(c)
  {
    (c as int - '0' as int) as nat
  }

  /** The decimal rendering of a non-negative integer, as a template literal produces it. */
  function NatToString(n: nat): (s: string)
    decreases n
  {
    if n < 10 then [DigitChar(n)] else NatToString(n / 10) + [DigitChar(n % 10)]
  }

  /** The value of a string of decimal digits. */
  function DigitsValue(d: string): nat
    requires forall i :: 0 <= i < |d| ==> IsDigit(d[i])
    decreases |d|
  {
    if d == [] then 0 else DigitsValue(d[..|d| - 1]) * 10 + DigitValue(d[|d| - 1])
  }

  /** The longest prefix of `s` made of decimal digits. */
  function LeadingDigits(s: string): (d: string)
    ensures |d| <= |s| && d == s[..|d|]
    ensures forall i :: 0 <= i < |d| ==> IsDigit(d[i])
    decreases |s|
  {
    if s == [] || !IsDigit(s[0]) then [] else [s[0]] + LeadingDigits(s[1..])
  }

  /**
   * `parseInt(s)` on strings without leading sign or whitespace: the value of
   * the leading decimal digits, or `None` (NaN) when there are none.
   */
  function ParseInt(s: string): Option<nat> {
    var d := LeadingDigits(s);
    if d == [] then None else Some(DigitsValue(d))
  }

  /** Rendered numbers are non-empty strings of digits. */
  lemma {:induction false} NatToStringDigits(n: nat)
    ensures |NatToString(n)| >= 1
    ensures forall i :: 0 <= i < |NatToString(n)| ==> IsDigit(NatToString(n)[i])
    decreases n
  {
    if n >= 10 {
      NatToStringDigits(n / 10);
    }
  }

  /** Reading a rendered number gives the number back. */
  lemma {:induction false} DigitsValueOfNatToString(n: nat)
    ensures (NatToStringDigits(n); DigitsValue(NatToString(n)) == n)
    decreases n
  {
    NatToStringDigits(n);
    var s := NatToString(n);
    if n >= 10 {
      DigitsValueOfNatToString(n / 10);
      assert s[..|s| - 1] == NatToString(n / 10);
      assert DigitValue(s[|s| - 1]) == n % 10;
    } else {
      assert s[..0] == [];
    }
  }

  /** A string that is all digits is its own leading-digit prefix. */
  lemma {:induction false} LeadingDigitsOfDigits(d: string)
    requires forall i :: 0 <= i < |d| ==> IsDigit(d[i])
    ensures LeadingDigits(d) == d
    decreases |d|
  {
    if d != [] {
      LeadingDigitsOfDigits(d[1..]);
    }
  }

  /** `parseInt(`${n}`) === n`. */
  lemma {:induction false} ParseIntNatToString(n: nat)
    ensures ParseInt(NatToString(n)) == Some(n)
  {
    NatToStringDigits(n);
    LeadingDigitsOfDigits(NatToString(n));
    DigitsValueOfNatToString(n);
  }

  /** `s.replace(c, '')` with a one-character pattern: drops the first occurrence of `c`. */
  function RemoveFirst(s: string, c: char): (r: string)
    ensures c !in s ==> r == s
    decreases |s|
  {
    if s == [] then [] else if s[0] == c then s[1..] else [s[0]] + RemoveFirst(s[1..], c)
  }

  /** A leading character other than `c` stays in front. */
  lemma {:induction false} RemoveFirstCons(x: char, s: string, c: char)
    requires x != c
    ensures RemoveFirst([x] + s, c) == [x] + RemoveFirst(s, c)
  {
    assert ([x] + s)[0] == x && ([x] + s)[1..] == s;
  }

  /** Removing the first `c` from `p + [c] + rest`, where `p` has none, leaves `p + rest`. */
  lemma {:induction false} RemoveFirstAfter(p: string, c: char, rest: string)
    requires c !in p
    ensures RemoveFirst(p + [c] + rest, c) == p + rest
    decreases |p|
  {
    if p == [] {
      var w := [c] + rest;
      assert p + [c] + rest == w;
      assert w[0] == c && w[1..] == rest;
    } else {
      var tail := p[1..] + [c] + rest;
      assert p + [c] + rest == [p[0]] + tail;
      assert p[0] != c;
      RemoveFirstCons(p[0], tail, c);
      RemoveFirstAfter(p[1..], c, rest);
      ConsAppend(p, rest);
    }
  }

  lemma {:induction false} ConsAppend(p: string, rest: string)
    requires |p| > 0
    ensures [p[0]] + (p[1..] + rest) == p + rest
  {
    var a := [p[0]] + (p[1..] + rest);
    forall i | 0 <= i < |a| ensures a[i] == (p + rest)[i] {
      if i > 0 {
        assert a[i] == (p[1..] + rest)[i - 1];
      }
    }
  }
}
