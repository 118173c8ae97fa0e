/**
 * The Python string operations the monitor relies on, over `string`
 * (a sequence of Unicode scalar values, as a Python 3 `str` is):
 * `str.split(sep)` and `sep.join`, whitespace `str.split()`, `in` on
 * strings, `str.startswith`, ASCII lower-casing, `int(text)`, `str(n)` and
 * the code-point order `<` on strings.
 */
module Text {
  import opened Wrappers

  // ---------------------------------------------------------------------
  // Substrings and prefixes
  // ---------------------------------------------------------------------

  /** Python's `s.startswith(p)`. */
  predicate StartsWith(s: string, p: string) {
    |p| <= |s| && s[..|p|] == p
  }

  /** Python's `p in s` for two strings: `p` starts at some position of `s`. */
  predicate Contains(s: string, p: string)
    decreases |s|
  {
    StartsWith(s, p) || (s != [] && Contains(s[1..], p))
  }

  /** A string contains whatever stands between a prefix and a suffix of it. */
  lemma {:induction false} ContainsMiddle(a: string, p: string, b: string)
    ensures Contains(a + p + b, p)
    decreases |a|
  {
    var s := a + p + b;
    if a == [] {
      assert s[..|p|] == p;
    } else {
      assert s[1..] == a[1..] + p + b;
      ContainsMiddle(a[1..], p, b);
    }
  }

  // ---------------------------------------------------------------------
  // s.split(c) and c.join(parts) for a one-character separator
  // ---------------------------------------------------------------------

  /**
   * Python's `s.split(c)`: the pieces between occurrences of `c`, so there
   * is always at least one piece and `""` splits to `[""]`. Built from the
   * back: a separator opens a new empty piece, any other character extends
   * the last one.
   */
  function SplitOn(s: string, c: char): (parts: seq<string>)
    ensures |parts| >= 1
    decreases |s|
  {
    if s == [] then [""]
    else
      var init := SplitOn(s[..|s| - 1], c);
      var x := s[|s| - 1];
      if x == c then init + [""]
      else init[..|init| - 1] + [init[|init| - 1] + [x]]
  }

  /** Python's `c.join(parts)`. */
  function Join(parts: seq<string>, c: char): string
    decreases |parts|
  {
    if |parts| == 0 then ""
    else if |parts| == 1 then parts[0]
    else Join(parts[..|parts| - 1], c) + [c] + parts[|parts| - 1]
  }

  lemma JoinExtendLast(parts: seq<string>, c: char, w: string)
    requires |parts| >= 1
    ensures Join(parts[..|parts| - 1] + [parts[|parts| - 1] + w], c) == Join(parts, c) + w
  {
    var n := |parts|;
    var q := parts[..n - 1] + [parts[n - 1] + w];
    assert q[..n - 1] == parts[..n - 1];
  }

  /** Joining the pieces of a split with the same separator gives back the string. */
  lemma {:induction false} JoinSplit(s: string, c: char)
    ensures Join(SplitOn(s, c), c) == s
    decreases |s|
  {
    if s != [] {
      var t := s[..|s| - 1];
      var x := s[|s| - 1];
      var init := SplitOn(t, c);
      assert s == t + [x];
      JoinSplit(t, c);
      if x == c {
        var parts := init + [""];
        assert SplitOn(s, c) == parts;
        assert parts[..|init|] == init;
        assert Join(parts, c) == Join(init, c) + [c] + "";
      } else {
        assert SplitOn(s, c) == init[..|init| - 1] + [init[|init| - 1] + [x]];
        JoinExtendLast(init, c, [x]);
      }
    }
  }

  /** No piece of a split contains the separator. */
  lemma {:induction false} SplitPiecesAvoidSeparator(s: string, c: char)
    ensures forall k :: 0 <= k < |SplitOn(s, c)| ==> c !in SplitOn(s, c)[k]
    decreases |s|
  {
    if s != [] {
      SplitPiecesAvoidSeparator(s[..|s| - 1], c);
    }
  }

  /** A string without the separator splits into itself alone. */
  lemma {:induction false} SplitWithoutSeparator(b: string, c: char)
    requires c !in b
    ensures SplitOn(b, c) == [b]
    decreases |b|
  {
    if b != [] {
      var t := b[..|b| - 1];
      assert c !in t by {
        forall k | 0 <= k < |t| ensures t[k] != c { assert t[k] == b[k]; }
      }
      SplitWithoutSeparator(t, c);
      assert t + [b[|b| - 1]] == b;
    }
  }

  /** Splitting at the last separator: `a + c + b` with `c` not in `b` ends in the piece `b`. */
  lemma {:induction false} SplitAtLastSeparator(a: string, c: char, b: string)
    requires c !in b
    ensures SplitOn(a + [c] + b, c) == SplitOn(a, c) + [b]
    decreases |b|
  {
    if b == [] {
      assert a + [c] + b == a + [c];
      assert (a + [c])[..|a|] == a;
    } else {
      var b' := b[..|b| - 1];
      var x := b[|b| - 1];
      assert c !in b' by {
        forall k | 0 <= k < |b'| ensures b'[k] != c { assert b'[k] == b[k]; }
      }
      SplitAtLastSeparator(a, c, b');
      var s := a + [c] + b;
      assert s[..|s| - 1] == a + [c] + b';
      assert s[|s| - 1] == x && x != c;
      assert b' + [x] == b;
    }
  }

  // ---------------------------------------------------------------------
  // Whitespace split: Python's s.split() with no argument
  // ---------------------------------------------------------------------

  /** Python's `str.isspace()` for a single character. */
  predicate IsSpace(c: char) {
    var n := c as int;
    (9 <= n <= 13) || (28 <= n <= 32) || n == 0x85 || n == 0xA0 || n == 0x1680
    || (0x2000 <= n <= 0x200A) || n == 0x2028 || n == 0x2029 || n == 0x202F
    || n == 0x205F || n == 0x3000
  }

  predicate NoSpace(s: string) {
    forall i :: 0 <= i < |s| ==> !IsSpace(s[i])
  }

  /** The longest prefix of `s` without whitespace. */
  function Word(s: string): (w: string)
    ensures |w| <= |s| && w == s[..|w|]
    ensures s != [] && !IsSpace(s[0]) ==> |w| >= 1
  {
    if s == [] || IsSpace(s[0]) then [] else [s[0]] + Word(s[1..])
  }

  /** Python's `s.split()`: the maximal runs of non-whitespace characters, in order. */
  function Fields(s: string): seq<string>
    decreases |s|
  {
    if s == [] then []
    else if IsSpace(s[0]) then Fields(s[1..])
    else
      var w := Word(s);
      [w] + Fields(s[|w|..])
  }

  /** Every field is non-empty and free of whitespace. */
  lemma {:induction false} FieldsAreWords(s: string)
    ensures forall k :: 0 <= k < |Fields(s)| ==> |Fields(s)[k]| > 0 && NoSpace(Fields(s)[k])
    decreases |s|
  {
    if s != [] {
      if IsSpace(s[0]) {
        FieldsAreWords(s[1..]);
      } else {
        var w := Word(s);
        WordHasNoSpace(s);
        FieldsAreWords(s[|w|..]);
      }
    }
  }

  lemma {:induction false} WordHasNoSpace(s: string)
    ensures NoSpace(Word(s))
  {
    if s != [] && !IsSpace(s[0]) {
      WordHasNoSpace(s[1..]);
    }
  }

  /** A non-empty word followed by the end or by whitespace is read back whole. */
  lemma {:induction false} WordOfWord(w: string, rest: string)
    requires NoSpace(w)
    requires rest == [] || IsSpace(rest[0])
    ensures Word(w + rest) == w
    decreases |w|
  {
    if w != [] {
      assert (w + rest)[1..] == w[1..] + rest;
      WordOfWord(w[1..], rest);
    } else {
      assert w + rest == rest;
    }
  }

  /** `(w + " " + rest).split()` is `[w] + rest.split()` for a non-empty word `w`. */
  lemma FieldsOfWordThenSpace(w: string, rest: string)
    requires |w| > 0 && NoSpace(w)
    ensures Fields(w + " " + rest) == [w] + Fields(rest)
  {
    var s := w + " " + rest;
    WordOfWord(w, " " + rest);
    assert s == w + (" " + rest);
    assert s[|w|..] == " " + rest;
    assert (" " + rest)[1..] == rest;
  }

  /** A non-empty word alone splits into itself. */
  lemma FieldsOfWord(w: string)
    requires |w| > 0 && NoSpace(w)
    ensures Fields(w) == [w]
  {
    WordOfWord(w, []);
    assert w + [] == w;
  }

  // ---------------------------------------------------------------------
  // First piece of a split: Python's s.split(c)[0]
  // ---------------------------------------------------------------------

  /** Splitting `a + c + b` with `c` not in `a` has first piece `a`. */
  lemma {:induction false} SplitAtFirstSeparator(a: string, c: char, b: string)
    requires c !in a
    ensures SplitOn(a + [c] + b, c)[0] == a
    decreases |b|
  {
    if b == [] {
      SplitWithoutSeparator(a, c);
      assert a + [c] + b == a + [c];
      assert (a + [c])[..|a|] == a;
    } else {
      var b' := b[..|b| - 1];
      SplitAtFirstSeparator(a, c, b');
      var s := a + [c] + b;
      assert s[..|s| - 1] == a + [c] + b';
      var init := SplitOn(a + [c] + b', c);
      if |init| == 1 {
        // the separator after a always opens a second piece
        SplitAtFirstHasTwoPieces(a, c, b');
      }
    }
  }

  lemma {:induction false} SplitAtFirstHasTwoPieces(a: string, c: char, b: string)
    ensures |SplitOn(a + [c] + b, c)| >= 2
    decreases |b|
  {
    if b == [] {
      assert a + [c] + b == a + [c];
      assert (a + [c])[..|a|] == a;
    } else {
      var b' := b[..|b| - 1];
      SplitAtFirstHasTwoPieces(a, c, b');
      var s := a + [c] + b;
      assert s[..|s| - 1] == a + [c] + b';
    }
  }

  // ---------------------------------------------------------------------
  // ASCII lower-casing
  // ---------------------------------------------------------------------

  function LowerChar(c: char): char {
    if 'A' <= c <= 'Z' then (c as int + 32) as char else c
  }

  /**
   * Python's `s.lower()` restricted to ASCII letters. For the only use in the
   * monitor, membership in a set of lower-case ASCII words, this is exact: no
   * other character lower-cases to one of the letters of those words.
   */
  function Lower(s: string): (r: string)
    ensures |r| == |s|
    ensures forall i :: 0 <= i < |s| ==> r[i] == LowerChar(s[i])
  {
    seq(|s|, i requires 0 <= i < |s| => LowerChar(s[i]))
  }

  // ---------------------------------------------------------------------
  // int(text) and str(n)
  // ---------------------------------------------------------------------

  predicate IsDigit(c: char) {
    '0' <= c <= '9'
  }

  /**
   * The digit strings `int()` accepts in base 10: ASCII digits, with single
   * underscores allowed between two digits.
   */
  predicate DigitString(b: string) {
    && |b| > 0
    && IsDigit(b[0])
    && forall i :: 0 <= i < |b| ==> IsDigit(b[i]) || (b[i] == '_' && i + 1 < |b| && IsDigit(b[i + 1]))
  }

  /** The value of a digit string, skipping the underscores. */
  function DigitsValue(b: string): nat
    decreases |b|
  {
    if b == [] then 0
    else
      var x := b[|b| - 1];
      if IsDigit(x) then DigitsValue(b[..|b| - 1]) * 10 + (x as int - '0' as int)
      else DigitsValue(b[..|b| - 1])
  }

  /** Python's `int(s)` for a string without surrounding whitespace; `None` is the `ValueError`. */
  function ParseInt(s: string): Option<int> {
    if |s| > 0 && (s[0] == '+' || s[0] == '-') then
      if DigitString(s[1..]) then
        var v: int := DigitsValue(s[1..]);
        Some(if s[0] == '-' then -v else v)
      else None
    else if DigitString(s) then Some(DigitsValue(s))
    else None
  }

  /**
   * `int(lookup(name, default))` for a lookup (a query argument, an
   * environment variable) that yields a string when the name is present:
   * the default when absent, `None` when `int()` raises.
   */
  function IntOrDefault(value: Option<string>, default: int): (r: Option<int>)
    ensures value.None? ==> r == Some(default)
  {
    match value
    case None => Some(default)
    case Some(s) => ParseInt(s)
  }

  function DigitChar(d: nat): (c: char)
    requires d < 10
    ensures IsDigit(c) && c as int - '0' as int == d
  {
    (('0' as int) + d) as char
  }

  /** Python's `str(n)` for a natural number. */
  function NatToString(n: nat): (s: string)
    decreases n
  {
    if n < 10 then [DigitChar(n)] else NatToString(n / 10) + [DigitChar(n % 10)]
  }

  /** Python's `str(n)` (and an f-string `{n}`) for an integer. */
  function IntToString(n: int): string {
    if n < 0 then "-" + NatToString(-n) else NatToString(n)
  }

  predicate AllDigits(s: string) {
    forall i :: 0 <= i < |s| ==> IsDigit(s[i])
  }

  lemma {:induction false} NatToStringDigits(n: nat)
    ensures |NatToString(n)| > 0 && AllDigits(NatToString(n))
    ensures DigitsValue(NatToString(n)) == n
    decreases n
  {
    if n >= 10 {
      NatToStringDigits(n / 10);
      var s := NatToString(n);
      assert s[..|s| - 1] == NatToString(n / 10);
    }
  }

  lemma AllDigitsIsDigitString(s: string)
    requires |s| > 0 && AllDigits(s)
    ensures DigitString(s) && '-' !in s && '+' !in s && '/' !in s && NoSpace(s)
  {
    assert IsDigit(s[0]);
  }

  /** `int(str(n)) == n`: the decimal form of every integer parses back to it. */
  lemma IntToStringRoundTrip(n: int)
    ensures ParseInt(IntToString(n)) == Some(n)
    ensures |IntToString(n)| > 0 && '/' !in IntToString(n) && NoSpace(IntToString(n))
  {
    var m: nat := if n < 0 then -n else n;
    NatToStringDigits(m);
    AllDigitsIsDigitString(NatToString(m));
    var s := IntToString(n);
    if n < 0 {
      assert s == "-" + NatToString(m);
      assert s[1..] == NatToString(m);
      assert s[0] == '-';
      assert NoSpace(s) by {
        forall i | 0 <= i < |s| ensures !IsSpace(s[i]) {
          if i > 0 { assert s[i] == NatToString(m)[i - 1]; }
        }
      }
    } else {
      assert s == NatToString(m);
      assert s[0] != '+' && s[0] != '-';
    }
  }

  // ---------------------------------------------------------------------
  // String order: Python's `<` on str compares code points lexicographically
  // ---------------------------------------------------------------------

  predicate StrLt(a: string, b: string)
    decreases |a|
  {
    if a == [] then b != []
    else if b == [] then false
    else if a[0] != b[0] then a[0] < b[0]
    else StrLt(a[1..], b[1..])
  }

  lemma {:induction false} StrLtIrreflexive(a: string)
    ensures !StrLt(a, a)
    decreases |a|
  {
    if a != [] {
      StrLtIrreflexive(a[1..]);
    }
  }

  lemma {:induction false} StrLtAsymmetric(a: string, b: string)
    ensures StrLt(a, b) ==> !StrLt(b, a)
    decreases |a|
  {
    if a != [] && b != [] && a[0] == b[0] {
      StrLtAsymmetric(a[1..], b[1..]);
    }
  }

  lemma {:induction false} StrLtTransitive(a: string, b: string, c: string)
    ensures StrLt(a, b) && StrLt(b, c) ==> StrLt(a, c)
    decreases |a|
  {
    if a != [] && b != [] && c != [] {
      StrLtTransitive(a[1..], b[1..], c[1..]);
    }
  }

  lemma {:induction false} StrLtTotal(a: string, b: string)
    ensures a == b || StrLt(a, b) || StrLt(b, a)
    decreases |a|
  {
    if a != [] && b != [] && a[0] == b[0] {
      StrLtTotal(a[1..], b[1..]);
      if a[1..] == b[1..] {
        assert a == [a[0]] + a[1..] && b == [b[0]] + b[1..];
      }
    }
  }
}
