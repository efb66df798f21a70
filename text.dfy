/** The JavaScript string operations the store relies on: `trim`, `split` and `join`
    with a one-character separator, and the decimal text of a whole number. */
module Text {

  /** The characters `String.prototype.trim` removes: the WhiteSpace and LineTerminator
      code points of ECMAScript (sections 12.2 and 12.3 of ECMA-262). */
  predicate IsWhitespace(c: char) {
    var n := c as int;
    n == 0x09 || n == 0x0A || n == 0x0B || n == 0x0C || n == 0x0D || n == 0x20 ||
    n == 0xA0 || n == 0x1680 || (0x2000 <= n <= 0x200A) || n == 0x2028 || n == 0x2029 ||
    n == 0x202F || n == 0x205F || n == 0x3000 || n == 0xFEFF
  }

  /** Every character of `s` is whitespace (in particular, the empty string). */
  predicate Blank(s: string) {
    forall k :: 0 <= k < |s| ==> IsWhitespace(s[k])
  }

  /** `s` with its leading whitespace removed. */
  function TrimStart(s: string): string {
    if s != [] && IsWhitespace(s[0]) then TrimStart(s[1..]) else s
  }

  /** `s` with its trailing whitespace removed. */
  function TrimEnd(s: string): string {
    if s != [] && IsWhitespace(s[|s| - 1]) then TrimEnd(s[..|s| - 1]) else s
  }

  /** `String.prototype.trim`: whitespace removed at both ends. */
  function Trim(s: string): string {
    TrimEnd(TrimStart(s))
  }

  /** Trimming the start drops a whitespace prefix and leaves a suffix that is empty or
      starts with a non-whitespace character. */
  lemma {:induction false} TrimStartShape(s: string)
    ensures var r := TrimStart(s);
      && |r| <= |s| && r == s[|s| - |r|..]
      && Blank(s[..|s| - |r|])
      && (r == [] || !IsWhitespace(r[0]))
    decreases |s|
  {
    if s != [] && IsWhitespace(s[0]) {
      TrimStartShape(s[1..]);
      var r := TrimStart(s);
      assert s[1..][|s| - 1 - |r|..] == s[|s| - |r|..];
      forall k | 0 <= k < |s| - |r| ensures IsWhitespace(s[k]) {
        if k > 0 { assert s[k] == s[1..][..|s| - 1 - |r|][k - 1]; }
      }
    }
  }

  /** Trimming the end drops a whitespace suffix and leaves a prefix that is empty or
      ends with a non-whitespace character. */
  lemma {:induction false} TrimEndShape(s: string)
    ensures var r := TrimEnd(s);
      && |r| <= |s| && r == s[..|r|]
      && Blank(s[|r|..])
      && (r == [] || !IsWhitespace(r[|r| - 1]))
    decreases |s|
  {
    if s != [] && IsWhitespace(s[|s| - 1]) {
      var t := s[..|s| - 1];
      TrimEndShape(t);
      var r := TrimEnd(s);
      assert t[..|r|] == s[..|r|];
      forall k | |r| <= k < |s| ensures IsWhitespace(s[k]) {
        if k < |s| - 1 { assert s[k] == t[|r|..][k - |r|]; }
      }
    }
  }

  /** A trimmed string is empty exactly when the original consists of whitespace only,
      and a string that neither starts nor ends with whitespace is left as it is. */
  lemma TrimProperties(s: string)
    ensures Trim(s) == [] <==> Blank(s)
    ensures s != [] && !IsWhitespace(s[0]) && !IsWhitespace(s[|s| - 1]) ==> Trim(s) == s
  {
    var t := TrimStart(s);
    TrimStartShape(s);
    TrimEndShape(t);
    if Trim(s) == [] {
      assert t[|t|..] == t;
      assert s[..|s|] == s;
    }
  }

  /** `parts.join(sep)`: the parts with one separator between neighbours; `[].join(sep)` is "". */
  function Join(parts: seq<string>, sep: char): string {
    if |parts| == 0 then []
    else if |parts| == 1 then parts[0]
    else parts[0] + [sep] + Join(parts[1..], sep)
  }

  /** `s.split(sep)` for a one-character separator: the maximal runs between separators,
      so that the result is never empty and joining it gives `s` back. */
  function Split(s: string, sep: char): (r: seq<string>)
    ensures |r| >= 1
    ensures forall k :: 0 <= k < |r| ==> sep !in r[k]
    ensures Join(r, sep) == s
  {
    if s == [] then [[]]
    else
      var rest := Split(s[1..], sep);
      if s[0] == sep then
        assert ([[]] + rest)[1..] == rest;
        [[]] + rest
      else
        var r := [[s[0]] + rest[0]] + rest[1..];
        assert r[1..] == rest[1..];
        assert |rest| > 1 ==> Join(rest, sep) == rest[0] + [sep] + Join(rest[1..], sep);
        r
  }

  /** Splitting a text made of a separator-free piece, one separator and a rest. */
  lemma {:induction false} SplitAtFirst(x: string, y: string, sep: char)
    requires sep !in x
    ensures Split(x + [sep] + y, sep) == [x] + Split(y, sep)
    decreases |x|
  {
    if x == [] {
      assert x + [sep] + y == [sep] + y;
      assert ([sep] + y)[1..] == y;
    } else {
      var s := x + [sep] + y;
      assert s[0] == x[0] && s[1..] == x[1..] + [sep] + y;
      SplitAtFirst(x[1..], y, sep);
      assert [x[0]] + x[1..] == x;
    }
  }

  /** A separator-free text splits into itself alone. */
  lemma {:induction false} SplitWithoutSeparator(x: string, sep: char)
    requires sep !in x
    ensures Split(x, sep) == [x]
    decreases |x|
  {
    if x != [] {
      SplitWithoutSeparator(x[1..], sep);
      assert [x[0]] + x[1..] == x;
    }
  }

  /** `split` undoes `join` when no part contains the separator. */
  lemma {:induction false} SplitJoin(parts: seq<string>, sep: char)
    requires |parts| >= 1
    requires forall k :: 0 <= k < |parts| ==> sep !in parts[k]
    ensures Split(Join(parts, sep), sep) == parts
    decreases |parts|
  {
    if |parts| == 1 {
      SplitWithoutSeparator(parts[0], sep);
    } else {
      SplitJoin(parts[1..], sep);
      SplitAtFirst(parts[0], Join(parts[1..], sep), sep);
      assert [parts[0]] + parts[1..] == parts;
    }
  }

  /** A character other than the separator occurs in a join only if it occurs in a part. */
  lemma {:induction false} JoinFree(parts: seq<string>, sep: char, c: char)
    requires c != sep
    requires forall k :: 0 <= k < |parts| ==> c !in parts[k]
    ensures c !in Join(parts, sep)
    decreases |parts|
  {
    if |parts| > 1 {
      JoinFree(parts[1..], sep, c);
    }
  }

  /** A join starts with its first part and ends with its last part. */
  lemma {:induction false} JoinEnds(parts: seq<string>, sep: char)
    requires |parts| >= 1
    ensures parts[0] != [] ==> Join(parts, sep) != [] && Join(parts, sep)[0] == parts[0][0]
    ensures parts[|parts| - 1] != [] ==>
              var j := Join(parts, sep);
              j != [] && j[|j| - 1] == parts[|parts| - 1][|parts[|parts| - 1]| - 1]
    decreases |parts|
  {
    if |parts| > 1 {
      JoinEnds(parts[1..], sep);
    }
  }

  /** The character of a decimal digit `d`. */
  function DigitChar(d: nat): (c: char)
    requires d < 10
    ensures '0' <= c <= '9' && c as int - '0' as int == d
  {
    (48 + d) as char
  }

  /** Every character of `s` is a decimal digit. */
  predicate Digits(s: string) {
    forall k :: 0 <= k < |s| ==> '0' <= s[k] <= '9'
  }

  /** The number a string of decimal digits denotes. */
  function DecimalValue(s: string): nat
    requires Digits(s)
  {
    if s == [] then 0 else 10 * DecimalValue(s[..|s| - 1]) + (s[|s| - 1] as int - '0' as int)
  }

  /** `s` is the canonical decimal numeral of `v`: a non-empty string of digits with no
      leading zero that denotes `v`. */
  predicate Numeral(s: string, v: nat) {
    && |s| >= 1
    && Digits(s)
    && (|s| > 1 ==> s[0] != '0')
    && DecimalValue(s) == v
  }

  /** The decimal numeral of `n` (what `String(n)` or a template literal prints for a
      whole number below 10^21). */
  function NatToString(n: nat): (r: string)
    ensures Numeral(r, n)
  {
    if n < 10 then [DigitChar(n)]
    else
      var r := NatToString(n / 10) + [DigitChar(n % 10)];
      assert r[..|r| - 1] == NatToString(n / 10);
      r
  }
}
