/**
  The parts of Rust's standard string library that the resource helper
  relies on, written out so that the model can state exactly what it does:
  `char::is_whitespace`, `str::trim`, `str::lines`, `str::starts_with`,
  `str::find`, the UTF-8 length of a prefix, the `{}`, `{:x}`, `{:#x}` and
  `{:04x}` integer formats, `u64::from_str`, and the ordering of `String`.
*/
module RustStr {
  import opened Wrappers

  // ---------------------------------------------------------------------
  // Whitespace and trimming
  // ---------------------------------------------------------------------

  /** The Unicode White_Space property, which is what `char::is_whitespace` tests. */
  predicate IsWhitespace(c: char) {
    ('\t' <= c <= '\r') || c == ' ' || c == '\U{85}' || c == '\U{A0}' || c == '\U{1680}'
    || ('\U{2000}' <= c <= '\U{200A}') || c == '\U{2028}' || c == '\U{2029}'
    || c == '\U{202F}' || c == '\U{205F}' || c == '\U{3000}'
  }

  /** Number of leading whitespace characters of `s`. */
  function LeadingWhitespace(s: string): (k: nat)
    ensures k <= |s|
  {
    if s == [] || !IsWhitespace(s[0]) then 0 else 1 + LeadingWhitespace(s[1..])
  }

  /** LeadingWhitespace counts the whitespace before the first other character. */
  lemma {:induction false} LeadingWhitespaceSpec(s: string)
    ensures forall i :: 0 <= i < LeadingWhitespace(s) ==> IsWhitespace(s[i])
    ensures LeadingWhitespace(s) < |s| ==> !IsWhitespace(s[LeadingWhitespace(s)])
  {
    if s != [] && IsWhitespace(s[0]) {
      LeadingWhitespaceSpec(s[1..]);
    }
  }

  /** Number of trailing whitespace characters of `s`. */
  function TrailingWhitespace(s: string): (k: nat)
    ensures k <= |s|
  {
    if s == [] || !IsWhitespace(s[|s| - 1]) then 0 else 1 + TrailingWhitespace(s[..|s| - 1])
  }

  /** TrailingWhitespace counts the whitespace after the last other character. */
  lemma {:induction false} TrailingWhitespaceSpec(s: string)
    ensures forall i :: |s| - TrailingWhitespace(s) <= i < |s| ==> IsWhitespace(s[i])
    ensures TrailingWhitespace(s) < |s| ==> !IsWhitespace(s[|s| - TrailingWhitespace(s) - 1])
  {
    if s != [] && IsWhitespace(s[|s| - 1]) {
      TrailingWhitespaceSpec(s[..|s| - 1]);
    }
  }

  /** `str::trim_start` (and `chars().skip_while(is_whitespace)`). */
  function TrimStart(s: string): (r: string)
    ensures |r| <= |s|
  {
    s[LeadingWhitespace(s)..]
  }

  /** `str::trim`: leading and trailing whitespace removed. */
  function Trim(s: string): (r: string)
    ensures |r| <= |s|
  {
    var t := TrimStart(s);
    t[..|t| - TrailingWhitespace(t)]
  }

  /**
    What trim leaves is a piece of `s` that neither starts nor ends with
    whitespace, and only whitespace was cut off around it.
  */
  lemma TrimSpec(s: string)
    ensures var r, k := Trim(s), LeadingWhitespace(s);
      && (r == [] || (!IsWhitespace(r[0]) && !IsWhitespace(r[|r| - 1])))
      && k + |r| <= |s| && s[k..k + |r|] == r
      && (forall i :: 0 <= i < k ==> IsWhitespace(s[i]))
      && (forall i :: k + |r| <= i < |s| ==> IsWhitespace(s[i]))
  {
    var k := LeadingWhitespace(s);
    var t := TrimStart(s);
    LeadingWhitespaceSpec(s);
    TrailingWhitespaceSpec(t);
    var r := Trim(s);
    assert s[k..k + |r|] == r;
    assert forall i :: k + |r| <= i < |s| ==> s[i] == t[i - k];
  }

  /** Whitespace in front of text that starts with something else is exactly what trim_start drops. */
  lemma TrimStartAfter(ws: string, t: string)
    requires forall i :: 0 <= i < |ws| ==> IsWhitespace(ws[i])
    requires t == [] || !IsWhitespace(t[0])
    ensures TrimStart(ws + t) == t
  {
    var s := ws + t;
    LeadingWhitespaceSpec(s);
    assert forall i :: 0 <= i < |ws| ==> s[i] == ws[i];
    assert |ws| < |s| ==> s[|ws|] == t[0];
    assert s[|ws|..] == t;
  }

  /**
    Trimming whitespace in front of a text that neither starts nor ends
    with whitespace gives back that text.
  */
  lemma TrimAfter(ws: string, t: string)
    requires forall i :: 0 <= i < |ws| ==> IsWhitespace(ws[i])
    requires t != [] && !IsWhitespace(t[0]) && !IsWhitespace(t[|t| - 1])
    ensures Trim(ws + t) == t
  {
    TrimStartAfter(ws, t);
    assert TrailingWhitespace(t) == 0;
  }

  /** `chars().take_while(|c| !c.is_whitespace())`: the longest prefix without whitespace. */
  function TakeUntilWhitespace(s: string): (r: string)
    ensures |r| <= |s|
  {
    if s == [] || IsWhitespace(s[0]) then [] else [s[0]] + TakeUntilWhitespace(s[1..])
  }

  /** take_while stops at the first whitespace, so it takes exactly a whitespace-free head. */
  lemma {:induction false} TakeUntilWhitespaceOf(head: string, rest: string)
    requires forall i :: 0 <= i < |head| ==> !IsWhitespace(head[i])
    requires rest == [] || IsWhitespace(rest[0])
    ensures TakeUntilWhitespace(head + rest) == head
  {
    if head == [] {
      assert head + rest == rest;
    } else {
      assert (head + rest)[1..] == head[1..] + rest;
      TakeUntilWhitespaceOf(head[1..], rest);
      assert [head[0]] + head[1..] == head;
    }
  }

  /** take_while yields the longest prefix free of whitespace. */
  lemma {:induction false} TakeUntilWhitespaceSpec(s: string)
    ensures var r := TakeUntilWhitespace(s);
      && r == s[..|r|]
      && (forall i :: 0 <= i < |r| ==> !IsWhitespace(r[i]))
      && (|r| < |s| ==> IsWhitespace(s[|r|]))
  {
    if s != [] && !IsWhitespace(s[0]) {
      TakeUntilWhitespaceSpec(s[1..]);
      var r' := TakeUntilWhitespace(s[1..]);
      assert s[..|r'| + 1] == [s[0]] + s[1..][..|r'|];
    }
  }

  /** `chars().skip(n)`: everything after the first `n` characters, empty when there are fewer. */
  function Skip(s: string, n: nat): (r: string)
    ensures n <= |s| ==> r == s[n..]
    ensures n >= |s| ==> r == []
  {
    if n <= |s| then s[n..] else []
  }

  // ---------------------------------------------------------------------
  // Searching and splitting
  // ---------------------------------------------------------------------

  predicate StartsWith(s: string, prefix: string) {
    |prefix| <= |s| && s[..|prefix|] == prefix
  }

  /** Whether `pat` occurs in `s` at character index `i`. */
  predicate OccursAt(s: string, pat: string, i: nat) {
    i + |pat| <= |s| && s[i..i + |pat|] == pat
  }

  /** The first occurrence of `pat` in `s` at or after `from`. */
  function FindFrom(s: string, pat: string, from: nat): (r: Option<nat>)
    requires from <= |s|
    ensures r.Some? ==> from <= r.value && OccursAt(s, pat, r.value)
    decreases |s| - from
  {
    if OccursAt(s, pat, from) then Some(from)
    else if from == |s| then None
    else FindFrom(s, pat, from + 1)
  }

  /** FindFrom finds the first occurrence at or after `from`, and None means there is none. */
  lemma {:induction false} FindFromSpec(s: string, pat: string, from: nat)
    requires from <= |s|
    ensures FindFrom(s, pat, from).Some? ==> forall i :: from <= i < FindFrom(s, pat, from).value ==> !OccursAt(s, pat, i)
    ensures FindFrom(s, pat, from).None? ==> forall i :: from <= i <= |s| ==> !OccursAt(s, pat, i)
    decreases |s| - from
  {
    if !OccursAt(s, pat, from) && from < |s| {
      FindFromSpec(s, pat, from + 1);
    }
  }

  /**
    `str::find` for a string pattern, as the CHARACTER index of the first
    occurrence (Rust returns the byte index of the same occurrence; see
    Utf8Length for the conversion).
  */
  function Find(s: string, pat: string): (r: Option<nat>)
    ensures r.Some? ==> OccursAt(s, pat, r.value)
  {
    FindFrom(s, pat, 0)
  }

  /** Find gives the first occurrence, and None exactly when there is no occurrence at all. */
  lemma FindSpec(s: string, pat: string)
    ensures Find(s, pat).Some? ==> forall i :: 0 <= i < Find(s, pat).value ==> !OccursAt(s, pat, i)
    ensures Find(s, pat).None? <==> forall i :: 0 <= i <= |s| ==> !OccursAt(s, pat, i)
  {
    FindFromSpec(s, pat, 0);
  }

  /** Index of the first `c` in `s`. */
  function IndexOf(s: string, c: char): (r: Option<nat>)
    ensures r.Some? ==> r.value < |s| && s[r.value] == c && c !in s[..r.value]
    ensures r.None? ==> c !in s
  {
    if s == [] then None
    else if s[0] == c then Some(0)
    else match IndexOf(s[1..], c)
      case None => None
      case Some(k) => assert s[..k + 1] == [s[0]] + s[1..][..k]; Some(k + 1)
  }

  /** A line ending is `\n` or `\r\n`; this drops the `\r` of the latter. */
  function StripCarriageReturn(line: string): string {
    if line != [] && line[|line| - 1] == '\r' then line[..|line| - 1] else line
  }

  /**
    `str::lines`: the text split at line endings (`\n` or `\r\n`); a final
    line ending does not start another, empty line, and the empty string has
    no lines at all.
  */
  function Lines(s: string): (r: seq<string>)
    decreases |s|
  {
    match IndexOf(s, '\n')
    case None => if s == [] then [] else [s]
    case Some(k) => [StripCarriageReturn(s[..k])] + Lines(s[k + 1..])
  }

  /** No line contains a line feed. */
  lemma {:induction false} LinesSpec(s: string)
    ensures forall i :: 0 <= i < |Lines(s)| ==> '\n' !in Lines(s)[i]
    decreases |s|
  {
    match IndexOf(s, '\n')
    case None =>
    case Some(k) =>
      var line := s[..k];
      assert '\n' !in StripCarriageReturn(line) by {
        assert forall c :: c in StripCarriageReturn(line) ==> c in line;
      }
      LinesSpec(s[k + 1..]);
  }

  /** A text without a line feed is one line (none if it is empty). */
  lemma LinesSingle(s: string)
    requires '\n' !in s
    ensures Lines(s) == if s == [] then [] else [s]
  {
  }

  /**
    The first line ends at the first line feed: whatever `a` is before it,
    less a final carriage return, then the lines of the rest.
  */
  lemma LinesCons(a: string, b: string)
    requires '\n' !in a
    ensures Lines(a + "\n" + b) == [StripCarriageReturn(a)] + Lines(b)
  {
    var s := a + "\n" + b;
    assert s[..|a|] == a && s[|a|] == '\n';
    assert IndexOf(s, '\n') == Some(|a|);
    assert s[|a| + 1..] == b;
  }

  /** The lines joined again with single line feeds. */
  function JoinLf(lines: seq<string>): (r: string)
    ensures lines == [] ==> r == []
  {
    if lines == [] then [] else if |lines| == 1 then lines[0] else lines[0] + "\n" + JoinLf(lines[1..])
  }

  /** The line feed that ends `s`, if any. */
  function FinalLf(s: string): string {
    if s != [] && s[|s| - 1] == '\n' then "\n" else ""
  }

  /**
    Splitting into lines loses nothing but the line endings: without
    carriage returns, joining the lines with line feeds and restoring a
    final line feed gives back the text.
  */
  lemma {:induction false} LinesJoin(s: string)
    requires '\r' !in s
    ensures JoinLf(Lines(s)) + FinalLf(s) == s
    decreases |s|
  {
    match IndexOf(s, '\n')
    case None =>
      LinesSingle(s);
    case Some(k) =>
      var line, rest := s[..k], s[k + 1..];
      assert s == line + "\n" + rest;
      assert '\r' !in line && '\r' !in rest by {
        assert forall c :: c in line || c in rest ==> c in s;
      }
      LinesJoin(rest);
      LinesJoinStep(line, rest);
  }

  lemma LinesJoinStep(line: string, rest: string)
    requires '\n' !in line && '\r' !in line
    requires JoinLf(Lines(rest)) + FinalLf(rest) == rest
    ensures JoinLf(Lines(line + "\n" + rest)) + FinalLf(line + "\n" + rest) == line + "\n" + rest
  {
    assert StripCarriageReturn(line) == line by {
      if line != [] {
        assert line[|line| - 1] in line;
      }
    }
    LinesCons(line, rest);
    if rest == [] {
      assert Lines(line + "\n" + rest) == [line];
      assert line + "\n" + rest == line + "\n";
    } else {
      LinesNonEmpty(rest);
      JoinLfCons(line, Lines(rest));
      FinalLfAppend(line + "\n", rest);
      JoinStep(line, JoinLf(Lines(rest)), FinalLf(rest), rest);
    }
  }

  lemma JoinLfCons(x: string, lines: seq<string>)
    requires lines != []
    ensures JoinLf([x] + lines) == x + "\n" + JoinLf(lines)
  {
    assert ([x] + lines)[1..] == lines;
  }

  lemma FinalLfAppend(a: string, b: string)
    requires b != []
    ensures FinalLf(a + b) == FinalLf(b)
  {
    assert (a + b)[|a + b| - 1] == b[|b| - 1];
  }

  lemma JoinStep(x: string, j: string, f: string, rest: string)
    requires j + f == rest
    ensures x + "\n" + j + f == x + "\n" + rest
  {
  }

  /** A non-empty text has at least one line. */
  lemma LinesNonEmpty(s: string)
    requires s != []
    ensures Lines(s) != []
  {
  }

  // ---------------------------------------------------------------------
  // UTF-8
  // ---------------------------------------------------------------------

  /** The number of bytes UTF-8 uses for `c`. */
  function Utf8Width(c: char): (w: nat)
    ensures 1 <= w <= 4
    ensures w == 1 <==> c < '\U{80}'
  {
    if c < '\U{80}' then 1 else if c < '\U{800}' then 2 else if c < '\U{10000}' then 3 else 4
  }

  /** The length in bytes of `s` encoded as UTF-8, which is what Rust string indices count. */
  function Utf8Length(s: string): (n: nat)
    ensures n >= |s|
  {
    if s == [] then 0 else Utf8Width(s[0]) + Utf8Length(s[1..])
  }

  /** Bytes and characters agree in number exactly for ASCII text. */
  lemma {:induction false} Utf8LengthAscii(s: string)
    ensures Utf8Length(s) == |s| <==> forall i :: 0 <= i < |s| ==> s[i] < '\U{80}'
  {
    if s != [] {
      Utf8LengthAscii(s[1..]);
      assert forall i :: 1 <= i < |s| ==> s[i] == s[1..][i - 1];
    }
  }

  // ---------------------------------------------------------------------
  // Integer formatting and parsing
  // ---------------------------------------------------------------------

  /** A digit of base 10 or 16 as Rust prints them (lower case). */
  predicate IsDigitOf(c: char, base: nat) {
    ('0' <= c <= '9') || (base == 16 && 'a' <= c <= 'f')
  }

  function DigitChar(d: nat): (c: char)
    requires d < 16
  {
    if d < 10 then ('0' as int + d) as char else ('a' as int + d - 10) as char
  }

  function DigitValue(c: char): (d: nat)
    requires IsDigitOf(c, 16)
    ensures d < 16
    ensures '0' <= c <= '9' ==> d < 10
  {
    if '0' <= c <= '9' then (c as int) - ('0' as int) else (c as int) - ('a' as int) + 10
  }

  /** The digits of `n` in `base` (10 or 16, lower case), most significant first, no leading zero. */
  function ToDigits(n: nat, base: nat): (r: string)
    requires base == 10 || base == 16
    ensures r != []
    ensures forall i :: 0 <= i < |r| ==> IsDigitOf(r[i], base)
    ensures |r| > 1 ==> r[0] != '0'
    decreases n
  {
    var last := DigitChar(n % base);
    assert IsDigitOf(last, base);
    if n < base then [last] else ToDigits(n / base, base) + [last]
  }

  /** The value of a digit string in `base`, most significant digit first. */
  function FromDigits(s: string, base: nat): (n: nat)
    requires base == 10 || base == 16
    requires forall i :: 0 <= i < |s| ==> IsDigitOf(s[i], base)
  {
    if s == [] then 0
    else
      assert IsDigitOf(s[|s| - 1], base);
      FromDigits(s[..|s| - 1], base) * base + DigitValue(s[|s| - 1])
  }

  lemma {:induction false} FromToDigits(n: nat, base: nat)
    requires base == 10 || base == 16
    ensures FromDigits(ToDigits(n, base), base) == n
    decreases n
  {
    var r := ToDigits(n, base);
    var last := DigitChar(n % base);
    assert DigitValue(last) == n % base;
    if n >= base {
      FromToDigits(n / base, base);
      assert r[..|r| - 1] == ToDigits(n / base, base);
    }
  }

  /** `format!("{}", n)`. */
  function Decimal(n: nat): string {
    ToDigits(n, 10)
  }

  /** `format!("{:x}", n)`. */
  function LowerHex(n: nat): string {
    ToDigits(n, 16)
  }

  /** `format!("{:#x}", n)`: the `0x` prefix and the lower-case hex digits. */
  function AltHex(n: nat): string {
    "0x" + LowerHex(n)
  }

  /** `format!("{:04x}", n)`: lower-case hex digits, padded with zeros to at least four. */
  function Hex04(n: nat): string {
    var digits := LowerHex(n);
    if |digits| >= 4 then digits else Zeros(4 - |digits|) + digits
  }

  function Zeros(n: nat): (z: string)
    ensures |z| == n && forall i :: 0 <= i < n ==> z[i] == '0'
  {
    seq(n, _ => '0')
  }

  lemma {:induction false} FromDigitsLeadingZeros(zeros: nat, s: string, base: nat)
    requires base == 10 || base == 16
    requires forall i :: 0 <= i < |s| ==> IsDigitOf(s[i], base)
    ensures forall i :: 0 <= i < |Zeros(zeros) + s| ==> IsDigitOf((Zeros(zeros) + s)[i], base)
    ensures FromDigits(Zeros(zeros) + s, base) == FromDigits(s, base)
    decreases |s|
  {
    var z := Zeros(zeros);
    if s == [] {
      assert z + s == z;
      ZerosAreZero(zeros, base);
    } else {
      FromDigitsLeadingZeros(zeros, s[..|s| - 1], base);
      assert (z + s)[..|z + s| - 1] == z + s[..|s| - 1];
    }
  }

  lemma {:induction false} ZerosAreZero(zeros: nat, base: nat)
    requires base == 10 || base == 16
    ensures FromDigits(Zeros(zeros), base) == 0
  {
    if zeros > 0 {
      ZerosAreZero(zeros - 1, base);
      assert Zeros(zeros)[..zeros - 1] == Zeros(zeros - 1);
    }
  }

  /** A 16-bit value prints as exactly four lower-case hex digits that read back as the value. */
  lemma Hex04OfU16(n: nat)
    requires n < 0x10000
    ensures |Hex04(n)| == 4
    ensures forall i :: 0 <= i < 4 ==> IsDigitOf(Hex04(n)[i], 16)
    ensures FromDigits(Hex04(n), 16) == n
  {
    var digits := LowerHex(n);
    FromToDigits(n, 16);
    HexDigitCount(n);
    if |digits| < 4 {
      FromDigitsLeadingZeros(4 - |digits|, digits, 16);
    }
  }

  lemma {:induction false} HexDigitCount(n: nat)
    ensures n < 0x10000 ==> |LowerHex(n)| <= 4
    ensures n < 0x1000 ==> |LowerHex(n)| <= 3
    ensures n < 0x100 ==> |LowerHex(n)| <= 2
    ensures n < 0x10 ==> |LowerHex(n)| <= 1
  {
    if n >= 16 {
      HexDigitCount(n / 16);
    }
  }

  /**
    `<u64 as FromStr>::from_str`: an optional `+`, then one or more decimal
    digits whose value fits in 64 bits; anything else is an error (None).
  */
  function ParseU64(s: string): (r: Option<nat>)
    ensures r.Some? ==> s != [] && r.value < 0x1_0000_0000_0000_0000
  {
    var digits := if s != [] && s[0] == '+' then s[1..] else s;
    if digits == [] || !(forall i :: 0 <= i < |digits| ==> IsDigitOf(digits[i], 10)) then None
    else
      var n := FromDigits(digits, 10);
      if n < 0x1_0000_0000_0000_0000 then Some(n) else None
  }

  /** Printing a 64-bit value with `{}` and parsing it back gives the value. */
  lemma ParseU64Decimal(n: nat)
    requires n < 0x1_0000_0000_0000_0000
    ensures ParseU64(Decimal(n)) == Some(n)
  {
    FromToDigits(n, 10);
  }

  // ---------------------------------------------------------------------
  // String ordering
  // ---------------------------------------------------------------------

  /**
    `a < b` for Rust `String`s. Rust compares the UTF-8 bytes
    lexicographically; UTF-8 preserves the order of code points, so this is
    the lexicographic order of the characters, a proper prefix coming first.
  */
  predicate StrLess(a: string, b: string) {
    if a == [] then b != []
    else if b == [] then false
    else a[0] < b[0] || (a[0] == b[0] && StrLess(a[1..], b[1..]))
  }

  lemma {:induction false} StrLessIrreflexive(a: string)
    ensures !StrLess(a, a)
  {
    if a != [] {
      StrLessIrreflexive(a[1..]);
    }
  }

  lemma {:induction false} StrLessTransitive(a: string, b: string, c: string)
    requires StrLess(a, b) && StrLess(b, c)
    ensures StrLess(a, c)
  {
    if a != [] && b != [] && c != [] && a[0] == b[0] == c[0] {
      StrLessTransitive(a[1..], b[1..], c[1..]);
    }
  }

  lemma {:induction false} StrLessTotal(a: string, b: string)
    ensures a == b || StrLess(a, b) || StrLess(b, a)
  {
    if a != [] && b != [] && a[0] == b[0] {
      StrLessTotal(a[1..], b[1..]);
      if a[1..] == b[1..] {
        assert a == [a[0]] + a[1..] && b == [b[0]] + b[1..];
      }
    }
  }

  lemma {:induction false} StrLessAsymmetric(a: string, b: string)
    requires StrLess(a, b)
    ensures !StrLess(b, a)
  {
    if a != [] && b != [] && a[0] == b[0] {
      StrLessAsymmetric(a[1..], b[1..]);
    }
  }
}
