/**
  Quoting of free text inside RC script string literals
  (`escape_string` in src/lib.rs).

  Inside a quoted RC string a double quote is written as two double quotes;
  single quote, backslash, newline, tab and carriage return are written in
  the C way with a backslash; every other character stands for itself.
  `ReadQuoted` is the matching reader of a quoted string body, and the
  lemmas below show that it gives back exactly the text that was escaped.
*/
module RcEscape {
  import opened Wrappers

  /** The replacement text of one character. */
  function EscapeChar(c: char): (r: string)
    ensures 1 <= |r| <= 2
    ensures |r| == 1 <==> r == [c]
  {
    match c
    case '"' => "\"\""
    case '\'' => "\\'"
    case '\\' => "\\\\"
    case '\n' => "\\n"
    case '\t' => "\\t"
    case '\r' => "\\r"
    case _ => [c]
  }

  /** Whether no character of `s` needs escaping. */
  predicate Plain(s: string) {
    s == [] || (!IsSpecial(s[0]) && Plain(s[1..]))
  }

  lemma {:induction false} PlainChars(s: string)
    requires forall i :: 0 <= i < |s| ==> !IsSpecial(s[i])
    ensures Plain(s)
  {
    if s != [] {
      PlainChars(s[1..]);
    }
  }

  /** Whether `c` is escaped at all. */
  predicate IsSpecial(c: char) {
    c == '"' || c == '\'' || c == '\\' || c == '\n' || c == '\t' || c == '\r'
  }

  /**
    The escaped form of `s`: each character replaced independently by
    EscapeChar. It never contains a raw line break, tab or carriage return,
    and it is at most twice as long as `s`.
  */
  function Escaped(s: string): (r: string)
    ensures |s| <= |r| <= 2 * |s|
    ensures '\n' !in r && '\t' !in r && '\r' !in r
  {
    if s == [] then [] else EscapeChar(s[0]) + Escaped(s[1..])
  }

  /** `escape_string`: pushes the replacement of each character in turn. */
  method EscapeString(s: string) returns (escaped: string)
    ensures escaped == Escaped(s)
  {
    escaped := "";
    var i := 0;
    while i < |s|
      invariant 0 <= i <= |s|
      invariant escaped == Escaped(s[..i])
    {
      var chr := s[i];
      match chr {
        case '"' => escaped := escaped + "\"\"";
        case '\'' => escaped := escaped + "\\'";
        case '\\' => escaped := escaped + "\\\\";
        case '\n' => escaped := escaped + "\\n";
        case '\t' => escaped := escaped + "\\t";
        case '\r' => escaped := escaped + "\\r";
        case _ => escaped := escaped + [chr];
      }
      EscapedSnoc(s, i);
      i := i + 1;
    }
    assert s[..i] == s;
  }

  /** One more character of `s` adds its replacement. */
  lemma EscapedSnoc(s: string, i: nat)
    requires i < |s|
    ensures Escaped(s[..i + 1]) == Escaped(s[..i]) + EscapeChar(s[i])
  {
    assert s[..i + 1] == s[..i] + [s[i]];
    EscapedAppend(s[..i], [s[i]]);
    assert Escaped([s[i]]) == EscapeChar(s[i]) + Escaped([]);
  }

  /** Escaping works character by character, so it distributes over concatenation. */
  lemma {:induction false} EscapedAppend(a: string, b: string)
    ensures Escaped(a + b) == Escaped(a) + Escaped(b)
  {
    if a == [] {
      assert a + b == b;
    } else {
      assert (a + b)[1..] == a[1..] + b;
      EscapedAppend(a[1..], b);
    }
  }

  /**
    The first three examples of the `string_escaping` unit test; the fourth,
    a Windows path, is EscapedBackslashPath.
  */
  lemma EscapedExamples()
    ensures Escaped("") == ""
    ensures Escaped("foo") == "foo"
    ensures Escaped("\"Hello\"") == "\"\"Hello\"\""
  {
    EscapedPlain("foo");
    EscapedQuotedHello();
  }

  lemma EscapedQuotedHello()
    ensures Escaped("\"Hello\"") == "\"\"Hello\"\""
  {
    var q, qq, h := "\"", "\"\"", "Hello";
    EscapedQuote();
    EscapedHello();
    assert Escaped(h + q) == h + qq by {
      EscapedAppend(h, q);
    }
    assert Escaped(q + (h + q)) == qq + (h + qq) by {
      EscapedAppend(q, h + q);
    }
    assert "\"Hello\"" == q + (h + q);
    assert "\"\"Hello\"\"" == qq + (h + qq);
  }

  lemma EscapedQuote()
    ensures Escaped("\"") == "\"\""
  {
    assert Escaped("\"") == EscapeChar('"') + Escaped([]);
  }

  lemma EscapedHello()
    ensures Escaped("Hello") == "Hello"
  {
    assert Plain("o") && Plain("lo") && Plain("llo") && Plain("ello") && Plain("Hello");
    EscapedPlain("Hello");
  }

  /**
    In a path of three plain components every separating backslash is
    doubled, as in `C:\Program Files\Foobar` of the unit test.
  */
  lemma EscapedBackslashPath(s1: string, s2: string, s3: string)
    requires Plain(s1) && Plain(s2) && Plain(s3)
    ensures Escaped(s1 + "\\" + s2 + "\\" + s3) == s1 + "\\\\" + s2 + "\\\\" + s3
  {
    var b, bb := "\\", "\\\\";
    assert Escaped(b) == bb;
    EscapedPlain(s1);
    EscapedPlain(s2);
    EscapedPlain(s3);
    var p1 := s1 + b;
    assert Escaped(p1) == s1 + bb by { EscapedAppend(s1, b); }
    var p2 := p1 + s2;
    assert Escaped(p2) == s1 + bb + s2 by { EscapedAppend(p1, s2); }
    var p3 := p2 + b;
    assert Escaped(p3) == s1 + bb + s2 + bb by { EscapedAppend(p2, b); }
    var p4 := p3 + s3;
    assert Escaped(p4) == s1 + bb + s2 + bb + s3 by { EscapedAppend(p3, s3); }
  }

  /** Text with no special character is left unchanged. */
  lemma {:induction false} EscapedPlain(s: string)
    requires Plain(s)
    ensures Escaped(s) == s
  {
    if s != [] {
      EscapedPlain(s[1..]);
    }
  }

  // ---------------------------------------------------------------------
  // Reading a quoted RC string back
  // ---------------------------------------------------------------------

  /** The character denoted by backslash + `c`, for the escape forms Escaped produces. */
  function Unescape(c: char): Option<char> {
    match c
    case '\'' => Some('\'')
    case '\\' => Some('\\')
    case 'n' => Some('\n')
    case 't' => Some('\t')
    case 'r' => Some('\r')
    case _ => None
  }

  function Prepend(c: char, r: Option<(string, string)>): Option<(string, string)> {
    match r
    case None => None
    case Some((text, rest)) => Some(([c] + text, rest))
  }

  /**
    Reads the body of a quoted RC string, `s` being the text after the
    opening quote: `""` stands for one quote, a backslash escape for the
    character it denotes, and a lone quote closes the string. The result is
    the text read and what follows the closing quote; None when the string
    is not closed or holds an escape that Escaped never writes.
  */
  function ReadQuoted(s: string): (r: Option<(string, string)>)
    ensures r.Some? ==> |r.value.1| < |s|
    decreases |s|
  {
    if s == [] then None
    else if s[0] == '"' then
      if |s| >= 2 && s[1] == '"' then Prepend('"', ReadQuoted(s[2..])) else Some(([], s[1..]))
    else if s[0] == '\\' then
      if |s| >= 2 && Unescape(s[1]).Some? then Prepend(Unescape(s[1]).value, ReadQuoted(s[2..]))
      else None
    else Prepend(s[0], ReadQuoted(s[1..]))
  }

  /**
    Quoting `x` and reading it back yields `x` and leaves whatever follows
    the closing quote, provided that is not itself a quote (which would
    make the closing quote part of a `""` pair).
  */
  lemma {:induction false} ReadQuotedEscaped(x: string, rest: string)
    requires rest == [] || rest[0] != '"'
    ensures ReadQuoted(Escaped(x) + "\"" + rest) == Some((x, rest))
  {
    if x == [] {
      assert Escaped(x) + "\"" + rest == ['"'] + rest;
    } else {
      var tail := Escaped(x[1..]) + "\"" + rest;
      assert Escaped(x) + "\"" + rest == EscapeChar(x[0]) + tail;
      ReadQuotedEscaped(x[1..], rest);
      ReadQuotedChar(x[0], tail);
      assert [x[0]] + x[1..] == x;
    }
  }

  /** The reader turns the replacement of one character back into that character. */
  lemma ReadQuotedChar(c: char, tail: string)
    ensures ReadQuoted(EscapeChar(c) + tail) == Prepend(c, ReadQuoted(tail))
  {
    var e := EscapeChar(c);
    if IsSpecial(c) {
      assert (e + tail)[2..] == tail;
    } else {
      assert (e + tail)[1..] == tail;
    }
  }

  /** `"<escaped s>"`: how the script quotes free text. */
  function Quoted(s: string): (r: string)
    ensures |r| >= 2 && r[0] == '"' && r[|r| - 1] == '"'
  {
    "\"" + Escaped(s) + "\""
  }

  /** Reads a whole quoted string from the start of `s`: the text it stands for and what follows it. */
  function ReadString(s: string): Option<(string, string)> {
    if s != [] && s[0] == '"' then ReadQuoted(s[1..]) else None
  }

  /** A quoted text reads back as the text, the rest being left as it was. */
  lemma ReadStringQuoted(x: string, rest: string)
    requires rest == [] || rest[0] != '"'
    ensures ReadString(Quoted(x) + rest) == Some((x, rest))
  {
    var s := Quoted(x) + rest;
    assert s[1..] == Escaped(x) + "\"" + rest;
    ReadQuotedEscaped(x, rest);
  }

  /** The text an escaped string stands for, if it is a well-formed escaped string. */
  function Unescaped(s: string): Option<string> {
    var r := ReadQuoted(s + "\"");
    if r.Some? && r.value.1 == [] then Some(r.value.0) else None
  }

  /** Unescaped is a left inverse of Escaped. */
  lemma UnescapedEscaped(x: string)
    ensures Unescaped(Escaped(x)) == Some(x)
  {
    ReadQuotedEscaped(x, []);
    assert Escaped(x) + "\"" + [] == Escaped(x) + "\"";
  }

  /** Hence two different texts never escape to the same string. */
  lemma EscapedInjective(a: string, b: string)
    requires Escaped(a) == Escaped(b)
    ensures a == b
  {
    UnescapedEscaped(a);
    UnescapedEscaped(b);
  }
}
