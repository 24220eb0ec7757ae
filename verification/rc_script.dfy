/**
  The RC script that `write_resource_file` (src/lib.rs) produces for a
  resource configuration, as a sequence of lines.

  A `writeln!` whose format holds line breaks contributes one line per
  break here; the text of the file is the lines, each followed by a line
  feed. The two hash maps of the configuration are visited in an order the
  source leaves to the hash map, so the renderer takes each order as a
  parameter: any sequence that lists every key exactly once.
*/
module RcScript {
  import opened Wrappers
  import opened RustStr
  import opened RcEscape
  import opened Sdk

  /** The fields of the VERSIONINFO statement. */
  datatype VersionInfo = FILEVERSION | PRODUCTVERSION | FILEOS | FILETYPE | FILESUBTYPE | FILEFLAGSMASK | FILEFLAGS

  /** The `Debug` name of a field, which is how the script names it. */
  function Name(k: VersionInfo): (r: string)
    ensures r != [] && forall i :: 0 <= i < |r| ==> 'A' <= r[i] <= 'Z'
  {
    match k
    case FILEVERSION => "FILEVERSION"
    case PRODUCTVERSION => "PRODUCTVERSION"
    case FILEOS => "FILEOS"
    case FILETYPE => "FILETYPE"
    case FILESUBTYPE => "FILESUBTYPE"
    case FILEFLAGSMASK => "FILEFLAGSMASK"
    case FILEFLAGS => "FILEFLAGS"
  }

  /** The field a name denotes, if any. */
  function FromName(s: string): Option<VersionInfo> {
    if s == "FILEVERSION" then Some(FILEVERSION)
    else if s == "PRODUCTVERSION" then Some(PRODUCTVERSION)
    else if s == "FILEOS" then Some(FILEOS)
    else if s == "FILETYPE" then Some(FILETYPE)
    else if s == "FILESUBTYPE" then Some(FILESUBTYPE)
    else if s == "FILEFLAGSMASK" then Some(FILEFLAGSMASK)
    else if s == "FILEFLAGS" then Some(FILEFLAGS)
    else None
  }

  /** Each field is read back from its name, so different fields have different names. */
  lemma FromNameName(k: VersionInfo)
    ensures FromName(Name(k)) == Some(k)
  {
    assert "FILEVERSION"[4] != "FILESUBTYPE"[4];
  }

  /** A `u16`. */
  type U16 = n: nat | n < 0x10000

  // ---------------------------------------------------------------------
  // Version numbers: four 16-bit words in a u64
  // ---------------------------------------------------------------------

  /**
    The value `WindowsResource::new` builds from the package version:
    `major << 48 | minor << 32 | patch << 16` on u64, the bits shifted past
    bit 63 being lost.
  */
  function PackVersion(major: bv64, minor: bv64, patch: bv64): bv64 {
    (major << 48) | (minor << 32) | (patch << 16)
  }

  /** The four words the script prints: `(v >> 48) as u16`, `(v >> 32) as u16`, `(v >> 16) as u16`, `v as u16`. */
  function Words(v: bv64): (bv16, bv16, bv16, bv16) {
    (((v >> 48) & 0xFFFF) as bv16, ((v >> 32) & 0xFFFF) as bv16, ((v >> 16) & 0xFFFF) as bv16, (v & 0xFFFF) as bv16)
  }

  /** Four 16-bit words put back together, most significant first. */
  function Unwords(w: (bv16, bv16, bv16, bv16)): bv64 {
    (w.0 as bv64 << 48) | (w.1 as bv64 << 32) | (w.2 as bv64 << 16) | (w.3 as bv64)
  }

  /** The four words hold the whole value: nothing of a u64 is lost when it is printed as words. */
  lemma WordsUnwords(v: bv64)
    ensures Unwords(Words(v)) == v
  {
  }

  /** And four words are read back from their packed value. */
  lemma UnwordsWords(w: (bv16, bv16, bv16, bv16))
    ensures Words(Unwords(w)) == w
  {
  }

  /**
    When major, minor and patch fit in 16 bits, the packed version prints
    as `major, minor, patch, 0`; the last word is 0 whatever they are.
  */
  lemma WordsOfPackVersion(major: bv64, minor: bv64, patch: bv64)
    ensures Words(PackVersion(major, minor, patch)).3 == 0
    ensures major < 0x10000 && minor < 0x10000 && patch < 0x10000 ==>
      var w := Words(PackVersion(major, minor, patch));
      w.0 as int == major as int && w.1 as int == minor as int && w.2 as int == patch as int
  {
    PackedWords(major, minor, patch);
    if major < 0x10000 && minor < 0x10000 && patch < 0x10000 {
      Low16(major);
      Low16(minor);
      Low16(patch);
    }
  }

  /** The words of a packed version, as bit-vectors. */
  lemma PackedWords(major: bv64, minor: bv64, patch: bv64)
    ensures Words(PackVersion(major, minor, patch)).3 == 0
    ensures major < 0x10000 && minor < 0x10000 && patch < 0x10000 ==>
      Words(PackVersion(major, minor, patch)) == (major as bv16, minor as bv16, patch as bv16, 0)
  {
  }

  /** A u64 below 2^16 keeps its value as a u16. */
  lemma Low16(x: bv64)
    requires x < 0x10000
    ensures (x as bv16) as int == x as int
  {
  }

  // ---------------------------------------------------------------------
  // The configuration that is rendered
  // ---------------------------------------------------------------------

  /** The fields of a WindowsResource. */
  datatype Config = Config(
    tool: Tool,
    properties: map<string, string>,
    versionInfo: map<VersionInfo, bv64>,
    rcFile: Option<string>,
    iconId: Option<string>,
    icon: Option<string>,
    language: U16,
    manifest: Option<string>,
    manifestFile: Option<string>,
    outputDirectory: string,
    windresPath: Option<string>,
    arPath: Option<string>)

  /** `order` lists every key of a map exactly once, as iterating over the map does. */
  ghost predicate Enumerates<K(!new)>(order: seq<K>, keys: set<K>) {
    && (forall k :: k in order <==> k in keys)
    && (forall i, j :: 0 <= i < j < |order| ==> order[i] != order[j])
  }

  // ---------------------------------------------------------------------
  // The VERSIONINFO fields
  // ---------------------------------------------------------------------

  /** One field: a version as its four words in decimal, anything else as `{:#x}`. */
  function VersionLine(k: VersionInfo, v: bv64): string {
    Name(k) + " " + FieldValue(k, v)
  }

  /** What follows the field's name on its line. */
  function FieldValue(k: VersionInfo, v: bv64): string {
    if k == FILEVERSION || k == PRODUCTVERSION then
      var w := Words(v);
      Decimal(w.0 as int) + ", " + Decimal(w.1 as int) + ", " + Decimal(w.2 as int) + ", " + Decimal(w.3 as int)
    else
      AltHex(v as int)
  }

  /** The fields in the order given. */
  function VersionInfoLines(vi: map<VersionInfo, bv64>, order: seq<VersionInfo>): (r: seq<string>)
    requires forall k :: k in order ==> k in vi
    ensures |r| == |order|
  {
    if order == [] then []
    else
      var k := order[|order| - 1];
      VersionInfoLines(vi, order[..|order| - 1]) + [VersionLine(k, vi[k])]
  }

  /** Line `i` of the fields is the field `order[i]`. */
  lemma {:induction false} VersionInfoLinesAt(vi: map<VersionInfo, bv64>, order: seq<VersionInfo>, i: nat)
    requires forall k :: k in order ==> k in vi
    requires i < |order|
    ensures VersionInfoLines(vi, order)[i] == VersionLine(order[i], vi[order[i]])
  {
    if i < |order| - 1 {
      VersionInfoLinesAt(vi, order[..|order| - 1], i);
    }
  }

  /** Each field's line starts with the field's name, so the names tell the lines apart (FromNameName). */
  lemma VersionLineName(k: VersionInfo, v: bv64)
    ensures StartsWith(VersionLine(k, v), Name(k) + " ")
  {
    PrefixSplit(Name(k) + " ", FieldValue(k, v));
  }

  /**
    A field other than the two versions is its name, a space, `0x` and
    lower-case hex digits that read back as its value.
  */
  lemma HexFieldLine(k: VersionInfo, v: bv64)
    requires k != FILEVERSION && k != PRODUCTVERSION
    ensures var line, n := VersionLine(k, v), |Name(k)| + 3;
      && n < |line| && line[..n] == Name(k) + " 0x"
      && (forall i :: n <= i < |line| ==> IsDigitOf(line[i], 16))
      && FromDigits(line[n..], 16) == v as int
  {
    var digits := LowerHex(v as int);
    var head := Name(k) + " 0x";
    assert VersionLine(k, v) == head + digits by {
      assert FieldValue(k, v) == "0x" + digits;
      Regroup(Name(k) + " ", "0x", digits);
      assert Name(k) + " " + "0x" == head;
    }
    PrefixSplit(head, digits);
    FromToDigits(v as int, 16);
  }

  /**
    A version field is its name and four decimal numbers that read back as
    u64 values and together make the value again.
  */
  lemma VersionFieldLine(k: VersionInfo, v: bv64)
    requires k == FILEVERSION || k == PRODUCTVERSION
    ensures var w := Words(v);
      && VersionLine(k, v) == Name(k) + " " + (Decimal(w.0 as int) + ", " + Decimal(w.1 as int) + ", " + Decimal(w.2 as int) + ", " + Decimal(w.3 as int))
      && ParseU64(Decimal(w.0 as int)) == Some(w.0 as int) && ParseU64(Decimal(w.1 as int)) == Some(w.1 as int)
      && ParseU64(Decimal(w.2 as int)) == Some(w.2 as int) && ParseU64(Decimal(w.3 as int)) == Some(w.3 as int)
      && Unwords(w) == v
  {
    var w := Words(v);
    ParseU64Decimal(w.0 as int);
    ParseU64Decimal(w.1 as int);
    ParseU64Decimal(w.2 as int);
    ParseU64Decimal(w.3 as int);
    WordsUnwords(v);
  }

  // ---------------------------------------------------------------------
  // The string table
  // ---------------------------------------------------------------------

  /** `BLOCK "<language as {:04x}>04b0"`: the string table of the language, in Unicode (0x04b0). */
  function LanguageBlockLine(language: U16): string {
    "BLOCK \"" + Hex04(language) + "04b0\""
  }

  /** `VALUE "Translation", <language as {:#x}>, 0x04b0`. */
  function TranslationLine(language: U16): string {
    "VALUE \"Translation\", " + AltHex(language) + ", 0x04b0"
  }

  /**
    The block tag is the language as exactly four hex digits followed by
    `04b0`; the Translation line gives the same language in hex with the
    `0x` prefix, paired with `0x04b0`.
  */
  lemma LanguageLines(language: U16)
    ensures var t := LanguageBlockLine(language);
      && |t| == 16 && t[..7] == "BLOCK \"" && t[11..] == "04b0\""
      && (forall i :: 7 <= i < 11 ==> IsDigitOf(t[i], 16))
      && FromDigits(t[7..11], 16) == language
    ensures exists d ::
      && 1 <= |d| <= 4 && TranslationLine(language) == "VALUE \"Translation\", 0x" + d + ", 0x04b0"
      && (forall i :: 0 <= i < |d| ==> IsDigitOf(d[i], 16)) && FromDigits(d, 16) == language
  {
    var h := Hex04(language);
    Hex04OfU16(language);
    var t := LanguageBlockLine(language);
    assert t[7..11] == h;
    assert t[11..] == "04b0\"";
    var d := LowerHex(language);
    FromToDigits(language, 16);
    HexDigitCount(language);
    assert TranslationLine(language) == "VALUE \"Translation\", 0x" + d + ", 0x04b0";
  }

  /** `VALUE "<escaped name>", "<escaped value>"`. */
  function ValueLine(name: string, value: string): string {
    "VALUE " + Quoted(name) + ", " + Quoted(value)
  }

  /** Reads a VALUE line back: the name and the value in their quotes. */
  function ParseValueLine(line: string): Option<(string, string)> {
    if !StartsWith(line, "VALUE ") then None
    else match ReadString(line[6..])
      case None => None
      case Some((name, rest)) =>
        if !StartsWith(rest, ", ") then None
        else match ReadString(rest[2..])
          case Some((value, after)) => if after == [] then Some((name, value)) else None
          case None => None
  }

  /** A VALUE line gives back the name and the value it was made of. */
  lemma ParseValueLineOf(name: string, value: string)
    ensures ParseValueLine(ValueLine(name, value)) == Some((name, value))
  {
    var q, qv := Quoted(name), Quoted(value);
    var rest := ", " + qv;
    Assoc4("VALUE ", q, ", ", qv);
    var line := "VALUE " + (q + rest);
    PrefixSplit("VALUE ", q + rest);
    PrefixSplit(", ", qv);
    ReadStringQuoted(name, rest);
    ReadStringQuoted(value, []);
    assert qv + [] == qv;
    ParseValueLineParts(line, name, rest, value);
  }

  lemma Assoc4<T>(a: seq<T>, b: seq<T>, c: seq<T>, d: seq<T>)
    ensures a + b + c + d == a + (b + (c + d))
  {
  }

  lemma Regroup<T>(a: seq<T>, b: seq<T>, c: seq<T>)
    ensures a + (b + c) == a + b + c
  {
  }

  lemma PrefixSplit<T>(a: seq<T>, b: seq<T>)
    ensures |a| <= |a + b| && (a + b)[..|a|] == a && (a + b)[|a|..] == b
  {
  }

  /** The steps of ParseValueLine on a line that passes each of them. */
  lemma ParseValueLineParts(line: string, name: string, rest: string, value: string)
    requires StartsWith(line, "VALUE ") && ReadString(line[6..]) == Some((name, rest))
    requires StartsWith(rest, ", ") && ReadString(rest[2..]) == Some((value, []))
    ensures ParseValueLine(line) == Some((name, value))
  {
  }

  /** Hence the VALUE line of a property determines the property. */
  lemma ValueLineInjective(n1: string, v1: string, n2: string, v2: string)
    requires ValueLine(n1, v1) == ValueLine(n2, v2)
    ensures n1 == n2 && v1 == v2
  {
    ParseValueLineOf(n1, v1);
    ParseValueLineOf(n2, v2);
  }

  /** The properties in the order given, those with an empty value skipped. */
  function ValueLines(props: map<string, string>, order: seq<string>): (r: seq<string>)
    requires forall k :: k in order ==> k in props
    ensures |r| <= |order|
  {
    if order == [] then []
    else
      var k := order[|order| - 1];
      ValueLines(props, order[..|order| - 1]) + (if props[k] != "" then [ValueLine(k, props[k])] else [])
  }

  /** The properties that get a VALUE line: those with a non-empty value, in order. */
  function ValueKeys(props: map<string, string>, order: seq<string>): (keys: seq<string>)
    requires forall k :: k in order ==> k in props
    ensures forall i :: 0 <= i < |keys| ==> keys[i] in order && props[keys[i]] != ""
  {
    if order == [] then []
    else
      var k := order[|order| - 1];
      ValueKeys(props, order[..|order| - 1]) + (if props[k] != "" then [k] else [])
  }

  /**
    The i-th VALUE line is that of the i-th property with a non-empty value,
    and so reads back as that property (ParseValueLineOf).
  */
  lemma {:induction false} ValueLinesAt(props: map<string, string>, order: seq<string>, i: nat)
    requires forall k :: k in order ==> k in props
    requires i < |ValueLines(props, order)|
    ensures |ValueKeys(props, order)| == |ValueLines(props, order)|
    ensures ValueLines(props, order)[i] == ValueLine(ValueKeys(props, order)[i], props[ValueKeys(props, order)[i]])
  {
    var init := order[..|order| - 1];
    var last := order[|order| - 1];
    ValueLinesCard(props, init);
    if i < |ValueLines(props, init)| {
      ValueLinesAt(props, init, i);
    }
  }

  lemma {:induction false} ValueLinesCard(props: map<string, string>, order: seq<string>)
    requires forall k :: k in order ==> k in props
    ensures |ValueKeys(props, order)| == |ValueLines(props, order)|
  {
    if order != [] {
      ValueLinesCard(props, order[..|order| - 1]);
    }
  }

  /**
    A property with a non-empty value has exactly one VALUE line when the
    order lists it once (and none when it is not listed).
  */
  lemma {:induction false} ValueLinesCount(props: map<string, string>, order: seq<string>, k: string)
    requires forall k :: k in order ==> k in props
    requires forall i, j :: 0 <= i < j < |order| ==> order[i] != order[j]
    requires k in props && props[k] != ""
    ensures multiset(ValueLines(props, order))[ValueLine(k, props[k])] == if k in order then 1 else 0
  {
    if order != [] {
      var init := order[..|order| - 1];
      var last := order[|order| - 1];
      ValueLinesCount(props, init, k);
      assert k in order <==> k in init || k == last;
      if k == last {
        assert last !in init;
      } else if props[last] != "" && ValueLine(k, props[k]) == ValueLine(last, props[last]) {
        ValueLineInjective(k, props[k], last, props[last]);
      }
    }
  }

  /** Every VALUE line reads back, and never as a property whose value is empty. */
  lemma EmptyPropertyHasNoLine(props: map<string, string>, order: seq<string>, k: string)
    requires forall k :: k in order ==> k in props
    requires k in props && props[k] == ""
    ensures forall i :: 0 <= i < |ValueLines(props, order)| ==> ParseValueLine(ValueLines(props, order)[i]) != None
    ensures forall i, v :: 0 <= i < |ValueLines(props, order)| ==> ParseValueLine(ValueLines(props, order)[i]) != Some((k, v))
  {
    var r := ValueLines(props, order);
    forall i | 0 <= i < |r|
      ensures ParseValueLine(r[i]) != None && forall v :: ParseValueLine(r[i]) != Some((k, v))
    {
      ValueLinesAt(props, order, i);
      var k' := ValueKeys(props, order)[i];
      ParseValueLineOf(k', props[k']);
    }
  }

  // ---------------------------------------------------------------------
  // Icon and manifest
  // ---------------------------------------------------------------------

  /** `<escaped id> ICON "<escaped path>"` when an icon is set, the id being `1` when none was given. */
  function IconLines(icon: Option<string>, iconId: Option<string>): seq<string> {
    match icon
    case None => []
    case Some(path) =>
      var id := if iconId.Some? then iconId.value else "1";
      [Escaped(id) + " ICON " + Quoted(path)]
  }

  /**
    There is an ICON line exactly when an icon is set; it names the given
    id or 1, and its quoted part reads back as the icon's path.
  */
  lemma IconLinesSpec(icon: Option<string>, iconId: Option<string>)
    ensures |IconLines(icon, iconId)| == if icon.Some? then 1 else 0
    ensures icon.Some? ==>
      var id := if iconId.Some? then iconId.value else "1";
      exists q :: IconLines(icon, iconId)[0] == Escaped(id) + " ICON " + q && ReadString(q) == Some((icon.value, []))
    ensures icon.Some? && iconId.None? ==> IconLines(icon, iconId)[0][..7] == "1 ICON "
  {
    if icon.Some? {
      var path := icon.value;
      var id := if iconId.Some? then iconId.value else "1";
      var q := Quoted(path);
      ReadStringQuoted(path, []);
      assert q + [] == q;
      if iconId.None? {
        assert Escaped("1") == EscapeChar('1') + Escaped([]);
      }
    }
  }

  /** A manifest line as the script holds it: trimmed, escaped and quoted. */
  function QuotedLine(line: string): string {
    Quoted(Trim(line))
  }

  function QuotedLines(lines: seq<string>): (r: seq<string>)
    ensures |r| == |lines|
  {
    if lines == [] then [] else QuotedLines(lines[..|lines| - 1]) + [QuotedLine(lines[|lines| - 1])]
  }

  lemma {:induction false} QuotedLinesAt(lines: seq<string>, i: nat)
    requires i < |lines|
    ensures QuotedLines(lines)[i] == QuotedLine(lines[i])
  {
    if i < |lines| - 1 {
      QuotedLinesAt(lines[..|lines| - 1], i);
    }
  }

  /**
    The RT_MANIFEST (type 24) resource, only when FILETYPE is set and
    named by its value in decimal: the inline manifest line by line in a
    block if there is one, otherwise a reference to the manifest file if
    there is one.
  */
  function ManifestLines(vi: map<VersionInfo, bv64>, manifest: Option<string>, manifestFile: Option<string>): seq<string> {
    if FILETYPE !in vi then []
    else
      var e := Decimal(vi[FILETYPE] as int);
      match manifest
      case Some(m) => [e + " 24", "{"] + QuotedLines(Lines(m)) + ["}"]
      case None =>
        match manifestFile
        case Some(f) => [e + " 24 " + Quoted(f)]
        case None => []
  }

  /**
    There is a manifest resource exactly when FILETYPE is set and a
    manifest or a manifest file is; its header, the only line that starts
    with a digit, names the resource after FILETYPE; an inline manifest
    wins over a file, whose line then does not appear.
  */
  lemma ManifestLinesSpec(vi: map<VersionInfo, bv64>, manifest: Option<string>, manifestFile: Option<string>)
    ensures var r := ManifestLines(vi, manifest, manifestFile);
      && (r != [] <==> FILETYPE in vi && (manifest.Some? || manifestFile.Some?))
      && (r != [] ==> StartsWith(r[0], Decimal(vi[FILETYPE] as int) + " 24"))
      && (forall i :: 0 < i < |r| ==> r[i] != [] && !('0' <= r[i][0] <= '9'))
  {
    if FILETYPE in vi {
      var h := Decimal(vi[FILETYPE] as int) + " 24";
      if manifest.Some? {
        ManifestInline(vi, manifest.value, manifestFile);
        ManifestInlineTail(vi, manifest.value, manifestFile);
      } else if manifestFile.Some? {
        assert ManifestLines(vi, manifest, manifestFile)[0] == h + (" " + Quoted(manifestFile.value));
      }
    }
  }

  /** In an inline manifest block no line but the header starts with a digit. */
  lemma ManifestInlineTail(vi: map<VersionInfo, bv64>, manifest: string, manifestFile: Option<string>)
    requires FILETYPE in vi
    ensures var r := ManifestLines(vi, Some(manifest), manifestFile);
      forall i :: 0 < i < |r| ==> r[i] != [] && !('0' <= r[i][0] <= '9')
  {
    var r := ManifestLines(vi, Some(manifest), manifestFile);
    var body := QuotedLines(Lines(manifest));
    ManifestInline(vi, manifest, manifestFile);
    forall i | 0 < i < |r|
      ensures r[i] != [] && !('0' <= r[i][0] <= '9')
    {
      if 2 <= i < |r| - 1 {
        QuotedLinesAt(Lines(manifest), i - 2);
        assert r[i] == r[2..|r| - 1][i - 2];
      }
    }
  }

  /** An inline manifest is rendered, whether or not a manifest file is set, as a block of its quoted lines. */
  lemma ManifestInline(vi: map<VersionInfo, bv64>, manifest: string, manifestFile: Option<string>)
    requires FILETYPE in vi
    ensures var r := ManifestLines(vi, Some(manifest), manifestFile);
      && |r| == |Lines(manifest)| + 3
      && r[..2] == [Decimal(vi[FILETYPE] as int) + " 24", "{"]
      && r[2..|r| - 1] == QuotedLines(Lines(manifest)) && r[|r| - 1] == "}"
  {
    var body := QuotedLines(Lines(manifest));
    var r := ManifestLines(vi, Some(manifest), manifestFile);
    assert r == [Decimal(vi[FILETYPE] as int) + " 24", "{"] + body + ["}"];
    assert r[2..|r| - 1] == body;
  }

  /** Without an inline manifest, a manifest file is named on the header line, quoted. */
  lemma ManifestFileLine(vi: map<VersionInfo, bv64>, manifestFile: string)
    requires FILETYPE in vi
    ensures exists q ::
      && ManifestLines(vi, None, Some(manifestFile)) == [Decimal(vi[FILETYPE] as int) + " 24 " + q]
      && ReadString(q) == Some((manifestFile, []))
  {
    var q := Quoted(manifestFile);
    ReadStringQuoted(manifestFile, []);
    assert q + [] == q;
  }

  /**
    Each line of an inline manifest is kept trimmed and without a raw line
    break, and its quoted form reads back as the trimmed line.
  */
  lemma QuotedLinesRead(lines: seq<string>, i: nat)
    requires i < |lines|
    ensures '\n' !in QuotedLines(lines)[i]
    ensures ReadString(QuotedLines(lines)[i]) == Some((Trim(lines[i]), []))
  {
    QuotedLinesAt(lines, i);
    QuotedRead(Trim(lines[i]));
  }

  /** A quoted text holds no raw line break and reads back as the text. */
  lemma QuotedRead(x: string)
    ensures '\n' !in Quoted(x)
    ensures ReadString(Quoted(x)) == Some((x, []))
  {
    assert '\n' !in Quoted(x) by {
      assert Quoted(x) == "\"" + Escaped(x) + "\"";
    }
    assert ReadString(Quoted(x)) == Some((x, [])) by {
      ReadStringQuoted(x, []);
      assert Quoted(x) + [] == Quoted(x);
    }
  }

  // ---------------------------------------------------------------------
  // The whole script
  // ---------------------------------------------------------------------

  const Prologue: seq<string> := ["#pragma code_page(65001)", "1 VERSIONINFO"]

  /** The lines between the fields and the properties. */
  function StringTableOpening(language: U16): seq<string> {
    ["{", "BLOCK \"StringFileInfo\"", "{", LanguageBlockLine(language), "{"]
  }

  /** The lines that close the string table and hold the translation block. */
  function StringTableClosing(language: U16): seq<string> {
    ["}", "}", "BLOCK \"VarFileInfo\" {", TranslationLine(language), "}", "}"]
  }

  /** The StringFileInfo block with the properties, then the VarFileInfo block. */
  function StringTable(language: U16, props: map<string, string>, propOrder: seq<string>): seq<string>
    requires forall k :: k in propOrder ==> k in props
  {
    StringTableOpening(language) + ValueLines(props, propOrder) + StringTableClosing(language)
  }

  /** The script `write_resource_file` writes for configuration `c`. */
  function Script(c: Config, verOrder: seq<VersionInfo>, propOrder: seq<string>): (r: seq<string>)
    requires Enumerates(verOrder, c.versionInfo.Keys) && Enumerates(propOrder, c.properties.Keys)
  {
    Prologue
    + VersionInfoLines(c.versionInfo, verOrder)
    + StringTable(c.language, c.properties, propOrder)
    + IconLines(c.icon, c.iconId)
    + ManifestLines(c.versionInfo, c.manifest, c.manifestFile)
  }

  /**
    The shape of the script: after the two prologue lines comes one line
    per field, each naming its field and every field once; the string table
    holds one VALUE line per property with a non-empty value; the ICON and
    manifest lines follow the translation block.
  */
  lemma ScriptLayout(c: Config, verOrder: seq<VersionInfo>, propOrder: seq<string>)
    requires Enumerates(verOrder, c.versionInfo.Keys) && Enumerates(propOrder, c.properties.Keys)
    ensures var r, n := Script(c, verOrder, propOrder), |verOrder|;
      && n == |c.versionInfo.Keys|
      && r[..2] == Prologue
      && (forall i :: 0 <= i < n ==> r[2 + i] == VersionLine(verOrder[i], c.versionInfo[verOrder[i]]))
      && r[2 + n..7 + n] == StringTableOpening(c.language)
  {
    var r := Script(c, verOrder, propOrder);
    var vl := VersionInfoLines(c.versionInfo, verOrder);
    var st := StringTable(c.language, c.properties, propOrder);
    var n := |verOrder|;
    DistinctCard(verOrder, c.versionInfo.Keys);
    Slices(Prologue, vl, st, IconLines(c.icon, c.iconId), ManifestLines(c.versionInfo, c.manifest, c.manifestFile));
    assert st[..5] == StringTableOpening(c.language);
    forall i | 0 <= i < n
      ensures r[2 + i] == VersionLine(verOrder[i], c.versionInfo[verOrder[i]])
    {
      VersionInfoLinesAt(c.versionInfo, verOrder, i);
      assert r[2 + i] == vl[i];
    }
  }

  /** Line 2 + i of the script is the field `verOrder[i]`. */
  lemma ScriptFieldLine(c: Config, verOrder: seq<VersionInfo>, propOrder: seq<string>, i: nat)
    requires Enumerates(verOrder, c.versionInfo.Keys) && Enumerates(propOrder, c.properties.Keys)
    requires i < |verOrder|
    ensures 2 + i < |Script(c, verOrder, propOrder)|
    ensures Script(c, verOrder, propOrder)[2 + i] == VersionLine(verOrder[i], c.versionInfo[verOrder[i]])
  {
    ScriptLayout(c, verOrder, propOrder);
  }

  /** The first three parts of a five-part sequence, found by position. */
  lemma Slices<T>(a: seq<T>, b: seq<T>, c: seq<T>, d: seq<T>, e: seq<T>)
    ensures var s := a + b + c + d + e;
      && s[..|a|] == a && s[|a|..|a| + |b|] == b
      && (|c| >= 5 ==> s[|a| + |b|..|a| + |b| + 5] == c[..5])
  {
    var s := a + b + c + d + e;
    assert s == a + b + (c + d + e);
  }

  /** A sequence without repetitions has as many elements as the set of them. */
  lemma {:induction false} DistinctCard<K(!new)>(order: seq<K>, keys: set<K>)
    requires Enumerates(order, keys)
    ensures |keys| == |order|
  {
    if order != [] {
      var last := order[|order| - 1];
      var init := order[..|order| - 1];
      assert last !in init;
      DistinctCard(init, keys - {last});
    } else {
      assert keys == {};
    }
  }
}
