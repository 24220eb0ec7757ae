/**
  The Windows SDK inventory of src/sdk.rs: the installed roots read from the
  output of `reg query`, the SDKs found under each root, their
  per-architecture tool sets and the lookup of a tool binary.

  What the source learns from the host is passed in: the text `reg query`
  printed, and a FileSystem value that says which paths exist and what each
  readable directory lists.
*/
module Sdk {
  import opened Wrappers
  import opened RustStr

  /**
    The registry key whose values and subkeys `reg query` prints. It is
    ASCII, so its length in bytes (what `str::len` gives) is its length in
    characters.
  */
  const InstalledRootsKey: string :=
    "HKEY_LOCAL_MACHINE" + "\\SOFTWARE" + "\\Microsoft" + "\\Windows Kits" + "\\Installed Roots"

  /** The key is ASCII: its byte length, which the source skips, is its length in characters. */
  lemma InstalledRootsKeyAscii()
    ensures Utf8Length(InstalledRootsKey) == |InstalledRootsKey| == 66
  {
    assert forall i :: 0 <= i < |InstalledRootsKey| ==> InstalledRootsKey[i] < '\U{80}';
    Utf8LengthAscii(InstalledRootsKey);
  }

  datatype Arch = Arm | Arm64 | X64 | X86

  /** All architectures, the keys of every SDK's tool-set table. */
  const AllArchs: set<Arch> := {Arm, Arm64, X64, X86}

  /** The bin subdirectory of an architecture; `Display` for Arch prints the same text. */
  function Dirname(a: Arch): string {
    match a
    case Arm => "arm"
    case Arm64 => "arm64"
    case X64 => "x64"
    case X86 => "x86"
  }

  lemma DirnameInjective(a: Arch, b: Arch)
    requires Dirname(a) == Dirname(b)
    ensures a == b
  {
  }

  /**
    A path: the text it was made from and the components appended to it
    with `PathBuf::join`, one per call.
  */
  datatype Path = Path(base: string, components: seq<string>)

  function PathOf(s: string): Path {
    Path(s, [])
  }

  function Join(p: Path, component: string): Path {
    Path(p.base, p.components + [component])
  }

  /**
    What the source asks the filesystem: whether a path exists, and the
    entry names `read_dir` lists for a directory (a directory absent from
    `listings` cannot be read).
  */
  datatype FileSystem = FileSystem(existing: set<Path>, listings: map<Path, seq<string>>)

  datatype KitsRoot = KitsRoot(name: string)

  datatype InstalledRoots = InstalledRoots(kitsRoots: seq<(KitsRoot, Path)>, sdkVersions: seq<string>)

  datatype SdkArch = SdkArch(binDir: Path, includeDirs: map<string, Path>, libDirs: map<string, Path>)

  datatype Sdk = Sdk(version: string, installedRoot: Path, sdkArchs: map<Arch, SdkArch>)

  datatype Tool = Tool(
    sdkVersion: string,
    installedRoot: Path,
    arch: Arch,
    path: Path,
    includeDirs: map<string, Path>,
    libDirs: map<string, Path>,
    binDir: Path)

  datatype System = System(installedRoots: InstalledRoots, sdks: seq<Sdk>)

  datatype SdkError =
    | MissingRegSz          // a KitsRoot line without REG_SZ: the source panics
    | NoInstalledRoot       // `reg query` printed no KitsRoot line
    | ReadDirFailed(dir: Path)
    | UnsupportedTargetArch
    | NoTool(arch: Arch, roots: InstalledRoots)

  // ---------------------------------------------------------------------
  // Parsing the output of `reg query` (InstalledRoots::new)
  // ---------------------------------------------------------------------

  /** What one line of the registry output contributes. */
  datatype RegLine = RootLine(root: (KitsRoot, Path)) | VersionLine(version: string) | Ignored | Panics

  /**
    One line of the output, which is judged by its trimmed text. A line
    that starts with `KitsRoot` names a root (RootLineOf); a line that
    starts with the key itself names an SDK version: the text after the key
    and one separator, kept only when it is not empty.
  */
  function ClassifyLine(raw: string): RegLine {
    var line := Trim(raw);
    if StartsWith(line, "KitsRoot") then ClassifyRootLine(line)
    else if StartsWith(line, InstalledRootsKey) then
      var version := Skip(line, |InstalledRootsKey| + 1);
      if version == [] then Ignored else VersionLine(version)
    else Ignored
  }

  /**
    A trimmed `KitsRoot` line: its identifier is the text up to the first
    whitespace and its path is what follows `REG_SZ`, leading whitespace
    removed; without `REG_SZ` the source panics. The source finds `REG_SZ`
    as a byte offset and then skips that many characters, so the byte
    length of the text before it is what is skipped here.
  */
  function ClassifyRootLine(line: string): RegLine {
    match Find(line, "REG_SZ")
    case None => Panics
    case Some(at) =>
      var path := TrimStart(Skip(line, Utf8Length(line[..at]) + 6));
      RootLine((KitsRoot(TakeUntilWhitespace(line)), PathOf(path)))
  }

  /** Each line of the output, classified. */
  function Classified(lines: seq<string>): (cs: seq<RegLine>)
    ensures |cs| == |lines|
    ensures forall i :: 0 <= i < |lines| ==> cs[i] == ClassifyLine(lines[i])
  {
    seq(|lines|, i requires 0 <= i < |lines| => ClassifyLine(lines[i]))
  }

  /** The roots of the root lines, in the order of the lines. */
  function RootEntries(cs: seq<RegLine>): seq<(KitsRoot, Path)> {
    if cs == [] then []
    else
      var last := cs[|cs| - 1];
      RootEntries(cs[..|cs| - 1]) + (if last.RootLine? then [last.root] else [])
  }

  /** The versions of the version lines, in the order of the lines. */
  function VersionEntries(cs: seq<RegLine>): seq<string> {
    if cs == [] then []
    else
      var last := cs[|cs| - 1];
      VersionEntries(cs[..|cs| - 1]) + (if last.VersionLine? then [last.version] else [])
  }

  /** The installed roots the registry output describes, or why there are none. */
  function ParseRegOutput(output: string): Result<InstalledRoots, SdkError> {
    ParseClassified(Classified(Lines(output)))
  }

  /** The outcome of the parse once every line is classified. */
  function ParseClassified(cs: seq<RegLine>): Result<InstalledRoots, SdkError> {
    if Panics in cs then Err(MissingRegSz)
    else
      var roots := RootEntries(cs);
      if roots == [] then Err(NoInstalledRoot) else Ok(InstalledRoots(roots, VersionEntries(cs)))
  }

  /** One more classified line adds what it contributes at the end. */
  lemma EntriesSnoc(cs: seq<RegLine>, c: RegLine)
    ensures RootEntries(cs + [c]) == RootEntries(cs) + (if c.RootLine? then [c.root] else [])
    ensures VersionEntries(cs + [c]) == VersionEntries(cs) + (if c.VersionLine? then [c.version] else [])
  {
    assert (cs + [c])[..|cs|] == cs;
  }

  /**
    InstalledRoots::new, from the text `reg query` printed: classifies each
    line, pushes the roots and versions it finds, aborts at a `KitsRoot`
    line without `REG_SZ`, and fails when it found no root.
  */
  method NewInstalledRoots(output: string) returns (r: Result<InstalledRoots, SdkError>)
    ensures r == ParseRegOutput(output)
  {
    r := CollectRoots(Lines(output));
  }

  /** The loop over the lines of the output, trimmed and classified one by one. */
  method CollectRoots(lines: seq<string>) returns (r: Result<InstalledRoots, SdkError>)
    ensures r == ParseClassified(Classified(lines))
  {
    ghost var cs := Classified(lines);
    var roots: seq<(KitsRoot, Path)> := [];
    var sdks: seq<string> := [];
    var i := 0;
    while i < |lines|
      invariant 0 <= i <= |lines|
      invariant roots == RootEntries(cs[..i])
      invariant sdks == VersionEntries(cs[..i])
      invariant Panics !in cs[..i]
    {
      var c := ClassifyLine(lines[i]);
      assert c == cs[i];
      EntriesStep(cs, i);
      match c {
        case Panics =>
          return Err(MissingRegSz);
        case RootLine(root) =>
          roots := roots + [root];
        case VersionLine(version) =>
          sdks := sdks + [version];
        case Ignored =>
      }
      i := i + 1;
    }
    assert cs[..i] == cs;
    if roots != [] {
      r := Ok(InstalledRoots(roots, sdks));
    } else {
      r := Err(NoInstalledRoot);
    }
  }

  /** What the line at `i` adds to what the lines before it gave. */
  lemma EntriesStep(cs: seq<RegLine>, i: nat)
    requires i < |cs|
    ensures RootEntries(cs[..i + 1]) == RootEntries(cs[..i]) + (if cs[i].RootLine? then [cs[i].root] else [])
    ensures VersionEntries(cs[..i + 1]) == VersionEntries(cs[..i]) + (if cs[i].VersionLine? then [cs[i].version] else [])
    ensures Panics in cs[..i + 1] <==> Panics in cs[..i] || cs[i] == Panics
  {
    assert cs[..i + 1] == cs[..i] + [cs[i]];
    EntriesSnoc(cs[..i], cs[i]);
  }

  // ---------------------------------------------------------------------
  // What the parser makes of each kind of line
  // ---------------------------------------------------------------------

  /**
    Which kind a line is depends only on its trimmed text: `KitsRoot`
    lines are roots or, lacking `REG_SZ`, abort the parse; a version line
    starts with the key, does not start with `KitsRoot` and carries the
    non-empty text after the key and one separator.
  */
  lemma ClassifyLineKinds(raw: string)
    ensures var line, c := Trim(raw), ClassifyLine(raw);
      && (c.RootLine? || c.Panics? <==> StartsWith(line, "KitsRoot"))
      && (c.Panics? <==> StartsWith(line, "KitsRoot") && forall i :: 0 <= i <= |line| ==> !OccursAt(line, "REG_SZ", i))
      && (c.VersionLine? <==>
            !StartsWith(line, "KitsRoot") && StartsWith(line, InstalledRootsKey) && Skip(line, |InstalledRootsKey| + 1) != [])
      && (c.VersionLine? ==> c.version == line[|InstalledRootsKey| + 1..])
  {
    var line := Trim(raw);
    FindSpec(line, "REG_SZ");
  }

  /**
    A root line in the shape `reg query` prints it: indentation, an
    identifier starting with `KitsRoot`, a run of whitespace, `REG_SZ`,
    another run of whitespace and the path. The identifier becomes the
    KitsRoot and the path is taken whole. The identifier and the first run
    are ASCII, so the byte offset of `REG_SZ` equals its character index.
  */
  lemma RootLineOf(indent: string, id: string, gap: string, gap2: string, path: string)
    requires forall i :: 0 <= i < |indent| ==> IsWhitespace(indent[i])
    requires StartsWith(id, "KitsRoot")
    requires forall i :: 0 <= i < |id| ==> !IsWhitespace(id[i])
    requires forall i :: 0 <= i <= |id| ==> !OccursAt(id, "REG_SZ", i)
    requires gap != [] && forall i :: 0 <= i < |gap| ==> IsWhitespace(gap[i])
    requires forall i :: 0 <= i < |id + gap| ==> (id + gap)[i] < '\U{80}'
    requires forall i :: 0 <= i < |gap2| ==> IsWhitespace(gap2[i])
    requires path != [] && !IsWhitespace(path[0]) && !IsWhitespace(path[|path| - 1])
    ensures ClassifyLine(indent + id + gap + "REG_SZ" + gap2 + path) == RootLine((KitsRoot(id), PathOf(path)))
  {
    var line := id + (gap + ("REG_SZ" + (gap2 + path)));
    assert Trim(indent + line) == line by {
      assert line[0] == id[0];
      assert line[|line| - 1] == path[|path| - 1];
      TrimAfter(indent, line);
    }
    assert StartsWith(line, "KitsRoot") by {
      assert line[..8] == id[..8];
    }
    ClassifyRootLineOf(id, gap, gap2, path);
    Reassociate(indent, id, gap, "REG_SZ", gap2, path);
  }

  /** The part of RootLineOf after trimming: the identifier, the REG_SZ search and the path. */
  lemma ClassifyRootLineOf(id: string, gap: string, gap2: string, path: string)
    requires forall i :: 0 <= i < |id| ==> !IsWhitespace(id[i])
    requires forall i :: 0 <= i <= |id| ==> !OccursAt(id, "REG_SZ", i)
    requires gap != [] && forall i :: 0 <= i < |gap| ==> IsWhitespace(gap[i])
    requires forall i :: 0 <= i < |id + gap| ==> (id + gap)[i] < '\U{80}'
    requires forall i :: 0 <= i < |gap2| ==> IsWhitespace(gap2[i])
    requires path != [] && !IsWhitespace(path[0])
    ensures ClassifyRootLine(id + (gap + ("REG_SZ" + (gap2 + path)))) == RootLine((KitsRoot(id), PathOf(path)))
  {
    var t3 := gap + ("REG_SZ" + (gap2 + path));
    var line := id + t3;
    var at := |id| + |gap|;
    assert Find(line, "REG_SZ") == Some(at) by {
      FindRegSz(id, gap, gap2 + path);
    }
    assert Utf8Length(line[..at]) == at by {
      assert line[..at] == id + gap;
      Utf8LengthAscii(id + gap);
    }
    assert TrimStart(Skip(line, at + 6)) == path by {
      assert Skip(line, at + 6) == gap2 + path;
      TrimStartAfter(gap2, path);
    }
    assert TakeUntilWhitespace(line) == id by {
      assert t3[0] == gap[0];
      TakeUntilWhitespaceOf(id, t3);
    }
    ClassifyRootLineParts(line, at, id, path);
  }

  /** ClassifyRootLine from the results of its steps. */
  lemma ClassifyRootLineParts(line: string, at: nat, id: string, path: string)
    requires Find(line, "REG_SZ") == Some(at) && at <= |line|
    requires Utf8Length(line[..at]) == at
    requires TrimStart(Skip(line, at + 6)) == path
    requires TakeUntilWhitespace(line) == id
    ensures ClassifyRootLine(line) == RootLine((KitsRoot(id), PathOf(path)))
  {
  }

  lemma Reassociate(a: string, b: string, c: string, d: string, e: string, f: string)
    ensures a + b + c + d + e + f == a + (b + (c + (d + (e + f))))
  {
  }

  /** The first `REG_SZ` after an identifier and a run of whitespace is the one that follows them. */
  lemma FindRegSz(id: string, gap: string, tail: string)
    requires forall i :: 0 <= i <= |id| ==> !OccursAt(id, "REG_SZ", i)
    requires gap != [] && forall i :: 0 <= i < |gap| ==> IsWhitespace(gap[i])
    ensures Find(id + (gap + ("REG_SZ" + tail)), "REG_SZ") == Some(|id| + |gap|)
  {
    var line := id + (gap + ("REG_SZ" + tail));
    var at := |id| + |gap|;
    assert OccursAt(line, "REG_SZ", at) by {
      assert line[at..at + 6] == "REG_SZ";
    }
    forall j | 0 <= j < at
      ensures !OccursAt(line, "REG_SZ", j)
    {
      NoRegSzBefore(id, gap, tail, j);
    }
    FindSpec(line, "REG_SZ");
  }

  /** No `REG_SZ` starts inside the identifier or the whitespace after it. */
  lemma NoRegSzBefore(id: string, gap: string, tail: string, j: nat)
    requires forall i :: 0 <= i <= |id| ==> !OccursAt(id, "REG_SZ", i)
    requires gap != [] && forall i :: 0 <= i < |gap| ==> IsWhitespace(gap[i])
    requires j < |id| + |gap|
    ensures !OccursAt(id + (gap + ("REG_SZ" + tail)), "REG_SZ", j)
  {
    var line := id + (gap + ("REG_SZ" + tail));
    if j + 6 <= |id| {
      assert line[j..j + 6] == id[j..j + 6];
      assert !OccursAt(id, "REG_SZ", j);
    } else if j < |id| {
      assert line[|id|] == gap[0] && IsWhitespace(gap[0]);
      assert line[j..j + 6][|id| - j] == line[|id|];
      assert !IsWhitespace("REG_SZ"[|id| - j]);
    } else {
      assert line[j] == gap[j - |id|];
    }
  }

  /**
    A version line: the key, one separator and a version that does not end
    in whitespace (after trimming, the line ends where the version does).
  */
  lemma VersionLineOf(sep: char, version: string)
    requires version != [] && !IsWhitespace(version[|version| - 1])
    ensures ClassifyLine(InstalledRootsKey + [sep] + version) == VersionLine(version)
  {
    var line := InstalledRootsKey + [sep] + version;
    assert InstalledRootsKey[0] == 'H';
    assert line[0] == InstalledRootsKey[0];
    assert line[|line| - 1] == version[|version| - 1];
    assert Trim(line) == line;
    assert !StartsWith(line, "KitsRoot") by {
      assert line[..8][0] == 'H';
    }
    assert line[..|InstalledRootsKey|] == InstalledRootsKey;
    assert line[|InstalledRootsKey| + 1..] == version;
  }

  /** Roots are collected in the order of the lines; so are versions. */
  lemma {:induction false} EntriesAppend(a: seq<RegLine>, b: seq<RegLine>)
    ensures RootEntries(a + b) == RootEntries(a) + RootEntries(b)
    ensures VersionEntries(a + b) == VersionEntries(a) + VersionEntries(b)
    decreases |b|
  {
    if b == [] {
      assert a + b == a;
    } else {
      var b' := b[..|b| - 1];
      assert (a + b)[..|a + b| - 1] == a + b';
      EntriesAppend(a, b');
    }
  }

  /** Every collected root comes from a root line and every root line is collected. */
  lemma {:induction false} RootEntriesMembers(cs: seq<RegLine>, root: (KitsRoot, Path))
    ensures root in RootEntries(cs) <==> RootLine(root) in cs
  {
    if cs != [] {
      var init := cs[..|cs| - 1];
      RootEntriesMembers(init, root);
      assert cs == init + [cs[|cs| - 1]];
    }
  }

  /** Every collected version comes from a version line and every version line is collected. */
  lemma {:induction false} VersionEntriesMembers(cs: seq<RegLine>, version: string)
    ensures version in VersionEntries(cs) <==> VersionLine(version) in cs
  {
    if cs != [] {
      var init := cs[..|cs| - 1];
      VersionEntriesMembers(init, version);
      assert cs == init + [cs[|cs| - 1]];
    }
  }

  /** No root is collected exactly when no line is a root line. */
  lemma {:induction false} RootEntriesEmpty(cs: seq<RegLine>)
    ensures RootEntries(cs) == [] <==> forall i :: 0 <= i < |cs| ==> !cs[i].RootLine?
  {
    if cs != [] {
      var init := cs[..|cs| - 1];
      RootEntriesEmpty(init);
      assert forall i :: 0 <= i < |init| ==> init[i] == cs[i];
    }
  }

  /**
    The parse fails exactly in the two ways the source fails: a `KitsRoot`
    line without `REG_SZ` aborts it, and otherwise it fails when no line
    starts with `KitsRoot`. When it succeeds there is at least one root.
  */
  lemma ParseRegOutputOutcome(output: string)
    ensures var lines := Lines(output);
      && (ParseRegOutput(output) == Err(MissingRegSz) <==>
            exists i :: 0 <= i < |lines| && StartsWith(Trim(lines[i]), "KitsRoot") && Find(Trim(lines[i]), "REG_SZ").None?)
      && (ParseRegOutput(output) == Err(NoInstalledRoot) <==>
            forall i :: 0 <= i < |lines| ==> !StartsWith(Trim(lines[i]), "KitsRoot"))
      && (ParseRegOutput(output).Ok? ==> ParseRegOutput(output).value.kitsRoots != [])
  {
    assert ParseRegOutput(output) == ParseClassified(Classified(Lines(output)));
    ClassifiedKinds(Lines(output));
    ClassifiedOutcome(Lines(output), Classified(Lines(output)));
  }

  /** The outcome of the parse, given what each classification says about its line. */
  lemma ClassifiedOutcome(lines: seq<string>, cs: seq<RegLine>)
    requires |cs| == |lines|
    requires forall i :: 0 <= i < |lines| ==>
      && (cs[i].Panics? <==> StartsWith(Trim(lines[i]), "KitsRoot") && Find(Trim(lines[i]), "REG_SZ").None?)
      && (cs[i].RootLine? || cs[i].Panics? <==> StartsWith(Trim(lines[i]), "KitsRoot"))
    ensures ParseClassified(cs) == Err(MissingRegSz) <==>
      exists i :: 0 <= i < |lines| && StartsWith(Trim(lines[i]), "KitsRoot") && Find(Trim(lines[i]), "REG_SZ").None?
    ensures ParseClassified(cs) == Err(NoInstalledRoot) <==>
      forall i :: 0 <= i < |lines| ==> !StartsWith(Trim(lines[i]), "KitsRoot")
    ensures ParseClassified(cs).Ok? ==> ParseClassified(cs).value.kitsRoots != []
  {
    if Panics in cs {
      var i :| 0 <= i < |cs| && cs[i] == Panics;
      assert StartsWith(Trim(lines[i]), "KitsRoot") && Find(Trim(lines[i]), "REG_SZ").None?;
    } else {
      RootEntriesEmpty(cs);
      if RootEntries(cs) == [] {
        assert forall i :: 0 <= i < |lines| ==> !StartsWith(Trim(lines[i]), "KitsRoot");
      } else {
        var i :| 0 <= i < |cs| && cs[i].RootLine?;
        assert StartsWith(Trim(lines[i]), "KitsRoot");
      }
    }
  }

  /** ClassifyLineKinds for every line, in the terms ParseRegOutputOutcome uses. */
  lemma ClassifiedKinds(lines: seq<string>)
    ensures var cs := Classified(lines);
      forall i :: 0 <= i < |lines| ==>
        && (cs[i].Panics? <==> StartsWith(Trim(lines[i]), "KitsRoot") && Find(Trim(lines[i]), "REG_SZ").None?)
        && (cs[i].RootLine? || cs[i].Panics? <==> StartsWith(Trim(lines[i]), "KitsRoot"))
  {
    var cs := Classified(lines);
    forall i | 0 <= i < |lines|
      ensures cs[i].Panics? <==> StartsWith(Trim(lines[i]), "KitsRoot") && Find(Trim(lines[i]), "REG_SZ").None?
      ensures cs[i].RootLine? || cs[i].Panics? <==> StartsWith(Trim(lines[i]), "KitsRoot")
    {
      ClassifyLineKinds(lines[i]);
      FindSpec(Trim(lines[i]), "REG_SZ");
    }
  }

  // ---------------------------------------------------------------------
  // Directories of an SDK
  // ---------------------------------------------------------------------

  /** `root/bin/version`, which also decides whether the SDK exists. */
  function BinRootDir(version: string, root: Path): Path {
    Join(Join(root, "bin"), version)
  }

  /** `root/Lib/version`. */
  function LibRootDir(version: string, root: Path): Path {
    Join(Join(root, "Lib"), version)
  }

  /** `root/Include/version`, whose entries are the include directories. */
  function IncludeRootDir(version: string, root: Path): Path {
    Join(Join(root, "Include"), version)
  }

  /** Sdk::exists: whether `root/bin/version` exists. */
  predicate SdkExists(version: string, root: Path, fs: FileSystem) {
    BinRootDir(version, root) in fs.existing
  }

  /**
    The three root directories of an SDK sit side by side under the
    installed root, are pairwise different, and different versions have
    different directories.
  */
  lemma RootDirs(version: string, root: Path, version': string)
    ensures BinRootDir(version, root).components == root.components + ["bin", version]
    ensures LibRootDir(version, root).components == root.components + ["Lib", version]
    ensures IncludeRootDir(version, root).components == root.components + ["Include", version]
    ensures BinRootDir(version, root) != LibRootDir(version, root)
    ensures LibRootDir(version, root) != IncludeRootDir(version, root)
    ensures IncludeRootDir(version, root) != BinRootDir(version, root)
    ensures version != version' ==> BinRootDir(version, root) != BinRootDir(version', root)
  {
    var n := |root.components|;
    assert BinRootDir(version, root).components[n] == "bin";
    assert LibRootDir(version, root).components[n] == "Lib";
    assert IncludeRootDir(version, root).components[n] == "Include";
    assert BinRootDir(version, root).components[n + 1] == version;
    assert BinRootDir(version', root).components[n + 1] == version';
  }

  // ---------------------------------------------------------------------
  // Building an Sdk (Sdk::new, load_archs, load_arch, load_include_dirs)
  // ---------------------------------------------------------------------

  /** The map `load_include_dirs` builds from a directory listing: entry name to entry path. */
  function DirEntries(dir: Path, names: seq<string>): (m: map<string, Path>)
    ensures m.Keys == set n | n in names
    ensures forall n :: n in m ==> m[n] == Join(dir, n)
  {
    if names == [] then map[]
    else DirEntries(dir, names[..|names| - 1])[names[|names| - 1] := Join(dir, names[|names| - 1])]
  }

  /** What `load_include_dirs` returns for an SDK. */
  function IncludeDirs(version: string, root: Path, fs: FileSystem): Result<map<string, Path>, SdkError> {
    var dir := IncludeRootDir(version, root);
    if dir in fs.listings then Ok(DirEntries(dir, fs.listings[dir])) else Err(ReadDirFailed(dir))
  }

  /** load_include_dirs: reads the include root and inserts every entry. */
  method LoadIncludeDirs(sdk: Sdk, fs: FileSystem) returns (r: Result<map<string, Path>, SdkError>)
    ensures r == IncludeDirs(sdk.version, sdk.installedRoot, fs)
  {
    var dir := IncludeRootDir(sdk.version, sdk.installedRoot);
    if dir !in fs.listings {
      return Err(ReadDirFailed(dir));
    }
    var entries := fs.listings[dir];
    var dirs: map<string, Path> := map[];
    var i := 0;
    while i < |entries|
      invariant 0 <= i <= |entries|
      invariant dirs == DirEntries(dir, entries[..i])
    {
      assert entries[..i + 1][..i] == entries[..i];
      dirs := dirs[entries[i] := Join(dir, entries[i])];
      i := i + 1;
    }
    assert entries[..i] == entries;
    r := Ok(dirs);
  }

  /** The tool set of one architecture, given the SDK's include directories. */
  function ArchEntry(version: string, root: Path, arch: Arch, includeDirs: map<string, Path>): SdkArch {
    SdkArch(Join(BinRootDir(version, root), Dirname(arch)), includeDirs, map[])
  }

  /**
    load_arch: adds the entry of `arch` (bin directory `bin_root_dir/arch`,
    the include directories, no library directories) and changes nothing
    else; fails when the include root cannot be read.
  */
  method LoadArch(sdk: Sdk, arch: Arch, fs: FileSystem) returns (r: Result<Sdk, SdkError>)
    ensures IncludeDirs(sdk.version, sdk.installedRoot, fs).Err? ==> r == Err(IncludeDirs(sdk.version, sdk.installedRoot, fs).error)
    ensures IncludeDirs(sdk.version, sdk.installedRoot, fs).Ok? ==>
      r == Ok(sdk.(sdkArchs := sdk.sdkArchs[arch := ArchEntry(sdk.version, sdk.installedRoot, arch, IncludeDirs(sdk.version, sdk.installedRoot, fs).value)]))
  {
    var binDir := Join(BinRootDir(sdk.version, sdk.installedRoot), Dirname(arch));
    var includeDirs := LoadIncludeDirs(sdk, fs);
    if includeDirs.Err? {
      return Err(includeDirs.error);
    }
    var sdkArch := SdkArch(binDir, includeDirs.value, map[]);
    r := Ok(sdk.(sdkArchs := sdk.sdkArchs[arch := sdkArch]));
  }

  /**
    The SDK `Sdk::new` builds: one entry per architecture, each with bin
    directory `bin_root_dir/dirname`, the include directories listed under
    the include root and no library directories; an error when the include
    root cannot be read.
  */
  function SdkOf(version: string, root: Path, fs: FileSystem): (r: Result<Sdk, SdkError>)
    ensures r.Err? <==> IncludeRootDir(version, root) !in fs.listings
    ensures r.Err? ==> r.error == ReadDirFailed(IncludeRootDir(version, root))
    ensures r.Ok? ==> r.value.version == version && r.value.installedRoot == root
  {
    match IncludeDirs(version, root, fs)
    case Err(e) => Err(e)
    case Ok(dirs) => Ok(Sdk(version, root, map a | a in AllArchs :: ArchEntry(version, root, a, dirs)))
  }

  /**
    The architecture table of a new SDK: exactly the four architectures,
    each with its own bin directory, all sharing the same include
    directories (one per entry of the include root), none with library
    directories.
  */
  lemma SdkArchTable(version: string, root: Path, fs: FileSystem)
    requires SdkOf(version, root, fs).Ok?
    ensures var sdk := SdkOf(version, root, fs).value;
      var inc := IncludeRootDir(version, root);
      && sdk.sdkArchs.Keys == AllArchs
      && (forall a :: a in sdk.sdkArchs ==> sdk.sdkArchs[a].binDir == Join(BinRootDir(version, root), Dirname(a)))
      && (forall a, b :: a in sdk.sdkArchs && b in sdk.sdkArchs && a != b ==> sdk.sdkArchs[a].binDir != sdk.sdkArchs[b].binDir)
      && (forall a :: a in sdk.sdkArchs ==> sdk.sdkArchs[a].libDirs == map[])
      && (forall a :: a in sdk.sdkArchs ==> sdk.sdkArchs[a].includeDirs.Keys == set n | n in fs.listings[inc])
      && (forall a, b :: a in sdk.sdkArchs && b in sdk.sdkArchs ==> sdk.sdkArchs[a].includeDirs == sdk.sdkArchs[b].includeDirs)
  {
    var sdk := SdkOf(version, root, fs).value;
    forall a, b | a in sdk.sdkArchs && b in sdk.sdkArchs && a != b
      ensures sdk.sdkArchs[a].binDir != sdk.sdkArchs[b].binDir
    {
      if sdk.sdkArchs[a].binDir == sdk.sdkArchs[b].binDir {
        var n := |BinRootDir(version, root).components|;
        assert sdk.sdkArchs[a].binDir.components[n] == Dirname(a);
        assert sdk.sdkArchs[b].binDir.components[n] == Dirname(b);
        DirnameInjective(a, b);
      }
    }
  }

  /** Sdk::new followed by load_archs, which loads Arm, Arm64, X86 and X64 in turn. */
  method NewSdk(version: string, installedRoot: Path, fs: FileSystem) returns (r: Result<Sdk, SdkError>)
    ensures r == SdkOf(version, installedRoot, fs)
  {
    var sdk := Sdk(version, installedRoot, map[]);
    var archs := [Arm, Arm64, X86, X64];
    var i := 0;
    while i < |archs|
      invariant 0 <= i <= |archs|
      invariant sdk.version == version && sdk.installedRoot == installedRoot
      invariant i > 0 ==> IncludeDirs(version, installedRoot, fs).Ok?
      invariant sdk.sdkArchs.Keys == set j | 0 <= j < i :: archs[j]
      invariant forall a :: a in sdk.sdkArchs ==>
        sdk.sdkArchs[a] == ArchEntry(version, installedRoot, a, IncludeDirs(version, installedRoot, fs).value)
      decreases |archs| - i
    {
      var loaded := LoadArch(sdk, archs[i], fs);
      if loaded.Err? {
        return loaded;
      }
      sdk := loaded.value;
      i := i + 1;
    }
    assert (set j | 0 <= j < 4 :: archs[j]) == AllArchs by {
      assert archs[0] == Arm && archs[1] == Arm64 && archs[2] == X86 && archs[3] == X64;
    }
    var dirs := IncludeDirs(version, installedRoot, fs).value;
    assert sdk.sdkArchs == map a | a in AllArchs :: ArchEntry(version, installedRoot, a, dirs);
    r := Ok(sdk);
  }

  // ---------------------------------------------------------------------
  // The SDKs of a system (System::new, load_sdks)
  // ---------------------------------------------------------------------

  /** The (root, version) pairs of one root whose bin directory exists, in version order. */
  function PairsFor(root: Path, versions: seq<string>, fs: FileSystem): seq<(Path, string)> {
    if versions == [] then []
    else
      var v := versions[|versions| - 1];
      PairsFor(root, versions[..|versions| - 1], fs) + (if SdkExists(v, root, fs) then [(root, v)] else [])
  }

  /** All existing (root, version) pairs: roots in the outer loop, versions in the inner. */
  function ExistingPairs(roots: seq<(KitsRoot, Path)>, versions: seq<string>, fs: FileSystem): seq<(Path, string)> {
    if roots == [] then []
    else ExistingPairs(roots[..|roots| - 1], versions, fs) + PairsFor(roots[|roots| - 1].1, versions, fs)
  }

  /** One SDK per pair, in order; the first pair whose SDK cannot be built decides the error. */
  function BuildSdks(pairs: seq<(Path, string)>, fs: FileSystem): Result<seq<Sdk>, SdkError> {
    if pairs == [] then Ok([])
    else
      var p := pairs[|pairs| - 1];
      match BuildSdks(pairs[..|pairs| - 1], fs)
      case Err(e) => Err(e)
      case Ok(sdks) =>
        match SdkOf(p.1, p.0, fs)
        case Err(e) => Err(e)
        case Ok(sdk) => Ok(sdks + [sdk])
  }

  /** Within one root, versions are tried in the order they were listed. */
  lemma {:induction false} PairsForAppend(root: Path, a: seq<string>, b: seq<string>, fs: FileSystem)
    ensures PairsFor(root, a + b, fs) == PairsFor(root, a, fs) + PairsFor(root, b, fs)
    decreases |b|
  {
    if b == [] {
      assert a + b == a;
    } else {
      var b' := b[..|b| - 1];
      assert (a + b)[..|a + b| - 1] == a + b';
      PairsForAppend(root, a, b', fs);
    }
  }

  /**
    Roots are tried in the order they were listed, each with all its
    versions before the next root (the nesting of the two loops).
  */
  lemma {:induction false} ExistingPairsAppend(a: seq<(KitsRoot, Path)>, b: seq<(KitsRoot, Path)>, versions: seq<string>, fs: FileSystem)
    ensures ExistingPairs(a + b, versions, fs) == ExistingPairs(a, versions, fs) + ExistingPairs(b, versions, fs)
    decreases |b|
  {
    if b == [] {
      assert a + b == a;
    } else {
      var b' := b[..|b| - 1];
      assert (a + b)[..|a + b| - 1] == a + b';
      ExistingPairsAppend(a, b', versions, fs);
    }
  }

  /** Once building fails, building more pairs fails with the same error. */
  lemma {:induction false} BuildSdksErrPrefix(a: seq<(Path, string)>, b: seq<(Path, string)>, fs: FileSystem)
    requires a <= b
    requires BuildSdks(a, fs).Err?
    ensures BuildSdks(b, fs) == BuildSdks(a, fs)
    decreases |b|
  {
    if |b| > |a| {
      var init := b[..|b| - 1];
      assert a <= init;
      BuildSdksErrPrefix(a, init, fs);
    } else {
      assert a == b;
    }
  }

  /** Building one more pair adds that pair's SDK, or fails with its error. */
  lemma BuildSdksSnoc(pairs: seq<(Path, string)>, p: (Path, string), fs: FileSystem)
    requires BuildSdks(pairs, fs).Ok?
    ensures SdkOf(p.1, p.0, fs).Err? ==> BuildSdks(pairs + [p], fs) == Err(SdkOf(p.1, p.0, fs).error)
    ensures SdkOf(p.1, p.0, fs).Ok? ==> BuildSdks(pairs + [p], fs) == Ok(BuildSdks(pairs, fs).value + [SdkOf(p.1, p.0, fs).value])
  {
    assert (pairs + [p])[..|pairs|] == pairs;
  }

  lemma {:induction false} PairsForPrefix(root: Path, versions: seq<string>, k: nat, fs: FileSystem)
    requires k <= |versions|
    ensures PairsFor(root, versions[..k], fs) <= PairsFor(root, versions, fs)
  {
    if k < |versions| {
      var init := versions[..|versions| - 1];
      PairsForPrefix(root, init, k, fs);
      assert init[..k] == versions[..k];
    } else {
      assert versions[..k] == versions;
    }
  }

  lemma {:induction false} ExistingPairsPrefix(roots: seq<(KitsRoot, Path)>, k: nat, versions: seq<string>, fs: FileSystem)
    requires k <= |roots|
    ensures ExistingPairs(roots[..k], versions, fs) <= ExistingPairs(roots, versions, fs)
  {
    if k < |roots| {
      var init := roots[..|roots| - 1];
      ExistingPairsPrefix(init, k, versions, fs);
      assert init[..k] == roots[..k];
    } else {
      assert roots[..k] == roots;
    }
  }

  /**
    A pair is listed exactly when its root is one of the installed roots,
    its version one of the listed versions, and its bin directory exists.
  */
  lemma {:induction false} ExistingPairsMembers(roots: seq<(KitsRoot, Path)>, versions: seq<string>, fs: FileSystem, root: Path, version: string)
    ensures (root, version) in ExistingPairs(roots, versions, fs) <==>
      (exists k :: 0 <= k < |roots| && roots[k].1 == root) && version in versions && SdkExists(version, root, fs)
  {
    if roots != [] {
      var init := roots[..|roots| - 1];
      ExistingPairsMembers(init, versions, fs, root, version);
      PairsForMembers(roots[|roots| - 1].1, versions, fs, root, version);
      if exists k :: 0 <= k < |init| && init[k].1 == root {
        var k :| 0 <= k < |init| && init[k].1 == root;
        assert roots[k] == init[k];
      }
      if exists k :: 0 <= k < |roots| && roots[k].1 == root {
        var k :| 0 <= k < |roots| && roots[k].1 == root;
        if k < |init| {
          assert roots[k] == init[k];
        }
      }
    }
  }

  lemma {:induction false} PairsForMembers(r: Path, versions: seq<string>, fs: FileSystem, root: Path, version: string)
    ensures (root, version) in PairsFor(r, versions, fs) <==> root == r && version in versions && SdkExists(version, root, fs)
  {
    if versions != [] {
      var init := versions[..|versions| - 1];
      PairsForMembers(r, init, fs, root, version);
      assert versions == init + [versions[|versions| - 1]];
    }
  }

  /**
    Building succeeds exactly when every pair's SDK can be built, and then
    yields one SDK per pair, in the order of the pairs.
  */
  lemma {:induction false} BuildSdksOutcome(pairs: seq<(Path, string)>, fs: FileSystem)
    ensures BuildSdks(pairs, fs).Ok? <==> forall k :: 0 <= k < |pairs| ==> SdkOf(pairs[k].1, pairs[k].0, fs).Ok?
    ensures BuildSdks(pairs, fs).Ok? ==>
      && |BuildSdks(pairs, fs).value| == |pairs|
      && forall k :: 0 <= k < |pairs| ==> BuildSdks(pairs, fs).value[k] == SdkOf(pairs[k].1, pairs[k].0, fs).value
  {
    if pairs != [] {
      var init := pairs[..|pairs| - 1];
      BuildSdksOutcome(init, fs);
      assert forall k :: 0 <= k < |init| ==> pairs[k] == init[k];
    }
  }

  /** What System::load_sdks computes for the installed roots. */
  function LoadedSdks(roots: InstalledRoots, fs: FileSystem): Result<seq<Sdk>, SdkError> {
    BuildSdks(ExistingPairs(roots.kitsRoots, roots.sdkVersions, fs), fs)
  }

  /**
    load_sdks: for each root, for each version whose bin directory exists,
    builds the SDK and pushes it; the first failure is returned.
  */
  method LoadSdks(roots: InstalledRoots, fs: FileSystem) returns (r: Result<seq<Sdk>, SdkError>)
    ensures r == LoadedSdks(roots, fs)
  {
    var kitsRoots, versions := roots.kitsRoots, roots.sdkVersions;
    var sdks: seq<Sdk> := [];
    var i := 0;
    while i < |kitsRoots|
      invariant 0 <= i <= |kitsRoots|
      invariant BuildSdks(ExistingPairs(kitsRoots[..i], versions, fs), fs) == Ok(sdks)
    {
      assert ExistingPairs(kitsRoots[..i + 1], versions, fs)
        == ExistingPairs(kitsRoots[..i], versions, fs) + PairsFor(kitsRoots[i].1, versions, fs) by {
        assert kitsRoots[..i + 1][..i] == kitsRoots[..i];
      }
      var res := LoadRootSdks(ExistingPairs(kitsRoots[..i], versions, fs), kitsRoots[i].1, versions, fs, sdks);
      if res.Err? {
        ExistingPairsPrefix(kitsRoots, i + 1, versions, fs);
        BuildSdksErrPrefix(ExistingPairs(kitsRoots[..i + 1], versions, fs), ExistingPairs(kitsRoots, versions, fs), fs);
        return res;
      }
      sdks := res.value;
      i := i + 1;
    }
    assert kitsRoots[..i] == kitsRoots;
    r := Ok(sdks);
  }

  /**
    The inner loop of load_sdks for one root: after the SDKs `sdks` built
    from the pairs `done`, the SDK of each version whose bin directory
    exists under `rootPath` is built and pushed; the first failure is
    returned.
  */
  method LoadRootSdks(ghost done: seq<(Path, string)>, rootPath: Path, versions: seq<string>, fs: FileSystem, sdks: seq<Sdk>)
    returns (r: Result<seq<Sdk>, SdkError>)
    requires BuildSdks(done, fs) == Ok(sdks)
    ensures r == BuildSdks(done + PairsFor(rootPath, versions, fs), fs)
  {
    var acc := sdks;
    var j := 0;
    assert done + PairsFor(rootPath, versions[..0], fs) == done by {
      assert versions[..0] == [];
    }
    while j < |versions|
      invariant 0 <= j <= |versions|
      invariant BuildSdks(done + PairsFor(rootPath, versions[..j], fs), fs) == Ok(acc)
    {
      var sdkVersion := versions[j];
      ghost var before := done + PairsFor(rootPath, versions[..j], fs);
      ghost var after := done + PairsFor(rootPath, versions[..j + 1], fs);
      assert versions[..j + 1][..j] == versions[..j];
      if SdkExists(sdkVersion, rootPath, fs) {
        assert after == before + [(rootPath, sdkVersion)];
        BuildSdksSnoc(before, (rootPath, sdkVersion), fs);
        var sdk := NewSdk(sdkVersion, rootPath, fs);
        if sdk.Err? {
          assert after <= done + PairsFor(rootPath, versions, fs) by {
            PairsForPrefix(rootPath, versions, j + 1, fs);
          }
          BuildSdksErrPrefix(after, done + PairsFor(rootPath, versions, fs), fs);
          return Err(sdk.error);
        }
        acc := acc + [sdk.value];
      } else {
        assert after == before;
      }
      j := j + 1;
    }
    assert versions[..j] == versions;
    r := Ok(acc);
  }

  /** What System::new yields: the installed roots and their SDKs, or the first error. */
  function SystemOf(regOutput: string, fs: FileSystem): Result<System, SdkError> {
    match ParseRegOutput(regOutput)
    case Err(e) => Err(e)
    case Ok(roots) =>
      match LoadedSdks(roots, fs)
      case Err(e) => Err(e)
      case Ok(sdks) => Ok(System(roots, sdks))
  }

  /** System::new, given what `reg query` printed and the filesystem. */
  method NewSystem(regOutput: string, fs: FileSystem) returns (r: Result<System, SdkError>)
    ensures r == SystemOf(regOutput, fs)
  {
    var roots := NewInstalledRoots(regOutput);
    if roots.Err? {
      return Err(roots.error);
    }
    var sdks := LoadSdks(roots.value, fs);
    if sdks.Err? {
      return Err(sdks.error);
    }
    r := Ok(System(roots.value, sdks.value));
  }

  /**
    The SDKs of a system are exactly the existing (root, version) pairs of
    its installed roots, in loop order, each with its full tool-set table.
  */
  lemma SystemSdks(regOutput: string, fs: FileSystem)
    requires SystemOf(regOutput, fs).Ok?
    ensures var sys := SystemOf(regOutput, fs).value;
      var pairs := ExistingPairs(sys.installedRoots.kitsRoots, sys.installedRoots.sdkVersions, fs);
      && |sys.sdks| == |pairs|
      && forall k :: 0 <= k < |pairs| ==>
           && sys.sdks[k].installedRoot == pairs[k].0 && sys.sdks[k].version == pairs[k].1
           && SdkExists(pairs[k].1, pairs[k].0, fs)
           && sys.sdks[k].sdkArchs.Keys == AllArchs
  {
    var sys := SystemOf(regOutput, fs).value;
    var pairs := ExistingPairs(sys.installedRoots.kitsRoots, sys.installedRoots.sdkVersions, fs);
    BuildSdksOutcome(pairs, fs);
    forall k | 0 <= k < |pairs|
      ensures SdkExists(pairs[k].1, pairs[k].0, fs) && sys.sdks[k].sdkArchs.Keys == AllArchs
    {
      ExistingPairsMembers(sys.installedRoots.kitsRoots, sys.installedRoots.sdkVersions, fs, pairs[k].0, pairs[k].1);
      SdkArchTable(pairs[k].1, pairs[k].0, fs);
    }
  }

  // ---------------------------------------------------------------------
  // Looking up a tool (Sdk::tool, has_tool)
  // ---------------------------------------------------------------------

  /** Sdk::tool: the tool `name` of `arch`, if the SDK has that architecture and the binary exists. */
  function ToolOf(sdk: Sdk, name: string, arch: Arch, fs: FileSystem): (r: Option<Tool>)
    ensures r.Some? <==> arch in sdk.sdkArchs && Join(sdk.sdkArchs[arch].binDir, name) in fs.existing
  {
    if arch in sdk.sdkArchs then
      var sdkArch := sdk.sdkArchs[arch];
      var path := Join(sdkArch.binDir, name);
      if path in fs.existing then
        Some(Tool(sdk.version, sdk.installedRoot, arch, path, sdkArch.includeDirs, sdkArch.libDirs, sdkArch.binDir))
      else None
    else None
  }

  /** Sdk::sdk_arch: the tool set of `arch`, if the SDK has one. */
  function SdkArchOf(sdk: Sdk, arch: Arch): Option<SdkArch> {
    if arch in sdk.sdkArchs then Some(sdk.sdkArchs[arch]) else None
  }

  /** Sdk::has_tool: whether `name` exists in the bin directory of `arch`, false without one. */
  predicate HasTool(sdk: Sdk, arch: Arch, name: string, fs: FileSystem) {
    match SdkArchOf(sdk, arch)
    case None => false
    case Some(sa) => Join(sa.binDir, name) in fs.existing
  }

  /**
    has_tool agrees with tool, and a tool found copies the SDK's version,
    root and the architecture's directories, its path being the bin
    directory joined with the name.
  */
  lemma ToolLookup(sdk: Sdk, name: string, arch: Arch, fs: FileSystem)
    ensures HasTool(sdk, arch, name, fs) <==> ToolOf(sdk, name, arch, fs).Some?
    ensures ToolOf(sdk, name, arch, fs).Some? ==>
      var t, sa := ToolOf(sdk, name, arch, fs).value, sdk.sdkArchs[arch];
      && t.sdkVersion == sdk.version && t.installedRoot == sdk.installedRoot && t.arch == arch
      && t.binDir == sa.binDir && t.path == Join(sa.binDir, name)
      && t.includeDirs == sa.includeDirs && t.libDirs == sa.libDirs
  {
  }

  /**
    In an SDK built by Sdk::new, the tool `name` of any architecture is
    found exactly when `root/bin/version/dirname/name` exists, and that is
    its path.
  */
  lemma ToolOfNewSdk(version: string, root: Path, fs: FileSystem, name: string, arch: Arch)
    requires SdkOf(version, root, fs).Ok?
    ensures var p := Join(Join(BinRootDir(version, root), Dirname(arch)), name);
      var t := ToolOf(SdkOf(version, root, fs).value, name, arch, fs);
      && (t.Some? <==> p in fs.existing)
      && (t.Some? ==> t.value.path == p && t.value.sdkVersion == version && t.value.installedRoot == root)
  {
    SdkArchTable(version, root, fs);
  }
}
