/**
  `WindowsResource` (src/lib.rs): the resource configuration a build script
  fills in, the RC script it writes, and the resource file `compile` hands
  to the resource compiler.

  Cargo's build-time variables, the `[package.metadata.winres]` table of
  Cargo.toml and the tool found by `get_sdk` are parameters of the
  constructor; the two hash-map iteration orders are parameters of the
  writer.
*/
module Resource {
  import opened Wrappers
  import opened RustStr
  import opened RcEscape
  import opened Sdk
  import opened RcScript

  /** The variables Cargo sets for a build script that `new` reads. */
  datatype CargoEnv = CargoEnv(
    pkgVersion: string,
    pkgName: string,
    pkgDescription: string,
    versionMajor: string,
    versionMinor: string,
    versionPatch: string,
    outDir: Option<string>)

  /** `s.parse::<u64>().unwrap_or(0)`, as the bits of the u64. */
  function ParseOr0(s: string): bv64 {
    match ParseU64(s)
    case Some(m) => U64Bits(m)
    case None => 0
  }

  /** The binary representation of a u64 number, built bit by bit from the top. */
  function U64Bits(n: nat): bv64
    requires n < 0x1_0000_0000_0000_0000
  {
    if n == 0 then 0 else (U64Bits(n / 2) << 1) | (if n % 2 == 1 then 1 else 0)
  }

  /**
    The string table `new` starts from: the package's version, name and
    description, then every string entry of `[package.metadata.winres]`,
    which takes precedence.
  */
  function InitialProperties(env: CargoEnv, metadata: map<string, string>): map<string, string> {
    map["FileVersion" := env.pkgVersion, "ProductVersion" := env.pkgVersion,
        "ProductName" := env.pkgName, "FileDescription" := env.pkgDescription] + metadata
  }

  /** The fields `new` sets: the package version twice, then the values for a Windows NT executable. */
  function InitialVersionInfo(version: bv64): map<VersionInfo, bv64> {
    map[FILEVERSION := version, PRODUCTVERSION := version, FILEOS := 0x40004, FILETYPE := 1,
        FILESUBTYPE := 0, FILEFLAGSMASK := 0x3F, FILEFLAGS := 0]
  }

  /** The configuration `new` builds. */
  function NewConfig(env: CargoEnv, metadata: map<string, string>, tool: Tool): Config {
    Config(
      tool,
      InitialProperties(env, metadata),
      InitialVersionInfo(PackVersion(ParseOr0(env.versionMajor), ParseOr0(env.versionMinor), ParseOr0(env.versionPatch))),
      None, None, None, 0, None, None,
      match env.outDir case Some(d) => d case None => ".",
      None, None)
  }

  /** Or-ing the three shifted parts into 0 one after the other gives the packed version. */
  lemma PackSteps(major: bv64, minor: bv64, patch: bv64)
    ensures ((0 | (major << 48)) | (minor << 32)) | (patch << 16) == PackVersion(major, minor, patch)
  {
  }

  /**
    The string table of `new`: the four package fields, then the string
    entries of `[package.metadata.winres]` inserted over them.
  */
  method FillProperties(env: CargoEnv, metadata: map<string, string>) returns (props: map<string, string>)
    ensures props == InitialProperties(env, metadata)
  {
    props := map[];
    props := props["FileVersion" := env.pkgVersion];
    props := props["ProductVersion" := env.pkgVersion];
    props := props["ProductName" := env.pkgName];
    props := props["FileDescription" := env.pkgDescription];
    props := props + metadata;
  }

  /** The package version of `new`, or-ed together part by part. */
  method PackPackageVersion(env: CargoEnv) returns (version: bv64)
    ensures version == PackVersion(ParseOr0(env.versionMajor), ParseOr0(env.versionMinor), ParseOr0(env.versionPatch))
  {
    var major, minor, patch := ParseOr0(env.versionMajor), ParseOr0(env.versionMinor), ParseOr0(env.versionPatch);
    version := 0;
    version := version | (major << 48);
    version := version | (minor << 32);
    version := version | (patch << 16);
    PackSteps(major, minor, patch);
  }

  /** The version fields of `new`: the package version twice, and the defaults. */
  method FillVersionInfo(version: bv64) returns (ver: map<VersionInfo, bv64>)
    ensures ver == InitialVersionInfo(version)
  {
    ver := map[];
    ver := ver[FILEVERSION := version];
    ver := ver[PRODUCTVERSION := version];
    ver := ver[FILEOS := 0x40004];
    ver := ver[FILETYPE := 1];
    ver := ver[FILESUBTYPE := 0];
    ver := ver[FILEFLAGSMASK := 0x3F];
    ver := ver[FILEFLAGS := 0];
  }

  class WindowsResource {
    var tool: Tool
    var properties: map<string, string>
    var versionInfo: map<VersionInfo, bv64>
    var rcFile: Option<string>
    var iconId: Option<string>
    var icon: Option<string>
    var language: U16
    var manifest: Option<string>
    var manifestFile: Option<string>
    var outputDirectory: string
    var windresPath: Option<string>
    var arPath: Option<string>

    /** The fields as one value. */
    function Snapshot(): Config
      reads this
    {
      Config(tool, properties, versionInfo, rcFile, iconId, icon, language, manifest, manifestFile,
             outputDirectory, windresPath, arPath)
    }

    /** `new`: the string table and the version fields are filled by successive inserts. */
    constructor (env: CargoEnv, metadata: map<string, string>, tool: Tool)
      ensures Snapshot() == NewConfig(env, metadata, tool)
    {
      var props := FillProperties(env, metadata);
      var version := PackPackageVersion(env);
      var ver := FillVersionInfo(version);
      this.tool := tool;
      properties := props;
      versionInfo := ver;
      rcFile := None;
      iconId := None;
      icon := None;
      language := 0;
      manifest := None;
      manifestFile := None;
      outputDirectory := match env.outDir case Some(d) => d case None => ".";
      windresPath := None;
      arPath := None;
    }

    /** `set`: adds or replaces a string property. */
    method Set(name: string, value: string)
      modifies this
      ensures Snapshot() == old(Snapshot()).(properties := old(properties)[name := value])
    {
      properties := properties[name := value];
    }

    /** `set_tool`. */
    method SetTool(t: Tool)
      modifies this
      ensures Snapshot() == old(Snapshot()).(tool := t)
    {
      tool := t;
    }

    /** `set_language`. */
    method SetLanguage(lang: U16)
      modifies this
      ensures Snapshot() == old(Snapshot()).(language := lang)
    {
      language := lang;
    }

    /** `set_icon`: the icon id is left as it was. */
    method SetIcon(path: string)
      modifies this
      ensures Snapshot() == old(Snapshot()).(icon := Some(path))
    {
      icon := Some(path);
    }

    /** `set_icon_with_id`. */
    method SetIconWithId(path: string, id: string)
      modifies this
      ensures Snapshot() == old(Snapshot()).(icon := Some(path), iconId := Some(id))
    {
      icon := Some(path);
      iconId := Some(id);
    }

    /** `set_version_info`: adds or replaces a field. */
    method SetVersionInfo(field: VersionInfo, value: bv64)
      modifies this
      ensures Snapshot() == old(Snapshot()).(versionInfo := old(versionInfo)[field := value])
    {
      versionInfo := versionInfo[field := value];
    }

    /** `set_manifest`: an inline manifest replaces any manifest file. */
    method SetManifest(m: string)
      modifies this
      ensures Snapshot() == old(Snapshot()).(manifest := Some(m), manifestFile := None)
    {
      manifestFile := None;
      manifest := Some(m);
    }

    /** `set_manifest_file`: a manifest file replaces any inline manifest. */
    method SetManifestFile(f: string)
      modifies this
      ensures Snapshot() == old(Snapshot()).(manifest := None, manifestFile := Some(f))
    {
      manifestFile := Some(f);
      manifest := None;
    }

    /** `set_windres_path`. */
    method SetWindresPath(path: string)
      modifies this
      ensures Snapshot() == old(Snapshot()).(windresPath := Some(path))
    {
      windresPath := Some(path);
    }

    /** `set_ar_path`. */
    method SetArPath(path: string)
      modifies this
      ensures Snapshot() == old(Snapshot()).(arPath := Some(path))
    {
      arPath := Some(path);
    }

    /** `set_resource_file`: a script of the user's own, used instead of the generated one. */
    method SetResourceFile(path: string)
      modifies this
      ensures Snapshot() == old(Snapshot()).(rcFile := Some(path))
    {
      rcFile := Some(path);
    }

    /** `set_output_directory`. */
    method SetOutputDirectory(path: string)
      modifies this
      ensures Snapshot() == old(Snapshot()).(outputDirectory := path)
    {
      outputDirectory := path;
    }

    /**
      `write_resource_file`: the lines of the script, emitted one by one,
      the version fields in the order `verOrder` and the properties in the
      order `propOrder` that iterating over the two maps yields.
    */
    method WriteResourceFile(verOrder: seq<VersionInfo>, propOrder: seq<string>) returns (lines: seq<string>)
      requires Enumerates(verOrder, versionInfo.Keys) && Enumerates(propOrder, properties.Keys)
      ensures lines == Script(Snapshot(), verOrder, propOrder)
    {
      var fields := WriteVersionInfo(versionInfo, verOrder);
      var values := WriteValues(properties, propOrder);
      var iconLines: seq<string> := [];
      if icon.Some? {
        var nameId := if iconId.Some? then iconId.value else "1";
        var id := EscapeString(nameId);
        var path := EscapeString(icon.value);
        iconLines := [id + " ICON " + ("\"" + path + "\"")];
      }
      var manifestLines := WriteManifest(versionInfo, manifest, manifestFile);
      lines := ["#pragma code_page(65001)", "1 VERSIONINFO"]
        + fields
        + (["{", "BLOCK \"StringFileInfo\"", "{", "BLOCK \"" + Hex04(language) + "04b0\"", "{"]
           + values
           + ["}", "}", "BLOCK \"VarFileInfo\" {", "VALUE \"Translation\", " + AltHex(language) + ", 0x04b0", "}", "}"])
        + iconLines
        + manifestLines;
    }
  }

  /** The loop over the version fields: each as its four words in decimal or as `{:#x}`. */
  method WriteVersionInfo(vi: map<VersionInfo, bv64>, order: seq<VersionInfo>) returns (lines: seq<string>)
    requires forall k :: k in order ==> k in vi
    ensures lines == VersionInfoLines(vi, order)
  {
    lines := [];
    var i := 0;
    while i < |order|
      invariant 0 <= i <= |order|
      invariant lines == VersionInfoLines(vi, order[..i])
    {
      var line := WriteField(order[i], vi[order[i]]);
      assert order[..i + 1][..i] == order[..i];
      lines := lines + [line];
      i := i + 1;
    }
    assert order[..i] == order;
  }

  /** One field: a version as its four words in decimal, anything else as `{:#x}`. */
  method WriteField(k: VersionInfo, v: bv64) returns (line: string)
    ensures line == RcScript.VersionLine(k, v)
  {
    match k {
      case FILEVERSION | PRODUCTVERSION =>
        line := Name(k) + " " + (Decimal(((v >> 48) & 0xFFFF) as bv16 as int) + ", "
          + Decimal(((v >> 32) & 0xFFFF) as bv16 as int) + ", "
          + Decimal(((v >> 16) & 0xFFFF) as bv16 as int) + ", "
          + Decimal((v & 0xFFFF) as bv16 as int));
      case _ =>
        line := Name(k) + " " + AltHex(v as int);
    }
  }

  /** The loop over the properties: a VALUE line for each non-empty value. */
  method WriteValues(props: map<string, string>, order: seq<string>) returns (lines: seq<string>)
    requires forall k :: k in order ==> k in props
    ensures lines == ValueLines(props, order)
  {
    lines := [];
    var i := 0;
    while i < |order|
      invariant 0 <= i <= |order|
      invariant lines == ValueLines(props, order[..i])
    {
      var k := order[i];
      var v := props[k];
      assert order[..i + 1][..i] == order[..i];
      if v != "" {
        var name := EscapeString(k);
        var value := EscapeString(v);
        lines := lines + ["VALUE " + ("\"" + name + "\"") + ", " + ("\"" + value + "\"")];
      }
      i := i + 1;
    }
    assert order[..i] == order;
  }

  /** The type-24 resource, when FILETYPE is set: the inline manifest line by line, or else the manifest file. */
  method WriteManifest(vi: map<VersionInfo, bv64>, manifest: Option<string>, manifestFile: Option<string>)
    returns (lines: seq<string>)
    ensures lines == ManifestLines(vi, manifest, manifestFile)
  {
    lines := [];
    if FILETYPE in vi {
      var e := Decimal(vi[FILETYPE] as int);
      if manifest.Some? {
        var body: seq<string> := [];
        var manfLines := Lines(manifest.value);
        var j := 0;
        while j < |manfLines|
          invariant 0 <= j <= |manfLines|
          invariant body == QuotedLines(manfLines[..j])
        {
          var line := EscapeString(Trim(manfLines[j]));
          assert manfLines[..j + 1][..j] == manfLines[..j];
          body := body + ["\"" + line + "\""];
          j := j + 1;
        }
        assert manfLines[..j] == manfLines;
        lines := [e + " 24", "{"] + body + ["}"];
      } else if manifestFile.Some? {
        var f := EscapeString(manifestFile.value);
        lines := [e + " 24 " + ("\"" + f + "\"")];
      }
    }
  }

  /** The script `compile` passes to the resource compiler. */
  datatype RcInput =
    | Generated(path: Path, script: seq<string>)  // written to `<output directory>/resource.rc`
    | GivenFile(file: string)                     // the user's own, left untouched

  /**
    The resource-file choice of `compile`: the file set with
    SetResourceFile if there is one, otherwise the generated script,
    written to `resource.rc` in the output directory.
  */
  method CompileInput(r: WindowsResource, verOrder: seq<VersionInfo>, propOrder: seq<string>) returns (input: RcInput)
    requires Enumerates(verOrder, r.versionInfo.Keys) && Enumerates(propOrder, r.properties.Keys)
    ensures r.rcFile.Some? ==> input == GivenFile(r.rcFile.value)
    ensures r.rcFile.None? ==>
      input == Generated(Join(PathOf(r.outputDirectory), "resource.rc"), Script(r.Snapshot(), verOrder, propOrder))
  {
    var rc := Join(PathOf(r.outputDirectory), "resource.rc");
    var written: seq<string> := [];
    if r.rcFile.None? {
      written := r.WriteResourceFile(verOrder, propOrder);
    }
    if r.rcFile.Some? {
      input := GivenFile(r.rcFile.value);
    } else {
      input := Generated(rc, written);
    }
  }

  // ---------------------------------------------------------------------
  // What `new` sets up
  // ---------------------------------------------------------------------

  /**
    The string table of a fresh resource: the metadata table wins over
    Cargo's package fields, and the four package fields are there otherwise.
  */
  lemma NewProperties(env: CargoEnv, metadata: map<string, string>, tool: Tool)
    ensures var p := NewConfig(env, metadata, tool).properties;
      && p.Keys == metadata.Keys + {"FileVersion", "ProductVersion", "ProductName", "FileDescription"}
      && (forall k :: k in metadata ==> p[k] == metadata[k])
      && ("FileVersion" !in metadata ==> p["FileVersion"] == env.pkgVersion)
      && ("ProductVersion" !in metadata ==> p["ProductVersion"] == env.pkgVersion)
      && ("ProductName" !in metadata ==> p["ProductName"] == env.pkgName)
      && ("FileDescription" !in metadata ==> p["FileDescription"] == env.pkgDescription)
  {
  }

  /** All seven version fields are set: the package version twice and the NT executable defaults. */
  lemma NewVersionInfo(env: CargoEnv, metadata: map<string, string>, tool: Tool)
    ensures var vi := NewConfig(env, metadata, tool).versionInfo;
      && vi.Keys == {FILEVERSION, PRODUCTVERSION, FILEOS, FILETYPE, FILESUBTYPE, FILEFLAGSMASK, FILEFLAGS}
      && vi[FILEVERSION] == vi[PRODUCTVERSION]
      && vi[FILEOS] == 0x40004 && vi[FILETYPE] == 1 && vi[FILESUBTYPE] == 0
      && vi[FILEFLAGSMASK] == 0x3F && vi[FILEFLAGS] == 0
  {
  }

  /** Nothing else is set; the output directory is OUT_DIR, or `.` without it. */
  lemma NewOtherFields(env: CargoEnv, metadata: map<string, string>, tool: Tool)
    ensures var c := NewConfig(env, metadata, tool);
      && c.rcFile.None? && c.icon.None? && c.iconId.None? && c.language == 0
      && c.manifest.None? && c.manifestFile.None? && c.windresPath.None? && c.arPath.None?
      && c.outputDirectory == if env.outDir.Some? then env.outDir.value else "."
  {
  }

  /**
    When the major, minor and patch parts of the package version parse to
    u64 values below 2^16, FILEVERSION and PRODUCTVERSION print as
    `major, minor, patch, 0`.
  */
  lemma NewVersionLine(env: CargoEnv, metadata: map<string, string>, tool: Tool, k: VersionInfo)
    requires k == FILEVERSION || k == PRODUCTVERSION
    requires ParseOr0(env.versionMajor) < 0x10000 && ParseOr0(env.versionMinor) < 0x10000
    requires ParseOr0(env.versionPatch) < 0x10000
    ensures var c := NewConfig(env, metadata, tool);
      RcScript.VersionLine(k, c.versionInfo[k])
      == Name(k) + " " + (Decimal(ParseOr0(env.versionMajor) as int) + ", " + Decimal(ParseOr0(env.versionMinor) as int)
         + ", " + Decimal(ParseOr0(env.versionPatch) as int) + ", 0")
  {
    var ma, mi, pa := ParseOr0(env.versionMajor), ParseOr0(env.versionMinor), ParseOr0(env.versionPatch);
    var v := PackVersion(ma, mi, pa);
    assert NewConfig(env, metadata, tool).versionInfo[k] == v;
    var w := Words(v);
    WordsOfPackVersion(ma, mi, pa);
    assert w.3 as int == 0;
    assert Decimal(0) == "0";
    VersionFieldLine(k, v);
  }

  /**
    A part of the package version that is not a number counts as 0, and
    one of 2^16 or more spills into the word above it: the words are those
    of the u64 value, truncated to 16 bits.
  */
  lemma NewVersionWords(env: CargoEnv, metadata: map<string, string>, tool: Tool)
    ensures var c := NewConfig(env, metadata, tool);
      var w := Words(c.versionInfo[FILEVERSION]);
      && w.3 == 0
      && (ParseU64(env.versionMajor).None? && ParseU64(env.versionMinor).None? && ParseU64(env.versionPatch).None? ==>
            w == (0, 0, 0, 0))
  {
    var ma, mi, pa := ParseOr0(env.versionMajor), ParseOr0(env.versionMinor), ParseOr0(env.versionPatch);
    PackedWords(ma, mi, pa);
    if ParseU64(env.versionMajor).None? && ParseU64(env.versionMinor).None? && ParseU64(env.versionPatch).None? {
      assert ma == 0 && mi == 0 && pa == 0;
      assert PackVersion(0, 0, 0) == 0;
    }
  }

  // ---------------------------------------------------------------------
  // What the setters change in the script
  // ---------------------------------------------------------------------

  /**
    After `set(name, value)` the script holds exactly one VALUE line for
    the property when the value is non-empty, and none that reads back as
    it when the value is empty.
  */
  lemma SetShowsProperty(c: Config, name: string, value: string, propOrder: seq<string>)
    requires Enumerates(propOrder, c.properties.Keys + {name})
    ensures var props := c.properties[name := value];
      && (value != "" ==> multiset(ValueLines(props, propOrder))[ValueLine(name, value)] == 1)
      && (value == "" ==> forall i, v :: 0 <= i < |ValueLines(props, propOrder)| ==>
            ParseValueLine(ValueLines(props, propOrder)[i]) != Some((name, v)))
  {
    var props := c.properties[name := value];
    assert props.Keys == c.properties.Keys + {name};
    if value != "" {
      ValueLinesCount(props, propOrder, name);
    } else {
      EmptyPropertyHasNoLine(props, propOrder, name);
    }
  }

  /**
    Whatever manifest was set before, after `set_manifest_file` the type-24
    resource names that file, and after `set_manifest` it is the inline
    block: the setter called last decides.
  */
  lemma LastManifestSetterWins(c: Config, m: string, f: string)
    requires FILETYPE in c.versionInfo
    ensures var d := c.(manifest := None, manifestFile := Some(f));
      ManifestLines(d.versionInfo, d.manifest, d.manifestFile)
      == [Decimal(c.versionInfo[FILETYPE] as int) + " 24 " + Quoted(f)]
    ensures var d := c.(manifest := Some(m), manifestFile := None);
      var r := ManifestLines(d.versionInfo, d.manifest, d.manifestFile);
      && r[..2] == [Decimal(c.versionInfo[FILETYPE] as int) + " 24", "{"]
      && r[2..|r| - 1] == QuotedLines(Lines(m))
  {
    ManifestInline(c.versionInfo, m, None);
  }

  /**
    After `set_version_info(k, v)` the line of field `k` prints `v`, at the
    position the map's iteration gives `k`.
  */
  lemma SetVersionInfoShows(c: Config, k: VersionInfo, v: bv64, verOrder: seq<VersionInfo>, propOrder: seq<string>, i: nat)
    requires Enumerates(verOrder, c.versionInfo.Keys + {k}) && Enumerates(propOrder, c.properties.Keys)
    requires i < |verOrder| && verOrder[i] == k
    ensures var d := c.(versionInfo := c.versionInfo[k := v]);
      Script(d, verOrder, propOrder)[2 + i] == RcScript.VersionLine(k, v)
  {
    var d := c.(versionInfo := c.versionInfo[k := v]);
    assert Enumerates(verOrder, d.versionInfo.Keys) by {
      assert d.versionInfo.Keys == c.versionInfo.Keys + {k};
    }
    ScriptFieldLine(d, verOrder, propOrder, i);
  }
}
