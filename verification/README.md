# winres, modelled in Dafny

winres is a Rust build-script helper that gives a Windows executable its
resources (version information, string table, icon and manifest). A
`WindowsResource` is built from the package's Cargo environment and
changed by chained setters. It then writes an RC script (`resource.rc`)
and hands that script to a resource compiler. The compiler is `rc.exe`,
chosen from the Windows SDKs installed on the machine.

The model covers two parts of the crate:

- **SDK discovery** (`src/sdk.rs`) is modelled in `sdk.dfy` and `tool_choice.dfy`:
  - parsing the output of `reg query "…\Installed Roots"` into kits roots and SDK versions;
  - building one `Sdk` per existing (root, version) pair, with per-architecture bin and include directories;
  - looking up a tool in one SDK;
  - choosing the `rc.exe` (`get_sdk` in `src/lib.rs`): the one whose SDK version equals `WindowsSDKVersion` if any, otherwise the greatest SDK version.
- **The resource descriptor** (`src/lib.rs`) is modelled in `resource.dfy`, `rc_script.dfy` and `escape.dfy`:
  - the `WindowsResource` class with its constructor and setters;
  - the text `write_resource_file` emits, as a function `Script` of the descriptor;
  - the RC string escaping (`escape_string`);
  - the choice of script in `compile`.

`rust_str.dfy` models the pieces of Rust's standard library the code relies on:
- `str::trim`, `str::lines`, `str::find`, `take_while`/`skip_while`;
- `u64::from_str`;
- the `{}`, `{:#x}` and `{:04x}` formats;
- the lexicographic order of `String`.

`wrappers.dfy` holds `Option` and `Result`.

Three behaviours of the code differ from what one might expect. The model follows the code:

- **String order, not numeric order.** SDK versions are compared as strings (`max_by` with `String::cmp`), not component by component as numbers. So `10.0.9.0` wins over `10.0.10.0` (`ToolChoice.StringOrderedVersions`).
- **Ties go to the later SDK.** Among equal greatest versions, `max_by` returns the last one.
- **A byte offset used as a character count.** The position of `REG_SZ` in a `KitsRoot` line is a byte offset (`str::find`), but the code then skips that many characters. Likewise, the version part of an `Installed Roots` line starts after `INSTALLED_ROOTS_KEY.len() + 1` characters, where `len` counts bytes. The model keeps both, and proves the key is ASCII (`Sdk.InstalledRootsKeyAscii`), so that skip is exact.

Maps the code iterates (`HashMap`) are emitted in an order passed as a parameter. The parameter is any enumeration of the keys, so every property is proved for every iteration order.

## Model

| member | source | states |
|---|---|---|
| RcEscape.EscapeString | src/lib.rs:610-627 | the loop builds exactly `Escaped(s)`, each character replaced by its RC escape |
| RcEscape.Escaped | src/lib.rs:610-627 | the escaped text is between one and two times as long and holds no raw newline, tab or carriage return |
| RcEscape.EscapedAppend | src/lib.rs:610-627 | escaping distributes over concatenation |
| RcEscape.EscapedExamples | src/lib.rs:635-641 | the empty string, `foo` and `"Hello"` escape as the unit test expects |
| RcEscape.EscapedBackslashPath | src/lib.rs:635-641 | in a path of plain components every backslash is doubled (the test's `C:\Program Files\Foobar`) |
| RcEscape.EscapedPlain | src/lib.rs:610-627 | text without special characters is unchanged |
| RcEscape.ReadQuotedEscaped | src/lib.rs:610-627 | reading a quoted string body gives back the escaped text and leaves what follows the closing quote |
| RcEscape.ReadStringQuoted | src/lib.rs:401-402 | a `"…"` literal of escaped text reads back as the text |
| RcEscape.UnescapedEscaped | src/lib.rs:610-627 | unescaping is a left inverse of escaping |
| RcEscape.EscapedInjective | src/lib.rs:610-627 | two different texts never escape to the same string |
| RustStr.TrimSpec | src/sdk.rs:222 | `trim` removes exactly the leading and trailing whitespace |
| RustStr.FindSpec | src/sdk.rs:228 | `find` gives the first position where the needle occurs, and None iff it occurs nowhere |
| RustStr.LinesSpec | src/sdk.rs:221 | no line that `lines` yields contains a line feed |
| RustStr.LinesSingle | src/sdk.rs:221 | a text without a line feed is a single line, or no line when empty |
| RustStr.LinesCons | src/sdk.rs:221 | the first line ends at the first line feed, a carriage return before it is dropped, and the rest are the lines of what follows |
| RustStr.LinesJoin | src/sdk.rs:221 | for text without carriage returns, joining the lines with line feeds and restoring a final line feed gives back the text |
| RustStr.ParseU64Decimal | src/lib.rs:160-162 | the decimal form of a u64 parses back to that value |
| RustStr.Hex04OfU16 | src/lib.rs:398 | `{:04x}` of a u16 is four lower-case hex digits denoting it |
| RustStr.StrLessTotal | src/lib.rs:563 | the string order compares any two different strings |
| RustStr.StrLessTransitive | src/lib.rs:563 | the string order is transitive |
| Sdk.InstalledRootsKeyAscii | src/sdk.rs:8 | the registry key is 66 ASCII characters, so its byte length is its character length |
| Sdk.DirnameInjective | src/sdk.rs:38-45 | different architectures use different directory names |
| Sdk.NewInstalledRoots | src/sdk.rs:208-252 | the result is `ParseRegOutput(output)` |
| Sdk.CollectRoots | src/sdk.rs:221-251 | the loop over the lines pushes roots and versions in line order, stops at the first `KitsRoot` line without `REG_SZ`, and fails without roots, exactly as `ParseClassified` of the classified lines |
| Sdk.ClassifyLineKinds | src/sdk.rs:221-241 | a trimmed line is a root if it starts with `KitsRoot` and holds `REG_SZ`; it is a panic if it starts with `KitsRoot` without `REG_SZ`; it is a version if it starts with the key and has a non-empty rest |
| Sdk.RootLineOf | src/sdk.rs:223-235 | a `KitsRoot10    REG_SZ    C:\…` line yields its id and its path |
| Sdk.VersionLineOf | src/sdk.rs:236-241 | a `<key>\<version>` line yields the version |
| Sdk.EntriesAppend | src/sdk.rs:221-251 | roots and versions are collected in line order: the entries of two blocks of lines are those of the first followed by those of the second |
| Sdk.RootEntriesMembers | src/sdk.rs:223-235 | a root is collected iff a line is classified as that root |
| Sdk.VersionEntriesMembers | src/sdk.rs:236-241 | a version is collected iff a line is classified as that version |
| Sdk.ParseRegOutputOutcome | src/sdk.rs:221-251 | a missing-`REG_SZ` error iff some `KitsRoot` line lacks it; otherwise a "no installed root" error iff no `KitsRoot` line; success always has at least one root |
| Sdk.RootDirs | src/sdk.rs:124-134 | bin, Lib and Include directories are root/<dir>/<version>; they are pairwise different and differ between versions |
| Sdk.DirEntries | src/sdk.rs:136-143 | the include map has one entry per directory name, joined to the include root |
| Sdk.LoadIncludeDirs | src/sdk.rs:136-143 | the method returns the listing of the include root, or its read error |
| Sdk.LoadArch | src/sdk.rs:164-170 | the architecture gets bin_root/dirname and the include map; nothing else changes; an unreadable include root is an error |
| Sdk.SdkOf | src/sdk.rs:89-97 | building an SDK fails iff its include root cannot be read |
| Sdk.SdkArchTable | src/sdk.rs:156-170 | a new SDK has exactly the four architectures, each with its own bin_root/dirname, no lib dirs and the same include map listing the include root |
| Sdk.NewSdk | src/sdk.rs:89-97 | the method computes `SdkOf` |
| Sdk.ExistingPairsMembers | src/sdk.rs:189-198 | a (root, version) pair is loaded iff the root was listed, the version was listed and root/bin/version exists |
| Sdk.PairsForAppend | src/sdk.rs:191-195 | within one root the versions are tried in listed order |
| Sdk.ExistingPairsAppend | src/sdk.rs:190-196 | roots are tried in listed order, each with all its versions before the next root |
| Sdk.BuildSdksOutcome | src/sdk.rs:189-198 | loading succeeds iff every existing pair builds, and then yields their SDKs in order |
| Sdk.LoadSdks | src/sdk.rs:189-198 | the loop over the roots computes `LoadedSdks`, stopping at the first error |
| Sdk.LoadRootSdks | src/sdk.rs:191-195 | the loop over the versions of one root extends the SDKs built so far by those of its existing pairs, or returns the first error |
| Sdk.NewSystem | src/sdk.rs:180-187 | `System::new` is the registry parse followed by loading the SDKs |
| Sdk.SystemSdks | src/sdk.rs:180-198 | the system's SDKs are exactly those of its existing (root, version) pairs |
| Sdk.ToolOf | src/sdk.rs:99-118 | a tool is found iff the architecture is loaded and bin_dir/name exists |
| Sdk.ToolLookup | src/sdk.rs:149-154 | `has_tool` agrees with `tool`; a found tool carries the SDK's version, root, arch and directories |
| Sdk.ToolOfNewSdk | src/sdk.rs:99-118 | in a new SDK the tool is found iff bin_root/dirname/name exists, and it is that path, with the SDK's version and root |
| ToolChoice.CandidatesMembers | src/lib.rs:561 | the candidates are exactly the `rc.exe` tools of the SDKs, for the target architecture |
| ToolChoice.FirstWithVersionSpec | src/lib.rs:565-566 | the found candidate is the first whose SDK version equals the environment's |
| ToolChoice.MaxByVersion | src/lib.rs:563 | there is a maximum iff there are candidates, and it is one of them |
| ToolChoice.MaxByVersionSpec | src/lib.rs:563 | the chosen candidate's version is not below any other, and is strictly above every later one (`max_by` keeps the last maximum) |
| ToolChoice.SelectToolSpec | src/lib.rs:561-567 | the first candidate with the environment's version wins; without one the result is the `max_by` maximum; a result not matching the environment has no greater version among the candidates |
| ToolChoice.GetSdkOutcome | src/lib.rs:555-572 | once discovery succeeds, the result is the "no rc.exe" error iff no SDK has `rc.exe` for the architecture; otherwise it is one SDK's `rc.exe` for that architecture, an existing file |
| ToolChoice.GetSdk | src/lib.rs:557-560 | discovery errors and an unsupported target architecture are passed on |
| ToolChoice.StringOrderedVersions | src/lib.rs:563 | `10.0.9.0` beats `10.0.10.0` in either order |
| ToolChoice.EnvironmentVersionWins | src/lib.rs:565-567 | the environment pin wins over the greater version |
| RcScript.FromNameName | src/lib.rs:62-79 | a version field's printed name reads back as that field |
| RcScript.WordsUnwords | src/lib.rs:386-392 | the four 16-bit words of a u64 make the value again |
| RcScript.UnwordsWords | src/lib.rs:386-392 | splitting packed words gives them back |
| RcScript.WordsOfPackVersion | src/lib.rs:159-162 | the packed version has a zero low word; parts below 2^16 are the other words |
| RcScript.VersionInfoLinesAt | src/lib.rs:382-396 | there is one line per field, in iteration order |
| RcScript.VersionLineName | src/lib.rs:387-394 | a field line starts with the field's name |
| RcScript.HexFieldLine | src/lib.rs:394 | a field other than the versions prints `0x` and hex digits denoting its value |
| RcScript.VersionFieldLine | src/lib.rs:386-392 | FILEVERSION and PRODUCTVERSION print four decimal u16 words that parse back and repack to the value |
| RcScript.LanguageLines | src/lib.rs:398-408 | the block name holds the language as four hex digits, and the Translation line holds it in `{:#x}` |
| RcScript.ParseValueLineOf | src/lib.rs:401-402 | a VALUE line parses back to its name and value |
| RcScript.ValueLineInjective | src/lib.rs:401-402 | different properties give different VALUE lines |
| RcScript.ValueLinesAt | src/lib.rs:399-404 | the i-th VALUE line is that of the i-th property with a non-empty value |
| RcScript.ValueLinesCount | src/lib.rs:399-404 | a non-empty property has exactly one VALUE line |
| RcScript.EmptyPropertyHasNoLine | src/lib.rs:400 | an empty property has no VALUE line |
| RcScript.IconLinesSpec | src/lib.rs:410-413 | there is an ICON line iff an icon is set; it uses the given id or 1; its path reads back |
| RcScript.QuotedLinesAt | src/lib.rs:418-419 | each manifest line becomes one quoted line |
| RcScript.QuotedLinesRead | src/lib.rs:418-419 | each quoted manifest line reads back as the trimmed source line |
| RcScript.ManifestLinesSpec | src/lib.rs:414-425 | a manifest resource exists iff FILETYPE is set and a manifest or file is; its header names the FILETYPE in decimal and type 24 |
| RcScript.ManifestInline | src/lib.rs:415-421 | an inline manifest wins over a manifest file and is a `{ … }` block of its lines |
| RcScript.ManifestFileLine | src/lib.rs:422-423 | without inline text, the manifest file is named in quotes and reads back |
| RcScript.ScriptLayout | src/lib.rs:373-427 | the script starts with the code page and VERSIONINFO lines, then one line per field, then the string table header |
| RcScript.ScriptFieldLine | src/lib.rs:382-396 | line 2+i of the script is the i-th version field |
| RcScript.DistinctCard | src/lib.rs:382 | iterating a map visits as many keys as it holds |
| Resource.FillProperties | src/lib.rs:145-157 | the four package defaults are overridden by the metadata table |
| Resource.PackPackageVersion | src/lib.rs:159-162 | major<<48, minor<<32 and patch<<16 are or-ed, unparsable parts being 0 |
| Resource.FillVersionInfo | src/lib.rs:164-170 | the seven version fields get their initial values |
| Resource.WindowsResource.constructor | src/lib.rs:144-194 | a new resource is `NewConfig` of the Cargo environment, the metadata and the tool |
| Resource.NewProperties | src/lib.rs:148-157 | metadata wins; otherwise FileVersion/ProductVersion are the package version, ProductName its name and FileDescription its description |
| Resource.NewVersionInfo | src/lib.rs:164-170 | all seven fields are set, FILEVERSION equals PRODUCTVERSION, and the others are 0x40004, 1, 0, 0x3F and 0 |
| Resource.NewOtherFields | src/lib.rs:180-193 | nothing else is set, the language is 0, and the output directory is OUT_DIR or `.` |
| Resource.NewVersionLine | src/lib.rs:159-165 | with parts below 2^16, the version lines print `major, minor, patch, 0` |
| Resource.NewVersionWords | src/lib.rs:159-162 | the fourth word is 0, and all-unparsable parts give 0, 0, 0, 0 |
| Resource.WindowsResource.Set | src/lib.rs:218-221 | only the named property changes |
| Resource.WindowsResource.SetTool | src/lib.rs:238-241 | only the tool changes |
| Resource.WindowsResource.SetLanguage | src/lib.rs:290-293 | only the language changes |
| Resource.WindowsResource.SetIcon | src/lib.rs:299-302 | only the icon changes |
| Resource.WindowsResource.SetIconWithId | src/lib.rs:308-312 | only the icon and its id change |
| Resource.WindowsResource.SetVersionInfo | src/lib.rs:316-319 | only the given field changes |
| Resource.WindowsResource.SetManifest | src/lib.rs:342-346 | the inline manifest is set and the manifest file cleared |
| Resource.WindowsResource.SetManifestFile | src/lib.rs:354-358 | the manifest file is set and the inline manifest cleared |
| Resource.WindowsResource.SetWindresPath | src/lib.rs:361-364 | only the windres path changes |
| Resource.WindowsResource.SetArPath | src/lib.rs:367-370 | only the ar path changes |
| Resource.WindowsResource.SetResourceFile | src/lib.rs:434-437 | only the resource file changes |
| Resource.WindowsResource.SetOutputDirectory | src/lib.rs:443-446 | only the output directory changes |
| Resource.WindowsResource.WriteResourceFile | src/lib.rs:373-427 | the lines written are `Script` of the current state |
| Resource.WriteVersionInfo | src/lib.rs:382-396 | the loop writes `VersionInfoLines` |
| Resource.WriteField | src/lib.rs:383-395 | one field is written as `VersionLine` (u16 truncation of each word, `{:#x}` otherwise) |
| Resource.WriteValues | src/lib.rs:399-404 | the loop writes `ValueLines`, skipping empty values |
| Resource.WriteManifest | src/lib.rs:414-425 | the manifest writer emits `ManifestLines` |
| Resource.CompileInput | src/lib.rs:491-501 | a set resource file is used as it is; otherwise the script is generated into output_directory/resource.rc |
| Resource.SetShowsProperty | src/lib.rs:218-221 | after `set`, a non-empty value has exactly one VALUE line and an empty one has none |
| Resource.LastManifestSetterWins | src/lib.rs:342-358 | the manifest setter called last decides the type-24 resource |
| Resource.SetVersionInfoShows | src/lib.rs:316-319 | after `set_version_info(k, v)` the line of `k` prints `v` |

## Left out

- Running programs is not modelled: `reg query`, `rc.exe`, `windres` and `ar`, and their exit statuses. The `reg` output is a string parameter of `Sdk.NewInstalledRoots`.
- Environment variables are parameters:
  - `CARGO_PKG_*` and `OUT_DIR` are the `CargoEnv` value;
  - `WindowsSDKVersion` is `envVersion`;
  - the `cfg!` target architecture (`Arch::arch_for_cfg_target`) is an `Option<Arch>` parameter.
- `parse_cargo_toml` and TOML parsing are not part of this model. Their string entries are the `metadata` map; non-string entries and the messages printed for them are dropped.
- The file system is a `FileSystem` value (existing paths, directory listings). `PathBuf::join` is a `Path` of a base plus components.
- Path equality is syntactic: there is no normalisation (`.`, `..`, separators) and no case folding, so two spellings of one directory are different paths. `join` always appends, whereas `PathBuf::join` of an absolute component replaces the base. `Sdk.RootDirs` (directories differ between versions) and every existence lookup rely on this abstraction.
- Error messages are modelled as error values, not text: the "no rc.exe" message that `get_sdk` builds with `Display` for `Arch` (src/lib.rs:555-572) is `NoTool(arch, roots)`, and the `io::Error` texts are constructors of `SdkError`.
- Individual `read_dir` entry errors are not modelled, and neither are failures to decode UTF-8 (the `reg` output; `to_str` in `compile`).
- `write_resource_file` returns the list of lines instead of writing a file, so its I/O errors are not modelled. A `writeln!` whose text contains `\n` is shown as separate lines.
- The tool passed to `new` is a parameter, because `get_sdk().expect(…)` and the `unimplemented!()` branches are process aborts.
- Sdk.ParseRegOutputOutcome: a `KitsRoot` line without `REG_SZ` panics in the code (`expect`). The model reports this as the error `MissingRegSz`.
- `compile_with_toolkit`, `compile` for the GNU toolchain, the link directives printed to Cargo, and the `tool_path`/`include_dirs` getters are left out (subprocess work and build-system output).
- The older `sdk::get_sdk` (src/sdk.rs:256) is a second, separate discovery path that the crate does not use. It is left out.
- Resource.NewVersionLine: the parsed version parts appear as their 64-bit values `ParseOr0(s)`, not as the decimal numbers. The model does not prove that the bits `U64Bits(n)` have the value `n`.
- Ordering and aliasing of the `HashMap`s are abstracted: iteration order is the `verOrder`/`propOrder` parameter. The Rust `&mut Self` chaining of setters is sequential calls on the class.
