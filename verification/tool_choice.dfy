/**
  Choosing the resource compiler (`get_sdk` in src/lib.rs).

  Every SDK of the system that has `rc.exe` for the target architecture
  contributes one candidate tool, in the order of the SDKs. A candidate
  whose SDK version equals the `WindowsSDKVersion` environment value wins
  (the first such); otherwise the candidate with the greatest SDK version
  is taken, versions being compared as strings (so "10.0.9.0" is greater
  than "10.0.10.0"); among equal greatest versions the last one is taken,
  as `Iterator::max_by` does.
*/
module ToolChoice {
  import opened Wrappers
  import opened RustStr
  import opened Sdk

  /** The name of the resource compiler binary. */
  const RcExe: string := "rc.exe"

  /** `filter_map(|sdk| sdk.tool("rc.exe", arch))`: the SDKs' rc.exe tools, in SDK order. */
  function Candidates(sdks: seq<Sdk>, arch: Arch, fs: FileSystem): (tools: seq<Tool>)
    ensures |tools| <= |sdks|
  {
    if sdks == [] then []
    else
      match ToolOf(sdks[0], RcExe, arch, fs)
      case None => Candidates(sdks[1..], arch, fs)
      case Some(t) => [t] + Candidates(sdks[1..], arch, fs)
  }

  /**
    The candidates are exactly the rc.exe tools the SDKs have, and each is
    the rc.exe of the target architecture in its SDK's bin directory.
  */
  lemma {:induction false} CandidatesMembers(sdks: seq<Sdk>, arch: Arch, fs: FileSystem, t: Tool)
    ensures t in Candidates(sdks, arch, fs) <==> exists k :: 0 <= k < |sdks| && ToolOf(sdks[k], RcExe, arch, fs) == Some(t)
    ensures t in Candidates(sdks, arch, fs) ==> t.arch == arch && t.path == Join(t.binDir, RcExe) && t.path in fs.existing
  {
    if sdks != [] {
      CandidatesMembers(sdks[1..], arch, fs, t);
      ToolLookup(sdks[0], RcExe, arch, fs);
      if exists k :: 0 <= k < |sdks| && ToolOf(sdks[k], RcExe, arch, fs) == Some(t) {
        var k :| 0 <= k < |sdks| && ToolOf(sdks[k], RcExe, arch, fs) == Some(t);
        if k > 0 {
          assert sdks[1..][k - 1] == sdks[k];
        }
      }
      if exists k :: 0 <= k < |sdks| - 1 && ToolOf(sdks[1..][k], RcExe, arch, fs) == Some(t) {
        var k :| 0 <= k < |sdks| - 1 && ToolOf(sdks[1..][k], RcExe, arch, fs) == Some(t);
        assert ToolOf(sdks[k + 1], RcExe, arch, fs) == Some(t);
      }
    }
  }

  // ---------------------------------------------------------------------
  // The environment's version
  // ---------------------------------------------------------------------

  /** `find(|tool| env_version == Some(tool.sdk_version))`: the index of the first match. */
  function FirstWithVersion(tools: seq<Tool>, envVersion: Option<string>): (r: Option<nat>)
    ensures r.Some? ==> r.value < |tools| && envVersion == Some(tools[r.value].sdkVersion)
  {
    if tools == [] then None
    else if envVersion == Some(tools[0].sdkVersion) then Some(0)
    else match FirstWithVersion(tools[1..], envVersion)
      case None => None
      case Some(k) => Some(k + 1)
  }

  /** The match found is the first one, and there is none exactly when no version equals the environment's. */
  lemma {:induction false} FirstWithVersionSpec(tools: seq<Tool>, envVersion: Option<string>)
    ensures FirstWithVersion(tools, envVersion).Some? ==>
      forall j :: 0 <= j < FirstWithVersion(tools, envVersion).value ==> envVersion != Some(tools[j].sdkVersion)
    ensures FirstWithVersion(tools, envVersion).None? <==>
      forall j :: 0 <= j < |tools| ==> envVersion != Some(tools[j].sdkVersion)
  {
    if tools != [] && envVersion != Some(tools[0].sdkVersion) {
      FirstWithVersionSpec(tools[1..], envVersion);
      assert forall j :: 1 <= j < |tools| ==> tools[j] == tools[1..][j - 1];
    }
  }

  // ---------------------------------------------------------------------
  // The greatest version
  // ---------------------------------------------------------------------

  /**
    The fold of `max_by(|a, b| a.sdk_version.cmp(&b.sdk_version))` over
    `tools[i..]`, the best so far being `tools[best]`: the next element
    replaces the best unless it is strictly smaller.
  */
  function MaxIndexFrom(tools: seq<Tool>, best: nat, i: nat): (k: nat)
    requires best < i <= |tools|
    ensures k < |tools|
    decreases |tools| - i
  {
    if i == |tools| then best
    else
      var best' := if StrLess(tools[i].sdkVersion, tools[best].sdkVersion) then best else i;
      MaxIndexFrom(tools, best', i + 1)
  }

  /** `tools.iter().max_by(...)`: None for no tools. */
  function MaxByVersion(tools: seq<Tool>): (r: Option<Tool>)
    ensures r.None? <==> tools == []
    ensures r.Some? ==> r.value in tools
  {
    if tools == [] then None else Some(tools[MaxIndexFrom(tools, 0, 1)])
  }

  /** The version of the best so far is greatest in the prefix and strictly greater than any later in it. */
  ghost predicate LastGreatest(tools: seq<Tool>, k: nat, n: nat)
    requires k < n <= |tools|
  {
    && (forall j :: 0 <= j < n ==> !StrLess(tools[k].sdkVersion, tools[j].sdkVersion))
    && (forall j :: k < j < n ==> StrLess(tools[j].sdkVersion, tools[k].sdkVersion))
  }

  lemma {:induction false} MaxIndexFromSpec(tools: seq<Tool>, best: nat, i: nat)
    requires best < i <= |tools|
    requires LastGreatest(tools, best, i)
    ensures LastGreatest(tools, MaxIndexFrom(tools, best, i), |tools|)
    decreases |tools| - i
  {
    if i < |tools| {
      var y := tools[i].sdkVersion;
      var b := tools[best].sdkVersion;
      if StrLess(y, b) {
        StrLessAsymmetric(y, b);
        MaxIndexFromSpec(tools, best, i + 1);
      } else {
        StrLessIrreflexive(y);
        StrLessTotal(y, b);
        forall j | 0 <= j < i
          ensures !StrLess(y, tools[j].sdkVersion)
        {
          if StrLess(y, tools[j].sdkVersion) && y != b {
            StrLessTransitive(b, y, tools[j].sdkVersion);
          }
        }
        MaxIndexFromSpec(tools, i, i + 1);
      }
    }
  }

  /**
    max_by returns a candidate whose version no other exceeds; when several
    share the greatest version it is the last of them.
  */
  lemma MaxByVersionSpec(tools: seq<Tool>)
    requires tools != []
    ensures var k := MaxIndexFrom(tools, 0, 1);
      && MaxByVersion(tools) == Some(tools[k])
      && (forall j :: 0 <= j < |tools| ==> !StrLess(tools[k].sdkVersion, tools[j].sdkVersion))
      && (forall j :: k < j < |tools| ==> StrLess(tools[j].sdkVersion, tools[k].sdkVersion))
  {
    StrLessIrreflexive(tools[0].sdkVersion);
    MaxIndexFromSpec(tools, 0, 1);
  }

  // ---------------------------------------------------------------------
  // Selection
  // ---------------------------------------------------------------------

  /** `find(...).or_else(|| max_version)`: the environment's version if present, else the greatest. */
  function SelectTool(tools: seq<Tool>, envVersion: Option<string>): (r: Option<Tool>)
    ensures r.None? <==> tools == []
    ensures r.Some? ==> r.value in tools
  {
    match FirstWithVersion(tools, envVersion)
    case Some(k) => Some(tools[k])
    case None => MaxByVersion(tools)
  }

  /**
    The selection rule: with a candidate of the environment's version the
    first such candidate is chosen; without one the greatest version wins,
    and nothing is chosen only when there are no candidates.
  */
  lemma SelectToolSpec(tools: seq<Tool>, envVersion: Option<string>)
    ensures (exists j :: 0 <= j < |tools| && envVersion == Some(tools[j].sdkVersion)) ==>
      exists k :: 0 <= k < |tools| && SelectTool(tools, envVersion) == Some(tools[k])
        && envVersion == Some(tools[k].sdkVersion)
        && forall j :: 0 <= j < k ==> envVersion != Some(tools[j].sdkVersion)
    ensures (forall j :: 0 <= j < |tools| ==> envVersion != Some(tools[j].sdkVersion)) ==>
      SelectTool(tools, envVersion) == MaxByVersion(tools)
    ensures SelectTool(tools, envVersion).Some? && envVersion != Some(SelectTool(tools, envVersion).value.sdkVersion) ==>
      forall j :: 0 <= j < |tools| ==> !StrLess(SelectTool(tools, envVersion).value.sdkVersion, tools[j].sdkVersion)
  {
    FirstWithVersionSpec(tools, envVersion);
    if tools != [] {
      MaxByVersionSpec(tools);
    }
  }

  /**
    get_sdk: the system is built first (its errors pass through), then an
    unsupported target architecture is an error, then the choice among the
    rc.exe candidates; no candidate is an error naming the architecture and
    the installed roots.
  */
  function GetSdk(regOutput: string, fs: FileSystem, envVersion: Option<string>, arch: Option<Arch>): (r: Result<Tool, SdkError>)
    ensures SystemOf(regOutput, fs).Err? ==> r == Err(SystemOf(regOutput, fs).error)
    ensures SystemOf(regOutput, fs).Ok? && arch.None? ==> r == Err(UnsupportedTargetArch)
  {
    match SystemOf(regOutput, fs)
    case Err(e) => Err(e)
    case Ok(system) =>
      match arch
      case None => Err(UnsupportedTargetArch)
      case Some(a) =>
        match SelectTool(Candidates(system.sdks, a, fs), envVersion)
        case None => Err(NoTool(a, system.installedRoots))
        case Some(t) => Ok(t)
  }

  /**
    A tool returned by get_sdk is the rc.exe of the target architecture in
    one of the system's SDKs, and it exists; get_sdk reports that no tool
    was found exactly when no SDK of the system has one.
  */
  lemma GetSdkOutcome(regOutput: string, fs: FileSystem, envVersion: Option<string>, a: Arch)
    requires SystemOf(regOutput, fs).Ok?
    ensures var system, r := SystemOf(regOutput, fs).value, GetSdk(regOutput, fs, envVersion, Some(a));
      && (r.Ok? ==> exists k :: 0 <= k < |system.sdks| && ToolOf(system.sdks[k], RcExe, a, fs) == Some(r.value))
      && (r.Ok? ==> r.value.arch == a && r.value.path == Join(r.value.binDir, RcExe) && r.value.path in fs.existing)
      && (r == Err(NoTool(a, system.installedRoots)) <==>
            forall k :: 0 <= k < |system.sdks| ==> ToolOf(system.sdks[k], RcExe, a, fs).None?)
      && (r.Ok? || r == Err(NoTool(a, system.installedRoots)))
  {
    var system := SystemOf(regOutput, fs).value;
    var tools := Candidates(system.sdks, a, fs);
    var r := GetSdk(regOutput, fs, envVersion, Some(a));
    if r.Ok? {
      CandidatesMembers(system.sdks, a, fs, r.value);
    }
    if tools == [] {
      forall k | 0 <= k < |system.sdks|
        ensures ToolOf(system.sdks[k], RcExe, a, fs).None?
      {
        if ToolOf(system.sdks[k], RcExe, a, fs).Some? {
          CandidatesMembers(system.sdks, a, fs, ToolOf(system.sdks[k], RcExe, a, fs).value);
        }
      }
    } else {
      CandidatesMembers(system.sdks, a, fs, tools[0]);
    }
  }

  // ---------------------------------------------------------------------
  // String ordering of versions
  // ---------------------------------------------------------------------

  /** A tool with only the version filled in, for the examples below. */
  function ToolWithVersion(version: string): Tool {
    Tool(version, Path([], []), X64, Path([], []), map[], map[], Path([], []))
  }

  /**
    Versions are compared as strings, not numerically: of "10.0.10.0" and
    "10.0.9.0", in either order, max_by picks "10.0.9.0", since '9' is
    greater than '1' at the first difference.
  */
  lemma StringOrderedVersions()
    ensures MaxByVersion([ToolWithVersion("10.0.10.0"), ToolWithVersion("10.0.9.0")]) == Some(ToolWithVersion("10.0.9.0"))
    ensures MaxByVersion([ToolWithVersion("10.0.9.0"), ToolWithVersion("10.0.10.0")]) == Some(ToolWithVersion("10.0.9.0"))
  {
    var a, b := "10.0.10.0", "10.0.9.0";
    assert StrLess(a[5..], b[5..]);
    assert StrLess(a[4..], b[4..]) by { assert a[4..][1..] == a[5..] && b[4..][1..] == b[5..]; }
    assert StrLess(a[3..], b[3..]) by { assert a[3..][1..] == a[4..] && b[3..][1..] == b[4..]; }
    assert StrLess(a[2..], b[2..]) by { assert a[2..][1..] == a[3..] && b[2..][1..] == b[3..]; }
    assert StrLess(a[1..], b[1..]) by { assert a[1..][1..] == a[2..] && b[1..][1..] == b[2..]; }
    assert StrLess(a, b);
    StrLessAsymmetric(a, b);
  }

  /** The environment's version wins even over a greater one. */
  lemma EnvironmentVersionWins()
    ensures SelectTool([ToolWithVersion("10.0.9.0"), ToolWithVersion("10.0.17763.0")], Some("10.0.17763.0"))
      == Some(ToolWithVersion("10.0.17763.0"))
  {
  }
}
