/**
 * The three-tier validation of scripts/automation/validate-compatibility.js.
 * Tier 1 checks each installed mod's current Modrinth version for the pack's
 * Minecraft version and for the Fabric loader; Tier 2 checks the one-hop
 * `required` and `incompatible` dependencies against the installed mods;
 * Tier 3 is the outcome of `packwiz refresh`. The run passes when all three
 * tiers pass. Version lookups are an oracle from version id to version, and
 * the build tool's outcome is a parameter.
 */
module ValidateCompatibility {
  import opened Common
  import opened Text
  import opened Seqs
  import opened Registry
  import opened PackwizParser

  /** A tier of `validation-results.json`. */
  datatype TierResult = TierResult(passed: bool, issues: seq<string>)

  /** `validation-results.json` without its timestamp. */
  datatype Report = Report(api: TierResult, dependency: TierResult, build: TierResult, overall: bool)

  /** What `packwiz refresh` did: exited normally with its output, or failed. */
  datatype BuildOutcome = Succeeded(stdout: string, stderr: string) | Failed(message: string)

  /** The report as it stands before any tier has run. */
  const Initial: Report := Report(TierResult(false, []), TierResult(false, []), TierResult(false, []), false)

  // ---------------------------------------------------------------------------
  // Tier 1

  predicate SupportsMc(v: Version, mcVersion: Option<string>) {
    mcVersion.Some? && mcVersion.value in v.gameVersions
  }

  predicate SupportsFabric(v: Version) { "fabric" in v.loaders }

  /** The issue for a version that does not list the pack's Minecraft version. */
  function McIssue(name: string, v: Version, mcVersion: Option<string>): string {
    name + ": Version " + v.versionNumber + " does not support MC " + Shown(mcVersion)
  }

  /** The issue for a version that does not list the Fabric loader. */
  function FabricIssue(name: string, v: Version): string {
    name + ": Version " + v.versionNumber + " does not support Fabric"
  }

  /** The two issue texts differ where one says `MC` and the other `Fabric`. */
  lemma McIssueIsNotFabricIssue(name: string, v: Version, mcVersion: Option<string>)
    ensures McIssue(name, v, mcVersion) != FabricIssue(name, v)
  {
    var prefix := name + ": Version " + v.versionNumber + " does not support ";
    assert McIssue(name, v, mcVersion) == prefix + "MC " + Shown(mcVersion);
    assert FabricIssue(name, v) == prefix + "Fabric";
    assert McIssue(name, v, mcVersion)[|prefix|] == 'M';
    assert FabricIssue(name, v)[|prefix|] == 'F';
  }

  /** The number of supports a version lacks: the Minecraft version, the Fabric loader, or both. */
  function Missing(v: Version, mcVersion: Option<string>): nat {
    (if SupportsMc(v, mcVersion) then 0 else 1) + (if SupportsFabric(v) then 0 else 1)
  }

  /**
   * The issues Tier 1 records for one mod, given its version lookup: one per
   * missing support, the Minecraft one first, each naming what is missing.
   */
  function ApiIssuesFor(mod: ModMeta, mcVersion: Option<string>, lookup: Result<Version>): (r: seq<string>)
    ensures |r| <= 2
    ensures lookup.Err? ==> r == [mod.name + ": Failed to validate - " + lookup.message]
    ensures lookup.Ok? ==> (r == [] <==> SupportsMc(lookup.value, mcVersion) && SupportsFabric(lookup.value))
    ensures lookup.Ok? ==> |r| == Missing(lookup.value, mcVersion)
    ensures lookup.Ok? ==> (McIssue(mod.name, lookup.value, mcVersion) in r <==> !SupportsMc(lookup.value, mcVersion))
    ensures lookup.Ok? ==> (FabricIssue(mod.name, lookup.value) in r <==> !SupportsFabric(lookup.value))
    ensures lookup.Ok? && |r| == 2 ==> r[0] == McIssue(mod.name, lookup.value, mcVersion)
  {
    match lookup
    case Err(m) => [mod.name + ": Failed to validate - " + m]
    case Ok(v) =>
      McIssueIsNotFabricIssue(mod.name, v, mcVersion);
      (if !SupportsMc(v, mcVersion) then [McIssue(mod.name, v, mcVersion)] else [])
      + (if !SupportsFabric(v) then [FabricIssue(mod.name, v)] else [])
  }

  /** How many of those issues count against the tier: a failed lookup counts none. */
  function ApiCountFor(mcVersion: Option<string>, lookup: Result<Version>): (r: nat)
    ensures r <= 2
    ensures r == 0 <==> lookup.Err? || (SupportsMc(lookup.value, mcVersion) && SupportsFabric(lookup.value))
    ensures lookup.Ok? ==> r == Missing(lookup.value, mcVersion)
  {
    match lookup
    case Err(_) => 0
    case Ok(v) => (if !SupportsMc(v, mcVersion) then 1 else 0) + (if !SupportsFabric(v) then 1 else 0)
  }

  /**
   * The count follows the recorded issues, one per issue, except that the
   * one issue of a failed lookup is not counted.
   */
  lemma ApiCountMatchesIssues(mod: ModMeta, mcVersion: Option<string>, lookup: Result<Version>)
    ensures lookup.Ok? ==> ApiCountFor(mcVersion, lookup) == |ApiIssuesFor(mod, mcVersion, lookup)|
    ensures lookup.Err? ==> ApiCountFor(mcVersion, lookup) == 0 && |ApiIssuesFor(mod, mcVersion, lookup)| == 1
  {
  }

  function ApiIssues(mods: seq<ModMeta>, mcVersion: Option<string>, versionOf: string -> Result<Version>): seq<string> {
    if |mods| == 0 then []
    else
      var last := mods[|mods| - 1];
      ApiIssues(mods[..|mods| - 1], mcVersion, versionOf) + ApiIssuesFor(last, mcVersion, versionOf(last.currentVersionId))
  }

  function ApiCount(mods: seq<ModMeta>, mcVersion: Option<string>, versionOf: string -> Result<Version>): nat {
    if |mods| == 0 then 0
    else
      var last := mods[|mods| - 1];
      ApiCount(mods[..|mods| - 1], mcVersion, versionOf) + ApiCountFor(mcVersion, versionOf(last.currentVersionId))
  }

  /** A mod whose version can be fetched is compatible with the pack. */
  predicate ApiCompatible(mod: ModMeta, mcVersion: Option<string>, versionOf: string -> Result<Version>) {
    var lookup := versionOf(mod.currentVersionId);
    lookup.Ok? ==> SupportsMc(lookup.value, mcVersion) && SupportsFabric(lookup.value)
  }

  /**
   * Tier 1 passes exactly when every mod whose version could be fetched
   * supports the pack's Minecraft version and Fabric; a failed fetch records
   * an issue but does not fail the tier. There are at most two issues per mod.
   */
  lemma {:induction false} ApiTierPasses(mods: seq<ModMeta>, mcVersion: Option<string>, versionOf: string -> Result<Version>)
    ensures ApiCount(mods, mcVersion, versionOf) == 0 <==>
              forall k :: 0 <= k < |mods| ==> ApiCompatible(mods[k], mcVersion, versionOf)
    ensures |ApiIssues(mods, mcVersion, versionOf)| <= 2 * |mods|
    ensures ApiCount(mods, mcVersion, versionOf) <= |ApiIssues(mods, mcVersion, versionOf)|
  {
    if |mods| > 0 {
      var init := mods[..|mods| - 1];
      var last := mods[|mods| - 1];
      ApiTierPasses(init, mcVersion, versionOf);
      var lookup := versionOf(last.currentVersionId);
      assert ApiCountFor(mcVersion, lookup) <= |ApiIssuesFor(last, mcVersion, lookup)|;
      if ApiCount(mods, mcVersion, versionOf) == 0 {
        forall k | 0 <= k < |mods| ensures ApiCompatible(mods[k], mcVersion, versionOf) {
          if k < |mods| - 1 { assert mods[k] == init[k]; }
        }
      }
      if forall k :: 0 <= k < |mods| ==> ApiCompatible(mods[k], mcVersion, versionOf) {
        assert forall k :: 0 <= k < |init| ==> init[k] == mods[k];
        assert ApiCompatible(last, mcVersion, versionOf);
      }
    }
  }

  // ---------------------------------------------------------------------------
  // Tier 2

  predicate HasProjectId(projectId: Option<string>, m: ModMeta) { projectId == Some(m.projectId) }

  /** `allMods.some(m => m.projectId === dep.project_id)`. */
  predicate Installed(mods: seq<ModMeta>, projectId: Option<string>) {
    exists k :: 0 <= k < |mods| && projectId == Some(mods[k].projectId)
  }

  /** `allMods.find(m => m.projectId === dep.project_id)`, for an installed dependency. */
  function FirstWithId(mods: seq<ModMeta>, projectId: Option<string>): (r: ModMeta)
    requires Installed(mods, projectId)
    ensures exists k :: 0 <= k < |mods| && mods[k] == r && projectId == Some(r.projectId)
                        && forall j :: 0 <= j < k ==> projectId != Some(mods[j].projectId)
  {
    var found := First((m: ModMeta) => HasProjectId(projectId, m), mods);
    assert found.Some? by {
      var k :| 0 <= k < |mods| && projectId == Some(mods[k].projectId);
      assert HasProjectId(projectId, mods[k]);
    }
    found.value
  }

  /** A dependency the installed mods break: a missing `required` one or an installed `incompatible` one. */
  predicate Violated(dep: Dependency, mods: seq<ModMeta>) {
    || (dep.kind == Required && !Installed(mods, dep.projectId))
    || (dep.kind == Incompatible && Installed(mods, dep.projectId))
  }

  /** The issue one dependency of `modName` records, if any; other kinds never record one. */
  function DepIssue(modName: string, dep: Dependency, mods: seq<ModMeta>): (r: seq<string>)
    ensures |r| <= 1
    ensures r != [] <==> Violated(dep, mods)
    ensures dep.kind == Required && r != [] ==> r == [modName + ": Missing required dependency " + Shown(dep.projectId)]
    ensures dep.kind == Incompatible && r != [] ==>
              r == [modName + ": Incompatible with " + FirstWithId(mods, dep.projectId).name]
  {
    if dep.kind == Required && !Installed(mods, dep.projectId) then
      [modName + ": Missing required dependency " + Shown(dep.projectId)]
    else if dep.kind == Incompatible && Installed(mods, dep.projectId) then
      [modName + ": Incompatible with " + FirstWithId(mods, dep.projectId).name]
    else []
  }

  function DepIssues(modName: string, deps: seq<Dependency>, mods: seq<ModMeta>): seq<string> {
    if |deps| == 0 then []
    else DepIssues(modName, deps[..|deps| - 1], mods) + DepIssue(modName, deps[|deps| - 1], mods)
  }

  /** The issues Tier 2 records for one mod; a failed lookup records none. */
  function DependencyIssuesFor(mod: ModMeta, mods: seq<ModMeta>, lookup: Result<Version>): seq<string> {
    if lookup.Ok? then DepIssues(mod.name, lookup.value.dependencies, mods) else []
  }

  function DependencyIssues(checked: seq<ModMeta>, mods: seq<ModMeta>, versionOf: string -> Result<Version>): seq<string> {
    if |checked| == 0 then []
    else
      var last := checked[|checked| - 1];
      DependencyIssues(checked[..|checked| - 1], mods, versionOf)
      + DependencyIssuesFor(last, mods, versionOf(last.currentVersionId))
  }

  /** No dependency in `deps` is violated. */
  predicate NoneViolated(deps: seq<Dependency>, mods: seq<ModMeta>) {
    forall d :: 0 <= d < |deps| ==> !Violated(deps[d], mods)
  }

  lemma NoneViolatedSplit(deps: seq<Dependency>, mods: seq<ModMeta>)
    requires |deps| > 0
    ensures NoneViolated(deps, mods) <==> NoneViolated(deps[..|deps| - 1], mods) && !Violated(deps[|deps| - 1], mods)
  {
    assert forall d :: 0 <= d < |deps| - 1 ==> deps[..|deps| - 1][d] == deps[d];
  }

  /** A mod none of whose dependencies is violated (vacuous when its version cannot be fetched). */
  predicate DepsSatisfied(mod: ModMeta, mods: seq<ModMeta>, versionOf: string -> Result<Version>) {
    var lookup := versionOf(mod.currentVersionId);
    lookup.Ok? ==> NoneViolated(lookup.value.dependencies, mods)
  }

  /** One issue per violated dependency: none exactly when no dependency is violated. */
  lemma {:induction false} DepIssuesEmpty(modName: string, deps: seq<Dependency>, mods: seq<ModMeta>)
    ensures DepIssues(modName, deps, mods) == [] <==> NoneViolated(deps, mods)
    ensures |DepIssues(modName, deps, mods)| <= |deps|
  {
    if |deps| > 0 {
      DepIssuesEmpty(modName, deps[..|deps| - 1], mods);
      NoneViolatedSplit(deps, mods);
    }
  }

  /** Every mod of `checked` has its dependencies satisfied. */
  predicate AllSatisfied(checked: seq<ModMeta>, mods: seq<ModMeta>, versionOf: string -> Result<Version>) {
    forall k :: 0 <= k < |checked| ==> DepsSatisfied(checked[k], mods, versionOf)
  }

  lemma AllSatisfiedSplit(checked: seq<ModMeta>, mods: seq<ModMeta>, versionOf: string -> Result<Version>)
    requires |checked| > 0
    ensures AllSatisfied(checked, mods, versionOf) <==>
              AllSatisfied(checked[..|checked| - 1], mods, versionOf) && DepsSatisfied(checked[|checked| - 1], mods, versionOf)
  {
    assert forall k :: 0 <= k < |checked| - 1 ==> checked[..|checked| - 1][k] == checked[k];
  }

  /**
   * Tier 2 passes exactly when no mod whose version could be fetched has a
   * missing required dependency or an installed incompatible one.
   */
  lemma {:induction false} DependencyTierPasses(checked: seq<ModMeta>, mods: seq<ModMeta>,
                                                versionOf: string -> Result<Version>)
    ensures DependencyIssues(checked, mods, versionOf) == [] <==> AllSatisfied(checked, mods, versionOf)
  {
    if |checked| > 0 {
      var last := checked[|checked| - 1];
      DependencyTierPasses(checked[..|checked| - 1], mods, versionOf);
      AllSatisfiedSplit(checked, mods, versionOf);
      var lookup := versionOf(last.currentVersionId);
      if lookup.Ok? {
        DepIssuesEmpty(last.name, lookup.value.dependencies, mods);
      }
    }
  }

  // ---------------------------------------------------------------------------
  // Tier 3

  /** Tier 3: a refresh that ran passes, with an issue when stderr holds something other than progress. */
  function BuildTier(outcome: BuildOutcome): (r: TierResult)
    ensures r.passed <==> outcome.Succeeded?
    ensures outcome.Failed? ==> r.issues == ["Packwiz refresh failed: " + outcome.message]
    ensures outcome.Succeeded? ==>
              (r.issues != [] <==> outcome.stderr != "" && !Contains(outcome.stderr, "Refreshing"))
  {
    match outcome
    case Succeeded(_, stderr) =>
      TierResult(true, if stderr != "" && !Contains(stderr, "Refreshing") then ["Packwiz stderr: " + stderr] else [])
    case Failed(m) => TierResult(false, ["Packwiz refresh failed: " + m])
  }

  // ---------------------------------------------------------------------------
  // The run

  /** The Tier 1 loop of `main`: the issues it records and how many of them count. */
  method CheckApi(mods: seq<ModMeta>, mcVersion: Option<string>, versionOf: string -> Result<Version>)
    returns (issues: seq<string>, count: nat)
    ensures issues == ApiIssues(mods, mcVersion, versionOf)
    ensures count == ApiCount(mods, mcVersion, versionOf)
  {
    issues := [];
    count := 0;
    for i := 0 to |mods|
      invariant issues == ApiIssues(mods[..i], mcVersion, versionOf)
      invariant count == ApiCount(mods[..i], mcVersion, versionOf)
    {
      var mod := mods[i];
      assert mods[..i + 1][..i] == mods[..i];
      var lookup := versionOf(mod.currentVersionId);
      match lookup {
        case Err(m) =>
          issues := issues + [mod.name + ": Failed to validate - " + m];
        case Ok(version) =>
          if !SupportsMc(version, mcVersion) {
            issues := issues + [mod.name + ": Version " + version.versionNumber + " does not support MC " + Shown(mcVersion)];
            count := count + 1;
          }
          if !SupportsFabric(version) {
            issues := issues + [mod.name + ": Version " + version.versionNumber + " does not support Fabric"];
            count := count + 1;
          }
      }
    }
    assert mods[..|mods|] == mods;
  }

  /** The inner loop of Tier 2 over one mod's dependencies. */
  method CheckDependenciesOf(modName: string, deps: seq<Dependency>, mods: seq<ModMeta>)
    returns (issues: seq<string>, count: nat)
    ensures issues == DepIssues(modName, deps, mods)
    ensures count == |issues|
  {
    issues := [];
    count := 0;
    for d := 0 to |deps|
      invariant issues == DepIssues(modName, deps[..d], mods)
      invariant count == |issues|
    {
      var dep := deps[d];
      assert deps[..d + 1][..d] == deps[..d];
      if dep.kind == Required {
        if !Installed(mods, dep.projectId) {
          issues := issues + [modName + ": Missing required dependency " + Shown(dep.projectId)];
          count := count + 1;
        }
      } else if dep.kind == Incompatible {
        if Installed(mods, dep.projectId) {
          var incompatibleMod := FirstWithId(mods, dep.projectId);
          issues := issues + [modName + ": Incompatible with " + incompatibleMod.name];
          count := count + 1;
        }
      }
    }
    assert deps[..|deps|] == deps;
  }

  /** The Tier 2 loop of `main`: every issue it records counts. */
  method CheckDependencies(mods: seq<ModMeta>, versionOf: string -> Result<Version>)
    returns (issues: seq<string>, count: nat)
    ensures issues == DependencyIssues(mods, mods, versionOf)
    ensures count == |issues|
  {
    issues := [];
    count := 0;
    for i := 0 to |mods|
      invariant issues == DependencyIssues(mods[..i], mods, versionOf)
      invariant count == |issues|
    {
      var mod := mods[i];
      assert mods[..i + 1][..i] == mods[..i];
      var lookup := versionOf(mod.currentVersionId);
      if lookup.Ok? {
        var found, n := CheckDependenciesOf(mod.name, lookup.value.dependencies, mods);
        issues := issues + found;
        count := count + n;
      }
    }
    assert mods[..|mods|] == mods;
  }

  /**
   * `main`: when `pack.toml` cannot be read nothing runs and the exit code is
   * 1; otherwise the three tiers run in order, none cutting the others short,
   * the run passes exactly when all three pass, and the exit code is 0 exactly
   * when it passes.
   */
  method Validate(pack: Result<PackMeta>, mods: seq<ModMeta>, versionOf: string -> Result<Version>, build: BuildOutcome)
    returns (report: Report, exitCode: int)
    ensures pack.Err? ==> report == Initial && exitCode == 1
    ensures pack.Ok? ==>
              && report.api == TierResult(ApiCount(mods, pack.value.mcVersion, versionOf) == 0,
                                          ApiIssues(mods, pack.value.mcVersion, versionOf))
              && report.dependency == TierResult(DependencyIssues(mods, mods, versionOf) == [],
                                                 DependencyIssues(mods, mods, versionOf))
              && report.build == BuildTier(build)
    ensures report.overall == (report.api.passed && report.dependency.passed && report.build.passed)
    ensures exitCode == 0 <==> report.overall
  {
    report := Initial;
    if pack.Err? {
      return report, 1;
    }
    var apiIssues, apiCount := CheckApi(mods, pack.value.mcVersion, versionOf);
    report := report.(api := TierResult(apiCount == 0, apiIssues));
    var depIssues, depCount := CheckDependencies(mods, versionOf);
    report := report.(dependency := TierResult(depCount == 0, depIssues));
    report := report.(build := BuildTier(build));
    var overall := report.api.passed && report.dependency.passed && report.build.passed;
    report := report.(overall := overall);
    exitCode := if overall then 0 else 1;
  }

  lemma SingleDependency(modName: string, dep: Dependency, mods: seq<ModMeta>)
    ensures DepIssues(modName, [dep], mods) == DepIssue(modName, dep, mods)
  {
    assert [dep][..0] == [];
  }

  lemma TwoCheckedMods(first: ModMeta, second: ModMeta, mods: seq<ModMeta>, versionOf: string -> Result<Version>)
    ensures DependencyIssues([first, second], mods, versionOf)
            == DependencyIssuesFor(first, mods, versionOf(first.currentVersionId))
               + DependencyIssuesFor(second, mods, versionOf(second.currentVersionId))
  {
    assert [first, second][..1] == [first];
    assert [first][..0] == [];
    assert DependencyIssues([first], mods, versionOf)
           == DependencyIssuesFor(first, mods, versionOf(first.currentVersionId));
  }

  lemma MissingRequired(modName: string, b: ModMeta, c: ModMeta)
    requires b.projectId == "B" && c.projectId == "C"
    ensures DepIssues(modName, [Dependency(Some("A"), Required)], [b, c]) == [modName + ": Missing required dependency " + "A"]
  {
    var mods := [b, c];
    assert !Installed(mods, Some("A")) by {
      assert "A"[0] != "B"[0] && "A"[0] != "C"[0];
    }
    SingleDependency(modName, Dependency(Some("A"), Required), mods);
    assert Shown(Some("A")) == "A";
  }

  lemma InstalledIncompatible(modName: string, b: ModMeta, c: ModMeta)
    requires b.projectId == "B"
    ensures DepIssues(modName, [Dependency(Some("B"), Incompatible)], [b, c]) == [modName + ": Incompatible with " + b.name]
  {
    var mods := [b, c];
    assert Installed(mods, Some("B")) by { assert Some("B") == Some(mods[0].projectId); }
    assert FirstWithId(mods, Some("B")) == b;
    SingleDependency(modName, Dependency(Some("B"), Incompatible), mods);
  }

  /**
   * Two installed mods, B requiring the absent project A and C declaring B
   * incompatible: Tier 2 records exactly those two issues, in
   * mod order, and so fails.
   */
  lemma IncompatibleExample(b: ModMeta, c: ModMeta, versionOf: string -> Result<Version>)
    requires b.projectId == "B" && c.projectId == "C"
    requires versionOf(b.currentVersionId).Ok?
    requires versionOf(b.currentVersionId).value.dependencies == [Dependency(Some("A"), Required)]
    requires versionOf(c.currentVersionId).Ok?
    requires versionOf(c.currentVersionId).value.dependencies == [Dependency(Some("B"), Incompatible)]
    ensures DependencyIssues([b, c], [b, c], versionOf)
            == [b.name + ": Missing required dependency " + "A", c.name + ": Incompatible with " + b.name]
  {
    TwoCheckedMods(b, c, [b, c], versionOf);
    MissingRequired(b.name, b, c);
    InstalledIncompatible(c.name, b, c);
  }
}
