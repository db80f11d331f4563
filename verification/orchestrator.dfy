/** `deploy_kit/orchestrator.py`: which sections run, how `apply_all` sorts
    them into executed, skipped and failed, the plan text, and how `check_all`
    sorts check results into critical issues and warnings. The cloud steps and
    checks are oracles. */
module Orchestrator {
  import opened Wrappers
  import opened Config
  import Text
  import Split

  const AllSections: seq<string> := ["backend", "etl", "bq", "sql", "gcs", "secrets", "frontend", "firebase"]

  /** `_section_enabled(name, cfg)`. */
  function SectionEnabled(name: string, cfg: DeployConfig): (b: bool)
    ensures name == "backend" ==> (b <==> cfg.deployBackend)
    ensures name == "frontend" ==> (b <==> cfg.deployFrontend)
    ensures name == "etl" ==> (b <==> cfg.deployEtlJob)
    ensures name == "bq" ==> (b <==> cfg.enableBigquery)
    ensures name == "sql" ==> (b <==> cfg.enableCloudSql)
    ensures name == "gcs" ==> (b <==> cfg.enableGcs)
    ensures name == "firebase" ==> (b <==> cfg.enableFirebase && cfg.deployFrontend)
    ensures name == "secrets" ==> (b <==> cfg.enableSecretManager && cfg.configureSecrets)
    ensures name !in AllSections ==> !b
  {
    if name == "backend" then cfg.deployBackend
    else if name == "frontend" then cfg.deployFrontend
    else if name == "etl" then cfg.deployEtlJob
    else if name == "bq" then cfg.enableBigquery
    else if name == "sql" then cfg.enableCloudSql
    else if name == "gcs" then cfg.enableGcs
    else if name == "firebase" then cfg.enableFirebase && cfg.deployFrontend
    else if name == "secrets" then cfg.enableSecretManager && cfg.configureSecrets
    else false
  }

  /** `a` is `b` with some elements left out, the rest in the same order. */
  predicate IsSubsequence(a: seq<string>, b: seq<string>)
    decreases |b|
  {
    a == [] || (b != [] && ((a[0] == b[0] && IsSubsequence(a[1..], b[1..])) || IsSubsequence(a, b[1..])))
  }

  /** A name passes the `only_sections` request: any name when the request is
      absent or empty, otherwise only the requested ones. */
  predicate Requested(only: Option<seq<string>>, s: string) {
    only.None? || only.value == [] || s in only.value
  }

  function KeepSelected(names: seq<string>, cfg: DeployConfig, only: Option<seq<string>>): (r: seq<string>)
    ensures IsSubsequence(r, names)
    ensures forall s :: s in r <==> s in names && Requested(only, s) && SectionEnabled(s, cfg)
  {
    if names == [] then []
    else
      var rest := KeepSelected(names[1..], cfg, only);
      if Requested(only, names[0]) && SectionEnabled(names[0], cfg) then
        assert ([names[0]] + rest)[1..] == rest;
        [names[0]] + rest
      else
        rest
  }

  /** `_filter_sections(cfg, only_sections)`: the enabled sections, restricted
      to the requested ones when a non-empty request is given, in canonical order. */
  function FilterSections(cfg: DeployConfig, only: Option<seq<string>>): (r: seq<string>)
    ensures IsSubsequence(r, AllSections)
    ensures forall s :: s in r ==> SectionEnabled(s, cfg)
    ensures only.Some? && only.value != [] ==> forall s :: s in r ==> s in only.value
    ensures only.None? || only.value == [] ==> forall s :: s in AllSections && SectionEnabled(s, cfg) ==> s in r
    ensures forall s :: s in r <==> s in AllSections && Requested(only, s) && SectionEnabled(s, cfg)
  {
    KeepSelected(AllSections, cfg, only)
  }

  // ---------------------------------------------------------------------
  // apply_all
  // ---------------------------------------------------------------------

  /** The calls a section makes, in order; any of them may raise. */
  datatype Step =
    | EnsureDeployServiceAccount | EnsureIamRoles | EnsureProjectAndApis | EnsureRepository
    | ReadAttribute(attr: string)
    | BuildAndPushImage(service: string) | DeployBackendService | DeployEtlJob
    | EnsureBigqueryResources | EnsureCloudSql | EnsureGcsBucket | EnsureSecrets | DeployFirebase

  /** The attributes the `DeployConfig` dataclass defines. */
  const ConfigAttributes: set<string> := {
    "gcp_project_id", "gcp_region", "deploy_sa_email", "artifact_registry_repo",
    "backend_image_name", "frontend_image_name", "enable_bigquery", "enable_cloud_sql",
    "enable_gcs", "enable_firebase", "enable_secret_manager", "deploy_backend",
    "deploy_frontend", "deploy_etl_job", "configure_secrets", "bigquery_project_id",
    "bigquery_dataset_id", "cloud_sql_instance_name", "cloud_sql_db_name", "cloud_sql_user",
    "gcs_bucket_name", "gcs_prefix", "firebase_project_id", "firebase_hosting_site",
    "secret_prefix"}

  /** Python truthiness of an optional string. */
  predicate Truthy(s: Option<string>) {
    s.Some? && s.value != ""
  }

  /** The image part of the backend and etl sections as written: the call's
      arguments read `cfg.backend_source_dir` before the call is made. */
  function ImageStepsAsWritten(service: string, deploy: Step): seq<Step> {
    [ReadAttribute("backend_source_dir"), BuildAndPushImage(service), deploy]
  }

  /** The image part as evidently intended: build and push, then deploy. */
  function ImageSteps(service: string, deploy: Step): seq<Step> {
    [BuildAndPushImage(service), deploy]
  }

  /** The steps of section `name`, with `image` giving the image part. */
  function SectionSteps(name: string, cfg: DeployConfig, image: (string, Step) -> seq<Step>): seq<Step> {
    if name == "backend" then
      [EnsureDeployServiceAccount, EnsureIamRoles, EnsureProjectAndApis, EnsureRepository]
      + (if Truthy(cfg.backendImageName) then image("backend", DeployBackendService) else [])
    else if name == "etl" then
      [EnsureProjectAndApis, EnsureRepository]
      + (if Truthy(cfg.backendImageName) then image("etl", DeployEtlJob) else [])
    else if name == "bq" then [EnsureProjectAndApis, EnsureBigqueryResources]
    else if name == "sql" then [EnsureProjectAndApis, EnsureCloudSql]
    else if name == "gcs" then [EnsureProjectAndApis, EnsureGcsBucket]
    else if name == "secrets" then [EnsureProjectAndApis, EnsureSecrets]
    else if name == "firebase" then [DeployFirebase]
    else []
  }

  /** A step raises when the oracle says so, and reading an attribute the
      dataclass does not define always raises `AttributeError`. */
  predicate StepRaises(step: Step, raises: Step -> bool) {
    if step.ReadAttribute? then step.attr !in ConfigAttributes else raises(step)
  }

  predicate AnyRaises(steps: seq<Step>, raises: Step -> bool) {
    exists k :: 0 <= k < |steps| && StepRaises(steps[k], raises)
  }

  /** Whether section `name` ends in its `except` branch, as written. */
  predicate SectionFailsAsWritten(name: string, cfg: DeployConfig, raises: Step -> bool) {
    AnyRaises(SectionSteps(name, cfg, ImageStepsAsWritten), raises)
  }

  /** Whether section `name` ends in its `except` branch, as intended. */
  predicate SectionFails(name: string, cfg: DeployConfig, raises: Step -> bool) {
    AnyRaises(SectionSteps(name, cfg, ImageSteps), raises)
  }

  datatype Outcome = Executed | Skipped | FailedSection

  /** Where the loop of `apply_all` files one section. */
  function OutcomeOf(name: string, sections: seq<string>, fails: string -> bool): Outcome {
    if name !in sections then Skipped
    else if fails(name) then FailedSection
    else Executed
  }

  /** Reference definition: the names whose outcome is `o`, in order. */
  function Having(names: seq<string>, sections: seq<string>, fails: string -> bool, o: Outcome): seq<string> {
    if names == [] then []
    else (if OutcomeOf(names[0], sections, fails) == o then [names[0]] else [])
         + Having(names[1..], sections, fails, o)
  }

  /** `Having` keeps the canonical order and holds exactly the names with
      outcome `o`. */
  lemma {:induction false} HavingMembers(names: seq<string>, sections: seq<string>, fails: string -> bool, o: Outcome)
    ensures IsSubsequence(Having(names, sections, fails, o), names)
    ensures forall s :: s in Having(names, sections, fails, o) <==> s in names && OutcomeOf(s, sections, fails) == o
  {
    if names != [] {
      HavingMembers(names[1..], sections, fails, o);
      var rest := Having(names[1..], sections, fails, o);
      if OutcomeOf(names[0], sections, fails) == o {
        assert ([names[0]] + rest)[1..] == rest;
      } else {
        assert [] + rest == rest;
      }
      forall s ensures s in names <==> s == names[0] || s in names[1..] {
        assert names == [names[0]] + names[1..];
      }
    }
  }

  lemma HavingStep(names: seq<string>, i: int, sections: seq<string>, fails: string -> bool, o: Outcome)
    requires 0 <= i < |names|
    ensures Having(names[i..], sections, fails, o)
         == (if OutcomeOf(names[i], sections, fails) == o then [names[i]] else [])
            + Having(names[i + 1..], sections, fails, o)
  {
    assert names[i..][1..] == names[i + 1..];
  }

  /** One step of the loop keeps `acc + Having(rest) == Having(names)`. */
  lemma Advance(names: seq<string>, i: int, sections: seq<string>, fails: string -> bool, o: Outcome,
                before: seq<string>, after: seq<string>)
    requires 0 <= i < |names|
    requires before + Having(names[i..], sections, fails, o) == Having(names, sections, fails, o)
    requires after == before + (if OutcomeOf(names[i], sections, fails) == o then [names[i]] else [])
    ensures after + Having(names[i + 1..], sections, fails, o) == Having(names, sections, fails, o)
  {
    HavingStep(names, i, sections, fails, o);
    var step := if OutcomeOf(names[i], sections, fails) == o then [names[i]] else [];
    assert before + (step + Having(names[i + 1..], sections, fails, o)) == (before + step) + Having(names[i + 1..], sections, fails, o);
  }

  /** The lines of one summary block: one "- name" per entry, or "- (none)". */
  function Block(title: string, names: seq<string>): (lines: seq<string>)
    ensures names == [] ==> lines == [title, "- (none)"]
    ensures names != [] ==> |lines| == |names| + 1 && lines[0] == title
    ensures names != [] ==> forall k :: 0 <= k < |names| ==> lines[k + 1] == "- " + names[k]
  {
    [title] + (if names == [] then ["- (none)"] else Bullets(names))
  }

  function Bullets(names: seq<string>): (lines: seq<string>)
    ensures |lines| == |names|
    ensures forall k :: 0 <= k < |names| ==> lines[k] == "- " + names[k]
  {
    if names == [] then [] else ["- " + names[0]] + Bullets(names[1..])
  }

  function ApplySummary(cfg: DeployConfig, executed: seq<string>, skipped: seq<string>, failed: seq<string>): string {
    Split.Join(
      ["# Deploy summary", "- project: " + cfg.gcpProjectId, ""]
      + Block("## Executed sections", executed) + [""]
      + Block("## Skipped sections", skipped) + [""]
      + Block("## Failed sections", failed),
      "\n")
  }

  /** The loop of `apply_all`: one pass over `names`, filing each name as
      skipped when not selected, failed when its steps raise, else executed. */
  method Partition(names: seq<string>, sections: seq<string>, fails: string -> bool)
    returns (executed: seq<string>, skipped: seq<string>, failed: seq<string>)
    ensures executed == Having(names, sections, fails, Executed)
    ensures skipped == Having(names, sections, fails, Skipped)
    ensures failed == Having(names, sections, fails, FailedSection)
  {
    executed, skipped, failed := [], [], [];
    var i := 0;
    while i < |names|
      invariant 0 <= i <= |names|
      invariant executed + Having(names[i..], sections, fails, Executed) == Having(names, sections, fails, Executed)
      invariant skipped + Having(names[i..], sections, fails, Skipped) == Having(names, sections, fails, Skipped)
      invariant failed + Having(names[i..], sections, fails, FailedSection) == Having(names, sections, fails, FailedSection)
    {
      var name := names[i];
      ghost var executed0, skipped0, failed0 := executed, skipped, failed;
      if name !in sections {
        skipped := skipped + [name];
      } else if fails(name) {
        failed := failed + [name];
      } else {
        executed := executed + [name];
      }
      Advance(names, i, sections, fails, Executed, executed0, executed);
      Advance(names, i, sections, fails, Skipped, skipped0, skipped);
      Advance(names, i, sections, fails, FailedSection, failed0, failed);
      i := i + 1;
    }
    assert names[i..] == [];
  }

  /** `apply_all(cfg, only_sections)` with `fails` telling which sections'
      steps raise. */
  method ApplyAll(cfg: DeployConfig, only: Option<seq<string>>, fails: string -> bool)
    returns (summary: string, hasFailures: bool, executed: seq<string>, skipped: seq<string>, failed: seq<string>)
    ensures executed == Having(AllSections, FilterSections(cfg, only), fails, Executed)
    ensures skipped == Having(AllSections, FilterSections(cfg, only), fails, Skipped)
    ensures failed == Having(AllSections, FilterSections(cfg, only), fails, FailedSection)
    ensures hasFailures <==> failed != []
    ensures summary == ApplySummary(cfg, executed, skipped, failed)
  {
    executed, skipped, failed := Partition(AllSections, FilterSections(cfg, only), fails);
    summary := ApplySummary(cfg, executed, skipped, failed);
    hasFailures := failed != [];
  }

  /** The three lists partition the canonical list: every section lands in
      exactly one, skipped exactly when not selected, failed exactly when
      selected and its steps raise. */
  lemma ApplyPartition(cfg: DeployConfig, only: Option<seq<string>>, fails: string -> bool, s: string)
    requires s in AllSections
    ensures var sections := FilterSections(cfg, only);
      && (s in Having(AllSections, sections, fails, Skipped) <==> s !in sections)
      && (s in Having(AllSections, sections, fails, FailedSection) <==> s in sections && fails(s))
      && (s in Having(AllSections, sections, fails, Executed) <==> s in sections && !fails(s))
  {
    var sections := FilterSections(cfg, only);
    HavingMembers(AllSections, sections, fails, Executed);
    HavingMembers(AllSections, sections, fails, Skipped);
    HavingMembers(AllSections, sections, fails, FailedSection);
  }

  /** As written, a backend section with an image name fails even when no
      cloud step raises: building the image reads an attribute the
      configuration does not have. */
  lemma BackendImageFailsAsWritten(cfg: DeployConfig, raises: Step -> bool)
    requires Truthy(cfg.backendImageName)
    ensures SectionFailsAsWritten("backend", cfg, raises)
    ensures SectionFailsAsWritten("etl", cfg, raises)
  {
    var steps := SectionSteps("backend", cfg, ImageStepsAsWritten);
    assert steps[4] == ReadAttribute("backend_source_dir");
    var etl := SectionSteps("etl", cfg, ImageStepsAsWritten);
    assert etl[2] == ReadAttribute("backend_source_dir");
  }

  /** As intended, a section fails exactly when one of its cloud steps raises;
      with no step raising, nothing fails. */
  lemma NothingFailsWithoutRaising(cfg: DeployConfig, raises: Step -> bool, name: string)
    requires forall st :: !raises(st)
    ensures !SectionFails(name, cfg, raises)
  {
    var steps := SectionSteps(name, cfg, ImageSteps);
    forall k | 0 <= k < |steps| ensures !StepRaises(steps[k], raises) {
      assert !steps[k].ReadAttribute?;
    }
  }

  /** `apply_all` as written, with each section failing as its steps do:
      a selected backend section with an image name is always filed as failed. */
  lemma ApplyBackendFailsAsWritten(cfg: DeployConfig, only: Option<seq<string>>, raises: Step -> bool)
    requires Truthy(cfg.backendImageName)
    requires "backend" in FilterSections(cfg, only)
    ensures "backend" in Having(AllSections, FilterSections(cfg, only),
                                n => SectionFailsAsWritten(n, cfg, raises), FailedSection)
  {
    BackendImageFailsAsWritten(cfg, raises);
    ApplyPartition(cfg, only, n => SectionFailsAsWritten(n, cfg, raises), "backend");
  }

  /** `apply_all` as intended: when no step raises, the failed list is empty,
      whatever is selected. */
  lemma ApplyNothingFails(cfg: DeployConfig, only: Option<seq<string>>, raises: Step -> bool)
    requires forall st :: !raises(st)
    ensures Having(AllSections, FilterSections(cfg, only), n => SectionFails(n, cfg, raises), FailedSection) == []
  {
    var fails := n => SectionFails(n, cfg, raises);
    var sections := FilterSections(cfg, only);
    forall k | 0 <= k < |AllSections| ensures OutcomeOf(AllSections[k], sections, fails) != FailedSection {
      NothingFailsWithoutRaising(cfg, raises, AllSections[k]);
    }
    HavingNone(AllSections, sections, fails, FailedSection);
  }

  lemma {:induction false} HavingNone(names: seq<string>, sections: seq<string>, fails: string -> bool, o: Outcome)
    requires forall k :: 0 <= k < |names| ==> OutcomeOf(names[k], sections, fails) != o
    ensures Having(names, sections, fails, o) == []
    decreases |names|
  {
    if names != [] {
      HavingNone(names[1..], sections, fails, o);
    }
  }

  // ---------------------------------------------------------------------
  // plan_all
  // ---------------------------------------------------------------------

  datatype AttributeError = AttributeError(attr: string)

  /** `getattr(cfg, name)` for each attribute `plan_all` reads, in order: the
      first one the dataclass lacks raises. */
  function ReadAttrs(names: seq<string>): (r: Result<(), AttributeError>)
    ensures r.Success? <==> forall k :: 0 <= k < |names| ==> names[k] in ConfigAttributes
    ensures r.Failure? ==> r.error.attr in names && r.error.attr !in ConfigAttributes
  {
    if names == [] then Success(())
    else if names[0] !in ConfigAttributes then Failure(AttributeError(names[0]))
    else ReadAttrs(names[1..])
  }

  /** `plan_all(cfg)` as written: it reads `cfg.backend_source_dir` while
      building the config summary, and the dataclass has no such attribute. */
  function PlanAllAsWritten(cfg: DeployConfig): (r: Result<string, AttributeError>)
    ensures r.Failure? ==> r.error.attr !in ConfigAttributes
    ensures r.Failure? ==> r.error.attr in ["gcp_project_id", "gcp_region", "backend_source_dir"]
    ensures r.Success? ==> r.value == PlanAll(cfg, SourceDirs("", None))
  {
    match ReadAttrs(["gcp_project_id", "gcp_region", "backend_source_dir"])
    case Failure(e) => Failure(e)
    case Success(_) => Success(PlanAll(cfg, SourceDirs("", None)))
  }

  /** Whatever the configuration, `plan_all` as written raises. */
  lemma PlanAllAsWrittenRaises(cfg: DeployConfig)
    ensures PlanAllAsWritten(cfg) == Failure(AttributeError("backend_source_dir"))
  {
    assert "gcp_project_id" in ConfigAttributes && "gcp_region" in ConfigAttributes;
    assert "backend_source_dir" !in ConfigAttributes;
  }

  /** The two source directories the plan reports, which the configuration
      evidently meant to carry. */
  datatype SourceDirs = SourceDirs(backend: string, frontend: Option<string>)

  /** Python's `str(b)` for a bool. */
  function PyBool(b: bool): string {
    if b then "True" else "False"
  }

  function StatusWord(enabled: bool): string {
    if enabled then "ENABLED" else "SKIPPED"
  }

  /** One "- name: ENABLED/SKIPPED" line per section, in canonical order. */
  function SectionLines(names: seq<string>, cfg: DeployConfig): (lines: seq<string>)
    ensures |lines| == |names|
    ensures forall k :: 0 <= k < |names| ==>
      lines[k] == "- " + names[k] + ": " + StatusWord(SectionEnabled(names[k], cfg))
  {
    if names == [] then []
    else ["- " + names[0] + ": " + StatusWord(SectionEnabled(names[0], cfg))] + SectionLines(names[1..], cfg)
  }

  /** The plan's heading, project, region and config summary lines. */
  function PlanHeader(cfg: DeployConfig, dirs: SourceDirs): seq<string> {
    PlanIntro(cfg) + DirLines(dirs) + ToggleLines(cfg) + ["", "## Sections"]
  }

  function PlanIntro(cfg: DeployConfig): seq<string> {
    ["# Deploy plan", "- project: " + cfg.gcpProjectId, "- region: " + cfg.gcpRegion, ""]
  }

  function DirLines(dirs: SourceDirs): seq<string> {
    [ "## Config summary",
      "- backend_source_dir: " + dirs.backend,
      "- frontend_source_dir: " + (if Truthy(dirs.frontend) then dirs.frontend.value else "(not set)") ]
  }

  function ToggleLines(cfg: DeployConfig): seq<string> {
    [ "- enable_bigquery: " + PyBool(cfg.enableBigquery),
      "- enable_cloud_sql: " + PyBool(cfg.enableCloudSql),
      "- enable_gcs: " + PyBool(cfg.enableGcs),
      "- enable_firebase: " + PyBool(cfg.enableFirebase),
      "- enable_secret_manager: " + PyBool(cfg.enableSecretManager),
      "- deploy_backend: " + PyBool(cfg.deployBackend),
      "- deploy_frontend: " + PyBool(cfg.deployFrontend),
      "- deploy_etl_job: " + PyBool(cfg.deployEtlJob),
      "- configure_secrets: " + PyBool(cfg.configureSecrets) ]
  }

  function PlanLines(cfg: DeployConfig, dirs: SourceDirs): seq<string> {
    PlanHeader(cfg, dirs) + SectionLines(AllSections, cfg)
  }

  /** `plan_all(cfg)` with the source directories supplied. */
  function PlanAll(cfg: DeployConfig, dirs: SourceDirs): (r: string)
    ensures SingleLine(cfg.gcpProjectId) && SingleLine(cfg.gcpRegion) && SingleLine(dirs.backend)
            && (dirs.frontend.Some? ==> SingleLine(dirs.frontend.value))
            ==> Split.SplitOn(r, '\n') == PlanLines(cfg, dirs)
  {
    PlanLinesSplit(cfg, dirs);
    Split.Join(PlanLines(cfg, dirs), "\n")
  }

  predicate SingleLine(s: string) {
    '\n' !in s
  }

  predicate AllSingle(lines: seq<string>) {
    forall k :: 0 <= k < |lines| ==> SingleLine(lines[k])
  }

  lemma HeaderSingle(cfg: DeployConfig, dirs: SourceDirs)
    requires SingleLine(cfg.gcpProjectId) && SingleLine(cfg.gcpRegion) && SingleLine(dirs.backend)
    requires dirs.frontend.Some? ==> SingleLine(dirs.frontend.value)
    ensures AllSingle(PlanHeader(cfg, dirs))
  {
    IntroSingle(cfg);
    DirLinesSingle(dirs);
    TogglesSingle(cfg);
    AllSingleAppend(PlanIntro(cfg), DirLines(dirs));
    AllSingleAppend(PlanIntro(cfg) + DirLines(dirs), ToggleLines(cfg));
    AllSingleAppend(PlanIntro(cfg) + DirLines(dirs) + ToggleLines(cfg), ["", "## Sections"]);
  }

  lemma IntroSingle(cfg: DeployConfig)
    requires SingleLine(cfg.gcpProjectId) && SingleLine(cfg.gcpRegion)
    ensures AllSingle(PlanIntro(cfg))
  {
    SingleAppend("- project: ", cfg.gcpProjectId);
    SingleAppend("- region: ", cfg.gcpRegion);
  }

  lemma DirLinesSingle(dirs: SourceDirs)
    requires SingleLine(dirs.backend)
    requires dirs.frontend.Some? ==> SingleLine(dirs.frontend.value)
    ensures AllSingle(DirLines(dirs))
  {
    SingleAppend("- backend_source_dir: ", dirs.backend);
    SingleAppend("- frontend_source_dir: ", if Truthy(dirs.frontend) then dirs.frontend.value else "(not set)");
  }

  lemma TogglesSingle(cfg: DeployConfig)
    ensures AllSingle(ToggleLines(cfg))
  {
    TogglesSingleFirst(cfg);
    TogglesSingleMiddle(cfg);
    TogglesSingleLast(cfg);
  }

  lemma TogglesSingleFirst(cfg: DeployConfig)
    ensures var t := ToggleLines(cfg); SingleLine(t[0]) && SingleLine(t[1]) && SingleLine(t[2])
  {
    SingleAppend("- enable_bigquery: ", PyBool(cfg.enableBigquery));
    SingleAppend("- enable_cloud_sql: ", PyBool(cfg.enableCloudSql));
    SingleAppend("- enable_gcs: ", PyBool(cfg.enableGcs));
  }

  lemma TogglesSingleMiddle(cfg: DeployConfig)
    ensures var t := ToggleLines(cfg); SingleLine(t[3]) && SingleLine(t[4]) && SingleLine(t[5])
  {
    SingleAppend("- enable_firebase: ", PyBool(cfg.enableFirebase));
    SingleAppend("- enable_secret_manager: ", PyBool(cfg.enableSecretManager));
    SingleAppend("- deploy_backend: ", PyBool(cfg.deployBackend));
  }

  lemma TogglesSingleLast(cfg: DeployConfig)
    ensures var t := ToggleLines(cfg); SingleLine(t[6]) && SingleLine(t[7]) && SingleLine(t[8])
  {
    SingleAppend("- deploy_frontend: ", PyBool(cfg.deployFrontend));
    SingleAppend("- deploy_etl_job: ", PyBool(cfg.deployEtlJob));
    SingleAppend("- configure_secrets: ", PyBool(cfg.configureSecrets));
  }

  lemma AllSingleAppend(a: seq<string>, b: seq<string>)
    requires AllSingle(a) && AllSingle(b)
    ensures AllSingle(a + b)
  {
  }

  lemma SingleAppend(a: string, b: string)
    requires SingleLine(a) && SingleLine(b)
    ensures SingleLine(a + b)
  {
  }

  lemma SectionLinesSingle(names: seq<string>, cfg: DeployConfig)
    requires AllSingle(names)
    ensures AllSingle(SectionLines(names, cfg))
  {
  }

  /** The plan's lines hold no newline when the configured texts hold none,
      so its text splits back into them. */
  lemma PlanLinesSplit(cfg: DeployConfig, dirs: SourceDirs)
    ensures SingleLine(cfg.gcpProjectId) && SingleLine(cfg.gcpRegion) && SingleLine(dirs.backend)
            && (dirs.frontend.Some? ==> SingleLine(dirs.frontend.value))
            ==> Split.SplitOn(Split.Join(PlanLines(cfg, dirs), "\n"), '\n') == PlanLines(cfg, dirs)
  {
    if SingleLine(cfg.gcpProjectId) && SingleLine(cfg.gcpRegion) && SingleLine(dirs.backend)
       && (dirs.frontend.Some? ==> SingleLine(dirs.frontend.value)) {
      HeaderSingle(cfg, dirs);
      SectionLinesSingle(AllSections, cfg);
      AllSingleAppend(PlanHeader(cfg, dirs), SectionLines(AllSections, cfg));
      var lines := PlanLines(cfg, dirs);
      assert AllSingle(lines);
      Split.SplitJoin(lines, '\n');
    }
  }

  /** The plan ends with exactly one status line per section, in canonical
      order, ENABLED exactly for the enabled sections. */
  lemma PlanSectionLines(cfg: DeployConfig, dirs: SourceDirs)
    ensures var lines := PlanLines(cfg, dirs);
      && |lines| == 18 + |AllSections|
      && lines[17] == "## Sections"
      && forall k :: 0 <= k < |AllSections| ==>
           lines[18 + k] == "- " + AllSections[k] + ": " + (if SectionEnabled(AllSections[k], cfg) then "ENABLED" else "SKIPPED")
  {
  }

  // ---------------------------------------------------------------------
  // check_all
  // ---------------------------------------------------------------------

  /** What a checker did: raised with a message, or returned a value. */
  datatype Check<T> = Raised(message: string) | Returned(value: T)

  /** The results of the six checkers `check_all` calls, in order. */
  datatype CheckInputs = CheckInputs(
    project: Check<seq<string>>,
    registry: Check<string>,
    gcs: Check<string>,
    bigquery: Check<string>,
    sql: Check<seq<string>>,
    secrets: Check<seq<string>>)

  /** Critical issues and warnings, each in the order found. */
  datatype Issues = Issues(critical: seq<string>, warnings: seq<string>)

  function Join2(a: Issues, b: Issues): Issues {
    Issues(a.critical + b.critical, a.warnings + b.warnings)
  }

  predicate ProjectCritical(r: string) {
    Text.Contains(r, "Project: 없음") || Text.Contains(r, "확인 불가") || Text.Contains(r, "조회 실패")
  }

  /** Project and API results: project missing, unverifiable or failed lookup
      is critical; otherwise a disabled API is a warning; anything else is fine. */
  function ClassifyProject(results: seq<string>): (iss: Issues)
    ensures forall r :: r in iss.critical <==> r in results && ProjectCritical(r)
    ensures forall r :: r in iss.warnings <==> r in results && !ProjectCritical(r) && Text.Contains(r, "API: 비활성화")
  {
    if results == [] then Issues([], [])
    else
      var r := results[0];
      var head := if ProjectCritical(r) then Issues([r], [])
                  else if Text.Contains(r, "API: 비활성화") then Issues([], [r])
                  else Issues([], []);
      Join2(head, ClassifyProject(results[1..]))
  }

  /** Artifact Registry: a missing repository is a warning (deploy creates
      it); otherwise an unverifiable or failed lookup is critical. */
  function ClassifyRegistry(status: string): (iss: Issues)
    ensures |iss.critical| + |iss.warnings| <= 1
    ensures status in iss.warnings <==> Text.Contains(status, "리포지토리 없음")
    ensures status in iss.critical <==>
      !Text.Contains(status, "리포지토리 없음") && (Text.Contains(status, "확인 불가") || Text.Contains(status, "실패"))
    ensures forall r :: r in iss.critical + iss.warnings ==> r == status
  {
    if Text.Contains(status, "리포지토리 없음") then Issues([], [status])
    else if Text.Contains(status, "확인 불가") || Text.Contains(status, "실패") then Issues([status], [])
    else Issues([], [])
  }

  /** GCS and BigQuery share one rule: a status naming the unset setting is
      critical; otherwise a status naming the missing resource is a warning
      (deploy creates it). */
  function ClassifyUnsetOrMissing(status: string, unset: string, missing: string): (iss: Issues)
    ensures |iss.critical| + |iss.warnings| <= 1
    ensures status in iss.critical <==> Text.Contains(status, unset)
    ensures status in iss.warnings <==> !Text.Contains(status, unset) && Text.Contains(status, missing)
    ensures forall r :: r in iss.critical + iss.warnings ==> r == status
  {
    if Text.Contains(status, unset) then Issues([status], [])
    else if Text.Contains(status, missing) then Issues([], [status])
    else Issues([], [])
  }

  /** GCS: an unset bucket name is critical; otherwise a missing bucket is a warning. */
  function ClassifyGcs(status: string): Issues {
    ClassifyUnsetOrMissing(status, "GCS_BUCKET_NAME 이 설정되지 않았습니다", "버킷 없음")
  }

  /** BigQuery: an unset dataset id is critical; otherwise a missing dataset is a warning. */
  function ClassifyBigquery(status: string): Issues {
    ClassifyUnsetOrMissing(status, "BIGQUERY_DATASET_ID 가 설정되지 않았습니다", "데이터셋 없음")
  }

  predicate SqlCritical(r: string) {
    Text.Contains(r, "없음") || Text.Contains(r, "설정되지 않았습니다") || Text.Contains(r, "확인 불가")
  }

  /** Cloud SQL: deploy does not create it, so anything missing, unset or
      unverifiable is critical, and nothing is a warning. */
  function ClassifySql(results: seq<string>): (iss: Issues)
    ensures iss.warnings == []
    ensures forall r :: r in iss.critical <==> r in results && SqlCritical(r)
  {
    if results == [] then Issues([], [])
    else
      var r := results[0];
      var head := if SqlCritical(r) then Issues([r], []) else Issues([], []);
      Join2(head, ClassifySql(results[1..]))
  }

  /** Secret Manager: deploy creates secrets, so a missing one is only a warning. */
  function ClassifySecrets(results: seq<string>): (iss: Issues)
    ensures iss.critical == []
    ensures forall r :: r in iss.warnings <==> r in results && Text.Contains(r, "없음")
  {
    if results == [] then Issues([], [])
    else Join2(if Text.Contains(results[0], "없음") then Issues([], [results[0]]) else Issues([], []),
               ClassifySecrets(results[1..]))
  }

  /** A checker that raised is one critical issue carrying its message. */
  function Classify<T>(c: Check<T>, prefix: string, classify: T -> Issues): (iss: Issues)
    ensures c.Raised? ==> iss == Issues([prefix + ": 체크 중 예외 발생: " + c.message], [])
  {
    match c
    case Raised(m) => Issues([prefix + ": 체크 중 예외 발생: " + m], [])
    case Returned(v) => classify(v)
  }

  function AllIssues(inputs: CheckInputs): Issues {
    Join2(Classify(inputs.project, "Project/APIs", ClassifyProject),
    Join2(Classify(inputs.registry, "Artifact Registry", ClassifyRegistry),
    Join2(Classify(inputs.gcs, "GCS", ClassifyGcs),
    Join2(Classify(inputs.bigquery, "BigQuery", ClassifyBigquery),
    Join2(Classify(inputs.sql, "Cloud SQL", ClassifySql),
          Classify(inputs.secrets, "Secrets", ClassifySecrets))))))
  }

  const StatusCritical := "- 상태: 크리티컬 이슈가 있습니다. 배포 전 반드시 해결해야 합니다."
  const StatusWarnings := "- 상태: 경고만 있습니다. 배포 시 일부 리소스가 새로 생성됩니다."
  const StatusClean := "- 상태: 주요 이슈 없음 (배포 가능 상태로 보입니다)"

  /** The status line: critical issues take precedence over warnings. */
  function StatusLine(iss: Issues): (line: string)
    ensures iss.critical != [] ==> line == StatusCritical
    ensures iss.critical == [] && iss.warnings != [] ==> line == StatusWarnings
    ensures iss.critical == [] && iss.warnings == [] ==> line == StatusClean
  {
    if iss.critical != [] then StatusCritical
    else if iss.warnings != [] then StatusWarnings
    else StatusClean
  }

  /** The "## Summary" part of the report. */
  function SummaryLines(iss: Issues, showAll: bool): (lines: seq<string>)
    ensures |lines| >= 2 && lines[0] == "## Summary" && lines[1] == StatusLine(iss)
  {
    ["## Summary", StatusLine(iss)]
    + (if showAll || iss.critical != [] then [""] + Block("### Critical issues", iss.critical) else [])
    + (if showAll || iss.warnings != [] then [""] + Block("### Warnings (리소스가 새로 생성될 예정)", iss.warnings) else [])
    + (if !showAll then ["", "자세한 상태를 보려면 `deploy-gcp check -a` 를 실행하세요."] else [])
  }

  /** `check_all(cfg, base_dir, show_all)`'s verdict: the issues found and
      whether there are any. */
  function CheckAll(inputs: CheckInputs, showAll: bool): (r: (Issues, seq<string>, bool))
    ensures r.0 == AllIssues(inputs)
    ensures r.2 <==> r.0.critical != [] || r.0.warnings != []
    ensures |r.1| >= 2 && r.1[1] == StatusLine(r.0)
  {
    var iss := AllIssues(inputs);
    (iss, SummaryLines(iss, showAll), iss.critical != [] || iss.warnings != [])
  }

  /** When every checker raises (the case in this repository, whose cloud
      modules define none of the checkers), all six checks are critical. */
  lemma AllRaisedIsCritical(inputs: CheckInputs, showAll: bool)
    requires inputs.project.Raised? && inputs.registry.Raised? && inputs.gcs.Raised?
    requires inputs.bigquery.Raised? && inputs.sql.Raised? && inputs.secrets.Raised?
    ensures |CheckAll(inputs, showAll).0.critical| == 6
    ensures CheckAll(inputs, showAll).0.warnings == []
    ensures CheckAll(inputs, showAll).2
  {
  }
}
