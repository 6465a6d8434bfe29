/**
 * The two request handlers that turn a submitted configuration into checks
 * or into a document: `validate_config` (`POST /api/validate`) reports
 * errors and warnings about the request, and `generate_preview`
 * (`POST /api/generate/preview`) feeds the request to an
 * `ImageSetGenerator` and returns the YAML it produces.
 */
module Requests {
  import opened Wrappers
  import opened Text
  import opened Process
  import opened Generator

  /**
   * The JSON body both handlers read. An absent key and a `null` value are
   * both `None`; `kubevirtContainer` is the truthiness of `kubevirt_container`.
   */
  datatype Request = Request(
    ocpVersions: Option<seq<string>>,
    ocpChannel: Option<string>,
    ocpMinVersion: Option<string>,
    ocpMaxVersion: Option<string>,
    operators: Option<seq<string>>,
    operatorCatalogs: Option<seq<string>>,
    operatorCatalog: Option<string>,
    additionalImages: Option<seq<string>>,
    helmCharts: Option<seq<ChartInput>>,
    kubevirtContainer: bool)

  /** Python truthiness of an optional list: present and not empty. */
  predicate Present<T>(o: Option<seq<T>>) {
    o.Some? && |o.value| > 0
  }

  /** `data.get(key, [])`. */
  function Items<T>(o: Option<seq<T>>): seq<T> {
    if o.Some? then o.value else []
  }

  /** What one element contributes to `[x.strip() for x in xs if x.strip()]`. */
  function NonBlank(x: string): Option<string> {
    if Strip(x) != "" then Some(Strip(x)) else None
  }

  /** `[x.strip() for x in xs if x.strip()]`. */
  function StrippedNonBlank(xs: seq<string>): seq<string> {
    Collect(xs, NonBlank)
  }

  /** The list keeps, in order, the stripped form of each element that is not blank, and nothing else. */
  lemma StrippedNonBlankMembers(xs: seq<string>, x: string)
    ensures x in StrippedNonBlank(xs) <==> exists k :: 0 <= k < |xs| && Strip(xs[k]) != "" && x == Strip(xs[k])
    ensures x in StrippedNonBlank(xs) ==> x != "" && Strip(x) == x
  {
    CollectMembers(xs, NonBlank, x);
    if x in StrippedNonBlank(xs) {
      var k :| 0 <= k < |xs| && NonBlank(xs[k]) == Some(x);
      StripIdempotent(xs[k]);
    }
  }

  // ---------------------------------------------------------------------
  // POST /api/validate
  // ---------------------------------------------------------------------

  datatype ValidationReply =
    | Validation(valid: bool, errors: seq<string>, warnings: seq<string>)
    | ValidationNoData(error: string)  // 400

  const NoSectionError := "At least one configuration section must be specified (OCP versions, operators, additional images, or Helm charts)"
  const ChartNameError := "Helm chart name is required"
  const ChartRepositoryError := "Helm chart repository is required"
  const CatalogWarning := "Operator catalog should be a valid registry URL"

  /** At least one of the four sections is present. */
  predicate AnySection(req: Request) {
    Present(req.ocpVersions) || Present(req.operators) || Present(req.additionalImages) || Present(req.helmCharts)
  }

  /** The first three dot-separated parts of a stripped version exist and are all digits. */
  predicate ReleaseShaped(line: string) {
    var parts := Split(line, '.');
    |parts| >= 3 && IsDigits(parts[0]) && IsDigits(parts[1]) && IsDigits(parts[2])
  }

  /** The text of the warning about version entry `v`, which it quotes unstripped. */
  function VersionMessage(v: string): string {
    VersionMessagePrefix + v + VersionMessageSuffix
  }

  const VersionMessagePrefix := "OCP version \""
  const VersionMessageSuffix := "\" may not be in the expected format (e.g., 4.14.1)"

  /** The warning one entry of `ocp_versions` contributes; blank entries are skipped. */
  function VersionWarning(v: string): Option<string> {
    if Strip(v) == "" then None
    else if !ReleaseShaped(Strip(v)) then Some(VersionMessage(v))
    else None
  }

  /** Different entries give different warnings. */
  lemma VersionMessageInjective(v: string, u: string)
    requires VersionMessage(v) == VersionMessage(u)
    ensures v == u
  {
    var w, p, q := VersionMessage(v), VersionMessagePrefix, VersionMessageSuffix;
    assert v == w[|p|..|w| - |q|];
    assert u == w[|p|..|w| - |q|];
  }

  /** The warning one entry of `additional_images` contributes; blank entries are skipped. */
  function ImageWarning(image: string): Option<string> {
    if Strip(image) == "" then None
    else if !HasChar(image, ':') then Some("Image \"" + image + "\" may be missing a tag (e.g., :latest)")
    else None
  }

  /** The catalog is checked only when given; it must start with a scheme or with `registry.`. */
  function CatalogWarnings(catalog: Option<string>): seq<string> {
    if Given(catalog) && !(StartsWith(catalog.value, "http://") || StartsWith(catalog.value, "https://")
      || StartsWith(catalog.value, "registry."))
    then [CatalogWarning]
    else []
  }

  /** The errors of one chart: a missing or empty name, then a missing or empty repository. */
  function ChartErrors(chart: ChartInput): seq<string> {
    (if Given(chart.name) then [] else [ChartNameError])
    + (if Given(chart.repository) then [] else [ChartRepositoryError])
  }

  /** The errors of the charts, in order. */
  function ChartsErrors(charts: seq<ChartInput>): seq<string>
    decreases |charts|
  {
    if |charts| == 0 then [] else ChartsErrors(charts[..|charts| - 1]) + ChartErrors(charts[|charts| - 1])
  }

  /** The errors, in the order they are appended: the section check, then the charts. */
  function RequestErrors(req: Request): seq<string> {
    (if AnySection(req) then [] else [NoSectionError])
    + (if Present(req.helmCharts) then ChartsErrors(req.helmCharts.value) else [])
  }

  /** The warnings, in the order they are appended: versions, the catalog, then images. */
  function RequestWarnings(req: Request): seq<string> {
    (if Present(req.ocpVersions) then Collect(req.ocpVersions.value, VersionWarning) else [])
    + CatalogWarnings(req.operatorCatalog)
    + (if Present(req.additionalImages) then Collect(req.additionalImages.value, ImageWarning) else [])
  }

  /** The reply of `validate_config`; `None` stands for a missing body or an empty object. */
  function ValidationFrom(data: Option<Request>): ValidationReply {
    match data
    case None => ValidationNoData("No data provided")
    case Some(req) => Validation(|RequestErrors(req)| == 0, RequestErrors(req), RequestWarnings(req))
  }

  /** `validate_config`: the section check, then one loop per section appending errors and warnings. */
  method ValidateConfig(data: Option<Request>) returns (reply: ValidationReply)
    ensures reply == ValidationFrom(data)
  {
    if data.None? {
      return ValidationNoData("No data provided");
    }
    var req := data.value;
    var errors: seq<string> := [];
    if !AnySection(req) {
      errors := errors + [NoSectionError];
    }
    var warnings := CollectWarnings(req);
    if Present(req.helmCharts) {
      var found := CheckCharts(req.helmCharts.value);
      errors := errors + found;
    }
    assert errors == RequestErrors(req);
    reply := Validation(|errors| == 0, errors, warnings);
  }

  /** The warning checks of `validate_config`: versions, the catalog, then images. */
  method CollectWarnings(req: Request) returns (warnings: seq<string>)
    ensures warnings == RequestWarnings(req)
  {
    warnings := [];
    if Present(req.ocpVersions) {
      warnings := VersionWarnings(req.ocpVersions.value);
    }
    if Given(req.operatorCatalog) {
      var catalog := req.operatorCatalog.value;
      if !(StartsWith(catalog, "http://") || StartsWith(catalog, "https://") || StartsWith(catalog, "registry.")) {
        warnings := warnings + [CatalogWarning];
      }
    }
    assert warnings == (if Present(req.ocpVersions) then Collect(req.ocpVersions.value, VersionWarning) else [])
      + CatalogWarnings(req.operatorCatalog);
    if Present(req.additionalImages) {
      var found := ImageWarnings(req.additionalImages.value);
      warnings := warnings + found;
    }
  }

  /** The loop over `ocp_versions`. */
  method VersionWarnings(versions: seq<string>) returns (warnings: seq<string>)
    ensures warnings == Collect(versions, VersionWarning)
  {
    warnings := [];
    for i := 0 to |versions|
      invariant warnings == Collect(versions[..i], VersionWarning)
    {
      CollectStep(versions, i, VersionWarning);
      var line := Strip(versions[i]);
      if line != "" {
        var parts := Split(line, '.');
        if |parts| < 3 || !(IsDigits(parts[0]) && IsDigits(parts[1]) && IsDigits(parts[2])) {
          warnings := warnings + [VersionMessage(versions[i])];
        }
      }
    }
    assert versions[..|versions|] == versions;
  }

  /** The loop over `additional_images`. */
  method ImageWarnings(images: seq<string>) returns (warnings: seq<string>)
    ensures warnings == Collect(images, ImageWarning)
  {
    warnings := [];
    for i := 0 to |images|
      invariant warnings == Collect(images[..i], ImageWarning)
    {
      CollectStep(images, i, ImageWarning);
      if Strip(images[i]) != "" && !HasChar(images[i], ':') {
        warnings := warnings + ["Image \"" + images[i] + "\" may be missing a tag (e.g., :latest)"];
      }
    }
    assert images[..|images|] == images;
  }

  /** The loop over `helm_charts`. */
  method CheckCharts(charts: seq<ChartInput>) returns (errors: seq<string>)
    ensures errors == ChartsErrors(charts)
  {
    errors := [];
    for i := 0 to |charts|
      invariant errors == ChartsErrors(charts[..i])
    {
      assert charts[..i + 1][..i] == charts[..i];
      if !Given(charts[i].name) {
        errors := errors + [ChartNameError];
      }
      if !Given(charts[i].repository) {
        errors := errors + [ChartRepositoryError];
      }
    }
    assert charts[..|charts|] == charts;
  }

  /** The charts raise no error exactly when each has a non-empty name and repository. */
  lemma {:induction false} ChartsErrorsEmpty(charts: seq<ChartInput>)
    ensures ChartsErrors(charts) == [] <==>
      forall t :: 0 <= t < |charts| ==> Given(charts[t].name) && Given(charts[t].repository)
    decreases |charts|
  {
    if |charts| > 0 {
      var init := charts[..|charts| - 1];
      ChartsErrorsEmpty(init);
      assert forall t :: 0 <= t < |init| ==> init[t] == charts[t];
    }
  }

  /** Every error is one of the three messages, and each chart lacking a name or a repository is reported. */
  lemma {:induction false} ChartsErrorsMessages(charts: seq<ChartInput>)
    ensures forall e :: e in ChartsErrors(charts) ==> e == ChartNameError || e == ChartRepositoryError
    ensures (exists t :: 0 <= t < |charts| && !Given(charts[t].name)) <==> ChartNameError in ChartsErrors(charts)
    ensures (exists t :: 0 <= t < |charts| && !Given(charts[t].repository)) <==> ChartRepositoryError in ChartsErrors(charts)
    decreases |charts|
  {
    if |charts| > 0 {
      var init := charts[..|charts| - 1];
      ChartsErrorsMessages(init);
      assert forall t :: 0 <= t < |init| ==> init[t] == charts[t];
      assert ChartsErrors(charts) == ChartsErrors(init) + ChartErrors(charts[|charts| - 1]);
    }
  }

  /**
   * The configuration is valid exactly when some section is present and,
   * if charts are given, each has a name and a repository; malformed
   * versions, images or catalogs only ever add warnings.
   */
  lemma ValidIff(req: Request)
    ensures ValidationFrom(Some(req)).valid <==>
      AnySection(req) && forall t :: 0 <= t < |Items(req.helmCharts)| ==>
        Given(req.helmCharts.value[t].name) && Given(req.helmCharts.value[t].repository)
    ensures ValidationFrom(Some(req)).valid <==> ValidationFrom(Some(req)).errors == []
  {
    if Present(req.helmCharts) {
      ChartsErrorsEmpty(req.helmCharts.value);
    }
  }

  /** Every error is one of the fixed messages, and the section error comes first when there is one. */
  lemma ValidationErrors(req: Request)
    ensures var errors := ValidationFrom(Some(req)).errors;
      (forall e :: e in errors ==> e == NoSectionError || e == ChartNameError || e == ChartRepositoryError)
      && (NoSectionError in errors <==> !AnySection(req))
      && (!AnySection(req) ==> errors == [NoSectionError])
  {
    if Present(req.helmCharts) {
      ChartsErrorsMessages(req.helmCharts.value);
    }
  }

  /** A non-blank version is warned about exactly when its stripped text is not `X.Y.Z...` with digit parts. */
  lemma VersionWarned(versions: seq<string>, v: string)
    requires v in versions && Strip(v) != ""
    ensures VersionMessage(v) in Collect(versions, VersionWarning) <==> !ReleaseShaped(Strip(v))
  {
    var w := VersionMessage(v);
    CollectMembers(versions, VersionWarning, w);
    if w in Collect(versions, VersionWarning) {
      var k :| 0 <= k < |versions| && VersionWarning(versions[k]) == Some(w);
      VersionMessageInjective(versions[k], v);
    } else {
      var k :| 0 <= k < |versions| && versions[k] == v;
      assert VersionWarning(versions[k]) != Some(w);
    }
  }

  /** A full `major.minor.patch` release, digits only, draws no warning. */
  lemma ReleaseNotWarned(a: string, b: string, c: string)
    requires IsDigits(a) && IsDigits(b) && IsDigits(c)
    ensures VersionWarning(a + "." + b + "." + c) == None
  {
    var s := a + "." + b + "." + c;
    assert s[0] == a[0] && s[|s| - 1] == c[|c| - 1];
    StripFixed(s);
    SplitDigitsThree(a, b, c);
  }

  /** A bare `major.minor` has only two parts and draws a warning. */
  lemma MinorWarned(a: string, b: string)
    requires IsDigits(a) && IsDigits(b)
    ensures VersionWarning(a + "." + b).Some?
  {
    var s := a + "." + b;
    assert s[0] == a[0] && s[|s| - 1] == b[|b| - 1];
    StripFixed(s);
    SplitDigitsTwo(a, b);
  }

  // ---------------------------------------------------------------------
  // POST /api/generate/preview
  // ---------------------------------------------------------------------

  datatype PreviewReply =
    | Preview(yaml: string, timestamp: string)
    | PreviewNoData(error: string)  // 400
    | PreviewFailed(error: string)  // 500

  /** The message of the `KeyError` that a chart without a name raises. */
  const MissingNameFailure := "Failed to generate preview: 'name'"

  /** The platform section is touched when versions or a bound are given. */
  predicate OcpRequested(req: Request) {
    Present(req.ocpVersions) || Given(req.ocpMinVersion) || Given(req.ocpMaxVersion)
  }

  /** `data.get('ocp_channel', 'stable-4.14')`. */
  function RequestChannel(req: Request): string {
    if req.ocpChannel.Some? then req.ocpChannel.value else DefaultChannel
  }

  /** The legacy versions list: the stripped non-blank entries, `[]` when there are none. */
  function LegacyVersions(req: Request): seq<string> {
    if Present(req.ocpVersions) then StrippedNonBlank(req.ocpVersions.value) else []
  }

  /** The catalogs the operators go to: `operator_catalogs`, else `[operator_catalog]`, else the Red Hat index. */
  function RequestCatalogs(req: Request): (catalogs: seq<string>)
    ensures |catalogs| >= 1
    ensures Present(req.operatorCatalogs) ==> catalogs == req.operatorCatalogs.value
    ensures !Present(req.operatorCatalogs) && Given(req.operatorCatalog) ==> catalogs == [req.operatorCatalog.value]
    ensures !Present(req.operatorCatalogs) && !Given(req.operatorCatalog) ==> catalogs == [DefaultCatalog]
  {
    if Present(req.operatorCatalogs) then req.operatorCatalogs.value
    else if Given(req.operatorCatalog) then [req.operatorCatalog.value]
    else [DefaultCatalog]
  }

  /** Each name passed to `add_operators` is a plain string. */
  function ByNames(names: seq<string>): (ops: seq<OperatorInput>)
    ensures |ops| == |names|
    ensures forall i :: 0 <= i < |names| ==> ops[i] == ByName(names[i])
  {
    seq(|names|, i requires 0 <= i < |names| => ByName(names[i]))
  }

  /** The block `add_operators(names, catalog.strip())` appends when `names` is not empty. */
  function BlockFor(names: seq<string>, catalog: string): OperatorCatalog {
    OperatorCatalog(CatalogFor(Strip(catalog), None), Packages(ByNames(names), []))
  }

  /** The configuration after `add_operators(names, catalog.strip())` for each catalog in turn. */
  function WithOperatorBlocks(c: Config, names: seq<string>, catalogs: seq<string>): Config
    decreases |catalogs|
  {
    if |catalogs| == 0 || |names| == 0 then c
    else WithOperatorCatalog(WithOperatorBlocks(c, names, catalogs[..|catalogs| - 1]), BlockFor(names, catalogs[|catalogs| - 1]))
  }

  /** `c0` after the platform entry, if one is asked for. */
  function PlatformOf(req: Request, c0: Config): Config {
    var entry := OcpChannelEntry(LegacyVersions(req), RequestChannel(req), req.ocpMinVersion, req.ocpMaxVersion);
    if OcpRequested(req) && entry.Some? then WithPlatformChannel(c0, entry.value) else c0
  }

  /** `c0` after the platform, operator and image sections of a request, the order `generate_preview` adds them in. */
  function SectionsOf(req: Request, c0: Config): Config {
    var c1 := PlatformOf(req, c0);
    var c2 := if Present(req.operators) then WithOperatorBlocks(c1, StrippedNonBlank(req.operators.value), RequestCatalogs(req)) else c1;
    var images := if Present(req.additionalImages) then StrippedNonBlank(req.additionalImages.value) else [];
    c2.(mirror := c2.mirror.(additionalImages := c2.mirror.additionalImages + images))
  }

  /**
   * The configuration `generate_preview` builds from a request, or `None`
   * when `add_helm_charts` raises on a chart without a name.
   */
  function PreviewConfig(req: Request, generatedAt: string): Option<Config> {
    var c3 := SectionsOf(req, InitialConfig(generatedAt));
    var charts := if Present(req.helmCharts) then AddCharts(c3.mirror.helm, req.helmCharts.value) else (c3.mirror.helm, true);
    if !charts.1 then None
    else
      var c4 := c3.(mirror := c3.mirror.(helm := charts.0));
      Some(if req.kubevirtContainer then c4.(mirror := c4.mirror.(platform := c4.mirror.platform.(kubeVirtContainer := true))) else c4)
  }

  /**
   * The reply of `generate_preview`. `generatedAt` and `now` stand for the
   * two clock readings, `dump` for `yaml.dump`.
   */
  function PreviewFrom(data: Option<Request>, generatedAt: string, now: string, dump: Document -> string): PreviewReply {
    match data
    case None => PreviewNoData("No data provided")
    case Some(req) =>
      match PreviewConfig(req, generatedAt)
      case None => PreviewFailed(MissingNameFailure)
      case Some(c) => Preview(YamlText(CommentLines(c.metadata), dump(Flatten(c))), now)
  }

  /** `generate_preview`: a fresh generator, one call per section present, then `generate_yaml`. */
  method GeneratePreview(data: Option<Request>, generatedAt: string, now: string, dump: Document -> string)
    returns (reply: PreviewReply)
    ensures reply == PreviewFrom(data, generatedAt, now, dump)
  {
    if data.None? {
      return PreviewNoData("No data provided");
    }
    var req := data.value;
    var generator := new ImageSetGenerator(generatedAt);
    ghost var c := PreviewConfig(req, generatedAt);
    AddSections(generator, req);
    ghost var c3 := generator.config;
    if Present(req.helmCharts) {
      var ok := generator.AddHelmCharts(req.helmCharts.value);
      if !ok {
        assert c.None?;
        return PreviewFailed(MissingNameFailure);
      }
    }
    assert c.Some? && generator.config == c3.(mirror := c3.mirror.(helm := generator.config.mirror.helm));
    if req.kubevirtContainer {
      generator.SetKubevirtContainer(true);
    }
    assert generator.config == c.value;
    var yaml := generator.GenerateYaml(dump);
    reply := Preview(yaml, now);
  }

  /** The platform, operator and image calls of `generate_preview`, each made only when its section is present. */
  method AddSections(generator: ImageSetGenerator, req: Request)
    requires generator.Valid()
    modifies generator
    ensures generator.Valid()
    ensures generator.config == SectionsOf(req, old(generator.config))
  {
    if OcpRequested(req) {
      generator.AddOcpVersions(LegacyVersions(req), RequestChannel(req), req.ocpMinVersion, req.ocpMaxVersion);
    }
    if Present(req.operators) {
      AddOperatorsToCatalogs(generator, StrippedNonBlank(req.operators.value), RequestCatalogs(req));
    }
    ghost var c2 := generator.config;
    if Present(req.additionalImages) {
      generator.AddAdditionalImages(StrippedNonBlank(req.additionalImages.value));
    } else {
      assert c2.mirror.additionalImages + [] == c2.mirror.additionalImages;
    }
  }

  /** The loop `for catalog in catalogs: generator.add_operators(operators, catalog.strip())`. */
  method AddOperatorsToCatalogs(generator: ImageSetGenerator, names: seq<string>, catalogs: seq<string>)
    requires generator.Valid()
    modifies generator
    ensures generator.Valid()
    ensures generator.config == WithOperatorBlocks(old(generator.config), names, catalogs)
  {
    for i := 0 to |catalogs|
      invariant generator.Valid()
      invariant generator.config == WithOperatorBlocks(old(generator.config), names, catalogs[..i])
    {
      assert catalogs[..i + 1][..i] == catalogs[..i];
      generator.AddOperators(ByNames(names), Strip(catalogs[i]), [], None);
    }
    assert catalogs[..|catalogs|] == catalogs;
  }

  /** One block per catalog, in order, each holding every name; none at all when there are no names. */
  function Blocks(names: seq<string>, catalogs: seq<string>): (bs: seq<OperatorCatalog>)
    ensures |bs| == if |names| == 0 then 0 else |catalogs|
    ensures |names| > 0 ==> forall i :: 0 <= i < |catalogs| ==> bs[i] == BlockFor(names, catalogs[i])
  {
    if |names| == 0 then [] else Map(catalog => BlockFor(names, catalog), catalogs)
  }

  /** The loop over the catalogs appends `Blocks(names, catalogs)` to the operator blocks and changes nothing else. */
  lemma {:induction false} OperatorBlocksAppended(c: Config, names: seq<string>, catalogs: seq<string>)
    ensures WithOperatorBlocks(c, names, catalogs) == c.(mirror := c.mirror.(operators := c.mirror.operators + Blocks(names, catalogs)))
    decreases |catalogs|
  {
    if |catalogs| > 0 && |names| > 0 {
      var init := catalogs[..|catalogs| - 1];
      var last := BlockFor(names, catalogs[|init|]);
      assert WithOperatorBlocks(c, names, catalogs) == WithOperatorCatalog(WithOperatorBlocks(c, names, init), last);
      OperatorBlocksAppended(c, names, init);
      BlocksSnoc(names, catalogs);
      AppendBlock(c, Blocks(names, init), last);
    } else {
      assert c.mirror.operators + Blocks(names, catalogs) == c.mirror.operators;
    }
  }

  /** One more catalog adds its block at the end. */
  lemma BlocksSnoc(names: seq<string>, catalogs: seq<string>)
    requires |names| > 0 && |catalogs| > 0
    ensures Blocks(names, catalogs) == Blocks(names, catalogs[..|catalogs| - 1]) + [BlockFor(names, catalogs[|catalogs| - 1])]
  {
    MapSnoc(catalog => BlockFor(names, catalog), catalogs);
  }

  /** Appending a block after some appended blocks is appending them all at once. */
  lemma AppendBlock(c: Config, bs: seq<OperatorCatalog>, b: OperatorCatalog)
    ensures WithOperatorCatalog(c.(mirror := c.mirror.(operators := c.mirror.operators + bs)), b)
         == c.(mirror := c.mirror.(operators := c.mirror.operators + (bs + [b])))
  {
    assert c.mirror.operators + bs + [b] == c.mirror.operators + (bs + [b]);
  }

  /** The block for a catalog names the stripped catalog and holds one package per name, in order. */
  lemma BlockContents(names: seq<string>, catalog: string)
    ensures BlockFor(names, catalog).catalog == Strip(catalog)
    ensures |BlockFor(names, catalog).packages| == |names|
    ensures forall i :: 0 <= i < |names| ==> BlockFor(names, catalog).packages[i] == PackageFor(ByName(names[i]), []).value
  {
    var ops := ByNames(names);
    assert forall i :: 0 <= i < |ops| ==> ops[i] == ByName(names[i]);
    PackagesOneToOne(ops, []);
  }

  /** A request without a body is refused, and one whose charts all have names always produces a document. */
  lemma PreviewOutcome(data: Option<Request>, generatedAt: string, now: string, dump: Document -> string)
    ensures PreviewFrom(data, generatedAt, now, dump).PreviewNoData? <==> data.None?
    ensures PreviewFrom(data, generatedAt, now, dump).PreviewFailed? <==>
      data.Some? && Present(data.value.helmCharts)
      && exists t :: 0 <= t < |data.value.helmCharts.value| && data.value.helmCharts.value[t].name.None?
    ensures PreviewFrom(data, generatedAt, now, dump).PreviewFailed? ==>
      PreviewFrom(data, generatedAt, now, dump).error == MissingNameFailure
  {
    if data.Some? && Present(data.value.helmCharts) {
      var req := data.value;
      var c3 := SectionsOf(req, InitialConfig(generatedAt));
      AddChartsOkIff(c3.mirror.helm, req.helmCharts.value);
    }
  }

  /**
   * A document that is produced holds what the request asked for: the
   * platform entry of `add_ocp_versions`, one operator block per catalog,
   * the stripped non-blank images, and the KubeVirt flag.
   */
  lemma PreviewContents(req: Request, generatedAt: string, c: Config)
    requires PreviewConfig(req, generatedAt) == Some(c)
    ensures var entry := OcpChannelEntry(LegacyVersions(req), RequestChannel(req), req.ocpMinVersion, req.ocpMaxVersion);
      c.mirror.platform.channels == (if OcpRequested(req) && entry.Some? then [entry.value] else [])
    ensures c.mirror.additionalImages == (if Present(req.additionalImages) then StrippedNonBlank(req.additionalImages.value) else [])
    ensures c.mirror.platform.kubeVirtContainer == req.kubevirtContainer
    ensures c.metadata == InitialMetadata(generatedAt) && c.archiveSize.None?
    ensures c.mirror.operators == Blocks(if Present(req.operators) then StrippedNonBlank(req.operators.value) else [], RequestCatalogs(req))
  {
    var c1 := PlatformOf(req, InitialConfig(generatedAt));
    if Present(req.operators) {
      OperatorBlocksAppended(c1, StrippedNonBlank(req.operators.value), RequestCatalogs(req));
    }
  }

  /** With no channel, no bounds and versions such as ` 4.16.2 `, the channel is `stable-4.16`. */
  lemma PreviewDefaultChannel(req: Request, generatedAt: string, a: string, b: string, rest: string)
    requires req.ocpChannel.None? && !Given(req.ocpMinVersion) && !Given(req.ocpMaxVersion)
    requires |LegacyVersions(req)| > 0 && LegacyVersions(req)[0] == a + "." + b + "." + rest
    requires !HasChar(a, '.') && !HasChar(b, '.')
    ensures OcpChannelEntry(LegacyVersions(req), RequestChannel(req), req.ocpMinVersion, req.ocpMaxVersion).value.name
      == "stable-" + a + "." + b
  {
    LegacyChannelName(LegacyVersions(req), a, b, rest);
  }
}
