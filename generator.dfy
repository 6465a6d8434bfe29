/**
 * `ImageSetGenerator`: a builder for an `ImageSetConfiguration` document
 * (the input of `oc-mirror`). The document is one nested record that the
 * `add_*` and `set_*` methods change in place; `generate_yaml` reads it,
 * hoists `spec` to the root and turns `metadata` into `# key: value`
 * comment lines placed in front of the serialised body.
 */
module Generator {
  import opened Wrappers
  import opened Text
  import opened Ordering
  import Constants

  const ApiVersion: string := "mirror.openshift.io/v1alpha2"
  const Kind: string := "ImageSetConfiguration"
  /** The default `channel` argument of `add_ocp_versions`; left at this value, the channel is derived from the versions. */
  const DefaultChannel: string := "stable-4.14"
  /** The default `catalog` argument of `add_operators`, `registry.redhat.io/redhat/redhat-operator-index`, written by its parts. */
  const DefaultCatalog: string := "registry.redhat.io/" + "redhat" + "/" + "redhat-operator-index"

  // ---------------------------------------------------------------------
  // The document
  // ---------------------------------------------------------------------

  /** A metadata value: a plain value, or a nested mapping such as `labels`. */
  datatype MetaValue = Scalar(text: string) | Mapping(entries: seq<(string, string)>)

  /** `metadata`, in key insertion order. */
  type Metadata = seq<(string, MetaValue)>

  /** One `platform.channels` entry; its `type` is always `ocp`. Absent bounds are `None`. */
  datatype PlatformChannel = PlatformChannel(name: string, minVersion: Option<string>, maxVersion: Option<string>)

  /** `platform`; `kubeVirtContainer` is true exactly when that key is present (it is only ever set to `True`). */
  datatype Platform = Platform(channels: seq<PlatformChannel>, graph: bool, kubeVirtContainer: bool)

  /** One `packages` entry; `channel == Some(c)` stands for `channels: [{name: c}]`. */
  datatype Package = Package(name: string, minVersion: Option<string>, maxVersion: Option<string>, channel: Option<string>)

  /** One `operators` entry. */
  datatype OperatorCatalog = OperatorCatalog(catalog: string, packages: seq<Package>)

  datatype HelmChart = HelmChart(name: string, version: string)

  /** `helm`: repository key to the charts filed under it, in key insertion order. */
  type Helm = seq<(string, seq<HelmChart>)>

  /** `spec.mirror`; each additional image `img` stands for `{name: img}`. */
  datatype Mirror = Mirror(platform: Platform, operators: seq<OperatorCatalog>, additionalImages: seq<string>, helm: Helm)

  /** The whole document; `archiveSize` is `spec.archiveSize`, absent until set. */
  datatype Config = Config(apiVersion: string, kind: string, metadata: Metadata, mirror: Mirror, archiveSize: Option<int>)

  /** What `generate_yaml` hands to the serialiser: the root with `spec`'s keys hoisted into it and `metadata` removed. */
  datatype Document = Document(apiVersion: string, kind: string, mirror: Mirror, archiveSize: Option<int>)

  function InitialMetadata(generatedAt: string): Metadata {
    [("name", Scalar("openshift-imageset")),
     ("labels", Mapping([("generated-by", "imageset-generator"), ("generated-at", generatedAt)]))]
  }

  function InitialConfig(generatedAt: string): Config {
    Config(ApiVersion, Kind, InitialMetadata(generatedAt), Mirror(Platform([], true, false), [], [], []), None)
  }

  /** Python truthiness of an optional string: present and not empty. */
  predicate Given(o: Option<string>) {
    o.Some? && o.value != ""
  }

  // ---------------------------------------------------------------------
  // add_ocp_versions
  // ---------------------------------------------------------------------

  /** `".".join(v.split(".")[:2])`: the first two dot-separated parts. */
  function MajorMinor(v: string): string {
    var parts := Split(v, '.');
    Join(if |parts| <= 2 then parts else parts[..2], '.')
  }

  /**
   * The platform channel entry `add_ocp_versions` appends, or `None` when it
   * appends nothing. Explicit bounds win over the versions list; the versions
   * list yields its string-order minimum and maximum.
   */
  function OcpChannelEntry(versions: seq<string>, channel: string, minVersion: Option<string>, maxVersion: Option<string>): (r: Option<PlatformChannel>)
    ensures r.None? <==> !Given(minVersion) && !Given(maxVersion) && |versions| == 0
    ensures r.Some? && (Given(minVersion) || Given(maxVersion)) ==>
      r.value.name == channel && (Given(r.value.minVersion) <==> Given(minVersion)) && (Given(r.value.maxVersion) <==> Given(maxVersion))
    ensures r.Some? && Given(minVersion) ==> r.value.minVersion == minVersion
    ensures r.Some? && Given(maxVersion) ==> r.value.maxVersion == maxVersion
    ensures r.Some? && Given(maxVersion) && !Given(minVersion) ==> r.value.minVersion.None?
    ensures r.Some? && Given(minVersion) && !Given(maxVersion) ==> r.value.maxVersion.None?
    ensures r.Some? && !Given(minVersion) && !Given(maxVersion) ==>
      r.value.minVersion.Some? && r.value.minVersion.value in versions && r.value.maxVersion.Some? && r.value.maxVersion.value in versions
  {
    if Given(minVersion) || Given(maxVersion) then
      Some(PlatformChannel(channel, if Given(minVersion) then minVersion else None, if Given(maxVersion) then maxVersion else None))
    else if |versions| > 0 then
      var name := if channel == DefaultChannel then "stable-" + MajorMinor(versions[0]) else channel;
      Some(PlatformChannel(name, Some(MinStr(versions)), Some(MaxStr(versions))))
    else
      None
  }

  /** The numerically least and greatest of `versions`: the range the legacy path evidently means. */
  function NumericRange(versions: seq<string>): (r: (string, string))
    requires |versions| > 0
    ensures r.0 in versions && r.1 in versions
    ensures LexLe(VersionNumbers(r.0), VersionNumbers(r.1))
    ensures forall v :: v in versions ==> LexLe(VersionNumbers(r.0), VersionNumbers(v)) && LexLe(VersionNumbers(v), VersionNumbers(r.1))
  {
    var lo := MinBy(versions, VersionNumbers);
    var hi := MaxBy(versions, VersionNumbers);
    (lo, hi)
  }

  /** `OcpChannelEntry` with the legacy bounds compared as version numbers instead of as strings. */
  function OcpChannelEntryNumeric(versions: seq<string>, channel: string, minVersion: Option<string>, maxVersion: Option<string>): (r: Option<PlatformChannel>)
    ensures r.None? <==> !Given(minVersion) && !Given(maxVersion) && |versions| == 0
    ensures r.Some? && !Given(minVersion) && !Given(maxVersion) ==>
      r.value.minVersion.Some? && r.value.maxVersion.Some? && LexLe(VersionNumbers(r.value.minVersion.value), VersionNumbers(r.value.maxVersion.value))
  {
    if Given(minVersion) || Given(maxVersion) || |versions| == 0 then OcpChannelEntry(versions, channel, minVersion, maxVersion)
    else
      var name := if channel == DefaultChannel then "stable-" + MajorMinor(versions[0]) else channel;
      var range := NumericRange(versions);
      Some(PlatformChannel(name, Some(range.0), Some(range.1)))
  }

  /** `c` with `entry` appended to the platform channels. */
  function WithPlatformChannel(c: Config, entry: PlatformChannel): Config {
    c.(mirror := c.mirror.(platform := c.mirror.platform.(channels := c.mirror.platform.channels + [entry])))
  }

  // ---------------------------------------------------------------------
  // add_operators
  // ---------------------------------------------------------------------

  /** The alias table written out inside `add_operators`. */
  const InlineOperatorMappings: seq<(string, string)> := [
    ("logging", "cluster-logging"),
    ("logging-operator", "cluster-logging"),
    ("monitoring", "cluster-monitoring-operator"),
    ("cluster-monitoring", "cluster-monitoring-operator"),
    ("service-mesh", "servicemeshoperator"),
    ("istio", "servicemeshoperator"),
    ("serverless", "serverless-operator"),
    ("knative", "serverless-operator"),
    ("pipelines", "openshift-pipelines-operator-rh"),
    ("tekton", "openshift-pipelines-operator-rh"),
    ("gitops", "openshift-gitops-operator"),
    ("argocd", "openshift-gitops-operator"),
    ("storage", "odf-operator"),
    ("ocs", "odf-operator"),
    ("ceph", "odf-operator"),
    ("elasticsearch", "elasticsearch-operator"),
    ("jaeger", "jaeger-product"),
    ("kiali", "kiali-ossm")
  ]

  /**
   * An element of the `operators` argument: a plain name, a dict (each key
   * `None` when absent), or anything else, which is skipped.
   */
  datatype OperatorInput =
    | ByName(name: string)
    | BySpec(specName: Option<string>, minVersion: Option<string>, maxVersion: Option<string>, channel: Option<string>)
    | Unsupported

  /** A character of the version tag `[\d.]`. */
  predicate IsTagChar(c: char) { IsDigit(c) || c == '.' }

  /** Where a pattern anchored with `$` may end: before a final newline if there is one. */
  function TagEnd(s: string): (e: nat)
    ensures e <= |s|
  {
    if |s| > 0 && s[|s| - 1] == '\n' then |s| - 1 else |s|
  }

  /** `re.sub(r":v[\d.]+$", "", s)`. */
  function RemoveVersionTag(s: string): (r: string)
    ensures |r| <= |s|
  {
    var e := TagEnd(s);
    var d := SkipBackWhile(s, e, IsTagChar);
    if 2 <= d < e && s[d - 2] == ':' && s[d - 1] == 'v' then s[..d - 2] + s[e..] else s
  }

  /** `s` is `base`, then the tag `:v<tag>`, then an optional final newline. */
  ghost predicate TaggedAs(s: string, base: string, tag: string, nl: string) {
    |tag| > 0 && All(tag, IsTagChar) && (nl == "" || nl == "\n") && s == base + ":v" + tag + nl
  }

  /** The catalog `add_operators` writes: with `ocp_version` given, the trailing tag is replaced by `:v<ocp_version>`. */
  function CatalogFor(catalog: string, ocpVersion: Option<string>): (r: string)
    ensures !Given(ocpVersion) ==> r == catalog
    ensures Given(ocpVersion) ==> |r| >= |ocpVersion.value| + 2 && r[|r| - |ocpVersion.value| - 2..] == ":v" + ocpVersion.value
  {
    if Given(ocpVersion) then RemoveVersionTag(catalog) + ":v" + ocpVersion.value else catalog
  }

  /** The optional fields of a package that are present are not empty. */
  predicate OptionalsGiven(p: Package) {
    (p.minVersion.Some? ==> p.minVersion.value != "")
    && (p.maxVersion.Some? ==> p.maxVersion.value != "")
    && (p.channel.Some? ==> p.channel.value != "")
  }

  /** `channels` (a dict of operator name to channel) holds `value` under some key. */
  predicate HasValue(channels: seq<(string, string)>, value: string) {
    exists i :: 0 <= i < |channels| && channels[i].1 == value
  }

  /** The package entry one element of `operators` contributes, or `None` when the element is skipped. */
  function PackageFor(op: OperatorInput, channels: seq<(string, string)>): (r: Option<Package>)
    ensures r.Some? <==> !op.Unsupported?
    ensures r.Some? ==> OptionalsGiven(r.value)
    ensures r.Some? && r.value.channel.Some? ==>
      (op.BySpec? && op.channel == r.value.channel) || HasValue(channels, r.value.channel.value)
    ensures op.ByName? ==> r.value.minVersion.None? && r.value.maxVersion.None?
  {
    match op
    case ByName(n) => Some(PackageByName(n, channels))
    case BySpec(specName, minVersion, maxVersion, channel) => Some(PackageBySpec(specName, minVersion, maxVersion, channel, channels))
    case Unsupported => None
  }

  /** A bare name: mapped through the inline table, with the channel looked up by the name as given, then as mapped. */
  function PackageByName(n: string, channels: seq<(string, string)>): (p: Package)
    ensures OptionalsGiven(p) && p.minVersion.None? && p.maxVersion.None?
    ensures p.channel.Some? ==> HasValue(channels, p.channel.value)
  {
    var name := Constants.Lookup(InlineOperatorMappings, Lower(n), n);
    var channel := ChannelLookup(channels, n, name);
    Package(name, None, None, if Given(channel) then channel else None)
  }

  /** `channels.get(op) or channels.get(name)`. */
  function ChannelLookup(channels: seq<(string, string)>, n: string, name: string): (r: Option<string>)
    ensures r.Some? ==> HasValue(channels, r.value)
  {
    var byOp := Constants.Get(channels, n);
    if Given(byOp) then byOp else Constants.Get(channels, name)
  }

  /** A package given by a dict: its own channel wins over the table's entry for its name. */
  function PackageBySpec(specName: Option<string>, minVersion: Option<string>, maxVersion: Option<string>,
                         channel: Option<string>, channels: seq<(string, string)>): (p: Package)
    ensures OptionalsGiven(p)
    ensures p.channel.Some? ==> channel == p.channel || HasValue(channels, p.channel.value)
  {
    var raw := if specName.Some? then specName.value else "";
    var name := Constants.Lookup(InlineOperatorMappings, Lower(raw), raw);
    var fromTable := if |channels| > 0 && specName.Some? then Constants.Get(channels, specName.value) else None;
    var chosen := if Given(channel) then channel else fromTable;
    Package(name, if Given(minVersion) then minVersion else None, if Given(maxVersion) then maxVersion else None,
            if Given(chosen) then chosen else None)
  }

  /** The `packages` list built from `operators`, in input order. */
  function Packages(operators: seq<OperatorInput>, channels: seq<(string, string)>): (ps: seq<Package>)
    ensures |ps| <= |operators|
    ensures forall i :: 0 <= i < |ps| ==> OptionalsGiven(ps[i])
    decreases |operators|
  {
    if |operators| == 0 then []
    else
      var ps := Packages(operators[..|operators| - 1], channels);
      match PackageFor(operators[|operators| - 1], channels)
      case Some(p) => ps + [p]
      case None => ps
  }

  /** `c` with one operator catalog block appended. */
  function WithOperatorCatalog(c: Config, block: OperatorCatalog): Config {
    c.(mirror := c.mirror.(operators := c.mirror.operators + [block]))
  }

  // ---------------------------------------------------------------------
  // add_helm_charts
  // ---------------------------------------------------------------------

  /** A chart dict; each key `None` when absent. */
  datatype ChartInput = ChartInput(name: Option<string>, repository: Option<string>, version: Option<string>)

  /** The helm key of a repository: `/` and `:` replaced by `-`; an absent repository gives `""`. */
  function RepoKey(repository: Option<string>): (k: string)
    ensures !HasChar(k, '/') && !HasChar(k, ':')
    ensures |k| == (if repository.Some? then |repository.value| else 0)
  {
    var r := if repository.Some? then repository.value else "";
    ReplaceChar(ReplaceChar(r, '/', '-'), ':', '-')
  }

  /** The chart entry filed for a named chart; the version defaults to `""`. */
  function ChartOf(c: ChartInput): HelmChart
    requires c.name.Some?
  {
    HelmChart(c.name.value, if c.version.Some? then c.version.value else "")
  }

  /** The index of repository `k` in `helm`, or -1. */
  function FindRepo(h: Helm, k: string): (i: int)
    ensures -1 <= i < |h|
    ensures 0 <= i ==> h[i].0 == k
    ensures i == -1 ==> forall j :: 0 <= j < |h| ==> h[j].0 != k
    decreases |h|
  {
    if |h| == 0 then -1
    else if h[|h| - 1].0 == k then |h| - 1
    else FindRepo(h[..|h| - 1], k)
  }

  /** The repository keys are distinct, as the keys of a dict are. */
  predicate DistinctRepos(h: Helm) {
    forall i, j :: 0 <= i < j < |h| ==> h[i].0 != h[j].0
  }

  /** `helm.setdefault(k, [])`. */
  function EnsureRepo(h: Helm, k: string): Helm {
    if FindRepo(h, k) < 0 then h + [(k, [])] else h
  }

  /** Creates repository `k` when it is new, then appends `c` to its charts. */
  function FileChart(h: Helm, k: string, c: HelmChart): Helm {
    var i := FindRepo(h, k);
    if i < 0 then h + [(k, [c])] else h[i := (k, h[i].1 + [c])]
  }

  /**
   * The helm mapping after `add_helm_charts(charts)`, and whether it returned
   * normally. A chart without a name raises `KeyError` after its repository
   * key has been created, leaving the charts before it filed.
   */
  function AddCharts(h: Helm, charts: seq<ChartInput>): (r: (Helm, bool))
    decreases |charts|
  {
    if |charts| == 0 then (h, true)
    else
      var k := RepoKey(charts[0].repository);
      if charts[0].name.None? then (EnsureRepo(h, k), false)
      else AddCharts(FileChart(h, k, ChartOf(charts[0])), charts[1..])
  }

  /** Chart `c` is filed under repository `k`. */
  predicate Filed(h: Helm, k: string, c: HelmChart) {
    exists j :: 0 <= j < |h| && h[j].0 == k && c in h[j].1
  }

  // ---------------------------------------------------------------------
  // generate_yaml
  // ---------------------------------------------------------------------

  /** The comment lines of one metadata entry. */
  function EntryComments(k: string, v: MetaValue): (lines: seq<string>)
    ensures |lines| == (if v.Scalar? then 1 else |v.entries|)
  {
    match v
    case Scalar(t) => ["# " + k + ": " + t]
    case Mapping(es) => seq(|es|, i requires 0 <= i < |es| => "# " + k + "." + es[i].0 + ": " + es[i].1)
  }

  /** The comment lines of the whole metadata, in key order. */
  function CommentLines(m: Metadata): (lines: seq<string>)
  {
    if |m| == 0 then [] else EntryComments(m[0].0, m[0].1) + CommentLines(m[1..])
  }

  /** Every comment line starts with `# `. */
  lemma {:induction false} CommentLinesMarked(m: Metadata)
    ensures forall i :: 0 <= i < |CommentLines(m)| ==> StartsWith(CommentLines(m)[i], "# ")
  {
    if |m| > 0 {
      CommentLinesMarked(m[1..]);
      var first := EntryComments(m[0].0, m[0].1);
      assert forall i :: 0 <= i < |first| ==> first[i][..2] == "# ";
    }
  }

  /** The root `generate_yaml` serialises: `spec`'s keys hoisted, `metadata` dropped. */
  function Flatten(c: Config): Document {
    Document(c.apiVersion, c.kind, c.mirror, c.archiveSize)
  }

  /** The comment block, a newline, then the body; just the body when there are no comments. */
  function YamlText(comments: seq<string>, body: string): (text: string)
    ensures |text| >= |body| && text[|text| - |body|..] == body
  {
    if |comments| > 0 then JoinWith(comments, "\n") + "\n" + body else body
  }

  // ---------------------------------------------------------------------
  // The builder
  // ---------------------------------------------------------------------

  class ImageSetGenerator {
    var config: Config

    /** The helm keys are distinct, as the keys of the dict they model are. */
    ghost predicate Valid()
      reads this
    {
      DistinctRepos(config.mirror.helm)
    }

    /** `generatedAt` stands for the `datetime.now().isoformat()` stamp. */
    constructor(generatedAt: string)
      ensures Valid()
      ensures config == InitialConfig(generatedAt)
    {
      config := InitialConfig(generatedAt);
    }

    method SetArchiveSize(size: int)
      requires Valid()
      modifies this
      ensures Valid()
      ensures config == old(config).(archiveSize := Some(size))
    {
      config := config.(archiveSize := Some(size));
    }

    /** `channel` defaults to `DefaultChannel`; `versions` is `[]` for `None`. */
    method AddOcpVersions(versions: seq<string>, channel: string, minVersion: Option<string>, maxVersion: Option<string>)
      requires Valid()
      modifies this
      ensures Valid()
      ensures var entry := OcpChannelEntry(versions, channel, minVersion, maxVersion);
        config == if entry.Some? then WithPlatformChannel(old(config), entry.value) else old(config)
    {
      var entry := OcpChannelEntry(versions, channel, minVersion, maxVersion);
      if entry.Some? {
        config := WithPlatformChannel(config, entry.value);
      }
    }

    /**
     * `catalog` defaults to `DefaultCatalog`; `channels` is `[]` for `None`.
     * Appends one block whose packages follow `operators` in order.
     */
    method AddOperators(operators: seq<OperatorInput>, catalog: string, channels: seq<(string, string)>, ocpVersion: Option<string>)
      requires Valid()
      modifies this
      ensures Valid()
      ensures |operators| == 0 ==> config == old(config)
      ensures |operators| > 0 ==>
        config == WithOperatorCatalog(old(config), OperatorCatalog(CatalogFor(catalog, ocpVersion), Packages(operators, channels)))
    {
      if |operators| == 0 {
        return;
      }
      var target := catalog;
      if Given(ocpVersion) {
        target := RemoveVersionTag(target);
        target := target + ":v" + ocpVersion.value;
      }
      var packages := BuildPackages(operators, channels);
      config := WithOperatorCatalog(config, OperatorCatalog(target, packages));
    }

    /** Appends one entry per image, in order, duplicates included. */
    method AddAdditionalImages(images: seq<string>)
      requires Valid()
      modifies this
      ensures Valid()
      ensures config == old(config).(mirror := old(config).mirror.(additionalImages := old(config).mirror.additionalImages + images))
    {
      if |images| == 0 {
        return;
      }
      var i := 0;
      while i < |images|
        invariant 0 <= i <= |images|
        invariant config == old(config).(mirror := old(config).mirror.(additionalImages := old(config).mirror.additionalImages + images[..i]))
      {
        assert images[..i + 1] == images[..i] + [images[i]];
        config := config.(mirror := config.mirror.(additionalImages := config.mirror.additionalImages + [images[i]]));
        i := i + 1;
      }
      assert images[..i] == images;
    }

    /**
     * Files each chart under its repository key. `ok` is false when a chart
     * without a name raised `KeyError`; the changes made before it remain.
     */
    method AddHelmCharts(charts: seq<ChartInput>) returns (ok: bool)
      requires Valid()
      modifies this
      ensures Valid()
      ensures (config.mirror.helm, ok) == AddCharts(old(config).mirror.helm, charts)
      ensures config == old(config).(mirror := old(config).mirror.(helm := config.mirror.helm))
    {
      var helm := config.mirror.helm;
      var i := 0;
      while i < |charts|
        invariant 0 <= i <= |charts|
        invariant DistinctRepos(helm)
        invariant AddCharts(helm, charts[i..]) == AddCharts(old(config).mirror.helm, charts)
        invariant config == old(config)
      {
        var chart := charts[i];
        assert charts[i..][0] == chart && charts[i..][1..] == charts[i + 1..];
        var key := RepoKey(chart.repository);
        var j := FindRepo(helm, key);
        if chart.name.None? {
          // The key was created before `chart["name"]` raised.
          if j < 0 {
            helm := helm + [(key, [])];
          }
          config := config.(mirror := config.mirror.(helm := helm));
          return false;
        }
        FileChartKeepsDistinct(helm, key, ChartOf(chart));
        if j < 0 {
          helm := helm + [(key, [ChartOf(chart)])];
        } else {
          helm := helm[j := (key, helm[j].1 + [ChartOf(chart)])];
        }
        i := i + 1;
      }
      config := config.(mirror := config.mirror.(helm := helm));
      ok := true;
    }

    /** `True` sets the key; `False` removes it when present. */
    method SetKubevirtContainer(enable: bool)
      requires Valid()
      modifies this
      ensures Valid()
      ensures config == old(config).(mirror := old(config).mirror.(platform := old(config).mirror.platform.(kubeVirtContainer := enable)))
    {
      if enable {
        config := config.(mirror := config.mirror.(platform := config.mirror.platform.(kubeVirtContainer := true)));
      } else if config.mirror.platform.kubeVirtContainer {
        config := config.(mirror := config.mirror.(platform := config.mirror.platform.(kubeVirtContainer := false)));
      }
    }

    /**
     * The YAML text; `dump` stands for `yaml.dump` with insertion order kept.
     * Reads the document and changes nothing.
     */
    method GenerateYaml(dump: Document -> string) returns (text: string)
      ensures text == YamlText(CommentLines(config.metadata), dump(Flatten(config)))
    {
      var root := Document(config.apiVersion, config.kind, config.mirror, config.archiveSize);
      var comments := MetadataComments(config.metadata);
      var body := dump(root);
      if |comments| > 0 {
        text := JoinWith(comments, "\n") + "\n" + body;
      } else {
        text := body;
      }
    }
  }

  /** The loop of `add_operators` over `operators`: one package per supported element, in order. */
  method BuildPackages(operators: seq<OperatorInput>, channels: seq<(string, string)>) returns (packages: seq<Package>)
    ensures packages == Packages(operators, channels)
  {
    packages := [];
    var i := 0;
    while i < |operators|
      invariant 0 <= i <= |operators|
      invariant packages == Packages(operators[..i], channels)
    {
      var entry := PackageFor(operators[i], channels);
      if entry.Some? {
        packages := packages + [entry.value];
      }
      PackagesStep(operators, channels, i);
      i := i + 1;
    }
    assert operators[..i] == operators;
  }

  /** The packages of one more element: the earlier ones, then its own if it has one. */
  lemma PackagesStep(operators: seq<OperatorInput>, channels: seq<(string, string)>, i: int)
    requires 0 <= i < |operators|
    ensures var entry := PackageFor(operators[i], channels);
      Packages(operators[..i + 1], channels)
        == Packages(operators[..i], channels) + (if entry.Some? then [entry.value] else [])
  {
    var pre := operators[..i + 1];
    assert pre[..i] == operators[..i];
    assert pre[i] == operators[i];
  }

  /** The comment loop of `generate_yaml`: one line per plain entry, one per entry of a mapping. */
  method MetadataComments(metadata: Metadata) returns (comments: seq<string>)
    ensures comments == CommentLines(metadata)
  {
    comments := [];
    var i := 0;
    while i < |metadata|
      invariant 0 <= i <= |metadata|
      invariant comments == CommentLines(metadata[..i])
    {
      var (k, v) := metadata[i];
      var lines: seq<string>;
      match v {
        case Scalar(t) =>
          lines := ["# " + k + ": " + t];
        case Mapping(es) =>
          lines := MappingComments(k, es);
      }
      comments := comments + lines;
      assert metadata[..i + 1] == metadata[..i] + [(k, v)];
      CommentLinesSnoc(metadata[..i], (k, v));
      i := i + 1;
    }
    assert metadata[..i] == metadata;
  }

  /** The inner loop over a mapping's entries, in their order. */
  method MappingComments(k: string, es: seq<(string, string)>) returns (lines: seq<string>)
    ensures lines == EntryComments(k, Mapping(es))
  {
    lines := [];
    var j := 0;
    while j < |es|
      invariant 0 <= j <= |es|
      invariant lines == EntryComments(k, Mapping(es[..j]))
    {
      lines := lines + ["# " + k + "." + es[j].0 + ": " + es[j].1];
      j := j + 1;
    }
    assert es[..j] == es;
  }

  // ---------------------------------------------------------------------
  // Helm lemmas
  // ---------------------------------------------------------------------

  lemma FileChartKeepsDistinct(h: Helm, k: string, c: HelmChart)
    requires DistinctRepos(h)
    ensures DistinctRepos(FileChart(h, k, c))
    ensures FindRepo(h, k) < 0 ==> FileChart(h, k, c) == h + [(k, [c])]
    ensures FindRepo(h, k) >= 0 ==> FileChart(h, k, c) == h[FindRepo(h, k) := (k, h[FindRepo(h, k)].1 + [c])]
  {
  }
  // ---------------------------------------------------------------------
  // Lemmas: platform channels
  // ---------------------------------------------------------------------

  /** Splitting `a.b.rest` and keeping two parts gives `a.b`. */
  lemma MajorMinorOfRelease(a: string, b: string, rest: string)
    requires !HasChar(a, '.') && !HasChar(b, '.')
    ensures MajorMinor(a + "." + b + "." + rest) == a + "." + b
  {
    SplitAtFirst(b, '.', rest);
    assert a + "." + b + "." + rest == a + ['.'] + (b + ['.'] + rest);
    SplitAtFirst(a, '.', b + ['.'] + rest);
    var parts := Split(a + "." + b + "." + rest, '.');
    assert parts[..2] == [a, b];
    assert [a, b][1..] == [b];
    assert Join([a, b], '.') == a + ['.'] + b;
  }

  /** A version with no third part is its own major.minor. */
  lemma MajorMinorOfMinor(a: string, b: string)
    requires !HasChar(a, '.') && !HasChar(b, '.')
    ensures MajorMinor(a + "." + b) == a + "." + b
  {
    SplitNoSep(b, '.');
    SplitAtFirst(a, '.', b);
    assert a + "." + b == a + ['.'] + b;
    assert Split(a + "." + b, '.') == [a, b];
    assert [a, b][1..] == [b];
    assert Join([a, b], '.') == a + ['.'] + b;
  }

  /** With the channel left at its default, the channel is named after the first version's major.minor. */
  lemma LegacyChannelName(versions: seq<string>, a: string, b: string, rest: string)
    requires |versions| > 0 && versions[0] == a + "." + b + "." + rest
    requires !HasChar(a, '.') && !HasChar(b, '.')
    ensures OcpChannelEntry(versions, DefaultChannel, None, None).value.name == "stable-" + a + "." + b
  {
    MajorMinorOfRelease(a, b, rest);
  }

  /** A channel other than the default is kept as given. */
  lemma ExplicitChannelKept(versions: seq<string>, channel: string, minVersion: Option<string>, maxVersion: Option<string>)
    requires channel != DefaultChannel
    requires OcpChannelEntry(versions, channel, minVersion, maxVersion).Some?
    ensures OcpChannelEntry(versions, channel, minVersion, maxVersion).value.name == channel
  {
  }

  /** When a bound is given, the versions list plays no part. */
  lemma ExplicitBoundsIgnoreVersions(versions: seq<string>, channel: string, minVersion: Option<string>, maxVersion: Option<string>)
    requires Given(minVersion) || Given(maxVersion)
    ensures OcpChannelEntry(versions, channel, minVersion, maxVersion) == OcpChannelEntry([], channel, minVersion, maxVersion)
  {
  }

  /** The legacy bounds enclose every listed version in string order. */
  lemma LegacyRangeEnclosesVersions(versions: seq<string>, channel: string)
    requires |versions| > 0
    ensures var e := OcpChannelEntry(versions, channel, None, None).value;
      StrLe(e.minVersion.value, e.maxVersion.value)
      && forall v :: v in versions ==> StrLe(e.minVersion.value, v) && StrLe(v, e.maxVersion.value)
  {
    var e := OcpChannelEntry(versions, channel, None, None).value;
    assert e.maxVersion.value in versions;
  }

  /** The legacy entry for two versions under an explicit channel: the bounds are their string-order min and max. */
  lemma LegacyEntryOfTwo(x: string, y: string, channel: string)
    requires channel != DefaultChannel && StrLt(x, y)
    ensures OcpChannelEntry([x, y], channel, None, None) == Some(PlatformChannel(channel, Some(x), Some(y)))
    ensures OcpChannelEntry([y, x], channel, None, None) == Some(PlatformChannel(channel, Some(x), Some(y)))
  {
    assert LexLt(Codes(x), Codes(y));
    MinMaxByOfTwo(x, y, Codes);
    MinMaxByOfTwo(y, x, Codes);
  }

  /** The corrected entry for two versions under an explicit channel: the bounds are their numeric min and max. */
  lemma NumericEntryOfTwo(x: string, y: string, channel: string)
    requires channel != DefaultChannel && LexLt(VersionNumbers(x), VersionNumbers(y))
    ensures OcpChannelEntryNumeric([x, y], channel, None, None) == Some(PlatformChannel(channel, Some(x), Some(y)))
    ensures OcpChannelEntryNumeric([y, x], channel, None, None) == Some(PlatformChannel(channel, Some(x), Some(y)))
  {
    MinMaxByOfTwo(x, y, VersionNumbers);
    MinMaxByOfTwo(y, x, VersionNumbers);
  }

  lemma PatchZeroBeforeOne()
    ensures StrLt("4.16.0", "4.16.1")
  {
    assert Codes("4.16.0") == [52, 46, 49, 54, 46, 48];
    assert Codes("4.16.1") == [52, 46, 49, 54, 46, 49];
  }

  /** Two patch releases of one minor: the bounds come out in the expected order. */
  lemma LegacyRangeSamePatchWidth()
    ensures OcpChannelEntry(["4.16.0", "4.16.1"], "stable-4.16", None, None)
         == Some(PlatformChannel("stable-4.16", Some("4.16.0"), Some("4.16.1")))
  {
    PatchZeroBeforeOne();
    LegacyEntryOfTwo("4.16.0", "4.16.1", "stable-4.16");
  }

  /** As strings, 4.16.10 sorts before 4.16.9. */
  lemma TenBeforeNineAsStrings()
    ensures StrLt("4.16.10", "4.16.9")
  {
    assert Codes("4.16.10") == [52, 46, 49, 54, 46, 49, 48];
    assert Codes("4.16.9") == [52, 46, 49, 54, 46, 57];
  }

  /**
   * As written, `4.16.9` and `4.16.10` give `minVersion` 4.16.10 and
   * `maxVersion` 4.16.9, although 4.16.9 is the older release.
   */
  lemma LexicographicRangeInverted()
    ensures OcpChannelEntry(["4.16.9", "4.16.10"], "stable-4.16", None, None)
         == Some(PlatformChannel("stable-4.16", Some("4.16.10"), Some("4.16.9")))
    ensures LexLt(VersionNumbers("4.16.9"), VersionNumbers("4.16.10"))
  {
    TenBeforeNineAsStrings();
    LegacyEntryOfTwo("4.16.10", "4.16.9", "stable-4.16");
    NineBeforeTenAsVersions();
  }

  /** The corrected legacy range orders the same two releases as intended. */
  lemma NumericRangeOrdersReleases()
    ensures OcpChannelEntryNumeric(["4.16.9", "4.16.10"], "stable-4.16", None, None)
         == Some(PlatformChannel("stable-4.16", Some("4.16.9"), Some("4.16.10")))
  {
    NineBeforeTenAsVersions();
    NumericEntryOfTwo("4.16.9", "4.16.10", "stable-4.16");
  }

  /** Where the bounds are given, or the versions agree in string and numeric order, the two readings coincide. */
  lemma NumericRangeAgreesWithBounds(versions: seq<string>, channel: string, minVersion: Option<string>, maxVersion: Option<string>)
    requires Given(minVersion) || Given(maxVersion) || |versions| == 0
    ensures OcpChannelEntryNumeric(versions, channel, minVersion, maxVersion) == OcpChannelEntry(versions, channel, minVersion, maxVersion)
  {
  }

  // ---------------------------------------------------------------------
  // Lemmas: operators
  // ---------------------------------------------------------------------

  /** The alias table inside `add_operators` is the shared `OPERATOR_MAPPINGS`. */
  lemma InlineMappingsShared()
    ensures InlineOperatorMappings == Constants.OperatorMappings
  {
  }

  /** A name whose lower-cased form is an alias resolves to the aliased package. */
  lemma AliasedName(n: string, channels: seq<(string, string)>, i: int)
    requires Constants.FirstKeyAt(Constants.OperatorMappings, Lower(n), i)
    ensures PackageFor(ByName(n), channels).value.name == Constants.OperatorMappings[i].1
    ensures PackageFor(BySpec(Some(n), None, None, None), channels).value.name == Constants.OperatorMappings[i].1
  {
    InlineMappingsShared();
  }

  /** A name that is not an alias passes through with its original casing. */
  lemma UnmappedNamePassesThrough(n: string, channels: seq<(string, string)>)
    requires forall i :: 0 <= i < |Constants.OperatorMappings| ==> Constants.OperatorMappings[i].0 != Lower(n)
    ensures PackageFor(ByName(n), channels).value.name == n
    ensures PackageFor(BySpec(Some(n), None, None, None), channels).value.name == n
  {
    InlineMappingsShared();
  }

  /** `Logging` resolves through the lower-cased alias `logging`. */
  lemma LoggingAlias()
    ensures PackageFor(ByName("Logging"), []) == Some(Package("cluster-logging", None, None, None))
  {
    assert Lower("Logging") == "logging";
    Constants.OperatorMappingsShape();
    InlineMappingsShared();
  }

  /** A channel named for the operator wins over one named for its package. */
  lemma ChannelForOperatorWins(n: string, channels: seq<(string, string)>, i: int)
    requires Constants.FirstKeyAt(channels, n, i) && channels[i].1 != ""
    ensures PackageFor(ByName(n), channels).value.channel == Some(channels[i].1)
  {
  }

  /** A dict's own `channel` wins over the channels table. */
  lemma SpecChannelWins(name: Option<string>, minVersion: Option<string>, maxVersion: Option<string>, channel: string, channels: seq<(string, string)>)
    requires channel != ""
    ensures PackageFor(BySpec(name, minVersion, maxVersion, Some(channel)), channels).value.channel == Some(channel)
  {
  }

  /** With no skipped element, the packages correspond one to one, and in order, to the operators. */
  lemma {:induction false} PackagesOneToOne(operators: seq<OperatorInput>, channels: seq<(string, string)>)
    requires forall i :: 0 <= i < |operators| ==> !operators[i].Unsupported?
    ensures |Packages(operators, channels)| == |operators|
    ensures forall i :: 0 <= i < |operators| ==> Packages(operators, channels)[i] == PackageFor(operators[i], channels).value
    decreases |operators|
  {
    if |operators| > 0 {
      var init := operators[..|operators| - 1];
      PackagesOneToOne(init, channels);
      var last := PackageFor(operators[|operators| - 1], channels);
      var ps := Packages(init, channels);
      var all := Packages(operators, channels);
      assert all == ps + [last.value];
      forall i | 0 <= i < |operators|
        ensures all[i] == PackageFor(operators[i], channels).value
      {
        if i < |init| {
          var op := operators[i];
          assert init[i] == op;
          assert ps[i] == PackageFor(op, channels).value;
          assert all[i] == ps[i];
        } else {
          assert all[i] == last.value;
        }
      }
    }
  }

  /** The packages never hold a skipped element's entry: each comes from some operator, in order. */
  lemma {:induction false} PackagesCount(operators: seq<OperatorInput>, channels: seq<(string, string)>)
    ensures |Packages(operators, channels)| == |operators| - CountUnsupported(operators)
    decreases |operators|
  {
    if |operators| > 0 {
      PackagesCount(operators[..|operators| - 1], channels);
    }
  }

  /** The number of elements `add_operators` skips. */
  function CountUnsupported(operators: seq<OperatorInput>): (n: nat)
    ensures n <= |operators|
    decreases |operators|
  {
    if |operators| == 0 then 0
    else CountUnsupported(operators[..|operators| - 1]) + (if operators[|operators| - 1].Unsupported? then 1 else 0)
  }

  // ---------------------------------------------------------------------
  // Lemmas: the catalog tag
  // ---------------------------------------------------------------------

  /** A trailing `:v<digits and dots>` tag, before an optional final newline, is removed and nothing else. */
  lemma RemovesTrailingTag(base: string, tag: string, nl: string)
    requires |tag| > 0 && All(tag, IsTagChar) && (nl == "" || nl == "\n")
    ensures RemoveVersionTag(base + ":v" + tag + nl) == base + nl
  {
    var s := base + ":v" + tag + nl;
    var d := |base| + 2;
    var e := d + |tag|;
    assert s[..e] == base + ":v" + tag && s[e..] == nl;
    assert TagEnd(s) == e;
    assert forall t :: d <= t < e ==> s[t] == tag[t - d];
    assert s[d - 1] == 'v' && s[d - 2] == ':';
    SkipBackWhileExact(s, d, e, IsTagChar);
    assert s[..d - 2] == base;
  }

  /** `RemoveVersionTag` either leaves its input alone or removes exactly one trailing tag. */
  lemma RemoveVersionTagCases(s: string)
    ensures RemoveVersionTag(s) == s
         || exists base, tag, nl :: TaggedAs(s, base, tag, nl) && RemoveVersionTag(s) == base + nl
  {
    var e := TagEnd(s);
    var d := SkipBackWhile(s, e, IsTagChar);
    if 2 <= d < e && s[d - 2] == ':' && s[d - 1] == 'v' {
      var base, tag, nl := s[..d - 2], s[d..e], s[e..];
      assert s == base + ":v" + tag + nl;
      assert All(tag, IsTagChar);
      assert TaggedAs(s, base, tag, nl);
    }
  }

  /** Re-tagging replaces the tag: a catalog never ends up with two version tags. */
  lemma CatalogRetagReplaces(catalog: string, v: string, w: string)
    requires v != "" && All(v, IsTagChar) && w != ""
    ensures CatalogFor(CatalogFor(catalog, Some(v)), Some(w)) == CatalogFor(catalog, Some(w))
  {
    var base := RemoveVersionTag(catalog);
    var tagged := base + ":v" + v;
    assert CatalogFor(catalog, Some(v)) == tagged;
    RemovesTag(base, v);
  }

  /** The tag alone, with no final newline, is removed. */
  lemma RemovesTag(base: string, tag: string)
    requires |tag| > 0 && All(tag, IsTagChar)
    ensures RemoveVersionTag(base + ":v" + tag) == base
  {
    RemovesTrailingTag(base, tag, "");
    assert base + ":v" + tag + "" == base + ":v" + tag;
    assert base + "" == base;
  }

  /** A catalog that does not end in a digit, a dot or a newline gets the tag appended. */
  lemma UntaggedCatalogGetsTag(catalog: string, v: string)
    requires |catalog| > 0 && !IsTagChar(catalog[|catalog| - 1]) && catalog[|catalog| - 1] != '\n'
    requires v != ""
    ensures CatalogFor(catalog, Some(v)) == catalog + ":v" + v
  {
  }

  /** The default catalog with `ocp_version` 4.16, and the same catalog already tagged for 4.14. */
  lemma DefaultCatalogTagged()
    ensures CatalogFor(DefaultCatalog, Some("4.16")) == DefaultCatalog + ":v4.16"
    ensures CatalogFor(DefaultCatalog + ":v4.14", Some("4.16")) == DefaultCatalog + ":v4.16"
  {
    UntaggedCatalogGetsTag(DefaultCatalog, "4.16");
    assert DefaultCatalog + ":v" + "4.16" == DefaultCatalog + ":v4.16";
    DefaultCatalogRetagged();
  }

  /** The default catalog already tagged for 4.14 loses that tag. */
  lemma DefaultCatalogRetagged()
    ensures RemoveVersionTag(DefaultCatalog + ":v4.14") == DefaultCatalog
  {
    assert All("4.14", IsTagChar);
    RemovesTag(DefaultCatalog, "4.14");
    assert DefaultCatalog + ":v" + "4.14" == DefaultCatalog + ":v4.14";
  }

  // ---------------------------------------------------------------------
  // Lemmas: helm charts
  // ---------------------------------------------------------------------

  /** Filing a chart keeps every chart already filed. */
  lemma FileChartKeepsFiled(h: Helm, k: string, c: HelmChart, k': string, c': HelmChart)
    requires Filed(h, k', c')
    ensures Filed(FileChart(h, k, c), k', c')
  {
    var j :| 0 <= j < |h| && h[j].0 == k' && c' in h[j].1;
    var h' := FileChart(h, k, c);
    assert h'[j].0 == k' && c' in h'[j].1;
  }

  /** Adding charts keeps every chart already filed. */
  lemma {:induction false} AddChartsKeepsFiled(h: Helm, charts: seq<ChartInput>, k: string, c: HelmChart)
    requires Filed(h, k, c)
    ensures Filed(AddCharts(h, charts).0, k, c)
    decreases |charts|
  {
    if |charts| > 0 {
      var key := RepoKey(charts[0].repository);
      if charts[0].name.None? {
        var j :| 0 <= j < |h| && h[j].0 == k && c in h[j].1;
        assert EnsureRepo(h, key)[j] == h[j];
      } else {
        FileChartKeepsFiled(h, key, ChartOf(charts[0]), k, c);
        AddChartsKeepsFiled(FileChart(h, key, ChartOf(charts[0])), charts[1..], k, c);
      }
    }
  }

  /** When every chart is named, each is filed under its sanitised repository key. */
  lemma {:induction false} AddChartsFilesEach(h: Helm, charts: seq<ChartInput>, i: int)
    requires forall t :: 0 <= t < |charts| ==> charts[t].name.Some?
    requires 0 <= i < |charts|
    ensures Filed(AddCharts(h, charts).0, RepoKey(charts[i].repository), ChartOf(charts[i]))
    decreases |charts|
  {
    var key := RepoKey(charts[0].repository);
    var h' := FileChart(h, key, ChartOf(charts[0]));
    assert forall t :: 0 <= t < |charts| - 1 ==> charts[1..][t] == charts[t + 1];
    if i == 0 {
      var j := FindRepo(h, key);
      if j < 0 {
        assert h'[|h|].0 == key && ChartOf(charts[0]) in h'[|h|].1;
      } else {
        assert h'[j].0 == key && ChartOf(charts[0]) in h'[j].1;
      }
      AddChartsKeepsFiled(h', charts[1..], key, ChartOf(charts[0]));
    } else {
      AddChartsFilesEach(h', charts[1..], i - 1);
    }
  }

  /** `add_helm_charts` returns normally exactly when every chart has a name. */
  lemma {:induction false} AddChartsOkIff(h: Helm, charts: seq<ChartInput>)
    ensures AddCharts(h, charts).1 <==> forall t :: 0 <= t < |charts| ==> charts[t].name.Some?
    decreases |charts|
  {
    if |charts| > 0 && charts[0].name.Some? {
      AddChartsOkIff(FileChart(h, RepoKey(charts[0].repository), ChartOf(charts[0])), charts[1..]);
      assert forall t :: 0 <= t < |charts| - 1 ==> charts[1..][t] == charts[t + 1];
    }
  }

  /** The repository keys stay distinct whatever the charts. */
  lemma {:induction false} AddChartsKeepsDistinct(h: Helm, charts: seq<ChartInput>)
    requires DistinctRepos(h)
    ensures DistinctRepos(AddCharts(h, charts).0)
    decreases |charts|
  {
    if |charts| > 0 {
      var key := RepoKey(charts[0].repository);
      if charts[0].name.Some? {
        FileChartKeepsDistinct(h, key, ChartOf(charts[0]));
        AddChartsKeepsDistinct(FileChart(h, key, ChartOf(charts[0])), charts[1..]);
      }
    }
  }

  /** A chart for `quay.io/org:charts` without a version goes under `quay.io-org-charts` with version `""`. */
  lemma HelmRepoKeyExample()
    ensures RepoKey(Some("quay.io/org:charts")) == "quay.io-org-charts"
    ensures ChartOf(ChartInput(Some("app"), Some("quay.io/org:charts"), None)) == HelmChart("app", "")
  {
  }

  // ---------------------------------------------------------------------
  // Lemmas: generate_yaml
  // ---------------------------------------------------------------------

  /** Comment lines follow the metadata's key order. */
  lemma {:induction false} CommentLinesAppend(m1: Metadata, m2: Metadata)
    ensures CommentLines(m1 + m2) == CommentLines(m1) + CommentLines(m2)
  {
    if |m1| == 0 {
      assert m1 + m2 == m2;
    } else {
      assert (m1 + m2)[0] == m1[0];
      assert (m1 + m2)[1..] == m1[1..] + m2;
      CommentLinesAppend(m1[1..], m2);
    }
  }

  /** One more entry adds its own comment lines at the end. */
  lemma CommentLinesSnoc(m: Metadata, e: (string, MetaValue))
    ensures CommentLines(m + [e]) == CommentLines(m) + EntryComments(e.0, e.1)
  {
    CommentLinesAppend(m, [e]);
    assert [e][1..] == [];
  }

  /** A plain entry followed by a two-entry mapping gives one comment line, then one per mapping entry. */
  lemma CommentLinesOfScalarAndPair(k0: string, t: string, k1: string, a: string, x: string, b: string, y: string)
    ensures CommentLines([(k0, Scalar(t)), (k1, Mapping([(a, x), (b, y)]))])
         == ["# " + k0 + ": " + t, "# " + k1 + "." + a + ": " + x, "# " + k1 + "." + b + ": " + y]
  {
    var m := [(k0, Scalar(t)), (k1, Mapping([(a, x), (b, y)]))];
    assert m[1..] == [m[1]];
    assert CommentLines([m[1]]) == EntryComments(k1, Mapping([(a, x), (b, y)])) by {
      assert [m[1]][1..] == [];
    }
    var lines := EntryComments(k1, Mapping([(a, x), (b, y)]));
    assert lines == ["# " + k1 + "." + a + ": " + x, "# " + k1 + "." + b + ": " + y] by {
      assert |lines| == 2;
      assert lines[0] == "# " + k1 + "." + a + ": " + x;
      assert lines[1] == "# " + k1 + "." + b + ": " + y;
    }
  }

  /** A fresh generator's metadata gives three comment lines: the name, then the two labels. */
  lemma FreshComments(generatedAt: string)
    ensures CommentLines(InitialMetadata(generatedAt))
         == ["# name: openshift-imageset", "# labels.generated-by: imageset-generator", "# labels.generated-at: " + generatedAt]
  {
    CommentLinesOfScalarAndPair("name", "openshift-imageset", "labels", "generated-by", "imageset-generator", "generated-at", generatedAt);
    var c := CommentLines(InitialMetadata(generatedAt));
    assert |c| == 3;
    NameCommentText();
    GeneratedByCommentText();
    GeneratedAtCommentText();
  }

  /** The comment line of the name, spelled out. */
  lemma NameCommentText()
    ensures "# " + "name" + ": " + "openshift-imageset" == "# name: openshift-imageset"
  {
  }

  /** The comment line of the `generated-by` label, spelled out. */
  lemma GeneratedByCommentText()
    ensures "# " + "labels" + "." + "generated-by" + ": " + "imageset-generator" == "# labels.generated-by: imageset-generator"
  {
    GeneratedByPrefixText();
    GeneratedBySuffixText();
  }

  lemma GeneratedByPrefixText()
    ensures "# " + "labels" + "." + "generated-by" + ": " == "# labels.generated-by: "
  {
  }

  lemma GeneratedBySuffixText()
    ensures "# labels.generated-by: " + "imageset-generator" == "# labels.generated-by: imageset-generator"
  {
  }

  /** The prefix of the `generated-at` comment line, spelled out. */
  lemma GeneratedAtCommentText()
    ensures "# " + "labels" + "." + "generated-at" + ": " == "# labels.generated-at: "
  {
  }

  /** A fresh generator's text opens with the three metadata comments, then the body. */
  lemma FreshYamlHeader(generatedAt: string, body: string)
    ensures YamlText(CommentLines(InitialConfig(generatedAt).metadata), body)
         == "# name: openshift-imageset" + "\n" + "# labels.generated-by: imageset-generator" + "\n"
            + "# labels.generated-at: " + generatedAt + "\n" + body
  {
    FreshComments(generatedAt);
    var l0, l1, l2 := "# name: openshift-imageset", "# labels.generated-by: imageset-generator", "# labels.generated-at: " + generatedAt;
    JoinThree(l0, l1, l2, "\n");
  }

  /** Joining three lines puts the separator between each pair. */
  lemma JoinThree(a: string, b: string, c: string, sep: string)
    ensures JoinWith([a, b, c], sep) == a + sep + b + sep + c
  {
    assert [a, b, c][1..] == [b, c] && [b, c][1..] == [c];
    assert JoinWith([b, c], sep) == b + sep + c;
  }

}
