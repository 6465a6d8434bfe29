# imageset-generator, modelled in Dafny

imageset-generator writes `ImageSetConfiguration` documents, the input of
`oc-mirror` for mirroring OpenShift into a disconnected cluster. It has a
builder class, `ImageSetGenerator`, and a Flask back end. The back end runs
`oc-mirror` to list releases, channels, catalogs and operators, parses what
the tool prints, and turns a JSON request into a document. This project
models the logic of the program and proves properties of it:

- `validation.dfy` (`Validation`): the four input validators of `validation.py`. Each strips its input, matches it against one allow-list regex, and returns the stripped text or a `ValidationError`. Each regex is a deterministic scanner, token by token. Python's `$` also matches before a final newline, and the model keeps that. The module proves what can never pass each validator (`..`, `/`, `;`, whitespace, schemes). It also proves idempotence, the exact accepted shapes, and the cases the tests name.
- `generator.dfy` (`Generator`): the class `ImageSetGenerator`. Its field `config` holds the nested document as a datatype. Each `add_*`/`set_*` method states the whole new document in terms of the old one. `generate_yaml` becomes a method that reads `config`, hoists `spec`, and turns `metadata` into `# k.sub: v` comment lines. Only `yaml.dump` is a parameter.
- `releases.dfy`, `catalogs.dfy`, `operators.dfy` (`Releases`, `Catalogs`, `Operators`): the parsing and shaping bodies of the `app.py` handlers. Each handler is a method with the loops of the source. Each method is proved equal to a specification function over the output lines of `oc-mirror`, and lemmas state what that function keeps, drops and sorts.
- `requests.dfy` (`Requests`): `validate_config` and the request-to-generator shaping of `generate_preview`.
- `refresh.dfy` (`Refresh`): `refresh_versions` in `refresh_function.py`.
- `exceptions.dfy` (`Exceptions`): the exception hierarchy, the truthy-only details of each constructor, and `format_message`.
- `constants.dfy` (`Constants`): the constant data of `constants.py`, with lemmas that tie it to the validators and to the inline copies of the alias table.
- Supporting modules:
  - `text.dfy` (`Text`) models the Python string operations the source uses: `strip`, `split`, `join`, `lower`, `title`, `startswith`, `in`, `int()` and `str()`.
  - `ordering.dfy` (`Ordering`) models list/tuple comparison, a stable sort (`sorted`/`list.sort`), `min`/`max` on strings, and first-wins dedupe.
  - `process.dfy` (`Process`) models a `subprocess.run` outcome and `stdout.strip().split('\n')`.
  - `wrappers.dfy` holds `Option` and `Result`.

A `subprocess.run` call is a parameter `run: Runner`, a function from an
argument vector to its outcome: completed with a return code, stdout and
stderr; timed out; not found; or failed with an exception text. Clock
readings (`datetime.now().isoformat()`) are string parameters.

Three facts about the validators come straight from their code:

- `validate_version` accepts `X.Y` only. Its docstring (validation.py:59) and its pattern (validation.py:80) agree, so a release such as `4.16.0` is refused.
- `validate_channel`'s pattern (validation.py:115) does not require the hyphen that its comment (validation.py:114) and its error message (validation.py:119) describe. The model keeps the pattern as written. The hyphenated grammar is modelled beside it, as the corrected member of a finding below.
- `safe_path_component` accepts a leading dot, as in `.hidden`, since only `..`, `/` and `\` are refused (validation.py:148-158).

## Model

| member | source | states |
|---|---|---|
| Validation.ValidateCatalogUrl | validation.py:37-52 | A missing or empty value is refused. An accepted value is the stripped input and matches `registry.redhat.io/[\w-]+/[\w-]+(:v\d+.\d+)?` in full. |
| Validation.ValidateVersion | validation.py:74-87 | A missing or empty value is refused. An accepted value is the stripped input and is `\d+.\d+` in full. |
| Validation.ValidateChannel | validation.py:109-122 | A missing or empty value is refused. An accepted value is the stripped input and matches `[a-zA-Z][a-zA-Z0-9-]*\d+.\d+` in full. |
| Validation.SafePathComponent | validation.py:142-160 | A missing or empty value is refused. An accepted value is the stripped input and matches `[\w.-]+` in full. |
| Validation.DollarMatchStripped | validation.py:46 | On stripped text, Python's `$`, which also matches before a final newline, matches only at the very end. |
| Validation.CatalogUrlOutcome | validation.py:37-52 | A non-empty value is accepted exactly when its stripped text matches the catalog pattern, and the stripped text is returned. |
| Validation.VersionOutcome | validation.py:74-87 | A non-empty value is accepted exactly when its stripped text is `X.Y`, and the stripped text is returned. |
| Validation.ChannelOutcome | validation.py:109-122 | A non-empty value is accepted exactly when its stripped text matches the channel pattern, and the stripped text is returned. |
| Validation.PathComponentOutcome | validation.py:142-160 | A non-empty value is accepted exactly when its stripped text has no `..`, `/` or `\` and matches `[\w.-]+`, and the stripped text is returned. |
| Validation.ValidatorsRejectBlank | validation.py:37-38 | A missing value, or one that is blank after stripping, is refused by all four validators. |
| Validation.ValidatorsIdempotent | validation.py:40-52 | Validating an accepted result again returns it unchanged, for each of the four validators. |
| Validation.CatalogUrlIdempotent | validation.py:40-52 | Re-validating the stripped text of an accepted catalog URL gives the same result. |
| Validation.VersionIdempotent | validation.py:77-87 | Re-validating the stripped text of an accepted version gives the same result. |
| Validation.ChannelIdempotent | validation.py:112-122 | Re-validating the stripped text of an accepted channel gives the same result. |
| Validation.PathComponentIdempotent | validation.py:145-160 | Re-validating the stripped text of an accepted path component gives the same result. |
| Validation.DigitsDotDigitsShape | validation.py:80 | The `\d+\.\d+` scanner accepts exactly the texts `<digits>.<digits>`. |
| Validation.VersionAcceptsShape | validation.py:74-87 | `validate_version` accepts exactly the values whose stripped text is `<digits>.<digits>`. |
| Validation.CatalogUrlTextShape | validation.py:44 | The catalog scanner accepts exactly `registry.redhat.io/<org>/<name>` with an optional `:v<X>.<Y>`, where org and name are `[\w-]+`. |
| Validation.CatalogUrlAcceptsShape | validation.py:37-52 | `validate_catalog_url` accepts exactly the values whose stripped text has the catalog shape. |
| Validation.RegistryImageAccepted | validation.py:44-52 | Every `registry.redhat.io/<org>/<name>[:v<X>.<Y>]` is accepted unchanged. |
| Validation.ChannelTextShape | validation.py:115 | The channel scanner accepts exactly a letter, then letters, digits and dashes, then `<digits>.<digits>`. |
| Validation.ChannelAcceptsShape | validation.py:109-122 | `validate_channel` accepts exactly the values whose stripped text has the channel shape. |
| Validation.AcceptedCatalogUrlIsSafe | validation.py:44 | An accepted catalog URL contains no `..`, `://`, `;`, space, `\|`, `&`, backquote or `$`. |
| Validation.CatalogUrlTextChars | validation.py:44 | An accepted URL uses only word characters, `-`, `.`, `/` and `:`. It never has two dots in a row, or a colon before a slash. |
| Validation.AcceptedVersionIsSafe | validation.py:80 | An accepted version holds only digits and dots, with no `..` and no `/`. |
| Validation.AcceptedChannelIsSafe | validation.py:115 | An accepted channel holds only letters, digits, dashes and dots, with no `..`, `/` or `;`. |
| Validation.AcceptedPathComponentIsSafe | validation.py:148-158 | An accepted component is non-empty, has no `..`, `/` or `\`, and has only word characters, `-` and `.`. |
| Validation.VersionAcceptsPlain | test_validation.py:59-63 | `validate_version("4.16")` returns `"4.16"`. |
| Validation.VersionAcceptsPadded | test_validation.py:80-82 | `validate_version("  4.16  ")` returns `"4.16"`. |
| Validation.VersionRejectsRelease | validation.py:80-85 | `"4.16.0"` is refused: the version pattern is `X.Y` only. |
| Validation.VersionRejectsPrefixed | test_validation.py:65-78 | `"v4.16"` is refused. |
| Validation.ChannelAcceptsStable | test_validation.py:88-97 | `validate_channel("stable-4.16")` returns `"stable-4.16"`. |
| Validation.ChannelRejectsSlash | test_validation.py:99-110 | `"stable/4.16"` is refused. |
| Validation.ChannelRejectsBare | test_validation.py:99-110 | `"stable"` is refused. |
| Validation.ChannelAcceptsUndashed | validation.py:114-120 | `validate_channel` accepts `"stable4.16"`, which the dashed grammar refuses. |
| Validation.CatalogUrlRejectsTraversal | test_validation.py:30-42 | `registry.redhat.io/../../etc/passwd` is refused. |
| Validation.CatalogUrlRejectsScheme | test_validation.py:30-42 | `http://registry.redhat.io/redhat/index` is refused. |
| Validation.PathComponentAcceptsFileName | validation.py:139-140 | `safe_path_component("operators-4.16.json")` returns it unchanged. |
| Validation.PathComponentAcceptsLeadingDot | validation.py:148-158 | `safe_path_component(".hidden")` returns it unchanged: a single leading dot is neither a traversal nor outside the allow-list. |
| Validation.PathComponentRejectsTraversal | test_validation.py:127-138 | `../etc/passwd` is refused. |
| Validation.PathComponentRejectsBackslash | test_validation.py:127-138 | `file\windows` is refused. |
| Validation.PathComponentRejectsCommand | test_validation.py:140-150 | `file;rm -rf` is refused. |
| Validation.ValidateDashedChannel | validation.py:114-120 | The channel check with the dash its comment and message describe. An accepted value is the stripped input, matching `<name>-<X>.<Y>`. |
| Validation.DashedChannelTextShape | validation.py:114 | The dashed scanner accepts exactly a letter, then letters, digits and dashes, then `-<digits>.<digits>`. |
| Validation.DashedChannelNarrowsChannel | validation.py:115 | Every channel the dashed check accepts, `validate_channel` accepts with the same result. |
| Validation.DashedChannelOutcome | validation.py:117-122 | The dashed check accepts a non-empty value exactly when its stripped text matches, and returns that text. |
| Validation.DashedChannelAcceptsStable | test_validation.py:88-97 | The dashed check still accepts `stable-4.16`. |
| Generator.ImageSetGenerator.constructor | generator.py:27-50 | A fresh document has fixed `apiVersion`, `kind` and metadata. Its platform is `{channels: [], graph: true}`, with no operators, images or helm charts and no `archiveSize`. |
| Generator.ImageSetGenerator.SetArchiveSize | generator.py:52-56 | Sets `archiveSize` and changes nothing else. |
| Generator.ImageSetGenerator.AddOcpVersions | generator.py:58-96 | Appends the one entry `OcpChannelEntry` gives, or leaves the document unchanged when that is `None`. Nothing else changes. |
| Generator.OcpChannelEntry | generator.py:69-94 | Nothing is added exactly when no bound is given and the versions are empty. When a bound is given, the entry carries the given channel, each given bound with its value unchanged, and no key for a bound not given. Otherwise both bounds are listed versions. |
| Generator.LegacyChannelName | generator.py:83-85 | With the channel left at `stable-4.14`, the channel becomes `stable-` plus the first version's major.minor. |
| Generator.ExplicitChannelKept | generator.py:72-88 | A channel other than the default is kept. |
| Generator.ExplicitBoundsIgnoreVersions | generator.py:69-79 | When a bound is given, the versions list plays no part. |
| Generator.LegacyRangeEnclosesVersions | generator.py:87-92 | The legacy bounds are listed versions, and in string order they enclose every listed version. |
| Generator.LegacyEntryOfTwo | generator.py:87-92 | For two versions, the bounds are their string-order min and max, whatever the input order. |
| Generator.LegacyRangeSamePatchWidth | tests/guard/test_generator_smoke.py:8-34 | `["4.16.0", "4.16.1"]` under `stable-4.16` gives min 4.16.0 and max 4.16.1. |
| Generator.TenBeforeNineAsStrings | generator.py:90-91 | As strings, `4.16.10` < `4.16.9`. |
| Generator.LexicographicRangeInverted | generator.py:90-91 | As written, `["4.16.9", "4.16.10"]` gives min 4.16.10 and max 4.16.9, though 4.16.9 is numerically older. |
| Generator.NumericRange | generator.py:90-91 | The corrected bounds are listed versions, and they are the numerically least and greatest of the versions. |
| Generator.OcpChannelEntryNumeric | generator.py:69-94 | The corrected entry: nothing is added exactly when nothing is given, and the legacy bounds are the numeric min and max. |
| Generator.NumericEntryOfTwo | generator.py:87-92 | For two versions, the corrected bounds are their numeric min and max, whatever the input order. |
| Generator.NumericRangeOrdersReleases | generator.py:87-92 | The corrected entry for `["4.16.9", "4.16.10"]` has min 4.16.9 and max 4.16.10. |
| Generator.NumericRangeAgreesWithBounds | generator.py:69-79 | With a bound given or no versions, the corrected and as-written entries coincide. |
| Generator.ImageSetGenerator.AddOperators | generator.py:98-162 | An empty list changes nothing. Otherwise exactly one block `{CatalogFor(catalog, ocp_version), Packages(operators, channels)}` is appended, and nothing else changes. |
| Generator.BuildPackages | generator.py:134-157 | The loop over operators builds exactly `Packages(operators, channels)`. |
| Generator.PackagesStep | generator.py:135-157 | One more element adds its own package, when it has one, after the earlier ones. |
| Generator.PackageFor | generator.py:135-157 | Only a string or a dict gives a package, and its optional fields are never empty. A chosen channel is a value of the channels table or the dict's own. A bare name carries no bounds. |
| Generator.PackageByName | generator.py:137-144 | A bare name carries no bounds, and its channel, when present, is a value of the table. |
| Generator.ChannelLookup | generator.py:140-143 | `channels.get(op) or channels.get(name)` is a value of the table when present. |
| Generator.PackageBySpec | generator.py:145-157 | A dict's optional fields are never empty, and its channel is its own or a value of the table. |
| Generator.Packages | generator.py:134-157 | There are never more packages than operators, and no package has an empty optional field. |
| Generator.PackagesOneToOne | generator.py:134-157 | With no skipped element, packages correspond one to one and in order to the operators. |
| Generator.PackagesCount | generator.py:135-157 | The number of packages is the number of operators minus the skipped ones. |
| Generator.InlineMappingsShared | generator.py:109-128 | The inline alias table equals `OPERATOR_MAPPINGS`, entry for entry. |
| Generator.AliasedName | generator.py:137-146 | A name whose lower-cased form is an alias becomes the aliased package, as a string or as a dict. |
| Generator.UnmappedNamePassesThrough | generator.py:137-146 | A name that is not an alias passes through with its original casing. |
| Generator.LoggingAlias | generator.py:109-138 | `"Logging"` becomes package `cluster-logging`. |
| Generator.ChannelForOperatorWins | generator.py:140-143 | A channel listed under the operator's own name wins over the one listed under its package. |
| Generator.SpecChannelWins | generator.py:154-156 | A dict's own `channel` wins over the channels table. |
| Generator.RemoveVersionTag | generator.py:132 | `re.sub(r":v[\d.]+$", "", s)` never lengthens its input. |
| Generator.RemovesTrailingTag | generator.py:132 | A trailing `:v<digits and dots>`, before an optional final newline, is removed, and nothing else is. |
| Generator.RemoveVersionTagCases | generator.py:132 | The substitution either leaves the text alone or removes exactly one trailing tag. |
| Generator.CatalogFor | generator.py:129-133 | Without `ocp_version` the catalog is unchanged. With it, the catalog ends in `:v<ocp_version>`. |
| Generator.CatalogRetagReplaces | generator.py:129-133 | Tagging an already tagged catalog replaces the tag, so exactly one version tag remains. |
| Generator.UntaggedCatalogGetsTag | generator.py:133 | A catalog not ending in a digit, dot or newline gets `:v<version>` appended. |
| Generator.DefaultCatalogTagged | tests/guard/test_generator_smoke.py:36-40 | The default catalog with `ocp_version` 4.16 becomes `...redhat-operator-index:v4.16`, also when it was already tagged `:v4.14`. |
| Generator.ImageSetGenerator.AddAdditionalImages | generator.py:164-177 | Appends every image, in order and with duplicates, and nothing else changes. |
| Generator.ImageSetGenerator.AddHelmCharts | generator.py:179-197 | The helm mapping becomes `AddCharts(old helm, charts)`, with `ok` false when a chart without a name raised. Nothing else changes. |
| Generator.RepoKey | generator.py:190 | The helm key has no `/` and no `:`, and is as long as the repository. An absent repository gives `""`. |
| Generator.FindRepo | generator.py:191 | Finds the index of a repository key, or -1 exactly when no entry has that key. |
| Generator.FileChartKeepsDistinct | generator.py:191-197 | Filing keeps keys distinct. A new key is added at the end holding the chart. An existing key gets the chart appended to its list. |
| Generator.FileChartKeepsFiled | generator.py:194-197 | Filing a chart keeps every chart already filed. |
| Generator.AddChartsKeepsFiled | generator.py:189-197 | Adding charts keeps every chart already filed. |
| Generator.AddChartsFilesEach | generator.py:189-197 | When every chart has a name, each is filed under its sanitised repository key, with the version defaulting to `""`. |
| Generator.AddChartsOkIff | generator.py:195 | `add_helm_charts` returns normally exactly when every chart has a name. |
| Generator.AddChartsKeepsDistinct | generator.py:191-192 | Repository keys stay distinct whatever the charts. |
| Generator.HelmRepoKeyExample | generator.py:189-197 | A chart from `quay.io/org:charts` with no version is filed under `quay.io-org-charts` with version `""`. |
| Generator.ImageSetGenerator.SetKubevirtContainer | generator.py:199-211 | `True` sets the flag and `False` clears it, so `False` is idempotent. Nothing else changes. |
| Generator.ImageSetGenerator.GenerateYaml | generator.py:213-233 | The text is the metadata comment lines, a newline, then the serialised flattened document. Without comments it is the body alone. `config` is not changed. |
| Generator.MetadataComments | generator.py:221-228 | The comment loop yields exactly `CommentLines(metadata)`. |
| Generator.MappingComments | generator.py:224-226 | The inner loop yields one `# k.sub: v` line per mapping entry, in order. |
| Generator.EntryComments | generator.py:223-228 | A plain entry gives one line, and a mapping gives one line per entry. |
| Generator.CommentLinesMarked | generator.py:223-228 | Every comment line starts with `# `. |
| Generator.CommentLinesAppend | generator.py:223 | Comment lines follow the metadata's key order. |
| Generator.CommentLinesOfScalarAndPair | generator.py:223-228 | A plain entry and then a two-entry mapping give `# k: v`, then `# k.a: x` and `# k.b: y`. |
| Generator.FreshComments | generator.py:31-37 | A fresh document's comments are its name, then the `generated-by` and `generated-at` labels. |
| Generator.FreshYamlHeader | generator.py:221-233 | A fresh document's text opens with its three comment lines, joined by newlines, and then the body. |
| Generator.YamlText | generator.py:233 | The text always ends with the serialised body. |
| Generator.MajorMinorOfRelease | generator.py:84 | `".".join(v.split(".")[:2])` of `a.b.rest` is `a.b`. |
| Generator.MajorMinorOfMinor | generator.py:84 | A version with no third part is its own major.minor. |
| Catalogs.VersionKeyIsMajorMinor | app.py:292-298 | `version_key` is the same major.minor that `add_ocp_versions` derives its channel from. |
| Catalogs.VersionKeyIdempotent | app.py:292-298 | Taking the key of a key changes nothing. |
| Catalogs.VersionKeyOfRelease | app.py:292-296 | The key of `a.b.c` is `a.b`. |
| Catalogs.CatalogMappings | app.py:301-333 | The catalog table has 31 entries, 4.30 down to 4.0. |
| Catalogs.OperatorCatalogForKnown | app.py:336 | A key from 4.0 to 4.30 maps to the Red Hat index tagged `:v<key>`. |
| Catalogs.OperatorCatalogForUnknown | app.py:336 | Any other key maps to the unversioned Red Hat index. |
| Catalogs.MinorNameInjective | app.py:301-333 | Distinct minor numbers give distinct table keys. |
| Catalogs.OperatorCatalogAccepted | app.py:301-336 | Whatever the version, the catalog served passes `validate_catalog_url` unchanged. |
| Catalogs.MappedIndexAccepted | app.py:302-332 | Every catalog in the table passes `validate_catalog_url`. |
| Catalogs.DefaultIndexAccepted | app.py:336 | The unversioned Red Hat index passes `validate_catalog_url`. |
| Catalogs.DefaultBaseCatalog | app.py:449-455 | The default base catalog is the image `add_operators` uses by default. |
| Catalogs.CatalogWithVersionIdempotent | app.py:671-675 | The listing URL always carries `:v`, and suffixing it again changes nothing. |
| Catalogs.CatalogWithVersionAgreesWithGenerator | app.py:672-673 | On a catalog without `:v`, the endpoints' suffix agrees with the generator's tag rewrite. |
| Catalogs.NoTagWithoutMarker | generator.py:132 | The tag substitution removes something only where `:v` occurs. |
| Catalogs.CheckCatalog | app.py:478-518 | Each entry carries the base's name and default flag, the URL `<base>:v<key>` and the description `... for OCP <key>`. It is validated exactly when the command exited 0, and has an error exactly when not validated. An unvalidated entry counts 0 operators. |
| Catalogs.OperatorLineCount | app.py:501-503 | The operator count never exceeds the number of output lines. |
| Catalogs.OperatorLineCountZero | app.py:502-503 | `operators_count` is 0 exactly when no output line passes the filter: not blank, and no `#`, `WARN` or `INFO` start. |
| Catalogs.CountWhereZero | app.py:502-503 | `len([x for x in xs if p(x)])` is 0 exactly when no element satisfies `p`. |
| Catalogs.CountWhereAll | app.py:502-503 | `len([x for x in xs if p(x)])` is `len(xs)` exactly when every element satisfies `p`. |
| Catalogs.OperatorLineCountAll | app.py:502-503 | `operators_count` equals the number of output lines exactly when every line passes that filter. |
| Catalogs.CheckCatalogs | app.py:478-518 | The loop checks every base catalog, in order. |
| Catalogs.CheckedEach | app.py:478-518 | One entry per base catalog. |
| Catalogs.ListCatalogsForVersion | app.py:434-521 | The listing is every base catalog checked at `:v<version_key>`, then stably sorted by `(not validated, -operators_count, name)`. |
| Catalogs.CatalogsRanked | app.py:521 | Validated catalogs come first. Between two validated or two unvalidated ones, the larger operator count comes first. |
| Catalogs.ListingRanked | app.py:476-521 | The listing has one entry per base catalog, in ranked order. |
| Catalogs.ListedUrlsAccepted | app.py:480 | With an `X.Y` key, every URL checked passes `validate_catalog_url`. |
| Releases.ReleaseOfLine | app.py:68-82 | A line contributes only a leading `X.Y`, which the stripped line starts with. |
| Releases.ReleaseOfLineComplete | app.py:71-80 | A stripped line beginning with `X.Y` (not followed by a digit) contributes exactly that `X.Y`. The header filters never drop it. |
| Releases.LeadingMinorEnd | app.py:78 | The greedy `^(\d+\.\d+)` ends where a digit run stops, and what it matched is `X.Y`. |
| Releases.LeadingMinorEndExact | app.py:78 | Any `X.Y` prefix not followed by a digit is the match `re.match` finds. |
| Releases.FirstReleases | app.py:68-82 | The loop keeps the first occurrence of each version, in order of appearance. |
| Releases.ParseReleases | app.py:65-85 | The parsed list is the deduplicated versions, sorted by integer parts, newest first. |
| Releases.GetOcpReleases | app.py:49-120 | The reply is the parsed list when the command exits 0 and yields some version. Every other case serves the fallback. |
| Releases.ReleasesWellFormed | app.py:85-120 | Whatever `oc-mirror` does, the list is non-empty, free of repeats, newest first, and made of `X.Y` versions. |
| Releases.ReleasesFromLines | app.py:63-95 | When served from the command, the list holds exactly the versions its lines begin with. |
| Releases.NewerMinorFirst | app.py:85 | 4.10 is served before 4.9. |
| Releases.FallbackCountsDown | app.py:112 | The fallback names 4.18 down to 4.6, 13 versions. |
| Releases.FallbackNewestFirst | app.py:112 | The fallback is newest first, free of repeats, and made of `X.Y` versions. |
| Releases.ChannelOfLine | app.py:151-161 | A line contributes a channel exactly when its stripped text is `[a-z]+-\d+\.\d+`, and it contributes that text. |
| Releases.ChannelNameTextShape | app.py:160 | The channel-name scanner accepts exactly `<lower-case stream>-<X>.<Y>`. |
| Releases.ChannelNameSkipsFilters | app.py:154-158 | A channel name is never dropped by the blank, warning, `W`, `Listing channels` or `#` filters. |
| Releases.ParseChannels | app.py:148-164 | The loop and `sorted(set(...))` give the distinct channel lines in ascending string order. |
| Releases.GetOcpChannels | app.py:124-192 | The reply for the version and the command's outcome. |
| Releases.InvalidVersionRunsNothing | app.py:131-136 | A version that is not `X.Y` is refused before any command runs. |
| Releases.ChannelsStrictlyAscending | app.py:164 | Channels come back in strictly increasing string order. |
| Releases.ChannelsFromLines | app.py:149-164 | The channels served are exactly the channel names among the stripped output lines. |
| Releases.ChannelReleaseOfLine | app.py:228-231 | A line contributes exactly when its stripped text is `X.Y.Z`, and it contributes that text. |
| Releases.ParseChannelReleases | app.py:224-234 | Every `X.Y.Z` line is kept, repeats included, then stably sorted ascending by integer parts. |
| Releases.GetChannelReleases | app.py:196-253 | A blank channel is refused before any command runs. Otherwise the reply follows the command's outcome. |
| Releases.ChannelReleasesSorted | app.py:224-234 | The releases are the `X.Y.Z` lines, each as often as it occurs, in ascending version order. |
| Releases.PatchNineBeforeTen | app.py:234 | 4.16.9 is listed before 4.16.10. |
| Releases.MinorOfFour | app.py:85 | `4.<n>` has the integer key `[4, n]` and the `X.Y` shape. |
| Operators.Keys | app.py:283 | The suggestions are the table's keys, in table order. |
| Operators.SuggestionsResolve | app.py:257-284 | The mappings endpoint offers 18 distinct suggestions, each resolving to its package in the table. |
| Operators.OperatorOfLine | app.py:695-726 | A line yields an operator exactly when its stripped text is not blank and not a header. The first word is the name, and the second word (when present) is the default channel; otherwise there is none. The display name is the title-cased name with dashes as spaces, the description is `Operator from <catalog>`, and the catalog and version are the request's. |
| Operators.CollectOperators | app.py:692-726 | The first loop yields one operator per line that names one, in order. |
| Operators.UniqueByName | app.py:729-732 | The second loop keeps, for each name, the first operator carrying it. |
| Operators.FirstByName | app.py:729-732 | Dedupe never lengthens the list. |
| Operators.FirstByNameDistinct | app.py:729-732 | No two operators kept share a name. |
| Operators.FirstByNameFirst | app.py:731-732 | Each operator kept is the first one carrying its name. |
| Operators.FirstByNameKeeps | app.py:729-732 | Every name of the input is kept. |
| Operators.ParseOperators | app.py:692-734 | The parsed list is the first operator of each name, sorted by name. |
| Operators.GetOperatorsList | app.py:653-760 | The reply for the query: the catalog and version defaults, `version_key`, the `:v` suffix, then the command's outcome. |
| Operators.AnswerOperators | app.py:683-745 | A nonzero exit is an error. Otherwise the parsed operators are returned. |
| Operators.OperatorsStrictlyByName | app.py:734 | The listing names each operator once, in strictly increasing name order. |
| Operators.OperatorsFirstWins | app.py:729-734 | Every operator listed is the first one some line gives for its name, and every name any line gives is listed. |
| Operators.OperatorLinesFound | app.py:695-734 | A name is listed exactly when some output line, stripped, is an operator line whose first word it is. |
| Operators.ListedFromLine | app.py:709-726 | Each listed operator comes from an output line that names it. |
| Operators.LineListed | app.py:709-711 | The first word of each operator line is listed. |
| Operators.ParseOperatorChannels | app.py:807-831 | The loop yields the channel words of mentioning lines, without repeats, or `stable`/`fast` when there are none. |
| Operators.AddWordChannels | app.py:816-824 | The word loop appends each channel word not yet listed. |
| Operators.WordStep | app.py:817-824 | One more word appends its channel exactly when it is a channel word not yet listed. |
| Operators.TokenInfosMembers | app.py:817-822 | The channels of a word list are exactly its keyword or hyphenated words, each marked default exactly when it is `stable`. |
| Operators.GetOperatorChannels | app.py:764-854 | The reply for the query and the command's outcome. A failing command still answers with `stable`. |
| Operators.AnswerChannels | app.py:794-840 | A nonzero exit gives the `stable` default. Otherwise the parsed channels, with `default_channel` `stable`. |
| Operators.ChannelsWellFormed | app.py:807-831 | Whatever the output, at least one channel is listed, each once. Each is a keyword or hyphenated word, and only `stable` is marked default. |
| Operators.CandidateWellFormed | app.py:818-822 | A channel found is a channel word, marked default exactly when it is `stable`. |
| Operators.ChannelsFromWords | app.py:811-824 | When some line yields a channel, a channel is listed exactly when a mentioning line has it as a channel word. |
| Requests.ValidateConfig | app.py:1028-1091 | The reply is `ValidationFrom(data)`: the section check, then the warning loops and chart loop in source order. |
| Requests.CollectWarnings | app.py:1048-1069 | The warnings are the version, catalog and image warnings, in that order. |
| Requests.VersionWarnings | app.py:1049-1055 | One warning per non-blank version not shaped `d.d.d...`, in order. |
| Requests.ImageWarnings | app.py:1064-1069 | One warning per non-blank image without `:`, in order. |
| Requests.CheckCharts | app.py:1072-1077 | Each chart adds a name error, then a repository error, for what it lacks. |
| Requests.ValidIff | app.py:1045-1081 | `valid` holds exactly when some section is present and every chart has a name and a repository. It holds exactly when there are no errors. Warnings never affect it. |
| Requests.ValidationErrors | app.py:1045-1077 | Every error is one of the three fixed messages. The section error is present exactly when no section is, and then it is the only error. |
| Requests.ChartsErrorsEmpty | app.py:1072-1077 | The charts raise no error exactly when each has a non-empty name and repository. |
| Requests.ChartsErrorsMessages | app.py:1074-1077 | A name error appears exactly when some chart lacks a name, and a repository error exactly when some chart lacks a repository. |
| Requests.VersionWarned | app.py:1050-1055 | A non-blank version draws its warning exactly when its stripped text is not three or more parts whose first three are digits. |
| Requests.ReleaseNotWarned | app.py:1053-1054 | `a.b.c` with digit parts draws no warning. |
| Requests.MinorWarned | app.py:1053-1055 | A bare `a.b` draws a warning. |
| Requests.VersionMessageInjective | app.py:1055 | Different entries give different warnings. |
| Requests.StrippedNonBlankMembers | app.py:878-906 | The comprehension keeps exactly the stripped non-blank entries, and each is its own strip. |
| Requests.RequestCatalogs | app.py:893-897 | There is always at least one catalog. A non-empty `operator_catalogs` wins. Failing that, a non-empty `operator_catalog` gives a one-element list. Otherwise the list is the Red Hat index alone. |
| Requests.ByNames | app.py:889-901 | Each operator name is passed as a plain string, one per name, in order: element i is the bare-name input of name i. |
| Requests.GeneratePreview | app.py:858-931 | The reply is `PreviewFrom(...)`: a fresh generator, one call per present section, then `generate_yaml`. |
| Requests.AddSections | app.py:869-906 | The platform, operator and image calls are made only when their section is present, in source order. |
| Requests.AddOperatorsToCatalogs | app.py:900-901 | One `add_operators` call per catalog, with the stripped catalog. |
| Requests.Blocks | app.py:899-901 | One block per catalog, in order, each holding every name. No blocks when there are no names. |
| Requests.OperatorBlocksAppended | app.py:899-901 | The catalog loop appends `Blocks(names, catalogs)` and changes nothing else. |
| Requests.BlockContents | app.py:901 | Each block names the stripped catalog and holds one package per name, in order. |
| Requests.PreviewOutcome | app.py:863-931 | A request without a body is refused. The preview fails exactly when some chart lacks a name. |
| Requests.PreviewContents | app.py:866-917 | The document holds the `add_ocp_versions` entry when asked, one operator block per catalog, the stripped non-blank images, the KubeVirt flag, fresh metadata and no `archiveSize`. |
| Requests.PreviewDefaultChannel | app.py:870-879 | With no channel or bounds and a first version `a.b.rest`, the channel is `stable-a.b`. |
| Refresh.RefreshReleaseOfLine | refresh_function.py:32-44 | A line contributes exactly when its stripped text is `X.Y`, and it contributes that text. |
| Refresh.VersionTextSkipsFilters | refresh_function.py:35-41 | An `X.Y` line is never dropped by the blank, warning or header filters. |
| Refresh.RefreshReleases | refresh_function.py:29-49 | The loop keeps the distinct `X.Y` lines, then sorts them newest first. |
| Refresh.RefreshVersions | refresh_function.py:1-101 | The reply and what is written are `RefreshFrom(run(...), now)`. |
| Refresh.WrittenOnlyOnSuccess | refresh_function.py:20-68 | Something is written exactly when the command completed with exit 0, and exactly when the reply is a success. |
| Refresh.NonzeroExitWritesNothing | refresh_function.py:20-26 | A nonzero exit replies with the tool's stderr and writes nothing. |
| Refresh.RefreshedReleases | refresh_function.py:45-77 | `count` is the number of releases, and the reply repeats the record. The releases have no repeats and are newest first. |
| Refresh.RefreshedReleaseLines | refresh_function.py:30-46 | A release is written exactly when some output line, stripped, is that `X.Y`. |
| Exceptions.NewError | exceptions.py:14-26 | `details` defaults to `{}` and `original_error` to `None`. The message and the wrapped error are kept. |
| Exceptions.NewCatalogError | exceptions.py:42-57 | Records `catalog`, then `version`, each only when truthy. |
| Exceptions.NewOperatorError | exceptions.py:73-91 | Records `operator`, `channel`, `version`, in that order, each only when truthy. |
| Exceptions.NewVersionError | exceptions.py:107-125 | Records `version`, `min_version`, `max_version`, in that order, each only when truthy. |
| Exceptions.NewConfigurationError | exceptions.py:141-156 | Records `config_key`, then `config_value`, each only when truthy. |
| Exceptions.NewFileOperationError | exceptions.py:162-177 | Records `file_path`, then `operation`, each only when truthy. |
| Exceptions.NewNetworkError | exceptions.py:183-198 | Records `url`, then `status_code`, each only when truthy. |
| Exceptions.NewGenerationError | exceptions.py:204-216 | Records `stage` only when truthy. |
| Exceptions.TruthyFieldsSnoc | exceptions.py:52-56 | Recording one more field is one more conditional insertion. |
| Exceptions.TruthyFieldsFromFields | exceptions.py:52-57 | Only given fields are recorded, each with its truthy value. |
| Exceptions.TruthyFieldsKeys | exceptions.py:52-57 | With distinct field names, a field is recorded exactly when its value is truthy. |
| Exceptions.Items | exceptions.py:32 | One `k=v` item per detail, in insertion order. |
| Exceptions.FormatPlain | exceptions.py:24-36 | With no details (absent or empty) and no wrapped error, the text is the message. |
| Exceptions.FormatStartsWithMessage | exceptions.py:30-36 | The text always starts with the message. |
| Exceptions.FormatShowsDetails | exceptions.py:31-33 | Every recorded detail appears in the text as `k=v`. |
| Exceptions.FormatCausedBy | exceptions.py:34-35 | A wrapped error's text ends the message, after ` - Caused by: `. |
| Exceptions.DetailsInOrder | exceptions.py:32 | The details text lists items in insertion order, joined by `, `. |
| Exceptions.NetworkErrorOmitsFalsy | exceptions.py:193-198 | A zero status code is not recorded, and neither is an empty URL. |
| Exceptions.ConfigurationErrorOmitsZero | exceptions.py:151-156 | A zero configuration value is not recorded, and a negative one is. |
| Exceptions.EveryErrorIsBase | exceptions.py:39-216 | Every class is an `ImageSetGeneratorError`. |
| Exceptions.Families | exceptions.py:39-135 | Exactly the two subclasses of each of the Catalog, Operator and Version families sit below it. |
| Exceptions.FirstLevelIsA | exceptions.py:138-216 | A direct subclass of the root is an instance only of itself and the root. |
| Constants.PatternsMatchValidators | constants.py:22-23 | `VERSION_PATTERN` and `CHANNEL_PATTERN` are the validators' patterns. |
| Constants.OperatorMappingsShape | constants.py:58-77 | The alias table has 18 distinct keys, and `logging` maps to `cluster-logging`. |
| Constants.OneDefaultCatalog | constants.py:30-55 | Exactly one base catalog, the Red Hat operator index, is the default. |
| Constants.BaseCatalogsAccepted | constants.py:30-55 | Every base URL starts with `registry.redhat.io` and passes `validate_catalog_url` unchanged. |
| Constants.CatalogUrlAccepted | constants.py:33 | `registry.redhat.io/redhat/<index>` passes the validator for any `[\w-]+` index name. |
| Constants.Lookup | constants.py:58-77 | `table.get(key, default)`: the value at the key's first occurrence, or the default when the key is absent. |
| Constants.Get | constants.py:58-77 | `table.get(key)`: present exactly when the key occurs, with the value at its first occurrence. |
| Process.OutputLinesRejoin | app.py:66 | `stdout.strip().split('\n')` has at least one line, no line holds a newline, and joining gives back the stripped output. |
| Process.CollectMembers | app.py:68-82 | What a line loop collects is exactly what some line yields. |
| Process.SortedFirstMembers | app.py:85 | Keeping first occurrences and sorting changes neither which items there are nor where they come from. |
| Ordering.SortBy | app.py:85 | The sort yields a sorted permutation of its input. |
| Ordering.SortByStable | app.py:234 | The sort is stable: for every key, the elements with that key appear in the same order as in the input. |
| Ordering.InsertTies | app.py:234 | Inserting an element puts it ahead of the elements it ties with and keeps their order. |
| Ordering.Insert | app.py:85 | Inserting into a sorted list keeps it sorted, and adds exactly the one element. |
| Ordering.LexLeMatchesSpec | app.py:85 | Python list/tuple comparison decides at the first difference, and a proper prefix is smaller. |
| Ordering.LexLeTotal | app.py:85 | The comparison is total. |
| Ordering.LexLeTrans | app.py:85 | The comparison is transitive. |
| Ordering.LexLeAntisym | app.py:85 | The comparison is antisymmetric. |
| Ordering.MinStr | generator.py:90 | `min(versions)` is a listed version, and no other listed version is smaller in string order. |
| Ordering.MaxStr | generator.py:91 | `max(versions)` is a listed version, and no other listed version is larger in string order. |
| Ordering.MinBy | generator.py:90 | The key-minimum is a listed element with the least key. |
| Ordering.MaxBy | generator.py:91 | The key-maximum is a listed element with the greatest key. |
| Ordering.DedupeFirst | refresh_function.py:45-46 | `if x not in r: r.append(x)` leaves no repeats and keeps exactly the input's values. |
| Ordering.DedupeFirstSnoc | refresh_function.py:45-46 | One more item is kept exactly when it has not been seen. |
| Ordering.PermutationKeepsNoDuplicates | app.py:85 | Reordering keeps a list free of repeats. |
| Ordering.SortedUniqueStrictly | app.py:164 | Sorted by code points and free of repeats means strictly increasing. |
| Text.Strip | validation.py:40 | `str.strip()` never lengthens, and what remains neither starts nor ends with whitespace. |
| Text.StripIdempotent | validation.py:40 | `strip()` is idempotent. |
| Text.StripSurrounded | test_validation.py:80-82 | `strip()` removes exactly the whitespace around a text. |
| Text.JoinSplit | generator.py:84 | Joining the parts of a split with its separator gives back the string. |
| Text.Words | app.py:709 | `str.split()` yields only non-empty words. |
| Text.WordsHead | app.py:709-711 | A text starting with a non-space has a first word, its leading run. |
| Text.Lower | generator.py:138 | `lower()` keeps the length and lower-cases each ASCII letter. |
| Text.Title | app.py:716 | `title()` keeps the length. |
| Text.ReplaceChar | generator.py:190 | `replace(a, b)` keeps the length and swaps each `a` for `b`. |
| Text.VersionNumbers | app.py:85 | `[int(i) for i in x.split('.')]` has one integer per part. |
| Text.VersionNumbersOfRelease | app.py:234 | `a.b.c` with digit parts has the integer key `[a, b, c]`. |
| Text.VersionNumbersOfMinor | app.py:85 | `a.b` with digit parts has the integer key `[a, b]`. |
| Text.DigitsValueOfNatToString | refresh_function.py:74 | Reading back what `str(n)` printed gives `n`. |
| Text.CodesInjective | app.py:164 | Different strings have different code-point sequences, so string order is decided by code points. |

## Left out

- Flask plumbing is not modelled: routing, static files, `jsonify`, HTTP status codes, logging and `datetime` stamps. Stamps are string parameters, and each reply is a datatype.
- `subprocess.run` is a parameter from argument vector to outcome. The timeouts passed to it are not modelled, and neither is how an exception turns into text.
- `yaml.dump` is a parameter of `GenerateYaml`. The serialised form of the document is not modelled.
- The `storageConfig` removal in `generate_yaml` is not modelled, because the builder never creates that key.
- `save_to_file`, `main`/argparse, `generate_download`, `discover_catalogs_for_version`, `get_available_catalogs` and the health and static routes are not part of this model. They are file I/O, command-line handling, or handlers outside the logic modelled here.
- The directory creation and file write of `refresh_versions` are not modelled. The record to be written is returned instead.
- gui.py, launcher.py, update_ocp_function.py and add_functions.py are not part of this model.
- Character classes are ASCII: `\w`, `\d`, `str.isdigit()` (app.py:1054), `lower()` and `title()` do not follow Python's Unicode rules. Python's `isdigit()` also accepts non-ASCII digits and superscripts; the model's does not. `strip()` and `split()` use Python's `isspace` set.
- Non-string inputs to the validators and non-list request fields are not modelled. Python raises or refuses them, while the model's types only admit strings and lists.
- Generator.ImageSetGenerator.AddHelmCharts: a JSON `null` in a chart is read as an absent key, which differs from Python in three cases (generator.py:190-197):
  - A `null` `name`: Python files `{name: None}`, `yaml.dump` writes `name: null`, and `generate_preview` succeeds. The model fails as it does for a missing name.
  - A `null` `repository`: Python raises `AttributeError` on `None.replace`, so the preview fails. The model files the chart under the key `""`.
  - A `null` `version`: Python files `version: None`, written as `version: null`. The model files `""`.
- Requests.PreviewOutcome: for the same reason, a chart whose `name` is `null` makes the model's preview fail, while Python's succeeds with `name: null`.
- Generator.PackageBySpec: an operator dict whose `name` is `null` is read as `""`, while Python raises `AttributeError` on `None.lower()` (generator.py:146). `generate_preview` passes only plain names (app.py:901), so this affects direct callers of `add_operators` only.
- Requests.RequestChannel: a JSON `null` `ocp_channel` is read as an absent key, so the model uses `stable-4.14`. Python's `data.get('ocp_channel', 'stable-4.14')` (app.py:872) returns `None` for a key that is present and null. `add_ocp_versions` then files `name: None` (generator.py:72-73 with a bound given; generator.py:83-88 otherwise, since `None` is not the default channel). Modelling this would need a platform channel whose name is optional.
- Requests.GeneratePreview: through `Requests.RequestChannel`, a request with `"ocp_channel": null` gets the channel `stable-4.14` or `stable-X.Y` in the model, where Python writes `name: null`.
- Requests.PreviewContents: the `add_ocp_versions` entry it states has that default channel for a `null` `ocp_channel`, where Python's has name `None`.
- Requests.PreviewDefaultChannel: its `ocpChannel.None?` case covers both an absent and a `null` `ocp_channel`. The derived `stable-a.b` holds in Python only for an absent key.
- Every other request field the code reads is read either with `data.get(k)` followed by a truthiness test, or with a falsy default (`[]`, `False`). For all of these, a JSON `null` behaves in Python exactly like an absent key, and the model reads it the same way.
- `DEBUG_MODE`, which constants.py reads from the environment, is not modelled.
- Ordering.SortBy: a stable insertion sort stands for `sorted`/`list.sort`, which are stable too. It works on sequences, not in place.
- Releases.ParseReleases: `sorted(list(set(...)))` gets the order of equal keys (such as `4.16` and `04.16`) from set iteration, which depends on hashing. The model feeds first-seen order into the stable sort. Its proved properties (sorted, no repeats, exact members) hold for any tie order.
- Releases.ParseChannels: the same applies to the order of `set(channels)`. Ties cannot occur there, since distinct strings have distinct code-point keys.
- Text.Title: the contract states only the length. The case mapping is the function's definition.
- Generator.ImageSetGenerator.AddOcpVersions follows the code as written (string-order min/max). The corrected entry `Generator.OcpChannelEntryNumeric` is modelled beside it and is not wired into the builder, so the builder stays faithful to the source.
- Validation.ValidateChannel follows the regex as written. The dashed grammar is `Validation.ValidateDashedChannel`, beside it.

## Findings

| source | as written | input that shows it | evidently intended | confidence | as-written member | corrected member |
|---|---|---|---|---|---|---|
| generator.py:90-91 | `min(versions)` / `max(versions)` compare version strings character by character | `versions=["4.16.9", "4.16.10"]` gives `minVersion` 4.16.10 and `maxVersion` 4.16.9 | the oldest and newest release by numeric components: min 4.16.9, max 4.16.10 | medium, not executed | Generator.LexicographicRangeInverted | Generator.NumericRangeOrdersReleases |
| validation.py:115 | `^[a-zA-Z][a-zA-Z0-9\-]*\d+\.\d+$` has no mandatory dash before the version | `"stable4.16"` is accepted | `<name>-X.Y`, as the comment at validation.py:114 and the error message at validation.py:119 say | medium, not executed | Validation.ChannelAcceptsUndashed | Validation.DashedChannelNarrowsChannel |
