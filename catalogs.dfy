/**
 * Operator catalogs in the web application (app.py): the `major.minor`
 * version key, the catalog image for a version (`/api/operators/catalogs/<version>`),
 * the `:v<key>` suffix the operator endpoints add, and the ranked listing of
 * the base catalogs checked with `oc-mirror` (`/api/operators/catalogs/<version>/list`).
 */
module Catalogs {
  import opened Wrappers
  import opened Text
  import opened Ordering
  import opened Validation
  import opened Constants
  import opened Process
  import Generator

  // ---------------------------------------------------------------------
  // version_key
  // ---------------------------------------------------------------------

  /** `version_key`: the first two dot-separated parts when `version` has a dot, else `version` itself. */
  function VersionKey(version: string): (key: string)
  {
    if HasChar(version, '.') then
      var parts := Split(version, '.');
      assert |parts| >= 2 by { SplitHasTwoParts(version, '.'); }
      parts[0] + "." + parts[1]
    else version
  }

  /** The key is the `major.minor` that `add_ocp_versions` derives a channel name from. */
  lemma VersionKeyIsMajorMinor(version: string)
    ensures VersionKey(version) == Generator.MajorMinor(version)
  {
    var parts := Split(version, '.');
    if HasChar(version, '.') {
      SplitHasTwoParts(version, '.');
      var two := if |parts| <= 2 then parts else parts[..2];
      assert |two| == 2 && two[0] == parts[0] && two[1] == parts[1];
      assert two[1..] == [parts[1]];
      assert Join(two, '.') == parts[0] + ['.'] + parts[1];
    } else {
      SplitNoSep(version, '.');
    }
  }

  /** A key has at most one dot, so taking the key again changes nothing. */
  lemma VersionKeyIdempotent(version: string)
    ensures VersionKey(VersionKey(version)) == VersionKey(version)
  {
    if HasChar(version, '.') {
      var parts := Split(version, '.');
      SplitHasTwoParts(version, '.');
      var a, b := parts[0], parts[1];
      SplitNoSep(b, '.');
      SplitAtFirst(a, '.', b);
      assert a + "." + b == a + ['.'] + b;
      assert HasChar(a + "." + b, '.') by {
        assert (a + "." + b)[|a|] == '.';
      }
    }
  }

  /** A release `a.b.c` has the key `a.b`. */
  lemma VersionKeyOfRelease(a: string, b: string, c: string)
    requires !HasChar(a, '.') && !HasChar(b, '.') && !HasChar(c, '.')
    ensures VersionKey(a + "." + b + "." + c) == a + "." + b
  {
    var v := a + "." + b + "." + c;
    SplitNoSep(c, '.');
    SplitAtFirst(b, '.', c);
    assert v == a + ['.'] + (b + ['.'] + c);
    SplitAtFirst(a, '.', b + ['.'] + c);
    assert v[|a|] == '.';
  }

  // ---------------------------------------------------------------------
  // GET /api/operators/catalogs/<version>
  // ---------------------------------------------------------------------

  /** The minor version `4.<n>`. */
  function MinorName(n: nat): string {
    "4." + NatToString(n)
  }

  /**
   * `catalog_mappings`: keys 4.30 down to 4.0, each mapped to the Red Hat
   * operator index tagged `:v<key>`.
   */
  function CatalogMappings(): (table: seq<(string, string)>)
    ensures |table| == 31
  {
    seq(31, i requires 0 <= i < 31 => MappingFor(30 - i))
  }

  /** The entry for `4.<n>`: the key and the index tagged with it. */
  function MappingFor(n: nat): (string, string) {
    (MinorName(n), Generator.DefaultCatalog + ":v" + MinorName(n))
  }

  /** `catalog_mappings.get(version_key, <unversioned index>)`. */
  function OperatorCatalogFor(version: string): (url: string)
  {
    match Get(CatalogMappings(), VersionKey(version))
    case Some(u) => u
    case None => Generator.DefaultCatalog
  }

  /** A key from 4.0 to 4.30 gets the index tagged with that key. */
  lemma OperatorCatalogForKnown(version: string, n: nat)
    requires n <= 30 && VersionKey(version) == MinorName(n)
    ensures OperatorCatalogFor(version) == Generator.DefaultCatalog + ":v" + VersionKey(version)
  {
    var key, table := VersionKey(version), CatalogMappings();
    assert table[30 - n] == MappingFor(n);
    forall j | 0 <= j < 30 - n
      ensures table[j].0 != key
    {
      assert table[j] == MappingFor(30 - j);
      if table[j].0 == key {
        MinorNameInjective(30 - j, n);
      }
    }
    assert FirstKeyAt(table, key, 30 - n);
  }

  /** Distinct minor numbers give distinct keys. */
  lemma MinorNameInjective(m: nat, n: nat)
    requires MinorName(m) == MinorName(n)
    ensures m == n
  {
    assert NatToString(m) == MinorName(m)[2..] == MinorName(n)[2..] == NatToString(n);
    DigitsValueOfNatToString(m);
    DigitsValueOfNatToString(n);
  }

  /** Any other key gets the unversioned index. */
  lemma OperatorCatalogForUnknown(version: string)
    requires forall n: nat :: n <= 30 ==> VersionKey(version) != MinorName(n)
    ensures OperatorCatalogFor(version) == Generator.DefaultCatalog
  {
    var key, table := VersionKey(version), CatalogMappings();
    forall i | 0 <= i < |table| ensures table[i].0 != key {
      assert table[i] == MappingFor(30 - i);
    }
    assert Get(table, key).None?;
  }

  /** Whatever the version, the catalog served passes the catalog URL validator. */
  lemma OperatorCatalogAccepted(version: string)
    ensures ValidateCatalogUrl(Some(OperatorCatalogFor(version))) == Ok(OperatorCatalogFor(version))
  {
    match Get(CatalogMappings(), VersionKey(version))
    case None =>
      DefaultIndexAccepted();
    case Some(u) =>
      var i :| 0 <= i < |CatalogMappings()| && CatalogMappings()[i] == (VersionKey(version), u);
      MappedIndexAccepted(i);
  }

  /** The unversioned Red Hat index passes the catalog URL validator. */
  lemma DefaultIndexAccepted()
    ensures ValidateCatalogUrl(Some(Generator.DefaultCatalog)) == Ok(Generator.DefaultCatalog)
  {
    DefaultIndexName();
    RegistryImageAccepted(Generator.DefaultCatalog, "redhat", "redhat-operator-index", "");
  }

  /** Every catalog the version table holds passes the catalog URL validator. */
  lemma MappedIndexAccepted(i: nat)
    requires i < |CatalogMappings()|
    ensures ValidateCatalogUrl(Some(CatalogMappings()[i].1)) == Ok(CatalogMappings()[i].1)
  {
    TaggedIndexAccepted(30 - i, CatalogMappings()[i].1);
  }

  /** The unversioned Red Hat index is `registry.redhat.io/redhat/redhat-operator-index`. */
  lemma DefaultIndexName()
    ensures IsNameRun("redhat") && IsNameRun("redhat-operator-index")
    ensures Generator.DefaultCatalog == RegistryPrefix + "redhat" + "/" + "redhat-operator-index"
  {
    RedhatNameRun();
    RedhatIndexName();
    DefaultCatalogParts();
  }

  lemma RedhatNameRun()
    ensures IsNameRun("redhat")
  {
  }

  lemma DefaultCatalogParts()
    ensures Generator.DefaultCatalog == RegistryPrefix + "redhat" + "/" + "redhat-operator-index"
  {
  }

  /** The default base catalog is the image `add_operators` uses by default. */
  lemma DefaultBaseCatalog()
    ensures BaseCatalogs[0].isDefault && BaseCatalogs[0].baseUrl == Generator.DefaultCatalog
  {
    OneDefaultCatalog();
    assert CatalogRegistry + "/" == RegistryPrefix;
  }

  /** The Red Hat index tagged `:v4.<n>` passes the catalog URL validator. */
  lemma TaggedIndexAccepted(n: nat, url: string)
    requires url == MappingFor(n).1
    ensures ValidateCatalogUrl(Some(url)) == Ok(url)
  {
    var d := NatToString(n);
    var tag := ":v" + MinorName(n);
    assert tag[..2] == ":v" && tag[2..] == "4" + "." + d;
    assert IsDigits("4") && IsDigits(d);
    assert IsVersionTag(tag);
    DefaultIndexName();
    RegistryImageAccepted(url, "redhat", "redhat-operator-index", tag);
  }

  // ---------------------------------------------------------------------
  // The `:v` suffix of the operator endpoints
  // ---------------------------------------------------------------------

  /** `catalog` unless it already contains `:v`, otherwise `catalog + ":v" + key`. */
  function CatalogWithVersion(catalog: string, key: string): (url: string)
  {
    if Contains(catalog, ":v") then catalog else catalog + ":v" + key
  }

  /** The URL always carries `:v`, and suffixing it again changes nothing. */
  lemma CatalogWithVersionIdempotent(catalog: string, key: string, other: string)
    ensures Contains(CatalogWithVersion(catalog, key), ":v")
    ensures CatalogWithVersion(CatalogWithVersion(catalog, key), other) == CatalogWithVersion(catalog, key)
  {
    if !Contains(catalog, ":v") {
      var url := catalog + ":v" + key;
      assert OccursAt(url, ":v", |catalog|) by {
        assert url[|catalog|..|catalog| + 2] == ":v";
      }
      ContainsAt(url, ":v", |catalog|);
    }
  }

  /**
   * On a catalog without `:v` the endpoints' suffix agrees with the generator's
   * tag rewrite for the same version.
   */
  lemma CatalogWithVersionAgreesWithGenerator(catalog: string, key: string)
    requires !Contains(catalog, ":v") && key != ""
    ensures CatalogWithVersion(catalog, key) == Generator.CatalogFor(catalog, Some(key))
  {
    NoTagWithoutMarker(catalog);
  }

  /** `re.sub(r":v[\d.]+$", "", s)` only removes something where `:v` occurs. */
  lemma NoTagWithoutMarker(s: string)
    ensures Contains(s, ":v") || Generator.RemoveVersionTag(s) == s
  {
    var e := Generator.TagEnd(s);
    var d := SkipBackWhile(s, e, Generator.IsTagChar);
    if 2 <= d < e && s[d - 2] == ':' && s[d - 1] == 'v' {
      assert s[d - 2..d] == ":v";
      ContainsAt(s, ":v", d - 2);
    }
  }

  // ---------------------------------------------------------------------
  // GET /api/operators/catalogs/<version>/list
  // ---------------------------------------------------------------------

  /** One entry of the listing; `error` is absent on success. */
  datatype CatalogInfo = CatalogInfo(
    name: string, url: string, description: string, isDefault: bool,
    validated: bool, operatorsCount: nat, error: Option<string>)

  function CatalogCheckCommand(url: string, key: string): seq<string> {
    [OcMirror, "list", "operators", "--catalogs", url, "--version", key]
  }

  /** The filter of `operator_lines`: not blank, and (before stripping) no `#`, `WARN` or `INFO` start. */
  predicate CountsAsOperator(line: string) {
    Strip(line) != "" && !StartsWith(line, "#") && !StartsWith(line, "WARN") && !StartsWith(line, "INFO")
  }

  /** `len([x for x in xs if p(x)])`. */
  function CountWhere<T>(xs: seq<T>, p: T -> bool): (n: nat)
    ensures n <= |xs|
    decreases |xs|
  {
    if |xs| == 0 then 0
    else CountWhere(xs[..|xs| - 1], p) + (if p(xs[|xs| - 1]) then 1 else 0)
  }

  /** Nothing is counted exactly when no element satisfies `p`. */
  lemma {:induction false} CountWhereZero<T>(xs: seq<T>, p: T -> bool)
    ensures CountWhere(xs, p) == 0 <==> forall i :: 0 <= i < |xs| ==> !p(xs[i])
    decreases |xs|
  {
    if |xs| > 0 {
      var init := xs[..|xs| - 1];
      CountWhereZero(init, p);
      assert forall i :: 0 <= i < |init| ==> init[i] == xs[i];
    }
  }

  /** Everything is counted exactly when every element satisfies `p`. */
  lemma {:induction false} CountWhereAll<T>(xs: seq<T>, p: T -> bool)
    ensures CountWhere(xs, p) == |xs| <==> forall i :: 0 <= i < |xs| ==> p(xs[i])
    decreases |xs|
  {
    if |xs| > 0 {
      var init := xs[..|xs| - 1];
      CountWhereAll(init, p);
      assert forall i :: 0 <= i < |init| ==> init[i] == xs[i];
    }
  }

  /** `len(operator_lines)`. */
  function OperatorLineCount(lines: seq<string>): (n: nat)
    ensures n <= |lines|
  {
    CountWhere(lines, CountsAsOperator)
  }

  /** `operators_count` is 0 exactly when no output line counts as an operator. */
  lemma OperatorLineCountZero(lines: seq<string>)
    ensures OperatorLineCount(lines) == 0 <==> forall i :: 0 <= i < |lines| ==> !CountsAsOperator(lines[i])
  {
    CountWhereZero(lines, CountsAsOperator);
  }

  /** `operators_count` is the number of lines exactly when every output line counts as an operator. */
  lemma OperatorLineCountAll(lines: seq<string>)
    ensures OperatorLineCount(lines) == |lines| <==> forall i :: 0 <= i < |lines| ==> CountsAsOperator(lines[i])
  {
    CountWhereAll(lines, CountsAsOperator);
  }

  /** The entry for base catalog `base`, given how its `oc-mirror list operators` run ended. */
  function CheckCatalog(base: BaseCatalog, key: string, result: RunResult): (info: CatalogInfo)
    ensures info.name == base.name && info.isDefault == base.isDefault
    ensures info.url == base.baseUrl + ":v" + key
    ensures info.description == base.description + " for OCP " + key
    ensures info.validated <==> info.error.None?
    ensures info.validated <==> result.Completed? && result.returnCode == 0
    ensures !info.validated ==> info.operatorsCount == 0
  {
    var info := CatalogInfo(base.name, base.baseUrl + ":v" + key, base.description + " for OCP " + key,
      base.isDefault, false, 0, None);
    match result
    case Completed(code, out, err) =>
      if code == 0 then info.(validated := true, operatorsCount := OperatorLineCount(OutputLines(out)))
      else info.(error := Some(if err != "" then Strip(err) else "Unknown error"))
    case TimedOut => info.(error := Some("Timeout while validating"))
    case NotFound(e) => info.(error := Some(e))
    case Failed(e) => info.(error := Some(e))
  }

  /** `(not validated, -operators_count, name)`, written as one integer sequence. */
  function RankKey(c: CatalogInfo): seq<int> {
    var head: seq<int> := [if c.validated then 0 else 1, -(c.operatorsCount as int)];
    head + Codes(c.name)
  }

  /** The entries in base catalog order, before sorting. */
  function CheckedCatalogs(key: string, run: Runner): (cs: seq<CatalogInfo>)
    ensures |cs| == |BaseCatalogs|
  {
    CheckedEach(BaseCatalogs, key, run)
  }

  /** Each of `bases` checked, in order. */
  function CheckedEach(bases: seq<BaseCatalog>, key: string, run: Runner): (cs: seq<CatalogInfo>)
    ensures |cs| == |bases|
  {
    Map(base => CheckBase(base, key, run), bases)
  }

  /** One base catalog checked with `oc-mirror list operators` at its versioned URL. */
  function CheckBase(base: BaseCatalog, key: string, run: Runner): CatalogInfo {
    CheckCatalog(base, key, run(CatalogCheckCommand(base.baseUrl + ":v" + key, key)))
  }

  /** The `catalogs` of `list_catalogs_for_version`: every base catalog checked, then ranked. */
  method ListCatalogsForVersion(version: string, run: Runner) returns (catalogs: seq<CatalogInfo>)
    ensures catalogs == SortBy(CheckedCatalogs(VersionKey(version), run), RankKey, false)
  {
    var key := VersionKey(version);
    var available := CheckCatalogs(BaseCatalogs, key, run);
    catalogs := SortBy(available, RankKey, false);
  }

  /** The loop over the base catalogs, each checked at `<base>:v<key>`. */
  method CheckCatalogs(bases: seq<BaseCatalog>, key: string, run: Runner) returns (available: seq<CatalogInfo>)
    ensures available == CheckedEach(bases, key, run)
  {
    available := [];
    for i := 0 to |bases|
      invariant available == CheckedEach(bases[..i], key, run)
    {
      var url := bases[i].baseUrl + ":v" + key;
      var info := CheckCatalog(bases[i], key, run(CatalogCheckCommand(url, key)));
      MapSnoc(base => CheckBase(base, key, run), bases[..i + 1]);
      assert bases[..i + 1][..i] == bases[..i];
      available := available + [info];
    }
    assert bases[..|bases|] == bases;
  }

  /** The first two integers decide a lexicographic comparison unless they tie. */
  lemma LexLeFirstTwo(x0: int, x1: int, xs: seq<int>, y0: int, y1: int, ys: seq<int>)
    requires LexLe([x0, x1] + xs, [y0, y1] + ys)
    ensures x0 <= y0
    ensures x0 == y0 ==> x1 <= y1
  {
    var a, b := [x0, x1] + xs, [y0, y1] + ys;
    assert a[0] == x0 && b[0] == y0;
    assert a[1..][0] == x1 && b[1..][0] == y1;
  }

  /**
   * In a list ordered by `RankKey`, validated catalogs come first, and among
   * catalogs that are both validated or both not, the larger operator count
   * comes first.
   */
  lemma CatalogsRanked(cs: seq<CatalogInfo>)
    requires SortedBy(cs, RankKey, false)
    ensures forall i, j :: 0 <= i < j < |cs| ==>
      (cs[j].validated ==> cs[i].validated)
      && (cs[i].validated == cs[j].validated ==> cs[i].operatorsCount >= cs[j].operatorsCount)
  {
    forall i, j | 0 <= i < j < |cs|
      ensures cs[j].validated ==> cs[i].validated
      ensures cs[i].validated == cs[j].validated ==> cs[i].operatorsCount >= cs[j].operatorsCount
    {
      var a, b := cs[i], cs[j];
      assert Before(a, b, RankKey, false);
      LexLeFirstTwo(if a.validated then 0 else 1, -(a.operatorsCount as int), Codes(a.name),
        if b.validated then 0 else 1, -(b.operatorsCount as int), Codes(b.name));
    }
  }

  /** The listing has one entry per base catalog, in ranked order. */
  lemma ListingRanked(version: string, run: Runner)
    ensures var cs := SortBy(CheckedCatalogs(VersionKey(version), run), RankKey, false);
      |cs| == |BaseCatalogs|
      && forall i, j :: 0 <= i < j < |cs| ==> (cs[j].validated ==> cs[i].validated)
  {
    var checked := CheckedCatalogs(VersionKey(version), run);
    var cs := SortBy(checked, RankKey, false);
    assert |cs| == |multiset(cs)| == |multiset(checked)| == |checked|;
    CatalogsRanked(cs);
  }

  /** Every URL the listing checks passes the catalog URL validator when the key is `X.Y`. */
  lemma ListedUrlsAccepted(key: string)
    requires VersionText(key)
    ensures forall i :: 0 <= i < |BaseCatalogs| ==>
      ValidateCatalogUrl(Some(BaseCatalogs[i].baseUrl + ":v" + key)) == Ok(BaseCatalogs[i].baseUrl + ":v" + key)
  {
    DigitsDotDigitsShape(key, 0);
    assert key[0..] == key;
    var tag := ":v" + key;
    assert tag[..2] == ":v" && tag[2..] == key;
    assert IsVersionTag(tag);
    forall i | 0 <= i < |BaseCatalogs|
      ensures ValidateCatalogUrl(Some(BaseCatalogs[i].baseUrl + ":v" + key)) == Ok(BaseCatalogs[i].baseUrl + ":v" + key)
    {
      var index := BaseCatalogIndex(i);
      assert CatalogRegistry + "/" == RegistryPrefix;
      assert BaseCatalogs[i].baseUrl + ":v" + key == RegistryPrefix + CatalogOrg + "/" + index + tag;
      assert IsNameRun(CatalogOrg);
      RegistryImageAccepted(BaseCatalogs[i].baseUrl + ":v" + key, CatalogOrg, index, tag);
    }
  }
}
