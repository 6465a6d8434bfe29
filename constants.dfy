/**
 * The constant data of `constants.py`: command timeouts, the server port, the
 * version and channel patterns, the base operator catalogs and the table of
 * operator name aliases.
 */
module Constants {
  import opened Wrappers
  import opened Text
  import Validation

  /** Command timeouts, in seconds. */
  const TimeoutOcMirrorShort: int := 30
  const TimeoutOcMirrorMedium: int := 120
  const TimeoutOcMirrorLong: int := 180
  const TimeoutOpmRender: int := 180
  const TimeoutCatalogDiscovery: int := 300

  const DefaultPort: int := 5000

  /** Certificates are verified unless this is switched off. */
  const TlsVerify: bool := true

  const VersionPattern: string := "^\\d+\\.\\d+$"
  const ChannelPattern: string := "^[a-zA-Z][a-zA-Z0-9\\-]*\\d+\\.\\d+$"

  const CatalogRegistry: string := "registry.redhat.io"
  const CatalogOrg: string := "redhat"

  /** One entry of the base catalog list. */
  datatype BaseCatalog = BaseCatalog(name: string, baseUrl: string, description: string, isDefault: bool)

  /** `f"{CATALOG_REGISTRY}/{CATALOG_ORG}/<index>"`. */
  function CatalogUrl(index: string): string {
    CatalogRegistry + "/" + CatalogOrg + "/" + index
  }

  const BaseCatalogs: seq<BaseCatalog> := [
    BaseCatalog("Red Hat Operators", CatalogUrl("redhat-operator-index"),
      "Official Red Hat certified operators", true),
    BaseCatalog("Community Operators", CatalogUrl("community-operator-index"),
      "Community-maintained operators", false),
    BaseCatalog("Certified Operators", CatalogUrl("certified-operator-index"),
      "Third-party certified operators", false),
    BaseCatalog("Red Hat Marketplace", CatalogUrl("redhat-marketplace-index"),
      "Commercial operators from Red Hat Marketplace", false)
  ]

  /** Short operator names and the package names they stand for, in table order. */
  const OperatorMappings: seq<(string, string)> := [
    ("logging", "cluster-logging"),
    ("logging-operator", "cluster-logging"),
    ("monitoring", "cluster-monitoring-operator"),
    ("cluster-monitoring", "cluster-monitoring-operator"),
    ("service-mesh", "servicemeshoperator"),
    ("istio", "servicemeshoperator"),
    ("serverless", "serverless-operator"),
    ("knative", "serverless-operator"),
    ("pipelines", "openshift-pipelines-operator-rh"),
    ("tekton", "openshift-pipelines-operator-rh"),
    ("gitops", "openshift-gitops-operator"),
    ("argocd", "openshift-gitops-operator"),
    ("storage", "odf-operator"),
    ("ocs", "odf-operator"),
    ("ceph", "odf-operator"),
    ("elasticsearch", "elasticsearch-operator"),
    ("jaeger", "jaeger-product"),
    ("kiali", "kiali-ossm")
  ]

  /** `key` first occurs in `table` at index `i`. */
  predicate FirstKeyAt(table: seq<(string, string)>, key: string, i: int) {
    0 <= i < |table| && table[i].0 == key && forall j :: 0 <= j < i ==> table[j].0 != key
  }

  /** `table.get(key, default)`: the value under the first occurrence of `key`, or `default`. */
  function Lookup(table: seq<(string, string)>, key: string, default: string): (r: string)
    ensures (exists i :: 0 <= i < |table| && table[i].0 == key) || r == default
    ensures forall i :: FirstKeyAt(table, key, i) ==> r == table[i].1
    decreases |table|
  {
    if |table| == 0 then default
    else if table[0].0 == key then table[0].1
    else
      var r := Lookup(table[1..], key, default);
      assert forall i :: 1 <= i < |table| ==> table[1..][i - 1] == table[i];
      r
  }

  /** `table.get(key)`: the value under the first occurrence of `key`, or `None` when the key is absent. */
  function Get(table: seq<(string, string)>, key: string): (r: Option<string>)
    ensures r.Some? <==> exists i :: 0 <= i < |table| && table[i].0 == key
    ensures r.Some? ==> exists i :: 0 <= i < |table| && table[i] == (key, r.value)
    ensures forall i :: FirstKeyAt(table, key, i) ==> r == Some(table[i].1)
    decreases |table|
  {
    if |table| == 0 then None
    else if table[0].0 == key then Some(table[0].1)
    else
      var r := Get(table[1..], key);
      assert forall i :: 1 <= i < |table| ==> table[1..][i - 1] == table[i];
      r
  }

  /** The keys of a table are distinct. */
  predicate DistinctKeys(table: seq<(string, string)>) {
    forall i, j :: 0 <= i < j < |table| ==> table[i].0 != table[j].0
  }

  // ---------------------------------------------------------------------
  // Properties of the data
  // ---------------------------------------------------------------------

  /** The version and channel patterns are the ones the validators implement. */
  lemma PatternsMatchValidators()
    ensures VersionPattern == Validation.VersionPattern
    ensures ChannelPattern == Validation.ChannelPattern
  {
  }

  /** The position of each key of `OperatorMappings` in the table, and -1 for any other text. */
  function AliasPosition(key: string): int {
    if key == "logging" then 0
    else if key == "logging-operator" then 1
    else if key == "monitoring" then 2
    else if key == "cluster-monitoring" then 3
    else if key == "service-mesh" then 4
    else if key == "istio" then 5
    else if key == "serverless" then 6
    else if key == "knative" then 7
    else if key == "pipelines" then 8
    else if key == "tekton" then 9
    else if key == "gitops" then 10
    else if key == "argocd" then 11
    else if key == "storage" then 12
    else if key == "ocs" then 13
    else if key == "ceph" then 14
    else if key == "elasticsearch" then 15
    else if key == "jaeger" then 16
    else if key == "kiali" then 17
    else -1
  }

  /** A table whose every key is found at its own position by `pos` has distinct keys. */
  lemma DistinctByPosition(table: seq<(string, string)>, pos: string -> int)
    requires forall i :: 0 <= i < |table| ==> pos(table[i].0) == i
    ensures DistinctKeys(table)
  {
  }

  /** The alias table has 18 distinct keys, and `logging` stands for `cluster-logging`. */
  lemma OperatorMappingsShape()
    ensures |OperatorMappings| == 18
    ensures DistinctKeys(OperatorMappings)
    ensures Lookup(OperatorMappings, "logging", "logging") == "cluster-logging"
  {
    forall i | 0 <= i < |OperatorMappings|
      ensures AliasPosition(OperatorMappings[i].0) == i
    {
    }
    DistinctByPosition(OperatorMappings, AliasPosition);
  }

  /** Exactly one base catalog, the Red Hat operator index, is the default. */
  lemma OneDefaultCatalog()
    ensures forall i :: 0 <= i < |BaseCatalogs| ==> (BaseCatalogs[i].isDefault <==> i == 0)
    ensures BaseCatalogs[0].baseUrl == CatalogUrl("redhat-operator-index")
  {
  }

  /** Every base catalog URL names an image in the Red Hat registry that the catalog validator accepts. */
  lemma BaseCatalogsAccepted()
    ensures forall i :: 0 <= i < |BaseCatalogs| ==> StartsWith(BaseCatalogs[i].baseUrl, CatalogRegistry)
    ensures forall i :: 0 <= i < |BaseCatalogs| ==>
      Validation.ValidateCatalogUrl(Some(BaseCatalogs[i].baseUrl)) == Ok(BaseCatalogs[i].baseUrl)
  {
    forall i | 0 <= i < |BaseCatalogs|
      ensures StartsWith(BaseCatalogs[i].baseUrl, CatalogRegistry)
      ensures Validation.ValidateCatalogUrl(Some(BaseCatalogs[i].baseUrl)) == Ok(BaseCatalogs[i].baseUrl)
    {
      var index := BaseCatalogIndex(i);
      CatalogUrlAccepted(index);
    }
  }

  /** `CatalogUrl(index)` is accepted for any index name. */
  lemma CatalogUrlAccepted(index: string)
    requires Validation.IsNameRun(index)
    ensures StartsWith(CatalogUrl(index), CatalogRegistry)
    ensures Validation.ValidateCatalogUrl(Some(CatalogUrl(index))) == Ok(CatalogUrl(index))
  {
    var url := CatalogUrl(index);
    assert CatalogRegistry + "/" == Validation.RegistryPrefix;
    assert url == Validation.RegistryPrefix + CatalogOrg + "/" + index + "";
    assert url[..|CatalogRegistry|] == CatalogRegistry;
    assert Validation.IsNameRun(CatalogOrg);
    Validation.RegistryImageAccepted(url, CatalogOrg, index, "");
  }

  /** The index image name at the end of each base catalog URL. */
  lemma BaseCatalogIndex(i: nat) returns (index: string)
    requires i < |BaseCatalogs|
    ensures Validation.IsNameRun(index) && BaseCatalogs[i].baseUrl == CatalogUrl(index)
  {
    if i == 0 {
      index := "redhat-operator-index";
      RedhatIndexName();
    } else if i == 1 {
      index := "community-operator-index";
      CommunityIndexName();
    } else if i == 2 {
      index := "certified-operator-index";
      CertifiedIndexName();
    } else {
      index := "redhat-marketplace-index";
      MarketplaceIndexName();
    }
  }

  lemma RedhatIndexName()
    ensures Validation.IsNameRun("redhat-operator-index")
  {
  }

  lemma CommunityIndexName()
    ensures Validation.IsNameRun("community-operator-index")
  {
  }

  lemma CertifiedIndexName()
    ensures Validation.IsNameRun("certified-operator-index")
  {
  }

  lemma MarketplaceIndexName()
    ensures Validation.IsNameRun("redhat-marketplace-index")
  {
  }

}
