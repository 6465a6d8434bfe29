/**
 * The exception hierarchy of `exceptions.py`.  Every error carries a message,
 * an ordered map of details and an optional wrapped error; its text is the
 * message, then ` (k=v, ...)` when there are details, then
 * ` - Caused by: <wrapped>` when an error is wrapped.  Each subclass
 * constructor records its named fields, in a fixed order, and only those
 * whose value is truthy.
 */
module Exceptions {
  import opened Wrappers
  import opened Text

  /** The classes of the hierarchy. */
  datatype ErrorKind =
    | ImageSetGeneratorError
    | CatalogError | CatalogRenderError | CatalogParseError
    | OperatorError | OperatorNotFoundError | InvalidChannelError
    | VersionError | InvalidVersionError | VersionComparisonError
    | ConfigurationError
    | FileOperationError
    | NetworkError
    | GenerationError

  /** The direct base class of each class; the root has none. */
  function Parent(k: ErrorKind): Option<ErrorKind> {
    match k
    case ImageSetGeneratorError => None
    case CatalogRenderError | CatalogParseError => Some(CatalogError)
    case OperatorNotFoundError | InvalidChannelError => Some(OperatorError)
    case InvalidVersionError | VersionComparisonError => Some(VersionError)
    case _ => Some(ImageSetGeneratorError)
  }

  /** Distance from the root of the hierarchy. */
  function Depth(k: ErrorKind): nat {
    match k
    case ImageSetGeneratorError => 0
    case CatalogRenderError | CatalogParseError | OperatorNotFoundError | InvalidChannelError
      | InvalidVersionError | VersionComparisonError => 2
    case _ => 1
  }

  /** `isinstance(e, ancestor)` for an error of class `k`: `ancestor` is `k` or one of its bases. */
  predicate IsA(k: ErrorKind, ancestor: ErrorKind)
    decreases Depth(k)
  {
    k == ancestor || (Parent(k).Some? && Depth(Parent(k).value) < Depth(k) && IsA(Parent(k).value, ancestor))
  }

  /** A value stored in a details map. */
  datatype Value = Str(s: string) | Int(i: int) | Bool(b: bool) | NoneValue

  /** Python truthiness of a value. */
  predicate Truthy(v: Value) {
    match v
    case Str(s) => s != ""
    case Int(i) => i != 0
    case Bool(b) => b
    case NoneValue => false
  }

  /** `str(v)`. */
  function Render(v: Value): string {
    match v
    case Str(s) => s
    case Int(i) => IntToString(i)
    case Bool(b) => if b then "True" else "False"
    case NoneValue => "None"
  }

  /** An ordered dictionary: keys in insertion order. */
  type Details = seq<(string, Value)>

  /** An exception object: its class, `message`, `details` and `original_error` (as the text `str()` gives it). */
  datatype Error = Error(kind: ErrorKind, message: string, details: Details, originalError: Option<string>)

  /** `ImageSetGeneratorError.__init__`: `details or {}`; an absent dictionary and an empty one are the same. */
  function NewError(kind: ErrorKind, message: string, details: Option<Details>, originalError: Option<string>): (e: Error)
    ensures e.kind == kind && e.message == message && e.originalError == originalError
    ensures e.details == (if details.Some? then details.value else [])
  {
    Error(kind, message, if details.Some? && |details.value| > 0 then details.value else [], originalError)
  }

  /** One `k=v` item of the details text. */
  function Item(kv: (string, Value)): string {
    kv.0 + "=" + Render(kv.1)
  }

  /** The `k=v` items of the details, in order. */
  function Items(details: Details): (items: seq<string>)
    ensures |items| == |details|
    ensures forall i :: 0 <= i < |details| ==> items[i] == Item(details[i])
  {
    seq(|details|, i requires 0 <= i < |details| => Item(details[i]))
  }

  /** `format_message()`, which is also `str(e)`: the constructor passes it to `Exception.__init__`. */
  function FormatMessage(e: Error): string {
    var withDetails :=
      if |e.details| > 0 then e.message + " (" + JoinWith(Items(e.details), ", ") + ")" else e.message;
    if e.originalError.Some? then withDetails + " - Caused by: " + e.originalError.value else withDetails
  }

  // ---------------------------------------------------------------------
  // The subclass constructors
  // ---------------------------------------------------------------------

  /** `details[key] = value` when `value` is truthy. */
  function PutIfTruthy(details: Details, key: string, value: Value): Details {
    if Truthy(value) then details + [(key, value)] else details
  }

  /** The reference reading of every constructor: the named fields, in order, that are truthy. */
  function TruthyFields(fields: Details): (r: Details)
    ensures |r| <= |fields|
    decreases |fields|
  {
    if |fields| == 0 then []
    else TruthyFields(fields[..|fields| - 1]) + (if Truthy(fields[|fields| - 1].1) then [fields[|fields| - 1]] else [])
  }

  /** Recording one more field is one more conditional insertion. */
  lemma TruthyFieldsSnoc(fields: Details, kv: (string, Value))
    ensures TruthyFields(fields + [kv]) == PutIfTruthy(TruthyFields(fields), kv.0, kv.1)
  {
    assert (fields + [kv])[..|fields|] == fields;
  }

  /** `CatalogError` and its subclasses `CatalogRenderError` and `CatalogParseError`. */
  function NewCatalogError(kind: ErrorKind, message: string, catalog: Value, version: Value,
                           originalError: Option<string>): (e: Error)
    requires IsA(kind, CatalogError)
    ensures e.kind == kind && e.message == message && e.originalError == originalError
    ensures e.details == TruthyFields([("catalog", catalog), ("version", version)])
  {
    var details := PutIfTruthy(PutIfTruthy([], "catalog", catalog), "version", version);
    assert [("catalog", catalog), ("version", version)][..1] == [("catalog", catalog)];
    NewError(kind, message, Some(details), originalError)
  }

  /** `OperatorError` and its subclasses `OperatorNotFoundError` and `InvalidChannelError`. */
  function NewOperatorError(kind: ErrorKind, message: string, operator: Value, channel: Value, version: Value,
                            originalError: Option<string>): (e: Error)
    requires IsA(kind, OperatorError)
    ensures e.kind == kind && e.message == message && e.originalError == originalError
    ensures e.details == TruthyFields([("operator", operator), ("channel", channel), ("version", version)])
  {
    var details := PutIfTruthy(PutIfTruthy(PutIfTruthy([], "operator", operator), "channel", channel), "version", version);
    TruthyFieldsSnoc([("operator", operator)], ("channel", channel));
    TruthyFieldsSnoc([("operator", operator), ("channel", channel)], ("version", version));
    assert [("operator", operator)] + [("channel", channel)] == [("operator", operator), ("channel", channel)];
    assert [("operator", operator), ("channel", channel)] + [("version", version)]
      == [("operator", operator), ("channel", channel), ("version", version)];
    NewError(kind, message, Some(details), originalError)
  }

  /** `VersionError` and its subclasses `InvalidVersionError` and `VersionComparisonError`. */
  function NewVersionError(kind: ErrorKind, message: string, version: Value, minVersion: Value, maxVersion: Value,
                           originalError: Option<string>): (e: Error)
    requires IsA(kind, VersionError)
    ensures e.kind == kind && e.message == message && e.originalError == originalError
    ensures e.details == TruthyFields([("version", version), ("min_version", minVersion), ("max_version", maxVersion)])
  {
    var details := PutIfTruthy(PutIfTruthy(PutIfTruthy([], "version", version), "min_version", minVersion),
      "max_version", maxVersion);
    TruthyFieldsSnoc([("version", version)], ("min_version", minVersion));
    TruthyFieldsSnoc([("version", version), ("min_version", minVersion)], ("max_version", maxVersion));
    assert [("version", version)] + [("min_version", minVersion)] == [("version", version), ("min_version", minVersion)];
    assert [("version", version), ("min_version", minVersion)] + [("max_version", maxVersion)]
      == [("version", version), ("min_version", minVersion), ("max_version", maxVersion)];
    NewError(kind, message, Some(details), originalError)
  }

  /** `ConfigurationError`. */
  function NewConfigurationError(message: string, configKey: Value, configValue: Value,
                                 originalError: Option<string>): (e: Error)
    ensures e.kind == ConfigurationError && e.message == message && e.originalError == originalError
    ensures e.details == TruthyFields([("config_key", configKey), ("config_value", configValue)])
  {
    var details := PutIfTruthy(PutIfTruthy([], "config_key", configKey), "config_value", configValue);
    assert [("config_key", configKey), ("config_value", configValue)][..1] == [("config_key", configKey)];
    NewError(ConfigurationError, message, Some(details), originalError)
  }

  /** `FileOperationError`. */
  function NewFileOperationError(message: string, filePath: Value, operation: Value,
                                 originalError: Option<string>): (e: Error)
    ensures e.kind == FileOperationError && e.message == message && e.originalError == originalError
    ensures e.details == TruthyFields([("file_path", filePath), ("operation", operation)])
  {
    var details := PutIfTruthy(PutIfTruthy([], "file_path", filePath), "operation", operation);
    assert [("file_path", filePath), ("operation", operation)][..1] == [("file_path", filePath)];
    NewError(FileOperationError, message, Some(details), originalError)
  }

  /** `NetworkError`. */
  function NewNetworkError(message: string, url: Value, statusCode: Value,
                           originalError: Option<string>): (e: Error)
    ensures e.kind == NetworkError && e.message == message && e.originalError == originalError
    ensures e.details == TruthyFields([("url", url), ("status_code", statusCode)])
  {
    var details := PutIfTruthy(PutIfTruthy([], "url", url), "status_code", statusCode);
    assert [("url", url), ("status_code", statusCode)][..1] == [("url", url)];
    NewError(NetworkError, message, Some(details), originalError)
  }

  /** `GenerationError`. */
  function NewGenerationError(message: string, stage: Value, originalError: Option<string>): (e: Error)
    ensures e.kind == GenerationError && e.message == message && e.originalError == originalError
    ensures e.details == TruthyFields([("stage", stage)])
  {
    var details := PutIfTruthy([], "stage", stage);
    NewError(GenerationError, message, Some(details), originalError)
  }

  // ---------------------------------------------------------------------
  // Properties
  // ---------------------------------------------------------------------

  /** Only given fields are recorded, each with its own truthy value. */
  lemma {:induction false} TruthyFieldsFromFields(fields: Details)
    ensures forall x :: x in TruthyFields(fields) ==> x in fields && Truthy(x.1)
    decreases |fields|
  {
    if |fields| > 0 {
      var last := |fields| - 1;
      TruthyFieldsFromFields(fields[..last]);
      assert forall x :: x in fields[..last] ==> x in fields;
    }
  }

  /** With distinct keys, a key is recorded exactly when its value is truthy. */
  lemma {:induction false} TruthyFieldsKeys(fields: Details, key: string)
    requires forall i, j :: 0 <= i < j < |fields| ==> fields[i].0 != fields[j].0
    ensures (exists v :: (key, v) in TruthyFields(fields))
        <==> (exists i :: 0 <= i < |fields| && fields[i].0 == key && Truthy(fields[i].1))
    decreases |fields|
  {
    if |fields| > 0 {
      var last := |fields| - 1;
      TruthyFieldsKeys(fields[..last], key);
      var r := TruthyFields(fields);
      assert r == TruthyFields(fields[..last]) + (if Truthy(fields[last].1) then [fields[last]] else []);
      if exists i :: 0 <= i < |fields| && fields[i].0 == key && Truthy(fields[i].1) {
        var i :| 0 <= i < |fields| && fields[i].0 == key && Truthy(fields[i].1);
        if i < last {
          assert fields[..last][i] == fields[i];
          var v :| (key, v) in TruthyFields(fields[..last]);
          assert (key, v) in r;
        } else {
          assert (key, fields[last].1) in r;
        }
      }
      if exists v :: (key, v) in r {
        var v :| (key, v) in r;
        if (key, v) in TruthyFields(fields[..last]) {
          var i :| 0 <= i < last && fields[..last][i].0 == key && Truthy(fields[..last][i].1);
          assert fields[i] == fields[..last][i];
        } else {
          assert fields[last].0 == key && Truthy(fields[last].1);
        }
      }
    }
  }

  /** With no details and no wrapped error, the text is the message itself. */
  lemma FormatPlain(message: string, kind: ErrorKind)
    ensures FormatMessage(NewError(kind, message, None, None)) == message
    ensures FormatMessage(NewError(kind, message, Some([]), None)) == message
  {
  }

  /** The text always starts with the message. */
  lemma FormatStartsWithMessage(e: Error)
    ensures StartsWith(FormatMessage(e), e.message)
  {
    var withDetails :=
      if |e.details| > 0 then e.message + " (" + JoinWith(Items(e.details), ", ") + ")" else e.message;
    assert withDetails[..|e.message|] == e.message;
    if e.originalError.Some? {
      assert (withDetails + " - Caused by: " + e.originalError.value)[..|e.message|] == e.message;
    }
  }

  /** Every recorded detail appears in the text as `k=v`. */
  lemma FormatShowsDetails(e: Error, i: nat)
    requires i < |e.details|
    ensures Contains(FormatMessage(e), e.details[i].0 + "=" + Render(e.details[i].1))
  {
    var items := Items(e.details);
    JoinWithContains(items, ", ", i);
    var joined := JoinWith(items, ", ");
    var withDetails := e.message + " (" + joined + ")";
    ContainsSuffix(e.message + " (", joined, items[i]);
    assert withDetails == (e.message + " (" + joined) + ")";
    ContainsPrefix(e.message + " (" + joined, ")", items[i]);
    if e.originalError.Some? {
      ContainsPrefix(withDetails, " - Caused by: " + e.originalError.value, items[i]);
      assert withDetails + " - Caused by: " + e.originalError.value == withDetails + (" - Caused by: " + e.originalError.value);
    }
  }

  /** Whatever a prefix contains, the whole string contains. */
  lemma ContainsPrefix(s: string, post: string, sub: string)
    requires Contains(s, sub)
    ensures Contains(s + post, sub)
  {
    ContainsOccurs(s, sub);
    var i: nat :| OccursAt(s, sub, i);
    assert (s + post)[i..i + |sub|] == s[i..i + |sub|];
    ContainsAt(s + post, sub, i);
  }

  /** A wrapped error's text closes the formatted message, after the details. */
  lemma FormatCausedBy(e: Error)
    requires e.originalError.Some?
    ensures var m := FormatMessage(e);
      var tail := " - Caused by: " + e.originalError.value;
      |tail| <= |m| && m[|m| - |tail|..] == tail
  {
  }

  /** The details text lists the items in insertion order: earlier items come first. */
  lemma DetailsInOrder(d1: Details, d2: Details)
    requires |d1| > 0 && |d2| > 0
    ensures JoinWith(Items(d1 + d2), ", ") == JoinWith(Items(d1), ", ") + ", " + JoinWith(Items(d2), ", ")
  {
    assert Items(d1 + d2) == Items(d1) + Items(d2);
    JoinWithAppend(Items(d1), Items(d2), ", ");
  }

  /** A zero status code is not recorded, and neither is an empty URL. */
  lemma NetworkErrorOmitsFalsy(message: string)
    ensures NewNetworkError(message, Str("https://registry.redhat.io/v2/"), Int(0), None).details
      == [("url", Str("https://registry.redhat.io/v2/"))]
    ensures NewNetworkError(message, Str(""), Int(504), None).details == [("status_code", Int(504))]
  {
  }

  /** A zero configuration value is not recorded; a negative one is. */
  lemma ConfigurationErrorOmitsZero(message: string)
    ensures NewConfigurationError(message, Str("timeout"), Int(0), None).details == [("config_key", Str("timeout"))]
    ensures NewConfigurationError(message, Str("timeout"), Int(-1), None).details
      == [("config_key", Str("timeout")), ("config_value", Int(-1))]
  {
  }

  /** Every class is an `ImageSetGeneratorError`. */
  lemma EveryErrorIsBase(k: ErrorKind)
    ensures IsA(k, ImageSetGeneratorError)
  {
    match k
    case ImageSetGeneratorError =>
    case CatalogRenderError | CatalogParseError => assert IsA(CatalogError, ImageSetGeneratorError);
    case OperatorNotFoundError | InvalidChannelError => assert IsA(OperatorError, ImageSetGeneratorError);
    case InvalidVersionError | VersionComparisonError => assert IsA(VersionError, ImageSetGeneratorError);
    case _ =>
  }

  /** The three families: exactly the two subclasses of each family sit below it. */
  lemma Families(k: ErrorKind)
    ensures IsA(k, CatalogError) <==> k in {CatalogError, CatalogRenderError, CatalogParseError}
    ensures IsA(k, OperatorError) <==> k in {OperatorError, OperatorNotFoundError, InvalidChannelError}
    ensures IsA(k, VersionError) <==> k in {VersionError, InvalidVersionError, VersionComparisonError}
  {
    if Depth(k) == 2 {
      var p := Parent(k).value;
      FirstLevelIsA(p, CatalogError);
      FirstLevelIsA(p, OperatorError);
      FirstLevelIsA(p, VersionError);
    } else if Depth(k) == 1 {
      FirstLevelIsA(k, CatalogError);
      FirstLevelIsA(k, OperatorError);
      FirstLevelIsA(k, VersionError);
    }
  }

  /** A direct subclass of the root is an instance of itself and of the root only. */
  lemma FirstLevelIsA(k: ErrorKind, a: ErrorKind)
    requires Depth(k) == 1
    ensures IsA(k, a) <==> a == k || a == ImageSetGeneratorError
  {
    assert Parent(k) == Some(ImageSetGeneratorError);
  }
}
