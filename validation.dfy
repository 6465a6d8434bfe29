/**
 * The input validators of `validation.py`.  Each one rejects a missing or
 * empty value, strips surrounding whitespace, matches the stripped text
 * against one allow-list regular expression and returns the stripped text.
 *
 * Every regular expression is modelled token by token by a scanner over the
 * string.  Each repeated character class is followed by a character outside
 * the class (or by the end), so the greedy scan is exactly what the regex
 * engine accepts; the one place where backtracking matters (the channel
 * pattern, where `[a-zA-Z0-9\-]*` is followed by `\d+`) is spelled out.
 * Python's `$` also matches just before a final newline (`DollarMatch`).
 * An input that is `None` or not a `str` is `None` here.
 */
module Validation {
  import opened Wrappers
  import opened Text

  /** `ValidationError(ValueError)` with its message. */
  datatype ValidationError = ValidationError(message: string)

  /** The regex source text the validators use. */
  const CatalogUrlPattern: string := "^registry\\.redhat\\.io/[\\w\\-]+/[\\w\\-]+(?::v\\d+\\.\\d+)?$"
  const VersionPattern: string := "^\\d+\\.\\d+$"
  const ChannelPattern: string := "^[a-zA-Z][a-zA-Z0-9\\-]*\\d+\\.\\d+$"
  const PathComponentPattern: string := "^[\\w\\-\\.]+$"

  const RegistryPrefix: string := "registry.redhat.io/"

  /** Python's `$` at the end of a pattern: the rest matches all of `s`, or all of `s` but a final newline. */
  predicate DollarMatch(full: string -> bool, s: string) {
    full(s) || (|s| > 0 && s[|s| - 1] == '\n' && full(s[..|s| - 1]))
  }

  /** On a stripped string `$` can only match at the very end. */
  lemma DollarMatchStripped(full: string -> bool, s: string)
    ensures DollarMatch(full, Strip(s)) <==> full(Strip(s))
  {
    StripNoTrailingNewline(s);
  }

  // ---------------------------------------------------------------------
  // The patterns
  // ---------------------------------------------------------------------

  /** `[\w\-]` */
  predicate IsWordOrDash(c: char) { IsWordChar(c) || c == '-' }

  /** `[a-zA-Z0-9\-]` */
  predicate IsAlnumOrDash(c: char) { IsLetter(c) || IsDigit(c) || c == '-' }

  /** `[\w\-\.]` */
  predicate IsPathChar(c: char) { IsWordChar(c) || c == '-' || c == '.' }

  /** `\d+\.\d+` matches `s[i..]` exactly. */
  predicate DigitsDotDigitsFrom(s: string, i: nat)
    requires i <= |s|
  {
    var j := SkipWhile(s, i, IsDigit);
    j > i && j < |s| && s[j] == '.' &&
    var k := SkipWhile(s, j + 1, IsDigit);
    k > j + 1 && k == |s|
  }

  /** `registry\.redhat\.io/[\w\-]+/[\w\-]+(?::v\d+\.\d+)?` matches all of `s`. */
  predicate CatalogUrlText(s: string) {
    PrefixedImageText(RegistryPrefix, s)
  }

  /** `<pre>[\w\-]+/[\w\-]+(?::v\d+\.\d+)?` matches all of `s`, for a literal prefix `pre`. */
  predicate PrefixedImageText(pre: string, s: string) {
    StartsWith(s, pre) &&
    var j := SkipWhile(s, |pre|, IsWordOrDash);
    j > |pre| && j < |s| && s[j] == '/' &&
    var k := SkipWhile(s, j + 1, IsWordOrDash);
    k > j + 1 &&
    (k == |s| || (k + 2 <= |s| && s[k] == ':' && s[k + 1] == 'v' && DigitsDotDigitsFrom(s, k + 2)))
  }

  /** `\d+\.\d+` matches all of `s`. */
  predicate VersionText(s: string) {
    DigitsDotDigitsFrom(s, 0)
  }

  /**
   * `[a-zA-Z][a-zA-Z0-9\-]*\d+\.\d+` matches all of `s`.  The class run after
   * the letter stops at the dot; `\d+` takes at least its last character, which
   * must therefore be a digit, and the class run gives back nothing else.
   */
  predicate ChannelText(s: string) {
    |s| > 0 && IsLetter(s[0]) &&
    var j := SkipWhile(s, 1, IsAlnumOrDash);
    j >= 2 && j < |s| && s[j] == '.' && IsDigit(s[j - 1]) &&
    var k := SkipWhile(s, j + 1, IsDigit);
    k > j + 1 && k == |s|
  }

  /** `[\w\-\.]+` matches all of `s`. */
  predicate PathComponentText(s: string) {
    |s| > 0 && All(s, IsPathChar)
  }

  // ---------------------------------------------------------------------
  // The validators
  // ---------------------------------------------------------------------

  /** `validate_catalog_url(url)`. */
  function ValidateCatalogUrl(url: Option<string>): (r: Result<string, ValidationError>)
    ensures url.None? || url.value == "" ==> r.Err?
    ensures r.Ok? ==> url.Some? && r.value == Strip(url.value) && CatalogUrlText(r.value)
  {
    if url.None? || url.value == "" then
      Err(ValidationError("Catalog URL must be a non-empty string"))
    else
      var u := Strip(url.value);
      DollarMatchStripped(CatalogUrlText, url.value);
      if !DollarMatch(CatalogUrlText, u) then
        Err(ValidationError("Invalid catalog URL format. Must match pattern: "
          + "registry.redhat.io/<org>/<catalog>[:v<version>]. Got: " + u))
      else
        Ok(u)
  }

  /** `validate_version(version)`. */
  function ValidateVersion(version: Option<string>): (r: Result<string, ValidationError>)
    ensures version.None? || version.value == "" ==> r.Err?
    ensures r.Ok? ==> version.Some? && r.value == Strip(version.value) && VersionText(r.value)
  {
    if version.None? || version.value == "" then
      Err(ValidationError("Version must be a non-empty string"))
    else
      var v := Strip(version.value);
      DollarMatchStripped(VersionText, version.value);
      if !DollarMatch(VersionText, v) then
        Err(ValidationError("Invalid version format. Expected X.Y (e.g., 4.16). Got: " + v))
      else
        Ok(v)
  }

  /** `validate_channel(channel)`. */
  function ValidateChannel(channel: Option<string>): (r: Result<string, ValidationError>)
    ensures channel.None? || channel.value == "" ==> r.Err?
    ensures r.Ok? ==> channel.Some? && r.value == Strip(channel.value) && ChannelText(r.value)
  {
    if channel.None? || channel.value == "" then
      Err(ValidationError("Channel must be a non-empty string"))
    else
      var c := Strip(channel.value);
      DollarMatchStripped(ChannelText, channel.value);
      if !DollarMatch(ChannelText, c) then
        Err(ValidationError("Invalid channel format. Expected <name>-X.Y (e.g., stable-4.16). Got: " + c))
      else
        Ok(c)
  }

  /** `safe_path_component(component)`: the traversal check comes before the allow-list. */
  function SafePathComponent(component: Option<string>): (r: Result<string, ValidationError>)
    ensures component.None? || component.value == "" ==> r.Err?
    ensures r.Ok? ==> component.Some? && r.value == Strip(component.value) && PathComponentText(r.value)
  {
    if component.None? || component.value == "" then
      Err(ValidationError("Path component must be a non-empty string"))
    else
      var c := Strip(component.value);
      DollarMatchStripped(PathComponentText, component.value);
      if Contains(c, "..") || Contains(c, "/") || Contains(c, "\\") then
        Err(ValidationError("Invalid path component. Cannot contain '..',  '/', or '\\'. Got: " + c))
      else if !DollarMatch(PathComponentText, c) then
        Err(ValidationError("Invalid path component. Must contain only alphanumeric, dash, dot, underscore. Got: " + c))
      else
        Ok(c)
  }

  // ---------------------------------------------------------------------
  // What each pattern accepts, stated as the shape of the text
  // ---------------------------------------------------------------------

  /** `s` is `<digits>.<digits>`. */
  ghost predicate IsVersionShape(s: string) {
    exists d1, d2 :: IsDigits(d1) && IsDigits(d2) && s == d1 + "." + d2
  }

  /** `[\w\-]+` in full. */
  predicate IsNameRun(s: string) {
    |s| > 0 && All(s, IsWordOrDash)
  }

  /** The optional group `(?::v\d+\.\d+)?` in full. */
  ghost predicate IsVersionTag(tag: string) {
    tag == "" || (|tag| >= 2 && tag[..2] == ":v" && IsVersionShape(tag[2..]))
  }

  /** `s` is `registry.redhat.io/<org>/<name>` with an optional `:v<X>.<Y>` tag. */
  ghost predicate IsCatalogUrlShape(s: string) {
    exists org, name, tag :: IsNameRun(org) && IsNameRun(name) && IsVersionTag(tag)
      && s == RegistryPrefix + org + "/" + name + tag
  }

  /** `s` is a letter, then letters, digits and dashes, then `<digits>.<digits>`. */
  ghost predicate IsChannelShape(s: string) {
    exists c, mid, d1, d2 :: IsLetter(c) && All(mid, IsAlnumOrDash) && IsDigits(d1) && IsDigits(d2)
      && s == [c] + mid + d1 + "." + d2
  }

  /** The `\d+\.\d+` scanner accepts exactly the `<digits>.<digits>` texts. */
  lemma DigitsDotDigitsShape(s: string, i: nat)
    requires i <= |s|
    ensures DigitsDotDigitsFrom(s, i) <==> IsVersionShape(s[i..])
  {
    if DigitsDotDigitsFrom(s, i) {
      DigitsDotDigitsHasShape(s, i);
    }
    if IsVersionShape(s[i..]) {
      var d1, d2 :| IsDigits(d1) && IsDigits(d2) && s[i..] == d1 + "." + d2;
      VersionShapeScans(s, i, d1, d2);
    }
  }

  lemma DigitsDotDigitsHasShape(s: string, i: nat)
    requires i <= |s| && DigitsDotDigitsFrom(s, i)
    ensures IsVersionShape(s[i..])
  {
    var j := SkipWhile(s, i, IsDigit);
    var d1, d2 := s[i..j], s[j + 1..];
    assert s[i..] == d1 + "." + d2;
    assert forall t :: 0 <= t < |d1| ==> d1[t] == s[i + t];
    assert forall t :: 0 <= t < |d2| ==> d2[t] == s[j + 1 + t];
    assert IsDigits(d1) && IsDigits(d2);
  }

  lemma VersionShapeScans(s: string, i: nat, d1: string, d2: string)
    requires i <= |s| && IsDigits(d1) && IsDigits(d2) && s[i..] == d1 + "." + d2
    ensures DigitsDotDigitsFrom(s, i)
  {
    var j := i + |d1|;
    assert forall t :: i <= t < j ==> s[t] == s[i..][t - i] == d1[t - i];
    assert s[j] == s[i..][|d1|] == '.';
    SkipWhileExact(s, i, j, IsDigit);
    assert forall t :: j + 1 <= t < |s| ==> s[t] == s[i..][t - i] == d2[t - j - 1];
    SkipWhileExact(s, j + 1, |s|, IsDigit);
  }

  /** `validate_version` accepts exactly the stripped texts of the form `<digits>.<digits>`. */
  lemma VersionAcceptsShape(version: string)
    ensures ValidateVersion(Some(version)).Ok? <==> IsVersionShape(Strip(version))
  {
    var v := Strip(version);
    DigitsDotDigitsShape(v, 0);
    assert v[0..] == v;
    if IsVersionShape(v) {
      var d1, d2 :| IsDigits(d1) && IsDigits(d2) && v == d1 + "." + d2;
      assert version != "";
    }
  }

  /** The catalog URL scanner accepts exactly the `registry.redhat.io/<org>/<name>[:v<X>.<Y>]` texts. */
  lemma CatalogUrlTextShape(s: string)
    ensures CatalogUrlText(s) <==> IsCatalogUrlShape(s)
  {
    if CatalogUrlText(s) {
      PrefixedImageTextHasShape(RegistryPrefix, s);
    }
    if IsCatalogUrlShape(s) {
      var org, name, tag :| IsNameRun(org) && IsNameRun(name) && IsVersionTag(tag)
        && s == RegistryPrefix + org + "/" + name + tag;
      PrefixedImageShapeScans(RegistryPrefix, org, name, tag);
    }
  }

  lemma PrefixedImageTextHasShape(pre: string, s: string)
    requires PrefixedImageText(pre, s)
    ensures exists org, name, tag ::
      (IsNameRun(org) && IsNameRun(name) && IsVersionTag(tag) && s == pre + org + "/" + name + tag)
  {
    var j, k := ScanImage(pre, s);
    ImagePieces(pre, s, j, k);
  }

  /** The pieces between the scanner's stops are the organisation, the name and the tag. */
  lemma ImagePieces(pre: string, s: string, j: nat, k: nat)
    requires |pre| < j && j + 1 < k <= |s| && s[..|pre|] == pre && s[j] == '/'
    requires (forall t :: |pre| <= t < j ==> IsWordOrDash(s[t])) && (forall t :: j + 1 <= t < k ==> IsWordOrDash(s[t]))
    requires k < |s| ==> k + 2 <= |s| && s[k] == ':' && s[k + 1] == 'v' && DigitsDotDigitsFrom(s, k + 2)
    ensures exists org, name, tag ::
      (IsNameRun(org) && IsNameRun(name) && IsVersionTag(tag) && s == pre + org + "/" + name + tag)
  {
    var p := |pre|;
    var org, name, tag := s[p..j], s[j + 1..k], s[k..];
    SliceAll(s, p, j, IsWordOrDash);
    SliceAll(s, j + 1, k, IsWordOrDash);
    if k < |s| {
      ScannedTag(s, k);
    } else {
      assert tag == "";
    }
    SliceJoin(s, p, j, k);
    assert IsNameRun(org) && IsNameRun(name) && IsVersionTag(tag);
  }

  /** Where the scanner of `PrefixedImageText` stops: the slash at `j` and the end of the name at `k`. */
  lemma ScanImage(pre: string, s: string) returns (j: nat, k: nat)
    requires PrefixedImageText(pre, s)
    ensures |pre| < j && j + 1 < k <= |s| && s[..|pre|] == pre && s[j] == '/'
    ensures (forall t :: |pre| <= t < j ==> IsWordOrDash(s[t])) && (forall t :: j + 1 <= t < k ==> IsWordOrDash(s[t]))
    ensures k < |s| ==> k + 2 <= |s| && s[k] == ':' && s[k + 1] == 'v' && DigitsDotDigitsFrom(s, k + 2)
  {
    j := SkipWhile(s, |pre|, IsWordOrDash);
    k := SkipWhile(s, j + 1, IsWordOrDash);
  }

  /** A string cut at `p`, at the slash at `j` and at `k` is the concatenation of its pieces. */
  lemma SliceJoin(s: string, p: nat, j: nat, k: nat)
    requires p <= j < k <= |s| && s[j] == '/'
    ensures s == s[..p] + s[p..j] + "/" + s[j + 1..k] + s[k..]
  {
    assert s[j..j + 1] == "/";
    assert s == s[..p] + s[p..j] + s[j..j + 1] + s[j + 1..k] + s[k..];
  }

  /** The pieces of `pre + org + "/" + name + tag`, by position. */
  lemma PartsOfImage(pre: string, org: string, name: string, tag: string)
    ensures var s := pre + org + "/" + name + tag;
      var j, k := |pre| + |org|, |pre| + |org| + 1 + |name|;
      |s| == k + |tag| && s[..|pre|] == pre && s[|pre|..j] == org && s[j] == '/' && s[j + 1..k] == name && s[k..] == tag
  {
  }

  /** A scanned `:v<X>.<Y>` suffix is a version tag. */
  lemma ScannedTag(s: string, k: nat)
    requires k + 2 <= |s| && s[k] == ':' && s[k + 1] == 'v' && DigitsDotDigitsFrom(s, k + 2)
    ensures IsVersionTag(s[k..])
  {
    DigitsDotDigitsShape(s, k + 2);
    assert s[k..][..2] == ":v" && s[k..][2..] == s[k + 2..];
  }

  lemma PrefixedImageShapeScans(pre: string, org: string, name: string, tag: string)
    requires IsNameRun(org) && IsNameRun(name) && IsVersionTag(tag)
    ensures PrefixedImageText(pre, pre + org + "/" + name + tag)
  {
    PartsOfImage(pre, org, name, tag);
    ScansAt(pre, pre + org + "/" + name + tag, org, name, tag);
  }

  /** The scan of a text `s` known piece by piece. */
  lemma ScansAt(pre: string, s: string, org: string, name: string, tag: string)
    requires IsNameRun(org) && IsNameRun(name) && IsVersionTag(tag)
    requires |s| == |pre| + |org| + 1 + |name| + |tag|
    requires s[..|pre|] == pre && s[|pre|..|pre| + |org|] == org && s[|pre| + |org|] == '/'
    requires s[|pre| + |org| + 1..|pre| + |org| + 1 + |name|] == name && s[|pre| + |org| + 1 + |name|..] == tag
    ensures PrefixedImageText(pre, s)
  {
    var p := |pre|;
    var j := p + |org|;
    var k := j + 1 + |name|;
    SkipRun(s, p, org, IsWordOrDash);
    if tag != "" {
      TagScans(s, k);
    } else {
      assert k == |s|;
    }
    SkipRun(s, j + 1, name, IsWordOrDash);
    PrefixedImageTextAt(pre, s, j, k);
  }

  /** The scanner's conditions, with the two runs known to end at `j` and `k`. */
  lemma PrefixedImageTextAt(pre: string, s: string, j: nat, k: nat)
    requires StartsWith(s, pre) && |pre| < j < |s| && s[j] == '/' && j + 1 < k <= |s|
    requires SkipWhile(s, |pre|, IsWordOrDash) == j && SkipWhile(s, j + 1, IsWordOrDash) == k
    requires k == |s| || (k + 2 <= |s| && s[k] == ':' && s[k + 1] == 'v' && DigitsDotDigitsFrom(s, k + 2))
    ensures PrefixedImageText(pre, s)
  {
  }

  /** A version tag at the end of `s` is scanned as `:v` and `<digits>.<digits>`. */
  lemma TagScans(s: string, k: nat)
    requires k <= |s| && s[k..] != "" && IsVersionTag(s[k..])
    ensures k + 2 <= |s| && s[k] == ':' && s[k + 1] == 'v' && DigitsDotDigitsFrom(s, k + 2)
    ensures !IsWordOrDash(s[k])
  {
    var tag := s[k..];
    assert s[k] == tag[0] == ':' && s[k + 1] == tag[1] == 'v';
    assert s[k + 2..] == tag[2..];
    DigitsDotDigitsShape(s, k + 2);
  }

  /** Any `registry.redhat.io/<org>/<name>[:v<X>.<Y>]` image is accepted unchanged. */
  lemma RegistryImageAccepted(u: string, org: string, name: string, tag: string)
    requires IsNameRun(org) && IsNameRun(name) && IsVersionTag(tag)
    requires u == RegistryPrefix + org + "/" + name + tag
    ensures ValidateCatalogUrl(Some(u)) == Ok(u)
  {
    PrefixedImageShapeScans(RegistryPrefix, org, name, tag);
    assert u[0] == 'r';
    ImageEndsInWord(u, org, name, tag);
    StripFixed(u);
    CatalogUrlOutcome(u);
  }

  /** An image ends in a name or version character, never in whitespace. */
  lemma ImageEndsInWord(u: string, org: string, name: string, tag: string)
    requires IsNameRun(org) && IsNameRun(name) && IsVersionTag(tag)
    requires u == RegistryPrefix + org + "/" + name + tag
    ensures |u| > 0 && !IsSpace(u[|u| - 1])
  {
    if tag == "" {
      assert u[|u| - 1] == name[|name| - 1];
    } else {
      var d1, d2 :| IsDigits(d1) && IsDigits(d2) && tag[2..] == d1 + "." + d2;
      assert u[|u| - 1] == tag[|tag| - 1] == d2[|d2| - 1];
    }
  }

  /** `validate_catalog_url` accepts exactly the stripped texts of the catalog URL shape. */
  lemma CatalogUrlAcceptsShape(url: string)
    ensures ValidateCatalogUrl(Some(url)).Ok? <==> IsCatalogUrlShape(Strip(url))
  {
    CatalogUrlTextShape(Strip(url));
    if CatalogUrlText(Strip(url)) {
      assert url != "";
    }
  }

  /** The channel scanner accepts exactly the texts of the channel shape. */
  lemma ChannelTextShape(s: string)
    ensures ChannelText(s) <==> IsChannelShape(s)
  {
    if ChannelText(s) {
      ChannelTextHasShape(s);
    }
    if IsChannelShape(s) {
      var c, mid, d1, d2 :| IsLetter(c) && All(mid, IsAlnumOrDash) && IsDigits(d1) && IsDigits(d2)
        && s == [c] + mid + d1 + "." + d2;
      ChannelShapeScans(c, mid, d1, d2);
    }
  }

  lemma ChannelTextHasShape(s: string)
    requires ChannelText(s)
    ensures IsChannelShape(s)
  {
    var j := SkipWhile(s, 1, IsAlnumOrDash);
    SliceAll(s, 1, j - 1, IsAlnumOrDash);
    SliceAll(s, j - 1, j, IsDigit);
    SliceAll(s, j + 1, |s|, IsDigit);
    CutAround(s, 1, j - 1, j);
    var c, mid, d1, d2 := s[0], s[1..j - 1], s[j - 1..j], s[j + 1..];
    assert s[j..j + 1] == ".";
    assert IsLetter(c) && All(mid, IsAlnumOrDash) && IsDigits(d1) && IsDigits(d2);
    assert s == [c] + mid + d1 + "." + d2;
  }

  /** `s` cut before `a`, `b` and `c`, with one character at `c`. */
  lemma CutAround(s: string, a: nat, b: nat, c: nat)
    requires a == 1 && a <= b <= c < |s|
    ensures s == [s[0]] + s[a..b] + s[b..c] + s[c..c + 1] + s[c + 1..]
  {
    assert s[..a] == [s[0]];
    assert s == s[..a] + s[a..b] + s[b..c] + s[c..c + 1] + s[c + 1..];
  }

  lemma ChannelShapeScans(c: char, mid: string, d1: string, d2: string)
    requires IsLetter(c) && All(mid, IsAlnumOrDash) && IsDigits(d1) && IsDigits(d2)
    ensures ChannelText([c] + mid + d1 + "." + d2)
  {
    var s := [c] + mid + d1 + "." + d2;
    var m := 1 + |mid|;
    var j := m + |d1|;
    assert forall t :: 1 <= t < m ==> s[t] == mid[t - 1];
    assert forall t :: m <= t < j ==> s[t] == d1[t - m];
    assert s[j] == '.';
    SkipWhileExact(s, 1, j, IsAlnumOrDash);
    assert forall t :: j + 1 <= t < |s| ==> s[t] == d2[t - j - 1];
    SkipWhileExact(s, j + 1, |s|, IsDigit);
  }

  /** `validate_channel` accepts exactly the stripped texts of the channel shape. */
  lemma ChannelAcceptsShape(channel: string)
    ensures ValidateChannel(Some(channel)).Ok? <==> IsChannelShape(Strip(channel))
  {
    ChannelTextShape(Strip(channel));
    if ChannelText(Strip(channel)) {
      assert channel != "";
    }
  }

  // ---------------------------------------------------------------------
  // Safety of what the validators let through
  // ---------------------------------------------------------------------

  /** A character that may appear in an accepted catalog URL. */
  predicate IsCatalogUrlChar(c: char) {
    IsWordOrDash(c) || c == '.' || c == '/' || c == ':'
  }

  /** The fixed registry prefix: its characters, and no dot or colon followed by a dot or slash inside it. */
  lemma RegistryPrefixChars(s: string)
    requires StartsWith(s, RegistryPrefix)
    ensures forall i :: 0 <= i < |RegistryPrefix| ==> IsCatalogUrlChar(s[i]) && s[i] != ':'
    ensures forall i :: 0 <= i < |RegistryPrefix| - 1 ==> !(s[i] == '.' && s[i + 1] == '.')
  {
    assert forall i :: 0 <= i < |RegistryPrefix| ==> s[i] == s[..|RegistryPrefix|][i] == RegistryPrefix[i];
  }

  /** The characters of an accepted catalog URL, and what follows its dots and colons. */
  lemma CatalogUrlTextChars(s: string)
    requires CatalogUrlText(s)
    ensures forall i :: 0 <= i < |s| ==> IsCatalogUrlChar(s[i])
    ensures forall i :: 0 <= i < |s| - 1 ==> !(s[i] == '.' && s[i + 1] == '.')
    ensures forall i :: 0 <= i < |s| - 1 ==> !(s[i] == ':' && s[i + 1] == '/')
  {
    var p := |RegistryPrefix|;
    RegistryPrefixChars(s);
    var j := SkipWhile(s, p, IsWordOrDash);
    var k := SkipWhile(s, j + 1, IsWordOrDash);
    // Past the name there is nothing, or `:v`, digits, one dot and digits.
    var m := if k < |s| then SkipWhile(s, k + 2, IsDigit) else k;
    forall i | 0 <= i < |s|
      ensures IsCatalogUrlChar(s[i]) && (s[i] == ':' <==> k < |s| && i == k)
      ensures s[i] == '.' ==> i < p || i == m
    {
      if i < p {
      } else if i < j || j < i < k {
        assert IsWordOrDash(s[i]);
      } else if i == j || i == k || i == k + 1 || i == m {
      } else {
        assert k + 2 <= i < |s| && i != m;
        assert IsDigit(s[i]);
      }
    }
    forall i | 0 <= i < |s| - 1
      ensures !(s[i] == '.' && s[i + 1] == '.')
    {
      if i + 1 < p {
      } else if s[i] == '.' {
        assert i == m || i == p - 1;
        assert s[i + 1] != '.';
      }
    }
  }

  /**
   * An accepted catalog URL cannot climb directories, chain shell commands,
   * hold a space or name a scheme: the rejected test inputs of the catalog
   * validator all fail for one of these reasons.
   */
  lemma AcceptedCatalogUrlIsSafe(url: Option<string>)
    requires ValidateCatalogUrl(url).Ok?
    ensures var u := ValidateCatalogUrl(url).value;
      !Contains(u, "..") && !Contains(u, "://") && !Contains(u, ";") && !Contains(u, " ")
      && !Contains(u, "|") && !Contains(u, "&") && !Contains(u, "`") && !Contains(u, "$")
  {
    CatalogUrlTextSafe(ValidateCatalogUrl(url).value);
  }

  lemma CatalogUrlTextSafe(u: string)
    requires CatalogUrlText(u)
    ensures !Contains(u, "..") && !Contains(u, "://") && !Contains(u, ";") && !Contains(u, " ")
      && !Contains(u, "|") && !Contains(u, "&") && !Contains(u, "`") && !Contains(u, "$")
  {
    CatalogUrlTextChars(u);
    CatalogUrlCharsSafe(u);
  }

  lemma CatalogUrlCharsSafe(u: string)
    requires forall i :: 0 <= i < |u| ==> IsCatalogUrlChar(u[i])
    requires forall i :: 0 <= i < |u| - 1 ==> !(u[i] == '.' && u[i + 1] == '.')
    requires forall i :: 0 <= i < |u| - 1 ==> !(u[i] == ':' && u[i + 1] == '/')
    ensures !Contains(u, "..") && !Contains(u, "://") && !Contains(u, ";") && !Contains(u, " ")
      && !Contains(u, "|") && !Contains(u, "&") && !Contains(u, "`") && !Contains(u, "$")
  {
    NotContainsPair(u, '.', '.');
    NoSchemeSeparator(u);
    NoShellCharacters(u);
  }

  lemma NoShellCharacters(u: string)
    requires forall i :: 0 <= i < |u| ==> IsCatalogUrlChar(u[i])
    ensures !Contains(u, ";") && !Contains(u, " ") && !Contains(u, "|") && !Contains(u, "&") && !Contains(u, "`") && !Contains(u, "$")
  {
    CatalogUrlCharsExclude(u, ";");
    CatalogUrlCharsExclude(u, " ");
    CatalogUrlCharsExclude(u, "|");
    CatalogUrlCharsExclude(u, "&");
    CatalogUrlCharsExclude(u, "`");
    CatalogUrlCharsExclude(u, "$");
  }

  lemma NoSchemeSeparator(u: string)
    requires forall i :: 0 <= i < |u| - 1 ==> !(u[i] == ':' && u[i + 1] == '/')
    ensures !Contains(u, "://")
  {
    NotContainsPair(u, ':', '/');
    assert "://" == ":/" + "/";
    ContainsLonger(u, ":/", "/");
  }

  lemma CatalogUrlCharsExclude(u: string, x: string)
    requires forall i :: 0 <= i < |u| ==> IsCatalogUrlChar(u[i])
    requires |x| == 1 && !IsCatalogUrlChar(x[0])
    ensures !Contains(u, x)
  {
    assert All(u, IsCatalogUrlChar);
    assert x == [x[0]];
    NotContainsOutside(u, IsCatalogUrlChar, x[0]);
  }

  /** An accepted version holds digits and exactly one dot, so no path separator and no traversal. */
  lemma AcceptedVersionIsSafe(version: Option<string>)
    requires ValidateVersion(version).Ok?
    ensures var v := ValidateVersion(version).value;
      (forall i :: 0 <= i < |v| ==> IsDigit(v[i]) || v[i] == '.')
      && !Contains(v, "..") && !Contains(v, "/")
  {
    var v := ValidateVersion(version).value;
    var j := SkipWhile(v, 0, IsDigit);
    assert forall i :: 0 <= i < |v| && i != j ==> IsDigit(v[i]);
    NotContainsPair(v, '.', '.');
    NotContainsChar(v, '/');
  }

  /** An accepted channel is built from letters, digits, dashes and dots only. */
  lemma AcceptedChannelIsSafe(channel: Option<string>)
    requires ValidateChannel(channel).Ok?
    ensures var c := ValidateChannel(channel).value;
      (forall i :: 0 <= i < |c| ==> IsAlnumOrDash(c[i]) || c[i] == '.')
      && !Contains(c, "..") && !Contains(c, "/") && !Contains(c, ";")
  {
    ChannelTextSafe(ValidateChannel(channel).value);
  }

  lemma ChannelTextSafe(c: string)
    requires ChannelText(c)
    ensures forall i :: 0 <= i < |c| ==> IsAlnumOrDash(c[i]) || c[i] == '.'
    ensures !Contains(c, "..") && !Contains(c, "/") && !Contains(c, ";")
  {
    ChannelTextChars(c);
    ChannelCharsSafe(c);
  }

  lemma ChannelCharsSafe(c: string)
    requires forall i :: 0 <= i < |c| ==> IsAlnumOrDash(c[i]) || c[i] == '.'
    requires forall i :: 0 <= i < |c| - 1 ==> !(c[i] == '.' && c[i + 1] == '.')
    ensures !Contains(c, "..") && !Contains(c, "/") && !Contains(c, ";")
  {
    NotContainsPair(c, '.', '.');
    ChannelCharsExclude(c, "/");
    ChannelCharsExclude(c, ";");
  }

  lemma ChannelCharsExclude(c: string, x: string)
    requires forall i :: 0 <= i < |c| ==> IsAlnumOrDash(c[i]) || c[i] == '.'
    requires |x| == 1 && !IsChannelChar(x[0])
    ensures !Contains(c, x)
  {
    assert All(c, IsChannelChar);
    assert x == [x[0]];
    NotContainsOutside(c, IsChannelChar, x[0]);
  }

  /** A character that may appear in an accepted channel. */
  predicate IsChannelChar(c: char) {
    IsAlnumOrDash(c) || c == '.'
  }

  /** The characters of a channel text, and no two dots in a row. */
  lemma ChannelTextChars(c: string)
    requires ChannelText(c)
    ensures forall i :: 0 <= i < |c| ==> IsAlnumOrDash(c[i]) || c[i] == '.'
    ensures forall i :: 0 <= i < |c| - 1 ==> !(c[i] == '.' && c[i + 1] == '.')
  {
    var j := SkipWhile(c, 1, IsAlnumOrDash);
    var k := SkipWhile(c, j + 1, IsDigit);
    forall i | 0 <= i < |c|
      ensures IsAlnumOrDash(c[i]) || c[i] == '.'
    {
      if j < i {
        assert IsDigit(c[i]);
      }
    }
    forall i | 0 <= i < |c| - 1
      ensures !(c[i] == '.' && c[i + 1] == '.')
    {
      if j <= i {
        assert IsDigit(c[i + 1]);
      }
    }
  }

  /** An accepted path component names one entry of its directory. */
  lemma AcceptedPathComponentIsSafe(component: Option<string>)
    requires SafePathComponent(component).Ok?
    ensures var c := SafePathComponent(component).value;
      c != "" && !Contains(c, "..") && !Contains(c, "/") && !Contains(c, "\\") && All(c, IsPathChar)
  {
  }

  /** Every validator returns a value that it accepts again unchanged. */
  lemma ValidatorsIdempotent(x: Option<string>)
    ensures ValidateCatalogUrl(x).Ok? ==> ValidateCatalogUrl(Some(ValidateCatalogUrl(x).value)) == ValidateCatalogUrl(x)
    ensures ValidateVersion(x).Ok? ==> ValidateVersion(Some(ValidateVersion(x).value)) == ValidateVersion(x)
    ensures ValidateChannel(x).Ok? ==> ValidateChannel(Some(ValidateChannel(x).value)) == ValidateChannel(x)
    ensures SafePathComponent(x).Ok? ==> SafePathComponent(Some(SafePathComponent(x).value)) == SafePathComponent(x)
  {
    if x.Some? && x.value != "" {
      var raw := x.value;
      if ValidateCatalogUrl(x).Ok? {
        CatalogUrlIdempotent(raw);
      }
      if ValidateVersion(x).Ok? {
        VersionIdempotent(raw);
      }
      if ValidateChannel(x).Ok? {
        ChannelIdempotent(raw);
      }
      if SafePathComponent(x).Ok? {
        PathComponentIdempotent(raw);
      }
    }
  }

  lemma CatalogUrlIdempotent(raw: string)
    requires raw != "" && ValidateCatalogUrl(Some(raw)).Ok?
    ensures ValidateCatalogUrl(Some(Strip(raw))) == ValidateCatalogUrl(Some(raw))
  {
    StripIdempotent(raw);
    CatalogUrlOutcome(raw);
    CatalogUrlOutcome(Strip(raw));
  }

  lemma VersionIdempotent(raw: string)
    requires raw != "" && ValidateVersion(Some(raw)).Ok?
    ensures ValidateVersion(Some(Strip(raw))) == ValidateVersion(Some(raw))
  {
    StripIdempotent(raw);
    VersionOutcome(raw);
    VersionOutcome(Strip(raw));
  }

  lemma ChannelIdempotent(raw: string)
    requires raw != "" && ValidateChannel(Some(raw)).Ok?
    ensures ValidateChannel(Some(Strip(raw))) == ValidateChannel(Some(raw))
  {
    StripIdempotent(raw);
    ChannelOutcome(raw);
    ChannelOutcome(Strip(raw));
  }

  lemma PathComponentIdempotent(raw: string)
    requires raw != "" && SafePathComponent(Some(raw)).Ok?
    ensures SafePathComponent(Some(Strip(raw))) == SafePathComponent(Some(raw))
  {
    StripIdempotent(raw);
    PathComponentOutcome(raw);
    PathComponentOutcome(Strip(raw));
  }

  /** A value that is missing or blank after stripping is refused by every validator. */
  lemma ValidatorsRejectBlank(x: Option<string>)
    requires x.None? || Strip(x.value) == ""
    ensures ValidateCatalogUrl(x).Err? && ValidateVersion(x).Err?
    ensures ValidateChannel(x).Err? && SafePathComponent(x).Err?
  {
  }

  // ---------------------------------------------------------------------
  // What each validator decides, for a given non-empty value
  // ---------------------------------------------------------------------

  /** `validate_catalog_url` accepts a non-empty value exactly when its stripped text matches, and returns that text. */
  lemma CatalogUrlOutcome(raw: string)
    requires raw != ""
    ensures ValidateCatalogUrl(Some(raw)).Ok? <==> CatalogUrlText(Strip(raw))
    ensures ValidateCatalogUrl(Some(raw)).Ok? ==> ValidateCatalogUrl(Some(raw)).value == Strip(raw)
  {
    DollarMatchStripped(CatalogUrlText, raw);
  }

  /** `validate_version` accepts a non-empty value exactly when its stripped text is `X.Y`, and returns that text. */
  lemma VersionOutcome(raw: string)
    requires raw != ""
    ensures ValidateVersion(Some(raw)).Ok? <==> VersionText(Strip(raw))
    ensures ValidateVersion(Some(raw)).Ok? ==> ValidateVersion(Some(raw)).value == Strip(raw)
  {
    DollarMatchStripped(VersionText, raw);
  }

  /** `validate_channel` accepts a non-empty value exactly when its stripped text matches, and returns that text. */
  lemma ChannelOutcome(raw: string)
    requires raw != ""
    ensures ValidateChannel(Some(raw)).Ok? <==> ChannelText(Strip(raw))
    ensures ValidateChannel(Some(raw)).Ok? ==> ValidateChannel(Some(raw)).value == Strip(raw)
  {
    DollarMatchStripped(ChannelText, raw);
  }

  /**
   * `safe_path_component` accepts a non-empty value exactly when its stripped
   * text has no `..`, `/` or `\` and matches, and returns that text.
   */
  lemma PathComponentOutcome(raw: string)
    requires raw != ""
    ensures var c := Strip(raw);
      SafePathComponent(Some(raw)).Ok? <==>
        !Contains(c, "..") && !Contains(c, "/") && !Contains(c, "\\") && PathComponentText(c)
    ensures SafePathComponent(Some(raw)).Ok? ==> SafePathComponent(Some(raw)).value == Strip(raw)
  {
    DollarMatchStripped(PathComponentText, raw);
  }

  // ---------------------------------------------------------------------
  // The cases of the validation tests
  // ---------------------------------------------------------------------

  /** `validate_version("4.16")` returns `"4.16"`. */
  lemma VersionAcceptsPlain()
    ensures ValidateVersion(Some("4.16")) == Ok("4.16")
  {
    StripFixed("4.16");
    VersionTextPlain();
    VersionOutcome("4.16");
  }

  lemma VersionTextPlain()
    ensures VersionText("4.16")
  {
    SkipWhileExact("4.16", 0, 1, IsDigit);
    SkipWhileExact("4.16", 2, 4, IsDigit);
  }

  /** `validate_version("  4.16  ")` returns `"4.16"`. */
  lemma VersionAcceptsPadded()
    ensures ValidateVersion(Some("  4.16  ")) == Ok("4.16")
  {
    PaddedStrips();
    VersionTextPlain();
    VersionOutcome("  4.16  ");
  }

  lemma PaddedStrips()
    ensures Strip("  4.16  ") == "4.16"
  {
    StripSurrounded("  ", "4.16", "  ");
    assert "  4.16  " == "  " + "4.16" + "  ";
  }

  /** `"4.16.0"`, a full release number, is not an X.Y version. */
  lemma VersionRejectsRelease()
    ensures ValidateVersion(Some("4.16.0")).Err?
  {
    StripFixed("4.16.0");
    ReleaseNotVersionText();
    VersionOutcome("4.16.0");
  }

  lemma ReleaseNotVersionText()
    ensures !VersionText("4.16.0")
  {
    SkipWhileExact("4.16.0", 0, 1, IsDigit);
    SkipWhileExact("4.16.0", 2, 4, IsDigit);
  }

  /** `"v4.16"` is refused: the version starts with a digit. */
  lemma VersionRejectsPrefixed()
    ensures ValidateVersion(Some("v4.16")).Err?
  {
    StripFixed("v4.16");
    SkipWhileExact("v4.16", 0, 0, IsDigit);
    VersionOutcome("v4.16");
  }

  /** `"stable-4.16"` is a channel. */
  lemma ChannelAcceptsStable()
    ensures ValidateChannel(Some("stable-4.16")) == Ok("stable-4.16")
  {
    StripFixed("stable-4.16");
    ChannelTextStable();
    ChannelOutcome("stable-4.16");
  }

  lemma ChannelTextStable()
    ensures ChannelText("stable-4.16")
  {
    SkipWhileExact("stable-4.16", 1, 8, IsAlnumOrDash);
    SkipWhileExact("stable-4.16", 9, 11, IsDigit);
  }

  /** `"stable/4.16"` is refused: the slash ends the name. */
  lemma ChannelRejectsSlash()
    ensures ValidateChannel(Some("stable/4.16")).Err?
  {
    StripFixed("stable/4.16");
    SkipWhileExact("stable/4.16", 1, 6, IsAlnumOrDash);
    ChannelOutcome("stable/4.16");
  }

  /** `"stable"` is refused: there is no version. */
  lemma ChannelRejectsBare()
    ensures ValidateChannel(Some("stable")).Err?
  {
    StripFixed("stable");
    SkipWhileExact("stable", 1, 6, IsAlnumOrDash);
    ChannelOutcome("stable");
  }

  /** A catalog URL that climbs out of the registry is refused. */
  lemma CatalogUrlRejectsTraversal()
    ensures ValidateCatalogUrl(Some("registry.redhat.io/../../etc/passwd")).Err?
  {
    var u := "registry.redhat.io/../../etc/passwd";
    StripFixed(u);
    TraversalNotCatalogUrlText(u);
    CatalogUrlOutcome(u);
  }

  lemma TraversalNotCatalogUrlText(u: string)
    requires u == "registry.redhat.io/../../etc/passwd"
    ensures !CatalogUrlText(u)
  {
    SkipWhileExact(u, 19, 19, IsWordOrDash);
  }

  /** A catalog URL with a scheme is refused. */
  lemma CatalogUrlRejectsScheme()
    ensures ValidateCatalogUrl(Some("http://registry.redhat.io/redhat/index")).Err?
  {
    var u := "http://registry.redhat.io/redhat/index";
    StripFixed(u);
    SchemeNotCatalogUrlText(u);
    CatalogUrlOutcome(u);
  }

  lemma SchemeNotCatalogUrlText(u: string)
    requires u == "http://registry.redhat.io/redhat/index"
    ensures !CatalogUrlText(u)
  {
    assert u[0] != RegistryPrefix[0];
  }

  /** A file name with dashes and dots is a path component. */
  lemma PathComponentAcceptsFileName()
    ensures SafePathComponent(Some("operators-4.16.json")) == Ok("operators-4.16.json")
  {
    StripFixed("operators-4.16.json");
    PathTextFileName();
    PathComponentOutcome("operators-4.16.json");
  }

  lemma PathTextFileName()
    ensures var c := "operators-4.16.json";
      !Contains(c, "..") && !Contains(c, "/") && !Contains(c, "\\") && PathComponentText(c)
  {
    var c := "operators-4.16.json";
    FileNameChars(c);
    assert !IsPathChar('/') && !IsPathChar('\\');
    NotContainsOutside(c, IsPathChar, '/');
    NotContainsOutside(c, IsPathChar, '\\');
    FileNameDots(c);
    NotContainsPair(c, '.', '.');
  }

  lemma FileNameChars(c: string)
    requires c == "operators-4.16.json"
    ensures All(c, IsPathChar)
  {
  }

  lemma FileNameDots(c: string)
    requires c == "operators-4.16.json"
    ensures forall i :: 0 <= i < |c| - 1 ==> !(c[i] == '.' && c[i + 1] == '.')
  {
  }

  /** A leading dot is allowed: only `..`, `/` and `\` are refused before the allow-list. */
  lemma PathComponentAcceptsLeadingDot()
    ensures SafePathComponent(Some(".hidden")) == Ok(".hidden")
  {
    StripFixed(".hidden");
    PathTextLeadingDot();
    PathComponentOutcome(".hidden");
  }

  lemma PathTextLeadingDot()
    ensures var c := ".hidden";
      !Contains(c, "..") && !Contains(c, "/") && !Contains(c, "\\") && PathComponentText(c)
  {
    var c := ".hidden";
    assert forall i :: 0 <= i < |c| ==> IsPathChar(c[i]) && c[i] != '/' && c[i] != '\\';
    assert forall i :: 0 <= i < |c| - 1 ==> !(c[i] == '.' && c[i + 1] == '.');
    NotContainsPair(c, '.', '.');
    NotContainsChar(c, '/');
    NotContainsChar(c, '\\');
  }

  /** Path components that climb directories, use a Windows separator or hold a shell metacharacter are refused. */
  lemma PathComponentRejectsTraversal()
    ensures SafePathComponent(Some("../etc/passwd")).Err?
  {
    StripFixed("../etc/passwd");
    ContainsAt("../etc/passwd", "..", 0);
    PathComponentOutcome("../etc/passwd");
  }

  lemma PathComponentRejectsBackslash()
    ensures SafePathComponent(Some("file\\windows")).Err?
  {
    StripFixed("file\\windows");
    ContainsAt("file\\windows", "\\", 4);
    PathComponentOutcome("file\\windows");
  }

  lemma PathComponentRejectsCommand()
    ensures SafePathComponent(Some("file;rm -rf")).Err?
  {
    StripFixed("file;rm -rf");
    assert !IsPathChar("file;rm -rf"[4]);
    PathComponentOutcome("file;rm -rf");
  }

  // ---------------------------------------------------------------------
  // The channel format with its dash
  // ---------------------------------------------------------------------

  /**
   * The channel pattern as its comment and error message describe it,
   * `<name>-X.Y`: `^[a-zA-Z][a-zA-Z0-9\-]*-\d+\.\d+$`.
   */
  const DashedChannelPattern: string := "^[a-zA-Z][a-zA-Z0-9\\-]*-\\d+\\.\\d+$"

  /** The start of the longest run of digits that ends at `j`. */
  function DigitRunStart(s: string, j: nat): (d: nat)
    requires j <= |s|
    ensures d <= j
    ensures forall t :: d <= t < j ==> IsDigit(s[t])
    ensures d == 0 || !IsDigit(s[d - 1])
    decreases j
  {
    if j == 0 || !IsDigit(s[j - 1]) then j else DigitRunStart(s, j - 1)
  }

  /**
   * `[a-zA-Z][a-zA-Z0-9\-]*-\d+\.\d+` matches all of `s`.  The class run
   * after the letter stops at the dot; the `\d+` before the dot is the whole
   * digit run ending there, and the character before that run is the dash.
   */
  predicate DashedChannelText(s: string) {
    |s| > 0 && IsLetter(s[0]) &&
    var j := SkipWhile(s, 1, IsAlnumOrDash);
    j < |s| && s[j] == '.' &&
    var d := DigitRunStart(s, j);
    2 <= d < j && s[d - 1] == '-' &&
    var k := SkipWhile(s, j + 1, IsDigit);
    k > j + 1 && k == |s|
  }

  /** `s` is a letter, letters, digits and dashes, a dash, then `<digits>.<digits>`. */
  ghost predicate IsDashedChannelShape(s: string) {
    exists c, mid, d1, d2 :: IsLetter(c) && All(mid, IsAlnumOrDash) && IsDigits(d1) && IsDigits(d2)
      && s == [c] + mid + "-" + d1 + "." + d2
  }

  /** `validate_channel` with the dash its error message asks for. */
  function ValidateDashedChannel(channel: Option<string>): (r: Result<string, ValidationError>)
    ensures channel.None? || channel.value == "" ==> r.Err?
    ensures r.Ok? ==> channel.Some? && r.value == Strip(channel.value) && DashedChannelText(r.value)
  {
    if channel.None? || channel.value == "" then
      Err(ValidationError("Channel must be a non-empty string"))
    else
      var c := Strip(channel.value);
      DollarMatchStripped(DashedChannelText, channel.value);
      if !DollarMatch(DashedChannelText, c) then
        Err(ValidationError("Invalid channel format. Expected <name>-X.Y (e.g., stable-4.16). Got: " + c))
      else
        Ok(c)
  }

  /** The dashed scanner accepts exactly the texts of the dashed shape. */
  lemma DashedChannelTextShape(s: string)
    ensures DashedChannelText(s) <==> IsDashedChannelShape(s)
  {
    if DashedChannelText(s) {
      DashedChannelTextHasShape(s);
    }
    if IsDashedChannelShape(s) {
      var c, mid, d1, d2 :| IsLetter(c) && All(mid, IsAlnumOrDash) && IsDigits(d1) && IsDigits(d2)
        && s == [c] + mid + "-" + d1 + "." + d2;
      DashedChannelShapeScans(c, mid, d1, d2);
    }
  }

  lemma DashedChannelTextHasShape(s: string)
    requires DashedChannelText(s)
    ensures IsDashedChannelShape(s)
  {
    var j := SkipWhile(s, 1, IsAlnumOrDash);
    var d := DigitRunStart(s, j);
    SliceAll(s, 1, d - 1, IsAlnumOrDash);
    SliceAll(s, d, j, IsDigit);
    SliceAll(s, j + 1, |s|, IsDigit);
    DashedCut(s, d, j);
    var c, mid, d1, d2 := s[0], s[1..d - 1], s[d..j], s[j + 1..];
    assert IsLetter(c) && All(mid, IsAlnumOrDash) && IsDigits(d1) && IsDigits(d2);
    assert s == [c] + mid + "-" + d1 + "." + d2;
  }

  /** `s` cut around a dash at `d - 1` and a dot at `j`. */
  lemma DashedCut(s: string, d: nat, j: nat)
    requires 2 <= d < j < |s| && s[d - 1] == '-' && s[j] == '.'
    ensures s == [s[0]] + s[1..d - 1] + "-" + s[d..j] + "." + s[j + 1..]
  {
    assert s[..1] == [s[0]] && s[d - 1..d] == "-" && s[j..j + 1] == ".";
    assert s == s[..1] + s[1..d - 1] + s[d - 1..d] + s[d..j] + s[j..j + 1] + s[j + 1..];
  }

  lemma DashedChannelShapeScans(c: char, mid: string, d1: string, d2: string)
    requires IsLetter(c) && All(mid, IsAlnumOrDash) && IsDigits(d1) && IsDigits(d2)
    ensures DashedChannelText([c] + mid + "-" + d1 + "." + d2)
  {
    var s := [c] + mid + "-" + d1 + "." + d2;
    var m := 1 + |mid|;
    var j := m + 1 + |d1|;
    assert forall t :: 1 <= t < m ==> s[t] == mid[t - 1];
    assert s[m] == '-';
    assert forall t :: m + 1 <= t < j ==> s[t] == d1[t - m - 1];
    assert s[j] == '.';
    SkipWhileExact(s, 1, j, IsAlnumOrDash);
    DigitRunStartExact(s, m + 1, j);
    assert forall t :: j + 1 <= t < |s| ==> s[t] == d2[t - j - 1];
    SkipWhileExact(s, j + 1, |s|, IsDigit);
  }

  /** A digit run that starts after a non-digit is the run `DigitRunStart` finds. */
  lemma {:induction false} DigitRunStartExact(s: string, d: nat, j: nat)
    requires d <= j <= |s|
    requires forall t :: d <= t < j ==> IsDigit(s[t])
    requires d == 0 || !IsDigit(s[d - 1])
    ensures DigitRunStart(s, j) == d
    decreases j
  {
    if d < j {
      DigitRunStartExact(s, d, j - 1);
    }
  }

  /** Every channel the dashed validator accepts is accepted, unchanged, by `validate_channel`. */
  lemma DashedChannelNarrowsChannel(channel: Option<string>)
    requires ValidateDashedChannel(channel).Ok?
    ensures ValidateChannel(channel) == ValidateDashedChannel(channel)
  {
    var v := ValidateDashedChannel(channel).value;
    DashedChannelTextIsChannelText(v);
    DollarMatchStripped(ChannelText, channel.value);
  }

  lemma DashedChannelTextIsChannelText(v: string)
    requires DashedChannelText(v)
    ensures ChannelText(v)
  {
    DashedChannelTextShape(v);
    var c, mid, d1, d2 :| IsLetter(c) && All(mid, IsAlnumOrDash) && IsDigits(d1) && IsDigits(d2)
      && v == [c] + mid + "-" + d1 + "." + d2;
    var mid' := mid + "-";
    assert All(mid', IsAlnumOrDash);
    assert v == [c] + mid' + d1 + "." + d2;
    ChannelShapeScans(c, mid', d1, d2);
  }

  /** The dashed validator accepts a non-empty value exactly when its stripped text matches, and returns that text. */
  lemma DashedChannelOutcome(raw: string)
    requires raw != ""
    ensures ValidateDashedChannel(Some(raw)).Ok? <==> DashedChannelText(Strip(raw))
    ensures ValidateDashedChannel(Some(raw)).Ok? ==> ValidateDashedChannel(Some(raw)).value == Strip(raw)
  {
    DollarMatchStripped(DashedChannelText, raw);
  }

  /** The channel without its dash: `validate_channel` accepts it, the dashed validator refuses it. */
  lemma ChannelAcceptsUndashed()
    ensures ValidateChannel(Some("stable4.16")) == Ok("stable4.16")
    ensures ValidateDashedChannel(Some("stable4.16")).Err?
  {
    StripFixed("stable4.16");
    UndashedChannelText();
    ChannelOutcome("stable4.16");
    DashedChannelOutcome("stable4.16");
  }

  lemma UndashedChannelText()
    ensures ChannelText("stable4.16")
    ensures !DashedChannelText("stable4.16")
  {
    SkipWhileExact("stable4.16", 1, 7, IsAlnumOrDash);
    SkipWhileExact("stable4.16", 8, 10, IsDigit);
    DigitRunStartExact("stable4.16", 6, 7);
  }

  /** The dashed validator still accepts the channels of the tests. */
  lemma DashedChannelAcceptsStable()
    ensures ValidateDashedChannel(Some("stable-4.16")) == Ok("stable-4.16")
  {
    StripFixed("stable-4.16");
    DashedChannelTextStable();
    DashedChannelOutcome("stable-4.16");
  }

  lemma DashedChannelTextStable()
    ensures DashedChannelText("stable-4.16")
  {
    DashedChannelShapeScans('s', "table", "4", "16");
    assert "stable-4.16" == ['s'] + "table" + "-" + "4" + "." + "16";
  }
}
