/**
 * The release endpoints of the web application (app.py): the OpenShift
 * minor versions `oc-mirror` knows (`/api/releases`), the channels of one
 * minor version (`/api/channels/<version>`) and the releases in one channel
 * (`/api/releases/<channel>`). Each one runs `oc-mirror`, filters its output
 * line by line and sorts what it kept.
 */
module Releases {
  import opened Wrappers
  import opened Text
  import opened Ordering
  import opened Validation
  import opened Process

  // ---------------------------------------------------------------------
  // GET /api/releases
  // ---------------------------------------------------------------------

  const ReleasesCommand: seq<string> := [OcMirror, "list", "releases"]

  /** The list served when `oc-mirror` cannot be used, newest first. */
  const FallbackReleases: seq<string> :=
    ["4.18", "4.17", "4.16", "4.15", "4.14", "4.13", "4.12", "4.11", "4.10", "4.9", "4.8", "4.7", "4.6"]

  datatype ReleaseSource = OcMirrorCommand | StaticFallback

  /** The body of `/api/releases`, which always succeeds; its `count` is `|releases|`. */
  datatype ReleaseList = ReleaseList(releases: seq<string>, source: ReleaseSource)

  /** Where the greedy `^(\d+\.\d+)` of `re.match` ends in `line`, when it matches. */
  function LeadingMinorEnd(line: string): (k: Option<nat>)
    ensures k.Some? ==> k.value <= |line| && VersionText(line[..k.value])
    ensures k.Some? ==> k.value == |line| || !IsDigit(line[k.value])
  {
    var j := SkipWhile(line, 0, IsDigit);
    if j > 0 && j < |line| && line[j] == '.' then
      var k := SkipWhile(line, j + 1, IsDigit);
      if k > j + 1 then
        LeadingMinorScan(line, j, k);
        Some(k)
      else None
    else None
  }

  lemma LeadingMinorScan(line: string, j: nat, k: nat)
    requires 0 < j && j + 1 < k <= |line| && line[j] == '.'
    requires forall t :: 0 <= t < j ==> IsDigit(line[t])
    requires forall t :: j < t < k ==> IsDigit(line[t])
    ensures VersionText(line[..k])
  {
    var p := line[..k];
    SkipWhileExact(p, 0, j, IsDigit);
    SkipWhileExact(p, j + 1, k, IsDigit);
  }

  /** Any `<digits>.<digits>` prefix that is not followed by a digit is the one `re.match` finds. */
  lemma LeadingMinorEndExact(line: string, m: nat)
    requires m <= |line| && VersionText(line[..m])
    requires m == |line| || !IsDigit(line[m])
    ensures LeadingMinorEnd(line) == Some(m)
  {
    var p := line[..m];
    var j := SkipWhile(p, 0, IsDigit);
    assert p[j] == '.' && line[j] == p[j];
    assert forall t :: 0 <= t < m ==> line[t] == p[t];
    SkipWhileExact(line, 0, j, IsDigit);
    SkipWhileExact(line, j + 1, m, IsDigit);
  }

  /** The version one line of `oc-mirror list releases` names, if it names one. */
  function ReleaseOfLine(raw: string): (r: Option<string>)
    ensures r.Some? ==> VersionText(r.value) && StartsWith(Strip(raw), r.value)
  {
    var line := Strip(raw);
    if line != "" && !StartsWith(line, "Available OpenShift") && !StartsWith(line, "Available") then
      match LeadingMinorEnd(line)
      case Some(k) => Some(line[..k])
      case None => None
    else None
  }

  /** The header filters never drop a line that begins with a version. */
  lemma ReleaseOfLineComplete(raw: string, m: nat)
    requires m <= |Strip(raw)| && VersionText(Strip(raw)[..m])
    requires m == |Strip(raw)| || !IsDigit(Strip(raw)[m])
    ensures ReleaseOfLine(raw) == Some(Strip(raw)[..m])
  {
    var line := Strip(raw);
    LeadingMinorEndExact(line, m);
    VersionPrefixStartsWithDigit(line, m);
    FirstCharRulesOut(line, "Available OpenShift");
    FirstCharRulesOut(line, "Available");
  }

  /** A line whose first `m` characters are `X.Y` starts with a digit. */
  lemma VersionPrefixStartsWithDigit(line: string, m: nat)
    requires m <= |line| && VersionText(line[..m])
    ensures |line| > 0 && IsDigit(line[0])
  {
    var j := SkipWhile(line[..m], 0, IsDigit);
    assert j > 0 && IsDigit(line[..m][0]) && line[0] == line[..m][0];
  }

  /**
   * The loop of `get_ocp_releases`: keep the first occurrence of each version
   * the lines name, then sort by `[int(i) for i in x.split('.')]`, newest first.
   */
  method ParseReleases(stdout: string) returns (releases: seq<string>)
    ensures releases == SortBy(DedupeFirst(Collect(OutputLines(stdout), ReleaseOfLine)), VersionNumbers, true)
  {
    var found := FirstReleases(OutputLines(stdout));
    releases := SortBy(found, VersionNumbers, true);
  }

  /** The loop: the first occurrence of each version, in order of appearance. */
  method FirstReleases(lines: seq<string>) returns (found: seq<string>)
    ensures found == DedupeFirst(Collect(lines, ReleaseOfLine))
  {
    found := [];
    for i := 0 to |lines|
      invariant found == DedupeFirst(Collect(lines[..i], ReleaseOfLine))
    {
      CollectFirstStep(lines, i, ReleaseOfLine);
      var version := ReleaseOfLine(lines[i]);
      if version.Some? && version.value !in found {
        found := found + [version.value];
      }
    }
    assert lines[..|lines|] == lines;
  }

  /** What `get_ocp_releases` serves, given how `oc-mirror list releases` ended. */
  function ReleasesFrom(result: RunResult): (r: ReleaseList)
  {
    var parsed :=
      if result.Completed? && result.returnCode == 0
      then SortBy(DedupeFirst(Collect(OutputLines(result.stdout), ReleaseOfLine)), VersionNumbers, true)
      else [];
    if |parsed| > 0 then ReleaseList(parsed, OcMirrorCommand) else ReleaseList(FallbackReleases, StaticFallback)
  }

  /** `get_ocp_releases`: every failure, and an empty listing, falls back to the static list. */
  method GetOcpReleases(run: Runner) returns (r: ReleaseList)
    ensures r == ReleasesFrom(run(ReleasesCommand))
  {
    var result := run(ReleasesCommand);
    if result.Completed? && result.returnCode == 0 {
      var releases := ParseReleases(result.stdout);
      if |releases| > 0 {
        return ReleaseList(releases, OcMirrorCommand);
      }
    }
    r := ReleaseList(FallbackReleases, StaticFallback);
  }

  /** The minor version `4.<n>`: its key is `[4, n]` and it has the `X.Y` shape. */
  lemma MinorOfFour(n: nat)
    ensures VersionNumbers("4." + NatToString(n)) == [4, n]
    ensures VersionText("4." + NatToString(n))
  {
    var d := NatToString(n);
    DigitsValueOfNatToString(n);
    assert DigitsValue("4") == 4;
    VersionNumbersOfMinor("4", d);
    DigitsDotDigitsShape("4." + d, 0);
    assert ("4." + d)[0..] == "4" + "." + d;
  }

  /** The fallback list names 4.18 down to 4.6, one per index. */
  lemma FallbackCountsDown()
    ensures |FallbackReleases| == 13
    ensures forall i :: 0 <= i < 13 ==> FallbackReleases[i] == "4." + NatToString(18 - i)
  {
    forall i | 0 <= i < 13 ensures FallbackReleases[i] == "4." + NatToString(18 - i) {
      NatToStringSmall(18 - i);
    }
  }

  /** The fallback list is itself newest first, free of repeats and made of `X.Y` versions. */
  lemma FallbackNewestFirst()
    ensures SortedBy(FallbackReleases, VersionNumbers, true)
    ensures NoDuplicates(FallbackReleases)
    ensures forall v :: v in FallbackReleases ==> VersionText(v)
  {
    FallbackCountsDown();
    forall i | 0 <= i < 13
      ensures VersionNumbers(FallbackReleases[i]) == [4, 18 - i] && VersionText(FallbackReleases[i])
    {
      MinorOfFour(18 - i);
    }
    forall i, j | 0 <= i < j < 13
      ensures Before(FallbackReleases[i], FallbackReleases[j], VersionNumbers, true)
      ensures FallbackReleases[i] != FallbackReleases[j]
    {
      assert LexLe([4, 18 - j], [4, 18 - i]);
    }
  }

  /**
   * Whatever `oc-mirror` does, `/api/releases` serves a non-empty list of
   * distinct `X.Y` versions, newest first.
   */
  lemma ReleasesWellFormed(result: RunResult)
    ensures var r := ReleasesFrom(result).releases;
      |r| > 0 && SortedBy(r, VersionNumbers, true) && NoDuplicates(r) && forall v :: v in r ==> VersionText(v)
  {
    FallbackNewestFirst();
    if result.Completed? && result.returnCode == 0 {
      var found := DedupeFirst(Collect(OutputLines(result.stdout), ReleaseOfLine));
      var sorted := SortBy(found, VersionNumbers, true);
      PermutationKeepsNoDuplicates(found, sorted);
      forall v | v in sorted ensures VersionText(v) {
        var lines := OutputLines(result.stdout);
        assert v in multiset(found);
        CollectMembers(lines, ReleaseOfLine, v);
        var k :| 0 <= k < |lines| && ReleaseOfLine(lines[k]) == Some(v);
      }
    }
  }

  /** Served from the command, the list holds exactly the versions its lines begin with. */
  lemma ReleasesFromLines(result: RunResult, v: string)
    requires ReleasesFrom(result).source == OcMirrorCommand
    ensures result.Completed?
    ensures v in ReleasesFrom(result).releases <==>
      exists k :: 0 <= k < |OutputLines(result.stdout)| && ReleaseOfLine(OutputLines(result.stdout)[k]) == Some(v)
  {
    var found := DedupeFirst(Collect(OutputLines(result.stdout), ReleaseOfLine));
    var sorted := SortBy(found, VersionNumbers, true);
    assert v in sorted <==> v in multiset(sorted);
    assert v in found <==> v in multiset(found);
    CollectMembers(OutputLines(result.stdout), ReleaseOfLine, v);
  }

  /** 4.10 is served before 4.9: the order is numeric, not the order of the strings. */
  lemma NewerMinorFirst(result: RunResult, p: nat, q: nat)
    requires var r := ReleasesFrom(result).releases; p < |r| && q < |r| && r[p] == "4.10" && r[q] == "4.9"
    ensures p < q
  {
    ReleasesWellFormed(result);
    MinorKeysTenNine();
    SortedPlacesStrictlyFirst(ReleasesFrom(result).releases, VersionNumbers, true, p, q);
  }

  // ---------------------------------------------------------------------
  // GET /api/channels/<version>
  // ---------------------------------------------------------------------

  function ChannelsCommand(version: string): seq<string> {
    [OcMirror, "list", "releases", "--channels", "--version=" + version]
  }

  /** The warning sign (U+26A0 and its emoji variation selector) `oc-mirror` prefixes warnings with. */
  const WarningSign := "\U{26A0}\U{FE0F}"

  /** `[a-z]+-\d+\.\d+` matches all of `s`. */
  predicate ChannelNameText(s: string) {
    var j := SkipWhile(s, 0, IsLower);
    j > 0 && j < |s| && s[j] == '-' && DigitsDotDigitsFrom(s, j + 1)
  }

  /** `s` is a lower-case stream name, a dash and an `X.Y` version. */
  ghost predicate IsChannelName(s: string) {
    exists stream, v :: |stream| > 0 && All(stream, IsLower) && IsVersionShape(v) && s == stream + "-" + v
  }

  /** The channel-name scanner accepts exactly `<stream>-<X>.<Y>`. */
  lemma ChannelNameTextShape(s: string)
    ensures ChannelNameText(s) <==> IsChannelName(s)
  {
    if ChannelNameText(s) {
      ChannelNameTextHasShape(s);
    }
    if IsChannelName(s) {
      var stream, v :| |stream| > 0 && All(stream, IsLower) && IsVersionShape(v) && s == stream + "-" + v;
      ChannelNameShapeScans(s, stream, v);
    }
  }

  lemma ChannelNameTextHasShape(s: string)
    requires ChannelNameText(s)
    ensures IsChannelName(s)
  {
    var j := SkipWhile(s, 0, IsLower);
    DigitsDotDigitsShape(s, j + 1);
    var stream, v := s[..j], s[j + 1..];
    assert All(stream, IsLower) by {
      forall t | 0 <= t < |stream| ensures IsLower(stream[t]) { assert stream[t] == s[t]; }
    }
    assert s == stream + "-" + v;
  }

  lemma ChannelNameShapeScans(s: string, stream: string, v: string)
    requires |stream| > 0 && All(stream, IsLower) && IsVersionShape(v) && s == stream + "-" + v
    ensures ChannelNameText(s)
  {
    var j := |stream|;
    assert forall t :: 0 <= t < j ==> s[t] == stream[t];
    assert s[j] == '-';
    SkipWhileExact(s, 0, j, IsLower);
    assert s[j + 1..] == v;
    DigitsDotDigitsShape(s, j + 1);
  }

  /** The channel one line of `oc-mirror list releases --channels` names, if it names one. */
  function ChannelOfLine(raw: string): (r: Option<string>)
    ensures r.Some? <==> ChannelNameText(Strip(raw))
    ensures r.Some? ==> r.value == Strip(raw)
  {
    var line := Strip(raw);
    DollarMatchStripped(ChannelNameText, raw);
    var kept := line != "" && !StartsWith(line, WarningSign) && !StartsWith(line, "W") && !StartsWith(line, "Listing channels")
      && !StartsWith(line, "#") && DollarMatch(ChannelNameText, line);
    assert kept <==> ChannelNameText(line) by {
      if ChannelNameText(line) {
        ChannelNameSkipsFilters(line);
      }
    }
    if kept then Some(line) else None
  }

  /** A channel name starts with a lower-case letter, so none of the header and warning prefixes can match it. */
  lemma ChannelNameSkipsFilters(s: string)
    requires ChannelNameText(s)
    ensures s != "" && !StartsWith(s, WarningSign) && !StartsWith(s, "W")
    ensures !StartsWith(s, "Listing channels") && !StartsWith(s, "#")
  {
    assert SkipWhile(s, 0, IsLower) > 0;
    FirstCharRulesOut(s, WarningSign);
    FirstCharRulesOut(s, "W");
    FirstCharRulesOut(s, "Listing channels");
    FirstCharRulesOut(s, "#");
  }

  /** The loop of `get_ocp_channels`, then `sorted(list(set(channels)))`. */
  method ParseChannels(lines: seq<string>) returns (channels: seq<string>)
    ensures channels == SortBy(DedupeFirst(Collect(lines, ChannelOfLine)), Codes, false)
  {
    var kept: seq<string> := [];
    for i := 0 to |lines|
      invariant kept == Collect(lines[..i], ChannelOfLine)
    {
      CollectStep(lines, i, ChannelOfLine);
      var channel := ChannelOfLine(lines[i]);
      if channel.Some? {
        kept := kept + [channel.value];
      }
    }
    assert lines[..|lines|] == lines;
    channels := SortBy(DedupeFirst(kept), Codes, false);
  }

  /** The responses of `/api/channels/<version>`. */
  datatype ChannelsReply =
    | ChannelList(version: string, channels: seq<string>)  // 200
    | InvalidVersionFormat                                  // 400, nothing is run
    | ChannelsFetchFailed(stderr: string)                   // 500 "Failed to fetch channels"
    | ChannelsTimeout                                       // 504
    | ChannelsError(message: string)                        // 500 "Error fetching channels: ..."

  /** What `get_ocp_channels` answers for `version`. */
  function ChannelsFrom(version: string, run: Runner): (r: ChannelsReply)
  {
    if !DollarMatch(VersionText, version) then InvalidVersionFormat
    else match run(ChannelsCommand(version))
      case Completed(code, out, err) =>
        if code == 0 then ChannelList(version, SortBy(DedupeFirst(Collect(OutputLines(out), ChannelOfLine)), Codes, false))
        else ChannelsFetchFailed(err)
      case TimedOut => ChannelsTimeout
      case NotFound(e) => ChannelsError("Error fetching channels: " + e)
      case Failed(e) => ChannelsError("Error fetching channels: " + e)
  }

  method GetOcpChannels(version: string, run: Runner) returns (r: ChannelsReply)
    ensures r == ChannelsFrom(version, run)
  {
    if !DollarMatch(VersionText, version) {
      return InvalidVersionFormat;
    }
    var result := run(ChannelsCommand(version));
    match result {
      case Completed(code, out, err) =>
        if code == 0 {
          var channels := ParseChannels(OutputLines(out));
          r := ChannelList(version, channels);
        } else {
          r := ChannelsFetchFailed(err);
        }
      case TimedOut => r := ChannelsTimeout;
      case NotFound(e) => r := ChannelsError("Error fetching channels: " + ExceptionText(result));
      case Failed(e) => r := ChannelsError("Error fetching channels: " + ExceptionText(result));
    }
  }

  /** A version that is not `X.Y` is refused before anything is run. */
  lemma InvalidVersionRunsNothing(version: string, run: Runner, other: Runner)
    requires !DollarMatch(VersionText, version)
    ensures ChannelsFrom(version, run) == ChannelsFrom(version, other) == InvalidVersionFormat
  {
  }

  /** Channels come back in strictly increasing string order, hence without repeats. */
  lemma ChannelsStrictlyAscending(version: string, run: Runner)
    requires ChannelsFrom(version, run).ChannelList?
    ensures var cs := ChannelsFrom(version, run).channels;
      forall i, j :: 0 <= i < j < |cs| ==> StrLt(cs[i], cs[j])
  {
    var res := run(ChannelsCommand(version));
    var found := DedupeFirst(Collect(OutputLines(res.stdout), ChannelOfLine));
    var cs := SortBy(found, Codes, false);
    assert ChannelsFrom(version, run).channels == cs;
    PermutationKeepsNoDuplicates(found, cs);
    SortedUniqueStrictly(cs);
  }

  /** The channels kept from some lines are exactly the channel names among them, stripped. */
  lemma ChannelLinesMembers(lines: seq<string>, c: string)
    ensures c in SortBy(DedupeFirst(Collect(lines, ChannelOfLine)), Codes, false) <==>
      exists k :: 0 <= k < |lines| && ChannelNameText(Strip(lines[k])) && c == Strip(lines[k])
  {
    SortedFirstMembers(lines, ChannelOfLine, Codes, false, c);
    forall k | 0 <= k < |lines|
      ensures ChannelOfLine(lines[k]) == Some(c) <==> ChannelNameText(Strip(lines[k])) && c == Strip(lines[k])
    {
    }
  }

  /** The channels served are exactly the channel names among the stripped output lines. */
  lemma ChannelsFromLines(version: string, run: Runner, c: string)
    requires ChannelsFrom(version, run).ChannelList?
    ensures var lines := OutputLines(run(ChannelsCommand(version)).stdout);
      c in ChannelsFrom(version, run).channels <==>
        exists k :: 0 <= k < |lines| && ChannelNameText(Strip(lines[k])) && c == Strip(lines[k])
  {
    var lines := OutputLines(run(ChannelsCommand(version)).stdout);
    ChannelLinesMembers(lines, c);
  }

  // ---------------------------------------------------------------------
  // GET /api/releases/<channel>
  // ---------------------------------------------------------------------

  function ChannelReleasesCommand(channel: string): seq<string> {
    [OcMirror, "list", "releases", "--channel=" + channel]
  }

  /** `\d+\.\d+\.\d+` matches all of `s`. */
  predicate ReleaseText(s: string) {
    var j := SkipWhile(s, 0, IsDigit);
    j > 0 && j < |s| && s[j] == '.' && DigitsDotDigitsFrom(s, j + 1)
  }

  /** The release one output line names: the whole stripped line, when it is `X.Y.Z`. */
  function ChannelReleaseOfLine(raw: string): (r: Option<string>)
    ensures r.Some? <==> ReleaseText(Strip(raw))
    ensures r.Some? ==> r.value == Strip(raw)
  {
    DollarMatchStripped(ReleaseText, raw);
    var line := Strip(raw);
    if DollarMatch(ReleaseText, line) then Some(line) else None
  }

  /**
   * The loop of `get_channel_releases`: keep every `X.Y.Z` line, repeats
   * included, then sort in place by `tuple(map(int, x.split('.')))`, a stable sort.
   */
  method ParseChannelReleases(lines: seq<string>) returns (releases: seq<string>)
    ensures releases == SortBy(Collect(lines, ChannelReleaseOfLine), VersionNumbers, false)
  {
    var kept: seq<string> := [];
    for i := 0 to |lines|
      invariant kept == Collect(lines[..i], ChannelReleaseOfLine)
    {
      CollectStep(lines, i, ChannelReleaseOfLine);
      var line := Strip(lines[i]);
      DollarMatchStripped(ReleaseText, lines[i]);
      if DollarMatch(ReleaseText, line) {
        kept := kept + [line];
      }
    }
    assert lines[..|lines|] == lines;
    releases := SortBy(kept, VersionNumbers, false);
  }

  /** The responses of `/api/releases/<channel>`. */
  datatype ChannelReleasesReply =
    | ChannelReleases(channel: string, releases: seq<string>)  // 200
    | ChannelRequired                                         // 400, nothing is run
    | ListingFailed(error: string)                            // 500 "oc-mirror command failed: ..."
    | ListingTimeout                                          // 504
    | ListingError(error: string)                             // 500 with `str(e)`

  /** What `get_channel_releases` answers for `channel`. */
  function ChannelReleasesFrom(channel: string, run: Runner): (r: ChannelReleasesReply)
  {
    if Strip(channel) == "" then ChannelRequired
    else match run(ChannelReleasesCommand(channel))
      case Completed(code, out, err) =>
        if code != 0 then ListingFailed("oc-mirror command failed: " + err)
        else ChannelReleases(channel, SortBy(Collect(OutputLines(out), ChannelReleaseOfLine), VersionNumbers, false))
      case TimedOut => ListingTimeout
      case NotFound(e) => ListingError(e)
      case Failed(e) => ListingError(e)
  }

  method GetChannelReleases(channel: string, run: Runner) returns (r: ChannelReleasesReply)
    ensures r == ChannelReleasesFrom(channel, run)
  {
    if channel == "" || Strip(channel) == "" {
      return ChannelRequired;
    }
    var result := run(ChannelReleasesCommand(channel));
    match result {
      case Completed(code, out, err) =>
        if code != 0 {
          r := ListingFailed("oc-mirror command failed: " + err);
        } else {
          var releases := ParseChannelReleases(OutputLines(out));
          r := ChannelReleases(channel, releases);
        }
      case TimedOut => r := ListingTimeout;
      case NotFound(e) => r := ListingError(ExceptionText(result));
      case Failed(e) => r := ListingError(ExceptionText(result));
    }
  }

  /**
   * The releases of a channel are its `X.Y.Z` lines, each as often as it
   * occurs, in ascending version order.
   */
  lemma ChannelReleasesSorted(channel: string, run: Runner)
    requires ChannelReleasesFrom(channel, run).ChannelReleases?
    ensures var lines := OutputLines(run(ChannelReleasesCommand(channel)).stdout);
      var rs := ChannelReleasesFrom(channel, run).releases;
      SortedBy(rs, VersionNumbers, false)
      && multiset(rs) == multiset(Collect(lines, ChannelReleaseOfLine))
      && forall r :: r in rs ==> ReleaseText(r)
  {
    var lines := OutputLines(run(ChannelReleasesCommand(channel)).stdout);
    var rs := ChannelReleasesFrom(channel, run).releases;
    forall r | r in rs ensures ReleaseText(r) {
      assert r in multiset(Collect(lines, ChannelReleaseOfLine));
      CollectMembers(lines, ChannelReleaseOfLine, r);
      var k :| 0 <= k < |lines| && ChannelReleaseOfLine(lines[k]) == Some(r);
    }
  }

  /** 4.16.9 is listed before 4.16.10. */
  lemma PatchNineBeforeTen(channel: string, run: Runner, p: nat, q: nat)
    requires var r := ChannelReleasesFrom(channel, run);
      r.ChannelReleases? && p < |r.releases| && q < |r.releases| && r.releases[p] == "4.16.9" && r.releases[q] == "4.16.10"
    ensures p < q
  {
    ChannelReleasesSorted(channel, run);
    NineBeforeTenAsVersions();
    SortedPlacesStrictlyFirst(ChannelReleasesFrom(channel, run).releases, VersionNumbers, false, p, q);
  }
}
