/**
 * `refresh_versions` (refresh_function.py): list the OpenShift minor
 * versions with `oc-mirror list releases`, keep the lines that are exactly
 * `X.Y`, newest first, and record them in `data/ocp-versions.json`.
 */
module Refresh {
  import opened Wrappers
  import opened Text
  import opened Ordering
  import opened Validation
  import opened Process
  import opened Releases

  /** The file the release list is written to. */
  const OutputFile := "data/ocp-versions.json"

  /** The record written to `OutputFile`. */
  datatype OcpData = OcpData(releases: seq<string>, count: nat, source: string, timestamp: string, command: string)

  /** The reply of `refresh_versions`; the error kinds are the four `except`/`if` branches. */
  datatype RefreshReply =
    | Refreshed(message: string, releases: seq<string>, count: nat, file: string)
    | RefreshFailed(message: string)  // nonzero exit status, 500
    | RefreshTimedOut(message: string)  // 504
    | RefreshNotFound(message: string)  // `oc-mirror` is not installed, 500
    | RefreshError(message: string)  // any other exception, 500

  /** The release a line contributes: the whole stripped line, when it is exactly `X.Y`. */
  function RefreshReleaseOfLine(raw: string): (r: Option<string>)
    ensures r.Some? <==> VersionText(Strip(raw))
    ensures r.Some? ==> r.value == Strip(raw)
  {
    var line := Strip(raw);
    DollarMatchStripped(VersionText, raw);
    var kept := line != "" && !StartsWith(line, WarningSign) && !StartsWith(line, "W") && !StartsWith(line, "I")
      && !StartsWith(line, "Listing") && !StartsWith(line, "#") && !StartsWith(line, "Available")
      && DollarMatch(VersionText, line);
    assert kept <==> VersionText(line) by {
      if VersionText(line) {
        VersionTextSkipsFilters(line);
      }
    }
    if kept then Some(line) else None
  }

  /** An `X.Y` text starts with a digit, so none of the header and warning prefixes can match it. */
  lemma VersionTextSkipsFilters(s: string)
    requires VersionText(s)
    ensures |s| > 0 && IsDigit(s[0])
    ensures !StartsWith(s, WarningSign) && !StartsWith(s, "W") && !StartsWith(s, "I")
    ensures !StartsWith(s, "Listing") && !StartsWith(s, "#") && !StartsWith(s, "Available")
  {
    assert SkipWhile(s, 0, IsDigit) > 0;
  }

  /** The filter-and-dedupe loop followed by `releases.sort(key=..., reverse=True)`. */
  method RefreshReleases(lines: seq<string>) returns (releases: seq<string>)
    ensures releases == SortBy(DedupeFirst(Collect(lines, RefreshReleaseOfLine)), VersionNumbers, true)
  {
    releases := [];
    for i := 0 to |lines|
      invariant releases == DedupeFirst(Collect(lines[..i], RefreshReleaseOfLine))
    {
      CollectFirstStep(lines, i, RefreshReleaseOfLine);
      var line := Strip(lines[i]);
      DollarMatchStripped(VersionText, lines[i]);
      if line != "" && !StartsWith(line, WarningSign) && !StartsWith(line, "W") && !StartsWith(line, "I")
        && !StartsWith(line, "Listing") && !StartsWith(line, "#") && !StartsWith(line, "Available")
      {
        if DollarMatch(VersionText, line) && line !in releases {
          releases := releases + [line];
        }
      }
    }
    assert lines[..|lines|] == lines;
    releases := SortBy(releases, VersionNumbers, true);
  }

  /** The reply of `refresh_versions` and the record it writes, if it writes one. */
  function RefreshFrom(result: RunResult, now: string): (RefreshReply, Option<OcpData>)
  {
    match result
    case Completed(code, out, err) =>
      if code != 0 then (RefreshFailed("oc-mirror command failed: " + err), None)
      else
        var releases := SortBy(DedupeFirst(Collect(OutputLines(out), RefreshReleaseOfLine)), VersionNumbers, true);
        var data := OcpData(releases, |releases|, "oc-mirror", now, "oc-mirror list releases");
        (Refreshed("Successfully refreshed " + NatToString(|releases|) + " OCP releases", releases, |releases|, OutputFile), Some(data))
    case TimedOut => (RefreshTimedOut("oc-mirror command timed out (60 seconds)"), None)
    case NotFound(_) =>
      (RefreshNotFound("oc-mirror command not found. Please ensure oc-mirror is installed and available in PATH."), None)
    case Failed(e) => (RefreshError("Error refreshing OCP releases: " + e), None)
  }

  /** `refresh_versions`, with the clock reading `now` given; the write is what `written` holds. */
  method RefreshVersions(run: Runner, now: string) returns (reply: RefreshReply, written: Option<OcpData>)
    ensures (reply, written) == RefreshFrom(run(ReleasesCommand), now)
  {
    var result := run(ReleasesCommand);
    match result {
      case Completed(code, out, err) =>
        if code != 0 {
          return RefreshFailed("oc-mirror command failed: " + err), None;
        }
        var releases := RefreshReleases(OutputLines(out));
        var data := OcpData(releases, |releases|, "oc-mirror", now, "oc-mirror list releases");
        written := Some(data);
        reply := Refreshed("Successfully refreshed " + NatToString(|releases|) + " OCP releases", releases, |releases|, OutputFile);
      case TimedOut =>
        reply, written := RefreshTimedOut("oc-mirror command timed out (60 seconds)"), None;
      case NotFound(_) =>
        reply, written := RefreshNotFound("oc-mirror command not found. Please ensure oc-mirror is installed and available in PATH."), None;
      case Failed(e) =>
        reply, written := RefreshError("Error refreshing OCP releases: " + ExceptionText(result)), None;
    }
  }

  /** Something is written exactly when the command ran and exited with status 0. */
  lemma WrittenOnlyOnSuccess(result: RunResult, now: string)
    ensures RefreshFrom(result, now).1.Some? <==> result.Completed? && result.returnCode == 0
    ensures RefreshFrom(result, now).1.Some? <==> RefreshFrom(result, now).0.Refreshed?
  {
  }

  /** A nonzero exit status is reported with the tool's error output, and nothing is written. */
  lemma NonzeroExitWritesNothing(code: int, out: string, err: string, now: string)
    requires code != 0
    ensures RefreshFrom(Completed(code, out, err), now) == (RefreshFailed("oc-mirror command failed: " + err), None)
  {
  }

  /**
   * What is written and replied: the distinct stripped lines that are exactly
   * `X.Y`, each once, newest first, with `count` their number.
   */
  lemma RefreshedReleases(result: RunResult, now: string)
    requires RefreshFrom(result, now).1.Some?
    ensures var data := RefreshFrom(result, now).1.value;
      var reply := RefreshFrom(result, now).0;
      data.count == |data.releases| && reply.releases == data.releases && reply.count == data.count
      && NoDuplicates(data.releases) && SortedBy(data.releases, VersionNumbers, true)
  {
    var lines := OutputLines(result.stdout);
    var found := DedupeFirst(Collect(lines, RefreshReleaseOfLine));
    PermutationKeepsNoDuplicates(found, SortBy(found, VersionNumbers, true));
  }

  /** A release is written exactly when some output line, stripped, is that `X.Y` version. */
  lemma RefreshedReleaseLines(result: RunResult, now: string, v: string)
    requires RefreshFrom(result, now).1.Some?
    ensures var lines := OutputLines(result.stdout);
      v in RefreshFrom(result, now).1.value.releases <==>
        exists k :: 0 <= k < |lines| && VersionText(Strip(lines[k])) && v == Strip(lines[k])
  {
    var lines := OutputLines(result.stdout);
    RefreshLinesMembers(lines, v);
  }

  lemma RefreshLinesMembers(lines: seq<string>, v: string)
    ensures v in SortBy(DedupeFirst(Collect(lines, RefreshReleaseOfLine)), VersionNumbers, true) <==>
      exists k :: 0 <= k < |lines| && VersionText(Strip(lines[k])) && v == Strip(lines[k])
  {
    SortedFirstMembers(lines, RefreshReleaseOfLine, VersionNumbers, true, v);
    forall k | 0 <= k < |lines|
      ensures RefreshReleaseOfLine(lines[k]) == Some(v) <==> VersionText(Strip(lines[k])) && v == Strip(lines[k])
    {
    }
  }
}
