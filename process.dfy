/**
 * Running the `oc-mirror` command line tool.
 *
 * The handlers run `oc-mirror` through `subprocess.run(..., capture_output=True,
 * text=True, timeout=...)`. The model does not run anything: a `Runner` maps
 * the argument vector to what the run produced, and every handler is stated
 * for all runners.
 */
module Process {
  import opened Wrappers
  import opened Text
  import opened Ordering

  /** What one `subprocess.run` call ends in. */
  datatype RunResult =
    | Completed(returnCode: int, stdout: string, stderr: string)
    | TimedOut                   // `subprocess.TimeoutExpired`
    | NotFound(message: string)  // `FileNotFoundError`: the executable is missing
    | Failed(message: string)    // any other exception, with its `str(e)`

  /** The outcome of running an argument vector. */
  type Runner = seq<string> -> RunResult

  /** The executable every handler runs. */
  const OcMirror := "oc-mirror"

  /** `str(e)` for the exceptions the generic `except Exception as e` branches see. */
  function ExceptionText(r: RunResult): (t: string)
    requires r.NotFound? || r.Failed?
  {
    r.message
  }

  /** `result.stdout.strip().split('\n')`: the lines the handlers scan. */
  function OutputLines(stdout: string): seq<string> {
    Split(Strip(stdout), '\n')
  }

  /** The lines hold no line breaks and, joined back, give the stripped output. */
  lemma OutputLinesRejoin(stdout: string)
    ensures |OutputLines(stdout)| >= 1
    ensures forall k :: 0 <= k < |OutputLines(stdout)| ==> !HasChar(OutputLines(stdout)[k], '\n')
    ensures Join(OutputLines(stdout), '\n') == Strip(stdout)
  {
    JoinSplit(Strip(stdout), '\n');
  }

  /**
   * The loop shape the handlers share: walk the lines in order and keep what
   * `f` extracts from each, skipping the lines it rejects.
   */
  function Collect<T(==,!new)>(lines: seq<string>, f: string -> Option<T>): (r: seq<T>)
    ensures |r| <= |lines|
    decreases |lines|
  {
    if |lines| == 0 then []
    else
      var init := Collect(lines[..|lines| - 1], f);
      match f(lines[|lines| - 1])
      case Some(x) => init + [x]
      case None => init
  }

  /** What is collected is exactly what `f` extracts from some line. */
  lemma {:induction false} CollectMembers<T(!new)>(lines: seq<string>, f: string -> Option<T>, x: T)
    ensures x in Collect(lines, f) <==> exists k :: 0 <= k < |lines| && f(lines[k]) == Some(x)
    decreases |lines|
  {
    if |lines| > 0 {
      var init := lines[..|lines| - 1];
      CollectMembers(init, f, x);
      assert forall k :: 0 <= k < |init| ==> init[k] == lines[k];
      if x in Collect(init, f) {
        var k :| 0 <= k < |init| && f(init[k]) == Some(x);
        assert f(lines[k]) == Some(x);
      }
    }
  }

  /** One more line extends the collection by what `f` extracts from it. */
  lemma CollectSnoc<T(!new)>(lines: seq<string>, line: string, f: string -> Option<T>)
    ensures Collect(lines + [line], f) == Collect(lines, f) + (if f(line).Some? then [f(line).value] else [])
  {
    assert (lines + [line])[..|lines|] == lines;
  }

  /** One step of a loop that appends what `f` extracts from each line. */
  lemma CollectStep<T(!new)>(lines: seq<string>, i: nat, f: string -> Option<T>)
    requires i < |lines|
    ensures Collect(lines[..i + 1], f) == Collect(lines[..i], f) + (if f(lines[i]).Some? then [f(lines[i]).value] else [])
  {
    assert lines[..i + 1] == lines[..i] + [lines[i]];
    CollectSnoc(lines[..i], lines[i], f);
  }

  /** One step of a loop that appends what `f` extracts from a line unless it was already kept. */
  lemma CollectFirstStep<T(!new)>(lines: seq<string>, i: nat, f: string -> Option<T>)
    requires i < |lines|
    ensures var kept := DedupeFirst(Collect(lines[..i], f));
      DedupeFirst(Collect(lines[..i + 1], f))
        == if f(lines[i]).Some? && f(lines[i]).value !in kept then kept + [f(lines[i]).value] else kept
  {
    assert lines[..i + 1] == lines[..i] + [lines[i]];
    CollectStep(lines, i, f);
    if f(lines[i]).Some? {
      DedupeFirstSnoc(Collect(lines[..i], f), f(lines[i]).value);
    }
  }

  /** Keeping first occurrences and sorting changes neither which items there are nor where they come from. */
  lemma SortedFirstMembers<T(!new)>(lines: seq<string>, f: string -> Option<T>, key: T -> seq<int>, desc: bool, x: T)
    ensures x in SortBy(DedupeFirst(Collect(lines, f)), key, desc) <==> exists k :: 0 <= k < |lines| && f(lines[k]) == Some(x)
  {
    var found := DedupeFirst(Collect(lines, f));
    var sorted := SortBy(found, key, desc);
    assert x in sorted <==> x in multiset(sorted);
    assert x in found <==> x in multiset(found);
    CollectMembers(lines, f, x);
  }
}
