/**
 * The operator endpoints of the web application (app.py): the short-name
 * table (`/api/operators/mappings`), the operators of a catalog
 * (`/api/operators/list`) and the channels of one operator
 * (`/api/operators/<operator_name>/channels`), each read from
 * `oc-mirror list operators` output.
 */
module Operators {
  import opened Wrappers
  import opened Text
  import opened Ordering
  import opened Constants
  import opened Process
  import opened Catalogs
  import Generator

  // ---------------------------------------------------------------------
  // GET /api/operators/mappings
  // ---------------------------------------------------------------------

  /** The reply: the table, and its keys in table order as suggestions. */
  datatype MappingsReply = MappingsReply(mappings: seq<(string, string)>, suggestions: seq<string>)

  function Keys(table: seq<(string, string)>): (keys: seq<string>)
    ensures |keys| == |table|
    ensures forall i :: 0 <= i < |table| ==> keys[i] == table[i].0
  {
    seq(|table|, i requires 0 <= i < |table| => table[i].0)
  }

  /** The endpoint repeats the generator's table entry for entry. */
  function OperatorMappingsReply(): MappingsReply {
    MappingsReply(OperatorMappings, Keys(OperatorMappings))
  }

  /** Each suggestion is offered once, and looking it up in the table gives its package. */
  lemma SuggestionsResolve(reply: MappingsReply)
    requires reply == OperatorMappingsReply()
    ensures |reply.suggestions| == 18 && NoDuplicates(reply.suggestions)
    ensures forall i :: 0 <= i < |reply.suggestions| ==>
      Lookup(reply.mappings, reply.suggestions[i], reply.suggestions[i]) == reply.mappings[i].1
  {
    OperatorMappingsShape();
    var table := OperatorMappings;
    forall i | 0 <= i < |table| ensures Lookup(table, table[i].0, table[i].0) == table[i].1 {
      assert FirstKeyAt(table, table[i].0, i);
    }
  }

  // ---------------------------------------------------------------------
  // GET /api/operators/list
  // ---------------------------------------------------------------------

  /** The query defaults: the unversioned Red Hat index and release 4.18. */
  const DefaultVersion := "4.18"

  /** `request.args.get(name, default)`. */
  function QueryArg(arg: Option<string>, default: string): string {
    if arg.Some? then arg.value else default
  }

  /** One operator of the listing. `defaultChannel` is present when the line has a second word. */
  datatype OperatorInfo = OperatorInfo(
    name: string, displayName: string, description: string, catalog: string, version: string,
    defaultChannel: Option<string>)

  /** A stripped line names an operator unless it is blank or starts like a header, warning or error. */
  predicate IsOperatorLine(line: string) {
    line != "" && !StartsWith(line, "#") && !StartsWith(line, "WARN") && !StartsWith(line, "INFO")
    && !StartsWith(line, "Error") && !StartsWith(line, "Failed") && !StartsWith(line, "Listing")
    && !StartsWith(line, "Using")
  }

  /** `name.replace('-', ' ').title()`. */
  function DisplayName(name: string): string {
    Title(ReplaceChar(name, '-', ' '))
  }

  /** The operator an output line describes: its first word, and its second as the default channel. */
  function OperatorOfLine(url: string, key: string, raw: string): (r: Option<OperatorInfo>)
    ensures r.Some? <==> IsOperatorLine(Strip(raw))
    ensures r.Some? ==>
      (|Words(Strip(raw))| >= 1 && r.value.name == Words(Strip(raw))[0]
       && r.value.catalog == url && r.value.version == key)
    ensures r.Some? ==>
      (|Words(Strip(raw))| >= 1
       && r.value.displayName == DisplayName(Words(Strip(raw))[0])
       && r.value.description == "Operator from " + url
       && r.value.defaultChannel
          == (if |Words(Strip(raw))| >= 2 then Some(Words(Strip(raw))[1]) else None))
  {
    var line := Strip(raw);
    if IsOperatorLine(line) then
      var parts := Words(line);
      assert |parts| >= 1 by { WordsHead(line); }
      if |parts| >= 1 then
        var name := parts[0];
        Some(OperatorInfo(name, DisplayName(name), "Operator from " + url, url, key,
          if |parts| >= 2 then Some(parts[1]) else None))
      else None
    else None
  }

  function Names(ops: seq<OperatorInfo>): (names: seq<string>)
    ensures |names| == |ops|
    ensures forall i :: 0 <= i < |ops| ==> names[i] == ops[i].name
  {
    seq(|ops|, i requires 0 <= i < |ops| => ops[i].name)
  }

  predicate DistinctNames(ops: seq<OperatorInfo>) {
    forall i, j :: 0 <= i < j < |ops| ==> ops[i].name != ops[j].name
  }

  /** `ops[i]` is the first operator named `ops[i].name`. */
  predicate FirstNamedAt(ops: seq<OperatorInfo>, i: int) {
    0 <= i < |ops| && forall j :: 0 <= j < i ==> ops[j].name != ops[i].name
  }

  /**
   * The values of `unique_operators`: each name once, with the operator that
   * first carried it, in order of first appearance.
   */
  function FirstByName(ops: seq<OperatorInfo>): (r: seq<OperatorInfo>)
    ensures |r| <= |ops|
    decreases |ops|
  {
    if |ops| == 0 then []
    else
      var d := FirstByName(ops[..|ops| - 1]);
      if ops[|ops| - 1].name in Names(d) then d else d + [ops[|ops| - 1]]
  }

  /** No two operators kept share a name. */
  lemma {:induction false} FirstByNameDistinct(ops: seq<OperatorInfo>)
    ensures DistinctNames(FirstByName(ops))
    decreases |ops|
  {
    if |ops| > 0 {
      var d := FirstByName(ops[..|ops| - 1]);
      FirstByNameDistinct(ops[..|ops| - 1]);
    }
  }

  /** Each operator kept is the first one carrying its name. */
  lemma {:induction false} FirstByNameFirst(ops: seq<OperatorInfo>, k: nat)
    requires k < |FirstByName(ops)|
    ensures exists i :: FirstNamedAt(ops, i) && ops[i] == FirstByName(ops)[k]
    decreases |ops|
  {
    var p, op := ops[..|ops| - 1], ops[|ops| - 1];
    var d := FirstByName(p);
    if k < |d| {
      FirstByNameFirst(p, k);
      var i :| FirstNamedAt(p, i) && p[i] == d[k];
      FirstNamedExtends(ops, i);
    } else {
      assert op.name !in Names(d);
      forall j | 0 <= j < |p| ensures p[j].name != op.name {
        FirstByNameKeeps(p, j);
      }
      assert ops == p + [op];
      FirstNamedLast(p, op);
    }
  }

  lemma FirstNamedExtends(ops: seq<OperatorInfo>, i: int)
    requires |ops| > 0 && FirstNamedAt(ops[..|ops| - 1], i)
    ensures FirstNamedAt(ops, i) && ops[i] == ops[..|ops| - 1][i]
  {
    assert forall j :: 0 <= j <= i ==> ops[..|ops| - 1][j] == ops[j];
  }

  lemma FirstNamedLast(p: seq<OperatorInfo>, op: OperatorInfo)
    requires forall j :: 0 <= j < |p| ==> p[j].name != op.name
    ensures FirstNamedAt(p + [op], |p|)
  {
    assert forall j :: 0 <= j < |p| ==> (p + [op])[j] == p[j];
  }

  /** Every name of the input is kept. */
  lemma {:induction false} FirstByNameKeeps(ops: seq<OperatorInfo>, i: nat)
    requires i < |ops|
    ensures ops[i].name in Names(FirstByName(ops))
    decreases |ops|
  {
    var p, op := ops[..|ops| - 1], ops[|ops| - 1];
    var d := FirstByName(p);
    if op.name !in Names(d) {
      assert Names(d + [op]) == Names(d) + [op.name];
    }
    if i < |p| {
      FirstByNameKeeps(p, i);
      assert ops[i] == p[i];
    }
  }

  /** The sort key of `sorted(..., key=lambda x: x['name'])`. */
  function NameKey(op: OperatorInfo): seq<int> {
    Codes(op.name)
  }

  function OperatorsCommand(url: string, key: string): seq<string> {
    CatalogCheckCommand(url, key)
  }

  /** The line parser for one catalog URL and version key. */
  function OperatorParser(url: string, key: string): string -> Option<OperatorInfo> {
    raw => OperatorOfLine(url, key, raw)
  }

  /** The operators parsed from the output lines, one per name, sorted by name. */
  function OperatorsOfLines(lines: seq<string>, url: string, key: string): seq<OperatorInfo> {
    SortBy(FirstByName(Collect(lines, OperatorParser(url, key))), NameKey, false)
  }

  /** The two loops of `get_operators_list`, then `sorted`. */
  method ParseOperators(lines: seq<string>, url: string, key: string) returns (sorted: seq<OperatorInfo>)
    ensures sorted == OperatorsOfLines(lines, url, key)
  {
    var operators := CollectOperators(lines, url, key);
    var unique := UniqueByName(operators);
    sorted := SortBy(unique, NameKey, false);
  }

  /** The first loop: one operator per line that names one. */
  method CollectOperators(lines: seq<string>, url: string, key: string) returns (operators: seq<OperatorInfo>)
    ensures operators == Collect(lines, OperatorParser(url, key))
  {
    var f := OperatorParser(url, key);
    operators := [];
    for i := 0 to |lines|
      invariant operators == Collect(lines[..i], f)
    {
      CollectStep(lines, i, f);
      var line := Strip(lines[i]);
      if IsOperatorLine(line) {
        var parts := Words(line);
        if |parts| >= 1 {
          var name := parts[0];
          var info := OperatorInfo(name, DisplayName(name), "Operator from " + url, url, key,
            if |parts| >= 2 then Some(parts[1]) else None);
          operators := operators + [info];
        }
      }
    }
    assert lines[..|lines|] == lines;
  }

  /** The second loop: the `unique_operators` dictionary, keeping the first operator of each name. */
  method UniqueByName(operators: seq<OperatorInfo>) returns (unique: seq<OperatorInfo>)
    ensures unique == FirstByName(operators)
  {
    unique := [];
    for i := 0 to |operators|
      invariant unique == FirstByName(operators[..i])
    {
      assert operators[..i + 1][..i] == operators[..i];
      if operators[i].name !in Names(unique) {
        unique := unique + [operators[i]];
      }
    }
    assert operators[..|operators|] == operators;
  }

  /** The reply of `get_operators_list`. */
  datatype OperatorsReply =
    | OperatorList(catalog: string, version: string, operators: seq<OperatorInfo>)
    | OperatorsFailed(message: string)  // nonzero exit status or any other exception, 500
    | OperatorsTimeout(message: string)  // 504

  /** The catalog URL the listing uses: the query's catalog, suffixed with `:v<key>` unless it has `:v`. */
  function ListingCatalog(catalog: Option<string>, version: Option<string>): string {
    CatalogWithVersion(QueryArg(catalog, Generator.DefaultCatalog), VersionKey(QueryArg(version, DefaultVersion)))
  }

  /** The reply for the listing command's outcome. */
  function OperatorsReplyFor(result: RunResult, url: string, key: string): OperatorsReply {
    match result
    case Completed(code, out, err) =>
      if code != 0 then OperatorsFailed("Failed to fetch operators: " + err)
      else OperatorList(url, key, OperatorsOfLines(OutputLines(out), url, key))
    case TimedOut => OperatorsTimeout("Request timeout while fetching operators")
    case NotFound(e) => OperatorsFailed("Failed to fetch operators: " + e)
    case Failed(e) => OperatorsFailed("Failed to fetch operators: " + e)
  }

  /** `get_operators_list`: the reply for the query, with the command run by `run`. */
  function OperatorsFrom(catalog: Option<string>, version: Option<string>, run: Runner): OperatorsReply {
    var key := VersionKey(QueryArg(version, DefaultVersion));
    var url := ListingCatalog(catalog, version);
    OperatorsReplyFor(run(OperatorsCommand(url, key)), url, key)
  }

  /** The reply for the listing command's outcome, parsing the output when it succeeded. */
  method AnswerOperators(result: RunResult, url: string, key: string) returns (r: OperatorsReply)
    ensures r == OperatorsReplyFor(result, url, key)
  {
    match result {
      case Completed(code, out, err) =>
        if code != 0 {
          r := OperatorsFailed("Failed to fetch operators: " + err);
        } else {
          var operators := ParseOperators(OutputLines(out), url, key);
          r := OperatorList(url, key, operators);
        }
      case TimedOut =>
        r := OperatorsTimeout("Request timeout while fetching operators");
      case NotFound(_) =>
        r := OperatorsFailed("Failed to fetch operators: " + ExceptionText(result));
      case Failed(_) =>
        r := OperatorsFailed("Failed to fetch operators: " + ExceptionText(result));
    }
  }

  /** `get_operators_list`, with the query parameters absent or given. */
  method GetOperatorsList(catalog: Option<string>, version: Option<string>, run: Runner) returns (r: OperatorsReply)
    ensures r == OperatorsFrom(catalog, version, run)
  {
    var key := VersionKey(QueryArg(version, DefaultVersion));
    var url := ListingCatalog(catalog, version);
    r := AnswerOperators(run(OperatorsCommand(url, key)), url, key);
  }

  /** Reordering a list whose names are distinct keeps them distinct. */
  lemma PermutationKeepsDistinctNames(a: seq<OperatorInfo>, b: seq<OperatorInfo>)
    requires multiset(a) == multiset(b) && DistinctNames(a)
    ensures DistinctNames(b)
  {
    assert NoDuplicates(a);
    PermutationKeepsNoDuplicates(a, b);
    forall i, j | 0 <= i < j < |b| ensures b[i].name != b[j].name {
      var p := PermutedIndex(b, a, i);
      var q := PermutedIndex(b, a, j);
    }
  }

  /** The listing names each operator once, in strictly increasing order of name. */
  lemma OperatorsStrictlyByName(lines: seq<string>, url: string, key: string, ops: seq<OperatorInfo>)
    requires ops == OperatorsOfLines(lines, url, key)
    ensures forall i, j :: 0 <= i < j < |ops| ==> StrLt(ops[i].name, ops[j].name)
  {
    var found := Collect(lines, OperatorParser(url, key));
    var unique := FirstByName(found);
    FirstByNameDistinct(found);
    PermutationKeepsDistinctNames(unique, ops);
    forall i, j | 0 <= i < j < |ops| ensures StrLt(ops[i].name, ops[j].name) {
      assert Before(ops[i], ops[j], NameKey, false);
      if Codes(ops[i].name) == Codes(ops[j].name) {
        CodesInjective(ops[i].name, ops[j].name);
      }
    }
  }

  /** An operator listed is the first in `found` that carries its name. */
  lemma ListedIsFirst(found: seq<OperatorInfo>, ops: seq<OperatorInfo>, k: nat)
    requires ops == SortBy(FirstByName(found), NameKey, false) && k < |ops|
    ensures exists i :: FirstNamedAt(found, i) && found[i] == ops[k]
  {
    var unique := FirstByName(found);
    var m := PermutedIndex(ops, unique, k);
    FirstByNameFirst(found, m);
  }

  /** Every name in `found` is listed. */
  lemma NameListed(found: seq<OperatorInfo>, ops: seq<OperatorInfo>, i: nat)
    requires ops == SortBy(FirstByName(found), NameKey, false) && i < |found|
    ensures exists k :: 0 <= k < |ops| && ops[k].name == found[i].name
  {
    var unique := FirstByName(found);
    var m := KeptIndex(found, i);
    var k := PermutedIndex(unique, ops, m);
    assert ops[k].name == found[i].name;
  }

  /** Where the operator kept for the name of `ops[i]` sits in `FirstByName(ops)`. */
  lemma KeptIndex(ops: seq<OperatorInfo>, i: nat) returns (m: nat)
    requires i < |ops|
    ensures m < |FirstByName(ops)| && FirstByName(ops)[m].name == ops[i].name
  {
    FirstByNameKeeps(ops, i);
    var names := Names(FirstByName(ops));
    m :| 0 <= m < |names| && names[m] == ops[i].name;
  }

  /**
   * Every operator listed is the first operator that some output line names
   * with that name, and every name that some line gives is listed.
   */
  lemma OperatorsFirstWins(lines: seq<string>, url: string, key: string, found: seq<OperatorInfo>, ops: seq<OperatorInfo>)
    requires found == Collect(lines, OperatorParser(url, key)) && ops == OperatorsOfLines(lines, url, key)
    ensures forall k :: 0 <= k < |ops| ==> exists i :: FirstNamedAt(found, i) && found[i] == ops[k]
    ensures forall i :: 0 <= i < |found| ==> exists k :: 0 <= k < |ops| && ops[k].name == found[i].name
  {
    forall k | 0 <= k < |ops| ensures exists i :: FirstNamedAt(found, i) && found[i] == ops[k] {
      ListedIsFirst(found, ops, k);
    }
    forall i | 0 <= i < |found| ensures exists k :: 0 <= k < |ops| && ops[k].name == found[i].name {
      NameListed(found, ops, i);
    }
  }

  /** A name is listed exactly when some output line, stripped, is an operator line whose first word it is. */
  lemma OperatorLinesFound(lines: seq<string>, url: string, key: string, ops: seq<OperatorInfo>, name: string)
    requires ops == OperatorsOfLines(lines, url, key)
    ensures (exists k :: 0 <= k < |ops| && ops[k].name == name) <==>
      exists i :: 0 <= i < |lines| && NamesOperator(lines[i], name)
  {
    if exists k :: 0 <= k < |ops| && ops[k].name == name {
      var k :| 0 <= k < |ops| && ops[k].name == name;
      ListedFromLine(lines, url, key, ops, k);
    }
    if exists i :: 0 <= i < |lines| && NamesOperator(lines[i], name) {
      var i :| 0 <= i < |lines| && NamesOperator(lines[i], name);
      LineListed(lines, url, key, ops, i);
    }
  }

  /** The raw output line `raw`, stripped, is an operator line whose first word is `name`. */
  predicate NamesOperator(raw: string, name: string) {
    IsOperatorLine(Strip(raw)) && |Words(Strip(raw))| >= 1 && Words(Strip(raw))[0] == name
  }

  /** Each operator listed comes from an output line that names it. */
  lemma ListedFromLine(lines: seq<string>, url: string, key: string, ops: seq<OperatorInfo>, k: nat)
    requires ops == OperatorsOfLines(lines, url, key) && k < |ops|
    ensures exists i :: 0 <= i < |lines| && NamesOperator(lines[i], ops[k].name)
  {
    var f := OperatorParser(url, key);
    var found := Collect(lines, f);
    ListedIsFirst(found, ops, k);
    var m :| FirstNamedAt(found, m) && found[m] == ops[k];
    CollectMembers(lines, f, found[m]);
    var i :| 0 <= i < |lines| && f(lines[i]) == Some(found[m]);
    assert OperatorOfLine(url, key, lines[i]) == Some(ops[k]);
    assert NamesOperator(lines[i], ops[k].name);
  }

  /** The name of each operator line is listed. */
  lemma LineListed(lines: seq<string>, url: string, key: string, ops: seq<OperatorInfo>, i: nat)
    requires ops == OperatorsOfLines(lines, url, key) && i < |lines| && IsOperatorLine(Strip(lines[i]))
    ensures |Words(Strip(lines[i]))| >= 1
    ensures exists k :: 0 <= k < |ops| && ops[k].name == Words(Strip(lines[i]))[0]
  {
    var f := OperatorParser(url, key);
    var found := Collect(lines, f);
    var op := OperatorOfLine(url, key, lines[i]).value;
    assert f(lines[i]) == Some(op);
    CollectMembers(lines, f, op);
    var m :| 0 <= m < |found| && found[m] == op;
    NameListed(found, ops, m);
  }

  // ---------------------------------------------------------------------
  // GET /api/operators/<operator_name>/channels
  // ---------------------------------------------------------------------

  /** One channel of the reply; only `stable` is marked as the default. */
  datatype ChannelInfo = ChannelInfo(name: string, isDefault: bool)

  const ChannelKeywords: seq<string> := ["stable", "fast", "alpha", "beta"]

  /** A stripped line is read for channels when it mentions `channel` in any case or a channel keyword. */
  predicate MentionsChannel(line: string) {
    Contains(Lower(line), "channel") || Contains(line, "stable") || Contains(line, "fast")
    || Contains(line, "alpha") || Contains(line, "beta")
  }

  /** A word is taken as a channel when it is a keyword or contains a hyphen. */
  predicate IsChannelToken(part: string) {
    part in ChannelKeywords || HasChar(part, '-')
  }

  function TokenInfo(part: string): ChannelInfo {
    ChannelInfo(part, part == "stable")
  }

  /** The channels the words `parts` contribute, in order, repeats kept. */
  function TokenInfos(parts: seq<string>): (r: seq<ChannelInfo>)
    decreases |parts|
  {
    if |parts| == 0 then []
    else
      TokenInfos(parts[..|parts| - 1])
      + (if IsChannelToken(parts[|parts| - 1]) then [TokenInfo(parts[|parts| - 1])] else [])
  }

  /** The channels one output line contributes. */
  function LineChannels(raw: string): seq<ChannelInfo> {
    var line := Strip(raw);
    if MentionsChannel(line) then TokenInfos(Words(line)) else []
  }

  /** The concatenation of what each line contributes, in line order. */
  function FlatMap<T>(lines: seq<string>, f: string -> seq<T>): seq<T>
    decreases |lines|
  {
    if |lines| == 0 then [] else FlatMap(lines[..|lines| - 1], f) + f(lines[|lines| - 1])
  }

  /** An item is in the concatenation exactly when some line contributes it. */
  lemma {:induction false} FlatMapMembers<T>(lines: seq<string>, f: string -> seq<T>, c: T)
    ensures c in FlatMap(lines, f) <==> exists k :: 0 <= k < |lines| && c in f(lines[k])
    decreases |lines|
  {
    if |lines| > 0 {
      var p := lines[..|lines| - 1];
      FlatMapMembers(p, f, c);
      assert forall k :: 0 <= k < |p| ==> p[k] == lines[k];
    }
  }

  /** The channels all lines contribute, in order, repeats kept. */
  function Candidates(lines: seq<string>): seq<ChannelInfo> {
    FlatMap(lines, LineChannels)
  }

  /** The replacement when no line yields a channel. */
  const FallbackChannels: seq<ChannelInfo> := [ChannelInfo("stable", true), ChannelInfo("fast", false)]

  /** The channels of the reply: the candidates without repeats, or the fallback when there are none. */
  function ChannelsOfLines(lines: seq<string>): seq<ChannelInfo> {
    var channels := DedupeFirst(Candidates(lines));
    if channels == [] then FallbackChannels else channels
  }

  /** The loop over lines, then the fallback. */
  method ParseOperatorChannels(lines: seq<string>) returns (channels: seq<ChannelInfo>)
    ensures channels == ChannelsOfLines(lines)
  {
    channels := [];
    for i := 0 to |lines|
      invariant channels == DedupeFirst(Candidates(lines[..i]))
    {
      CandidatesStep(lines, i);
      var line := Strip(lines[i]);
      if MentionsChannel(line) {
        channels := AddWordChannels(channels, Candidates(lines[..i]), Words(line));
      } else {
        assert Candidates(lines[..i]) + LineChannels(lines[i]) == Candidates(lines[..i]);
      }
    }
    assert lines[..|lines|] == lines;
    if channels == [] {
      channels := FallbackChannels;
    }
  }

  /** The loop over the words of one line, appending each channel word not yet listed. */
  method AddWordChannels(channels: seq<ChannelInfo>, ghost before: seq<ChannelInfo>, parts: seq<string>)
    returns (updated: seq<ChannelInfo>)
    requires channels == DedupeFirst(before)
    ensures updated == DedupeFirst(before + TokenInfos(parts))
  {
    updated := channels;
    assert before + TokenInfos(parts[..0]) == before;
    for j := 0 to |parts|
      invariant updated == DedupeFirst(before + TokenInfos(parts[..j]))
    {
      WordStep(before, parts, j);
      var part := parts[j];
      if part in ChannelKeywords || HasChar(part, '-') {
        var info := TokenInfo(part);
        if info !in updated {
          updated := updated + [info];
        }
      }
    }
    assert parts[..|parts|] == parts;
  }

  lemma CandidatesStep(lines: seq<string>, i: nat)
    requires i < |lines|
    ensures Candidates(lines[..i + 1]) == Candidates(lines[..i]) + LineChannels(lines[i])
  {
    assert lines[..i + 1][..i] == lines[..i];
  }

  /** One more word: its channel is appended when it is a channel word not yet listed. */
  lemma WordStep(before: seq<ChannelInfo>, parts: seq<string>, j: nat)
    requires j < |parts|
    ensures var prev := before + TokenInfos(parts[..j]);
      var info := TokenInfo(parts[j]);
      && (info in DedupeFirst(prev) <==> info in prev)
      && DedupeFirst(before + TokenInfos(parts[..j + 1]))
         == if IsChannelToken(parts[j]) && info !in prev then DedupeFirst(prev) + [info] else DedupeFirst(prev)
  {
    var prev := before + TokenInfos(parts[..j]);
    var info := TokenInfo(parts[j]);
    TokenInfosStep(parts, j);
    DedupeFirstSnoc(prev, info);
    if IsChannelToken(parts[j]) {
      assert before + TokenInfos(parts[..j + 1]) == prev + [info];
    } else {
      assert before + TokenInfos(parts[..j + 1]) == prev;
    }
  }

  lemma TokenInfosStep(parts: seq<string>, j: nat)
    requires j < |parts|
    ensures TokenInfos(parts[..j + 1])
      == TokenInfos(parts[..j]) + (if IsChannelToken(parts[j]) then [TokenInfo(parts[j])] else [])
  {
    assert parts[..j + 1][..j] == parts[..j];
  }

  /** The reply of `get_operator_channels`; `defaultChannel` is always `stable`. */
  datatype OperatorChannelsReply =
    | ChannelListing(operator: string, catalog: string, channels: seq<ChannelInfo>, defaultChannel: string)
    | ChannelListingTimeout(message: string)  // 504
    | ChannelListingError(message: string)  // 500

  function OperatorChannelsCommand(url: string, key: string, operator: string): seq<string> {
    CatalogCheckCommand(url, key) + [operator]
  }

  /** The reply for the channel command's outcome. */
  function OperatorChannelsReplyFor(operator: string, result: RunResult, url: string): OperatorChannelsReply {
    match result
    case Completed(code, out, _) =>
      if code != 0 then ChannelListing(operator, url, [ChannelInfo("stable", true)], "stable")
      else ChannelListing(operator, url, ChannelsOfLines(OutputLines(out)), "stable")
    case TimedOut => ChannelListingTimeout("Request timeout while fetching operator channels")
    case NotFound(e) => ChannelListingError("Failed to fetch operator channels: " + e)
    case Failed(e) => ChannelListingError("Failed to fetch operator channels: " + e)
  }

  /** `get_operator_channels`: the reply for the query, with the command run by `run`. */
  function OperatorChannelsFrom(operator: string, catalog: Option<string>, version: Option<string>, run: Runner)
    : OperatorChannelsReply
  {
    var key := VersionKey(QueryArg(version, DefaultVersion));
    var url := ListingCatalog(catalog, version);
    OperatorChannelsReplyFor(operator, run(OperatorChannelsCommand(url, key, operator)), url)
  }

  /** The reply for the channel command's outcome; a failing command still answers with `stable`. */
  method AnswerChannels(operator: string, result: RunResult, url: string) returns (r: OperatorChannelsReply)
    ensures r == OperatorChannelsReplyFor(operator, result, url)
  {
    match result {
      case Completed(code, out, _) =>
        if code != 0 {
          r := ChannelListing(operator, url, [ChannelInfo("stable", true)], "stable");
        } else {
          var channels := ParseOperatorChannels(OutputLines(out));
          r := ChannelListing(operator, url, channels, "stable");
        }
      case TimedOut =>
        r := ChannelListingTimeout("Request timeout while fetching operator channels");
      case NotFound(_) =>
        r := ChannelListingError("Failed to fetch operator channels: " + ExceptionText(result));
      case Failed(_) =>
        r := ChannelListingError("Failed to fetch operator channels: " + ExceptionText(result));
    }
  }

  /** `get_operator_channels`. */
  method GetOperatorChannels(operator: string, catalog: Option<string>, version: Option<string>, run: Runner)
    returns (r: OperatorChannelsReply)
    ensures r == OperatorChannelsFrom(operator, catalog, version, run)
  {
    var key := VersionKey(QueryArg(version, DefaultVersion));
    var url := ListingCatalog(catalog, version);
    r := AnswerChannels(operator, run(OperatorChannelsCommand(url, key, operator)), url);
  }

  /** The channels of a word list are exactly the channel words, each marked default iff it is `stable`. */
  lemma {:induction false} TokenInfosMembers(parts: seq<string>, c: ChannelInfo)
    ensures c in TokenInfos(parts) <==> exists j :: 0 <= j < |parts| && IsChannelToken(parts[j]) && c == TokenInfo(parts[j])
    decreases |parts|
  {
    if |parts| > 0 {
      var p := parts[..|parts| - 1];
      TokenInfosMembers(p, c);
      assert forall j :: 0 <= j < |p| ==> p[j] == parts[j];
    }
  }

  /**
   * Whatever the output, the reply lists at least one channel, each once,
   * each a keyword or a hyphenated word, and exactly `stable` is marked default.
   */
  lemma ChannelsWellFormed(lines: seq<string>, cs: seq<ChannelInfo>)
    requires cs == ChannelsOfLines(lines)
    ensures |cs| >= 1 && NoDuplicates(cs)
    ensures forall k :: 0 <= k < |cs| ==> IsChannelToken(cs[k].name) && (cs[k].isDefault <==> cs[k].name == "stable")
    ensures forall k, m :: 0 <= k < m < |cs| ==> !(cs[k].isDefault && cs[m].isDefault)
  {
    var found := DedupeFirst(Candidates(lines));
    if found == [] {
      assert "fast" == ChannelKeywords[1] && "stable" == ChannelKeywords[0];
    } else {
      forall k | 0 <= k < |found|
        ensures IsChannelToken(found[k].name) && (found[k].isDefault <==> found[k].name == "stable")
      {
        CandidateWellFormed(lines, found[k]);
      }
    }
    forall k, m | 0 <= k < m < |cs| ensures !(cs[k].isDefault && cs[m].isDefault) {
      assert cs[k] != cs[m];
    }
  }

  /** A channel found in the output is a channel word, marked default exactly when it is `stable`. */
  lemma CandidateWellFormed(lines: seq<string>, c: ChannelInfo)
    requires c in Candidates(lines)
    ensures IsChannelToken(c.name) && (c.isDefault <==> c.name == "stable")
  {
    FlatMapMembers(lines, LineChannels, c);
    var n :| 0 <= n < |lines| && c in LineChannels(lines[n]);
    TokenInfosMembers(Words(Strip(lines[n])), c);
  }

  /**
   * When some line yields a channel, a channel is listed exactly when a line
   * mentioning channels has it as a keyword or hyphenated word.
   */
  lemma ChannelsFromWords(lines: seq<string>, c: ChannelInfo)
    requires Candidates(lines) != []
    ensures c in ChannelsOfLines(lines) <==>
      exists k :: 0 <= k < |lines| && MentionsChannel(Strip(lines[k]))
        && c in TokenInfos(Words(Strip(lines[k])))
  {
    assert Candidates(lines)[0] in DedupeFirst(Candidates(lines));
    FlatMapMembers(lines, LineChannels, c);
  }
}
