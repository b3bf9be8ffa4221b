/** Tool rows of a graph, and their grouping into one server spec per distinct command, arguments and environment. */
module ToolRows {
  import opened Wrappers
  import opened Sorting
  import opened CanonicalJson

  datatype ToolRow = ToolRow(defId: string, kind: string, command: Option<string>, args: Json, env: Json)

  /** What makes two rows the same server. */
  datatype ServerKey = ServerKey(command: string, args: seq<string>, env: seq<(string, string)>)

  datatype ServerSpec = ServerSpec(key: ServerKey, defIds: seq<string>)

  datatype RowError = NoCommand | BadArgs | BadEnv

  function ParseArgs(v: Json): Result<seq<string>, RowError> {
    if v.Array? && AllStrings(v.items) then Ok(StringsOf(v.items)) else Err(BadArgs)
  }

  predicate AllStrings(items: seq<Json>) {
    forall i :: 0 <= i < |items| ==> items[i].String?
  }

  function StringsOf(items: seq<Json>): seq<string>
    requires AllStrings(items)
  {
    seq(|items|, i requires 0 <= i < |items| => items[i].s)
  }

  /** An object of strings, as pairs in key order; an empty array and null count as no environment. */
  function ParseEnv(v: Json): Result<seq<(string, string)>, RowError> {
    match v
    case Object(ms) => if AllStringValues(ms) then Ok(Sort(PairsOf(ms), PairLe)) else Err(BadEnv)
    case Array(items) => if items == [] then Ok([]) else Err(BadEnv)
    case Null => Ok([])
    case _ => Err(BadEnv)
  }

  predicate AllStringValues(ms: seq<Member>) {
    forall i :: 0 <= i < |ms| ==> ms[i].value.String?
  }

  function PairsOf(ms: seq<Member>): (r: seq<(string, string)>)
    requires AllStringValues(ms)
    ensures |r| == |ms|
  {
    seq(|ms|, i requires 0 <= i < |ms| => (ms[i].key, ms[i].value.s))
  }

  predicate PairLe(a: (string, string), b: (string, string)) {
    StrLe(a.0, b.0)
  }

  function RowKey(row: ToolRow): Result<ServerKey, RowError> {
    if row.command.None? then Err(NoCommand)
    else
      match ParseArgs(row.args)
      case Err(e) => Err(e)
      case Ok(args) =>
        match ParseEnv(row.env)
        case Err(e) => Err(e)
        case Ok(env) => Ok(ServerKey(row.command.value, args, env))
  }

  /** What one row contributes. */
  datatype Parsed = Skipped | Unreadable(error: RowError) | Server(key: ServerKey, defId: string)

  function ParseRow(row: ToolRow): Parsed {
    if row.kind != "mcp" then Skipped
    else
      match RowKey(row)
      case Err(e) => Unreadable(e)
      case Ok(key) => Server(key, row.defId)
  }

  function ParseRows(rows: seq<ToolRow>): (r: seq<Parsed>)
    ensures |r| == |rows|
  {
    seq(|rows|, i requires 0 <= i < |rows| => ParseRow(rows[i]))
  }

  /** The environment's member order in the stored object does not tell servers apart. */
  lemma EnvOrderIsIrrelevant(a: seq<Member>, b: seq<Member>)
    requires AllStringValues(a) && AllStringValues(b) && Distinct(Keys(a))
    ensures ParseEnv(Object(a)) == ParseEnv(Object(b)) <==> multiset(PairsOf(a)) == multiset(PairsOf(b))
  {
    if multiset(PairsOf(a)) == multiset(PairsOf(b)) {
      DistinctKeysTellPairsApart(a);
      SortAlike(PairsOf(a), PairsOf(b));
    }
  }

  lemma DistinctKeysTellPairsApart(ms: seq<Member>)
    requires AllStringValues(ms) && Distinct(Keys(ms))
    ensures AntisymmetricOn(PairsOf(ms), PairLe)
  {
    var pairs := PairsOf(ms);
    forall p, q | p in pairs && q in pairs && PairLe(p, q) && PairLe(q, p) ensures p == q {
      var i :| 0 <= i < |ms| && pairs[i] == p;
      var j :| 0 <= j < |ms| && pairs[j] == q;
      StrLeAntisymmetric(p.0, q.0);
      assert Keys(ms)[i] == p.0 && Keys(ms)[j] == q.0;
    }
  }

  lemma SortAlike(x: seq<(string, string)>, y: seq<(string, string)>)
    requires AntisymmetricOn(x, PairLe) && multiset(x) == multiset(y)
    ensures Sort(x, PairLe) == Sort(y, PairLe)
  {
    PairLeIsTotalPreorder();
    SortSorts(x, PairLe);
    SortSorts(y, PairLe);
    SortMembers(x, PairLe);
    SortedUnique(Sort(x, PairLe), Sort(y, PairLe), PairLe);
  }

  lemma PairLeIsTotalPreorder()
    ensures TotalPreorder(PairLe)
  {
    StrLeIsTotalOrder();
  }

  // --- What a row asks for, read off its columns ----------------------------------------------------------

  ghost predicate IsStringList(v: Json) {
    v.Array? && forall x :: x in v.items ==> x.String?
  }

  ghost predicate IsStringMap(v: Json) {
    || (v.Object? && forall m :: m in v.members ==> m.value.String?)
    || v == Array([]) || v == Null
  }

  /** The arguments are the strings of the stored array, in order. */
  ghost predicate ArgsAre(v: Json, args: seq<string>) {
    v == Array(seq(|args|, i requires 0 <= i < |args| => String(args[i])))
  }

  /** The environment holds each stored member once, in lexicographic order of names. */
  ghost predicate EnvIs(v: Json, env: seq<(string, string)>) {
    && (forall i, j :: 0 <= i < j < |env| ==> LexicographicallyLe(env[i].0, env[j].0))
    && (match v
        case Object(ms) =>
          |env| == |ms| && forall name, text :: (name, text) in env <==> Member(name, String(text)) in ms
        case _ => env == [])
  }

  /** The row runs this server: its command, its arguments, its environment. */
  ghost predicate Runs(row: ToolRow, key: ServerKey) {
    row.command == Some(key.command) && ArgsAre(row.args, key.args) && EnvIs(row.env, key.env)
  }

  /** Why a row cannot be read, the first reason in the order of the columns. */
  ghost predicate CannotRead(row: ToolRow, e: RowError) {
    match e
    case NoCommand => row.command.None?
    case BadArgs => row.command.Some? && !IsStringList(row.args)
    case BadEnv => row.command.Some? && IsStringList(row.args) && !IsStringMap(row.env)
  }

  lemma PairsFacts(ms: seq<Member>)
    requires AllStringValues(ms)
    ensures forall name, text :: (name, text) in PairsOf(ms) <==> Member(name, String(text)) in ms
  {
    forall name, text | (name, text) in PairsOf(ms) ensures Member(name, String(text)) in ms {
      var i :| 0 <= i < |ms| && PairsOf(ms)[i] == (name, text);
      assert ms[i] == Member(name, String(text));
    }
    forall name, text | Member(name, String(text)) in ms ensures (name, text) in PairsOf(ms) {
      var i :| 0 <= i < |ms| && ms[i] == Member(name, String(text));
      assert PairsOf(ms)[i] == (name, text);
    }
  }

  lemma SortedPairs(ms: seq<Member>)
    requires AllStringValues(ms)
    ensures EnvIs(Object(ms), Sort(PairsOf(ms), PairLe))
  {
    var env := Sort(PairsOf(ms), PairLe);
    PairLeIsTotalPreorder();
    SortSorts(PairsOf(ms), PairLe);
    SortMembers(PairsOf(ms), PairLe);
    PairsFacts(ms);
    forall i, j | 0 <= i < j < |env| ensures LexicographicallyLe(env[i].0, env[j].0) {
      assert PairLe(env[i], env[j]);
      StrLeIsLexicographic(env[i].0, env[j].0);
    }
  }

  /** A row is read as the server it asks for, or turned down for the first column that cannot be read. */
  lemma RowIsReadRight(row: ToolRow)
    ensures RowKey(row).Ok? ==> Runs(row, RowKey(row).value)
    ensures RowKey(row).Err? ==> CannotRead(row, RowKey(row).error)
    ensures RowKey(row).Ok? <==> forall e :: !CannotRead(row, e)
  {
    if row.args.Array? {
      assert forall i :: 0 <= i < |row.args.items| ==> row.args.items[i] in row.args.items;
      if AllStrings(row.args.items) {
        var args := StringsOf(row.args.items);
        assert row.args.items == seq(|args|, i requires 0 <= i < |args| => String(args[i]));
      }
    }
    if row.env.Object? {
      assert forall i :: 0 <= i < |row.env.members| ==> row.env.members[i] in row.env.members;
      if AllStringValues(row.env.members) {
        SortedPairs(row.env.members);
      }
    }
    assert RowKey(row).Err? ==> CannotRead(row, RowKey(row).error);
  }

  /** Each spec runs what its rows ask for, and every readable row is in the spec that runs it. */
  lemma SpecsRunTheirRows(rows: seq<ToolRow>)
    requires forall row :: row in rows && row.kind == "mcp" ==> RowKey(row).Ok?
    ensures forall row :: row in rows && row.kind == "mcp" ==>
      exists spec :: spec in Grouped(ParseRows(rows)) && Runs(row, spec.key) && row.defId in spec.defIds
    ensures forall spec, id :: spec in Grouped(ParseRows(rows)) && id in spec.defIds ==>
      exists row :: row in rows && row.kind == "mcp" && row.defId == id && Runs(row, spec.key)
  {
    var parsed := ParseRows(rows);
    GroupingIsAPartition(parsed);
    forall row | row in rows && row.kind == "mcp"
      ensures exists spec :: spec in Grouped(parsed) && Runs(row, spec.key) && row.defId in spec.defIds
    {
      var i :| 0 <= i < |rows| && rows[i] == row;
      RowIsReadRight(row);
      assert parsed[i] == Server(RowKey(row).value, row.defId);
      var k :| 0 <= k < |Grouped(parsed)| && Grouped(parsed)[k].key == RowKey(row).value
            && row.defId in Grouped(parsed)[k].defIds;
      assert Grouped(parsed)[k] in Grouped(parsed);
    }
    forall spec, id | spec in Grouped(parsed) && id in spec.defIds
      ensures exists row :: row in rows && row.kind == "mcp" && row.defId == id && Runs(row, spec.key)
    {
      var k :| 0 <= k < |Grouped(parsed)| && Grouped(parsed)[k] == spec;
      assert Server(spec.key, id) in parsed;
      var i :| 0 <= i < |rows| && parsed[i] == Server(spec.key, id);
      RowIsReadRight(rows[i]);
      assert rows[i] in rows;
    }
  }

  /** The row cannot be read for this reason, and every earlier row can. */
  ghost predicate FirstUnreadable(rows: seq<ToolRow>, i: nat, e: RowError)
    requires i < |rows|
  {
    && rows[i].kind == "mcp" && CannotRead(rows[i], e)
    && forall j :: 0 <= j < i && rows[j].kind == "mcp" ==> RowKey(rows[j]).Ok?
  }

  method McpSpecsFromRows(rows: seq<ToolRow>) returns (r: Result<seq<ServerSpec>, RowError>)
    ensures r.Ok? <==> forall row :: row in rows && row.kind == "mcp" ==> RowKey(row).Ok?
    ensures r.Ok? ==> r.value == Grouped(ParseRows(rows))
    ensures r.Ok? ==> forall spec, id :: spec in r.value && id in spec.defIds ==>
      exists row :: row in rows && row.kind == "mcp" && row.defId == id && Runs(row, spec.key)
    ensures r.Ok? ==> forall row :: row in rows && row.kind == "mcp" ==>
      exists spec :: spec in r.value && Runs(row, spec.key) && row.defId in spec.defIds
    ensures r.Err? ==> exists i :: 0 <= i < |rows| && FirstUnreadable(rows, i, r.error)
  {
    r := GroupParsed(ParseRows(rows));
    if r.Ok? {
      forall row | row in rows && row.kind == "mcp" ensures RowKey(row).Ok? {
        var i :| 0 <= i < |rows| && rows[i] == row;
        assert !ParseRows(rows)[i].Unreadable?;
      }
      SpecsRunTheirRows(rows);
    } else {
      ghost var i :| 0 <= i < |rows| && FirstFault(ParseRows(rows), i, r.error);
      assert rows[i] in rows && ParseRow(rows[i]) == Unreadable(r.error);
      RowIsReadRight(rows[i]);
      assert forall j :: 0 <= j < i ==> ParseRows(rows)[j] == ParseRow(rows[j]) && !ParseRow(rows[j]).Unreadable?;
      assert FirstUnreadable(rows, i, r.error);
    }
  }

  // --- Grouping -------------------------------------------------------------------------------------------

  /** The servers of the parsed rows, in row order. */
  function KeysOf(rows: seq<Parsed>): seq<ServerKey> {
    if rows == [] then []
    else
      var last := rows[|rows| - 1];
      KeysOf(rows[..|rows| - 1]) + (if last.Server? then [last.key] else [])
  }

  /** Each element where it first occurs. */
  function FirstOccurrences<T(==)>(s: seq<T>): seq<T> {
    if s == [] then []
    else
      var front := FirstOccurrences(s[..|s| - 1]);
      if s[|s| - 1] in front then front else front + [s[|s| - 1]]
  }

  /** The def ids of the rows of one server, in row order. */
  function DefIdsOf(rows: seq<Parsed>, key: ServerKey): seq<string> {
    if rows == [] then []
    else
      var last := rows[|rows| - 1];
      DefIdsOf(rows[..|rows| - 1], key) + (if last.Server? && last.key == key then [last.defId] else [])
  }

  function Grouped(rows: seq<Parsed>): seq<ServerSpec> {
    var keys := FirstOccurrences(KeysOf(rows));
    seq(|keys|, i requires 0 <= i < |keys| => ServerSpec(keys[i], DefIdsOf(rows, keys[i])))
  }

  lemma {:induction false} FirstOccurrencesFacts<T(!new)>(s: seq<T>)
    ensures Distinct(FirstOccurrences(s))
    ensures forall x :: x in FirstOccurrences(s) <==> x in s
  {
    if s != [] {
      var n := |s| - 1;
      FirstOccurrencesFacts(s[..n]);
      assert s == s[..n] + [s[n]];
    }
  }

  /** What occurs first is listed first. */
  lemma {:induction false} FirstOccurrencesInOrder<T(!new)>(s: seq<T>, i: nat, j: nat)
    requires i < j < |FirstOccurrences(s)|
    ensures exists k :: 0 <= k < |s| && s[k] == FirstOccurrences(s)[i] && FirstOccurrences(s)[j] !in s[..k + 1]
  {
    var n := |s| - 1;
    var first, front := FirstOccurrences(s), FirstOccurrences(s[..n]);
    FirstOccurrencesFacts(s);
    FirstOccurrencesFacts(s[..n]);
    if j < |front| {
      FirstOccurrencesInOrder(s[..n], i, j);
      var k :| 0 <= k < n && s[..n][k] == first[i] && first[j] !in s[..n][..k + 1];
      assert s[..n][..k + 1] == s[..k + 1];
    } else {
      var x := first[i];
      assert x == front[i] && x in FirstOccurrences(s[..n]);
      assert x in s[..n];
      var k :| 0 <= k < n && s[..n][k] == x;
      assert forall y :: y in s[..k + 1] ==> y in s[..n];
    }
  }

  /** A server's def ids are those of its rows, in row order, repeats included. */
  lemma {:induction false} DefIdsInRowOrder(rows: seq<Parsed>, key: ServerKey)
    ensures var own := Filter(rows, (p: Parsed) => p.Server? && p.key == key);
      && |DefIdsOf(rows, key)| == |own|
      && forall i :: 0 <= i < |own| ==> own[i] == Server(key, DefIdsOf(rows, key)[i])
  {
    if rows != [] {
      var n := |rows| - 1;
      DefIdsInRowOrder(rows[..n], key);
      assert rows == rows[..n] + [rows[n]];
      FilterConcat(rows[..n], [rows[n]], (p: Parsed) => p.Server? && p.key == key);
    }
  }

  /** The servers are those of the server rows, in row order, repeats included. */
  lemma {:induction false} KeysInRowOrder(rows: seq<Parsed>)
    ensures var servers := Filter(rows, (p: Parsed) => p.Server?);
      && |KeysOf(rows)| == |servers|
      && forall i :: 0 <= i < |servers| ==> servers[i].Server? && servers[i].key == KeysOf(rows)[i]
  {
    if rows != [] {
      var n := |rows| - 1;
      KeysInRowOrder(rows[..n]);
      assert rows == rows[..n] + [rows[n]];
      FilterConcat(rows[..n], [rows[n]], (p: Parsed) => p.Server?);
    }
  }

  lemma {:induction false} DefIdsAreTheRows(rows: seq<Parsed>, key: ServerKey)
    ensures forall id :: id in DefIdsOf(rows, key) <==> Server(key, id) in rows
  {
    if rows != [] {
      var n := |rows| - 1;
      DefIdsAreTheRows(rows[..n], key);
      assert rows == rows[..n] + [rows[n]];
    }
  }

  lemma {:induction false} NamedServersHaveIds(rows: seq<Parsed>, key: ServerKey)
    ensures key in KeysOf(rows) <==> DefIdsOf(rows, key) != []
  {
    if rows != [] {
      NamedServersHaveIds(rows[..|rows| - 1], key);
    }
  }

  /** One spec per server, in the order servers first occur, holding exactly the def ids of its rows in row order. */
  lemma GroupingIsAPartition(rows: seq<Parsed>)
    ensures forall i, j :: 0 <= i < j < |Grouped(rows)| ==> Grouped(rows)[i].key != Grouped(rows)[j].key
    ensures forall key, id :: Server(key, id) in rows ==>
      exists i :: 0 <= i < |Grouped(rows)| && Grouped(rows)[i].key == key && id in Grouped(rows)[i].defIds
    ensures forall i :: 0 <= i < |Grouped(rows)| ==>
      && Grouped(rows)[i].defIds != []
      && forall id :: id in Grouped(rows)[i].defIds <==> Server(Grouped(rows)[i].key, id) in rows
  {
    var keys := FirstOccurrences(KeysOf(rows));
    FirstOccurrencesFacts(KeysOf(rows));
    forall key, id | Server(key, id) in rows
      ensures exists i :: 0 <= i < |Grouped(rows)| && Grouped(rows)[i].key == key && id in Grouped(rows)[i].defIds
    {
      DefIdsAreTheRows(rows, key);
      NamedServersHaveIds(rows, key);
      var i :| 0 <= i < |keys| && keys[i] == key;
      assert Grouped(rows)[i].key == key;
    }
    forall i | 0 <= i < |keys|
      ensures DefIdsOf(rows, keys[i]) != []
      ensures forall id :: id in DefIdsOf(rows, keys[i]) <==> Server(keys[i], id) in rows
    {
      NamedServersHaveIds(rows, keys[i]);
      DefIdsAreTheRows(rows, keys[i]);
      assert keys[i] in keys;
    }
  }

  // --- The loop -------------------------------------------------------------------------------------------

  /** Where each known server stands in the list. */
  ghost predicate Locates(index: map<ServerKey, nat>, specs: seq<ServerSpec>) {
    && (forall i :: 0 <= i < |specs| ==> specs[i].key in index && index[specs[i].key] == i)
    && (forall key :: key in index ==> index[key] < |specs| && specs[index[key]].key == key)
  }

  /** `rows[i]` is the first row that does not parse, for this reason. */
  ghost predicate FirstFault(rows: seq<Parsed>, i: nat, e: RowError)
    requires i < |rows|
  {
    rows[i] == Unreadable(e) && forall j :: 0 <= j < i ==> !rows[j].Unreadable?
  }

  method GroupParsed(rows: seq<Parsed>) returns (r: Result<seq<ServerSpec>, RowError>)
    ensures r.Ok? <==> forall i :: 0 <= i < |rows| ==> !rows[i].Unreadable?
    ensures r.Ok? ==> r.value == Grouped(rows)
    ensures r.Err? ==> exists i :: 0 <= i < |rows| && FirstFault(rows, i, r.error)
  {
    var index: map<ServerKey, nat> := map[];
    var specs: seq<ServerSpec> := [];
    for i := 0 to |rows|
      invariant specs == Grouped(rows[..i]) && Locates(index, specs)
      invariant forall j :: 0 <= j < i ==> !rows[j].Unreadable?
    {
      assert rows[..i + 1] == rows[..i] + [rows[i]];
      match rows[i]
      case Skipped =>
        RowIsSkipped(rows[..i]);
      case Unreadable(e) =>
        assert FirstFault(rows, i, e);
        return Err(e);
      case Server(key, defId) =>
        if key in index {
          var at := index[key];
          RowJoins(specs, rows[..i], key, defId, at);
          StillLocates(index, specs, key, specs[at].defIds + [defId]);
          specs := specs[at := ServerSpec(key, specs[at].defIds + [defId])];
        } else {
          RowOpens(specs, rows[..i], key, defId);
          StillLocates(index, specs, key, [defId]);
          index := index[key := |specs|];
          specs := specs + [ServerSpec(key, [defId])];
        }
    }
    assert rows[..|rows|] == rows;
    r := Ok(specs);
  }

  /** A row that is not a server leaves the grouping alone. */
  lemma RowIsSkipped(rows: seq<Parsed>)
    ensures Grouped(rows + [Skipped]) == Grouped(rows)
  {
    var l := rows + [Skipped];
    assert l[..|l| - 1] == rows;
    assert KeysOf(l) == KeysOf(rows);
    forall k ensures DefIdsOf(l, k) == DefIdsOf(rows, k) {
    }
  }

  lemma RowEffects(rows: seq<Parsed>, key: ServerKey, defId: string)
    ensures KeysOf(rows + [Server(key, defId)]) == KeysOf(rows) + [key]
    ensures forall k ::
      DefIdsOf(rows + [Server(key, defId)], k) == DefIdsOf(rows, k) + (if k == key then [defId] else [])
  {
    var l := rows + [Server(key, defId)];
    assert l[..|l| - 1] == rows;
  }

  lemma FirstOccurrencesSnoc<T>(s: seq<T>, x: T)
    ensures FirstOccurrences(s + [x]) == if x in FirstOccurrences(s) then FirstOccurrences(s)
      else FirstOccurrences(s) + [x]
  {
    assert (s + [x])[..|s|] == s;
  }

  /** A row of a known server joins that server's spec. */
  lemma RowJoins(specs: seq<ServerSpec>, rows: seq<Parsed>, key: ServerKey, defId: string, at: nat)
    requires specs == Grouped(rows) && at < |specs| && specs[at].key == key
    ensures Grouped(rows + [Server(key, defId)]) == specs[at := ServerSpec(key, specs[at].defIds + [defId])]
  {
    var keys, g := FirstOccurrences(KeysOf(rows)), Grouped(rows + [Server(key, defId)]);
    RowEffects(rows, key, defId);
    FirstOccurrencesFacts(KeysOf(rows));
    FirstOccurrencesSnoc(KeysOf(rows), key);
    assert keys[at] == key && key in keys;
    forall i | 0 <= i < |keys| && i != at ensures g[i] == specs[i] {
      assert keys[i] != key;
      assert DefIdsOf(rows, keys[i]) + [] == DefIdsOf(rows, keys[i]);
    }
  }

  /** A row of a server not seen before opens a spec at the end. */
  lemma RowOpens(specs: seq<ServerSpec>, rows: seq<Parsed>, key: ServerKey, defId: string)
    requires specs == Grouped(rows) && forall i :: 0 <= i < |specs| ==> specs[i].key != key
    ensures Grouped(rows + [Server(key, defId)]) == specs + [ServerSpec(key, [defId])]
  {
    var keys, g := FirstOccurrences(KeysOf(rows)), Grouped(rows + [Server(key, defId)]);
    assert forall i :: 0 <= i < |keys| ==> specs[i].key == keys[i];
    RowEffects(rows, key, defId);
    FirstOccurrencesFacts(KeysOf(rows));
    FirstOccurrencesSnoc(KeysOf(rows), key);
    NamedServersHaveIds(rows, key);
    assert [] + [defId] == [defId];
    forall i | 0 <= i < |keys| ensures g[i] == specs[i] {
      assert DefIdsOf(rows, keys[i]) + [] == DefIdsOf(rows, keys[i]);
    }
  }

  lemma StillLocates(index: map<ServerKey, nat>, specs: seq<ServerSpec>, key: ServerKey, ids: seq<string>)
    requires Locates(index, specs)
    ensures key in index ==> Locates(index, specs[index[key] := ServerSpec(key, ids)])
    ensures key !in index ==> Locates(index[key := |specs|], specs + [ServerSpec(key, ids)])
  {
  }
}
