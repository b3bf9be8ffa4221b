/** The per-graph tool registry: which server answers to a name, and which grants allow calling it. */
module ToolDispatch {
  import opened Wrappers
  import opened Sorting
  import opened ToolRows

  /** Who serves a registered name. */
  datatype Provider = FromServer(key: ServerKey) | BuiltinEcho

  const ECHO := "echo"

  /** The names a server advertises, or `None` if it cannot be reached. */
  type Advertised = ServerKey -> Option<seq<string>>

  class ToolRegistry {
    var tools: map<string, Provider>
    var owners: map<string, set<string>>

    constructor ()
      ensures tools == map[] && owners == map[]
    {
      tools, owners := map[], map[];
    }

    function OwnersOf(name: string): set<string>
      reads this
    {
      if name in owners then owners[name] else {}
    }

    method RecordOwner(name: string, defId: string)
      modifies `owners
      ensures OwnersOf(name) == old(OwnersOf(name)) + {defId}
      ensures forall other :: other != name ==> OwnersOf(other) == old(OwnersOf(other))
    {
      owners := owners[name := (if name in owners then owners[name] else {}) + {defId}];
    }

    method RecordOwners(name: string, defIds: seq<string>)
      modifies `owners
      ensures OwnersOf(name) == old(OwnersOf(name)) + IdSet(defIds)
      ensures forall other :: other != name ==> OwnersOf(other) == old(OwnersOf(other))
    {
      for i := 0 to |defIds|
        invariant OwnersOf(name) == old(OwnersOf(name)) + IdSet(defIds[..i])
        invariant forall other :: other != name ==> OwnersOf(other) == old(OwnersOf(other))
      {
        assert defIds[..i + 1] == defIds[..i] + [defIds[i]];
        RecordOwner(name, defIds[i]);
      }
      assert defIds[..|defIds|] == defIds;
    }

    /** Some owner of the name is among the granted defs. */
    method IsCallAllowed(name: string, allowed: seq<string>) returns (ok: bool)
      ensures ok <==> exists d :: d in allowed && d in OwnersOf(name)
    {
      if name !in owners {
        return false;
      }
      for i := 0 to |allowed|
        invariant forall k :: 0 <= k < i ==> allowed[k] !in owners[name]
      {
        if allowed[i] in owners[name] {
          assert allowed[i] in allowed && allowed[i] in OwnersOf(name);
          return true;
        }
      }
      ok := false;
    }

    method Register(name: string, provider: Provider) returns (ok: bool)
      modifies `tools
      ensures ok <==> name !in old(tools)
      ensures tools == if ok then old(tools)[name := provider] else old(tools)
    {
      if name in tools {
        return false;
      }
      tools := tools[name := provider];
      ok := true;
    }

    /** First registration wins: a name already taken, even by this very server, is skipped. */
    method RegisterSkippingExisting(key: ServerKey, names: seq<string>) returns (registered: seq<string>)
      modifies `tools
      ensures forall name :: name in tools <==> name in old(tools) || name in names
      ensures forall name :: name in tools ==>
        tools[name] == if name in old(tools) then old(tools)[name] else FromServer(key)
      ensures forall name :: name in registered <==> name in names && name !in old(tools)
    {
      registered := [];
      for i := 0 to |names|
        invariant forall name :: name in tools <==> name in old(tools) || name in names[..i]
        invariant forall name :: name in tools ==>
          tools[name] == if name in old(tools) then old(tools)[name] else FromServer(key)
        invariant forall name :: name in registered <==> name in names[..i] && name !in old(tools)
      {
        assert names[..i + 1] == names[..i] + [names[i]];
        if names[i] !in tools {
          var added := Register(names[i], FromServer(key));
          registered := registered + [names[i]];
        }
      }
      assert names[..|names|] == names;
    }
  }

  function IdSet(ids: seq<string>): set<string> {
    set id | id in ids
  }

  // --- What the registry should say -----------------------------------------------------------------------

  predicate Advertises(adv: Advertised, key: ServerKey, name: string) {
    adv(key).Some? && name in adv(key).value
  }

  /** The first server, in this order, that advertises the name. */
  function FirstServer(keys: seq<ServerKey>, adv: Advertised, name: string): Option<ServerKey> {
    if keys == [] then None
    else if Advertises(adv, keys[0], name) then Some(keys[0])
    else FirstServer(keys[1..], adv, name)
  }

  predicate IsEchoRow(row: ToolRow) {
    row.kind == "builtin" && row.command == Some(ECHO)
  }

  /** The row's def owns the name: its server registered it first, or nobody else provides echo. */
  ghost predicate RowServes(rows: seq<ToolRow>, adv: Advertised, row: ToolRow, name: string) {
    var first := FirstServer(KeysOf(ParseRows(rows)), adv, name);
    if first.Some? then ParseRow(row) == Server(first.value, row.defId)
    else name == "echo" && row.kind == "builtin" && row.command == Some("echo")
  }

  lemma {:induction false} FirstServerAppend(a: seq<ServerKey>, b: seq<ServerKey>, adv: Advertised, name: string)
    ensures FirstServer(a + b, adv, name)
         == if FirstServer(a, adv, name).Some? then FirstServer(a, adv, name) else FirstServer(b, adv, name)
    decreases |a|
  {
    if a == [] {
      assert a + b == b;
    } else {
      assert (a + b)[1..] == a[1..] + b;
      FirstServerAppend(a[1..], b, adv, name);
    }
  }

  lemma {:induction false} FirstServerNone(keys: seq<ServerKey>, adv: Advertised, name: string)
    ensures FirstServer(keys, adv, name).None? <==> forall k :: k in keys ==> !Advertises(adv, k, name)
    ensures FirstServer(keys, adv, name).Some? ==> FirstServer(keys, adv, name).value in keys
  {
    if keys != [] {
      FirstServerNone(keys[1..], adv, name);
      assert keys == [keys[0]] + keys[1..];
    }
  }

  /** The first server advertises the name, and none before it does. */
  lemma {:induction false} FirstServerIsFirst(keys: seq<ServerKey>, adv: Advertised, name: string)
    ensures FirstServer(keys, adv, name).Some? ==>
      exists i :: 0 <= i < |keys| && IsFirstAt(keys, adv, name, i) && FirstServer(keys, adv, name) == Some(keys[i])
  {
    if keys != [] {
      if Advertises(adv, keys[0], name) {
        assert IsFirstAt(keys, adv, name, 0);
      } else {
        FirstServerIsFirst(keys[1..], adv, name);
        if i: nat :| i < |keys| - 1 && IsFirstAt(keys[1..], adv, name, i)
                     && FirstServer(keys[1..], adv, name) == Some(keys[1..][i]) {
          assert IsFirstAt(keys, adv, name, i + 1);
        }
      }
    }
  }

  ghost predicate IsFirstAt(keys: seq<ServerKey>, adv: Advertised, name: string, i: nat)
    requires i < |keys|
  {
    && adv(keys[i]).Some? && name in adv(keys[i]).value
    && forall j :: 0 <= j < i ==> adv(keys[j]).None? || name !in adv(keys[j]).value
  }

  /** Merging repeated servers does not change which comes first. */
  lemma {:induction false} DedupKeepsFirst(keys: seq<ServerKey>, adv: Advertised, name: string)
    ensures FirstServer(FirstOccurrences(keys), adv, name) == FirstServer(keys, adv, name)
  {
    if keys != [] {
      var front, last := keys[..|keys| - 1], keys[|keys| - 1];
      DedupKeepsFirst(front, adv, name);
      FirstServerAppend(front, [last], adv, name);
      FirstServerAppend(FirstOccurrences(front), [last], adv, name);
      FirstServerNone(FirstOccurrences(front), adv, name);
      assert keys == front + [last];
      assert [last][1..] == [];
    }
  }

  function EchoDefIds(rows: seq<ToolRow>): (r: seq<string>)
    ensures forall id :: id in r <==> exists row :: row in rows && IsEchoRow(row) && row.defId == id
  {
    if rows == [] then []
    else
      assert rows == [rows[0]] + rows[1..];
      (if IsEchoRow(rows[0]) then [rows[0].defId] else []) + EchoDefIds(rows[1..])
  }

  /** Who owns a name once the servers in `keys` are registered, in this order. */
  function OwnersAfter(rows: seq<Parsed>, keys: seq<ServerKey>, adv: Advertised, name: string): set<string> {
    var first := FirstServer(keys, adv, name);
    if first.Some? then IdSet(DefIdsOf(rows, first.value)) else {}
  }

  ghost predicate RegistryFits(reg: ToolRegistry, rows: seq<Parsed>, keys: seq<ServerKey>, adv: Advertised)
    reads reg
  {
    forall name ::
      && (name in reg.tools <==> FirstServer(keys, adv, name).Some?)
      && (name in reg.tools ==> reg.tools[name] == FromServer(FirstServer(keys, adv, name).value))
      && reg.OwnersOf(name) == OwnersAfter(rows, keys, adv, name)
  }

  datatype BuildError = BadRow(error: RowError) | Unreachable(key: ServerKey)

  method AddServer(reg: ToolRegistry, ghost rows: seq<Parsed>, ghost keys: seq<ServerKey>, ghost adv: Advertised,
                   spec: ServerSpec, names: seq<string>)
    requires RegistryFits(reg, rows, keys, adv)
    requires adv(spec.key) == Some(names) && spec.defIds == DefIdsOf(rows, spec.key)
    modifies reg
    ensures RegistryFits(reg, rows, keys + [spec.key], adv)
  {
    var registered := reg.RegisterSkippingExisting(spec.key, names);
    label Registered:
    for i := 0 to |registered|
      invariant reg.tools == old@Registered(reg.tools)
      invariant forall name ::
        reg.OwnersOf(name) == old(reg.OwnersOf(name)) + if name in registered[..i] then IdSet(spec.defIds) else {}
    {
      assert registered[..i + 1] == registered[..i] + [registered[i]];
      reg.RecordOwners(registered[i], spec.defIds);
    }
    assert registered[..|registered|] == registered;
    forall name ensures FirstServer(keys + [spec.key], adv, name)
      == if FirstServer(keys, adv, name).Some? then FirstServer(keys, adv, name)
         else if name in names then Some(spec.key) else None
    {
      FirstServerAppend(keys, [spec.key], adv, name);
      assert [spec.key][1..] == [];
    }
  }

  /** Each name has the owners and the provider that the rows and the advertisements give it. */
  ghost predicate RegistryIs(reg: ToolRegistry, rows: seq<ToolRow>, adv: Advertised)
    reads reg
  {
    && (forall name :: reg.OwnersOf(name) == OwnersIn(rows, adv, name))
    && (forall name :: ProviderIn(rows, adv, name) == if name in reg.tools then Some(reg.tools[name]) else None)
  }

  function ProviderIn(rows: seq<ToolRow>, adv: Advertised, name: string): Option<Provider> {
    var first := FirstServer(KeysOf(ParseRows(rows)), adv, name);
    if first.Some? then Some(FromServer(first.value)) else if name == ECHO then Some(BuiltinEcho) else None
  }

  ghost predicate AllReachable(keys: seq<ServerKey>, adv: Advertised) {
    forall k :: k in keys ==> adv(k).Some?
  }

  /** No server before this one is out of reach. */
  ghost predicate IsFirstUnreachable(keys: seq<ServerKey>, adv: Advertised, key: ServerKey) {
    adv(key).None? && exists i :: 0 <= i < |keys| && keys[i] == key && forall j :: 0 <= j < i ==> adv(keys[j]).Some?
  }

  /** Registers the servers in spec order, then echo if its name is still free. */
  method BuildRegistry(rows: seq<ToolRow>, adv: Advertised) returns (r: Result<ToolRegistry, BuildError>)
    ensures r.Ok? <==> AllParse(rows) && AllReachable(KeysOf(ParseRows(rows)), adv)
    ensures r.Ok? ==> fresh(r.value) && RegistryIs(r.value, rows, adv)
    ensures !AllParse(rows) ==>
      r.Err? && r.error.BadRow? && exists i :: 0 <= i < |rows| && FirstUnreadable(rows, i, r.error.error)
    ensures r.Err? && AllParse(rows) ==>
      r.error.Unreachable? && IsFirstUnreachable(FirstOccurrences(KeysOf(ParseRows(rows))), adv, r.error.key)
  {
    var specs := McpSpecsFromRows(rows);
    if specs.Err? {
      return Err(BadRow(specs.error));
    }
    r := RegisterAll(rows, adv, specs.value);
  }

  method RegisterAll(rows: seq<ToolRow>, adv: Advertised, specs: seq<ServerSpec>)
    returns (r: Result<ToolRegistry, BuildError>)
    requires specs == Grouped(ParseRows(rows))
    ensures r.Ok? <==> AllReachable(KeysOf(ParseRows(rows)), adv)
    ensures r.Ok? ==> fresh(r.value) && RegistryIs(r.value, rows, adv)
    ensures r.Err? ==>
      r.error.Unreachable? && IsFirstUnreachable(FirstOccurrences(KeysOf(ParseRows(rows))), adv, r.error.key)
  {
    ghost var keys := KeysOf(ParseRows(rows));
    var reg := new ToolRegistry();
    var missing := AddServers(reg, ParseRows(rows), FirstOccurrences(keys), adv, specs);
    FirstOccurrencesFacts(keys);
    if missing.Some? {
      return Err(Unreachable(missing.value));
    }
    FitsWithRepeats(reg, ParseRows(rows), keys, adv);
    Finish(reg, rows, adv);
    r := Ok(reg);
  }

  /** The servers are in; echo takes its name if none of them did. */
  method Finish(reg: ToolRegistry, rows: seq<ToolRow>, ghost adv: Advertised)
    requires RegistryFits(reg, ParseRows(rows), KeysOf(ParseRows(rows)), adv)
    modifies reg
    ensures RegistryIs(reg, rows, adv)
  {
    AddEcho(reg, rows);
  }

  /** The specs are those of the servers in `keys`, with the def ids of their rows. */
  ghost predicate SpecsOf(specs: seq<ServerSpec>, rows: seq<Parsed>, keys: seq<ServerKey>) {
    |specs| == |keys| && forall i :: 0 <= i < |specs| ==> specs[i] == ServerSpec(keys[i], DefIdsOf(rows, keys[i]))
  }

  /** Registers every server in order; the answer is the first that cannot be reached. */
  method AddServers(
    reg: ToolRegistry, ghost rows: seq<Parsed>, ghost keys: seq<ServerKey>, adv: Advertised, specs: seq<ServerSpec>)
    returns (missing: Option<ServerKey>)
    requires reg.tools == map[] && reg.owners == map[] && SpecsOf(specs, rows, keys)
    modifies reg
    ensures missing.Some? ==> missing.value in keys && IsFirstUnreachable(keys, adv, missing.value)
    ensures missing.None? ==> AllReachable(keys, adv)
    ensures missing.None? ==> RegistryFits(reg, rows, keys, adv)
  {
    for i := 0 to |specs|
      invariant RegistryFits(reg, rows, keys[..i], adv)
      invariant forall k :: 0 <= k < i ==> adv(keys[k]).Some?
    {
      var names := adv(specs[i].key);
      if names.None? {
        assert keys[i] in keys && keys[i] == specs[i].key;
        return Some(specs[i].key);
      }
      AddServer(reg, rows, keys[..i], adv, specs[i], names.value);
      CutAt(keys, i);
    }
    assert keys[..|keys|] == keys;
    missing := None;
  }

  lemma FitsWithRepeats(reg: ToolRegistry, rows: seq<Parsed>, keys: seq<ServerKey>, adv: Advertised)
    requires RegistryFits(reg, rows, FirstOccurrences(keys), adv)
    ensures RegistryFits(reg, rows, keys, adv)
  {
    forall name ensures FirstServer(FirstOccurrences(keys), adv, name) == FirstServer(keys, adv, name) {
      DedupKeepsFirst(keys, adv, name);
    }
  }

  /** The builtin is added only while its name is free. */
  method AddEcho(reg: ToolRegistry, rows: seq<ToolRow>)
    modifies reg
    ensures reg.tools == if ECHO in old(reg.tools) then old(reg.tools) else old(reg.tools)[ECHO := BuiltinEcho]
    ensures forall name ::
      reg.OwnersOf(name) == old(reg.OwnersOf(name))
        + if name == ECHO && ECHO !in old(reg.tools) then IdSet(EchoDefIds(rows)) else {}
  {
    if ECHO !in reg.tools {
      var added := reg.Register(ECHO, BuiltinEcho);
      reg.RecordOwners(ECHO, EchoDefIds(rows));
    }
  }

  ghost predicate AllParse(rows: seq<ToolRow>) {
    forall row :: row in rows && row.kind == "mcp" ==> RowKey(row).Ok?
  }

  function OwnersIn(rows: seq<ToolRow>, adv: Advertised, name: string): set<string> {
    var first := FirstServer(KeysOf(ParseRows(rows)), adv, name);
    if first.Some? then IdSet(DefIdsOf(ParseRows(rows), first.value))
    else if name == ECHO then IdSet(EchoDefIds(rows))
    else {}
  }

  /**
   A call is allowed exactly when some granted def is that of a row whose server was the first to register the name,
   or, where no server advertises it, of a row declaring the builtin echo.
   */
  lemma AllowedIffARowServes(rows: seq<ToolRow>, adv: Advertised, name: string, allowed: seq<string>)
    ensures (exists d :: d in allowed && d in OwnersIn(rows, adv, name))
       <==> (exists row :: row in rows && row.defId in allowed && RowServes(rows, adv, row, name))
  {
    var parsed := ParseRows(rows);
    var first := FirstServer(KeysOf(parsed), adv, name);
    if first.Some? {
      DefIdsAreTheRows(parsed, first.value);
    }
    forall d | d in OwnersIn(rows, adv, name)
      ensures exists row :: row in rows && row.defId == d && RowServes(rows, adv, row, name)
    {
      if first.Some? {
        var i :| 0 <= i < |parsed| && parsed[i] == Server(first.value, d);
        assert rows[i] in rows && RowServes(rows, adv, rows[i], name);
      } else {
        var row :| row in rows && IsEchoRow(row) && row.defId == d;
        assert RowServes(rows, adv, row, name);
      }
    }
    forall row | row in rows && RowServes(rows, adv, row, name) ensures row.defId in OwnersIn(rows, adv, name) {
      if first.Some? {
        var i :| 0 <= i < |rows| && rows[i] == row;
        assert parsed[i] == Server(first.value, row.defId);
      }
    }
  }
}
