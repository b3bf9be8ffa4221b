/** Evidence ids: the envelope of a tool call written into a byte buffer and hashed. */
module Evidence {
  import opened Wrappers
  import opened Sorting
  import opened CanonicalJson
  import opened JsonParser

  class Buffer {
    var bytes: string

    constructor ()
      ensures bytes == ""
    {
      bytes := "";
    }

    method Extend(s: string)
      modifies this
      ensures bytes == old(bytes) + s
    {
      bytes := bytes + s;
    }
  }

  method WriteJsonString(buf: Buffer, s: string)
    modifies buf
    ensures buf.bytes == old(buf.bytes) + Quote(s)
  {
    buf.Extend(Quote(s));
  }

  lemma Regroup4(a: string, b: string, c: string, d: string)
    ensures ((a + b) + c) + d == a + (b + c + d)
  {
    ConcatAssoc(a, b, c);
    ConcatAssoc(a, b + c, d);
  }

  lemma {:induction false} PrintItemsSnoc(xs: seq<Json>, x: Json)
    ensures PrintItems(xs + [x]) == (if xs == [] then "" else PrintItems(xs) + ",") + Print(x)
  {
    if xs == [] {
      assert xs + [x] == [x];
    } else {
      assert (xs + [x])[1..] == xs[1..] + [x];
      PrintItemsSnoc(xs[1..], x);
    }
  }

  lemma {:induction false} PrintMembersSnoc(ms: seq<Member>, m: Member)
    ensures PrintMembers(ms + [m]) == (if ms == [] then "" else PrintMembers(ms) + ",") + PrintMember(m)
  {
    if ms == [] {
      assert ms + [m] == [m];
    } else {
      assert (ms + [m])[1..] == ms[1..] + [m];
      PrintMembersSnoc(ms[1..], m);
    }
  }

  function Lookup(ms: seq<Member>, key: string): (r: Json)
    requires key in Keys(ms)
    ensures exists j :: 0 <= j < |ms| && ms[j].key == key && ms[j].value == r
  {
    if ms[0].key == key then ms[0].value
    else
      assert Keys(ms)[1..] == Keys(ms[1..]);
      assert Keys(ms) == [ms[0].key] + Keys(ms[1..]);
      var r := Lookup(ms[1..], key);
      assert forall j :: 0 <= j < |ms| - 1 ==> ms[1..][j] == ms[j + 1];
      r
  }

  lemma LookupNormal(ms: seq<Member>, m: Member)
    requires Distinct(Keys(ms)) && m in NormalMembers(ms)
    ensures m.key in Keys(ms) && Normal(Lookup(ms, m.key)) == m.value
  {
    var j :| 0 <= j < |ms| && NormalMembers(ms)[j] == m;
    assert Keys(ms)[j] == m.key;
    var k :| 0 <= k < |ms| && ms[k].key == m.key && ms[k].value == Lookup(ms, m.key);
    assert Keys(ms)[k] == Keys(ms)[j];
  }

  lemma KeysSorted(ms: seq<Member>)
    requires SortedBy(ms, KeyLe)
    ensures SortedBy(Keys(ms), StrLe)
  {
    forall i, j | 0 <= i < j < |ms| ensures StrLe(Keys(ms)[i], Keys(ms)[j]) {
      assert KeyLe(ms[i], ms[j]);
    }
  }

  lemma PermutedKeysPermute(a: seq<Member>, b: seq<Member>)
    requires multiset(a) == multiset(b) && Distinct(Keys(a))
    ensures multiset(Keys(a)) == multiset(Keys(b))
  {
    assert |a| == |multiset(a)| == |multiset(b)| == |b|;
    forall k | k in Keys(a) ensures k in Keys(b) {
      var i :| 0 <= i < |a| && a[i].key == k;
      assert a[i] in multiset(b);
      var j :| 0 <= j < |b| && b[j] == a[i];
      assert Keys(b)[j] == k;
    }
    DistinctSubsetIsAll(Keys(a), Keys(b));
  }

  /** Sorting the keys gives the keys of the normal form in order. */
  lemma SortedKeysAreNormal(ms: seq<Member>)
    requires Distinct(Keys(ms))
    ensures Sort(Keys(ms), StrLe) == Keys(Sort(NormalMembers(ms), KeyLe))
  {
    var a := NormalMembers(ms);
    assert Keys(a) == Keys(ms);
    KeyLeIsTotalPreorder();
    SortSorts(a, KeyLe);
    KeysSorted(Sort(a, KeyLe));
    PermutedKeysPermute(a, Sort(a, KeyLe));
    StrLeIsTotalOrder();
    SortSorts(Keys(ms), StrLe);
    SortedUnique(Sort(Keys(ms), StrLe), Keys(Sort(a, KeyLe)), StrLe);
  }

  /** The recursive printer: arrays in order, objects by sorted key. */
  method WriteCanonical(buf: Buffer, v: Json)
    requires WellFormed(v)
    modifies buf
    ensures buf.bytes == old(buf.bytes) + Print(Normal(v))
    decreases v, 0
  {
    match v
    case Null => buf.Extend("null");
    case Bool(b) => buf.Extend(if b then "true" else "false");
    case Number(token) => buf.Extend(token);
    case String(s) => WriteJsonString(buf, s);
    case Array(items) =>
      buf.Extend("[");
      WriteItems(buf, items);
      buf.Extend("]");
      assert Normal(v).items == NormalItems(items);
      Regroup4(old(buf.bytes), "[", PrintItems(NormalItems(items)), "]");
    case Object(ms) =>
      buf.Extend("{");
      WriteMembers(buf, ms);
      buf.Extend("}");
      NormalObject(ms);
      Regroup4(old(buf.bytes), "{", PrintMembers(Sort(NormalMembers(ms), KeyLe)), "}");
  }

  /** What goes before the `i`-th of a list. */
  function Separator(i: nat): string {
    if i > 0 then "," else ""
  }

  function NormalItems(items: seq<Json>): seq<Json> {
    seq(|items|, i requires 0 <= i < |items| => Normal(items[i]))
  }

  method WriteItems(buf: Buffer, items: seq<Json>)
    requires forall x :: x in items ==> WellFormed(x)
    modifies buf
    ensures buf.bytes == old(buf.bytes) + PrintItems(NormalItems(items))
    decreases items, 1
  {
    ghost var start, done := buf.bytes, NormalItems(items);
    for i := 0 to |items|
      invariant buf.bytes == start + PrintItems(done[..i])
    {
      ItemsSoFar(start, done, i);
      assert buf.bytes + "" == buf.bytes;
      if i > 0 {
        buf.Extend(",");
      }
      WriteCanonical(buf, items[i]);
    }
    assert done[..|items|] == done;
  }

  lemma ItemsSoFar(start: string, done: seq<Json>, i: nat)
    requires i < |done|
    ensures start + PrintItems(done[..i + 1]) == start + PrintItems(done[..i]) + Separator(i) + Print(done[i])
  {
    CutAt(done, i);
    PrintItemsSnoc(done[..i], done[i]);
    Regroup4(start, PrintItems(done[..i]), Separator(i), Print(done[i]));
    assert i == 0 ==> "" + "" + Print(done[i]) == Print(done[i]);
  }

  method WriteMember(buf: Buffer, key: string, v: Json)
    requires WellFormed(v)
    modifies buf
    ensures buf.bytes == old(buf.bytes) + PrintMember(Member(key, Normal(v)))
    decreases v, 1
  {
    WriteJsonString(buf, key);
    buf.Extend(":");
    WriteCanonical(buf, v);
    Regroup4(old(buf.bytes), Quote(key), ":", Print(Normal(v)));
  }

  /** The i-th sorted key leads to the i-th member of the normal form. */
  lemma SortedKeyLeadsToMember(ms: seq<Member>, i: nat)
    requires Distinct(Keys(ms)) && i < |ms|
    ensures var key := Sort(Keys(ms), StrLe)[i];
      key in Keys(ms) && Member(key, Normal(Lookup(ms, key))) == Sort(NormalMembers(ms), KeyLe)[i]
  {
    var done := Sort(NormalMembers(ms), KeyLe);
    SortedKeysAreNormal(ms);
    SortMembers(NormalMembers(ms), KeyLe);
    assert Keys(done)[i] == done[i].key;
    assert done[i] in done;
    LookupNormal(ms, done[i]);
  }

  lemma MembersSoFar(start: string, done: seq<Member>, i: nat)
    requires i < |done|
    ensures start + PrintMembers(done[..i + 1]) == start + PrintMembers(done[..i]) + Separator(i) + PrintMember(done[i])
  {
    CutAt(done, i);
    PrintMembersSnoc(done[..i], done[i]);
    Regroup4(start, PrintMembers(done[..i]), Separator(i), PrintMember(done[i]));
    assert i == 0 ==> "" + "" + PrintMember(done[i]) == PrintMember(done[i]);
  }

  method WriteMembers(buf: Buffer, ms: seq<Member>)
    requires Distinct(Keys(ms)) && forall m :: m in ms ==> WellFormed(m.value)
    modifies buf
    ensures buf.bytes == old(buf.bytes) + PrintMembers(Sort(NormalMembers(ms), KeyLe))
    decreases ms, 2
  {
    var keys := Sort(Keys(ms), StrLe);
    ghost var done := Sort(NormalMembers(ms), KeyLe);
    forall i | 0 <= i < |keys| ensures LeadsTo(ms, keys[i], done[i]) {
      SortedKeyLeadsToMember(ms, i);
    }
    WriteInOrder(buf, ms, keys, done);
  }

  ghost predicate LeadsTo(ms: seq<Member>, key: string, printed: Member) {
    key in Keys(ms) && printed == Member(key, Normal(Lookup(ms, key)))
  }

  /** Each key's member in turn, after a comma unless it is the first. */
  method WriteInOrder(buf: Buffer, ms: seq<Member>, keys: seq<string>, ghost done: seq<Member>)
    requires |keys| == |done| && (forall i :: 0 <= i < |keys| ==> LeadsTo(ms, keys[i], done[i]))
    requires forall m :: m in ms ==> WellFormed(m.value)
    modifies buf
    ensures buf.bytes == old(buf.bytes) + PrintMembers(done)
    decreases ms, 1
  {
    ghost var start := buf.bytes;
    for i := 0 to |keys|
      invariant buf.bytes == start + PrintMembers(done[..i])
    {
      assert LeadsTo(ms, keys[i], done[i]);
      MembersSoFar(start, done, i);
      assert buf.bytes + "" == buf.bytes;
      if i > 0 {
        buf.Extend(",");
      }
      WriteMember(buf, keys[i], Lookup(ms, keys[i]));
    }
    assert done[..|keys|] == done;
  }

  /** The hashed text of a tool call: three fixed keys in lexical order. */
  function Envelope(tool: string, args: Json, result: Json): string {
    "{" + PrintMember(Member("args", Normal(args)))
    + "," + PrintMember(Member("result", Normal(result)))
    + "," + PrintMember(Member("tool", Normal(String(tool)))) + "}"
  }

  method EvidenceId(tool: string, args: Json, result: Json, hash: string -> string) returns (id: string)
    requires WellFormed(args) && WellFormed(result)
    ensures id == hash(Envelope(tool, args, result))
  {
    var buf := new Buffer();
    buf.Extend("{");
    assert buf.bytes == "{";
    WriteMember(buf, "args", args);
    buf.Extend(",");
    WriteMember(buf, "result", result);
    buf.Extend(",");
    WriteMember(buf, "tool", String(tool));
    buf.Extend("}");
    id := hash(buf.bytes);
  }

  function EnvelopeObject(tool: string, args: Json, result: Json): Json {
    Object([Member("args", Normal(args)), Member("result", Normal(result)), Member("tool", Normal(String(tool)))])
  }

  /** The three keys come in order, as the keys of every object below them do: the envelope is itself canonical. */
  lemma EnvelopeIsInKeyOrder(tool: string, args: Json, result: Json)
    ensures InKeyOrder(EnvelopeObject(tool, args, result))
  {
    FirstLetterDecides("args", "result");
    FirstLetterDecides("args", "tool");
    FirstLetterDecides("result", "tool");
    NormalIsInKeyOrder(args);
    NormalIsInKeyOrder(result);
    NormalIsInKeyOrder(String(tool));
    ThreeInKeyOrder(
      Member("args", Normal(args)), Member("result", Normal(result)), Member("tool", Normal(String(tool))));
  }

  lemma ThreeInKeyOrder(a: Member, b: Member, c: Member)
    requires LexicographicallyLe(a.key, b.key) && LexicographicallyLe(a.key, c.key) && LexicographicallyLe(b.key, c.key)
    requires InKeyOrder(a.value) && InKeyOrder(b.value) && InKeyOrder(c.value)
    ensures InKeyOrder(Object([a, b, c]))
  {
    var ms := [a, b, c];
    assert ms[0] == a && ms[1] == b && ms[2] == c;
  }

  lemma FirstLetterDecides(a: string, b: string)
    requires a != "" && b != "" && a[0] < b[0]
    ensures LexicographicallyLe(a, b)
  {
    assert a[..0] == b[..0];
  }

  lemma PrintMembersCons(m: Member, ms: seq<Member>)
    requires ms != []
    ensures PrintMembers([m] + ms) == PrintMember(m) + "," + PrintMembers(ms)
  {
    assert ([m] + ms)[1..] == ms;
  }

  lemma PrintThree(a: Member, b: Member, c: Member)
    ensures Print(Object([a, b, c])) == "{" + PrintMember(a) + "," + PrintMember(b) + "," + PrintMember(c) + "}"
  {
    assert [a, b, c] == [a] + [b, c] && [b, c] == [b] + [c];
    PrintMembersCons(a, [b, c]);
    PrintMembersCons(b, [c]);
    ThreeJoined(PrintMember(a), PrintMember(b), PrintMember(c));
  }

  lemma ThreeJoined(a: string, b: string, c: string)
    ensures "{" + (a + "," + (b + "," + c)) + "}" == "{" + a + "," + b + "," + c + "}"
  {
  }

  lemma EnvelopeDecodes(tool: string, args: Json, result: Json)
    requires WellFormed(args) && WellFormed(result)
    ensures ParseValue(Envelope(tool, args, result)) == Some((EnvelopeObject(tool, args, result), ""))
  {
    var v := EnvelopeObject(tool, args, result);
    NormalWellFormed(args);
    NormalWellFormed(result);
    NormalWellFormed(String(tool));
    assert Keys(v.members) == ["args", "result", "tool"];
    assert WellFormed(v);
    ValueRoundTrip(v, "");
    PrintThree(v.members[0], v.members[1], v.members[2]);
    assert Print(v) + "" == Print(v);
  }

  /** Envelopes are equal text exactly when the calls are equal up to the order of object keys. */
  lemma EnvelopesDecideCalls(tool: string, args: Json, result: Json, tool': string, args': Json, result': Json)
    requires WellFormed(args) && WellFormed(result) && WellFormed(args') && WellFormed(result')
    ensures Envelope(tool, args, result) == Envelope(tool', args', result')
       <==> tool == tool' && SameValue(args, args') && SameValue(result, result')
  {
    EnvelopeDecodes(tool, args, result);
    EnvelopeDecodes(tool', args', result');
    NormalDecides(args, args');
    NormalDecides(result, result');
    var a, b := EnvelopeObject(tool, args, result).members, EnvelopeObject(tool', args', result').members;
    if Envelope(tool, args, result) == Envelope(tool', args', result') {
      assert a[0] == b[0] && a[1] == b[1] && a[2] == b[2];
    }
  }

  /** With a collision-free hash, ids identify calls up to the order of object keys. */
  lemma EvidenceIdsDecideCalls(
      hash: string -> string, tool: string, args: Json, result: Json, tool': string, args': Json, result': Json)
    requires forall x, y :: hash(x) == hash(y) ==> x == y
    requires WellFormed(args) && WellFormed(result) && WellFormed(args') && WellFormed(result')
    ensures hash(Envelope(tool, args, result)) == hash(Envelope(tool', args', result'))
       <==> tool == tool' && SameValue(args, args') && SameValue(result, result')
  {
    EnvelopesDecideCalls(tool, args, result, tool', args', result');
  }
}
