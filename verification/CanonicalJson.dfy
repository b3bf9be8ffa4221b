/**
 Canonical JSON: values up to key order, and the printer behind evidence ids. Text is modelled as characters; UTF-8
 encoding is injective and order-preserving.
 */
module CanonicalJson {
  import opened Sorting

  datatype Member = Member(key: string, value: Json)

  /** A JSON value. A number is its printed token; an object lists its members in memory order. */
  datatype Json =
    | Null
    | Bool(b: bool)
    | Number(token: string)
    | String(s: string)
    | Array(items: seq<Json>)
    | Object(members: seq<Member>)

  predicate IsNumberChar(c: char) {
    '0' <= c <= '9' || c == '+' || c == '-' || c == '.' || c == 'e' || c == 'E'
  }

  /** A superset of the number tokens of RFC 8259 section 6, enough to delimit them. */
  predicate IsNumberToken(t: string) {
    t != "" && forall c :: c in t ==> IsNumberChar(c)
  }

  /** A token is made of digits, signs, the point and the exponent mark. */
  lemma NumberAlphabet(c: char)
    ensures IsNumberChar(c) <==> c in "0123456789" || c in "+-" || c in ".eE"
  {
    var digits, signs, marks := "0123456789", "+-", ".eE";
    if '0' <= c <= '9' {
      assert digits[c as int - '0' as int] == c;
    }
    assert signs[0] == '+' && signs[1] == '-' && marks[0] == '.' && marks[1] == 'e' && marks[2] == 'E';
  }

  function Keys(ms: seq<Member>): seq<string> {
    seq(|ms|, i requires 0 <= i < |ms| => ms[i].key)
  }

  /** Number tokens are well formed and no object repeats a key. */
  ghost predicate WellFormed(v: Json)
    decreases v
  {
    match v
    case Number(t) => IsNumberToken(t)
    case Array(items) => forall x :: x in items ==> WellFormed(x)
    case Object(ms) => Distinct(Keys(ms)) && forall m :: m in ms ==> WellFormed(m.value)
    case _ => true
  }

  // --- Printing -------------------------------------------------------------------------------------------

  function HexDigit(n: nat): char
    requires n < 16
  {
    "0123456789abcdef"[n]
  }

  /** String escaping as serde_json does it: short escapes where they exist, `\u00xx` for other control characters. */
  function Escape(c: char): string {
    if c == '\"' then "\\\""
    else if c == '\\' then "\\\\"
    else if c == '\U{08}' then "\\b"
    else if c == '\U{0C}' then "\\f"
    else if c == '\n' then "\\n"
    else if c == '\r' then "\\r"
    else if c == '\t' then "\\t"
    else if c < ' ' then "\\u00" + [HexDigit(c as int / 16), HexDigit(c as int % 16)]
    else [c]
  }

  function EscapeAll(s: string): string {
    if s == "" then "" else Escape(s[0]) + EscapeAll(s[1..])
  }

  function Quote(s: string): string {
    "\"" + EscapeAll(s) + "\""
  }

  /** The printed form of a value whose members are written in the order listed. */
  function Print(v: Json): string
    decreases v, 0
  {
    match v
    case Null => "null"
    case Bool(b) => if b then "true" else "false"
    case Number(t) => t
    case String(s) => Quote(s)
    case Array(items) => "[" + PrintItems(items) + "]"
    case Object(ms) => "{" + PrintMembers(ms) + "}"
  }

  function PrintItems(items: seq<Json>): string
    decreases items, 1
  {
    if items == [] then ""
    else if |items| == 1 then Print(items[0])
    else Print(items[0]) + "," + PrintItems(items[1..])
  }

  function PrintMember(m: Member): string
    decreases m, 1
  {
    Quote(m.key) + ":" + Print(m.value)
  }

  function PrintMembers(ms: seq<Member>): string
    decreases ms, 1
  {
    if ms == [] then ""
    else if |ms| == 1 then PrintMember(ms[0])
    else PrintMember(ms[0]) + "," + PrintMembers(ms[1..])
  }

  // --- Key order ------------------------------------------------------------------------------------------

  predicate KeyLe(a: Member, b: Member) {
    StrLe(a.key, b.key)
  }

  /** The value with every object's members sorted by key, at every depth. */
  function Normal(v: Json): (r: Json)
    decreases v
  {
    match v
    case Array(items) => Array(seq(|items|, i requires 0 <= i < |items| => Normal(items[i])))
    case Object(ms) =>
      Object(Sort(seq(|ms|, i requires 0 <= i < |ms| => Member(ms[i].key, Normal(ms[i].value))), KeyLe))
    case _ => v
  }

  /** Equality up to the order of object members, stated without sorting. */
  ghost predicate SameValue(v: Json, w: Json)
    decreases v
  {
    match v
    case Array(xs) =>
      w.Array? && |w.items| == |xs| && forall i :: 0 <= i < |xs| ==> SameValue(xs[i], w.items[i])
    case Object(ms) =>
      && w.Object? && |w.members| == |ms|
      && forall i :: 0 <= i < |ms| ==>
           exists j :: 0 <= j < |w.members| &&
             w.members[j].key == ms[i].key && SameValue(ms[i].value, w.members[j].value)
    case _ => v == w
  }

  lemma KeyLeIsTotalPreorder()
    ensures TotalPreorder(KeyLe)
  {
    StrLeIsTotalOrder();
  }

  function NormalMembers(ms: seq<Member>): seq<Member> {
    seq(|ms|, i requires 0 <= i < |ms| => Member(ms[i].key, Normal(ms[i].value)))
  }

  lemma NormalObject(ms: seq<Member>)
    ensures Normal(Object(ms)) == Object(Sort(NormalMembers(ms), KeyLe))
  {
    assert seq(|ms|, i requires 0 <= i < |ms| => Member(ms[i].key, Normal(ms[i].value))) == NormalMembers(ms);
  }

  lemma DistinctKeysSeparate(ms: seq<Member>)
    requires Distinct(Keys(ms))
    ensures Distinct(ms) && AntisymmetricOn(ms, KeyLe)
  {
    StrLeIsTotalOrder();
    forall i, j | 0 <= i < j < |ms| ensures ms[i] != ms[j] {
      assert Keys(ms)[i] != Keys(ms)[j];
    }
    forall x, y | x in ms && y in ms && KeyLe(x, y) && KeyLe(y, x) ensures x == y {
      var i :| 0 <= i < |ms| && ms[i] == x;
      var j :| 0 <= j < |ms| && ms[j] == y;
      assert Keys(ms)[i] == Keys(ms)[j];
    }
  }

  /** Rearranging members keeps their keys distinct. */
  lemma PermutedKeysDistinct(a: seq<Member>, b: seq<Member>)
    requires multiset(a) == multiset(b) && Distinct(Keys(a))
    ensures Distinct(Keys(b))
  {
    DistinctKeysSeparate(a);
    DistinctByCount(a);
    DistinctByCount(b);
    assert Distinct(b);
    forall i, j | 0 <= i < j < |b| ensures b[i].key != b[j].key {
      assert b[i] in multiset(a) && b[j] in multiset(a);
      var k :| 0 <= k < |a| && a[k] == b[i];
      var l :| 0 <= l < |a| && a[l] == b[j];
      assert b[i] != b[j];
      assert Keys(a)[k] == b[i].key && Keys(a)[l] == b[j].key;
    }
  }

  lemma {:induction false} NormalWellFormed(v: Json)
    requires WellFormed(v)
    ensures WellFormed(Normal(v))
    decreases v
  {
    match v
    case Array(items) =>
      forall x | x in Normal(v).items ensures WellFormed(x) {
        var i :| 0 <= i < |items| && x == Normal(items[i]);
        NormalWellFormed(items[i]);
      }
    case Object(ms) =>
      NormalObject(ms);
      assert Keys(NormalMembers(ms)) == Keys(ms);
      PermutedKeysDistinct(NormalMembers(ms), Normal(v).members);
      SortMembers(NormalMembers(ms), KeyLe);
      forall m | m in Normal(v).members ensures WellFormed(m.value) {
        var i :| 0 <= i < |ms| && m == NormalMembers(ms)[i];
        NormalWellFormed(ms[i].value);
      }
    case _ =>
  }

  /** At every depth the members of objects come in lexicographic order of their keys. */
  ghost predicate InKeyOrder(v: Json)
    decreases v
  {
    match v
    case Array(items) => forall x :: x in items ==> InKeyOrder(x)
    case Object(ms) =>
      && (forall i, j :: 0 <= i < j < |ms| ==> LexicographicallyLe(ms[i].key, ms[j].key))
      && (forall m :: m in ms ==> InKeyOrder(m.value))
    case _ => true
  }

  lemma {:induction false} NormalIsInKeyOrder(v: Json)
    ensures InKeyOrder(Normal(v))
    decreases v
  {
    match v
    case Array(items) =>
      forall x | x in Normal(v).items ensures InKeyOrder(x) {
        var i :| 0 <= i < |items| && x == Normal(items[i]);
        NormalIsInKeyOrder(items[i]);
      }
    case Object(ms) =>
      NormalObject(ms);
      SortMembers(NormalMembers(ms), KeyLe);
      forall m | m in Normal(v).members ensures InKeyOrder(m.value) {
        var i :| 0 <= i < |ms| && m == NormalMembers(ms)[i];
        NormalIsInKeyOrder(ms[i].value);
      }
      SortedMembersAreInOrder(NormalMembers(ms));
    case _ =>
  }

  lemma SortedMembersAreInOrder(ms: seq<Member>)
    ensures var sorted := Sort(ms, KeyLe);
      forall i, j :: 0 <= i < j < |sorted| ==> LexicographicallyLe(sorted[i].key, sorted[j].key)
  {
    var sorted := Sort(ms, KeyLe);
    KeyLeIsTotalPreorder();
    SortSorts(ms, KeyLe);
    forall i, j | 0 <= i < j < |sorted| ensures LexicographicallyLe(sorted[i].key, sorted[j].key) {
      assert KeyLe(sorted[i], sorted[j]);
      StrLeIsLexicographic(sorted[i].key, sorted[j].key);
    }
  }

  /** Two values have one normal form exactly when they are equal up to key order. */
  lemma {:induction false} NormalDecides(v: Json, w: Json)
    requires WellFormed(v) && WellFormed(w)
    ensures Normal(v) == Normal(w) <==> SameValue(v, w)
    decreases v
  {
    match v
    case Array(xs) =>
      if w.Array? && |xs| == |w.items| {
        forall i | 0 <= i < |xs| ensures Normal(xs[i]) == Normal(w.items[i]) <==> SameValue(xs[i], w.items[i]) {
          NormalDecides(xs[i], w.items[i]);
        }
        assert forall i :: 0 <= i < |xs| ==>
          Normal(v).items[i] == Normal(xs[i]) && Normal(w).items[i] == Normal(w.items[i]);
      } else if w.Array? {
        assert |Normal(v).items| == |xs| && |Normal(w).items| == |w.items|;
      }
    case Object(ms) =>
      if w.Object? {
        forall i, j | 0 <= i < |ms| && 0 <= j < |w.members|
          ensures Normal(ms[i].value) == Normal(w.members[j].value) <==> SameValue(ms[i].value, w.members[j].value)
        {
          NormalDecides(ms[i].value, w.members[j].value);
        }
        NormalObjectsDecide(ms, w.members);
      }
    case _ =>
  }

  lemma NormalObjectsDecide(ms: seq<Member>, ns: seq<Member>)
    requires Distinct(Keys(ms)) && Distinct(Keys(ns))
    requires forall i, j :: 0 <= i < |ms| && 0 <= j < |ns| ==>
      (Normal(ms[i].value) == Normal(ns[j].value) <==> SameValue(ms[i].value, ns[j].value))
    ensures Normal(Object(ms)) == Normal(Object(ns)) <==> SameValue(Object(ms), Object(ns))
  {
    var a, b := NormalMembers(ms), NormalMembers(ns);
    NormalObject(ms);
    NormalObject(ns);
    assert Keys(a) == Keys(ms);
    if Sort(a, KeyLe) == Sort(b, KeyLe) {
      assert multiset(a) == multiset(b);
      EqualNormalsMatch(ms, ns);
    }
    if SameValue(Object(ms), Object(ns)) {
      MatchingMembersPermute(ms, ns);
      SortedAlike(a, b);
    }
  }

  lemma EqualNormalsMatch(ms: seq<Member>, ns: seq<Member>)
    requires multiset(NormalMembers(ms)) == multiset(NormalMembers(ns))
    requires forall i, j :: 0 <= i < |ms| && 0 <= j < |ns| ==>
      (Normal(ms[i].value) == Normal(ns[j].value) <==> SameValue(ms[i].value, ns[j].value))
    ensures SameValue(Object(ms), Object(ns))
  {
    var a, b := NormalMembers(ms), NormalMembers(ns);
    assert |a| == |multiset(a)| == |multiset(b)| == |b|;
    forall i | 0 <= i < |ms|
      ensures exists j :: 0 <= j < |ns| && ns[j].key == ms[i].key && SameValue(ms[i].value, ns[j].value)
    {
      assert a[i] in multiset(b);
      var j :| 0 <= j < |b| && b[j] == a[i];
      assert ns[j].key == ms[i].key && SameValue(ms[i].value, ns[j].value);
    }
  }

  lemma MatchingMembersPermute(ms: seq<Member>, ns: seq<Member>)
    requires Distinct(Keys(ms)) && SameValue(Object(ms), Object(ns))
    requires forall i, j :: 0 <= i < |ms| && 0 <= j < |ns| ==>
      (Normal(ms[i].value) == Normal(ns[j].value) <==> SameValue(ms[i].value, ns[j].value))
    ensures multiset(NormalMembers(ms)) == multiset(NormalMembers(ns))
  {
    var a, b := NormalMembers(ms), NormalMembers(ns);
    forall x | x in a ensures x in b {
      var i :| 0 <= i < |a| && a[i] == x;
      var j :| 0 <= j < |ns| && ns[j].key == ms[i].key && SameValue(ms[i].value, ns[j].value);
      assert b[j] == x;
    }
    assert Keys(a) == Keys(ms);
    DistinctKeysSeparate(a);
    DistinctSubsetIsAll(a, b);
  }

  lemma SortedAlike(a: seq<Member>, b: seq<Member>)
    requires multiset(a) == multiset(b) && Distinct(Keys(a))
    ensures Sort(a, KeyLe) == Sort(b, KeyLe)
  {
    KeyLeIsTotalPreorder();
    SortSorts(a, KeyLe);
    SortSorts(b, KeyLe);
    PermutedKeysDistinct(a, Sort(a, KeyLe));
    DistinctKeysSeparate(Sort(a, KeyLe));
    SortedUnique(Sort(a, KeyLe), Sort(b, KeyLe), KeyLe);
  }
}
