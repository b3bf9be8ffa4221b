/** A parser that inverts the printer of `CanonicalJson` (grammar of sections 4 to 7 of RFC 8259). */
module JsonParser {
  import opened Wrappers
  import opened Sorting
  import opened CanonicalJson

  function HexValue(c: char): Option<nat> {
    if '0' <= c <= '9' then Some(c as int - '0' as int)
    else if 'a' <= c <= 'f' then Some(c as int - 'a' as int + 10)
    else None
  }

  /** One character of a string body, escaped or not. */
  function ParseChar(s: string): (r: Option<(char, string)>)
    ensures r.Some? ==> |r.value.1| < |s|
  {
    if s == "" || s[0] == '\"' || s[0] < ' ' then None
    else if s[0] != '\\' then Some((s[0], s[1..]))
    else if |s| < 2 then None
    else if s[1] == '\"' then Some(('\"', s[2..]))
    else if s[1] == '\\' then Some(('\\', s[2..]))
    else if s[1] == 'b' then Some(('\U{08}', s[2..]))
    else if s[1] == 'f' then Some(('\U{0C}', s[2..]))
    else if s[1] == 'n' then Some(('\n', s[2..]))
    else if s[1] == 'r' then Some(('\r', s[2..]))
    else if s[1] == 't' then Some(('\t', s[2..]))
    else if s[1] == 'u' && |s| >= 6 && s[2] == '0' && s[3] == '0' && HexValue(s[4]).Some? && HexValue(s[5]).Some? then
      Some(((HexValue(s[4]).value * 16 + HexValue(s[5]).value) as char, s[6..]))
    else None
  }

  /** The characters up to the closing quote, and what follows it. */
  function ParseStringBody(s: string): (r: Option<(string, string)>)
    ensures r.Some? ==> |r.value.1| < |s|
    decreases |s|
  {
    if s != "" && s[0] == '\"' then Some(("", s[1..]))
    else
      match ParseChar(s)
      case None => None
      case Some((c, rest)) =>
        match ParseStringBody(rest)
        case None => None
        case Some((t, rest')) => Some(([c] + t, rest'))
  }

  function TakeNumber(s: string): (r: (string, string))
    ensures s == r.0 + r.1
    ensures s != "" && IsNumberChar(s[0]) ==> r.0 != ""
  {
    if s == "" || !IsNumberChar(s[0]) then ("", s)
    else
      var (t, rest) := TakeNumber(s[1..]);
      ([s[0]] + t, rest)
  }

  function ParseValue(s: string): (r: Option<(Json, string)>)
    ensures r.Some? ==> |r.value.1| < |s|
    decreases |s|, 0
  {
    if s == "" then None
    else if s[0] == 'n' && StartsWith(s, "null") then Some((Null, s[4..]))
    else if s[0] == 't' && StartsWith(s, "true") then Some((Bool(true), s[4..]))
    else if s[0] == 'f' && StartsWith(s, "false") then Some((Bool(false), s[5..]))
    else if s[0] == '\"' then
      match ParseStringBody(s[1..])
      case None => None
      case Some((t, rest)) => Some((String(t), rest))
    else if s[0] == '[' then
      if |s| > 1 && s[1] == ']' then Some((Array([]), s[2..]))
      else
        match ParseItems(s[1..])
        case None => None
        case Some((items, rest)) => Some((Array(items), rest))
    else if s[0] == '{' then
      if |s| > 1 && s[1] == '}' then Some((Object([]), s[2..]))
      else
        match ParseMembers(s[1..])
        case None => None
        case Some((ms, rest)) => Some((Object(ms), rest))
    else if IsNumberChar(s[0]) then
      var (t, rest) := TakeNumber(s);
      Some((Number(t), rest))
    else None
  }

  function ParseItems(s: string): (r: Option<(seq<Json>, string)>)
    ensures r.Some? ==> |r.value.1| < |s|
    decreases |s|, 1
  {
    match ParseValue(s)
    case None => None
    case Some((v, rest)) =>
      if rest != "" && rest[0] == ']' then Some(([v], rest[1..]))
      else if rest != "" && rest[0] == ',' then
        match ParseItems(rest[1..])
        case None => None
        case Some((items, rest')) => Some(([v] + items, rest'))
      else None
  }

  function ParseMember(s: string): (r: Option<(Member, string)>)
    ensures r.Some? ==> |r.value.1| < |s|
    decreases |s|, 1
  {
    if s == "" || s[0] != '\"' then None
    else
      match ParseStringBody(s[1..])
      case None => None
      case Some((key, rest)) =>
        if rest == "" || rest[0] != ':' then None
        else
          match ParseValue(rest[1..])
          case None => None
          case Some((v, rest')) => Some((Member(key, v), rest'))
  }

  function ParseMembers(s: string): (r: Option<(seq<Member>, string)>)
    ensures r.Some? ==> |r.value.1| < |s|
    decreases |s|, 2
  {
    match ParseMember(s)
    case None => None
    case Some((m, rest)) =>
      if rest != "" && rest[0] == '}' then Some(([m], rest[1..]))
      else if rest != "" && rest[0] == ',' then
        match ParseMembers(rest[1..])
        case None => None
        case Some((ms, rest')) => Some(([m] + ms, rest'))
      else None
  }

  // --- Round trip -----------------------------------------------------------------------------------------

  /** A number token ends here. */
  predicate Stops(rest: string) {
    rest != "" ==> !IsNumberChar(rest[0])
  }

  lemma EscapeRoundTrip(c: char, rest: string)
    ensures ParseChar(Escape(c) + rest) == Some((c, rest))
    ensures Escape(c) != "" && Escape(c)[0] != '\"'
  {
    if |Escape(c)| == 1 {
      TailOfConcat([c], rest);
    } else if |Escape(c)| == 2 {
      ShortEscapeRoundTrip(c, Escape(c), rest);
    } else {
      HexEscapeRoundTrip(c, Escape(c), rest);
    }
  }

  lemma ShortEscapeRoundTrip(c: char, e: string, rest: string)
    requires e == Escape(c) && |e| == 2
    ensures ParseChar(e + rest) == Some((c, rest))
  {
    var s := e + rest;
    assert s[0] == e[0] && s[1] == e[1] && s[2..] == rest;
  }

  lemma HexEscapeRoundTrip(c: char, e: string, rest: string)
    requires e == Escape(c) && |e| > 2
    ensures ParseChar(e + rest) == Some((c, rest))
  {
    var s := e + rest;
    assert |e| == 6 && forall k :: 0 <= k < 6 ==> s[k] == e[k];
    assert s[6..] == rest;
    HexDigitsRead(c as int / 16);
    HexDigitsRead(c as int % 16);
  }

  lemma HexDigitsRead(n: nat)
    requires n < 16
    ensures HexValue(HexDigit(n)) == Some(n)
  {
  }

  lemma {:induction false} StringRoundTrip(t: string, rest: string)
    ensures ParseStringBody(EscapeAll(t) + "\"" + rest) == Some((t, rest))
  {
    if t == "" {
      assert "" + "\"" + rest == "\"" + rest && ("\"" + rest)[1..] == rest;
    } else {
      var tail := EscapeAll(t[1..]) + "\"" + rest;
      EscapeRoundTrip(t[0], tail);
      StringRoundTrip(t[1..], rest);
      StringBodyStep(t, Escape(t[0]), EscapeAll(t[1..]), rest);
    }
  }

  lemma StringBodyStep(t: string, first: string, others: string, rest: string)
    requires t != "" && first != "" && first[0] != '\"'
    requires var tail := others + "\"" + rest;
      ParseChar(first + tail) == Some((t[0], tail)) && ParseStringBody(tail) == Some((t[1..], rest))
    ensures ParseStringBody(first + others + "\"" + rest) == Some((t, rest))
  {
    var tail := others + "\"" + rest;
    ConcatAssoc(first + others, "\"", rest);
    ConcatAssoc(first, others, "\"" + rest);
    ConcatAssoc(others, "\"", rest);
    assert (first + tail)[0] == first[0];
    assert [t[0]] + t[1..] == t;
  }

  // --- Of all texts for a string, the printer's is the shortest ------------------------------------------

  lemma CharIsShortest(s: string, c: char, rest: string)
    requires ParseChar(s) == Some((c, rest))
    ensures |Escape(c)| + |rest| <= |s|
    ensures |Escape(c)| + |rest| == |s| ==> s == Escape(c) + rest
  {
    if s[0] != '\\' {
      assert s == [s[0]] + s[1..];
    } else if s[1] != 'u' {
      assert s == s[..2] + s[2..] && s[..2] == Escape(c);
    } else {
      HexIsShortest(s, c);
    }
  }

  lemma HexIsShortest(s: string, c: char)
    requires |s| >= 6 && s[..4] == "\\u00" && ParseChar(s) == Some((c, s[6..]))
    ensures |Escape(c)| <= 6 && (|Escape(c)| == 6 ==> s == Escape(c) + s[6..])
  {
    assert s[..4][0] == s[0] && s[..4][1] == s[1] && s[..4][2] == s[2] && s[..4][3] == s[3];
    HexTells(s[4]);
    HexTells(s[5]);
    LongEscape(c, HexValue(s[4]).value, HexValue(s[5]).value);
    assert s == s[..4] + [s[4], s[5]] + s[6..];
  }

  lemma LongEscape(c: char, high: nat, low: nat)
    requires c as int == high * 16 + low && high < 16 && low < 16
    ensures |Escape(c)| <= 6 && (|Escape(c)| == 6 ==> Escape(c) == "\\u00" + [HexDigit(high), HexDigit(low)])
  {
  }

  lemma HexTells(d: char)
    requires HexValue(d).Some?
    ensures HexValue(d).value < 16 && HexDigit(HexValue(d).value) == d
  {
  }

  /** Any other text that reads as the same string is longer. */
  lemma {:induction false} BodyIsShortest(s: string, t: string, rest: string)
    requires ParseStringBody(s) == Some((t, rest))
    ensures |EscapeAll(t)| + 1 + |rest| <= |s|
    ensures |EscapeAll(t)| + 1 + |rest| == |s| ==> s == EscapeAll(t) + "\"" + rest
    decreases |s|
  {
    if s[0] == '\"' {
      assert s == "" + "\"" + s[1..];
    } else {
      var (c, others) := ParseChar(s).value;
      assert t == [c] + t[1..];
      CharIsShortest(s, c, others);
      BodyIsShortest(others, t[1..], rest);
      LongerBody(Escape(c), EscapeAll(t[1..]), rest);
    }
  }

  lemma LongerBody(first: string, others: string, rest: string)
    ensures first + others + "\"" + rest == first + (others + "\"" + rest)
  {
  }

  lemma {:induction false} NumberRoundTrip(t: string, rest: string)
    requires (forall c :: c in t ==> IsNumberChar(c)) && Stops(rest)
    ensures TakeNumber(t + rest) == (t, rest)
  {
    if t == "" {
      assert t + rest == rest;
    } else {
      assert (t + rest)[1..] == t[1..] + rest && (t + rest)[0] == t[0];
      NumberRoundTrip(t[1..], rest);
      assert [t[0]] + t[1..] == t;
    }
  }

  /** A printed value never starts with a closing bracket. */
  lemma PrintStart(v: Json)
    requires WellFormed(v)
    ensures Print(v) != "" && Print(v)[0] != ']' && Print(v)[0] != '}'
  {
    if v.Number? {
      assert IsNumberChar(v.token[0]);
    }
  }

  predicate IsScalar(v: Json) {
    !v.Array? && !v.Object?
  }

  lemma WordRoundTrip(v: Json, rest: string)
    requires v.Null? || v.Bool?
    ensures ParseValue(Print(v) + rest) == Some((v, rest))
  {
    var word, s := Print(v), Print(v) + rest;
    assert s[..|word|] == word && s[|word|..] == rest && s[0] == word[0];
  }

  lemma NumberValueRoundTrip(t: string, rest: string)
    requires IsNumberToken(t) && Stops(rest)
    ensures ParseValue(t + rest) == Some((Number(t), rest))
  {
    NumberRoundTrip(t, rest);
    assert IsNumberChar(t[0]) && (t + rest)[0] == t[0];
  }

  lemma StringValueRoundTrip(t: string, rest: string)
    ensures ParseValue(Quote(t) + rest) == Some((String(t), rest))
  {
    StringRoundTrip(t, rest);
    QuoteOpens(t, rest);
  }

  lemma QuoteOpens(t: string, rest: string)
    ensures Quote(t) + rest != "" && (Quote(t) + rest)[0] == '\"'
    ensures (Quote(t) + rest)[1..] == EscapeAll(t) + "\"" + rest
  {
    ConcatAssoc("\"", EscapeAll(t), "\"");
    ConcatAssoc("\"", EscapeAll(t) + "\"", rest);
    TailOfConcat("\"", EscapeAll(t) + "\"" + rest);
  }

  lemma ScalarRoundTrip(v: Json, rest: string)
    requires IsScalar(v) && WellFormed(v) && Stops(rest)
    ensures ParseValue(Print(v) + rest) == Some((v, rest))
  {
    match v
    case Number(t) => NumberValueRoundTrip(t, rest);
    case String(t) => StringValueRoundTrip(t, rest);
    case _ => WordRoundTrip(v, rest);
  }

  lemma EmptyRoundTrip(rest: string)
    ensures ParseValue("[]" + rest) == Some((Array([]), rest))
    ensures ParseValue("{}" + rest) == Some((Object([]), rest))
  {
    assert ("[]" + rest)[2..] == rest && ("{}" + rest)[2..] == rest;
  }

  /** The text after an opening bracket. */
  lemma AfterBracket(opening: string, printed: string, closing: string, rest: string)
    requires |opening| == 1 && printed != ""
    ensures var s := opening + printed + closing + rest;
      |s| > 1 && s[0] == opening[0] && s[1] == printed[0] && s[1..] == printed + closing + rest
  {
  }

  lemma ParseArray(s: string, items: seq<Json>, rest: string)
    requires |s| > 1 && s[0] == '[' && s[1] != ']' && ParseItems(s[1..]) == Some((items, rest))
    ensures ParseValue(s) == Some((Array(items), rest))
  {
  }

  lemma ParseObject(s: string, ms: seq<Member>, rest: string)
    requires |s| > 1 && s[0] == '{' && s[1] != '}' && ParseMembers(s[1..]) == Some((ms, rest))
    ensures ParseValue(s) == Some((Object(ms), rest))
  {
  }

  lemma ArrayFromParts(items: seq<Json>, printed: string, rest: string)
    requires printed != "" && printed[0] != ']'
    requires ParseItems(printed + "]" + rest) == Some((items, rest))
    ensures ParseValue("[" + printed + "]" + rest) == Some((Array(items), rest))
  {
    AfterBracket("[", printed, "]", rest);
    ParseArray("[" + printed + "]" + rest, items, rest);
  }

  lemma ObjectFromParts(ms: seq<Member>, printed: string, rest: string)
    requires printed != "" && printed[0] != '}'
    requires ParseMembers(printed + "}" + rest) == Some((ms, rest))
    ensures ParseValue("{" + printed + "}" + rest) == Some((Object(ms), rest))
  {
    AfterBracket("{", printed, "}", rest);
    ParseObject("{" + printed + "}" + rest, ms, rest);
  }

  lemma LastItem(v: Json, printed: string, rest: string)
    requires ParseValue(printed + ("]" + rest)) == Some((v, "]" + rest))
    ensures ParseItems(printed + "]" + rest) == Some(([v], rest))
  {
    ConcatAssoc(printed, "]", rest);
    TailOfConcat("]", rest);
    assert "" + rest == rest;
  }

  lemma MoreItems(v: Json, items: seq<Json>, printed: string, tail: string, rest: string)
    requires ParseValue(printed + ("," + tail)) == Some((v, "," + tail)) && ParseItems(tail) == Some((items, rest))
    ensures ParseItems(printed + "," + tail) == Some(([v] + items, rest))
  {
    ConcatAssoc(printed, ",", tail);
    TailOfConcat(",", tail);
    assert "" + tail == tail;
  }

  lemma MemberFromParts(key: string, printed: string, v: Json, rest: string)
    requires ParseValue(printed + rest) == Some((v, rest))
    ensures ParseMember(Quote(key) + ":" + printed + rest) == Some((Member(key, v), rest))
  {
    var value := printed + rest;
    QuotedText(key, printed, rest);
    StringRoundTrip(key, ":" + value);
    assert (":" + value)[0] == ':' && (":" + value)[1..] == value;
  }

  lemma QuotedText(key: string, printed: string, rest: string)
    ensures var s := Quote(key) + ":" + printed + rest;
      s[0] == '\"' && s[1..] == EscapeAll(key) + "\"" + (":" + (printed + rest))
  {
  }

  /** One printed element, a comma, the others and the closing bracket, grouped two ways. */
  lemma MoreText(printed: string, others: string, closing: string, rest: string)
    ensures printed + "," + others + closing + rest == printed + "," + (others + closing + rest)
  {
  }

  lemma LastMember(m: Member, printed: string, rest: string)
    requires ParseMember(printed + ("}" + rest)) == Some((m, "}" + rest))
    ensures ParseMembers(printed + "}" + rest) == Some(([m], rest))
  {
    ConcatAssoc(printed, "}", rest);
    TailOfConcat("}", rest);
    assert "" + rest == rest;
  }

  lemma MoreMembers(m: Member, ms: seq<Member>, printed: string, tail: string, rest: string)
    requires ParseMember(printed + ("," + tail)) == Some((m, "," + tail)) && ParseMembers(tail) == Some((ms, rest))
    ensures ParseMembers(printed + "," + tail) == Some(([m] + ms, rest))
  {
    ConcatAssoc(printed, ",", tail);
    TailOfConcat(",", tail);
    assert "" + tail == tail;
  }

  /** Parsing a printed value gives it back and leaves the rest, provided the rest cannot extend a number. */
  lemma {:induction false} ValueRoundTrip(v: Json, rest: string)
    requires WellFormed(v) && Stops(rest)
    ensures ParseValue(Print(v) + rest) == Some((v, rest))
    decreases v, 0
  {
    EmptyRoundTrip(rest);
    match v
    case Array(items) =>
      if items != [] {
        ItemsRoundTrip(items, rest);
        ItemsStart(items);
        ArrayFromParts(items, PrintItems(items), rest);
      }
    case Object(ms) =>
      if ms != [] {
        MembersRoundTrip(ms, rest);
        assert PrintMembers(ms)[0] == '\"';
        ObjectFromParts(ms, PrintMembers(ms), rest);
      }
    case _ => ScalarRoundTrip(v, rest);
  }

  lemma ItemsStart(items: seq<Json>)
    requires items != [] && WellFormed(items[0])
    ensures PrintItems(items) != "" && PrintItems(items)[0] != ']'
  {
    PrintStart(items[0]);
  }

  lemma {:induction false} ItemsRoundTrip(items: seq<Json>, rest: string)
    requires items != [] && forall x :: x in items ==> WellFormed(x)
    ensures ParseItems(PrintItems(items) + "]" + rest) == Some((items, rest))
    decreases items, 1
  {
    var printed := Print(items[0]);
    if |items| == 1 {
      ValueRoundTrip(items[0], "]" + rest);
      LastItem(items[0], printed, rest);
      assert [items[0]] == items;
    } else {
      var tail := PrintItems(items[1..]) + "]" + rest;
      ValueRoundTrip(items[0], "," + tail);
      ItemsRoundTrip(items[1..], rest);
      MoreItems(items[0], items[1..], printed, tail, rest);
      MoreText(printed, PrintItems(items[1..]), "]", rest);
      assert [items[0]] + items[1..] == items;
    }
  }

  lemma {:induction false} MemberRoundTrip(m: Member, rest: string)
    requires WellFormed(m.value) && Stops(rest)
    ensures ParseMember(PrintMember(m) + rest) == Some((m, rest))
    decreases m, 1
  {
    ValueRoundTrip(m.value, rest);
    MemberFromParts(m.key, Print(m.value), m.value, rest);
  }

  lemma {:induction false} MembersRoundTrip(ms: seq<Member>, rest: string)
    requires ms != [] && forall m :: m in ms ==> WellFormed(m.value)
    ensures ParseMembers(PrintMembers(ms) + "}" + rest) == Some((ms, rest))
    decreases ms, 1
  {
    var printed := PrintMember(ms[0]);
    if |ms| == 1 {
      MemberRoundTrip(ms[0], "}" + rest);
      LastMember(ms[0], printed, rest);
      assert [ms[0]] == ms;
    } else {
      var tail := PrintMembers(ms[1..]) + "}" + rest;
      MemberRoundTrip(ms[0], "," + tail);
      MembersRoundTrip(ms[1..], rest);
      MembersFromParts(ms, printed, PrintMembers(ms[1..]), rest);
    }
  }

  lemma MembersFromParts(ms: seq<Member>, printed: string, others: string, rest: string)
    requires ms != []
    requires var tail := others + "}" + rest;
      ParseMember(printed + ("," + tail)) == Some((ms[0], "," + tail)) && ParseMembers(tail) == Some((ms[1..], rest))
    ensures ParseMembers(printed + "," + others + "}" + rest) == Some((ms, rest))
  {
    MoreMembers(ms[0], ms[1..], printed, others + "}" + rest, rest);
    MoreText(printed, others, "}", rest);
    assert [ms[0]] + ms[1..] == ms;
  }

  /** Canonical text is uniquely decodable, and key order is all it forgets. */
  lemma CanonicalTextDecides(v: Json, w: Json)
    requires WellFormed(v) && WellFormed(w)
    ensures Print(Normal(v)) == Print(Normal(w)) <==> SameValue(v, w)
  {
    NormalWellFormed(v);
    NormalWellFormed(w);
    ValueRoundTrip(Normal(v), "");
    ValueRoundTrip(Normal(w), "");
    NormalDecides(v, w);
  }
}
