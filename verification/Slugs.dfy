/** Interpretable kebab slugs for file names. */
module Slugs {

  /** Longest slug body, in bytes; slugs are ASCII. */
  const SLUG_BODY_MAX: nat := 80

  function ToAsciiLower(c: char): char {
    if 'A' <= c <= 'Z' then (c as int - 'A' as int + 'a' as int) as char else c
  }

  predicate IsSlugLetter(c: char) {
    'a' <= c <= 'z' || '0' <= c <= '9'
  }

  predicate IsAsciiAlphanumeric(c: char) {
    IsSlugLetter(c) || 'A' <= c <= 'Z'
  }

  /** The kebab body of `s`; `prevDash` says that no further dash may be written yet. */
  function Body(s: string, prevDash: bool): string {
    if s == "" then ""
    else
      var lc := ToAsciiLower(s[0]);
      if IsAsciiAlphanumeric(lc) then [lc] + Body(s[1..], false)
      else if !prevDash then "-" + Body(s[1..], true)
      else Body(s[1..], true)
  }

  function TrimDashes(s: string): string {
    if s != "" && s[|s| - 1] == '-' then TrimDashes(s[..|s| - 1]) else s
  }

  function SlugOf(seed: string): string {
    var body := TrimDashes(Body(seed, true));
    if |body| > SLUG_BODY_MAX then TrimDashes(body[..SLUG_BODY_MAX]) else body
  }

  /** Short, over `[a-z0-9-]`, with single inner dashes only. */
  ghost predicate IsSlug(t: string) {
    && |t| <= SLUG_BODY_MAX
    && IsKebab(t)
    && (t != "" ==> t[0] != '-' && t[|t| - 1] != '-')
  }

  ghost predicate IsKebab(t: string) {
    && (forall i :: 0 <= i < |t| ==> IsSlugLetter(t[i]) || t[i] == '-')
    && (forall i :: 0 <= i < |t| - 1 ==> t[i] != '-' || t[i + 1] != '-')
  }

  method Trim(s: string) returns (body: string)
    ensures body == TrimDashes(s)
  {
    body := s;
    while body != "" && body[|body| - 1] == '-'
      invariant TrimDashes(body) == TrimDashes(s)
      decreases |body|
    {
      body := body[..|body| - 1];
    }
  }

  method Slug(seed: string) returns (body: string)
    ensures body == SlugOf(seed)
  {
    body := "";
    var prevDash := true;
    for i := 0 to |seed|
      invariant body + Body(seed[i..], prevDash) == Body(seed, true)
    {
      var lc := ToAsciiLower(seed[i]);
      assert seed[i..][1..] == seed[i + 1..];
      ghost var before, rest := body, Body(seed[i + 1..], true);
      if IsAsciiAlphanumeric(lc) {
        body := body + [lc];
        prevDash := false;
        assert body + Body(seed[i + 1..], false) == before + ([lc] + Body(seed[i + 1..], false));
      } else if !prevDash {
        body := body + "-";
        prevDash := true;
        assert body + rest == before + ("-" + rest);
      }
    }
    assert body + "" == body;
    body := Trim(body);
    if |body| > SLUG_BODY_MAX {
      body := Trim(body[..SLUG_BODY_MAX]);
    }
  }

  lemma {:induction false} BodyIsKebab(s: string, prevDash: bool)
    ensures IsKebab(Body(s, prevDash))
    ensures prevDash && Body(s, prevDash) != "" ==> Body(s, prevDash)[0] != '-'
  {
    if s != "" {
      BodyIsKebab(s[1..], false);
      BodyIsKebab(s[1..], true);
    }
  }

  lemma {:induction false} TrimIsKebab(s: string)
    requires IsKebab(s)
    ensures IsKebab(TrimDashes(s)) && TrimDashes(s) <= s
    ensures TrimDashes(s) != "" ==> TrimDashes(s)[|TrimDashes(s)| - 1] != '-'
  {
    if s != "" && s[|s| - 1] == '-' {
      TrimIsKebab(s[..|s| - 1]);
    }
  }

  lemma {:induction false} KebabIsItsOwnBody(t: string, prevDash: bool)
    requires IsKebab(t) && (prevDash && t != "" ==> t[0] != '-')
    ensures Body(t, prevDash) == t
  {
    if t != "" {
      KebabIsItsOwnBody(t[1..], t[0] == '-');
      assert [t[0]] + t[1..] == t;
    }
  }

  /** Slugs are exactly the seeds that slugging leaves alone; in particular slugging twice changes nothing more. */
  lemma SlugsAreFixpoints(seed: string)
    ensures IsSlug(SlugOf(seed))
    ensures SlugOf(seed) == seed <==> IsSlug(seed)
    ensures SlugOf(SlugOf(seed)) == SlugOf(seed)
  {
    SlugIsSlug(seed);
    if IsSlug(seed) {
      SlugStays(seed);
    }
    SlugStays(SlugOf(seed));
  }

  // --- What a slug keeps of its seed ----------------------------------------------------------------------

  /** `l` is the lower-case form of `c`: letters alone have one of their own. */
  ghost predicate LowerOf(c: char, l: char) {
    if 'A' <= c <= 'Z' then 'a' <= l <= 'z' && l as int - 'a' as int == c as int - 'A' as int else l == c
  }

  ghost predicate IsWord(w: string) {
    w != "" && forall i :: 0 <= i < |w| ==> IsAlnum(w[i])
  }

  /** An ASCII letter of either case, or a digit. */
  predicate IsAlnum(c: char) {
    'a' <= c <= 'z' || 'A' <= c <= 'Z' || '0' <= c <= '9'
  }

  /** The maximal runs of letters and digits. */
  function Words(s: string): seq<string> {
    if s == "" then []
    else if !IsAlnum(s[0]) then Words(s[1..])
    else if |s| == 1 || !IsAlnum(s[1]) then [[s[0]]] + Words(s[1..])
    else
      var rest := Words(s[1..]);
      if rest == [] then [[s[0]]] else [[s[0]] + rest[0]] + rest[1..]
  }

  function Lowered(w: string): (r: string)
    ensures |r| == |w| && forall i :: 0 <= i < |w| ==> LowerOf(w[i], r[i])
  {
    seq(|w|, i requires 0 <= i < |w| => ToAsciiLower(w[i]))
  }

  /** The words in lower case, joined by single dashes. */
  function Kebab(words: seq<string>): string {
    if words == [] then ""
    else if |words| == 1 then Lowered(words[0])
    else Lowered(words[0]) + "-" + Kebab(words[1..])
  }

  lemma {:induction false} WordsAreWords(s: string)
    ensures forall w :: w in Words(s) ==> IsWord(w)
    ensures s != "" && IsAlnum(s[0]) ==> Words(s) != []
  {
    if s != "" {
      var rest := Words(s[1..]);
      WordsAreWords(s[1..]);
      if IsAlnum(s[0]) && |s| > 1 && IsAlnum(s[1]) {
        assert rest[0] in rest && IsWord(rest[0]);
        assert IsWord([s[0]] + rest[0]);
        assert forall w :: w in rest[1..] ==> w in rest;
      } else if IsAlnum(s[0]) {
        assert IsWord([s[0]]);
      }
    }
  }

  /** The dash that slugging leaves for what follows the last word. */
  function Trailing(s: string): string {
    if s != "" && !IsAlnum(s[|s| - 1]) && Words(s) != [] then "-" else ""
  }

  lemma LoweredCons(c: char, w: string)
    ensures Lowered([c] + w) == [ToAsciiLower(c)] + Lowered(w)
  {
  }

  lemma {:induction false} NoWordNoLetter(s: string)
    ensures Words(s) == [] && s != "" ==> !IsAlnum(s[|s| - 1])
  {
    if s != "" {
      NoWordNoLetter(s[1..]);
      WordsAreWords(s);
      assert |s| > 1 ==> s[1..][|s| - 2] == s[|s| - 1];
    }
  }

  /** The body is the words, lowered and joined, and at most one dash after them. */
  lemma {:induction false} BodyIsKebabOfWords(s: string)
    ensures Body(s, true) == Kebab(Words(s)) + Trailing(s)
    decreases |s|
  {
    if s == "" {
    } else if !IsAlnum(s[0]) {
      BodyIsKebabOfWords(s[1..]);
      assert |s| > 1 ==> s[1..][|s| - 2] == s[|s| - 1];
    } else if |s| == 1 {
      assert Words(s) == [[s[0]]];
    } else if !IsAlnum(s[1]) {
      BodyIsKebabOfWords(s[2..]);
      WordThenGap(s);
    } else {
      BodyIsKebabOfWords(s[1..]);
      WordGoesOn(s);
    }
  }

  lemma WordThenGap(s: string)
    requires |s| > 1 && IsAlnum(s[0]) && !IsAlnum(s[1])
    requires Body(s[2..], true) == Kebab(Words(s[2..])) + Trailing(s[2..])
    ensures Body(s, true) == Kebab(Words(s)) + Trailing(s)
  {
    var l, rest := ToAsciiLower(s[0]), s[2..];
    var kebab, trailing := Kebab(Words(rest)), Trailing(rest);
    GapBody(s);
    GapWords(s);
    OneLetterFirst(s[0], Words(rest));
    if Words(rest) == [] {
      GapAtEnd([l], kebab, trailing);
    } else {
      GapBetween([l], kebab, trailing);
    }
  }

  lemma GapBody(s: string)
    requires |s| > 1 && IsAlnum(s[0]) && !IsAlnum(s[1])
    ensures Body(s, true) == [ToAsciiLower(s[0])] + ("-" + Body(s[2..], true))
  {
    var gap := s[1..];
    assert gap[1..] == s[2..] && gap[0] == s[1];
  }

  lemma GapWords(s: string)
    requires |s| > 1 && IsAlnum(s[0]) && !IsAlnum(s[1])
    ensures Words(s) == [[s[0]]] + Words(s[2..])
    ensures Trailing(s) == if Words(s[2..]) == [] then "-" else Trailing(s[2..])
  {
    var gap, rest := s[1..], s[2..];
    assert gap[1..] == rest && gap[0] == s[1];
    assert Words(gap) == Words(rest);
    NoWordNoLetter(rest);
    assert |s| > 2 ==> rest[|rest| - 1] == s[|s| - 1];
  }

  lemma OneLetterFirst(c: char, words: seq<string>)
    ensures Kebab([[c]] + words) == if words == [] then [ToAsciiLower(c)] else [ToAsciiLower(c)] + ("-" + Kebab(words))
  {
    var all := [[c]] + words;
    assert all[1..] == words && Lowered([c]) == [ToAsciiLower(c)];
    if words == [] {
      assert all == [[c]];
    }
  }

  lemma GapAtEnd(l: string, kebab: string, trailing: string)
    requires kebab == "" && trailing == ""
    ensures l + ("-" + (kebab + trailing)) == l + "-"
  {
  }

  lemma GapBetween(l: string, kebab: string, trailing: string)
    ensures l + ("-" + (kebab + trailing)) == l + ("-" + kebab) + trailing
  {
  }

  lemma WordGoesOn(s: string)
    requires |s| > 1 && IsAlnum(s[0]) && IsAlnum(s[1])
    requires Body(s[1..], true) == Kebab(Words(s[1..])) + Trailing(s[1..])
    ensures Body(s, true) == Kebab(Words(s)) + Trailing(s)
  {
    var l, rest := ToAsciiLower(s[0]), s[1..];
    var words := Words(rest);
    WordsAreWords(rest);
    LongerWord(s[0], words);
    assert Words(s) == [[s[0]] + words[0]] + words[1..];
    assert Body(rest, false) == Body(rest, true);
    ConcatThree([l], Kebab(words), Trailing(rest));
    assert rest[|rest| - 1] == s[|s| - 1];
  }

  lemma LongerWord(c: char, words: seq<string>)
    requires words != []
    ensures Kebab([[c] + words[0]] + words[1..]) == [ToAsciiLower(c)] + Kebab(words)
  {
    var longer := [[c] + words[0]] + words[1..];
    assert longer[1..] == words[1..];
    LoweredCons(c, words[0]);
    if |words| > 1 {
      ConcatThree([ToAsciiLower(c)], Lowered(words[0]), "-" + Kebab(words[1..]));
    }
  }

  lemma ConcatThree(a: string, b: string, c: string)
    ensures a + (b + c) == a + b + c
  {
  }

  lemma {:induction false} KebabEndsInLetter(words: seq<string>)
    requires words != [] && forall w :: w in words ==> IsWord(w)
    ensures var k := Kebab(words); k != "" && k[|k| - 1] != '-'
  {
    var first := words[0];
    assert first in words && IsAlnum(first[|first| - 1]);
    assert LowerOf(first[|first| - 1], Lowered(first)[|first| - 1]);
    if |words| > 1 {
      KebabEndsInLetter(words[1..]);
    }
  }

  /**
   A slug is the words of its seed in lower case, joined by single dashes; of a longer text it is the first eighty
   characters, less a dash at the end.
   */
  lemma SlugIsItsWords(seed: string)
    ensures var kebab := Kebab(Words(seed));
      && (|kebab| <= 80 ==> SlugOf(seed) == kebab)
      && (|kebab| > 80 ==> SlugOf(seed) == if kebab[79] == '-' then kebab[..79] else kebab[..80])
  {
    var kebab := Kebab(Words(seed));
    BodyIsKebabOfWords(seed);
    WordsAreWords(seed);
    BodyIsKebab(seed, true);
    if Words(seed) != [] {
      KebabEndsInLetter(Words(seed));
    }
    TrimsOneDash(kebab, Trailing(seed));
    if |kebab| > 80 {
      var cut := kebab[..80];
      assert Body(seed, true)[..|kebab|] == kebab;
      assert kebab[78] == Body(seed, true)[78] && kebab[79] == Body(seed, true)[79];
      if kebab[79] == '-' {
        assert cut == kebab[..79] + "-";
        TrimsOneDash(kebab[..79], "-");
      } else {
        assert cut + "" == cut;
        TrimsOneDash(cut, "");
      }
    }
  }

  lemma {:induction false} WordsAfterWord(word: string, rest: string)
    requires IsWord(word)
    ensures Words(word + " " + rest) == [word] + Words(rest)
  {
    var s := word + " " + rest;
    assert s[1..] == word[1..] + " " + rest;
    if |word| == 1 {
      assert s[1..][0] == ' ' && s[1..][1..] == rest;
      assert word == [s[0]];
    } else {
      assert IsWord(word[1..]);
      WordsAfterWord(word[1..], rest);
      assert word == [word[0]] + word[1..];
    }
  }

  /** A lower-case word in front of a seed stands in front of its slug. */
  lemma SlugAfterWord(word: string, rest: string)
    requires IsWord(word) && Lowered(word) == word && SlugOf(rest) != "" && |word| + 1 + |SlugOf(rest)| <= 80
    ensures SlugOf(word + " " + rest) == word + "-" + SlugOf(rest)
  {
    SlugIsItsWords(rest);
    SlugIsItsWords(word + " " + rest);
    WordsAfterWord(word, rest);
    var words := [word] + Words(rest);
    assert words[1..] == Words(rest);
  }

  lemma TrimsOneDash(kebab: string, trailing: string)
    requires kebab != "" ==> kebab[|kebab| - 1] != '-'
    requires trailing == "" || (trailing == "-" && kebab != "")
    ensures TrimDashes(kebab + trailing) == kebab
  {
    if trailing == "" {
      assert kebab + trailing == kebab;
    } else {
      assert (kebab + trailing)[..|kebab|] == kebab;
    }
  }

  lemma SlugIsSlug(seed: string)
    ensures IsSlug(SlugOf(seed))
  {
    BodyIsKebab(seed, true);
    TrimIsKebab(Body(seed, true));
    var body := TrimDashes(Body(seed, true));
    if |body| > SLUG_BODY_MAX {
      TrimIsKebab(body[..SLUG_BODY_MAX]);
    }
  }

  lemma SlugStays(t: string)
    requires IsSlug(t)
    ensures SlugOf(t) == t
  {
    KebabIsItsOwnBody(t, true);
  }
}
