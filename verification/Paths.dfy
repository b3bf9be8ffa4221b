/** Relative paths as the agent filesystem accepts them: component cleaning and the confinement to `notes/`. */
module Paths {
  import opened Wrappers
  import opened Sorting

  datatype FsError =
    | EmptyEvidence
    | EvidenceNotFound(path: string)
    | CitationNotEvidence(path: string)
    | OutputNotFound
    | PathTraversal(path: string)
    | PathOutsideNotes(path: string)
    | ReservedNotesPath(path: string)
    | MalformedEvidence(path: string)

  /** The pieces between slashes, empty ones included. */
  function Split(s: string): (r: seq<string>)
    ensures r != []
  {
    if s == "" then [""]
    else if s[0] == '/' then [""] + Split(s[1..])
    else
      var rest := Split(s[1..]);
      [[s[0]] + rest[0]] + rest[1..]
  }

  function Join(parts: seq<string>): string {
    if parts == [] then ""
    else if |parts| == 1 then parts[0]
    else parts[0] + "/" + Join(parts[1..])
  }

  predicate IsNormal(part: string) {
    part != "" && part != "."
  }

  /** `Path::components` of a path without a root: empty and `.` pieces vanish. */
  function Components(s: string): seq<string> {
    Filter(Split(s), IsNormal)
  }

  predicate IsAbsolute(s: string) {
    s != "" && s[0] == '/'
  }

  function CleanRelpath(raw: string): Result<string, FsError> {
    if IsAbsolute(raw) || ".." in Components(raw) then Err(PathTraversal(raw))
    else Ok(Join(Components(raw)))
  }

  /** The storage key of a model-supplied write path; only files inside `notes/` have one. */
  function ResolveNotesKey(raw: string): Result<string, FsError> {
    if IsAbsolute(raw) || ".." in Components(raw) || Components(raw) == [] then Err(PathTraversal(raw))
    else if Components(raw)[0] != "notes" || |Components(raw)| == 1 then Err(PathOutsideNotes(raw))
    else Ok("notes/" + Join(Components(raw)[1..]))
  }

  predicate SlashFree(part: string) {
    '/' !in part
  }

  predicate AllSlashFree(parts: seq<string>) {
    forall p :: p in parts ==> SlashFree(p)
  }

  lemma {:induction false} SplitIsSlashFree(s: string)
    ensures AllSlashFree(Split(s))
  {
    if s != "" {
      SplitIsSlashFree(s[1..]);
      var rest := Split(s[1..]);
      assert rest == [rest[0]] + rest[1..];
      assert rest[0] in rest;
    }
  }

  lemma {:induction false} SplitPart(part: string, rest: string)
    requires SlashFree(part)
    ensures Split(part) == [part]
    ensures Split(part + "/" + rest) == [part] + Split(rest)
  {
    var s := part + "/" + rest;
    if part == "" {
      assert s[1..] == rest;
    } else {
      assert SlashFree(part[1..]);
      SplitPart(part[1..], rest);
      assert part[0] in part;
      assert s[1..] == part[1..] + "/" + rest;
      assert [part[0]] + part[1..] == part;
    }
  }

  lemma {:induction false} SplitOfJoin(parts: seq<string>)
    requires parts != [] && AllSlashFree(parts)
    ensures Split(Join(parts)) == parts
  {
    SplitPart(parts[0], Join(parts[1..]));
    if |parts| > 1 {
      SplitOfJoin(parts[1..]);
    }
  }

  lemma {:induction false} SplitSnoc(front: string, part: string)
    requires SlashFree(part)
    ensures Split(front + "/" + part) == Split(front) + [part]
  {
    var s := front + "/" + part;
    if front == "" {
      assert s[1..] == part;
      SplitPart(part, "");
    } else {
      assert s[0] == front[0] && s[1..] == front[1..] + "/" + part;
      SplitSnoc(front[1..], part);
    }
  }

  lemma {:induction false} JoinSnoc(parts: seq<string>, part: string)
    requires parts != []
    ensures Join(parts + [part]) == Join(parts) + "/" + part
  {
    var all := parts + [part];
    assert all[1..] == parts[1..] + [part];
    if |parts| > 1 {
      JoinSnoc(parts[1..], part);
    } else {
      assert all[1..] == [part];
    }
  }

  /** Cleaned components joined and split again are themselves. */
  lemma ComponentsOfJoin(raw: string)
    ensures Components(Join(Components(raw))) == Components(raw) && !IsAbsolute(Join(Components(raw)))
    ensures AllSlashFree(Components(raw))
  {
    var parts := Components(raw);
    SplitIsSlashFree(raw);
    FilterKeeps(Split(raw), IsNormal);
    if parts != [] {
      SplitOfJoin(parts);
      FilterAll(parts, IsNormal);
      assert parts[0] in parts;
      assert Join(parts)[0] == parts[0][0] && parts[0][0] in parts[0];
    }
  }

  /** A path of two plain parts is its own cleaning. */
  lemma TwoPartsAreClean(first: string, second: string)
    requires SlashFree(first) && SlashFree(second) && IsNormal(first)
    requires IsNormal(second) && first != ".." && second != ".."
    ensures CleanRelpath(first + "/" + second) == Ok(first + "/" + second)
    ensures Components(first + "/" + second) == [first, second]
  {
    SplitPart(first, second);
    SplitPart(second, "");
    FilterAll([first, second], IsNormal);
    assert [first] + [second] == [first, second];
    assert [first, second][1..] == [second];
    assert Join([first, second]) == first + "/" + Join([second]);
    assert (first + "/" + second)[0] == first[0] && first[0] in first;
    assert !IsAbsolute(first + "/" + second);
  }

  /** A cleaned path is its own cleaning. */
  lemma CleanIsIdempotent(raw: string)
    requires CleanRelpath(raw).Ok?
    ensures CleanRelpath(CleanRelpath(raw).value) == CleanRelpath(raw)
  {
    ComponentsOfJoin(raw);
  }

  /** Every relative path has another spelling. */
  lemma RespelledIsTheSame(raw: string)
    requires !IsAbsolute(raw)
    ensures "./" + raw != raw && CleanRelpath("./" + raw).Ok? == CleanRelpath(raw).Ok?
    ensures CleanRelpath(raw).Ok? ==> CleanRelpath("./" + raw) == CleanRelpath(raw)
  {
    assert |"./" + raw| == |raw| + 2;
    SplitPart(".", raw);
    assert "." + "/" + raw == "./" + raw;
    FilterConcat(["."], Split(raw), IsNormal);
    assert Filter(["."], IsNormal) == [];
    assert Components("./" + raw) == Components(raw);
    assert ("./" + raw)[0] == '.';
  }

  /** A joined path lies inside directory `dir` exactly when its first component is `dir` and it has more. */
  lemma InsideDirectory(parts: seq<string>, dir: string)
    requires parts != [] && AllSlashFree(parts) && SlashFree(dir)
    ensures StartsWith(Join(parts), dir + "/") <==> parts[0] == dir && |parts| > 1
    ensures parts[0] == dir && |parts| > 1 ==> Join(parts) == dir + "/" + Join(parts[1..])
  {
    var s, n := Join(parts), |dir| + 1;
    if StartsWith(s, dir + "/") {
      assert s == dir + "/" + s[n..];
      SplitPart(dir, s[n..]);
      SplitOfJoin(parts);
    }
    if parts[0] == dir && |parts| > 1 {
      assert s[..n] == dir + "/";
    }
  }

  /** A path is writable exactly when it cleans to something inside `notes/`, and its key is that cleaned path. */
  lemma WritableIsInsideNotes(raw: string)
    ensures ResolveNotesKey(raw).Ok? <==> CleanRelpath(raw).Ok? && StartsWith(CleanRelpath(raw).value, "notes/")
    ensures ResolveNotesKey(raw).Ok? ==> ResolveNotesKey(raw).value == CleanRelpath(raw).value
  {
    ComponentsOfJoin(raw);
    if Components(raw) != [] {
      assert "notes" + "/" == "notes/";
      InsideDirectory(Components(raw), "notes");
    }
  }

  /** A writable key is written to by its own spelling, and names no parent directory. */
  lemma WritableKeyIsCanonical(raw: string)
    requires ResolveNotesKey(raw).Ok?
    ensures ResolveNotesKey(ResolveNotesKey(raw).value) == ResolveNotesKey(raw)
    ensures ".." !in Split(ResolveNotesKey(raw).value)
  {
    WritableIsInsideNotes(raw);
    CleanIsIdempotent(raw);
    WritableIsInsideNotes(CleanRelpath(raw).value);
    ComponentsOfJoin(raw);
    SplitOfJoin(Components(raw));
  }
}
