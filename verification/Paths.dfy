/** Lexical path containment on the agent. */
module Paths {
  // services/agent/internal/compose/path.go, and `validateID` and `safeSubdir` of
  // services/agent/internal/builder/builder.go, over Go's `filepath.Clean` and `filepath.Join` on Unix.

  import opened Text

  // ---- filepath.Clean as a reducer over segments ----

  function Push(rooted: bool, stack: seq<string>, seg: string): seq<string> {
    if seg == "" || seg == "." then stack
    else if seg == ".." then
      if stack != [] && stack[|stack| - 1] != ".." then stack[..|stack| - 1]
      else if rooted then stack
      else stack + [seg]
    else stack + [seg]
  }

  function Reduce(rooted: bool, stack: seq<string>, segs: seq<string>): seq<string>
    decreases segs
  {
    if segs == [] then stack else Reduce(rooted, Push(rooted, stack, segs[0]), segs[1..])
  }

  predicate Rooted(p: string) {
    p != "" && p[0] == '/'
  }

  /** The segments of the cleaned path. */
  function Segments(p: string): seq<string> {
    Reduce(Rooted(p), [], Split(p, '/'))
  }

  function Render(rooted: bool, segs: seq<string>): string {
    if rooted then "/" + Join(segs, '/')
    else if segs == [] then "."
    else Join(segs, '/')
  }

  function Clean(p: string): string {
    Render(Rooted(p), Segments(p))
  }

  /** `filepath.Join(a, b)` for a non-empty `a`. */
  function JoinPath(a: string, b: string): string {
    Clean(a + "/" + b)
  }

  // ---- The modelled code ----

  datatype Result = Ok(path: string) | NotRelative | Escapes

  const DEFAULT_FILE := "docker-compose.yml"

  /** The compose file as `ValidateComposeFilePath` first reads it. */
  function RawOf(composeFile: string): string {
    var trimmed := TrimSpace(composeFile);
    if trimmed == "" then DEFAULT_FILE else trimmed
  }

  function ValidateComposeFilePath(composeFile: string): Result {
    var raw := RawOf(composeFile);
    if HasPrefix(raw, "/") || HasPrefix(raw, "\\") then NotRelative
    else if HasDriveLetter(raw) then NotRelative
    else if HasPrefix(raw, "\\\\") || HasPrefix(raw, "//") then NotRelative
    else
      var cleaned := Clean(raw);
      if cleaned == ".." || HasPrefix(cleaned, "../") then Escapes
      else if ".." in Split(cleaned, '/') then Escapes
      else Ok(cleaned)
  }

  /** The source indexes bytes, so its second byte is a colon only after a one-byte character. */
  predicate HasDriveLetter(raw: string) {
    |raw| >= 2 && raw[0] < '\U{80}' && raw[1] == ':'
  }

  /** The containment test both resolvers end with. */
  predicate StaysUnder(base: string, full: string) {
    full == base || HasPrefix(full, base + "/")
  }

  function ResolveComposePath(workDir: string, composeFile: string): Result {
    match ValidateComposeFilePath(composeFile)
    case Ok(rel) =>
      var base := Clean(workDir);
      var full := Clean(JoinPath(base, rel));
      if StaysUnder(base, full) then Ok(full) else Escapes
    case other => other
  }

  function SafeSubdir(base: string, name: string): Result {
    var baseClean := Clean(base);
    var clean := Clean(JoinPath(baseClean, name));
    if StaysUnder(baseClean, clean) then Ok(clean) else Escapes
  }

  predicate IsIdChar(c: char) {
    'A' <= c <= 'Z' || 'a' <= c <= 'z' || '0' <= c <= '9' || c == '_' || c == '-'
  }

  predicate ValidateID(id: string) {
    id != "" && forall c :: c in id ==> IsIdChar(c)
  }

  // ---- Cleaned segment lists ----

  predicate IsSegment(seg: string) {
    seg != "" && seg != "." && '/' !in seg
  }

  /** What cleaning leaves: real segments, with `..` only at the front of a relative path. */
  ghost predicate Normal(rooted: bool, segs: seq<string>) {
    && (forall i :: 0 <= i < |segs| ==> IsSegment(segs[i]))
    && (forall i, j :: 0 <= i <= j < |segs| && segs[j] == ".." ==> !rooted && segs[i] == "..")
  }

  lemma {:induction false} ReduceIsNormal(rooted: bool, stack: seq<string>, segs: seq<string>)
    requires Normal(rooted, stack) && forall s :: s in segs ==> '/' !in s
    ensures Normal(rooted, Reduce(rooted, stack, segs))
    decreases segs
  {
    if segs != [] {
      assert segs[0] in segs;
      assert forall s :: s in segs[1..] ==> s in segs;
      ReduceIsNormal(rooted, Push(rooted, stack, segs[0]), segs[1..]);
    }
  }

  lemma SegmentsAreNormal(p: string)
    ensures Normal(Rooted(p), Segments(p))
  {
    ReduceIsNormal(Rooted(p), [], Split(p, '/'));
  }

  lemma {:induction false} ReduceConcat(rooted: bool, stack: seq<string>, a: seq<string>, b: seq<string>)
    ensures Reduce(rooted, stack, a + b) == Reduce(rooted, Reduce(rooted, stack, a), b)
    decreases a
  {
    if a == [] {
      assert a + b == b;
    } else {
      assert (a + b)[1..] == a[1..] + b;
      ReduceConcat(rooted, Push(rooted, stack, a[0]), a[1..], b);
    }
  }

  /** Reducing segments that are already normal just appends them. */
  lemma {:induction false} ReduceOfNormal(rooted: bool, stack: seq<string>, segs: seq<string>)
    requires Normal(rooted, stack + segs)
    ensures Reduce(rooted, stack, segs) == stack + segs
    decreases segs
  {
    if segs == [] {
      assert stack + segs == stack;
    } else {
      var all := stack + segs;
      assert all[|stack|] == segs[0] && IsSegment(all[|stack|]);
      assert segs[0] == ".." ==> !rooted && (stack != [] ==> all[|stack| - 1] == "..");
      assert Push(rooted, stack, segs[0]) == stack + [segs[0]];
      assert stack + [segs[0]] + segs[1..] == all;
      ReduceOfNormal(rooted, stack + [segs[0]], segs[1..]);
    }
  }

  /** A rendered normal path has the segments it was rendered from. */
  lemma SegmentsOfRender(rooted: bool, segs: seq<string>)
    requires Normal(rooted, segs)
    ensures Rooted(Render(rooted, segs)) == rooted
    ensures Reduce(rooted, [], Split(Render(rooted, segs), '/')) == segs
    ensures segs != [] && !rooted ==> Split(Render(rooted, segs), '/') == segs
  {
    assert forall i :: 0 <= i < |segs| ==> IsSegment(segs[i]);
    assert [] + segs == segs;
    ReduceOfNormal(rooted, [], segs);
    if segs == [] {
      if rooted {
        SplitConcat("", "", '/');
        assert Reduce(rooted, [], ["", ""]) == [] by {
          assert ["", ""][1..] == [""];
        }
        assert Render(rooted, segs) == "" + "/" + "";
      } else {
        DotReduces(rooted, []);
      }
    } else {
      SplitJoin(segs, '/');
      if rooted {
        SplitConcat("", Join(segs, '/'), '/');
        assert Render(rooted, segs) == "" + "/" + Join(segs, '/');
        assert ([""] + segs)[1..] == segs;
      } else {
        JoinStarts(segs);
      }
    }
  }

  lemma JoinStarts(segs: seq<string>)
    requires segs != [] && segs[0] != ""
    ensures |segs[0]| <= |Join(segs, '/')| && Join(segs, '/')[..|segs[0]|] == segs[0]
    ensures Join(segs, '/')[0] == segs[0][0]
  {
  }

  lemma DotReduces(r: bool, stack: seq<string>)
    ensures Reduce(r, stack, Split(".", '/')) == stack
  {
    SplitPart(".", '/');
    var segs: seq<string> := ["."];
    assert segs[1..] == [];
  }

  /** Cleaning is idempotent. */
  lemma CleanTwice(p: string)
    ensures Clean(Clean(p)) == Clean(p) && Segments(Clean(p)) == Segments(p)
    ensures Rooted(Clean(p)) == Rooted(p)
  {
    hide Reduce, Render;
    SegmentsAreNormal(p);
    SegmentsOfRender(Rooted(p), Segments(p));
  }

  /** Joining a path without `..` to a cleaned base appends its segments. */
  lemma JoinAppends(base: string, rel: string)
    requires !Rooted(rel) && ".." !in Segments(rel)
    ensures var full := Clean(JoinPath(Clean(base), Clean(rel)));
            full == Render(Rooted(base), Segments(base) + Segments(rel))
            && Normal(Rooted(base), Segments(base) + Segments(rel))
            && Segments(full) == Segments(base) + Segments(rel)
  {
    hide Reduce, Render, IsSegment;
    var r, s, t := Rooted(base), Segments(base), Segments(rel);
    var a, b := Clean(base), Clean(rel);
    SegmentsAreNormal(base);
    SegmentsAreNormal(rel);
    assert Normal(r, s + t);
    CleanTwice(base);
    CleanTwice(rel);
    SplitConcat(a, b, '/');
    ReduceConcat(r, [], Split(a, '/'), Split(b, '/'));
    assert Rooted(a + "/" + b) == r by {
      NotEmpty(base);
    }
    ReduceAfter(r, s, b, t);
    assert Segments(a + "/" + b) == s + t;
    CleanTwice(a + "/" + b);
  }

  lemma NotEmpty(p: string)
    ensures Clean(p) != ""
  {
    SegmentsAreNormal(p);
    if Segments(p) != [] {
      assert IsSegment(Segments(p)[0]);
      JoinStarts(Segments(p));
    }
  }

  /** Reducing a clean relative path onto a normal stack appends its segments. */
  lemma ReduceAfter(r: bool, s: seq<string>, b: string, t: seq<string>)
    requires Normal(r, s + t) && Normal(false, t) && b == Render(false, t)
    ensures Reduce(r, s, Split(b, '/')) == s + t
  {
    if t == [] {
      DotReduces(r, s);
      assert s + t == s;
    } else {
      SegmentsOfRender(false, t);
      ReduceOfNormal(r, s, t);
    }
  }

  /** Nothing but themselves lies under `/` or `.` by the containment test: the separator it adds
      makes the prefixes `//` and `./`, which no clean path has. */
  lemma NothingUnderRoot(r: bool, t: seq<string>)
    requires Normal(r, t) && t != []
    ensures !StaysUnder(Render(r, []), Render(r, t))
  {
    var first, joined := t[0], Join(t, '/');
    assert IsSegment(first);
    JoinStarts(t);
    assert first[0] in first && joined[0] == first[0];
    assert |first| > 1 ==> joined[1] == first[1] && first[1] in first;
    assert |first| == 1 ==> first == [first[0]];
    if r {
      var full := Render(r, t);
      assert full[1] == joined[0];
      assert Render(r, []) + "/" == "//";
    } else {
      assert |joined| > 1 ==> !(joined[0] == '.' && joined[1] == '/') || |first| == 1;
      assert Render(r, []) + "/" == "./";
    }
  }

  /** The containment test succeeds on an extension of the base exactly when the base is neither
      the root nor the current directory, or nothing was appended. */
  lemma StaysUnderExactly(r: bool, s: seq<string>, t: seq<string>)
    requires Normal(r, s + t)
    ensures StaysUnder(Render(r, s), Render(r, s + t)) <==> s != [] || t == []
  {
    if t == [] {
      assert s + t == s;
    } else if s == [] {
      assert s + t == t;
      NothingUnderRoot(r, t);
    } else {
      JoinOfConcat(s, t);
      assert Render(r, s + t) == Render(r, s) + "/" + Join(t, '/');
    }
  }

  lemma {:induction false} JoinOfConcat(s: seq<string>, t: seq<string>)
    requires s != [] && t != []
    ensures Join(s + t, '/') == Join(s, '/') + "/" + Join(t, '/')
  {
    if |s| == 1 {
      assert (s + t)[1..] == t;
    } else {
      assert (s + t)[1..] == s[1..] + t;
      JoinOfConcat(s[1..], t);
    }
  }

  // ---- What an escape is ----

  /** The depth below the starting directory after walking the segments: names go one down, `..`
      one up, and the walk may leave the start. */
  function Depth(segs: seq<string>): int {
    if segs == [] then 0
    else
      var last := segs[|segs| - 1];
      Depth(segs[..|segs| - 1]) + if last == "" || last == "." then 0 else if last == ".." then -1 else 1
  }

  /** How far above the start the walk ever gets. */
  function Rise(segs: seq<string>): (r: int)
    ensures r >= 0
  {
    if segs == [] then 0
    else
      var before, d := Rise(segs[..|segs| - 1]), -Depth(segs);
      if d > before then d else before
  }

  lemma {:induction false} ReduceLast(segs: seq<string>)
    requires segs != []
    ensures Reduce(false, [], segs)
         == Push(false, Reduce(false, [], segs[..|segs| - 1]), segs[|segs| - 1])
  {
    var init, last := segs[..|segs| - 1], [segs[|segs| - 1]];
    assert segs == init + last;
    ReduceConcat(false, [], init, last);
    assert last[1..] == [];
  }

  /** A relative path reduces to as many `..` as its walk ever rises above the start, followed by
      names. */
  lemma {:induction false} ReduceCountsRise(segs: seq<string>)
    ensures var out, up := Reduce(false, [], segs), Rise(segs);
            && |out| == Depth(segs) + 2 * up && up <= |out|
            && (forall i :: 0 <= i < |out| ==> (out[i] == ".." <==> i < up))
    decreases |segs|
  {
    hide Reduce;
    if segs == [] {
      NothingReduces();
    } else {
      ReduceCountsRise(segs[..|segs| - 1]);
      ReduceLast(segs);
    }
  }

  lemma NothingReduces()
    ensures Reduce(false, [], []) == []
  {
  }

  lemma RiseMeansDotDot(segs: seq<string>)
    ensures ".." in Reduce(false, [], segs) <==> Rise(segs) > 0
  {
    hide Depth;
    ReduceCountsRise(segs);
    if Rise(segs) > 0 {
      assert Reduce(false, [], segs)[0] == "..";
    }
  }

  lemma {:induction false} RiseIsHighest(segs: seq<string>, k: nat)
    requires k <= |segs|
    ensures -Depth(segs[..k]) <= Rise(segs)
    ensures Rise(segs) == 0 || exists j :: 0 <= j <= |segs| && Rise(segs) == -Depth(segs[..j])
    decreases |segs|
  {
    if segs != [] {
      var n := |segs| - 1;
      assert segs[..|segs|] == segs;
      RiseIsHighest(segs[..n], if k <= n then k else n);
      assert forall j :: 0 <= j <= n ==> segs[..n][..j] == segs[..j];
    }
  }

  /** Cleaning leaves a `..` exactly when some prefix of the path climbs above where it started. */
  lemma DotDotMeansClimbs(p: string)
    requires !Rooted(p)
    ensures ".." in Segments(p) <==>
              exists k :: 0 <= k <= |Split(p, '/')| && Depth(Split(p, '/')[..k]) < 0
  {
    hide Reduce, Depth, Rise;
    var segs := Split(p, '/');
    RiseMeansDotDot(segs);
    RiseIsHighest(segs, 0);
    if Rise(segs) > 0 {
      var j :| 0 <= j <= |segs| && Rise(segs) == -Depth(segs[..j]);
      assert Depth(Split(p, '/')[..j]) < 0;
    } else {
      forall k | 0 <= k <= |segs|
        ensures Depth(segs[..k]) >= 0
      {
        RiseIsHighest(segs, k);
      }
    }
  }

  // ---- The theorems ----

  /** Absolute-looking paths are refused as such; of the rest, the check for escapes refuses
      exactly those that climb above their start at some point along the way. */
  lemma RefusedMeansClimbs(composeFile: string)
    ensures var raw := RawOf(composeFile);
            && (ValidateComposeFilePath(composeFile).NotRelative? <==>
                  raw[0] == '/' || raw[0] == '\\' || (|raw| >= 2 && raw[0] < '\U{80}' && raw[1] == ':'))
            && (ValidateComposeFilePath(composeFile).Escapes? <==>
                  !ValidateComposeFilePath(composeFile).NotRelative?
                  && exists k :: 0 <= k <= |Split(raw, '/')| && Depth(Split(raw, '/')[..k]) < 0)
  {
    hide Reduce, Render, TrimSpace, Depth, Split;
    var raw := RawOf(composeFile);
    assert raw != "";
    if !ValidateComposeFilePath(composeFile).NotRelative? {
      assert !Rooted(raw);
      DotDotMeansClimbs(raw);
      SegmentsAreNormal(raw);
      SegmentsOfRender(false, Segments(raw));
      CleanShowsDotDot(raw);
    }
  }

  /** The three textual tests for `..` in a cleaned relative path agree with its segments. */
  lemma CleanShowsDotDot(raw: string)
    requires !Rooted(raw)
    ensures ".." in Split(Clean(raw), '/') <==> ".." in Segments(raw)
    ensures Clean(raw) == ".." || HasPrefix(Clean(raw), "../") ==> ".." in Segments(raw)
  {
    hide Reduce, IsSegment;
    var t, c := Segments(raw), Clean(raw);
    SegmentsAreNormal(raw);
    SegmentsOfRender(false, t);
    if t == [] {
      SplitPart(".", '/');
    }
    if c == ".." {
      SplitPart("..", '/');
    } else if HasPrefix(c, "../") {
      assert c == ".." + "/" + c[3..];
      SplitConcat("..", c[3..], '/');
      SplitPart("..", '/');
    }
  }

  /** An accepted file is the one that was given: its path has the segments of the text, whatever
      white space surrounds it. */
  lemma AcceptedIsTheFile(pre: string, text: string, post: string)
    requires (forall c :: c in pre ==> IsSpace(c)) && forall c :: c in post ==> IsSpace(c)
    requires text != "" && Trimmed(text, IsSpace)
    ensures ValidateComposeFilePath(pre + text + post) == ValidateComposeFilePath(text)
    ensures var v := ValidateComposeFilePath(text);
            v.Ok? ==> Segments(v.path) == Segments(text) && !Rooted(text)
  {
    hide Reduce, Render, Trim, IsSpace;
    TrimOfPadding(pre, text, post, IsSpace);
    TrimTrimmed(text, IsSpace);
    CleanTwice(text);
  }

  /** White space alone stands for `docker-compose.yml`. */
  lemma BlankIsDefault(blank: string)
    requires forall c :: c in blank ==> IsSpace(c)
    ensures ValidateComposeFilePath(blank) == Ok("docker-compose.yml")
    ensures Segments("docker-compose.yml") == ["docker-compose.yml"]
  {
    hide ValidateComposeFilePath, Segments, Clean, IsSegment, IsSpace, Trim;
    TrimOfNothing(blank, IsSpace);
    DefaultIsSegment();
    OneSegment(DEFAULT_FILE);
    PlainNameAccepted(blank, DEFAULT_FILE);
  }

  lemma DefaultIsSegment()
    ensures IsSegment(DEFAULT_FILE) && DEFAULT_FILE != ".."
    ensures DEFAULT_FILE[0] == 'd' && DEFAULT_FILE[1] == 'o'
  {
    assert '/' !in DEFAULT_FILE;
  }

  lemma PlainNameAccepted(composeFile: string, name: string)
    requires RawOf(composeFile) == name && IsSegment(name) && |name| >= 2
    requires name[0] != '\\' && name[1] != ':' && !(name[0] == '.' && name[1] == '.')
    ensures ValidateComposeFilePath(composeFile) == Ok(name)
  {
    hide RawOf, Reduce;
    OneSegment(name);
    SplitPart(name, '/');
    assert name[0] in name;
  }

  /** A name that is a single real segment cleans to itself. */
  lemma OneSegment(name: string)
    requires IsSegment(name) && name != ".."
    ensures Clean(name) == name && Segments(name) == [name] && !Rooted(name)
  {
    SplitPart(name, '/');
    assert name[0] in name;
    var segs: seq<string> := [name];
    assert segs[1..] == [] && [] + segs == segs && Push(false, [], name) == segs;
    assert Reduce(false, [], segs) == Reduce(false, segs, segs[1..]);
  }

  /** So a resolved path is the work directory followed by the given file, segment by segment. */
  lemma ResolvesToTheFile(workDir: string, pre: string, text: string, post: string)
    requires (forall c :: c in pre ==> IsSpace(c)) && forall c :: c in post ==> IsSpace(c)
    requires text != "" && Trimmed(text, IsSpace)
    ensures var r := ResolveComposePath(workDir, pre + text + post);
            r.Ok? ==> Segments(r.path) == Segments(workDir) + Segments(text) && Rooted(r.path) == Rooted(workDir)
  {
    hide ValidateComposeFilePath, ResolveComposePath, Segments, IsSpace;
    AcceptedIsTheFile(pre, text, post);
    ResolveExactly(workDir, pre + text + post);
  }

  /** What an accepted compose file is: a clean relative path none of whose segments is `..`. */
  lemma AcceptedIsInside(composeFile: string)
    requires ValidateComposeFilePath(composeFile).Ok?
    ensures var rel := ValidateComposeFilePath(composeFile).path;
            !Rooted(rel) && Clean(rel) == rel && ".." !in Segments(rel)
  {
    hide Reduce, Render, TrimSpace;
    var raw := RawOf(composeFile);
    assert raw != "" && !Rooted(raw);
    CleanTwice(raw);
    SegmentsAreNormal(raw);
    SegmentsOfRender(false, Segments(raw));
  }

  /** For every work directory and compose file: resolution succeeds exactly when the file is
      accepted and the cleaned work directory is neither `/` nor `.` (or the file is `.`); the
      result then extends the work directory's segments by the file's. */
  lemma {:induction false} ResolveExactly(workDir: string, composeFile: string)
    ensures var v, r := ValidateComposeFilePath(composeFile), ResolveComposePath(workDir, composeFile);
            (r.Ok? <==> v.Ok? && (Clean(workDir) !in {"/", "."} || v.path == "."))
            && (r.Ok? ==> Segments(r.path) == Segments(workDir) + Segments(v.path)
                          && Rooted(r.path) == Rooted(workDir))
  {
    hide Reduce, ValidateComposeFilePath, StaysUnder, JoinPath;
    var v := ValidateComposeFilePath(composeFile);
    if v.Ok? {
      AcceptedIsInside(composeFile);
      ExtendExactly(workDir, v.path);
    }
  }

  lemma ExtendExactly(base: string, rel: string)
    requires !Rooted(rel) && Clean(rel) == rel && ".." !in Segments(rel)
    ensures var full := Clean(JoinPath(Clean(base), rel));
            && (StaysUnder(Clean(base), full) <==> Clean(base) !in {"/", "."} || rel == ".")
            && Segments(full) == Segments(base) + Segments(rel) && Rooted(full) == Rooted(base)
  {
    hide Reduce, StaysUnder, IsSegment;
    JoinAppends(base, rel);
    StaysUnderExactly(Rooted(base), Segments(base), Segments(rel));
    CleanTwice(base);
    RenderedRoot(Rooted(base), Segments(base)) by { SegmentsAreNormal(base); }
    RenderedRoot(false, Segments(rel)) by { SegmentsAreNormal(rel); }
    SegmentsOfRender(Rooted(base), Segments(base) + Segments(rel));
  }

  lemma RenderedRoot(r: bool, s: seq<string>)
    requires Normal(r, s)
    ensures Render(r, s) in {"/", "."} <==> s == []
    ensures !r ==> (Render(r, s) == "." <==> s == [])
  {
    if s != [] {
      assert IsSegment(s[0]);
      JoinStarts(s);
      assert s[0][0] in s[0];
      assert |s[0]| == 1 ==> s[0] == [s[0][0]];
      var x := Render(r, s);
      if r {
        assert |x| > 1;
      } else {
        assert x[0] == s[0][0] && x[..|s[0]|] == s[0];
        assert x != "/";
        assert |x| == 1 ==> |s[0]| == 1 && s[0] == x;
      }
    } else {
      assert Render(r, s) == if r then "/" else ".";
    }
  }

  /** UUIDs and slugs are valid; a name with a dot, a slash, white space or any other character is
      not. */
  lemma ValidIdExactly(id: string)
    ensures ValidateID(id) <==>
              id != "" && forall c :: c in id ==>
                c in "ABCDEFGHIJKLMNOPQRSTUVWXYZ" || c in "abcdefghijklmnopqrstuvwxyz" || c in "0123456789" || c in "_-"
  {
    LetterClasses();
  }

  lemma LetterClasses()
    ensures forall c :: c in "ABCDEFGHIJKLMNOPQRSTUVWXYZ" <==> 'A' <= c <= 'Z'
    ensures forall c :: c in "abcdefghijklmnopqrstuvwxyz" <==> 'a' <= c <= 'z'
    ensures forall c :: c in "0123456789" <==> '0' <= c <= '9'
  {
  }

  /** A validated name always resolves to the base plus that one segment, unless the base cleans to
      `/` or `.`, when it never does. */
  lemma {:induction false} SafeSubdirExactly(base: string, prefix: string, id: string)
    requires ValidateID(id) && (prefix == "" || ValidateID(prefix))
    ensures var r := SafeSubdir(base, prefix + id);
            (r.Ok? <==> Clean(base) !in {"/", "."})
            && (r.Ok? ==> Segments(r.path) == Segments(base) + [prefix + id] && Rooted(r.path) == Rooted(base))
  {
    hide StaysUnder, JoinPath;
    var name := prefix + id;
    assert ValidateID(name) && name[0] in name;
    SplitPart(name, '/');
    var segs: seq<string> := [name];
    assert segs[1..] == [] && IsIdChar(name[0]);
    assert [] + segs == segs && Push(false, [], name) == segs;
    assert Reduce(false, [], segs) == Reduce(false, segs, segs[1..]);
    assert !Rooted(name) && Split(name, '/') == segs;
    assert Segments(name) == segs;
    assert Clean(name) == name;
    ExtendExactly(base, name);
  }
}
