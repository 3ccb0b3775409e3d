/**
 * The requirement-list and wheel-metadata rewriting of the wheel builder:
 * reading `requirements*.txt` files with their `-r` includes, keeping the first
 * requirement per normalised project name, the `pip wheel` command line, and the
 * patches applied to the built wheels (dropping `Requires-Dist` lines from the
 * metadata, and two literal source-code rewrites).
 *
 * Files are a map from resolved path to text; a wheel is its member names and
 * the text of each member.
 */
module BuildWheels {
  import opened Wrappers
  import opened Text

  /** The exceptions reading the requirement files raises. */
  datatype BuildError =
    | FileNotFound(path: string)     // `read_text` of a missing file
    | IndexError(line: string)       // a `-r` line with no path after it
    | RecursionError(path: string)   // includes nested deeper than the interpreter allows

  // ---------------------------------------------------------------------------
  // Constants

  /** Extra wheels built with CPython but not pinned in the requirement files. */
  const CPythonRequirements: seq<string> := [
    "pykerberos==1.2.1",
    "redis==3.5.3",
    "mesos.interface==0.21.1",
    "compactor==0.2.2",
    "trollius==2.1.post2",
    "tornado==4.1"
  ]

  /** The dependencies to drop from a package's metadata, in the dictionary's order. */
  const PatchRequires: seq<(string, seq<string>)> := [
    ("pesos", ["futures", "compactor"]),
    ("twitter_common_concurrent", ["futures"]),
    ("compactor", ["protobuf"]),
    ("mesos.interface", ["protobuf"])
  ]

  // ---------------------------------------------------------------------------
  // parse_requirements

  /** Success of `a` then `b`: the concatenated lists, or the first failure. */
  function Then(a: Result<seq<string>, BuildError>, b: Result<seq<string>, BuildError>): (r: Result<seq<string>, BuildError>)
    ensures a.Failure? ==> r == a
    ensures a.Success? && b.Failure? ==> r == b
    ensures a.Success? && b.Success? ==> r == Success(a.value + b.value)
  {
    if a.Failure? then a
    else if b.Failure? then b
    else Success(a.value + b.value)
  }

  lemma ThenAssoc(x: Result<seq<string>, BuildError>, y: Result<seq<string>, BuildError>, z: Result<seq<string>, BuildError>)
    ensures Then(Then(x, y), z) == Then(x, Then(y, z))
  {
    if x.Success? && y.Success? && z.Success? {
      assert (x.value + y.value) + z.value == x.value + (y.value + z.value);
    }
  }

  lemma ThenEmpty(x: Result<seq<string>, BuildError>)
    ensures Then(Success([]), x) == x
  {
    if x.Success? {
      assert [] + x.value == x.value;
    }
  }

  /** The path of a `-r` line: what follows the first run of whitespace, or `None` when nothing does. */
  function IncludedPath(line: string): (r: Option<string>)
    ensures r.Some? ==> |r.value| < |line|
  {
    var token := PrefixBefore(line, IsSpace);
    if |token| == |line| then None
    else
      LStripShortens(line[|token|..]);
      Some(LStrip(line[|token|..]))
  }

  /** What one line of a requirement file is, once stripped. */
  datatype Line =
    | Skip                                    // blank, or a `#` comment
    | Include(line: string, nested: Option<string>)  // a `-r` line and the path after it, if any
    | Requirement(text: string)

  /** The lines `parse_requirements` keeps as requirements. */
  predicate IsRequirement(x: string) {
    x != "" && Strip(x) == x && !StartsWith(x, "#") && !StartsWith(x, "-r")
  }

  /** The stripped line decides: blank or comment, include, or requirement. */
  function Classify(raw: string): Line {
    var line := Strip(raw);
    if line == "" || StartsWith(line, "#") then Skip
    else if StartsWith(line, "-r") then Include(line, IncludedPath(line))
    else Requirement(line)
  }

  /** A requirement line is kept stripped, and an include carries the path after its `-r`. */
  lemma ClassifySpec(raw: string)
    ensures var l := Classify(raw);
      && (l.Requirement? ==> IsRequirement(l.text) && l.text == Strip(raw))
      && (l.Include? ==> l.line == Strip(raw) && StartsWith(l.line, "-r") && l.nested == IncludedPath(l.line))
      && (l.Skip? <==> Strip(raw) == "" || StartsWith(Strip(raw), "#"))
  {
    var line := Strip(raw);
    StripIdempotent(raw);
    if line == "" || StartsWith(line, "#") {
      assert Classify(raw) == Skip;
    } else if StartsWith(line, "-r") {
      assert Classify(raw) == Include(line, IncludedPath(line));
    } else {
      assert Classify(raw) == Requirement(line);
    }
  }

  /**
   * `parse_requirements` of the file at `path`. `resolve(path, nested)` stands
   * for `(path.parent / nested).resolve()`; `fuel` is the depth of includes the
   * interpreter's recursion limit allows.
   */
  function ParseFile(files: map<string, string>, resolve: (string, string) -> string, path: string, fuel: nat)
    : Result<seq<string>, BuildError>
    decreases fuel, 0
  {
    if fuel == 0 then Failure(RecursionError(path))
    else if path !in files then Failure(FileNotFound(path))
    else ParseLines(files, resolve, path, SplitLines(files[path]), fuel - 1)
  }

  /** The requirements of the lines of the file at `path`, line by line. */
  function ParseLines(files: map<string, string>, resolve: (string, string) -> string, path: string,
                      lines: seq<string>, fuel: nat): Result<seq<string>, BuildError>
    decreases fuel, 1, |lines|
  {
    if lines == [] then Success([])
    else Then(ParseLine(files, resolve, path, Classify(lines[0]), fuel), ParseLines(files, resolve, path, lines[1..], fuel))
  }

  /** The requirements one line contributes: none, itself, or those of the included file. */
  function ParseLine(files: map<string, string>, resolve: (string, string) -> string, path: string,
                     l: Line, fuel: nat): Result<seq<string>, BuildError>
    decreases fuel, 1, 0
  {
    match l
    case Skip => Success([])
    case Requirement(text) => Success([text])
    case Include(line, nested) =>
      if nested.None? then Failure(IndexError(line)) else ParseFile(files, resolve, resolve(path, nested.value), fuel)
  }

  /** Lines split at a boundary parse to the concatenation of the two parts' requirements. */
  lemma {:induction false} ParseLinesAppend(files: map<string, string>, resolve: (string, string) -> string, path: string,
                                             a: seq<string>, b: seq<string>, fuel: nat)
    ensures ParseLines(files, resolve, path, a + b, fuel)
      == Then(ParseLines(files, resolve, path, a, fuel), ParseLines(files, resolve, path, b, fuel))
    decreases |a|
  {
    if a == [] {
      assert a + b == b;
      ThenEmpty(ParseLines(files, resolve, path, b, fuel));
    } else {
      assert (a + b)[0] == a[0] && (a + b)[1..] == a[1..] + b;
      ParseLinesAppend(files, resolve, path, a[1..], b, fuel);
      ThenAssoc(ParseLine(files, resolve, path, Classify(a[0]), fuel), ParseLines(files, resolve, path, a[1..], fuel),
                ParseLines(files, resolve, path, b, fuel));
    }
  }

  lemma ParseOneLine(files: map<string, string>, resolve: (string, string) -> string, path: string, raw: string, fuel: nat)
    ensures ParseLines(files, resolve, path, [raw], fuel) == ParseLine(files, resolve, path, Classify(raw), fuel)
  {
    assert [raw][1..] == [];
    var x := ParseLine(files, resolve, path, Classify(raw), fuel);
    if x.Success? {
      assert x.value + [] == x.value;
    }
  }

  /** A `-r` line is replaced in place by the included file's requirements. */
  lemma IncludeInPlace(files: map<string, string>, resolve: (string, string) -> string, path: string,
                       a: seq<string>, inc: string, b: seq<string>, fuel: nat)
    requires Classify(inc).Include? && Classify(inc).nested.Some?
    ensures ParseLines(files, resolve, path, a + [inc] + b, fuel)
      == Then(Then(ParseLines(files, resolve, path, a, fuel),
                   ParseFile(files, resolve, resolve(path, Classify(inc).nested.value), fuel)),
              ParseLines(files, resolve, path, b, fuel))
  {
    ParseLinesAppend(files, resolve, path, a + [inc], b, fuel);
    ParseLinesAppend(files, resolve, path, a, [inc], fuel);
    ParseOneLine(files, resolve, path, inc, fuel);
  }

  /** A successful read whose every requirement is a stripped, non-blank line that is neither a comment nor an include. */
  predicate Clean(r: Result<seq<string>, BuildError>) {
    r.Success? ==> forall k :: 0 <= k < |r.value| ==> IsRequirement(r.value[k])
  }

  lemma ThenClean(a: Result<seq<string>, BuildError>, b: Result<seq<string>, BuildError>)
    requires Clean(a) && Clean(b)
    ensures Clean(Then(a, b))
  {
    if a.Success? && b.Success? {
      var v := a.value + b.value;
      forall k | 0 <= k < |v|
        ensures IsRequirement(v[k])
      {
        if k >= |a.value| {
          assert v[k] == b.value[k - |a.value|];
        }
      }
    }
  }

  /** Every requirement read is a stripped, non-blank line that is neither a comment nor an include. */
  lemma {:induction false} ParseFileClean(files: map<string, string>, resolve: (string, string) -> string, path: string, fuel: nat)
    ensures Clean(ParseFile(files, resolve, path, fuel))
    decreases fuel, 0
  {
    if fuel > 0 && path in files {
      ParseLinesClean(files, resolve, path, SplitLines(files[path]), fuel - 1);
    }
  }

  lemma {:induction false} ParseLinesClean(files: map<string, string>, resolve: (string, string) -> string, path: string,
                                            lines: seq<string>, fuel: nat)
    ensures Clean(ParseLines(files, resolve, path, lines, fuel))
    decreases fuel, 1, |lines|
  {
    if lines != [] {
      ParseLineClean(files, resolve, path, lines[0], fuel);
      ParseLinesClean(files, resolve, path, lines[1..], fuel);
      ThenClean(ParseLine(files, resolve, path, Classify(lines[0]), fuel), ParseLines(files, resolve, path, lines[1..], fuel));
    }
  }

  lemma {:induction false} ParseLineClean(files: map<string, string>, resolve: (string, string) -> string, path: string,
                                           raw: string, fuel: nat)
    ensures Clean(ParseLine(files, resolve, path, Classify(raw), fuel))
    decreases fuel, 1, 0
  {
    var l := Classify(raw);
    ClassifySpec(raw);
    if l.Include? && l.nested.Some? {
      ParseFileClean(files, resolve, resolve(path, l.nested.value), fuel);
    }
  }

  /** `-r name` with a name free of whitespace at its ends is an include of that name. */
  lemma ClassifyInclude(nested: string)
    requires nested != [] && !IsSpace(nested[0]) && !IsSpace(nested[|nested| - 1])
    ensures Classify("-r " + nested) == Include("-r " + nested, Some(nested))
  {
    IncludeLineSplit(nested);
    IncludeLineStarts(nested);
    IncludeLineStripped(nested);
    IncludeLinePath(nested);
  }

  lemma IncludeLineSplit(nested: string)
    ensures "-r " + nested == "-r" + (" " + nested)
  {
  }

  lemma IncludeLineStarts(nested: string)
    ensures StartsWith("-r" + (" " + nested), "-r") && !StartsWith("-r" + (" " + nested), "#")
  {
    var line := "-r" + (" " + nested);
    assert line[..2] == "-r";
    assert line[..1][0] == '-';
  }

  lemma IncludeLineStripped(nested: string)
    requires nested != [] && !IsSpace(nested[|nested| - 1])
    ensures Strip("-r" + (" " + nested)) == "-r" + (" " + nested)
  {
    var line := "-r" + (" " + nested);
    assert line[|line| - 1] == nested[|nested| - 1];
    assert !IsSpace('-');
    StripUnspaced(line);
  }

  lemma IncludeLinePath(nested: string)
    requires nested != [] && !IsSpace(nested[0])
    ensures IncludedPath("-r" + (" " + nested)) == Some(nested)
  {
    var line := "-r" + (" " + nested);
    var tail := " " + nested;
    assert !IsSpace('-') && !IsSpace('r') && IsSpace(' ');
    PrefixBeforeConcat("-r", tail, IsSpace);
    assert line[|"-r"|..] == tail;
    assert tail[1..] == nested;
    assert LStrip(tail) == LStrip(nested);
    assert LStrip(nested) == nested;
  }

  /** One line of the loop in `parse_requirements`: what the requirements read so far become. */
  lemma ParseStep(files: map<string, string>, resolve: (string, string) -> string, path: string,
                  lines: seq<string>, i: nat, fuel: nat, reqs: seq<string>)
    requires i < |lines|
    ensures var rest := ParseLines(files, resolve, path, lines[i + 1..], fuel);
      Then(Success(reqs), ParseLines(files, resolve, path, lines[i..], fuel))
        == Then(Then(Success(reqs), ParseLine(files, resolve, path, Classify(lines[i]), fuel)), rest)
  {
    assert lines[i..][0] == lines[i] && lines[i..][1..] == lines[i + 1..];
    ThenAssoc(Success(reqs), ParseLine(files, resolve, path, Classify(lines[i]), fuel),
              ParseLines(files, resolve, path, lines[i + 1..], fuel));
  }

  /** A blank or comment line contributes nothing. */
  lemma ParseSkipLine(files: map<string, string>, resolve: (string, string) -> string, path: string, raw: string, fuel: nat)
    requires Strip(raw) == "" || StartsWith(Strip(raw), "#")
    ensures ParseLine(files, resolve, path, Classify(raw), fuel) == Success([])
  {
    assert Classify(raw) == Skip;
  }

  /** An include line without a path fails on the split; otherwise it contributes the included file. */
  lemma ParseIncludeLine(files: map<string, string>, resolve: (string, string) -> string, path: string, raw: string, fuel: nat)
    requires Strip(raw) != "" && !StartsWith(Strip(raw), "#") && StartsWith(Strip(raw), "-r")
    ensures var line := Strip(raw);
      ParseLine(files, resolve, path, Classify(raw), fuel)
        == if IncludedPath(line).None? then Failure(IndexError(line))
           else ParseFile(files, resolve, resolve(path, IncludedPath(line).value), fuel)
  {
    assert Classify(raw) == Include(Strip(raw), IncludedPath(Strip(raw)));
  }

  /** Any other line contributes itself, stripped. */
  lemma ParseRequirementLine(files: map<string, string>, resolve: (string, string) -> string, path: string, raw: string, fuel: nat)
    requires Strip(raw) != "" && !StartsWith(Strip(raw), "#") && !StartsWith(Strip(raw), "-r")
    ensures ParseLine(files, resolve, path, Classify(raw), fuel) == Success([Strip(raw)])
  {
    assert Classify(raw) == Requirement(Strip(raw));
  }

  /** The body of the loop in `parse_requirements`: what one raw line contributes. */
  method ReadLine(files: map<string, string>, resolve: (string, string) -> string, path: string, raw: string, fuel: nat)
    returns (r: Result<seq<string>, BuildError>)
    ensures r == ParseLine(files, resolve, path, Classify(raw), fuel)
    decreases fuel + 1, 0
  {
    var line := Strip(raw);
    if line == "" || StartsWith(line, "#") {
      ParseSkipLine(files, resolve, path, raw, fuel);
      return Success([]);
    }
    if StartsWith(line, "-r") {
      ParseIncludeLine(files, resolve, path, raw, fuel);
      var nested := IncludedPath(line);
      if nested.None? {
        return Failure(IndexError(line));
      }
      r := ParseRequirements(files, resolve, resolve(path, nested.value), fuel);
      return;
    }
    ParseRequirementLine(files, resolve, path, raw, fuel);
    return Success([line]);
  }

  /** `parse_requirements`: read the file line by line, reading included files recursively. */
  method ParseRequirements(files: map<string, string>, resolve: (string, string) -> string, path: string, fuel: nat)
    returns (r: Result<seq<string>, BuildError>)
    ensures r == ParseFile(files, resolve, path, fuel)
    decreases fuel, 2
  {
    ParseFileCases(files, resolve, path, fuel);
    if fuel == 0 {
      return Failure(RecursionError(path));
    }
    if path !in files {
      return Failure(FileNotFound(path));
    }
    r := ReadLines(files, resolve, path, SplitLines(files[path]), fuel - 1);
  }

  /** Out of fuel is a recursion error, a missing file is not found, and a present file contributes its lines. */
  lemma ParseFileCases(files: map<string, string>, resolve: (string, string) -> string, path: string, fuel: nat)
    ensures fuel == 0 ==> ParseFile(files, resolve, path, fuel) == Failure(RecursionError(path))
    ensures fuel > 0 && path !in files ==> ParseFile(files, resolve, path, fuel) == Failure(FileNotFound(path))
    ensures fuel > 0 && path in files ==>
      ParseFile(files, resolve, path, fuel) == ParseLines(files, resolve, path, SplitLines(files[path]), fuel - 1)
  {
  }

  /** The loop of `parse_requirements` over the lines of one file. */
  method ReadLines(files: map<string, string>, resolve: (string, string) -> string, path: string,
                   lines: seq<string>, fuel: nat) returns (r: Result<seq<string>, BuildError>)
    ensures r == ParseLines(files, resolve, path, lines, fuel)
    decreases fuel + 1, 1
  {
    ghost var total := ParseLines(files, resolve, path, lines, fuel);
    var reqs: seq<string> := [];
    var i := 0;
    assert lines[i..] == lines;
    ThenEmpty(total);
    ghost var todo := total;
    while i < |lines|
      invariant 0 <= i <= |lines|
      invariant todo == ParseLines(files, resolve, path, lines[i..], fuel)
      invariant total == Then(Success(reqs), todo)
    {
      ghost var rest := ParseLines(files, resolve, path, lines[i + 1..], fuel);
      ParseStep(files, resolve, path, lines, i, fuel, reqs);
      var here := ReadLine(files, resolve, path, lines[i], fuel);
      if here.Failure? {
        return Failure(here.error);
      }
      reqs := reqs + here.value;
      todo := rest;
      i := i + 1;
      assert todo == ParseLines(files, resolve, path, lines[i..], fuel);
    }
    assert lines[i..] == [];
    assert reqs + [] == reqs;
    return Success(reqs);
  }

  // ---------------------------------------------------------------------------
  // The requirement list of `main`

  /** The requirements of the given files in order, followed by `CPYTHON_REQUIREMENTS`. */
  function Collected(files: map<string, string>, resolve: (string, string) -> string, reqFiles: seq<string>, fuel: nat)
    : (r: Result<seq<string>, BuildError>)
    ensures r.Success? ==>
      |r.value| >= |CPythonRequirements| && r.value[|r.value| - |CPythonRequirements|..] == CPythonRequirements
    decreases |reqFiles|
  {
    if reqFiles == [] then Success(CPythonRequirements)
    else Then(ParseFile(files, resolve, reqFiles[0], fuel), Collected(files, resolve, reqFiles[1..], fuel))
  }

  /** `main`'s reading loop: every requirement file, then the extra CPython requirements. */
  method CollectRequirements(files: map<string, string>, resolve: (string, string) -> string, reqFiles: seq<string>, fuel: nat)
    returns (r: Result<seq<string>, BuildError>)
    ensures r == Collected(files, resolve, reqFiles, fuel)
  {
    var reqs: seq<string> := [];
    var i := 0;
    assert reqFiles[i..] == reqFiles;
    ThenEmpty(Collected(files, resolve, reqFiles, fuel));
    while i < |reqFiles|
      invariant 0 <= i <= |reqFiles|
      invariant Collected(files, resolve, reqFiles, fuel) == Then(Success(reqs), Collected(files, resolve, reqFiles[i..], fuel))
    {
      assert reqFiles[i..][0] == reqFiles[i] && reqFiles[i..][1..] == reqFiles[i + 1..];
      ThenAssoc(Success(reqs), ParseFile(files, resolve, reqFiles[i], fuel), Collected(files, resolve, reqFiles[i + 1..], fuel));
      var sub := ParseRequirements(files, resolve, reqFiles[i], fuel);
      if sub.Failure? {
        return Failure(sub.error);
      }
      reqs := reqs + sub.value;
      i := i + 1;
    }
    return Success(reqs + CPythonRequirements);
  }

  // ---------------------------------------------------------------------------
  // normalize_req and the first-occurrence filter

  /** The characters of the class `[<=>\\s]` as written: `<`, `=`, `>`, a backslash and the letter `s`. */
  predicate NameStop(c: char) {
    c == '<' || c == '=' || c == '>' || c == '\\' || c == 's'
  }

  /** `normalize_req`: the text before the first character of the class, lower-cased, `_` made `-`. */
  function NormalizeReq(req: string): (r: string)
    ensures |r| <= |req|
    ensures forall i :: 0 <= i < |r| ==> !NameStop(req[i]) && r[i] == (if LowerChar(req[i]) == '_' then '-' else LowerChar(req[i]))
    ensures |r| < |req| ==> NameStop(req[|r|])
  {
    ReplaceChar(Lower(PrefixBefore(req, NameStop)), '_', '-')
  }

  /** The name is the text before the first character of the class, lower-cased. */
  lemma NormalizeConcat(name: string, rest: string)
    requires (forall j :: 0 <= j < |name| ==> !NameStop(name[j])) && (rest != [] ==> NameStop(rest[0]))
    ensures NormalizeReq(name + rest) == ReplaceChar(Lower(name), '_', '-')
  {
    PrefixBeforeConcat(name, rest, NameStop);
  }

  /** The letter `s` ends the name: `redis==3.5.3` is the project `redi`. */
  lemma NormalizeRedis()
    ensures NormalizeReq("redi" + "s==3.5.3") == "redi"
  {
    NormalizeConcat("redi", "s==3.5.3");
    ReplaceCharAbsent("redi", '_', '-');
  }

  /** Upper case is lowered: `Tornado==4.1` is the project `tornado`. */
  lemma NormalizeTornado()
    ensures NormalizeReq("Tornado" + "==4.1") == "tornado"
  {
    NormalizeConcat("Tornado", "==4.1");
    assert Lower("Tornado") == "tornado";
    ReplaceCharAbsent("tornado", '_', '-');
  }

  /** `mesos.interface==0.21.1` is cut at its first `s`: the project `me`. */
  lemma NormalizeMesos()
    ensures NormalizeReq("me" + "sos.interface==0.21.1") == "me"
  {
    NormalizeConcat("me", "sos.interface==0.21.1");
    ReplaceCharAbsent("me", '_', '-');
  }

  /** Every requirement starting with a lower-case `s` has the empty name; an upper-case `S` is lowered only afterwards. */
  lemma LowerSNamesEmpty(req: string)
    requires req != [] && req[0] == 's'
    ensures NormalizeReq(req) == ""
  {
  }

  /** The names normalisation gives. */
  function Keys(reqs: seq<string>): set<string>
    decreases |reqs|
  {
    if reqs == [] then {} else {NormalizeReq(reqs[0])} + Keys(reqs[1..])
  }

  /** A name is among the keys exactly when some requirement normalises to it. */
  lemma {:induction false} KeysSpec(reqs: seq<string>, x: string)
    ensures x in Keys(reqs) <==> exists k :: 0 <= k < |reqs| && NormalizeReq(reqs[k]) == x
    decreases |reqs|
  {
    if reqs != [] {
      KeysSpec(reqs[1..], x);
      if x in Keys(reqs[1..]) {
        var k :| 0 <= k < |reqs[1..]| && NormalizeReq(reqs[1..][k]) == x;
        assert reqs[k + 1] == reqs[1..][k];
      }
      if exists k :: 0 <= k < |reqs| && NormalizeReq(reqs[k]) == x {
        var k :| 0 <= k < |reqs| && NormalizeReq(reqs[k]) == x;
        if k > 0 {
          assert reqs[1..][k - 1] == reqs[k];
        }
      }
    }
  }

  /** The requirements whose name is neither in `seen` nor taken by an earlier requirement. */
  function Fresh(reqs: seq<string>, seen: set<string>): seq<string>
    decreases |reqs|
  {
    if reqs == [] then []
    else
      var key := NormalizeReq(reqs[0]);
      if key in seen then Fresh(reqs[1..], seen) else [reqs[0]] + Fresh(reqs[1..], seen + {key})
  }

  /** `xs` is `ys` with some elements left out. */
  predicate Subsequence(xs: seq<string>, ys: seq<string>)
    decreases |ys|
  {
    if xs == [] then true
    else if ys == [] then false
    else (xs[0] == ys[0] && Subsequence(xs[1..], ys[1..])) || Subsequence(xs, ys[1..])
  }

  /** The kept requirements appear in the input, in the same order. */
  lemma {:induction false} FreshSubsequence(reqs: seq<string>, seen: set<string>)
    ensures Subsequence(Fresh(reqs, seen), reqs)
    decreases |reqs|
  {
    if reqs != [] {
      var key := NormalizeReq(reqs[0]);
      if key in seen {
        FreshSubsequence(reqs[1..], seen);
        SubsequenceDrop(Fresh(reqs[1..], seen), reqs);
      } else {
        FreshSubsequence(reqs[1..], seen + {key});
        var f := [reqs[0]] + Fresh(reqs[1..], seen + {key});
        assert f[1..] == Fresh(reqs[1..], seen + {key});
      }
    }
  }

  lemma SubsequenceDrop(xs: seq<string>, ys: seq<string>)
    requires ys != [] && Subsequence(xs, ys[1..])
    ensures Subsequence(xs, ys)
  {
  }

  /** No requirement of `f` has a name in `seen`. */
  predicate NamesAvoid(f: seq<string>, seen: set<string>) {
    forall k :: 0 <= k < |f| ==> NormalizeReq(f[k]) !in seen
  }

  /** The requirements of `f` have pairwise distinct names. */
  predicate NamesDistinct(f: seq<string>) {
    forall j, k :: 0 <= j < k < |f| ==> NormalizeReq(f[j]) != NormalizeReq(f[k])
  }

  /** A requirement with a new name, in front of requirements avoiding it, keeps the names distinct. */
  lemma NamesCons(x: string, rest: seq<string>, seen: set<string>)
    requires NormalizeReq(x) !in seen
    requires NamesAvoid(rest, seen + {NormalizeReq(x)}) && NamesDistinct(rest)
    ensures NamesAvoid([x] + rest, seen) && NamesDistinct([x] + rest)
  {
    var f := [x] + rest;
    forall k | 0 <= k < |f|
      ensures NormalizeReq(f[k]) !in seen
    {
      if k > 0 {
        assert f[k] == rest[k - 1];
      }
    }
    forall j, k | 0 <= j < k < |f|
      ensures NormalizeReq(f[j]) != NormalizeReq(f[k])
    {
      assert f[k] == rest[k - 1];
      if j > 0 {
        assert f[j] == rest[j - 1];
      }
    }
  }

  /** The kept requirements have pairwise distinct names, none of them in `seen`. */
  lemma {:induction false} FreshDistinct(reqs: seq<string>, seen: set<string>)
    ensures NamesAvoid(Fresh(reqs, seen), seen) && NamesDistinct(Fresh(reqs, seen))
    decreases |reqs|
  {
    if reqs != [] {
      var key := NormalizeReq(reqs[0]);
      if key in seen {
        FreshDistinct(reqs[1..], seen);
        assert Fresh(reqs, seen) == Fresh(reqs[1..], seen);
      } else {
        var rest := Fresh(reqs[1..], seen + {key});
        FreshDistinct(reqs[1..], seen + {key});
        assert Fresh(reqs, seen) == [reqs[0]] + rest;
        NamesCons(reqs[0], rest, seen);
      }
    }
  }

  /** Every name of the input not in `seen` keeps one requirement. */
  lemma {:induction false} FreshCovers(reqs: seq<string>, seen: set<string>)
    ensures Keys(Fresh(reqs, seen)) == Keys(reqs) - seen
    decreases |reqs|
  {
    if reqs != [] {
      var key := NormalizeReq(reqs[0]);
      if key in seen {
        FreshCovers(reqs[1..], seen);
      } else {
        FreshCovers(reqs[1..], seen + {key});
        var f := [reqs[0]] + Fresh(reqs[1..], seen + {key});
        assert f[1..] == Fresh(reqs[1..], seen + {key});
      }
    }
  }

  /** Filtering a concatenation filters the first part, then the second part against the first part's names. */
  lemma {:induction false} FreshAppend(a: seq<string>, b: seq<string>, seen: set<string>)
    ensures Fresh(a + b, seen) == Fresh(a, seen) + Fresh(b, seen + Keys(a))
    decreases |a|
  {
    if a == [] {
      assert a + b == b;
      assert seen + Keys(a) == seen;
    } else {
      var key := NormalizeReq(a[0]);
      assert (a + b)[0] == a[0] && (a + b)[1..] == a[1..] + b;
      if key in seen {
        FreshAppend(a[1..], b, seen);
        assert seen + Keys(a) == seen + Keys(a[1..]);
      } else {
        FreshAppend(a[1..], b, seen + {key});
        assert seen + {key} + Keys(a[1..]) == seen + Keys(a);
      }
    }
  }

  /** Names starting with `s` collide: only the first of them survives. */
  lemma SNamesCollide()
    ensures Fresh(["six==1.16.0", "setuptools>=40"], {}) == ["six==1.16.0"]
  {
    LowerSNamesEmpty("six==1.16.0");
    LowerSNamesEmpty("setuptools>=40");
    var rest := ["six==1.16.0", "setuptools>=40"][1..];
    assert Fresh(rest[1..], {""}) == [];
  }

  /** `main`'s de-dup loop: keep the first requirement of every name. */
  method Dedup(reqs: seq<string>) returns (filtered: seq<string>)
    ensures filtered == Fresh(reqs, {})
  {
    var seen: set<string> := {};
    filtered := [];
    var i := 0;
    while i < |reqs|
      invariant 0 <= i <= |reqs|
      invariant filtered + Fresh(reqs[i..], seen) == Fresh(reqs, {})
    {
      var key := NormalizeReq(reqs[i]);
      DedupStep(reqs, i, seen, filtered, Fresh(reqs, {}));
      if key in seen {
        i := i + 1;
        continue;
      }
      seen := seen + {key};
      filtered := filtered + [reqs[i]];
      i := i + 1;
    }
    assert reqs[i..] == [];
  }

  /** One step of the de-dup loop keeps what is filtered, followed by what is still to come, equal to the result. */
  lemma DedupStep(reqs: seq<string>, i: nat, seen: set<string>, filtered: seq<string>, total: seq<string>)
    requires i < |reqs| && filtered + Fresh(reqs[i..], seen) == total
    ensures var key := NormalizeReq(reqs[i]);
      && (key in seen ==> filtered + Fresh(reqs[i + 1..], seen) == total)
      && (key !in seen ==> (filtered + [reqs[i]]) + Fresh(reqs[i + 1..], seen + {key}) == total)
  {
    FreshStep(reqs, i, seen);
    var key := NormalizeReq(reqs[i]);
    if key !in seen {
      var rest := Fresh(reqs[i + 1..], seen + {key});
      assert filtered + ([reqs[i]] + rest) == (filtered + [reqs[i]]) + rest;
    }
  }

  /** One step of `Fresh` at position `i`. */
  lemma FreshStep(reqs: seq<string>, i: nat, seen: set<string>)
    requires i < |reqs|
    ensures var key := NormalizeReq(reqs[i]);
      Fresh(reqs[i..], seen)
        == if key in seen then Fresh(reqs[i + 1..], seen) else [reqs[i]] + Fresh(reqs[i + 1..], seen + {key})
  {
    assert reqs[i..][1..] == reqs[i + 1..];
  }

  /**
   * The requirements `main` hands to pip: the first per name of the files'
   * requirements, then the CPython extras whose names the files did not take.
   */
  lemma FilesBeforeExtras(fileReqs: seq<string>)
    ensures Fresh(fileReqs + CPythonRequirements, {})
      == Fresh(fileReqs, {}) + Fresh(CPythonRequirements, Keys(fileReqs))
  {
    FreshAppend(fileReqs, CPythonRequirements, {});
    assert {} + Keys(fileReqs) == Keys(fileReqs);
  }

  /** `main` up to pip: read, append the extras, de-duplicate. */
  method Requirements(files: map<string, string>, resolve: (string, string) -> string, reqFiles: seq<string>, fuel: nat)
    returns (r: Result<seq<string>, BuildError>)
    ensures Collected(files, resolve, reqFiles, fuel).Failure? ==> r == Collected(files, resolve, reqFiles, fuel)
    ensures Collected(files, resolve, reqFiles, fuel).Success? ==>
      r == Success(Fresh(Collected(files, resolve, reqFiles, fuel).value, {}))
  {
    var all := CollectRequirements(files, resolve, reqFiles, fuel);
    if all.Failure? {
      return all;
    }
    var filtered := Dedup(all.value);
    return Success(filtered);
  }

  // ---------------------------------------------------------------------------
  // run_pip_wheel

  /**
   * The command `run_pip_wheel` runs, if any: none for no requirements,
   * otherwise `pip wheel --no-deps` into the wheel directory with every
   * requirement as an argument.
   */
  function PipCommand(executable: string, wheelDir: string, reqs: seq<string>): (r: Option<seq<string>>)
    ensures r.None? <==> reqs == []
    ensures r.Some? ==>
      |r.value| == 7 + |reqs| && r.value[7..] == reqs &&
      r.value[..7] == [executable, "-m", "pip", "wheel", "--no-deps", "-w", wheelDir]
  {
    if reqs == [] then None
    else Some([executable, "-m", "pip", "wheel", "--no-deps", "-w", wheelDir] + reqs)
  }

  // ---------------------------------------------------------------------------
  // The metadata patch

  /** The `Requires-Dist` line prefixes of the dependencies to drop. */
  function Prefixes(deps: seq<string>): (r: seq<string>)
    ensures |r| == |deps| && forall k :: 0 <= k < |deps| ==> r[k] == "Requires-Dist: " + deps[k]
  {
    seq(|deps|, k requires 0 <= k < |deps| => "Requires-Dist: " + deps[k])
  }

  /** The list comprehension: the lines that start with none of the prefixes. */
  function KeepLines(lines: seq<string>, prefixes: seq<string>): seq<string>
    decreases |lines|
  {
    if lines == [] then []
    else if StartsWithAny(lines[0], prefixes) then KeepLines(lines[1..], prefixes)
    else [lines[0]] + KeepLines(lines[1..], prefixes)
  }

  /** Exactly the lines with a prefix are dropped; the rest keep their order. */
  lemma {:induction false} KeepLinesSpec(lines: seq<string>, prefixes: seq<string>)
    ensures var kept := KeepLines(lines, prefixes);
      Subsequence(kept, lines) &&
      (forall k :: 0 <= k < |kept| ==> !StartsWithAny(kept[k], prefixes)) &&
      (kept == lines <==> forall k :: 0 <= k < |lines| ==> !StartsWithAny(lines[k], prefixes))
    decreases |lines|
  {
    if lines != [] {
      KeepLinesSpec(lines[1..], prefixes);
      var kept := KeepLines(lines, prefixes);
      var rest := KeepLines(lines[1..], prefixes);
      KeepLinesShorter(lines[1..], prefixes);
      if StartsWithAny(lines[0], prefixes) {
        SubsequenceDrop(rest, lines);
        assert kept != lines by {
          assert |kept| < |lines|;
        }
      } else {
        assert kept == [lines[0]] + rest;
        assert kept[1..] == rest;
        forall k | 0 <= k < |kept|
          ensures !StartsWithAny(kept[k], prefixes)
        {
          if k > 0 {
            assert kept[k] == rest[k - 1];
          }
        }
        if forall k :: 0 <= k < |lines| ==> !StartsWithAny(lines[k], prefixes) {
          forall k | 0 <= k < |lines[1..]|
            ensures !StartsWithAny(lines[1..][k], prefixes)
          {
            assert lines[1..][k] == lines[k + 1];
          }
          assert lines == [lines[0]] + lines[1..];
        } else {
          var k :| 0 <= k < |lines| && StartsWithAny(lines[k], prefixes);
          assert k > 0 && lines[1..][k - 1] == lines[k];
          assert rest != lines[1..];
          assert kept != lines by {
            if kept == lines {
            }
          }
        }
      }
    }
  }

  lemma {:induction false} KeepLinesShorter(lines: seq<string>, prefixes: seq<string>)
    ensures |KeepLines(lines, prefixes)| <= |lines|
    decreases |lines|
  {
    if lines != [] {
      KeepLinesShorter(lines[1..], prefixes);
    }
  }

  /** The line filter keeps lines free of line breaks. */
  lemma {:induction false} KeepLinesNoBreak(lines: seq<string>, prefixes: seq<string>)
    requires AllLines(lines)
    ensures AllLines(KeepLines(lines, prefixes))
    decreases |lines|
  {
    if lines != [] {
      KeepLinesNoBreak(lines[1..], prefixes);
      var kept := KeepLines(lines, prefixes);
      var rest := KeepLines(lines[1..], prefixes);
      if !StartsWithAny(lines[0], prefixes) {
        assert kept == [lines[0]] + rest;
        forall k | 0 <= k < |kept|
          ensures NoBreak(kept[k])
        {
          if k == 0 {
            assert kept[0] == lines[0];
          } else {
            assert kept[k] == rest[k - 1];
          }
        }
      }
    }
  }

  /** Filtering a second time drops nothing. */
  lemma {:induction false} KeepLinesTwice(lines: seq<string>, prefixes: seq<string>)
    ensures KeepLines(KeepLines(lines, prefixes), prefixes) == KeepLines(lines, prefixes)
  {
    var kept := KeepLines(lines, prefixes);
    KeepLinesSpec(lines, prefixes);
    KeepLinesSpec(kept, prefixes);
  }

  /**
   * The new metadata text, or `None` when no line is dropped: the kept lines
   * joined with `\n`, with a final `\n`.
   */
  function StripRequires(text: string, deps: seq<string>): Option<string> {
    var lines := SplitLines(text);
    var kept := KeepLines(lines, Prefixes(deps));
    if kept == lines then None else Some(Join(kept, "\n") + "\n")
  }

  /** The patch changes the text exactly when some line starts with one of the prefixes. */
  lemma StripRequiresIff(text: string, deps: seq<string>)
    ensures StripRequires(text, deps).Some? <==>
      exists k :: 0 <= k < |SplitLines(text)| && StartsWithAny(SplitLines(text)[k], Prefixes(deps))
  {
    var lines := SplitLines(text);
    var ps := Prefixes(deps);
    KeepLinesSpec(lines, ps);
    assert StripRequires(text, deps).Some? <==> KeepLines(lines, ps) != lines;
    if KeepLines(lines, ps) != lines {
      var k :| 0 <= k < |lines| && StartsWithAny(lines[k], ps);
      assert StartsWithAny(SplitLines(text)[k], Prefixes(deps));
      assert StripRequires(text, deps).Some?;
      assert exists k :: 0 <= k < |SplitLines(text)| && StartsWithAny(SplitLines(text)[k], Prefixes(deps));
    }
  }

  /** The patched metadata holds exactly the lines kept, and patching it again changes nothing. */
  lemma StripRequiresOnce(text: string, deps: seq<string>)
    requires StripRequires(text, deps).Some?
    ensures var kept := KeepLines(SplitLines(text), Prefixes(deps));
      kept != [] ==> SplitLines(StripRequires(text, deps).value) == kept
    ensures StripRequires(StripRequires(text, deps).value, deps).None?
  {
    var lines := SplitLines(text);
    var ps := Prefixes(deps);
    var kept := KeepLines(lines, ps);
    KeepLinesNoBreak(lines, ps);
    SplitLinesOfJoined(kept);
    if kept == [] {
      assert SplitLines(StripRequires(text, deps).value) == [""];
      assert !StartsWithAny("", ps) by {
        forall k | 0 <= k < |ps|
          ensures !StartsWith("", ps[k])
        {
          assert |ps[k]| > 0;
        }
      }
      assert KeepLines([""], ps) == [""] + KeepLines([""][1..], ps);
    } else {
      KeepLinesTwice(lines, ps);
    }
  }

  /** The member `patch_metadata_requires` rewrites: the first `.dist-info/…METADATA` name. */
  predicate IsMetadata(name: string) {
    |name| >= 8 && name[|name| - 8..] == "METADATA" && Contains(name, ".dist-info/")
  }

  function FirstMetadata(names: seq<string>): (r: Option<string>)
    ensures r.Some? ==> r.value in names && IsMetadata(r.value)
    ensures r.None? <==> forall k :: 0 <= k < |names| ==> !IsMetadata(names[k])
    ensures r.Some? ==> exists k :: 0 <= k < |names| && names[k] == r.value && forall j :: 0 <= j < k ==> !IsMetadata(names[j])
  {
    if names == [] then None
    else if IsMetadata(names[0]) then Some(names[0])
    else
      var r := FirstMetadata(names[1..]);
      if r.Some? then
        assert forall j :: 0 < j < |names| ==> names[j] == names[1..][j - 1];
        r
      else r
  }

  // ---------------------------------------------------------------------------
  // The source patches

  const LangPath := "twitter/common/lang/__init__.py"
  const LangNeedle := "from io import BytesIO\n\n\n# Singletons\n"
  const LangReplacement :=
    "from io import BytesIO\n\ntry:\n  BytesIO\nexcept NameError:\n  from io import BytesIO\n\n# Singletons\n"

  const ZkPath := "twitter/common/zookeeper/kazoo_client.py"
  const ZkAsyncPop := "    async = kw.pop('async', True)\n"
  const ZkAsyncPopFixed := "    async_ = kw.pop('async', True)\n"
  const ZkAsyncIf := "    if async:\n"
  const ZkAsyncIfFixed := "    if async_:\n"

  /** Both `async` rewrites, in order. */
  function ZkRewrite(text: string): string {
    Replace(Replace(text, ZkAsyncPop, ZkAsyncPopFixed), ZkAsyncIf, ZkAsyncIfFixed)
  }

  /** The zookeeper rewrite changes a text exactly when it holds one of the two lines. */
  lemma ZkRewriteIff(text: string)
    ensures ZkRewrite(text) != text <==> Contains(text, ZkAsyncPop) || Contains(text, ZkAsyncIf)
  {
    var once := Replace(text, ZkAsyncPop, ZkAsyncPopFixed);
    if Contains(text, ZkAsyncPop) {
      ReplaceGrows(text, ZkAsyncPop, ZkAsyncPopFixed);
      ReplaceLength(once, ZkAsyncIf, ZkAsyncIfFixed);
    } else {
      ReplaceAbsent(text, ZkAsyncPop, ZkAsyncPopFixed);
      if Contains(text, ZkAsyncIf) {
        ReplaceGrows(text, ZkAsyncIf, ZkAsyncIfFixed);
      } else {
        ReplaceAbsent(text, ZkAsyncIf, ZkAsyncIfFixed);
      }
    }
  }

  /** The lang rewrite changes every text that holds the needle. */
  lemma LangRewriteChanges(text: string)
    requires Contains(text, LangNeedle)
    ensures Replace(text, LangNeedle, LangReplacement) != text
  {
    ReplacePresent(text, LangNeedle, LangReplacement);
  }

  // ---------------------------------------------------------------------------
  // Wheels

  /** A built wheel: its file name, its member names in archive order, and each member's text. */
  class Wheel {
    const name: string
    var names: seq<string>
    var contents: map<string, string>

    /** Every member name has a text, and only those. */
    ghost predicate Valid()
      reads this
    {
      forall n :: n in names <==> n in contents
    }

    constructor(name: string, names: seq<string>, contents: map<string, string>)
      requires forall n :: n in names <==> n in contents
      ensures this.name == name && this.names == names && this.contents == contents && Valid()
    {
      this.name := name;
      this.names := names;
      this.contents := contents;
    }

    /** The `for name in data` search for the metadata member. */
    method FindMetadata() returns (meta: Option<string>)
      ensures meta == FirstMetadata(names)
    {
      var i := 0;
      while i < |names|
        invariant 0 <= i <= |names|
        invariant FirstMetadata(names) == FirstMetadata(names[i..])
      {
        assert names[i..][1..] == names[i + 1..];
        if IsMetadata(names[i]) {
          return Some(names[i]);
        }
        i := i + 1;
      }
      return None;
    }

    /** `patch_metadata_requires`: drop the `Requires-Dist` lines of the given dependencies. */
    method PatchMetadataRequires(removeDeps: seq<string>) returns (changed: bool)
      requires Valid()
      modifies this
      ensures Valid() && names == old(names)
      ensures changed <==> MetadataPatched(old(names), old(contents), removeDeps) != old(contents)
      ensures contents == MetadataPatched(old(names), old(contents), removeDeps)
    {
      var meta := FindMetadata();
      if meta.None? {
        return false;
      }
      var patched := StripRequires(contents[meta.value], removeDeps);
      if patched.None? {
        return false;
      }
      StripRequiresChanges(contents[meta.value], removeDeps);
      contents := contents[meta.value := patched.value];
      return true;
    }

    /** `patch_twitter_common_lang`: rewrite the `BytesIO` import when the needle is there. */
    method PatchTwitterCommonLang() returns (changed: bool)
      requires Valid()
      modifies this
      ensures Valid() && names == old(names)
      ensures changed <==> LangPath in old(names) && Contains(old(contents)[LangPath], LangNeedle)
      ensures contents == LangPatched(old(names), old(contents))
    {
      if LangPath !in names {
        return false;
      }
      var text := contents[LangPath];
      if !Contains(text, LangNeedle) {
        return false;
      }
      contents := contents[LangPath := Replace(text, LangNeedle, LangReplacement)];
      return true;
    }

    /** `patch_twitter_common_zookeeper`: rename the `async` variable. */
    method PatchTwitterCommonZookeeper() returns (changed: bool)
      requires Valid()
      modifies this
      ensures Valid() && names == old(names)
      ensures changed <==>
        ZkPath in old(names) && (Contains(old(contents)[ZkPath], ZkAsyncPop) || Contains(old(contents)[ZkPath], ZkAsyncIf))
      ensures contents == ZkPatched(old(names), old(contents))
    {
      if ZkPath !in names {
        return false;
      }
      var text := contents[ZkPath];
      var newText := ZkRewrite(text);
      ZkRewriteIff(text);
      if newText == text {
        return false;
      }
      contents := contents[ZkPath := newText];
      return true;
    }
  }

  lemma StripRequiresChanges(text: string, deps: seq<string>)
    requires StripRequires(text, deps).Some?
    ensures StripRequires(text, deps).value != text
  {
    var t := StripRequires(text, deps).value;
    if t == text {
      StripRequiresOnce(text, deps);
      assert false;
    }
  }

  /** The members after the metadata patch. */
  function MetadataPatched(names: seq<string>, contents: map<string, string>, deps: seq<string>): map<string, string>
    requires forall n :: n in names <==> n in contents
  {
    match FirstMetadata(names)
    case None => contents
    case Some(meta) =>
      match StripRequires(contents[meta], deps)
      case None => contents
      case Some(t) => contents[meta := t]
  }

  /** The members after the lang patch. */
  function LangPatched(names: seq<string>, contents: map<string, string>): map<string, string>
    requires forall n :: n in names <==> n in contents
  {
    if LangPath in names && Contains(contents[LangPath], LangNeedle)
    then contents[LangPath := Replace(contents[LangPath], LangNeedle, LangReplacement)]
    else contents
  }

  /** The members after the zookeeper patch. */
  function ZkPatched(names: seq<string>, contents: map<string, string>): map<string, string>
    requires forall n :: n in names <==> n in contents
  {
    if ZkPath in names && ZkRewrite(contents[ZkPath]) != contents[ZkPath]
    then contents[ZkPath := ZkRewrite(contents[ZkPath])]
    else contents
  }

  /** Patching the metadata twice changes it only the first time. */
  lemma MetadataPatchIdempotent(names: seq<string>, contents: map<string, string>, deps: seq<string>)
    requires forall n :: n in names <==> n in contents
    ensures var once := MetadataPatched(names, contents, deps);
      (forall n :: n in names <==> n in once) && MetadataPatched(names, once, deps) == once
  {
    var meta := FirstMetadata(names);
    if meta.Some? && StripRequires(contents[meta.value], deps).Some? {
      StripRequiresOnce(contents[meta.value], deps);
    }
  }

  // ---------------------------------------------------------------------------
  // patch_wheels

  predicate IsDash(c: char) {
    c == '-'
  }

  /** The package of a wheel file name: its first `-` segment with `_` made `.`. */
  function PackageName(base: string): (r: string)
    ensures '_' !in r
  {
    var first := PrefixBefore(base, IsDash);
    var r := ReplaceChar(first, '_', '.');
    assert forall i :: 0 <= i < |r| ==> r[i] != '_';
    r
  }

  /** The package is the text before the first `-`, with `_` made `.`. */
  lemma PackageNameConcat(name: string, rest: string)
    requires '-' !in name && (rest != [] ==> rest[0] == '-')
    ensures PackageName(name + rest) == ReplaceChar(name, '_', '.')
  {
    PrefixBeforeConcat(name, rest, IsDash);
  }

  /** The dependencies to drop for a package: the first entry whose key equals it. */
  function DepsFor(pkg: string, table: seq<(string, seq<string>)>): (r: Option<seq<string>>)
    ensures r.None? <==> forall k :: 0 <= k < |table| ==> table[k].0 != pkg
    ensures r.Some? ==> exists k :: 0 <= k < |table| && table[k].0 == pkg && table[k].1 == r.value
  {
    if table == [] then None
    else if table[0].0 == pkg then Some(table[0].1)
    else
      var r := DepsFor(pkg, table[1..]);
      assert forall k :: 0 < k < |table| ==> table[k] == table[1..][k - 1];
      r
  }

  /** The `twitter_common_concurrent` entry never applies, since package names carry no `_`. */
  lemma ConcurrentNeverMatches(base: string)
    ensures PackageName(base) != PatchRequires[1].0
    ensures DepsFor(PackageName(base), PatchRequires).Some? <==>
      PackageName(base) in {"pesos", "compactor", "mesos.interface"}
  {
    assert '_' in PatchRequires[1].0;
  }

  /** How the dispatch names wheels: the version and tags after the first `-` are dropped. */
  lemma PackageNameMesos()
    ensures PackageName("mesos.interface" + "-0.21.1-py2-none-any.whl") == "mesos.interface"
  {
    PackageNameConcat("mesos.interface", "-0.21.1-py2-none-any.whl");
    ReplaceCharAbsent("mesos.interface", '_', '.');
  }

  /** A wheel built from `twitter_common_lang` is the package `twitter.common.lang`. */
  lemma PackageNameLang()
    ensures PackageName("twitter_common_lang" + "-0.3.11-py2-none-any.whl") == "twitter.common.lang"
  {
    PackageNameConcat("twitter_common_lang", "-0.3.11-py2-none-any.whl");
    assert ReplaceChar("twitter_common_lang", '_', '.') == "twitter.common.lang";
  }

  /** What `patch_wheels` does to one wheel's members. */
  function Patched(base: string, names: seq<string>, contents: map<string, string>): (r: map<string, string>)
    requires forall n :: n in names <==> n in contents
    ensures forall n :: n in names <==> n in r
  {
    var pkg := PackageName(base);
    var afterMeta := match DepsFor(pkg, PatchRequires)
      case None => contents
      case Some(deps) => MetadataPatched(names, contents, deps);
    if pkg == "twitter.common.lang" then LangPatched(names, afterMeta)
    else if pkg == "twitter.common.zookeeper" then ZkPatched(names, afterMeta)
    else afterMeta
  }

  /** The body of `patch_wheels`' loop for one wheel. */
  method PatchWheel(w: Wheel)
    requires w.Valid()
    modifies w
    ensures w.Valid() && w.names == old(w.names)
    ensures w.contents == Patched(w.name, old(w.names), old(w.contents))
  {
    var pkg := PackageName(w.name);
    var deps := DepsFor(pkg, PatchRequires);
    if deps.Some? {
      var _ := w.PatchMetadataRequires(deps.value);
    }
    if pkg == "twitter.common.lang" {
      var _ := w.PatchTwitterCommonLang();
    } else if pkg == "twitter.common.zookeeper" {
      var _ := w.PatchTwitterCommonZookeeper();
    }
  }

  /**
   * `patch_wheels`: nothing when the wheel directory is missing, otherwise
   * every wheel found there patched by its package name.
   */
  method PatchWheels(dirExists: bool, wheels: seq<Wheel>)
    requires forall j :: 0 <= j < |wheels| ==> wheels[j].Valid()
    requires forall j, k :: 0 <= j < k < |wheels| ==> wheels[j] != wheels[k]
    modifies set j | 0 <= j < |wheels| :: wheels[j]
    ensures forall j :: 0 <= j < |wheels| ==> wheels[j].Valid() && wheels[j].names == old(wheels[j].names)
    ensures !dirExists ==> forall j :: 0 <= j < |wheels| ==> wheels[j].contents == old(wheels[j].contents)
    ensures dirExists ==> forall j :: 0 <= j < |wheels| ==>
      old(wheels[j].Valid()) && wheels[j].contents == Patched(wheels[j].name, old(wheels[j].names), old(wheels[j].contents))
  {
    if !dirExists {
      return;
    }
    var i := 0;
    while i < |wheels|
      invariant 0 <= i <= |wheels|
      invariant forall j :: 0 <= j < |wheels| ==> wheels[j].Valid() && wheels[j].names == old(wheels[j].names)
      invariant forall j :: 0 <= j < i ==>
        wheels[j].contents == Patched(wheels[j].name, old(wheels[j].names), old(wheels[j].contents))
      invariant forall j :: i <= j < |wheels| ==> wheels[j].contents == old(wheels[j].contents)
    {
      PatchWheel(wheels[i]);
      i := i + 1;
    }
  }
}
