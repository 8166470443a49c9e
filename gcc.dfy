/**
 * The GCC toolkit of src/drake/cxx/__init__.py (`GccToolkit`): how it
 * recognises the host and the compiler, and the argument lists it builds
 * for preprocessing, compiling, archiving and linking. Running programs is
 * not modelled: the compiler's answers (whether `--version` runs, what the
 * preprocessor prints, what `ar xv` lists, which files exist) are inputs.
 */
module GccToolkits {
  import opened Wrappers
  import opened Seqs
  import opened Strings
  import opened Paths
  import opened WarningNames
  import opened Warnings
  import opened Nodes
  import opened Configs

  /** The hosts `drake.os` distinguishes for this toolkit. */
  datatype OS = Linux | MacOS | Windows

  /** `GccToolkit.Kind`. */
  datatype CompilerKind = GccKind | ClangKind

  /** The exceptions the toolkit raises. */
  datatype ToolkitError =
    | CompilerNotFound(compiler: Option<string>)
    | PreprocessingFailed(returnCode: int)
    | MissingMacroAnswers(count: nat)
    | HostOSNotFound
    | IncludePathFailed(returnCode: int)
    | CannotLink(kind: Kind)
    | StaticLibraryNotFound(lib: string)
    | ExtractionFailed(archive: Path)
    | UnexpectedArchiveLine(line: string)

  // ---------------------------------------------------------------------
  // Recognising the compiler (`GccToolkit.__init__`, `preprocess_isdef`,
  // `prefix`).

  /** Python's `x or y` for an optional string: unset and empty both fall back. */
  function OrElse(x: Option<string>, y: string): (r: string)
    ensures r == y <==> x.None? || x.value == "" || x.value == y
  {
    if x.Some? && x.value != "" then x.value else y
  }

  function Min(a: nat, b: nat): nat {
    if a <= b then a else b
  }

  /**
   * `preprocess_isdef(vars)`: the preprocessor is fed the names one per
   * line, last name first; its output is stripped and split into lines,
   * and the i-th name pairs with the i-th line from the end. A name is
   * defined iff its line differs from the name itself.
   */
  function PreprocessIsDef(vars: seq<string>, out: string): (r: seq<bool>)
  {
    var lines := Reverse(Split(Strip(out), '\n'));
    seq(Min(|vars|, |lines|), i requires 0 <= i < Min(|vars|, |lines|) => vars[i] != lines[i])
  }

  /** The text `preprocess_isdef` sends to the preprocessor. */
  function PreprocessInput(vars: seq<string>): string {
    JoinWith(Reverse(vars), "\n")
  }

  /**
   * A preprocessor that echoes its input, names none of which is a macro,
   * makes `preprocess_isdef` report every name undefined.
   */
  lemma PreprocessIsDefEcho(vars: seq<string>)
    requires |vars| > 0 && forall i :: 0 <= i < |vars| ==> Trimmed(vars[i])
    ensures var r := PreprocessIsDef(vars, PreprocessInput(vars));
      |r| == |vars| && forall i :: 0 <= i < |vars| ==> !r[i]
  {
    var empty: seq<string> := [];
    assert empty + Reverse(vars) == Reverse(vars);
    assert PreprocessInput(vars) + "" == PreprocessInput(vars);
    PreprocessIsDefAnswers(vars, empty, vars, "");
  }

  /** A line that survives `strip()` unchanged at either end of the output. */
  predicate Trimmed(line: string) {
    |line| > 0 && '\n' !in line && !IsSpace(line[0]) && !IsSpace(line[|line| - 1])
  }

  /** Output lines that are each trimmed come back from `strip().split('\n')` unchanged. */
  lemma {:induction false} StripSplitLines(lines: seq<string>, trail: string)
    requires |lines| > 0
    requires forall i :: 0 <= i < |lines| ==> Trimmed(lines[i])
    requires forall i :: 0 <= i < |trail| ==> IsSpace(trail[i])
    ensures Split(Strip(JoinWith(lines, "\n") + trail), '\n') == lines
  {
    var j := JoinWith(lines, "\n");
    assert Trimmed(lines[0]) && Trimmed(lines[|lines| - 1]);
    JoinWithFirst(lines, "\n");
    JoinWithLast(lines, "\n");
    var s := j + trail;
    assert s[0] == j[0];
    assert StripLeft(s) == s;
    StripRightTrailing(j, trail);
    assert forall i :: 0 <= i < |lines| ==> '\n' !in lines[i] by {
      forall i | 0 <= i < |lines| ensures '\n' !in lines[i] {
        assert Trimmed(lines[i]);
      }
    }
    SplitJoin(lines, '\n');
  }

  /** The header lines followed by the expansions, last name first. */
  lemma ProbeOutputLines(header: seq<string>, expansions: seq<string>)
    requires forall i :: 0 <= i < |header| ==> Trimmed(header[i])
    requires forall i :: 0 <= i < |expansions| ==> Trimmed(expansions[i])
    ensures forall i :: 0 <= i < |header + Reverse(expansions)| ==> Trimmed((header + Reverse(expansions))[i])
  {
    var lines := header + Reverse(expansions);
    forall i | 0 <= i < |lines| ensures Trimmed(lines[i]) {
      if i >= |header| {
        assert lines[i] == expansions[|expansions| - 1 - (i - |header|)];
      }
    }
  }

  /**
   * When the preprocessor prints some header lines, then the expansion of
   * each name in the order it was given them (last name first), then
   * trailing blanks, each name is reported defined exactly when its
   * expansion differs from the name.
   */
  lemma PreprocessIsDefAnswers(vars: seq<string>, header: seq<string>, expansions: seq<string>, trail: string)
    requires |vars| > 0 && |expansions| == |vars|
    requires forall i :: 0 <= i < |header| ==> Trimmed(header[i])
    requires forall i :: 0 <= i < |expansions| ==> Trimmed(expansions[i])
    requires forall i :: 0 <= i < |trail| ==> IsSpace(trail[i])
    ensures var r := PreprocessIsDef(vars, JoinWith(header + Reverse(expansions), "\n") + trail);
      |r| == |vars| && forall i :: 0 <= i < |vars| ==> (r[i] <==> expansions[i] != vars[i])
  {
    var lines := header + Reverse(expansions);
    var out := JoinWith(lines, "\n") + trail;
    assert Split(Strip(out), '\n') == lines by {
      ProbeOutputLines(header, expansions);
      StripSplitLines(lines, trail);
    }
    var rev := Reverse(lines);
    assert |rev| == |header| + |vars|;
    assert forall i :: 0 <= i < |vars| ==> rev[i] == expansions[i] by {
      forall i | 0 <= i < |vars| ensures rev[i] == expansions[i] {
        var n := |lines|;
        assert rev[i] == lines[n - 1 - i];
        assert n - 1 - i == |header| + (|vars| - 1 - i);
      }
    }
    assert Min(|vars|, |rev|) == |vars|;
  }

  /** The macros `GccToolkit.__init__` asks about, in its order. */
  const ProbedMacros: seq<string> := ["__APPLE__", "_WIN32", "__linux__", "__clang__"]

  /** The compiler name `prefix` strips, as it appears in the driver's name. */
  function CompilerName(kind: CompilerKind): string {
    match kind
    case GccKind => "g++"
    case ClangKind => "clang++"
  }

  predicate Digits(s: string) {
    |s| > 0 && forall i :: 0 <= i < |s| ==> '0' <= s[i] <= '9'
  }

  /** `[0-9]+(\.[0-9]+)*` with at most `n` numbers. */
  predicate DottedNumber(s: string, n: nat)
    decreases n
  {
    match IndexOf(s, '.')
    case None => n > 0 && Digits(s)
    case Some(i) =>
      IndexOfFacts(s, '.');
      n > 1 && Digits(s[..i]) && DottedNumber(s[i + 1..], n - 1)
  }

  /** `(-[0-9]+(\.[0-9]+(\.[0-9]+)?)?)?`: an optional version of up to three numbers. */
  predicate VersionSuffix(v: string) {
    v == "" || (v[0] == '-' && DottedNumber(v[1..], 3))
  }

  /** The pattern `name` + version + end of text matches from position `i` of `cxx`. */
  predicate MatchesAt(cxx: string, name: string, i: nat)
  {
    i <= |cxx| && StartsWith(cxx[i..], name) && VersionSuffix(cxx[i + |name|..])
  }

  function PrefixFrom(cxx: string, name: string, i: nat): string
    requires i <= |cxx| + 1
    decreases |cxx| + 1 - i
  {
    if i > |cxx| then cxx
    else if MatchesAt(cxx, name, i) then cxx[..i]
    else PrefixFrom(cxx, name, i + 1)
  }

  /**
   * `prefix`: the driver's name with the leftmost match of the compiler
   * name, an optional version and the end of the text removed; the name is
   * unchanged when nothing matches.
   */
  function Prefix(kind: CompilerKind, cxx: string): string {
    PrefixFrom(cxx, CompilerName(kind), 0)
  }

  /** From position `i`, the first match at or after `i` decides the prefix. */
  lemma {:induction false} PrefixFromFirst(cxx: string, name: string, i: nat, j: nat)
    requires i <= j <= |cxx| && MatchesAt(cxx, name, j)
    requires forall k :: i <= k < j ==> !MatchesAt(cxx, name, k)
    ensures PrefixFrom(cxx, name, i) == cxx[..j]
    decreases j - i
  {
    if i < j {
      assert !MatchesAt(cxx, name, i);
      PrefixFromFirst(cxx, name, i + 1, j);
    }
  }

  /** From position `i`, no match at all leaves the name unchanged. */
  lemma {:induction false} PrefixFromNone(cxx: string, name: string, i: nat)
    requires i <= |cxx| + 1
    requires forall k :: i <= k <= |cxx| ==> !MatchesAt(cxx, name, k)
    ensures PrefixFrom(cxx, name, i) == cxx
    decreases |cxx| + 1 - i
  {
    if i <= |cxx| {
      assert !MatchesAt(cxx, name, i);
      PrefixFromNone(cxx, name, i + 1);
    }
  }

  /** `prefix` removes exactly the leftmost match, and nothing when there is none. */
  lemma PrefixSpec(kind: CompilerKind, cxx: string)
    ensures forall j :: (0 <= j <= |cxx| && MatchesAt(cxx, CompilerName(kind), j)
                         && (forall k :: 0 <= k < j ==> !MatchesAt(cxx, CompilerName(kind), k)))
                        ==> Prefix(kind, cxx) == cxx[..j]
    ensures (forall j :: 0 <= j <= |cxx| ==> !MatchesAt(cxx, CompilerName(kind), j)) ==> Prefix(kind, cxx) == cxx
  {
    var name := CompilerName(kind);
    forall j | 0 <= j <= |cxx| && MatchesAt(cxx, name, j) && (forall k :: 0 <= k < j ==> !MatchesAt(cxx, name, k))
      ensures Prefix(kind, cxx) == cxx[..j]
    {
      PrefixFromFirst(cxx, name, 0, j);
    }
    if forall j :: 0 <= j <= |cxx| ==> !MatchesAt(cxx, name, j) {
      PrefixFromNone(cxx, name, 0);
    }
  }

  /** A version of up to three numbers, and no more. */
  lemma VersionSuffixExamples()
    ensures VersionSuffix("") && VersionSuffix("-4") && VersionSuffix("-4.9") && VersionSuffix("-4.9.2")
    ensures !VersionSuffix("-4.9.2.1") && !VersionSuffix("-") && !VersionSuffix("-4.") && !VersionSuffix("4.9")
  {
    VersionSuffixAccepted();
    VersionSuffixRejected();
  }

  /** The suffixes the pattern accepts, one to three numbers or none. */
  lemma VersionSuffixAccepted()
    ensures VersionSuffix("") && VersionSuffix("-4") && VersionSuffix("-4.9") && VersionSuffix("-4.9.2")
  {
    assert "-4"[1..] == "4";
    DottedNumberDigit('4', 3);
    assert "-4.9"[1..] == "4.9" && "4.9"[2..] == "9";
    DottedNumberStep("4.9", 3);
    DottedNumberDigit('9', 2);
    assert "-4.9.2"[1..] == "4.9.2" && "4.9.2"[2..] == "9.2" && "9.2"[2..] == "2";
    DottedNumberStep("4.9.2", 3);
    DottedNumberStep("9.2", 2);
    DottedNumberDigit('2', 1);
  }

  /** Four numbers, an empty number, a trailing dot and a missing dash are refused. */
  lemma VersionSuffixRejected()
    ensures !VersionSuffix("-4.9.2.1") && !VersionSuffix("-") && !VersionSuffix("-4.") && !VersionSuffix("4.9")
  {
    assert "-4.9.2.1"[1..] == "4.9.2.1" && "4.9.2.1"[2..] == "9.2.1" && "9.2.1"[2..] == "2.1" && "2.1"[2..] == "1";
    DottedNumberStep("4.9.2.1", 3);
    DottedNumberStep("9.2.1", 2);
    DottedNumberStep("2.1", 1);
    assert "-4."[1..] == "4." && "4."[2..] == "";
    DottedNumberStep("4.", 3);
  }

  /** A digit followed by a dot: the rest must be a dotted number with one number fewer. */
  lemma DottedNumberStep(s: string, n: nat)
    requires |s| >= 2 && '0' <= s[0] <= '9' && s[1] == '.'
    ensures DottedNumber(s, n) <==> n > 1 && DottedNumber(s[2..], n - 1)
  {
    assert IndexOf(s[1..], '.') == Some(0);
    assert IndexOf(s, '.') == Some(1);
    assert s[..1] == [s[0]];
  }

  /** A single digit is a dotted number whenever one number is allowed. */
  lemma DottedNumberDigit(d: char, n: nat)
    requires '0' <= d <= '9'
    ensures DottedNumber([d], n) <==> n > 0
  {
    assert IndexOf([d][1..], '.') == None;
  }

  /** A bare driver name has an empty prefix, with or without a version. */
  lemma PrefixBareDriver()
    ensures Prefix(GccKind, "g++") == ""
    ensures Prefix(GccKind, "g++-4.9") == ""
  {
    assert MatchesAt("g++", "g++", 0);
    var v := "g++-4.9";
    assert v[..3] == "g++" && v[3..] == "-4.9";
    assert VersionSuffix("-4.9") by {
      assert "-4.9"[1..] == "4.9" && "4.9"[2..] == "9";
      DottedNumberStep("4.9", 3);
      DottedNumberDigit('9', 2);
    }
    assert MatchesAt(v, "g++", 0);
  }

  /** A position where the name's first two characters do not both occur matches nothing. */
  lemma PrefixFromSkip(cxx: string, name: string, i: nat)
    requires i + 1 < |cxx| && |name| >= 2
    requires cxx[i] != name[0] || cxx[i + 1] != name[1]
    ensures PrefixFrom(cxx, name, i) == PrefixFrom(cxx, name, i + 1)
  {
  }

  /** A cross compiler keeps its target prefix. */
  lemma PrefixCrossCompiler()
    ensures Prefix(GccKind, "mingw32-g++") == "mingw32-"
  {
    var m, n := "mingw32-g++", "g++";
    assert m[8..] == n;
    assert MatchesAt(m, n, 8);
    assert PrefixFrom(m, n, 8) == m[..8];
    PrefixFromSkip(m, n, 7);
    PrefixFromSkip(m, n, 6);
    PrefixFromSkip(m, n, 5);
    PrefixFromSkip(m, n, 4);
    PrefixFromSkip(m, n, 3);
    PrefixFromSkip(m, n, 2);
    PrefixFromSkip(m, n, 1);
    PrefixFromSkip(m, n, 0);
  }

  /** A directory in front of a versioned clang driver is kept. */
  lemma PrefixVersionedClang()
    ensures Prefix(ClangKind, "/bin/clang++-3.5") == "/bin/"
  {
    var l, n := "/bin/clang++-3.5", "clang++";
    VersionedClangMatch();
    assert PrefixFrom(l, n, 5) == l[..5];
    assert l[0..5] == "/bin/";
    PrefixFromSkipTo(l, n, 0, 5);
  }

  /** Positions that do not hold the name's first character match nothing. */
  lemma {:induction false} PrefixFromSkipTo(cxx: string, name: string, i: nat, j: nat)
    requires i <= j <= |cxx| && |name| > 0 && name[0] !in cxx[i..j]
    ensures PrefixFrom(cxx, name, i) == PrefixFrom(cxx, name, j)
    decreases j - i
  {
    if i < j {
      assert cxx[i..][0] == cxx[i..j][0];
      assert !MatchesAt(cxx, name, i);
      assert cxx[i + 1..j] == cxx[i..j][1..];
      PrefixFromSkipTo(cxx, name, i + 1, j);
    }
  }

  /** `clang++-3.5` matches right after the directory. */
  lemma VersionedClangMatch()
    ensures MatchesAt("/bin/clang++-3.5", "clang++", 5)
  {
    var l, n := "/bin/clang++-3.5", "clang++";
    assert l[5..][..7] == n;
    assert l[12..] == "-3.5";
    assert "-3.5"[1..] == "3.5" && "3.5"[2..] == "5";
    DottedNumberStep("3.5", 3);
    DottedNumberDigit('5', 2);
  }

  /**
   * The match is not anchored at a word boundary: under kind gcc the
   * name `clang++` loses its trailing `g++`.
   */
  lemma PrefixInsideName()
    ensures Prefix(GccKind, "clang++") == "clan"
  {
    var l := "clang++";
    assert l[4..] == "g++";
    assert MatchesAt(l, "g++", 4);
    assert PrefixFrom(l, "g++", 4) == l[..4];
    assert l[0..4] == "clan";
    PrefixFromSkipTo(l, "g++", 0, 4);
  }

  /**
   * The facts recorded by `GccToolkit.__init__`: the host, the compiler
   * kind, the C++ driver and the C driver.
   */
  datatype Detected = Detected(os: OS, kind: CompilerKind, cxx: string, c: string)

  /**
   * `GccToolkit(compiler, compiler_c, os)`: `versionRuns` says whether
   * `<cxx> --version` could be run, `preprocessed` is the preprocessor's
   * output for the probe of `ProbedMacros` or its failing return code.
   */
  function Detect(compiler: Option<string>, compilerC: Option<string>, os: Option<OS>,
                  versionRuns: bool, preprocessed: Result<string, int>): Result<Detected, ToolkitError>
  {
    var cxx := OrElse(compiler, "g++");
    if !versionRuns then Failure(CompilerNotFound(compiler))
    else match preprocessed
      case Failure(code) => Failure(PreprocessingFailed(code))
      case Success(out) =>
        var isdef := PreprocessIsDef(ProbedMacros, out);
        if |isdef| < 4 then Failure(MissingMacroAnswers(|isdef|))
        else
          var host :=
            if os.Some? then os
            else if isdef[0] then Some(MacOS)
            else if isdef[1] then Some(Windows)
            else if isdef[2] then Some(Linux)
            else None;
          if host.None? then Failure(HostOSNotFound)
          else
            var kind := if isdef[3] then ClangKind else GccKind;
            Success(Detected(host.value, kind, cxx, OrElse(compilerC, Prefix(kind, cxx) + "gcc")))
  }

  /**
   * Detection from a preprocessor that expands exactly the macros in
   * `defined`: an explicit host wins, otherwise Apple beats Windows beats
   * Linux; the kind is clang iff `__clang__` is defined; the drivers fall
   * back to `g++` and to the prefix followed by `gcc`.
   */
  lemma DetectFromAnswers(compiler: Option<string>, compilerC: Option<string>, os: Option<OS>,
                          header: seq<string>, expansions: seq<string>, trail: string, defined: set<string>)
    requires |expansions| == 4
    requires forall i :: 0 <= i < 4 ==> (expansions[i] != ProbedMacros[i] <==> ProbedMacros[i] in defined)
    requires forall i :: 0 <= i < |header| ==> Trimmed(header[i])
    requires forall i :: 0 <= i < |expansions| ==> Trimmed(expansions[i])
    requires forall i :: 0 <= i < |trail| ==> IsSpace(trail[i])
    ensures var r := Detect(compiler, compilerC, os, true, Success(JoinWith(header + Reverse(expansions), "\n") + trail));
      && (r.Success? <==> os.Some? || "__APPLE__" in defined || "_WIN32" in defined || "__linux__" in defined)
      && (r.Failure? ==> r.error == HostOSNotFound)
      && (r.Success? ==>
        && r.value.os == (if os.Some? then os.value
                          else if "__APPLE__" in defined then MacOS
                          else if "_WIN32" in defined then Windows
                          else Linux)
        && (r.value.kind == ClangKind <==> "__clang__" in defined)
        && r.value.cxx == OrElse(compiler, "g++")
        && r.value.c == OrElse(compilerC, Prefix(r.value.kind, r.value.cxx) + "gcc"))
  {
    var out := JoinWith(header + Reverse(expansions), "\n") + trail;
    PreprocessIsDefAnswers(ProbedMacros, header, expansions, trail);
    var isdef := PreprocessIsDef(ProbedMacros, out);
    assert |isdef| == 4;
    assert isdef[0] <==> "__APPLE__" in defined by {
      assert ProbedMacros[0] == "__APPLE__";
    }
    assert isdef[1] <==> "_WIN32" in defined by {
      assert ProbedMacros[1] == "_WIN32";
    }
    assert isdef[2] <==> "__linux__" in defined by {
      assert ProbedMacros[2] == "__linux__";
    }
    assert isdef[3] <==> "__clang__" in defined by {
      assert ProbedMacros[3] == "__clang__";
    }
  }

  /** Whatever was asked for, a detected toolkit has a non-empty C driver. */
  lemma DetectedCDriver(compiler: Option<string>, compilerC: Option<string>, os: Option<OS>,
                        versionRuns: bool, preprocessed: Result<string, int>)
    requires Detect(compiler, compilerC, os, versionRuns, preprocessed).Success?
    ensures Detect(compiler, compilerC, os, versionRuns, preprocessed).value.c != ""
    ensures Detect(compiler, compilerC, os, versionRuns, preprocessed).value.cxx != ""
  {
  }

  // ---------------------------------------------------------------------
  // Preprocessor and compiler flags (`cppflags`, `cflags`, `ldflags`,
  // `compile`).

  /** `-Dname` or `-Dname=value` for one macro. */
  function DefineFlag(d: Define): seq<string> {
    match d.1
    case None => ["-D" + d.0]
    case Some(v) => ["-D" + d.0 + "=" + v]
  }

  /** `-isystem path` for one system include directory. */
  function SystemIncludeFlags(p: Path): seq<string> {
    ["-isystem", Show(p)]
  }

  /** For one local include directory: under the source root, then as given. */
  function LocalIncludeFlags(srcRoot: Path): Path -> seq<string> {
    p => ["-I", Show(Join(srcRoot, p)), "-I", Show(p)]
  }

  /** `cppflags(cfg)`, with `drake.path_source()` given as `srcRoot`. */
  function CppFlagsOf(cfg: ConfigValue, srcRoot: Path): seq<string> {
    FlatMap(cfg.defines, DefineFlag)
      + FlatMap(cfg.systemIncludes, SystemIncludeFlags)
      + FlatMap(cfg.localIncludes, LocalIncludeFlags(srcRoot))
  }

  /** One `-D` flag per macro, in definition order: `-Dname` without a value, `-Dname=value` with one. */
  lemma DefineFlagsLayout(defines: seq<Define>)
    ensures var d := FlatMap(defines, DefineFlag);
      && |d| == |defines|
      && forall i :: 0 <= i < |defines| ==>
           d[i] == if defines[i].1.None? then "-D" + defines[i].0 else "-D" + defines[i].0 + "=" + defines[i].1.value
  {
    FlatMapUniform(defines, DefineFlag, 1);
    var d := FlatMap(defines, DefineFlag);
    forall i | 0 <= i < |defines| ensures d[i] == DefineFlag(defines[i])[0] {
      assert d[1 * i + 0] == DefineFlag(defines[i])[0];
    }
  }

  /** An `-isystem` pair per system directory, in order. */
  lemma SystemFlagsLayout(dirs: seq<Path>)
    ensures var y := FlatMap(dirs, SystemIncludeFlags);
      |y| == 2 * |dirs| && forall i :: 0 <= i < |dirs| ==> y[2 * i] == "-isystem" && y[2 * i + 1] == Show(dirs[i])
  {
    FlatMapUniform(dirs, SystemIncludeFlags, 2);
    var y := FlatMap(dirs, SystemIncludeFlags);
    forall i | 0 <= i < |dirs| ensures y[2 * i] == "-isystem" && y[2 * i + 1] == Show(dirs[i]) {
      assert y[2 * i + 0] == SystemIncludeFlags(dirs[i])[0];
    }
  }

  /** Two `-I` pairs per local directory, the one under the source root first. */
  lemma LocalFlagsLayout(srcRoot: Path, dirs: seq<Path>)
    ensures var l := FlatMap(dirs, LocalIncludeFlags(srcRoot));
      |l| == 4 * |dirs| && forall i :: 0 <= i < |dirs| ==>
        l[4 * i] == "-I" && l[4 * i + 1] == Show(Join(srcRoot, dirs[i])) && l[4 * i + 2] == "-I" && l[4 * i + 3] == Show(dirs[i])
  {
    FlatMapQuads(dirs, LocalIncludeFlags(srcRoot));
  }

  /**
   * The `-D` flags of the macros, then the `-isystem` pairs, then the
   * `-I` pairs, each block as its layout lemma above describes.
   */
  lemma CppFlagsLayout(cfg: ConfigValue, srcRoot: Path)
    ensures var r := CppFlagsOf(cfg, srcRoot);
      var nd, ns, nl := |cfg.defines|, |cfg.systemIncludes|, |cfg.localIncludes|;
      && |r| == nd + 2 * ns + 4 * nl
      && r[..nd] == FlatMap(cfg.defines, DefineFlag)
      && r[nd..nd + 2 * ns] == FlatMap(cfg.systemIncludes, SystemIncludeFlags)
      && r[nd + 2 * ns..] == FlatMap(cfg.localIncludes, LocalIncludeFlags(srcRoot))
  {
    DefineFlagsLayout(cfg.defines);
    SystemFlagsLayout(cfg.systemIncludes);
    LocalFlagsLayout(srcRoot, cfg.localIncludes);
  }

  /** The `-std=` flag of a language standard. */
  function StandardFlag(std: Option<Standard>): seq<string> {
    match std
    case None => []
    case Some(Cxx98) => ["-std=c++98"]
    case Some(Cxx0x) => ["-std=c++0x"]
    case Some(Cxx11) => ["-std=c++11"]
  }

  /** What goes between `-W` and the warning's name. */
  function StatePrefix(st: WarningState): string {
    match st
    case Error => "error="
    case Disabled => "no-"
    case Enabled => ""
  }

  /** The flag of one warning entry; gcc does not know `mismatched-tags`. */
  function WarningFlag(kind: CompilerKind): ((string, WarningState)) -> seq<string> {
    (e: (string, WarningState)) => if kind == GccKind && e.0 == "mismatched-tags" then [] else ["-W" + StatePrefix(e.1) + e.0]
  }

  /** The flags of `cflags` before the per-warning ones. */
  function CFlagsHead(cfg: ConfigValue): seq<string> {
    (if cfg.optimization != 0 then ["-O2"] else [])
      + (if cfg.debug then ["-g"] else [])
      + StandardFlag(cfg.standard)
      + (if cfg.warnings.default then ["-Wall"] else [])
  }

  /** `cflags(cfg)`. */
  function CFlagsOf(kind: CompilerKind, cfg: ConfigValue): seq<string> {
    CFlagsHead(cfg) + FlatMap(cfg.warnings.entries, WarningFlag(kind))
  }

  /** Every per-warning flag is `-W`, a state prefix and the name of a warning of the table. */
  lemma WarningFlagsShape(kind: CompilerKind, entries: seq<(string, WarningState)>)
    ensures forall f :: f in FlatMap(entries, WarningFlag(kind)) ==>
      exists i :: 0 <= i < |entries| && f == "-W" + StatePrefix(entries[i].1) + entries[i].0
  {
    forall f | f in FlatMap(entries, WarningFlag(kind))
      ensures exists i :: 0 <= i < |entries| && f == "-W" + StatePrefix(entries[i].1) + entries[i].0
    {
      FlatMapMember(entries, WarningFlag(kind), f);
    }
  }

  /** Every per-warning flag starts with `-W`. */
  lemma WarningFlagsPrefix(kind: CompilerKind, entries: seq<(string, WarningState)>)
    ensures forall f :: f in FlatMap(entries, WarningFlag(kind)) ==> |f| >= 2 && f[0] == '-' && f[1] == 'W'
  {
    WarningFlagsShape(kind, entries);
  }

  /** Under clang, each entry gives exactly one flag, in table order. */
  lemma WarningFlagsClang(entries: seq<(string, WarningState)>)
    ensures var r := FlatMap(entries, WarningFlag(ClangKind));
      |r| == |entries| && forall i :: 0 <= i < |entries| ==> r[i] == "-W" + StatePrefix(entries[i].1) + entries[i].0
  {
    FlatMapUniform(entries, WarningFlag(ClangKind), 1);
    var r := FlatMap(entries, WarningFlag(ClangKind));
    forall i | 0 <= i < |entries| ensures r[i] == "-W" + StatePrefix(entries[i].1) + entries[i].0 {
      assert r[1 * i + 0] == WarningFlag(ClangKind)(entries[i])[0];
    }
  }

  /** The entries other than `mismatched-tags`, in order. */
  function WithoutMismatchedTags(entries: seq<(string, WarningState)>): seq<(string, WarningState)>
    decreases |entries|
  {
    if |entries| == 0 then []
    else
      var last := entries[|entries| - 1];
      WithoutMismatchedTags(entries[..|entries| - 1]) + (if last.0 == "mismatched-tags" then [] else [last])
  }

  /** Under gcc the flags are clang's flags for the table without `mismatched-tags`. */
  lemma {:induction false} WarningFlagsGcc(entries: seq<(string, WarningState)>)
    ensures FlatMap(entries, WarningFlag(GccKind)) == FlatMap(WithoutMismatchedTags(entries), WarningFlag(ClangKind))
    decreases |entries|
  {
    if |entries| > 0 {
      var init := entries[..|entries| - 1];
      var last := entries[|entries| - 1];
      WarningFlagsGcc(init);
      var kept := if last.0 == "mismatched-tags" then [] else [last];
      FlatMapAppend(WithoutMismatchedTags(init), kept, WarningFlag(ClangKind));
      if kept != [] {
        assert FlatMap(kept, WarningFlag(ClangKind)) == FlatMap([], WarningFlag(ClangKind)) + WarningFlag(ClangKind)(last) by {
          assert kept[..0] == [];
        }
      }
    }
  }

  /** `-O2` is passed iff optimisation is not 0. */
  lemma CFlagsOptimization(kind: CompilerKind, cfg: ConfigValue)
    ensures "-O2" in CFlagsOf(kind, cfg) <==> cfg.optimization != 0
  {
    var w := FlatMap(cfg.warnings.entries, WarningFlag(kind));
    assert "-O2" !in w by {
      WarningFlagsPrefix(kind, cfg.warnings.entries);
      assert "-O2"[1] != 'W';
    }
    assert "-O2" in CFlagsOf(kind, cfg) <==> "-O2" in CFlagsHead(cfg);
  }

  /** `-g` is passed iff debug symbols are on. */
  lemma CFlagsDebug(kind: CompilerKind, cfg: ConfigValue)
    ensures "-g" in CFlagsOf(kind, cfg) <==> cfg.debug
  {
    var w := FlatMap(cfg.warnings.entries, WarningFlag(kind));
    assert "-g" !in w by {
      WarningFlagsPrefix(kind, cfg.warnings.entries);
      assert "-g"[1] != 'W';
    }
    assert "-g" in CFlagsOf(kind, cfg) <==> "-g" in CFlagsHead(cfg);
  }

  /** The `-std=` flag of a standard is passed iff that standard is selected. */
  lemma CFlagsStandard(kind: CompilerKind, cfg: ConfigValue, std: Standard)
    ensures StandardFlag(Some(std))[0] in CFlagsOf(kind, cfg) <==> cfg.standard == Some(std)
  {
    var f := StandardFlag(Some(std))[0];
    var w := FlatMap(cfg.warnings.entries, WarningFlag(kind));
    StandardFlagNotWarning(kind, cfg.warnings.entries, std);
    var a := if cfg.optimization != 0 then ["-O2"] else [];
    var b := if cfg.debug then ["-g"] else [];
    var c := StandardFlag(cfg.standard);
    var d := if cfg.warnings.default then ["-Wall"] else [];
    assert CFlagsOf(kind, cfg) == a + b + c + d + w;
    assert f != "-O2" && f != "-g" && f != "-Wall";
    StandardFlagMember(cfg.standard, std);
    assert f in a + b + c + d + w <==> f in c;
  }

  lemma StandardFlagNotWarning(kind: CompilerKind, entries: seq<(string, WarningState)>, std: Standard)
    ensures StandardFlag(Some(std))[0] !in FlatMap(entries, WarningFlag(kind))
  {
    var f := StandardFlag(Some(std))[0];
    assert |f| >= 2 && f[1] == 's' by {
      match std
      case Cxx98 => assert f == "-std=c++98";
      case Cxx0x => assert f == "-std=c++0x";
      case Cxx11 => assert f == "-std=c++11";
    }
    WarningFlagsPrefix(kind, entries);
  }

  lemma StandardFlagMember(s: Option<Standard>, std: Standard)
    ensures StandardFlag(Some(std))[0] in StandardFlag(s) <==> s == Some(std)
  {
  }

  /** No flag of a warning other than `all` reads `-Wall`. */
  lemma WarningFlagNotAll(kind: CompilerKind, e: (string, WarningState))
    requires e.0 != "all"
    ensures "-Wall" !in WarningFlag(kind)(e)
  {
    var f := "-W" + StatePrefix(e.1) + e.0;
    assert f[2..] == StatePrefix(e.1) + e.0;
    match e.1
    case Enabled =>
      assert f[2..] == e.0;
    case Disabled =>
      assert f[2] == 'n';
    case Error =>
      assert f[2] == 'e';
  }

  /** `-Wall` is passed iff the table's default switch is on. */
  lemma CFlagsWall(kind: CompilerKind, cfg: ConfigValue)
    requires ValidTable(cfg.warnings)
    ensures "-Wall" in CFlagsOf(kind, cfg) <==> cfg.warnings.default
  {
    var e := cfg.warnings.entries;
    var w := FlatMap(e, WarningFlag(kind));
    assert "-Wall" !in w by {
      ValidTableHasNoAll(cfg.warnings);
      forall i | 0 <= i < |e| ensures "-Wall" !in WarningFlag(kind)(e[i]) {
        WarningFlagNotAll(kind, e[i]);
      }
      FlatMapMember(e, WarningFlag(kind), "-Wall");
    }
    CFlagsHeadWall(cfg);
  }

  lemma CFlagsHeadWall(cfg: ConfigValue)
    ensures "-Wall" in CFlagsHead(cfg) <==> cfg.warnings.default
  {
    var c := StandardFlag(cfg.standard);
    assert "-Wall" !in c by {
      match cfg.standard
      case None =>
      case Some(std) => assert c[0][1] == 's';
    }
  }
  /**
   * `enable_warnings(value)`: as written `-Wall` stays as the table had it,
   * whatever `value` is; with the default switch set, as intended, `-Wall`
   * follows `value`.
   */
  lemma EnableWarningsWall(kind: CompilerKind, cfg: ConfigValue, value: bool)
    requires ValidTable(cfg.warnings)
    ensures "-Wall" in CFlagsOf(kind, cfg.(warnings := AssignDefaultAsWritten(cfg.warnings, value))) <==> cfg.warnings.default
    ensures "-Wall" in CFlagsOf(kind, cfg.(warnings := cfg.warnings.(default := value))) <==> value
  {
    AssignDefaultAsWrittenUnchanged(cfg.warnings, value);
    CFlagsWall(kind, cfg);
    CFlagsWall(kind, cfg.(warnings := cfg.warnings.(default := value)));
  }

  /**
   * Every table starts on by default and nothing else sets the switch, so
   * the visible case is `enable_warnings(False)` on a fresh configuration:
   * as written `cflags` still has `-Wall`; as intended it has not.
   */
  lemma EnableWarningsFinding(kind: CompilerKind)
    ensures "-Wall" in CFlagsOf(kind, EmptyValue.(warnings := AssignDefaultAsWritten(EmptyValue.warnings, false)))
    ensures "-Wall" !in CFlagsOf(kind, EmptyValue.(warnings := EmptyValue.warnings.(default := false)))
  {
    assert ValidTable(EmptyValue.warnings) by {
      assert Keys(EmptyValue.warnings.entries) == [];
    }
    EnableWarningsWall(kind, EmptyValue, false);
  }

  /** `ldflags(cfg)`. */
  function LdFlagsOf(os: OS, cfg: ConfigValue): seq<string> {
    (if cfg.exportDynamic == Some(true) && os == Linux then ["-rdynamic"] else [])
      + (if os == Windows then ["-static-libgcc", "-static-libstdc++", "-static", "-lwinpthread", "-dynamic"] else [])
  }

  /** `-rdynamic` only on Linux when export is requested; on Windows the runtime is linked statically. */
  lemma LdFlagsSpec(os: OS, cfg: ConfigValue)
    ensures "-rdynamic" in LdFlagsOf(os, cfg) <==> os == Linux && cfg.exportDynamic == Some(true)
    ensures "-static" in LdFlagsOf(os, cfg) <==> os == Windows
    ensures os == MacOS ==> LdFlagsOf(os, cfg) == []
  {
  }

  /** `c and self.c or self.cxx`: an empty C driver falls back to the C++ one. */
  function Driver(c: bool, cc: string, cxx: string): (r: string)
    ensures c && cc != "" ==> r == cc
    ensures !c || cc == "" ==> r == cxx
  {
    if c && cc != "" then cc else cxx
  }

  /** `-fPIC`, except on Windows. */
  function PicFlag(os: OS, pic: bool): seq<string> {
    if pic && os != Windows then ["-fPIC"] else []
  }

  /** `compile(cfg, src, obj, c, pic)`, given the compiler flags of the configuration. */
  function CompileOf(driver: string, os: OS, flags: seq<string>, cpp: seq<string>, cfl: seq<string>,
                     src: Path, obj: Path, pic: bool): seq<string> {
    [driver] + flags + cpp + cfl + PicFlag(os, pic) + ["-c", Show(src), "-o", Show(obj)]
  }

  /**
   * The driver comes first and `-c src -o obj` last; `-fPIC` sits right
   * before them exactly when position independence is asked for off
   * Windows, and nothing else changes with `pic`.
   */
  lemma CompileLayout(driver: string, os: OS, flags: seq<string>, cpp: seq<string>, cfl: seq<string>,
                      src: Path, obj: Path, pic: bool)
    ensures var r := CompileOf(driver, os, flags, cpp, cfl, src, obj, pic);
      var n := 1 + |flags| + |cpp| + |cfl|;
      && r[0] == driver
      && r[1..n] == flags + cpp + cfl
      && (pic && os != Windows ==> |r| == n + 5 && r[n] == "-fPIC")
      && (!(pic && os != Windows) ==> |r| == n + 4)
      && r[|r| - 4..] == ["-c", Show(src), "-o", Show(obj)]
  {
    var r := CompileOf(driver, os, flags, cpp, cfl, src, obj, pic);
    var n := 1 + |flags| + |cpp| + |cfl|;
    assert r == ([driver] + flags + cpp + cfl) + (PicFlag(os, pic) + ["-c", Show(src), "-o", Show(obj)]);
    assert ([driver] + flags + cpp + cfl)[1..] == flags + cpp + cfl;
  }

  /** A detected toolkit compiles C sources with its C driver and everything else with its C++ driver. */
  lemma DetectedDriver(d: Detected, compiler: Option<string>, compilerC: Option<string>, os: Option<OS>,
                       versionRuns: bool, preprocessed: Result<string, int>, c: bool)
    requires Detect(compiler, compilerC, os, versionRuns, preprocessed) == Success(d)
    ensures Driver(c, d.c, d.cxx) == if c then d.c else d.cxx
  {
    DetectedCDriver(compiler, compilerC, os, versionRuns, preprocessed);
  }

  // ---------------------------------------------------------------------
  // Archiving (`archive`).

  predicate IsStaticLibNode(n: Node) {
    n.kind == StaticLib
  }

  predicate IsNotStaticLibNode(n: Node) {
    n.kind != StaticLib
  }

  function PathsOf(ns: seq<Node>): (r: seq<Path>)
    ensures |r| == |ns| && forall i :: 0 <= i < |ns| ==> r[i] == ns[i].path
  {
    seq(|ns|, i requires 0 <= i < |ns| => ns[i].path)
  }

  /** `str` of every path. */
  function ShowAll(ps: seq<Path>): (r: seq<string>)
    ensures |r| == |ps| && forall i :: 0 <= i < |ps| ==> r[i] == Show(ps[i])
  {
    seq(|ps|, i requires 0 <= i < |ps| => Show(ps[i]))
  }

  /**
   * The members `ar xv` reports, appended to `acc` under the temporary
   * directory: blank lines are skipped and any other line must start with
   * `x - `.
   */
  function ExtractListing(tmp: Path, acc: seq<Path>, lines: seq<string>): Result<seq<Path>, ToolkitError>
    decreases |lines|
  {
    if |lines| == 0 then Success(acc)
    else if lines[0] == "" then ExtractListing(tmp, acc, lines[1..])
    else if !StartsWith(lines[0], "x - ") then Failure(UnexpectedArchiveLine(lines[0]))
    else ExtractListing(tmp, acc + [Join(tmp, Parse(lines[0][4..]))], lines[1..])
  }

  /** The members of every archive in turn; `extract` is `ar xv` on one archive (`None` when it fails). */
  function ExtractArchives(tmp: Path, acc: seq<Path>, archives: seq<Path>, extract: Path -> Option<string>): Result<seq<Path>, ToolkitError>
    decreases |archives|
  {
    if |archives| == 0 then Success(acc)
    else match extract(archives[0])
      case None => Failure(ExtractionFailed(archives[0]))
      case Some(out) =>
        match ExtractListing(tmp, acc, Split(out, '\n'))
        case Failure(e) => Failure(e)
        case Success(next) => ExtractArchives(tmp, next, archives[1..], extract)
  }

  /** The static libraries whose members are re-archived: the configuration's, then the given ones. */
  function ArchivesToExtract(cfg: ConfigValue, objs: seq<Node>): seq<Path> {
    PathsOf(Filter(cfg.libraries, IsStaticLibNode) + Filter(objs, IsStaticLibNode))
  }

  /** `archive(builder, cfg, objs, lib)`: the `ar crs` and `ranlib` command lines. */
  function ArchiveOf(tmp: Path, cfg: ConfigValue, objs: seq<Node>, lib: Path, extract: Path -> Option<string>)
    : Result<(seq<string>, seq<string>), ToolkitError>
  {
    match ExtractArchives(tmp, [], ArchivesToExtract(cfg, objs), extract)
    case Failure(e) => Failure(e)
    case Success(members) =>
      Success((["ar", "crs", Show(lib)] + ShowAll(members + PathsOf(Filter(objs, IsNotStaticLibNode))), ["ranlib", Show(lib)]))
  }

  /** The listing `ar xv` prints for members `ms`. */
  function Listing(ms: seq<string>): (r: seq<string>)
    ensures |r| == |ms| && forall i :: 0 <= i < |ms| ==> r[i] == "x - " + ms[i]
  {
    seq(|ms|, i requires 0 <= i < |ms| => "x - " + ms[i])
  }

  /** Where the members `ms` land under the temporary directory. */
  function MemberPaths(tmp: Path, ms: seq<string>): (r: seq<Path>)
    ensures |r| == |ms| && forall i :: 0 <= i < |ms| ==> r[i] == Join(tmp, Parse(ms[i]))
    decreases |ms|
  {
    if |ms| == 0 then [] else [Join(tmp, Parse(ms[0]))] + MemberPaths(tmp, ms[1..])
  }

  /** One `x - m` line adds the member `m`. */
  lemma ExtractListingLine(tmp: Path, acc: seq<Path>, m: string, rest: seq<string>)
    ensures ExtractListing(tmp, acc, ["x - " + m] + rest) == ExtractListing(tmp, acc + [Join(tmp, Parse(m))], rest)
  {
    var lines := ["x - " + m] + rest;
    assert lines[0] == "x - " + m && lines[1..] == rest;
    assert lines[0] != "" by { assert |lines[0]| == 4 + |m|; }
    assert StartsWith(lines[0], "x - ");
    assert lines[0][4..] == m;
  }

  lemma ListingCons(ms: seq<string>)
    requires |ms| > 0
    ensures Listing(ms) == ["x - " + ms[0]] + Listing(ms[1..])
  {
  }

  /** Reading back a listing gives its members, in order, under the temporary directory. */
  lemma {:induction false} ExtractListingMembers(tmp: Path, acc: seq<Path>, ms: seq<string>)
    ensures ExtractListing(tmp, acc, Listing(ms)) == Success(acc + MemberPaths(tmp, ms))
    decreases |ms|
  {
    if |ms| > 0 {
      ListingCons(ms);
      ExtractListingLine(tmp, acc, ms[0], Listing(ms[1..]));
      ExtractListingMembers(tmp, acc + [Join(tmp, Parse(ms[0]))], ms[1..]);
      assert acc + MemberPaths(tmp, ms) == (acc + [Join(tmp, Parse(ms[0]))]) + MemberPaths(tmp, ms[1..]);
    } else {
      assert Listing(ms) == [];
      assert acc + MemberPaths(tmp, ms) == acc;
    }
  }

  /** A listing line that is neither blank nor `x - ...`. */
  predicate BadListingLine(line: string) {
    line != "" && !StartsWith(line, "x - ")
  }

  /** Reading a listing fails exactly when some line is malformed, and then on the first one. */
  lemma {:induction false} ExtractListingFailure(tmp: Path, acc: seq<Path>, lines: seq<string>)
    ensures ExtractListing(tmp, acc, lines).Failure? <==> exists k :: 0 <= k < |lines| && BadListingLine(lines[k])
    ensures ExtractListing(tmp, acc, lines).Failure? ==>
      exists k :: 0 <= k < |lines| && BadListingLine(lines[k]) && (forall j :: 0 <= j < k ==> !BadListingLine(lines[j]))
        && ExtractListing(tmp, acc, lines).error == UnexpectedArchiveLine(lines[k])
    decreases |lines|
  {
    if |lines| > 0 {
      if !BadListingLine(lines[0]) {
        var next := if lines[0] == "" then acc else acc + [Join(tmp, Parse(lines[0][4..]))];
        ExtractListingFailure(tmp, next, lines[1..]);
        assert ExtractListing(tmp, acc, lines) == ExtractListing(tmp, next, lines[1..]);
        if exists k :: 0 <= k < |lines| && BadListingLine(lines[k]) {
          var k :| 0 <= k < |lines| && BadListingLine(lines[k]);
          assert lines[1..][k - 1] == lines[k];
        }
        if ExtractListing(tmp, acc, lines).Failure? {
          var k :| 0 <= k < |lines[1..]| && BadListingLine(lines[1..][k]) && (forall j :: 0 <= j < k ==> !BadListingLine(lines[1..][j]))
            && ExtractListing(tmp, next, lines[1..]).error == UnexpectedArchiveLine(lines[1..][k]);
          assert forall j :: 0 <= j < k + 1 ==> !BadListingLine(lines[j]) by {
            forall j | 0 <= j < k + 1 ensures !BadListingLine(lines[j]) {
              if j > 0 {
                assert lines[j] == lines[1..][j - 1];
              }
            }
          }
        }
      }
    }
  }

  /** Without static libraries nothing is extracted, and the objects are archived as given. */
  lemma ArchiveWithoutStaticLibs(tmp: Path, cfg: ConfigValue, objs: seq<Node>, lib: Path, extract: Path -> Option<string>)
    requires forall i :: 0 <= i < |cfg.libraries| ==> cfg.libraries[i].kind != StaticLib
    requires forall i :: 0 <= i < |objs| ==> objs[i].kind != StaticLib
    ensures ArchiveOf(tmp, cfg, objs, lib, extract) == Success((["ar", "crs", Show(lib)] + ShowAll(PathsOf(objs)), ["ranlib", Show(lib)]))
  {
    FilterAll(objs, IsNotStaticLibNode);
    NoStaticLibs(cfg.libraries);
    NoStaticLibs(objs);
    assert ArchivesToExtract(cfg, objs) == [];
    var e: seq<Path> := [];
    assert e + PathsOf(objs) == PathsOf(objs);
  }

  lemma NoStaticLibs(ns: seq<Node>)
    requires forall i :: 0 <= i < |ns| ==> ns[i].kind != StaticLib
    ensures Filter(ns, IsStaticLibNode) == []
  {
    if |Filter(ns, IsStaticLibNode)| > 0 {
      var x := Filter(ns, IsStaticLibNode)[0];
      FilterMember(ns, IsStaticLibNode, x);
    }
  }

  // ---------------------------------------------------------------------
  // Naming the libraries to link (`__libraries_flags`).

  /** What a link line names by path: static and dynamic libraries, not modules. */
  predicate Linkable(k: Kind) {
    k == StaticLib || k == DynLib
  }

  /** The paths of `libs`, or the kind of the first one that cannot be linked. */
  function LinkPaths(libs: seq<Node>): Result<seq<string>, ToolkitError>
    decreases |libs|
  {
    if |libs| == 0 then Success([])
    else if !Linkable(libs[0].kind) then Failure(CannotLink(libs[0].kind))
    else match LinkPaths(libs[1..])
      case Failure(e) => Failure(e)
      case Success(rest) => Success([Show(libs[0].path)] + rest)
  }

  lemma {:induction false} LinkPathsSpec(libs: seq<Node>)
    ensures LinkPaths(libs).Success? <==> forall i :: 0 <= i < |libs| ==> Linkable(libs[i].kind)
    ensures LinkPaths(libs).Success? ==> LinkPaths(libs).value == ShowAll(PathsOf(libs))
    ensures LinkPaths(libs).Failure? ==>
      exists k :: 0 <= k < |libs| && !Linkable(libs[k].kind) && (forall j :: 0 <= j < k ==> Linkable(libs[j].kind))
        && LinkPaths(libs).error == CannotLink(libs[k].kind)
    decreases |libs|
  {
    if |libs| > 0 && Linkable(libs[0].kind) {
      var tail := libs[1..];
      LinkPathsSpec(tail);
      if forall i :: 0 <= i < |tail| ==> Linkable(tail[i].kind) {
        forall i | 0 <= i < |libs| ensures Linkable(libs[i].kind) {
          if i > 0 {
            assert libs[i] == tail[i - 1];
          }
        }
        assert ShowAll(PathsOf(libs)) == [Show(libs[0].path)] + ShowAll(PathsOf(tail));
      } else {
        var i :| 0 <= i < |tail| && !Linkable(tail[i].kind);
        assert libs[i + 1] == tail[i];
        var k :| 0 <= k < |tail| && !Linkable(tail[k].kind) && (forall j :: 0 <= j < k ==> Linkable(tail[j].kind))
          && LinkPaths(tail).error == CannotLink(tail[k].kind);
        assert libs[k + 1] == tail[k];
        forall j | 0 <= j < k + 1 ensures Linkable(libs[j].kind) {
          if j > 0 {
            assert libs[j] == tail[j - 1];
          }
        }
      }
    }
  }

  /** `-l%s` for each name. */
  function LinkFlags(names: seq<string>): (r: seq<string>)
    ensures |r| == |names| && forall i :: 0 <= i < |names| ==> r[i] == "-l" + names[i]
  {
    seq(|names|, i requires 0 <= i < |names| => "-l" + names[i])
  }

  /** The file names tried, in order, for the static version of `lib`. */
  function StaticCandidates(lib: string): seq<string> {
    ["lib" + lib + ".a", lib + ".a", lib + ".lib", "lib" + lib + ".lib"]
  }

  /** The first of `dir / name` that exists, for `name` in `names`. */
  function FirstExisting(dir: Path, names: seq<string>, isFile: Path -> bool): Option<Path>
    decreases |names|
  {
    if |names| == 0 then None
    else if isFile(Join(dir, Parse(names[0]))) then Some(Join(dir, Parse(names[0])))
    else FirstExisting(dir, names[1..], isFile)
  }

  lemma {:induction false} FirstExistingSpec(dir: Path, names: seq<string>, isFile: Path -> bool)
    ensures FirstExisting(dir, names, isFile).None? <==> forall k :: 0 <= k < |names| ==> !isFile(Join(dir, Parse(names[k])))
    ensures FirstExisting(dir, names, isFile).Some? ==>
      exists k :: 0 <= k < |names| && FirstExisting(dir, names, isFile).value == Join(dir, Parse(names[k]))
        && isFile(Join(dir, Parse(names[k]))) && forall j :: 0 <= j < k ==> !isFile(Join(dir, Parse(names[j])))
    decreases |names|
  {
    if |names| > 0 && !isFile(Join(dir, Parse(names[0]))) {
      var tail := names[1..];
      FirstExistingSpec(dir, tail, isFile);
      forall k | 0 < k < |names| ensures names[k] == tail[k - 1] { }
      if FirstExisting(dir, tail, isFile).Some? {
        var k :| 0 <= k < |tail| && FirstExisting(dir, tail, isFile).value == Join(dir, Parse(tail[k]))
          && isFile(Join(dir, Parse(tail[k]))) && forall j :: 0 <= j < k ==> !isFile(Join(dir, Parse(tail[j])));
        assert names[k + 1] == tail[k];
        assert forall j :: 0 <= j < k + 1 ==> !isFile(Join(dir, Parse(names[j])));
      }
    }
  }

  /** What one library directory contributes: its first candidate that exists, if any. */
  function DirHit(lib: string, isFile: Path -> bool): Path -> seq<Path> {
    (dir: Path) => var f := FirstExisting(dir, StaticCandidates(lib), isFile); if f.Some? then [f.value] else []
  }

  /**
   * The static library files found for `lib`: the directories are all
   * searched (the search stops at the first name of a directory, not at
   * the first directory), so each one that holds a candidate contributes it.
   */
  function StaticHits(lib: string, dirs: seq<Path>, isFile: Path -> bool): seq<Path> {
    FlatMap(dirs, DirHit(lib, isFile))
  }

  lemma StaticHitsSpec(lib: string, dirs: seq<Path>, isFile: Path -> bool)
    ensures forall p :: p in StaticHits(lib, dirs, isFile) <==>
      exists i :: 0 <= i < |dirs| && FirstExisting(dirs[i], StaticCandidates(lib), isFile) == Some(p)
    ensures |StaticHits(lib, dirs, isFile)| == 0 <==>
      forall i :: 0 <= i < |dirs| ==> FirstExisting(dirs[i], StaticCandidates(lib), isFile).None?
  {
    var f := DirHit(lib, isFile);
    forall p ensures p in StaticHits(lib, dirs, isFile) <==>
      exists i :: 0 <= i < |dirs| && FirstExisting(dirs[i], StaticCandidates(lib), isFile) == Some(p)
    {
      FlatMapMember(dirs, f, p);
    }
    if |StaticHits(lib, dirs, isFile)| > 0 {
      var p := StaticHits(lib, dirs, isFile)[0];
      assert p in StaticHits(lib, dirs, isFile);
    }
  }

  /** The static library files of every name, or the first name with none. */
  function StaticSearch(libs: seq<string>, dirs: seq<Path>, isFile: Path -> bool): Result<seq<string>, ToolkitError>
    decreases |libs|
  {
    if |libs| == 0 then Success([])
    else if |StaticHits(libs[0], dirs, isFile)| == 0 then Failure(StaticLibraryNotFound(libs[0]))
    else match StaticSearch(libs[1..], dirs, isFile)
      case Failure(e) => Failure(e)
      case Success(rest) => Success(ShowAll(StaticHits(libs[0], dirs, isFile)) + rest)
  }

  /** The search fails exactly when some name has no file, and then names the first one. */
  lemma {:induction false} StaticSearchFailure(libs: seq<string>, dirs: seq<Path>, isFile: Path -> bool)
    ensures StaticSearch(libs, dirs, isFile).Failure? <==> exists k :: 0 <= k < |libs| && |StaticHits(libs[k], dirs, isFile)| == 0
    ensures StaticSearch(libs, dirs, isFile).Failure? ==>
      exists k :: 0 <= k < |libs| && |StaticHits(libs[k], dirs, isFile)| == 0
        && (forall j :: 0 <= j < k ==> |StaticHits(libs[j], dirs, isFile)| > 0)
        && StaticSearch(libs, dirs, isFile).error == StaticLibraryNotFound(libs[k])
    decreases |libs|
  {
    if |libs| > 0 && |StaticHits(libs[0], dirs, isFile)| > 0 {
      var tail := libs[1..];
      StaticSearchFailure(tail, dirs, isFile);
      forall k | 0 < k < |libs| ensures libs[k] == tail[k - 1] { }
      if StaticSearch(tail, dirs, isFile).Failure? {
        var k :| 0 <= k < |tail| && |StaticHits(tail[k], dirs, isFile)| == 0
          && (forall j :: 0 <= j < k ==> |StaticHits(tail[j], dirs, isFile)| > 0)
          && StaticSearch(tail, dirs, isFile).error == StaticLibraryNotFound(tail[k]);
        assert libs[k + 1] == tail[k];
        assert forall j :: 0 <= j < k + 1 ==> |StaticHits(libs[j], dirs, isFile)| > 0;
      }
    }
  }

  /** The static libraries: `-Bstatic` switches on Linux, a search of the library path elsewhere. */
  function StaticFlags(os: OS, cfg: ConfigValue, isFile: Path -> bool): Result<seq<string>, ToolkitError> {
    var names := LibsStatic(cfg.libs);
    if |names| == 0 then Success([])
    else if os == Linux then Success(["-Wl,-Bstatic"] + LinkFlags(names) + ["-Wl,-Bdynamic"])
    else StaticSearch(names, cfg.libPaths, isFile)
  }

  function GroupOpen(recursive: bool): seq<string> {
    if recursive then ["-Wl,-("] else []
  }

  function GroupClose(recursive: bool): seq<string> {
    if recursive then ["-Wl,-)"] else []
  }

  /** What `__libraries_flags(cfg, libraries, cmd)` appends to `cmd`. */
  function LibrariesFlagsOf(os: OS, recursive: bool, cfg: ConfigValue, libraries: seq<Node>, isFile: Path -> bool)
    : Result<seq<string>, ToolkitError>
  {
    match LinkPaths(libraries)
    case Failure(e) => Failure(e)
    case Success(paths) =>
      match StaticFlags(os, cfg, isFile)
      case Failure(e) => Failure(e)
      case Success(statics) =>
        Success(paths + GroupOpen(recursive) + LinkFlags(LibsDynamic(cfg.libs)) + statics + GroupClose(recursive))
  }

  /**
   * Libraries are named by path first, then the dynamic `-l` flags, then
   * the static ones; on Linux no file is looked for, so the outcome only
   * depends on the kinds of the libraries.
   */
  lemma LibrariesFlagsLinux(recursive: bool, cfg: ConfigValue, libraries: seq<Node>, isFile: Path -> bool)
    requires forall i :: 0 <= i < |libraries| ==> Linkable(libraries[i].kind)
    ensures var st := LibsStatic(cfg.libs);
      LibrariesFlagsOf(Linux, recursive, cfg, libraries, isFile) == Success(
        ShowAll(PathsOf(libraries)) + GroupOpen(recursive) + LinkFlags(LibsDynamic(cfg.libs))
        + (if |st| == 0 then [] else ["-Wl,-Bstatic"] + LinkFlags(st) + ["-Wl,-Bdynamic"]) + GroupClose(recursive))
  {
    LinkPathsSpec(libraries);
  }

  /** A library that is not linkable makes the link fail, before any file is looked for. */
  lemma LibrariesFlagsUnlinkable(os: OS, recursive: bool, cfg: ConfigValue, libraries: seq<Node>, isFile: Path -> bool)
    ensures (exists i :: 0 <= i < |libraries| && !Linkable(libraries[i].kind)) <==>
      LibrariesFlagsOf(os, recursive, cfg, libraries, isFile).Failure? && LibrariesFlagsOf(os, recursive, cfg, libraries, isFile).error.CannotLink?
  {
    LinkPathsSpec(libraries);
    StaticSearchFailure(LibsStatic(cfg.libs), cfg.libPaths, isFile);
  }

  /** Off Linux, a static library is missing exactly when no library directory holds any of its candidate names. */
  lemma LibrariesFlagsMissingStatic(os: OS, recursive: bool, cfg: ConfigValue, libraries: seq<Node>, isFile: Path -> bool)
    requires os != Linux
    requires forall i :: 0 <= i < |libraries| ==> Linkable(libraries[i].kind)
    ensures var st := LibsStatic(cfg.libs);
      LibrariesFlagsOf(os, recursive, cfg, libraries, isFile).Failure? <==>
        exists k :: 0 <= k < |st| && NoStaticFile(st[k], cfg.libPaths, isFile)
  {
    var st := LibsStatic(cfg.libs);
    LinkPathsSpec(libraries);
    assert LibrariesFlagsOf(os, recursive, cfg, libraries, isFile).Failure? <==> StaticFlags(os, cfg, isFile).Failure?;
    StaticSearchFailure(st, cfg.libPaths, isFile);
    forall k | 0 <= k < |st| ensures |StaticHits(st[k], cfg.libPaths, isFile)| == 0 <==> NoStaticFile(st[k], cfg.libPaths, isFile) {
      StaticHitsSpec(st[k], cfg.libPaths, isFile);
    }
  }

  /** No library directory holds a candidate file for `lib`. */
  predicate NoStaticFile(lib: string, dirs: seq<Path>, isFile: Path -> bool) {
    forall i :: 0 <= i < |dirs| ==> FirstExisting(dirs[i], StaticCandidates(lib), isFile).None?
  }

  /** Bracketing the part after the paths, on the flag lists themselves. */
  lemma GroupBrackets(paths: seq<string>, dynamic: seq<string>, statics: seq<string>)
    ensures var flat := paths + GroupOpen(false) + dynamic + statics + GroupClose(false);
      && |paths| <= |flat|
      && paths + GroupOpen(true) + dynamic + statics + GroupClose(true)
         == flat[..|paths|] + ["-Wl,-("] + flat[|paths|..] + ["-Wl,-)"]
  {
    var flat := paths + GroupOpen(false) + dynamic + statics + GroupClose(false);
    assert flat == paths + (dynamic + statics);
    assert flat[..|paths|] == paths;
    assert flat[|paths|..] == dynamic + statics;
  }

  /** Recursive linkage only brackets the `-l` flags and the static libraries in a group. */
  lemma LibrariesFlagsGroup(os: OS, cfg: ConfigValue, libraries: seq<Node>, isFile: Path -> bool)
    ensures var flat := LibrariesFlagsOf(os, false, cfg, libraries, isFile);
      var grouped := LibrariesFlagsOf(os, true, cfg, libraries, isFile);
      && flat.Success? == grouped.Success?
      && (flat.Failure? ==> flat.error == grouped.error)
      && (flat.Success? ==>
            (|libraries| <= |flat.value|
             && grouped.value == flat.value[..|libraries|] + ["-Wl,-("] + flat.value[|libraries|..] + ["-Wl,-)"]))
  {
    var lp := LinkPaths(libraries);
    var sf := StaticFlags(os, cfg, isFile);
    if lp.Success? && sf.Success? {
      assert |lp.value| == |libraries| by { LinkPathsSpec(libraries); }
      GroupBrackets(lp.value, LinkFlags(LibsDynamic(cfg.libs)), sf.value);
    }
  }

  // ---------------------------------------------------------------------
  // Run paths (`rpath`, `rpath_set_command`).

  /** `rpath(path)`: a relative run path is taken from the binary's own directory. */
  function Rpath(os: OS, p: Path): Path {
    if p.absolute then p
    else Join(Rel(if os == MacOS then "@loader_path" else "$ORIGIN"), p)
  }

  /** The command that adds a run path to an installed binary. */
  function RpathSetCommand(os: OS, binary: Path, p: Path): seq<string> {
    if os == MacOS then ["install_name_tool", "-add_rpath", Show(Rpath(os, p)), Show(binary)]
    else ["patchelf", "--set-rpath", Show(Rpath(os, p)), Show(binary)]
  }

  /** Absolute run paths are kept; relative ones hang below the loader's directory, which stays relative. */
  lemma RpathSpec(os: OS, p: Path)
    ensures p.absolute ==> Rpath(os, p) == p
    ensures !p.absolute ==>
      (!Rpath(os, p).absolute && Rpath(os, p).parts == [if os == MacOS then "@loader_path" else "$ORIGIN"] + p.parts)
    ensures Rpath(os, Rpath(os, p)) == Rpath(os, p) <==> p.absolute
  {
    if !p.absolute {
      assert |Rpath(os, Rpath(os, p)).parts| == |p.parts| + 2;
    }
  }

  /** Written out, a relative run path on Linux is `$ORIGIN/` followed by the path. */
  lemma RpathOriginText(p: Path)
    requires !p.absolute && |p.parts| > 0
    ensures Show(Rpath(Linux, p)) == "$ORIGIN/" + Show(p)
  {
    JoinWithFirst(["$ORIGIN"] + p.parts, "/");
    assert (["$ORIGIN"] + p.parts)[1..] == p.parts;
  }

  /**
   * `rpath_set_command(binary, path)`: `install_name_tool` on macOS and
   * `patchelf` elsewhere, given the run path in its `rpath` form and then
   * the binary; an absolute run path is passed as it is.
   */
  lemma RpathSetCommandSpec(os: OS, binary: Path, p: Path)
    ensures var r := RpathSetCommand(os, binary, p);
      && |r| == 4
      && (r[0] == "install_name_tool" <==> os == MacOS)
      && (r[0] == "patchelf" <==> os != MacOS)
      && r[2] == Show(Rpath(os, p)) && r[3] == Show(binary)
      && (p.absolute ==> r[2] == Show(p))
  {
    RpathSpec(os, p);
  }

  // ---------------------------------------------------------------------
  // Linking (`link`, `dynlink`).

  function FrameworkPair(f: string): seq<string> {
    ["-framework", f]
  }

  function LibPathPair(p: Path): seq<string> {
    ["-L", Show(p)]
  }

  function RpathFlag(os: OS): Path -> seq<string> {
    (p: Path) => ["-Wl,-rpath," + Show(Rpath(os, p))]
  }

  /** What `link` and `dynlink` start with: the driver, the flags, frameworks, library path and run paths. */
  function LinkHead(os: OS, cxx: string, cfg: ConfigValue): seq<string> {
    [cxx] + cfg.flags + LdFlagsOf(os, cfg)
      + FlatMap(cfg.frameworks, FrameworkPair)
      + FlatMap(cfg.libPaths, LibPathPair)
      + FlatMap(cfg.rpath, RpathFlag(os))
  }

  /** Each framework gives `-framework` and its name, in order. */
  lemma FrameworkFlagsLayout(fs: seq<string>)
    ensures var r := FlatMap(fs, FrameworkPair);
      |r| == 2 * |fs| && forall i :: 0 <= i < |fs| ==> r[2 * i] == "-framework" && r[2 * i + 1] == fs[i]
  {
    FlatMapPairs(fs, FrameworkPair);
  }

  /** Each library directory gives `-L` and the directory, in order. */
  lemma LibPathFlagsLayout(dirs: seq<Path>)
    ensures var r := FlatMap(dirs, LibPathPair);
      |r| == 2 * |dirs| && forall i :: 0 <= i < |dirs| ==> r[2 * i] == "-L" && r[2 * i + 1] == Show(dirs[i])
  {
    FlatMapPairs(dirs, LibPathPair);
  }

  /** Each run path gives one `-rpath` flag holding its `rpath` form, in order. */
  lemma RpathFlagsLayout(os: OS, ps: seq<Path>)
    ensures var r := FlatMap(ps, RpathFlag(os));
      |r| == |ps| && forall i :: 0 <= i < |ps| ==> r[i] == "-Wl,-rpath," + Show(Rpath(os, ps[i]))
  {
    forall i | 0 <= i < |ps| ensures RpathFlag(os)(ps[i]) == ["-Wl,-rpath," + Show(Rpath(os, ps[i]))] { }
    FlatMapSingletons(ps, RpathFlag(os));
  }

  /** The directories of the libraries a dynamic library itself depends on. */
  function DependencyDirs(n: Node): (r: seq<string>)
    ensures n.kind != DynLib ==> r == []
    ensures n.kind == DynLib ==>
      (|r| == |n.dynamicLibraries| && forall j :: 0 <= j < |n.dynamicLibraries| ==> r[j] == Show(Dirname(n.dynamicLibraries[j])))
  {
    if n.kind != DynLib then []
    else seq(|n.dynamicLibraries|, j requires 0 <= j < |n.dynamicLibraries| => Show(Dirname(n.dynamicLibraries[j])))
  }

  /** The ordered set of `-rpath-link` directories on Linux. */
  function RpathLinkDirs(objs: seq<Node>): seq<string> {
    Union([], FlatMap(objs, DependencyDirs))
  }

  function RpathLinkFlag(d: string): seq<string> {
    ["-Wl,-rpath-link," + d]
  }

  /**
   * Each directory holding a dependency of a linked dynamic library is
   * given once, and no other.
   */
  lemma RpathLinkDirsSpec(objs: seq<Node>)
    ensures NoDup(RpathLinkDirs(objs))
    ensures forall d :: d in RpathLinkDirs(objs) <==>
      exists i, j :: 0 <= i < |objs| && objs[i].kind == DynLib && 0 <= j < |objs[i].dynamicLibraries|
        && d == Show(Dirname(objs[i].dynamicLibraries[j]))
  {
    var e: seq<string> := [];
    UnionNoDup(e, FlatMap(objs, DependencyDirs));
    UnionElements(e, FlatMap(objs, DependencyDirs));
    forall d ensures d in RpathLinkDirs(objs) <==>
      exists i, j :: 0 <= i < |objs| && objs[i].kind == DynLib && 0 <= j < |objs[i].dynamicLibraries|
        && d == Show(Dirname(objs[i].dynamicLibraries[j]))
    {
      FlatMapMember(objs, DependencyDirs, d);
      if exists i :: 0 <= i < |objs| && d in DependencyDirs(objs[i]) {
        var i :| 0 <= i < |objs| && d in DependencyDirs(objs[i]);
        var j :| 0 <= j < |DependencyDirs(objs[i])| && DependencyDirs(objs[i])[j] == d;
        assert 0 <= j < |objs[i].dynamicLibraries|;
      }
      if exists i, j :: (0 <= i < |objs| && objs[i].kind == DynLib && 0 <= j < |objs[i].dynamicLibraries|
                         && d == Show(Dirname(objs[i].dynamicLibraries[j]))) {
        var i, j :| 0 <= i < |objs| && objs[i].kind == DynLib && 0 <= j < |objs[i].dynamicLibraries|
          && d == Show(Dirname(objs[i].dynamicLibraries[j]));
        assert DependencyDirs(objs[i])[j] == d;
      }
    }
  }

  function IsLibraryNode(n: Node): bool {
    IsLibrary(n.kind)
  }

  function IsLinkableNode(n: Node): bool {
    Linkable(n.kind)
  }

  function IsNotLinkableNode(n: Node): bool {
    !Linkable(n.kind)
  }

  /** `-rpath-link` on Linux, undefined symbols left to load time on macOS. */
  function LinkPlatformFlags(os: OS, objs: seq<Node>): seq<string> {
    if os == Linux then FlatMap(RpathLinkDirs(objs), RpathLinkFlag)
    else if os == MacOS then ["-undefined", "dynamic_lookup"]
    else []
  }

  /** The dynamic libraries' own dependencies guide the linker on Linux, one flag per directory. */
  lemma LinkPlatformFlagsSpec(os: OS, objs: seq<Node>)
    ensures var m := LinkPlatformFlags(os, objs);
      var dirs := RpathLinkDirs(objs);
      && (os == Linux ==> |m| == |dirs| && forall k :: 0 <= k < |dirs| ==> m[k] == "-Wl,-rpath-link," + dirs[k])
      && (os != Linux ==> forall k :: 0 <= k < |m| ==> !StartsWith(m[k], "-Wl,-rpath-link,"))
  {
    FlatMapSingletons(RpathLinkDirs(objs), RpathLinkFlag);
    if os == MacOS {
      assert LinkPlatformFlags(os, objs)[0][..2] == "-u";
    }
  }

  /** `link(cfg, objs, exe)`: the command line that links an executable. */
  function LinkOf(os: OS, recursive: bool, cxx: string, cfg: ConfigValue, objs: seq<Node>, exe: Path, isFile: Path -> bool)
    : Result<seq<string>, ToolkitError>
  {
    match LibrariesFlagsOf(os, recursive, cfg, Filter(objs, IsLibraryNode), isFile)
    case Failure(e) => Failure(e)
    case Success(libs) =>
      Success(LinkHead(os, cxx, cfg) + LinkPlatformFlags(os, objs) + ShowAll(PathsOf(objs)) + ["-o", Show(exe)] + libs)
  }

  /**
   * Linking an executable fails to name a library exactly when a module is
   * among the objects: modules are libraries, so they are handed on, but
   * only static and dynamic libraries are linkable.
   */
  lemma LinkModule(os: OS, recursive: bool, cxx: string, cfg: ConfigValue, objs: seq<Node>, exe: Path, isFile: Path -> bool)
    ensures (exists i :: 0 <= i < |objs| && objs[i].kind == Module) <==>
      LinkOf(os, recursive, cxx, cfg, objs, exe, isFile) == Failure(CannotLink(Module))
  {
    var libs := Filter(objs, IsLibraryNode);
    LinkPathsSpec(libs);
    StaticSearchFailure(LibsStatic(cfg.libs), cfg.libPaths, isFile);
    if exists i :: 0 <= i < |objs| && objs[i].kind == Module {
      var i :| 0 <= i < |objs| && objs[i].kind == Module;
      FilterMember(objs, IsLibraryNode, objs[i]);
      var k :| 0 <= k < |libs| && libs[k] == objs[i];
      assert !Linkable(libs[k].kind);
    }
    if LinkPaths(libs).Failure? {
      var k :| 0 <= k < |libs| && !Linkable(libs[k].kind) && (forall j :: 0 <= j < k ==> Linkable(libs[j].kind))
        && LinkPaths(libs).error == CannotLink(libs[k].kind);
      assert libs[k] in libs;
      FilterMember(objs, IsLibraryNode, libs[k]);
      if LinkPaths(libs).error == CannotLink(Module) {
        var i :| 0 <= i < |objs| && objs[i] == libs[k];
        assert objs[i].kind == Module;
      }
    }
  }

  /** The install name on macOS, the shared object name on Linux. */
  function DynLinkPlatformFlags(os: OS, lib: Path): seq<string> {
    if os == MacOS then
      ["-undefined", "dynamic_lookup", "-Wl,-install_name,@rpath/" + Basename(lib), "-Wl,-headerpad_max_install_names"]
    else if os == Linux then ["-Wl,-soname," + Basename(lib)]
    else []
  }

  /** `dynlink(cfg, objs, lib)`: the command line that links a shared library or module. */
  function DynLinkOf(os: OS, recursive: bool, cxx: string, cfg: ConfigValue, objs: seq<Node>, lib: Path, isFile: Path -> bool)
    : Result<seq<string>, ToolkitError>
  {
    match LibrariesFlagsOf(os, recursive, cfg, Filter(objs, IsLinkableNode), isFile)
    case Failure(e) => Failure(e)
    case Success(libs) =>
      Success(LinkHead(os, cxx, cfg) + DynLinkPlatformFlags(os, lib)
        + ShowAll(PathsOf(Filter(objs, IsNotLinkableNode))) + ["-shared", "-o", Show(lib)] + libs)
  }

  /**
   * A shared library never fails on the kind of its objects: what cannot
   * be linked is passed as a plain input; only a missing static library,
   * off Linux, makes it fail.
   */
  lemma DynLinkFailure(os: OS, recursive: bool, cxx: string, cfg: ConfigValue, objs: seq<Node>, lib: Path, isFile: Path -> bool)
    ensures var r := DynLinkOf(os, recursive, cxx, cfg, objs, lib, isFile);
      r.Failure? ==> os != Linux && r.error.StaticLibraryNotFound?
  {
    var libs := Filter(objs, IsLinkableNode);
    forall i | 0 <= i < |libs| ensures Linkable(libs[i].kind) {
      assert libs[i] in libs;
      FilterMember(objs, IsLinkableNode, libs[i]);
    }
    LinkPathsSpec(libs);
    StaticSearchFailure(LibsStatic(cfg.libs), cfg.libPaths, isFile);
  }

  /** Every object of a shared library is on its command line: either passed as input or linked as a library. */
  lemma DynLinkObjects(os: OS, recursive: bool, cxx: string, cfg: ConfigValue, objs: seq<Node>, lib: Path, isFile: Path -> bool)
    requires DynLinkOf(os, recursive, cxx, cfg, objs, lib, isFile).Success?
    ensures forall o :: o in objs ==> Show(o.path) in DynLinkOf(os, recursive, cxx, cfg, objs, lib, isFile).value
  {
    forall o | o in objs ensures Show(o.path) in DynLinkOf(os, recursive, cxx, cfg, objs, lib, isFile).value {
      if Linkable(o.kind) {
        DynLinkLinkedObject(os, recursive, cxx, cfg, objs, lib, isFile, o);
      } else {
        DynLinkPlainObject(os, recursive, cxx, cfg, objs, lib, isFile, o);
      }
    }
  }

  /** The pieces of a successful shared-library link line, in order. */
  lemma DynLinkPieces(os: OS, recursive: bool, cxx: string, cfg: ConfigValue, objs: seq<Node>, lib: Path, isFile: Path -> bool)
    requires DynLinkOf(os, recursive, cxx, cfg, objs, lib, isFile).Success?
    ensures LibrariesFlagsOf(os, recursive, cfg, Filter(objs, IsLinkableNode), isFile).Success?
    ensures DynLinkOf(os, recursive, cxx, cfg, objs, lib, isFile).value
      == (LinkHead(os, cxx, cfg) + DynLinkPlatformFlags(os, lib)) + ShowAll(PathsOf(Filter(objs, IsNotLinkableNode)))
         + (["-shared", "-o", Show(lib)] + LibrariesFlagsOf(os, recursive, cfg, Filter(objs, IsLinkableNode), isFile).value)
  {
  }

  lemma DynLinkLinkedObject(os: OS, recursive: bool, cxx: string, cfg: ConfigValue, objs: seq<Node>, lib: Path,
                            isFile: Path -> bool, o: Node)
    requires DynLinkOf(os, recursive, cxx, cfg, objs, lib, isFile).Success?
    requires o in objs && Linkable(o.kind)
    ensures Show(o.path) in DynLinkOf(os, recursive, cxx, cfg, objs, lib, isFile).value
  {
    var linked := Filter(objs, IsLinkableNode);
    var d := LibrariesFlagsOf(os, recursive, cfg, linked, isFile).value;
    DynLinkPieces(os, recursive, cxx, cfg, objs, lib, isFile);
    assert Show(o.path) in d by {
      LibrariesFlagsPaths(os, recursive, cfg, linked, isFile);
      FilterMember(objs, IsLinkableNode, o);
      var k :| 0 <= k < |linked| && linked[k] == o;
      assert d[k] == Show(o.path);
    }
    InMiddle(LinkHead(os, cxx, cfg) + DynLinkPlatformFlags(os, lib) + ShowAll(PathsOf(Filter(objs, IsNotLinkableNode))),
      ["-shared", "-o", Show(lib)] + d, [], Show(o.path));
    assert (["-shared", "-o", Show(lib)] + d)[3..] == d;
  }


  /** The libraries handed over come first, each by its path. */
  lemma LibrariesFlagsPaths(os: OS, recursive: bool, cfg: ConfigValue, libraries: seq<Node>, isFile: Path -> bool)
    requires LibrariesFlagsOf(os, recursive, cfg, libraries, isFile).Success?
    ensures var r := LibrariesFlagsOf(os, recursive, cfg, libraries, isFile).value;
      |libraries| <= |r| && forall k :: 0 <= k < |libraries| ==> r[k] == Show(libraries[k].path)
  {
    var paths := LinkPaths(libraries).value;
    var r := LibrariesFlagsOf(os, recursive, cfg, libraries, isFile).value;
    assert r[..|paths|] == paths;
    assert paths == ShowAll(PathsOf(libraries)) by { LinkPathsSpec(libraries); }
  }

  lemma DynLinkPlainObject(os: OS, recursive: bool, cxx: string, cfg: ConfigValue, objs: seq<Node>, lib: Path,
                           isFile: Path -> bool, o: Node)
    requires DynLinkOf(os, recursive, cxx, cfg, objs, lib, isFile).Success?
    requires o in objs && !Linkable(o.kind)
    ensures Show(o.path) in DynLinkOf(os, recursive, cxx, cfg, objs, lib, isFile).value
  {
    var plain := Filter(objs, IsNotLinkableNode);
    var b := ShowAll(PathsOf(plain));
    DynLinkPieces(os, recursive, cxx, cfg, objs, lib, isFile);
    assert Show(o.path) in b by {
      FilterMember(objs, IsNotLinkableNode, o);
      var k :| 0 <= k < |plain| && plain[k] == o;
      assert b[k] == Show(o.path);
    }
    InMiddle(LinkHead(os, cxx, cfg) + DynLinkPlatformFlags(os, lib), b,
      ["-shared", "-o", Show(lib)] + LibrariesFlagsOf(os, recursive, cfg, Filter(objs, IsLinkableNode), isFile).value, Show(o.path));
  }


  // ---------------------------------------------------------------------
  // File names of the targets (`libname_static`, `libname_dyn`,
  // `libname_module`, `exename`).

  function LibnameStatic(p: Path): Path {
    Join(Dirname(p), Parse("lib" + Basename(p) + ".a"))
  }

  /** The shared-library extension of each platform. */
  function DynExtension(os: OS): string {
    match os
    case Linux => "so"
    case MacOS => "dylib"
    case Windows => "dll"
  }

  function LibnameDyn(os: OS, p: Path): Path {
    Join(Dirname(p), Parse("lib" + Basename(p) + "." + DynExtension(os)))
  }

  function LibnameModule(p: Path): Path {
    Join(Dirname(p), Parse(Basename(p) + ".so"))
  }

  function Exename(os: OS, p: Path): Path {
    if os == Windows then WithExtension(p, "exe") else p
  }

  /**
   * A static library `lib<name>.a`, a shared library `lib<name>.<ext>` and
   * a module `<name>.so` stay in the directory of the name they are made
   * from; the node class their extension is registered for is the class
   * that is built, except that `dll` is not registered and a module reads
   * back as a dynamic library (`StaticLibName`, `DynLibName`, `ModuleName`).
   */
  lemma StaticLibName(p: Path)
    requires PlainName(Basename(p))
    ensures Dirname(LibnameStatic(p)) == Dirname(p) && Basename(LibnameStatic(p)) == "lib" + Basename(p) + ".a"
    ensures KindOfExtension(Extension(LibnameStatic(p))) == Some(StaticLib)
  {
    var b := Basename(p);
    LibPrefixPlain(b);
    SiblingName(p, "lib" + b, "a");
    assert "lib" + b + ".a" == "lib" + b + "." + "a";
  }

  lemma DynLibName(os: OS, p: Path)
    requires PlainName(Basename(p))
    ensures Dirname(LibnameDyn(os, p)) == Dirname(p) && Extension(LibnameDyn(os, p)) == DynExtension(os)
    ensures KindOfExtension(Extension(LibnameDyn(os, p))) == if os == Windows then None else Some(DynLib)
  {
    var q := LibnameDyn(os, p);
    assert Dirname(q) == Dirname(p) && Extension(q) == DynExtension(os) by {
      LibPrefixPlain(Basename(p));
      SiblingName(p, "lib" + Basename(p), DynExtension(os));
    }
    DynExtensionKind(os);
  }

  /** Only the Windows extension is not registered as a dynamic library. */
  lemma DynExtensionKind(os: OS)
    ensures KindOfExtension(DynExtension(os)) == if os == Windows then None else Some(DynLib)
  {
  }

  lemma ModuleName(p: Path)
    requires PlainName(Basename(p))
    ensures Dirname(LibnameModule(p)) == Dirname(p) && Basename(LibnameModule(p)) == Basename(p) + ".so"
    ensures KindOfExtension(Extension(LibnameModule(p))) == Some(DynLib)
  {
    SiblingName(p, Basename(p), "so");
    assert Basename(p) + ".so" == Basename(p) + "." + "so";
  }

  lemma LibPrefixPlain(b: string)
    requires PlainName(b)
    ensures PlainName("lib" + b)
  {
    assert forall i :: 0 <= i < |b| ==> ("lib" + b)[i + 3] == b[i];
  }

  /** Executables get the `exe` extension on Windows only. */
  lemma ExenameSpec(os: OS, p: Path)
    requires |p.parts| > 0
    ensures os != Windows ==> Exename(os, p) == p
    ensures os == Windows ==> Extension(Exename(os, p)) == "exe" && Dirname(Exename(os, p)) == Dirname(p)
  {
    if os == Windows {
      WithExtensionSpec(p, "exe");
    }
  }

  // ---------------------------------------------------------------------
  // The compiler's own include path (`include_path`).

  const SearchStart := "#include <...> search starts here:"
  const SearchEnd := "End of search list."

  /** `line[1:]`. */
  function DropFirst(line: string): string {
    if |line| == 0 then "" else line[1..]
  }

  /**
   * The directories listed in the verbose preprocessor's error output:
   * the lines after the start marker, up to the end marker, each without
   * its leading space.
   */
  function IncludeDirs(lines: seq<string>, store: bool): seq<Path>
    decreases |lines|
  {
    if |lines| == 0 then []
    else if store then
      if lines[0] == SearchEnd then [] else [Parse(DropFirst(lines[0]))] + IncludeDirs(lines[1..], true)
    else IncludeDirs(lines[1..], lines[0] == SearchStart)
  }

  /** The include path, given the exit status and error output of `cxx -v -x c++ -E -`. */
  function IncludePathOf(probe: Result<string, int>): Result<seq<Path>, ToolkitError> {
    match probe
    case Failure(code) => Failure(IncludePathFailed(code))
    case Success(stderr) => Success(IncludeDirs(Split(stderr, '\n'), false))
  }

  /** The listing of `dirs` as the compiler prints it: one per line, after a space. */
  function IncludeListing(dirs: seq<Path>): (r: seq<string>)
    ensures |r| == |dirs| && forall i :: 0 <= i < |dirs| ==> r[i] == " " + Show(dirs[i])
    decreases |dirs|
  {
    if |dirs| == 0 then [] else [" " + Show(dirs[0])] + IncludeListing(dirs[1..])
  }

  /**
   * Whatever precedes the start marker and follows the end marker, the
   * directories listed between them are read back exactly.
   */
  lemma IncludeDirsRoundTrip(head: seq<string>, dirs: seq<Path>, tail: seq<string>)
    requires SearchStart !in head
    requires forall i :: 0 <= i < |dirs| ==> PlainParts(dirs[i].parts)
    ensures IncludeDirs(head + [SearchStart] + IncludeListing(dirs) + [SearchEnd] + tail, false) == dirs
  {
    var body := IncludeListing(dirs) + [SearchEnd] + tail;
    assert head + [SearchStart] + IncludeListing(dirs) + [SearchEnd] + tail == head + ([SearchStart] + body);
    IncludeDirsSkip(head, [SearchStart] + body);
    assert ([SearchStart] + body)[0] == SearchStart && ([SearchStart] + body)[1..] == body;
    IncludeListingStored(dirs, tail);
  }

  /** Lines before the start marker are not listed. */
  lemma {:induction false} IncludeDirsSkip(head: seq<string>, rest: seq<string>)
    requires SearchStart !in head
    ensures IncludeDirs(head + rest, false) == IncludeDirs(rest, false)
    decreases |head|
  {
    if |head| > 0 {
      var lines := head + rest;
      assert lines[0] == head[0] && head[0] in head;
      assert lines[1..] == head[1..] + rest;
      assert SearchStart !in head[1..];
      IncludeDirsSkip(head[1..], rest);
    } else {
      assert head + rest == rest;
    }
  }

  lemma {:induction false} IncludeListingStored(dirs: seq<Path>, tail: seq<string>)
    requires forall i :: 0 <= i < |dirs| ==> PlainParts(dirs[i].parts)
    ensures IncludeDirs(IncludeListing(dirs) + [SearchEnd] + tail, true) == dirs
    decreases |dirs|
  {
    if |dirs| > 0 {
      var rest := IncludeListing(dirs[1..]) + [SearchEnd] + tail;
      assert IncludeListing(dirs) + [SearchEnd] + tail == [" " + Show(dirs[0])] + rest;
      IncludeStoredLine(dirs[0], rest);
      IncludeListingStored(dirs[1..], tail);
      assert dirs == [dirs[0]] + dirs[1..];
    } else {
      assert IncludeListing(dirs) + [SearchEnd] + tail == [SearchEnd] + tail;
    }
  }

  /** While storing, one listed directory is read back and the scan goes on. */
  lemma IncludeStoredLine(d: Path, rest: seq<string>)
    requires PlainParts(d.parts)
    ensures IncludeDirs([" " + Show(d)] + rest, true) == [d] + IncludeDirs(rest, true)
  {
    var lines := [" " + Show(d)] + rest;
    IncludeLine(d);
    assert lines[0] == " " + Show(d) && lines[1..] == rest;
  }

  /** A listed directory is not the end marker and reads back as itself. */
  lemma IncludeLine(d: Path)
    requires PlainParts(d.parts)
    ensures " " + Show(d) != SearchEnd && Parse(DropFirst(" " + Show(d))) == d
  {
    assert (" " + Show(d))[0] != SearchEnd[0];
    assert DropFirst(" " + Show(d)) == Show(d);
    ParseShow(d);
  }

  /** Output without the start marker lists nothing. */
  lemma {:induction false} IncludeDirsNoMarker(lines: seq<string>)
    requires SearchStart !in lines
    ensures IncludeDirs(lines, false) == []
    decreases |lines|
  {
    if |lines| > 0 {
      assert lines == [lines[0]] + lines[1..];
      IncludeDirsNoMarker(lines[1..]);
    }
  }

  // ---------------------------------------------------------------------
  // The toolkit object.

  /** `object_extension()`. */
  const ObjectExtension := "o"

  /**
   * `GccToolkit`: the detected host and compiler, whether libraries are
   * linked as a recursive group, and the memoised include path. The
   * command lines are built step by step, as the source builds them, and
   * each method is proved to build the line its specification function
   * above describes.
   */
  class GccToolkit {
    var os: OS
    var kind: CompilerKind
    var cxx: string
    var c: string
    var recursiveLinkage: bool
    var includePath: Option<seq<Path>>

    constructor FromDetected(d: Detected)
      ensures os == d.os && kind == d.kind && cxx == d.cxx && c == d.c
      ensures !recursiveLinkage && includePath == None
    {
      os, kind, cxx, c := d.os, d.kind, d.cxx, d.c;
      recursiveLinkage := false;
      includePath := None;
    }

    /** `GccToolkit(compiler, compiler_c, os)`: the detection, or why it failed. */
    static method Create(compiler: Option<string>, compilerC: Option<string>, host: Option<OS>,
                         versionRuns: bool, preprocessed: Result<string, int>) returns (r: Result<GccToolkit, ToolkitError>)
      ensures var d := Detect(compiler, compilerC, host, versionRuns, preprocessed);
        && (d.Failure? ==> r == Failure(d.error))
        && (d.Success? ==>
              (r.Success? && fresh(r.value)
               && r.value.os == d.value.os && r.value.kind == d.value.kind
               && r.value.cxx == d.value.cxx && r.value.c == d.value.c
               && !r.value.recursiveLinkage && r.value.includePath == None))
    {
      var d := Detect(compiler, compilerC, host, versionRuns, preprocessed);
      if d.Failure? {
        return Failure(d.error);
      }
      var tk := new GccToolkit.FromDetected(d.value);
      return Success(tk);
    }

    /** `enable_recursive_linkage(doit)`. */
    method EnableRecursiveLinkage(doit: bool)
      modifies this
      ensures recursiveLinkage == doit
      ensures os == old(os) && kind == old(kind) && cxx == old(cxx) && c == old(c) && includePath == old(includePath)
    {
      recursiveLinkage := doit;
    }

    /** `cppflags(cfg)`: the macro, system include and local include flags. */
    method CppFlags(cfg: Config, srcRoot: Path) returns (res: seq<string>)
      ensures res == CppFlagsOf(cfg.Value(), srcRoot)
    {
      var defines := DefineFlags(cfg.defines);
      var system := SystemIncludeFlagsOf(cfg.systemIncludes);
      var local := LocalIncludeFlagsOf(cfg.localIncludes, srcRoot);
      res := defines + system + local;
    }

    /** The first loop of `cppflags`: one `-D` flag per macro. */
    method DefineFlags(defines: seq<Define>) returns (res: seq<string>)
      ensures res == FlatMap(defines, DefineFlag)
    {
      res := [];
      var i := 0;
      while i < |defines|
        invariant 0 <= i <= |defines|
        invariant res == FlatMap(defines[..i], DefineFlag)
      {
        var (name, v) := defines[i];
        assert defines[..i + 1][..i] == defines[..i];
        if v.None? {
          res := res + ["-D" + name];
        } else {
          res := res + ["-D" + name + "=" + v.value];
        }
        i := i + 1;
      }
      assert defines[..i] == defines;
    }

    /** The second loop: `-isystem` and the directory, per system include directory. */
    method SystemIncludeFlagsOf(system: seq<Path>) returns (res: seq<string>)
      ensures res == FlatMap(system, SystemIncludeFlags)
    {
      res := [];
      var i := 0;
      while i < |system|
        invariant 0 <= i <= |system|
        invariant res == FlatMap(system[..i], SystemIncludeFlags)
      {
        assert system[..i + 1][..i] == system[..i];
        res := res + ["-isystem"];
        res := res + [Show(system[i])];
        i := i + 1;
      }
      assert system[..i] == system;
    }

    /** The third loop: the directory under the source root, then as given, each after `-I`. */
    method LocalIncludeFlagsOf(local: seq<Path>, srcRoot: Path) returns (res: seq<string>)
      ensures res == FlatMap(local, LocalIncludeFlags(srcRoot))
    {
      res := [];
      var i := 0;
      while i < |local|
        invariant 0 <= i <= |local|
        invariant res == FlatMap(local[..i], LocalIncludeFlags(srcRoot))
      {
        assert local[..i + 1][..i] == local[..i];
        res := res + ["-I"];
        res := res + [Show(Join(srcRoot, local[i]))];
        res := res + ["-I"];
        res := res + [Show(local[i])];
        i := i + 1;
      }
      assert local[..i] == local;
    }

    /** `cflags(cfg)`: optimisation, debug, standard, then one flag per warning. */
    method CFlags(cfg: Config) returns (res: seq<string>)
      ensures res == CFlagsOf(kind, cfg.Value())
    {
      var v := cfg.Value();
      res := [];
      if v.optimization != 0 {
        res := res + ["-O2"];
      }
      if v.debug {
        res := res + ["-g"];
      }
      res := res + StandardFlag(v.standard);
      if v.warnings.default {
        res := res + ["-Wall"];
      }
      assert res == CFlagsHead(v);
      var w := WarningFlags(v.warnings.entries);
      res := res + w;
    }

    /** The loop of `cflags` over the warning table. */
    method WarningFlags(entries: seq<(string, WarningState)>) returns (res: seq<string>)
      ensures res == FlatMap(entries, WarningFlag(kind))
    {
      res := [];
      var i := 0;
      while i < |entries|
        invariant 0 <= i <= |entries|
        invariant res == FlatMap(entries[..i], WarningFlag(kind))
      {
        var (warning, enable) := entries[i];
        assert entries[..i + 1][..i] == entries[..i];
        if !(kind == GccKind && warning == "mismatched-tags") {
          var prefix := if enable == Error then "error=" else if enable == Disabled then "no-" else "";
          res := res + ["-W" + prefix + warning];
        }
        i := i + 1;
      }
      assert entries[..i] == entries;
    }

    /** `compile(cfg, src, obj, c, pic)`. */
    method Compile(cfg: Config, srcRoot: Path, src: Path, obj: Path, useC: bool, pic: bool) returns (res: seq<string>)
      ensures res == CompileOf(Driver(useC, c, cxx), os, cfg.flags, CppFlagsOf(cfg.Value(), srcRoot), CFlagsOf(kind, cfg.Value()),
                               src, obj, pic)
    {
      var extra: seq<string> := [];
      if pic && os != Windows {
        extra := extra + ["-fPIC"];
      }
      assert extra == PicFlag(os, pic);
      var driver := if useC && c != "" then c else cxx;
      var cpp := CppFlags(cfg, srcRoot);
      var cfl := CFlags(cfg);
      res := [driver] + cfg.flags + cpp + cfl + extra + ["-c", Show(src), "-o", Show(obj)];
    }

    /**
     * `include_path`: probed once with `cxx -v -x c++ -E -` (`probe` is its
     * error output or its failing status), then remembered.
     */
    method IncludePath(probe: Result<string, int>) returns (r: Result<seq<Path>, ToolkitError>)
      modifies this
      ensures old(includePath).Some? ==> r == Success(old(includePath).value) && includePath == old(includePath)
      ensures old(includePath).None? ==> r == IncludePathOf(probe)
      ensures old(includePath).None? ==> includePath == if r.Success? then Some(r.value) else None
      ensures os == old(os) && kind == old(kind) && cxx == old(cxx) && c == old(c) && recursiveLinkage == old(recursiveLinkage)
    {
      if includePath.Some? {
        return Success(includePath.value);
      }
      if probe.Failure? {
        return Failure(IncludePathFailed(probe.error));
      }
      var lines := Split(probe.value, '\n');
      var store := false;
      var dirs: seq<Path> := [];
      var i := 0;
      while i < |lines|
        invariant 0 <= i <= |lines|
        invariant dirs + IncludeDirs(lines[i..], store) == IncludeDirs(lines, false)
      {
        var line := lines[i];
        assert lines[i..][1..] == lines[i + 1..];
        if store {
          if line == SearchEnd {
            assert IncludeDirs(lines[i..], store) == [];
            break;
          }
          dirs := dirs + [Parse(DropFirst(line))];
        } else if line == SearchStart {
          store := true;
        }
        i := i + 1;
      }
      if i == |lines| {
        assert lines[i..] == [];
      }
      assert dirs == IncludeDirs(lines, false);
      includePath := Some(dirs);
      return Success(dirs);
    }
  
    /**
     * `archive(builder, cfg, objs, lib)`: the members of every static
     * library, extracted into `tmp` by `extract` (`ar xv`), are archived
     * with the other objects.
     */
    method Archive(tmp: Path, cfg: Config, objs: seq<Node>, lib: Path, extract: Path -> Option<string>)
      returns (r: Result<(seq<string>, seq<string>), ToolkitError>)
      ensures r == ArchiveOf(tmp, cfg.Value(), objs, lib, extract)
    {
      var archives := ArchivesToExtract(cfg.Value(), objs);
      var objects: seq<Path> := [];
      var i := 0;
      while i < |archives|
        invariant 0 <= i <= |archives|
        invariant ExtractArchives(tmp, objects, archives[i..], extract) == ExtractArchives(tmp, [], archives, extract)
      {
        var out := extract(archives[i]);
        if out.None? {
          return Failure(ExtractionFailed(archives[i]));
        }
        var listed := ReadListing(tmp, objects, Split(out.value, '\n'));
        if listed.Failure? {
          return Failure(listed.error);
        }
        assert archives[i..][1..] == archives[i + 1..];
        objects := listed.value;
        i := i + 1;
      }
      assert archives[i..] == [];
      var plain := Filter(objs, IsNotStaticLibNode);
      var j := 0;
      while j < |plain|
        invariant 0 <= j <= |plain|
        invariant objects == ExtractArchives(tmp, [], archives, extract).value + PathsOf(plain[..j])
      {
        objects := objects + [plain[j].path];
        assert PathsOf(plain[..j + 1]) == PathsOf(plain[..j]) + [plain[j].path];
        j := j + 1;
      }
      assert plain[..j] == plain;
      return Success((["ar", "crs", Show(lib)] + ShowAll(objects), ["ranlib", Show(lib)]));
    }

    /** The loop of `archive` over the lines `ar xv` printed for one library. */
    method ReadListing(tmp: Path, objects: seq<Path>, lines: seq<string>) returns (r: Result<seq<Path>, ToolkitError>)
      ensures r == ExtractListing(tmp, objects, lines)
    {
      var acc := objects;
      var i := 0;
      while i < |lines|
        invariant 0 <= i <= |lines|
        invariant ExtractListing(tmp, acc, lines[i..]) == ExtractListing(tmp, objects, lines)
      {
        var line := lines[i];
        assert lines[i..][1..] == lines[i + 1..];
        if line != "" {
          if !StartsWith(line, "x - ") {
            return Failure(UnexpectedArchiveLine(line));
          }
          acc := acc + [Join(tmp, Parse(line[4..]))];
        }
        i := i + 1;
      }
      assert lines[i..] == [];
      return Success(acc);
    }

    /**
     * `__libraries_flags(cfg, libraries, cmd)`: what it appends to `cmd`,
     * with `isFile` telling which files exist.
     */
    method LibrariesFlags(cfg: Config, libraries: seq<Node>, isFile: Path -> bool) returns (r: Result<seq<string>, ToolkitError>)
      ensures r == LibrariesFlagsOf(os, recursiveLinkage, cfg.Value(), libraries, isFile)
    {
      ghost var v := cfg.Value();
      var paths := LibraryPaths(libraries);
      if paths.Failure? {
        return Failure(paths.error);
      }
      var dynamic := DynamicFlags(LibsDynamic(cfg.libs));
      assert dynamic == LinkFlags(LibsDynamic(v.libs));
      var statics := StaticLibrariesFlags(cfg, isFile);
      if statics.Failure? {
        return Failure(statics.error);
      }
      var cmd := paths.value + GroupOpen(recursiveLinkage) + dynamic + statics.value + GroupClose(recursiveLinkage);
      return Success(cmd);
    }

    /** The first loop of `__libraries_flags`: each library by its path, or the error for one that cannot be linked. */
    method LibraryPaths(libraries: seq<Node>) returns (r: Result<seq<string>, ToolkitError>)
      ensures r == LinkPaths(libraries)
    {
      var cmd: seq<string> := [];
      var i := 0;
      while i < |libraries|
        invariant 0 <= i <= |libraries|
        invariant cmd == ShowAll(PathsOf(libraries[..i]))
        invariant forall j :: 0 <= j < i ==> Linkable(libraries[j].kind)
      {
        if !Linkable(libraries[i].kind) {
          LinkPathsSpec(libraries);
          return Failure(CannotLink(libraries[i].kind));
        }
        cmd := cmd + [Show(libraries[i].path)];
        assert ShowAll(PathsOf(libraries[..i + 1])) == ShowAll(PathsOf(libraries[..i])) + [Show(libraries[i].path)];
        i := i + 1;
      }
      assert libraries[..i] == libraries;
      LinkPathsSpec(libraries);
      return Success(cmd);
    }

    /** One `-l` flag per dynamic library. */
    method DynamicFlags(dynamic: seq<string>) returns (cmd: seq<string>)
      ensures cmd == LinkFlags(dynamic)
    {
      cmd := [];
      var k := 0;
      while k < |dynamic|
        invariant 0 <= k <= |dynamic|
        invariant cmd == LinkFlags(dynamic[..k])
      {
        cmd := cmd + ["-l" + dynamic[k]];
        assert LinkFlags(dynamic[..k + 1]) == LinkFlags(dynamic[..k]) + ["-l" + dynamic[k]];
        k := k + 1;
      }
      assert dynamic[..k] == dynamic;
    }

    /** The static half of `__libraries_flags`. */
    method StaticLibrariesFlags(cfg: Config, isFile: Path -> bool) returns (r: Result<seq<string>, ToolkitError>)
      ensures r == StaticFlags(os, cfg.Value(), isFile)
    {
      var statics := LibsStatic(cfg.libs);
      var cmd: seq<string> := [];
      if |statics| == 0 {
        return Success(cmd);
      }
      if os != MacOS && os != Windows {
        cmd := cmd + ["-Wl,-Bstatic"];
        var k := 0;
        while k < |statics|
          invariant 0 <= k <= |statics|
          invariant cmd == ["-Wl,-Bstatic"] + LinkFlags(statics[..k])
        {
          cmd := cmd + ["-l" + statics[k]];
          assert LinkFlags(statics[..k + 1]) == LinkFlags(statics[..k]) + ["-l" + statics[k]];
          k := k + 1;
        }
        assert statics[..k] == statics;
        cmd := cmd + ["-Wl,-Bdynamic"];
        return Success(cmd);
      }
      var k := 0;
      ThenEmpty(StaticSearch(statics, cfg.libPaths, isFile));
      while k < |statics|
        invariant 0 <= k <= |statics|
        invariant Then(cmd, StaticSearch(statics[k..], cfg.libPaths, isFile)) == StaticSearch(statics, cfg.libPaths, isFile)
      {
        var hits := FindStatic(statics[k], cfg.libPaths, isFile);
        assert statics[k..][1..] == statics[k + 1..];
        if |hits| == 0 {
          return Failure(StaticLibraryNotFound(statics[k]));
        }
        ThenThen(cmd, ShowAll(hits), StaticSearch(statics[k + 1..], cfg.libPaths, isFile));
        cmd := cmd + ShowAll(hits);
        k := k + 1;
      }
      assert statics[k..] == [];
      assert cmd + [] == cmd;
      return Success(cmd);
    }

    /**
     * The search of `__libraries_flags` for one static library: every
     * library directory is tried, and in each the first candidate name
     * that exists is taken.
     */
    method FindStatic(lib: string, dirs: seq<Path>, isFile: Path -> bool) returns (hits: seq<Path>)
      ensures hits == StaticHits(lib, dirs, isFile)
    {
      hits := [];
      var names := StaticCandidates(lib);
      var d := 0;
      while d < |dirs|
        invariant 0 <= d <= |dirs|
        invariant hits == FlatMap(dirs[..d], DirHit(lib, isFile))
      {
        var n := 0;
        var hit: Option<Path> := None;
        while n < |names|
          invariant 0 <= n <= |names|
          invariant hit.None? ==> FirstExisting(dirs[d], names[n..], isFile) == FirstExisting(dirs[d], names, isFile)
          invariant hit.Some? ==> hit == FirstExisting(dirs[d], names, isFile)
        {
          var libpath := Join(dirs[d], Parse(names[n]));
          assert names[n..][1..] == names[n + 1..];
          if isFile(libpath) {
            hit := Some(libpath);
            break;
          }
          n := n + 1;
        }
        if hit.None? {
          assert names[n..] == [];
        }
        if hit.Some? {
          hits := hits + [hit.value];
        }
        assert dirs[..d + 1][..d] == dirs[..d];
        d := d + 1;
      }
      assert dirs[..d] == dirs;
    }

    /** The common start of `link` and `dynlink`. */
    method LinkStart(cfg: Config) returns (cmd: seq<string>)
      ensures cmd == LinkHead(os, cxx, cfg.Value())
    {
      var v := cfg.Value();
      var frameworks := FrameworkFlags(v.frameworks);
      var libPaths := LibPathFlags(v.libPaths);
      var rpaths := RpathFlags(v.rpath);
      cmd := [cxx] + v.flags + LdFlagsOf(os, v) + frameworks + libPaths + rpaths;
    }

    /** `-framework` and the name, per framework. */
    method FrameworkFlags(fs: seq<string>) returns (cmd: seq<string>)
      ensures cmd == FlatMap(fs, FrameworkPair)
    {
      cmd := [];
      var i := 0;
      while i < |fs|
        invariant 0 <= i <= |fs|
        invariant cmd == FlatMap(fs[..i], FrameworkPair)
      {
        assert fs[..i + 1][..i] == fs[..i];
        cmd := cmd + ["-framework", fs[i]];
        i := i + 1;
      }
      assert fs[..i] == fs;
    }

    /** `-L` and the directory, per library directory. */
    method LibPathFlags(ps: seq<Path>) returns (cmd: seq<string>)
      ensures cmd == FlatMap(ps, LibPathPair)
    {
      cmd := [];
      var i := 0;
      while i < |ps|
        invariant 0 <= i <= |ps|
        invariant cmd == FlatMap(ps[..i], LibPathPair)
      {
        assert ps[..i + 1][..i] == ps[..i];
        cmd := cmd + ["-L", Show(ps[i])];
        i := i + 1;
      }
      assert ps[..i] == ps;
    }

    /** One `-Wl,-rpath,` flag per run path. */
    method RpathFlags(rs: seq<Path>) returns (cmd: seq<string>)
      ensures cmd == FlatMap(rs, RpathFlag(os))
    {
      cmd := [];
      var i := 0;
      while i < |rs|
        invariant 0 <= i <= |rs|
        invariant cmd == FlatMap(rs[..i], RpathFlag(os))
      {
        assert rs[..i + 1][..i] == rs[..i];
        cmd := cmd + ["-Wl,-rpath," + Show(Rpath(os, rs[i]))];
        i := i + 1;
      }
      assert rs[..i] == rs;
    }

    /** The ordered set of `link`'s `-rpath-link` directories. */
    method RpathLinkSet(objs: seq<Node>) returns (dirs: seq<string>)
      ensures dirs == RpathLinkDirs(objs)
    {
      dirs := [];
      var i := 0;
      while i < |objs|
        invariant 0 <= i <= |objs|
        invariant dirs == Union([], FlatMap(objs[..i], DependencyDirs))
      {
        var before := dirs;
        if objs[i].kind == DynLib {
          var deps := objs[i].dynamicLibraries;
          var j := 0;
          while j < |deps|
            invariant 0 <= j <= |deps|
            invariant dirs == Union(before, DependencyDirs(objs[i])[..j])
          {
            assert DependencyDirs(objs[i])[..j + 1][..j] == DependencyDirs(objs[i])[..j];
            dirs := Add(dirs, Show(Dirname(deps[j])));
            j := j + 1;
          }
          assert DependencyDirs(objs[i])[..j] == DependencyDirs(objs[i]);
        }
        assert objs[..i + 1][..i] == objs[..i];
        UnionConcat([], FlatMap(objs[..i], DependencyDirs), DependencyDirs(objs[i]));
        i := i + 1;
      }
      assert objs[..i] == objs;
    }

    /** What `link` adds for the platform: `-rpath-link` directories on Linux, lazy binding on macOS. */
    method LinkPlatform(objs: seq<Node>) returns (cmd: seq<string>)
      ensures cmd == LinkPlatformFlags(os, objs)
    {
      cmd := [];
      if os == Linux {
        var dirs := RpathLinkSet(objs);
        var k := 0;
        while k < |dirs|
          invariant 0 <= k <= |dirs|
          invariant cmd == FlatMap(dirs[..k], RpathLinkFlag)
        {
          cmd := cmd + ["-Wl,-rpath-link," + dirs[k]];
          assert dirs[..k + 1][..k] == dirs[..k];
          k := k + 1;
        }
        assert dirs[..k] == dirs;
      }
      if os == MacOS {
        cmd := cmd + ["-undefined", "dynamic_lookup"];
      }
    }

    /** The loop of `link` that passes every object by path. */
    method ObjectPaths(objs: seq<Node>) returns (cmd: seq<string>)
      ensures cmd == ShowAll(PathsOf(objs))
    {
      cmd := [];
      var i := 0;
      while i < |objs|
        invariant 0 <= i <= |objs|
        invariant cmd == ShowAll(PathsOf(objs[..i]))
      {
        cmd := cmd + [Show(objs[i].path)];
        assert ShowAll(PathsOf(objs[..i + 1])) == ShowAll(PathsOf(objs[..i])) + [Show(objs[i].path)];
        i := i + 1;
      }
      assert objs[..i] == objs;
    }

    /** `link(cfg, objs, exe)`. */
    method Link(cfg: Config, objs: seq<Node>, exe: Path, isFile: Path -> bool) returns (r: Result<seq<string>, ToolkitError>)
      ensures r == LinkOf(os, recursiveLinkage, cxx, cfg.Value(), objs, exe, isFile)
    {
      var cmd := LinkStart(cfg);
      var platform := LinkPlatform(objs);
      var paths := ObjectPaths(objs);
      cmd := cmd + platform + paths + ["-o", Show(exe)];
      var libs := LibrariesFlags(cfg, Filter(objs, IsLibraryNode), isFile);
      if libs.Failure? {
        return Failure(libs.error);
      }
      return Success(cmd + libs.value);
    }

    /** The loop of `dynlink` that keeps the libraries to link apart and passes the rest by path. */
    method SplitObjects(objs: seq<Node>) returns (toLink: seq<Node>, cmd: seq<string>)
      ensures toLink == Filter(objs, IsLinkableNode)
      ensures cmd == ShowAll(PathsOf(Filter(objs, IsNotLinkableNode)))
    {
      toLink, cmd := [], [];
      var i := 0;
      while i < |objs|
        invariant 0 <= i <= |objs|
        invariant toLink == Filter(objs[..i], IsLinkableNode)
        invariant cmd == ShowAll(PathsOf(Filter(objs[..i], IsNotLinkableNode)))
      {
        assert objs[..i + 1][..i] == objs[..i];
        if Linkable(objs[i].kind) {
          toLink := toLink + [objs[i]];
        } else {
          var plain := Filter(objs[..i], IsNotLinkableNode);
          cmd := cmd + [Show(objs[i].path)];
          assert ShowAll(PathsOf(plain + [objs[i]])) == ShowAll(PathsOf(plain)) + [Show(objs[i].path)];
        }
        i := i + 1;
      }
      assert objs[..i] == objs;
    }

    /** `dynlink(cfg, objs, lib)`. */
    method DynLink(cfg: Config, objs: seq<Node>, lib: Path, isFile: Path -> bool) returns (r: Result<seq<string>, ToolkitError>)
      ensures r == DynLinkOf(os, recursiveLinkage, cxx, cfg.Value(), objs, lib, isFile)
    {
      var cmd := LinkStart(cfg);
      if os == MacOS {
        cmd := cmd + ["-undefined", "dynamic_lookup", "-Wl,-install_name,@rpath/" + Basename(lib), "-Wl,-headerpad_max_install_names"];
      }
      if os == Linux {
        cmd := cmd + ["-Wl,-soname," + Basename(lib)];
      }
      assert cmd == LinkHead(os, cxx, cfg.Value()) + DynLinkPlatformFlags(os, lib);
      var toLink, paths := SplitObjects(objs);
      cmd := cmd + paths + ["-shared", "-o", Show(lib)];
      var libs := LibrariesFlags(cfg, toLink, isFile);
      if libs.Failure? {
        return Failure(libs.error);
      }
      return Success(cmd + libs.value);
    }
  }

  /** `acc` followed by a result's value, or its error. */
  function Then(acc: seq<string>, r: Result<seq<string>, ToolkitError>): Result<seq<string>, ToolkitError> {
    match r
    case Failure(e) => Failure(e)
    case Success(v) => Success(acc + v)
  }

  lemma ThenThen(a: seq<string>, b: seq<string>, r: Result<seq<string>, ToolkitError>)
    ensures Then(a, Then(b, r)) == Then(a + b, r)
  {
    if r.Success? {
      assert a + (b + r.value) == a + b + r.value;
    }
  }

  lemma ThenEmpty(r: Result<seq<string>, ToolkitError>)
    ensures Then([], r) == r
  {
    if r.Success? {
      assert [] + r.value == r.value;
    }
  }
}
