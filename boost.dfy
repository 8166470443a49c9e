/**
 * Detection of the Boost C++ libraries (`drake.cxx.boost.Boost`): the
 * candidate installation prefixes are tried in order, each one's
 * `BOOST_VERSION` is read back from the preprocessor, the first prefix
 * whose version is acceptable wins, and the component libraries are then
 * located under its `lib` directory, preferring the multi-threaded `-mt`
 * builds.
 *
 * Everything the detection asks of the outside world -- the search for
 * `include/boost/version.hpp`, the preprocessor run, the requested version
 * set, the toolkit's shared-library naming and the file system -- is an
 * oracle held in `BoostEnv`.
 */
module BoostDetection {
  import opened Wrappers
  import opened Strings
  import opened Paths
  import opened Configs
  import GccToolkits

  /** `drake.Version(major, minor, patch)`. */
  datatype Version = Version(major: int, minor: int, patch: int)

  datatype BoostError =
    | NoVersionLine(output: string)              // fewer than two output lines: `[-2]` fails
    | BadVersion(text: string)                   // the line is not an integer: `int()` fails
    | LibraryNotFound(lib: string, libPath: Path)
    | NoMatchingBoost(found: seq<Version>)       // every prefix had an unwanted version

  /** The outside world the detection consults. */
  datatype BoostEnv = BoostEnv(
    srcRoot: Path,                               // `srctree()`
    buildPrefix: Path,                           // the current drake prefix
    search: seq<Path> -> seq<Path>,              // `_search_all('include/boost/version.hpp', ·)`
    preprocess: ConfigValue -> string,           // the toolkit's `preprocess` under a configuration
    accepts: Version -> bool,                    // `version_eff in version`
    libname: string -> Path,                     // the toolkit's `libname_dyn`
    isFile: Path -> bool)                        // `Path.exists()`

  /** What a successful detection leaves in the `Boost` object. */
  datatype Detection = Detection(
    prefix: Path,                                // `__prefix`
    cfg: ConfigValue,                            // `cfg`
    components: seq<ConfigValue>,                // `cfg_test` ... `cfg_program_options`, in order
    python: ConfigValue)                         // `cfg_python`

  // ---------------------------------------------------------------------
  // Version numbers.

  /** `BOOST_VERSION` split as major * 100000 + minor * 100 + patch (floor division). */
  function Decode(v: int): Version {
    Version(v / 100000, v / 100 % 1000, v % 100)
  }

  /** The `BOOST_VERSION` number of a version. */
  function Encode(ver: Version): int {
    ver.major * 100000 + ver.minor * 100 + ver.patch
  }

  /** Decoding inverts encoding for every version whose minor and patch fit their fields. */
  lemma DecodeEncode(ver: Version)
    requires 0 <= ver.minor < 1000 && 0 <= ver.patch < 100
    ensures Decode(Encode(ver)) == ver
  {
    var v := Encode(ver);
    var q := ver.major * 1000 + ver.minor;
    assert v == q * 100 + ver.patch;
    assert v / 100 == q;
    assert v % 100 == ver.patch;
    assert q % 1000 == ver.minor;
    assert q / 1000 == ver.major;
    assert v / 100000 == ver.major;
  }

  /** Every number decodes to fields in range, and encoding them gives the number back. */
  lemma EncodeDecode(v: int)
    ensures 0 <= Decode(v).minor < 1000 && 0 <= Decode(v).patch < 100
    ensures Encode(Decode(v)) == v
  {
    var q := v / 100;
    assert v == q * 100 + v % 100;
    assert q == (q / 1000) * 1000 + q % 1000;
    assert v / 100000 == q / 1000;
  }

  // ---------------------------------------------------------------------
  // Reading the version back from the preprocessor output.

  predicate IsDigit(c: char) {
    '0' <= c <= '9'
  }

  /** A non-empty run of decimal digits. */
  predicate IsDigits(s: string) {
    |s| > 0 && forall i :: 0 <= i < |s| ==> IsDigit(s[i])
  }

  /** The value of a run of decimal digits. */
  function DigitsValue(s: string): nat
    decreases |s|
  {
    if |s| == 0 then 0
    else
      var d := (s[|s| - 1] as int) - ('0' as int);
      DigitsValue(s[..|s| - 1]) * 10 + (if 0 <= d then d else 0)
  }

  /** `int(s)` on a stripped string: an optional sign, then decimal digits. */
  function IntOf(s: string): Option<int> {
    if |s| > 0 && (s[0] == '-' || s[0] == '+') then
      if IsDigits(s[1..]) then Some(if s[0] == '-' then 0 - DigitsValue(s[1..]) as int else DigitsValue(s[1..]) as int) else None
    else if IsDigits(s) then Some(DigitsValue(s))
    else None
  }

  /** The decimal text of a number reads back as that number. */
  lemma {:induction false} DigitsOfNat(n: nat)
    ensures IsDigits(NatToString(n)) && DigitsValue(NatToString(n)) == n
    decreases n
  {
    var s := NatToString(n);
    var d := ['0' + (n % 10) as char];
    if n < 10 {
      assert s == d;
    } else {
      DigitsOfNat(n / 10);
      var t := NatToString(n / 10);
      assert s == t + d;
      assert s[..|s| - 1] == t;
    }
  }

  /** `int(str(n))` is `n`, with or without a sign. */
  lemma IntOfShow(n: nat)
    ensures IntOf(NatToString(n)) == Some(n)
    ensures IntOf("-" + NatToString(n)) == Some(0 - n as int)
    ensures IntOf("+" + NatToString(n)) == Some(n)
  {
    DigitsOfNat(n);
    var s := NatToString(n);
    assert s[0] != '-' && s[0] != '+' by { assert IsDigit(s[0]); }
    assert ("-" + s)[1..] == s;
    assert ("+" + s)[1..] == s;
  }

  /** `int(output.split('\n')[-2].strip())`. */
  function VersionNumber(output: string): Result<int, BoostError> {
    var lines := Split(output, '\n');
    if |lines| < 2 then Failure(NoVersionLine(output))
    else
      var text := Strip(lines[|lines| - 2]);
      match IntOf(text)
      case None => Failure(BadVersion(text))
      case Some(v) => Success(v)
  }

  /** Output with a number on its next-to-last line yields that number. */
  lemma VersionNumberOfOutput(before: seq<string>, n: nat, last: string)
    requires forall i :: 0 <= i < |before| ==> '\n' !in before[i]
    requires '\n' !in last
    ensures VersionNumber(JoinWith(before + [NatToString(n), last], "\n")) == Success(n)
  {
    var t := NatToString(n);
    var lines := before + [t, last];
    DigitsOfNat(n);
    assert forall i :: 0 <= i < |t| ==> t[i] != '\n' by {
      forall i | 0 <= i < |t| ensures t[i] != '\n' { assert IsDigit(t[i]); }
    }
    assert forall i :: 0 <= i < |lines| ==> '\n' !in lines[i] by {
      forall i | 0 <= i < |lines|
        ensures '\n' !in lines[i]
      {
        if i < |before| { assert lines[i] == before[i]; }
      }
    }
    SplitJoin(lines, '\n');
    assert lines[|lines| - 2] == t;
    assert !IsSpace(t[0]) && !IsSpace(t[|t| - 1]) by {
      assert IsDigit(t[0]) && IsDigit(t[|t| - 1]);
    }
    StripUnblanked(t);
    IntOfShow(n);
  }

  /** Output without a line break has no next-to-last line. */
  lemma VersionNumberOneLine(output: string)
    requires '\n' !in output
    ensures VersionNumber(output) == Failure(NoVersionLine(output))
  {
    IndexOfFacts(output, '\n');
    assert Split(output, '\n') == [output];
  }

  // ---------------------------------------------------------------------
  // The candidate prefixes.

  /** A relative path is taken under the source tree. */
  function Rooted(srcRoot: Path, p: Path): Path {
    if p.absolute then p else Join(srcRoot, p)
  }

  /** The prefixes tried before the header search: `/usr` and `/usr/local`, or the given one. */
  function CandidatesOf(prefix: Option<string>, srcRoot: Path): seq<Path> {
    var test := match prefix
      case None => DefaultPrefixes
      case Some(p) => [Parse(p)];
    seq(|test|, i requires 0 <= i < |test| => Rooted(srcRoot, test[i]))
  }

  /** The defaults are `/usr` then `/usr/local`; a given prefix is the only one, rooted when relative. */
  lemma CandidatesSpec(prefix: Option<string>, srcRoot: Path)
    ensures prefix.None? ==> CandidatesOf(prefix, srcRoot) == DefaultPrefixes
    ensures prefix.Some? ==>
      CandidatesOf(prefix, srcRoot) == [Rooted(srcRoot, Parse(prefix.value))]
    ensures srcRoot.absolute ==> forall i :: 0 <= i < |CandidatesOf(prefix, srcRoot)| ==> CandidatesOf(prefix, srcRoot)[i].absolute
  {
    var c := CandidatesOf(prefix, srcRoot);
    if prefix.None? {
      assert DefaultPrefixes[0].absolute && DefaultPrefixes[1].absolute;
      assert |c| == 2 && c[0] == Rooted(srcRoot, DefaultPrefixes[0]) && c[1] == Rooted(srcRoot, DefaultPrefixes[1]);
    }
  }

  /** `[Path('/usr'), Path('/usr/local')]`. */
  const DefaultPrefixes: seq<Path> := [Path(true, ["usr"]), Path(true, ["usr", "local"])]

  /** The default prefixes are the paths the two strings denote. */
  lemma DefaultPrefixesParsed()
    ensures DefaultPrefixes == [Parse("/usr"), Parse("/usr/local")]
  {
    UsrPath();
    UsrLocalPath();
  }

  lemma UsrPath()
    ensures Parse("/usr") == Path(true, ["usr"])
  {
    ParseShow(Path(true, ["usr"]));
    assert Show(Path(true, ["usr"])) == "/usr";
  }

  lemma UsrLocalPath()
    ensures Parse("/usr/local") == Path(true, ["usr", "local"])
  {
    var p := Path(true, ["usr", "local"]);
    ParseShow(p);
    assert JoinWith(["usr", "local"], "/") == "usr" + "/" + JoinWith(["local"], "/");
    assert Show(p) == "/usr/local";
  }

  /** `test[i] = srctree() / test[i]` for every relative candidate, in place. */
  method SearchPrefixes(prefix: Option<string>, srcRoot: Path) returns (test: seq<Path>)
    ensures test == CandidatesOf(prefix, srcRoot)
  {
    if prefix.None? {
      test := DefaultPrefixes;
    } else {
      test := [Parse(prefix.value)];
    }
    ghost var given := test;
    var i := 0;
    while i < |test|
      invariant 0 <= i <= |test| == |given|
      invariant forall j :: 0 <= j < i ==> test[j] == Rooted(srcRoot, given[j])
      invariant forall j :: i <= j < |test| ==> test[j] == given[j]
    {
      if !test[i].absolute {
        test := test[i := Join(srcRoot, test[i])];
      }
      i := i + 1;
    }
  }

  // ---------------------------------------------------------------------
  // The configuration used to read a prefix's version.

  /** `'%s/include' % path`, read back as a path. */
  function IncludeDirOf(path: Path): Path {
    Parse(Show(path) + "/include")
  }

  /** Below the root, `<path>/include` names the path's `include` child. */
  lemma IncludeDirBelowRoot(path: Path)
    requires path.absolute && PlainParts(path.parts) && |path.parts| > 0
    ensures IncludeDirOf(path) == Join(path, Rel("include"))
  {
    var q := Path(true, path.parts + ["include"]);
    assert PlainParts(q.parts) by {
      forall i | 0 <= i < |q.parts|
        ensures q.parts[i] != "" && q.parts[i] != "." && '/' !in q.parts[i]
      {
        if i < |path.parts| { assert q.parts[i] == path.parts[i]; }
      }
    }
    ParseShow(q);
    JoinWithSnoc(path.parts, "include", "/");
    assert Show(q) == Show(path) + "/include";
  }

  /** At the root, `//include` reads back as `/include`. */
  lemma IncludeDirAtRoot()
    ensures IncludeDirOf(Path(true, [])) == Path(true, ["include"])
  {
    var q := Path(true, ["include"]);
    assert Show(q) == "/include" by {
      assert JoinWith(["include"], "/") == "include";
    }
    ParseShow(q);
    ParseDoubleSlash(Show(q));
    assert Show(Path(true, [])) + "/include" == "/" + Show(q);
  }

  /** Formatting the include directory as text is the same as appending `include`. */
  lemma IncludeDirSpec(path: Path)
    requires path.absolute && PlainParts(path.parts)
    ensures IncludeDirOf(path) == Join(path, Rel("include"))
  {
    if |path.parts| > 0 {
      IncludeDirBelowRoot(path);
    } else {
      IncludeDirAtRoot();
      assert path == Path(true, []);
    }
  }

  /** A fresh `Config` with the prefix's include directory and `lib` directory added. */
  function ProbeConfig(env: BoostEnv, path: Path): ConfigValue {
    var c0 := EmptyValue;
    var c1 := match SystemIncludeEntry(IncludeDirOf(path), env.srcRoot, env.buildPrefix)
      case None => c0
      case Some(p) => c0.(systemIncludes := Seqs.Add(c0.systemIncludes, p), includes := Seqs.Add(c0.includes, p));
    match LibPathEntry(Join(path, Rel("lib")), env.buildPrefix)
    case None => c1
    case Some(p) => c1.(libPaths := Seqs.Add(c1.libPaths, p))
  }

  /** `/` and `/usr` add nothing, being default directories; any other prefix adds its `include` and `lib`. */
  lemma ProbeConfigSpec(env: BoostEnv, path: Path)
    requires path.absolute && PlainParts(path.parts)
    ensures var r := ProbeConfig(env, path);
      var default := path.parts == [] || path.parts == ["usr"];
      && r.systemIncludes == r.includes == (if default then [] else [Canonize(Join(path, Rel("include")))])
      && r.libPaths == (if default then [] else [Join(path, Rel("lib"))])
      && r.(systemIncludes := [], includes := [], libPaths := []) == EmptyValue
  {
    IncludeDirSpec(path);
    var inc := Join(path, Rel("include"));
    var lib := Join(path, Rel("lib"));
    assert inc == Path(true, path.parts + ["include"]);
    assert lib == Path(true, path.parts + ["lib"]);
    var default := path.parts == [] || path.parts == ["usr"];
    assert inc in DefaultSystemIncludes <==> default by {
      if inc == Path(true, ["usr", "include"]) {
        assert |path.parts| == 1 && path.parts[0] == inc.parts[0];
      }
      if inc == Path(true, ["include"]) {
        assert |path.parts| == 0;
      }
    }
    assert lib in DefaultLibPaths <==> default by {
      if lib == Path(true, ["usr", "lib"]) {
        assert |path.parts| == 1 && path.parts[0] == lib.parts[0];
      }
      if lib == Path(true, ["lib"]) {
        assert |path.parts| == 0;
      }
    }
  }

  /** The version number a prefix reports and its decoding. */
  function ProbeVersion(env: BoostEnv, path: Path): Result<Version, BoostError> {
    match VersionNumber(env.preprocess(ProbeConfig(env, path)))
    case Failure(e) => Failure(e)
    case Success(v) => Success(Decode(v))
  }

  // ---------------------------------------------------------------------
  // Locating the libraries.

  /** The file a library name is looked for at. */
  function LibFile(env: BoostEnv, libPath: Path, name: string): Path {
    Join(libPath, env.libname(name))
  }

  /** `__find_lib(lib, lib_path)`: `lib-mt`, else `lib`, else an error. */
  function FindLibOf(env: BoostEnv, lib: string, libPath: Path): Result<string, BoostError> {
    if env.isFile(LibFile(env, libPath, lib + "-mt")) then Success(lib + "-mt")
    else if env.isFile(LibFile(env, libPath, lib)) then Success(lib)
    else Failure(LibraryNotFound(lib, libPath))
  }

  /** The probe succeeds exactly when one of the two files exists, and prefers the `-mt` one. */
  lemma FindLibSpec(env: BoostEnv, lib: string, libPath: Path)
    ensures var r := FindLibOf(env, lib, libPath);
      var mt := env.isFile(LibFile(env, libPath, lib + "-mt"));
      && (r.Success? <==> mt || env.isFile(LibFile(env, libPath, lib)))
      && (r.Success? ==> env.isFile(LibFile(env, libPath, r.value)))
      && (r.Success? ==> (r.value == lib + "-mt" <==> mt))
      && (r.Success? ==> r.value == lib + "-mt" || r.value == lib)
      && (r.Failure? ==> r.error == LibraryNotFound(lib, libPath))
  {
  }

  /** Under the GNU toolkit the files probed are `lib<name>.so` (or the platform's extension) in `lib_path`. */
  lemma GccProbedFile(os: GccToolkits.OS, libPath: Path, name: string)
    requires name != "" && name != "." && '/' !in name
    ensures Join(libPath, GccToolkits.LibnameDyn(os, Parse(name))) ==
      Join(libPath, Rel("lib" + name + "." + GccToolkits.DynExtension(os)))
  {
    ParseName(name);
    var f := "lib" + name + "." + GccToolkits.DynExtension(os);
    assert '/' !in f by {
      assert f == "lib" + name + "." + GccToolkits.DynExtension(os);
      assert forall i :: 0 <= i < |f| ==> f[i] != '/' by {
        forall i | 0 <= i < |f|
          ensures f[i] != '/'
        {
          if 3 <= i < 3 + |name| { assert f[i] == name[i - 3]; }
        }
      }
    }
    ParseName(f);
  }

  /** `__find_lib` as the loop over the suffixes `-mt` and ``. */
  method FindLib(env: BoostEnv, lib: string, libPath: Path) returns (r: Result<string, BoostError>)
    ensures r == FindLibOf(env, lib, libPath)
  {
    var suffixes := ["-mt", ""];
    var i := 0;
    while i < |suffixes|
      invariant 0 <= i <= |suffixes|
      invariant forall j :: 0 <= j < i ==> !env.isFile(LibFile(env, libPath, lib + suffixes[j]))
    {
      var name := lib + suffixes[i];
      if env.isFile(LibFile(env, libPath, name)) {
        assert lib + "" == lib;
        return Success(name);
      }
      i := i + 1;
    }
    assert lib + suffixes[0] == lib + "-mt" && lib + suffixes[1] == lib;
    return Failure(LibraryNotFound(lib, libPath));
  }

  /** The component libraries, in the order they are looked up. */
  const Components: seq<string> := [
    "boost_unit_test_framework", "boost_thread", "boost_system", "boost_filesystem",
    "boost_signals", "boost_date_time", "boost_regex", "boost_program_options"]

  const PythonPrimary := "boost_python-3.2"
  const PythonFallback := "boost_python3"

  /** Looking up each library in turn; the first one missing is the error. */
  function FindAllOf(env: BoostEnv, libs: seq<string>, libPath: Path): Result<seq<string>, BoostError>
    decreases |libs|
  {
    if |libs| == 0 then Success([])
    else
      match FindAllOf(env, libs[..|libs| - 1], libPath)
      case Failure(e) => Failure(e)
      case Success(names) =>
        match FindLibOf(env, libs[|libs| - 1], libPath)
        case Failure(e) => Failure(e)
        case Success(n) => Success(names + [n])
  }

  /** A failure among the first libraries is the failure of the whole lookup. */
  lemma {:induction false} FindAllFailure(env: BoostEnv, libs: seq<string>, libPath: Path, k: nat)
    requires k <= |libs| && FindAllOf(env, libs[..k], libPath).Failure?
    ensures FindAllOf(env, libs, libPath) == FindAllOf(env, libs[..k], libPath)
    decreases |libs| - k
  {
    if k < |libs| {
      var init := libs[..|libs| - 1];
      assert init[..k] == libs[..k];
      FindAllFailure(env, init, libPath, k);
    } else {
      assert libs[..k] == libs;
    }
  }

  /** The lookup succeeds exactly when every library is found, and then lists what was found, in order. */
  lemma {:induction false} FindAllSpec(env: BoostEnv, libs: seq<string>, libPath: Path)
    ensures var r := FindAllOf(env, libs, libPath);
      && (r.Success? <==> forall i :: 0 <= i < |libs| ==> FindLibOf(env, libs[i], libPath).Success?)
      && (r.Success? ==>
            |r.value| == |libs| && forall i :: 0 <= i < |libs| ==> r.value[i] == FindLibOf(env, libs[i], libPath).value)
      && (r.Failure? ==> r.error.LibraryNotFound?)
    decreases |libs|
  {
    if |libs| > 0 {
      var init := libs[..|libs| - 1];
      FindAllSpec(env, init, libPath);
      assert forall i :: 0 <= i < |init| ==> init[i] == libs[i];
    }
  }

  /** The first library that is missing is the one the error names. */
  lemma {:induction false} FindAllFirstMissing(env: BoostEnv, libs: seq<string>, libPath: Path, k: nat)
    requires k < |libs| && FindLibOf(env, libs[k], libPath).Failure?
    requires forall j :: 0 <= j < k ==> FindLibOf(env, libs[j], libPath).Success?
    ensures FindAllOf(env, libs, libPath) == Failure(LibraryNotFound(libs[k], libPath))
  {
    var init := libs[..k];
    FindAllSpec(env, init, libPath);
    assert forall j :: 0 <= j < |init| ==> init[j] == libs[j];
    assert libs[..k + 1][..k] == init;
    FindLibSpec(env, libs[k], libPath);
    FindAllFailure(env, libs, libPath, k + 1);
  }

  /** `boost_python-3.2`, falling back to `boost_python3` when it is missing. */
  function PythonLibOf(env: BoostEnv, libPath: Path): Result<string, BoostError> {
    match FindLibOf(env, PythonPrimary, libPath)
    case Success(n) => Success(n)
    case Failure(_) => FindLibOf(env, PythonFallback, libPath)
  }

  /** The fallback is used only when neither file of the preferred library exists. */
  lemma PythonLibSpec(env: BoostEnv, libPath: Path)
    ensures var r := PythonLibOf(env, libPath);
      && (r.Success? ==> env.isFile(LibFile(env, libPath, r.value)))
      && (FindLibOf(env, PythonPrimary, libPath).Success? ==> r == FindLibOf(env, PythonPrimary, libPath))
      && (FindLibOf(env, PythonPrimary, libPath).Failure? ==> r == FindLibOf(env, PythonFallback, libPath))
      && (r.Success? ==> r.value in {PythonPrimary + "-mt", PythonPrimary, PythonFallback + "-mt", PythonFallback})
      && (r.Failure? ==> r.error == LibraryNotFound(PythonFallback, libPath))
  {
    FindLibSpec(env, PythonPrimary, libPath);
    FindLibSpec(env, PythonFallback, libPath);
  }

  /** `Config()` followed by `lib(name)`: one dynamic library and nothing else. */
  function LibraryConfig(name: string): ConfigValue {
    EmptyValue.(libs := [Library(name, false)])
  }

  function LibraryConfigs(names: seq<string>): seq<ConfigValue> {
    seq(|names|, i requires 0 <= i < |names| => LibraryConfig(names[i]))
  }

  /** Filling the configuration once a prefix is accepted. */
  function SettleOf(env: BoostEnv, path: Path): Result<Detection, BoostError> {
    var libPath := Join(path, Rel("lib"));
    match FindAllOf(env, Components, libPath)
    case Failure(e) => Failure(e)
    case Success(names) =>
      match PythonLibOf(env, libPath)
      case Failure(e) => Failure(e)
      case Success(py) => Success(Detection(path, ProbeConfig(env, path), LibraryConfigs(names), LibraryConfig(py)))
  }

  /**
   * An accepted prefix yields its own configuration and, for each component,
   * a configuration naming the library found for it; it fails only when a
   * library is missing.
   */
  lemma SettleSpec(env: BoostEnv, path: Path)
    ensures var r := SettleOf(env, path);
      var libPath := Join(path, Rel("lib"));
      && (r.Success? <==> (forall i :: 0 <= i < |Components| ==> FindLibOf(env, Components[i], libPath).Success?)
                           && PythonLibOf(env, libPath).Success?)
      && (r.Success? ==> r.value.prefix == path && r.value.cfg == ProbeConfig(env, path))
      && (r.Success? ==>
            |r.value.components| == |Components| &&
            forall i :: 0 <= i < |Components| ==>
              r.value.components[i] == LibraryConfig(FindLibOf(env, Components[i], libPath).value))
      && (r.Success? ==> r.value.python == LibraryConfig(PythonLibOf(env, libPath).value))
      && (r.Failure? ==> r.error.LibraryNotFound?)
  {
    var libPath := Join(path, Rel("lib"));
    FindAllSpec(env, Components, libPath);
    PythonLibSpec(env, libPath);
  }

  /**
   * A prefix whose components are missing fails on the first missing one;
   * with every component found, it fails only on the python fallback.
   */
  lemma SettleFirstMissing(env: BoostEnv, path: Path, k: nat)
    requires k < |Components| && FindLibOf(env, Components[k], Join(path, Rel("lib"))).Failure?
    requires forall j :: 0 <= j < k ==> FindLibOf(env, Components[j], Join(path, Rel("lib"))).Success?
    ensures SettleOf(env, path) == Failure(LibraryNotFound(Components[k], Join(path, Rel("lib"))))
  {
    FindAllFirstMissing(env, Components, Join(path, Rel("lib")), k);
  }

  lemma SettlePythonMissing(env: BoostEnv, path: Path)
    requires forall j :: 0 <= j < |Components| ==> FindLibOf(env, Components[j], Join(path, Rel("lib"))).Success?
    requires PythonLibOf(env, Join(path, Rel("lib"))).Failure?
    ensures SettleOf(env, path) == Failure(LibraryNotFound(PythonFallback, Join(path, Rel("lib"))))
  {
    var libPath := Join(path, Rel("lib"));
    FindAllSpec(env, Components, libPath);
    PythonLibSpec(env, libPath);
  }

  // ---------------------------------------------------------------------
  // The search loop.

  /**
   * How the loop sees the prefixes: the version each one reports, which
   * versions are wanted, and what accepting a prefix yields.
   */
  datatype Probe = Probe(
    version: Path -> Result<Version, BoostError>,
    accepts: Version -> bool,
    settle: Path -> Result<Detection, BoostError>)

  /** The probe of the detection: the preprocessor's version and the library lookup. */
  function ProbeOf(env: BoostEnv): Probe {
    Probe(p => ProbeVersion(env, p), env.accepts, p => SettleOf(env, p))
  }

  /** A prefix whose version is read and not wanted. */
  predicate Rejected(pr: Probe, path: Path) {
    pr.version(path).Success? && !pr.accepts(pr.version(path).value)
  }

  /** The versions of rejected prefixes. */
  function Versions(pr: Probe, paths: seq<Path>): seq<Version>
    requires forall i :: 0 <= i < |paths| ==> Rejected(pr, paths[i])
  {
    seq(|paths|, i requires 0 <= i < |paths| && Rejected(pr, paths[i]) => pr.version(paths[i]).value)
  }

  /** The loop over the searched prefixes, with the versions missed so far. */
  function DetectFrom(pr: Probe, paths: seq<Path>, miss: seq<Version>): Result<Detection, BoostError>
    decreases |paths|
  {
    if |paths| == 0 then Failure(NoMatchingBoost(miss))
    else
      match pr.version(paths[0])
      case Failure(e) => Failure(e)
      case Success(ver) =>
        if pr.accepts(ver) then pr.settle(paths[0]) else DetectFrom(pr, paths[1..], miss + [ver])
  }

  /** `Boost(prefix = prefix)`. */
  function BoostOf(env: BoostEnv, prefix: Option<string>): Result<Detection, BoostError> {
    DetectFrom(ProbeOf(env), env.search(CandidatesOf(prefix, env.srcRoot)), [])
  }

  /** What stopping at a prefix gives: its version error, or what accepting it yields. */
  function StopAt(pr: Probe, path: Path): Result<Detection, BoostError> {
    match pr.version(path)
    case Failure(e) => Failure(e)
    case Success(_) => pr.settle(path)
  }

  /** When every prefix is rejected the error lists every version found, in order. */
  lemma {:induction false} DetectExhausted(pr: Probe, paths: seq<Path>, miss: seq<Version>)
    requires forall i :: 0 <= i < |paths| ==> Rejected(pr, paths[i])
    ensures DetectFrom(pr, paths, miss) == Failure(NoMatchingBoost(miss + Versions(pr, paths)))
    decreases |paths|
  {
    if |paths| > 0 {
      assert Rejected(pr, paths[0]);
      var v := pr.version(paths[0]).value;
      assert forall i :: 0 <= i < |paths[1..]| ==> paths[1..][i] == paths[i + 1];
      DetectExhausted(pr, paths[1..], miss + [v]);
      assert Versions(pr, paths) == [v] + Versions(pr, paths[1..]);
      assert miss + Versions(pr, paths) == miss + [v] + Versions(pr, paths[1..]);
    } else {
      assert Versions(pr, paths) == [];
      assert miss + [] == miss;
    }
  }

  /**
   * The first prefix that is not rejected decides the outcome: the versions
   * missed before it and the prefixes after it play no part.
   */
  lemma {:induction false} DetectStops(pr: Probe, paths: seq<Path>, miss: seq<Version>, k: nat)
    requires k < |paths| && !Rejected(pr, paths[k])
    requires forall j :: 0 <= j < k ==> Rejected(pr, paths[j])
    ensures DetectFrom(pr, paths, miss) == StopAt(pr, paths[k])
    decreases k
  {
    if k > 0 {
      assert Rejected(pr, paths[0]);
      var v := pr.version(paths[0]).value;
      assert forall j :: 0 <= j < k - 1 ==> paths[1..][j] == paths[j + 1];
      DetectStops(pr, paths[1..], miss + [v], k - 1);
    }
  }

  /** The index of the first prefix that is not rejected. */
  lemma FirstNotRejected(pr: Probe, paths: seq<Path>) returns (k: nat)
    requires exists i :: 0 <= i < |paths| && !Rejected(pr, paths[i])
    ensures k < |paths| && !Rejected(pr, paths[k])
    ensures forall j :: 0 <= j < k ==> Rejected(pr, paths[j])
  {
    k := 0;
    while Rejected(pr, paths[k])
      invariant k < |paths|
      invariant exists i :: k <= i < |paths| && !Rejected(pr, paths[i])
      invariant forall j :: 0 <= j < k ==> Rejected(pr, paths[j])
      decreases |paths| - k
    {
      k := k + 1;
    }
  }

  /** A successful detection is what accepting some prefix yields, every earlier prefix having been rejected. */
  lemma {:induction false} DetectFound(pr: Probe, paths: seq<Path>, miss: seq<Version>)
    requires DetectFrom(pr, paths, miss).Success?
    ensures exists k ::
      && 0 <= k < |paths| && pr.version(paths[k]).Success? && pr.accepts(pr.version(paths[k]).value)
      && (forall j :: 0 <= j < k ==> Rejected(pr, paths[j]))
      && DetectFrom(pr, paths, miss) == pr.settle(paths[k])
  {
    if forall i :: 0 <= i < |paths| ==> Rejected(pr, paths[i]) {
      DetectExhausted(pr, paths, miss);
      assert false;
    }
    var k := FirstNotRejected(pr, paths);
    DetectStops(pr, paths, miss, k);
  }

  /** The version errors of the detection are those of reading the number. */
  lemma ProbeVersionError(env: BoostEnv, path: Path)
    ensures ProbeVersion(env, path).Failure? ==> ProbeVersion(env, path).error.NoVersionLine? || ProbeVersion(env, path).error.BadVersion?
  {
  }

  /** "No matching boost" is raised exactly when every prefix was rejected. */
  lemma DetectNoMatch(env: BoostEnv, paths: seq<Path>, miss: seq<Version>)
    ensures var r := DetectFrom(ProbeOf(env), paths, miss);
      (r.Failure? && r.error.NoMatchingBoost?) <==> forall i :: 0 <= i < |paths| ==> Rejected(ProbeOf(env), paths[i])
  {
    var pr := ProbeOf(env);
    if forall i :: 0 <= i < |paths| ==> Rejected(pr, paths[i]) {
      DetectExhausted(pr, paths, miss);
    } else {
      var k := FirstNotRejected(pr, paths);
      DetectStops(pr, paths, miss, k);
      ProbeVersionError(env, paths[k]);
      SettleSpec(env, paths[k]);
    }
  }

  // ---------------------------------------------------------------------
  // The constructor's imperative form.

  /** Looking up the components and the python library once `path` is accepted. */
  method Settle(env: BoostEnv, path: Path, cfg: ConfigValue) returns (r: Result<Detection, BoostError>)
    requires cfg == ProbeConfig(env, path)
    ensures r == SettleOf(env, path)
  {
    var libPath := Join(path, Rel("lib"));
    var found, components := FindComponents(env, libPath);
    if found.Failure? {
      return Failure(found.error);
    }
    var py := FindLib(env, PythonPrimary, libPath);
    if py.Failure? {
      py := FindLib(env, PythonFallback, libPath);
    }
    if py.Failure? {
      return Failure(py.error);
    }
    var c := LibraryConfiguration(py.value);
    return Success(Detection(path, cfg, components, c));
  }

  /** The loop over the components: each library found, with a configuration naming it. */
  method FindComponents(env: BoostEnv, libPath: Path) returns (r: Result<seq<string>, BoostError>, components: seq<ConfigValue>)
    ensures r == FindAllOf(env, Components, libPath)
    ensures r.Success? ==> components == LibraryConfigs(r.value)
  {
    var names: seq<string> := [];
    components := [];
    var i := 0;
    while i < |Components|
      invariant 0 <= i <= |Components|
      invariant FindAllOf(env, Components[..i], libPath) == Success(names)
      invariant components == LibraryConfigs(names)
    {
      assert Components[..i + 1][..i] == Components[..i];
      var n := FindLib(env, Components[i], libPath);
      if n.Failure? {
        FindAllFailure(env, Components, libPath, i + 1);
        return Failure(n.error), components;
      }
      var c := LibraryConfiguration(n.value);
      assert LibraryConfigs(names + [n.value]) == LibraryConfigs(names) + [LibraryConfig(n.value)];
      names := names + [n.value];
      components := components + [c];
      i := i + 1;
    }
    assert Components[..i] == Components;
    r := Success(names);
  }

  /** A fresh `Config` naming one library. */
  method LibraryConfiguration(name: string) returns (v: ConfigValue)
    ensures v == LibraryConfig(name)
  {
    var c := new Config();
    var _ := c.Lib(name, false);
    v := c.Value();
  }

  /** The configuration a prefix's version is read under. */
  method ProbeConfiguration(env: BoostEnv, path: Path) returns (cfg: ConfigValue)
    ensures cfg == ProbeConfig(env, path)
  {
    var c := new Config();
    c.AddSystemIncludePath(Parse(Show(path) + "/include"), env.srcRoot, env.buildPrefix);
    c.LibPath(Join(path, Rel("lib")), env.buildPrefix);
    cfg := c.Value();
  }

  /** `Boost.__init__`: try each searched prefix in turn, collecting the versions that do not match. */
  method Boost(env: BoostEnv, prefix: Option<string>) returns (r: Result<Detection, BoostError>)
    ensures r == BoostOf(env, prefix)
  {
    var test := SearchPrefixes(prefix, env.srcRoot);
    test := env.search(test);
    ghost var pr := ProbeOf(env);
    var miss: seq<Version> := [];
    var i := 0;
    while i < |test|
      invariant 0 <= i <= |test|
      invariant DetectFrom(pr, test, []) == DetectFrom(pr, test[i..], miss)
    {
      var path := test[i];
      assert test[i..][0] == path && test[i..][1..] == test[i + 1..];
      var cfg := ProbeConfiguration(env, path);
      var number := VersionNumber(env.preprocess(cfg));
      assert pr.version(path) == match number case Failure(e) => Failure(e) case Success(v) => Success(Decode(v));
      if number.Failure? {
        return Failure(number.error);
      }
      var ver := Decode(number.value);
      if !env.accepts(ver) {
        miss := miss + [ver];
        i := i + 1;
        continue;
      }
      r := Settle(env, path, cfg);
      return;
    }
    return Failure(NoMatchingBoost(miss));
  }
}
