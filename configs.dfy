/**
 * A C++ build configuration (`Config` in src/drake/cxx/__init__.py):
 * include and library search paths, libraries, macros, flags, language
 * standard and warnings, the mutators that fill it in, and `a + b`, which
 * combines two configurations into a new one or reports the conflict.
 */
module Configs {
  import opened Wrappers
  import opened Seqs
  import opened Paths
  import opened Warnings
  import opened Nodes

  /** `Config.Library`: a library name and whether it is linked statically. */
  datatype Library = Library(name: string, isStatic: bool)

  /** `Config.cxx_98`, `Config.cxx_0x`, `Config.cxx_11`. */
  datatype Standard = Cxx98 | Cxx0x | Cxx11

  /** The argument of `enable_optimization`: `True`, `False` or any other value. */
  datatype OptimizationArg = Enable | Disable | Level(level: int)

  datatype ConfigError =
    | IncompatibleAttribute(attr: string)
    | Redefinition(key: string, before: Option<string>, after: Option<string>)
    | IncompatibleStandards(mine: Standard, hers: Standard)
    | LinkageConflict(lib: string)

  /** A macro definition: `-DNAME` (no value) or `-DNAME=VALUE`. */
  type Define = (string, Option<string>)

  /** The state of a `Config`, field by field. */
  datatype ConfigValue = ConfigValue(
    debug: bool,
    exportDynamic: Option<bool>,
    includes: seq<Path>,
    localIncludes: seq<Path>,
    optimization: int,
    systemIncludes: seq<Path>,
    libPaths: seq<Path>,
    libs: seq<Library>,
    libraries: seq<Node>,
    flags: seq<string>,
    frameworks: seq<string>,
    defines: seq<Define>,
    standard: Option<Standard>,
    rpath: seq<Path>,
    warnings: WarningTable)

  /** `Config()`. */
  const EmptyValue := ConfigValue(false, None, [], [], 1, [], [], [], [], [], [], [], None, [], NoWarnings)

  /** The library names, in order. */
  function Names(libs: seq<Library>): (r: seq<string>)
    ensures |r| == |libs| && forall i :: 0 <= i < |libs| ==> r[i] == libs[i].name
  {
    seq(|libs|, i requires 0 <= i < |libs| => libs[i].name)
  }

  /**
   * What every configuration keeps: each ordered set, the macro names and
   * the library names are free of duplicates, the warnings table is valid,
   * and the unified include view holds exactly the local and system paths.
   */
  ghost predicate WellFormed(v: ConfigValue) {
    && NoDup(v.includes) && NoDup(v.localIncludes) && NoDup(v.systemIncludes)
    && NoDup(v.libPaths) && NoDup(Names(v.libs)) && NoDup(v.libraries)
    && NoDup(v.frameworks) && NoDup(Keys(v.defines))
    && ValidTable(v.warnings)
    && (forall p :: p in v.includes <==> p in v.localIncludes || p in v.systemIncludes)
  }

  lemma EmptyWellFormed()
    ensures WellFormed(EmptyValue)
  {
  }

  // ---------------------------------------------------------------------
  // Mutators, as functions of the configuration state.

  /** `enable_optimization(val)`: `True` is level 1, `False` level 0, anything else itself. */
  function OptimizationLevel(arg: OptimizationArg): (r: int)
    ensures arg == Enable ==> r == 1
    ensures arg == Disable ==> r == 0
    ensures arg.Level? ==> r == arg.level
  {
    match arg
    case Enable => 1
    case Disable => 0
    case Level(n) => n
  }

  /** Default system include directories that are never added. */
  const DefaultSystemIncludes: seq<Path> := [Path(true, ["include"]), Path(true, ["usr", "include"])]

  /** Default system library directories that are never added. */
  const DefaultLibPaths: seq<Path> := [Path(true, ["lib"]), Path(true, ["usr", "lib"])]

  /** `add_local_include_path(path)`: the path under the current prefix, canonised. */
  function LocalIncludeEntry(path: Path, prefix: Path): Path {
    Canonize(Join(prefix, path))
  }

  /**
   * `add_system_include_path(path)`: nothing for a default directory,
   * otherwise the path (rooted at the source tree and prefix when
   * relative), canonised.
   */
  function SystemIncludeEntry(path: Path, srcRoot: Path, prefix: Path): (r: Option<Path>)
    ensures r.None? <==> path in DefaultSystemIncludes
    ensures r.Some? && path.absolute ==> r.value == Canonize(path)
    ensures r.Some? && !path.absolute ==> r.value == Canonize(Join(Join(srcRoot, prefix), path))
  {
    if path in DefaultSystemIncludes then None
    else if !path.absolute then Some(Canonize(Join(Join(srcRoot, prefix), path)))
    else Some(Canonize(path))
  }

  /** `lib_path(path)`: nothing for a default directory, a relative path goes under the prefix. */
  function LibPathEntry(path: Path, prefix: Path): (r: Option<Path>)
    ensures r.None? <==> path in DefaultLibPaths
    ensures r.Some? ==> r.value == (if path.absolute then path else Join(prefix, path))
  {
    if path in DefaultLibPaths then None
    else if !path.absolute then Some(Join(prefix, path))
    else Some(path)
  }

  /** Index of the library named `name`, if any. */
  function LibIndex(libs: seq<Library>, name: string): (r: Option<nat>)
    ensures r.Some? ==> r.value < |libs| && libs[r.value].name == name
    ensures r.None? ==> name !in Names(libs)
  {
    if |libs| == 0 then None
    else match LibIndex(libs[..|libs| - 1], name)
      case Some(i) => Some(i)
      case None =>
        assert forall i :: 0 <= i < |libs| - 1 ==> Names(libs)[i] == Names(libs[..|libs| - 1])[i];
        if libs[|libs| - 1].name == name then Some(|libs| - 1) else None
  }

  /**
   * `lib(name, static)`: a new name is appended; a known name is left alone
   * when its linkage agrees, and is an error when it does not.
   */
  function AddLib(libs: seq<Library>, name: string, isStatic: bool): Result<seq<Library>, ConfigError> {
    match LibIndex(libs, name)
    case None => Success(libs + [Library(name, isStatic)])
    case Some(i) =>
      if libs[i].isStatic != isStatic then Failure(LinkageConflict(name)) else Success(libs)
  }

  /** With unique names, a name is at one position only. */
  lemma {:induction false} UniqueName(libs: seq<Library>, i: nat, j: nat)
    requires NoDup(Names(libs)) && i < |libs| && j < |libs| && libs[i].name == libs[j].name
    ensures i == j
  {
  }

  /** `lib` fails exactly when the name is already there with the other linkage. */
  lemma AddLibConflict(libs: seq<Library>, name: string, isStatic: bool)
    requires NoDup(Names(libs))
    ensures AddLib(libs, name, isStatic).Failure? <==>
      exists i :: 0 <= i < |libs| && libs[i].name == name && libs[i].isStatic != isStatic
    ensures AddLib(libs, name, isStatic).Failure? ==> AddLib(libs, name, isStatic).error == LinkageConflict(name)
  {
    if exists i :: 0 <= i < |libs| && libs[i].name == name && libs[i].isStatic != isStatic {
      var i :| 0 <= i < |libs| && libs[i].name == name && libs[i].isStatic != isStatic;
      assert Names(libs)[i] == name;
      var j := LibIndex(libs, name).value;
      UniqueName(libs, i, j);
    }
  }

  /** On success the library is present with the requested linkage, once, and nothing else changed. */
  lemma AddLibSuccess(libs: seq<Library>, name: string, isStatic: bool)
    requires NoDup(Names(libs))
    requires AddLib(libs, name, isStatic).Success?
    ensures var r := AddLib(libs, name, isStatic).value;
      && NoDup(Names(r))
      && Library(name, isStatic) in r
      && |r| <= |libs| + 1 && r[..|libs|] == libs
      && (r == libs <==> name in Names(libs))
  {
    var r := AddLib(libs, name, isStatic).value;
    match LibIndex(libs, name)
    case None =>
      assert Names(r) == Names(libs) + [name];
      AddNoDup(Names(libs), name);
      assert Library(name, isStatic) == r[|libs|];
    case Some(i) =>
      assert libs[i] == Library(name, isStatic);
      assert Names(libs)[i] == name;
  }

  /** Re-adding a library identically is a no-op. */
  lemma AddLibIdempotent(libs: seq<Library>, name: string, isStatic: bool)
    requires NoDup(Names(libs))
    requires AddLib(libs, name, isStatic).Success?
    ensures AddLib(AddLib(libs, name, isStatic).value, name, isStatic) == AddLib(libs, name, isStatic)
  {
    var r := AddLib(libs, name, isStatic).value;
    AddLibSuccess(libs, name, isStatic);
    var k :| 0 <= k < |r| && r[k] == Library(name, isStatic);
    var j := LibIndex(r, name).value;
    UniqueName(r, k, j);
  }

  /** The names with the given linkage (`__libs_filter`), in insertion order. */
  function LibsFilter(libs: seq<Library>, isStatic: bool): seq<string>
    decreases |libs|
  {
    if |libs| == 0 then []
    else
      var last := libs[|libs| - 1];
      LibsFilter(libs[..|libs| - 1], isStatic) + (if last.isStatic == isStatic then [last.name] else [])
  }

  /** `libs_static`. */
  function LibsStatic(libs: seq<Library>): seq<string> {
    LibsFilter(libs, true)
  }

  /** `libs_dynamic`. */
  function LibsDynamic(libs: seq<Library>): seq<string> {
    LibsFilter(libs, false)
  }

  /** Filtering keeps the insertion order: it distributes over concatenation. */
  lemma {:induction false} LibsFilterAppend(a: seq<Library>, b: seq<Library>, isStatic: bool)
    ensures LibsFilter(a + b, isStatic) == LibsFilter(a, isStatic) + LibsFilter(b, isStatic)
  {
    if |b| == 0 {
      assert a + b == a;
    } else {
      var init := b[..|b| - 1];
      LibsFilterAppend(a, init, isStatic);
      assert (a + b)[..|a + b| - 1] == a + init;
    }
  }

  /** A name is kept exactly when some library of that name has the requested linkage. */
  lemma {:induction false} LibsFilterMember(libs: seq<Library>, isStatic: bool, x: string)
    ensures x in LibsFilter(libs, isStatic) <==>
      exists i :: 0 <= i < |libs| && libs[i].name == x && libs[i].isStatic == isStatic
  {
    if |libs| > 0 {
      var init := libs[..|libs| - 1];
      LibsFilterMember(init, isStatic, x);
      if exists i :: 0 <= i < |libs| && libs[i].name == x && libs[i].isStatic == isStatic {
        var i :| 0 <= i < |libs| && libs[i].name == x && libs[i].isStatic == isStatic;
        if i < |libs| - 1 {
          assert init[i] == libs[i];
        }
      }
      if exists i :: 0 <= i < |init| && init[i].name == x && init[i].isStatic == isStatic {
        var i :| 0 <= i < |init| && init[i].name == x && init[i].isStatic == isStatic;
        assert libs[i] == init[i];
      }
    }
  }

  /** `libs_static` and `libs_dynamic` split the library names between them: nothing lost, nothing doubled. */
  lemma {:induction false} LibsPartition(libs: seq<Library>)
    ensures multiset(LibsStatic(libs)) + multiset(LibsDynamic(libs)) == multiset(Names(libs))
  {
    if |libs| > 0 {
      var init := libs[..|libs| - 1];
      LibsPartition(init);
      assert Names(libs) == Names(init) + [libs[|libs| - 1].name];
    } else {
      assert Names(libs) == [];
    }
  }

  // ---------------------------------------------------------------------
  // Combining two configurations (`Config.__add__`).

  /** `merge_bool`: an unset side yields the other; two set sides must agree. */
  function MergeBool(mine: Option<bool>, hers: Option<bool>, attr: string): (r: Result<Option<bool>, ConfigError>)
    ensures r.Failure? <==> mine.Some? && hers.Some? && mine != hers
    ensures r.Failure? ==> r.error == IncompatibleAttribute(attr)
    ensures r.Success? ==> r.value == if mine.Some? then mine else hers
  {
    if mine.None? then Success(hers)
    else if hers.None? then Success(mine)
    else if mine == hers then Success(hers)
    else Failure(IncompatibleAttribute(attr))
  }

  /**
   * The define loop of `__add__`: each definition of `rest`, in order, is
   * checked against the accumulated ones and appended when new.
   */
  function MergeDefines(acc: seq<Define>, rest: seq<Define>): Result<seq<Define>, ConfigError>
    decreases |rest|
  {
    if |rest| == 0 then Success(acc)
    else
      var (k, v) := rest[0];
      match Get(acc, k)
      case Some(prev) =>
        if prev != v then Failure(Redefinition(k, prev, v)) else MergeDefines(acc, rest[1..])
      case None => MergeDefines(acc + [(k, v)], rest[1..])
  }

  /** The standard of the sum: either side's when only one is set; both set must agree. */
  function MergeStandard(mine: Option<Standard>, hers: Option<Standard>): (r: Result<Option<Standard>, ConfigError>)
    ensures r.Failure? <==> mine.Some? && hers.Some? && mine != hers
    ensures r.Success? ==> r.value == if mine.Some? then mine else hers
  {
    if mine.Some? && hers.Some? && mine != hers then Failure(IncompatibleStandards(mine.value, hers.value))
    else Success(if mine.Some? then mine else hers)
  }

  /** `OrderedSet.add` on libraries, which are equal when their names are. */
  function AddByName(s: seq<Library>, l: Library): seq<Library> {
    if l.name in Names(s) then s else s + [l]
  }

  /** `self.__libs.update(rhs.__libs)`. */
  function LibUnion(s: seq<Library>, t: seq<Library>): seq<Library>
    decreases |t|
  {
    if |t| == 0 then s else AddByName(LibUnion(s, t[..|t| - 1]), t[|t| - 1])
  }

  /**
   * `a + b`: conflicts are looked for in the source's order (export_dynamic,
   * then the defines of `b` in order, then the standard); the sum starts as
   * a copy of `a`, adds `b`'s ordered-set entries after `a`'s, and
   * concatenates the flags.
   */
  function Merge(a: ConfigValue, b: ConfigValue): Result<ConfigValue, ConfigError> {
    match MergeBool(a.exportDynamic, b.exportDynamic, "export_dynamic")
    case Failure(e) => Failure(e)
    case Success(ed) =>
      match MergeDefines(a.defines, b.defines)
      case Failure(e) => Failure(e)
      case Success(ds) =>
        match MergeStandard(a.standard, b.standard)
        case Failure(e) => Failure(e)
        case Success(std) =>
          Success(a.(
            exportDynamic := ed,
            defines := ds,
            localIncludes := Union(a.localIncludes, b.localIncludes),
            systemIncludes := Union(a.systemIncludes, b.systemIncludes),
            includes := Union(a.includes, b.includes),
            frameworks := Union(a.frameworks, b.frameworks),
            libPaths := Union(a.libPaths, b.libPaths),
            libs := LibUnion(a.libs, b.libs),
            libraries := Union(a.libraries, b.libraries),
            flags := a.flags + b.flags,
            standard := std))
  }

  /** Every macro defined on both sides has the same value there. */
  ghost predicate DefinesAgree(d: seq<Define>, e: seq<Define>) {
    forall k :: Get(d, k).Some? && Get(e, k).Some? ==> Get(d, k) == Get(e, k)
  }

  /** When two configurations may be added. */
  ghost predicate Compatible(a: ConfigValue, b: ConfigValue) {
    && (a.exportDynamic.Some? && b.exportDynamic.Some? ==> a.exportDynamic == b.exportDynamic)
    && DefinesAgree(a.defines, b.defines)
    && (a.standard.Some? && b.standard.Some? ==> a.standard == b.standard)
  }

  lemma {:induction false} NoDupTail<T>(s: seq<T>)
    requires NoDup(s) && |s| > 0
    ensures NoDup(s[1..]) && s[0] !in s[1..]
  {
    assert forall i :: 0 <= i < |s[1..]| ==> s[1..][i] == s[i + 1];
  }

  /** The keys of a dictionary after the first one. */
  lemma {:induction false} KeysTail<V>(d: seq<(string, V)>)
    requires |d| > 0
    ensures Keys(d) == [d[0].0] + Keys(d[1..])
  {
  }

  /** With unique keys, the first entry is the only one for its key. */
  lemma {:induction false} GetTail<V>(d: seq<(string, V)>)
    requires |d| > 0 && NoDup(Keys(d))
    ensures Get(d, d[0].0) == Some(d[0].1)
    ensures Get(d[1..], d[0].0).None?
    ensures forall k :: k != d[0].0 ==> Get(d, k) == Get(d[1..], k)
    ensures NoDup(Keys(d[1..]))
  {
    KeysTail(d);
    NoDupTail(Keys(d));
    assert Keys(d)[1..] == Keys(d[1..]);
    GetSome(d[1..], d[0].0);
  }

  /** The define loop succeeds exactly when the definitions agree. */
  lemma {:induction false} MergeDefinesSuccess(acc: seq<Define>, rest: seq<Define>)
    requires NoDup(Keys(rest))
    ensures MergeDefines(acc, rest).Success? <==> DefinesAgree(acc, rest)
    decreases |rest|
  {
    if |rest| > 0 {
      var (k, v) := rest[0];
      GetTail(rest);
      match Get(acc, k)
      case Some(prev) =>
        if prev == v {
          MergeDefinesSuccess(acc, rest[1..]);
          assert DefinesAgree(acc, rest) <==> DefinesAgree(acc, rest[1..]) by {
            if DefinesAgree(acc, rest[1..]) {
              forall k' | Get(acc, k').Some? && Get(rest, k').Some? ensures Get(acc, k') == Get(rest, k') {
                if k' != k {
                  assert Get(rest, k') == Get(rest[1..], k');
                }
              }
            }
            if DefinesAgree(acc, rest) {
              forall k' | Get(acc, k').Some? && Get(rest[1..], k').Some? ensures Get(acc, k') == Get(rest[1..], k') {
                assert Get(rest, k') == Get(rest[1..], k');
              }
            }
          }
        } else {
          assert Get(acc, k).Some? && Get(rest, k).Some? && Get(acc, k) != Get(rest, k);
        }
      case None =>
        var acc' := acc + [(k, v)];
        MergeDefinesSuccess(acc', rest[1..]);
        GetAppend(acc, k, v);
        GetSome(acc, k);
        assert DefinesAgree(acc', rest[1..]) <==> DefinesAgree(acc, rest) by {
          if DefinesAgree(acc', rest[1..]) {
            forall k' | Get(acc, k').Some? && Get(rest, k').Some? ensures Get(acc, k') == Get(rest, k') {
              assert k' != k;
              assert Get(rest, k') == Get(rest[1..], k');
              assert Get(acc', k') == Get(acc, k');
            }
          }
          if DefinesAgree(acc, rest) {
            forall k' | Get(acc', k').Some? && Get(rest[1..], k').Some? ensures Get(acc', k') == Get(rest[1..], k') {
              assert k' != k;
              assert Get(rest, k') == Get(rest[1..], k');
            }
          }
        }
    }
  }

  /**
   * A successful define loop keeps the accumulated definitions first, adds
   * the new keys after them in the order of `rest` (an ordered-set union of
   * the keys), and looks up each key where it was first defined.
   */
  lemma {:induction false} MergeDefinesResult(acc: seq<Define>, rest: seq<Define>)
    requires MergeDefines(acc, rest).Success?
    ensures var r := MergeDefines(acc, rest).value;
      && Keys(r) == Union(Keys(acc), Keys(rest))
      && (forall k :: Get(r, k) == if Get(acc, k).Some? then Get(acc, k) else Get(rest, k))
      && |acc| <= |r| && r[..|acc|] == acc
    decreases |rest|
  {
    var r := MergeDefines(acc, rest).value;
    if |rest| == 0 {
      assert Keys(rest) == [];
      assert r == acc;
    } else {
      var (k, v) := rest[0];
      KeysTail(rest);
      GetSome(acc, k);
      match Get(acc, k)
      case Some(prev) =>
        MergeDefinesResult(acc, rest[1..]);
        UnionCons(Keys(acc), k, Keys(rest[1..]));
      case None =>
        var acc' := acc + [(k, v)];
        MergeDefinesResult(acc', rest[1..]);
        UnionCons(Keys(acc), k, Keys(rest[1..]));
        KeysAppend(acc, [(k, v)]);
        assert Keys([(k, v)]) == [k];
        GetAppend(acc, k, v);
        assert r[..|acc'|] == acc';
        assert r[..|acc|] == acc'[..|acc|];
    }
  }

  /** A redefinition error names a key of `rest` defined differently before, with both values. */
  lemma {:induction false} MergeDefinesError(acc: seq<Define>, rest: seq<Define>)
    requires NoDup(Keys(rest))
    requires MergeDefines(acc, rest).Failure?
    ensures var e := MergeDefines(acc, rest).error;
      && e.Redefinition?
      && Get(acc, e.key) == Some(e.before)
      && e.after != e.before
      && exists j :: 0 <= j < |rest| && rest[j] == (e.key, e.after)
    decreases |rest|
  {
    var (k, v) := rest[0];
    GetTail(rest);
    match Get(acc, k)
    case Some(prev) =>
      if prev == v {
        MergeDefinesError(acc, rest[1..]);
        var e := MergeDefines(acc, rest).error;
        var j :| 0 <= j < |rest[1..]| && rest[1..][j] == (e.key, e.after);
        assert rest[j + 1] == (e.key, e.after);
      } else {
        assert rest[0] == (k, v);
      }
    case None =>
      var acc' := acc + [(k, v)];
      MergeDefinesError(acc', rest[1..]);
      var e := MergeDefines(acc, rest).error;
      var j :| 0 <= j < |rest[1..]| && rest[1..][j] == (e.key, e.after);
      assert rest[j + 1] == (e.key, e.after);
      GetAppend(acc, k, v);
      KeysLength(rest);
      assert Keys(rest)[j + 1] == e.key;
      assert e.key != k;
  }

  /** `a + b` succeeds exactly when the configurations are compatible. */
  lemma MergeSuccess(a: ConfigValue, b: ConfigValue)
    requires NoDup(Keys(b.defines))
    ensures Merge(a, b).Success? <==> Compatible(a, b)
  {
    MergeDefinesSuccess(a.defines, b.defines);
  }

  /** Whether `a + b` succeeds does not depend on the order of the operands. */
  lemma MergeSuccessSymmetric(a: ConfigValue, b: ConfigValue)
    requires NoDup(Keys(a.defines)) && NoDup(Keys(b.defines))
    ensures Merge(a, b).Success? <==> Merge(b, a).Success?
  {
    MergeSuccess(a, b);
    MergeSuccess(b, a);
    assert DefinesAgree(a.defines, b.defines) <==> DefinesAgree(b.defines, a.defines) by {
      if DefinesAgree(a.defines, b.defines) {
        forall k | Get(b.defines, k).Some? && Get(a.defines, k).Some? ensures Get(b.defines, k) == Get(a.defines, k) {
        }
      }
      if DefinesAgree(b.defines, a.defines) {
        forall k | Get(a.defines, k).Some? && Get(b.defines, k).Some? ensures Get(a.defines, k) == Get(b.defines, k) {
        }
      }
    }
  }

  /** The doctest of `__add__`. */
  lemma MergeDoctest()
    ensures var cfg1 := EmptyValue.(defines := [("A", Some("0"))]);
      var cfg2 := EmptyValue.(defines := [("B", Some("1"))]);
      Merge(cfg1, cfg2).Success? &&
      Get(Merge(cfg1, cfg2).value.defines, "A") == Some(Some("0")) &&
      Get(Merge(cfg1, cfg2).value.defines, "B") == Some(Some("1"))
    ensures var cfg1 := EmptyValue.(defines := [("A", Some("0"))]);
      var cfg2 := EmptyValue.(defines := [("B", Some("1")), ("A", Some("0"))]);
      Merge(cfg1, cfg2).Success? &&
      Get(Merge(cfg1, cfg2).value.defines, "A") == Some(Some("0"))
    ensures var cfg1 := EmptyValue.(defines := [("A", Some("0")), ("B", Some("0"))]);
      var cfg2 := EmptyValue.(defines := [("B", Some("1")), ("A", Some("0"))]);
      Merge(cfg1, cfg2) == Failure(Redefinition("B", Some("0"), Some("1")))
  {
    var d1: seq<Define> := [("A", Some("0"))];
    var d2: seq<Define> := [("B", Some("1"))];
    assert MergeDefines(d1, d2) == MergeDefines(d1 + [("B", Some("1"))], []);
    var d3: seq<Define> := [("B", Some("1")), ("A", Some("0"))];
    assert MergeDefines(d1, d3) == MergeDefines(d1 + [("B", Some("1"))], d3[1..]);
    assert d3[1..][1..] == [];
    var d4: seq<Define> := [("A", Some("0")), ("B", Some("0"))];
    assert Get(d4, "B") == Some(Some("0"));
  }

  /** Adding the empty configuration changes nothing. */
  lemma MergeRightIdentity(a: ConfigValue)
    ensures Merge(a, EmptyValue) == Success(a)
  {
    assert a.flags + [] == a.flags;
  }

  /** The unions only grow their left operand by new elements. */
  lemma {:induction false} LibUnionNames(s: seq<Library>, t: seq<Library>)
    ensures Names(LibUnion(s, t)) == Union(Names(s), Names(t))
  {
    if |t| > 0 {
      var init := t[..|t| - 1];
      LibUnionNames(s, init);
      assert Names(t)[..|t| - 1] == Names(init);
      var u := LibUnion(s, init);
      if t[|t| - 1].name !in Names(u) {
        assert Names(u + [t[|t| - 1]]) == Names(u) + [t[|t| - 1].name];
      }
    } else {
      assert Names(t) == [];
    }
  }

  /** Every library of the union comes from one of the operands, and those of `s` stay first. */
  lemma {:induction false} LibUnionFacts(s: seq<Library>, t: seq<Library>)
    ensures |s| <= |LibUnion(s, t)| && LibUnion(s, t)[..|s|] == s
    ensures forall l :: l in LibUnion(s, t) ==> l in s || l in t
  {
    if |t| > 0 {
      LibUnionFacts(s, t[..|t| - 1]);
    }
  }

  /** The empty configuration is a left identity for everything but the fields taken from `a`. */
  lemma {:induction false} LibUnionEmptyLeft(t: seq<Library>)
    requires NoDup(Names(t))
    ensures LibUnion([], t) == t
  {
    if |t| > 0 {
      var init, x := t[..|t| - 1], t[|t| - 1];
      assert Names(init) == Names(t)[..|t| - 1];
      assert NoDup(Names(init)) by {
        forall i, j | 0 <= i < j < |init| ensures Names(init)[i] != Names(init)[j] {
          assert Names(t)[i] != Names(t)[j];
        }
      }
      LibUnionEmptyLeft(init);
      assert x.name !in Names(init) by {
        forall i | 0 <= i < |init| ensures Names(init)[i] != x.name {
          assert Names(t)[i] != Names(t)[|t| - 1];
        }
      }
      assert t == init + [x];
    }
  }

  lemma {:induction false} MergeDefinesEmptyLeft(d: seq<Define>)
    requires NoDup(Keys(d))
    ensures MergeDefines([], d).Success?
    ensures MergeDefines([], d).value == d
  {
    MergeDefinesSuccess([], d);
    var r := MergeDefines([], d).value;
    MergeDefinesResult([], d);
    UnionEmptyLeft(Keys(d));
    var empty: seq<Define> := [];
    assert Keys(empty) == [];
    DictExt(r, d);
  }

  /**
   * Only `a` contributes debug symbols, optimisation, rpath and warnings:
   * adding a configuration to the empty one yields it with those fields at
   * their defaults.
   */
  lemma MergeEmptyLeft(b: ConfigValue)
    requires WellFormed(b)
    ensures Merge(EmptyValue, b) ==
      Success(b.(debug := false, optimization := 1, rpath := [], warnings := NoWarnings))
  {
    MergeDefinesEmptyLeft(b.defines);
    UnionEmptyLeft(b.localIncludes);
    UnionEmptyLeft(b.systemIncludes);
    UnionEmptyLeft(b.includes);
    UnionEmptyLeft(b.frameworks);
    UnionEmptyLeft(b.libPaths);
    UnionEmptyLeft(b.libraries);
    LibUnionEmptyLeft(b.libs);
    assert [] + b.flags == b.flags;
  }

  /**
   * The shape of a successful sum: every ordered-set field holds the
   * entries of both operands, `a`'s first and in their order; flags are
   * concatenated; macros are looked up in `a` first; and debug symbols,
   * optimisation, rpath and warnings are `a`'s.
   */
  lemma MergeShape(a: ConfigValue, b: ConfigValue)
    requires Merge(a, b).Success?
    ensures var r := Merge(a, b).value;
      && (forall p :: p in r.localIncludes <==> p in a.localIncludes || p in b.localIncludes)
      && (forall p :: p in r.systemIncludes <==> p in a.systemIncludes || p in b.systemIncludes)
      && (forall p :: p in r.includes <==> p in a.includes || p in b.includes)
      && (forall p :: p in r.libPaths <==> p in a.libPaths || p in b.libPaths)
      && (forall n :: n in r.libraries <==> n in a.libraries || n in b.libraries)
      && (forall f :: f in r.frameworks <==> f in a.frameworks || f in b.frameworks)
      && (forall n :: n in Names(r.libs) <==> n in Names(a.libs) || n in Names(b.libs))
      && |a.localIncludes| <= |r.localIncludes| && r.localIncludes[..|a.localIncludes|] == a.localIncludes
      && |a.systemIncludes| <= |r.systemIncludes| && r.systemIncludes[..|a.systemIncludes|] == a.systemIncludes
      && |a.includes| <= |r.includes| && r.includes[..|a.includes|] == a.includes
      && |a.libPaths| <= |r.libPaths| && r.libPaths[..|a.libPaths|] == a.libPaths
      && |a.libraries| <= |r.libraries| && r.libraries[..|a.libraries|] == a.libraries
      && |a.frameworks| <= |r.frameworks| && r.frameworks[..|a.frameworks|] == a.frameworks
      && |a.libs| <= |r.libs| && r.libs[..|a.libs|] == a.libs
      && r.flags == a.flags + b.flags
      && Keys(r.defines) == Union(Keys(a.defines), Keys(b.defines))
      && (forall k :: Get(r.defines, k) == if Get(a.defines, k).Some? then Get(a.defines, k) else Get(b.defines, k))
      && r.debug == a.debug && r.optimization == a.optimization
      && r.rpath == a.rpath && r.warnings == a.warnings
      && r.exportDynamic == (if a.exportDynamic.Some? then a.exportDynamic else b.exportDynamic)
      && r.standard == (if a.standard.Some? then a.standard else b.standard)
  {
    var r := Merge(a, b).value;
    UnionElements(a.localIncludes, b.localIncludes);
    UnionElements(a.systemIncludes, b.systemIncludes);
    UnionElements(a.includes, b.includes);
    UnionElements(a.libPaths, b.libPaths);
    UnionElements(a.libraries, b.libraries);
    UnionElements(a.frameworks, b.frameworks);
    LibUnionNames(a.libs, b.libs);
    UnionElements(Names(a.libs), Names(b.libs));
    UnionPrefix(a.localIncludes, b.localIncludes);
    UnionPrefix(a.systemIncludes, b.systemIncludes);
    UnionPrefix(a.includes, b.includes);
    UnionPrefix(a.libPaths, b.libPaths);
    UnionPrefix(a.libraries, b.libraries);
    UnionPrefix(a.frameworks, b.frameworks);
    LibUnionFacts(a.libs, b.libs);
    MergeDefinesResult(a.defines, b.defines);
  }

  /** The sum of two well-formed configurations is well formed. */
  lemma MergeWellFormed(a: ConfigValue, b: ConfigValue)
    requires WellFormed(a) && WellFormed(b) && Merge(a, b).Success?
    ensures WellFormed(Merge(a, b).value)
  {
    var r := Merge(a, b).value;
    MergeShape(a, b);
    UnionNoDup(a.localIncludes, b.localIncludes);
    UnionNoDup(a.systemIncludes, b.systemIncludes);
    UnionNoDup(a.includes, b.includes);
    UnionNoDup(a.libPaths, b.libPaths);
    UnionNoDup(a.libraries, b.libraries);
    UnionNoDup(a.frameworks, b.frameworks);
    LibUnionNames(a.libs, b.libs);
    UnionNoDup(Names(a.libs), Names(b.libs));
    UnionNoDup(Keys(a.defines), Keys(b.defines));
  }

  // ---------------------------------------------------------------------
  // Associativity of `+`.

  /** The first macro of `rest` that `acc` defines with another value, as the loop reports it. */
  function FirstConflict(acc: seq<Define>, rest: seq<Define>): Option<ConfigError>
    decreases |rest|
  {
    if |rest| == 0 then None
    else match Get(acc, rest[0].0)
      case Some(prev) =>
        if prev != rest[0].1 then Some(Redefinition(rest[0].0, prev, rest[0].1)) else FirstConflict(acc, rest[1..])
      case None => FirstConflict(acc, rest[1..])
  }

  /** The macros of `rest` that `acc` does not define, in order. */
  function NewDefines(acc: seq<Define>, rest: seq<Define>): seq<Define>
    decreases |rest|
  {
    if |rest| == 0 then []
    else (if Get(acc, rest[0].0).None? then [rest[0]] else []) + NewDefines(acc, rest[1..])
  }

  /** Only the lookups of `rest`'s keys matter. */
  lemma {:induction false} DefinesFrame(acc: seq<Define>, acc': seq<Define>, rest: seq<Define>)
    requires forall i :: 0 <= i < |rest| ==> Get(acc, rest[i].0) == Get(acc', rest[i].0)
    ensures FirstConflict(acc, rest) == FirstConflict(acc', rest)
    ensures NewDefines(acc, rest) == NewDefines(acc', rest)
    decreases |rest|
  {
    if |rest| > 0 {
      assert Get(acc, rest[0].0) == Get(acc', rest[0].0);
      DefinesFrame(acc, acc', rest[1..]);
    }
  }

  /**
   * With distinct keys in `rest`, the define loop reports the first
   * conflicting macro, or else appends exactly the macros `acc` lacks.
   */
  lemma {:induction false} MergeDefinesExact(acc: seq<Define>, rest: seq<Define>)
    requires NoDup(Keys(rest))
    ensures MergeDefines(acc, rest) ==
      match FirstConflict(acc, rest)
      case Some(e) => Failure(e)
      case None => Success(acc + NewDefines(acc, rest))
    decreases |rest|
  {
    if |rest| > 0 {
      var (k, v) := rest[0];
      var tail := rest[1..];
      KeysTail(rest);
      NoDupTail(Keys(rest));
      assert Keys(rest)[1..] == Keys(tail);
      match Get(acc, k)
      case Some(prev) =>
        if prev == v {
          MergeDefinesExact(acc, tail);
          assert [] + NewDefines(acc, tail) == NewDefines(acc, tail);
        }
      case None =>
        var acc' := acc + [(k, v)];
        MergeDefinesExact(acc', tail);
        KeysLength(tail);
        forall i | 0 <= i < |tail| ensures Get(acc, tail[i].0) == Get(acc', tail[i].0) {
          assert Keys(tail)[i] == tail[i].0;
          GetAppend(acc, k, v);
        }
        DefinesFrame(acc, acc', tail);
        assert acc' + NewDefines(acc, tail) == acc + ([(k, v)] + NewDefines(acc, tail));
    } else {
      assert acc + [] == acc;
    }
  }

  lemma {:induction false} DefinesAppend(acc: seq<Define>, x: seq<Define>, y: seq<Define>)
    ensures FirstConflict(acc, x + y) == if FirstConflict(acc, x).Some? then FirstConflict(acc, x) else FirstConflict(acc, y)
    ensures NewDefines(acc, x + y) == NewDefines(acc, x) + NewDefines(acc, y)
    decreases |x|
  {
    if |x| == 0 {
      assert x + y == y;
    } else {
      assert (x + y)[0] == x[0] && (x + y)[1..] == x[1..] + y;
      DefinesAppend(acc, x[1..], y);
    }
  }

  /** Without a conflict, every macro of `rest` that `acc` defines has the same value there. */
  lemma {:induction false} NoConflictAgrees(acc: seq<Define>, rest: seq<Define>)
    requires FirstConflict(acc, rest).None?
    ensures forall i :: 0 <= i < |rest| && Get(acc, rest[i].0).Some? ==> Get(acc, rest[i].0) == Some(rest[i].1)
    decreases |rest|
  {
    if |rest| > 0 {
      NoConflictAgrees(acc, rest[1..]);
      assert forall i :: 1 <= i < |rest| ==> rest[i] == rest[1..][i - 1];
    }
  }

  /**
   * Checking `c` against the sum `ab` of `a` and `b` is checking against
   * `a` the macros of `c` that `b` lacks.
   */
  lemma {:induction false} DefinesThreeWay(ab: seq<Define>, a: seq<Define>, b: seq<Define>, c: seq<Define>)
    requires forall k :: Get(ab, k) == if Get(a, k).Some? then Get(a, k) else Get(b, k)
    requires DefinesAgree(a, b)
    requires forall i :: 0 <= i < |c| && Get(b, c[i].0).Some? ==> Get(b, c[i].0) == Some(c[i].1)
    ensures FirstConflict(ab, c) == FirstConflict(a, NewDefines(b, c))
    ensures NewDefines(ab, c) == NewDefines(a, NewDefines(b, c))
    decreases |c|
  {
    if |c| > 0 {
      var (k, v) := c[0];
      assert forall i :: 1 <= i < |c| ==> c[i] == c[1..][i - 1];
      DefinesThreeWay(ab, a, b, c[1..]);
      var rest := NewDefines(b, c[1..]);
      if Get(b, k).None? {
        var n := [c[0]] + rest;
        assert n[0] == c[0] && n[1..] == rest;
      } else {
        assert NewDefines(b, c) == rest;
      }
    }
  }

  /** The define loops of `(a + b) + c` and `a + (b + c)` end the same way. */
  lemma MergeDefinesAssoc(a: seq<Define>, b: seq<Define>, c: seq<Define>)
    requires NoDup(Keys(b)) && NoDup(Keys(c))
    requires MergeDefines(a, b).Success? && MergeDefines(b, c).Success?
    ensures MergeDefines(MergeDefines(a, b).value, c) == MergeDefines(a, MergeDefines(b, c).value)
  {
    var ab, bc := MergeDefines(a, b).value, MergeDefines(b, c).value;
    var nbc := NewDefines(b, c);
    assert FirstConflict(a, b).None? && ab == a + NewDefines(a, b) by {
      MergeDefinesExact(a, b);
    }
    assert FirstConflict(b, c).None? && bc == b + nbc by {
      MergeDefinesExact(b, c);
    }
    assert FirstConflict(ab, c) == FirstConflict(a, nbc) && NewDefines(ab, c) == NewDefines(a, nbc) by {
      MergeDefinesResult(a, b);
      MergeDefinesSuccess(a, b);
      NoConflictAgrees(b, c);
      DefinesThreeWay(ab, a, b, c);
    }
    assert FirstConflict(a, bc) == FirstConflict(a, nbc) && NewDefines(a, bc) == NewDefines(a, b) + NewDefines(a, nbc) by {
      DefinesAppend(a, b, nbc);
    }
    assert NoDup(Keys(bc)) by {
      MergeDefinesResult(b, c);
      UnionNoDup(Keys(b), Keys(c));
    }
    var fc, n1, n2 := FirstConflict(a, nbc), NewDefines(a, b), NewDefines(a, nbc);
    assert MergeDefines(ab, c) == if fc.Some? then Failure(fc.value) else Success(ab + n2) by {
      MergeDefinesExact(ab, c);
    }
    assert MergeDefines(a, bc) == if fc.Some? then Failure(fc.value) else Success(a + (n1 + n2)) by {
      MergeDefinesExact(a, bc);
    }
    assert ab + n2 == a + (n1 + n2);
  }

  /** `LibUnion` is associative, whatever the operands hold. */
  lemma {:induction false} LibUnionAssoc(s: seq<Library>, t: seq<Library>, u: seq<Library>)
    ensures LibUnion(LibUnion(s, t), u) == LibUnion(s, LibUnion(t, u))
    decreases |u|
  {
    if |u| > 0 {
      var init, x := u[..|u| - 1], u[|u| - 1];
      LibUnionAssoc(s, t, init);
      var tu := LibUnion(t, init);
      LibUnionNames(s, tu);
      UnionElements(Names(s), Names(tu));
      if x.name in Names(tu) {
        assert LibUnion(t, u) == tu;
      } else {
        var tu' := tu + [x];
        assert LibUnion(t, u) == tu';
        assert tu'[..|tu'| - 1] == tu;
      }
    }
  }

  lemma MergeBoolAssoc(x: Option<bool>, y: Option<bool>, z: Option<bool>, attr: string)
    requires MergeBool(x, y, attr).Success? && MergeBool(y, z, attr).Success?
    ensures MergeBool(MergeBool(x, y, attr).value, z, attr) == MergeBool(x, MergeBool(y, z, attr).value, attr)
  {
  }

  lemma MergeStandardAssoc(x: Option<Standard>, y: Option<Standard>, z: Option<Standard>)
    requires MergeStandard(x, y).Success? && MergeStandard(y, z).Success?
    ensures MergeStandard(MergeStandard(x, y).value, z) == MergeStandard(x, MergeStandard(y, z).value)
  {
  }

  /**
   * `+` is associative: when `a + b` and `b + c` can be added, `(a + b) + c`
   * and `a + (b + c)` are the same configuration, or fail with the same
   * conflict.
   */
  lemma MergeAssoc(a: ConfigValue, b: ConfigValue, c: ConfigValue)
    requires NoDup(Keys(b.defines)) && NoDup(Keys(c.defines))
    requires Merge(a, b).Success? && Merge(b, c).Success?
    ensures Merge(Merge(a, b).value, c) == Merge(a, Merge(b, c).value)
  {
    var ab, bc := Merge(a, b).value, Merge(b, c).value;
    MergeBoolAssoc(a.exportDynamic, b.exportDynamic, c.exportDynamic, "export_dynamic");
    MergeDefinesAssoc(a.defines, b.defines, c.defines);
    MergeStandardAssoc(a.standard, b.standard, c.standard);
    UnionAssoc(a.localIncludes, b.localIncludes, c.localIncludes);
    UnionAssoc(a.systemIncludes, b.systemIncludes, c.systemIncludes);
    UnionAssoc(a.includes, b.includes, c.includes);
    UnionAssoc(a.frameworks, b.frameworks, c.frameworks);
    UnionAssoc(a.libPaths, b.libPaths, c.libPaths);
    UnionAssoc(a.libraries, b.libraries, c.libraries);
    LibUnionAssoc(a.libs, b.libs, c.libs);
    assert (a.flags + b.flags) + c.flags == a.flags + (b.flags + c.flags);
  }

  /**
   * The macro loop of `__add__`: each of `rest`'s macros, in order, is
   * added to `acc` unless it is already defined there, and a different
   * value for a defined macro stops the loop.
   */
  method DefinesUpdate(acc: seq<Define>, rest: seq<Define>) returns (r: Result<seq<Define>, ConfigError>)
    ensures r == MergeDefines(acc, rest)
  {
    var res := acc;
    var i := 0;
    while i < |rest|
      invariant 0 <= i <= |rest|
      invariant MergeDefines(res, rest[i..]) == MergeDefines(acc, rest)
    {
      var (key, value) := rest[i];
      assert rest[i..][1..] == rest[i + 1..];
      var prev := Get(res, key);
      if prev.None? {
        res := res + [(key, value)];
      } else if prev.value != value {
        return Failure(Redefinition(key, prev.value, value));
      }
      i := i + 1;
    }
    assert rest[i..] == [];
    return Success(res);
  }

  // ---------------------------------------------------------------------
  // The mutable configuration object.

  /** `Config`: a configuration that its mutators update in place. */
  class Config {
    var debug: bool
    var exportDynamic: Option<bool>
    var includes: seq<Path>
    var localIncludes: seq<Path>
    var optimization: int
    var systemIncludes: seq<Path>
    var libPaths: seq<Path>
    var libs: seq<Library>
    var libraries: seq<Node>
    var flags: seq<string>
    var frameworks: seq<string>
    var defines: seq<Define>
    var standard: Option<Standard>
    var rpath: seq<Path>
    var warnings: WarningTable

    /** The current state of the configuration. */
    function Value(): ConfigValue
      reads this
    {
      ConfigValue(debug, exportDynamic, includes, localIncludes, optimization, systemIncludes,
        libPaths, libs, libraries, flags, frameworks, defines, standard, rpath, warnings)
    }

    ghost predicate Valid()
      reads this
    {
      WellFormed(Value())
    }

    /** `Config()`. */
    constructor ()
      ensures Value() == EmptyValue && Valid()
    {
      debug, exportDynamic, includes, localIncludes := false, None, [], [];
      optimization, systemIncludes, libPaths, libs := 1, [], [], [];
      libraries, flags, frameworks, defines := [], [], [], [];
      standard, rpath, warnings := None, [], NoWarnings;
    }

    /** `Config(model)`: an independent copy. */
    constructor Copy(model: Config)
      ensures Value() == model.Value()
    {
      debug, exportDynamic, includes, localIncludes := model.debug, model.exportDynamic, model.includes, model.localIncludes;
      optimization, systemIncludes, libPaths, libs := model.optimization, model.systemIncludes, model.libPaths, model.libs;
      libraries, flags, frameworks, defines := model.libraries, model.flags, model.frameworks, model.defines;
      standard, rpath, warnings := model.standard, model.rpath, model.warnings;
    }

    /** A configuration holding the given state. */
    constructor FromValue(v: ConfigValue)
      ensures Value() == v
    {
      debug, exportDynamic, includes, localIncludes := v.debug, v.exportDynamic, v.includes, v.localIncludes;
      optimization, systemIncludes, libPaths, libs := v.optimization, v.systemIncludes, v.libPaths, v.libs;
      libraries, flags, frameworks, defines := v.libraries, v.flags, v.frameworks, v.defines;
      standard, rpath, warnings := v.standard, v.rpath, v.warnings;
    }

    /** `enable_debug_symbols(val)`. */
    method EnableDebugSymbols(val: bool)
      modifies this
      ensures Value() == old(Value()).(debug := val)
    {
      debug := val;
    }

    /** `enable_optimization(val)`. */
    method EnableOptimization(val: OptimizationArg)
      modifies this
      ensures Value() == old(Value()).(optimization := OptimizationLevel(val))
    {
      match val
      case Enable => optimization := 1;
      case Disable => optimization := 0;
      case Level(n) => optimization := n;
    }

    /** `define(name, value)`: a redefinition keeps the macro's position. */
    method Define(name: string, value: Option<string>)
      requires Valid()
      modifies this
      ensures Value() == old(Value()).(defines := Put(old(defines), name, value))
      ensures Valid()
      ensures Get(defines, name) == Some(value)
    {
      PutFacts(defines, name, value);
      AddNoDup(Keys(defines), name);
      defines := Put(defines, name, value);
    }

    /** `flag(f)`. */
    method Flag(f: string)
      modifies this
      ensures Value() == old(Value()).(flags := old(flags) + [f])
    {
      flags := flags + [f];
    }

    /** `framework_add(name)`. */
    method FrameworkAdd(name: string)
      requires Valid()
      modifies this
      ensures Value() == old(Value()).(frameworks := Add(old(frameworks), name))
      ensures Valid()
    {
      AddNoDup(frameworks, name);
      frameworks := Add(frameworks, name);
    }

    /** `add_local_include_path(path)`, with the current build prefix given explicitly. */
    method AddLocalIncludePath(path: Path, prefix: Path)
      requires Valid()
      modifies this
      ensures var p := LocalIncludeEntry(path, prefix);
        Value() == old(Value()).(localIncludes := Add(old(localIncludes), p), includes := Add(old(includes), p))
      ensures Valid()
    {
      var p := Canonize(Join(prefix, path));
      AddNoDup(localIncludes, p);
      AddNoDup(includes, p);
      localIncludes := Add(localIncludes, p);
      includes := Add(includes, p);
    }

    /** `add_system_include_path(path)`, with the source root and build prefix given explicitly. */
    method AddSystemIncludePath(path: Path, srcRoot: Path, prefix: Path)
      requires Valid()
      modifies this
      ensures match SystemIncludeEntry(path, srcRoot, prefix)
        case None => Value() == old(Value())
        case Some(p) => Value() == old(Value()).(systemIncludes := Add(old(systemIncludes), p), includes := Add(old(includes), p))
      ensures Valid()
    {
      if path == Path(true, ["include"]) || path == Path(true, ["usr", "include"]) {
        return;
      }
      var p := path;
      if !p.absolute {
        p := Join(Join(srcRoot, prefix), p);
      }
      p := Canonize(p);
      AddNoDup(systemIncludes, p);
      AddNoDup(includes, p);
      systemIncludes := Add(systemIncludes, p);
      includes := Add(includes, p);
    }

    /** `lib_path(path)`, with the current build prefix given explicitly. */
    method LibPath(path: Path, prefix: Path)
      requires Valid()
      modifies this
      ensures match LibPathEntry(path, prefix)
        case None => Value() == old(Value())
        case Some(p) => Value() == old(Value()).(libPaths := Add(old(libPaths), p))
      ensures Valid()
    {
      if path == Path(true, ["lib"]) || path == Path(true, ["usr", "lib"]) {
        return;
      }
      var p := path;
      if !p.absolute {
        p := Join(prefix, p);
      }
      AddNoDup(libPaths, p);
      libPaths := Add(libPaths, p);
    }

    /** `lib_path_runtime(path)`. */
    method LibPathRuntime(path: Path)
      modifies this
      ensures Value() == old(Value()).(rpath := old(rpath) + [path])
    {
      rpath := rpath + [path];
    }

    /** `lib(name, static)`: on a linkage conflict the configuration is left as it was. */
    method Lib(name: string, isStatic: bool) returns (r: Outcome<ConfigError>)
      requires Valid()
      modifies this
      ensures match AddLib(old(libs), name, isStatic)
        case Failure(e) => r == Fail(e) && Value() == old(Value())
        case Success(ls) => r == Pass && Value() == old(Value()).(libs := ls)
      ensures Valid()
    {
      var i := LibIndex(libs, name);
      if i.Some? {
        if libs[i.value].isStatic != isStatic {
          return Fail(LinkageConflict(name));
        }
        return Pass;
      }
      AddLibSuccess(libs, name, isStatic);
      libs := libs + [Library(name, isStatic)];
      return Pass;
    }

    /** `library_add(library)` for a node. */
    method LibraryAdd(library: Node)
      requires Valid()
      modifies this
      ensures Value() == old(Value()).(libraries := Add(old(libraries), library))
      ensures Valid()
    {
      AddNoDup(libraries, library);
      libraries := Add(libraries, library);
    }

    /** `standard = value`. */
    method SetStandard(value: Option<Standard>)
      modifies this
      ensures Value() == old(Value()).(standard := value)
    {
      standard := value;
    }

    /** `export_dynamic = val`: stored as a boolean. */
    method SetExportDynamic(val: bool)
      modifies this
      ensures Value() == old(Value()).(exportDynamic := Some(val))
    {
      exportDynamic := Some(val);
    }

    /**
     * `warnings.<name> = state`: a recognised name is stored under its
     * canonical form; any other name leaves the table alone.
     */
    method SetWarningState(name: string, state: WarningState) returns (known: bool)
      requires Valid()
      modifies this
      ensures known == WarningNames.IsKnownWarning(name)
      ensures known ==> Value() == old(Value()).(warnings := Warnings.SetWarning(old(warnings), name, state).value)
      ensures !known ==> Value() == old(Value())
      ensures Valid()
    {
      var r := Warnings.SetWarning(warnings, name, state);
      known := r.Success?;
      if known {
        SetWarningValid(warnings, name, state);
        warnings := r.value;
      }
    }

    /** `enable_warnings(value)` as written: the configuration does not change. */
    method EnableWarningsAsWritten(value: bool)
      modifies this
      ensures Value() == old(Value())
    {
      AssignDefaultAsWrittenUnchanged(warnings, value);
      warnings := AssignDefaultAsWritten(warnings, value);
    }

    /** `enable_warnings(value)` as evidently intended: the default switch (`-Wall`) is set. */
    method EnableWarnings(value: bool)
      modifies this
      ensures Value() == old(Value()).(warnings := old(warnings).(default := value))
    {
      warnings := warnings.(default := value);
    }

    /**
     * `self + rhs`: a fresh configuration, or the first conflict; neither
     * operand changes.
     */
    method Plus(rhs: Config) returns (r: Result<Config, ConfigError>)
      ensures r.Success? <==> Merge(Value(), rhs.Value()).Success?
      ensures r.Failure? ==> r.error == Merge(Value(), rhs.Value()).error
      ensures r.Success? ==> fresh(r.value) && r.value.Value() == Merge(Value(), rhs.Value()).value
    {
      var ed := MergeBool(exportDynamic, rhs.exportDynamic, "export_dynamic");
      if ed.Failure? {
        return Failure(ed.error);
      }
      var ds := DefinesUpdate(defines, rhs.defines);
      if ds.Failure? {
        return Failure(ds.error);
      }
      var std := MergeStandard(standard, rhs.standard);
      if std.Failure? {
        return Failure(std.error);
      }
      var a, b := Value(), rhs.Value();
      var v := a.(
        exportDynamic := ed.value,
        defines := ds.value,
        localIncludes := Union(a.localIncludes, b.localIncludes),
        systemIncludes := Union(a.systemIncludes, b.systemIncludes),
        includes := Union(a.includes, b.includes),
        frameworks := Union(a.frameworks, b.frameworks),
        libPaths := Union(a.libPaths, b.libPaths),
        libs := LibUnion(a.libs, b.libs),
        libraries := Union(a.libraries, b.libraries),
        flags := a.flags + b.flags,
        standard := std.value);
      assert Merge(a, b) == Success(v);
      var res := new Config.FromValue(v);
      return Success(res);
    }
  }
}
