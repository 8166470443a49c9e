/**
 * The Microsoft Visual C++ toolkit (`VisualToolkit` in
 * src/drake/cxx/__init__.py): its preprocessor flags, its compile command
 * line, the warnings it disables and the names it gives to objects,
 * libraries and executables. Its constructor, which reads the Visual
 * Studio environment through a batch file, is not modelled.
 */
module VisualToolkits {
  import opened Wrappers
  import opened Seqs
  import opened Strings
  import opened Paths
  import opened Nodes
  import opened Configs

  /** `object_extension()`. */
  const ObjectExtension := "obj"

  /** `/Dname` or `/Dname=value` for one macro. */
  function DefineFlag(d: Define): seq<string> {
    match d.1
    case None => ["/D" + d.0]
    case Some(v) => ["/D" + d.0 + "=" + v]
  }

  function SystemIncludeFlag(p: Path): seq<string> {
    ["/I" + Show(p)]
  }

  /** For one local include directory: under the source root, then as given. */
  function LocalIncludeFlags(srcRoot: Path): Path -> seq<string> {
    p => ["/I" + Show(Join(srcRoot, p)), "/I" + Show(p)]
  }

  /** `cppflags(cfg)`, with `drake.path_source()` given as `srcRoot`. */
  function CppFlagsOf(cfg: ConfigValue, srcRoot: Path): seq<string> {
    FlatMap(cfg.defines, DefineFlag)
      + FlatMap(cfg.systemIncludes, SystemIncludeFlag)
      + FlatMap(cfg.localIncludes, LocalIncludeFlags(srcRoot))
  }

  /**
   * The `/D` flags of the macros, then one `/I` flag per system
   * directory, then two per local directory, each block as its layout
   * lemma below describes.
   */
  lemma CppFlagsLayout(cfg: ConfigValue, srcRoot: Path)
    ensures var r := CppFlagsOf(cfg, srcRoot);
      var nd, ns, nl := |cfg.defines|, |cfg.systemIncludes|, |cfg.localIncludes|;
      && |r| == nd + ns + 2 * nl
      && r[..nd] == FlatMap(cfg.defines, DefineFlag)
      && r[nd..nd + ns] == FlatMap(cfg.systemIncludes, SystemIncludeFlag)
      && r[nd + ns..] == FlatMap(cfg.localIncludes, LocalIncludeFlags(srcRoot))
  {
    DefineFlagsLayout(cfg.defines);
    SystemFlagsLayout(cfg.systemIncludes);
    LocalFlagsLayout(cfg.localIncludes, srcRoot);
  }

  /** One `/I` flag per system directory, in order. */
  lemma SystemFlagsLayout(dirs: seq<Path>)
    ensures var f := FlatMap(dirs, SystemIncludeFlag);
      |f| == |dirs| && forall i :: 0 <= i < |dirs| ==> f[i] == "/I" + Show(dirs[i])
  {
    FlatMapSingletons(dirs, SystemIncludeFlag);
  }

  /** Two `/I` flags per local directory, the one under the source root first. */
  lemma LocalFlagsLayout(dirs: seq<Path>, srcRoot: Path)
    ensures var f := FlatMap(dirs, LocalIncludeFlags(srcRoot));
      && |f| == 2 * |dirs|
      && forall i :: 0 <= i < |dirs| ==>
           f[2 * i] == "/I" + Show(Join(srcRoot, dirs[i])) && f[2 * i + 1] == "/I" + Show(dirs[i])
  {
    FlatMapPairs(dirs, LocalIncludeFlags(srcRoot));
  }

  /** One `/D` flag per macro, in definition order: `/Dname` without a value, `/Dname=value` with one. */
  lemma DefineFlagsLayout(defines: seq<Define>)
    ensures var d := FlatMap(defines, DefineFlag);
      && |d| == |defines|
      && forall i :: 0 <= i < |defines| ==>
           d[i] == if defines[i].1.None? then "/D" + defines[i].0 else "/D" + defines[i].0 + "=" + defines[i].1.value
  {
    forall i | 0 <= i < |defines| ensures |DefineFlag(defines[i])| == 1 { }
    FlatMapSingletons(defines, DefineFlag);
  }

  /** `compile(cfg, src, obj, c, pic)`: `toolkitFlags` are the toolkit's own flags (`self.flags`). */
  function CompileOf(toolkitFlags: seq<string>, cfg: ConfigValue, srcRoot: Path, src: Path, obj: Path): seq<string> {
    ["cl.exe", "/MT", "/TP", "/nologo", "/DWIN32"] + toolkitFlags + cfg.flags + ["/EHsc"]
      + CppFlagsOf(cfg, srcRoot) + ["/Fo" + Show(obj), "/c", Show(src)]
  }

  /**
   * Every source is compiled as C++ (`/TP`) with the static runtime, the
   * toolkit's flags before the configuration's, and the object named
   * last but two; nothing depends on the C or position-independence
   * requests, which this toolkit ignores.
   */
  lemma CompileLayout(toolkitFlags: seq<string>, cfg: ConfigValue, srcRoot: Path, src: Path, obj: Path)
    ensures var r := CompileOf(toolkitFlags, cfg, srcRoot, src, obj);
      var n := 5 + |toolkitFlags| + |cfg.flags|;
      && r[..5] == ["cl.exe", "/MT", "/TP", "/nologo", "/DWIN32"]
      && r[5..n] == toolkitFlags + cfg.flags
      && r[n] == "/EHsc"
      && r[n + 1..|r| - 3] == CppFlagsOf(cfg, srcRoot)
      && r[|r| - 3..] == ["/Fo" + Show(obj), "/c", Show(src)]
  {
    var head := ["cl.exe", "/MT", "/TP", "/nologo", "/DWIN32"];
    var r := CompileOf(toolkitFlags, cfg, srcRoot, src, obj);
    var mid := toolkitFlags + cfg.flags;
    var tail := ["/Fo" + Show(obj), "/c", Show(src)];
    assert r == head + mid + ["/EHsc"] + CppFlagsOf(cfg, srcRoot) + tail;
  }

  function LibnameStatic(p: Path): Path {
    Join(Dirname(p), Parse(Basename(p) + ".lib"))
  }

  function LibnameDyn(p: Path): Path {
    Join(Dirname(p), Parse(Basename(p) + ".dll"))
  }

  function LibnameModule(p: Path): Path {
    Join(Dirname(p), Parse(Basename(p) + ".dll"))
  }

  /** `exename(cfg, path)`: the extension becomes `exe`. */
  function Exename(p: Path): Path {
    WithExtension(p, "exe")
  }

  /**
   * Libraries keep their directory and get the `lib` or `dll` extension;
   * a module and a dynamic library of the same name are the same file,
   * and executables get the `exe` extension. Neither library extension is
   * one the node classes are registered for.
   */
  lemma StaticLibName(p: Path)
    requires PlainName(Basename(p))
    ensures Dirname(LibnameStatic(p)) == Dirname(p) && Basename(LibnameStatic(p)) == Basename(p) + ".lib"
    ensures Extension(LibnameStatic(p)) == "lib" && KindOfExtension(Extension(LibnameStatic(p))) == None
  {
    SiblingName(p, Basename(p), "lib");
    assert Basename(p) + ".lib" == Basename(p) + "." + "lib";
  }

  lemma DynLibName(p: Path)
    requires PlainName(Basename(p))
    ensures Dirname(LibnameDyn(p)) == Dirname(p) && Basename(LibnameDyn(p)) == Basename(p) + ".dll"
    ensures Extension(LibnameDyn(p)) == "dll" && KindOfExtension(Extension(LibnameDyn(p))) == None
    ensures LibnameModule(p) == LibnameDyn(p)
  {
    SiblingName(p, Basename(p), "dll");
    assert Basename(p) + ".dll" == Basename(p) + "." + "dll";
  }

  lemma ExenameSpec(p: Path)
    requires |p.parts| > 0
    ensures Extension(Exename(p)) == "exe" && Dirname(Exename(p)) == Dirname(p)
  {
    WithExtensionSpec(p, "exe");
  }

  /**
   * `VisualToolkit`: its extra flags, to which `warning_disable` appends,
   * and the Visual Studio version it was made for.
   */
  class VisualToolkit {
    var flags: seq<string>
    const version: int

    constructor (version: int)
      ensures flags == [] && this.version == version
    {
      this.version := version;
      flags := [];
    }

    /** `warning_disable(n)`: `/wd<n>` joins the toolkit's flags. */
    method WarningDisable(n: nat)
      modifies this
      ensures flags == old(flags) + ["/wd" + NatToString(n)]
    {
      flags := flags + ["/wd" + NatToString(n)];
    }

    /** `cppflags(cfg)`. */
    method CppFlags(cfg: Config, srcRoot: Path) returns (res: seq<string>)
      ensures res == CppFlagsOf(cfg.Value(), srcRoot)
    {
      var defines := DefineFlags(cfg.defines);
      var system := SystemIncludeFlags(cfg.systemIncludes);
      var local := LocalIncludeFlagsOf(cfg.localIncludes, srcRoot);
      res := defines + system + local;
    }

    /** The first loop of `cppflags`: one `/D` flag per macro. */
    method DefineFlags(defines: seq<Define>) returns (res: seq<string>)
      ensures res == FlatMap(defines, DefineFlag)
    {
      res := [];
      var i := 0;
      while i < |defines|
        invariant 0 <= i <= |defines|
        invariant res == FlatMap(defines[..i], DefineFlag)
      {
        var (name, v) := defines[i];
        assert defines[..i + 1][..i] == defines[..i];
        if v.None? {
          res := res + ["/D" + name];
        } else {
          res := res + ["/D" + name + "=" + v.value];
        }
        i := i + 1;
      }
      assert defines[..i] == defines;
    }

    /** The second loop: one `/I` flag per system include directory. */
    method SystemIncludeFlags(system: seq<Path>) returns (res: seq<string>)
      ensures res == FlatMap(system, SystemIncludeFlag)
    {
      res := [];
      var i := 0;
      while i < |system|
        invariant 0 <= i <= |system|
        invariant res == FlatMap(system[..i], SystemIncludeFlag)
      {
        assert system[..i + 1][..i] == system[..i];
        res := res + ["/I" + Show(system[i])];
        i := i + 1;
      }
      assert system[..i] == system;
    }

    /** The third loop: two `/I` flags per local include directory. */
    method LocalIncludeFlagsOf(local: seq<Path>, srcRoot: Path) returns (res: seq<string>)
      ensures res == FlatMap(local, LocalIncludeFlags(srcRoot))
    {
      res := [];
      var i := 0;
      while i < |local|
        invariant 0 <= i <= |local|
        invariant res == FlatMap(local[..i], LocalIncludeFlags(srcRoot))
      {
        assert local[..i + 1][..i] == local[..i];
        res := res + ["/I" + Show(Join(srcRoot, local[i]))];
        res := res + ["/I" + Show(local[i])];
        i := i + 1;
      }
      assert local[..i] == local;
    }

    /** `compile(cfg, src, obj, c, pic)`. */
    method Compile(cfg: Config, srcRoot: Path, src: Path, obj: Path, useC: bool, pic: bool) returns (cmd: seq<string>)
      ensures cmd == CompileOf(flags, cfg.Value(), srcRoot, src, obj)
    {
      cmd := ["cl.exe", "/MT", "/TP", "/nologo", "/DWIN32"];
      cmd := cmd + flags;
      cmd := cmd + cfg.flags;
      cmd := cmd + ["/EHsc"];
      var cpp := CppFlags(cfg, srcRoot);
      cmd := cmd + cpp;
      cmd := cmd + ["/Fo" + Show(obj)];
      cmd := cmd + ["/c"];
      cmd := cmd + [Show(src)];
    }
  }
}
