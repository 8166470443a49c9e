# drake C/C++ toolchain, modelled in Dafny

This project models the C and C++ layer of the drake build system. That layer is
`src/drake/cxx/__init__.py` plus the Boost detection in `src/drake/cxx/boost.py`.
The model covers:

- The compiler configuration `Config`: its mutators, its library table, its warning table and its
  partial merge `a + b`.
- The GNU toolkit (`GccToolkit`): detecting the host and compiler kind, the `prefix`
  rule, and the command lines for preprocessing flags, compile flags, linker flags, compiling,
  archiving and linking. It also covers library and executable naming, run paths and reading
  the compiler's include path.
- The Visual toolkit's preprocessing flags, compile line and naming.
- The header dependency scan `mkdeps` as `Compiler.dependencies` runs it.
- The artifact rules: the object path of a source, `Binary.src_add`/`dependency_add`,
  `Compiler.pic` and `deps_merge`.
- Boost detection: the prefix search, the `BOOST_VERSION` decoding and the library probe.

Each file is one module:

| file | module | models |
|---|---|---|
| wrappers.dfy | Wrappers | `Option`, `Result`, `Outcome` |
| seqs.dfy | Seqs | `sched.OrderedSet` (`Add`, `Union`), `OrderedDict` as a list of pairs, `FlatMap`, `Filter` |
| strings.dfy | Strings | `split`, `strip`, `join`, `str(n)` |
| paths.dfy | Paths | `drake.Path` as (absolute?, components), `/`, `dirname`, `basename`, extensions, `canonize` |
| warnings.dfy | WarningNames, Warnings | `Config.Warnings`: the recognised identifiers, `__name`, the validated table |
| nodes.dfy | Nodes | node classes, `Node.extensions`, the object path rule, `chain`, `deps_merge` |
| configs.dfy | Configs | `Config`: a class with the mutators, and `ConfigValue` with the spec functions of `lib`, `__libs_filter` and `__add__` |
| gcc.dfy | GccToolkits | `GccToolkit`: spec functions plus a class whose loop methods are proved against them |
| visual.dfy | VisualToolkits | `VisualToolkit`: `warning_disable`, `cppflags`, `compile`, naming |
| mkdeps.dfy | Dependencies | `mkdeps` and `Compiler.dependencies` |
| binaries.dfy | Binaries | `Binary.src_add`, `dependency_add`, the library constructors' loop, `Compiler.pic` |
| boost.dfy | BoostDetection | `Boost.__init__` and `Boost.__find_lib` |

Stateful code becomes imperative Dafny:

- `Config`, `GccToolkit`, `VisualToolkit`, `Binary` and the `mkdeps` marks table are classes.
- Their methods keep the source's loops.
- Each method is proved equal to a specification function of the old state and the inputs.
- The properties are proved about those functions.

The outside world the code consults is passed in as parameters:

- process output: the preprocessor, `--version`, `ar xv` and `-v -E`;
- whether a file exists;
- the contents of the files scanned for inclusions;
- the node registry;
- `drake.path_source()` and the current build prefix.

## Model

| member | source | states |
|---|---|---|
| Nodes.ChainMember | src/drake/cxx/__init__.py:27-31 | an item is chained iff it belongs to one of the collections that are not `None` |
| Nodes.ChainLength | src/drake/cxx/__init__.py:27-31 | nothing is dropped: the chain's length is the sum of the present collections' lengths |
| Configs.EmptyWellFormed | src/drake/cxx/__init__.py:47-63 | the empty configuration satisfies the invariant every configuration keeps (no duplicates in the ordered sets, macro names, library names; valid warning table; include view = local + system) |
| Configs.Config.constructor | src/drake/cxx/__init__.py:47-63 | `Config()` holds the empty configuration and is valid |
| Configs.Config.Copy | src/drake/cxx/__init__.py:64-79 | `Config(model)` holds the same state as the model |
| Warnings.CanonicalName | src/drake/cxx/__init__.py:93-205 | `__name` succeeds iff the identifier is one of the listed ones, fails with `UnknownWarning(name)` otherwise, and its result has no `_` and the same length |
| Warnings.CanonicalNameInverse | src/drake/cxx/__init__.py:93-205 | turning the dashes of a canonical name back into underscores recovers the identifier |
| Warnings.CanonicalNameInjective | src/drake/cxx/__init__.py:93-205 | two different identifiers never give the same compiler flag name |
| Warnings.CanonicalIsCanonical | src/drake/cxx/__init__.py:93-205 | a canonical name is recognised as one |
| Warnings.AllIsNotCanonical | src/drake/cxx/__init__.py:93-205 | no identifier canonicalises to `all`, so no per-warning flag is `-Wall` |
| WarningNames.KnownHyphenFree | src/drake/cxx/__init__.py:93-205 | no recognised identifier contains a dash |
| Warnings.SetWarning | src/drake/cxx/__init__.py:207-211 | storing a state succeeds iff the identifier is recognised; it sets exactly the canonical key, keeps every other key and the default, and appends a new key at the end |
| Warnings.SetWarningValid | src/drake/cxx/__init__.py:207-211 | storing a state keeps the table valid (unique canonical keys) |
| Warnings.ValidTableHasNoAll | src/drake/cxx/__init__.py:207-211 | no key of a valid table is `all` |
| Warnings.AssignDefaultAsWrittenUnchanged | src/drake/cxx/__init__.py:207-211 | `default` is not a warning identifier, so assigning `warnings.default` through `__setattr__` leaves the table and its default unchanged |
| Configs.Config.SetWarningState | src/drake/cxx/__init__.py:207-211 | `warnings.<name> = state` updates the table for a recognised name, leaves the configuration alone otherwise, and reports which case applied |
| Configs.Config.EnableDebugSymbols | src/drake/cxx/__init__.py:229-230 | only the debug switch changes, to the given value |
| Configs.OptimizationLevel | src/drake/cxx/__init__.py:232-238 | `True` is level 1, `False` level 0, any other value is itself |
| Configs.Config.EnableOptimization | src/drake/cxx/__init__.py:232-238 | only the optimisation level changes, as above |
| Configs.Config.Define | src/drake/cxx/__init__.py:240-242 | the macro is bound to the value, a redefinition keeps its position, nothing else changes and the invariant is kept |
| Configs.Config.Flag | src/drake/cxx/__init__.py:247-249 | the flag is appended, duplicates kept |
| Configs.Config.FrameworkAdd | src/drake/cxx/__init__.py:251-253 | the framework is added to the ordered set of frameworks, once |
| Configs.Config.AddLocalIncludePath | src/drake/cxx/__init__.py:259-263 | the canonised path under the build prefix joins the local includes and the include view, once each |
| Configs.SystemIncludeEntry | src/drake/cxx/__init__.py:266-276 | `/include` and `/usr/include` are dropped; an absolute path is canonised, a relative one is rooted at the source tree and the prefix first |
| Configs.Config.AddSystemIncludePath | src/drake/cxx/__init__.py:266-276 | a default path changes nothing; otherwise the entry joins the system includes and the include view, once each |
| Configs.LibPathEntry | src/drake/cxx/__init__.py:301-310 | `/lib` and `/usr/lib` are dropped; a relative path goes under the build prefix |
| Configs.Config.LibPath | src/drake/cxx/__init__.py:301-310 | a default path changes nothing; otherwise the entry joins the library path, once |
| Configs.Config.LibPathRuntime | src/drake/cxx/__init__.py:313-315 | the run path is appended |
| Configs.AddLibConflict | src/drake/cxx/__init__.py:318-325 | `lib` fails iff the name is already there with the other linkage, and then with the linkage conflict error for that name |
| Configs.AddLibSuccess | src/drake/cxx/__init__.py:318-325 | on success the library is present once with the requested linkage, and every other library is unchanged |
| Configs.AddLibIdempotent | src/drake/cxx/__init__.py:318-325 | re-adding a library identically changes nothing |
| Configs.Config.Lib | src/drake/cxx/__init__.py:318-325 | on a conflict the configuration is left as it was and the error is returned; otherwise only the library table changes |
| Configs.Config.LibraryAdd | src/drake/cxx/__init__.py:328-331 | the node joins the ordered set of libraries, once |
| Configs.MergeBool | src/drake/cxx/__init__.py:363-375 | an unset side yields the other; two set sides must agree, else the incompatible-attribute error |
| Configs.MergeDefinesSuccess | src/drake/cxx/__init__.py:380-387 | the define loop succeeds iff every macro defined on both sides has the same value |
| Configs.MergeDefinesResult | src/drake/cxx/__init__.py:380-387 | a successful loop keeps the earlier definitions first, appends the new keys in order, and looks each key up where it was first defined |
| Configs.MergeDefinesExact | src/drake/cxx/__init__.py:380-387 | with distinct keys on the right, the loop raises for the first macro defined before with another value, naming both values, and otherwise appends exactly the macros not defined before, in order |
| Configs.MergeDefinesAssoc | src/drake/cxx/__init__.py:380-387 | the define loops of `(a + b) + c` and `a + (b + c)` give the same definitions or the same redefinition error |
| Configs.MergeDefinesError | src/drake/cxx/__init__.py:380-387 | a redefinition error names a macro of the right side defined differently on the left, with both values |
| Configs.DefinesUpdate | src/drake/cxx/__init__.py:380-387 | the in-place define loop computes the specified merge of the definitions, error included |
| Configs.MergeStandard | src/drake/cxx/__init__.py:397-404 | the standard of the sum is the set side's; two set standards must be equal |
| Configs.LibUnionNames | src/drake/cxx/__init__.py:394 | the library names of the union are the ordered-set union of both sides' names |
| Configs.LibUnionFacts | src/drake/cxx/__init__.py:394 | the left side's libraries stay first, and every library comes from one of the sides |
| Configs.LibUnionAssoc | src/drake/cxx/__init__.py:394 | the by-name library union is associative |
| Configs.MergeSuccess | src/drake/cxx/__init__.py:333-405 | `a + b` succeeds iff `export_dynamic`, the shared macros and the standard are compatible |
| Configs.MergeSuccessSymmetric | src/drake/cxx/__init__.py:333-405 | whether `a + b` succeeds does not depend on the order of the operands |
| Configs.MergeDoctest | src/drake/cxx/__init__.py:334-359 | the three cases of the docstring: disjoint macros merge, an equal redefinition is accepted, `B` from 0 to 1 is the redefinition error |
| Configs.MergeRightIdentity | src/drake/cxx/__init__.py:333-405 | adding the empty configuration changes nothing |
| Configs.MergeEmptyLeft | src/drake/cxx/__init__.py:333-405 | adding a configuration to the empty one yields it with debug, optimisation, run paths and warnings at their defaults, since those come from the left side only |
| Configs.MergeShape | src/drake/cxx/__init__.py:377-405 | every ordered-set field of the sum (local, system and all include paths, library paths, library nodes, frameworks, libraries by name) holds exactly the elements of both sides and starts with the left side in its order; flags are concatenated; macros are looked up on the left first; debug, optimisation, run paths and warnings are the left side's |
| Configs.MergeAssoc | src/drake/cxx/__init__.py:333-405 | when `a + b` and `b + c` succeed, `(a + b) + c` and `a + (b + c)` are the same configuration or fail with the same conflict |
| Configs.MergeWellFormed | src/drake/cxx/__init__.py:333-405 | the sum of two well-formed configurations is well formed |
| Configs.Config.Plus | src/drake/cxx/__init__.py:333-405 | `self + rhs` returns a fresh configuration holding the merge, or the merge's first conflict; neither operand changes |
| Configs.Config.SetStandard | src/drake/cxx/__init__.py:421-424 | only the standard changes |
| Configs.Config.EnableWarningsAsWritten | src/drake/cxx/__init__.py:430-431 | as written, `enable_warnings` leaves the configuration unchanged |
| Configs.Config.EnableWarnings | src/drake/cxx/__init__.py:430-431 | as intended, the table's default switch is set and nothing else changes |
| Configs.Config.SetExportDynamic | src/drake/cxx/__init__.py:437-439 | `export_dynamic` becomes the given boolean |
| Configs.LibsFilterAppend | src/drake/cxx/__init__.py:453-454 | filtering keeps insertion order: it distributes over concatenation |
| Configs.LibsFilterMember | src/drake/cxx/__init__.py:453-454 | a name is kept iff some library of that name has the requested linkage |
| Configs.LibsPartition | src/drake/cxx/__init__.py:445-454 | `libs_static` and `libs_dynamic` split the names between them: nothing lost, nothing doubled |
| GccToolkits.OrElse | src/drake/cxx/__init__.py:540 | Python's `x or y` on an optional string: the fallback is taken iff the value is unset or empty |
| GccToolkits.StripSplitLines | src/drake/cxx/__init__.py:562-565 | lines that are blank-free at their ends come back unchanged from `strip().split('\n')` |
| GccToolkits.ProbeOutputLines | src/drake/cxx/__init__.py:562-565 | the header lines and the reversed expansions are all blank-free at their ends |
| GccToolkits.PreprocessIsDefAnswers | src/drake/cxx/__init__.py:562-565 | when the preprocessor prints header lines, then each name's expansion, last name first, each name is reported defined iff its expansion differs from it |
| GccToolkits.PreprocessIsDefEcho | src/drake/cxx/__init__.py:562-565 | the names are sent one per line, last name first: a preprocessor that echoes them back unchanged makes every name undefined |
| GccToolkits.DetectFromAnswers | src/drake/cxx/__init__.py:534-560 | an explicit host wins, else macOS beats Windows beats Linux, else the host-not-found error; the kind is clang iff `__clang__` is defined; the drivers default to `g++` and to the prefix followed by `gcc` |
| GccToolkits.DetectedCDriver | src/drake/cxx/__init__.py:534-560 | a detected toolkit has non-empty C and C++ drivers |
| GccToolkits.GccToolkit.FromDetected | src/drake/cxx/__init__.py:534-560 | the toolkit holds the detected host, kind and drivers, without recursive linkage and with no include path read yet |
| GccToolkits.GccToolkit.EnableRecursiveLinkage | src/drake/cxx/__init__.py:583-584 | only the recursive-linkage switch changes |
| GccToolkits.DefineFlagsLayout | src/drake/cxx/__init__.py:592-596 | one `-D` flag per macro, in definition order: `-Dname` for a macro without a value, `-Dname=value` for one with a value |
| GccToolkits.SystemFlagsLayout | src/drake/cxx/__init__.py:597-599 | an `-isystem` pair per system directory, in order |
| GccToolkits.LocalFlagsLayout | src/drake/cxx/__init__.py:600-604 | two `-I` pairs per local directory, the one under the source root first |
| GccToolkits.CppFlagsLayout | src/drake/cxx/__init__.py:590-605 | the macro flags, then the system pairs, then the local pairs, each block as laid out above |
| GccToolkits.GccToolkit.CppFlags | src/drake/cxx/__init__.py:590-605 | the loops compute `cppflags` as specified |
| GccToolkits.WarningFlagsShape | src/drake/cxx/__init__.py:626-639 | every per-warning flag is `-W`, the state's prefix and the name of an entry of the table |
| GccToolkits.WarningFlagsPrefix | src/drake/cxx/__init__.py:626-639 | every per-warning flag starts with `-W` |
| GccToolkits.WarningFlagsClang | src/drake/cxx/__init__.py:626-639 | under clang each entry gives one flag, in table order: `-Werror=`, `-Wno-` or `-W` by its state |
| GccToolkits.WarningFlagsGcc | src/drake/cxx/__init__.py:627-630 | under gcc the flags are clang's for the table without `mismatched-tags` |
| GccToolkits.WarningFlagNotAll | src/drake/cxx/__init__.py:626-639 | no entry other than `all` produces `-Wall` |
| GccToolkits.GccToolkit.WarningFlags | src/drake/cxx/__init__.py:626-639 | the loop over the table computes the specified flags |
| GccToolkits.CFlagsOptimization | src/drake/cxx/__init__.py:609-610 | `-O2` is passed iff the optimisation level is not 0 |
| GccToolkits.CFlagsDebug | src/drake/cxx/__init__.py:611-612 | `-g` is passed iff debug symbols are on |
| GccToolkits.CFlagsStandard | src/drake/cxx/__init__.py:613-623 | the `-std=` flag of a standard is passed iff that standard is selected |
| GccToolkits.CFlagsWall | src/drake/cxx/__init__.py:624-625 | `-Wall` is passed iff the table's default switch is on |
| GccToolkits.EnableWarningsWall | src/drake/cxx/__init__.py:430-431 | as written, after `enable_warnings(value)` `cflags` has `-Wall` exactly when the table already had its default on, whatever `value`; as intended, exactly when `value` is true |
| GccToolkits.EnableWarningsFinding | src/drake/cxx/__init__.py:430-431 | on a fresh configuration, after `enable_warnings(False)` `cflags` still has `-Wall` as written, and has none as intended |
| GccToolkits.GccToolkit.CFlags | src/drake/cxx/__init__.py:607-640 | the method computes `cflags` as specified |
| GccToolkits.LdFlagsSpec | src/drake/cxx/__init__.py:642-654 | `-rdynamic` iff on Linux with export requested; the static runtime iff on Windows; nothing on macOS |
| GccToolkits.Driver | src/drake/cxx/__init__.py:660 | `c and self.c or self.cxx`: the C driver for C when it is non-empty, the C++ driver otherwise |
| GccToolkits.CompileLayout | src/drake/cxx/__init__.py:656-662 | the driver, the configuration's flags, `cppflags`, `cflags`, `-fPIC` iff asked for and not on Windows, then `-c src -o obj` |
| GccToolkits.DetectedDriver | src/drake/cxx/__init__.py:656-662 | a detected toolkit compiles C with its C driver and everything else with its C++ driver |
| GccToolkits.GccToolkit.Compile | src/drake/cxx/__init__.py:656-662 | the method builds the specified compile line |
| GccToolkits.ExtractListingMembers | src/drake/cxx/__init__.py:674-682 | reading back an `ar xv` listing gives its members, in order, under the temporary directory |
| GccToolkits.ExtractListingFailure | src/drake/cxx/__init__.py:674-682 | reading a listing fails iff some line is neither blank nor `x - ...`, and then on the first such line |
| GccToolkits.ArchiveWithoutStaticLibs | src/drake/cxx/__init__.py:664-689 | without static libraries nothing is extracted: `ar crs lib objs...` then `ranlib lib` |
| GccToolkits.GccToolkit.ReadListing | src/drake/cxx/__init__.py:674-682 | the loop reads one listing as specified |
| GccToolkits.GccToolkit.Archive | src/drake/cxx/__init__.py:664-689 | the method builds the specified archive commands, or the extraction error |
| GccToolkits.LinkPathsSpec | src/drake/cxx/__init__.py:692-696 | naming the libraries by path succeeds iff all are static or dynamic libraries; on failure the first other one is reported |
| GccToolkits.LinkFlags | src/drake/cxx/__init__.py:699-700 | `-l<name>` for each name, in order |
| GccToolkits.FirstExistingSpec | src/drake/cxx/__init__.py:712-719 | the first existing candidate of a directory, if any, and none iff no candidate exists |
| GccToolkits.StaticHitsSpec | src/drake/cxx/__init__.py:709-722 | off Linux, a static library contributes each directory's first existing candidate, and nothing iff no directory has one |
| GccToolkits.StaticSearchFailure | src/drake/cxx/__init__.py:709-722 | the search fails iff some static library has no file, and then names the first one |
| GccToolkits.LibrariesFlagsLinux | src/drake/cxx/__init__.py:691-724 | on Linux: library paths, then the `-l` flags of the dynamic names, then the static ones between `-Bstatic` and `-Bdynamic`, without looking for any file |
| GccToolkits.LibrariesFlagsUnlinkable | src/drake/cxx/__init__.py:691-696 | a library node that is neither static nor dynamic makes the link fail with `CannotLink`, and only then |
| GccToolkits.LibrariesFlagsMissingStatic | src/drake/cxx/__init__.py:709-722 | off Linux the flags fail iff some static library has no candidate file in any library directory |
| GccToolkits.LibrariesFlagsGroup | src/drake/cxx/__init__.py:697-724 | recursive linkage only brackets the `-l` flags and the static libraries between `-Wl,-(` and `-Wl,-)` |
| GccToolkits.LibrariesFlagsPaths | src/drake/cxx/__init__.py:692-696 | the libraries handed over come first, each by its path |
| GccToolkits.GccToolkit.LibrariesFlags | src/drake/cxx/__init__.py:691-724 | the method appends the specified flags, or fails as specified |
| GccToolkits.GccToolkit.StaticLibrariesFlags | src/drake/cxx/__init__.py:702-722 | the static half computes the specified flags or the missing-library error |
| GccToolkits.GccToolkit.FindStatic | src/drake/cxx/__init__.py:712-719 | the nested loop with the `found` flag collects the specified hits |
| GccToolkits.RpathSpec | src/drake/cxx/__init__.py:814-822 | an absolute run path is kept; a relative one goes under `@loader_path` on macOS and `$ORIGIN` elsewhere, and stays relative; `rpath` is idempotent iff the path is absolute |
| GccToolkits.RpathOriginText | src/drake/cxx/__init__.py:814-822 | a relative run path on Linux reads `$ORIGIN/` followed by the path |
| GccToolkits.RpathSetCommandSpec | src/drake/cxx/__init__.py:803-812 | `install_name_tool` iff on macOS, else `patchelf`, given the `rpath` form of the path and then the binary |
| GccToolkits.FrameworkFlagsLayout | src/drake/cxx/__init__.py:728-729 | `-framework` and the name for each framework, in order |
| GccToolkits.LibPathFlagsLayout | src/drake/cxx/__init__.py:730-731 | `-L` and the directory for each library directory, in order |
| GccToolkits.RpathFlagsLayout | src/drake/cxx/__init__.py:732-733 | one `-Wl,-rpath,` flag per run path, in its `rpath` form and in order |
| GccToolkits.GccToolkit.LinkStart | src/drake/cxx/__init__.py:727-733 | the common start of `link` and `dynlink` as specified |
| GccToolkits.DependencyDirs | src/drake/cxx/__init__.py:736-738 | a dynamic library contributes the directories of its own dynamic libraries, anything else nothing |
| GccToolkits.RpathLinkDirsSpec | src/drake/cxx/__init__.py:734-740 | the `-rpath-link` directories are unique, and are exactly the directories of the dynamic libraries' own dynamic libraries |
| GccToolkits.GccToolkit.RpathLinkSet | src/drake/cxx/__init__.py:735-738 | the ordered set is built as specified |
| GccToolkits.LinkPlatformFlagsSpec | src/drake/cxx/__init__.py:734-742 | one `-rpath-link` flag per directory on Linux, lazy binding on macOS, nothing on Windows |
| GccToolkits.GccToolkit.LinkPlatform | src/drake/cxx/__init__.py:734-742 | the platform part of `link` as specified |
| GccToolkits.GccToolkit.ObjectPaths | src/drake/cxx/__init__.py:743-744 | every object is passed by path, in order |
| GccToolkits.LinkModule | src/drake/cxx/__init__.py:726-748 | linking an executable fails with `CannotLink(Module)` iff a module is among the objects |
| GccToolkits.GccToolkit.Link | src/drake/cxx/__init__.py:726-748 | the method builds the specified link line or error |
| GccToolkits.DynLinkFailure | src/drake/cxx/__init__.py:750-772 | a shared library link only fails off Linux, on a missing static library |
| GccToolkits.DynLinkObjects | src/drake/cxx/__init__.py:766-772 | every object of a shared library appears on its command line |
| GccToolkits.DynLinkLinkedObject | src/drake/cxx/__init__.py:766-772 | a static or dynamic library among the objects is named by its path |
| GccToolkits.DynLinkPlainObject | src/drake/cxx/__init__.py:766-770 | any other object is passed by its path |
| GccToolkits.GccToolkit.SplitObjects | src/drake/cxx/__init__.py:766-770 | the loop keeps the linkable libraries apart, in order, and passes the rest by path |
| GccToolkits.GccToolkit.DynLink | src/drake/cxx/__init__.py:750-772 | the method builds the specified shared-library link line or error |
| GccToolkits.StaticLibName | src/drake/cxx/__init__.py:774-777 | `lib<name>.a` in the same directory, which reads back as a static library node |
| GccToolkits.DynLibName | src/drake/cxx/__init__.py:779-790 | the same directory, with the extension `so`, `dylib` or `dll` by host; only `dll` is not registered as a dynamic library |
| GccToolkits.ModuleName | src/drake/cxx/__init__.py:792-795 | `<name>.so` in the same directory |
| GccToolkits.ExenameSpec | src/drake/cxx/__init__.py:797-801 | the `exe` extension on Windows only, same directory |
| GccToolkits.PrefixSpec | src/drake/cxx/__init__.py:825-833 | `prefix` cuts the driver name at the leftmost match of the compiler name with an optional version, and keeps it whole when there is none |
| GccToolkits.VersionSuffixExamples | src/drake/cxx/__init__.py:832 | the version suffix holds one to three dotted numbers, or nothing |
| GccToolkits.PrefixBareDriver | src/drake/cxx/__init__.py:825-833 | `g++` and `g++-4.9` have an empty prefix |
| GccToolkits.PrefixCrossCompiler | src/drake/cxx/__init__.py:825-833 | `mingw32-g++` keeps `mingw32-` |
| GccToolkits.PrefixVersionedClang | src/drake/cxx/__init__.py:825-833 | `/bin/clang++-3.5` keeps `/bin/` |
| GccToolkits.PrefixInsideName | src/drake/cxx/__init__.py:832-833 | the match is not anchored at a word boundary: under kind gcc, `clang++` gives `clan` |
| GccToolkits.IncludeDirsRoundTrip | src/drake/cxx/__init__.py:848-858 | the directories listed between the start and end markers are read back exactly, whatever surrounds them |
| GccToolkits.IncludeListingStored | src/drake/cxx/__init__.py:850-855 | once the start marker is seen, each listed line up to the end marker gives its directory |
| GccToolkits.IncludeLine | src/drake/cxx/__init__.py:852-855 | a listed directory is not the end marker, and `line[1:]` reads back as it |
| GccToolkits.IncludeDirsNoMarker | src/drake/cxx/__init__.py:848-858 | output without the start marker lists no directory |
| GccToolkits.GccToolkit.IncludePath | src/drake/cxx/__init__.py:836-858 | the first call parses the probe and remembers the result when it succeeds; later calls return the remembered list; nothing else changes |
| VisualToolkits.VisualToolkit.constructor | src/drake/cxx/__init__.py:907 | a new toolkit has no flags of its own |
| VisualToolkits.VisualToolkit.WarningDisable | src/drake/cxx/__init__.py:930-931 | `/wd<n>` is appended to the toolkit's flags |
| VisualToolkits.DefineFlagsLayout | src/drake/cxx/__init__.py:938-942 | one `/D` flag per macro, in order: `/Dname` for a macro without a value, `/Dname=value` for one with a value |
| VisualToolkits.SystemFlagsLayout | src/drake/cxx/__init__.py:943-944 | one `/I` flag per system directory, in order |
| VisualToolkits.LocalFlagsLayout | src/drake/cxx/__init__.py:945-947 | two `/I` flags per local directory, the one under the source root first |
| VisualToolkits.CppFlagsLayout | src/drake/cxx/__init__.py:936-948 | the macro flags, then the system flags, then the local flags |
| VisualToolkits.VisualToolkit.CppFlags | src/drake/cxx/__init__.py:936-948 | the loops compute `cppflags` as specified |
| VisualToolkits.CompileLayout | src/drake/cxx/__init__.py:950-959 | `cl.exe /MT /TP /nologo /DWIN32`, the toolkit's flags, then the configuration's, `/EHsc`, `cppflags`, then `/Fo<obj> /c <src>`; C and PIC requests play no part |
| VisualToolkits.VisualToolkit.Compile | src/drake/cxx/__init__.py:950-959 | the method builds the specified compile line |
| VisualToolkits.StaticLibName | src/drake/cxx/__init__.py:982-984 | `<name>.lib` in the same directory |
| VisualToolkits.DynLibName | src/drake/cxx/__init__.py:986-992 | `<name>.dll` in the same directory, an extension no node class is registered for; a module is named like a dynamic library |
| VisualToolkits.ExenameSpec | src/drake/cxx/__init__.py:994-997 | the extension becomes `exe`, same directory |
| Dependencies.LastCloser | src/drake/cxx/__init__.py:1009 | the greedy `(.*)` stops at the last `>` or `"` of the line |
| Dependencies.ParseRender | src/drake/cxx/__init__.py:1009 | every rendered inclusion reads back as itself, even when its name holds closing delimiters |
| Dependencies.ParseDirectiveGreedy | src/drake/cxx/__init__.py:1009 | a quoted inclusion followed by any text ending in a quote (a comment `// "b"`, say) takes that text, with the closing quote before it, into the name |
| Dependencies.DependencyScan.constructor | src/drake/cxx/__init__.py:1101-1104 | a scan starts with no marks |
| Dependencies.DependencyScan.ReadDirectives | src/drake/cxx/__init__.py:1033-1042 | the inclusions of the file's lines, in order; none for a file that cannot be read |
| Dependencies.SearchListLayout | src/drake/cxx/__init__.py:1045-1052 | the search order: the including file's directory for a quoted inclusion, then per local directory the registry there and the source root, then the toolkit's directories |
| Dependencies.LocalCandidatesLayout | src/drake/cxx/__init__.py:1049-1051 | two entries per local directory: the directory with the registry consulted, then under the source root without |
| Dependencies.ToolkitCandidatesLayout | src/drake/cxx/__init__.py:1052 | one entry per toolkit directory, registry not consulted |
| Dependencies.FirstHitSpec | src/drake/cxx/__init__.py:1053-1074 | an inclusion resolves iff some entry finds it, and then to the candidate of the first entry that does |
| Dependencies.FirstHitInUniverse | src/drake/cxx/__init__.py:1053-1074 | every resolved path is registered or a file under the source root |
| Dependencies.DependencyScan.Resolve | src/drake/cxx/__init__.py:1053-1074 | every hit ends the search, so the ambiguity error of `unique` is never raised and the result is the first hit |
| Dependencies.Explore | src/drake/cxx/__init__.py:1007-1083 | a scan never removes a mark |
| Dependencies.ExploreAll | src/drake/cxx/__init__.py:1043-1083 | the loop over the inclusions never removes a mark |
| Dependencies.ExploreFresh | src/drake/cxx/__init__.py:1012-1018 | a scan from a marked node appends nothing; from an unmarked one it appends the node first; each node appended was unmarked, none twice, and they are exactly the marks added |
| Dependencies.ExploreAllFresh | src/drake/cxx/__init__.py:1075-1079 | the nodes found below each inclusion extend what was found before, with the same freshness |
| Dependencies.DependencyScan.MkDeps | src/drake/cxx/__init__.py:1007-1083 | the recursive method appends the nodes and leaves the marks the specification gives |
| Dependencies.ScanSpec | src/drake/cxx/__init__.py:1101-1106 | from no marks the source comes first, no node is listed twice, and every other node is registered or a file under the source root |
| Dependencies.DynamicSourcesSpec | src/drake/cxx/__init__.py:1101-1110 | the dynamic sources are the scanned nodes after the source, none of them the source, none twice |
| Dependencies.Dependencies | src/drake/cxx/__init__.py:1101-1110 | `Compiler.dependencies` adds the specified dynamic sources |
| Binaries.PicFromSpec | src/drake/cxx/__init__.py:1130-1139 | `pic_rec` answers yes iff not on Windows and some consumer from the given one on is a shared library link or a static library that feeds one |
| Binaries.PicSpec | src/drake/cxx/__init__.py:1129-1140 | position-independent code is asked for iff not on Windows and the object feeds a dynamic library, directly or through static libraries |
| Binaries.PicFinding | src/drake/cxx/__init__.py:1132 | on Cygwin an object linked into a shared library is position-independent as written, and not as meant |
| Nodes.ObjectPathReplacesLastExtension | src/drake/cxx/__init__.py:1325-1331 | the object sits next to the source, named after it with the last extension replaced by the toolkit's object extension |
| Nodes.ObjectPathTwoExtensions | src/drake/cxx/__init__.py:1324-1331 | `foo.impl.cpp` gives `foo.impl.o`: only the last extension is replaced |
| Nodes.ObjectPathOneExtension | src/drake/cxx/__init__.py:1324-1331 | `foo.cpp` gives `foo.<ext>` for whatever object extension the toolkit names |
| Nodes.UsesCExamples | src/drake/cxx/__init__.py:1324-1331 | the C compiler is used for `foo.c` but not for `foo.cpp` or `foo.impl.c`: the extension after the first dot must be exactly `c` |
| Binaries.SourceObjectReused | src/drake/cxx/__init__.py:1368-1375 | a source's object has the object path; a new one is built iff that path is not registered, and once registered it is reused |
| Binaries.SourceObjectMultiDotFinding | src/drake/cxx/__init__.py:1371 | as written a second binary from `foo.impl.cpp` builds `foo.impl.o` again; as meant it reuses it |
| Binaries.SourceObjectWrongReuseFinding | src/drake/cxx/__init__.py:1371 | as written, with only `foo.o` registered, `foo.impl.cpp` is given `foo.o` as its object; as meant its own `foo.impl.o` is built |
| Binaries.SourceObjectVisualFinding | src/drake/cxx/__init__.py:1371 | as written, with objects ending in `obj`, `foo.obj` is never reused; as meant it is |
| Binaries.SrcAddSpec | src/drake/cxx/__init__.py:1364-1395 | `src_add` succeeds iff the node is accepted, nothing is removed, at most one node is added, the dependencies stay, and the sources/dynamic libraries split stays valid |
| Binaries.TryConversionsSpec | src/drake/cxx/__init__.py:1380-1387 | the converter loop succeeds iff some later converter's target is accepted, with the same growth guarantees |
| Binaries.Binary.constructor | src/drake/cxx/__init__.py:1344-1350 | a binary starts with no sources, dynamic libraries or dependencies |
| Binaries.Binary.SrcAdd | src/drake/cxx/__init__.py:1364-1395 | on success the binary holds the specified new state; on failure the error and nothing changed |
| Binaries.PendingShrinks | src/drake/cxx/__init__.py:1397-1401 | adding a pending dynamic library as a dependency shrinks what is pending |
| Binaries.DependencyLoopAsWrittenDoubles | src/drake/cxx/__init__.py:1413-1414 | as written the constructors' loop lists each distinct dynamic library twice |
| Binaries.DependencyLoopFinding | src/drake/cxx/__init__.py:1397-1401 | one library: `[lib, lib]` as written, `[lib]` as meant |
| Binaries.DependencyLoopSpec | src/drake/cxx/__init__.py:1413-1414 | as meant, the dynamic libraries and sources are unchanged and every dynamic library becomes a dependency, once, after the earlier ones |
| Binaries.Binary.DependencyAdd | src/drake/cxx/__init__.py:1397-1401 | a new dependency is recorded, and a dynamic library is listed once |
| Binaries.Binary.AddDynamicDependencies | src/drake/cxx/__init__.py:1413-1414 | the loop of the DynLib, Module and Executable constructors makes every dynamic library a dependency |
| Nodes.Find | src/drake/cxx/__init__.py:1484 | the index of the first entry with the key, or none iff no entry has it |
| Nodes.MergeTreeChains | src/drake/cxx/__init__.py:1482-1487 | `merge(d, into)` loses and invents nothing: a key chain is in the result iff it is in either tree |
| Nodes.DepsMergeTreeChains | src/drake/cxx/__init__.py:1481-1491 | `deps_merge` keeps exactly the key chains of its inputs |
| Nodes.MergeTreeUnique | src/drake/cxx/__init__.py:1482-1487 | merging dictionaries yields a dictionary: keys stay unique at every level |
| Nodes.DepsMergeUnique | src/drake/cxx/__init__.py:1481-1491 | `deps_merge` of dictionaries is a dictionary at every level |
| BoostDetection.DecodeEncode | src/drake/cxx/boost.py:52 | decoding inverts `major*100000 + minor*100 + patch` when minor < 1000 and patch < 100 |
| BoostDetection.EncodeDecode | src/drake/cxx/boost.py:52 | every number decodes to fields in range and re-encodes to itself |
| BoostDetection.DigitsOfNat | src/drake/cxx/boost.py:51 | the decimal text of a number is digits that read back as it |
| BoostDetection.IntOfShow | src/drake/cxx/boost.py:51 | `int()` of a number's text gives the number, with or without a sign |
| BoostDetection.VersionNumberOfOutput | src/drake/cxx/boost.py:51 | output with a number on its next-to-last line gives that number |
| BoostDetection.VersionNumberOneLine | src/drake/cxx/boost.py:51 | output with no line break has no next-to-last line and is an error |
| BoostDetection.CandidatesSpec | src/drake/cxx/boost.py:32-38 | `/usr` then `/usr/local` by default; otherwise the single given prefix, rooted at the source tree when relative |
| BoostDetection.DefaultPrefixesParsed | src/drake/cxx/boost.py:33 | the default prefixes are the paths `/usr` and `/usr/local` |
| BoostDetection.SearchPrefixes | src/drake/cxx/boost.py:32-38 | the in-place rooting loop produces the specified candidates |
| BoostDetection.IncludeDirSpec | src/drake/cxx/boost.py:45 | `'%s/include' % path` denotes the path's `include` subdirectory |
| BoostDetection.ProbeConfigSpec | src/drake/cxx/boost.py:44-47 | the version-check configuration adds `include` and `lib` under the prefix, except for `/` and `/usr`, whose directories are defaults; everything else is empty |
| BoostDetection.ProbeConfiguration | src/drake/cxx/boost.py:44-47 | the `Config` calls build the specified configuration |
| BoostDetection.ProbeVersionError | src/drake/cxx/boost.py:49-52 | a prefix's version fails only when there is no next-to-last line or it is not a number |
| BoostDetection.FindLibSpec | src/drake/cxx/boost.py:86-92 | the probe succeeds iff one of the two files exists, prefers `-mt`, and otherwise fails naming the library and directory |
| BoostDetection.GccProbedFile | src/drake/cxx/boost.py:89 | under the GNU toolkit the file probed is `lib<name>.<so/dylib/dll>` in `lib_path` |
| BoostDetection.FindLib | src/drake/cxx/boost.py:86-92 | the loop over `-mt` and `` with its early return gives the specified probe |
| BoostDetection.FindAllFailure | src/drake/cxx/boost.py:60-74 | a library missing among the first ones is the failure of the whole lookup |
| BoostDetection.FindAllSpec | src/drake/cxx/boost.py:60-74 | the lookup succeeds iff every library is found, and lists the found names in order; a failure is a library-not-found error |
| BoostDetection.FindAllFirstMissing | src/drake/cxx/boost.py:60-74 | when library `k` is the first one missing, the lookup fails with the error naming library `k` and the library directory, as raised at boost.py:92 |
| BoostDetection.PythonLibSpec | src/drake/cxx/boost.py:77-80 | `boost_python-3.2` is used when found; the fallback `boost_python3` only when neither of its files exists |
| BoostDetection.SettleSpec | src/drake/cxx/boost.py:56-81 | an accepted prefix gives the prefix, its configuration, one single-library configuration per component and the python one, or a library-not-found error |
| BoostDetection.SettleFirstMissing | src/drake/cxx/boost.py:60-74 | when component `k` is the first one missing under `<prefix>/lib`, settling fails with the error naming component `k` |
| BoostDetection.SettlePythonMissing | src/drake/cxx/boost.py:75-80 | with every component found, settling fails only when both python libraries are missing, and the error names the fallback `boost_python3` |
| BoostDetection.Settle | src/drake/cxx/boost.py:56-81 | the loop over the components computes the specified outcome |
| BoostDetection.DetectExhausted | src/drake/cxx/boost.py:83-84 | when every prefix is rejected, the error lists every version found, in order |
| BoostDetection.DetectStops | src/drake/cxx/boost.py:42-55 | the first prefix that is not rejected decides the outcome; later prefixes play no part |
| BoostDetection.FirstNotRejected | src/drake/cxx/boost.py:42-55 | when some prefix is not rejected there is a first one |
| BoostDetection.DetectFound | src/drake/cxx/boost.py:42-81 | a successful detection comes from accepting some prefix, every earlier one having been rejected |
| BoostDetection.DetectNoMatch | src/drake/cxx/boost.py:42-84 | "no matching boost" is the outcome iff every prefix was rejected |
| BoostDetection.Boost | src/drake/cxx/boost.py:20-84 | the search loop with `miss`, `continue` and early `return` gives the specified detection |

## Left out

- `utils.shell_escape` is not part of this model. It is taken as the identity.
- Running processes is not modelled. The outputs become parameters:
  - `--version` and the preprocessor in `GccToolkit.__init__`;
  - `preprocess`;
  - `ar xv` in `archive`;
  - `-v -E` in `include_path`.
- Files are not read or tested. These facts become parameters:
  - whether a file exists;
  - the contents scanned by `mkdeps`;
  - which inclusion candidates are files under the source root.
- The node registry is a set of paths. `name_absolute()` is identified with the node's path.
- `drake.path_source()`, `srctree()` and `drake.Drake.current.prefix` are parameters.
- `Boost._search_all` is not part of this model. Its result is given as a function of the candidate prefixes.
- The `Version` containment test `version_eff not in version` is a given predicate.
- The Boost version probe uses the toolkit's `preprocess`. It is given as a function of the probe configuration.
- The environment set-up of the `VisualToolkit` constructor (everything before `self.flags = []`), `preprocess` and `version` are left out. They edit the environment, write a batch file and run it.
- `VisualToolkit.link`, `dynlink` and `archive` are left out. The first two look up a name-mangled attribute that does not exist. `archive` returns a string.
- `LibraryConfiguration`, `find_library`, `PkgConfig`, the toolkit hooks, `dot_merge` and `dot_spread` are left out. They search the file system through helpers that are not part of this model, or only print.
- `Compiler.mkdeps` and `Object.mkdeps` are left out. They call `mkdeps` with the wrong number of arguments. Builder scheduling, hashing and command execution are left out too.
- `Config.Warnings` is an explicit validated table plus a default switch. `__getattr__`/`__setattr__` interception is only modelled where it matters: the `default` assignment of `enable_warnings`.
- `cflags` is modelled for the states `Error`, on and off only. For an entry set to `None`, the source appends a flag with a stale or unbound prefix.
- GccToolkits.PrefixSpec: in Python `$` also matches just before a final newline of the driver name. The model matches only at the very end, since a driver name holds no newline.
- The "Unknown C++ standard" error of `cflags` is not modelled: `Standard` has exactly the three values the source defines, so the error cannot arise.
- `drake.Path` is not part of this model. The model has these rules:
  - A path is an absolute flag and components.
  - `p / q` with an absolute `q` is `q`.
  - The extension is the text after the first dot of the file name.
  - `canonize` removes `.` and resolves `..`.
- Paths placed in command lines are modelled by their string form. `drake.os` has three values.
- `Config.Library` is keyed by its name, as its `__hash__` at src/drake/cxx/__init__.py:41-42 suggests. `sched.OrderedSet` is not part of this model, so its equality is unknown here. `Library` defines `__hash__` but no `__eq__`, so if the set compares by `==`, the test `lib in self.__libs` at :320 likely never matches a `str` against `Library` objects. If so, the linkage-conflict error at :321-323 cannot be raised as written, and each `lib(name)` call adds another entry of that name. Configs.AddLibConflict, Configs.AddLibSuccess, Configs.AddLibIdempotent and Configs.LibUnionNames describe the name-keyed set the code evidently intends.
- The getters (`include_path`, `local_include_path`, `system_include_path`, `library_path`, `libs`, `libraries`, `frameworks`, `defines`) are covered by `Config.Value()`.
- BoostDetection.IntOfShow: Python `int()` also accepts surrounding blanks, `_` between digits and non-ASCII digits. The model accepts an optional sign and ASCII digits after `strip()`.
- Binaries.SrcAddOf / Binaries.Binary.SrcAdd: the `Source` branch uses the corrected object lookup of the finding about line 1371 (`SourceObject`), not the `with_extension('o')` key as written (`SourceObjectAsWritten`). As written, a source whose `.o` name is registered reuses that node even when it is another source's object, and a toolkit whose objects end in `obj` never reuses one.
- Macro values of `Config.define` are modelled by their text (`%s` of the value). Python compares the values themselves, so `define('A', 0)` against `define('A', '0')` conflicts there and not here, and `1` against `True` is accepted there although the two render differently.
- `Binary.src_add` on a hook or converter target that raises is modelled as a failure of that attempt. The exception types are not distinguished.
- `Boost.__init__` assigns fields and raises. It is modelled as a method returning the fields as a `Detection` record, or the error.
- The eight `__find_lib` calls of `Boost.__init__` are modelled as a loop over the component names, in the same order.
- `deps_merge` updates nested dictionaries in place. It is modelled on values: a merge of trees whose keys and nesting are those dictionaries.
- `mkdeps` is modelled as `Compiler.dependencies` instantiates it: shared marks, `res.append` and `res.extend`. The inclusion pattern is matched at the start of each stripped line, with its greedy `(.*)`.

## Findings

| source | as written | input that shows it | evidently intended | confidence | as-written member | corrected member |
|---|---|---|---|---|---|---|
| src/drake/cxx/__init__.py:430-431 | `enable_warnings` assigns `warnings.default`; `__setattr__` tries `default` as a warning identifier, fails, and stores an attribute `__bool__` never reads | `enable_warnings(False)` on a fresh `Config` (whose table is on by default): `cflags` still has `-Wall` | the default switch read by `__bool__` is set | not executed | Configs.Config.EnableWarningsAsWritten | Configs.Config.EnableWarnings |
| src/drake/cxx/__init__.py:1371 | `src_add` looks the object up under the source name with its whole extension replaced by `o` | a second binary from `foo.impl.cpp` (object `foo.impl.o`), or from `foo.cpp` under a toolkit whose objects end in `obj`, builds the object again; with `foo.o` (the object of `foo.cpp`) registered, `foo.impl.cpp` is given `foo.o` as its object | look up the path `Object.__init_object__` gives | not executed | Binaries.SourceObjectAsWritten | Binaries.SourceObject |
| src/drake/cxx/__init__.py:1132 | the platform test reads `sys.platform == 'gygwin'` | `sys.platform == 'cygwin'` and an object consumed by a `DynLibLinker` | `cygwin` excluded like `win32` | not executed | Binaries.PicAsWritten | Binaries.Pic |
| src/drake/cxx/__init__.py:1397-1401 | the constructors' `for lib in self.dynamic_libraries: self.dependency_add(lib)` appends each dynamic library again to the list it is iterating | a `DynLib`, `Module` or `Executable` built with one dynamic library `lib` lists `[lib, lib]` | every dynamic library becomes a dependency and is listed once | not executed | Binaries.DependencyLoopAsWritten | Binaries.DependencyLoop |
