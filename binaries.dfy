/**
 * Binaries and what they are made of (`Binary.src_add`,
 * `Binary.dependency_add` and the loop the `DynLib`, `Module` and
 * `Executable` constructors run over their dynamic libraries in
 * src/drake/cxx/__init__.py), and whether an object is compiled as
 * position-independent code (`Compiler.pic`). The global node registry
 * is the set of registered paths; the node machinery behind
 * `Node.dependency_add` appends to the node's dependency list.
 */
module Binaries {
  import opened Wrappers
  import opened Seqs
  import opened Strings
  import opened Paths
  import opened Nodes

  /**
   * What `src_add` and `dependency_add` change: the binary's sources, its
   * dynamic libraries and its dependencies, and the paths of the
   * registered nodes.
   */
  datatype BinaryState = BinaryState(
    sources: seq<Node>,
    dynamicLibraries: seq<Node>,
    dependencies: seq<Node>,
    registry: set<Path>)

  datatype BinaryError = InvalidSource(source: Node)

  /** Sources are objects and static libraries; dynamic libraries are `DynLib`s. */
  ghost predicate ValidBinary(st: BinaryState) {
    && (forall i :: 0 <= i < |st.sources| ==> st.sources[i].kind == Object || st.sources[i].kind == StaticLib)
    && (forall i :: 0 <= i < |st.dynamicLibraries| ==> st.dynamicLibraries[i].kind == DynLib)
  }

  // ---------------------------------------------------------------------
  // The object a source is compiled to.

  /**
   * The object a source file contributes, and whether a new `Object`
   * (with its compiler) is built for it: the registered object is reused
   * when its path, the one `Object.__init_object__` gives, is registered.
   */
  function SourceObject(registry: set<Path>, source: Path, objExt: string): (Node, bool) {
    var key := ObjectPath(source, objExt);
    (Leaf(Object, key), key !in registry)
  }

  /**
   * The same as `src_add` writes it: the registry is searched under the
   * source's name with its whole extension replaced by `o`, whatever the
   * toolkit's object extension and however many dots the name has.
   */
  function SourceObjectAsWritten(registry: set<Path>, source: Path, objExt: string): (Node, bool) {
    var key := WithExtension(source, "o");
    if key in registry then (Leaf(Object, key), false)
    else (Leaf(Object, ObjectPath(source, objExt)), true)
  }

  /** Once a source's object is registered, adding the source again reuses it. */
  lemma SourceObjectReused(registry: set<Path>, source: Path, objExt: string)
    ensures var (o, built) := SourceObject(registry, source, objExt);
      && o.kind == Object && o.path == ObjectPath(source, objExt)
      && (built <==> o.path !in registry)
      && SourceObject(registry + {o.path}, source, objExt) == (o, false)
  {
  }

  /**
   * As written, a second binary made from `foo.impl.cpp` builds a second
   * object for `foo.impl.o`, which is already registered; as meant, the
   * registered object is reused.
   */
  lemma SourceObjectMultiDotFinding()
    ensures SourceObjectAsWritten({Rel("foo.impl.o")}, Rel("foo.impl.cpp"), "o") == (Leaf(Object, Rel("foo.impl.o")), true)
    ensures SourceObject({Rel("foo.impl.o")}, Rel("foo.impl.cpp"), "o") == (Leaf(Object, Rel("foo.impl.o")), false)
  {
    ObjectPathTwoExtensions();
    IndexOfAt("foo.impl.cpp", '.', 3);
    RelWithExtension("foo.impl.cpp", "foo", "o");
    assert "foo.o" != "foo.impl.o";
  }

  /**
   * As written, when only `foo.o` (the object of `foo.cpp`) is registered,
   * `foo.impl.cpp` is given that node as its object; as meant, its own
   * `foo.impl.o` is built.
   */
  lemma SourceObjectWrongReuseFinding()
    ensures SourceObjectAsWritten({Rel("foo.o")}, Rel("foo.impl.cpp"), "o") == (Leaf(Object, Rel("foo.o")), false)
    ensures SourceObject({Rel("foo.o")}, Rel("foo.impl.cpp"), "o") == (Leaf(Object, Rel("foo.impl.o")), true)
  {
    ObjectPathTwoExtensions();
    IndexOfAt("foo.impl.cpp", '.', 3);
    RelWithExtension("foo.impl.cpp", "foo", "o");
    assert "foo" + ("." + "o") == "foo.o";
    assert Rel("foo.impl.o") !in {Rel("foo.o")};
  }

  /**
   * Under a toolkit whose objects end in `obj`, the search under `.o`
   * never finds the registered object, so a second binary made from
   * `foo.cpp` builds `foo.obj` again.
   */
  lemma SourceObjectVisualFinding()
    ensures SourceObjectAsWritten({Rel("foo.obj")}, Rel("foo.cpp"), "obj") == (Leaf(Object, Rel("foo.obj")), true)
    ensures SourceObject({Rel("foo.obj")}, Rel("foo.cpp"), "obj") == (Leaf(Object, Rel("foo.obj")), false)
  {
    ObjectPathOneExtension("obj");
    assert "foo." + "obj" == "foo.obj";
    IndexOfAt("foo.cpp", '.', 3);
    RelWithExtension("foo.cpp", "foo", "o");
    assert "foo.o" != "foo.obj";
  }

  lemma RelWithExtension(name: string, stem: string, e: string)
    requires |stem| < |name| && IndexOf(name, '.') == Some(|stem|) && name[..|stem|] == stem && e != ""
    ensures WithExtension(Rel(name), e) == Rel(stem + ("." + e))
  {
    assert Stem(name) == stem;
  }

  // ---------------------------------------------------------------------
  // `src_add`.

  /**
   * `src_add(source, tk, cfg)`: the new state, or the error raised for a
   * node the binary cannot use. A node of another class is replaced by
   * the first conversion target that can be added, then by the toolkit
   * hook's answer.
   */
  function SrcAddOf(st: BinaryState, n: Node, objExt: string): Result<BinaryState, BinaryError>
    decreases n, |n.conversions| + 1
  {
    match n.kind
    case Object => Success(st.(sources := st.sources + [n]))
    case StaticLib => Success(st.(sources := st.sources + [n]))
    case Source =>
      var (o, built) := SourceObject(st.registry, n.path, objExt);
      Success(st.(sources := st.sources + [o], registry := st.registry + {o.path}))
    case Header => Success(st)
    case DynLib => Success(st.(dynamicLibraries := st.dynamicLibraries + [n]))
    case _ =>
      match TryConversions(st, n, 0, objExt)
      case Some(r) => Success(r)
      case None =>
        match n.hooked
        case Some(h) => SrcAddOf(st, h, objExt)
        case None => Failure(InvalidSource(n))
  }

  /** The loop over the converters of `owner` from the `i`-th on; a target that fails is skipped. */
  function TryConversions(st: BinaryState, owner: Node, i: nat, objExt: string): Option<BinaryState>
    decreases owner, |owner.conversions| - i
  {
    if i >= |owner.conversions| then None
    else match SrcAddOf(st, owner.conversions[i], objExt)
      case Success(r) => Some(r)
      case Failure(_) => TryConversions(st, owner, i + 1, objExt)
  }

  /**
   * The nodes `src_add` accepts: the classes it handles directly, and any
   * node with a convertible target or a hook answer it accepts.
   */
  ghost predicate Addable(n: Node)
    decreases n
  {
    || n.kind in {Object, StaticLib, Source, Header, DynLib}
    || (exists i :: 0 <= i < |n.conversions| && Addable(n.conversions[i]))
    || (n.hooked.Some? && Addable(n.hooked.value))
  }

  /**
   * `src_add` succeeds exactly on the nodes it accepts, whatever the
   * binary already holds; it never removes anything, keeps the binary's
   * classification valid, adds at most one node, and leaves the
   * dependencies alone.
   */
  lemma {:induction false} SrcAddSpec(st: BinaryState, n: Node, objExt: string)
    ensures SrcAddOf(st, n, objExt).Success? <==> Addable(n)
    ensures SrcAddOf(st, n, objExt).Success? ==> Grows(st, SrcAddOf(st, n, objExt).value)
    ensures SrcAddOf(st, n, objExt).Success? && ValidBinary(st) ==> ValidBinary(SrcAddOf(st, n, objExt).value)
    decreases n, |n.conversions| + 1
  {
    match n.kind
    case Object =>
    case StaticLib =>
    case Source =>
    case Header =>
    case DynLib =>
    case _ =>
      TryConversionsSpec(st, n, 0, objExt);
      if n.hooked.Some? {
        SrcAddSpec(st, n.hooked.value, objExt);
      }
  }

  /** `after` extends `before` by at most one source or one dynamic library, with the same dependencies. */
  ghost predicate Grows(before: BinaryState, after: BinaryState) {
    && |before.sources| <= |after.sources| && after.sources[..|before.sources|] == before.sources
    && |before.dynamicLibraries| <= |after.dynamicLibraries|
    && after.dynamicLibraries[..|before.dynamicLibraries|] == before.dynamicLibraries
    && |after.sources| + |after.dynamicLibraries| <= |before.sources| + |before.dynamicLibraries| + 1
    && after.dependencies == before.dependencies
    && before.registry <= after.registry
  }

  lemma {:induction false} TryConversionsSpec(st: BinaryState, owner: Node, i: nat, objExt: string)
    ensures TryConversions(st, owner, i, objExt).Some? <==>
      exists k :: i <= k < |owner.conversions| && Addable(owner.conversions[k])
    ensures TryConversions(st, owner, i, objExt).Some? ==> Grows(st, TryConversions(st, owner, i, objExt).value)
    ensures TryConversions(st, owner, i, objExt).Some? && ValidBinary(st) ==>
      ValidBinary(TryConversions(st, owner, i, objExt).value)
    decreases owner, |owner.conversions| - i
  {
    if i < |owner.conversions| {
      SrcAddSpec(st, owner.conversions[i], objExt);
      TryConversionsSpec(st, owner, i + 1, objExt);
    }
  }

  // ---------------------------------------------------------------------
  // `dependency_add`, and the constructors' loop over the dynamic libraries.

  /** `dependency_add(d)` as written: a new `DynLib` dependency is also listed as a dynamic library. */
  function DependencyAddAsWritten(st: BinaryState, d: Node): BinaryState {
    if d in st.dependencies then st
    else st.(
      dynamicLibraries := if d.kind == DynLib then st.dynamicLibraries + [d] else st.dynamicLibraries,
      dependencies := st.dependencies + [d])
  }

  /** `dependency_add(d)` that lists a dynamic library once. */
  function DependencyAddOf(st: BinaryState, d: Node): BinaryState {
    if d in st.dependencies then st
    else st.(
      dynamicLibraries := if d.kind == DynLib && d !in st.dynamicLibraries then st.dynamicLibraries + [d] else st.dynamicLibraries,
      dependencies := st.dependencies + [d])
  }

  function ElementSet(s: seq<Node>): set<Node> {
    set x | x in s
  }

  /** The dynamic libraries that are not dependencies yet: a termination measure. */
  function Pending(st: BinaryState): nat {
    |ElementSet(st.dynamicLibraries) - ElementSet(st.dependencies)|
  }

  lemma PendingShrinks(st: BinaryState, d: Node)
    requires d in st.dynamicLibraries && d !in st.dependencies
    ensures Pending(DependencyAddAsWritten(st, d)) < Pending(st)
  {
    var after := DependencyAddAsWritten(st, d);
    assert ElementSet(after.dynamicLibraries) == ElementSet(st.dynamicLibraries);
    assert ElementSet(after.dependencies) == ElementSet(st.dependencies) + {d};
    var a := ElementSet(after.dynamicLibraries) - ElementSet(after.dependencies);
    var b := ElementSet(st.dynamicLibraries) - ElementSet(st.dependencies);
    assert b == a + {d} && d !in a;
  }

  /**
   * `for lib in self.dynamic_libraries: self.dependency_add(lib)` as
   * written, from the `i`-th library on: the loop also visits the
   * libraries it appends.
   */
  function DependencyLoopAsWritten(st: BinaryState, i: nat): BinaryState
    decreases Pending(st), |st.dynamicLibraries| - i
  {
    if i >= |st.dynamicLibraries| then st
    else
      var d := st.dynamicLibraries[i];
      if d in st.dependencies then DependencyLoopAsWritten(st, i + 1)
      else
        PendingShrinks(st, d);
        DependencyLoopAsWritten(DependencyAddAsWritten(st, d), i + 1)
  }

  /**
   * As written, a binary whose dynamic libraries are distinct and not yet
   * dependencies ends up listing each of them twice (and so links each
   * twice, since the linkers take the sources and then the dynamic
   * libraries).
   */
  lemma DependencyLoopAsWrittenDoubles(st: BinaryState)
    requires NoDup(st.dynamicLibraries)
    requires forall i :: 0 <= i < |st.dynamicLibraries| ==> st.dynamicLibraries[i].kind == DynLib
    requires forall i :: 0 <= i < |st.dynamicLibraries| ==> st.dynamicLibraries[i] !in st.dependencies
    ensures DependencyLoopAsWritten(st, 0).dynamicLibraries == st.dynamicLibraries + st.dynamicLibraries
  {
    assert st.dynamicLibraries[..0] == [] && st.dynamicLibraries + [] == st.dynamicLibraries;
    assert st.dependencies + [] == st.dependencies;
    DoublingSteps(st, st, 0);
  }

  lemma {:induction false} DoublingSteps(st0: BinaryState, st: BinaryState, i: nat)
    requires NoDup(st0.dynamicLibraries)
    requires forall k :: 0 <= k < |st0.dynamicLibraries| ==> st0.dynamicLibraries[k] !in st0.dependencies
    requires i <= |st0.dynamicLibraries|
    requires st.dynamicLibraries == st0.dynamicLibraries + st0.dynamicLibraries[..i]
    requires st.dependencies == st0.dependencies + st0.dynamicLibraries[..i]
    requires forall k :: 0 <= k < |st0.dynamicLibraries| ==> st0.dynamicLibraries[k].kind == DynLib
    ensures DependencyLoopAsWritten(st, i).dynamicLibraries == st0.dynamicLibraries + st0.dynamicLibraries
    decreases |st0.dynamicLibraries| - i
  {
    var dyn := st0.dynamicLibraries;
    if i < |dyn| {
      var d := dyn[i];
      assert st.dynamicLibraries[i] == d;
      assert d !in dyn[..i] by {
        forall k | 0 <= k < i ensures dyn[..i][k] != d {
          assert dyn[..i][k] == dyn[k];
        }
      }
      assert d !in st.dependencies;
      var next := DependencyAddAsWritten(st, d);
      assert next.dynamicLibraries == st.dynamicLibraries + [d];
      assert DependencyLoopAsWritten(st, i) == DependencyLoopAsWritten(next, i + 1);
      assert dyn[..i + 1] == dyn[..i] + [d];
      DoublingSteps(st0, next, i + 1);
    } else {
      assert dyn[..i] == dyn;
      forall k | 0 <= k < |dyn| ensures dyn[k] in st.dependencies {
        assert st.dependencies[|st0.dependencies| + k] == dyn[k];
      }
      DoublingRest(st0, st, i);
    }
  }

  /** Past the original libraries, every library visited is already a dependency. */
  lemma {:induction false} DoublingRest(st0: BinaryState, st: BinaryState, i: nat)
    requires |st0.dynamicLibraries| <= i
    requires st.dynamicLibraries == st0.dynamicLibraries + st0.dynamicLibraries
    requires forall k :: 0 <= k < |st0.dynamicLibraries| ==> st0.dynamicLibraries[k] in st.dependencies
    ensures DependencyLoopAsWritten(st, i).dynamicLibraries == st0.dynamicLibraries + st0.dynamicLibraries
    decreases |st.dynamicLibraries| - i
  {
    if i < |st.dynamicLibraries| {
      assert st.dynamicLibraries[i] == st0.dynamicLibraries[i - |st0.dynamicLibraries|];
      DoublingRest(st0, st, i + 1);
    }
  }

  /**
   * The loop with a `dependency_add` that lists a library once: the
   * dynamic libraries are unchanged and all of them become dependencies,
   * each once, after the earlier ones.
   */
  function DependencyLoop(st: BinaryState): BinaryState {
    st.(dependencies := Union(st.dependencies, st.dynamicLibraries))
  }

  lemma DependencyLoopSpec(st: BinaryState)
    requires NoDup(st.dependencies)
    ensures var r := DependencyLoop(st);
      && r.dynamicLibraries == st.dynamicLibraries && r.sources == st.sources
      && NoDup(r.dependencies)
      && (forall d :: d in r.dependencies <==> d in st.dependencies || d in st.dynamicLibraries)
      && |st.dependencies| <= |r.dependencies| && r.dependencies[..|st.dependencies|] == st.dependencies
  {
    UnionNoDup(st.dependencies, st.dynamicLibraries);
    UnionElements(st.dependencies, st.dynamicLibraries);
    UnionPrefix(st.dependencies, st.dynamicLibraries);
  }

  /** One library: listed once as intended, twice as written. */
  lemma DependencyLoopFinding(lib: Node)
    requires lib.kind == DynLib
    ensures DependencyLoopAsWritten(BinaryState([], [lib], [], {}), 0).dynamicLibraries == [lib, lib]
    ensures DependencyLoop(BinaryState([], [lib], [], {})).dynamicLibraries == [lib]
  {
    DependencyLoopAsWrittenDoubles(BinaryState([], [lib], [], {}));
  }

  // ---------------------------------------------------------------------
  // The binary as an object.

  /**
   * A `Binary`: the fields `src_add` and `dependency_add` update, the
   * registry of node paths they consult, and the toolkit's object
   * extension.
   */
  class Binary {
    var sources: seq<Node>
    var dynamicLibraries: seq<Node>
    var dependencies: seq<Node>
    var registry: set<Path>
    const objExt: string

    function State(): BinaryState
      reads this
    {
      BinaryState(sources, dynamicLibraries, dependencies, registry)
    }

    constructor (objExt: string, registry: set<Path>)
      ensures State() == BinaryState([], [], [], registry) && this.objExt == objExt
    {
      this.objExt := objExt;
      this.registry := registry;
      sources := [];
      dynamicLibraries := [];
      dependencies := [];
    }

    /** `src_add(source, tk, cfg)`: on failure nothing changes. */
    method SrcAdd(n: Node) returns (r: Outcome<BinaryError>)
      modifies this
      decreases n, |n.conversions| + 1
      ensures SrcAddOf(old(State()), n, objExt).Success? ==> r.Pass? && State() == SrcAddOf(old(State()), n, objExt).value
      ensures SrcAddOf(old(State()), n, objExt).Failure? ==>
        r == Fail(SrcAddOf(old(State()), n, objExt).error) && State() == old(State())
    {
      match n.kind {
        case Object =>
          sources := sources + [n];
          return Pass;
        case StaticLib =>
          sources := sources + [n];
          return Pass;
        case Source =>
          var (o, built) := SourceObject(registry, n.path, objExt);
          registry := registry + {o.path};
          sources := sources + [o];
          return Pass;
        case Header =>
          return Pass;
        case DynLib =>
          dynamicLibraries := dynamicLibraries + [n];
          return Pass;
        case _ =>
      }
      var i := 0;
      while i < |n.conversions|
        invariant 0 <= i <= |n.conversions|
        invariant State() == old(State())
        invariant TryConversions(State(), n, i, objExt) == TryConversions(State(), n, 0, objExt)
      {
        var res := SrcAdd(n.conversions[i]);
        if res.Pass? {
          return Pass;
        }
        i := i + 1;
      }
      if n.hooked.Some? {
        r := SrcAdd(n.hooked.value);
        return;
      }
      return Fail(InvalidSource(n));
    }

    /** `dependency_add(dependency)`, listing a dynamic library once. */
    method DependencyAdd(d: Node)
      modifies this
      ensures State() == DependencyAddOf(old(State()), d)
    {
      if d !in dependencies {
        if d.kind == DynLib && d !in dynamicLibraries {
          dynamicLibraries := dynamicLibraries + [d];
        }
        dependencies := dependencies + [d];
      }
    }

    /** The constructors' `for lib in self.dynamic_libraries: self.dependency_add(lib)`. */
    method AddDynamicDependencies()
      modifies this
      ensures State() == DependencyLoop(old(State()))
    {
      var i := 0;
      while i < |dynamicLibraries|
        invariant 0 <= i <= |dynamicLibraries|
        invariant dynamicLibraries == old(dynamicLibraries)
        invariant State() == old(State()).(dependencies := Union(old(dependencies), dynamicLibraries[..i]))
      {
        var lib := dynamicLibraries[i];
        DependencyAdd(lib);
        assert dynamicLibraries[..i + 1] == dynamicLibraries[..i] + [lib];
        UnionConcat(old(dependencies), dynamicLibraries[..i], [lib]);
        i := i + 1;
      }
      assert dynamicLibraries[..i] == dynamicLibraries;
    }
  }

  // ---------------------------------------------------------------------
  // `Compiler.pic`.

  /** A builder consuming a node, as far as `pic` looks at it. */
  datatype Consumer = DynLibLinker | StaticLibLinker(library: Target) | OtherBuilder

  /** A node and the builders consuming it. */
  datatype Target = Target(consumers: seq<Consumer>)

  /** The platforms the check means to exclude (`sys.platform`). */
  predicate WindowsPlatform(platform: string) {
    platform == "win32" || platform == "cygwin"
  }

  /** The platforms the check excludes as written: `gygwin` is no value `sys.platform` takes. */
  predicate WindowsPlatformAsWritten(platform: string) {
    platform == "win32" || platform == "gygwin"
  }

  /** `pic_rec(node)` from the `i`-th consumer on, with the platform test's answer given. */
  function PicFrom(windows: bool, t: Target, i: nat): bool
    decreases t, |t.consumers| - i
  {
    if i >= |t.consumers| then false
    else if windows then false
    else match t.consumers[i]
      case DynLibLinker => true
      case StaticLibLinker(lib) => PicFrom(windows, lib, 0) || PicFrom(windows, t, i + 1)
      case OtherBuilder => PicFrom(windows, t, i + 1)
  }

  /** `Compiler.pic` with the platform test it means. */
  function Pic(platform: string, obj: Target): bool {
    PicFrom(WindowsPlatform(platform), obj, 0)
  }

  /** `Compiler.pic` as written. */
  function PicAsWritten(platform: string, obj: Target): bool {
    PicFrom(WindowsPlatformAsWritten(platform), obj, 0)
  }

  /** The object ends up in a dynamic library, directly or through static libraries. */
  ghost predicate FeedsDynLib(t: Target)
    decreases t
  {
    exists i :: 0 <= i < |t.consumers| && Feeds(t.consumers[i])
  }

  ghost predicate Feeds(c: Consumer)
    decreases c
  {
    c.DynLibLinker? || (c.StaticLibLinker? && FeedsDynLib(c.library))
  }

  /** Position-independent code is asked for exactly off Windows and when the object feeds a dynamic library. */
  lemma PicSpec(platform: string, obj: Target)
    ensures Pic(platform, obj) <==> !WindowsPlatform(platform) && FeedsDynLib(obj)
  {
    PicFromSpec(WindowsPlatform(platform), obj, 0);
  }

  lemma {:induction false} PicFromSpec(windows: bool, t: Target, i: nat)
    ensures PicFrom(windows, t, i) <==> !windows && exists k :: i <= k < |t.consumers| && Feeds(t.consumers[k])
    decreases t, |t.consumers| - i
  {
    if i < |t.consumers| && !windows {
      PicFromSpec(windows, t, i + 1);
      match t.consumers[i]
      case DynLibLinker =>
      case StaticLibLinker(lib) =>
        PicFromSpec(windows, lib, 0);
      case OtherBuilder =>
    }
  }

  /** On Cygwin an object linked into a dynamic library is compiled position-independent as written, and not as meant. */
  lemma PicFinding()
    ensures PicAsWritten("cygwin", Target([DynLibLinker]))
    ensures !Pic("cygwin", Target([DynLibLinker]))
  {
  }
}
