/**
 * The build-graph artifacts of the C++ layer (src/drake/cxx/__init__.py):
 * the node kinds a binary can be made of, the object file derived from a
 * source file (`Object.__init_object__`), and the two small collection
 * helpers `chain` and `deps_merge`.
 */
module Nodes {
  import opened Wrappers
  import opened Seqs
  import opened Strings
  import opened Paths

  /** The exact class of a node (`source.__class__`). */
  datatype Kind = Source | Header | Object | StaticLib | DynLib | Module | Executable | Other

  /**
   * A node as far as the toolchain looks at it: its class, its path, the
   * paths of the dynamic libraries it links against (for a `DynLib`), the
   * targets of the converters that consume it, and the first non-`None`
   * answer of the toolkit's binary-source hooks for it.
   */
  datatype Node = Node(
    kind: Kind,
    path: Path,
    dynamicLibraries: seq<Path>,
    conversions: seq<Node>,
    hooked: Option<Node>)

  /** `isinstance(n, Library)`: `StaticLib`, `DynLib` and `Module` derive from `Library`. */
  predicate IsLibrary(k: Kind) {
    k == StaticLib || k == DynLib || k == Module
  }

  /**
   * `Node.extensions`: the node class registered for a file extension
   * (the text after the first dot of the file name).
   */
  function KindOfExtension(ext: string): Option<Kind> {
    if ext in ["c", "cc", "cpp", "S"] then Some(Source)
    else if ext in ["h", "hh", "hpp", "hxx"] then Some(Header)
    else if ext == "o" then Some(Object)
    else if ext in ["so", "dylib"] then Some(DynLib)
    else if ext == "a" then Some(StaticLib)
    else None
  }

  /** A plain node of the given kind at `p`. */
  function Leaf(k: Kind, p: Path): Node {
    Node(k, p, [], [], None)
  }

  /** `Object.__init_object__`: the source is compiled as C iff its extension is exactly `c`. */
  predicate UsesC(source: Path) {
    Extension(source) == "c"
  }

  /**
   * `Object.__init_object__`: drop the last extension, then append the
   * toolkit's object extension to whatever extension remains.
   */
  function ObjectPath(source: Path, objExt: string): Path {
    var p := WithoutLastExtension(source);
    if |Extension(p)| > 0 then WithExtension(p, Extension(p) + "." + objExt)
    else WithExtension(p, objExt)
  }

  /** A file name whose first dot, if any, is followed by a non-empty extension. */
  predicate NoEmptyExtension(name: string) {
    '.' in name ==> NameExtension(name) != ""
  }

  lemma {:induction false} StemExtension(name: string)
    requires '.' in name
    ensures name == Stem(name) + "." + NameExtension(name)
  {
    IndexOfFacts(name, '.');
    var i := IndexOf(name, '.').value;
    assert name == name[..i] + [name[i]] + name[i + 1..];
  }

  lemma {:induction false} NoDotStem(name: string)
    requires '.' !in name
    ensures Stem(name) == name && NameExtension(name) == ""
  {
    IndexOfFacts(name, '.');
  }

  /**
   * The object file sits next to the source and is named after the source
   * with its last extension replaced by the object extension.
   */
  lemma ObjectPathReplacesLastExtension(source: Path, objExt: string)
    requires |source.parts| > 0 && objExt != ""
    requires NoEmptyExtension(DropLastExtension(Basename(source)))
    ensures ObjectPath(source, objExt) == WithBasename(source, DropLastExtension(Basename(source)) + "." + objExt)
  {
    var b := DropLastExtension(Basename(source));
    var p := WithoutLastExtension(source);
    assert p == WithBasename(source, b);
    assert Basename(p) == b && Dirname(p) == Dirname(source);
    var o := ObjectPath(source, objExt);
    if '.' in b {
      StemExtension(b);
      var e := NameExtension(b) + "." + objExt;
      assert o == WithBasename(p, Stem(b) + ("." + e));
      assert Stem(b) + ("." + e) == (Stem(b) + "." + NameExtension(b)) + "." + objExt;
    } else {
      NoDotStem(b);
      assert o == WithBasename(p, Stem(b) + ("." + objExt));
      assert Stem(b) + ("." + objExt) == b + "." + objExt;
    }
    assert o == WithBasename(p, b + "." + objExt);
    assert Dirname(p) == Dirname(source) && p.absolute == source.absolute;
  }

  /** Only the last extension goes. */
  lemma ObjectPathTwoExtensions()
    ensures ObjectPath(Rel("foo.impl.cpp"), "o") == Rel("foo.impl.o")
  {
    LastIndexOfAt("foo.impl.cpp", '.', 8);
    assert DropLastExtension("foo.impl.cpp") == "foo.impl";
    IndexOfAt("foo.impl", '.', 3);
    assert NameExtension("foo.impl") == "impl";
    ObjectPathReplacesLastExtension(Rel("foo.impl.cpp"), "o");
    assert Basename(Rel("foo.impl.cpp")) == "foo.impl.cpp";
    assert "foo.impl" + "." + "o" == "foo.impl.o";
  }

  lemma ObjectPathOneExtension(objExt: string)
    requires objExt != ""
    ensures ObjectPath(Rel("foo.cpp"), objExt) == Rel("foo." + objExt)
  {
    LastIndexOfAt("foo.cpp", '.', 3);
    assert DropLastExtension("foo.cpp") == "foo";
    NoDotStem("foo");
    ObjectPathReplacesLastExtension(Rel("foo.cpp"), objExt);
    assert Basename(Rel("foo.cpp")) == "foo.cpp";
    assert "foo" + "." + objExt == "foo." + objExt;
  }

  lemma UsesCExamples()
    ensures UsesC(Rel("foo.c")) && !UsesC(Rel("foo.cpp")) && !UsesC(Rel("foo.impl.c"))
  {
    IndexOfAt("foo.c", '.', 3);
    IndexOfAt("foo.cpp", '.', 3);
    IndexOfAt("foo.impl.c", '.', 3);
  }

  /** `chain(*collections)`: the items of every collection that is not `None`, in order. */
  function Chain<T>(cs: seq<Option<seq<T>>>): (r: seq<T>)
    decreases |cs|
  {
    if |cs| == 0 then []
    else Chain(cs[..|cs| - 1]) + (match cs[|cs| - 1] case None => [] case Some(c) => c)
  }

  /** An item is chained iff it belongs to one of the present collections. */
  lemma {:induction false} ChainMember<T>(cs: seq<Option<seq<T>>>, x: T)
    ensures x in Chain(cs) <==> exists i :: 0 <= i < |cs| && cs[i].Some? && x in cs[i].value
  {
    if |cs| > 0 {
      var init := cs[..|cs| - 1];
      ChainMember(init, x);
      if x in Chain(cs) && x !in Chain(init) {
        assert cs[|cs| - 1].Some? && x in cs[|cs| - 1].value;
      }
      if exists i :: 0 <= i < |cs| && cs[i].Some? && x in cs[i].value {
        var i :| 0 <= i < |cs| && cs[i].Some? && x in cs[i].value;
        if i < |cs| - 1 {
          assert init[i] == cs[i];
        }
      }
    }
  }

  /** Nothing is dropped: the length is the sum of the present collections' lengths. */
  function PresentLength<T>(cs: seq<Option<seq<T>>>): nat
    decreases |cs|
  {
    if |cs| == 0 then 0
    else PresentLength(cs[..|cs| - 1]) + (match cs[|cs| - 1] case None => 0 case Some(c) => |c|)
  }

  lemma {:induction false} ChainLength<T>(cs: seq<Option<seq<T>>>)
    ensures |Chain(cs)| == PresentLength(cs)
  {
    if |cs| > 0 {
      ChainLength(cs[..|cs| - 1]);
    }
  }

  /**
   * The dependency dictionaries `deps_merge` folds together: an ordered
   * mapping from node paths to the dependencies found below them.
   */
  datatype DepTree = DepTree(entries: seq<(Path, DepTree)>)

  /** `p` is a chain of keys leading from the root of `t` to some entry. */
  predicate HasChain(t: DepTree, p: seq<Path>)
    decreases t
  {
    |p| > 0 &&
    exists i :: 0 <= i < |t.entries| && t.entries[i].0 == p[0] &&
      (|p| == 1 || HasChain(t.entries[i].1, p[1..]))
  }

  /** Keys occur once at every level. */
  predicate UniqueKeys(t: DepTree)
    decreases t
  {
    (forall i, j :: 0 <= i < j < |t.entries| ==> t.entries[i].0 != t.entries[j].0) &&
    forall i :: 0 <= i < |t.entries| ==> UniqueKeys(t.entries[i].1)
  }

  /** Index of key `k` in `es`, if present. */
  function Find(es: seq<(Path, DepTree)>, k: Path): (r: Option<nat>)
    ensures r.Some? ==> r.value < |es| && es[r.value].0 == k
    ensures r.None? ==> forall i :: 0 <= i < |es| ==> es[i].0 != k
    ensures r.Some? ==> forall i :: 0 <= i < r.value ==> es[i].0 != k
  {
    if |es| == 0 then None
    else if es[0].0 == k then Some(0)
    else match Find(es[1..], k)
      case None => None
      case Some(i) => Some(i + 1)
  }

  /**
   * `merge(d, into)` in `deps_merge`: keys of `d` missing from `into` are
   * added with their subtree, keys present in both are merged recursively.
   */
  function MergeTree(d: DepTree, into: DepTree): DepTree
    decreases d, 2
  {
    DepTree(MergeEntries(d, |d.entries|, into.entries))
  }

  /** The first `n` keys of `d` merged into `into`, in `d`'s order. */
  function MergeEntries(d: DepTree, n: nat, into: seq<(Path, DepTree)>): seq<(Path, DepTree)>
    requires n <= |d.entries|
    decreases d, 1, n
  {
    if n == 0 then into
    else
      var acc := MergeEntries(d, n - 1, into);
      var e := d.entries[n - 1];
      match Find(acc, e.0)
      case None => acc + [e]
      case Some(i) => acc[i := (e.0, MergeTree(e.1, acc[i].1))]
  }

  /** `deps_merge(nodes)`: every tree merged, in order, into an empty one. */
  function DepsMerge(ts: seq<DepTree>): DepTree
    decreases |ts|
  {
    if |ts| == 0 then DepTree([]) else MergeTree(ts[|ts| - 1], DepsMerge(ts[..|ts| - 1]))
  }

  /** A merge loses nothing and invents nothing: a key chain is in the result iff it is in either tree. */
  lemma {:induction false} MergeTreeChains(d: DepTree, into: DepTree, p: seq<Path>)
    ensures HasChain(MergeTree(d, into), p) <==> HasChain(d, p) || HasChain(into, p)
    decreases d, 2
  {
    MergeEntriesChains(d, |d.entries|, into.entries, p);
    assert d.entries[..|d.entries|] == d.entries;
  }

  /** `p` runs through the entry `e`. */
  predicate EntryChain(e: (Path, DepTree), p: seq<Path>) {
    |p| > 0 && e.0 == p[0] && (|p| == 1 || HasChain(e.1, p[1..]))
  }

  lemma {:induction false} AppendChain(es: seq<(Path, DepTree)>, e: (Path, DepTree), p: seq<Path>)
    ensures HasChain(DepTree(es + [e]), p) <==> HasChain(DepTree(es), p) || EntryChain(e, p)
  {
    var res := es + [e];
    if HasChain(DepTree(res), p) {
      var i :| 0 <= i < |res| && res[i].0 == p[0] && (|p| == 1 || HasChain(res[i].1, p[1..]));
      if i < |es| {
        assert es[i] == res[i];
      }
    }
    if HasChain(DepTree(es), p) {
      var i :| 0 <= i < |es| && es[i].0 == p[0] && (|p| == 1 || HasChain(es[i].1, p[1..]));
      assert res[i] == es[i];
    }
    if EntryChain(e, p) {
      assert res[|es|] == e;
    }
  }

  lemma {:induction false} ReplaceChain(es: seq<(Path, DepTree)>, i: nat, t: DepTree, sub: DepTree, p: seq<Path>)
    requires i < |es|
    requires |p| > 1 ==> (HasChain(t, p[1..]) <==> HasChain(es[i].1, p[1..]) || HasChain(sub, p[1..]))
    ensures HasChain(DepTree(es[i := (es[i].0, t)]), p) <==> HasChain(DepTree(es), p) || EntryChain((es[i].0, sub), p)
  {
    var res := es[i := (es[i].0, t)];
    if HasChain(DepTree(res), p) {
      var j :| 0 <= j < |res| && res[j].0 == p[0] && (|p| == 1 || HasChain(res[j].1, p[1..]));
      if j != i {
        assert es[j] == res[j];
      } else if |p| > 1 {
        assert HasChain(t, p[1..]);
      }
    }
    if HasChain(DepTree(es), p) {
      var j :| 0 <= j < |es| && es[j].0 == p[0] && (|p| == 1 || HasChain(es[j].1, p[1..]));
      if j != i {
        assert res[j] == es[j];
      } else {
        assert res[i].0 == p[0];
      }
    }
    if EntryChain((es[i].0, sub), p) {
      assert res[i].0 == p[0];
    }
  }

  lemma {:induction false} MergeEntriesChains(d: DepTree, n: nat, into: seq<(Path, DepTree)>, p: seq<Path>)
    requires n <= |d.entries|
    ensures HasChain(DepTree(MergeEntries(d, n, into)), p) <==>
      HasChain(DepTree(d.entries[..n]), p) || HasChain(DepTree(into), p)
    decreases d, 1, n
  {
    if n == 0 {
      assert d.entries[..0] == [];
    } else {
      var acc := MergeEntries(d, n - 1, into);
      var e := d.entries[n - 1];
      MergeEntriesChains(d, n - 1, into, p);
      assert d.entries[..n] == d.entries[..n - 1] + [e];
      AppendChain(d.entries[..n - 1], e, p);
      match Find(acc, e.0)
      case None =>
        AppendChain(acc, e, p);
      case Some(i) =>
        if |p| > 1 {
          MergeTreeChains(e.1, acc[i].1, p[1..]);
        }
        ReplaceChain(acc, i, MergeTree(e.1, acc[i].1), e.1, p);
    }
  }

  /** `deps_merge` keeps exactly the key chains of its inputs. */
  lemma {:induction false} DepsMergeTreeChains(ts: seq<DepTree>, p: seq<Path>)
    ensures HasChain(DepsMerge(ts), p) <==> exists i :: 0 <= i < |ts| && HasChain(ts[i], p)
  {
    if |ts| == 0 {
    } else {
      var init := ts[..|ts| - 1];
      DepsMergeTreeChains(init, p);
      MergeTreeChains(ts[|ts| - 1], DepsMerge(init), p);
      if exists i :: 0 <= i < |ts| && HasChain(ts[i], p) {
        var i :| 0 <= i < |ts| && HasChain(ts[i], p);
        if i < |ts| - 1 {
          assert init[i] == ts[i];
        }
      }
      if exists i :: 0 <= i < |init| && HasChain(init[i], p) {
        var i :| 0 <= i < |init| && HasChain(init[i], p);
        assert ts[i] == init[i];
      }
    }
  }

  /** A merge of dictionaries is a dictionary: keys stay unique at every level. */
  lemma {:induction false} MergeTreeUnique(d: DepTree, into: DepTree)
    requires UniqueKeys(d) && UniqueKeys(into)
    ensures UniqueKeys(MergeTree(d, into))
    decreases d, 2
  {
    MergeEntriesUnique(d, |d.entries|, into.entries);
  }

  lemma {:induction false} MergeEntriesUnique(d: DepTree, n: nat, into: seq<(Path, DepTree)>)
    requires n <= |d.entries| && UniqueKeys(d) && UniqueKeys(DepTree(into))
    ensures UniqueKeys(DepTree(MergeEntries(d, n, into)))
    decreases d, 1, n
  {
    if n > 0 {
      var acc := MergeEntries(d, n - 1, into);
      MergeEntriesUnique(d, n - 1, into);
      var e := d.entries[n - 1];
      match Find(acc, e.0)
      case None =>
        var r := acc + [e];
        forall i, j | 0 <= i < j < |r| ensures r[i].0 != r[j].0 {
          assert r[i] == acc[i];
          if j < |acc| {
            assert r[j] == acc[j];
          }
        }
        forall i | 0 <= i < |r| ensures UniqueKeys(r[i].1) {
          if i < |acc| {
            assert r[i] == acc[i];
          }
        }
      case Some(k) =>
        MergeTreeUnique(e.1, acc[k].1);
        var r := acc[k := (e.0, MergeTree(e.1, acc[k].1))];
        forall i, j | 0 <= i < j < |r| ensures r[i].0 != r[j].0 {
          assert r[i].0 == acc[i].0 && r[j].0 == acc[j].0;
        }
        forall i | 0 <= i < |r| ensures UniqueKeys(r[i].1) {
          if i != k {
            assert r[i] == acc[i];
          }
        }
    }
  }

  /** `deps_merge` of dictionaries is a dictionary. */
  lemma {:induction false} DepsMergeUnique(ts: seq<DepTree>)
    requires forall i :: 0 <= i < |ts| ==> UniqueKeys(ts[i])
    ensures UniqueKeys(DepsMerge(ts))
  {
    if |ts| > 0 {
      var init := ts[..|ts| - 1];
      assert forall i :: 0 <= i < |init| ==> init[i] == ts[i];
      DepsMergeUnique(init);
      MergeTreeUnique(ts[|ts| - 1], DepsMerge(init));
    }
  }
}
