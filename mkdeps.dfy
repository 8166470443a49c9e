/**
 * The header-dependency scan of src/drake/cxx/__init__.py (`mkdeps`)
 * as `Compiler.dependencies` runs it: one `marks` table shared by the
 * whole traversal, each explored node appended once, and the nodes found
 * below an inclusion spliced in after it. The file system, the node
 * registry and the configuration are inputs: the text of each file that
 * can be opened, the set of registered paths, the set of include names
 * that exist as files under the source root, and the two include paths.
 */
module Dependencies {
  import opened Wrappers
  import opened Seqs
  import opened Strings
  import opened Paths

  // ---------------------------------------------------------------------
  // Recognising inclusions: the pattern `\s*#\s*include\s*(<|")(.*)(>|")`
  // matched at the start of each stripped line.

  /** One inclusion: whether it opened with a double quote, and the text between the delimiters. */
  datatype Include = Include(quoted: bool, name: string)

  predicate IsCloser(c: char) {
    c == '>' || c == '"'
  }

  /** Where the greedy `(.*)` stops: the last closing delimiter. */
  function LastCloser(s: string): (r: Option<nat>)
    ensures r.Some? ==> r.value < |s| && IsCloser(s[r.value])
    ensures r.Some? ==> forall k :: r.value < k < |s| ==> !IsCloser(s[k])
    ensures r.None? ==> forall k :: 0 <= k < |s| ==> !IsCloser(s[k])
    decreases |s|
  {
    if |s| == 0 then None
    else if IsCloser(s[|s| - 1]) then Some(|s| - 1)
    else LastCloser(s[..|s| - 1])
  }

  const Keyword := "include"

  /** The inclusion a line holds, if the pattern matches it. */
  function ParseDirective(line: string): Option<Include> {
    ParseHash(Strip(line))
  }

  /** `#\s*` and the rest. */
  function ParseHash(s: string): Option<Include> {
    if |s| == 0 || s[0] != '#' then None else ParseKeyword(StripLeft(s[1..]))
  }

  /** `include\s*` and the rest. */
  function ParseKeyword(t: string): Option<Include> {
    if !StartsWith(t, Keyword) then None else ParseDelimited(StripLeft(t[|Keyword|..]))
  }

  /** `(<|")(.*)(>|")`: an opening delimiter, then everything up to the last closing one. */
  function ParseDelimited(u: string): Option<Include> {
    if |u| == 0 || !(u[0] == '<' || u[0] == '"') then None
    else match LastCloser(u[1..])
      case None => None
      case Some(j) => Some(Include(u[0] == '"', u[1..][..j]))
  }

  function DirectiveOf(line: string): seq<Include> {
    match ParseDirective(line)
    case None => []
    case Some(inc) => [inc]
  }

  function Opener(quoted: bool): char {
    if quoted then '"' else '<'
  }

  function Closer(quoted: bool): char {
    if quoted then '"' else '>'
  }

  /** The usual spelling of an inclusion: `#include "name"` or `#include <name>`. */
  function Render(inc: Include): string {
    "#" + (Keyword + (" " + ([Opener(inc.quoted)] + (inc.name + [Closer(inc.quoted)]))))
  }

  /**
   * An opening delimiter, any name and a closer read back as that name:
   * the greedy repetition stops at the last closer, which is the final one.
   */
  lemma DelimitedName(o: char, name: string, c: char)
    requires o == '<' || o == '"'
    requires IsCloser(c)
    ensures ParseDelimited([o] + (name + [c])) == Some(Include(o == '"', name))
  {
    var rest := name + [c];
    var u := [o] + rest;
    assert u[1..] == rest;
    assert rest[..|name|] == name;
  }

  /** One blank after the keyword is skipped. */
  lemma KeywordBlank(u: string)
    requires |u| > 0 && !IsSpace(u[0])
    ensures ParseKeyword(Keyword + (" " + u)) == ParseDelimited(u)
  {
    var v := " " + u;
    var t := Keyword + v;
    assert t[..|Keyword|] == Keyword;
    assert t[|Keyword|..] == v;
    assert v[1..] == u;
    assert StripLeft(v) == StripLeft(u);
    assert StripLeft(u) == u;
  }

  /** A hash directly followed by the keyword. */
  lemma HashKeyword(t: string)
    requires |t| > 0 && !IsSpace(t[0])
    ensures ParseHash("#" + t) == ParseKeyword(t)
  {
    var s := "#" + t;
    assert s[1..] == t;
    assert StripLeft(t) == t;
  }

  /**
   * A rendered inclusion reads back as itself, whatever its name holds:
   * a name with closing delimiters in it is still taken whole.
   */
  lemma ParseRender(inc: Include)
    ensures ParseDirective(Render(inc)) == Some(inc)
  {
    var o := Opener(inc.quoted);
    var c := Closer(inc.quoted);
    var u := [o] + (inc.name + [c]);
    DelimitedName(o, inc.name, c);
    KeywordBlank(u);
    var t := Keyword + (" " + u);
    HashKeyword(t);
    var line := "#" + t;
    assert |line| > 0 && line[0] == '#' && line[|line| - 1] == c;
    StripUnblanked(line);
  }

  /** A quoted rendering is a fixed head, the name, and a quote. */
  lemma RenderQuoted(name: string)
    ensures Render(Include(true, name)) == ("#" + (Keyword + " \"")) + (name + "\"")
  {
    var head := "#" + (Keyword + " \"");
    assert |Render(Include(true, name))| == |head + (name + "\"")|;
  }

  /**
   * The repetition is greedy: a quoted inclusion followed by text that
   * ends in a quote, such as a comment `// "b"`, takes that text into
   * the name.
   */
  lemma ParseDirectiveGreedy(name: string, trailer: string)
    ensures ParseDirective(Render(Include(true, name)) + (trailer + "\""))
      == Some(Include(true, name + ("\"" + trailer)))
  {
    var head := "#" + (Keyword + " \"");
    var whole := name + ("\"" + trailer);
    RenderQuoted(name);
    RenderQuoted(whole);
    assert (name + "\"") + (trailer + "\"") == whole + "\"";
    calc {
      Render(Include(true, name)) + (trailer + "\"");
      (head + (name + "\"")) + (trailer + "\"");
      head + ((name + "\"") + (trailer + "\""));
      head + (whole + "\"");
      Render(Include(true, whole));
    }
    ParseRender(Include(true, whole));
  }

  /**
   * The scan's inputs: the text of each file that opens (any other path
   * reads as no inclusions), the registered node paths, the include names
   * that exist as files under the source root, the source root, the
   * configuration's local include path and the toolkit's include path.
   */
  datatype Env = Env(
    files: map<Path, string>,
    registry: set<Path>,
    present: set<Path>,
    srcRoot: Path,
    localIncludes: seq<Path>,
    toolkitIncludes: seq<Path>)

  /** The inclusions of the file at `p`, in file order. */
  function FileDirectives(e: Env, p: Path): seq<Include> {
    if p in e.files then FlatMap(Split(e.files[p], '\n'), DirectiveOf) else []
  }

  // ---------------------------------------------------------------------
  // Resolving one inclusion.

  /** For one local include directory: registered nodes there, then files under the source root. */
  function LocalCandidates(srcRoot: Path): Path -> seq<(Path, bool)> {
    d => [(d, true), (Join(srcRoot, d), false)]
  }

  function ToolkitCandidate(d: Path): seq<(Path, bool)> {
    [(d, false)]
  }

  /**
   * The directories searched, in order, each with whether a registered
   * node there counts: the including file's directory (quoted inclusions
   * only), two entries per local include directory, then the toolkit's
   * include path.
   */
  function SearchList(e: Env, current: Path, inc: Include): seq<(Path, bool)> {
    (if inc.quoted then [(Dirname(current), true)] else [])
      + FlatMap(e.localIncludes, LocalCandidates(e.srcRoot))
      + FlatMap(e.toolkitIncludes, ToolkitCandidate)
  }

  /** `include_path / include`. */
  function Candidate(dir: Path, inc: Include): Path {
    Join(dir, Parse(inc.name))
  }

  /** A search entry finds the inclusion: registered (where that counts), or a file under the source root. */
  predicate Hit(e: Env, entry: (Path, bool), inc: Include) {
    var name := Candidate(entry.0, inc);
    (entry.1 && name in e.registry) || name in e.present
  }

  function FirstHit(e: Env, search: seq<(Path, bool)>, inc: Include): Option<Path>
    decreases |search|
  {
    if |search| == 0 then None
    else if Hit(e, search[0], inc) then Some(Candidate(search[0].0, inc))
    else FirstHit(e, search[1..], inc)
  }

  /** The node an inclusion of the file at `current` resolves to, if any. */
  function ResolveOf(e: Env, current: Path, inc: Include): Option<Path> {
    FirstHit(e, SearchList(e, current, inc), inc)
  }

  /**
   * An inclusion resolves exactly when some search entry finds it, and
   * then to the candidate of the first entry that does.
   */
  lemma {:induction false} FirstHitSpec(e: Env, search: seq<(Path, bool)>, inc: Include)
    ensures FirstHit(e, search, inc).Some? <==> exists k :: 0 <= k < |search| && Hit(e, search[k], inc)
    ensures FirstHit(e, search, inc).Some? ==>
      exists k :: 0 <= k < |search| && Hit(e, search[k], inc)
        && (forall j :: 0 <= j < k ==> !Hit(e, search[j], inc))
        && FirstHit(e, search, inc).value == Candidate(search[k].0, inc)
    decreases |search|
  {
    if |search| > 0 {
      FirstHitSpec(e, search[1..], inc);
      if !Hit(e, search[0], inc) {
        if FirstHit(e, search, inc).Some? {
          var k :| 0 <= k < |search[1..]| && Hit(e, search[1..][k], inc)
            && (forall j :: 0 <= j < k ==> !Hit(e, search[1..][j], inc))
            && FirstHit(e, search[1..], inc).value == Candidate(search[1..][k].0, inc);
          assert forall j :: 0 <= j < k + 1 ==> !Hit(e, search[j], inc) by {
            forall j | 0 <= j < k + 1 ensures !Hit(e, search[j], inc) {
              if j > 0 {
                assert search[j] == search[1..][j - 1];
              }
            }
          }
          assert search[k + 1] == search[1..][k];
        } else {
          forall k | 0 <= k < |search| ensures !Hit(e, search[k], inc) {
            if k > 0 {
              assert search[k] == search[1..][k - 1];
            }
          }
        }
      }
    }
  }

  /** Every path an inclusion resolves to is registered or is a file under the source root. */
  function Universe(e: Env): set<Path> {
    e.registry + e.present
  }

  lemma {:induction false} FirstHitInUniverse(e: Env, search: seq<(Path, bool)>, inc: Include)
    ensures FirstHit(e, search, inc).Some? ==> FirstHit(e, search, inc).value in Universe(e)
    decreases |search|
  {
    if |search| > 0 && !Hit(e, search[0], inc) {
      FirstHitInUniverse(e, search[1..], inc);
    }
  }

  /**
   * The search order: the including file's directory for a quoted
   * inclusion, then per local include directory the directory itself
   * (registered nodes count) and the same directory under the source root
   * (files only), then the toolkit's directories (files only).
   */
  lemma SearchListLayout(e: Env, current: Path, inc: Include)
    ensures var s := SearchList(e, current, inc);
      var q := if inc.quoted then 1 else 0;
      var nl := |e.localIncludes|;
      && |s| == q + 2 * nl + |e.toolkitIncludes|
      && (inc.quoted ==> s[0] == (Dirname(current), true))
      && s[q..q + 2 * nl] == FlatMap(e.localIncludes, LocalCandidates(e.srcRoot))
      && s[q + 2 * nl..] == FlatMap(e.toolkitIncludes, ToolkitCandidate)
  {
    LocalCandidatesLayout(e.localIncludes, e.srcRoot);
    ToolkitCandidatesLayout(e.toolkitIncludes);
  }

  lemma LocalCandidatesLayout(dirs: seq<Path>, srcRoot: Path)
    ensures var f := FlatMap(dirs, LocalCandidates(srcRoot));
      && |f| == 2 * |dirs|
      && forall i :: 0 <= i < |dirs| ==> f[2 * i] == (dirs[i], true) && f[2 * i + 1] == (Join(srcRoot, dirs[i]), false)
  {
    FlatMapPairs(dirs, LocalCandidates(srcRoot));
  }

  lemma ToolkitCandidatesLayout(dirs: seq<Path>)
    ensures var f := FlatMap(dirs, ToolkitCandidate);
      |f| == |dirs| && forall i :: 0 <= i < |dirs| ==> f[i] == (dirs[i], false)
  {
    FlatMapSingletons(dirs, ToolkitCandidate);
  }

  // ---------------------------------------------------------------------
  // The traversal, with the marks shared across the whole scan.

  /** The printed forms of the paths an inclusion can resolve to: the keys `marks` can gain below the root. */
  function Shown(e: Env): set<string> {
    set p | p in Universe(e) :: Show(p)
  }

  /** What is left to explore from `p`: a termination measure. */
  function Measure(e: Env, marks: set<string>, p: Path): nat {
    |(Shown(e) + {Show(p)}) - marks|
  }

  lemma SubsetCard(a: set<string>, b: set<string>)
    requires a <= b
    ensures |a| <= |b|
  {
    assert b == a + (b - a);
    assert a * (b - a) == {};
  }

  lemma ProperSubsetCard(a: set<string>, b: set<string>, x: string)
    requires a <= b && x in b && x !in a
    ensures |a| < |b|
  {
    assert b == a + (b - a);
    assert a * (b - a) == {};
    assert x in b - a;
  }

  /** Marking `p` shrinks what is left. */
  lemma MarkShrinks(e: Env, marks: set<string>, p: Path, after: set<string>)
    requires Show(p) !in marks && marks + {Show(p)} <= after
    ensures |Shown(e) - after| < Measure(e, marks, p)
  {
    ProperSubsetCard(Shown(e) - after, (Shown(e) + {Show(p)}) - marks, Show(p));
  }

  /** From a resolved path, what is left is what is left of the whole universe. */
  lemma MeasureInUniverse(e: Env, marks: set<string>, f: Path)
    requires f in Universe(e)
    ensures Measure(e, marks, f) == |Shown(e) - marks|
  {
    assert Show(f) in Shown(e);
    assert Shown(e) + {Show(f)} == Shown(e);
  }

  /**
   * `mkdeps(res, n, ...)` from the marks `marks`: the marks afterwards and
   * the nodes appended, `n` first unless it was already marked.
   */
  function Explore(e: Env, marks: set<string>, p: Path): (r: (set<string>, seq<Path>))
    ensures marks <= r.0
    decreases Measure(e, marks, p), 0
  {
    if Show(p) in marks then (marks, [])
    else
      MarkShrinks(e, marks, p, marks + {Show(p)});
      ExploreAll(e, marks + {Show(p)}, p, FileDirectives(e, p), [p])
  }

  /** The loop over the inclusions still to handle, with `acc` appended so far. */
  function ExploreAll(e: Env, marks: set<string>, p: Path, incs: seq<Include>, acc: seq<Path>): (r: (set<string>, seq<Path>))
    ensures marks <= r.0
    decreases |Shown(e) - marks|, 1, |incs|
  {
    if |incs| == 0 then (marks, acc)
    else match ResolveOf(e, p, incs[0])
      case None => ExploreAll(e, marks, p, incs[1..], acc)
      case Some(f) =>
        FirstHitInUniverse(e, SearchList(e, p, incs[0]), incs[0]);
        MeasureInUniverse(e, marks, f);
        var sub := Explore(e, marks, f);
        SubsetCard(Shown(e) - sub.0, Shown(e) - marks);
        ExploreAll(e, sub.0, p, incs[1..], acc + sub.1)
  }

  function ShowSet(xs: seq<Path>): set<string> {
    set i | 0 <= i < |xs| :: Show(xs[i])
  }

  /**
   * `xs` were explored starting from the marks `m0`, ending with `m`:
   * each of them was unmarked, no two print alike, and they are exactly
   * the marks added.
   */
  ghost predicate Fresh(m0: set<string>, m: set<string>, xs: seq<Path>) {
    && m == m0 + ShowSet(xs)
    && (forall i, j :: 0 <= i < j < |xs| ==> Show(xs[i]) != Show(xs[j]))
    && (forall i :: 0 <= i < |xs| ==> Show(xs[i]) !in m0)
  }

  /** Every node but the start `p` is one an inclusion resolved to. */
  ghost predicate Scoped(e: Env, p: Path, xs: seq<Path>) {
    forall i :: 0 <= i < |xs| ==> xs[i] == p || xs[i] in Universe(e)
  }

  lemma SingletonShowSet(p: Path)
    ensures ShowSet([p]) == {Show(p)}
  {
    assert [p][0] == p;
    assert Show([p][0]) in ShowSet([p]);
  }

  lemma FreshConcat(m0: set<string>, m1: set<string>, m2: set<string>, a: seq<Path>, b: seq<Path>)
    requires Fresh(m0, m1, a) && Fresh(m1, m2, b)
    ensures Fresh(m0, m2, a + b)
  {
    var c := a + b;
    assert ShowSet(c) == ShowSet(a) + ShowSet(b) by {
      forall s | s in ShowSet(c) ensures s in ShowSet(a) + ShowSet(b) {
        var i :| 0 <= i < |c| && Show(c[i]) == s;
        if i >= |a| {
          assert c[i] == b[i - |a|];
          assert Show(b[i - |a|]) in ShowSet(b);
        } else {
          assert c[i] == a[i];
          assert Show(a[i]) in ShowSet(a);
        }
      }
      forall s | s in ShowSet(a) ensures s in ShowSet(c) {
        var i :| 0 <= i < |a| && Show(a[i]) == s;
        assert c[i] == a[i];
        assert Show(c[i]) in ShowSet(c);
      }
      forall s | s in ShowSet(b) ensures s in ShowSet(c) {
        var i :| 0 <= i < |b| && Show(b[i]) == s;
        assert c[|a| + i] == b[i];
        assert Show(c[|a| + i]) in ShowSet(c);
      }
    }
    forall i, j | 0 <= i < j < |c| ensures Show(c[i]) != Show(c[j]) {
      if j >= |a| && i < |a| {
        assert c[j] == b[j - |a|];
        assert Show(c[i]) in ShowSet(a);
      } else if i >= |a| {
        assert c[i] == b[i - |a|] && c[j] == b[j - |a|];
      }
    }
    forall i | 0 <= i < |c| ensures Show(c[i]) !in m0 {
      if i >= |a| {
        assert c[i] == b[i - |a|];
      }
    }
  }

  /** A scan from `p` appends `p` first when it is unmarked, and nothing when it is marked. */
  lemma {:induction false} ExploreFresh(e: Env, marks: set<string>, p: Path)
    ensures var r := Explore(e, marks, p);
      && Fresh(marks, r.0, r.1)
      && Scoped(e, p, r.1)
      && (Show(p) in marks ==> r.1 == [])
      && (Show(p) !in marks ==> |r.1| > 0 && r.1[0] == p)
    decreases Measure(e, marks, p), 0
  {
    if Show(p) !in marks {
      var m := marks + {Show(p)};
      SingletonShowSet(p);
      MarkShrinks(e, marks, p, m);
      ExploreAllFresh(e, marks, m, p, FileDirectives(e, p), [p]);
    }
  }

  lemma {:induction false} ExploreAllFresh(e: Env, m0: set<string>, marks: set<string>, p: Path, incs: seq<Include>, acc: seq<Path>)
    requires Fresh(m0, marks, acc) && Scoped(e, p, acc)
    ensures var r := ExploreAll(e, marks, p, incs, acc);
      Fresh(m0, r.0, r.1) && Scoped(e, p, r.1) && IsPrefix(acc, r.1)
    decreases |Shown(e) - marks|, 1, |incs|
  {
    if |incs| > 0 {
      var res := ResolveOf(e, p, incs[0]);
      if res.None? {
        assert ExploreAll(e, marks, p, incs, acc) == ExploreAll(e, marks, p, incs[1..], acc);
        ExploreAllFresh(e, m0, marks, p, incs[1..], acc);
      } else {
        var f := res.value;
        FirstHitInUniverse(e, SearchList(e, p, incs[0]), incs[0]);
        MeasureInUniverse(e, marks, f);
        var sub := Explore(e, marks, f);
        assert ExploreAll(e, marks, p, incs, acc) == ExploreAll(e, sub.0, p, incs[1..], acc + sub.1);
        ExploreFresh(e, marks, f);
        FreshStep(e, m0, marks, p, f, acc, sub.0, sub.1);
        SubsetCard(Shown(e) - sub.0, Shown(e) - marks);
        ExploreAllFresh(e, m0, sub.0, p, incs[1..], acc + sub.1);
        PrefixTrans(acc, acc + sub.1, ExploreAll(e, sub.0, p, incs[1..], acc + sub.1).1);
      }
    }
  }

  predicate IsPrefix(a: seq<Path>, b: seq<Path>) {
    |a| <= |b| && b[..|a|] == a
  }

  lemma PrefixTrans(a: seq<Path>, b: seq<Path>, c: seq<Path>)
    requires |a| <= |b| && b[..|a|] == a && IsPrefix(b, c)
    ensures IsPrefix(a, c)
  {
    assert c[..|a|] == c[..|b|][..|a|];
  }

  /** The nodes found below one inclusion extend what was explored before it. */
  lemma FreshStep(e: Env, m0: set<string>, marks: set<string>, p: Path, f: Path, acc: seq<Path>, m1: set<string>, sub: seq<Path>)
    requires Fresh(m0, marks, acc) && Scoped(e, p, acc)
    requires f in Universe(e) && Fresh(marks, m1, sub) && Scoped(e, f, sub)
    ensures Fresh(m0, m1, acc + sub) && Scoped(e, p, acc + sub)
  {
    FreshConcat(m0, marks, m1, acc, sub);
    forall i | 0 <= i < |acc + sub| ensures (acc + sub)[i] == p || (acc + sub)[i] in Universe(e) {
      if i >= |acc| {
        assert (acc + sub)[i] == sub[i - |acc|];
      }
    }
  }

  /**
   * `Compiler.dependencies` starts from no marks: the source comes first,
   * no node is listed twice, and every other node is registered or a file
   * under the source root.
   */
  lemma ScanSpec(e: Env, src: Path)
    ensures var r := Explore(e, {}, src).1;
      && |r| > 0 && r[0] == src
      && NoDup(r)
      && (forall i :: 1 <= i < |r| ==> r[i] != src && r[i] in Universe(e))
  {
    ExploreFresh(e, {}, src);
    var r := Explore(e, {}, src).1;
    forall i | 1 <= i < |r| ensures r[i] != src {
      assert Show(r[0]) != Show(r[i]);
    }
  }

  /** Returns whether `d` is not the compiled source. */
  function NotSource(src: Path): Path -> bool {
    d => d != src
  }

  /** The dynamic sources `Compiler.dependencies` adds: every scanned node but the source. */
  function DynamicSources(e: Env, src: Path): seq<Path> {
    Filter(Explore(e, {}, src).1, NotSource(src))
  }

  /** They are the scan's result after its first element, none of them the source and none twice. */
  lemma DynamicSourcesSpec(e: Env, src: Path)
    ensures var r := Explore(e, {}, src).1;
      && |r| > 0
      && DynamicSources(e, src) == r[1..]
      && NoDup(DynamicSources(e, src))
      && src !in DynamicSources(e, src)
  {
    ScanSpec(e, src);
    var r := Explore(e, {}, src).1;
    FilterDropsFirst(r, src);
  }

  lemma {:induction false} FilterDropsFirst(r: seq<Path>, src: Path)
    requires |r| > 0 && r[0] == src && forall i :: 1 <= i < |r| ==> r[i] != src
    ensures Filter(r, NotSource(src)) == r[1..]
    decreases |r|
  {
    if |r| > 1 {
      FilterDropsFirst(r[..|r| - 1], src);
      assert r[..|r| - 1][1..] + [r[|r| - 1]] == r[1..];
    }
  }

  // ---------------------------------------------------------------------
  // The scan itself.

  /** `unique` would fail: two search entries found two nodes. */
  datatype ScanError = Ambiguous(inclusion: string, previous: Path, found: Path)

  /** `unique(path, include, prev_via, prev, new_via, new)`. */
  function Unique(inc: Include, prev: Option<Path>, found: Path): Result<Path, ScanError> {
    match prev
    case Some(q) => Failure(Ambiguous(inc.name, q, found))
    case None => Success(found)
  }

  function AsFound(u: Result<Path, ScanError>): Result<Option<Path>, ScanError> {
    match u
    case Success(p) => Success(Some(p))
    case Failure(err) => Failure(err)
  }

  /**
   * The state of one `Compiler.dependencies` scan: its inputs and the
   * `marks` table, keyed by the printed path, that every level shares.
   */
  class DependencyScan {
    const env: Env
    var marks: set<string>

    constructor (env: Env)
      ensures this.env == env && marks == {}
    {
      this.env := env;
      marks := {};
    }

    /** The inclusions the lines of the file at `p` hold, in order. */
    method ReadDirectives(p: Path) returns (res: seq<Include>)
      ensures res == FileDirectives(env, p)
    {
      res := [];
      if p !in env.files {
        return;
      }
      var lines := Split(env.files[p], '\n');
      var i := 0;
      while i < |lines|
        invariant 0 <= i <= |lines|
        invariant res == FlatMap(lines[..i], DirectiveOf)
      {
        var m := ParseDirective(lines[i]);
        if m.Some? {
          res := res + [m.value];
        }
        assert lines[..i + 1][..i] == lines[..i];
        i := i + 1;
      }
      assert lines[..i] == lines;
    }

    /**
     * The search for one inclusion of the file at `current`; every hit
     * ends the search, so `unique` never sees an earlier match.
     */
    method Resolve(current: Path, inc: Include) returns (r: Result<Option<Path>, ScanError>)
      ensures r == Success(ResolveOf(env, current, inc))
    {
      var search := SearchEntries(current, inc);
      var found: Option<Path> := None;
      var k := 0;
      while k < |search|
        invariant 0 <= k <= |search|
        invariant found == None
        invariant FirstHit(env, search[k..], inc) == FirstHit(env, search, inc)
      {
        var (dir, test) := search[k];
        var name := Candidate(dir, inc);
        if test && name in env.registry {
          return AsFound(Unique(inc, found, name));
        }
        if found.None? && name in env.present {
          return AsFound(Unique(inc, found, name));
        }
        assert search[k..][1..] == search[k + 1..];
        k := k + 1;
      }
      return Success(found);
    }

    /** The directories `Resolve` walks through, built as the source builds them. */
    method SearchEntries(current: Path, inc: Include) returns (search: seq<(Path, bool)>)
      ensures search == SearchList(env, current, inc)
    {
      search := [];
      if inc.quoted {
        search := search + [(Dirname(current), true)];
      }
      var j := 0;
      var base := search;
      while j < |env.localIncludes|
        invariant 0 <= j <= |env.localIncludes|
        invariant search == base + FlatMap(env.localIncludes[..j], LocalCandidates(env.srcRoot))
      {
        var d := env.localIncludes[j];
        search := search + [(d, true)];
        search := search + [(Join(env.srcRoot, d), false)];
        assert env.localIncludes[..j + 1][..j] == env.localIncludes[..j];
        j := j + 1;
      }
      assert env.localIncludes[..j] == env.localIncludes;
      search := search + FlatMap(env.toolkitIncludes, ToolkitCandidate);
    }

    /** `mkdeps(res, n, ...)`: the nodes appended, and the marks it leaves. */
    method MkDeps(n: Path) returns (res: seq<Path>)
      modifies this
      decreases Measure(env, marks, n), 0
      ensures (marks, res) == Explore(env, old(marks), n)
    {
      if Show(n) in marks {
        return [];
      }
      marks := marks + {Show(n)};
      res := [n];
      var incs := ReadDirectives(n);
      var i := 0;
      while i < |incs|
        invariant 0 <= i <= |incs|
        invariant old(marks) + {Show(n)} <= marks
        invariant ExploreAll(env, marks, n, incs[i..], res) == Explore(env, old(marks), n)
      {
        var found := Resolve(n, incs[i]);
        assert incs[i..][0] == incs[i] && incs[i..][1..] == incs[i + 1..];
        match found.value {
          case None =>
          case Some(f) =>
            FirstHitInUniverse(env, SearchList(env, n, incs[i]), incs[i]);
            MeasureInUniverse(env, marks, f);
            MarkShrinks(env, old(marks), n, marks);
            var rec := MkDeps(f);
            res := res + rec;
        }
        i := i + 1;
      }
    }
  }

  /** `Compiler.dependencies`: the dynamic sources added to the compilation. */
  method Dependencies(env: Env, src: Path) returns (dynsrc: seq<Path>)
    ensures dynsrc == DynamicSources(env, src)
  {
    var scan := new DependencyScan(env);
    var deps := scan.MkDeps(src);
    dynsrc := [];
    var i := 0;
    while i < |deps|
      invariant 0 <= i <= |deps|
      invariant dynsrc == Filter(deps[..i], NotSource(src))
    {
      if deps[i] != src {
        dynsrc := dynsrc + [deps[i]];
      }
      assert deps[..i + 1][..i] == deps[..i];
      i := i + 1;
    }
    assert deps[..i] == deps;
  }
}
