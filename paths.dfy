/**
 * The build engine's path values (`drake.Path`), which are not part of
 * this model: a path is an absolute flag and its components. The file-name
 * rules the toolchain relies on are given here: the extension of a file
 * name is everything after its FIRST dot (so `foo.impl.cpp` has extension
 * `impl.cpp`), `with_extension` replaces the whole extension, and
 * `without_last_extension` drops only the last dot segment.
 */
module Paths {
  import opened Wrappers
  import opened Strings

  datatype Path = Path(absolute: bool, parts: seq<string>)

  /** A relative path of one component. */
  function Rel(name: string): Path {
    Path(false, [name])
  }

  /** `a / b`: appending an absolute path yields that path. */
  function Join(a: Path, b: Path): Path {
    if b.absolute then b else Path(a.absolute, a.parts + b.parts)
  }

  function Basename(p: Path): string {
    if |p.parts| == 0 then "" else p.parts[|p.parts| - 1]
  }

  function Dirname(p: Path): Path {
    if |p.parts| == 0 then p else Path(p.absolute, p.parts[..|p.parts| - 1])
  }

  /** The same directory with the last component replaced by `b`. */
  function WithBasename(p: Path, b: string): Path {
    Path(p.absolute, Dirname(p).parts + [b])
  }

  /** File-name part before the first dot. */
  function Stem(name: string): string {
    match IndexOf(name, '.')
    case None => name
    case Some(i) => IndexOfFacts(name, '.'); name[..i]
  }

  /** File-name part after the first dot (empty when there is no dot). */
  function NameExtension(name: string): string {
    match IndexOf(name, '.')
    case None => ""
    case Some(i) => IndexOfFacts(name, '.'); name[i + 1..]
  }

  function Extension(p: Path): string {
    NameExtension(Basename(p))
  }

  /** `p.with_extension(e)`: the whole extension becomes `e`. */
  function WithExtension(p: Path, e: string): Path {
    WithBasename(p, Stem(Basename(p)) + (if e == "" then "" else "." + e))
  }

  /** File name without its last dot segment. */
  function DropLastExtension(name: string): string {
    match LastIndexOf(name, '.')
    case None => name
    case Some(i) => LastIndexOfFacts(name, '.'); name[..i]
  }

  /** `p.without_last_extension()`. */
  function WithoutLastExtension(p: Path): Path {
    if |p.parts| == 0 then p else WithBasename(p, DropLastExtension(Basename(p)))
  }

  /** `str(p)`. */
  function Show(p: Path): string {
    if p.absolute then "/" + JoinWith(p.parts, "/")
    else if |p.parts| == 0 then "."
    else JoinWith(p.parts, "/")
  }

  function NonEmptyParts(xs: seq<string>): seq<string>
    decreases |xs|
  {
    if |xs| == 0 then []
    else (if xs[0] == "" || xs[0] == "." then [] else [xs[0]]) + NonEmptyParts(xs[1..])
  }

  /** `Path(s)`: components between slashes, empty and `.` components dropped. */
  function Parse(s: string): Path {
    Path(|s| > 0 && s[0] == '/', NonEmptyParts(Split(s, '/')))
  }

  function CanonParts(absolute: bool, done: seq<string>, rest: seq<string>): seq<string>
    decreases |rest|
  {
    if |rest| == 0 then done
    else if rest[0] == "." then CanonParts(absolute, done, rest[1..])
    else if rest[0] == ".." then
      if |done| > 0 && done[|done| - 1] != ".." then CanonParts(absolute, done[..|done| - 1], rest[1..])
      else if absolute then CanonParts(absolute, done, rest[1..])
      else CanonParts(absolute, done + [".."], rest[1..])
    else CanonParts(absolute, done + [rest[0]], rest[1..])
  }

  /** `p.canonize()`: `.` components dropped, `..` folded into its parent. */
  function Canonize(p: Path): Path {
    Path(p.absolute, CanonParts(p.absolute, [], p.parts))
  }

  /** Components that print and parse back unchanged. */
  predicate PlainParts(parts: seq<string>) {
    forall i :: 0 <= i < |parts| ==> parts[i] != "" && parts[i] != "." && '/' !in parts[i]
  }

  lemma {:induction false} NonEmptyPartsPlain(xs: seq<string>)
    requires PlainParts(xs)
    ensures NonEmptyParts(xs) == xs
    decreases |xs|
  {
    if |xs| > 0 {
      NonEmptyPartsPlain(xs[1..]);
      assert xs == [xs[0]] + xs[1..];
    }
  }

  /** `Path(str(p)) == p` for a path whose components are plain. */
  lemma ParseShow(p: Path)
    requires PlainParts(p.parts)
    ensures Parse(Show(p)) == p
  {
    var s := Show(p);
    if |p.parts| == 0 {
      if p.absolute {
        assert s == "/";
        assert Split(s, '/') == ["", ""];
      } else {
        assert s == ".";
        assert Split(s, '/') == ["."];
      }
    } else {
      var j := JoinWith(p.parts, "/");
      SplitJoin(p.parts, '/');
      NonEmptyPartsPlain(p.parts);
      if p.absolute {
        assert s == "/" + j;
        assert (s)[0] == '/';
        IndexOfAt(s, '/', 0);
        assert s[1..] == j;
        assert Split(s, '/') == [""] + p.parts;
        assert NonEmptyParts([""] + p.parts) == NonEmptyParts(p.parts) by {
          assert ([""] + p.parts)[1..] == p.parts;
        }
      } else {
        assert s == j;
        JoinWithFirst(p.parts, "/");
        assert s[0] == p.parts[0][0];
        assert p.parts[0][0] in p.parts[0];
      }
    }
  }

  /** A doubled leading slash reads as a single one. */
  lemma ParseDoubleSlash(s: string)
    requires |s| > 0 && s[0] == '/'
    ensures Parse("/" + s) == Parse(s)
  {
    var t := "/" + s;
    IndexOfAt(t, '/', 0);
    assert t[1..] == s;
    assert Split(t, '/') == [""] + Split(s, '/');
    assert NonEmptyParts([""] + Split(s, '/')) == NonEmptyParts(Split(s, '/')) by {
      assert ([""] + Split(s, '/'))[1..] == Split(s, '/');
    }
  }

  /** `Path(name)` for a single plain component. */
  lemma ParseName(name: string)
    requires name != "" && name != "." && '/' !in name
    ensures Parse(name) == Rel(name)
  {
    IndexOfFacts(name, '/');
    assert Split(name, '/') == [name];
    assert NonEmptyParts([name]) == [name] by {
      assert [name][1..] == [];
    }
  }

  /** A file name without directory separators or dots. */
  predicate PlainName(b: string) {
    '/' !in b && '.' !in b
  }

  /** `name` sits next to `p`, in `p`'s directory, and its extension is `ext`. */
  lemma {:induction false} SiblingName(p: Path, stem: string, ext: string)
    requires PlainName(stem) && PlainName(ext) && ext != ""
    ensures var q := Join(Dirname(p), Parse(stem + "." + ext));
      Dirname(q) == Dirname(p) && Basename(q) == stem + "." + ext && Extension(q) == ext && !q.absolute == !p.absolute
  {
    var name := stem + "." + ext;
    assert forall i :: 0 <= i < |name| ==> name[i] != '/' by {
      forall i | 0 <= i < |name| ensures name[i] != '/' {
        if i < |stem| {
          assert name[i] == stem[i];
        } else if i > |stem| {
          assert name[i] == ext[i - |stem| - 1];
        }
      }
    }
    assert |name| > 1;
    ParseName(name);
    assert name[|stem|] == '.' && name[..|stem|] == stem;
    IndexOfAt(name, '.', |stem|);
    assert name[|stem| + 1..] == ext;
  }

  /** Once the extension is replaced by a plain `e`, `e` is the extension and the directory stays. */
  lemma WithExtensionSpec(p: Path, e: string)
    requires |p.parts| > 0 && PlainName(e) && e != ""
    ensures Extension(WithExtension(p, e)) == e && Dirname(WithExtension(p, e)) == Dirname(p)
  {
    var s := Stem(Basename(p));
    var name := s + "." + e;
    assert Basename(WithExtension(p, e)) == name;
    IndexOfFacts(Basename(p), '.');
    assert '.' !in s;
    assert name[|s|] == '.' && name[..|s|] == s;
    IndexOfAt(name, '.', |s|);
    assert name[|s| + 1..] == e;
  }
}
