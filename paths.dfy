/** File-system paths and URLs as the prelaunch and discovery code build them. */
module Paths {

  /** A path as its sequence of name elements, from the root. */
  type Path = seq<string>

  /** A single path element: non-empty and free of '/'. */
  predicate IsName(s: string) {
    s != "" && '/' !in s
  }

  /** The element `cur` as a path: nothing when it is empty. */
  function Piece(cur: string): (r: Path)
    ensures |r| <= 1 && (cur != "" <==> r == [cur])
  {
    if cur == "" then [] else [cur]
  }

  /**
   * Parses `s` onto `base` as the default file system reads a path string: `cur` holds the
   * element read so far, each '/' ends it, and the empty elements that repeated, leading and
   * trailing '/'s leave are dropped.
   */
  function AppendElements(base: Path, cur: string, s: string): (r: Path)
    requires '/' !in cur
    ensures |r| >= |base| && r[..|base|] == base
    decreases |s|
  {
    if s == [] then base + Piece(cur)
    else if s[0] == '/' then AppendElements(base + Piece(cur), "", s[1..])
    else
      var r := AppendElements(base, cur + [s[0]], s[1..]);
      assert r[..|base|] == base;
      r
  }

  /** Every element the parse adds to `base` is a non-empty, slash-free name. */
  lemma {:induction false} AppendedElementsAreNames(base: Path, cur: string, s: string)
    requires '/' !in cur
    ensures forall k :: |base| <= k < |AppendElements(base, cur, s)| ==> IsName(AppendElements(base, cur, s)[k])
    decreases |s|
  {
    if s == [] {
    } else if s[0] == '/' {
      var base' := base + Piece(cur);
      AppendedElementsAreNames(base', "", s[1..]);
      var r := AppendElements(base', "", s[1..]);
      assert r == AppendElements(base, cur, s);
      assert r[..|base'|] == base';
      forall k | |base| <= k < |r| ensures IsName(r[k]) {
        if k < |base'| {
          assert r[k] == r[..|base'|][k] == base'[k] == cur;
        }
      }
    } else {
      assert '/' !in cur + [s[0]];
      AppendedElementsAreNames(base, cur + [s[0]], s[1..]);
      assert AppendElements(base, cur, s) == AppendElements(base, cur + [s[0]], s[1..]);
    }
  }

  /** A slash-free rest completes the current element. */
  lemma {:induction false} AppendSlashFree(base: Path, cur: string, s: string)
    requires '/' !in cur && '/' !in s
    ensures AppendElements(base, cur, s) == base + Piece(cur + s)
    decreases |s|
  {
    if s == [] {
      assert cur + s == cur;
    } else {
      assert s[0] in s;
      assert '/' !in s[1..] by {
        forall k | 0 <= k < |s[1..]| ensures s[1..][k] != '/' { assert s[1..][k] == s[k + 1]; }
      }
      AppendSlashFree(base, cur + [s[0]], s[1..]);
      assert cur + [s[0]] + s[1..] == cur + s;
    }
  }

  /** A '/' after a slash-free run closes the element the run completes. */
  lemma {:induction false} AppendAtSlash(base: Path, cur: string, a: string, b: string)
    requires '/' !in cur && '/' !in a
    ensures AppendElements(base, cur, a + "/" + b) == AppendElements(base + Piece(cur + a), "", b)
    decreases |a|
  {
    var s := a + "/" + b;
    if a == [] {
      assert s[0] == '/' && s[1..] == b;
      assert cur + a == cur;
    } else {
      assert s[0] == a[0] && s[1..] == a[1..] + "/" + b;
      assert a[0] in a;
      assert '/' !in a[1..] by {
        forall k | 0 <= k < |a[1..]| ensures a[1..][k] != '/' { assert a[1..][k] == a[k + 1]; }
      }
      AppendAtSlash(base, cur + [a[0]], a[1..], b);
      assert cur + [a[0]] + a[1..] == cur + a;
    }
  }

  /** A string names an absolute path when it starts with '/'. */
  predicate IsAbsolute(s: string) {
    |s| > 0 && s[0] == '/'
  }

  /**
   * `Path.resolve(child)`: an absolute child replaces the path, an empty one leaves it as it is,
   * and any other is appended element by element.
   */
  function Resolve(p: Path, child: string): (r: Path)
    ensures !IsAbsolute(child) ==> |r| >= |p| && r[..|p|] == p
    ensures child == "" ==> r == p
    ensures IsName(child) ==> r == p + [child]
  {
    if '/' !in child then
      AppendSlashFree(p, "", child);
      assert "" + child == child;
      AppendElements(p, "", child)
    else AppendElements(if IsAbsolute(child) then [] else p, "", child)
  }

  /**
   * What resolving adds is a list of names: for an absolute child the whole result, for a
   * relative one everything after `p`.
   */
  lemma ResolvedElementsAreNames(p: Path, child: string)
    ensures var r := Resolve(p, child); var from := if IsAbsolute(child) then 0 else |p|;
      forall k :: from <= k < |r| ==> IsName(r[k])
  {
    if '/' !in child {
      AppendedElementsAreNames(p, "", child);
      assert !IsAbsolute(child) by { assert |child| > 0 ==> child[0] in child; }
    } else if IsAbsolute(child) {
      AppendedElementsAreNames([], "", child);
    } else {
      AppendedElementsAreNames(p, "", child);
    }
  }

  /** A relative child with one '/' between two names adds two elements, not one. */
  lemma ResolveNested(p: Path, dir: string, name: string)
    requires IsName(dir) && IsName(name)
    ensures Resolve(p, dir + "/" + name) == p + [dir, name]
    ensures Resolve(p, dir + "/" + name)[..|p| + 1] == p + [dir]
  {
    var s := dir + "/" + name;
    assert s[|dir|] == '/';
    assert s[0] == dir[0];
    AppendAtSlash(p, "", dir, name);
    assert "" + dir == dir;
    AppendSlashFree(p + [dir], "", name);
    assert "" + name == name;
    assert p + [dir] + [name] == p + [dir, name];
    assert (p + [dir, name])[..|p| + 1] == p + [dir];
  }

  /** The last element of a path (`Path.name`), empty for the root. */
  function Name(p: Path): string {
    if |p| == 0 then "" else p[|p| - 1]
  }

  datatype Url = Url(scheme: string, path: Path)

  /** `path.toUri().toURL()` for a path of the default file system. */
  function ToUrl(p: Path): Url {
    Url("file", p)
  }
}
