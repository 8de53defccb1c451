/**
 * Pieces shared by the script discoverers and the loader: identifiers, script-name extraction,
 * which paths are scanned and the flattening of evaluated packs into one transformer list.
 */
module Discovery {
  import opened Wrappers
  import opened Strings
  import opened Paths

  /** The text that marks a script file name. */
  const SCRIPT_MARKER: string := ".core.kts"
  /** `"META-INF/" + KoremodsBlackboard.CONFIG_FILE` */
  const CONFIG_FILE_LOCATION: string := "META-INF/koremods.conf"

  /** A script's identity: the namespace of its pack and its name. */
  datatype Identifier = Identifier(namespace: string, name: string) {
    /** `toString()`: `namespace:name` */
    function ToString(): (r: string)
      ensures |r| == |namespace| + 1 + |name|
      ensures r[..|namespace|] == namespace && r[|namespace|] == ':' && r[|namespace| + 1..] == name
    {
      namespace + ":" + name
    }
  }

  /** With colon-free namespaces, the printed form determines the identifier. */
  lemma IdentifierToStringInjective(a: Identifier, b: Identifier)
    requires ':' !in a.namespace && ':' !in b.namespace
    requires a.ToString() == b.ToString()
    ensures a == b
  {
    var s := a.ToString();
    var na, nb := |a.namespace|, |b.namespace|;
    assert forall k :: 0 <= k < na ==> s[k] == a.namespace[k];
    assert forall k :: 0 <= k < nb ==> s[k] == b.namespace[k];
    assert s[na] == ':' && s[nb] == ':';
    assert a.namespace == s[..na] == b.namespace;
    assert a.name == s[na + 1..] == b.name;
  }

  /** One character of the class `[a-zA-Z0-9]`. */
  predicate IsScriptNameChar(c: char) {
    'a' <= c <= 'z' || 'A' <= c <= 'Z' || '0' <= c <= '9'
  }

  /** `name.matches("^[a-zA-Z0-9]*$")`; the empty name matches. */
  predicate MatchesScriptName(name: string) {
    forall i :: 0 <= i < |name| ==> IsScriptNameChar(name[i])
  }

  /**
   * The name `locateScripts` gives a configured script path: the last '/'-segment up to the first
   * ".core.kts", or nothing when the segment lacks the marker or the name fails the pattern.
   */
  function ScriptName(path: string): (r: Option<string>)
    ensures r.Some? ==> MatchesScriptName(r.value)
  {
    var nameWithExt := SubstringAfterLast(path, '/');
    var index := IndexOf(nameWithExt, SCRIPT_MARKER);
    if index == -1 then None
    else
      var name := nameWithExt[..index];
      if MatchesScriptName(name) then Some(name) else None
  }

  /**
   * A kept name is the text of the last segment before a ".core.kts" marker; a segment without
   * the marker yields no name.
   */
  lemma ScriptNameMarker(path: string)
    ensures var segment := SubstringAfterLast(path, '/'); var r := ScriptName(path);
      (r.Some? ==> OccursAt(segment, SCRIPT_MARKER, |r.value|) && segment[..|r.value|] == r.value) &&
      (IndexOf(segment, SCRIPT_MARKER) == -1 ==> r.None?)
  {
  }

  /** A name free of '.' puts the first marker right after itself. */
  lemma MarkerAfterName(name: string, rest: string)
    requires '.' !in name
    ensures IndexOf(name + SCRIPT_MARKER + rest, SCRIPT_MARKER) == |name|
  {
    var s := name + SCRIPT_MARKER + rest;
    assert OccursAt(s, SCRIPT_MARKER, |name|) by {
      assert s[|name|..|name| + |SCRIPT_MARKER|] == SCRIPT_MARKER;
    }
    forall j | 0 <= j < |name| ensures !OccursAt(s, SCRIPT_MARKER, j) {
      assert s[j] == name[j];
    }
  }

  /**
   * A script file `name.core.kts…` in any directory is named `name` when the name fits the
   * pattern; the check looks for the marker anywhere, so "a.core.kts.bak" is named "a".
   */
  lemma ScriptNameOfScriptFile(dir: string, name: string, rest: string)
    requires MatchesScriptName(name) && '/' !in rest
    ensures ScriptName(dir + "/" + name + SCRIPT_MARKER + rest) == Some(name)
  {
    assert '/' !in name && '.' !in name by {
      forall i | 0 <= i < |name| ensures name[i] != '/' && name[i] != '.' { assert IsScriptNameChar(name[i]); }
    }
    ScriptNameOfSegment(dir, name, rest);
  }

  /** A name before the marker that fails the pattern drops the script. */
  lemma ScriptNameRejectsBadName(dir: string, name: string, rest: string)
    requires !MatchesScriptName(name) && '.' !in name && '/' !in name && '/' !in rest
    ensures ScriptName(dir + "/" + name + SCRIPT_MARKER + rest) == None
  {
    ScriptNameOfSegment(dir, name, rest);
  }

  lemma ScriptNameOfSegment(dir: string, name: string, rest: string)
    requires '.' !in name && '/' !in name && '/' !in rest
    ensures ScriptName(dir + "/" + name + SCRIPT_MARKER + rest) == if MatchesScriptName(name) then Some(name) else None
  {
    var segment := name + SCRIPT_MARKER + rest;
    assert '/' !in segment;
    AfterLastSlash(dir, segment);
    assert dir + "/" + name + SCRIPT_MARKER + rest == dir + "/" + segment;
    MarkerAfterName(name, rest);
    assert segment[..|name|] == name;
  }

  lemma {:induction false} AfterLastSlash(dir: string, segment: string)
    requires '/' !in segment
    ensures SubstringAfterLast(dir + "/" + segment, '/') == segment
    decreases |segment|
  {
    var s := dir + "/" + segment;
    if |segment| == 0 {
      assert s == dir + "/";
    } else {
      var n := |segment| - 1;
      AfterLastSlash(dir, segment[..n]);
      assert s[..|s| - 1] == dir + "/" + segment[..n];
      assert segment[..n] + [segment[n]] == segment;
    }
  }

  /**
   * A path as the scanners see it: its location, whether it is a directory, the parsed
   * `META-INF/koremods.conf` it holds (if any) and the text lines of the files it holds, by
   * relative name or archive entry name.
   */
  datatype PathInfo<C> = PathInfo(path: Path, isDirectory: bool, config: Option<C>, files: map<string, seq<string>>)

  /** Kotlin's `Path.extension`: the text after the last '.' of the name, or "". */
  function Extension(name: string): (r: string)
    ensures '.' !in name ==> r == ""
    ensures '.' in name ==> r == SubstringAfterLast(name, '.')
  {
    if '.' in name then SubstringAfterLast(name, '.') else ""
  }

  /** A non-directory path whose extension makes it a scanned archive. */
  predicate IsArchive<C>(p: PathInfo<C>) {
    !p.isDirectory && (Extension(Name(p.path)) == "jar" || Extension(Name(p.path)) == "zip")
  }

  /** The script locator: the lines of the file at `path`, or null. */
  function Locate<C>(p: PathInfo<C>, path: string): Option<seq<string>> {
    if path in p.files then Some(p.files[path]) else None
  }

  /** `lines.joinToString("\n")` */
  function JoinLines(lines: seq<string>): string {
    Join(lines, "\n")
  }

  /** `filter` on a list: the kept elements, in order. */
  function Filter<T>(s: seq<T>, keep: T -> bool): (r: seq<T>)
    ensures |r| <= |s|
    ensures forall i :: 0 <= i < |r| ==> r[i] in s && keep(r[i])
    ensures forall i :: 0 <= i < |s| && keep(s[i]) ==> s[i] in r
  {
    if |s| == 0 then [] else Filter(s[..|s| - 1], keep) + (if keep(s[|s| - 1]) then [s[|s| - 1]] else [])
  }

  /** Filtering one more element of a prefix adds it exactly when it is kept. */
  lemma FilterSnoc<T>(s: seq<T>, i: nat, keep: T -> bool)
    requires i < |s|
    ensures Filter(s[..i + 1], keep) == Filter(s[..i], keep) + (if keep(s[i]) then [s[i]] else [])
  {
    assert s[..i + 1][..i] == s[..i];
  }

  lemma FilterAppend<T>(a: seq<T>, b: seq<T>, keep: T -> bool)
    ensures Filter(a + b, keep) == Filter(a, keep) + Filter(b, keep)
    decreases |b|
  {
    if |b| > 0 {
      assert (a + b)[..|a + b| - 1] == a + b[..|b| - 1];
      FilterAppend(a, b[..|b| - 1], keep);
    } else {
      assert a + b == a;
    }
  }

  /** A classpath entry: its URI scheme and the path it denotes. */
  datatype ClasspathUrl<C> = ClasspathUrl(scheme: string, target: PathInfo<C>)

  function Targets<C>(urls: seq<ClasspathUrl<C>>): (r: seq<PathInfo<C>>)
    ensures |r| == |urls| && forall i :: 0 <= i < |urls| ==> r[i] == urls[i].target
  {
    if |urls| == 0 then [] else Targets(urls[..|urls| - 1]) + [urls[|urls| - 1].target]
  }

  /** `classpath.map(URL::toURI).filter { it.scheme == "file" }.map(Paths::get)` */
  function FileClasspath<C>(classpath: seq<ClasspathUrl<C>>): (r: seq<PathInfo<C>>)
    ensures forall i :: 0 <= i < |r| ==> exists u :: u in classpath && u.scheme == "file" && u.target == r[i]
    ensures forall i :: 0 <= i < |classpath| && classpath[i].scheme == "file" ==> classpath[i].target in r
  {
    var files := Filter(classpath, (u: ClasspathUrl<C>) => u.scheme == "file");
    var r := Targets(files);
    forall i | 0 <= i < |classpath| && classpath[i].scheme == "file" ensures classpath[i].target in r {
      var j :| 0 <= j < |files| && files[j] == classpath[i];
      assert r[j] == classpath[i].target;
    }
    r
  }

  /**
   * The paths scanned for a directory `dir` and a classpath: the non-directory entries of a
   * depth-1 walk of `dir` (which lists `dir` first) whose name differs from `dir`'s, followed by
   * the file-scheme classpath entries.
   */
  function ScannedPaths<C>(dir: Path, walked: seq<PathInfo<C>>, classpath: seq<ClasspathUrl<C>>): (r: seq<PathInfo<C>>)
    ensures forall i :: 0 <= i < |r| ==>
      (r[i] in walked && !r[i].isDirectory && Name(r[i].path) != Name(dir)) ||
      (exists u :: u in classpath && u.scheme == "file" && u.target == r[i])
    ensures forall i :: 0 <= i < |walked| && !walked[i].isDirectory && Name(walked[i].path) != Name(dir) ==> walked[i] in r
    ensures forall i :: 0 <= i < |classpath| && classpath[i].scheme == "file" ==> classpath[i].target in r
  {
    Filter(walked, (p: PathInfo<C>) => !p.isDirectory && Name(p.path) != Name(dir)) + FileClasspath(classpath)
  }

  /** `flatMap` over lists of lists: the concatenation, in order. */
  function Concat<T>(ss: seq<seq<T>>): (r: seq<T>)
    ensures |ss| == 0 ==> r == []
  {
    if |ss| == 0 then [] else Concat(ss[..|ss| - 1]) + ss[|ss| - 1]
  }

  lemma {:induction false} ConcatAppend<T>(a: seq<seq<T>>, b: seq<seq<T>>)
    ensures Concat(a + b) == Concat(a) + Concat(b)
    decreases |b|
  {
    if |b| == 0 {
      assert a + b == a;
    } else {
      var init, last := b[..|b| - 1], b[|b| - 1];
      assert (a + b)[..|a + b| - 1] == a + init;
      assert (a + b)[|a + b| - 1] == last;
      ConcatAppend(a, init);
      calc {
        Concat(a + b);
        Concat(a + init) + last;
        (Concat(a) + Concat(init)) + last;
        Concat(a) + (Concat(init) + last);
        Concat(a) + Concat(b);
      }
    }
  }

  /** The concatenation is empty exactly when every part is. */
  lemma {:induction false} ConcatEmpty<T>(ss: seq<seq<T>>)
    ensures Concat(ss) == [] <==> forall i :: 0 <= i < |ss| ==> ss[i] == []
    decreases |ss|
  {
    if |ss| > 0 {
      ConcatEmpty(ss[..|ss| - 1]);
      assert forall i :: 0 <= i < |ss| - 1 ==> ss[..|ss| - 1][i] == ss[i];
    }
  }

  /** Every element of a part is in the concatenation, and nothing else is. */
  lemma {:induction false} ConcatMembers<T>(ss: seq<seq<T>>, x: T)
    ensures x in Concat(ss) <==> exists i :: 0 <= i < |ss| && x in ss[i]
    decreases |ss|
  {
    if |ss| > 0 {
      ConcatMembers(ss[..|ss| - 1], x);
      assert forall i :: 0 <= i < |ss| - 1 ==> ss[..|ss| - 1][i] == ss[i];
    }
  }
  /** An evaluated script: its key (identifier or name) and the transformers its handler holds. */
  datatype Script<K, T> = Script(key: K, transformers: seq<T>)

  /** An evaluated pack: what the revision records about it (`meta`) and its scripts. */
  datatype Pack<M, K, T> = Pack(meta: M, scripts: seq<Script<K, T>>)

  function ScriptTransformers<K, T>(scripts: seq<Script<K, T>>): seq<T> {
    if |scripts| == 0 then []
    else
      ScriptTransformers(scripts[..|scripts| - 1]) + scripts[|scripts| - 1].transformers
  }

  /**
   * What aborts a discovery: the NullPointerException a scan raises on `directory`, or the
   * `ExecutionException` that `future.get()` raises for an evaluation that failed with `cause`.
   */
  datatype DiscoveryError<E> = NullPointerException(directory: Path) | ExecutionException(cause: E)

  /**
   * `future.get()` on each script's future in turn: the evaluated scripts when every evaluation
   * succeeded; otherwise the failure of the first one read that did not (see `GetAllFailsAtFirst`).
   */
  function GetAll<K, T, E>(futures: seq<(K, Result<seq<T>, E>)>): (r: Result<seq<Script<K, T>>, E>)
    ensures r.Ok? <==> forall j :: 0 <= j < |futures| ==> futures[j].1.Ok?
    ensures r.Ok? ==>
      |r.value| == |futures| &&
      forall j :: 0 <= j < |futures| ==> r.value[j] == Script(futures[j].0, futures[j].1.value)
  {
    if |futures| == 0 then Ok([])
    else
      match futures[0].1
      case Err(e) => Err(e)
      case Ok(ts) =>
        var rest := GetAll(futures[1..]);
        assert forall j :: 1 <= j < |futures| ==> futures[j] == futures[1..][j - 1];
        if rest.Err? then Err(rest.error) else Ok([Script(futures[0].0, ts)] + rest.value)
  }

  /** The failure raised is that of the first failed future; later ones are never read. */
  lemma {:induction false} GetAllFailsAtFirst<K, T, E>(futures: seq<(K, Result<seq<T>, E>)>, j: nat)
    requires j < |futures| && futures[j].1.Err?
    requires forall k :: 0 <= k < j ==> futures[k].1.Ok?
    ensures GetAll(futures) == Err(futures[j].1.error)
    decreases j
  {
    if j > 0 {
      assert futures[1..][j - 1] == futures[j];
      forall k | 0 <= k < j - 1 ensures futures[1..][k].1.Ok? {
        assert futures[1..][k] == futures[k + 1];
      }
      GetAllFailsAtFirst(futures[1..], j - 1);
    }
  }

  /**
   * The packs' futures read pack by pack: the evaluated packs, each with its `meta`, or the first
   * failure in pack order (see `GetPacksFailsAtFirst`).
   */
  function GetPacks<M, K, T, E>(packs: seq<(M, seq<(K, Result<seq<T>, E>)>)>): (r: Result<seq<Pack<M, K, T>>, E>)
    ensures r.Ok? <==> forall i :: 0 <= i < |packs| ==> GetAll(packs[i].1).Ok?
    ensures r.Ok? ==>
      |r.value| == |packs| &&
      forall i :: 0 <= i < |packs| ==> r.value[i] == Pack(packs[i].0, GetAll(packs[i].1).value)
  {
    if |packs| == 0 then Ok([])
    else
      match GetAll(packs[0].1)
      case Err(e) => Err(e)
      case Ok(scripts) =>
        var rest := GetPacks(packs[1..]);
        assert forall i :: 1 <= i < |packs| ==> packs[i] == packs[1..][i - 1];
        if rest.Err? then Err(rest.error) else Ok([Pack(packs[0].0, scripts)] + rest.value)
  }

  /** The failure raised is that of the first pack holding a failed future. */
  lemma {:induction false} GetPacksFailsAtFirst<M, K, T, E>(packs: seq<(M, seq<(K, Result<seq<T>, E>)>)>, i: nat)
    requires i < |packs| && GetAll(packs[i].1).Err?
    requires forall k :: 0 <= k < i ==> GetAll(packs[k].1).Ok?
    ensures GetPacks(packs) == Err(GetAll(packs[i].1).error)
    decreases i
  {
    if i > 0 {
      assert packs[1..][i - 1] == packs[i];
      forall k | 0 <= k < i - 1 ensures GetAll(packs[1..][k].1).Ok? {
        assert packs[1..][k] == packs[k + 1];
      }
      GetPacksFailsAtFirst(packs[1..], i - 1);
    }
  }

  /** `flatMap(Pack::scripts).flatMap { it.handler.getTransformers() }` */
  function Flatten<M, K, T>(packs: seq<Pack<M, K, T>>): (r: seq<T>)
    ensures |packs| == 0 ==> r == []
    ensures |packs| == 1 ==> r == ScriptTransformers(packs[0].scripts)
  {
    if |packs| == 0 then []
    else
      Flatten(packs[..|packs| - 1]) + ScriptTransformers(packs[|packs| - 1].scripts)
  }

  /** Flattening follows pack order: the packs found first contribute first. */
  lemma {:induction false} FlattenAppend<M, K, T>(a: seq<Pack<M, K, T>>, b: seq<Pack<M, K, T>>)
    ensures Flatten(a + b) == Flatten(a) + Flatten(b)
    decreases |b|
  {
    if |b| == 0 {
      assert a + b == a;
    } else {
      var init, last := b[..|b| - 1], b[|b| - 1];
      assert (a + b)[..|a + b| - 1] == a + init;
      assert (a + b)[|a + b| - 1] == last;
      assert b[..|b| - 1] == init;
      FlattenAppend(a, init);
      var tail := ScriptTransformers(last.scripts);
      calc {
        Flatten(a + b);
        Flatten(a + init) + tail;
        (Flatten(a) + Flatten(init)) + tail;
        Flatten(a) + (Flatten(init) + tail);
        Flatten(a) + Flatten(b);
      }
    }
  }

  /** Within a pack, scripts contribute in order. */
  lemma {:induction false} ScriptTransformersAppend<K, T>(a: seq<Script<K, T>>, b: seq<Script<K, T>>)
    ensures ScriptTransformers(a + b) == ScriptTransformers(a) + ScriptTransformers(b)
    decreases |b|
  {
    if |b| == 0 {
      assert a + b == a;
    } else {
      assert (a + b)[..|a + b| - 1] == a + b[..|b| - 1];
      ScriptTransformersAppend(a, b[..|b| - 1]);
    }
  }

  /** Every transformer of every script shows up in its pack's list. */
  lemma {:induction false} ScriptTransformersMember<K, T>(scripts: seq<Script<K, T>>, j: nat, m: nat)
    requires j < |scripts| && m < |scripts[j].transformers|
    ensures scripts[j].transformers[m] in ScriptTransformers(scripts)
    decreases |scripts|
  {
    var n := |scripts| - 1;
    if j < n {
      assert scripts[..n][j] == scripts[j];
      ScriptTransformersMember(scripts[..n], j, m);
    }
  }

  /** Nothing is lost when flattening: every script's transformers are in the flattened list. */
  lemma {:induction false} FlattenMember<M, K, T>(packs: seq<Pack<M, K, T>>, i: nat, j: nat, m: nat)
    requires i < |packs| && j < |packs[i].scripts| && m < |packs[i].scripts[j].transformers|
    ensures packs[i].scripts[j].transformers[m] in Flatten(packs)
    decreases |packs|
  {
    var n := |packs| - 1;
    if i < n {
      assert packs[..n][i] == packs[i];
      FlattenMember(packs[..n], i, j, m);
    } else {
      ScriptTransformersMember(packs[i].scripts, j, m);
    }
  }
}
