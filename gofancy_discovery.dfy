/**
 * `KoremodsDiscoverer` of the wtf.gofancy tree: finds script packs on the given paths, reads their
 * scripts, evaluates them and keeps the evaluated packs.
 */
module GofancyDiscovery {
  import opened Wrappers
  import opened Paths
  import opened Discovery

  /** The parsed `koremods.conf`: the pack's namespace and its script paths. */
  datatype ModConfig = ModConfig(namespace: string, scripts: seq<string>)

  datatype RawScript = RawScript(identifier: Identifier, source: string)

  /** A located pack: the file or directory it came from and its readable scripts. */
  datatype SourcePack = SourcePack(file: Path, scripts: seq<RawScript>)

  /** One configured path: dropped for a bad name or when the locator finds nothing. */
  function LocateScript(namespace: string, locator: map<string, seq<string>>, path: string): (r: Option<RawScript>)
    ensures r.Some? <==> ScriptName(path).Some? && path in locator
    ensures r.Some? ==> r.value == RawScript(Identifier(namespace, ScriptName(path).value), JoinLines(locator[path]))
  {
    match ScriptName(path)
    case None => None
    case Some(name) =>
      if path in locator then Some(RawScript(Identifier(namespace, name), JoinLines(locator[path]))) else None
  }

  /** `locateScripts`: the surviving scripts, in configuration order. */
  function LocateScripts(namespace: string, locator: map<string, seq<string>>, paths: seq<string>): (r: seq<RawScript>)
    ensures |r| <= |paths|
    ensures forall i :: 0 <= i < |r| ==> r[i].identifier.namespace == namespace && MatchesScriptName(r[i].identifier.name)
  {
    if |paths| == 0 then []
    else
      var located := LocateScript(namespace, locator, paths[|paths| - 1]);
      LocateScripts(namespace, locator, paths[..|paths| - 1]) + (if located.Some? then [located.value] else [])
  }

  /** When every configured path is a readable, well-named script, all of them are kept, in order. */
  lemma LocateScriptsKeepsAll(namespace: string, locator: map<string, seq<string>>, paths: seq<string>)
    requires forall i :: 0 <= i < |paths| ==> LocateScript(namespace, locator, paths[i]).Some?
    ensures var r := LocateScripts(namespace, locator, paths);
      |r| == |paths| && forall i :: 0 <= i < |paths| ==> r[i] == LocateScript(namespace, locator, paths[i]).value
  {
    LocateScriptsLength(namespace, locator, paths);
    forall i | 0 <= i < |paths|
      ensures LocateScripts(namespace, locator, paths)[i] == LocateScript(namespace, locator, paths[i]).value
    {
      LocateScriptsAt(namespace, locator, paths, i);
    }
  }

  lemma {:induction false} LocateScriptsLength(namespace: string, locator: map<string, seq<string>>, paths: seq<string>)
    requires forall i :: 0 <= i < |paths| ==> LocateScript(namespace, locator, paths[i]).Some?
    ensures |LocateScripts(namespace, locator, paths)| == |paths|
    decreases |paths|
  {
    if |paths| > 0 {
      var n := |paths| - 1;
      var prefix := paths[..n];
      forall i | 0 <= i < n
        ensures LocateScript(namespace, locator, prefix[i]).Some?
      {
        assert prefix[i] == paths[i];
      }
      LocateScriptsLength(namespace, locator, prefix);
    }
  }

  lemma {:induction false} LocateScriptsAt(namespace: string, locator: map<string, seq<string>>, paths: seq<string>, i: nat)
    requires forall k :: 0 <= k < |paths| ==> LocateScript(namespace, locator, paths[k]).Some?
    requires i < |paths|
    ensures |LocateScripts(namespace, locator, paths)| == |paths|
    ensures LocateScripts(namespace, locator, paths)[i] == LocateScript(namespace, locator, paths[i]).value
    decreases |paths|
  {
    var n := |paths| - 1;
    var prefix := paths[..n];
    forall k | 0 <= k < n
      ensures LocateScript(namespace, locator, prefix[k]).Some?
    {
      assert prefix[k] == paths[k];
    }
    LocateScriptsLength(namespace, locator, prefix);
    LocateScriptsLength(namespace, locator, paths);
    if i < n {
      LocateScriptsAt(namespace, locator, prefix, i);
      assert prefix[i] == paths[i];
    }
  }

  /** `readConfig`: no pack for a configuration without scripts or whose scripts all drop out. */
  function ReadConfig(file: Path, config: ModConfig, locator: map<string, seq<string>>): (r: Option<SourcePack>)
    ensures r.Some? <==> |LocateScripts(config.namespace, locator, config.scripts)| > 0
    ensures r.Some? ==> r.value == SourcePack(file, LocateScripts(config.namespace, locator, config.scripts))
  {
    if |config.scripts| == 0 then None
    else
      var scripts := LocateScripts(config.namespace, locator, config.scripts);
      if |scripts| == 0 then None else Some(SourcePack(file, scripts))
  }

  /**
   * A directory whose scan message dereferences a missing ancestor: the message names the
   * directory relative to its third parent, and a directory with fewer than three elements has
   * none, so building the message throws.
   */
  predicate ScanThrows(p: PathInfo<ModConfig>) {
    p.isDirectory && |p.path| < 3
  }

  /**
   * One scanned path: a directory or a .jar/.zip archive holding the configuration file. The
   * error is the directory whose scan message threw.
   */
  function ScanPath(p: PathInfo<ModConfig>): (r: Result<Option<SourcePack>, Path>)
    ensures r.Err? <==> ScanThrows(p)
    ensures r.Err? ==> r.error == p.path
    ensures r.Ok? && r.value.Some? ==>
      (p.isDirectory || IsArchive(p)) && p.config.Some? && r.value == ReadConfig(p.path, p.config.value, p.files)
    ensures !ScanThrows(p) && (p.isDirectory || IsArchive(p)) && p.config.Some? ==>
      r == Ok(ReadConfig(p.path, p.config.value, p.files))
  {
    if p.isDirectory then
      if |p.path| < 3 then Err(p.path)
      else if p.config.Some? then Ok(ReadConfig(p.path, p.config.value, p.files)) else Ok(None)
    else if IsArchive(p) then
      if p.config.Some? then Ok(ReadConfig(p.path, p.config.value, p.files)) else Ok(None)
    else Ok(None)
  }

  /**
   * `scanPaths`: the packs of the given paths, in path order, every one with a script; the
   * first throwing directory aborts the scan.
   */
  function ScanPaths(paths: seq<PathInfo<ModConfig>>): (r: Result<seq<SourcePack>, Path>)
    ensures r.Ok? <==> forall i :: 0 <= i < |paths| ==> !ScanThrows(paths[i])
    ensures r.Ok? ==> |r.value| <= |paths| && forall i :: 0 <= i < |r.value| ==> |r.value[i].scripts| > 0
    ensures r.Err? ==> exists i :: 0 <= i < |paths| && ScanThrows(paths[i]) && r.error == paths[i].path
  {
    if |paths| == 0 then Ok([])
    else
      var n := |paths| - 1;
      assert forall i :: 0 <= i < n ==> paths[..n][i] == paths[i];
      var before := ScanPaths(paths[..n]);
      if before.Err? then Err(before.error)
      else
        match ScanPath(paths[n])
        case Err(dir) => Err(dir)
        case Ok(pack) => Ok(before.value + (if pack.Some? then [pack.value] else []))
  }

  /** The first directory that throws, in path order, is the one reported. */
  lemma {:induction false} ScanPathsFailsAtFirst(paths: seq<PathInfo<ModConfig>>, i: nat)
    requires i < |paths| && ScanThrows(paths[i])
    requires forall k :: 0 <= k < i ==> !ScanThrows(paths[k])
    ensures ScanPaths(paths) == Err(paths[i].path)
    decreases |paths|
  {
    var n := |paths| - 1;
    if i < n {
      assert paths[..n][i] == paths[i];
      forall k | 0 <= k < i ensures !ScanThrows(paths[..n][k]) {
        assert paths[..n][k] == paths[k];
      }
      ScanPathsFailsAtFirst(paths[..n], i);
    } else {
      forall k | 0 <= k < n ensures !ScanThrows(paths[..n][k]) {
        assert paths[..n][k] == paths[k];
      }
    }
  }

  /** Paths holding no configuration yield no pack. */
  lemma {:induction false} ScanPathsWithoutConfigs(paths: seq<PathInfo<ModConfig>>)
    requires forall i :: 0 <= i < |paths| ==> paths[i].config.None?
    ensures ScanPaths(paths).Ok? ==> ScanPaths(paths).value == []
    decreases |paths|
  {
    if |paths| > 0 {
      var n := |paths| - 1;
      assert forall i :: 0 <= i < n ==> paths[..n][i] == paths[i];
      ScanPathsWithoutConfigs(paths[..n]);
    }
  }

  function ScriptCount(packs: seq<SourcePack>): nat {
    if |packs| == 0 then 0 else ScriptCount(packs[..|packs| - 1]) + |packs[|packs| - 1].scripts|
  }

  /** The thread pool is sized by the script count, which is positive whenever a pack was found. */
  lemma {:induction false} ScriptCountPositive(packs: seq<SourcePack>)
    requires |packs| > 0 && forall i :: 0 <= i < |packs| ==> |packs[i].scripts| > 0
    ensures ScriptCount(packs) > 0
  {
    assert |packs[|packs| - 1].scripts| > 0;
  }

  /** `KoremodScriptPack` records nothing but its scripts. */
  type ScriptPack<T> = Pack<(), Identifier, T>

  /**
   * Evaluation of one script from its pack file: the handler's transformers, or the failure
   * `evalTransformers` throws.
   */
  type Evaluator<T, E> = (Identifier, string, Path) -> Result<seq<T>, E>

  /** The futures submitted for one pack's scripts, in script order. */
  function Futures<T, E>(file: Path, scripts: seq<RawScript>, eval: Evaluator<T, E>): (r: seq<(Identifier, Result<seq<T>, E>)>)
    ensures |r| == |scripts|
    ensures forall j :: 0 <= j < |scripts| ==> r[j] == (scripts[j].identifier, eval(scripts[j].identifier, scripts[j].source, file))
  {
    seq(|scripts|, j requires 0 <= j < |scripts| => (scripts[j].identifier, eval(scripts[j].identifier, scripts[j].source, file)))
  }

  /** One pack's scripts after `future.get()`: all of them evaluated, or the first failure. */
  function EvalScripts<T, E>(file: Path, scripts: seq<RawScript>, eval: Evaluator<T, E>): (r: Result<seq<Script<Identifier, T>>, E>)
    ensures r.Ok? <==> forall j :: 0 <= j < |scripts| ==> eval(scripts[j].identifier, scripts[j].source, file).Ok?
    ensures r.Ok? ==>
      |r.value| == |scripts| &&
      forall j :: 0 <= j < |scripts| ==> r.value[j] == Script(scripts[j].identifier, eval(scripts[j].identifier, scripts[j].source, file).value)
  {
    GetAll(Futures(file, scripts, eval))
  }

  function PackFutures<T, E>(packs: seq<SourcePack>, eval: Evaluator<T, E>): (r: seq<((), seq<(Identifier, Result<seq<T>, E>)>)>)
    ensures |r| == |packs|
    ensures forall i :: 0 <= i < |packs| ==> r[i] == ((), Futures(packs[i].file, packs[i].scripts, eval))
  {
    seq(|packs|, i requires 0 <= i < |packs| => ((), Futures(packs[i].file, packs[i].scripts, eval)))
  }

  /**
   * `evalScripts`: one evaluated pack per source pack, keeping pack and script order, or the
   * failure of the first script, pack by pack, whose evaluation failed.
   */
  function EvalPacks<T, E>(packs: seq<SourcePack>, eval: Evaluator<T, E>): (r: Result<seq<ScriptPack<T>>, E>)
    ensures r.Ok? <==> forall i :: 0 <= i < |packs| ==> EvalScripts(packs[i].file, packs[i].scripts, eval).Ok?
    ensures r.Ok? ==>
      |r.value| == |packs| &&
      forall i :: 0 <= i < |packs| ==> r.value[i] == Pack((), EvalScripts(packs[i].file, packs[i].scripts, eval).value)
  {
    GetPacks(PackFutures(packs, eval))
  }

  /**
   * An evaluation failure is raised for the first failed script in pack and script order: every
   * earlier pack evaluated, and so did the scripts before it in its own pack.
   */
  lemma EvalPacksFailsAtFirst<T, E>(packs: seq<SourcePack>, eval: Evaluator<T, E>, i: nat, j: nat)
    requires i < |packs| && j < |packs[i].scripts|
    requires var s := packs[i].scripts[j]; eval(s.identifier, s.source, packs[i].file).Err?
    requires forall k :: 0 <= k < j ==>
      var s := packs[i].scripts[k]; eval(s.identifier, s.source, packs[i].file).Ok?
    requires forall k :: 0 <= k < i ==> EvalScripts(packs[k].file, packs[k].scripts, eval).Ok?
    ensures var s := packs[i].scripts[j];
      EvalPacks(packs, eval) == Err(eval(s.identifier, s.source, packs[i].file).error)
  {
    var futures := PackFutures(packs, eval);
    GetAllFailsAtFirst(futures[i].1, j);
    GetPacksFailsAtFirst(futures, i);
  }

  /** The `transformers` value a discovery over `paths` stores, or what aborts it. */
  function Discover<T, E>(paths: seq<PathInfo<ModConfig>>, eval: Evaluator<T, E>): (r: Result<seq<ScriptPack<T>>, DiscoveryError<E>>)
    ensures ScanPaths(paths).Err? ==> r == Err(NullPointerException(ScanPaths(paths).error))
    ensures ScanPaths(paths).Ok? && ScanPaths(paths).value == [] ==> r == Ok([])
    ensures ScanPaths(paths).Ok? && ScanPaths(paths).value != [] ==>
      var e := EvalPacks(ScanPaths(paths).value, eval);
      (e.Ok? ==> r == Ok(e.value)) && (e.Err? ==> r == Err(ExecutionException(e.error)))
  {
    match ScanPaths(paths)
    case Err(dir) => Err(NullPointerException(dir))
    case Ok(modScripts) =>
      if |modScripts| > 0 then
        match EvalPacks(modScripts, eval)
        case Err(e) => Err(ExecutionException(e))
        case Ok(packs) => Ok(packs)
      else Ok([])
  }

  /** One evaluated pack per found pack, each with one script per readable configured script. */
  lemma DiscoverShape<T, E>(paths: seq<PathInfo<ModConfig>>, eval: Evaluator<T, E>)
    requires Discover(paths, eval).Ok?
    ensures var packs := Discover(paths, eval).value;
      ScanPaths(paths).Ok? && |packs| == |ScanPaths(paths).value| &&
      forall i :: 0 <= i < |packs| ==> |packs[i].scripts| == |ScanPaths(paths).value[i].scripts| > 0
  {
  }

  /** A directory with fewer than three elements, reached before any other throwing one, aborts the discovery. */
  lemma ShallowDirectoryAborts<T, E>(paths: seq<PathInfo<ModConfig>>, eval: Evaluator<T, E>, i: nat)
    requires i < |paths| && paths[i].isDirectory && |paths[i].path| < 3
    requires forall k :: 0 <= k < i ==> !ScanThrows(paths[k])
    ensures Discover(paths, eval) == Err(NullPointerException(paths[i].path))
  {
    ScanPathsFailsAtFirst(paths, i);
  }

  /** The discoverer object: `transformers` is a late-initialised property. */
  class KoremodsDiscoverer<T> {
    var transformers: Option<seq<ScriptPack<T>>>

    constructor()
      ensures transformers == None
    {
      transformers := None;
    }

    /** `isInitialized()` */
    predicate IsInitialized()
      reads this
    {
      transformers.Some?
    }

    /**
     * `discoverKoremods(paths)`: the packs are stored when discovery succeeds; when it throws,
     * the exception is returned and the property keeps its old value.
     */
    method DiscoverKoremods<E>(paths: seq<PathInfo<ModConfig>>, eval: Evaluator<T, E>) returns (r: Result<(), DiscoveryError<E>>)
      modifies this
      ensures var d := Discover(paths, eval);
        (d.Ok? ==> r.Ok? && transformers == Some(d.value)) &&
        (d.Err? ==> r == Err(d.error) && transformers == old(transformers))
    {
      var modScripts := ScanPaths(paths);
      if modScripts.Err? {
        return Err(NullPointerException(modScripts.error));
      }
      if |modScripts.value| > 0 {
        ScriptCountPositive(modScripts.value);
        var packs := EvalPacks(modScripts.value, eval);
        if packs.Err? {
          return Err(ExecutionException(packs.error));
        }
        transformers := Some(packs.value);
      } else {
        transformers := Some([]);
      }
      return Ok(());
    }

    /** `discoverKoremods(dir, classpath)`: the walked files of `dir`, then the file-scheme classpath. */
    method DiscoverKoremodsIn<E>(dir: Path, walked: seq<PathInfo<ModConfig>>, classpath: seq<ClasspathUrl<ModConfig>>, eval: Evaluator<T, E>)
      returns (r: Result<(), DiscoveryError<E>>)
      modifies this
      ensures var d := Discover(ScannedPaths(dir, walked, classpath), eval);
        (d.Ok? ==> r.Ok? && transformers == Some(d.value)) &&
        (d.Err? ==> r == Err(d.error) && transformers == old(transformers))
    {
      r := DiscoverKoremods(ScannedPaths(dir, walked, classpath), eval);
    }

    /** `getFlatTransformers()`; reading the property before discovery fails, modelled as None. */
    function FlatTransformers(): (r: Option<seq<T>>)
      reads this
      ensures r.Some? <==> IsInitialized()
      ensures r.Some? ==> r.value == Flatten(transformers.value)
    {
      if transformers.Some? then Some(Flatten(transformers.value)) else None
    }
  }
}
