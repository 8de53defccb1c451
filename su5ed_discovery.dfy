/**
 * `KoremodsDiscoverer` of the dev.su5ed tree (ScriptDiscovery.kt): every found configuration
 * becomes a pack, even one whose scripts all drop out, and evaluation runs only when some script
 * was located.
 */
module Su5edDiscovery {
  import opened Wrappers
  import opened Paths
  import opened Discovery

  /** The parsed `koremods.conf`: the mod id and its script paths. */
  datatype ModConfig = ModConfig(modid: string, scripts: seq<string>)

  datatype RawScript = RawScript(name: string, source: string)

  datatype SourcePack = SourcePack(modid: string, file: Path, scripts: seq<RawScript>)

  /** One configured path: dropped for a bad name or when the locator finds nothing. */
  function LocateScript(locator: map<string, seq<string>>, path: string): (r: Option<RawScript>)
    ensures r.Some? <==> ScriptName(path).Some? && path in locator
    ensures r.Some? ==> r.value == RawScript(ScriptName(path).value, JoinLines(locator[path]))
  {
    match ScriptName(path)
    case None => None
    case Some(name) => if path in locator then Some(RawScript(name, JoinLines(locator[path]))) else None
  }

  /** `locateScripts`: the surviving scripts, in configuration order. */
  function LocateScripts(locator: map<string, seq<string>>, paths: seq<string>): (r: seq<RawScript>)
    ensures |r| <= |paths|
    ensures forall i :: 0 <= i < |r| ==> MatchesScriptName(r[i].name)
  {
    if |paths| == 0 then []
    else
      var located := LocateScript(locator, paths[|paths| - 1]);
      LocateScripts(locator, paths[..|paths| - 1]) + (if located.Some? then [located.value] else [])
  }

  /** `readConfig`: always a pack, possibly without scripts. */
  function ReadConfig(file: Path, config: ModConfig, locator: map<string, seq<string>>): (r: SourcePack)
    ensures r.modid == config.modid && r.file == file && |r.scripts| <= |config.scripts|
  {
    SourcePack(config.modid, file, LocateScripts(locator, config.scripts))
  }

  /** A path that holds a configuration: a directory, or a .jar/.zip archive. */
  predicate Configured(p: PathInfo<ModConfig>) {
    (p.isDirectory || IsArchive(p)) && p.config.Some?
  }

  function ReadAll(paths: seq<PathInfo<ModConfig>>): (r: seq<SourcePack>)
    requires forall i :: 0 <= i < |paths| ==> paths[i].config.Some?
    ensures |r| == |paths|
    ensures forall i :: 0 <= i < |paths| ==> r[i] == ReadConfig(paths[i].path, paths[i].config.value, paths[i].files)
  {
    seq(|paths|, i requires 0 <= i < |paths| => ReadConfig(paths[i].path, paths[i].config.value, paths[i].files))
  }

  /** The packs `scanPaths` collects: one per configured path, in path order. */
  function ScannedPacks(paths: seq<PathInfo<ModConfig>>): (r: seq<SourcePack>)
  {
    ReadAll(Filter(paths, Configured))
  }

  /** One more path adds its pack exactly when it is configured. */
  lemma ScanStep(paths: seq<PathInfo<ModConfig>>, i: nat)
    requires i < |paths|
    ensures ReadAll(Filter(paths[..i + 1], Configured)) ==
      ReadAll(Filter(paths[..i], Configured)) +
      (if Configured(paths[i]) then [ReadConfig(paths[i].path, paths[i].config.value, paths[i].files)] else [])
  {
    FilterSnoc(paths, i, Configured);
    var before := Filter(paths[..i], Configured);
    if Configured(paths[i]) {
      ReadAllSnoc(before, paths[i]);
    } else {
      assert before + [] == before;
    }
  }

  lemma ReadAllSnoc(before: seq<PathInfo<ModConfig>>, p: PathInfo<ModConfig>)
    requires forall i :: 0 <= i < |before| ==> before[i].config.Some?
    requires p.config.Some?
    ensures ReadAll(before + [p]) == ReadAll(before) + [ReadConfig(p.path, p.config.value, p.files)]
  {
    var l, r := ReadAll(before + [p]), ReadAll(before) + [ReadConfig(p.path, p.config.value, p.files)];
    forall j | 0 <= j < |l| ensures l[j] == r[j] {
      if j < |before| {
        assert (before + [p])[j] == before[j];
      }
    }
  }

  /** The body of `scanPaths` for one path: a directory or an archive with a configuration yields its pack. */
  method ScanPath(p: PathInfo<ModConfig>) returns (pack: Option<SourcePack>)
    ensures pack.Some? <==> Configured(p)
    ensures pack.Some? ==> pack.value == ReadConfig(p.path, p.config.value, p.files)
  {
    pack := None;
    if p.isDirectory {
      if p.config.Some? {
        pack := Some(ReadConfig(p.path, p.config.value, p.files));
      }
    } else if IsArchive(p) {
      if p.config.Some? {
        pack := Some(ReadConfig(p.path, p.config.value, p.files));
      }
    }
  }

  /** `scanPaths`: a loop that appends the pack of every configured path to a mutable list. */
  method ScanPaths(paths: seq<PathInfo<ModConfig>>) returns (scriptPacks: seq<SourcePack>)
    ensures scriptPacks == ScannedPacks(paths)
  {
    scriptPacks := [];
    var i := 0;
    while i < |paths|
      invariant 0 <= i <= |paths|
      invariant scriptPacks == ReadAll(Filter(paths[..i], Configured))
    {
      var pack := ScanPath(paths[i]);
      ScanStep(paths, i);
      if pack.Some? {
        scriptPacks := scriptPacks + [pack.value];
      }
      i := i + 1;
    }
    assert paths[..i] == paths;
  }

  /** Every configured path yields exactly one pack, even when none of its scripts survive. */
  lemma EveryConfigYieldsPack(paths: seq<PathInfo<ModConfig>>)
    ensures |ScannedPacks(paths)| == |Filter(paths, Configured)|
    ensures forall i :: 0 <= i < |paths| && Configured(paths[i]) ==>
      ReadConfig(paths[i].path, paths[i].config.value, paths[i].files) in ScannedPacks(paths)
  {
    var found := Filter(paths, Configured);
    forall i | 0 <= i < |paths| && Configured(paths[i])
      ensures ReadConfig(paths[i].path, paths[i].config.value, paths[i].files) in ScannedPacks(paths)
    {
      var j :| 0 <= j < |found| && found[j] == paths[i];
      assert ScannedPacks(paths)[j] == ReadConfig(paths[i].path, paths[i].config.value, paths[i].files);
    }
  }

  function ScriptCount(packs: seq<SourcePack>): nat {
    if |packs| == 0 then 0 else ScriptCount(packs[..|packs| - 1]) + |packs[|packs| - 1].scripts|
  }

  type ScriptPack<T> = Pack<string, string, T>

  /**
   * Evaluation of one script (mod id, pack file, name, source) to its handler's transformers, or
   * the failure the evaluation throws.
   */
  type Evaluator<T, E> = (string, Path, string, string) -> Result<seq<T>, E>

  /** The futures submitted for one pack's scripts, in script order. */
  function Futures<T, E>(pack: SourcePack, scripts: seq<RawScript>, eval: Evaluator<T, E>): (r: seq<(string, Result<seq<T>, E>)>)
    ensures |r| == |scripts|
    ensures forall j :: 0 <= j < |scripts| ==> r[j] == (scripts[j].name, eval(pack.modid, pack.file, scripts[j].name, scripts[j].source))
  {
    seq(|scripts|, j requires 0 <= j < |scripts| => (scripts[j].name, eval(pack.modid, pack.file, scripts[j].name, scripts[j].source)))
  }

  /** One pack's scripts after `future.get()`: all of them evaluated, or the first failure. */
  function EvalScripts<T, E>(pack: SourcePack, scripts: seq<RawScript>, eval: Evaluator<T, E>): (r: Result<seq<Script<string, T>>, E>)
    ensures r.Ok? <==> forall j :: 0 <= j < |scripts| ==> eval(pack.modid, pack.file, scripts[j].name, scripts[j].source).Ok?
    ensures r.Ok? ==>
      |r.value| == |scripts| &&
      forall j :: 0 <= j < |scripts| ==> r.value[j] == Script(scripts[j].name, eval(pack.modid, pack.file, scripts[j].name, scripts[j].source).value)
  {
    GetAll(Futures(pack, scripts, eval))
  }

  function PackFutures<T, E>(packs: seq<SourcePack>, eval: Evaluator<T, E>): (r: seq<(string, seq<(string, Result<seq<T>, E>)>)>)
    ensures |r| == |packs|
    ensures forall i :: 0 <= i < |packs| ==> r[i] == (packs[i].modid, Futures(packs[i], packs[i].scripts, eval))
  {
    seq(|packs|, i requires 0 <= i < |packs| => (packs[i].modid, Futures(packs[i], packs[i].scripts, eval)))
  }

  /**
   * `evalScripts`: one evaluated pack per source pack, with its mod id, in order, or the failure
   * of the first script, pack by pack, whose evaluation failed.
   */
  function EvalPacks<T, E>(packs: seq<SourcePack>, eval: Evaluator<T, E>): (r: Result<seq<ScriptPack<T>>, E>)
    ensures r.Ok? <==> forall i :: 0 <= i < |packs| ==> EvalScripts(packs[i], packs[i].scripts, eval).Ok?
    ensures r.Ok? ==>
      |r.value| == |packs| &&
      forall i :: 0 <= i < |packs| ==> r.value[i] == Pack(packs[i].modid, EvalScripts(packs[i], packs[i].scripts, eval).value)
  {
    GetPacks(PackFutures(packs, eval))
  }

  /**
   * The failure raised is that of the first failed script in pack and script order: every
   * earlier pack evaluated, and so did the scripts before it in its own pack.
   */
  lemma EvalPacksFailsAtFirst<T, E>(packs: seq<SourcePack>, eval: Evaluator<T, E>, i: nat, j: nat)
    requires i < |packs| && j < |packs[i].scripts|
    requires var s := packs[i].scripts[j]; eval(packs[i].modid, packs[i].file, s.name, s.source).Err?
    requires forall k :: 0 <= k < j ==>
      var s := packs[i].scripts[k]; eval(packs[i].modid, packs[i].file, s.name, s.source).Ok?
    requires forall k :: 0 <= k < i ==> EvalScripts(packs[k], packs[k].scripts, eval).Ok?
    ensures var s := packs[i].scripts[j];
      EvalPacks(packs, eval) == Err(eval(packs[i].modid, packs[i].file, s.name, s.source).error)
  {
    var futures := PackFutures(packs, eval);
    GetAllFailsAtFirst(futures[i].1, j);
    GetPacksFailsAtFirst(futures, i);
  }

  /** The `transformers` value a discovery over `paths` stores, or the failure that aborts it. */
  function Discover<T, E>(paths: seq<PathInfo<ModConfig>>, eval: Evaluator<T, E>): (r: Result<seq<ScriptPack<T>>, DiscoveryError<E>>)
    ensures ScriptCount(ScannedPacks(paths)) == 0 ==> r == Ok([])
    ensures ScriptCount(ScannedPacks(paths)) > 0 ==>
      var e := EvalPacks(ScannedPacks(paths), eval);
      (e.Ok? ==> r == Ok(e.value)) && (e.Err? ==> r == Err(ExecutionException(e.error)))
  {
    var modScripts := ScannedPacks(paths);
    if ScriptCount(modScripts) > 0 then
      match EvalPacks(modScripts, eval)
      case Err(e) => Err(ExecutionException(e))
      case Ok(packs) => Ok(packs)
    else Ok([])
  }

  /** A positive script count needs at least one pack. */
  lemma {:induction false} ScriptCountNeedsPack(packs: seq<SourcePack>)
    ensures ScriptCount(packs) > 0 ==> |packs| > 0
  {
  }

  /** A successful discovery stores nothing exactly when no script at all was located. */
  lemma DiscoverEmptyIff<T, E>(paths: seq<PathInfo<ModConfig>>, eval: Evaluator<T, E>)
    requires Discover(paths, eval).Ok?
    ensures Discover(paths, eval).value == [] <==> ScriptCount(ScannedPacks(paths)) == 0
  {
    var packs := ScannedPacks(paths);
    if ScriptCount(packs) > 0 {
      ScriptCountNeedsPack(packs);
      assert |EvalPacks(packs, eval).value| == |packs| > 0;
    }
  }

  /** Discovery over located scripts fails exactly when some script's evaluation fails. */
  lemma DiscoverFailsIff<T, E>(paths: seq<PathInfo<ModConfig>>, eval: Evaluator<T, E>)
    ensures Discover(paths, eval).Err? <==>
      ScriptCount(ScannedPacks(paths)) > 0 &&
      exists i, j :: 0 <= i < |ScannedPacks(paths)| && 0 <= j < |ScannedPacks(paths)[i].scripts| &&
        var p := ScannedPacks(paths)[i]; eval(p.modid, p.file, p.scripts[j].name, p.scripts[j].source).Err?
  {
  }

  class KoremodsDiscoverer<T> {
    var transformers: Option<seq<ScriptPack<T>>>

    constructor()
      ensures transformers == None
    {
      transformers := None;
    }

    predicate IsInitialized()
      reads this
    {
      transformers.Some?
    }

    /**
     * `discoverKoremods(paths)`: the thread count is the script count, positive when evaluating.
     * The packs are stored when discovery succeeds; when a script's evaluation throws, the
     * exception is returned and the property keeps its old value.
     */
    method DiscoverKoremods<E>(paths: seq<PathInfo<ModConfig>>, eval: Evaluator<T, E>) returns (r: Result<(), DiscoveryError<E>>)
      modifies this
      ensures var d := Discover(paths, eval);
        (d.Ok? ==> r.Ok? && transformers == Some(d.value)) &&
        (d.Err? ==> r == Err(d.error) && transformers == old(transformers))
    {
      var modScripts := ScanPaths(paths);
      var sum := ScriptCount(modScripts);
      if sum > 0 {
        var packs := EvalPacks(modScripts, eval);
        if packs.Err? {
          return Err(ExecutionException(packs.error));
        }
        transformers := Some(packs.value);
      } else {
        transformers := Some([]);
      }
      return Ok(());
    }

    /** `discoverKoremods(dir, classpath)` */
    method DiscoverKoremodsIn<E>(dir: Path, walked: seq<PathInfo<ModConfig>>, classpath: seq<ClasspathUrl<ModConfig>>, eval: Evaluator<T, E>)
      returns (r: Result<(), DiscoveryError<E>>)
      modifies this
      ensures var d := Discover(ScannedPaths(dir, walked, classpath), eval);
        (d.Ok? ==> r.Ok? && transformers == Some(d.value)) &&
        (d.Err? ==> r == Err(d.error) && transformers == old(transformers))
    {
      r := DiscoverKoremods(ScannedPaths(dir, walked, classpath), eval);
    }

    /** `getFlatTransformers()`; reading the property before discovery fails, modelled as None. */
    function FlatTransformers(): (r: Option<seq<T>>)
      reads this
      ensures r.Some? <==> IsInitialized()
      ensures r.Some? ==> r.value == Flatten(transformers.value)
    {
      if transformers.Some? then Some(Flatten(transformers.value)) else None
    }
  }
}

/**
 * `KoremodDiscoverer` (KoremodDiscovery.kt), the older dev.su5ed discoverer: scripts are configured
 * as a name-to-path table and directories in the scanned folder are kept.
 */
module KoremodDiscovery {
  import opened Wrappers
  import opened Paths
  import opened Discovery

  /** The parsed configuration; the script table as its entries in configuration order. */
  datatype ModConfig = ModConfig(modid: string, scripts: seq<(string, string)>)

  datatype RawScript = RawScript(name: string, source: string)

  datatype SourcePack = SourcePack(modid: string, file: Path, scripts: seq<RawScript>)

  /** `locateScripts`: each entry the locator finds becomes a script named by its key. */
  function LocateScripts(locator: map<string, seq<string>>, scripts: seq<(string, string)>): (r: seq<RawScript>)
    ensures |r| <= |scripts|
  {
    if |scripts| == 0 then []
    else
      var (name, path) := scripts[|scripts| - 1];
      LocateScripts(locator, scripts[..|scripts| - 1]) + (if path in locator then [RawScript(name, JoinLines(locator[path]))] else [])
  }

  /** Entries are kept exactly when the locator finds their path, with their configured names. */
  lemma {:induction false} LocateScriptsKeeps(locator: map<string, seq<string>>, scripts: seq<(string, string)>)
    ensures forall s :: s in LocateScripts(locator, scripts) ==>
      exists i :: 0 <= i < |scripts| && scripts[i].1 in locator && s == RawScript(scripts[i].0, JoinLines(locator[scripts[i].1]))
    ensures (forall i :: 0 <= i < |scripts| ==> scripts[i].1 in locator) ==> |LocateScripts(locator, scripts)| == |scripts|
    decreases |scripts|
  {
    if |scripts| > 0 {
      var n := |scripts| - 1;
      LocateScriptsKeeps(locator, scripts[..n]);
      forall s | s in LocateScripts(locator, scripts)
        ensures exists i :: 0 <= i < |scripts| && scripts[i].1 in locator && s == RawScript(scripts[i].0, JoinLines(locator[scripts[i].1]))
      {
        if s in LocateScripts(locator, scripts[..n]) {
          var i :| 0 <= i < n && scripts[..n][i].1 in locator && s == RawScript(scripts[..n][i].0, JoinLines(locator[scripts[..n][i].1]));
          assert scripts[i] == scripts[..n][i];
        }
      }
      if forall i :: 0 <= i < |scripts| ==> scripts[i].1 in locator {
        assert forall i :: 0 <= i < n ==> scripts[..n][i] == scripts[i];
      }
    }
  }

  function ReadConfig(file: Path, config: ModConfig, locator: map<string, seq<string>>): (r: SourcePack)
    ensures r.modid == config.modid && r.file == file && |r.scripts| <= |config.scripts|
  {
    SourcePack(config.modid, file, LocateScripts(locator, config.scripts))
  }

  predicate Configured(p: PathInfo<ModConfig>) {
    (p.isDirectory || IsArchive(p)) && p.config.Some?
  }

  function ReadAll(paths: seq<PathInfo<ModConfig>>): (r: seq<SourcePack>)
    requires forall i :: 0 <= i < |paths| ==> paths[i].config.Some?
    ensures |r| == |paths|
    ensures forall i :: 0 <= i < |paths| ==> r[i] == ReadConfig(paths[i].path, paths[i].config.value, paths[i].files)
  {
    seq(|paths|, i requires 0 <= i < |paths| => ReadConfig(paths[i].path, paths[i].config.value, paths[i].files))
  }

  function ScannedPacks(paths: seq<PathInfo<ModConfig>>): seq<SourcePack> {
    ReadAll(Filter(paths, Configured))
  }

  /** One more path adds its pack exactly when it is configured. */
  lemma ScanStep(paths: seq<PathInfo<ModConfig>>, i: nat)
    requires i < |paths|
    ensures ReadAll(Filter(paths[..i + 1], Configured)) ==
      ReadAll(Filter(paths[..i], Configured)) +
      (if Configured(paths[i]) then [ReadConfig(paths[i].path, paths[i].config.value, paths[i].files)] else [])
  {
    FilterSnoc(paths, i, Configured);
    var before := Filter(paths[..i], Configured);
    if Configured(paths[i]) {
      ReadAllSnoc(before, paths[i]);
    } else {
      assert before + [] == before;
    }
  }

  lemma ReadAllSnoc(before: seq<PathInfo<ModConfig>>, p: PathInfo<ModConfig>)
    requires forall i :: 0 <= i < |before| ==> before[i].config.Some?
    requires p.config.Some?
    ensures ReadAll(before + [p]) == ReadAll(before) + [ReadConfig(p.path, p.config.value, p.files)]
  {
    var l, r := ReadAll(before + [p]), ReadAll(before) + [ReadConfig(p.path, p.config.value, p.files)];
    forall j | 0 <= j < |l| ensures l[j] == r[j] {
      if j < |before| {
        assert (before + [p])[j] == before[j];
      }
    }
  }

  /** The body of `scanPaths` for one path: a directory or an archive with a configuration yields its pack. */
  method ScanPath(p: PathInfo<ModConfig>) returns (pack: Option<SourcePack>)
    ensures pack.Some? <==> Configured(p)
    ensures pack.Some? ==> pack.value == ReadConfig(p.path, p.config.value, p.files)
  {
    pack := None;
    if p.isDirectory {
      if p.config.Some? {
        pack := Some(ReadConfig(p.path, p.config.value, p.files));
      }
    } else if IsArchive(p) {
      if p.config.Some? {
        pack := Some(ReadConfig(p.path, p.config.value, p.files));
      }
    }
  }

  /** `scanPaths`: appends the pack of every configured path, even an empty one. */
  method ScanPaths(paths: seq<PathInfo<ModConfig>>) returns (scriptPacks: seq<SourcePack>)
    ensures scriptPacks == ScannedPacks(paths)
    ensures |scriptPacks| == |Filter(paths, Configured)|
  {
    scriptPacks := [];
    var i := 0;
    while i < |paths|
      invariant 0 <= i <= |paths|
      invariant scriptPacks == ReadAll(Filter(paths[..i], Configured))
    {
      var pack := ScanPath(paths[i]);
      ScanStep(paths, i);
      if pack.Some? {
        scriptPacks := scriptPacks + [pack.value];
      }
      i := i + 1;
    }
    assert paths[..i] == paths;
  }

  /**
   * The paths scanned for a directory: every entry of its depth-1 walk whose name differs from
   * the directory's, sub-directories included, then the file-scheme classpath entries.
   */
  function ScannedPathsKeepingDirectories(dir: Path, walked: seq<PathInfo<ModConfig>>, classpath: seq<ClasspathUrl<ModConfig>>): (r: seq<PathInfo<ModConfig>>)
    ensures forall i :: 0 <= i < |walked| && Name(walked[i].path) != Name(dir) ==> walked[i] in r
    ensures forall i :: 0 <= i < |classpath| && classpath[i].scheme == "file" ==> classpath[i].target in r
    ensures forall i :: 0 <= i < |r| ==>
      (r[i] in walked && Name(r[i].path) != Name(dir)) || (exists u :: u in classpath && u.scheme == "file" && u.target == r[i])
  {
    Filter(walked, (p: PathInfo<ModConfig>) => Name(p.path) != Name(dir)) + FileClasspath(classpath)
  }

  function ScriptCount(packs: seq<SourcePack>): nat {
    if |packs| == 0 then 0 else ScriptCount(packs[..|packs| - 1]) + |packs[|packs| - 1].scripts|
  }

  type ScriptPack<T> = Pack<string, string, T>

  /**
   * Evaluation of one script (mod id, pack file, name, source) to its handler's transformers, or
   * the failure the evaluation throws.
   */
  type Evaluator<T, E> = (string, Path, string, string) -> Result<seq<T>, E>

  /** The futures submitted for one pack's scripts, in script order. */
  function Futures<T, E>(pack: SourcePack, scripts: seq<RawScript>, eval: Evaluator<T, E>): (r: seq<(string, Result<seq<T>, E>)>)
    ensures |r| == |scripts|
    ensures forall j :: 0 <= j < |scripts| ==> r[j] == (scripts[j].name, eval(pack.modid, pack.file, scripts[j].name, scripts[j].source))
  {
    seq(|scripts|, j requires 0 <= j < |scripts| => (scripts[j].name, eval(pack.modid, pack.file, scripts[j].name, scripts[j].source)))
  }

  /** One pack's scripts after `future.get()`: all of them evaluated, or the first failure. */
  function EvalScripts<T, E>(pack: SourcePack, scripts: seq<RawScript>, eval: Evaluator<T, E>): (r: Result<seq<Script<string, T>>, E>)
    ensures r.Ok? <==> forall j :: 0 <= j < |scripts| ==> eval(pack.modid, pack.file, scripts[j].name, scripts[j].source).Ok?
    ensures r.Ok? ==>
      |r.value| == |scripts| &&
      forall j :: 0 <= j < |scripts| ==> r.value[j] == Script(scripts[j].name, eval(pack.modid, pack.file, scripts[j].name, scripts[j].source).value)
  {
    GetAll(Futures(pack, scripts, eval))
  }

  function PackFutures<T, E>(packs: seq<SourcePack>, eval: Evaluator<T, E>): (r: seq<(string, seq<(string, Result<seq<T>, E>)>)>)
    ensures |r| == |packs|
    ensures forall i :: 0 <= i < |packs| ==> r[i] == (packs[i].modid, Futures(packs[i], packs[i].scripts, eval))
  {
    seq(|packs|, i requires 0 <= i < |packs| => (packs[i].modid, Futures(packs[i], packs[i].scripts, eval)))
  }

  /**
   * `evalScripts`: one evaluated pack per source pack, with its mod id, in order, or the failure
   * of the first script, pack by pack, whose evaluation failed.
   */
  function EvalPacks<T, E>(packs: seq<SourcePack>, eval: Evaluator<T, E>): (r: Result<seq<ScriptPack<T>>, E>)
    ensures r.Ok? <==> forall i :: 0 <= i < |packs| ==> EvalScripts(packs[i], packs[i].scripts, eval).Ok?
    ensures r.Ok? ==>
      |r.value| == |packs| &&
      forall i :: 0 <= i < |packs| ==> r.value[i] == Pack(packs[i].modid, EvalScripts(packs[i], packs[i].scripts, eval).value)
  {
    GetPacks(PackFutures(packs, eval))
  }

  /**
   * The failure raised is that of the first failed script in pack and script order: every
   * earlier pack evaluated, and so did the scripts before it in its own pack.
   */
  lemma EvalPacksFailsAtFirst<T, E>(packs: seq<SourcePack>, eval: Evaluator<T, E>, i: nat, j: nat)
    requires i < |packs| && j < |packs[i].scripts|
    requires var s := packs[i].scripts[j]; eval(packs[i].modid, packs[i].file, s.name, s.source).Err?
    requires forall k :: 0 <= k < j ==>
      var s := packs[i].scripts[k]; eval(packs[i].modid, packs[i].file, s.name, s.source).Ok?
    requires forall k :: 0 <= k < i ==> EvalScripts(packs[k], packs[k].scripts, eval).Ok?
    ensures var s := packs[i].scripts[j];
      EvalPacks(packs, eval) == Err(eval(packs[i].modid, packs[i].file, s.name, s.source).error)
  {
    var futures := PackFutures(packs, eval);
    GetAllFailsAtFirst(futures[i].1, j);
    GetPacksFailsAtFirst(futures, i);
  }

  /** The `transformers` value a discovery over `paths` stores, or the failure that aborts it. */
  function Discover<T, E>(paths: seq<PathInfo<ModConfig>>, eval: Evaluator<T, E>): (r: Result<seq<ScriptPack<T>>, DiscoveryError<E>>)
    ensures ScriptCount(ScannedPacks(paths)) == 0 ==> r == Ok([])
    ensures ScriptCount(ScannedPacks(paths)) > 0 ==>
      var e := EvalPacks(ScannedPacks(paths), eval);
      (e.Ok? ==> r == Ok(e.value)) && (e.Err? ==> r == Err(ExecutionException(e.error)))
  {
    var modScripts := ScannedPacks(paths);
    if ScriptCount(modScripts) > 0 then
      match EvalPacks(modScripts, eval)
      case Err(e) => Err(ExecutionException(e))
      case Ok(packs) => Ok(packs)
    else Ok([])
  }

  /** A successful discovery stores nothing exactly when no script at all was located. */
  lemma DiscoverEmptyIff<T, E>(paths: seq<PathInfo<ModConfig>>, eval: Evaluator<T, E>)
    requires Discover(paths, eval).Ok?
    ensures Discover(paths, eval).value == [] <==> ScriptCount(ScannedPacks(paths)) == 0
  {
    var packs := ScannedPacks(paths);
    if ScriptCount(packs) > 0 {
      assert |EvalPacks(packs, eval).value| == |packs| > 0;
    }
  }

  /** Discovery over located scripts fails exactly when some script's evaluation fails. */
  lemma DiscoverFailsIff<T, E>(paths: seq<PathInfo<ModConfig>>, eval: Evaluator<T, E>)
    ensures Discover(paths, eval).Err? <==>
      ScriptCount(ScannedPacks(paths)) > 0 &&
      exists i, j :: 0 <= i < |ScannedPacks(paths)| && 0 <= j < |ScannedPacks(paths)[i].scripts| &&
        var p := ScannedPacks(paths)[i]; eval(p.modid, p.file, p.scripts[j].name, p.scripts[j].source).Err?
  {
  }

  class KoremodDiscoverer<T> {
    var transformers: Option<seq<ScriptPack<T>>>

    constructor()
      ensures transformers == None
    {
      transformers := None;
    }

    predicate IsInitialized()
      reads this
    {
      transformers.Some?
    }

    /**
     * `discoverKoremods(paths)`: the thread count is the script count, positive when evaluating.
     * The packs are stored when discovery succeeds; when a script's evaluation throws, the
     * exception is returned and the property keeps its old value.
     */
    method DiscoverKoremods<E>(paths: seq<PathInfo<ModConfig>>, eval: Evaluator<T, E>) returns (r: Result<(), DiscoveryError<E>>)
      modifies this
      ensures var d := Discover(paths, eval);
        (d.Ok? ==> r.Ok? && transformers == Some(d.value)) &&
        (d.Err? ==> r == Err(d.error) && transformers == old(transformers))
    {
      var modScripts := ScanPaths(paths);
      var sum := ScriptCount(modScripts);
      if sum > 0 {
        var packs := EvalPacks(modScripts, eval);
        if packs.Err? {
          return Err(ExecutionException(packs.error));
        }
        transformers := Some(packs.value);
      } else {
        transformers := Some([]);
      }
      return Ok(());
    }

    /** `discoverKoremods(dir, classpath)` */
    method DiscoverKoremodsIn<E>(dir: Path, walked: seq<PathInfo<ModConfig>>, classpath: seq<ClasspathUrl<ModConfig>>, eval: Evaluator<T, E>)
      returns (r: Result<(), DiscoveryError<E>>)
      modifies this
      ensures var d := Discover(ScannedPathsKeepingDirectories(dir, walked, classpath), eval);
        (d.Ok? ==> r.Ok? && transformers == Some(d.value)) &&
        (d.Err? ==> r == Err(d.error) && transformers == old(transformers))
    {
      r := DiscoverKoremods(ScannedPathsKeepingDirectories(dir, walked, classpath), eval);
    }

    function FlatTransformers(): (r: Option<seq<T>>)
      reads this
      ensures r.Some? <==> IsInitialized()
      ensures r.Some? ==> r.value == Flatten(transformers.value)
    {
      if transformers.Some? then Some(Flatten(transformers.value)) else None
    }
  }
}
