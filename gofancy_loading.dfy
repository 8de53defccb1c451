/**
 * `KoremodsLoader` of the wtf.gofancy tree (ScriptLoading.kt): the loader mode decides which
 * files are scanned and whether scripts are compiled from source or read precompiled; the
 * evaluated packs replace the loader's `scriptPacks`.
 */
module GofancyLoading {
  import opened Wrappers
  import opened Paths
  import opened Discovery
  import opened GofancyEvaluation

  /** `KOREMODS_SCRIPT_EXTENSION` */
  const KOREMODS_SCRIPT_EXTENSION: string := "core.kts"

  /** Compile sources (with extra libraries) then evaluate, or evaluate precompiled jars. */
  datatype LoaderMode = CompileEvalLoad(libraries: seq<string>) | EvalLoad {
    /** The extension of the files the mode scans for. */
    function Extension(): (r: string)
      ensures CompileEvalLoad? ==> r == KOREMODS_SCRIPT_EXTENSION
      ensures EvalLoad? ==> r == "jar"
    {
      match this
      case CompileEvalLoad(_) => KOREMODS_SCRIPT_EXTENSION
      case EvalLoad => "jar"
    }
  }

  /**
   * The steps of loading that lie outside this component, as functions: scanning paths for
   * scripts with an extension, reading and compiling sources with libraries, reading compiled
   * jars, and running one compiled script.
   */
  datatype Pipeline<!P, !C, T> = Pipeline(
    scan: (seq<P>, string) -> seq<RawScriptPack<Path>>,
    compileSources: (seq<RawScriptPack<Path>>, seq<string>) -> Result<seq<RawScriptPack<C>>, EvalFailure>,
    readCompiled: seq<RawScriptPack<Path>> -> Result<seq<RawScriptPack<C>>, EvalFailure>,
    evaluate: (Identifier, C) -> Evaluation<T>)

  /** The compiled packs a mode produces from the scanned packs. */
  function Compile<P, C, T>(mode: LoaderMode, located: seq<RawScriptPack<Path>>, pipeline: Pipeline<P, C, T>): (r: Result<seq<RawScriptPack<C>>, EvalFailure>)
    ensures mode.CompileEvalLoad? ==> r == pipeline.compileSources(located, mode.libraries)
    ensures mode.EvalLoad? ==> r == pipeline.readCompiled(located)
  {
    if mode.CompileEvalLoad? then pipeline.compileSources(located, mode.libraries) else pipeline.readCompiled(located)
  }

  /** The packs `loadKoremods(paths)` stores, or the failure it raises. */
  function Load<P, C, T>(mode: LoaderMode, paths: seq<P>, pipeline: Pipeline<P, C, T>): Result<seq<ScriptPack<T>>, EvalFailure> {
    var located := pipeline.scan(paths, mode.Extension());
    var compiled :- Compile(mode, located, pipeline);
    EvalScriptPacksFixed(compiled, pipeline.evaluate)
  }

  /**
   * A successful load keeps the compiled packs' namespaces, paths and identifiers, and a load
   * that finds no script at all stores no packs.
   */
  lemma LoadKeepsPacks<P, C, T>(mode: LoaderMode, paths: seq<P>, pipeline: Pipeline<P, C, T>)
    ensures var compiled := Compile(mode, pipeline.scan(paths, mode.Extension()), pipeline);
      var r := Load(mode, paths, pipeline);
      (compiled.Err? ==> r == Err(compiled.error)) &&
      (compiled.Ok? && TotalScripts(compiled.value) == 0 ==> r == Ok([])) &&
      (compiled.Ok? && r.Ok? && TotalScripts(compiled.value) > 0 ==>
        |r.value| == |compiled.value| && forall i :: 0 <= i < |r.value| ==>
          r.value[i].meta == (compiled.value[i].namespace, compiled.value[i].path) &&
          |r.value[i].scripts| == |compiled.value[i].scripts| &&
          forall j :: 0 <= j < |r.value[i].scripts| ==> r.value[i].scripts[j].key == compiled.value[i].scripts[j].identifier)
  {
    var compiled := Compile(mode, pipeline.scan(paths, mode.Extension()), pipeline);
    if compiled.Ok? {
      EvalScriptPacksFixedOutcome(compiled.value, pipeline.evaluate);
    }
  }

  class KoremodsLoader<P, C, T> {
    const mode: LoaderMode
    var scriptPacks: seq<ScriptPack<T>>

    constructor(mode: LoaderMode)
      ensures this.mode == mode && scriptPacks == []
    {
      this.mode := mode;
      scriptPacks := [];
    }

    /** `loadKoremods(paths)`: on success the evaluated packs replace `scriptPacks` wholesale. */
    method LoadKoremods(paths: seq<P>, pipeline: Pipeline<P, C, T>) returns (r: Result<(), EvalFailure>)
      modifies this`scriptPacks
      ensures var expected := Load(mode, paths, pipeline);
        (expected.Ok? ==> r.Ok? && scriptPacks == expected.value) &&
        (expected.Err? ==> r == Err(expected.error) && scriptPacks == old(scriptPacks))
    {
      var located := pipeline.scan(paths, mode.Extension());
      var compiled;
      if mode.CompileEvalLoad? {
        compiled := pipeline.compileSources(located, mode.libraries);
      } else {
        compiled := pipeline.readCompiled(located);
      }
      if compiled.Err? {
        return Err(compiled.error);
      }
      var evaluated := EvalScriptPacksFixed(compiled.value, pipeline.evaluate);
      if evaluated.Err? {
        return Err(evaluated.error);
      }
      scriptPacks := evaluated.value;
      return Ok(());
    }

    /** `getAllTransformers()`: in pack, script and registration order. */
    function GetAllTransformers(): (r: seq<T>)
      reads this
      ensures r == Flatten(scriptPacks)
    {
      Flatten(scriptPacks)
    }
  }

  /** `loadKoremods(dir, additionalPaths)` scans the walked files of `dir` and the file-scheme URLs. */
  method LoadKoremodsIn<Cfg, C, T>(loader: KoremodsLoader<PathInfo<Cfg>, C, T>, dir: Path, walked: seq<PathInfo<Cfg>>,
                                   additionalPaths: seq<ClasspathUrl<Cfg>>, pipeline: Pipeline<PathInfo<Cfg>, C, T>)
    returns (r: Result<(), EvalFailure>)
    modifies loader`scriptPacks
    ensures var expected := Load(loader.mode, ScannedPaths(dir, walked, additionalPaths), pipeline);
      (expected.Ok? ==> r.Ok? && loader.scriptPacks == expected.value) &&
      (expected.Err? ==> r == Err(expected.error) && loader.scriptPacks == old(loader.scriptPacks))
  {
    r := loader.LoadKoremods(ScannedPaths(dir, walked, additionalPaths), pipeline);
  }
}
