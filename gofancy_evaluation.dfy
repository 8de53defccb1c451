/**
 * Script evaluation of the wtf.gofancy tree (ScriptEvaluation.kt): the mapping from evaluation
 * results to handlers or exceptions, the pack-wide evaluation, and precompiled scripts read from
 * jars with their class loader and one-shot lazy loading.
 */
module GofancyEvaluation {
  import opened Wrappers
  import opened Strings
  import opened Paths
  import opened FileSystem
  import opened Discovery

  /** What a script run returned: a value, Unit (with the script's handler), an exception, or nothing. */
  datatype ResultValue<T> = Value | UnitValue(transformers: seq<T>) | Error(error: string) | NotEvaluated

  /** `ResultWithDiagnostics<EvaluationResult>` */
  datatype Evaluation<T> = Success(returnValue: ResultValue<T>) | Failure

  datatype EvalFailure =
    | ScriptEvaluationException(message: string, cause: Option<string>)
    | RuntimeException(message: string)
    | IllegalArgumentException(message: string)
    | NullPointerException
    /** What `Future.get()` throws when the task failed; `thrown` is its cause, the task's exception. */
    | ExecutionException(thrown: EvalFailure)

  /** `evalTransformers(identifier, script, logger)`: only a Unit result yields the handler. */
  function EvalTransformers<T>(id: Identifier, eval: Evaluation<T>): (r: Result<seq<T>, EvalFailure>)
    ensures r.Ok? <==> eval.Success? && eval.returnValue.UnitValue?
    ensures r.Ok? ==> r.value == eval.returnValue.transformers
    ensures r.Err? ==> r.error.ScriptEvaluationException?
    ensures r.Err? ==> (r.error.cause.Some? <==> eval.Success? && eval.returnValue.Error?)
    ensures r.Err? && r.error.cause.Some? ==> r.error.cause.value == eval.returnValue.error
  {
    match eval
    case Success(Value) => Err(ScriptEvaluationException("Script " + id.ToString() + " returned a value instead of Unit", None))
    case Success(UnitValue(ts)) => Ok(ts)
    case Success(Error(e)) => Err(ScriptEvaluationException("Exception in script " + id.ToString(), Some(e)))
    case Success(NotEvaluated) => Err(ScriptEvaluationException("An unknown error has occured while evaluating script " + id.ToString(), None))
    case Failure => Err(ScriptEvaluationException("Failed to evaluate script " + id.ToString() + ". See the log for more information", None))
  }

  /** The private `evalTransformers`: a script that registers no transformer is an error. */
  function EvalChecked<T>(id: Identifier, eval: Evaluation<T>): (r: Result<seq<T>, EvalFailure>)
    ensures r.Ok? <==> EvalTransformers(id, eval).Ok? && |EvalTransformers(id, eval).value| > 0
    ensures r.Ok? ==> r.value == EvalTransformers(id, eval).value
    ensures EvalTransformers(id, eval).Ok? && r.Err? ==>
      r.error == RuntimeException("Script " + id.ToString() + " does not define any transformers")
  {
    var handler :- EvalTransformers(id, eval);
    if |handler| == 0 then Err(RuntimeException("Script " + id.ToString() + " does not define any transformers"))
    else Ok(handler)
  }

  datatype RawScript<S> = RawScript(identifier: Identifier, source: S)
  datatype RawScriptPack<S> = RawScriptPack(namespace: string, path: Path, scripts: seq<RawScript<S>>)

  /** An evaluated pack keeps its namespace and path. */
  type ScriptPack<T> = Pack<(string, Path), Identifier, T>

  function TotalScripts<S>(packs: seq<RawScriptPack<S>>): nat {
    if |packs| == 0 then 0 else TotalScripts(packs[..|packs| - 1]) + |packs[|packs| - 1].scripts|
  }

  /** What evaluating one script on its pool thread gives. */
  function EvalScript<S, T>(script: RawScript<S>, evaluate: (Identifier, S) -> Evaluation<T>): Result<seq<T>, EvalFailure> {
    EvalChecked(script.identifier, evaluate(script.identifier, script.source))
  }

  /**
   * The scripts of one pack; `future.get()` in script order raises the first failure, wrapped in
   * `ExecutionException`.
   */
  function EvalScripts<S, T>(scripts: seq<RawScript<S>>, evaluate: (Identifier, S) -> Evaluation<T>): (r: Result<seq<Script<Identifier, T>>, EvalFailure>)
    ensures r.Ok? <==> forall j :: 0 <= j < |scripts| ==> EvalScript(scripts[j], evaluate).Ok?
    ensures r.Ok? ==> |r.value| == |scripts| && forall j :: 0 <= j < |scripts| ==>
      r.value[j] == Script(scripts[j].identifier, EvalScript(scripts[j], evaluate).value)
    ensures r.Err? ==> r.error.ExecutionException?
  {
    if |scripts| == 0 then Ok([])
    else
      var s := scripts[0];
      match EvalScript(s, evaluate)
      case Err(e) => Err(EvalFailure.ExecutionException(e))
      case Ok(handler) =>
        var rest :- EvalScripts(scripts[1..], evaluate);
        Ok([Script(s.identifier, handler)] + rest)
  }

  /** The exception raised is the first failing script's, as the cause of an `ExecutionException`. */
  lemma {:induction false} EvalScriptsFailsAtFirst<S, T>(scripts: seq<RawScript<S>>, evaluate: (Identifier, S) -> Evaluation<T>, j: nat)
    requires j < |scripts| && EvalScript(scripts[j], evaluate).Err?
    requires forall k :: 0 <= k < j ==> EvalScript(scripts[k], evaluate).Ok?
    ensures EvalScripts(scripts, evaluate) == Err(EvalFailure.ExecutionException(EvalScript(scripts[j], evaluate).error))
  {
    if j > 0 {
      assert forall k :: 0 <= k < j - 1 ==> scripts[1..][k] == scripts[k + 1];
      EvalScriptsFailsAtFirst(scripts[1..], evaluate, j - 1);
    }
  }

  /** Every pack in order; the first failing pack's failure is raised. */
  function EvalAll<S, T>(packs: seq<RawScriptPack<S>>, evaluate: (Identifier, S) -> Evaluation<T>): (r: Result<seq<ScriptPack<T>>, EvalFailure>)
    ensures r.Ok? <==> forall i :: 0 <= i < |packs| ==> EvalScripts(packs[i].scripts, evaluate).Ok?
    ensures r.Ok? ==> |r.value| == |packs| && forall i :: 0 <= i < |packs| ==>
      r.value[i] == Pack((packs[i].namespace, packs[i].path), EvalScripts(packs[i].scripts, evaluate).value)
    ensures r.Err? ==> r.error.ExecutionException?
  {
    if |packs| == 0 then Ok([])
    else
      var p := packs[0];
      var scripts :- EvalScripts(p.scripts, evaluate);
      var rest :- EvalAll(packs[1..], evaluate);
      Ok([Pack((p.namespace, p.path), scripts)] + rest)
  }

  /**
   * Over all packs, the exception raised wraps the failure of the first failing script of the
   * first failing pack.
   */
  lemma {:induction false} EvalAllFailsAtFirst<S, T>(packs: seq<RawScriptPack<S>>, evaluate: (Identifier, S) -> Evaluation<T>, i: nat, j: nat)
    requires i < |packs| && j < |packs[i].scripts| && EvalScript(packs[i].scripts[j], evaluate).Err?
    requires forall k :: 0 <= k < i ==> EvalScripts(packs[k].scripts, evaluate).Ok?
    requires forall k :: 0 <= k < j ==> EvalScript(packs[i].scripts[k], evaluate).Ok?
    ensures EvalAll(packs, evaluate) == Err(EvalFailure.ExecutionException(EvalScript(packs[i].scripts[j], evaluate).error))
  {
    if i == 0 {
      EvalScriptsFailsAtFirst(packs[0].scripts, evaluate, j);
    } else {
      assert forall k :: 0 <= k < i - 1 ==> packs[1..][k] == packs[k + 1];
      EvalAllFailsAtFirst(packs[1..], evaluate, i - 1, j);
    }
  }

  /**
   * `evalScriptPacks` as written: the thread pool is sized by the total script count, and a pool
   * of zero threads is refused with IllegalArgumentException before anything is evaluated.
   */
  function EvalScriptPacks<S, T>(packs: seq<RawScriptPack<S>>, evaluate: (Identifier, S) -> Evaluation<T>): (r: Result<seq<ScriptPack<T>>, EvalFailure>)
    ensures TotalScripts(packs) == 0 ==> r.Err? && r.error.IllegalArgumentException?
    ensures TotalScripts(packs) > 0 ==> r == EvalAll(packs, evaluate)
  {
    if TotalScripts(packs) == 0 then Err(IllegalArgumentException("")) else EvalAll(packs, evaluate)
  }

  /** Loading with nothing to evaluate fails, although an empty result was evidently intended. */
  lemma NoScriptsFails<S, T>(evaluate: (Identifier, S) -> Evaluation<T>)
    ensures EvalScriptPacks([], evaluate).Err?
  {
  }

  /** `evalScriptPacks` with the empty case answered by an empty list, as the discoverers do. */
  function EvalScriptPacksFixed<S, T>(packs: seq<RawScriptPack<S>>, evaluate: (Identifier, S) -> Evaluation<T>): (r: Result<seq<ScriptPack<T>>, EvalFailure>)
    ensures TotalScripts(packs) > 0 ==> r == EvalScriptPacks(packs, evaluate)
  {
    if TotalScripts(packs) == 0 then Ok([]) else EvalAll(packs, evaluate)
  }

  /** With no script anywhere, every pack is evaluated to an empty pack. */
  lemma {:induction false} EmptyPacksEvaluate<S, T>(packs: seq<RawScriptPack<S>>, evaluate: (Identifier, S) -> Evaluation<T>)
    requires TotalScripts(packs) == 0
    ensures forall i :: 0 <= i < |packs| ==> packs[i].scripts == []
    decreases |packs|
  {
    if |packs| > 0 {
      EmptyPacksEvaluate(packs[..|packs| - 1], evaluate);
      assert forall i :: 0 <= i < |packs| - 1 ==> packs[..|packs| - 1][i] == packs[i];
    }
  }

  /**
   * The corrected evaluation yields no packs when there is no script, and otherwise succeeds
   * exactly when every script returns Unit with a non-empty handler, keeping every pack's
   * namespace and path and every script's identifier.
   */
  lemma EvalScriptPacksFixedOutcome<S, T>(packs: seq<RawScriptPack<S>>, evaluate: (Identifier, S) -> Evaluation<T>)
    ensures var r := EvalScriptPacksFixed(packs, evaluate);
      (TotalScripts(packs) == 0 ==> r == Ok([])) &&
      (r.Ok? <==> forall i, j :: 0 <= i < |packs| && 0 <= j < |packs[i].scripts| ==>
                    EvalScript(packs[i].scripts[j], evaluate).Ok?) &&
      (r.Ok? && TotalScripts(packs) > 0 ==> |r.value| == |packs| && forall i :: 0 <= i < |packs| ==>
        r.value[i].meta == (packs[i].namespace, packs[i].path) && |r.value[i].scripts| == |packs[i].scripts| &&
        forall j :: 0 <= j < |packs[i].scripts| ==> r.value[i].scripts[j].key == packs[i].scripts[j].identifier)
  {
    if TotalScripts(packs) == 0 {
      EmptyPacksEvaluate(packs, evaluate);
    }
  }

  /** `readEntries`: entry name to bytes; a later entry with the same name replaces an earlier one. */
  function ReadEntries(entries: seq<(string, Bytes)>): (r: map<string, Bytes>)
    ensures forall name :: name in r <==> exists i :: 0 <= i < |entries| && entries[i].0 == name
  {
    if |entries| == 0 then map[]
    else
      var (name, bytes) := entries[|entries| - 1];
      var before := ReadEntries(entries[..|entries| - 1]);
      assert forall i :: 0 <= i < |entries| - 1 ==> entries[..|entries| - 1][i] == entries[i];
      before[name := bytes]
  }

  /** The stored bytes are those of the last entry with that name. */
  lemma {:induction false} ReadEntriesLastWins(entries: seq<(string, Bytes)>, i: nat)
    requires i < |entries|
    requires forall j :: i < j < |entries| ==> entries[j].0 != entries[i].0
    ensures ReadEntries(entries)[entries[i].0] == entries[i].1
    decreases |entries|
  {
    if i < |entries| - 1 {
      ReadEntriesLastWins(entries[..|entries| - 1], i);
    }
  }

  /** A class defined by the jar loader from stored bytes. */
  datatype DefinedClass = DefinedClass(name: string, bytes: Bytes)

  datatype ClassLoadError = ClassNotFoundException(name: string)

  /** `name.replace('.', '/') + ".class"` */
  function ResourceName(name: string): (r: string)
    ensures |r| == |name| + 6 && r[|name|..] == ".class"
  {
    ReplaceChar(name, '.', '/') + ".class"
  }

  /** For class names without '/', the resource name gives the class name back. */
  lemma ResourceNameRoundTrip(name: string)
    requires '/' !in name
    ensures ReplaceChar(ResourceName(name)[..|name|], '/', '.') == name
  {
    var r := ResourceName(name);
    assert r[..|name|] == ReplaceChar(name, '.', '/');
  }

  /** `JarClassLoader`: classes and resources served from a jar's entries. */
  class JarClassLoader {
    const entries: map<string, Bytes>

    constructor(entries: map<string, Bytes>)
      ensures this.entries == entries
    {
      this.entries := entries;
    }

    /** `findClass`: defines the class from exactly the entry `ResourceName(name)`. */
    function FindClass(name: string): (r: Result<DefinedClass, ClassLoadError>)
      ensures r.Ok? <==> ResourceName(name) in entries
      ensures r.Ok? ==> r.value == DefinedClass(name, entries[ResourceName(name)])
      ensures r.Err? ==> r.error == ClassNotFoundException(name)
    {
      var resource := ReplaceChar(name, '.', '/') + ".class";
      if resource in entries then Ok(DefinedClass(name, entries[resource])) else Err(ClassNotFoundException(name))
    }

    /** `getResourceAsStream`: null for an absent name, the stored bytes otherwise. */
    function GetResourceAsStream(name: string): (r: Option<Bytes>)
      ensures r.Some? <==> name in entries
      ensures r.Some? ==> r.value == entries[name]
    {
      if name in entries then Some(entries[name]) else None
    }
  }

  /** The script object `createScriptFromClassLoader` builds (its compilation data, abstracted). */
  datatype LoadedScript = LoadedScript(scriptClass: string, compilationConfiguration: string, sourceLocationId: Option<string>)

  const NOT_LOADED: string := "Compiled script is not loaded yet"

  /**
   * `KJvmCompiledScriptLoadedFromJar`: the script is created from a jar class loader on the first
   * `getClass` and reused afterwards; before that, every accessor fails.
   */
  class CompiledScriptLoadedFromJar {
    const scriptClassFQName: string
    const entries: map<string, Bytes>
    var loadedScript: Option<LoadedScript>
    /** How many times the script was created. */
    ghost var loads: nat

    constructor(scriptClassFQName: string, entries: map<string, Bytes>)
      ensures this.scriptClassFQName == scriptClassFQName && this.entries == entries
      ensures loadedScript == None && loads == 0
    {
      this.scriptClassFQName := scriptClassFQName;
      this.entries := entries;
      loadedScript := None;
      loads := 0;
    }

    /** `getScriptOrFail()` */
    function ScriptOrFail(): (r: Result<LoadedScript, EvalFailure>)
      reads this
      ensures r.Ok? <==> loadedScript.Some?
      ensures r.Err? ==> r.error == RuntimeException(NOT_LOADED)
    {
      if loadedScript.Some? then Ok(loadedScript.value) else Err(RuntimeException(NOT_LOADED))
    }

    /** `compilationConfiguration`, failing before the script is loaded. */
    function CompilationConfiguration(): (r: Result<string, EvalFailure>)
      reads this
      ensures r.Ok? <==> loadedScript.Some?
      ensures r.Ok? ==> r.value == loadedScript.value.compilationConfiguration
    {
      var s :- ScriptOrFail();
      Ok(s.compilationConfiguration)
    }

    /** `sourceLocationId`, failing before the script is loaded. */
    function SourceLocationId(): (r: Result<Option<string>, EvalFailure>)
      reads this
      ensures r.Ok? <==> loadedScript.Some?
      ensures r.Ok? ==> r.value == loadedScript.value.sourceLocationId
    {
      var s :- ScriptOrFail();
      Ok(s.sourceLocationId)
    }

    /**
     * `getClass`: creates the script once, from a class loader over the jar's entries (the
     * creation is a parameter), and returns the script's class.
     */
    method GetClass(create: (string, JarClassLoader) -> LoadedScript) returns (r: string)
      modifies this`loadedScript, this`loads
      ensures old(loadedScript).Some? ==> loadedScript == old(loadedScript) && loads == old(loads)
      ensures old(loadedScript).None? ==> loadedScript.Some? && loads == old(loads) + 1
      ensures loadedScript.Some? && r == loadedScript.value.scriptClass
    {
      if loadedScript.None? {
        var classLoader := new JarClassLoader(entries);
        loadedScript := Some(create(scriptClassFQName, classLoader));
        loads := loads + 1;
      }
      r := loadedScript.value.scriptClass;
    }
  }

  /**
   * `loadScriptFromJar`: the manifest's Main-Class names the script class. `manifest` is the jar's
   * manifest (None when the jar has none, so reading its attributes is a null dereference) as its
   * Main-Class attribute, when set.
   */
  method LoadScriptFromJar(manifest: Option<Option<string>>, jarEntries: seq<(string, Bytes)>)
    returns (r: Result<CompiledScriptLoadedFromJar, EvalFailure>)
    ensures manifest.None? ==> r == Err(EvalFailure.NullPointerException)
    ensures manifest == Some(None) ==> r == Err(IllegalArgumentException("No Main-Class manifest attribute"))
    ensures manifest.Some? && manifest.value.Some? ==>
      r.Ok? && fresh(r.value) && r.value.scriptClassFQName == manifest.value.value &&
      r.value.entries == ReadEntries(jarEntries) && r.value.loadedScript.None?
  {
    if manifest.None? {
      return Err(EvalFailure.NullPointerException);
    }
    var mainClass := manifest.value;
    if mainClass.None? {
      return Err(IllegalArgumentException("No Main-Class manifest attribute"));
    }
    var script := new CompiledScriptLoadedFromJar(mainClass.value, ReadEntries(jarEntries));
    return Ok(script);
  }
}
