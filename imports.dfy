/**
 * `KoremodsScriptConfigurator`: the refinement handler that turns `@ImportScript` annotations into
 * imported script sources and reports duplicate imports, plus the default import list.
 */
module ImportScripts {
  import opened Wrappers

  /** The implicit imports of every script, before the plugin's own. */
  const DEFAULT_IMPORTS: seq<string> := [
    "wtf.gofancy.koremods.script.ImportScript", "wtf.gofancy.koremods.dsl.*", "org.objectweb.asm.tree.ClassNode",
    "org.objectweb.asm.tree.MethodNode", "org.objectweb.asm.tree.FieldNode", "org.objectweb.asm.Opcodes.*"
  ]

  /** `DEFAULT_IMPORTS.plus(PLUGIN.defaultImports)` */
  function DefaultImports(pluginImports: seq<string>): (r: seq<string>)
    ensures |r| == |DEFAULT_IMPORTS| + |pluginImports|
    ensures r[..|DEFAULT_IMPORTS|] == DEFAULT_IMPORTS && r[|DEFAULT_IMPORTS|..] == pluginImports
  {
    DEFAULT_IMPORTS + pluginImports
  }

  /** A position in the script text. */
  datatype Location = Location(line: nat, column: nat)

  /** A collected annotation: `@ImportScript(paths…)` with its location, or any other annotation. */
  datatype Annotation = ImportScript(paths: seq<string>, location: Option<Location>) | OtherAnnotation

  datatype Diagnostic = Diagnostic(message: string, sourcePath: Option<string>, location: Option<Location>)

  /** The part of `ScriptCompilationConfiguration` the handler changes. */
  datatype CompilationConfiguration = CompilationConfiguration(defaultImports: seq<string>, importScripts: seq<string>)

  datatype Refined = Success(config: CompilationConfiguration) | Failure(diagnostics: seq<Diagnostic>)

  /**
   * The file operations the handler uses: `dir.resolve(name)`, `File.normalize()` and
   * `File.absolutePath`, over path strings.
   */
  datatype FileOps = FileOps(resolve: (string, string) -> string, normalize: string -> string, absolute: string -> string)

  /** One imported path: its source name, its normalised file and that file's absolute path. */
  datatype Item = Item(sourceName: string, file: string, key: string, location: Option<Location>)

  function FileOf(ops: FileOps, scriptDir: Option<string>, sourceName: string): string {
    ops.normalize(if scriptDir.Some? then ops.resolve(scriptDir.value, sourceName) else sourceName)
  }

  function ItemOf(ops: FileOps, scriptDir: Option<string>, sourceName: string, location: Option<Location>): Item {
    var file := FileOf(ops, scriptDir, sourceName);
    Item(sourceName, file, ops.absolute(file), location)
  }

  /** The paths of the `@ImportScript` annotations, in annotation then path order. */
  function ItemsOf(ops: FileOps, scriptDir: Option<string>, annotations: seq<Annotation>): (r: seq<Item>)
    decreases |annotations|
  {
    if |annotations| == 0 then []
    else
      var last := annotations[|annotations| - 1];
      ItemsOf(ops, scriptDir, annotations[..|annotations| - 1]) +
      (if last.ImportScript? then PathItems(ops, scriptDir, last.paths, last.location) else [])
  }

  function PathItems(ops: FileOps, scriptDir: Option<string>, paths: seq<string>, location: Option<Location>): (r: seq<Item>)
    ensures |r| == |paths|
    ensures forall i :: 0 <= i < |paths| ==> r[i] == ItemOf(ops, scriptDir, paths[i], location)
  {
    if |paths| == 0 then [] else PathItems(ops, scriptDir, paths[..|paths| - 1], location) + [ItemOf(ops, scriptDir, paths[|paths| - 1], location)]
  }

  /** An entry of the insertion-ordered `importedSources` map. */
  datatype Entry = Entry(key: string, file: string, sourceName: string)

  /** The position of `key` in the table, or -1. */
  function Find(table: seq<Entry>, key: string): (i: int)
    ensures -1 <= i < |table| && (i >= 0 ==> table[i].key == key)
    ensures i == -1 <==> forall j :: 0 <= j < |table| ==> table[j].key != key
  {
    if |table| == 0 then -1
    else if table[|table| - 1].key == key then |table| - 1
    else Find(table[..|table| - 1], key)
  }

  /**
   * `LinkedHashMap.put`: a new key is appended; an existing key keeps its position, takes the new
   * value, and the previous value is returned.
   */
  function Put(table: seq<Entry>, e: Entry): (r: (seq<Entry>, Option<Entry>))
    ensures Find(table, e.key) == -1 ==> r == (table + [e], None)
    ensures Find(table, e.key) >= 0 ==> r == (table[Find(table, e.key) := e], Some(table[Find(table, e.key)]))
  {
    var i := Find(table, e.key);
    if i == -1 then (table + [e], None) else (table[i := e], Some(table[i]))
  }

  /** The table after putting every item, in order. */
  function Table(items: seq<Item>): seq<Entry>
    decreases |items|
  {
    if |items| == 0 then []
    else
      var it := items[|items| - 1];
      Put(Table(items[..|items| - 1]), Entry(it.key, it.file, it.sourceName)).0
  }

  function DuplicateMessage(previous: string, current: string): string {
    "Duplicate imports: \"" + previous + "\" and \"" + current + "\""
  }

  /** The diagnostics collected while putting every item, in order. */
  function Diagnostics(items: seq<Item>, sourcePath: Option<string>): seq<Diagnostic>
    decreases |items|
  {
    if |items| == 0 then []
    else
      var it := items[|items| - 1];
      var put := Put(Table(items[..|items| - 1]), Entry(it.key, it.file, it.sourceName));
      Diagnostics(items[..|items| - 1], sourcePath) +
      (if put.1.Some? then [Diagnostic(DuplicateMessage(put.1.value.sourceName, it.sourceName), sourcePath, it.location)] else [])
  }

  /** The last position of an item with absolute path `key`, or -1. */
  function FindItem(items: seq<Item>, key: string): (i: int)
    ensures -1 <= i < |items| && (i >= 0 ==> items[i].key == key)
    ensures i == -1 <==> forall j :: 0 <= j < |items| ==> items[j].key != key
  {
    if |items| == 0 then -1
    else if items[|items| - 1].key == key then |items| - 1
    else FindItem(items[..|items| - 1], key)
  }

  /** The number of items whose absolute path an earlier item already had. */
  function Duplicates(items: seq<Item>): nat
    decreases |items|
  {
    if |items| == 0 then 0
    else
      var n := |items| - 1;
      Duplicates(items[..n]) + (if FindItem(items[..n], items[n].key) >= 0 then 1 else 0)
  }

  /** `put` adds exactly its own key to the keys of the table. */
  lemma PutKeys(table: seq<Entry>, e: Entry, k: string)
    ensures Find(Put(table, e).0, k) >= 0 <==> Find(table, k) >= 0 || k == e.key
  {
    var t' := Put(table, e).0;
    var i := Find(table, e.key);
    if Find(t', k) >= 0 {
      var j := Find(t', k);
      if j < |table| && !(i >= 0 && j == i) {
        assert table[j].key == k;
      }
    }
    if Find(table, k) >= 0 {
      var j := Find(table, k);
      assert t'[j].key == k;
    }
    if k == e.key {
      if i >= 0 { assert t'[i].key == k; } else { assert t'[|table|].key == k; }
    }
  }

  /** The table's keys are exactly the items' absolute paths. */
  lemma {:induction false} TableKeys(items: seq<Item>, k: string)
    ensures Find(Table(items), k) >= 0 <==> FindItem(items, k) >= 0
    decreases |items|
  {
    if |items| > 0 {
      var n := |items| - 1;
      TableKeys(items[..n], k);
      var it := items[n];
      PutKeys(Table(items[..n]), Entry(it.key, it.file, it.sourceName), k);
    }
  }

  /** One diagnostic is reported per item whose absolute path was already imported. */
  lemma {:induction false} DiagnosticsCount(items: seq<Item>, sourcePath: Option<string>)
    ensures |Diagnostics(items, sourcePath)| == Duplicates(items)
    decreases |items|
  {
    if |items| > 0 {
      var n := |items| - 1;
      DiagnosticsCount(items[..n], sourcePath);
      TableKeys(items[..n], items[n].key);
    }
  }

  /** Without duplicates the table holds exactly the items' files, in annotation order. */
  lemma {:induction false} DistinctTable(items: seq<Item>)
    requires Duplicates(items) == 0
    ensures |Table(items)| == |items|
    ensures forall i :: 0 <= i < |items| ==> Table(items)[i] == Entry(items[i].key, items[i].file, items[i].sourceName)
    decreases |items|
  {
    if |items| > 0 {
      var n := |items| - 1;
      DistinctTable(items[..n]);
      TableKeys(items[..n], items[n].key);
    }
  }

  /** `importedSources.values.map { FileScriptSource(it.first) }` */
  function Files(table: seq<Entry>): (r: seq<string>)
    ensures |r| == |table| && forall i :: 0 <= i < |table| ==> r[i] == table[i].file
  {
    if |table| == 0 then [] else Files(table[..|table| - 1]) + [table[|table| - 1].file]
  }

  /**
   * The handler's result for the given annotations: no annotations leave the configuration as it
   * is; any duplicate fails with all diagnostics; otherwise the imported files are appended.
   */
  function Refine(config: CompilationConfiguration, annotations: Option<seq<Annotation>>, ops: FileOps,
                  scriptDir: Option<string>, sourcePath: Option<string>): Refined
  {
    if annotations.None? || |annotations.value| == 0 then Success(config)
    else
      var items := ItemsOf(ops, scriptDir, annotations.value);
      var diagnostics := Diagnostics(items, sourcePath);
      if |diagnostics| > 0 then Failure(diagnostics)
      else if |Table(items)| == 0 then Success(config)
      else Success(config.(importScripts := config.importScripts + Files(Table(items))))
  }

  /**
   * What the handler promises: a failure exactly when some path repeats, one diagnostic per
   * repeat, and otherwise one imported source per path in annotation order.
   */
  lemma RefineOutcome(config: CompilationConfiguration, annotations: seq<Annotation>, ops: FileOps,
                      scriptDir: Option<string>, sourcePath: Option<string>)
    requires |annotations| > 0
    ensures var items := ItemsOf(ops, scriptDir, annotations);
      var r := Refine(config, Some(annotations), ops, scriptDir, sourcePath);
      (r.Failure? <==> Duplicates(items) > 0) &&
      (r.Failure? ==> |r.diagnostics| == Duplicates(items)) &&
      (r.Success? ==> r.config.defaultImports == config.defaultImports &&
                      |r.config.importScripts| == |config.importScripts| + |items| &&
                      r.config.importScripts[..|config.importScripts|] == config.importScripts &&
                      forall i :: 0 <= i < |items| ==> r.config.importScripts[|config.importScripts| + i] == items[i].file)
  {
    var items := ItemsOf(ops, scriptDir, annotations);
    DiagnosticsCount(items, sourcePath);
    if Duplicates(items) == 0 {
      DistinctTable(items);
    }
  }

  /** Putting one more item extends the table and the diagnostics by that item's put. */
  lemma PutOneMore(done: seq<Item>, it: Item, sourcePath: Option<string>)
    ensures var put := Put(Table(done), Entry(it.key, it.file, it.sourceName));
      Table(done + [it]) == put.0 &&
      Diagnostics(done + [it], sourcePath) == Diagnostics(done, sourcePath) +
        (if put.1.Some? then [Diagnostic(DuplicateMessage(put.1.value.sourceName, it.sourceName), sourcePath, it.location)] else [])
  {
    assert (done + [it])[..|done|] == done;
  }

  lemma PathItemsOneMore(ops: FileOps, scriptDir: Option<string>, paths: seq<string>, p: nat, location: Option<Location>)
    requires p < |paths|
    ensures PathItems(ops, scriptDir, paths[..p + 1], location) ==
            PathItems(ops, scriptDir, paths[..p], location) + [ItemOf(ops, scriptDir, paths[p], location)]
  {
    assert paths[..p + 1][..p] == paths[..p];
  }

  lemma AppendSnoc<T>(a: seq<T>, b: seq<T>, x: T)
    ensures a + (b + [x]) == (a + b) + [x]
  {
  }

  /** The inner loop of the handler: puts every path of one annotation, collecting diagnostics. */
  method PutPaths(importedSources: seq<Entry>, diagnostics: seq<Diagnostic>, ghost before: seq<Item>,
                  paths: seq<string>, location: Option<Location>, ops: FileOps,
                  scriptDir: Option<string>, sourcePath: Option<string>)
    returns (table: seq<Entry>, diags: seq<Diagnostic>)
    requires importedSources == Table(before) && diagnostics == Diagnostics(before, sourcePath)
    ensures table == Table(before + PathItems(ops, scriptDir, paths, location))
    ensures diags == Diagnostics(before + PathItems(ops, scriptDir, paths, location), sourcePath)
  {
    table, diags := importedSources, diagnostics;
    var p := 0;
    assert before + PathItems(ops, scriptDir, paths[..0], location) == before;
    while p < |paths|
      invariant 0 <= p <= |paths|
      invariant table == Table(before + PathItems(ops, scriptDir, paths[..p], location))
      invariant diags == Diagnostics(before + PathItems(ops, scriptDir, paths[..p], location), sourcePath)
    {
      var sourceName := paths[p];
      var file := FileOf(ops, scriptDir, sourceName);
      ghost var items := PathItems(ops, scriptDir, paths[..p], location);
      ghost var it := ItemOf(ops, scriptDir, sourceName, location);
      ghost var done := before + items;
      PathItemsOneMore(ops, scriptDir, paths, p, location);
      PutOneMore(done, it, sourcePath);
      AppendSnoc(before, items, it);
      var put := Put(table, Entry(ops.absolute(file), file, sourceName));
      table := put.0;
      if put.1.Some? {
        diags := diags + [Diagnostic(DuplicateMessage(put.1.value.sourceName, sourceName), sourcePath, location)];
      }
      p := p + 1;
    }
    assert paths[..p] == paths;
  }

  lemma ItemsOfOneMore(ops: FileOps, scriptDir: Option<string>, annotations: seq<Annotation>, a: nat)
    requires a < |annotations|
    ensures var last := annotations[a];
      ItemsOf(ops, scriptDir, annotations[..a + 1]) ==
      if last.ImportScript? then ItemsOf(ops, scriptDir, annotations[..a]) + PathItems(ops, scriptDir, last.paths, last.location)
      else ItemsOf(ops, scriptDir, annotations[..a])
  {
    assert annotations[..a + 1][..a] == annotations[..a];
    assert ItemsOf(ops, scriptDir, annotations[..a]) + [] == ItemsOf(ops, scriptDir, annotations[..a]);
  }

  /**
   * `KoremodsScriptConfigurator.invoke`: nested loops over the ImportScript annotations and their
   * paths fill the insertion-ordered map and the diagnostics list.
   */
  method Invoke(config: CompilationConfiguration, annotations: Option<seq<Annotation>>, ops: FileOps,
                scriptDir: Option<string>, sourcePath: Option<string>) returns (r: Refined)
    ensures r == Refine(config, annotations, ops, scriptDir, sourcePath)
  {
    if annotations.None? || |annotations.value| == 0 {
      return Success(config);
    }
    var all := annotations.value;
    var importedSources: seq<Entry> := [];
    var diagnostics: seq<Diagnostic> := [];
    var a := 0;
    while a < |all|
      invariant 0 <= a <= |all|
      invariant importedSources == Table(ItemsOf(ops, scriptDir, all[..a]))
      invariant diagnostics == Diagnostics(ItemsOf(ops, scriptDir, all[..a]), sourcePath)
    {
      ItemsOfOneMore(ops, scriptDir, all, a);
      if all[a].ImportScript? {
        importedSources, diagnostics := PutPaths(importedSources, diagnostics, ItemsOf(ops, scriptDir, all[..a]),
                                                 all[a].paths, all[a].location, ops, scriptDir, sourcePath);
      }
      a := a + 1;
    }
    assert all[..a] == all;
    if |diagnostics| > 0 {
      return Failure(diagnostics);
    }
    if |importedSources| == 0 {
      return Success(config);
    }
    return Success(config.(importScripts := config.importScripts + Files(importedSources)));
  }
}
