# Koremods, modelled in Dafny

Koremods lets Minecraft mods ship "coremod" scripts written in Kotlin script (`*.core.kts`) that
rewrite JVM classes as they load. This project models its core in Dafny and proves properties of
the model. Two revisions of the code base are modelled side by side: the newer `wtf.gofancy`
tree (modules prefixed `Gofancy`) and the older `dev.su5ed` tree (modules prefixed `Su5ed`, and
`KoremodDiscovery` / `KoremodTransformation` / `Su5edLegacyDsl` for its even older loader).

What is modelled:

- **Prelaunch.** Extracting a bundled dependency jar named by a manifest attribute
  (`Additional-Dependencies-<name>`) into the dependencies directory. Building the isolating
  `DependencyClassLoader` and launching through it. `Resolution` holds the class-loading rule
  both loaders share: excluded prefixes always go to the parent; a cached name is returned; in
  strict mode a priority-prefixed name is found locally and cached; everything else is delegated.
  The loaders are classes with their cache and a log of the `findClass` / parent calls they make.
- **Discovery.** Scanning directories and jar/zip archives for `META-INF/koremods.conf`. Locating
  the scripts a configuration lists, with the script-name rule (`name.core.kts`, name matching
  `^[a-zA-Z0-9]*$`). Evaluating every script and flattening the packs into one transformer list.
- **Evaluation and sandboxing.** The evaluation result mapping, the zero-script thread pool, and
  the jar-backed compiled-script class loader. The allow-list class loaders that sandbox
  scripts. The `@ImportScript` refinement handler that turns import annotations into imported
  sources and reports duplicate imports.
- **The compiled-script cache (dev tree).** Its SHA-256 input framing, the name-sorted
  configuration entries, the hex encoding, and the choice of cache directory (`Directories`).
- **The transformer DSL.** Builders that append class, method and field transformers to a
  handler's list. How a transformer selects its method or field. How `transformClass` runs every
  transformer whose target is the class, and which transformers count as used.
- **The assembly helpers.** Structural instruction equality, and locating an instruction pattern
  in a method's instruction list. Inserting instructions before, at or after a found target. A
  shared label registry.
- **Descriptors.** JVM type and method descriptors as the DSL builds them, with a parser for the
  descriptor grammar of section 4.3 of the Java Virtual Machine Specification.
- **Splash screen.** The UTF-16 code-point iteration of the text renderer, and the growing native
  buffer that reads a font stream.

Behaviour that touches the outside world is abstracted. The file system is a `Disk` value (or a
`FileSystem` object holding one), with failing paths as part of the state. Class namespaces are
maps from names to handles. Script evaluation, SHA-256, path normalisation and the user's
transformer blocks are function parameters.

Where the code and its comments disagree, the model follows the code. The doc comment on
`priorityClasses` in both `DependencyClassLoader.java` files (line 45) promises a parent fallback
when a priority class is not found locally. The code instead propagates `findClass`'s
`ClassNotFoundException`, and `Resolution.PriorityNameResolvedOnlyLocally` states that. In both
revisions, `extractDependency` resolves the jar entry name against the dependencies directory but
creates only that directory. An entry name with a directory part, such as `lib/foo.jar`, therefore
names a file whose parent does not exist, and its extraction fails
(`NestedEntryFails` in both prelaunch modules). The copy is guarded by `Files.notExists`, which is
not the negation of `Files.exists`. When a regular file lies on the way to the destination, neither
test holds, and the destination's URL is returned without writing anything
(`FileAboveDestinationReturned` in both prelaunch modules).

The two `splash/TrueType.kt` files have the same `getCP` (lines 137-148 in the `wtf.gofancy` tree,
114-125 in the `dev.su5ed` tree) and the same loop in `renderText` (`cp - 32` at line 103, and at
line 80). `SplashText` models both, and its rows cite the `wtf.gofancy` copy.

## Model

| member | source | states |
|---|---|---|
| Resolution.Decide | src/main/java/wtf/gofancy/koremods/prelaunch/DependencyClassLoader.java:58-71 | one `loadClass`: a failure is ClassNotFoundException for the requested name; a found class comes from the cache, the local classes or the fallback under that name; the cache is unchanged except that a local-only hit adds the class found; an excluded name is always delegated |
| Resolution.ParentFirst | src/main/java/wtf/gofancy/koremods/prelaunch/DependencyClassLoader.java:73-75 | the fallback `super.loadClass` namespace: a name is found iff the parent or this loader's own URLs define it, and the parent's class wins |
| Resolution.ExcludedAlwaysDelegates | src/main/java/wtf/gofancy/koremods/prelaunch/DependencyClassLoader.java:60 | a name under an excluded prefix skips the cache and the local lookup, goes to the fallback, and leaves the cache unchanged |
| Resolution.CachedNameIsReturned | src/main/java/wtf/gofancy/koremods/prelaunch/DependencyClassLoader.java:61 | a non-excluded cached name returns the cached class without any lookup |
| Resolution.PriorityNameResolvedOnlyLocally | src/main/java/wtf/gofancy/koremods/prelaunch/DependencyClassLoader.java:63-67 | in strict mode, an uncached priority name is looked up only locally; on success the class is cached, and a miss is an error with no parent fallback |
| Resolution.OtherNamesDelegate | src/main/java/wtf/gofancy/koremods/prelaunch/DependencyClassLoader.java:58-71 | every other uncached name, and every name when not strict, goes to the fallback with the cache unchanged |
| Resolution.NonStrictPassThrough | src/main/java/wtf/gofancy/koremods/prelaunch/DependencyClassLoader.java:55-70 | a loader built without URLs (not strict) delegates every name and never caches |
| Resolution.DecideKeepsCacheInv | src/main/java/wtf/gofancy/koremods/prelaunch/DependencyClassLoader.java:61-66 | one call keeps the cache invariant: only non-excluded priority names that the local classes define are cached, in strict mode, mapped to the local class; cached entries are never removed |
| Resolution.Run | src/main/java/wtf/gofancy/koremods/prelaunch/DependencyClassLoader.java:58-71 | a sequence of loads threads the cache from call to call; it has one outcome per name |
| Resolution.RunKeepsEntries | src/main/java/wtf/gofancy/koremods/prelaunch/DependencyClassLoader.java:61-65 | over any sequence of loads, an entry cached at the start stays cached with the same class |
| Resolution.LocalFindAtMostOnce | src/main/java/wtf/gofancy/koremods/prelaunch/DependencyClassLoader.java:61-66 | once a priority name was found locally, every later load of that name is served from the cache with the same class |
| Resolution.RunStep | src/main/java/wtf/gofancy/koremods/prelaunch/DependencyClassLoader.java:58-71 | each load decides against the cache the previous load left |
| Resolution.RunKeepsCacheInv | src/main/java/wtf/gofancy/koremods/prelaunch/DependencyClassLoader.java:48-66 | the cache invariant holds after every load of a sequence |
| GofancyDependencyLoader.DependencyClassLoader.constructor | src/main/java/wtf/gofancy/koremods/prelaunch/DependencyClassLoader.java:51-56 | the loader keeps its URLs, parent and priority list, is strict iff it has URLs, and starts with an empty cache |
| GofancyDependencyLoader.DependencyClassLoader.FindClass | src/main/java/wtf/gofancy/koremods/prelaunch/DependencyClassLoader.java:64 | `findClass` looks only at this loader's own classes and is logged |
| GofancyDependencyLoader.DependencyClassLoader.LoadClassFallback | src/main/java/wtf/gofancy/koremods/prelaunch/DependencyClassLoader.java:73-75 | the fallback is the parent-first `super.loadClass` and is logged |
| GofancyDependencyLoader.DependencyClassLoader.LoadClass | src/main/java/wtf/gofancy/koremods/prelaunch/DependencyClassLoader.java:58-71 | the result and the new cache are those of the shared rule; `findClass` is called exactly when the name is resolved locally, the fallback exactly when it is delegated; the cache invariant is kept |
| Su5edDependencyLoader.ParentLoader.constructor | src/main/java/dev/su5ed/koremods/prelaunch/DependencyClassLoader.java:56 | the parent URL loader keeps its URLs and classes |
| Su5edDependencyLoader.DelegateClassLoader.constructor | src/main/java/dev/su5ed/koremods/prelaunch/DependencyClassLoader.java:98-100 | the delegate wraps the given parent |
| Su5edDependencyLoader.DelegateClassLoader.LoadClass | src/main/java/dev/su5ed/koremods/prelaunch/DependencyClassLoader.java:102-105 | the delegate's `loadClass` finds exactly the parent's classes, since it defines none of its own |
| Su5edDependencyLoader.DependencyClassLoader.constructor | src/main/java/dev/su5ed/koremods/prelaunch/DependencyClassLoader.java:56-63 | the loader has no class-loader parent of its own, a fresh delegate over the given URL loader, is strict iff it has URLs, and starts with an empty cache |
| Su5edDependencyLoader.DependencyClassLoader.FindClass | src/main/java/dev/su5ed/koremods/prelaunch/DependencyClassLoader.java:71 | `findClass` looks only at this loader's own classes and is logged |
| Su5edDependencyLoader.DependencyClassLoader.LoadClass | src/main/java/dev/su5ed/koremods/prelaunch/DependencyClassLoader.java:65-78 | the shared rule, with the delegate loader in place of the fallback; the call log records exactly one `findClass` or delegate call as the rule routes it |
| Su5edDependencyLoader.DependencyClassLoader.GetURLs | src/main/java/dev/su5ed/koremods/prelaunch/DependencyClassLoader.java:80-91 | a fresh array holding this loader's URLs followed by the delegate parent's, in order |
| Paths.AppendElements | src/main/java/wtf/gofancy/koremods/prelaunch/KoremodsPrelaunch.java:88 | parsing a path string onto a base keeps the base as a prefix |
| Paths.AppendedElementsAreNames | src/main/java/wtf/gofancy/koremods/prelaunch/KoremodsPrelaunch.java:88 | every element the parse adds is a non-empty name without '/' |
| Paths.AppendSlashFree | src/main/java/wtf/gofancy/koremods/prelaunch/KoremodsPrelaunch.java:88 | a string without '/' becomes at most one element |
| Paths.AppendAtSlash | src/main/java/wtf/gofancy/koremods/prelaunch/KoremodsPrelaunch.java:88 | a '/' closes the element read so far and parsing continues after it |
| Paths.Resolve | src/main/java/wtf/gofancy/koremods/prelaunch/KoremodsPrelaunch.java:88 | `Path.resolve`: a relative child keeps the path as a prefix, an empty child changes nothing, and a plain name adds exactly one element |
| Paths.ResolvedElementsAreNames | src/main/java/wtf/gofancy/koremods/prelaunch/KoremodsPrelaunch.java:88 | everything resolving adds, or the whole result for an absolute child, is a list of non-empty names without '/' |
| Paths.ResolveNested | src/main/java/wtf/gofancy/koremods/prelaunch/KoremodsPrelaunch.java:88 | `dir/name` adds two elements, `dir` and then `name`, so the file lands in the sub-directory `dir` |
| FileSystem.CreateDirectories | src/main/java/wtf/gofancy/koremods/prelaunch/KoremodsPrelaunch.java:91 | `Files.createDirectories` succeeds iff the path is not failing and neither it nor any of its ancestors is a regular file; it then keeps every file and directory and makes the path a directory |
| FileSystem.Mkdirs | src/main/java/wtf/gofancy/koremods/prelaunch/KoremodsPrelaunch.java:74 | `mkdirs` reports true iff the path is neither failing nor present and no ancestor is a regular file, and then makes it a directory without touching files; on false nothing changes |
| FileSystem.OperationsKeepConsistent | src/main/java/wtf/gofancy/koremods/prelaunch/KoremodsPrelaunch.java:74-96 | creating directories and writing a file never make a path both a regular file and a directory |
| FileSystem.FileAboveNotNotExists | src/main/java/wtf/gofancy/koremods/prelaunch/KoremodsPrelaunch.java:89 | a regular file strictly above a path makes `Files.notExists` false for it, although the path does not exist |
| FileSystem.WriteFile | src/main/java/wtf/gofancy/koremods/prelaunch/KoremodsPrelaunch.java:95-96 | `newOutputStream` then `IOUtils.copy`: the write succeeds iff the file can be opened (its parent directory exists) and the copy is not cut off; an unopenable file leaves the disk unchanged; otherwise only that file changes, holding all the data on success and the cut-off prefix on failure |
| FileSystem.FileSystem.constructor | src/main/java/wtf/gofancy/koremods/prelaunch/KoremodsPrelaunch.java:89-96 | the object holds the given disk |
| FileSystem.FileSystem.PathNotExists | src/main/java/wtf/gofancy/koremods/prelaunch/KoremodsPrelaunch.java:89 | `Files.notExists` on the current state: true iff the path is neither a file nor a directory and no regular file lies on the way to it |
| FileSystem.FileSystem.CreateDirectoriesAt | src/main/java/wtf/gofancy/koremods/prelaunch/KoremodsPrelaunch.java:91 | updates the state as `CreateDirectories` does on success, and leaves it unchanged on failure |
| FileSystem.FileSystem.MkdirsAt | src/main/java/wtf/gofancy/koremods/prelaunch/KoremodsPrelaunch.java:74 | returns and leaves exactly what `Mkdirs` gives |
| FileSystem.FileSystem.Write | src/main/java/wtf/gofancy/koremods/prelaunch/KoremodsPrelaunch.java:95-96 | returns and leaves exactly what `WriteFile` gives |
| GofancyPrelaunch.Extract | src/main/java/wtf/gofancy/koremods/prelaunch/KoremodsPrelaunch.java:83-102 | a missing manifest attribute fails with "Required dependency <name> not found" and touches nothing. Unless `Files.notExists` holds for the destination, the destination's URL is returned and nothing is written; this includes a destination whose lookup fails because a regular file lies on the way. A successful call returns the URL of the dependencies directory resolved with the attribute's value, and when the destination was reported absent that file then exists. Every other failure is "Failed to extract required dependency <name>", and files that existed before are never changed |
| GofancyPrelaunch.FreshExtraction | src/main/java/wtf/gofancy/koremods/prelaunch/KoremodsPrelaunch.java:89-97 | when `Files.notExists` holds for the destination, success means the dependencies directory was created and the jar entry's bytes were copied there; a missing jar entry (null entry) fails once the directories exist; a plain file name whose write is neither refused nor cut off is extracted |
| GofancyPrelaunch.NestedEntryFails | src/main/java/wtf/gofancy/koremods/prelaunch/KoremodsPrelaunch.java:88-96 | an entry name `dir/file` whose destination is reported absent resolves to two elements below the dependencies directory; only that directory is created, so opening `dependencies/dir/file` fails and the call fails with that I/O cause |
| GofancyPrelaunch.InterruptedCopyIsReused | src/main/java/wtf/gofancy/koremods/prelaunch/KoremodsPrelaunch.java:89-96 | a copy cut off part way fails but leaves the truncated prefix at the destination; the next call finds the file present and returns its URL unchanged |
| GofancyPrelaunch.Layout | src/main/java/wtf/gofancy/koremods/prelaunch/KoremodsPrelaunch.java:70-75 | `config`, `mods`, the namespace, `cache` and `dependencies` each resolve to one more path element |
| GofancyPrelaunch.ExtractIdempotent | src/main/java/wtf/gofancy/koremods/prelaunch/KoremodsPrelaunch.java:89 | extracting again after a success returns the same URL and leaves the disk as it is |
| GofancyPrelaunch.FileAboveDestinationReturned | src/main/java/wtf/gofancy/koremods/prelaunch/KoremodsPrelaunch.java:89 | when a regular file lies on the way to the destination, neither existence test holds, so the call returns the destination's URL and writes nothing |
| GofancyPrelaunch.KoremodsPrelaunch.constructor | src/main/java/wtf/gofancy/koremods/prelaunch/KoremodsPrelaunch.java:68-81 | the config, mods, cache and dependencies directories are `config`, `mods`, `mods/koremods/cache` and `mods/koremods/dependencies` under the game directory; the cache directory is created with `mkdirs`; the manifest attributes are read from the main jar |
| GofancyPrelaunch.KoremodsPrelaunch.ExtractDependency | src/main/java/wtf/gofancy/koremods/prelaunch/KoremodsPrelaunch.java:83-102 | the method's result and the disk it leaves are exactly those of `Extract`, with the copy guarded by `Files.notExists`; so nested entry names fail and a cut-off copy leaves its prefix, as `NestedEntryFails` and `InterruptedCopyIsReused` state |
| Su5edPrelaunch.Extract | src/main/java/dev/su5ed/koremods/prelaunch/KoremodsPrelaunch.java:109-127 | as in the newer revision, with the same `Files.notExists` guard, except that the jar entry is looked up before the existence check. A missing entry is a `NullPointerException` even when the destination exists. I/O failures are "Can't extract required dependency <name>" |
| Su5edPrelaunch.ExtractIdempotent | src/main/java/dev/su5ed/koremods/prelaunch/KoremodsPrelaunch.java:116 | extracting again after a success returns the same URL and leaves the disk as it is |
| Su5edPrelaunch.FileAboveDestinationReturned | src/main/java/dev/su5ed/koremods/prelaunch/KoremodsPrelaunch.java:116 | when the entry is declared and a regular file lies on the way to the destination, the call returns the destination's URL and writes nothing |
| Su5edPrelaunch.NestedEntryFails | src/main/java/dev/su5ed/koremods/prelaunch/KoremodsPrelaunch.java:115-121 | an entry name `dir/file` whose destination is reported absent resolves to two elements below the dependencies path; only that path is created, so opening the destination fails with "Can't extract required dependency <name>" |
| Su5edPrelaunch.PlainEntryExtracted | src/main/java/dev/su5ed/koremods/prelaunch/KoremodsPrelaunch.java:115-123 | a plain entry name whose write is neither refused nor cut off is extracted with the entry's bytes, and the dependencies path exists afterwards |
| Su5edPrelaunch.InterruptedCopyIsReused | src/main/java/dev/su5ed/koremods/prelaunch/KoremodsPrelaunch.java:116-121 | a copy cut off part way fails but leaves the truncated prefix; the next call returns it as the extracted dependency |
| Su5edPrelaunch.Layout | src/main/java/dev/su5ed/koremods/prelaunch/KoremodsPrelaunch.java:79-83 | `mods`, `config`, `koremods`, `cache` and `dependencies` each add one element; the Minecraft version is resolved as given, one element when it is a plain name |
| Strings.JavaSplit | src/main/java/dev/su5ed/koremods/prelaunch/KoremodsPrelaunch.java:131-133 | Java's `String.split` with a literal separator: `[s]` when the separator does not occur; otherwise the pieces between occurrences, in order, with trailing empty pieces removed and only those |
| Su5edPrelaunch.ItemUrls | src/main/java/dev/su5ed/koremods/prelaunch/KoremodsPrelaunch.java:132-146 | the items convert without error iff every item has a last `%%`-separated part. There are never more URLs than items, and with none malformed there is one URL per item, in order, for the item's last part |
| Su5edPrelaunch.ItemUrlsAreWellFormedPaths | src/main/java/dev/su5ed/koremods/prelaunch/KoremodsPrelaunch.java:132-146 | when every item has a last part, the result is exactly the URLs of the item paths `toURL` accepts, in item order: the list filter of the paths, mapped to URLs |
| Su5edPrelaunch.LastPart | src/main/java/dev/su5ed/koremods/prelaunch/KoremodsPrelaunch.java:133-134 | fails with index -1 exactly when `split("%%")` leaves no parts; an item without `%%` is its own last part; otherwise the last part is one of the split's pieces and not empty |
| Su5edPrelaunch.ModClasses | src/main/java/dev/su5ed/koremods/prelaunch/KoremodsPrelaunch.java:129-148 | without `MOD_CLASSES` the result is empty; otherwise it is `ItemUrls` over the variable split at the path separator |
| Su5edPrelaunch.SplitAllPiecesFree | src/main/java/dev/su5ed/koremods/prelaunch/KoremodsPrelaunch.java:133 | no piece of a split contains the separator |
| Su5edPrelaunch.LastPartProperties | src/main/java/dev/su5ed/koremods/prelaunch/KoremodsPrelaunch.java:133-134 | an item without `%%` is its own last part, and a last part never contains `%%` |
| Su5edPrelaunch.SeparatorOnlyItemFails | src/main/java/dev/su5ed/koremods/prelaunch/KoremodsPrelaunch.java:133-134 | the item `%%` splits into no parts, so `parts[parts.length - 1]` is out of bounds |
| Su5edPrelaunch.LaunchTargetIsPriority | src/main/java/dev/su5ed/koremods/prelaunch/KoremodsPrelaunch.java:52-63 | the launch target `dev.su5ed.koremods.launch.KoremodsLaunch` falls under a Kotlin dependency package and under no exclusion, so the isolating loader must find it locally |
| Su5edPrelaunch.KoremodsPrelaunch.constructor | src/main/java/dev/su5ed/koremods/prelaunch/KoremodsPrelaunch.java:79-89 | given the URLs `getModClasses()` returned, the mods path is `mods`, and the cache and dependencies paths are `koremods/cache` and `koremods/dependencies` under `mods` resolved with the version (`mods/<mcVersion>/…` for a plain version); the cache directory is created with `mkdirs`; no dependency loader exists yet |
| Su5edPrelaunch.KoremodsPrelaunch.Create | src/main/java/dev/su5ed/koremods/prelaunch/KoremodsPrelaunch.java:76-89 | `getModClasses()` runs first: when it cannot index an item, construction fails with that error and the disk is untouched; otherwise the prelaunch holds exactly the URLs it returned, with the constructor's layout and the cache directory created |
| Su5edPrelaunch.KoremodsPrelaunch.ExtractDependency | src/main/java/dev/su5ed/koremods/prelaunch/KoremodsPrelaunch.java:109-127 | the method's result and the disk it leaves are exactly those of `Extract`, with the copy guarded by `Files.notExists`; so nested entry names fail and a cut-off copy leaves its prefix, as `NestedEntryFails` and `InterruptedCopyIsReused` state |
| Su5edPrelaunch.KoremodsPrelaunch.Launch | src/main/java/dev/su5ed/koremods/prelaunch/KoremodsPrelaunch.java:91-107 | a failed Kotlin extraction fails the launch and creates no loader. Otherwise a fresh loader over [mod jar, Kotlin jar] is installed, with the Kotlin packages as priority. A missing launch target fails with `ClassNotFound`. Once the target is found, the launch succeeds with no splash factory when none is wanted (a "mac" OS name or no factory class). When one is wanted, the factory class is resolved by the loader's policy with the launch target already cached: found, it is the launch's splash factory; not found, the launch fails with `ClassNotFound` for it. A successful launch passes the cache, config and mods directories and the discovery URLs |
| Su5edPrelaunch.KoremodsPrelaunch.LoadLaunchClasses | src/main/java/dev/su5ed/koremods/prelaunch/KoremodsPrelaunch.java:96-103 | on a fresh strict loader with the Kotlin priority packages: the launch target is looked up locally and, once found, cached; then the splash factory class is loaded, when wanted, through the same policy, and the first failure is thrown |
| SandboxPolicy.FilteredLoad | src/main/kotlin/wtf/gofancy/koremods/script/KoremodsScriptEvaluationConfiguration.kt:77-82 | a name is refused with the name as message iff it contains '.', the list is non-empty and no entry is a prefix of it; every other name is the parent's class or not found |
| SandboxPolicy.PermittedGrows | src/main/kotlin/dev/su5ed/koremods/script/CoremodScriptEvaluationConfiguration.kt:66-75 | appending entries to a non-empty list never revokes a permission, and every name under a new entry becomes permitted |
| GofancySandbox.LoadClass | src/main/kotlin/wtf/gofancy/koremods/script/KoremodsScriptEvaluationConfiguration.kt:39-82 | over the fixed `ALLOWED_CLASSES`: a dotted name without an allowed prefix is refused, and an undotted name always reaches the parent |
| GofancySandbox.PrefixEntriesAdmitLongerNames | src/main/kotlin/wtf/gofancy/koremods/script/KoremodsScriptEvaluationConfiguration.kt:39-50 | entries match as prefixes: the `Identifier` entry also admits `wtf.gofancy.koremods.IdentifierFactory`, and `java.lang.` admits `java.lang.String` |
| GofancySandbox.JavaIoFileRefused | src/main/kotlin/wtf/gofancy/koremods/script/KoremodsScriptEvaluationConfiguration.kt:39-50 | `java.io.File` is refused |
| Su5edSandbox.FilteredClassLoader.constructor | src/main/kotlin/dev/su5ed/koremods/script/CoremodScriptEvaluationConfiguration.kt:54-64 | a new loader starts from the eight default restriction prefixes |
| Su5edSandbox.FilteredClassLoader.LoadClass | src/main/kotlin/dev/su5ed/koremods/script/CoremodScriptEvaluationConfiguration.kt:66-71 | refused iff the name is dotted, the restrictions are non-empty and none is a prefix; otherwise the context loader's class |
| Su5edSandbox.FilteredClassLoader.Allow | src/main/kotlin/dev/su5ed/koremods/script/CoremodScriptEvaluationConfiguration.kt:73-75 | appends the paths; every name permitted before stays permitted, and every name under a new path becomes permitted |
| Su5edSandbox.RefineBeforeEvaluate | src/main/kotlin/dev/su5ed/koremods/script/CoremodScriptEvaluationConfiguration.kt:41-49 | the evaluation configuration comes back unchanged; a filtered base loader gains exactly the script's restrictions, or nothing when the script has none |
| Su5edSandbox.DefaultAdmitsJavaLangPrefix | src/main/kotlin/dev/su5ed/koremods/script/CoremodScriptEvaluationConfiguration.kt:58 | `java.lang` has no trailing dot, so it admits `java.lang.String` and also `java.langx.Foo` |
| Su5edSandbox.DefaultRefusesJavaIoFile | src/main/kotlin/dev/su5ed/koremods/script/CoremodScriptEvaluationConfiguration.kt:55-68 | the default restrictions refuse `java.io.File` |
| Su5edSandbox.AllowingAdmitsJavaIoFile | src/main/kotlin/dev/su5ed/koremods/script/CoremodScriptEvaluationConfiguration.kt:73-75 | after a script allows `java.io.File` it is admitted |
| ImportScripts.DefaultImports | src/main/kotlin/wtf/gofancy/koremods/script/KoremodsScriptCompilationConfiguration.kt:37-50 | the six built-in imports come first, in order, followed by exactly the plugin's imports |
| ImportScripts.PathItems | src/main/kotlin/wtf/gofancy/koremods/script/KoremodsScriptCompilationConfiguration.kt:75-76 | one item per path of an annotation, in order, each resolved against the script's directory (when it has one) and normalised |
| ImportScripts.Find | src/main/kotlin/wtf/gofancy/koremods/script/KoremodsScriptCompilationConfiguration.kt:77 | the position of a key in the insertion-ordered map, or -1 exactly when no entry has that key |
| ImportScripts.Put | src/main/kotlin/wtf/gofancy/koremods/script/KoremodsScriptCompilationConfiguration.kt:77 | `LinkedHashMap.put`: a new key is appended and nothing is returned; an existing key keeps its position, takes the new value, and its previous value is returned |
| ImportScripts.FindItem | src/main/kotlin/wtf/gofancy/koremods/script/KoremodsScriptCompilationConfiguration.kt:76-77 | the last item with a given absolute path, or -1 exactly when none has it |
| ImportScripts.PutKeys | src/main/kotlin/wtf/gofancy/koremods/script/KoremodsScriptCompilationConfiguration.kt:77 | `put` adds exactly its own key to the map's keys |
| ImportScripts.TableKeys | src/main/kotlin/wtf/gofancy/koremods/script/KoremodsScriptCompilationConfiguration.kt:71-87 | the map's keys are exactly the absolute paths of all imported items |
| ImportScripts.DiagnosticsCount | src/main/kotlin/wtf/gofancy/koremods/script/KoremodsScriptCompilationConfiguration.kt:78-85 | exactly one "Duplicate imports" diagnostic is reported per item whose absolute path an earlier item already had |
| ImportScripts.DistinctTable | src/main/kotlin/wtf/gofancy/koremods/script/KoremodsScriptCompilationConfiguration.kt:71-87 | without duplicates, the map holds one entry per item, in annotation order |
| ImportScripts.Files | src/main/kotlin/wtf/gofancy/koremods/script/KoremodsScriptCompilationConfiguration.kt:92 | the imported sources are the map's files, in the map's order |
| ImportScripts.RefineOutcome | src/main/kotlin/wtf/gofancy/koremods/script/KoremodsScriptCompilationConfiguration.kt:63-96 | with annotations present, the handler fails iff some absolute path repeats, with one diagnostic per repeat; otherwise the default imports are kept and the existing import scripts are followed by one source per imported path, in annotation order |
| ImportScripts.PutOneMore | src/main/kotlin/wtf/gofancy/koremods/script/KoremodsScriptCompilationConfiguration.kt:77-85 | importing one more item performs one `put` and adds a diagnostic exactly when `put` returned a previous value |
| ImportScripts.PathItemsOneMore | src/main/kotlin/wtf/gofancy/koremods/script/KoremodsScriptCompilationConfiguration.kt:75-76 | the items of one more path are the earlier items followed by that path's item |
| ImportScripts.ItemsOfOneMore | src/main/kotlin/wtf/gofancy/koremods/script/KoremodsScriptCompilationConfiguration.kt:72-75 | one more annotation adds its paths' items if it is an `@ImportScript`, and nothing otherwise |
| ImportScripts.PutPaths | src/main/kotlin/wtf/gofancy/koremods/script/KoremodsScriptCompilationConfiguration.kt:75-86 | the inner loop leaves the map and the diagnostics as if every item so far had been put in order |
| ImportScripts.Invoke | src/main/kotlin/wtf/gofancy/koremods/script/KoremodsScriptCompilationConfiguration.kt:63-96 | the handler's nested loops compute exactly the refinement that `RefineOutcome` characterises; without annotations the configuration comes back unchanged |
| Directories.NullIfBlank | src/main/kotlin/dev/su5ed/koremods/script/host/Directories.kt:85-91 | a setting is present iff it is set and not blank (Kotlin's `isBlank` whitespace), and a present setting keeps its value |
| Directories.BlankIsAbsent | src/main/kotlin/dev/su5ed/koremods/script/host/Directories.kt:85-91 | a blank value reads exactly like an unset key |
| Directories.Classify | src/main/kotlin/dev/su5ed/koremods/script/host/Directories.kt:66-82 | no name is Unknown; a name is Windows iff it starts with "windows"; OS X needs a "mac os" prefix; Unix is never a name starting with "windows" or "mac os" |
| Directories.Os | src/main/kotlin/dev/su5ed/koremods/script/host/Directories.kt:65-83 | the OS is known only when `os.name` is set and not blank, and is Windows iff its lower-cased value starts with "windows" |
| Directories.Cache | src/main/kotlin/dev/su5ed/koremods/script/host/Directories.kt:41-53 | a chosen directory starts with a non-blank setting; on Windows there is one iff `LOCALAPPDATA` or `java.io.tmpdir` is set; elsewhere iff `user.home` is set or, on Unix, `XDG_CACHE_HOME` |
| Directories.ClassifyCases | src/main/kotlin/dev/su5ed/koremods/script/host/Directories.kt:65-83 | the lower-cased `os.name` is Windows iff it starts with "windows", OS X iff it starts with "mac os" (and not "windows"), and Unix iff neither and it contains "unix" or "bsd" or starts with one of the listed Unix prefixes |
| Directories.NoOsNameUnknown | src/main/kotlin/dev/su5ed/koremods/script/host/Directories.kt:66-68 | a missing or blank `os.name` is the unknown OS |
| Directories.CacheRootIsSet | src/main/kotlin/dev/su5ed/koremods/script/host/Directories.kt:41-53 | a cache directory, when there is one, is rooted at a non-blank `user.home`, `LOCALAPPDATA`, `java.io.tmpdir` or `XDG_CACHE_HOME` value |
| Directories.TempOnlyOnWindows | src/main/kotlin/dev/su5ed/koremods/script/host/Directories.kt:40-46 | outside Windows the temp directory never influences the cache directory |
| Directories.CacheBlankPropertyIsAbsent | src/main/kotlin/dev/su5ed/koremods/script/host/Directories.kt:85 | a blank system property gives the same cache directory as an unset one |
| Directories.NoHomeNoCacheOutsideWindows | src/main/kotlin/dev/su5ed/koremods/script/host/Directories.kt:44-46 | without a user home and outside Windows, there is a cache directory iff the OS is Unix and `XDG_CACHE_HOME` is set |
| ScriptHost.IntToBytes | src/main/kotlin/dev/su5ed/koremods/script/host/CoremodScriptHostConfiguration.kt:77 | a 32-bit int becomes four bytes |
| ScriptHost.BytesToInt | src/main/kotlin/dev/su5ed/koremods/script/host/CoremodScriptHostConfiguration.kt:77 | four bytes read back as a 32-bit int |
| ScriptHost.IntBytesRoundTrip | src/main/kotlin/dev/su5ed/koremods/script/host/CoremodScriptHostConfiguration.kt:77 | `putInt` is big-endian two's complement: reading the four bytes back gives the int |
| ScriptHost.ToHexString | src/main/kotlin/dev/su5ed/koremods/script/host/CoremodScriptHostConfiguration.kt:75 | two characters per byte |
| ScriptHost.HexValue | src/main/kotlin/dev/su5ed/koremods/script/host/CoremodScriptHostConfiguration.kt:75 | the value of a lower-case hex digit, and -1 exactly for every other character |
| ScriptHost.HexRoundTrip | src/main/kotlin/dev/su5ed/koremods/script/host/CoremodScriptHostConfiguration.kt:75 | `"%02x"` per byte is reversible: the hex string determines the digest bytes |
| ScriptHost.Frame | src/main/kotlin/dev/su5ed/koremods/script/host/CoremodScriptHostConfiguration.kt:58-62 | `addToDigest` feeds a four-byte length followed by the chunk |
| ScriptHost.FramesAppend | src/main/kotlin/dev/su5ed/koremods/script/host/CoremodScriptHostConfiguration.kt:58-71 | framing a concatenation of chunks concatenates their framings |
| ScriptHost.UnframeFrames | src/main/kotlin/dev/su5ed/koremods/script/host/CoremodScriptHostConfiguration.kt:58-62 | length-prefixed framing is unambiguous: the framed bytes decode to exactly the chunks |
| ScriptHost.Chunks | src/main/kotlin/dev/su5ed/koremods/script/host/CoremodScriptHostConfiguration.kt:65-71 | the script text first, then a key and a value per entry |
| ScriptHost.ChunksAt | src/main/kotlin/dev/su5ed/koremods/script/host/CoremodScriptHostConfiguration.kt:68-71 | entry i contributes its key's bytes at position 1+2i and its value's at 2+2i |
| ScriptHost.ChunksFrames | src/main/kotlin/dev/su5ed/koremods/script/host/CoremodScriptHostConfiguration.kt:65-71 | framing all chunks is the text's frame followed by the entries' frames |
| ScriptHost.DigestInputDetermines | src/main/kotlin/dev/su5ed/koremods/script/host/CoremodScriptHostConfiguration.kt:55-71 | with an injective encoding, equal digest inputs mean the same script text and the same sorted entries |
| ScriptHost.DigestInputFramesChunks | src/main/kotlin/dev/su5ed/koremods/script/host/CoremodScriptHostConfiguration.kt:64-71 | after the four-byte cache version, the digest input is the framed chunks |
| ScriptHost.ChunksDetermine | src/main/kotlin/dev/su5ed/koremods/script/host/CoremodScriptHostConfiguration.kt:65-71 | with an injective encoding, the chunks determine the text and the entries |
| ScriptHost.BelowIrreflexive | src/main/kotlin/dev/su5ed/koremods/script/host/CoremodScriptHostConfiguration.kt:67 | no key name sorts before itself |
| ScriptHost.BelowTransitive | src/main/kotlin/dev/su5ed/koremods/script/host/CoremodScriptHostConfiguration.kt:67 | the key-name order is transitive |
| ScriptHost.BelowTotal | src/main/kotlin/dev/su5ed/koremods/script/host/CoremodScriptHostConfiguration.kt:67 | any two different key names are ordered |
| ScriptHost.BelowAsymmetric | src/main/kotlin/dev/su5ed/koremods/script/host/CoremodScriptHostConfiguration.kt:67 | the key-name order is asymmetric |
| ScriptHost.Insert | src/main/kotlin/dev/su5ed/koremods/script/host/CoremodScriptHostConfiguration.kt:67 | inserting adds exactly the entry (as a multiset) |
| ScriptHost.SortByName | src/main/kotlin/dev/su5ed/koremods/script/host/CoremodScriptHostConfiguration.kt:67 | `sortedBy { it.key.name }` is a permutation of the entries |
| ScriptHost.InsertSorted | src/main/kotlin/dev/su5ed/koremods/script/host/CoremodScriptHostConfiguration.kt:67 | inserting a new name keeps the entries strictly sorted |
| ScriptHost.SortByNameSorted | src/main/kotlin/dev/su5ed/koremods/script/host/CoremodScriptHostConfiguration.kt:67 | entries with distinct names come out strictly sorted by name |
| ScriptHost.SortedUnique | src/main/kotlin/dev/su5ed/koremods/script/host/CoremodScriptHostConfiguration.kt:67 | two strictly sorted sequences with the same elements are equal |
| ScriptHost.SortIgnoresIterationOrder | src/main/kotlin/dev/su5ed/koremods/script/host/CoremodScriptHostConfiguration.kt:66-67 | any two iteration orders of the same configuration map sort to the same sequence |
| ScriptHost.Digest.constructor | src/main/kotlin/dev/su5ed/koremods/script/host/CoremodScriptHostConfiguration.kt:56 | a new digest has been fed nothing |
| ScriptHost.Digest.Update | src/main/kotlin/dev/su5ed/koremods/script/host/CoremodScriptHostConfiguration.kt:60-61 | `update` appends the bytes to what the digest has been fed |
| ScriptHost.CompiledScriptUniqueName | src/main/kotlin/dev/su5ed/koremods/script/host/CoremodScriptHostConfiguration.kt:55-73 | the name is the hex of SHA-256 over: the cache version, the framed script text, and the framed key and value of every entry in name order |
| ScriptHost.FeedEntries | src/main/kotlin/dev/su5ed/koremods/script/host/CoremodScriptHostConfiguration.kt:66-71 | the loop over the sorted entries feeds exactly their frames, in order |
| ScriptHost.UniqueNameIgnoresIterationOrder | src/main/kotlin/dev/su5ed/koremods/script/host/CoremodScriptHostConfiguration.kt:66-71 | the cache name does not depend on the configuration map's iteration order |
| ScriptHost.Mkdir | src/main/kotlin/dev/su5ed/koremods/script/host/CoremodScriptHostConfiguration.kt:48 | `File.mkdir` either adds that one directory or changes nothing |
| ScriptHost.DefaultCacheDirIsDirectory | src/main/kotlin/dev/su5ed/koremods/script/host/CoremodScriptHostConfiguration.kt:52 | a returned default cache directory is an existing directory |
| ScriptHost.BlankSettingDisablesCache | src/main/kotlin/dev/su5ed/koremods/script/host/CoremodScriptHostConfiguration.kt:49 | a blank property or environment setting disables the cache and touches nothing |
| ScriptHost.PropertyWinsOverEnvironment | src/main/kotlin/dev/su5ed/koremods/script/host/CoremodScriptHostConfiguration.kt:44 | when the system property is set, the environment variable is ignored |
| ScriptHost.DefaultCacheDirCreatesAtMostSubdirectory | src/main/kotlin/dev/su5ed/koremods/script/host/CoremodScriptHostConfiguration.kt:43-53 | the lookup creates at most the `dev.su5ed.koremods.compiled.cache` directory under the platform cache directory, and only when no setting is given; files never change |
| ScriptHost.GetDefaultCacheDir | src/main/kotlin/dev/su5ed/koremods/script/host/CoremodScriptHostConfiguration.kt:43-53 | the method returns and leaves exactly the directory and the disk that `DefaultCacheDir` describes |
| ScriptHost.ConfiguredCacheDir | src/main/kotlin/dev/su5ed/koremods/script/host/CoremodScriptHostConfiguration.kt:30-31 | the blackboard's cache directory wins when set and is used only if it is a directory; otherwise the default lookup applies; a returned directory exists |
| ScriptHost.CacheJar | src/main/kotlin/dev/su5ed/koremods/script/host/CoremodScriptHostConfiguration.kt:35 | the cached jar is the unique name plus ".jar" directly inside the cache directory |
| ScriptHost.JarNameLength | src/main/kotlin/dev/su5ed/koremods/script/host/CoremodScriptHostConfiguration.kt:35 | a SHA-256 name gives a 68-character jar file name |
| Discovery.Identifier.ToString | src/main/kotlin/wtf/gofancy/koremods/ScriptDiscovery.kt:53-55 | `namespace:name`: the namespace, one colon, then the name |
| Discovery.IdentifierToStringInjective | src/main/kotlin/wtf/gofancy/koremods/ScriptDiscovery.kt:53-55 | with colon-free namespaces, the printed form determines the identifier |
| Discovery.ScriptName | src/main/kotlin/wtf/gofancy/koremods/ScriptDiscovery.kt:143-154 | a kept script name always matches `^[a-zA-Z0-9]*$` |
| Discovery.ScriptNameMarker | src/main/kotlin/wtf/gofancy/koremods/ScriptDiscovery.kt:143-150 | a kept name is the text of the last path segment before the first ".core.kts"; a segment without the marker is rejected |
| Discovery.ScriptNameOfScriptFile | src/main/kotlin/wtf/gofancy/koremods/ScriptDiscovery.kt:143-154 | `dir/name.core.kts…` is named `name` when the name fits the pattern; the marker may be followed by anything, so `a.core.kts.bak` is named `a` |
| Discovery.ScriptNameRejectsBadName | src/main/kotlin/wtf/gofancy/koremods/ScriptDiscovery.kt:151-153 | a name that fails the pattern is rejected |
| Discovery.ScriptNameOfSegment | src/main/kotlin/wtf/gofancy/koremods/ScriptDiscovery.kt:143-154 | for a dot-free name, the path is accepted iff the name matches the pattern, and it is then that name |
| Discovery.MarkerAfterName | src/main/kotlin/wtf/gofancy/koremods/ScriptDiscovery.kt:144 | in a dot-free name followed by the marker, the marker is found right after the name |
| Discovery.AfterLastSlash | src/main/kotlin/wtf/gofancy/koremods/ScriptDiscovery.kt:143 | `substringAfterLast('/')` of `dir/segment` is the segment |
| Discovery.Extension | src/main/kotlin/wtf/gofancy/koremods/ScriptDiscovery.kt:106 | `Path.extension`: the text after the last '.', or empty when the name has none |
| Discovery.Filter | src/main/kotlin/wtf/gofancy/koremods/ScriptDiscovery.kt:74-78 | keeps exactly the elements that pass, each one from the input |
| Discovery.FilterSnoc | src/main/kotlin/wtf/gofancy/koremods/ScriptDiscovery.kt:74 | filtering one more element appends it exactly when it passes |
| Discovery.FilterAppend | src/main/kotlin/wtf/gofancy/koremods/ScriptDiscovery.kt:74-81 | filtering distributes over concatenation |
| Discovery.Targets | src/main/kotlin/wtf/gofancy/koremods/ScriptDiscovery.kt:79 | one path per URL, in order |
| Discovery.FileClasspath | src/main/kotlin/wtf/gofancy/koremods/ScriptDiscovery.kt:76-79 | exactly the targets of the `file:` classpath URLs |
| Discovery.ScannedPaths | src/main/kotlin/wtf/gofancy/koremods/ScriptDiscovery.kt:72-82 | the scanned paths are the walked non-directory entries whose name differs from the directory's, followed by the `file:` classpath targets, and nothing else |
| Discovery.Concat | src/main/kotlin/wtf/gofancy/koremods/ScriptDiscovery.kt:218-221 | `flatMap` of nothing is empty |
| Discovery.ConcatAppend | src/main/kotlin/wtf/gofancy/koremods/ScriptDiscovery.kt:218-221 | `flatMap` distributes over concatenation |
| Discovery.ConcatEmpty | src/main/kotlin/wtf/gofancy/koremods/ScriptDiscovery.kt:218-221 | the flattened list is empty iff every inner list is |
| Discovery.ConcatMembers | src/main/kotlin/wtf/gofancy/koremods/ScriptDiscovery.kt:218-221 | an element is in the flattened list iff it is in some inner list |
| Discovery.GetAll | src/main/kotlin/wtf/gofancy/koremods/ScriptDiscovery.kt:196-198 | reading a pack's futures in order succeeds iff every future holds a value, and then gives one script per future with its key and value |
| Discovery.GetAllFailsAtFirst | src/main/kotlin/wtf/gofancy/koremods/ScriptDiscovery.kt:196-198 | the failure rethrown is that of the first failed future in the pack |
| Discovery.GetPacks | src/main/kotlin/wtf/gofancy/koremods/ScriptDiscovery.kt:195-201 | reading all packs succeeds iff every pack's futures do, and then gives one pack per pack, in order, with its scripts |
| Discovery.GetPacksFailsAtFirst | src/main/kotlin/wtf/gofancy/koremods/ScriptDiscovery.kt:195-201 | the failure rethrown is that of the first pack holding a failed future |
| Discovery.Flatten | src/main/kotlin/wtf/gofancy/koremods/ScriptDiscovery.kt:218-222 | no packs give no transformers; one pack gives its scripts' transformers in order |
| Discovery.FlattenMember | src/main/kotlin/wtf/gofancy/koremods/ScriptDiscovery.kt:218-222 | every transformer of every script of every pack is in the flattened list |
| Discovery.ScriptTransformersMember | src/main/kotlin/wtf/gofancy/koremods/ScriptDiscovery.kt:221 | every transformer of every script is in the pack's list |
| Discovery.FlattenAppend | src/main/kotlin/wtf/gofancy/koremods/ScriptDiscovery.kt:218-222 | flattening the packs distributes over concatenation of packs |
| Discovery.ScriptTransformersAppend | src/main/kotlin/wtf/gofancy/koremods/ScriptDiscovery.kt:220-221 | the transformers of a pack's scripts distribute over concatenation of scripts |
| GofancyDiscovery.LocateScript | src/main/kotlin/wtf/gofancy/koremods/ScriptDiscovery.kt:142-166 | a path yields a script iff its name is valid and the locator finds it; the script is then `namespace:name` with the lines joined by "\n" |
| GofancyDiscovery.LocateScripts | src/main/kotlin/wtf/gofancy/koremods/ScriptDiscovery.kt:140-167 | at most one script per path, each in the configuration's namespace with a valid name |
| GofancyDiscovery.LocateScriptsKeepsAll | src/main/kotlin/wtf/gofancy/koremods/ScriptDiscovery.kt:140-167 | when every path locates, one script per path comes back, in order |
| GofancyDiscovery.LocateScriptsLength | src/main/kotlin/wtf/gofancy/koremods/ScriptDiscovery.kt:140-167 | when every path locates, nothing is dropped |
| GofancyDiscovery.LocateScriptsAt | src/main/kotlin/wtf/gofancy/koremods/ScriptDiscovery.kt:140-167 | when every path locates, the i-th script comes from the i-th path |
| GofancyDiscovery.ReadConfig | src/main/kotlin/wtf/gofancy/koremods/ScriptDiscovery.kt:122-138 | a configuration yields a pack iff at least one of its scripts is located; an empty script list yields none |
| GofancyDiscovery.ScanPath | src/main/kotlin/wtf/gofancy/koremods/ScriptDiscovery.kt:93-118 | a directory with fewer than three path elements throws, because its debug message (line 96) is built from a third parent that does not exist; otherwise only a directory or jar/zip archive with a configuration yields a pack, and then it is that configuration's pack |
| GofancyDiscovery.ScanPaths | src/main/kotlin/wtf/gofancy/koremods/ScriptDiscovery.kt:90-120 | succeeds iff no path is such a shallow directory, and then holds at most one pack per path, each with at least one script; a failure names a shallow directory from the input |
| GofancyDiscovery.ScanPathsFailsAtFirst | src/main/kotlin/wtf/gofancy/koremods/ScriptDiscovery.kt:93-96 | the directory reported is the first shallow one in path order |
| GofancyDiscovery.ScanPathsWithoutConfigs | src/main/kotlin/wtf/gofancy/koremods/ScriptDiscovery.kt:90-120 | without configurations a successful scan finds nothing |
| GofancyDiscovery.ScriptCountPositive | src/main/kotlin/wtf/gofancy/koremods/ScriptDiscovery.kt:87-172 | whenever packs are found, the thread pool size is positive, so `newFixedThreadPool` cannot fail here |
| GofancyDiscovery.EvalScripts | src/main/kotlin/wtf/gofancy/koremods/ScriptDiscovery.kt:181-198 | succeeds iff every script's evaluation succeeds, and then yields one evaluated script per source script, in order, each under its identifier and evaluated with its pack's file |
| GofancyDiscovery.EvalPacks | src/main/kotlin/wtf/gofancy/koremods/ScriptDiscovery.kt:180-201 | succeeds iff every pack's scripts evaluate, and then yields one evaluated pack per source pack, in order |
| GofancyDiscovery.EvalPacksFailsAtFirst | src/main/kotlin/wtf/gofancy/koremods/ScriptDiscovery.kt:195-198 | the failure raised is that of the first failed script in pack and script order, the order in which `future.get()` is called |
| GofancyDiscovery.Discover | src/main/kotlin/wtf/gofancy/koremods/ScriptDiscovery.kt:84-88 | a shallow directory aborts with a NullPointerException naming it; no packs give the empty list; otherwise the evaluated packs, or the first evaluation failure as an ExecutionException |
| GofancyDiscovery.DiscoverShape | src/main/kotlin/wtf/gofancy/koremods/ScriptDiscovery.kt:84-88 | a successful discovery matches the scanned packs one for one, with the same number of scripts each, and none empty |
| GofancyDiscovery.ShallowDirectoryAborts | src/main/kotlin/wtf/gofancy/koremods/ScriptDiscovery.kt:96 | a directory with fewer than three elements, reached before any other shallow one, aborts the whole discovery with a NullPointerException |
| GofancyDiscovery.KoremodsDiscoverer.constructor | src/main/kotlin/wtf/gofancy/koremods/ScriptDiscovery.kt:68-69 | the `lateinit` list starts uninitialised |
| GofancyDiscovery.KoremodsDiscoverer.DiscoverKoremods | src/main/kotlin/wtf/gofancy/koremods/ScriptDiscovery.kt:84-88 | on success the packs are set to the evaluated scanned packs, or to the empty list when nothing was found; on failure the exception is returned and the property keeps its previous value |
| GofancyDiscovery.KoremodsDiscoverer.DiscoverKoremodsIn | src/main/kotlin/wtf/gofancy/koremods/ScriptDiscovery.kt:72-82 | discovers over the walked directory's files followed by the `file:` classpath entries, with the same success and failure outcomes |
| GofancyDiscovery.KoremodsDiscoverer.FlatTransformers | src/main/kotlin/wtf/gofancy/koremods/ScriptDiscovery.kt:216-222 | available iff initialised, and then every script's transformers in pack and script order |
| Su5edDiscovery.LocateScript | src/main/kotlin/dev/su5ed/koremods/ScriptDiscovery.kt:125-147 | a path yields a script iff its name is valid and the locator finds it; the script is then named after the file, with the lines joined by "\n" |
| Su5edDiscovery.LocateScripts | src/main/kotlin/dev/su5ed/koremods/ScriptDiscovery.kt:123-149 | at most one script per path, each with a valid name |
| Su5edDiscovery.ReadConfig | src/main/kotlin/dev/su5ed/koremods/ScriptDiscovery.kt:111-121 | every configuration yields a pack for its mod id and file, even one whose scripts all fail to locate |
| Su5edDiscovery.ReadAll | src/main/kotlin/dev/su5ed/koremods/ScriptDiscovery.kt:85-107 | one pack per configured path, in order |
| Su5edDiscovery.ScanStep | src/main/kotlin/dev/su5ed/koremods/ScriptDiscovery.kt:85-107 | scanning one more path appends its pack exactly when it is a configured directory or archive |
| Su5edDiscovery.ReadAllSnoc | src/main/kotlin/dev/su5ed/koremods/ScriptDiscovery.kt:91-102 | reading one more configured path appends its pack |
| Su5edDiscovery.ScanPath | src/main/kotlin/dev/su5ed/koremods/ScriptDiscovery.kt:86-106 | a path yields a pack iff it is a directory or jar/zip archive holding a configuration |
| Su5edDiscovery.ScanPaths | src/main/kotlin/dev/su5ed/koremods/ScriptDiscovery.kt:82-109 | the loop collects exactly the packs of the configured paths, in order |
| Su5edDiscovery.EveryConfigYieldsPack | src/main/kotlin/dev/su5ed/koremods/ScriptDiscovery.kt:82-121 | one pack per configured path, and each configured path's pack is present |
| Su5edDiscovery.EvalScripts | src/main/kotlin/dev/su5ed/koremods/ScriptDiscovery.kt:157-178 | succeeds iff every script's evaluation succeeds, and then yields one evaluated script per source script, in order, each evaluated with its pack's mod id and file |
| Su5edDiscovery.EvalPacks | src/main/kotlin/dev/su5ed/koremods/ScriptDiscovery.kt:151-182 | succeeds iff every pack's scripts evaluate, and then yields one evaluated pack per source pack, in order, keeping the mod id |
| Su5edDiscovery.EvalPacksFailsAtFirst | src/main/kotlin/dev/su5ed/koremods/ScriptDiscovery.kt:176-181 | the failure raised is that of the first failed script in pack and script order |
| Su5edDiscovery.Discover | src/main/kotlin/dev/su5ed/koremods/ScriptDiscovery.kt:75-80 | no located script gives the empty list; otherwise the evaluated packs, or the first evaluation failure as an ExecutionException |
| Su5edDiscovery.ScriptCountNeedsPack | src/main/kotlin/dev/su5ed/koremods/ScriptDiscovery.kt:78 | a positive script sum requires at least one pack |
| Su5edDiscovery.DiscoverEmptyIff | src/main/kotlin/dev/su5ed/koremods/ScriptDiscovery.kt:75-80 | a successful discovery is empty iff the packs hold no scripts at all; a pack without scripts is kept when others have some |
| Su5edDiscovery.DiscoverFailsIff | src/main/kotlin/dev/su5ed/koremods/ScriptDiscovery.kt:75-80 | discovery fails iff some script was located and some located script's evaluation fails |
| Su5edDiscovery.KoremodsDiscoverer.constructor | src/main/kotlin/dev/su5ed/koremods/ScriptDiscovery.kt:59-60 | the `lateinit` list starts uninitialised |
| Su5edDiscovery.KoremodsDiscoverer.DiscoverKoremods | src/main/kotlin/dev/su5ed/koremods/ScriptDiscovery.kt:75-80 | on success the packs are set to the evaluated scanned packs when the script sum is positive, and to the empty list otherwise; on failure the exception is returned and the property keeps its previous value |
| Su5edDiscovery.KoremodsDiscoverer.DiscoverKoremodsIn | src/main/kotlin/dev/su5ed/koremods/ScriptDiscovery.kt:63-73 | discovers over the walked directory's files followed by the `file:` classpath entries, with the same success and failure outcomes |
| Su5edDiscovery.KoremodsDiscoverer.FlatTransformers | src/main/kotlin/dev/su5ed/koremods/ScriptDiscovery.kt:196-202 | available iff initialised, and then every script's transformers in pack and script order |
| KoremodDiscovery.LocateScripts | src/main/kotlin/dev/su5ed/koremods/KoremodDiscovery.kt:95-109 | at most one script per configured (name, path) pair |
| KoremodDiscovery.LocateScriptsKeeps | src/main/kotlin/dev/su5ed/koremods/KoremodDiscovery.kt:95-109 | every located script is a configured name with its path's lines joined by "\n"; when every path is found, none is dropped |
| KoremodDiscovery.ReadConfig | src/main/kotlin/dev/su5ed/koremods/KoremodDiscovery.kt:83-93 | every configuration yields a pack for its mod id and file |
| KoremodDiscovery.ReadAll | src/main/kotlin/dev/su5ed/koremods/KoremodDiscovery.kt:58-79 | one pack per configured path, in order |
| KoremodDiscovery.ScanStep | src/main/kotlin/dev/su5ed/koremods/KoremodDiscovery.kt:58-79 | scanning one more path appends its pack exactly when it is configured |
| KoremodDiscovery.ReadAllSnoc | src/main/kotlin/dev/su5ed/koremods/KoremodDiscovery.kt:63-76 | reading one more configured path appends its pack |
| KoremodDiscovery.ScanPath | src/main/kotlin/dev/su5ed/koremods/KoremodDiscovery.kt:59-78 | a path yields a pack iff it is a directory or jar/zip archive holding a configuration |
| KoremodDiscovery.ScanPaths | src/main/kotlin/dev/su5ed/koremods/KoremodDiscovery.kt:56-81 | the loop collects exactly one pack per configured path, in order |
| KoremodDiscovery.ScannedPathsKeepingDirectories | src/main/kotlin/dev/su5ed/koremods/KoremodDiscovery.kt:37-47 | unlike the newer discoverer, walked directories are kept: every walked entry whose name differs from the directory's, then the `file:` classpath targets |
| KoremodDiscovery.EvalScripts | src/main/kotlin/dev/su5ed/koremods/KoremodDiscovery.kt:117-133 | succeeds iff every script's evaluation succeeds, and then yields one evaluated script per source script, in order |
| KoremodDiscovery.EvalPacks | src/main/kotlin/dev/su5ed/koremods/KoremodDiscovery.kt:111-136 | succeeds iff every pack's scripts evaluate, and then yields one evaluated pack per source pack, in order, keeping the mod id |
| KoremodDiscovery.EvalPacksFailsAtFirst | src/main/kotlin/dev/su5ed/koremods/KoremodDiscovery.kt:130-133 | the failure raised is that of the first failed script in pack and script order |
| KoremodDiscovery.Discover | src/main/kotlin/dev/su5ed/koremods/KoremodDiscovery.kt:49-54 | no located script gives the empty list; otherwise the evaluated packs, or the first evaluation failure as an ExecutionException |
| KoremodDiscovery.DiscoverEmptyIff | src/main/kotlin/dev/su5ed/koremods/KoremodDiscovery.kt:49-54 | a successful discovery is empty iff the packs hold no scripts at all |
| KoremodDiscovery.DiscoverFailsIff | src/main/kotlin/dev/su5ed/koremods/KoremodDiscovery.kt:49-54 | discovery fails iff some script was located and some located script's evaluation fails |
| KoremodDiscovery.KoremodDiscoverer.constructor | src/main/kotlin/dev/su5ed/koremods/KoremodDiscovery.kt:33-34 | the `lateinit` list starts uninitialised |
| KoremodDiscovery.KoremodDiscoverer.DiscoverKoremods | src/main/kotlin/dev/su5ed/koremods/KoremodDiscovery.kt:49-54 | on success the packs are set to the evaluated scanned packs when the script sum is positive, and to the empty list otherwise; on failure the exception is returned and the property keeps its previous value |
| KoremodDiscovery.KoremodDiscoverer.DiscoverKoremodsIn | src/main/kotlin/dev/su5ed/koremods/KoremodDiscovery.kt:37-47 | discovers over the kept walked entries followed by the `file:` classpath entries, with the same success and failure outcomes |
| KoremodDiscovery.KoremodDiscoverer.FlatTransformers | src/main/kotlin/dev/su5ed/koremods/KoremodDiscovery.kt:150-156 | available iff initialised, and then every script's transformers in pack and script order |
| GofancyLoading.LoaderMode.Extension | src/main/kotlin/wtf/gofancy/koremods/ScriptLoading.kt:53-55 | compile-and-evaluate mode scans for `core.kts` sources; evaluate-only mode scans for `jar` files |
| GofancyLoading.Compile | src/main/kotlin/wtf/gofancy/koremods/ScriptLoading.kt:76-81 | compile-and-evaluate mode compiles the located sources with the mode's libraries; evaluate-only mode reads precompiled jars |
| GofancyLoading.LoadKeepsPacks | src/main/kotlin/wtf/gofancy/koremods/ScriptLoading.kt:73-85 | a compilation failure is the load's failure. With no scripts the load yields no packs. Otherwise a successful load yields one pack per compiled pack, keeping its namespace, path and script identifiers in order |
| GofancyLoading.KoremodsLoader.constructor | src/main/kotlin/wtf/gofancy/koremods/ScriptLoading.kt:57-59 | a new loader has its mode and no packs |
| GofancyLoading.KoremodsLoader.LoadKoremods | src/main/kotlin/wtf/gofancy/koremods/ScriptLoading.kt:73-85 | on success the packs are replaced by the load's result; on failure the exception propagates and the packs stay as they were |
| GofancyLoading.KoremodsLoader.GetAllTransformers | src/main/kotlin/wtf/gofancy/koremods/ScriptLoading.kt:87-91 | every script's transformers, in pack and script order |
| GofancyLoading.LoadKoremodsIn | src/main/kotlin/wtf/gofancy/koremods/ScriptLoading.kt:61-71 | loads from the directory's walked files followed by the `file:` additional paths |
| GofancyEvaluation.EvalTransformers | src/main/kotlin/wtf/gofancy/koremods/ScriptEvaluation.kt:99-115 | only a Unit result yields the script's transformers. A returned value, a script exception, a not-evaluated result or a failed evaluation each throw `ScriptEvaluationException`. Only the script-exception case carries a cause, and that cause is the script's error |
| GofancyEvaluation.EvalChecked | src/main/kotlin/wtf/gofancy/koremods/ScriptEvaluation.kt:88-97 | as `evalTransformers`, but a script defining no transformers fails with "Script <namespace:name> does not define any transformers" |
| GofancyEvaluation.EvalScripts | src/main/kotlin/wtf/gofancy/koremods/ScriptEvaluation.kt:64-82 | succeeds iff every script of the pack evaluates, with one result per script in order; a failure is the `ExecutionException` that `future.get()` throws |
| GofancyEvaluation.EvalScriptsFailsAtFirst | src/main/kotlin/wtf/gofancy/koremods/ScriptEvaluation.kt:80-81 | the exception raised is an `ExecutionException` whose cause is the first failing script's exception |
| GofancyEvaluation.EvalAll | src/main/kotlin/wtf/gofancy/koremods/ScriptEvaluation.kt:64-85 | succeeds iff every pack evaluates, with one pack per compiled pack, keeping namespace and path; a failure is an `ExecutionException` |
| GofancyEvaluation.EvalAllFailsAtFirst | src/main/kotlin/wtf/gofancy/koremods/ScriptEvaluation.kt:79-85 | over all packs, the `ExecutionException` raised wraps the first failing script of the first failing pack |
| GofancyEvaluation.EvalScriptPacks | src/main/kotlin/wtf/gofancy/koremods/ScriptEvaluation.kt:55-86 | with zero scripts in total, `newFixedThreadPool(0)` throws an unwrapped `IllegalArgumentException`; otherwise the packs are evaluated, a failure surfacing as `ExecutionException` |
| GofancyEvaluation.NoScriptsFails | src/main/kotlin/wtf/gofancy/koremods/ScriptEvaluation.kt:56-58 | evaluating no packs at all fails |
| GofancyEvaluation.EvalScriptPacksFixed | src/main/kotlin/wtf/gofancy/koremods/ScriptEvaluation.kt:55-86 | agrees with `evalScriptPacks` whenever there is at least one script |
| GofancyEvaluation.EmptyPacksEvaluate | src/main/kotlin/wtf/gofancy/koremods/ScriptEvaluation.kt:56 | a zero script sum means every pack is empty |
| GofancyEvaluation.EvalScriptPacksFixedOutcome | src/main/kotlin/wtf/gofancy/koremods/ScriptEvaluation.kt:55-86 | with no scripts the corrected evaluation yields no packs. It succeeds iff every script evaluates to a non-empty handler. It then keeps every pack's namespace, path and script identifiers, in order |
| GofancyEvaluation.ReadEntries | src/main/kotlin/wtf/gofancy/koremods/ScriptEvaluation.kt:140-143 | the entry map's keys are exactly the jar's entry names |
| GofancyEvaluation.ReadEntriesLastWins | src/main/kotlin/wtf/gofancy/koremods/ScriptEvaluation.kt:142 | `associate` keeps the bytes of the last entry with a given name |
| GofancyEvaluation.ResourceName | src/main/kotlin/wtf/gofancy/koremods/ScriptEvaluation.kt:176 | the resource of a class is its name with '/' for '.' followed by ".class" |
| GofancyEvaluation.ResourceNameRoundTrip | src/main/kotlin/wtf/gofancy/koremods/ScriptEvaluation.kt:176 | for names without '/', the class name can be read back from its resource name |
| GofancyEvaluation.JarClassLoader.constructor | src/main/kotlin/wtf/gofancy/koremods/ScriptEvaluation.kt:174 | the loader keeps the jar's entries |
| GofancyEvaluation.JarClassLoader.FindClass | src/main/kotlin/wtf/gofancy/koremods/ScriptEvaluation.kt:175-183 | a class is defined from its resource's bytes iff the resource is an entry; otherwise `ClassNotFoundException(name)` |
| GofancyEvaluation.JarClassLoader.GetResourceAsStream | src/main/kotlin/wtf/gofancy/koremods/ScriptEvaluation.kt:185-187 | a resource is found iff it is an entry, with that entry's bytes |
| GofancyEvaluation.CompiledScriptLoadedFromJar.constructor | src/main/kotlin/wtf/gofancy/koremods/ScriptEvaluation.kt:145-146 | a new compiled script keeps its class name and entries, and is not loaded yet |
| GofancyEvaluation.CompiledScriptLoadedFromJar.ScriptOrFail | src/main/kotlin/wtf/gofancy/koremods/ScriptEvaluation.kt:148 | the loaded script, or "Compiled script is not loaded yet" exactly when none is loaded |
| GofancyEvaluation.CompiledScriptLoadedFromJar.CompilationConfiguration | src/main/kotlin/wtf/gofancy/koremods/ScriptEvaluation.kt:161-162 | available exactly once the script is loaded, and then the loaded script's configuration |
| GofancyEvaluation.CompiledScriptLoadedFromJar.SourceLocationId | src/main/kotlin/wtf/gofancy/koremods/ScriptEvaluation.kt:164-165 | available exactly once the script is loaded, and then the loaded script's location |
| GofancyEvaluation.CompiledScriptLoadedFromJar.GetClass | src/main/kotlin/wtf/gofancy/koremods/ScriptEvaluation.kt:150-159 | the script is created from the jar's class loader on the first call only; later calls reuse it; the result is the loaded script's class |
| GofancyEvaluation.LoadScriptFromJar | src/main/kotlin/wtf/gofancy/koremods/ScriptEvaluation.kt:129-138 | a jar without a manifest fails with `NullPointerException`; one whose manifest lacks `Main-Class` fails with "No Main-Class manifest attribute"; otherwise a fresh, not yet loaded compiled script over the main class and the jar's entries |
| GofancyDsl.SimpleProperty.constructor | src/main/kotlin/wtf/gofancy/koremods/dsl/Transformers.kt:68-69 | a property starts holding its default |
| GofancyDsl.SimpleProperty.GetValue | src/main/kotlin/wtf/gofancy/koremods/dsl/Transformers.kt:71-73 | a set property returns its value; an unset one fails with "Property <name> should be initialized before get." |
| GofancyDsl.SimpleProperty.SetValue | src/main/kotlin/wtf/gofancy/koremods/dsl/Transformers.kt:75-77 | the property then holds the new value |
| GofancyDsl.ReadAfterSets | src/main/kotlin/wtf/gofancy/koremods/dsl/Transformers.kt:68-77 | after any number of sets, a read returns the last value set, or the default when there was none; it never fails |
| GofancyDsl.MapClass | src/main/kotlin/wtf/gofancy/koremods/dsl/Transformers.kt:92-93 | without a launch plugin the class name is unchanged; with one it is the plugin's mapping |
| GofancyDsl.MapMethod | src/main/kotlin/wtf/gofancy/koremods/dsl/Transformers.kt:131-132 | without a launch plugin owner, name and descriptor are unchanged; with one they are the plugin's mapping |
| GofancyDsl.MapField | src/main/kotlin/wtf/gofancy/koremods/dsl/Transformers.kt:144-145 | without a launch plugin owner and name are unchanged; with one they are the plugin's mapping |
| GofancyDsl.TransformerList.constructor | src/main/kotlin/wtf/gofancy/koremods/dsl/Transformers.kt:158 | a handler's list starts empty |
| GofancyDsl.TransformerBuilder.constructor | src/main/kotlin/wtf/gofancy/koremods/dsl/Transformers.kt:83 | a builder shares the handler's identifier, list and properties |
| GofancyDsl.TransformerBuilder.Class | src/main/kotlin/wtf/gofancy/koremods/dsl/Transformers.kt:91-95 | appends exactly one class transformer for the mapped class name, carrying the script's identifier and properties |
| GofancyDsl.TransformerBuilder.Method | src/main/kotlin/wtf/gofancy/koremods/dsl/Transformers.kt:130-134 | appends exactly one method transformer for the mapped owner, name and descriptor |
| GofancyDsl.TransformerBuilder.MethodReturning | src/main/kotlin/wtf/gofancy/koremods/dsl/Transformers.kt:105-107 | appends the method transformer whose descriptor is built from the return type alone |
| GofancyDsl.TransformerBuilder.MethodWithParameters | src/main/kotlin/wtf/gofancy/koremods/dsl/Transformers.kt:118-120 | appends the method transformer whose descriptor is built from the return and parameter types |
| GofancyDsl.TransformerBuilder.Field | src/main/kotlin/wtf/gofancy/koremods/dsl/Transformers.kt:143-147 | appends exactly one field transformer for the mapped owner and name |
| GofancyDsl.TransformerHandler.constructor | src/main/kotlin/wtf/gofancy/koremods/dsl/Transformers.kt:157-159 | a handler owns a fresh empty list and a fresh properties object |
| GofancyDsl.TransformerHandler.Transformers | src/main/kotlin/wtf/gofancy/koremods/dsl/Transformers.kt:161-163 | returns a fresh builder over this handler's own list and properties, on which the block then runs |
| GofancyDsl.TransformerHandler.GetTransformers | src/main/kotlin/wtf/gofancy/koremods/dsl/Transformers.kt:165 | `toList()` returns the transformers registered so far, as a snapshot |
| GofancyDsl.RegisterTwice | src/main/kotlin/wtf/gofancy/koremods/dsl/Transformers.kt:130-165 | a snapshot taken before two registrations is unaffected by them, and the handler's list grows by exactly the two transformers, in order |
| GofancyTransformation.States | src/main/kotlin/wtf/gofancy/koremods/ClassTransformation.kt:42-53 | the node before and after each transformer: one state more than transformers, starting at the given node |
| GofancyTransformation.ApplyTransform | src/main/kotlin/wtf/gofancy/koremods/ClassTransformation.kt:42-56 | every properties object returned belongs to one of the transformers; no transformers return the node untouched and no properties |
| GofancyTransformation.ApplyTransformOutcome | src/main/kotlin/wtf/gofancy/koremods/ClassTransformation.kt:42-56 | the node ends in the state after the last transformer. A properties object is returned iff some transformer carrying it completed on the state it saw. A throwing transformer keeps the changes it made before throwing |
| GofancyTransformation.ApplyTransformAppend | src/main/kotlin/wtf/gofancy/koremods/ClassTransformation.kt:42-56 | applying two lists in a row is applying their concatenation, with the union of their properties |
| GofancyTransformation.AllThrowNoProps | src/main/kotlin/wtf/gofancy/koremods/ClassTransformation.kt:46-55 | when every transformer throws, no properties are returned |
| AsmNodes.FirstMethod | src/main/kotlin/dev/su5ed/koremods/dsl/Transformers.kt:49-50 | `first { name and desc match }`: the first matching method, or -1 exactly when none matches |
| AsmNodes.FirstField | src/main/kotlin/dev/su5ed/koremods/dsl/Transformers.kt:63-64 | `first { name matches }`: the first field with the name, or -1 exactly when none has it |
| AsmNodes.VisitMethod | src/main/kotlin/dev/su5ed/koremods/dsl/Transformers.kt:48-52 | without a matching method `first` throws and the class is unchanged. Otherwise only the first matching method is replaced by the block's result, and the visit completes iff the block does |
| AsmNodes.VisitField | src/main/kotlin/dev/su5ed/koremods/dsl/Transformers.kt:62-66 | without a matching field `first` throws and the class is unchanged. Otherwise only the first matching field is replaced by the block's result |
| AsmNodes.VisitMethodTouchesOnlyFirstMatch | src/main/kotlin/dev/su5ed/koremods/dsl/Transformers.kt:48-52 | every other method, the fields and the class name are left as they were |
| AsmNodes.ShadowedMethodNotVisited | src/main/kotlin/dev/su5ed/koremods/dsl/Transformers.kt:49-50 | a later method with the same name and descriptor as an earlier one is never visited |
| Su5edDsl.Transformer.TargetClassName | src/main/kotlin/dev/su5ed/koremods/dsl/Transformers.kt:29-57 | a class transformer targets its class name; method and field transformers target their owner |
| Su5edDsl.VisitClass | src/main/kotlin/dev/su5ed/koremods/dsl/Transformers.kt:36-66 | a class transformer runs its block on the class; method and field transformers visit their first matching member |
| Su5edDsl.MissingMethodThrows | src/main/kotlin/dev/su5ed/koremods/dsl/Transformers.kt:49-51 | a method transformer whose method is missing throws and leaves the class as it was |
| Su5edDsl.TransformerList.constructor | src/main/kotlin/dev/su5ed/koremods/dsl/Transformers.kt:70 | a handler's list starts empty |
| Su5edDsl.TransformerBuilder.constructor | src/main/kotlin/dev/su5ed/koremods/dsl/Transformers.kt:15 | a builder appends to the list it was given |
| Su5edDsl.TransformerBuilder.Class | src/main/kotlin/dev/su5ed/koremods/dsl/Transformers.kt:16-18 | appends exactly one class transformer |
| Su5edDsl.TransformerBuilder.Method | src/main/kotlin/dev/su5ed/koremods/dsl/Transformers.kt:20-22 | appends exactly one method transformer |
| Su5edDsl.TransformerBuilder.Field | src/main/kotlin/dev/su5ed/koremods/dsl/Transformers.kt:24-26 | appends exactly one field transformer |
| Su5edDsl.TransformerHandler.constructor | src/main/kotlin/dev/su5ed/koremods/dsl/Transformers.kt:69-70 | a handler owns a fresh empty list |
| Su5edDsl.TransformerHandler.Transformers | src/main/kotlin/dev/su5ed/koremods/dsl/Transformers.kt:72-74 | returns a fresh builder over this handler's own list, on which the block then runs |
| Su5edDsl.TransformerHandler.GetTransformers | src/main/kotlin/dev/su5ed/koremods/dsl/Transformers.kt:76 | hands out the live list itself, not a copy |
| Su5edDsl.LiveListSeesLaterRegistrations | src/main/kotlin/dev/su5ed/koremods/dsl/Transformers.kt:69-77 | a list obtained before a registration shows that registration afterwards |
| Su5edLegacyDsl.Transformer.GetTargetClassName | src/main/kotlin/dev/su5ed/koremods/dsl/transformers.kt:28-47 | a class transformer targets its class name; method and field transformers target their owner |
| Su5edLegacyDsl.VisitClass | src/main/kotlin/dev/su5ed/koremods/dsl/transformers.kt:31-53 | a class transformer runs its block on the class; method and field transformers visit their first matching member |
| Su5edLegacyDsl.FieldTransformerUsesFirstField | src/main/kotlin/dev/su5ed/koremods/dsl/transformers.kt:49-53 | a field transformer runs on the first field with its name, even when later fields share the name |
| Su5edLegacyDsl.TransformerList.constructor | src/main/kotlin/dev/su5ed/koremods/dsl/transformers.kt:57 | a handler's list starts empty |
| Su5edLegacyDsl.TransformerBuilder.constructor | src/main/kotlin/dev/su5ed/koremods/dsl/transformers.kt:14 | a builder appends to the list it was given |
| Su5edLegacyDsl.TransformerBuilder.Class | src/main/kotlin/dev/su5ed/koremods/dsl/transformers.kt:15-17 | appends exactly one class transformer |
| Su5edLegacyDsl.TransformerBuilder.Method | src/main/kotlin/dev/su5ed/koremods/dsl/transformers.kt:19-21 | appends exactly one method transformer |
| Su5edLegacyDsl.TransformerBuilder.Field | src/main/kotlin/dev/su5ed/koremods/dsl/transformers.kt:23-25 | appends exactly one field transformer |
| Su5edLegacyDsl.TransformerHandler.constructor | src/main/kotlin/dev/su5ed/koremods/dsl/transformers.kt:56-57 | a handler owns a fresh empty list |
| Su5edLegacyDsl.TransformerHandler.Transformers | src/main/kotlin/dev/su5ed/koremods/dsl/transformers.kt:59-61 | returns a fresh builder over this handler's own list, on which the block then runs |
| Su5edLegacyDsl.TransformerHandler.GetTransformers | src/main/kotlin/dev/su5ed/koremods/dsl/transformers.kt:63 | hands out the live list itself |
| Su5edTransformation.ScriptStates | src/main/kotlin/dev/su5ed/koremods/ClassTransformation.kt:40-53 | the class node before and after each transformer of one script: one state more than transformers, starting at the given node |
| Su5edTransformation.ScriptRunUsed | src/main/kotlin/dev/su5ed/koremods/ClassTransformation.kt:40-54 | `filter` runs every transformer targeting the class (it does not stop at the first); the node ends in the last state, and the script counts as used iff some targeting transformer completed on the state it saw |
| Su5edTransformation.ScriptRunUntargeted | src/main/kotlin/dev/su5ed/koremods/ClassTransformation.kt:41-53 | a script none of whose transformers targets the class leaves the node unchanged and is not used |
| Su5edTransformation.ScriptsRunUntargeted | src/main/kotlin/dev/su5ed/koremods/ClassTransformation.kt:39-57 | a mod none of whose transformers targets the class leaves the node unchanged and collects no properties |
| Su5edTransformation.PacksRunUntargeted | src/main/kotlin/dev/su5ed/koremods/ClassTransformation.kt:38-58 | when no discovered transformer targets the class, `transformClass` returns the node unchanged and an empty list |
| Su5edTransformation.RunScript | src/main/kotlin/dev/su5ed/koremods/ClassTransformation.kt:40-54 | the loop over one script's transformers computes the script run: the new node and whether the script was used |
| Su5edTransformation.RunScripts | src/main/kotlin/dev/su5ed/koremods/ClassTransformation.kt:39-57 | the loop over one mod's scripts computes the mod's run: the new node and one properties entry per used script, in order |
| Su5edTransformation.TransformClass | src/main/kotlin/dev/su5ed/koremods/ClassTransformation.kt:34-62 | before discovery nothing changes and the list is empty; afterwards the result is the run over all packs, in discovery order |
| KoremodTransformation.FirstCompletedAppend | src/main/kotlin/dev/su5ed/koremods/Transformation.kt:12-26 | running two transformer lists in a row is running their concatenation: the second list only runs when no transformer of the first completed |
| KoremodTransformation.FirstCompletedFound | src/main/kotlin/dev/su5ed/koremods/Transformation.kt:15-20 | any extension returned is the `ext` of a transformer that passed the filter (no name, or the transformer targets the name) |
| KoremodTransformation.NoneEligible | src/main/kotlin/dev/su5ed/koremods/Transformation.kt:15 | when the filter lets no transformer through, the node is unchanged and the result is null |
| KoremodTransformation.RunTransformers | src/main/kotlin/dev/su5ed/koremods/Transformation.kt:14-24 | the loop over one script's transformers returns at the first one that completes, keeping the changes of those that threw before it |
| KoremodTransformation.RunScripts | src/main/kotlin/dev/su5ed/koremods/Transformation.kt:13-25 | the loop over one mod's scripts is the first-completed run over their transformers concatenated |
| KoremodTransformation.TransformClass | src/main/kotlin/dev/su5ed/koremods/Transformation.kt:10-29 | before discovery nothing changes and the result is null; afterwards it is the first-completed run over every discovered transformer in discovery order |
| Assembly.InsnEquals | src/main/kotlin/wtf/gofancy/koremods/dsl/Assembly.kt:214-269 | different opcodes never match; nodes without compared attributes (jumps, switches, plain instructions, pseudo nodes) match on opcode alone; the `as` cast fails exactly when the opcodes agree but the node kinds differ; otherwise the kind's attributes are compared |
| Assembly.InsnEqualsReflexive | src/main/kotlin/wtf/gofancy/koremods/dsl/Assembly.kt:214-269 | every node matches itself |
| Assembly.InsnEqualsSymmetric | src/main/kotlin/wtf/gofancy/koremods/dsl/Assembly.kt:214-269 | for two nodes of the same kind the comparison is symmetric |
| Assembly.JumpMatchedByOpcode | src/test/kotlin/wtf/gofancy/koremods/AssemblyTest.kt:91 | a jump's label is not compared: a jump matches any node with its opcode |
| Assembly.SkipPseudo | src/main/kotlin/wtf/gofancy/koremods/dsl/Assembly.kt:282 | stops at the first node from the given position that is not a label, line number or frame, or at the end |
| Assembly.MatchFrom | src/main/kotlin/wtf/gofancy/koremods/dsl/Assembly.kt:281-286 | a successful match of a non-empty pattern consumes at least one node and stays inside the list |
| Assembly.LocateFrom | src/main/kotlin/wtf/gofancy/koremods/dsl/Assembly.kt:276-290 | a found span starts at a real instruction, and its last node is never the list's final node |
| Assembly.LocateFindsFirstMatch | src/main/kotlin/wtf/gofancy/koremods/dsl/Assembly.kt:276-290 | a found span is a match of the whole pattern, and no earlier real instruction starts a match |
| Assembly.LocateAbsentIff | src/main/kotlin/wtf/gofancy/koremods/dsl/Assembly.kt:276-290 | `null` is returned iff no real instruction starts a match |
| Assembly.PseudoPatternNeverMatches | src/main/kotlin/wtf/gofancy/koremods/dsl/Assembly.kt:278-284 | a pattern containing a label, line number or frame never matches, because those are skipped in the list but not in the pattern |
| Assembly.MatchAtEndThrows | src/main/kotlin/wtf/gofancy/koremods/dsl/Assembly.kt:284-287 | a first match that ends at the list's final node leaves `current` null, so `current!!` throws |
| Assembly.SingleNodeAtEnd | src/main/kotlin/wtf/gofancy/koremods/dsl/Assembly.kt:287 | searching [NOP] for [NOP] throws instead of finding the node |
| Assembly.LocateFixedFindsFirstMatch | src/main/kotlin/wtf/gofancy/koremods/dsl/Assembly.kt:276-290 | with `previous` taken from the last matched node, no search fails: it finds the first match, and returns null iff there is none |
| Assembly.SingleNodeAtEndFixed | src/main/kotlin/wtf/gofancy/koremods/dsl/Assembly.kt:276-290 | the corrected search finds [NOP] in [NOP] as the span from node 0 to node 0 |
| Assembly.FirstIndex | src/main/kotlin/wtf/gofancy/koremods/dsl/Assembly.kt:145 | `indexOf`: the first position of the node, or -1 exactly when it is absent |
| Assembly.InsnList.IndexOf | src/main/kotlin/wtf/gofancy/koremods/dsl/Assembly.kt:145 | returns the node's first position in the list, or -1 |
| Assembly.InsnList.Get | src/main/kotlin/wtf/gofancy/koremods/dsl/Assembly.kt:145 | returns the node at the index, and fails exactly when the index is out of bounds |
| Assembly.InsnList.InsertAfterNode | src/main/kotlin/wtf/gofancy/koremods/dsl/Assembly.kt:137-141 | `insert(target, list)` puts the new nodes right after the target and leaves the rest in order |
| Assembly.InsnList.InsertBeforeNode | src/main/kotlin/wtf/gofancy/koremods/dsl/Assembly.kt:133 | `insertBefore(target, list)` puts the new nodes right before the target and leaves the rest in order |
| Assembly.InsnList.LocateTargetOrNull | src/main/kotlin/wtf/gofancy/koremods/dsl/Assembly.kt:276-290 | the nested loops compute the search over the list's instructions |
| Assembly.InsnList.MatchAt | src/main/kotlin/wtf/gofancy/koremods/dsl/Assembly.kt:281-286 | the inner loop matches the pattern from a position as the search defines |
| Assembly.InsnList.SkipPseudoAt | src/main/kotlin/wtf/gofancy/koremods/dsl/Assembly.kt:282 | the `while` loop skips labels, line numbers and frames |
| Assembly.LabelMap.constructor | src/main/kotlin/wtf/gofancy/koremods/dsl/Assembly.kt:130 | a found target starts with no labels |
| Assembly.SharedLabelRegistry.constructor | src/main/kotlin/wtf/gofancy/koremods/dsl/Assembly.kt:43 | the registry works on the map it was given |
| Assembly.SharedLabelRegistry.Get | src/main/kotlin/wtf/gofancy/koremods/dsl/Assembly.kt:52-54 | `getOrPut`: a known name returns its label and leaves the map as it is; an unknown name gets a fresh label, added under that name |
| Assembly.SharedLabelRegistry.GetIndexed | src/main/kotlin/wtf/gofancy/koremods/dsl/Assembly.kt:47 | an index reads the label named "label_" followed by the index |
| Assembly.StepInsns | src/main/kotlin/wtf/gofancy/koremods/dsl/Assembly.kt:150-152 | assembling a block gives one node per step: the emitted instruction, or a label |
| Assembly.Assemble | src/main/kotlin/wtf/gofancy/koremods/dsl/Assembly.kt:148-153 | the block's nodes are its steps' instructions; every placed label is the registry's label of that name; existing labels keep their nodes, and the registry gains exactly the placed names |
| Assembly.RunStep | src/main/kotlin/wtf/gofancy/koremods/dsl/Assembly.kt:52-53 | one step emits its node, or places the shared label of its name |
| Assembly.Found.constructor | src/main/kotlin/wtf/gofancy/koremods/dsl/Assembly.kt:129-130 | a found target remembers its list, first and last node, with an empty label map |
| Assembly.Found.Find | src/main/kotlin/wtf/gofancy/koremods/dsl/Assembly.kt:144-146 | returns the node at the first node's position plus the index, and fails when that is out of bounds; a returned node is in the list |
| Assembly.Found.InsertAt | src/main/kotlin/wtf/gofancy/koremods/dsl/Assembly.kt:148-153 | with an offset the anchor is the node that far from the given node, and an out-of-bounds anchor changes nothing. Otherwise the assembled block goes before or after the anchor, and labels placed in the block are shared with later insertions |
| Assembly.Found.InsertBefore | src/main/kotlin/wtf/gofancy/koremods/dsl/Assembly.kt:132-134 | inserts the block before the node at the offset from the first matched node |
| Assembly.Found.Insert | src/main/kotlin/wtf/gofancy/koremods/dsl/Assembly.kt:136-138 | inserts the block after the node at the offset from the first matched node |
| Assembly.Found.InsertAfter | src/main/kotlin/wtf/gofancy/koremods/dsl/Assembly.kt:140-142 | inserts the block after the node at the offset from the last matched node |
| Assembly.NotFoundFind | src/main/kotlin/wtf/gofancy/koremods/dsl/Assembly.kt:163 | `find` on a target that was not found always fails |
| Assembly.FindTarget | src/main/kotlin/wtf/gofancy/koremods/dsl/Assembly.kt:185-189 | a match gives a found target over the same list with its first and last nodes. With no match it fails with "Target not found" when `failIfNotFound`, or gives NotFound. A search that throws propagates |
| Descriptors.Describe | src/main/kotlin/dev/su5ed/koremods/dsl/asmExtensions.kt:11-24 | Unit is "V"; a primitive is a one-letter descriptor; any other class is "L…;" |
| Descriptors.DescribeAny | src/main/kotlin/dev/su5ed/koremods/dsl/asmExtensions.kt:25-26 | a Java class, or any other value, is described as its Kotlin class |
| Descriptors.DescribeInjective | src/main/kotlin/dev/su5ed/koremods/dsl/asmExtensions.kt:13-24 | distinct classes whose names contain no '/' get distinct descriptors |
| Descriptors.DescribeAll | src/main/kotlin/dev/su5ed/koremods/dsl/asmExtensions.kt:7 | the parameters are described one by one, in order |
| Descriptors.ParseDescribed | src/main/kotlin/dev/su5ed/koremods/dsl/asmExtensions.kt:13-24 | every describable field type reads back as one field descriptor (section 4.3.2 of the JVM specification) |
| Descriptors.SlashedNameHasNoSemicolon | src/main/kotlin/dev/su5ed/koremods/dsl/asmExtensions.kt:23 | replacing '.' with '/' adds no ';', so an object descriptor ends at its own ';' |
| Descriptors.ParseParamsDescribed | src/main/kotlin/dev/su5ed/koremods/dsl/asmExtensions.kt:7 | parameter descriptors concatenated with no separator read back as the same list |
| Descriptors.ParseReturnDescribed | src/main/kotlin/dev/su5ed/koremods/dsl/asmExtensions.kt:6 | a return descriptor, including "V", reads back as itself |
| Descriptors.DescribeMethod | src/main/kotlin/dev/su5ed/koremods/dsl/asmExtensions.kt:5-9 | as written: no parameters give "()" and the return descriptor; one parameter gives its descriptor in parentheses followed by the return descriptor |
| Descriptors.DescribeMethodFixedRoundTrip | src/main/kotlin/dev/su5ed/koremods/dsl/asmExtensions.kt:5-9 | with no separator, a built descriptor parses as a method descriptor (section 4.3.3 of the JVM specification) and gives back the parameter and return descriptors |
| Descriptors.DescribeMethodFewParams | src/main/kotlin/dev/su5ed/koremods/dsl/asmExtensions.kt:7 | with at most one parameter the separator does not show, so the source builds a valid descriptor |
| Descriptors.DefaultReturnIsVoid | src/main/kotlin/dev/su5ed/koremods/dsl/asmExtensions.kt:5-8 | the default return type, Unit, makes the descriptor end in ")V" |
| Descriptors.DescribeMethodManyParamsInvalid | src/main/kotlin/dev/su5ed/koremods/dsl/asmExtensions.kt:7 | with two or more parameters the ", " separator makes the descriptor unparseable |
| Descriptors.TwoParamsExample | src/main/kotlin/dev/su5ed/koremods/dsl/asmExtensions.kt:5-9 | (Int, Long) returning Unit gives "(I, J)V" as written and "(IJ)V" once corrected |
| SplashText.ToCodePoint | src/splash/kotlin/wtf/gofancy/koremods/splash/TrueType.kt:142 | `Character.toCodePoint`: a surrogate pair is a supplementary code point, given by the UTF-16 formula |
| SplashText.Encode | src/splash/kotlin/wtf/gofancy/koremods/splash/TrueType.kt:137-148 | a BMP code point is one unit; a supplementary one is a surrogate pair that decodes back to it |
| SplashText.EncodeToCodePoint | src/splash/kotlin/wtf/gofancy/koremods/splash/TrueType.kt:142 | encoding the code point of a pair gives back the same pair |
| SplashText.GetCP | src/splash/kotlin/wtf/gofancy/koremods/splash/TrueType.kt:137-148 | consumes one or two units without passing the end, and yields a code point |
| SplashText.GetCPCases | src/splash/kotlin/wtf/gofancy/koremods/splash/TrueType.kt:137-148 | two units iff a high surrogate is followed, before `to`, by a low surrogate; otherwise the unit itself; the consumed units are exactly the code point's encoding |
| SplashText.DecodeFrom | src/splash/kotlin/wtf/gofancy/koremods/splash/TrueType.kt:98-101 | the loop's code points are all valid |
| SplashText.EncodeDecodeFrom | src/splash/kotlin/wtf/gofancy/koremods/splash/TrueType.kt:98-101 | the code points read from a position re-encode to the rest of the text |
| SplashText.EncodeDecode | src/splash/kotlin/wtf/gofancy/koremods/splash/TrueType.kt:98-101 | decoding loses nothing: lone surrogates pass through as themselves |
| SplashText.DecodeEncode | src/splash/kotlin/wtf/gofancy/koremods/splash/TrueType.kt:137-148 | a list of non-surrogate code points decodes from its own encoding |
| SplashText.DecodeFromSuffix | src/splash/kotlin/wtf/gofancy/koremods/splash/TrueType.kt:98-101 | decoding from a position depends only on the rest of the text |
| SplashText.DecodeFromShift | src/splash/kotlin/wtf/gofancy/koremods/splash/TrueType.kt:98-101 | decoding a suffix from an offset equals decoding the whole text from the shifted position |
| SplashText.GlyphIndex | src/splash/kotlin/wtf/gofancy/koremods/splash/TrueType.kt:103 | `cp - 32` is a baked glyph iff the code point is between 32 and 255 |
| SplashText.StartsFrom | src/splash/kotlin/wtf/gofancy/koremods/splash/TrueType.kt:100-101 | the loop's positions: one per code point, starting where the loop starts |
| SplashText.StartsInRange | src/splash/kotlin/wtf/gofancy/koremods/splash/TrueType.kt:100 | every position where the loop reads is inside the text |
| SplashText.StartsEndAtLength | src/splash/kotlin/wtf/gofancy/koremods/splash/TrueType.kt:100-101 | the last step ends exactly at the text's length |
| SplashText.StartsStep | src/splash/kotlin/wtf/gofancy/koremods/splash/TrueType.kt:101 | each position advances by what `getCP` consumed |
| SplashText.RenderStep | src/splash/kotlin/wtf/gofancy/koremods/splash/TrueType.kt:100-102 | one loop iteration takes one code point and one position |
| SplashText.RenderText | src/splash/kotlin/wtf/gofancy/koremods/splash/TrueType.kt:92-134 | the loop reads at exactly the positions above and asks for one glyph per decoded code point, at `cp - 32` |
| SplashText.Glyphs | src/splash/kotlin/wtf/gofancy/koremods/splash/TrueType.kt:103 | one glyph index per code point |
| SplashText.LineFeedGlyphOutOfRange | src/splash/kotlin/wtf/gofancy/koremods/splash/TrueType.kt:103 | a line feed asks for glyph -22, which is outside the baked range |
| SplashText.SurrogatePairIsOneCodePoint | src/splash/kotlin/wtf/gofancy/koremods/splash/TrueType.kt:139-143 | an emoji's surrogate pair is read as one code point |
| SplashText.TrailingHighSurrogatePassesThrough | src/splash/kotlin/wtf/gofancy/koremods/splash/TrueType.kt:139 | a high surrogate at the end of the text is read on its own |
| SplashUtil.Grow | src/splash/kotlin/dev/su5ed/koremods/splash/SplashUtil.kt:51-53 | the buffer keeps its size when the content fits, and otherwise grows by half |
| SplashUtil.GrowFixed | src/splash/kotlin/dev/su5ed/koremods/splash/SplashUtil.kt:51-53 | the corrected growth always makes room for the content and never shrinks |
| SplashUtil.Fill | src/splash/kotlin/dev/su5ed/koremods/splash/SplashUtil.kt:44-57 | the read loop can only fail by overflowing the buffer |
| SplashUtil.Load | src/splash/kotlin/dev/su5ed/koremods/splash/SplashUtil.kt:35-63 | as written: the load fails with the empty-stream error iff `available()` is below 1; any other failure is a buffer overflow |
| SplashUtil.LoadFixed | src/splash/kotlin/dev/su5ed/koremods/splash/SplashUtil.kt:35-63 | with the corrected growth the load fails iff `available()` is below 1, and then with the empty-stream error |
| SplashUtil.FillContents | src/splash/kotlin/dev/su5ed/koremods/splash/SplashUtil.kt:44-57 | a read loop that succeeds holds what was written before followed by every chunk, in order |
| SplashUtil.LoadContents | src/splash/kotlin/dev/su5ed/koremods/splash/SplashUtil.kt:35-63 | a successful load returns exactly the stream's bytes |
| SplashUtil.FillFixedSucceeds | src/splash/kotlin/dev/su5ed/koremods/splash/SplashUtil.kt:44-57 | with the corrected growth the loop never overflows |
| SplashUtil.LoadFixedContents | src/splash/kotlin/dev/su5ed/koremods/splash/SplashUtil.kt:35-63 | the corrected load fails only on an empty stream, and otherwise returns exactly the stream's bytes |
| SplashUtil.CapacityOneNeverGrows | src/splash/kotlin/dev/su5ed/koremods/splash/SplashUtil.kt:51-53 | 1 * 3 / 2 is 1: a one-byte buffer cannot grow, so a two-byte stream overflows |
| SplashUtil.TwoFullReadsOverflow | src/splash/kotlin/dev/su5ed/koremods/splash/SplashUtil.kt:50-55 | two full reads need twice the capacity, one growth gives only half as much again, and `put` overflows; the corrected load succeeds |
| SplashUtil.NativeBuffer.Alloc | src/splash/kotlin/dev/su5ed/koremods/splash/SplashUtil.kt:41 | `memAlloc` gives an empty buffer of the requested size |
| SplashUtil.NativeBuffer.Realloc | src/splash/kotlin/dev/su5ed/koremods/splash/SplashUtil.kt:53-60 | `memRealloc` gives a buffer of the new size that keeps the content that fits |
| SplashUtil.NativeBuffer.Put | src/splash/kotlin/dev/su5ed/koremods/splash/SplashUtil.kt:55 | `put` appends the bytes when they fit, and otherwise fails with the buffer unchanged |
| SplashUtil.NativeBuffer.Rewind | src/splash/kotlin/dev/su5ed/koremods/splash/SplashUtil.kt:61 | `rewind` moves the position back to 0 and keeps the memory |
| SplashUtil.ReadInto | src/splash/kotlin/dev/su5ed/koremods/splash/SplashUtil.kt:45 | a read fills the front of the array with the chunk and leaves the rest |
| SplashUtil.Zero | src/splash/kotlin/dev/su5ed/koremods/splash/SplashUtil.kt:56 | `fill(0)` clears the whole array |
| SplashUtil.ReadStep | src/splash/kotlin/dev/su5ed/koremods/splash/SplashUtil.kt:45-56 | one iteration counts the bytes, grows the buffer as the source does, appends the chunk when it fits and clears the array |
| SplashUtil.ToManagedByteBuffer | src/splash/kotlin/dev/su5ed/koremods/splash/SplashUtil.kt:35-63 | the loop computes the load: an empty stream fails, an overflow fails, and otherwise the result is the stream's bytes |

## Left out

- Splash rendering is not modelled: the GL and stb calls of `renderText`, windows, shaders, fades and image loading. These are foreign calls and floating point. Only the code-point loop and the buffer-growth loop are kept.
- Thread pools are not modelled. `evalScripts` / `evalScriptPacks` are modelled as sequential maps over an evaluation function parameter. In the discoverers that function returns a value or a failure, and the first failure in the order the futures are read aborts discovery. The `awaitTermination` timeout is not modelled: every evaluation is taken to have finished by the time `future.get()` is called.
- Kotlin scripting host wrappers are not modelled: compilation, `BasicJvmScriptingHost` and the JSR-223 engine factory. Compilation and evaluation are function parameters.
- Configuration parsing (`KoremodsConfig`, `KoremodConfig`, `scriptConfig`) is not modelled. A parsed configuration is a value: a mod id and a list of script paths, or nothing.
- Launch and logging glue is not modelled: `KoremodsLaunch`, the log appenders, the launch plugin interfaces and `KoremodsBlackboard`. Log messages are not modelled either. The one place where building a message changes the outcome is the directory scan message at line 96 of the `wtf.gofancy` `ScriptDiscovery.kt`. It throws for shallow directories, and `GofancyDiscovery.ScanPath` models that.
- GofancyDiscovery.ScanPath takes scanned paths to be absolute, so a directory lacks a third parent exactly when it has fewer than three elements. `parentFile` of a relative path, which runs out sooner, is not modelled.
- `KoffeeExtensions.kt` and `FrameInstructions.kt` are one-line node constructors and are not modelled. Assembling a block is modelled as a sequence of steps that emit an instruction or place a named label.
- JVM internals are abstracted: `defineClass`, `findClass` on jar bytes, `JarFile` / `ZipFile` reading, protection domains, SHA-256, `File.normalize` and `absolutePath`. Each is a map or a function parameter.
- Assembly.InsnList holds its nodes as a sequence, and nothing keeps them distinct: inserting one shared label node twice (`SharedLabelRegistry.Get` returns one node per name) gives a sequence that holds it twice, where ASM's doubly linked list would corrupt its links instead.
- Directories.Os lowers only 'A'..'Z' (`AsciiLower`). Kotlin's `lowercase()` lowers all of Unicode, so a name that reaches a tested prefix only through a non-ASCII letter (U+212A KELVIN SIGN becomes 'k') is classified differently.
- ScriptHost.Below compares code points, where Kotlin's `String.compareTo` compares UTF-16 units. The two orders differ only between a supplementary character and one in U+E000..U+FFFF, which ASCII key names never contain.
- FileSystem.WriteFile models `IOUtils.copy` as one write. Its only failure after the file is opened is being cut off after a given number of bytes (`Disk.interrupted`), which leaves that prefix in the file.
- Paths.Resolve models the default file system of a Unix-like host: '/' is the only separator, repeated and trailing '/'s are dropped, and '.' and '..' stay as elements, as `resolve` does without normalising. Windows paths are not modelled.
- Races between processes sharing the dependencies directory are not modelled, and neither is unsynchronised access to `cachedClasses`. Each run is sequential.
- The static singletons (`KoremodsDiscoverer`, `KoremodDiscoverer`, `KoremodsLoader`) are objects with a `transformers` field that is either unset or set once.
- Su5edTransformation.RunScripts: `script.handler.getProps()` is not defined in the revision's visible source, so the properties of a used script are a function parameter `propsOf(modid, scriptName)`.
- KoremodTransformation.TransformClass: `script.transformers` and `transformer.ext` are not defined in the revision's visible source. The transformer list is the script's list, and `ext` is a function parameter `extOf`.
- `TransformerBuilder.ext` (`wtf.gofancy` `dsl/Transformers.kt`, lines 149-151) runs the user's block on an opaque properties object, and is not modelled.
- GofancyLoading.KoremodsLoader.LoadKoremods uses the corrected zero-script evaluation (`GofancyEvaluation.EvalScriptPacksFixed`). The source as written throws when there are no scripts; `GofancyEvaluation.NoScriptsFails` states that.
- GofancyLoading.LoadKeepsPacks is stated for the corrected zero-script evaluation, as above.
- SplashUtil.ToManagedByteBuffer requires every chunk to be at most `available` bytes. That is the size of the array `read` fills, so `read` never returns more.
- SplashUtil.ToManagedByteBuffer models the source's growth, overflow included. Loading as it was evidently meant to work is `SplashUtil.LoadFixed`, which the rest of the model does not depend on.
- Su5edPrelaunch.KoremodsPrelaunch.Launch: the reflective calls (`getDeclaredMethod`, `newInstance`, `invoke`) are abstracted. The result records which class and method would be called, with which arguments.
- SplashText.RenderText returns glyph indices rather than drawing quads. `stbtt_GetBakedQuad` is given `cp - 32` with no range check; what it does with an index outside the baked range is not modelled.

## Findings

| source | as written | input that shows it | evidently intended | confidence | as-written member | corrected member |
|---|---|---|---|---|---|---|
| src/main/kotlin/wtf/gofancy/koremods/dsl/Assembly.kt:284-287 | when the first match ends at the list's final node, `current` is null after the loop and `current!!.previous` throws a NullPointerException | searching the list [NOP] for the pattern [NOP] | take the last matched node itself as the end of the span, so a match at the end is found | not executed | Assembly.MatchAtEndThrows | Assembly.LocateFixedFindsFirstMatch |
| src/main/kotlin/dev/su5ed/koremods/dsl/asmExtensions.kt:7 | `joinToString()` separates parameter descriptors with ", ", so two or more parameters give a string that is not a method descriptor | `describeMethod(Unit::class, Int::class, Long::class)` gives "(I, J)V" | join with no separator: "(IJ)V" | not executed | Descriptors.DescribeMethodManyParamsInvalid | Descriptors.DescribeMethodFixedRoundTrip |
| src/main/kotlin/wtf/gofancy/koremods/ScriptEvaluation.kt:56-58 | the pool is `newFixedThreadPool(count)` for the number of scripts, which throws IllegalArgumentException for 0 | a discovered pack list with no scripts, such as a mod whose configuration lists none | evaluating no scripts gives no packs | not executed | GofancyEvaluation.NoScriptsFails | GofancyEvaluation.EvalScriptPacksFixedOutcome |
| src/splash/kotlin/dev/su5ed/koremods/splash/SplashUtil.kt:51-53 | one growth step to `backendLength * 3 / 2` may still be too small, and at capacity 1 it does nothing, so `put` overflows | `available()` = 1 and a stream whose reads return [x] and then [y] | grow until the content fits | not executed | SplashUtil.TwoFullReadsOverflow | SplashUtil.LoadFixedContents |
