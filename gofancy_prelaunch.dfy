/**
 * `wtf.gofancy.koremods.prelaunch.KoremodsPrelaunch`: the directory layout under the game
 * directory and the extraction of bundled dependency jars into it.
 */
module GofancyPrelaunch {
  import opened Wrappers
  import opened Paths
  import opened FileSystem

  /** `KoremodsBlackboard.NAMESPACE` */
  const NAMESPACE: string := "koremods"

  /** The packages the isolated dependency loader resolves by itself. */
  const KOTLIN_DEP_PACKAGES: seq<string> := [
    "org.jetbrains.", "kotlin.", "org.intellij.lang.", "kotlinx.coroutines.", "javaslang.",
    "gnu.trove.", "codes.som.anthony.koffee.", "io.github.config4k.", "wtf.gofancy.koremods."
  ]

  /** What made the extraction fail: `getInputStream(null)` or an IOException. */
  datatype Cause = NullEntry | Io(error: IoError)

  datatype ExtractError =
    | IllegalArgument(message: string)
    | ExtractFailed(message: string, cause: Cause)

  function AttributeKey(name: string): string {
    "Additional-Dependencies-" + name
  }

  /**
   * `extractDependency(name)` on disk `d`: the missing attribute is thrown before the try block;
   * otherwise the URL of `depsDir/depName` is returned, after creating `depsDir` and copying the
   * jar entry there when `Files.notExists` holds for the destination. A destination whose lookup
   * fails with "Not a directory" is neither present nor reported absent, and is returned as it is.
   * Any failure inside the try block is wrapped with the cause kept.
   */
  function Extract(jar: Jar, depsDir: Path, d: Disk, name: string): (o: (Result<Url, ExtractError>, Disk))
    ensures AttributeKey(name) !in jar.attributes ==>
      o == (Err(IllegalArgument("Required dependency " + name + " not found")), d)
    ensures AttributeKey(name) in jar.attributes ==>
      var dest := Resolve(depsDir, jar.attributes[AttributeKey(name)]);
      (o.0.Ok? ==> o.0.value == ToUrl(dest)) &&
      (!NotExists(d, dest) ==> o == (Ok(ToUrl(dest)), d)) &&
      (NotExists(d, dest) && o.0.Ok? ==> Exists(o.1, dest)) &&
      (o.0.Err? ==> o.0.error.ExtractFailed? && o.0.error.message == "Failed to extract required dependency " + name)
    ensures o.1.failing == d.failing && d.files.Keys <= o.1.files.Keys && d.dirs <= o.1.dirs
    ensures forall p :: p in d.files ==> o.1.files[p] == d.files[p]
  {
    var key := AttributeKey(name);
    if key !in jar.attributes then (Err(IllegalArgument("Required dependency " + name + " not found")), d)
    else
      var depName := jar.attributes[key];
      var dest := Resolve(depsDir, depName);
      var failed := "Failed to extract required dependency " + name;
      if !NotExists(d, dest) then (Ok(ToUrl(dest)), d)
      else match CreateDirectories(d, depsDir)
        case Err(e) => (Err(ExtractFailed(failed, Io(e))), d)
        case Ok(d1) =>
          if depName !in jar.entries then (Err(ExtractFailed(failed, NullEntry)), d1)
          else
            var (w, d2) := WriteFile(d1, dest, jar.entries[depName]);
            if w.Err? then (Err(ExtractFailed(failed, Io(w.error))), d2) else (Ok(ToUrl(dest)), d2)
  }

  /**
   * A destination that was absent is written with the jar entry's bytes, and `depsDir` exists
   * afterwards; a declared but absent entry fails with the `getInputStream(null)` cause; and a
   * plain file name whose copy is neither refused nor cut off is extracted.
   */
  lemma FreshExtraction(jar: Jar, depsDir: Path, d: Disk, name: string)
    requires AttributeKey(name) in jar.attributes
    requires NotExists(d, Resolve(depsDir, jar.attributes[AttributeKey(name)]))
    requires depsDir != []
    ensures var depName := jar.attributes[AttributeKey(name)];
      var o := Extract(jar, depsDir, d, name);
      var dest := Resolve(depsDir, depName);
      (o.0.Ok? ==> depsDir in o.1.dirs && depName in jar.entries &&
                   o.1.files[dest] == jar.entries[depName]) &&
      (CreateDirectories(d, depsDir).Ok? && depName !in jar.entries ==>
         o.0 == Err(ExtractFailed("Failed to extract required dependency " + name, NullEntry))) &&
      ((CreateDirectories(d, depsDir).Ok? && depName in jar.entries && IsName(depName) &&
        dest !in d.failing && dest !in d.interrupted) ==> o.0 == Ok(ToUrl(dest)))
  {
  }

  /**
   * An entry name with a directory part names a file in a sub-directory of `depsDir` that only
   * `depsDir` itself is created for: opening the destination fails, and the call with it.
   */
  lemma NestedEntryFails(jar: Jar, depsDir: Path, d: Disk, name: string, dir: string, file: string)
    requires IsName(dir) && IsName(file)
    requires AttributeKey(name) in jar.attributes && jar.attributes[AttributeKey(name)] == dir + "/" + file
    requires dir + "/" + file in jar.entries
    requires NotExists(d, depsDir + [dir, file]) && depsDir + [dir] !in d.dirs
    requires CreateDirectories(d, depsDir).Ok?
    ensures Extract(jar, depsDir, d, name).0 ==
      Err(ExtractFailed("Failed to extract required dependency " + name, Io(IoFailure(depsDir + [dir, file]))))
  {
    ResolveNested(depsDir, dir, file);
    var dest := depsDir + [dir, file];
    assert dest[..|dest| - 1] == depsDir + [dir];
  }

  /**
   * A copy cut off part way leaves the truncated file behind, and the next call finds the
   * destination present and returns it as the extracted dependency.
   */
  lemma InterruptedCopyIsReused(jar: Jar, depsDir: Path, d: Disk, name: string)
    requires AttributeKey(name) in jar.attributes
    requires var depName := jar.attributes[AttributeKey(name)]; var dest := Resolve(depsDir, depName);
      depName in jar.entries && NotExists(d, dest) && CreateDirectories(d, depsDir).Ok? &&
      CanCreate(CreateDirectories(d, depsDir).value, dest) &&
      dest in d.interrupted && d.interrupted[dest] < |jar.entries[depName]|
    ensures var depName := jar.attributes[AttributeKey(name)]; var dest := Resolve(depsDir, depName);
      var o := Extract(jar, depsDir, d, name);
      o.0.Err? && o.1.files[dest] == jar.entries[depName][..d.interrupted[dest]] &&
      o.1.files[dest] != jar.entries[depName] &&
      Extract(jar, depsDir, o.1, name) == (Ok(ToUrl(dest)), o.1)
  {
    var depName := jar.attributes[AttributeKey(name)];
    var dest := Resolve(depsDir, depName);
    var o := Extract(jar, depsDir, d, name);
    assert |o.1.files[dest]| < |jar.entries[depName]|;
    assert !NotExists(o.1, dest);
  }

  /** A second call with the same name returns the same URL and changes nothing. */
  lemma ExtractIdempotent(jar: Jar, depsDir: Path, d: Disk, name: string)
    requires Extract(jar, depsDir, d, name).0.Ok?
    ensures var o := Extract(jar, depsDir, d, name);
      Extract(jar, depsDir, o.1, name) == o
  {
    var o := Extract(jar, depsDir, d, name);
    var dest := Resolve(depsDir, jar.attributes[AttributeKey(name)]);
    assert !NotExists(o.1, dest);
  }

  /**
   * A regular file on the way to the destination makes the lookup fail with "Not a directory":
   * the call returns the destination's URL and writes nothing.
   */
  lemma FileAboveDestinationReturned(jar: Jar, depsDir: Path, d: Disk, name: string, k: nat)
    requires AttributeKey(name) in jar.attributes
    requires var dest := Resolve(depsDir, jar.attributes[AttributeKey(name)]);
      1 <= k < |dest| && dest[..k] in d.files
    ensures var dest := Resolve(depsDir, jar.attributes[AttributeKey(name)]);
      Extract(jar, depsDir, d, name) == (Ok(ToUrl(dest)), d)
  {
    FileAboveNotNotExists(d, Resolve(depsDir, jar.attributes[AttributeKey(name)]), k);
  }

  /** The directory names of the layout are single name elements. */
  lemma Layout(gameDir: Path)
    ensures Resolve(gameDir, "config") == gameDir + ["config"]
    ensures Resolve(gameDir, "mods") == gameDir + ["mods"]
    ensures Resolve(gameDir + ["mods"], NAMESPACE) == gameDir + ["mods", NAMESPACE]
    ensures Resolve(gameDir + ["mods", NAMESPACE], "cache") == gameDir + ["mods", NAMESPACE, "cache"]
    ensures Resolve(gameDir + ["mods", NAMESPACE], "dependencies") == gameDir + ["mods", NAMESPACE, "dependencies"]
  {
    LayoutNamesArePlain();
  }

  lemma LayoutNamesArePlain()
    ensures '/' !in "config" && '/' !in "mods" && '/' !in NAMESPACE && '/' !in "cache" && '/' !in "dependencies"
  {
  }

  class KoremodsPrelaunch {
    const gameDir: Path
    const configDir: Path
    const modsDir: Path
    const cacheDir: Path
    const depsDir: Path
    const mainJarUrl: Url
    const mainJar: Jar
    const attributes: map<string, string>
    const fs: FileSystem

    /** The constructor fixes the layout and creates the cache directory. */
    constructor (gameDir: Path, mainJarUrl: Url, mainJar: Jar, fs: FileSystem)
      modifies fs
      ensures this.gameDir == gameDir && this.mainJarUrl == mainJarUrl && this.mainJar == mainJar && this.fs == fs
      ensures configDir == gameDir + ["config"]
      ensures modsDir == gameDir + ["mods"]
      ensures cacheDir == gameDir + ["mods", NAMESPACE, "cache"]
      ensures depsDir == gameDir + ["mods", NAMESPACE, "dependencies"]
      ensures attributes == mainJar.attributes
      ensures fs.State() == Mkdirs(old(fs.State()), cacheDir).1
    {
      Layout(gameDir);
      var koremodsDir := Resolve(Resolve(gameDir, "mods"), NAMESPACE);
      var cacheDir := Resolve(koremodsDir, "cache");
      var _ := fs.MkdirsAt(cacheDir);
      this.gameDir := gameDir;
      this.configDir := Resolve(gameDir, "config");
      this.modsDir := Resolve(gameDir, "mods");
      this.cacheDir := cacheDir;
      this.depsDir := Resolve(koremodsDir, "dependencies");
      this.mainJarUrl := mainJarUrl;
      this.mainJar := mainJar;
      this.attributes := mainJar.attributes;
      this.fs := fs;
    }

    method ExtractDependency(name: string) returns (r: Result<Url, ExtractError>)
      requires attributes == mainJar.attributes
      modifies fs
      ensures (r, fs.State()) == Extract(mainJar, depsDir, old(fs.State()), name)
    {
      var key := AttributeKey(name);
      if key !in attributes {
        return Err(IllegalArgument("Required dependency " + name + " not found"));
      }
      var depName := attributes[key];
      var failed := "Failed to extract required dependency " + name;
      var destPath := Resolve(depsDir, depName);
      var absent := fs.PathNotExists(destPath);
      if absent {
        var created := fs.CreateDirectoriesAt(depsDir);
        if created.Err? {
          return Err(ExtractFailed(failed, Io(created.error)));
        }
        if depName !in mainJar.entries {
          return Err(ExtractFailed(failed, NullEntry));
        }
        var written := fs.Write(destPath, mainJar.entries[depName]);
        if written.Err? {
          return Err(ExtractFailed(failed, Io(written.error)));
        }
      }
      return Ok(ToUrl(destPath));
    }
  }
}
