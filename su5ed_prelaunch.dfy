/**
 * `dev.su5ed.koremods.prelaunch.KoremodsPrelaunch`: layout, dependency extraction,
 * `MOD_CLASSES` parsing and the launch decisions.
 */
module Su5edPrelaunch {
  import opened Wrappers
  import opened Strings
  import opened Paths
  import opened FileSystem
  import opened Resolution
  import opened Su5edDependencyLoader
  import Discovery

  const LAUNCH_TARGET: string := "dev.su5ed.koremods.launch.KoremodsLaunch"

  const KOTLIN_DEP_PACKAGES: seq<string> := [
    "org.jetbrains.", "kotlin.", "org.intellij.lang.", "kotlinx.coroutines.", "javaslang.",
    "gnu.trove.", "codes.som.anthony.koffee.", "io.github.config4k.", "dev.su5ed.koremods."
  ]

  datatype ExtractError =
    | IllegalArgument(message: string)
    /** `entry.getName()` on the null entry: not an IOException, so it escapes unwrapped. */
    | NullPointer
    | ExtractFailed(message: string, cause: IoError)

  function AttributeKey(name: string): string {
    "Additional-Dependencies-" + name
  }

  /**
   * `extractDependency(name)` on disk `d`. The entry is looked up before the try block, and only
   * IOException is wrapped. The entry is copied only when `Files.notExists` holds for the
   * destination; a destination whose lookup fails with "Not a directory" is returned as it is.
   */
  function Extract(jar: Jar, depsPath: Path, d: Disk, name: string): (o: (Result<Url, ExtractError>, Disk))
    ensures AttributeKey(name) !in jar.attributes ==>
      o == (Err(IllegalArgument("Required dependency " + name + " not found")), d)
    ensures AttributeKey(name) in jar.attributes && jar.attributes[AttributeKey(name)] !in jar.entries ==>
      o == (Err(NullPointer), d)
    ensures AttributeKey(name) in jar.attributes ==>
      var dest := Resolve(depsPath, jar.attributes[AttributeKey(name)]);
      (o.0.Ok? ==> o.0.value == ToUrl(dest)) &&
      (!NotExists(d, dest) && jar.attributes[AttributeKey(name)] in jar.entries ==> o == (Ok(ToUrl(dest)), d)) &&
      (NotExists(d, dest) && o.0.Ok? ==> Exists(o.1, dest)) &&
      (o.0.Err? && jar.attributes[AttributeKey(name)] in jar.entries ==>
         o.0.error.ExtractFailed? && o.0.error.message == "Can't extract required dependency " + name)
    ensures o.1.failing == d.failing && d.files.Keys <= o.1.files.Keys && d.dirs <= o.1.dirs
    ensures forall p :: p in d.files ==> o.1.files[p] == d.files[p]
  {
    var key := AttributeKey(name);
    if key !in jar.attributes then (Err(IllegalArgument("Required dependency " + name + " not found")), d)
    else
      var depName := jar.attributes[key];
      if depName !in jar.entries then (Err(NullPointer), d)
      else
        var dest := Resolve(depsPath, depName);
        var failed := "Can't extract required dependency " + name;
        if !NotExists(d, dest) then (Ok(ToUrl(dest)), d)
        else match CreateDirectories(d, depsPath)
          case Err(e) => (Err(ExtractFailed(failed, e)), d)
          case Ok(d1) =>
            var (w, d2) := WriteFile(d1, dest, jar.entries[depName]);
            if w.Err? then (Err(ExtractFailed(failed, w.error)), d2) else (Ok(ToUrl(dest)), d2)
  }

  /** A second call with the same name returns the same URL and changes nothing. */
  lemma ExtractIdempotent(jar: Jar, depsPath: Path, d: Disk, name: string)
    requires Extract(jar, depsPath, d, name).0.Ok?
    ensures var o := Extract(jar, depsPath, d, name);
      Extract(jar, depsPath, o.1, name) == o
  {
    var o := Extract(jar, depsPath, d, name);
    var dest := Resolve(depsPath, jar.attributes[AttributeKey(name)]);
    assert !NotExists(o.1, dest);
  }

  /**
   * A regular file on the way to the destination makes the lookup fail with "Not a directory":
   * a declared entry's destination is returned and nothing is written.
   */
  lemma FileAboveDestinationReturned(jar: Jar, depsPath: Path, d: Disk, name: string, k: nat)
    requires AttributeKey(name) in jar.attributes && jar.attributes[AttributeKey(name)] in jar.entries
    requires var dest := Resolve(depsPath, jar.attributes[AttributeKey(name)]);
      1 <= k < |dest| && dest[..k] in d.files
    ensures var dest := Resolve(depsPath, jar.attributes[AttributeKey(name)]);
      Extract(jar, depsPath, d, name) == (Ok(ToUrl(dest)), d)
  {
    FileAboveNotNotExists(d, Resolve(depsPath, jar.attributes[AttributeKey(name)]), k);
  }

  /**
   * An entry name with a directory part names a file in a sub-directory of `depsPath` that only
   * `depsPath` itself is created for: opening the destination fails, and the call with it.
   */
  lemma NestedEntryFails(jar: Jar, depsPath: Path, d: Disk, name: string, dir: string, file: string)
    requires IsName(dir) && IsName(file)
    requires AttributeKey(name) in jar.attributes && jar.attributes[AttributeKey(name)] == dir + "/" + file
    requires dir + "/" + file in jar.entries
    requires NotExists(d, depsPath + [dir, file]) && depsPath + [dir] !in d.dirs
    requires CreateDirectories(d, depsPath).Ok?
    ensures Extract(jar, depsPath, d, name).0 ==
      Err(ExtractFailed("Can't extract required dependency " + name, IoFailure(depsPath + [dir, file])))
  {
    ResolveNested(depsPath, dir, file);
    var dest := depsPath + [dir, file];
    assert dest[..|dest| - 1] == depsPath + [dir];
  }

  /**
   * A plain entry name whose copy is neither refused nor cut off is extracted with its bytes, and
   * `depsPath` exists afterwards.
   */
  lemma PlainEntryExtracted(jar: Jar, depsPath: Path, d: Disk, name: string)
    requires AttributeKey(name) in jar.attributes
    requires var depName := jar.attributes[AttributeKey(name)]; var dest := Resolve(depsPath, depName);
      IsName(depName) && depName in jar.entries && depsPath != [] && NotExists(d, dest) &&
      CreateDirectories(d, depsPath).Ok? && dest !in d.failing && dest !in d.interrupted
    ensures var depName := jar.attributes[AttributeKey(name)]; var dest := Resolve(depsPath, depName);
      var o := Extract(jar, depsPath, d, name);
      o.0 == Ok(ToUrl(dest)) && depsPath in o.1.dirs && o.1.files[dest] == jar.entries[depName]
  {
  }

  /**
   * A copy cut off part way leaves the truncated file behind, and the next call finds the
   * destination present and returns it as the extracted dependency.
   */
  lemma InterruptedCopyIsReused(jar: Jar, depsPath: Path, d: Disk, name: string)
    requires AttributeKey(name) in jar.attributes
    requires var depName := jar.attributes[AttributeKey(name)]; var dest := Resolve(depsPath, depName);
      depName in jar.entries && NotExists(d, dest) && CreateDirectories(d, depsPath).Ok? &&
      CanCreate(CreateDirectories(d, depsPath).value, dest) &&
      dest in d.interrupted && d.interrupted[dest] < |jar.entries[depName]|
    ensures var depName := jar.attributes[AttributeKey(name)]; var dest := Resolve(depsPath, depName);
      var o := Extract(jar, depsPath, d, name);
      o.0.Err? && o.1.files[dest] == jar.entries[depName][..d.interrupted[dest]] &&
      o.1.files[dest] != jar.entries[depName] &&
      Extract(jar, depsPath, o.1, name) == (Ok(ToUrl(dest)), o.1)
  {
    var depName := jar.attributes[AttributeKey(name)];
    var dest := Resolve(depsPath, depName);
    var o := Extract(jar, depsPath, d, name);
    assert |o.1.files[dest]| < |jar.entries[depName]|;
    assert !NotExists(o.1, dest);
  }

  /** `parts[parts.length - 1]` on an empty array. */
  datatype IndexError = ArrayIndexOutOfBounds(index: int)

  /** The last "%%"-separated part of one `MOD_CLASSES` item, as `split("%%")` leaves it. */
  function LastPart(item: string): (r: Result<string, IndexError>)
    ensures r.Err? <==> |JavaSplit(item, "%%")| == 0
    ensures r.Err? ==> r.error == ArrayIndexOutOfBounds(-1)
    ensures IndexOf(item, "%%") == -1 ==> r == Ok(item)
    ensures r.Ok? ==> r.value in JavaSplit(item, "%%") && (IndexOf(item, "%%") != -1 ==> r.value != "")
  {
    var parts := JavaSplit(item, "%%");
    if |parts| == 0 then Err(ArrayIndexOutOfBounds(-1)) else Ok(parts[|parts| - 1])
  }

  /**
   * The items of `MOD_CLASSES` turned into URLs in order: `toPath` is `Paths.get` and
   * `malformed` says which paths `toURL` rejects (dropped after logging).
   */
  function ItemUrls(items: seq<string>, toPath: string -> Path, malformed: Path -> bool): (r: Result<seq<Url>, IndexError>)
    ensures r.Ok? <==> forall i :: 0 <= i < |items| ==> LastPart(items[i]).Ok?
    ensures r.Ok? ==> |r.value| <= |items|
    ensures r.Ok? && (forall i :: 0 <= i < |items| ==> !malformed(toPath(LastPart(items[i]).value))) ==>
      |r.value| == |items| && forall i :: 0 <= i < |items| ==> r.value[i] == ToUrl(toPath(LastPart(items[i]).value))
  {
    if |items| == 0 then Ok([])
    else
      match LastPart(items[0])
      case Err(e) => Err(e)
      case Ok(part) =>
        var rest := ItemUrls(items[1..], toPath, malformed);
        if rest.Err? then rest
        else
          var path := toPath(part);
          if malformed(path) then rest else Ok([ToUrl(path)] + rest.value)
  }

  /** The paths `Paths.get` gives for the last parts of items that all have one. */
  function ItemPaths(items: seq<string>, toPath: string -> Path): seq<Path>
    requires forall i :: 0 <= i < |items| ==> LastPart(items[i]).Ok?
  {
    seq(|items|, i requires 0 <= i < |items| => toPath(LastPart(items[i]).value))
  }

  /** The paths `toURL` accepts. */
  function WellFormed(malformed: Path -> bool): Path -> bool {
    p => !malformed(p)
  }

  function UrlsOf(paths: seq<Path>): seq<Url> {
    seq(|paths|, i requires 0 <= i < |paths| => ToUrl(paths[i]))
  }

  /**
   * When every item has a last part, the URLs are exactly those of the item paths `toURL`
   * accepts, in the order of the items: a malformed path is dropped and nothing else is.
   */
  lemma {:induction false} ItemUrlsAreWellFormedPaths(items: seq<string>, toPath: string -> Path, malformed: Path -> bool)
    requires forall i :: 0 <= i < |items| ==> LastPart(items[i]).Ok?
    ensures ItemUrls(items, toPath, malformed) ==
      Ok(UrlsOf(Discovery.Filter(ItemPaths(items, toPath), WellFormed(malformed))))
    decreases |items|
  {
    var keep := WellFormed(malformed);
    if |items| == 0 {
      assert ItemPaths(items, toPath) == [];
      assert Discovery.Filter([], keep) == [];
      assert UrlsOf([]) == [];
    } else {
      var rest := items[1..];
      assert forall i :: 0 <= i < |rest| ==> rest[i] == items[i + 1];
      ItemUrlsAreWellFormedPaths(rest, toPath, malformed);
      var head := toPath(LastPart(items[0]).value);
      var restPaths := ItemPaths(rest, toPath);
      ItemPathsCons(items, toPath);
      ItemUrlsCons(items, toPath, malformed);
      FilterCons(head, restPaths, keep);
      var kept := Discovery.Filter(restPaths, keep);
      if keep(head) {
        UrlsOfCons(head, kept);
      } else {
        assert [] + kept == kept;
      }
    }
  }

  lemma FilterCons(head: Path, rest: seq<Path>, keep: Path -> bool)
    ensures Discovery.Filter([head] + rest, keep) ==
      (if keep(head) then [head] else []) + Discovery.Filter(rest, keep)
  {
    var single := [head];
    assert Discovery.Filter(single, keep) == (if keep(head) then [head] else []) by {
      assert single[..0] == [];
      assert Discovery.Filter(single[..0], keep) == [];
    }
    Discovery.FilterAppend(single, rest, keep);
  }

  lemma UrlsOfCons(head: Path, rest: seq<Path>)
    ensures UrlsOf([head] + rest) == [ToUrl(head)] + UrlsOf(rest)
  {
  }

  lemma ItemUrlsCons(items: seq<string>, toPath: string -> Path, malformed: Path -> bool)
    requires |items| > 0 && LastPart(items[0]).Ok? && ItemUrls(items[1..], toPath, malformed).Ok?
    ensures var head := toPath(LastPart(items[0]).value);
      var rest := ItemUrls(items[1..], toPath, malformed).value;
      ItemUrls(items, toPath, malformed) == Ok(if WellFormed(malformed)(head) then [ToUrl(head)] + rest else rest)
  {
  }

  lemma ItemPathsCons(items: seq<string>, toPath: string -> Path)
    requires |items| > 0 && forall i :: 0 <= i < |items| ==> LastPart(items[i]).Ok?
    ensures ItemPaths(items, toPath) == [toPath(LastPart(items[0]).value)] + ItemPaths(items[1..], toPath)
  {
  }

  /** `getModClasses()`: no `MOD_CLASSES` variable gives no URLs. */
  function ModClasses(env: Option<string>, pathSeparator: string, toPath: string -> Path, malformed: Path -> bool)
    : (r: Result<seq<Url>, IndexError>)
    requires |pathSeparator| > 0
    ensures env.None? ==> r == Ok([])
    ensures env.Some? ==> r == ItemUrls(JavaSplit(env.value, pathSeparator), toPath, malformed)
  {
    if env.None? then Ok([]) else ItemUrls(JavaSplit(env.value, pathSeparator), toPath, malformed)
  }

  /** No piece produced by splitting contains the separator. */
  lemma {:induction false} SplitAllPiecesFree(s: string, sep: string, k: nat)
    requires |sep| > 0 && k < |SplitAll(s, sep)|
    ensures IndexOf(SplitAll(s, sep)[k], sep) == -1
    decreases |s|
  {
    var i := IndexOf(s, sep);
    if i == -1 {
      assert SplitAll(s, sep) == [s];
    } else {
      var rest := s[i + |sep|..];
      assert SplitAll(s, sep) == [s[..i]] + SplitAll(rest, sep);
      if k == 0 {
        var piece := s[..i];
        assert SplitAll(s, sep)[0] == piece;
        forall j | 0 <= j && j + |sep| <= |piece|
          ensures OccursAt(piece, sep, j) == OccursAt(s, sep, j)
        {
          var a, b := piece[j..j + |sep|], s[j..j + |sep|];
          assert |a| == |b| && forall t :: 0 <= t < |a| ==> a[t] == b[t];
        }
      } else {
        SplitAllPiecesFree(rest, sep, k - 1);
        assert SplitAll(s, sep)[k] == SplitAll(rest, sep)[k - 1];
      }
    }
  }

  /** An item without "%%" is used whole, and a part never contains "%%". */
  lemma LastPartProperties(item: string)
    ensures IndexOf(item, "%%") == -1 ==> LastPart(item) == Ok(item)
    ensures LastPart(item).Ok? ==> IndexOf(LastPart(item).value, "%%") == -1
  {
    var parts := JavaSplit(item, "%%");
    if IndexOf(item, "%%") != -1 && |parts| > 0 {
      var all := SplitAll(item, "%%");
      assert parts[|parts| - 1] == all[|parts| - 1];
      SplitAllPiecesFree(item, "%%", |parts| - 1);
    }
  }

  /** An item that is only the separator leaves `split` with no parts, so the index is -1. */
  lemma SeparatorOnlyItemFails()
    ensures LastPart("%%") == Err(ArrayIndexOutOfBounds(-1))
  {
    assert OccursAt("%%", "%%", 0);
    assert SplitAll("", "%%") == [""];
    assert SplitAll("%%", "%%") == ["", ""];
  }

  /** The launch target carries a priority prefix and no excluded one. */
  lemma LaunchTargetIsPriority()
    ensures AnyPrefix(KOTLIN_DEP_PACKAGES, LAUNCH_TARGET)
    ensures !AnyPrefix(Su5edDependencyLoader.EXCLUSIONS, LAUNCH_TARGET)
  {
    assert StartsWith(LAUNCH_TARGET, KOTLIN_DEP_PACKAGES[8]);
    var ex := Su5edDependencyLoader.EXCLUSIONS;
    assert LAUNCH_TARGET[..|ex[0]|] != ex[0] by { assert LAUNCH_TARGET[19] != ex[0][19]; }
    assert LAUNCH_TARGET[..|ex[1]|] != ex[1] by { assert LAUNCH_TARGET[19] != ex[1][19]; }
  }

  /** The splash screen is wanted when the lower-cased OS name lacks "mac" and a factory class is named. */
  predicate WantsSplash(osName: string, splashFactoryClass: Option<string>) {
    IndexOf(AsciiLower(osName), "mac") == -1 && splashFactoryClass.Some?
  }

  /** The layout's directory names are single elements; the version is resolved as it is given. */
  lemma Layout(gameDir: Path, mcVersion: string)
    ensures Resolve(gameDir, "mods") == gameDir + ["mods"]
    ensures Resolve(gameDir, "config") == gameDir + ["config"]
    ensures var v := Resolve(gameDir + ["mods"], mcVersion);
      Resolve(v, "koremods") == v + ["koremods"] &&
      Resolve(v + ["koremods"], "cache") == v + ["koremods", "cache"] &&
      Resolve(v + ["koremods"], "dependencies") == v + ["koremods", "dependencies"]
    ensures IsName(mcVersion) ==> Resolve(gameDir + ["mods"], mcVersion) == gameDir + ["mods", mcVersion]
    ensures IsName(mcVersion) ==>
      var v := Resolve(gameDir + ["mods"], mcVersion);
      v + ["koremods", "cache"] == gameDir + ["mods", mcVersion, "koremods", "cache"] &&
      v + ["koremods", "dependencies"] == gameDir + ["mods", mcVersion, "koremods", "dependencies"]
  {
    LayoutNamesArePlain();
  }

  lemma LayoutNamesArePlain()
    ensures IsName("mods") && IsName("config") && IsName("koremods") && IsName("cache") && IsName("dependencies")
  {
  }

  datatype LaunchError = Extraction(error: ExtractError) | Load(loadError: LoadError)

  /** The arguments `launch` passes to the launch target's `launch` method. */
  datatype LaunchCall = LaunchCall(launchClass: ClassHandle, cacheDir: Path, configDir: Path, modsDir: Path,
                                   discoveryUrls: seq<Url>, splashFactory: Option<ClassHandle>)

  class KoremodsPrelaunch {
    const gameDir: Path
    const discoveryUrls: seq<Url>
    const modsDir: Path
    const cacheDir: Path
    const depsPath: Path
    const modJarUrl: Url
    const modJar: Jar
    const fs: FileSystem
    /** This class's own loader, cast to URLClassLoader. */
    const parent: ParentLoader
    /** The classes the mod jar and the Kotlin dependency jar define. */
    const isolatedClasses: map<string, ClassHandle>
    /** The static `dependencyClassLoader`, null until `launch` sets it. */
    var dependencyClassLoader: Option<DependencyClassLoader>

    /**
     * The constructor after `getModClasses()` has returned `discoveryUrls`: it fixes the layout,
     * where a version with '/'s in it adds one directory per part, and creates the cache directory.
     */
    constructor (gameDir: Path, mcVersion: string, discoveryUrls: seq<Url>, modJarUrl: Url, modJar: Jar,
                 fs: FileSystem, parent: ParentLoader, isolatedClasses: map<string, ClassHandle>)
      modifies fs
      ensures this.gameDir == gameDir && this.discoveryUrls == discoveryUrls
      ensures this.modJarUrl == modJarUrl && this.modJar == modJar && this.fs == fs && this.parent == parent
      ensures this.isolatedClasses == isolatedClasses && dependencyClassLoader == None
      ensures modsDir == gameDir + ["mods"]
      ensures cacheDir == Resolve(modsDir, mcVersion) + ["koremods", "cache"]
      ensures depsPath == Resolve(modsDir, mcVersion) + ["koremods", "dependencies"]
      ensures IsName(mcVersion) ==> cacheDir == gameDir + ["mods", mcVersion, "koremods", "cache"] &&
                                    depsPath == gameDir + ["mods", mcVersion, "koremods", "dependencies"]
      ensures fs.State() == Mkdirs(old(fs.State()), cacheDir).1
    {
      Layout(gameDir, mcVersion);
      var versionDir := Resolve(Resolve(gameDir, "mods"), mcVersion);
      assert versionDir == Resolve(gameDir + ["mods"], mcVersion);
      var koremodsDir := Resolve(versionDir, "koremods");
      assert koremodsDir == versionDir + ["koremods"];
      var cacheDir := Resolve(koremodsDir, "cache");
      assert cacheDir == versionDir + ["koremods", "cache"];
      ghost var before := fs.State();
      var _ := fs.MkdirsAt(cacheDir);
      assert fs.State() == Mkdirs(before, cacheDir).1;
      this.gameDir := gameDir;
      this.discoveryUrls := discoveryUrls;
      this.modsDir := Resolve(gameDir, "mods");
      this.cacheDir := cacheDir;
      this.depsPath := Resolve(koremodsDir, "dependencies");
      this.modJarUrl := modJarUrl;
      this.modJar := modJar;
      this.fs := fs;
      this.parent := parent;
      this.isolatedClasses := isolatedClasses;
      this.dependencyClassLoader := None;
    }

    /**
     * `new KoremodsPrelaunch(gameDir, mcVersion)` as a whole: `getModClasses()` runs first, so an
     * item it cannot index aborts the construction before the cache directory is created.
     */
    static method Create(gameDir: Path, mcVersion: string, env: Option<string>, pathSeparator: string,
                         toPath: string -> Path, malformed: Path -> bool, modJarUrl: Url, modJar: Jar,
                         fs: FileSystem, parent: ParentLoader, isolatedClasses: map<string, ClassHandle>)
      returns (r: Result<KoremodsPrelaunch, IndexError>)
      requires |pathSeparator| > 0
      modifies fs
      ensures var urls := ModClasses(env, pathSeparator, toPath, malformed);
        (urls.Err? ==> r == Err(urls.error) && fs.State() == old(fs.State())) &&
        (urls.Ok? ==>
          r.Ok? && fresh(r.value) && r.value.discoveryUrls == urls.value &&
          r.value.gameDir == gameDir && r.value.modJarUrl == modJarUrl && r.value.modJar == modJar &&
          r.value.fs == fs && r.value.parent == parent && r.value.isolatedClasses == isolatedClasses &&
          r.value.dependencyClassLoader == None && r.value.modsDir == gameDir + ["mods"] &&
          r.value.cacheDir == Resolve(gameDir + ["mods"], mcVersion) + ["koremods", "cache"] &&
          r.value.depsPath == Resolve(gameDir + ["mods"], mcVersion) + ["koremods", "dependencies"] &&
          fs.State() == Mkdirs(old(fs.State()), r.value.cacheDir).1)
    {
      var urls := ModClasses(env, pathSeparator, toPath, malformed);
      if urls.Err? {
        return Err(urls.error);
      }
      var prelaunch := new KoremodsPrelaunch(gameDir, mcVersion, urls.value, modJarUrl, modJar, fs, parent, isolatedClasses);
      return Ok(prelaunch);
    }

    method ExtractDependency(name: string) returns (r: Result<Url, ExtractError>)
      modifies fs
      ensures (r, fs.State()) == Extract(modJar, depsPath, old(fs.State()), name)
    {
      var key := AttributeKey(name);
      if key !in modJar.attributes {
        return Err(IllegalArgument("Required dependency " + name + " not found"));
      }
      var depName := modJar.attributes[key];
      if depName !in modJar.entries {
        return Err(NullPointer);
      }
      var failed := "Can't extract required dependency " + name;
      var destPath := Resolve(depsPath, depName);
      var absent := fs.PathNotExists(destPath);
      if absent {
        var created := fs.CreateDirectoriesAt(depsPath);
        if created.Err? {
          return Err(ExtractFailed(failed, created.error));
        }
        var written := fs.Write(destPath, modJar.entries[depName]);
        if written.Err? {
          return Err(ExtractFailed(failed, written.error));
        }
      }
      return Ok(ToUrl(destPath));
    }

    /**
     * `launch(splashFactoryClass, …)` up to the reflective call: extract Kotlin, install a fresh
     * isolated loader over [mod jar, Kotlin jar], load the launch target through it and decide
     * on the splash factory.
     */
    method Launch(splashFactoryClass: Option<string>, osName: string) returns (r: Result<LaunchCall, LaunchError>)
      modifies fs, this`dependencyClassLoader
      ensures var e := Extract(modJar, depsPath, old(fs.State()), "Kotlin");
        fs.State() == e.1 &&
        (e.0.Err? ==> r == Err(Extraction(e.0.error)) && dependencyClassLoader == old(dependencyClassLoader)) &&
        (e.0.Ok? ==>
          dependencyClassLoader.Some? && fresh(dependencyClassLoader.value) &&
          dependencyClassLoader.value.urls == [modJarUrl, e.0.value] &&
          dependencyClassLoader.value.priorityClasses == KOTLIN_DEP_PACKAGES &&
          dependencyClassLoader.value.delegateParent == parent &&
          dependencyClassLoader.value.localClasses == isolatedClasses &&
          (LAUNCH_TARGET !in isolatedClasses ==> r == Err(Load(ClassNotFound(LAUNCH_TARGET)))))
      ensures var e := Extract(modJar, depsPath, old(fs.State()), "Kotlin");
        e.0.Ok? && LAUNCH_TARGET in isolatedClasses ==>
          var rules := Policy(Su5edDependencyLoader.EXCLUSIONS, KOTLIN_DEP_PACKAGES, true);
          var loaded := map[LAUNCH_TARGET := isolatedClasses[LAUNCH_TARGET]];
          (!WantsSplash(osName, splashFactoryClass) ==> r.Ok? && r.value.splashFactory == None) &&
          (WantsSplash(osName, splashFactoryClass) ==>
            var s := Decide(rules, loaded, isolatedClasses, parent.classes, splashFactoryClass.value).result;
            (s.Ok? ==> r.Ok? && r.value.splashFactory == Some(s.value)) &&
            (s.Err? ==> r == Err(Load(ClassNotFound(splashFactoryClass.value)))))
      ensures r.Ok? ==>
        LAUNCH_TARGET in isolatedClasses && r.value.launchClass == isolatedClasses[LAUNCH_TARGET] &&
        r.value.cacheDir == cacheDir && r.value.configDir == gameDir + ["config"] &&
        r.value.modsDir == modsDir && r.value.discoveryUrls == discoveryUrls &&
        (r.value.splashFactory.Some? <==> WantsSplash(osName, splashFactoryClass))
    {
      var configDir := Resolve(gameDir, "config");
      var kotlinDep := ExtractDependency("Kotlin");
      if kotlinDep.Err? {
        return Err(Extraction(kotlinDep.error));
      }
      var loader := new DependencyClassLoader([modJarUrl, kotlinDep.value], parent, KOTLIN_DEP_PACKAGES, isolatedClasses);
      dependencyClassLoader := Some(loader);
      var loaded := LoadLaunchClasses(loader, splashFactoryClass, osName);
      if loaded.Err? {
        return Err(Load(loaded.error));
      }
      return Ok(LaunchCall(loaded.value.0, cacheDir, configDir, modsDir, discoveryUrls, loaded.value.1));
    }

    /**
     * The two `loadClass` calls of `launch` on the fresh isolated loader: the launch target, then
     * the splash factory when one is wanted; the first failure is thrown.
     */
    static method LoadLaunchClasses(loader: DependencyClassLoader, splashFactoryClass: Option<string>, osName: string)
      returns (r: Result<(ClassHandle, Option<ClassHandle>), LoadError>)
      requires loader.Valid() && loader.cachedClasses == map[]
      requires loader.strict && loader.priorityClasses == KOTLIN_DEP_PACKAGES
      modifies loader`cachedClasses, loader`findCalls, loader`delegateCalls
      ensures loader.Valid()
      ensures LAUNCH_TARGET !in loader.localClasses ==> r == Err(ClassNotFound(LAUNCH_TARGET))
      ensures LAUNCH_TARGET in loader.localClasses ==>
        var launchClass := loader.localClasses[LAUNCH_TARGET];
        var cache := map[LAUNCH_TARGET := launchClass];
        (!WantsSplash(osName, splashFactoryClass) ==> r == Ok((launchClass, None)) && loader.cachedClasses == cache) &&
        (WantsSplash(osName, splashFactoryClass) ==>
          var s := Decide(loader.Rules(), cache, loader.localClasses, loader.delegateParent.classes,
                          splashFactoryClass.value).result;
          (s.Ok? ==> r == Ok((launchClass, Some(s.value)))) &&
          (s.Err? ==> r == Err(ClassNotFound(splashFactoryClass.value))))
    {
      LaunchTargetIsPriority();
      var launchClass := loader.LoadClass(LAUNCH_TARGET);
      if launchClass.Err? {
        return Err(launchClass.error);
      }
      var splashFactory: Option<ClassHandle> := None;
      if WantsSplash(osName, splashFactoryClass) {
        var splash := loader.LoadClass(splashFactoryClass.value);
        if splash.Err? {
          return Err(splash.error);
        }
        splashFactory := Some(splash.value);
      }
      return Ok((launchClass.value, splashFactory));
    }
  }
}
