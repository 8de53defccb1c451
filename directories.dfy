/**
 * Where compiled scripts are cached by default (script/host/Directories.kt of the dev.su5ed tree):
 * the operating system is guessed from `os.name`, and the cache directory is chosen from system
 * properties and environment variables, a blank value counting as an absent one.
 */
module Directories {
  import opened Wrappers
  import opened Strings
  import opened Paths

  /** Kotlin's `Char.isWhitespace()`: Java whitespace or a Unicode space separator. */
  predicate IsWhitespace(c: char) {
    var k := c as int;
    (0x09 <= k <= 0x0D) || (0x1C <= k <= 0x20) || k == 0xA0 || k == 0x1680 || (0x2000 <= k <= 0x200A) ||
    k == 0x2028 || k == 0x2029 || k == 0x202F || k == 0x205F || k == 0x3000
  }


  /** `isBlank()`: empty or whitespace only. */
  predicate IsBlank(s: string) {
    forall i :: 0 <= i < |s| ==> IsWhitespace(s[i])
  }

  /** `nullIfBlank()` */
  function NullIfBlank(s: Option<string>): (r: Option<string>)
    ensures r.Some? <==> s.Some? && !IsBlank(s.value)
    ensures r.Some? ==> r == s
  {
    if s.None? || IsBlank(s.value) then None else s
  }

  function Lookup(m: map<string, string>, name: string): Option<string> {
    if name in m then Some(m[name]) else None
  }

  /** `getProperty(name)` and `getEnv(name)`: the setting, unless it is missing or blank. */
  function Setting(m: map<string, string>, name: string): Option<string> {
    NullIfBlank(Lookup(m, name))
  }

  /** A blank value reads exactly like a missing one. */
  lemma BlankIsAbsent(m: map<string, string>, key: string, blank: string, name: string)
    requires IsBlank(blank)
    ensures Setting(m[key := blank], name) == Setting(m - {key}, name)
  {
  }

  datatype OsKind = Windows | OSX | Unix | Unknown

  predicate Contains(s: string, sub: string) {
    IndexOf(s, sub) != -1
  }

  /** The `when` over the lower-cased `os.name`, tested top to bottom. */
  function Classify(name: Option<string>): (r: OsKind)
    ensures name.None? ==> r == Unknown
    ensures name.Some? ==> (r == Windows <==> StartsWith(name.value, "windows"))
    ensures r == OSX ==> name.Some? && StartsWith(name.value, "mac os")
    ensures r == Unix ==> name.Some? && !StartsWith(name.value, "windows") && !StartsWith(name.value, "mac os")
  {
    match name
    case None => Unknown
    case Some(n) =>
      if StartsWith(n, "windows") then Windows
      else if StartsWith(n, "mac os") then OSX
      else if Contains(n, "unix") then Unix
      else if StartsWith(n, "linux") then Unix
      else if Contains(n, "bsd") then Unix
      else if StartsWith(n, "irix") then Unix
      else if StartsWith(n, "mpe/ix") then Unix
      else if StartsWith(n, "aix") then Unix
      else if StartsWith(n, "hp-ux") then Unix
      else if StartsWith(n, "sunos") then Unix
      else if StartsWith(n, "sun os") then Unix
      else if StartsWith(n, "solaris") then Unix
      else Unknown
  }

  /**
   * `os`: `os.name` lower-cased, then classified. `lowercase()` lowers all of Unicode under
   * `Locale.ROOT`; `AsciiLower` lowers only 'A'..'Z', so a name whose prefix reaches "windows"
   * or another tested prefix only through a non-ASCII letter (U+212A KELVIN SIGN lowers to 'k')
   * classifies differently here.
   */
  function Os(props: map<string, string>): (r: OsKind)
    ensures r != Unknown ==> "os.name" in props && !IsBlank(props["os.name"])
    ensures r == Windows <==> Setting(props, "os.name").Some? && StartsWith(AsciiLower(props["os.name"]), "windows")
  {
    match Setting(props, "os.name")
    case None => Unknown
    case Some(n) => Classify(Some(AsciiLower(n)))
  }

  /** The prefixes after "linux" that also mean a Unix system, in the order they are tested. */
  const OTHER_UNIX_PREFIXES: seq<string> := ["irix", "mpe/ix", "aix", "hp-ux", "sunos", "sun os", "solaris"]

  /**
   * The classification tests "windows" first and "mac os" second, so a name starting with
   * "windows" is Windows whatever else it contains; every Unix test comes later.
   */
  lemma ClassifyCases(n: string)
    ensures Classify(Some(n)) == Windows <==> StartsWith(n, "windows")
    ensures Classify(Some(n)) == OSX <==> !StartsWith(n, "windows") && StartsWith(n, "mac os")
    ensures Classify(Some(n)) == Unix <==>
      !StartsWith(n, "windows") && !StartsWith(n, "mac os") &&
      (Contains(n, "unix") || StartsWith(n, "linux") || Contains(n, "bsd") || AnyPrefix(OTHER_UNIX_PREFIXES, n))
  {
    var u := OTHER_UNIX_PREFIXES;
    if AnyPrefix(u, n) {
      var k :| 0 <= k < |u| && StartsWith(n, u[k]);
      assert StartsWith(n, "irix") || StartsWith(n, "mpe/ix") || StartsWith(n, "aix") || StartsWith(n, "hp-ux") ||
             StartsWith(n, "sunos") || StartsWith(n, "sun os") || StartsWith(n, "solaris");
    }
    if StartsWith(n, "irix") { assert StartsWith(n, u[0]); }
    if StartsWith(n, "mpe/ix") { assert StartsWith(n, u[1]); }
    if StartsWith(n, "aix") { assert StartsWith(n, u[2]); }
    if StartsWith(n, "hp-ux") { assert StartsWith(n, u[3]); }
    if StartsWith(n, "sunos") { assert StartsWith(n, u[4]); }
    if StartsWith(n, "sun os") { assert StartsWith(n, u[5]); }
    if StartsWith(n, "solaris") { assert StartsWith(n, u[6]); }
  }

  /** A missing or blank `os.name` gives Unknown. */
  lemma NoOsNameUnknown(props: map<string, string>)
    requires "os.name" !in props || IsBlank(props["os.name"])
    ensures Os(props) == Unknown
  {
  }

  /** `cache`: the per-system choice of cache directory; None is a null `File`. */
  function Cache(props: map<string, string>, env: map<string, string>): (r: Option<Path>)
    ensures r.Some? ==> |r.value| >= 1 && !IsBlank(r.value[0])
    ensures Os(props) == Windows ==>
      (r.Some? <==> Setting(env, "LOCALAPPDATA").Some? || Setting(props, "java.io.tmpdir").Some?)
    ensures Os(props) != Windows ==>
      (r.Some? <==> Setting(props, "user.home").Some? || (Os(props) == Unix && Setting(env, "XDG_CACHE_HOME").Some?))
  {
    var userHome := Setting(props, "user.home");
    match Os(props)
    case Windows =>
      (match Setting(env, "LOCALAPPDATA")
       case Some(d) => Some([d])
       case None => (match Setting(props, "java.io.tmpdir") case Some(t) => Some([t]) case None => None))
    case OSX => (match userHome case Some(h) => Some([h, "Library", "Caches"]) case None => None)
    case Unix =>
      (match Setting(env, "XDG_CACHE_HOME")
       case Some(x) => Some([x])
       case None => (match userHome case Some(h) => Some([h, ".cache"]) case None => None))
    case Unknown => (match userHome case Some(h) => Some([h, ".cache"]) case None => None)
  }

  /** The directory chosen is rooted in a setting that is present and not blank. */
  lemma CacheRootIsSet(props: map<string, string>, env: map<string, string>)
    ensures var r := Cache(props, env);
      r.Some? ==>
        |r.value| >= 1 && !IsBlank(r.value[0]) &&
        (Lookup(props, "user.home") == Some(r.value[0]) || Lookup(env, "LOCALAPPDATA") == Some(r.value[0]) ||
         Lookup(props, "java.io.tmpdir") == Some(r.value[0]) || Lookup(env, "XDG_CACHE_HOME") == Some(r.value[0]))
  {
  }

  /** The shared temporary directory is consulted only on Windows. */
  lemma TempOnlyOnWindows(props: map<string, string>, env: map<string, string>)
    requires Os(props) != Windows
    ensures Cache(props, env) == Cache(props - {"java.io.tmpdir"}, env)
  {
    var q := props - {"java.io.tmpdir"};
    assert Setting(q, "os.name") == Setting(props, "os.name");
    assert Setting(q, "user.home") == Setting(props, "user.home");
  }

  /** Setting a property to a blank value chooses the same directory as leaving it unset. */
  lemma CacheBlankPropertyIsAbsent(props: map<string, string>, env: map<string, string>, key: string, blank: string)
    requires IsBlank(blank)
    ensures Cache(props[key := blank], env) == Cache(props - {key}, env)
  {
    BlankIsAbsent(props, key, blank, "os.name");
    BlankIsAbsent(props, key, blank, "user.home");
    BlankIsAbsent(props, key, blank, "java.io.tmpdir");
  }

  /** Without a usable `user.home`, only Windows finds a cache directory. */
  lemma NoHomeNoCacheOutsideWindows(props: map<string, string>, env: map<string, string>)
    requires Setting(props, "user.home").None? && Os(props) != Windows
    ensures Cache(props, env).Some? <==> Os(props) == Unix && Setting(env, "XDG_CACHE_HOME").Some?
  {
  }
}
