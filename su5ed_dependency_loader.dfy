/**
 * `dev.su5ed.koremods.prelaunch.DependencyClassLoader`: the same isolation policy, but the
 * URL class loader's own parent is null and delegation goes only through a `DelegateClassLoader`
 * wrapped around the supplied parent.
 */
module Su5edDependencyLoader {
  import opened Wrappers
  import opened Paths
  import opened Strings
  import opened Resolution

  /** Prefixes that are always resolved through the delegate. */
  const EXCLUSIONS: seq<string> := ["dev.su5ed.koremods.api.", "dev.su5ed.koremods.prelaunch."]

  /** The supplied parent `URLClassLoader`: its URLs and the classes it resolves. */
  class ParentLoader {
    const urls: seq<Url>
    const classes: map<string, ClassHandle>

    constructor (urls: seq<Url>, classes: map<string, ClassHandle>)
      ensures this.urls == urls && this.classes == classes
    {
      this.urls := urls;
      this.classes := classes;
    }
  }

  /**
   * `DelegateClassLoader(parent)`: a plain `ClassLoader` whose `loadClass` asks the parent and
   * whose own `findClass` defines nothing.
   */
  class DelegateClassLoader {
    const parent: ParentLoader

    constructor (parent: ParentLoader)
      ensures this.parent == parent
    {
      this.parent := parent;
    }

    method LoadClass(name: string) returns (r: Result<ClassHandle, LoadError>)
      ensures r == Lookup(ParentFirst(parent.classes, map[]), name)
      ensures r == Lookup(parent.classes, name)
    {
      r := Lookup(ParentFirst(parent.classes, map[]), name);
    }
  }

  class DependencyClassLoader {
    const urls: seq<Url>
    /** The parent handed to `URLClassLoader`'s constructor: always null. */
    const superParent: Option<ParentLoader>
    const delegateParent: ParentLoader
    const delegateClassLoader: DelegateClassLoader
    const priorityClasses: seq<string>
    const strict: bool
    /** The classes `findClass` can define from `urls`. */
    const localClasses: map<string, ClassHandle>
    var cachedClasses: map<string, ClassHandle>
    /** The names passed to `findClass` by `loadClass`, in call order. */
    ghost var findCalls: seq<string>
    /** The names passed to the delegate, in call order. */
    ghost var delegateCalls: seq<string>

    function Rules(): Policy {
      Policy(EXCLUSIONS, priorityClasses, strict)
    }

    ghost predicate Valid()
      reads this, delegateClassLoader
    {
      strict == (|urls| > 0) && superParent == None && delegateClassLoader.parent == delegateParent &&
      CacheInv(Rules(), cachedClasses, localClasses)
    }

    constructor (urls: seq<Url>, parent: ParentLoader, priorityClasses: seq<string>,
                 localClasses: map<string, ClassHandle>)
      ensures Valid()
      ensures this.urls == urls && this.priorityClasses == priorityClasses && this.localClasses == localClasses
      ensures superParent == None && delegateParent == parent && fresh(delegateClassLoader)
      ensures strict == (|urls| > 0)
      ensures cachedClasses == map[] && findCalls == [] && delegateCalls == []
    {
      this.urls := urls;
      this.superParent := None;
      this.delegateParent := parent;
      this.priorityClasses := priorityClasses;
      this.localClasses := localClasses;
      this.delegateClassLoader := new DelegateClassLoader(parent);
      this.strict := |urls| > 0;
      cachedClasses := map[];
      findCalls := [];
      delegateCalls := [];
    }

    method FindClass(name: string) returns (r: Result<ClassHandle, LoadError>)
      modifies this`findCalls
      ensures r == Lookup(localClasses, name)
      ensures findCalls == old(findCalls) + [name]
    {
      r := Lookup(localClasses, name);
      findCalls := findCalls + [name];
    }

    /**
     * `loadClass(name, resolve)`: the shared policy with the delegate's namespace, which is
     * exactly the supplied parent's.
     */
    method LoadClass(name: string) returns (r: Result<ClassHandle, LoadError>)
      requires Valid()
      modifies this`cachedClasses, this`findCalls, this`delegateCalls
      ensures Valid()
      ensures var o := Decide(Rules(), old(cachedClasses), localClasses, delegateParent.classes, name);
        r == o.result && cachedClasses == o.cache &&
        findCalls == old(findCalls) + (if o.route == LocalOnly then [name] else []) &&
        delegateCalls == old(delegateCalls) + (if o.route == Delegated then [name] else [])
    {
      DecideKeepsCacheInv(Rules(), cachedClasses, localClasses, delegateParent.classes, name);
      if !AnyPrefix(EXCLUSIONS, name) {
        if name in cachedClasses {
          return Ok(cachedClasses[name]);
        }
        if strict && AnyPrefix(priorityClasses, name) {
          r := FindClass(name);
          if r.Ok? {
            cachedClasses := cachedClasses[name := r.value];
          }
          return;
        }
      }
      r := delegateClassLoader.LoadClass(name);
      delegateCalls := delegateCalls + [name];
    }

    /** `getURLs()`: this loader's URLs followed by the delegate parent's, copied with one counter. */
    method GetURLs() returns (merged: array<Url>)
      ensures fresh(merged)
      ensures merged.Length == |urls| + |delegateParent.urls|
      ensures merged[..] == urls + delegateParent.urls
    {
      var own := urls;
      var delegateUrls := delegateParent.urls;
      merged := new Url[|own| + |delegateUrls|](_ => Url("", []));
      var i := 0;
      var k := 0;
      while k < |own|
        invariant 0 <= k <= |own| && i == k
        invariant merged[..i] == own[..k]
      {
        merged[i] := own[k];
        i := i + 1;
        k := k + 1;
      }
      k := 0;
      while k < |delegateUrls|
        invariant 0 <= k <= |delegateUrls| && i == |own| + k
        invariant merged[..i] == own + delegateUrls[..k]
      {
        merged[i] := delegateUrls[k];
        i := i + 1;
        k := k + 1;
      }
      assert merged[..] == merged[..i];
    }
  }
}
