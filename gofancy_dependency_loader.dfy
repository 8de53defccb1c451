/**
 * `wtf.gofancy.koremods.prelaunch.DependencyClassLoader`: a URL class loader that keeps
 * priority-prefixed classes isolated from its parent and caches what it defines itself.
 */
module GofancyDependencyLoader {
  import opened Wrappers
  import opened Paths
  import opened Strings
  import opened Resolution

  /** Prefixes that are always resolved through the parent. */
  const EXCLUSIONS: seq<string> := ["wtf.gofancy.koremods.api.", "wtf.gofancy.koremods.prelaunch."]

  class DependencyClassLoader {
    const urls: seq<Url>
    const priorityClasses: seq<string>
    const strict: bool
    /** The classes `findClass` can define from `urls`; a missing name throws ClassNotFoundException. */
    const localClasses: map<string, ClassHandle>
    /** The classes the parent loader resolves. */
    const parentClasses: map<string, ClassHandle>
    var cachedClasses: map<string, ClassHandle>
    /** The names passed to `findClass` by `loadClass`, in call order. */
    ghost var findCalls: seq<string>
    /** The names passed to `loadClassFallback`, in call order. */
    ghost var fallbackCalls: seq<string>

    function Rules(): Policy {
      Policy(EXCLUSIONS, priorityClasses, strict)
    }

    /** What `super.loadClass` answers: parent first, then this loader's own URLs. */
    function FallbackClasses(): map<string, ClassHandle> {
      ParentFirst(parentClasses, localClasses)
    }

    ghost predicate Valid()
      reads this
    {
      strict == (|urls| > 0) && CacheInv(Rules(), cachedClasses, localClasses)
    }

    constructor (urls: seq<Url>, parentClasses: map<string, ClassHandle>, priorityClasses: seq<string>,
                 localClasses: map<string, ClassHandle>)
      ensures Valid()
      ensures this.urls == urls && this.priorityClasses == priorityClasses
      ensures this.localClasses == localClasses && this.parentClasses == parentClasses
      ensures strict == (|urls| > 0)
      ensures cachedClasses == map[] && findCalls == [] && fallbackCalls == []
    {
      this.urls := urls;
      this.parentClasses := parentClasses;
      this.localClasses := localClasses;
      this.priorityClasses := priorityClasses;
      this.strict := |urls| > 0;
      cachedClasses := map[];
      findCalls := [];
      fallbackCalls := [];
    }

    /** `findClass(name)` */
    method FindClass(name: string) returns (r: Result<ClassHandle, LoadError>)
      modifies this`findCalls
      ensures r == Lookup(localClasses, name)
      ensures findCalls == old(findCalls) + [name]
    {
      r := Lookup(localClasses, name);
      findCalls := findCalls + [name];
    }

    /** `loadClassFallback(name, resolve)`: the inherited parent-first `loadClass`. */
    method LoadClassFallback(name: string) returns (r: Result<ClassHandle, LoadError>)
      modifies this`fallbackCalls
      ensures r == Lookup(FallbackClasses(), name)
      ensures fallbackCalls == old(fallbackCalls) + [name]
    {
      r := Lookup(FallbackClasses(), name);
      fallbackCalls := fallbackCalls + [name];
    }

    /**
     * `loadClass(name, resolve)`: the result and the new cache are those of the shared policy,
     * `findClass` runs exactly on the LocalOnly branch and the fallback exactly on the Delegated one.
     */
    method LoadClass(name: string) returns (r: Result<ClassHandle, LoadError>)
      requires Valid()
      modifies this`cachedClasses, this`findCalls, this`fallbackCalls
      ensures Valid()
      ensures var o := Decide(Rules(), old(cachedClasses), localClasses, FallbackClasses(), name);
        r == o.result && cachedClasses == o.cache &&
        findCalls == old(findCalls) + (if o.route == LocalOnly then [name] else []) &&
        fallbackCalls == old(fallbackCalls) + (if o.route == Delegated then [name] else [])
    {
      DecideKeepsCacheInv(Rules(), cachedClasses, localClasses, FallbackClasses(), name);
      if !AnyPrefix(EXCLUSIONS, name) {
        if name in cachedClasses {
          return Ok(cachedClasses[name]);
        }
        if strict && AnyPrefix(priorityClasses, name) {
          r := FindClass(name);
          if r.Ok? {
            cachedClasses := cachedClasses[name := r.value];
          }
          return;
        }
      }
      r := LoadClassFallback(name);
    }
  }
}
