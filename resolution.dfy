/**
 * The prefix-driven resolution policy shared by both revisions of `DependencyClassLoader.loadClass`:
 * excluded prefixes always delegate; otherwise the per-instance cache is consulted; in strict mode
 * (at least one URL) a name with a priority prefix is resolved only locally and then cached;
 * everything else delegates.
 */
module Resolution {
  import opened Wrappers
  import opened Strings

  /** A `Class<?>` object; equal handles are the identical class. */
  datatype ClassHandle = ClassHandle(id: nat)

  /** `ClassNotFoundException(name)` */
  datatype LoadError = ClassNotFound(name: string)

  /** The fixed configuration of one loader: `EXCLUSIONS`, `priorityClasses` and `strict`. */
  datatype Policy = Policy(exclusions: seq<string>, priority: seq<string>, strict: bool)

  /** Which branch of `loadClass` answers a request. */
  datatype Route = Delegated | Cached | LocalOnly

  /** One `loadClass` call: its result, the cache afterwards and the branch taken. */
  datatype Outcome = Outcome(result: Result<ClassHandle, LoadError>, cache: map<string, ClassHandle>, route: Route)

  /** A class lookup in a namespace given as a map; a missing name throws ClassNotFoundException. */
  function Lookup(classes: map<string, ClassHandle>, name: string): Result<ClassHandle, LoadError> {
    if name in classes then Ok(classes[name]) else Err(ClassNotFound(name))
  }

  /**
   * The namespace of a standard parent-first `ClassLoader.loadClass`: the parent's classes, then
   * what the loader can define itself.
   */
  function ParentFirst(parent: map<string, ClassHandle>, own: map<string, ClassHandle>): (r: map<string, ClassHandle>)
    ensures forall n :: n in r <==> n in parent || n in own
    ensures forall n :: n in parent ==> r[n] == parent[n]
    ensures forall n :: n in own && n !in parent ==> r[n] == own[n]
  {
    own + parent
  }

  /**
   * `loadClass(name)`: `local` is what `findClass` can define from the loader's URLs and
   * `delegate` what the fallback returns.
   */
  function Decide(p: Policy, cache: map<string, ClassHandle>, local: map<string, ClassHandle>,
                   delegate: map<string, ClassHandle>, name: string): (r: Outcome)
    ensures r.result.Err? ==> r.result.error == ClassNotFound(name)
    ensures r.result.Ok? ==>
      (name in cache && r.result.value == cache[name]) || (name in local && r.result.value == local[name]) ||
      (name in delegate && r.result.value == delegate[name])
    ensures r.cache == cache || (r.route == LocalOnly && r.result.Ok? && r.cache == cache[name := r.result.value])
    ensures AnyPrefix(p.exclusions, name) ==> r.route == Delegated
  {
    if !AnyPrefix(p.exclusions, name) && name in cache then
      Outcome(Ok(cache[name]), cache, Cached)
    else if !AnyPrefix(p.exclusions, name) && p.strict && AnyPrefix(p.priority, name) then
      var found := Lookup(local, name);
      Outcome(found, if found.Ok? then cache[name := found.value] else cache, LocalOnly)
    else
      Outcome(Lookup(delegate, name), cache, Delegated)
  }

  /**
   * The cache invariant: every key is non-excluded, carries a priority prefix, was found in the
   * local namespace, and only a strict loader has keys at all.
   */
  ghost predicate CacheInv(p: Policy, cache: map<string, ClassHandle>, local: map<string, ClassHandle>) {
    forall k :: k in cache ==>
      p.strict && !AnyPrefix(p.exclusions, k) && AnyPrefix(p.priority, k) && k in local && cache[k] == local[k]
  }

  /** An excluded name is delegated; the cache is neither read nor written. */
  lemma ExcludedAlwaysDelegates(p: Policy, cache: map<string, ClassHandle>, local: map<string, ClassHandle>,
                                delegate: map<string, ClassHandle>, name: string)
    requires AnyPrefix(p.exclusions, name)
    ensures Decide(p, cache, local, delegate, name) == Outcome(Lookup(delegate, name), cache, Delegated)
  {
  }

  /** A cached, non-excluded name is answered from the cache with no lookup and no delegation. */
  lemma CachedNameIsReturned(p: Policy, cache: map<string, ClassHandle>, local: map<string, ClassHandle>,
                             delegate: map<string, ClassHandle>, name: string)
    requires !AnyPrefix(p.exclusions, name) && name in cache
    ensures Decide(p, cache, local, delegate, name) == Outcome(Ok(cache[name]), cache, Cached)
  {
  }

  /**
   * Strict mode, uncached priority name: only the local namespace is consulted. A hit is cached;
   * a miss propagates ClassNotFoundException with the cache unchanged (no parent fallback).
   */
  lemma PriorityNameResolvedOnlyLocally(p: Policy, cache: map<string, ClassHandle>, local: map<string, ClassHandle>,
                                        delegate: map<string, ClassHandle>, name: string)
    requires !AnyPrefix(p.exclusions, name) && name !in cache && p.strict && AnyPrefix(p.priority, name)
    ensures var o := Decide(p, cache, local, delegate, name);
      o.route == LocalOnly &&
      (name in local ==> o.result == Ok(local[name]) && o.cache == cache[name := local[name]]) &&
      (name !in local ==> o.result == Err(ClassNotFound(name)) && o.cache == cache)
  {
  }

  /** Everything else goes to the fallback, and what it returns is not cached. */
  lemma OtherNamesDelegate(p: Policy, cache: map<string, ClassHandle>, local: map<string, ClassHandle>,
                           delegate: map<string, ClassHandle>, name: string)
    requires !AnyPrefix(p.exclusions, name) && name !in cache
    requires !p.strict || !AnyPrefix(p.priority, name)
    ensures Decide(p, cache, local, delegate, name) == Outcome(Lookup(delegate, name), cache, Delegated)
  {
  }

  /** A non-strict loader delegates every non-excluded name once its cache is empty. */
  lemma NonStrictPassThrough(p: Policy, local: map<string, ClassHandle>, delegate: map<string, ClassHandle>, name: string)
    requires !p.strict
    ensures Decide(p, map[], local, delegate, name).route == Delegated
    ensures Decide(p, map[], local, delegate, name).cache == map[]
  {
  }

  /** Every call keeps the cache invariant. */
  lemma DecideKeepsCacheInv(p: Policy, cache: map<string, ClassHandle>, local: map<string, ClassHandle>,
                             delegate: map<string, ClassHandle>, name: string)
    requires CacheInv(p, cache, local)
    ensures CacheInv(p, Decide(p, cache, local, delegate, name).cache, local)
    ensures cache.Keys <= Decide(p, cache, local, delegate, name).cache.Keys
  {
  }

  /** Requests answered one after another by one loader, starting from `cache`. */
  function Run(p: Policy, cache: map<string, ClassHandle>, local: map<string, ClassHandle>,
               delegate: map<string, ClassHandle>, names: seq<string>): (os: seq<Outcome>)
    ensures |os| == |names|
    decreases |names|
  {
    if |names| == 0 then []
    else
      var o := Decide(p, cache, local, delegate, names[0]);
      [o] + Run(p, o.cache, local, delegate, names[1..])
  }

  /** A run never removes or changes a cache entry. */
  lemma {:induction false} RunKeepsEntries(p: Policy, cache: map<string, ClassHandle>, local: map<string, ClassHandle>,
                                           delegate: map<string, ClassHandle>, names: seq<string>, j: nat, k: string)
    requires j < |names| && k in cache
    ensures var os := Run(p, cache, local, delegate, names);
      k in os[j].cache && os[j].cache[k] == cache[k]
    decreases |names|
  {
    var o := Decide(p, cache, local, delegate, names[0]);
    assert k in o.cache && o.cache[k] == cache[k];
    if j > 0 {
      RunKeepsEntries(p, o.cache, local, delegate, names[1..], j - 1, k);
    }
  }

  /**
   * Resolving one priority name again after it was found locally returns the identical class
   * from the cache: `findClass` succeeds at most once per name over any run.
   */
  lemma {:induction false} LocalFindAtMostOnce(p: Policy, cache: map<string, ClassHandle>, local: map<string, ClassHandle>,
                                               delegate: map<string, ClassHandle>, names: seq<string>, i: nat, j: nat)
    requires i < j < |names| && names[i] == names[j]
    requires var os := Run(p, cache, local, delegate, names); os[i].route == LocalOnly && os[i].result.Ok?
    ensures var os := Run(p, cache, local, delegate, names);
      os[j].route == Cached && os[j].result == os[i].result
    decreases |names|
  {
    var o := Decide(p, cache, local, delegate, names[0]);
    var os := Run(p, cache, local, delegate, names);
    if i == 0 {
      var n := names[0];
      assert n in o.cache && o.cache[n] == o.result.value;
      if j == 1 {
        assert os[1] == Decide(p, o.cache, local, delegate, names[1]);
      } else {
        RunKeepsEntries(p, o.cache, local, delegate, names[1..], j - 2, n);
        var os' := Run(p, o.cache, local, delegate, names[1..]);
        assert os[j] == os'[j - 1];
        assert os'[j - 1] == Decide(p, os'[j - 2].cache, local, delegate, names[j]) by {
          RunStep(p, o.cache, local, delegate, names[1..], j - 1);
        }
      }
    } else {
      LocalFindAtMostOnce(p, o.cache, local, delegate, names[1..], i - 1, j - 1);
    }
  }

  /** Each step of a run after the first starts from the cache the previous step left. */
  lemma {:induction false} RunStep(p: Policy, cache: map<string, ClassHandle>, local: map<string, ClassHandle>,
                                   delegate: map<string, ClassHandle>, names: seq<string>, j: nat)
    requires 0 < j < |names|
    ensures var os := Run(p, cache, local, delegate, names);
      os[j] == Decide(p, os[j - 1].cache, local, delegate, names[j])
    decreases |names|
  {
    var o := Decide(p, cache, local, delegate, names[0]);
    if j > 1 {
      RunStep(p, o.cache, local, delegate, names[1..], j - 1);
    }
  }

  /** The invariant holds after every step of any run. */
  lemma {:induction false} RunKeepsCacheInv(p: Policy, cache: map<string, ClassHandle>, local: map<string, ClassHandle>,
                                            delegate: map<string, ClassHandle>, names: seq<string>, j: nat)
    requires CacheInv(p, cache, local) && j < |names|
    ensures CacheInv(p, Run(p, cache, local, delegate, names)[j].cache, local)
    decreases |names|
  {
    var o := Decide(p, cache, local, delegate, names[0]);
    DecideKeepsCacheInv(p, cache, local, delegate, names[0]);
    if j > 0 {
      RunKeepsCacheInv(p, o.cache, local, delegate, names[1..], j - 1);
    }
  }
}
