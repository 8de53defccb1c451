/** The allow-list check that both sandbox class loaders apply before delegating to their parent. */
module SandboxPolicy {
  import opened Wrappers
  import opened Strings
  import opened Resolution

  /** A name is checked only when it contains '.'; an empty list allows everything; otherwise an entry must be a prefix. */
  predicate Permitted(allowed: seq<string>, name: string) {
    IndexOf(name, ".") == -1 || |allowed| == 0 || AnyPrefix(allowed, name)
  }

  datatype SandboxError =
    | ClassNotAvailableInSandbox(message: string)
    | NotFound(error: LoadError)

  /** `loadClass(name)`: refused names throw with the name as message, the rest go to the parent. */
  function FilteredLoad(allowed: seq<string>, parent: map<string, ClassHandle>, name: string): (r: Result<ClassHandle, SandboxError>)
    ensures !Permitted(allowed, name) <==> r == Err(ClassNotAvailableInSandbox(name))
    ensures Permitted(allowed, name) && name in parent ==> r == Ok(parent[name])
    ensures Permitted(allowed, name) && name !in parent ==> r == Err(NotFound(ClassNotFound(name)))
  {
    if !Permitted(allowed, name) then Err(ClassNotAvailableInSandbox(name))
    else match Lookup(parent, name)
      case Ok(c) => Ok(c)
      case Err(e) => Err(NotFound(e))
  }

  /**
   * Adding entries to a non-empty list never takes a permission away, and every name with a new
   * prefix becomes permitted. (Adding to an empty list would refuse names it used to allow.)
   */
  lemma PermittedGrows(allowed: seq<string>, paths: seq<string>, name: string)
    ensures |allowed| > 0 && Permitted(allowed, name) ==> Permitted(allowed + paths, name)
    ensures AnyPrefix(paths, name) ==> Permitted(allowed + paths, name)
  {
    if AnyPrefix(allowed, name) {
      var i :| 0 <= i < |allowed| && StartsWith(name, allowed[i]);
      assert (allowed + paths)[i] == allowed[i];
    }
    if AnyPrefix(paths, name) {
      var i :| 0 <= i < |paths| && StartsWith(name, paths[i]);
      assert (allowed + paths)[|allowed| + i] == paths[i];
    }
  }
}

/** `wtf.gofancy.koremods.script.FilteredClassLoader` over the fixed `ALLOWED_CLASSES`. */
module GofancySandbox {
  import opened Wrappers
  import opened Strings
  import opened Resolution
  import opened SandboxPolicy

  const ALLOWED_CLASSES: seq<string> := [
    "codes.som.koffee.", "java.lang.", "java.util.", "kotlin.", "org.apache.logging.log4j.",
    "org.objectweb.asm.", "wtf.gofancy.koremods.Identifier", "wtf.gofancy.koremods.script.KoremodsKtsScript",
    "wtf.gofancy.koremods.script.ImportScript", "wtf.gofancy.koremods.dsl."
  ]

  /** The loader's decision over the fixed list. */
  function LoadClass(parent: map<string, ClassHandle>, name: string): (r: Result<ClassHandle, SandboxError>)
    ensures IndexOf(name, ".") == -1 && name in parent ==> r == Ok(parent[name])
    ensures r == Err(ClassNotAvailableInSandbox(name)) <==> IndexOf(name, ".") != -1 && !AnyPrefix(ALLOWED_CLASSES, name)
  {
    FilteredLoad(ALLOWED_CLASSES, parent, name)
  }

  /**
   * Entries are prefixes, not exact names: the entry for `Identifier` also admits a class whose
   * name merely begins with it.
   */
  lemma PrefixEntriesAdmitLongerNames()
    ensures Permitted(ALLOWED_CLASSES, "wtf.gofancy.koremods.IdentifierFactory")
    ensures Permitted(ALLOWED_CLASSES, "java.lang.String")
  {
    assert StartsWith("wtf.gofancy.koremods.IdentifierFactory", ALLOWED_CLASSES[6]);
    assert StartsWith("java.lang.String", ALLOWED_CLASSES[1]);
  }

  /** `java.io.File` has a '.' and no allowed prefix, so it is refused. */
  lemma JavaIoFileRefused()
    ensures !Permitted(ALLOWED_CLASSES, "java.io.File")
  {
    var n := "java.io.File";
    assert OccursAt(n, ".", 4);
    forall i | 0 <= i < |ALLOWED_CLASSES| ensures !StartsWith(n, ALLOWED_CLASSES[i]) {
      var p := ALLOWED_CLASSES[i];
      if i == 1 || i == 2 {
        assert n[5] != p[5];
      } else if i == 0 || i == 3 || i == 4 || i == 5 {
        assert n[0] != p[0];
      } else {
        assert |p| > |n|;
      }
    }
  }
}

/** `dev.su5ed.koremods.script.FilteredClassLoader` with its growing `restrictions` list. */
module Su5edSandbox {
  import opened Wrappers
  import opened Strings
  import opened Resolution
  import opened SandboxPolicy

  const DEFAULT_RESTRICTIONS: seq<string> := [
    "dev.su5ed.koremods.script.CoremodKtsScript", "dev.su5ed.koremods.dsl.", "java.lang", "java.util",
    "kotlin.", "org.objectweb.asm.", "codes.som.anthony.koffee.", "org.apache.logging.log4j."
  ]

  class FilteredClassLoader {
    /** Starts non-empty and only grows. */
    var restrictions: seq<string>
    /** The context class loader's classes. */
    const parentClasses: map<string, ClassHandle>

    constructor (parentClasses: map<string, ClassHandle>)
      ensures restrictions == DEFAULT_RESTRICTIONS && this.parentClasses == parentClasses
    {
      restrictions := DEFAULT_RESTRICTIONS;
      this.parentClasses := parentClasses;
    }

    method LoadClass(name: string) returns (r: Result<ClassHandle, SandboxError>)
      ensures r == FilteredLoad(restrictions, parentClasses, name)
      ensures r == Err(ClassNotAvailableInSandbox(name)) <==>
        IndexOf(name, ".") != -1 && |restrictions| > 0 && !AnyPrefix(restrictions, name)
    {
      if IndexOf(name, ".") != -1 && |restrictions| > 0 && !AnyPrefix(restrictions, name) {
        return Err(ClassNotAvailableInSandbox(name));
      }
      if name in parentClasses {
        r := Ok(parentClasses[name]);
      } else {
        r := Err(NotFound(ClassNotFound(name)));
      }
    }

    /** `allow(paths)`: appends, so nothing permitted before is refused afterwards. */
    method Allow(paths: seq<string>)
      requires |restrictions| > 0
      modifies this
      ensures restrictions == old(restrictions) + paths && |restrictions| > 0
      ensures forall n :: Permitted(old(restrictions), n) ==> Permitted(restrictions, n)
      ensures forall n :: AnyPrefix(paths, n) ==> Permitted(restrictions, n)
    {
      forall n ensures Permitted(restrictions, n) ==> Permitted(restrictions + paths, n)
        ensures AnyPrefix(paths, n) ==> Permitted(restrictions + paths, n)
      {
        PermittedGrows(restrictions, paths, n);
      }
      restrictions := restrictions + paths;
    }
  }

  /**
   * `refineConfigurationBeforeEvaluate`: the script's restrictions are added only when the base
   * loader is a FilteredClassLoader, and the evaluation configuration comes back unchanged.
   */
  method RefineBeforeEvaluate<C>(config: C, baseLoader: Option<FilteredClassLoader>, scriptRestrictions: Option<seq<string>>)
    returns (r: Result<C, ()>)
    requires baseLoader.Some? ==> |baseLoader.value.restrictions| > 0
    modifies if baseLoader.Some? then {baseLoader.value} else {}
    ensures r == Ok(config)
    ensures baseLoader.Some? && scriptRestrictions.Some? ==>
      baseLoader.value.restrictions == old(baseLoader.value.restrictions) + scriptRestrictions.value
    ensures baseLoader.Some? && scriptRestrictions.None? ==>
      baseLoader.value.restrictions == old(baseLoader.value.restrictions)
  {
    if baseLoader.Some? && scriptRestrictions.Some? {
      baseLoader.value.Allow(scriptRestrictions.value);
    }
    return Ok(config);
  }

  /**
   * The default list admits `java.lang.String`; `java.lang` has no trailing dot, so it also
   * admits any package whose name merely starts with it.
   */
  lemma DefaultAdmitsJavaLangPrefix()
    ensures Permitted(DEFAULT_RESTRICTIONS, "java.lang.String")
    ensures Permitted(DEFAULT_RESTRICTIONS, "java.langx.Foo")
  {
    assert StartsWith("java.lang.String", DEFAULT_RESTRICTIONS[2]);
    assert StartsWith("java.langx.Foo", DEFAULT_RESTRICTIONS[2]);
  }

  /** The default list refuses `java.io.File`. */
  lemma DefaultRefusesJavaIoFile()
    ensures !Permitted(DEFAULT_RESTRICTIONS, "java.io.File")
  {
    var n := "java.io.File";
    assert OccursAt(n, ".", 4);
    forall i | 0 <= i < |DEFAULT_RESTRICTIONS| ensures !StartsWith(n, DEFAULT_RESTRICTIONS[i]) {
      var p := DEFAULT_RESTRICTIONS[i];
      if i == 2 || i == 3 {
        assert n[5] != p[5];
      } else {
        assert n[0] != p[0];
      }
    }
  }

  /** A script that allows `java.io.File` gets it. */
  lemma AllowingAdmitsJavaIoFile()
    ensures Permitted(DEFAULT_RESTRICTIONS + ["java.io.File"], "java.io.File")
  {
    var n := "java.io.File";
    PermittedGrows(DEFAULT_RESTRICTIONS, [n], n);
    assert StartsWith(n, [n][0]);
  }
}
