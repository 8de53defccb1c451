/**
 * `transformClass` (ClassTransformation.kt of the dev.su5ed tree): every transformer of every
 * discovered script that targets the class visits it; a script whose transformers completed at
 * least once contributes its properties object, once.
 */
module Su5edTransformation {
  import opened AsmNodes
  import opened Discovery
  import Su5edDsl
  import Su5edDiscovery

  /**
   * One script's pass: transformers targeting `name` visit the node in order, a throwing one
   * leaving whatever it changed; `.1` is `used`, whether any visit completed.
   */
  function ScriptRun<B>(ts: seq<Su5edDsl.Transformer<B>>, name: string, node: ClassNode, blocks: Su5edDsl.Blocks<B>): (r: (ClassNode, bool))
    decreases |ts|
  {
    if |ts| == 0 then (node, false)
    else
      var before := ScriptRun(ts[..|ts| - 1], name, node, blocks);
      var t := ts[|ts| - 1];
      if t.TargetClassName() == name then
        var v := Su5edDsl.VisitClass(t, before.0, blocks);
        (v.node, before.1 || v.Completed?)
      else before
  }

  /** The node before each transformer of the script, and after the last one. */
  function ScriptStates<B>(ts: seq<Su5edDsl.Transformer<B>>, name: string, node: ClassNode, blocks: Su5edDsl.Blocks<B>): (r: seq<ClassNode>)
    ensures |r| == |ts| + 1 && r[0] == node
    decreases |ts|
  {
    if |ts| == 0 then [node] else ScriptStates(ts[..|ts| - 1], name, node, blocks) + [ScriptRun(ts, name, node, blocks).0]
  }

  /** Transformer `i` targets the class and completed its visit of the node it was given, `s[i]`. */
  predicate CompletedAt<B>(ts: seq<Su5edDsl.Transformer<B>>, s: seq<ClassNode>, i: int, name: string, blocks: Su5edDsl.Blocks<B>) {
    0 <= i < |ts| && i < |s| && ts[i].TargetClassName() == name && Su5edDsl.VisitClass(ts[i], s[i], blocks).Completed?
  }

  /** A script is used exactly when one of its transformers targeting the class completed its visit. */
  lemma {:induction false} ScriptRunUsed<B>(ts: seq<Su5edDsl.Transformer<B>>, name: string, node: ClassNode, blocks: Su5edDsl.Blocks<B>)
    ensures var s := ScriptStates(ts, name, node, blocks);
      ScriptRun(ts, name, node, blocks).0 == s[|ts|] &&
      (ScriptRun(ts, name, node, blocks).1 <==> exists i :: CompletedAt(ts, s, i, name, blocks))
    decreases |ts|
  {
    if |ts| > 0 {
      var n := |ts| - 1;
      var prefix := ts[..n];
      ScriptRunUsed(prefix, name, node, blocks);
      var s := ScriptStates(ts, name, node, blocks);
      var s' := ScriptStates(prefix, name, node, blocks);
      var before := ScriptRun(prefix, name, node, blocks);
      var run := ScriptRun(ts, name, node, blocks);
      assert s == s' + [run.0];
      assert s[n] == before.0;
      if run.1 {
        if before.1 {
          var i :| CompletedAt(prefix, s', i, name, blocks);
          assert prefix[i] == ts[i] && s'[i] == s[i];
          assert CompletedAt(ts, s, i, name, blocks);
        } else {
          assert CompletedAt(ts, s, n, name, blocks);
        }
      }
      if exists i :: CompletedAt(ts, s, i, name, blocks) {
        var i :| CompletedAt(ts, s, i, name, blocks);
        if i < n {
          assert prefix[i] == ts[i] && s'[i] == s[i];
          assert CompletedAt(prefix, s', i, name, blocks);
        }
        assert run.1;
      }
    }
  }

  /** No transformer of the list targets the class. */
  predicate Untargeted<B>(ts: seq<Su5edDsl.Transformer<B>>, name: string) {
    forall i :: 0 <= i < |ts| ==> ts[i].TargetClassName() != name
  }

  /** A script with no transformer for the class leaves it alone and is not used. */
  lemma {:induction false} ScriptRunUntargeted<B>(ts: seq<Su5edDsl.Transformer<B>>, name: string, node: ClassNode, blocks: Su5edDsl.Blocks<B>)
    requires Untargeted(ts, name)
    ensures ScriptRun(ts, name, node, blocks) == (node, false)
    decreases |ts|
  {
    if |ts| > 0 {
      ScriptRunUntargeted(ts[..|ts| - 1], name, node, blocks);
    }
  }

  /** The scripts of one mod, in order; `propsOf(modid, script)` stands for `script.handler.getProps()`. */
  function ScriptsRun<B, P>(modid: string, scripts: seq<Script<string, Su5edDsl.Transformer<B>>>, name: string, node: ClassNode,
                            blocks: Su5edDsl.Blocks<B>, propsOf: (string, string) -> P): (r: (ClassNode, seq<P>))
    decreases |scripts|
  {
    if |scripts| == 0 then (node, [])
    else
      var before := ScriptsRun(modid, scripts[..|scripts| - 1], name, node, blocks, propsOf);
      var s := scripts[|scripts| - 1];
      var run := ScriptRun(s.transformers, name, before.0, blocks);
      (run.0, before.1 + if run.1 then [propsOf(modid, s.key)] else [])
  }

  /** Every discovered pack, in order. */
  function PacksRun<B, P>(packs: seq<Su5edDiscovery.ScriptPack<Su5edDsl.Transformer<B>>>, name: string, node: ClassNode,
                          blocks: Su5edDsl.Blocks<B>, propsOf: (string, string) -> P): (r: (ClassNode, seq<P>))
    decreases |packs|
  {
    if |packs| == 0 then (node, [])
    else
      var before := PacksRun(packs[..|packs| - 1], name, node, blocks, propsOf);
      var p := packs[|packs| - 1];
      var run := ScriptsRun(p.meta, p.scripts, name, before.0, blocks, propsOf);
      (run.0, before.1 + run.1)
  }

  /** Scripts none of whose transformers target the class leave it alone and contribute nothing. */
  lemma {:induction false} ScriptsRunUntargeted<B, P>(modid: string, scripts: seq<Script<string, Su5edDsl.Transformer<B>>>, name: string,
                                                      node: ClassNode, blocks: Su5edDsl.Blocks<B>, propsOf: (string, string) -> P)
    requires Untargeted(ScriptTransformers(scripts), name)
    ensures ScriptsRun(modid, scripts, name, node, blocks, propsOf) == (node, [])
    decreases |scripts|
  {
    if |scripts| > 0 {
      var n := |scripts| - 1;
      var ts := ScriptTransformers(scripts);
      var head := ScriptTransformers(scripts[..n]);
      var last := scripts[n].transformers;
      assert ts == head + last;
      forall i | 0 <= i < |head|
        ensures head[i].TargetClassName() != name
      {
        assert head[i] == ts[i];
        assert ts[i].TargetClassName() != name;
      }
      forall i | 0 <= i < |last|
        ensures last[i].TargetClassName() != name
      {
        assert last[i] == ts[|head| + i];
        assert ts[|head| + i].TargetClassName() != name;
      }
      ScriptsRunUntargeted(modid, scripts[..n], name, node, blocks, propsOf);
      ScriptRunUntargeted(scripts[n].transformers, name, node, blocks);
      var empty: seq<P> := [];
      assert empty + empty == empty;
    }
  }

  /** A class no discovered transformer targets is left alone and yields no properties. */
  lemma {:induction false} PacksRunUntargeted<B, P>(packs: seq<Su5edDiscovery.ScriptPack<Su5edDsl.Transformer<B>>>, name: string,
                                                    node: ClassNode, blocks: Su5edDsl.Blocks<B>, propsOf: (string, string) -> P)
    requires Untargeted(Flatten(packs), name)
    ensures PacksRun(packs, name, node, blocks, propsOf) == (node, [])
    decreases |packs|
  {
    if |packs| > 0 {
      var n := |packs| - 1;
      var ts := Flatten(packs);
      var head := Flatten(packs[..n]);
      var last := ScriptTransformers(packs[n].scripts);
      assert ts == head + last;
      forall i | 0 <= i < |head|
        ensures head[i].TargetClassName() != name
      {
        assert head[i] == ts[i];
        assert ts[i].TargetClassName() != name;
      }
      forall i | 0 <= i < |last|
        ensures last[i].TargetClassName() != name
      {
        assert last[i] == ts[|head| + i];
        assert ts[|head| + i].TargetClassName() != name;
      }
      PacksRunUntargeted(packs[..n], name, node, blocks, propsOf);
      ScriptsRunUntargeted(packs[n].meta, packs[n].scripts, name, node, blocks, propsOf);
    }
  }

  /** The `filter { … }.any()` over one script's transformers. */
  method RunScript<B>(ts: seq<Su5edDsl.Transformer<B>>, name: string, node: ClassNode, blocks: Su5edDsl.Blocks<B>)
    returns (after: ClassNode, used: bool)
    ensures (after, used) == ScriptRun(ts, name, node, blocks)
  {
    after, used := node, false;
    var i := 0;
    while i < |ts|
      invariant 0 <= i <= |ts|
      invariant (after, used) == ScriptRun(ts[..i], name, node, blocks)
    {
      assert ts[..i + 1][..i] == ts[..i];
      var t := ts[i];
      if t.TargetClassName() == name {
        var v := Su5edDsl.VisitClass(t, after, blocks);
        after := v.node;
        if v.Completed? {
          used := true;
        }
      }
      i := i + 1;
    }
    assert ts[..i] == ts;
  }

  /** The scripts of one mod. */
  method RunScripts<B, P>(modid: string, scripts: seq<Script<string, Su5edDsl.Transformer<B>>>, name: string, node: ClassNode,
                          blocks: Su5edDsl.Blocks<B>, propsOf: (string, string) -> P)
    returns (after: ClassNode, props: seq<P>)
    ensures (after, props) == ScriptsRun(modid, scripts, name, node, blocks, propsOf)
  {
    after, props := node, [];
    var i := 0;
    while i < |scripts|
      invariant 0 <= i <= |scripts|
      invariant (after, props) == ScriptsRun(modid, scripts[..i], name, node, blocks, propsOf)
    {
      assert scripts[..i + 1][..i] == scripts[..i];
      var used;
      after, used := RunScript(scripts[i].transformers, name, after, blocks);
      if used {
        props := props + [propsOf(modid, scripts[i].key)];
      } else {
        assert props + [] == props;
      }
      i := i + 1;
    }
    assert scripts[..i] == scripts;
  }

  /**
   * `transformClass(name, node)`: nothing happens before discovery has run; afterwards every pack
   * is processed in order. The returned node stands for the mutated `node`.
   */
  method TransformClass<B, P>(discoverer: Su5edDiscovery.KoremodsDiscoverer<Su5edDsl.Transformer<B>>, name: string, node: ClassNode,
                              blocks: Su5edDsl.Blocks<B>, propsOf: (string, string) -> P)
    returns (after: ClassNode, props: seq<P>)
    ensures !discoverer.IsInitialized() ==> after == node && props == []
    ensures discoverer.IsInitialized() ==> (after, props) == PacksRun(discoverer.transformers.value, name, node, blocks, propsOf)
  {
    after, props := node, [];
    if discoverer.IsInitialized() {
      var packs := discoverer.transformers.value;
      var i := 0;
      while i < |packs|
        invariant 0 <= i <= |packs|
        invariant (after, props) == PacksRun(packs[..i], name, node, blocks, propsOf)
      {
        assert packs[..i + 1][..i] == packs[..i];
        var more;
        after, more := RunScripts(packs[i].meta, packs[i].scripts, name, after, blocks, propsOf);
        props := props + more;
        i := i + 1;
      }
      assert packs[..i] == packs;
    }
  }
}

/**
 * `transformClass` of the older dev.su5ed loader (Transformation.kt): the first transformer, over
 * all packs and scripts in order, that is eligible and completes its visit decides the result;
 * a null class name makes every transformer eligible.
 */
module KoremodTransformation {
  import opened Wrappers
  import opened AsmNodes
  import opened Discovery
  import Su5edLegacyDsl
  import KoremodDiscovery

  predicate Eligible<B>(t: Su5edLegacyDsl.Transformer<B>, name: Option<string>) {
    name.None? || t.GetTargetClassName() == name.value
  }

  /**
   * The node after the transformers tried in order, and the `ext` (`extOf`) of the first eligible
   * one that completed; a throwing visit keeps its changes and the search goes on.
   */
  function FirstCompleted<B, E>(ts: seq<Su5edLegacyDsl.Transformer<B>>, name: Option<string>, node: ClassNode,
                                blocks: Su5edLegacyDsl.Blocks<B>, extOf: Su5edLegacyDsl.Transformer<B> -> E): (r: (ClassNode, Option<E>))
    decreases |ts|
  {
    if |ts| == 0 then (node, None)
    else if Eligible(ts[0], name) then
      var v := Su5edLegacyDsl.VisitClass(ts[0], node, blocks);
      if v.Completed? then (v.node, Some(extOf(ts[0]))) else FirstCompleted(ts[1..], name, v.node, blocks, extOf)
    else FirstCompleted(ts[1..], name, node, blocks, extOf)
  }

  /** Searching `a + b` is searching `a`, then, only when nothing in `a` completed, `b` from where `a` left the node. */
  lemma {:induction false} FirstCompletedAppend<B, E>(a: seq<Su5edLegacyDsl.Transformer<B>>, b: seq<Su5edLegacyDsl.Transformer<B>>,
                                                      name: Option<string>, node: ClassNode, blocks: Su5edLegacyDsl.Blocks<B>,
                                                      extOf: Su5edLegacyDsl.Transformer<B> -> E)
    ensures var ra := FirstCompleted(a, name, node, blocks, extOf);
      FirstCompleted(a + b, name, node, blocks, extOf) == if ra.1.Some? then ra else FirstCompleted(b, name, ra.0, blocks, extOf)
    decreases |a|
  {
    if |a| == 0 {
      assert a + b == b;
    } else {
      assert (a + b)[0] == a[0] && (a + b)[1..] == a[1..] + b;
      if Eligible(a[0], name) {
        var v := Su5edLegacyDsl.VisitClass(a[0], node, blocks);
        FirstCompletedAppend(a[1..], b, name, v.node, blocks, extOf);
      } else {
        FirstCompletedAppend(a[1..], b, name, node, blocks, extOf);
      }
    }
  }

  /** A returned `ext` belongs to an eligible transformer of the list. */
  lemma {:induction false} FirstCompletedFound<B, E>(ts: seq<Su5edLegacyDsl.Transformer<B>>, name: Option<string>, node: ClassNode,
                                                     blocks: Su5edLegacyDsl.Blocks<B>, extOf: Su5edLegacyDsl.Transformer<B> -> E)
    ensures var r := FirstCompleted(ts, name, node, blocks, extOf);
      r.1.Some? ==> exists i :: 0 <= i < |ts| && Eligible(ts[i], name) && r.1.value == extOf(ts[i])
    decreases |ts|
  {
    if |ts| > 0 {
      var r := FirstCompleted(ts, name, node, blocks, extOf);
      var n := if Eligible(ts[0], name) then Su5edLegacyDsl.VisitClass(ts[0], node, blocks).node else node;
      FirstCompletedFound(ts[1..], name, n, blocks, extOf);
      if r.1.Some? && r.1 != Some(extOf(ts[0])) {
        var i :| 0 <= i < |ts[1..]| && Eligible(ts[1..][i], name) && r.1.value == extOf(ts[1..][i]);
        assert ts[i + 1] == ts[1..][i];
      }
    }
  }

  /** With no eligible transformer nothing is visited and null comes back. */
  lemma {:induction false} NoneEligible<B, E>(ts: seq<Su5edLegacyDsl.Transformer<B>>, name: Option<string>, node: ClassNode,
                                              blocks: Su5edLegacyDsl.Blocks<B>, extOf: Su5edLegacyDsl.Transformer<B> -> E)
    requires forall i :: 0 <= i < |ts| ==> !Eligible(ts[i], name)
    ensures FirstCompleted(ts, name, node, blocks, extOf) == (node, None)
    decreases |ts|
  {
    if |ts| > 0 {
      assert forall i :: 0 <= i < |ts[1..]| ==> ts[1..][i] == ts[i + 1];
      NoneEligible(ts[1..], name, node, blocks, extOf);
    }
  }

  /** The innermost `forEach`, returning as soon as a visit completes. */
  method RunTransformers<B, E>(ts: seq<Su5edLegacyDsl.Transformer<B>>, name: Option<string>, node: ClassNode,
                               blocks: Su5edLegacyDsl.Blocks<B>, extOf: Su5edLegacyDsl.Transformer<B> -> E)
    returns (after: ClassNode, ext: Option<E>)
    ensures (after, ext) == FirstCompleted(ts, name, node, blocks, extOf)
  {
    after := node;
    var i := 0;
    while i < |ts|
      invariant 0 <= i <= |ts|
      invariant FirstCompleted(ts, name, node, blocks, extOf) == FirstCompleted(ts[i..], name, after, blocks, extOf)
    {
      assert ts[i..][0] == ts[i] && ts[i..][1..] == ts[i + 1..];
      var t := ts[i];
      if Eligible(t, name) {
        var v := Su5edLegacyDsl.VisitClass(t, after, blocks);
        after := v.node;
        if v.Completed? {
          return after, Some(extOf(t));
        }
      }
      i := i + 1;
    }
    ext := None;
  }

  /** Running a script's transformers and then the rest is running them all, in order. */
  lemma ScriptsStep<B, E>(scripts: seq<Script<string, Su5edLegacyDsl.Transformer<B>>>, i: nat)
    requires i < |scripts|
    ensures ScriptTransformers(scripts[i..]) == scripts[i].transformers + ScriptTransformers(scripts[i + 1..])
  {
    assert scripts[i..] == [scripts[i]] + scripts[i + 1..];
    ScriptTransformersAppend([scripts[i]], scripts[i + 1..]);
    assert [scripts[i]][..0] == [];
  }

  /** The scripts of one mod. */
  method RunScripts<B, E>(scripts: seq<Script<string, Su5edLegacyDsl.Transformer<B>>>, name: Option<string>, node: ClassNode,
                          blocks: Su5edLegacyDsl.Blocks<B>, extOf: Su5edLegacyDsl.Transformer<B> -> E)
    returns (after: ClassNode, ext: Option<E>)
    ensures (after, ext) == FirstCompleted(ScriptTransformers(scripts), name, node, blocks, extOf)
  {
    after := node;
    var i := 0;
    assert scripts[0..] == scripts;
    while i < |scripts|
      invariant 0 <= i <= |scripts|
      invariant FirstCompleted(ScriptTransformers(scripts), name, node, blocks, extOf)
             == FirstCompleted(ScriptTransformers(scripts[i..]), name, after, blocks, extOf)
    {
      ScriptsStep<B, E>(scripts, i);
      FirstCompletedAppend(scripts[i].transformers, ScriptTransformers(scripts[i + 1..]), name, after, blocks, extOf);
      after, ext := RunTransformers(scripts[i].transformers, name, after, blocks, extOf);
      if ext.Some? {
        return;
      }
      i := i + 1;
    }
    assert scripts[i..] == [];
    ext := None;
  }

  lemma PacksStep<B>(packs: seq<KoremodDiscovery.ScriptPack<Su5edLegacyDsl.Transformer<B>>>, i: nat)
    requires i < |packs|
    ensures Flatten(packs[i..]) == ScriptTransformers(packs[i].scripts) + Flatten(packs[i + 1..])
  {
    assert packs[i..] == [packs[i]] + packs[i + 1..];
    FlattenAppend([packs[i]], packs[i + 1..]);
    assert [packs[i]][..0] == [];
  }

  /**
   * `transformClass(name, node)`: null before discovery has run; otherwise the first completed
   * eligible transformer over all packs decides.
   */
  method TransformClass<B, E>(discoverer: KoremodDiscovery.KoremodDiscoverer<Su5edLegacyDsl.Transformer<B>>, name: Option<string>,
                              node: ClassNode, blocks: Su5edLegacyDsl.Blocks<B>, extOf: Su5edLegacyDsl.Transformer<B> -> E)
    returns (after: ClassNode, ext: Option<E>)
    ensures !discoverer.IsInitialized() ==> after == node && ext == None
    ensures discoverer.IsInitialized() ==> (after, ext) == FirstCompleted(Flatten(discoverer.transformers.value), name, node, blocks, extOf)
  {
    after, ext := node, None;
    if discoverer.IsInitialized() {
      var packs := discoverer.transformers.value;
      var i := 0;
      assert packs[0..] == packs;
      while i < |packs|
        invariant 0 <= i <= |packs|
        invariant FirstCompleted(Flatten(packs), name, node, blocks, extOf) == FirstCompleted(Flatten(packs[i..]), name, after, blocks, extOf)
      {
        PacksStep(packs, i);
        FirstCompletedAppend(ScriptTransformers(packs[i].scripts), Flatten(packs[i + 1..]), name, after, blocks, extOf);
        after, ext := RunScripts(packs[i].scripts, name, after, blocks, extOf);
        if ext.Some? {
          return;
        }
        i := i + 1;
      }
      assert packs[i..] == [];
      ext := None;
    }
  }
}
