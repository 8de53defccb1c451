/**
 * The transformer DSL of the wtf.gofancy tree (dsl/Transformers.kt): a script's handler collects
 * transformers through builders; the launch plugin, when present, may rename each target before
 * it is registered.
 */
module GofancyDsl {
  import opened Wrappers
  import Discovery
  import AsmNodes

  /** `TransformerPropertiesExtension`: carries no state; only its identity matters. */
  class PropertiesExtension {
    constructor() {}
  }

  /** `SimpleProperty`: a delegated property that starts at its default. */
  class SimpleProperty<T> {
    var value: Option<T>

    /** The property always holds a value: it starts at the default and is only set to values. */
    ghost predicate Valid()
      reads this
    {
      value.Some?
    }

    constructor(default: T)
      ensures Valid() && value == Some(default)
    {
      value := Some(default);
    }

    /** `getValue`: the stored value, or the IllegalStateException naming the property. */
    method GetValue(propertyName: string) returns (r: Result<T, string>)
      ensures value.Some? ==> r == Ok(value.value)
      ensures value.None? ==> r == Err("Property " + propertyName + " should be initialized before get.")
    {
      if value.Some? {
        r := Ok(value.value);
      } else {
        r := Err("Property " + propertyName + " should be initialized before get.");
      }
    }

    /** `setValue` */
    method SetValue(v: T)
      modifies this
      ensures Valid() && value == Some(v)
    {
      value := Some(v);
    }
  }

  /** A default followed by any number of sets never reaches the exception: the last value set is read. */
  method ReadAfterSets<T>(default: T, sets: seq<T>, propertyName: string) returns (r: Result<T, string>)
    ensures r == Ok(if |sets| == 0 then default else sets[|sets| - 1])
  {
    var p := new SimpleProperty(default);
    var i := 0;
    while i < |sets|
      invariant 0 <= i <= |sets|
      invariant p.value == Some(if i == 0 then default else sets[i - 1])
    {
      p.SetValue(sets[i]);
      i := i + 1;
    }
    r := p.GetValue(propertyName);
  }

  /** A transformer as registered: owner script, its properties object, target class and `B`, the block. */
  datatype Transformer<B> =
    | ClassTransformer(scriptIdentifier: Discovery.Identifier, props: PropertiesExtension, targetClassName: string, block: B)
    | MethodTransformer(scriptIdentifier: Discovery.Identifier, props: PropertiesExtension, targetClassName: string,
                        name: string, desc: string, block: B)
    | FieldTransformer(scriptIdentifier: Discovery.Identifier, props: PropertiesExtension, targetClassName: string,
                       name: string, block: B)

  /** `visit(node) = block(node)`: how a block runs, as a node it leaves behind and whether it threw. */
  type Runner<!B, !U> = (B, U) -> AsmNodes.Visit<U>

  /** The launch plugin's three renaming hooks (`mapClassTransformer` and its siblings). */
  datatype Plugin = Plugin(
    mapClass: string -> string,
    mapMethod: ((string, string, string)) -> (string, string, string),
    mapField: ((string, string)) -> (string, string))

  /** `KoremodsLaunch.PLUGIN?.mapClassTransformer(params) ?: params` */
  function MapClass(plugin: Option<Plugin>, name: string): (r: string)
    ensures plugin.None? ==> r == name
    ensures plugin.Some? ==> r == plugin.value.mapClass(name)
  {
    match plugin
    case None => name
    case Some(p) => p.mapClass(name)
  }

  function MapMethod(plugin: Option<Plugin>, owner: string, name: string, desc: string): (r: (string, string, string))
    ensures plugin.None? ==> r == (owner, name, desc)
    ensures plugin.Some? ==> r == plugin.value.mapMethod((owner, name, desc))
  {
    match plugin
    case None => (owner, name, desc)
    case Some(p) => p.mapMethod((owner, name, desc))
  }

  function MapField(plugin: Option<Plugin>, owner: string, name: string): (r: (string, string))
    ensures plugin.None? ==> r == (owner, name)
    ensures plugin.Some? ==> r == plugin.value.mapField((owner, name))
  {
    match plugin
    case None => (owner, name)
    case Some(p) => p.mapField((owner, name))
  }

  /** The handler's mutable list of transformers. */
  class TransformerList<B> {
    var items: seq<Transformer<B>>

    constructor()
      ensures items == []
    {
      items := [];
    }
  }

  /**
   * `TransformerBuilder`: every registration appends one transformer carrying the script's
   * identifier and properties object. `R` is the return and parameter type representation that
   * `describe` turns into a method descriptor.
   */
  class TransformerBuilder<B, R> {
    const scriptIdentifier: Discovery.Identifier
    const transformers: TransformerList<B>
    const props: PropertiesExtension
    const plugin: Option<Plugin>
    const describe: (R, seq<R>) -> string

    constructor(scriptIdentifier: Discovery.Identifier, transformers: TransformerList<B>, props: PropertiesExtension,
                plugin: Option<Plugin>, describe: (R, seq<R>) -> string)
      ensures this.scriptIdentifier == scriptIdentifier && this.transformers == transformers && this.props == props
      ensures this.plugin == plugin && this.describe == describe
    {
      this.scriptIdentifier := scriptIdentifier;
      this.transformers := transformers;
      this.props := props;
      this.plugin := plugin;
      this.describe := describe;
    }

    /** `class(name, block)` */
    method Class(name: string, block: B)
      modifies transformers
      ensures transformers.items == old(transformers.items) + [ClassTransformer(scriptIdentifier, props, MapClass(plugin, name), block)]
    {
      transformers.items := transformers.items + [ClassTransformer(scriptIdentifier, props, MapClass(plugin, name), block)];
    }

    /** `method(owner, name, desc, block)` */
    method Method(owner: string, name: string, desc: string, block: B)
      modifies transformers
      ensures var m := MapMethod(plugin, owner, name, desc);
        transformers.items == old(transformers.items) + [MethodTransformer(scriptIdentifier, props, m.0, m.1, m.2, block)]
    {
      var m := MapMethod(plugin, owner, name, desc);
      transformers.items := transformers.items + [MethodTransformer(scriptIdentifier, props, m.0, m.1, m.2, block)];
    }

    /** `method(owner, name, returnType, block)`: the descriptor of a method without parameters. */
    method MethodReturning(owner: string, name: string, returnType: R, block: B)
      modifies transformers
      ensures var m := MapMethod(plugin, owner, name, describe(returnType, []));
        transformers.items == old(transformers.items) + [MethodTransformer(scriptIdentifier, props, m.0, m.1, m.2, block)]
    {
      Method(owner, name, describe(returnType, []), block);
    }

    /** `method(owner, name, returnType, parameterTypes, block)` */
    method MethodWithParameters(owner: string, name: string, returnType: R, parameterTypes: seq<R>, block: B)
      modifies transformers
      ensures var m := MapMethod(plugin, owner, name, describe(returnType, parameterTypes));
        transformers.items == old(transformers.items) + [MethodTransformer(scriptIdentifier, props, m.0, m.1, m.2, block)]
    {
      Method(owner, name, describe(returnType, parameterTypes), block);
    }

    /** `field(owner, name, block)` */
    method Field(owner: string, name: string, block: B)
      modifies transformers
      ensures var f := MapField(plugin, owner, name);
        transformers.items == old(transformers.items) + [FieldTransformer(scriptIdentifier, props, f.0, f.1, block)]
    {
      var f := MapField(plugin, owner, name);
      transformers.items := transformers.items + [FieldTransformer(scriptIdentifier, props, f.0, f.1, block)];
    }
  }

  /** `TransformerHandler`: one list and one properties object per script. */
  class TransformerHandler<B> {
    const scriptIdentifier: Discovery.Identifier
    const transformers: TransformerList<B>
    const props: PropertiesExtension

    constructor(scriptIdentifier: Discovery.Identifier)
      ensures this.scriptIdentifier == scriptIdentifier && fresh(transformers) && fresh(props)
      ensures transformers.items == []
    {
      this.scriptIdentifier := scriptIdentifier;
      transformers := new TransformerList();
      props := new PropertiesExtension();
    }

    /** `transformers { … }`: the block runs against a builder over this handler's list and properties. */
    method Transformers<R>(plugin: Option<Plugin>, describe: (R, seq<R>) -> string) returns (builder: TransformerBuilder<B, R>)
      ensures fresh(builder)
      ensures builder.scriptIdentifier == scriptIdentifier && builder.transformers == transformers && builder.props == props
      ensures builder.plugin == plugin && builder.describe == describe
    {
      builder := new TransformerBuilder(scriptIdentifier, transformers, props, plugin, describe);
    }

    /** `getTransformers()`: a copy of the list as it is now. */
    method GetTransformers() returns (r: seq<Transformer<B>>)
      ensures r == transformers.items
    {
      r := transformers.items;
    }
  }

  /**
   * Every transformer a handler's builders register carries that handler's script identifier and
   * properties object, and a copy taken earlier does not see later registrations.
   */
  method RegisterTwice<B>(handler: TransformerHandler<B>, owner: string, name: string, desc: string, block: B)
    returns (before: seq<Transformer<B>>, after: seq<Transformer<B>>)
    modifies handler.transformers
    ensures before == old(handler.transformers.items)
    ensures after == before + [MethodTransformer(handler.scriptIdentifier, handler.props, owner, name, desc, block),
                               FieldTransformer(handler.scriptIdentifier, handler.props, owner, name, block)]
  {
    before := handler.GetTransformers();
    var builder := handler.Transformers<string>(None, (r: string, ps: seq<string>) => r);
    builder.Method(owner, name, desc, block);
    builder.Field(owner, name, block);
    after := handler.GetTransformers();
  }
}

/** `applyTransform` (ClassTransformation.kt of the wtf.gofancy tree). */
module GofancyTransformation {
  import opened GofancyDsl

  /**
   * Runs every transformer on the node in order. A transformer that throws is logged and skipped;
   * whatever it changed before throwing stays. The result is the final node and the set of
   * properties objects of the transformers that completed.
   */
  function ApplyTransform<B, U>(transformers: seq<Transformer<B>>, node: U, run: Runner<B, U>): (r: (U, set<PropertiesExtension>))
    ensures forall p :: p in r.1 ==> exists i :: 0 <= i < |transformers| && transformers[i].props == p
    ensures |transformers| == 0 ==> r == (node, {})
    decreases |transformers|
  {
    if |transformers| == 0 then (node, {})
    else
      var v := run(transformers[0].block, node);
      var rest := ApplyTransform(transformers[1..], v.node, run);
      assert forall i :: 0 <= i < |transformers[1..]| ==> transformers[1..][i] == transformers[i + 1];
      (rest.0, if v.Completed? then {transformers[0].props} + rest.1 else rest.1)
  }

  /** The node each transformer sees: `States(ts, node)[i]` before the i-th visit, the last one after all. */
  function States<B, U>(transformers: seq<Transformer<B>>, node: U, run: Runner<B, U>): (r: seq<U>)
    ensures |r| == |transformers| + 1 && r[0] == node
    decreases |transformers|
  {
    if |transformers| == 0 then [node]
    else [node] + States(transformers[1..], run(transformers[0].block, node).node, run)
  }

  /**
   * The node that comes out is the one the last visit leaves, and a properties object is returned
   * exactly when some transformer carrying it completed its visit.
   */
  lemma {:induction false} ApplyTransformOutcome<B, U>(transformers: seq<Transformer<B>>, node: U, run: Runner<B, U>, p: PropertiesExtension)
    ensures var r := ApplyTransform(transformers, node, run);
      var s := States(transformers, node, run);
      r.0 == s[|transformers|] &&
      (p in r.1 <==> exists i :: 0 <= i < |transformers| && transformers[i].props == p && run(transformers[i].block, s[i]).Completed?)
    decreases |transformers|
  {
    if |transformers| > 0 {
      var t := transformers[0];
      var v := run(t.block, node);
      var rest := transformers[1..];
      ApplyTransformOutcome(rest, v.node, run, p);
      var s := States(transformers, node, run);
      var s' := States(rest, v.node, run);
      assert s == [node] + s';
      assert forall i :: 0 <= i < |rest| ==> rest[i] == transformers[i + 1] && s'[i] == s[i + 1];
      var r := ApplyTransform(transformers, node, run);
      if p in r.1 {
        if !(v.Completed? && t.props == p) {
          var i :| 0 <= i < |rest| && rest[i].props == p && run(rest[i].block, s'[i]).Completed?;
          assert transformers[i + 1].props == p && run(transformers[i + 1].block, s[i + 1]).Completed?;
        } else {
          assert transformers[0].props == p && run(transformers[0].block, s[0]).Completed?;
        }
      } else {
        forall i | 0 <= i < |transformers| && transformers[i].props == p
          ensures !run(transformers[i].block, s[i]).Completed?
        {
          if i > 0 {
            assert rest[i - 1].props == p;
          }
        }
      }
    }
  }

  /** Applying two lists one after the other is applying their concatenation. */
  lemma {:induction false} ApplyTransformAppend<B, U>(a: seq<Transformer<B>>, b: seq<Transformer<B>>, node: U, run: Runner<B, U>)
    ensures var ra := ApplyTransform(a, node, run);
      var rb := ApplyTransform(b, ra.0, run);
      ApplyTransform(a + b, node, run) == (rb.0, ra.1 + rb.1)
    decreases |a|
  {
    if |a| > 0 {
      var v := run(a[0].block, node);
      assert (a + b)[0] == a[0];
      assert (a + b)[1..] == a[1..] + b;
      ApplyTransformAppend(a[1..], b, v.node, run);
      var tail := ApplyTransform(a[1..], v.node, run);
      var rb := ApplyTransform(b, tail.0, run);
      var all := ApplyTransform(a + b, node, run);
      assert all.0 == rb.0;
      if v.Completed? {
        assert all.1 == {a[0].props} + (tail.1 + rb.1);
        assert {a[0].props} + (tail.1 + rb.1) == ({a[0].props} + tail.1) + rb.1;
      } else {
        assert all.1 == tail.1 + rb.1;
      }
    } else {
      assert a + b == b;
      var rb := ApplyTransform(b, node, run);
      assert {} + rb.1 == rb.1;
    }
  }

  /** When every visit throws, no properties come back, though the node may still have changed. */
  lemma {:induction false} AllThrowNoProps<B, U>(transformers: seq<Transformer<B>>, node: U, run: Runner<B, U>)
    requires forall x, n :: run(x, n).Threw?
    ensures ApplyTransform(transformers, node, run).1 == {}
    decreases |transformers|
  {
    if |transformers| > 0 {
      AllThrowNoProps(transformers[1..], run(transformers[0].block, node).node, run);
    }
  }
}
