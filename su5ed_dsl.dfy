/**
 * The transformer DSL of the dev.su5ed tree (dsl/Transformers.kt): builders append transformers
 * to the handler's live list; class transformers run on the class, method and field transformers
 * on the first matching member of their owner class.
 */
module Su5edDsl {
  import opened AsmNodes

  /** A registered transformer; `B` stands for the user's block. */
  datatype Transformer<B> =
    | ClassTransformer(name: string, block: B, computeFrames: bool)
    | MethodTransformer(owner: string, name: string, desc: string, block: B, computeFrames: bool)
    | FieldTransformer(owner: string, name: string, block: B, computeFrames: bool)
  {
    /** The class this transformer applies to: the class name, or the member's owner. */
    function TargetClassName(): (r: string)
      ensures ClassTransformer? ==> r == name
      ensures !ClassTransformer? ==> r == owner
    {
      if ClassTransformer? then name else owner
    }
  }

  /** How the user's blocks behave on the three node kinds. */
  datatype Blocks<!B> = Blocks(
    onClass: (B, ClassNode) -> Visit<ClassNode>,
    onMethod: (B, MethodNode) -> Visit<MethodNode>,
    onField: (B, FieldNode) -> Visit<FieldNode>)

  /** `visitClass(node)` */
  function VisitClass<B>(t: Transformer<B>, node: ClassNode, blocks: Blocks<B>): (r: Visit<ClassNode>)
    ensures t.ClassTransformer? ==> r == blocks.onClass(t.block, node)
    ensures t.MethodTransformer? ==> r == VisitMethod(node, t.name, t.desc, t.block, blocks.onMethod)
    ensures t.FieldTransformer? ==> r == VisitField(node, t.name, t.block, blocks.onField)
  {
    match t
    case ClassTransformer(_, block, _) => blocks.onClass(block, node)
    case MethodTransformer(_, name, desc, block, _) => VisitMethod(node, name, desc, block, blocks.onMethod)
    case FieldTransformer(_, name, block, _) => VisitField(node, name, block, blocks.onField)
  }

  /** A method transformer whose method is missing from the class throws, leaving the class as it was. */
  lemma MissingMethodThrows<B>(t: Transformer<B>, node: ClassNode, blocks: Blocks<B>)
    requires t.MethodTransformer?
    requires forall j :: 0 <= j < |node.methods| ==> !(node.methods[j].name == t.name && node.methods[j].desc == t.desc)
    ensures VisitClass(t, node, blocks) == Threw(node)
  {
  }

  /** The mutable list a handler and its builders share. */
  class TransformerList<B> {
    var items: seq<Transformer<B>>

    constructor()
      ensures items == []
    {
      items := [];
    }
  }

  /** `TransformerBuilder`: appends to the list it was given. */
  class TransformerBuilder<B> {
    const transformers: TransformerList<B>

    constructor(transformers: TransformerList<B>)
      ensures this.transformers == transformers
    {
      this.transformers := transformers;
    }

    /** `class(name, block, computeFrames = false)` */
    method Class(name: string, block: B, computeFrames: bool)
      modifies transformers
      ensures transformers.items == old(transformers.items) + [ClassTransformer(name, block, computeFrames)]
    {
      transformers.items := transformers.items + [ClassTransformer(name, block, computeFrames)];
    }

    /** `method(owner, name, desc, block, computeFrames = false)` */
    method Method(owner: string, name: string, desc: string, block: B, computeFrames: bool)
      modifies transformers
      ensures transformers.items == old(transformers.items) + [MethodTransformer(owner, name, desc, block, computeFrames)]
    {
      transformers.items := transformers.items + [MethodTransformer(owner, name, desc, block, computeFrames)];
    }

    /** `field(owner, name, block, computeFrames = false)` */
    method Field(owner: string, name: string, block: B, computeFrames: bool)
      modifies transformers
      ensures transformers.items == old(transformers.items) + [FieldTransformer(owner, name, block, computeFrames)]
    {
      transformers.items := transformers.items + [FieldTransformer(owner, name, block, computeFrames)];
    }
  }

  /** `TransformerHandler`: owns the list; `getTransformers` hands out the list itself. */
  class TransformerHandler<B> {
    const transformers: TransformerList<B>

    constructor()
      ensures fresh(transformers) && transformers.items == []
    {
      transformers := new TransformerList();
    }

    /** `transformers { … }`: the block runs against a builder over this handler's own list. */
    method Transformers() returns (builder: TransformerBuilder<B>)
      ensures fresh(builder) && builder.transformers == transformers
    {
      builder := new TransformerBuilder(transformers);
    }

    /** `getTransformers()`: the live list, not a copy. */
    method GetTransformers() returns (list: TransformerList<B>)
      ensures list == transformers
    {
      list := transformers;
    }
  }

  /** A list obtained before a registration shows that registration afterwards. */
  method LiveListSeesLaterRegistrations<B>(handler: TransformerHandler<B>, owner: string, name: string, desc: string, block: B)
    returns (seen: seq<Transformer<B>>)
    modifies handler.transformers
    ensures seen == old(handler.transformers.items) + [MethodTransformer(owner, name, desc, block, false)]
  {
    var list := handler.GetTransformers();
    var builder := handler.Transformers();
    builder.Method(owner, name, desc, block, false);
    seen := list.items;
  }
}

/**
 * The older dev.su5ed DSL (dsl/transformers.kt): the same builders and selection rules, without
 * frame computation.
 */
module Su5edLegacyDsl {
  import opened AsmNodes

  datatype Transformer<B> =
    | ClassTransformer(name: string, block: B)
    | MethodTransformer(owner: string, name: string, desc: string, block: B)
    | FieldTransformer(owner: string, name: string, block: B)
  {
    /** `getTargetClassName()` */
    function GetTargetClassName(): (r: string)
      ensures ClassTransformer? ==> r == name
      ensures !ClassTransformer? ==> r == owner
    {
      if ClassTransformer? then name else owner
    }
  }

  datatype Blocks<!B> = Blocks(
    onClass: (B, ClassNode) -> Visit<ClassNode>,
    onMethod: (B, MethodNode) -> Visit<MethodNode>,
    onField: (B, FieldNode) -> Visit<FieldNode>)

  /** `visitClass(node)` */
  function VisitClass<B>(t: Transformer<B>, node: ClassNode, blocks: Blocks<B>): (r: Visit<ClassNode>)
    ensures t.ClassTransformer? ==> r == blocks.onClass(t.block, node)
    ensures t.MethodTransformer? ==> r == VisitMethod(node, t.name, t.desc, t.block, blocks.onMethod)
    ensures t.FieldTransformer? ==> r == VisitField(node, t.name, t.block, blocks.onField)
  {
    match t
    case ClassTransformer(_, block) => blocks.onClass(block, node)
    case MethodTransformer(_, name, desc, block) => VisitMethod(node, name, desc, block, blocks.onMethod)
    case FieldTransformer(_, name, block) => VisitField(node, name, block, blocks.onField)
  }

  /** A field transformer runs on the first field with its name, even when later fields share it. */
  lemma FieldTransformerUsesFirstField<B>(t: Transformer<B>, node: ClassNode, blocks: Blocks<B>, i: nat)
    requires t.FieldTransformer? && i < |node.fields| && node.fields[i].name == t.name
    requires forall j :: 0 <= j < i ==> node.fields[j].name != t.name
    ensures VisitClass(t, node, blocks).node.fields == node.fields[i := blocks.onField(t.block, node.fields[i]).node]
  {
    assert FirstField(node.fields, t.name) == i;
  }

  class TransformerList<B> {
    var items: seq<Transformer<B>>

    constructor()
      ensures items == []
    {
      items := [];
    }
  }

  class TransformerBuilder<B> {
    const transformers: TransformerList<B>

    constructor(transformers: TransformerList<B>)
      ensures this.transformers == transformers
    {
      this.transformers := transformers;
    }

    method Class(name: string, block: B)
      modifies transformers
      ensures transformers.items == old(transformers.items) + [ClassTransformer(name, block)]
    {
      transformers.items := transformers.items + [ClassTransformer(name, block)];
    }

    method Method(owner: string, name: string, desc: string, block: B)
      modifies transformers
      ensures transformers.items == old(transformers.items) + [MethodTransformer(owner, name, desc, block)]
    {
      transformers.items := transformers.items + [MethodTransformer(owner, name, desc, block)];
    }

    method Field(owner: string, name: string, block: B)
      modifies transformers
      ensures transformers.items == old(transformers.items) + [FieldTransformer(owner, name, block)]
    {
      transformers.items := transformers.items + [FieldTransformer(owner, name, block)];
    }
  }

  class TransformerHandler<B> {
    const transformers: TransformerList<B>

    constructor()
      ensures fresh(transformers) && transformers.items == []
    {
      transformers := new TransformerList();
    }

    method Transformers() returns (builder: TransformerBuilder<B>)
      ensures fresh(builder) && builder.transformers == transformers
    {
      builder := new TransformerBuilder(transformers);
    }

    /** `getTransformers()`: the live list. */
    method GetTransformers() returns (list: TransformerList<B>)
      ensures list == transformers
    {
      list := transformers;
    }
  }
}
