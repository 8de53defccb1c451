/**
 * The parts of ASM's tree API that transformers select and visit: classes with their methods and
 * fields, and the outcome of running a transformer block on a node.
 */
module AsmNodes {
  import Assembly

  datatype MethodNode = MethodNode(name: string, desc: string, instructions: seq<Assembly.Insn>)
  datatype FieldNode = FieldNode(name: string, desc: string)
  datatype ClassNode = ClassNode(name: string, methods: seq<MethodNode>, fields: seq<FieldNode>)

  /**
   * Running a block on a node: the node afterwards, and whether the block completed or threw
   * (a block that throws may already have changed the node).
   */
  datatype Visit<N> = Completed(node: N) | Threw(node: N)

  /** `methods.first { it.name == name && it.desc == desc }` as an index, or -1 when none matches. */
  function FirstMethod(methods: seq<MethodNode>, name: string, desc: string): (i: int)
    ensures -1 <= i < |methods|
    ensures i >= 0 ==> methods[i].name == name && methods[i].desc == desc
    ensures i >= 0 ==> forall j :: 0 <= j < i ==> !(methods[j].name == name && methods[j].desc == desc)
    ensures i == -1 <==> forall j :: 0 <= j < |methods| ==> !(methods[j].name == name && methods[j].desc == desc)
  {
    if |methods| == 0 then -1
    else if methods[0].name == name && methods[0].desc == desc then 0
    else
      var k := FirstMethod(methods[1..], name, desc);
      if k == -1 then -1 else k + 1
  }

  /** `fields.first { it.name == name }` as an index, or -1 when none matches. */
  function FirstField(fields: seq<FieldNode>, name: string): (i: int)
    ensures -1 <= i < |fields|
    ensures i >= 0 ==> fields[i].name == name
    ensures i >= 0 ==> forall j :: 0 <= j < i ==> fields[j].name != name
    ensures i == -1 <==> forall j :: 0 <= j < |fields| ==> fields[j].name != name
  {
    if |fields| == 0 then -1
    else if fields[0].name == name then 0
    else
      var k := FirstField(fields[1..], name);
      if k == -1 then -1 else k + 1
  }

  /** Running a method block on the first matching method; none matching throws NoSuchElementException. */
  function VisitMethod<B>(node: ClassNode, name: string, desc: string, block: B, run: (B, MethodNode) -> Visit<MethodNode>): (r: Visit<ClassNode>)
    ensures FirstMethod(node.methods, name, desc) == -1 ==> r == Threw(node)
    ensures var i := FirstMethod(node.methods, name, desc);
      i >= 0 ==> r.node == node.(methods := node.methods[i := run(block, node.methods[i]).node]) &&
                 (r.Completed? <==> run(block, node.methods[i]).Completed?)
  {
    var i := FirstMethod(node.methods, name, desc);
    if i == -1 then Threw(node)
    else
      var v := run(block, node.methods[i]);
      var after := node.(methods := node.methods[i := v.node]);
      if v.Completed? then Completed(after) else Threw(after)
  }

  /** Running a field block on the first field with the name; none matching throws. */
  function VisitField<B>(node: ClassNode, name: string, block: B, run: (B, FieldNode) -> Visit<FieldNode>): (r: Visit<ClassNode>)
    ensures FirstField(node.fields, name) == -1 ==> r == Threw(node)
    ensures var i := FirstField(node.fields, name);
      i >= 0 ==> r.node == node.(fields := node.fields[i := run(block, node.fields[i]).node]) &&
                 (r.Completed? <==> run(block, node.fields[i]).Completed?)
  {
    var i := FirstField(node.fields, name);
    if i == -1 then Threw(node)
    else
      var v := run(block, node.fields[i]);
      var after := node.(fields := node.fields[i := v.node]);
      if v.Completed? then Completed(after) else Threw(after)
  }

  /** Only the selected method can change: every other method, the fields and the name stay. */
  lemma VisitMethodTouchesOnlyFirstMatch<B>(node: ClassNode, name: string, desc: string, block: B,
                                            run: (B, MethodNode) -> Visit<MethodNode>, j: nat)
    requires j < |node.methods| && j != FirstMethod(node.methods, name, desc)
    ensures var r := VisitMethod(node, name, desc, block, run).node;
      r.name == node.name && r.fields == node.fields && |r.methods| == |node.methods| && r.methods[j] == node.methods[j]
  {
  }

  /** A later method with the same name and descriptor as an earlier one is never visited. */
  lemma ShadowedMethodNotVisited<B>(node: ClassNode, block: B, run: (B, MethodNode) -> Visit<MethodNode>, i: nat, j: nat)
    requires i < j < |node.methods|
    requires node.methods[i].name == node.methods[j].name && node.methods[i].desc == node.methods[j].desc
    ensures VisitMethod(node, node.methods[j].name, node.methods[j].desc, block, run).node.methods[j] == node.methods[j]
  {
    var k := FirstMethod(node.methods, node.methods[j].name, node.methods[j].desc);
    assert k >= 0 && k <= i;
  }
}
