/**
 * Assembly.kt: structural instruction equality, locating an instruction pattern in an
 * instruction list, and inserting code relative to the located target.
 */
module Assembly {
  import opened Wrappers
  import opened Strings

  const NOP: int := 0
  const LDC: int := 18
  const IINC: int := 132
  const IFEQ: int := 153
  const IFNE: int := 154
  const INVOKEDYNAMIC: int := 186
  const MULTIANEWARRAY: int := 197
  /** The opcode of label, line-number and frame nodes. */
  const PSEUDO: int := -1

  /** A bootstrap method handle. */
  datatype Handle = Handle(tag: int, owner: string, name: string, desc: string, itf: bool)

  /** The constant of an LDC instruction. */
  datatype Constant = IntConst(i: int) | LongConst(l: int) | StringConst(s: string) | TypeConst(desc: string)

  /** ASM's instruction node classes, each with the attributes `insnEquals` reads. */
  datatype Insn =
    | FieldInsn(op: int, owner: string, name: string, desc: string)
    | IincInsn(varIndex: int, incr: int)
    | IntInsn(op: int, operand: int)
    | InvokeDynamicInsn(name: string, desc: string, bsm: Handle, bsmArgs: seq<Constant>)
    | LdcInsn(cst: Constant)
    | MethodInsn(op: int, owner: string, name: string, desc: string, itf: bool)
    | MultiANewArrayInsn(desc: string, dims: int)
    | TypeInsn(op: int, desc: string)
    | VarInsn(op: int, varIndex: int)
    | JumpInsn(op: int)
    | SwitchInsn(op: int)
    | PlainInsn(op: int)
    | LabelNode
    | LineNumberNode(line: int)
    | FrameNode(frameType: int)
  {
    function Opcode(): int {
      match this
      case FieldInsn(op, _, _, _) => op
      case IincInsn(_, _) => IINC
      case IntInsn(op, _) => op
      case InvokeDynamicInsn(_, _, _, _) => INVOKEDYNAMIC
      case LdcInsn(_) => LDC
      case MethodInsn(op, _, _, _, _) => op
      case MultiANewArrayInsn(_, _) => MULTIANEWARRAY
      case TypeInsn(op, _) => op
      case VarInsn(op, _) => op
      case JumpInsn(op) => op
      case SwitchInsn(op) => op
      case PlainInsn(op) => op
      case _ => PSEUDO
    }

    /** Label, line-number and frame nodes, which the search skips. */
    predicate IsPseudo() {
      LabelNode? || LineNumberNode? || FrameNode?
    }

    /** Real instructions carry a JVM opcode (0 to 255); only pseudo nodes have -1. */
    predicate HasJvmOpcode() {
      IsPseudo() || 0 <= Opcode() <= 255
    }

    /** The node classes that have a branch of their own in `insnEquals`. */
    predicate HasAttributes() {
      FieldInsn? || IincInsn? || IntInsn? || InvokeDynamicInsn? || LdcInsn? || MethodInsn? ||
      MultiANewArrayInsn? || TypeInsn? || VarInsn?
    }
  }

  /** Both nodes are instances of the same node class. */
  predicate SameClass(a: Insn, b: Insn) {
    (a.FieldInsn? && b.FieldInsn?) || (a.IincInsn? && b.IincInsn?) || (a.IntInsn? && b.IntInsn?) ||
    (a.InvokeDynamicInsn? && b.InvokeDynamicInsn?) || (a.LdcInsn? && b.LdcInsn?) ||
    (a.MethodInsn? && b.MethodInsn?) || (a.MultiANewArrayInsn? && b.MultiANewArrayInsn?) ||
    (a.TypeInsn? && b.TypeInsn?) || (a.VarInsn? && b.VarInsn?) || (a.JumpInsn? && b.JumpInsn?) ||
    (a.SwitchInsn? && b.SwitchInsn?) || (a.PlainInsn? && b.PlainInsn?) || (a.LabelNode? && b.LabelNode?) ||
    (a.LineNumberNode? && b.LineNumberNode?) || (a.FrameNode? && b.FrameNode?)
  }

  /** The ClassCastException of `other as X`. */
  datatype CastError = ClassCastException

  /**
   * `a.insnEquals(b)`: equal opcodes, and for node classes with a branch the listed attributes;
   * the argument is cast to the receiver's class.
   */
  function InsnEquals(a: Insn, b: Insn): (r: Result<bool, CastError>)
    ensures a.Opcode() != b.Opcode() ==> r == Ok(false)
    ensures !a.HasAttributes() ==> r == Ok(a.Opcode() == b.Opcode())
    ensures r.Err? <==> a.Opcode() == b.Opcode() && a.HasAttributes() && !SameClass(a, b)
    ensures a.HasAttributes() && SameClass(a, b) && !a.LdcInsn? && !a.InvokeDynamicInsn? ==> r == Ok(a == b)
    ensures a.LdcInsn? && b.LdcInsn? ==> r == Ok(a.cst == b.cst)
    ensures a.InvokeDynamicInsn? && b.InvokeDynamicInsn? ==>
      r == Ok(a.name == b.name && a.desc == b.desc && a.bsm == b.bsm)
  {
    if a.Opcode() != b.Opcode() then Ok(false)
    else match a
      case FieldInsn(_, owner, name, desc) =>
        if b.FieldInsn? then Ok(owner == b.owner && name == b.name && desc == b.desc) else Err(ClassCastException)
      case IincInsn(v, incr) =>
        if b.IincInsn? then Ok(v == b.varIndex && incr == b.incr) else Err(ClassCastException)
      case IntInsn(_, operand) =>
        if b.IntInsn? then Ok(operand == b.operand) else Err(ClassCastException)
      case InvokeDynamicInsn(name, desc, bsm, _) =>
        if b.InvokeDynamicInsn? then Ok(name == b.name && desc == b.desc && bsm == b.bsm) else Err(ClassCastException)
      case LdcInsn(cst) =>
        if b.LdcInsn? then Ok(cst == b.cst) else Err(ClassCastException)
      case MethodInsn(_, owner, name, desc, itf) =>
        if b.MethodInsn? then Ok(owner == b.owner && name == b.name && desc == b.desc && itf == b.itf)
        else Err(ClassCastException)
      case MultiANewArrayInsn(desc, dims) =>
        if b.MultiANewArrayInsn? then Ok(desc == b.desc && dims == b.dims) else Err(ClassCastException)
      case TypeInsn(_, desc) =>
        if b.TypeInsn? then Ok(desc == b.desc) else Err(ClassCastException)
      case VarInsn(_, v) =>
        if b.VarInsn? then Ok(v == b.varIndex) else Err(ClassCastException)
      case _ => Ok(true)
  }

  /** Every node equals itself. */
  lemma InsnEqualsReflexive(a: Insn)
    ensures InsnEquals(a, a) == Ok(true)
  {
  }

  /** Between nodes of one class the relation is symmetric. */
  lemma InsnEqualsSymmetric(a: Insn, b: Insn)
    requires SameClass(a, b)
    ensures InsnEquals(a, b) == InsnEquals(b, a)
  {
  }

  /** Two INVOKEDYNAMIC nodes that differ only in their bootstrap arguments are equal. */
  lemma InvokeDynamicIgnoresBsmArgs(name: string, desc: string, bsm: Handle, x: seq<Constant>, y: seq<Constant>)
    ensures InsnEquals(InvokeDynamicInsn(name, desc, bsm, x), InvokeDynamicInsn(name, desc, bsm, y)) == Ok(true)
  {
  }

  /** A plain node with a jump's opcode matches any jump with that opcode, as the tests rely on. */
  lemma JumpMatchedByOpcode()
    ensures InsnEquals(JumpInsn(IFEQ), PlainInsn(IFEQ)) == Ok(true)
    ensures InsnEquals(JumpInsn(IFEQ), PlainInsn(IFNE)) == Ok(false)
  {
  }

  /** The first position at or after `j` that is not a pseudo node, or `|s|`. */
  function SkipPseudo(s: seq<Insn>, j: nat): (k: nat)
    requires j <= |s|
    ensures j <= k <= |s|
    ensures k < |s| ==> !s[k].IsPseudo()
    ensures forall m :: j <= m < k ==> s[m].IsPseudo()
    decreases |s| - j
  {
    if j == |s| || !s[j].IsPseudo() then j else SkipPseudo(s, j + 1)
  }

  /** The inner loop of `locateTargetOrNull` from position `j`. */
  datatype Match = Matched(end: nat) | Mismatch | CastFailure

  /**
   * Matching `pat` against `s` from position `j`: each pattern node is compared, with the
   * searched node as receiver, to the next non-pseudo node; `Matched(e)` leaves `current` at `e`.
   */
  function MatchFrom(s: seq<Insn>, j: nat, pat: seq<Insn>): (m: Match)
    requires j <= |s|
    ensures m.Matched? ==> j <= m.end <= |s| && (|pat| > 0 ==> j < m.end)
    decreases |pat|
  {
    if |pat| == 0 then Matched(j)
    else
      var k := SkipPseudo(s, j);
      if k == |s| then Mismatch
      else match InsnEquals(s[k], pat[0])
        case Err(_) => CastFailure
        case Ok(eq) => if eq then MatchFrom(s, k + 1, pat[1..]) else Mismatch
  }

  /** The outcome of `locateTargetOrNull`, with the exceptions it can throw. */
  datatype Located = Span(first: nat, last: nat) | Absent | NullPointer | ClassCast

  /**
   * The search from start position `i`, as written: after a match, `current` is the node after
   * the last matched one, and `current!!.previous` is the last node of the target. At the end of
   * the list `current` is null; an empty pattern at the head passes a null `previous`.
   */
  function LocateFrom(s: seq<Insn>, pat: seq<Insn>, i: nat): (r: Located)
    requires i <= |s|
    ensures r.Span? ==> i <= r.first && r.first < |s| && !s[r.first].IsPseudo() && r.last < |s| - 1
    decreases |s| - i
  {
    if i == |s| then Absent
    else if s[i].IsPseudo() then LocateFrom(s, pat, i + 1)
    else match MatchFrom(s, i, pat)
      case CastFailure => ClassCast
      case Mismatch => LocateFrom(s, pat, i + 1)
      case Matched(e) => if e == |s| || e == 0 then NullPointer else Span(i, e - 1)
  }

  function Locate(s: seq<Insn>, pat: seq<Insn>): Located {
    LocateFrom(s, pat, 0)
  }

  /**
   * `Span(f, l)` is the first non-pseudo start from which the pattern matches: every earlier
   * start is a pseudo node or a mismatch, and `l` is the node before where matching stopped.
   */
  lemma {:induction false} LocateFindsFirstMatch(s: seq<Insn>, pat: seq<Insn>, i: nat)
    requires i <= |s|
    ensures var r := LocateFrom(s, pat, i);
      r.Span? ==> MatchFrom(s, r.first, pat) == Matched(r.last + 1) &&
                   forall j :: i <= j < r.first ==> s[j].IsPseudo() || MatchFrom(s, j, pat).Mismatch?
    decreases |s| - i
  {
    if i < |s| && (s[i].IsPseudo() || MatchFrom(s, i, pat).Mismatch?) {
      LocateFindsFirstMatch(s, pat, i + 1);
      var r := LocateFrom(s, pat, i);
      assert r == LocateFrom(s, pat, i + 1);
      if r.Span? {
        forall j | i <= j < r.first
          ensures s[j].IsPseudo() || MatchFrom(s, j, pat).Mismatch?
        {
          if j > i {
            assert i + 1 <= j < r.first;
          }
        }
      }
    }
  }

  /** The search yields no target exactly when every non-pseudo start is a mismatch. */
  lemma {:induction false} LocateAbsentIff(s: seq<Insn>, pat: seq<Insn>, i: nat)
    requires i <= |s|
    ensures LocateFrom(s, pat, i) == Absent <==>
      forall j :: i <= j < |s| ==> s[j].IsPseudo() || MatchFrom(s, j, pat).Mismatch?
    decreases |s| - i
  {
    if i < |s| {
      LocateAbsentIff(s, pat, i + 1);
    }
  }

  /** A pattern that contains a label, line-number or frame node never matches anywhere. */
  lemma {:induction false} PseudoPatternNeverMatches(s: seq<Insn>, j: nat, pat: seq<Insn>, p: nat)
    requires j <= |s| && p < |pat| && pat[p].IsPseudo()
    requires forall m :: 0 <= m < |s| ==> s[m].HasJvmOpcode()
    ensures !MatchFrom(s, j, pat).Matched?
    decreases |pat|
  {
    var k := SkipPseudo(s, j);
    if k < |s| && p > 0 && InsnEquals(s[k], pat[0]) == Ok(true) {
      PseudoPatternNeverMatches(s, k + 1, pat[1..], p - 1);
    }
  }

  /** A match whose last node is the final node of the list throws NullPointerException. */
  lemma MatchAtEndThrows(s: seq<Insn>, pat: seq<Insn>, i: nat)
    requires i < |s| && !s[i].IsPseudo() && MatchFrom(s, i, pat) == Matched(|s|)
    ensures LocateFrom(s, pat, i) == NullPointer
  {
  }

  /** The smallest case: a one-node pattern that matches the only node of the list. */
  lemma SingleNodeAtEnd()
    ensures Locate([PlainInsn(NOP)], [PlainInsn(NOP)]) == NullPointer
  {
    assert MatchFrom([PlainInsn(NOP)], 0, [PlainInsn(NOP)]) == Matched(1);
  }

  /**
   * The search with the end-of-list case repaired: the last matched node is the last node of
   * the target, wherever it lies. Only the empty pattern keeps the written behaviour.
   */
  function LocateFixedFrom(s: seq<Insn>, pat: seq<Insn>, i: nat): (r: Located)
    requires i <= |s|
    decreases |s| - i
  {
    if i == |s| then Absent
    else if s[i].IsPseudo() then LocateFixedFrom(s, pat, i + 1)
    else match MatchFrom(s, i, pat)
      case CastFailure => ClassCast
      case Mismatch => LocateFixedFrom(s, pat, i + 1)
      case Matched(e) =>
        if |pat| > 0 then Span(i, e - 1)
        else if e == |s| || e == 0 then NullPointer else Span(i, e - 1)
  }

  /**
   * For a non-empty pattern the repaired search never throws NullPointerException, finds the
   * first matching start, and ends the target at the last matched node.
   */
  lemma {:induction false} LocateFixedFindsFirstMatch(s: seq<Insn>, pat: seq<Insn>, i: nat)
    requires i <= |s| && |pat| > 0
    ensures var r := LocateFixedFrom(s, pat, i);
      r != NullPointer &&
      (r.Span? ==> i <= r.first < |s| && !s[r.first].IsPseudo() && MatchFrom(s, r.first, pat) == Matched(r.last + 1) &&
                    forall j :: i <= j < r.first ==> s[j].IsPseudo() || MatchFrom(s, j, pat).Mismatch?) &&
      (r == Absent <==> forall j :: i <= j < |s| ==> s[j].IsPseudo() || MatchFrom(s, j, pat).Mismatch?)
    decreases |s| - i
  {
    if i < |s| && (s[i].IsPseudo() || MatchFrom(s, i, pat).Mismatch?) {
      LocateFixedFindsFirstMatch(s, pat, i + 1);
    }
  }

  /** On the list of the smallest case the repaired search returns the one-node target. */
  lemma SingleNodeAtEndFixed()
    ensures LocateFixedFrom([PlainInsn(NOP)], [PlainInsn(NOP)], 0) == Span(0, 0)
  {
    assert MatchFrom([PlainInsn(NOP)], 0, [PlainInsn(NOP)]) == Matched(1);
  }

  /** An instruction node object of an `InsnList`; node identity is object identity. */
  class InsnNode {
    const insn: Insn

    constructor (insn: Insn)
      ensures this.insn == insn
    {
      this.insn := insn;
    }
  }

  function InsnsOf(nodes: seq<InsnNode>): (r: seq<Insn>)
    ensures |r| == |nodes| && forall i :: 0 <= i < |nodes| ==> r[i] == nodes[i].insn
  {
    seq(|nodes|, i requires 0 <= i < |nodes| => nodes[i].insn)
  }

  /** The position of node `n` in `nodes`, or -1. */
  function FirstIndex(nodes: seq<InsnNode>, n: InsnNode): (i: int)
    ensures -1 <= i < |nodes|
    ensures i >= 0 ==> nodes[i] == n && forall j :: 0 <= j < i ==> nodes[j] != n
    ensures i == -1 <==> n !in nodes
  {
    if |nodes| == 0 then -1
    else if nodes[0] == n then 0
    else
      var j := FirstIndex(nodes[1..], n);
      if j == -1 then -1 else j + 1
  }

  /** `InsnList.get(i)` out of range. */
  datatype IndexError = IndexOutOfBounds(index: int)

  function At(nodes: seq<InsnNode>, index: int): Result<InsnNode, IndexError> {
    if 0 <= index < |nodes| then Ok(nodes[index]) else Err(IndexOutOfBounds(index))
  }

  /** An ASM `InsnList`: a sequence of node objects that insertions change in place. */
  class InsnList {
    var nodes: seq<InsnNode>

    constructor (nodes: seq<InsnNode>)
      ensures this.nodes == nodes
    {
      this.nodes := nodes;
    }

    function Insns(): seq<Insn>
      reads this
    {
      InsnsOf(nodes)
    }

    /** `indexOf(node)` */
    method IndexOf(node: InsnNode) returns (i: int)
      ensures i == FirstIndex(nodes, node)
    {
      i := 0;
      while i < |nodes| && nodes[i] != node
        invariant 0 <= i <= |nodes|
        invariant forall j :: 0 <= j < i ==> nodes[j] != node
      {
        i := i + 1;
      }
      if i == |nodes| {
        i := -1;
      }
    }

    /** `get(index)` */
    method Get(index: int) returns (r: Result<InsnNode, IndexError>)
      ensures r == At(nodes, index)
      ensures r.Ok? <==> 0 <= index < |nodes|
    {
      if 0 <= index < |nodes| {
        r := Ok(nodes[index]);
      } else {
        r := Err(IndexOutOfBounds(index));
      }
    }

    /** `insert(target, list)`: `list` goes right after `target`. */
    method InsertAfterNode(target: InsnNode, list: seq<InsnNode>)
      requires target in nodes
      modifies this
      ensures var p := FirstIndex(old(nodes), target);
        nodes == old(nodes)[..p + 1] + list + old(nodes)[p + 1..]
    {
      var p := IndexOf(target);
      nodes := nodes[..p + 1] + list + nodes[p + 1..];
    }

    /** `insertBefore(target, list)`: `list` goes right before `target`. */
    method InsertBeforeNode(target: InsnNode, list: seq<InsnNode>)
      requires target in nodes
      modifies this
      ensures var p := FirstIndex(old(nodes), target);
        nodes == old(nodes)[..p] + list + old(nodes)[p..]
    {
      var p := IndexOf(target);
      nodes := nodes[..p] + list + nodes[p..];
    }

    /**
     * `locateTargetOrNull(pattern)`: the labelled outer loop over start nodes and the inner loop
     * that advances `current` past pseudo nodes and over matching instructions.
     */
    method LocateTargetOrNull(pattern: seq<Insn>) returns (r: Located)
      ensures r == Locate(Insns(), pattern)
    {
      ghost var s := Insns();
      var i := 0;
      while i < |nodes|
        invariant 0 <= i <= |nodes|
        invariant LocateFrom(s, pattern, 0) == LocateFrom(s, pattern, i)
      {
        if !nodes[i].insn.IsPseudo() {
          var m := MatchAt(i, pattern);
          match m {
            case CastFailure =>
              return ClassCast;
            case Matched(current) =>
              if current == |nodes| || current == 0 {
                return NullPointer;
              }
              return Span(i, current - 1);
            case Mismatch =>
          }
        }
        i := i + 1;
      }
      return Absent;
    }

    /** The inner loop of `locateTargetOrNull`: matching the pattern with `current` starting at `i`. */
    method MatchAt(i: nat, pattern: seq<Insn>) returns (m: Match)
      requires i <= |nodes|
      ensures m == MatchFrom(Insns(), i, pattern)
    {
      ghost var s := Insns();
      var current := i;
      var k := 0;
      while k < |pattern|
        invariant 0 <= k <= |pattern| && i <= current <= |nodes|
        invariant MatchFrom(s, i, pattern) == MatchFrom(s, current, pattern[k..])
      {
        current := SkipPseudoAt(current);
        if current == |nodes| {
          return Mismatch;
        }
        var eq := InsnEquals(nodes[current].insn, pattern[k]);
        if eq.Err? {
          return CastFailure;
        }
        if !eq.value {
          return Mismatch;
        }
        assert pattern[k..][1..] == pattern[k + 1..];
        current := current + 1;
        k := k + 1;
      }
      return Matched(current);
    }

    /** Advancing `current` past pseudo nodes. */
    method SkipPseudoAt(from: nat) returns (current: nat)
      requires from <= |nodes|
      ensures current == SkipPseudo(Insns(), from)
    {
      current := from;
      while current < |nodes| && nodes[current].insn.IsPseudo()
        invariant from <= current <= |nodes|
        invariant SkipPseudo(Insns(), current) == SkipPseudo(Insns(), from)
      {
        current := current + 1;
      }
    }
  }

  /** The map of named labels that every assembly of one target shares. */
  class LabelMap {
    var labels: map<string, InsnNode>

    /** Every registered node is a label node. */
    ghost predicate Valid()
      reads this
    {
      forall n :: n in labels ==> labels[n].insn == LabelNode
    }

    constructor ()
      ensures labels == map[] && Valid()
    {
      labels := map[];
    }
  }

  /** `SharedLabelRegistry`: `L[name]` and `L[index]` over a shared label map. */
  class SharedLabelRegistry {
    const labels: LabelMap

    constructor (labels: LabelMap)
      ensures this.labels == labels
    {
      this.labels := labels;
    }

    /** `get(name)`: the label already registered under `name`, or a new label node registered now. */
    method Get(name: string) returns (lbl: InsnNode)
      requires labels.Valid()
      modifies labels
      ensures labels.Valid() && lbl.insn == LabelNode
      ensures name in old(labels.labels) ==> lbl == old(labels.labels)[name] && labels.labels == old(labels.labels)
      ensures name !in old(labels.labels) ==>
        fresh(lbl) && lbl.insn == LabelNode && labels.labels == old(labels.labels)[name := lbl]
    {
      if name in labels.labels {
        lbl := labels.labels[name];
      } else {
        lbl := new InsnNode(LabelNode);
        labels.labels := labels.labels[name := lbl];
      }
    }

    /** `get(index)` is `get("label_" + index)`. */
    method GetIndexed(index: int) returns (lbl: InsnNode)
      requires labels.Valid()
      modifies labels
      ensures labels.Valid() && lbl.insn == LabelNode
      ensures var name := "label_" + IntToString(index);
        (name in old(labels.labels) ==> lbl == old(labels.labels)[name] && labels.labels == old(labels.labels)) &&
        (name !in old(labels.labels) ==>
          fresh(lbl) && lbl.insn == LabelNode && labels.labels == old(labels.labels)[name := lbl])
    {
      lbl := Get("label_" + IntToString(index));
    }
  }

  /** One step of an insertion block: emit an instruction, or place the label registered under a name. */
  datatype Step = Emit(insn: Insn) | PlaceLabel(name: string)

  /** The instructions a block emits. */
  function StepInsns(block: seq<Step>): (r: seq<Insn>)
    ensures |r| == |block|
    ensures forall i :: 0 <= i < |block| ==> r[i] == (if block[i].Emit? then block[i].insn else LabelNode)
  {
    if |block| == 0 then [] else [if block[0].Emit? then block[0].insn else LabelNode] + StepInsns(block[1..])
  }

  /** The label names a block places. */
  function PlacedNames(block: seq<Step>): set<string> {
    set i | 0 <= i < |block| && block[i].PlaceLabel? :: block[i].name
  }

  /**
   * Running a block against a `TargetedAssembly`: it assembles a fresh list; placed labels come
   * from the shared registry, so one name gives one label node across all insertions.
   */
  method Assemble(registry: SharedLabelRegistry, block: seq<Step>) returns (list: seq<InsnNode>)
    requires registry.labels.Valid()
    modifies registry.labels
    ensures registry.labels.Valid()
    ensures InsnsOf(list) == StepInsns(block)
    ensures registry.labels.labels.Keys == old(registry.labels.labels).Keys + PlacedNames(block)
    ensures forall n :: n in old(registry.labels.labels) ==> registry.labels.labels[n] == old(registry.labels.labels)[n]
    ensures forall i :: 0 <= i < |block| && block[i].PlaceLabel? ==> list[i] == registry.labels.labels[block[i].name]
  {
    list := [];
    var i := 0;
    while i < |block|
      invariant 0 <= i <= |block| && |list| == i && registry.labels.Valid()
      invariant InsnsOf(list) == StepInsns(block[..i])
      invariant registry.labels.labels.Keys == old(registry.labels.labels).Keys + PlacedNames(block[..i])
      invariant forall n :: n in old(registry.labels.labels) ==> registry.labels.labels[n] == old(registry.labels.labels)[n]
      invariant forall j :: 0 <= j < i && block[j].PlaceLabel? ==> list[j] == registry.labels.labels[block[j].name]
      decreases |block| - i
    {
      ghost var before := registry.labels.labels;
      var node := RunStep(registry, block[i]);
      AssembleStep(old(registry.labels.labels), before, registry.labels.labels, block, i, list, node);
      list := list + [node];
      i := i + 1;
    }
    assert block[..i] == block;
  }

  /** What one step of `Assemble` keeps, stated on the label maps before and after it. */
  lemma AssembleStep(initial: map<string, InsnNode>, before: map<string, InsnNode>, after: map<string, InsnNode>,
                     block: seq<Step>, i: nat, list: seq<InsnNode>, node: InsnNode)
    requires i < |block| && |list| == i
    requires InsnsOf(list) == StepInsns(block[..i])
    requires before.Keys == initial.Keys + PlacedNames(block[..i])
    requires forall n :: n in initial ==> before[n] == initial[n]
    requires forall j :: 0 <= j < i && block[j].PlaceLabel? ==> list[j] == before[block[j].name]
    requires node.insn == (if block[i].Emit? then block[i].insn else LabelNode)
    requires block[i].Emit? ==> after == before
    requires block[i].PlaceLabel? ==>
      after.Keys == before.Keys + {block[i].name} &&
      (forall n :: n in before ==> after[n] == before[n]) &&
      node == after[block[i].name]
    ensures InsnsOf(list + [node]) == StepInsns(block[..i + 1])
    ensures after.Keys == initial.Keys + PlacedNames(block[..i + 1])
    ensures forall n :: n in initial ==> after[n] == initial[n]
    ensures forall j :: 0 <= j < i + 1 && block[j].PlaceLabel? ==> (list + [node])[j] == after[block[j].name]
  {
    AssembleStepInsns(block, i, list, node);
    AssembleStepKeys(initial, before, after, block, i);
    forall j | 0 <= j < i && block[j].PlaceLabel? ensures block[j].name in before {
      assert block[..i][j] == block[j];
    }
    AssembleStepNodes(before, after, block, i, list, node);
  }

  lemma AssembleStepInsns(block: seq<Step>, i: nat, list: seq<InsnNode>, node: InsnNode)
    requires i < |block| && InsnsOf(list) == StepInsns(block[..i])
    requires node.insn == (if block[i].Emit? then block[i].insn else LabelNode)
    ensures InsnsOf(list + [node]) == StepInsns(block[..i + 1])
  {
    assert block[..i + 1] == block[..i] + [block[i]];
    StepInsnsAppend(block[..i], block[i]);
    assert InsnsOf(list + [node]) == InsnsOf(list) + [node.insn];
  }

  lemma AssembleStepKeys(initial: map<string, InsnNode>, before: map<string, InsnNode>, after: map<string, InsnNode>,
                         block: seq<Step>, i: nat)
    requires i < |block|
    requires before.Keys == initial.Keys + PlacedNames(block[..i])
    requires block[i].Emit? ==> after == before
    requires block[i].PlaceLabel? ==> after.Keys == before.Keys + {block[i].name}
    ensures after.Keys == initial.Keys + PlacedNames(block[..i + 1])
  {
    assert block[..i + 1] == block[..i] + [block[i]];
    PlacedNamesAppend(block[..i], block[i]);
  }

  lemma AssembleStepNodes(before: map<string, InsnNode>, after: map<string, InsnNode>,
                          block: seq<Step>, i: nat, list: seq<InsnNode>, node: InsnNode)
    requires i < |block| && |list| == i
    requires forall j :: 0 <= j < i && block[j].PlaceLabel? ==> block[j].name in before && list[j] == before[block[j].name]
    requires block[i].Emit? ==> after == before
    requires block[i].PlaceLabel? ==>
      block[i].name in after && node == after[block[i].name] && (forall n :: n in before ==> n in after && after[n] == before[n])
    ensures forall j :: 0 <= j < i + 1 && block[j].PlaceLabel? ==> block[j].name in after && (list + [node])[j] == after[block[j].name]
  {
    forall j | 0 <= j < i + 1 && block[j].PlaceLabel?
      ensures block[j].name in after && (list + [node])[j] == after[block[j].name]
    {
      if j < i {
        assert (list + [node])[j] == list[j];
      }
    }
  }

  /** One step of a block: the node it adds to the assembled list. */
  method RunStep(registry: SharedLabelRegistry, st: Step) returns (node: InsnNode)
    requires registry.labels.Valid()
    modifies registry.labels
    ensures registry.labels.Valid()
    ensures node.insn == (if st.Emit? then st.insn else LabelNode)
    ensures st.Emit? ==> registry.labels.labels == old(registry.labels.labels)
    ensures st.PlaceLabel? ==>
      registry.labels.labels.Keys == old(registry.labels.labels).Keys + {st.name} &&
      (forall n :: n in old(registry.labels.labels) ==> registry.labels.labels[n] == old(registry.labels.labels)[n]) &&
      node == registry.labels.labels[st.name]
  {
    match st {
      case Emit(insn) =>
        node := new InsnNode(insn);
      case PlaceLabel(name) =>
        node := registry.Get(name);
    }
  }

  lemma {:induction false} StepInsnsAppend(block: seq<Step>, st: Step)
    ensures StepInsns(block + [st]) == StepInsns(block) + StepInsns([st])
  {
    var l, r := StepInsns(block + [st]), StepInsns(block) + StepInsns([st]);
    assert |l| == |r|;
    forall i | 0 <= i < |l| ensures l[i] == r[i] {
      if i < |block| {
        assert (block + [st])[i] == block[i];
      }
    }
  }

  lemma PlacedNamesAppend(block: seq<Step>, st: Step)
    ensures PlacedNames(block + [st]) == PlacedNames(block) + (if st.PlaceLabel? then {st.name} else {})
  {
    var b := block + [st];
    forall n | n in PlacedNames(b) ensures n in PlacedNames(block) + (if st.PlaceLabel? then {st.name} else {}) {
      var i :| 0 <= i < |b| && b[i].PlaceLabel? && b[i].name == n;
      if i < |block| {
        assert block[i] == b[i];
      }
    }
    forall n | n in PlacedNames(block) ensures n in PlacedNames(b) {
      var i :| 0 <= i < |block| && block[i].PlaceLabel? && block[i].name == n;
      assert b[i] == block[i];
    }
    if st.PlaceLabel? {
      assert b[|block|] == st;
    }
  }

  /** The node an insertion is anchored at: the boundary node itself, or the node `offset` away from it. */
  function AnchorOf(nodes: seq<InsnNode>, at: InsnNode, offset: int): Result<InsnNode, IndexError> {
    if offset != 0 then At(nodes, FirstIndex(nodes, at) + offset) else Ok(at)
  }

  /** `InsnTarget.Found`: a located target in `origin`, from `first` to `last`. */
  class Found {
    const origin: InsnList
    const first: InsnNode
    const last: InsnNode
    /** The label map shared by every assembly made for this target. */
    const labels: LabelMap

    ghost predicate Valid()
      reads this, origin, labels
    {
      first in origin.nodes && last in origin.nodes && labels.Valid()
    }

    constructor (origin: InsnList, first: InsnNode, last: InsnNode)
      requires first in origin.nodes && last in origin.nodes
      ensures this.origin == origin && this.first == first && this.last == last
      ensures fresh(labels) && labels.labels == map[] && Valid()
    {
      this.origin := origin;
      this.first := first;
      this.last := last;
      this.labels := new LabelMap();
    }

    /** `find(index)`: the node `index` positions after `first`. */
    method Find(index: int) returns (r: Result<InsnNode, IndexError>)
      requires Valid()
      ensures r == At(origin.nodes, FirstIndex(origin.nodes, first) + index)
      ensures r.Ok? ==> r.value in origin.nodes
    {
      var p := origin.IndexOf(first);
      r := origin.Get(p + index);
    }

    /**
     * The private `insert(at, offset, block, action)`: the anchor is resolved first (an index out
     * of range throws before the block runs), then the block is assembled and its instructions are
     * inserted after (`before` false) or before the anchor.
     */
    method InsertAt(at: InsnNode, offset: int, block: seq<Step>, before: bool)
      returns (r: Result<InsnNode, IndexError>, inserted: seq<InsnNode>)
      requires Valid() && at in origin.nodes
      modifies origin, labels
      ensures Valid()
      ensures r == AnchorOf(old(origin.nodes), at, offset)
      ensures r.Err? ==> origin.nodes == old(origin.nodes) && labels.labels == old(labels.labels)
      ensures r.Ok? ==>
        var p := FirstIndex(old(origin.nodes), r.value);
        InsnsOf(inserted) == StepInsns(block) &&
        origin.nodes == (if before then old(origin.nodes)[..p] + inserted + old(origin.nodes)[p..]
                         else old(origin.nodes)[..p + 1] + inserted + old(origin.nodes)[p + 1..]) &&
        (forall n :: n in old(labels.labels) ==> n in labels.labels && labels.labels[n] == old(labels.labels)[n]) &&
        (forall i :: 0 <= i < |block| && block[i].PlaceLabel? ==> block[i].name in labels.labels && inserted[i] == labels.labels[block[i].name])
    {
      inserted := [];
      if offset != 0 {
        var p := origin.IndexOf(at);
        r := origin.Get(p + offset);
        if r.Err? {
          return;
        }
      } else {
        r := Ok(at);
      }
      var registry := new SharedLabelRegistry(labels);
      inserted := Assemble(registry, block);
      if before {
        origin.InsertBeforeNode(r.value, inserted);
      } else {
        origin.InsertAfterNode(r.value, inserted);
      }
    }

    /** `insertBefore(offset, block)`: before the anchor derived from `first`. */
    method InsertBefore(offset: int, block: seq<Step>) returns (r: Result<InsnNode, IndexError>, inserted: seq<InsnNode>)
      requires Valid()
      modifies origin, labels
      ensures Valid()
      ensures r == AnchorOf(old(origin.nodes), first, offset)
      ensures r.Err? ==> origin.nodes == old(origin.nodes)
      ensures r.Ok? ==> var p := FirstIndex(old(origin.nodes), r.value);
        InsnsOf(inserted) == StepInsns(block) && origin.nodes == old(origin.nodes)[..p] + inserted + old(origin.nodes)[p..]
    {
      r, inserted := InsertAt(first, offset, block, true);
    }

    /** `insert(offset, block)`: after the anchor derived from `first`. */
    method Insert(offset: int, block: seq<Step>) returns (r: Result<InsnNode, IndexError>, inserted: seq<InsnNode>)
      requires Valid()
      modifies origin, labels
      ensures Valid()
      ensures r == AnchorOf(old(origin.nodes), first, offset)
      ensures r.Err? ==> origin.nodes == old(origin.nodes)
      ensures r.Ok? ==> var p := FirstIndex(old(origin.nodes), r.value);
        InsnsOf(inserted) == StepInsns(block) && origin.nodes == old(origin.nodes)[..p + 1] + inserted + old(origin.nodes)[p + 1..]
    {
      r, inserted := InsertAt(first, offset, block, false);
    }

    /** `insertAfter(offset, block)`: after the anchor derived from `last`. */
    method InsertAfter(offset: int, block: seq<Step>) returns (r: Result<InsnNode, IndexError>, inserted: seq<InsnNode>)
      requires Valid()
      modifies origin, labels
      ensures Valid()
      ensures r == AnchorOf(old(origin.nodes), last, offset)
      ensures r.Err? ==> origin.nodes == old(origin.nodes)
      ensures r.Ok? ==> var p := FirstIndex(old(origin.nodes), r.value);
        InsnsOf(inserted) == StepInsns(block) && origin.nodes == old(origin.nodes)[..p + 1] + inserted + old(origin.nodes)[p + 1..]
    {
      r, inserted := InsertAt(last, offset, block, false);
    }
  }

  /** `InsnTarget`: a located target, or the `NotFound` object whose operations do nothing. */
  datatype InsnTarget = FoundTarget(found: Found) | NotFound

  datatype UnsupportedOperation = UnsupportedOperationException

  /** `NotFound.find(index)` always throws. */
  function NotFoundFind(index: int): (r: Result<InsnNode, UnsupportedOperation>)
    ensures r.Err?
  {
    Err(UnsupportedOperationException)
  }

  /** The exceptions `findTarget` can throw. */
  datatype TargetError = TargetNotFound(message: string) | NullPointerException | ClassCastError

  /**
   * `findTarget(pattern, failIfNotFound)`: a located target becomes a fresh `Found` over the list's
   * own nodes; no target throws "Target not found" or gives `NotFound`.
   */
  method FindTarget(list: InsnList, pattern: seq<Insn>, failIfNotFound: bool) returns (r: Result<InsnTarget, TargetError>)
    ensures var l := Locate(list.Insns(), pattern);
      (l.Span? ==> r.Ok? && r.value.FoundTarget? && fresh(r.value.found) && r.value.found.Valid() &&
                   r.value.found.origin == list && r.value.found.labels.labels == map[] &&
                   r.value.found.first == list.nodes[l.first] && r.value.found.last == list.nodes[l.last]) &&
      (l.Absent? ==> r == (if failIfNotFound then Err(TargetNotFound("Target not found")) else Ok(NotFound))) &&
      (l.NullPointer? ==> r == Err(NullPointerException)) &&
      (l.ClassCast? ==> r == Err(ClassCastError))
  {
    var l := list.LocateTargetOrNull(pattern);
    match l {
      case Span(f, la) =>
        var found := new Found(list, list.nodes[f], list.nodes[la]);
        r := Ok(FoundTarget(found));
      case Absent =>
        r := if failIfNotFound then Err(TargetNotFound("Target not found")) else Ok(NotFound);
      case NullPointer =>
        r := Err(NullPointerException);
      case ClassCast =>
        r := Err(ClassCastError);
    }
  }
}
