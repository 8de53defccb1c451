/**
 * JVM type and method descriptors as `describe` / `describeMethod` build them (dsl/asmExtensions.kt
 * of the dev.su5ed tree), together with a reader for the descriptor grammar of sections 4.3.2 and
 * 4.3.3 of the Java Virtual Machine Specification, used to state what the produced text means.
 */
module Descriptors {
  import opened Wrappers
  import opened Strings

  /** A `KClass`: Unit and the eight primitive classes by identity, any other class by its Java name. */
  datatype KClass =
    | UnitClass | BooleanClass | ByteClass | CharClass | ShortClass | IntClass | LongClass | FloatClass | DoubleClass
    | OtherClass(javaName: string)

  /** What `describe(type: Any)` may be given. */
  datatype Described =
    | KClassValue(kclass: KClass)
    | JavaClassValue(javaClass: KClass)   // a `java.lang.Class`, described through `type.kotlin`
    | OtherValue(runtimeClass: KClass)    // any other object, described through `type::class`

  /** A class whose descriptor can stand as a FieldType: not Unit, and a non-empty name without ';'. */
  predicate IsFieldClass(k: KClass) {
    k != UnitClass && (k.OtherClass? ==> |k.javaName| > 0 && ';' !in k.javaName)
  }

  /** `describe(kclass)` */
  function Describe(k: KClass): (r: string)
    ensures k == UnitClass <==> r == "V"
    ensures k.OtherClass? <==> (|r| >= 2 && r[0] == 'L')
    ensures !k.OtherClass? ==> |r| == 1
  {
    match k
    case UnitClass => "V"
    case BooleanClass => "Z"
    case ByteClass => "B"
    case CharClass => "C"
    case ShortClass => "S"
    case IntClass => "I"
    case LongClass => "J"
    case FloatClass => "F"
    case DoubleClass => "D"
    case OtherClass(name) => "L" + ReplaceChar(name, '.', '/') + ";"
  }

  /** `describe(type: Any)`: a Java class and any other value are described through their Kotlin class. */
  function DescribeAny(v: Described): (r: string)
    ensures v.KClassValue? ==> r == Describe(v.kclass)
    ensures v.JavaClassValue? ==> r == Describe(v.javaClass)
    ensures v.OtherValue? ==> r == Describe(v.runtimeClass)
  {
    match v
    case KClassValue(k) => Describe(k)
    case JavaClassValue(c) => Describe(c)
    case OtherValue(c) => Describe(c)
  }

  /** Distinct classes get distinct descriptors, as long as Java names contain no '/' (they never do). */
  lemma DescribeInjective(a: KClass, b: KClass)
    requires a.OtherClass? ==> '/' !in a.javaName
    requires b.OtherClass? ==> '/' !in b.javaName
    requires Describe(a) == Describe(b)
    ensures a == b
  {
    if a.OtherClass? && b.OtherClass? {
      var ra := ReplaceChar(a.javaName, '.', '/');
      var rb := ReplaceChar(b.javaName, '.', '/');
      assert ra == Describe(a)[1..|Describe(a)| - 1] == Describe(b)[1..|Describe(b)| - 1] == rb;
      forall i | 0 <= i < |a.javaName|
        ensures a.javaName[i] == b.javaName[i]
      {
        assert ra[i] == rb[i];
      }
    }
  }

  /** The descriptors of the parameter types, in order. */
  function DescribeAll(ks: seq<KClass>): (r: seq<string>)
    ensures |r| == |ks| && forall i :: 0 <= i < |ks| ==> r[i] == Describe(ks[i])
  {
    if |ks| == 0 then [] else [Describe(ks[0])] + DescribeAll(ks[1..])
  }

  /** `describeMethod(returnType, *params)` as written: the parameters joined with `joinToString`'s ", ". */
  function DescribeMethod(returnType: KClass, params: seq<KClass>): (r: string)
    ensures |params| == 0 ==> r == "()" + Describe(returnType)
    ensures |params| == 1 ==> r == "(" + Describe(params[0]) + ")" + Describe(returnType)
  {
    "(" + (Join(DescribeAll(params), ", ") + (")" + Describe(returnType)))
  }

  /** `describeMethod` with the parameter descriptors concatenated, as section 4.3.3 of the Java Virtual Machine Specification requires. */
  function DescribeMethodFixed(returnType: KClass, params: seq<KClass>): string {
    "(" + (Join(DescribeAll(params), "") + (")" + Describe(returnType)))
  }

  /** The text up to the first ';', and the text after that ';'; None without a ';'. */
  function ReadToSemicolon(s: string): (r: Option<(string, string)>)
    ensures r.Some? ==> |r.value.1| < |s|
  {
    if |s| == 0 then None
    else if s[0] == ';' then Some(("", s[1..]))
    else
      match ReadToSemicolon(s[1..])
      case None => None
      case Some((name, rest)) => Some(([s[0]] + name, rest))
  }

  /** One FieldType (section 4.3.2 of the Java Virtual Machine Specification) at the start of `s`, and the text after it. */
  function ParseFieldType(s: string): (r: Option<(string, string)>)
    ensures r.Some? ==> |r.value.1| < |s|
    decreases |s|
  {
    if |s| == 0 then None
    else if s[0] in "ZBCSIJFD" then Some((s[..1], s[1..]))
    else if s[0] == 'L' then
      match ReadToSemicolon(s[1..])
      case None => None
      case Some((name, rest)) => if name == "" then None else Some(("L" + name + ";", rest))
    else if s[0] == '[' then
      match ParseFieldType(s[1..])
      case None => None
      case Some((f, rest)) => Some(("[" + f, rest))
    else None
  }

  /** A name without ';' is read up to the ';' that follows it. */
  lemma {:induction false} ReadName(name: string, rest: string)
    requires ';' !in name
    ensures ReadToSemicolon(name + ";" + rest) == Some((name, rest))
  {
    if |name| > 0 {
      assert (name + ";" + rest)[1..] == name[1..] + ";" + rest;
      ReadName(name[1..], rest);
      assert [name[0]] + name[1..] == name;
    }
  }

  /** The ParameterDescriptors up to the closing ')', and the text after it. */
  function ParseParams(s: string): (r: Option<(seq<string>, string)>)
    decreases |s|
  {
    if |s| > 0 && s[0] == ')' then Some(([], s[1..]))
    else
      match ParseFieldType(s)
      case None => None
      case Some((f, rest)) =>
        match ParseParams(rest)
        case None => None
        case Some((fs, after)) => Some(([f] + fs, after))
  }

  lemma {:induction false} ReadSplits(s: string)
    ensures var r := ReadToSemicolon(s); r.Some? ==> s == r.value.0 + ";" + r.value.1
  {
    if |s| > 0 && s[0] != ';' {
      ReadSplits(s[1..]);
      assert s == [s[0]] + s[1..];
    }
  }

  /** The reader splits its input: what it read, then the rest. */
  lemma {:induction false} ParseFieldTypeSplits(s: string)
    ensures var r := ParseFieldType(s); r.Some? ==> |r.value.0| > 0 && s == r.value.0 + r.value.1
    decreases |s|
  {
    if |s| == 0 {
    } else if s[0] in "ZBCSIJFD" {
      assert s == s[..1] + s[1..];
    } else if s[0] == '[' {
      ParseFieldTypeSplits(s[1..]);
      var inner := ParseFieldType(s[1..]);
      if inner.Some? {
        var (f, rest) := inner.value;
        assert ParseFieldType(s) == Some(("[" + f, rest));
        assert s == "[" + s[1..];
        assert s == ("[" + f) + rest;
      }
    } else if s[0] == 'L' {
      ReadSplits(s[1..]);
      var read := ReadToSemicolon(s[1..]);
      if read.Some? {
        var (name, rest) := read.value;
        assert s == "L" + s[1..];
        assert s == ("L" + name + ";") + rest;
      }
    }
  }

  /** A ReturnDescriptor making up all of `s`: 'V' or one FieldType. */
  function ParseReturn(s: string): Option<string> {
    if s == "V" then Some(s)
    else
      match ParseFieldType(s)
      case Some((f, rest)) => if rest == "" then Some(f) else None
      case None => None
  }

  /** A MethodDescriptor (section 4.3.3 of the Java Virtual Machine Specification): its parameter descriptors and its return descriptor. */
  function ParseMethodDescriptor(s: string): (r: Option<(seq<string>, string)>) {
    if |s| > 0 && s[0] == '(' then
      match ParseParams(s[1..])
      case None => None
      case Some((ps, rest)) =>
        match ParseReturn(rest)
        case None => None
        case Some(ret) => Some((ps, ret))
    else None
  }

  /** Reading a method descriptor is reading its parameters after '(' and then its return type. */
  lemma ParseMethodDescriptorOf(body: string, ps: seq<string>, ret: string)
    requires ParseParams(body) == Some((ps, ret)) && ParseReturn(ret) == Some(ret)
    ensures ParseMethodDescriptor("(" + body) == Some((ps, ret))
  {
    assert ("(" + body)[0] == '(' && ("(" + body)[1..] == body;
  }

  /** After a parameter read whole, a parameter list that does not read spoils the whole list. */
  lemma ParseParamsAfterField(f: string, after: string)
    requires |f| > 0 && f[0] != ')'
    requires ParseFieldType(f + after) == Some((f, after)) && ParseParams(after) == None
    ensures ParseParams(f + after) == None
  {
    assert (f + after)[0] == f[0];
  }

  /** A method descriptor whose parameter list does not read is no method descriptor. */
  lemma ParseMethodDescriptorBadParams(body: string)
    requires ParseParams(body) == None
    ensures ParseMethodDescriptor("(" + body) == None
  {
    assert ("(" + body)[0] == '(' && ("(" + body)[1..] == body;
  }

  /** A FieldType descriptor is read back whole, whatever follows it. */
  lemma ParseDescribed(k: KClass, rest: string)
    requires IsFieldClass(k)
    ensures ParseFieldType(Describe(k) + rest) == Some((Describe(k), rest))
  {
    if k.OtherClass? {
      var n := ReplaceChar(k.javaName, '.', '/');
      SlashedNameHasNoSemicolon(k.javaName);
      ParseObjectDescriptor(n, rest);
    } else {
      var s := Describe(k) + rest;
      assert s[..1] == Describe(k) && s[1..] == rest;
    }
  }

  /** Replacing '.' with '/' adds no ';'. */
  lemma SlashedNameHasNoSemicolon(name: string)
    requires ';' !in name
    ensures ';' !in ReplaceChar(name, '.', '/')
  {
    var n := ReplaceChar(name, '.', '/');
    forall i | 0 <= i < |n|
      ensures n[i] != ';'
    {
      assert name[i] != ';';
    }
  }

  /** An object descriptor `L<name>;` is read back whole. */
  lemma ParseObjectDescriptor(n: string, rest: string)
    requires |n| > 0 && ';' !in n
    ensures ParseFieldType("L" + n + ";" + rest) == Some(("L" + n + ";", rest))
  {
    var s := "L" + n + ";" + rest;
    assert s == "L" + (n + ";" + rest);
    assert s[0] == 'L' && s[1..] == n + ";" + rest;
    ReadName(n, rest);
  }

  /** Concatenated parameter descriptors followed by ')' are read back as the same list. */
  lemma {:induction false} ParseParamsDescribed(ks: seq<KClass>, rest: string)
    requires forall i :: 0 <= i < |ks| ==> IsFieldClass(ks[i])
    ensures ParseParams(Join(DescribeAll(ks), "") + (")" + rest)) == Some((DescribeAll(ks), rest))
    decreases |ks|
  {
    var ds := DescribeAll(ks);
    var s := Join(ds, "") + (")" + rest);
    if |ks| == 0 {
      assert s == ")" + rest;
    } else {
      var head := Describe(ks[0]);
      var rs := DescribeAll(ks[1..]);
      var tail := Join(rs, "") + (")" + rest);
      assert ds == [head] + rs;
      ConcatJoinCons(head, rs);
      Regroup(head, Join(rs, ""), ")" + rest);
      assert s == head + tail;
      ParseDescribed(ks[0], tail);
      forall i | 0 <= i < |ks[1..]| ensures IsFieldClass(ks[1..][i]) {
        assert ks[1..][i] == ks[i + 1];
      }
      ParseParamsDescribed(ks[1..], rest);
      assert head[0] != ')';
    }
  }

  /** Concatenating a list with an element in front. */
  lemma ConcatJoinCons(head: string, rs: seq<string>)
    ensures Join([head] + rs, "") == head + Join(rs, "")
  {
    if |rs| == 0 {
      assert [head] + rs == [head];
    } else {
      assert ([head] + rs)[1..] == rs;
    }
  }

  /** Every return type, Unit included, is read back as a ReturnDescriptor. */
  lemma ParseReturnDescribed(returnType: KClass)
    requires returnType.OtherClass? ==> IsFieldClass(returnType)
    ensures ParseReturn(Describe(returnType)) == Some(Describe(returnType))
  {
    if returnType != UnitClass {
      ParseDescribed(returnType, "");
      assert Describe(returnType) + "" == Describe(returnType);
    }
  }

  /** The corrected descriptor reads back as the described parameter and return types. */
  lemma DescribeMethodFixedRoundTrip(returnType: KClass, params: seq<KClass>)
    requires returnType.OtherClass? ==> IsFieldClass(returnType)
    requires forall i :: 0 <= i < |params| ==> IsFieldClass(params[i])
    ensures ParseMethodDescriptor(DescribeMethodFixed(returnType, params)) == Some((DescribeAll(params), Describe(returnType)))
  {
    var ret := Describe(returnType);
    var ds := DescribeAll(params);
    var body := Join(ds, "") + (")" + ret);
    assert ParseParams(body) == Some((ds, ret)) by {
      ParseParamsDescribed(params, ret);
    }
    assert ParseReturn(ret) == Some(ret) by {
      ParseReturnDescribed(returnType);
    }
    ParseMethodDescriptorOf(body, ds, ret);
  }


  /** With no parameter or one, the separator never appears and the written descriptor is the correct one. */
  lemma DescribeMethodFewParams(returnType: KClass, params: seq<KClass>)
    requires |params| <= 1
    ensures DescribeMethod(returnType, params) == DescribeMethodFixed(returnType, params)
  {
  }

  /** With the default return type Unit, the descriptor ends in ")V". */
  lemma DefaultReturnIsVoid(params: seq<KClass>)
    ensures var d := DescribeMethod(UnitClass, params); |d| >= 2 && d[|d| - 2..] == ")V"
  {
  }

  /** With two or more parameters, the written descriptor is not a method descriptor at all. */
  lemma DescribeMethodManyParamsInvalid(returnType: KClass, params: seq<KClass>)
    requires |params| >= 2
    requires forall i :: 0 <= i < |params| ==> IsFieldClass(params[i])
    ensures ParseMethodDescriptor(DescribeMethod(returnType, params)) == None
  {
    var ds := DescribeAll(params);
    var tail := ")" + Describe(returnType);
    var after := ", " + Join(ds[1..], ", ") + tail;
    assert Join(ds, ", ") + tail == ds[0] + after by {
      JoinFirst(ds, ", ");
      Regroup(ds[0], ", " + Join(ds[1..], ", "), tail);
    }
    assert ParseFieldType(ds[0] + after) == Some((ds[0], after)) by {
      ParseDescribed(params[0], after);
    }
    assert ParseParams(after) == None by {
      assert after[0] == ',';
    }
    ParseParamsAfterField(ds[0], after);
    ParseMethodDescriptorBadParams(ds[0] + after);
    assert DescribeMethod(returnType, params) == "(" + (ds[0] + after);
  }

  /** `joinToString` of two or more parts: the first part, the separator, then the rest joined. */
  lemma JoinFirst(parts: seq<string>, sep: string)
    requires |parts| >= 2
    ensures Join(parts, sep) == parts[0] + (sep + Join(parts[1..], sep))
  {
  }

  lemma Regroup(a: string, b: string, c: string)
    ensures (a + b) + c == a + (b + c)
  {
  }



  /** `describeMethod(Unit::class, Int::class, Long::class)` gives "(I, J)V". */
  lemma TwoParamsExample()
    ensures DescribeMethod(UnitClass, [IntClass, LongClass]) == "(I, J)V"
    ensures DescribeMethodFixed(UnitClass, [IntClass, LongClass]) == "(IJ)V"
  {
    assert DescribeAll([IntClass, LongClass]) == ["I", "J"];
  }
}
