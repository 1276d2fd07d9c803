/** The mapping from game classes to their obfuscated names, and the
    lookup chain of the JNI accessors (client/src/mapping/mod.rs). The
    accessors are modelled up to the JNI request they would make; the JVM's
    answer to that request is not part of this model. */
module GameMapping {

  import opened Results
  import C = MappingClass
  import ClassType

  /** Every mapped class, by its original slashed name. */
  datatype Mapping = Mapping(classes: map<string, C.MinecraftClass>)

  /** The type of a field, for its JNI signature. An object type carries
      the mapping in which its class is looked up. */
  datatype FieldType =
    | Boolean
    | Byte
    | Char
    | Short
    | Int
    | Long
    | Float
    | Double
    | String
    | Object(classType: ClassType.MinecraftClassType, mapping: Mapping)

  /** The JNI call an accessor makes once its lookups succeed. */
  datatype Request =
    | CallStatic(className: string, target: C.Method)
    | CallInstance(target: C.Method)
    | GetStatic(className: string, field: string, signature: string)
    | GetInstance(field: string, signature: string)
    | SetInstance(field: string, signature: string)

  /** `get_class`: the entry for a name; a missing entry is fatal. */
  function GetClass(m: Mapping, name: string): (r: C.Outcome<C.MinecraftClass>)
    ensures r.Found? <==> name in m.classes
    ensures r.Found? ==> r.value == m.classes[name]
    ensures !r.Failed?
  {
    if name in m.classes then C.Found(m.classes[name]) else C.Panic
  }

  /** The mapped class of a class type. */
  function ClassOf(m: Mapping, t: ClassType.MinecraftClassType): C.Outcome<C.MinecraftClass>
  {
    GetClass(m, ClassType.GetName(t))
  }

  function GetSignature(ft: FieldType): C.Outcome<string>
  {
    match ft
    case Boolean => C.Found("Z")
    case Byte => C.Found("B")
    case Char => C.Found("C")
    case Short => C.Found("S")
    case Int => C.Found("I")
    case Long => C.Found("J")
    case Float => C.Found("F")
    case Double => C.Found("D")
    case String => C.Found("Ljava/lang/String;")
    case Object(t, m) =>
      match ClassOf(m, t)
      case Found(c) => C.Found("L" + c.name + ";")
      case _ => C.Panic
  }

  /** A primitive field type's signature is its one-letter descriptor. */
  function PrimitiveLetter(ft: FieldType): char
    requires !ft.Object? && !ft.String?
  {
    match ft
    case Boolean => 'Z'
    case Byte => 'B'
    case Char => 'C'
    case Short => 'S'
    case Int => 'I'
    case Long => 'J'
    case Float => 'F'
    case Double => 'D'
  }

  /** The signatures: the primitive letters, the string class, and for an
      object the class's obfuscated name; an object whose class is not
      mapped panics, and nothing else fails. */
  lemma SignatureShapes(ft: FieldType)
    ensures GetSignature(ft).Panic? <==> ft.Object? && ClassType.GetName(ft.classType) !in ft.mapping.classes
    ensures !GetSignature(ft).Failed?
    ensures !ft.Object? && !ft.String? ==>
      GetSignature(ft) == C.Found([PrimitiveLetter(ft)]) && C.IsPrimitive(PrimitiveLetter(ft))
    ensures ft.String? ==> GetSignature(ft) == C.Found("Ljava/lang/String;")
    ensures ft.Object? && GetSignature(ft).Found? ==>
      GetSignature(ft).value == "L" + ft.mapping.classes[ClassType.GetName(ft.classType)].name + ";"
  {
  }

  /** Different primitive types have different letters. */
  lemma PrimitiveLettersDistinct(a: FieldType, b: FieldType)
    requires !a.Object? && !a.String? && !b.Object? && !b.String?
    requires PrimitiveLetter(a) == PrimitiveLetter(b)
    ensures a == b
  {
  }

  /** A complete token without `)` read back from `(t)V`. */
  lemma SingleParameter(t: string)
    requires C.CompleteToken(t) && ')' !in t
    ensures C.ParameterTypes("(" + t + ")V") == Ok([t])
  {
    assert [t][1..] == [];
    assert C.Concat([t]) == t;
    assert "(" + t + ")V" == "(" + C.Concat([t]) + ")" + "V";
    C.DescriptorRoundTrip([t], "V");
  }

  /** `L`, a name without `;` or `)`, and `;` is one complete token. */
  lemma ObjectToken(n: string)
    requires C.NoSemicolon(n) && ')' !in n
    ensures C.CompleteToken("L" + n + ";") && ')' !in "L" + n + ";"
  {
    var t := "L" + n + ";";
    assert t[1..|t| - 1] == n;
  }

  /** A signature read as a one-parameter method descriptor `(sig)V` gives
      back exactly that one parameter, provided the obfuscated class name
      of an object type holds no `;` and no `)`. */
  lemma SignatureTokenises(ft: FieldType)
    requires GetSignature(ft).Found?
    requires ft.Object? ==>
      var n := ft.mapping.classes[ClassType.GetName(ft.classType)].name;
      C.NoSemicolon(n) && ')' !in n
    ensures C.ParameterTypes("(" + GetSignature(ft).value + ")V") == Ok([GetSignature(ft).value])
  {
    SignatureShapes(ft);
    if ft.Object? {
      ObjectToken(ft.mapping.classes[ClassType.GetName(ft.classType)].name);
    } else if ft.String? {
      assert C.NoSemicolon("java/lang/String") && ')' !in "java/lang/String";
      ObjectToken("java/lang/String");
    }
    SingleParameter(GetSignature(ft).value);
  }

  /** The common prefix of every accessor: the JNI environment must be
      attached and the class type mapped, or the client panics. */
  predicate Ready(m: Mapping, t: ClassType.MinecraftClassType, jvm: C.Jvm)
  {
    jvm.attached && ClassOf(m, t).Found?
  }

  /** `call_static_method`: find the class, then the overload for the
      arguments; the request names the class's obfuscated name and the
      chosen overload. */
  method CallStaticMethod(m: Mapping, t: ClassType.MinecraftClassType, name: string,
                          args: seq<C.JValue>, jvm: C.Jvm) returns (r: C.Outcome<Request>)
    ensures !Ready(m, t, jvm) ==> r.Panic?
    ensures Ready(m, t, jvm) ==> var c := ClassOf(m, t).value;
      && (!jvm.found(c.name) ==> r.Panic?)
      && (jvm.found(c.name) && name !in c.methods ==> r == C.Failed(C.MethodNotFound(name)))
      && (jvm.found(c.name) && name in c.methods && c.methods[name] != [] ==>
            r == C.Found(CallStatic(c.name, C.ChooseOverload(c.methods[name], args, jvm).value))
            && r.value.target in c.methods[name])
      && (jvm.found(c.name) && name in c.methods && c.methods[name] == [] ==> r.Panic?)
  {
    if !jvm.attached {
      return C.Panic;
    }
    var cls := ClassOf(m, t);
    if !cls.Found? {
      return C.Panic;
    }
    var c := cls.value;
    if !jvm.found(c.name) {
      return C.Panic;
    }
    var chosen := C.GetMethodByArgs(c, name, args, jvm);
    if name in c.methods && c.methods[name] != [] {
      C.ChoiceIsOverload(c.methods[name], args, jvm);
    }
    match chosen
    case Found(x) => r := C.Found(CallStatic(c.name, x));
    case Failed(e) => r := C.Failed(e);
    case Panic => r := C.Panic;
  }

  /** `call_method`: as the static call, on an instance and without
      looking the class up in the JVM. */
  method CallMethod(m: Mapping, t: ClassType.MinecraftClassType, name: string,
                    args: seq<C.JValue>, jvm: C.Jvm) returns (r: C.Outcome<Request>)
    ensures !Ready(m, t, jvm) ==> r.Panic?
    ensures Ready(m, t, jvm) ==> var c := ClassOf(m, t).value;
      && (name !in c.methods ==> r == C.Failed(C.MethodNotFound(name)))
      && (name in c.methods && c.methods[name] != [] ==>
            r == C.Found(CallInstance(C.ChooseOverload(c.methods[name], args, jvm).value))
            && r.value.target in c.methods[name])
      && (name in c.methods && c.methods[name] == [] ==> r.Panic?)
  {
    if !jvm.attached {
      return C.Panic;
    }
    var cls := ClassOf(m, t);
    if !cls.Found? {
      return C.Panic;
    }
    var c := cls.value;
    var chosen := C.GetMethodByArgs(c, name, args, jvm);
    if name in c.methods && c.methods[name] != [] {
      C.ChoiceIsOverload(c.methods[name], args, jvm);
    }
    match chosen
    case Found(x) => r := C.Found(CallInstance(x));
    case Failed(e) => r := C.Failed(e);
    case Panic => r := C.Panic;
  }

  /** `get_static_field`: class, JVM class, field by original name, then
      the field type's signature. */
  function GetStaticField(m: Mapping, t: ClassType.MinecraftClassType, name: string,
                          ft: FieldType, jvm: C.Jvm): (r: C.Outcome<Request>)
    ensures r.Found? <==>
      Ready(m, t, jvm) && jvm.found(ClassOf(m, t).value.name)
      && name in ClassOf(m, t).value.fields && GetSignature(ft).Found?
    ensures r.Failed? <==>
      Ready(m, t, jvm) && jvm.found(ClassOf(m, t).value.name)
      && name !in ClassOf(m, t).value.fields
    ensures r.Found? ==> var c := ClassOf(m, t).value;
      r.value == GetStatic(c.name, c.fields[name].name, GetSignature(ft).value)
  {
    if !jvm.attached then C.Panic
    else match ClassOf(m, t)
      case Found(c) =>
        if !jvm.found(c.name) then C.Panic
        else (match C.GetField(c, name)
          case Found(f) =>
            (match GetSignature(ft)
              case Found(sig) => C.Found(GetStatic(c.name, f.name, sig))
              case _ => C.Panic)
          case Failed(e) => C.Failed(e)
          case Panic => C.Panic)
      case _ => C.Panic
  }

  /** The instance field accessors look the field up and then compute its
      signature, in that order. */
  function FieldRequest(m: Mapping, t: ClassType.MinecraftClassType, name: string, ft: FieldType,
                        jvm: C.Jvm, write: bool): (r: C.Outcome<Request>)
    ensures r.Found? <==> Ready(m, t, jvm) && name in ClassOf(m, t).value.fields && GetSignature(ft).Found?
    ensures r.Failed? <==> Ready(m, t, jvm) && name !in ClassOf(m, t).value.fields
    ensures r.Found? ==> var f := ClassOf(m, t).value.fields[name].name; var sig := GetSignature(ft).value;
      r.value == if write then SetInstance(f, sig) else GetInstance(f, sig)
  {
    if !jvm.attached then C.Panic
    else match ClassOf(m, t)
      case Found(c) =>
        (match C.GetField(c, name)
          case Found(f) =>
            (match GetSignature(ft)
              case Found(sig) => C.Found(if write then SetInstance(f.name, sig) else GetInstance(f.name, sig))
              case _ => C.Panic)
          case Failed(e) => C.Failed(e)
          case Panic => C.Panic)
      case _ => C.Panic
  }

  /** `get_field`. */
  function GetField(m: Mapping, t: ClassType.MinecraftClassType, name: string,
                    ft: FieldType, jvm: C.Jvm): C.Outcome<Request>
  {
    FieldRequest(m, t, name, ft, jvm, false)
  }

  /** `set_field`. */
  function SetField(m: Mapping, t: ClassType.MinecraftClassType, name: string,
                    ft: FieldType, jvm: C.Jvm): C.Outcome<Request>
  {
    FieldRequest(m, t, name, ft, jvm, true)
  }

  /** A missing field is reported even when the field type's class is not
      mapped: the field is looked up before the signature is computed. */
  lemma FieldLookupFirst(m: Mapping, t: ClassType.MinecraftClassType, name: string,
                         ft: FieldType, jvm: C.Jvm)
    requires Ready(m, t, jvm) && name !in ClassOf(m, t).value.fields
    ensures GetField(m, t, name, ft, jvm) == C.Failed(C.FieldNotFound(name))
    ensures SetField(m, t, name, ft, jvm) == C.Failed(C.FieldNotFound(name))
    ensures jvm.found(ClassOf(m, t).value.name) ==>
      GetStaticField(m, t, name, ft, jvm) == C.Failed(C.FieldNotFound(name))
  {
  }
}
