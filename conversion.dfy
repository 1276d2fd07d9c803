/** The mapping converter (conversion.py): Java type names to JVM
    descriptors, method descriptors, and the two passes that turn ProGuard
    mapping lines into the per-class JSON data that `MappingClass` reads.
    Lines come already classified by the class, method and field patterns. */
module Conversion {

  import opened Results
  import opened Strings
  import opened MappingClass

  /** What the class, method and field patterns make of a line. */
  datatype Line =
    | ClassHeader(original: string, obfuscated: string)
    | MethodLine(returnType: string, name: string, params: string, obfuscated: string)
    | FieldLine(fieldType: string, name: string, obfuscated: string)
    | Other

  /** A line of the input text with the classification of its
      right-stripped form. */
  datatype RawLine = RawLine(text: string, kind: Line)

  /** The JSON object written for one class. */
  datatype ClassEntry = ClassEntry(
    name: string,
    methods: map<string, MethodOrVec>,
    fields: map<string, Field>)

  // ---------------------------------------------------------------------
  // Types and descriptors

  /** Python `count("[]")`: non-overlapping occurrences, left to right. */
  function PairCount(s: string): nat
  {
    if |s| < 2 then 0
    else if s[0] == '[' && s[1] == ']' then 1 + PairCount(s[2..])
    else PairCount(s[1..])
  }

  /** Python `replace("[]", "")`: one left-to-right pass. */
  function RemovePairs(s: string): (r: string)
    ensures |r| <= |s|
  {
    if |s| < 2 then s
    else if s[0] == '[' && s[1] == ']' then RemovePairs(s[2..])
    else [s[0]] + RemovePairs(s[1..])
  }

  /** `n` copies of `[]`. */
  function Pairs(n: nat): (r: string)
    ensures |r| == 2 * n
  {
    if n == 0 then "" else "[]" + Pairs(n - 1)
  }

  function Repeat(c: char, n: nat): (r: string)
    ensures |r| == n && forall i :: 0 <= i < n ==> r[i] == c
  {
    if n == 0 then "" else [c] + Repeat(c, n - 1)
  }

  /** The table of primitive Java type names. */
  function PrimitiveCode(t: string): (r: Option<char>)
    ensures r.Some? ==> r.value == 'V' || IsPrimitive(r.value)
  {
    if t == "void" then Some('V')
    else if t == "boolean" then Some('Z')
    else if t == "byte" then Some('B')
    else if t == "char" then Some('C')
    else if t == "short" then Some('S')
    else if t == "int" then Some('I')
    else if t == "float" then Some('F')
    else if t == "long" then Some('J')
    else if t == "double" then Some('D')
    else None
  }

  /** The renamed internal name of a class, or the internal name itself. */
  function Renamed(t: string, classMap: map<string, string>): string
  {
    var internalName := Slashed(t);
    if internalName in classMap then classMap[internalName] else internalName
  }

  /** The descriptor of a type name once its `[]` pairs are gone: the
      primitive's code, or `L` + the renamed class + `;`. */
  function ElementDescriptor(base: string, classMap: map<string, string>): (r: string)
    ensures |r| >= 1 && (r[0] == 'L' || r[0] == 'V' || IsPrimitive(r[0]))
  {
    match PrimitiveCode(base)
    case Some(code) => [code]
    case None => "L" + Renamed(base, classMap) + ";"
  }

  /** `convert_java_type_to_jvm`. */
  function ConvertJavaType(javaType: string, classMap: map<string, string>): (r: string)
    ensures |r| > PairCount(javaType)
    ensures r[..PairCount(javaType)] == Repeat('[', PairCount(javaType))
  {
    var arrayDepth := PairCount(javaType);
    var jvmType := ElementDescriptor(RemovePairs(javaType), classMap);
    assert (Repeat('[', arrayDepth) + jvmType)[..arrayDepth] == Repeat('[', arrayDepth);
    Repeat('[', arrayDepth) + jvmType
  }

  /** The first space-separated word, as Python `split(' ')[0]`. */
  function FirstWord(s: string): (r: string)
    ensures ' ' !in r && |r| <= |s| && r == s[..|r|]
  {
    var pieces := Split(s, ' ');
    SplitJoin(s, ' ');
    JoinPrefix(pieces, ' ');
    pieces[0]
  }

  /** The converted parameter types, one per comma piece. */
  function ParamDescriptors(params: string, classMap: map<string, string>): (r: seq<string>)
    ensures params == [] ==> r == []
    ensures params != [] ==> |r| == |Split(params, ',')|
    ensures params != [] ==> forall i :: 0 <= i < |r| ==> r[i] == ConvertParam(Split(params, ',')[i], classMap)
  {
    if params == [] then []
    else
      var pieces := Split(params, ',');
      seq(|pieces|, i requires 0 <= i < |pieces| => ConvertParam(pieces[i], classMap))
  }

  /** One comma piece: stripped, its first word converted. */
  function ConvertParam(piece: string, classMap: map<string, string>): string
  {
    ConvertJavaType(FirstWord(Trim(piece, IsPythonSpace)), classMap)
  }

  /** The method descriptor the converter builds. */
  function Signature(returnType: string, params: string, classMap: map<string, string>): string
  {
    "(" + Concat(ParamDescriptors(params, classMap)) + ")" + ConvertJavaType(returnType, classMap)
  }

  /** `get_method_signature`: converts the comma pieces in order, then the
      return type. */
  method GetMethodSignature(returnType: string, paramsStr: string, classMap: map<string, string>)
    returns (sig: string)
    ensures sig == Signature(returnType, paramsStr, classMap)
  {
    ghost var converted := ParamDescriptors(paramsStr, classMap);
    var params: seq<string> := [];
    if paramsStr != [] {
      var pieces := Split(paramsStr, ',');
      var i := 0;
      while i < |pieces|
        invariant 0 <= i <= |pieces| == |converted|
        invariant params == converted[..i]
      {
        var jvmType := ConvertParam(pieces[i], classMap);
        assert converted[i] == jvmType;
        SliceSnoc(converted, i);
        params := params + [jvmType];
        i := i + 1;
      }
      assert converted[..i] == converted;
    }
    sig := "(" + Concat(params) + ")" + ConvertJavaType(returnType, classMap);
  }

  // ---------------------------------------------------------------------
  // The two passes

  /** The line filter: drops blank lines and lines starting with `#`. */
  predicate Kept(r: RawLine)
  {
    Trim(r.text, IsPythonSpace) != [] && !(|r.text| >= 1 && r.text[0] == '#')
  }

  function KeptLines(raw: seq<RawLine>): (r: seq<Line>)
    ensures |r| <= |raw|
  {
    Select(raw, Kept)
  }

  /** The classified lines that pass `keep`, in order. */
  function Select(raw: seq<RawLine>, keep: RawLine -> bool): (r: seq<Line>)
    ensures |r| <= |raw|
  {
    if raw == [] then []
    else (if keep(raw[0]) then [raw[0].kind] else []) + Select(raw[1..], keep)
  }

  /** The first pass: every class header renames its class and starts the
      class's entry afresh. */
  function Pass1(lines: seq<Line>, classMap: map<string, string>, data: map<string, ClassEntry>)
    : (map<string, string>, map<string, ClassEntry>)
  {
    if lines == [] then (classMap, data)
    else match lines[0]
      case ClassHeader(o, ob) =>
        Pass1(lines[1..], classMap[Slashed(o) := ob], data[Slashed(o) := ClassEntry(ob, map[], map[])])
      case _ => Pass1(lines[1..], classMap, data)
  }

  /** The second pass's variables: the current class, the overloads
      gathered for it, and the data. */
  datatype Pass2State = Pass2State(
    current: Option<string>,
    overloads: map<string, seq<Method>>,
    data: map<string, ClassEntry>)

  /** Python's truth value of `current_class_jvm`. */
  predicate Truthy(current: Option<string>)
  {
    current.Some? && current.value != []
  }

  predicate NonEmptyLists(overloads: map<string, seq<Method>>)
  {
    forall n :: n in overloads ==> overloads[n] != []
  }

  /** Single-vs-list encoding: one overload as an object, several as a
      list. Reading it back gives the list again. */
  function Encode(ms: seq<Method>): (r: MethodOrVec)
    requires ms != []
    ensures AsVec(r) == ms
    ensures r.Single? <==> |ms| == 1
  {
    if |ms| > 1 then Multiple(ms) else Single(ms[0])
  }

  function Encoded(overloads: map<string, seq<Method>>): map<string, MethodOrVec>
    requires NonEmptyLists(overloads)
  {
    map n | n in overloads :: Encode(overloads[n])
  }

  function Get(overloads: map<string, seq<Method>>, n: string): seq<Method>
  {
    if n in overloads then overloads[n] else []
  }

  /** Writing the gathered overloads into the current class and clearing
      them, when there is a current class and something gathered. */
  function Flushed(st: Pass2State): (r: Pass2State)
    requires NonEmptyLists(st.overloads)
    ensures r.current == st.current && r.data.Keys == st.data.Keys
    ensures r.overloads == st.overloads || r.overloads == map[]
  {
    if Truthy(st.current) && st.overloads != map[] && st.current.value in st.data then
      var c := st.current.value;
      var e := st.data[c];
      st.(overloads := map[], data := st.data[c := e.(methods := e.methods + Encoded(st.overloads))])
    else st
  }

  /** The entry a method line contributes. */
  function MethodOf(line: Line, classMap: map<string, string>): Method
    requires line.MethodLine?
  {
    Method(line.obfuscated, Signature(line.returnType, line.params, classMap))
  }

  /** One line of the second pass. */
  function Step(st: Pass2State, line: Line, classMap: map<string, string>): (r: Pass2State)
    requires NonEmptyLists(st.overloads)
    ensures NonEmptyLists(r.overloads) && r.data.Keys == st.data.Keys
  {
    if line.ClassHeader? then Flushed(st).(current := Some(Slashed(line.original)))
    else if !Truthy(st.current) then st
    else if line.MethodLine? then
      st.(overloads := st.overloads[line.name := Get(st.overloads, line.name) + [MethodOf(line, classMap)]])
    else if line.FieldLine? && st.current.value in st.data then
      var c := st.current.value;
      var e := st.data[c];
      st.(data := st.data[c := e.(fields := e.fields[line.name := Field(line.obfuscated)])])
    else st
  }

  function Run(lines: seq<Line>, classMap: map<string, string>, st: Pass2State): (r: Pass2State)
    requires NonEmptyLists(st.overloads)
    ensures NonEmptyLists(r.overloads) && r.data.Keys == st.data.Keys
  {
    if lines == [] then st else Run(lines[1..], classMap, Step(st, lines[0], classMap))
  }

  /** The class map the first pass collects. */
  function ClassMapOf(lines: seq<Line>): map<string, string>
  {
    Pass1(lines, map[], map[]).0
  }

  /** What `parse_mappings` returns for the kept lines, as `classes`. */
  function MappingsOf(lines: seq<Line>): map<string, ClassEntry>
  {
    var first := Pass1(lines, map[], map[]);
    Flushed(Run(lines, first.0, Pass2State(None, map[], first.1))).data
  }

  /** Writes the gathered overloads into the current class, one name at a
      time, and clears them. */
  method FlushOverloads(current: Option<string>, overloads: map<string, seq<Method>>, data: map<string, ClassEntry>)
    returns (overloadsOut: map<string, seq<Method>>, dataOut: map<string, ClassEntry>)
    requires NonEmptyLists(overloads)
    requires current.Some? ==> current.value in data
    ensures Pass2State(current, overloadsOut, dataOut) == Flushed(Pass2State(current, overloads, data))
  {
    if Truthy(current) && overloads != map[] {
      var c := current.value;
      var methods := data[c].methods;
      var pending := overloads.Keys;
      while pending != {}
        invariant pending <= overloads.Keys
        invariant methods == data[c].methods + map n | n in overloads.Keys - pending :: Encode(overloads[n])
        decreases |pending|
      {
        var methodName :| methodName in pending;
        EncodeOneMore(data[c].methods, overloads, pending, methodName);
        methods := methods[methodName := Encode(overloads[methodName])];
        pending := pending - {methodName};
      }
      assert overloads.Keys - pending == overloads.Keys;
      dataOut := data[c := data[c].(methods := methods)];
      overloadsOut := map[];
    } else {
      overloadsOut, dataOut := overloads, data;
    }
  }

  lemma EncodeOneMore(base: map<string, MethodOrVec>, overloads: map<string, seq<Method>>,
                      pending: set<string>, n: string)
    requires NonEmptyLists(overloads) && pending <= overloads.Keys && n in pending
    ensures (base + map k | k in overloads.Keys - pending :: Encode(overloads[k]))[n := Encode(overloads[n])]
            == base + map k | k in overloads.Keys - (pending - {n}) :: Encode(overloads[k])
  {
  }

  /** The first loop of `parse_mappings`: every class header renames its
      class and starts its entry. */
  method FirstPass(lines: seq<Line>) returns (classMap: map<string, string>, data: map<string, ClassEntry>)
    ensures (classMap, data) == Pass1(lines, map[], map[])
    ensures forall j :: 0 <= j < |lines| && lines[j].ClassHeader? ==> Slashed(lines[j].original) in data
  {
    data := map[];
    classMap := map[];
    var i := 0;
    while i < |lines|
      invariant 0 <= i <= |lines|
      invariant Pass1(lines, map[], map[]) == Pass1(lines[i..], classMap, data)
      invariant forall j :: 0 <= j < i && lines[j].ClassHeader? ==> Slashed(lines[j].original) in data
    {
      assert lines[i..][1..] == lines[i + 1..];
      match lines[i] {
        case ClassHeader(originalJava, obfuscatedName) =>
          var originalJvm := Slashed(originalJava);
          classMap := classMap[originalJvm := obfuscatedName];
          data := data[originalJvm := ClassEntry(obfuscatedName, map[], map[])];
        case _ =>
      }
      i := i + 1;
    }
    assert lines[i..] == [];
  }

  /** One line of the second loop of `parse_mappings`. */
  method SecondPassLine(line: Line, classMap: map<string, string>,
                        current: Option<string>, overloads: map<string, seq<Method>>, data: map<string, ClassEntry>)
    returns (current': Option<string>, overloads': map<string, seq<Method>>, data': map<string, ClassEntry>)
    requires NonEmptyLists(overloads)
    requires current.Some? ==> current.value in data
    requires line.ClassHeader? ==> Slashed(line.original) in data
    ensures Pass2State(current', overloads', data') == Step(Pass2State(current, overloads, data), line, classMap)
  {
    current', overloads', data' := current, overloads, data;
    if line.ClassHeader? {
      overloads', data' := FlushOverloads(current, overloads, data);
      current' := Some(Slashed(line.original));
      return;
    }
    if !Truthy(current) {
      return;
    }
    var c := current.value;
    if line.MethodLine? {
      var signature := GetMethodSignature(line.returnType, line.params, classMap);
      var methodEntry := Method(line.obfuscated, signature);
      var gathered := if line.name in overloads' then overloads'[line.name] else [];
      overloads' := overloads'[line.name := gathered + [methodEntry]];
    } else if line.FieldLine? {
      data' := data'[c := data'[c].(fields := data'[c].fields[line.name := Field(line.obfuscated)])];
    }
  }

  /** The second loop of `parse_mappings` and the final flush. */
  method SecondPass(lines: seq<Line>, classMap: map<string, string>, data0: map<string, ClassEntry>)
    returns (data: map<string, ClassEntry>)
    requires forall j :: 0 <= j < |lines| && lines[j].ClassHeader? ==> Slashed(lines[j].original) in data0
    ensures data == Flushed(Run(lines, classMap, Pass2State(None, map[], data0))).data
  {
    data := data0;
    var current: Option<string> := None;
    var overloads: map<string, seq<Method>> := map[];
    var i := 0;
    while i < |lines|
      invariant 0 <= i <= |lines|
      invariant NonEmptyLists(overloads) && data.Keys == data0.Keys
      invariant current.Some? ==> current.value in data
      invariant Run(lines, classMap, Pass2State(None, map[], data0))
             == Run(lines[i..], classMap, Pass2State(current, overloads, data))
    {
      assert lines[i..][1..] == lines[i + 1..];
      current, overloads, data := SecondPassLine(lines[i], classMap, current, overloads, data);
      i := i + 1;
    }
    assert lines[i..] == [];
    overloads, data := FlushOverloads(current, overloads, data);
  }

  /** `parse_mappings`: the line filter, the first pass over class headers,
      then the second pass over members, flushing the overloads at every
      class header and at the end. */
  method ParseMappings(raw: seq<RawLine>) returns (data: map<string, ClassEntry>)
    ensures data == MappingsOf(KeptLines(raw))
  {
    var lines := KeptLines(raw);
    var classMap, first := FirstPass(lines);
    data := SecondPass(lines, classMap, first);
  }

  // ---------------------------------------------------------------------
  // Type conversion

  lemma {:induction false} BareNameScan(t: string, x: string)
    requires '[' !in t
    ensures PairCount(t + x) == PairCount(x) && RemovePairs(t + x) == t + RemovePairs(x)
  {
    BareNameCount(t, x);
    BareNameKept(t, x);
  }

  lemma {:induction false} BareNameCount(t: string, x: string)
    requires '[' !in t
    ensures PairCount(t + x) == PairCount(x)
  {
    if t == [] {
      assert t + x == x;
    } else {
      var s := t + x;
      assert s[1..] == t[1..] + x;
      assert s[0] != '[';
      BareNameCount(t[1..], x);
    }
  }

  lemma {:induction false} BareNameKept(t: string, x: string)
    requires '[' !in t
    ensures RemovePairs(t + x) == t + RemovePairs(x)
  {
    if t == [] {
      assert t + x == x;
    } else {
      var s := t + x;
      assert s[1..] == t[1..] + x;
      assert s[0] != '[';
      BareNameKept(t[1..], x);
      if |s| < 2 {
        assert x == [] && t == [s[0]];
      } else {
        assert [t[0]] + (t[1..] + RemovePairs(x)) == t + RemovePairs(x);
      }
    }
  }

  lemma {:induction false} PairsScan(k: nat)
    ensures PairCount(Pairs(k)) == k && RemovePairs(Pairs(k)) == ""
  {
    if k > 0 {
      assert Pairs(k)[2..] == Pairs(k - 1);
      PairsScan(k - 1);
    }
  }

  /** A bare type name followed by `k` pairs of `[]` converts to `k`
      leading `[` and the descriptor of the bare name. */
  lemma ArrayConversion(t: string, k: nat, classMap: map<string, string>)
    requires '[' !in t
    ensures ConvertJavaType(t + Pairs(k), classMap) == Repeat('[', k) + ConvertJavaType(t, classMap)
  {
    BareNameScan(t, Pairs(k));
    PairsScan(k);
    BareNameScan(t, "");
    assert t + "" == t;
    assert Repeat('[', 0) + ElementDescriptor(t, classMap) == ElementDescriptor(t, classMap);
  }

  /** The nine primitive names and their codes; any other bare name becomes
      `L` + its renamed or slashed internal name + `;`. */
  lemma ElementConversion(t: string, classMap: map<string, string>)
    requires '[' !in t
    ensures PrimitiveCode(t).None? ==> ConvertJavaType(t, classMap) == "L" + Renamed(t, classMap) + ";"
    ensures PrimitiveCode(t).Some? ==> ConvertJavaType(t, classMap) == [PrimitiveCode(t).value]
    ensures PrimitiveCode(t) == Some('V') <==> t == "void"
    ensures PrimitiveCode(t) == Some('Z') <==> t == "boolean"
    ensures PrimitiveCode(t) == Some('I') <==> t == "int"
    ensures PrimitiveCode(t) == Some('J') <==> t == "long"
    ensures PrimitiveCode(t) == Some('D') <==> t == "double"
  {
    BareNameScan(t, "");
    assert t + "" == t;
  }

  /** A converted type with at most one array level, not `void`, and a
      class name without `;` is one token of a parameter list. */
  lemma ConvertedIsToken(t: string, classMap: map<string, string>)
    requires PairCount(t) <= 1 && PrimitiveCode(RemovePairs(t)) != Some('V')
    requires NoSemicolon(Renamed(RemovePairs(t), classMap))
    ensures CompleteToken(ConvertJavaType(t, classMap))
  {
    var e := ElementDescriptor(RemovePairs(t), classMap);
    assert (|e| == 1 && IsPrimitive(e[0])) || ClosedObject(e) by {
      ElementIsToken(RemovePairs(t), classMap);
    }
    var r := ConvertJavaType(t, classMap);
    if PairCount(t) == 1 {
      assert r == "[" + e && r[1..] == e;
    } else {
      assert r == e;
    }
  }

  lemma ElementIsToken(base: string, classMap: map<string, string>)
    requires PrimitiveCode(base) != Some('V') && NoSemicolon(Renamed(base, classMap))
    ensures var e := ElementDescriptor(base, classMap);
            (|e| == 1 && IsPrimitive(e[0])) || ClosedObject(e)
  {
    if PrimitiveCode(base).None? {
      var o := "L" + Renamed(base, classMap) + ";";
      assert o[1..|o| - 1] == Renamed(base, classMap);
    }
  }

  /** Two or more array levels always start the descriptor with `[[`. */
  lemma DeepArrayPrefix(t: string, classMap: map<string, string>)
    requires PairCount(t) >= 2
    ensures |ConvertJavaType(t, classMap)| >= 2
    ensures ConvertJavaType(t, classMap)[0] == '[' && ConvertJavaType(t, classMap)[1] == '['
  {
    var r := ConvertJavaType(t, classMap);
    assert r[..PairCount(t)][0] == r[0] && r[..PairCount(t)][1] == r[1];
  }

  // ---------------------------------------------------------------------
  // Descriptors read back by the tokeniser

  /** Parameter descriptors that are single tokens and carry no `)` are
      read back exactly, in order, from the built method descriptor. */
  lemma SignatureRoundTrip(returnType: string, params: string, classMap: map<string, string>)
    requires var ps := ParamDescriptors(params, classMap);
             forall i :: 0 <= i < |ps| ==> CompleteToken(ps[i]) && ')' !in ps[i]
    ensures ParameterTypes(Signature(returnType, params, classMap)) == Ok(ParamDescriptors(params, classMap))
  {
    DescriptorRoundTrip(ParamDescriptors(params, classMap), ConvertJavaType(returnType, classMap));
  }

  /** A parameter with two or more array levels after well-formed ones makes
      the tokeniser reject the built descriptor. */
  lemma DeepArraySignatureRejected(returnType: string, params: string, classMap: map<string, string>, i: nat)
    requires var ps := ParamDescriptors(params, classMap);
             && i < |ps| && params != [] && PairCount(FirstWord(Trim(Split(params, ',')[i], IsPythonSpace))) >= 2
             && (forall j :: 0 <= j < |ps| ==> ')' !in ps[j])
             && (forall j :: 0 <= j < i ==> CompleteToken(ps[j]))
    ensures ParameterTypes(Signature(returnType, params, classMap)).Err?
  {
    var ps := ParamDescriptors(params, classMap);
    DeepArrayPrefix(FirstWord(Trim(Split(params, ',')[i], IsPythonSpace)), classMap);
    DescriptorDeepArray(ps, ConvertJavaType(returnType, classMap), i);
  }

  // ---------------------------------------------------------------------
  // Lines the converter ignores

  lemma {:induction false} SelectAppend(a: seq<RawLine>, b: seq<RawLine>, keep: RawLine -> bool)
    ensures Select(a + b, keep) == Select(a, keep) + Select(b, keep)
  {
    if a == [] {
      assert a + b == b;
    } else {
      var h := if keep(a[0]) then [a[0].kind] else [];
      assert (a + b)[1..] == a[1..] + b && (a + b)[0] == a[0];
      SelectAppend(a[1..], b, keep);
      assert Select(a + b, keep) == h + (Select(a[1..], keep) + Select(b, keep));
    }
  }

  /** A blank line, or one starting with `#`, changes nothing. */
  lemma BlankAndCommentLinesIgnored(pre: seq<RawLine>, r: RawLine, post: seq<RawLine>)
    requires Trim(r.text, IsPythonSpace) == [] || (|r.text| >= 1 && r.text[0] == '#')
    ensures KeptLines(pre + [r] + post) == KeptLines(pre + post)
  {
    assert !Kept(r);
    SelectAppend(pre + [r], post, Kept);
    SelectAppend(pre, [r], Kept);
    SelectAppend(pre, post, Kept);
    assert Select([r], Kept) == [] + Select([r][1..], Kept);
    assert Select([r], Kept) == [];
    assert Select(pre, Kept) + [] == Select(pre, Kept);
  }

  predicate NoHeaders(xs: seq<Line>)
  {
    forall j :: 0 <= j < |xs| ==> !xs[j].ClassHeader?
  }

  lemma {:induction false} Pass1Append(a: seq<Line>, b: seq<Line>, classMap: map<string, string>, data: map<string, ClassEntry>)
    ensures Pass1(a + b, classMap, data) == var m := Pass1(a, classMap, data); Pass1(b, m.0, m.1)
  {
    if a == [] {
      assert a + b == b;
    } else {
      assert (a + b)[1..] == a[1..] + b;
      assert (a + b)[0] == a[0];
      match a[0]
      case ClassHeader(o, ob) =>
        Pass1Append(a[1..], b, classMap[Slashed(o) := ob], data[Slashed(o) := ClassEntry(ob, map[], map[])]);
      case _ => Pass1Append(a[1..], b, classMap, data);
    }
  }

  lemma {:induction false} Pass1NoHeaders(xs: seq<Line>, classMap: map<string, string>, data: map<string, ClassEntry>)
    requires NoHeaders(xs)
    ensures Pass1(xs, classMap, data) == (classMap, data)
  {
    if xs != [] {
      assert !xs[0].ClassHeader?;
      Pass1NoHeaders(xs[1..], classMap, data);
    }
  }

  lemma {:induction false} RunAppend(a: seq<Line>, b: seq<Line>, classMap: map<string, string>, st: Pass2State)
    requires NonEmptyLists(st.overloads)
    ensures Run(a + b, classMap, st) == Run(b, classMap, Run(a, classMap, st))
  {
    if a == [] {
      assert a + b == b;
    } else {
      assert (a + b)[1..] == a[1..] + b;
      assert (a + b)[0] == a[0];
      RunAppend(a[1..], b, classMap, Step(st, a[0], classMap));
    }
  }

  /** Member lines seen while there is no current class are skipped. */
  lemma {:induction false} RunWithoutClass(xs: seq<Line>, classMap: map<string, string>, st: Pass2State)
    requires NoHeaders(xs) && !Truthy(st.current) && NonEmptyLists(st.overloads)
    ensures Run(xs, classMap, st) == st
  {
    if xs != [] {
      assert !xs[0].ClassHeader?;
      RunWithoutClass(xs[1..], classMap, st);
    }
  }

  /** Member lines before the first class header are ignored. */
  lemma LeadingMembersIgnored(pre: seq<Line>, rest: seq<Line>)
    requires NoHeaders(pre)
    ensures MappingsOf(pre + rest) == MappingsOf(rest)
  {
    Pass1Append(pre, rest, map[], map[]);
    Pass1NoHeaders(pre, map[], map[]);
    var first := Pass1(rest, map[], map[]);
    RunAppend(pre, rest, first.0, Pass2State(None, map[], first.1));
    RunWithoutClass(pre, first.0, Pass2State(None, map[], first.1));
  }

  // ---------------------------------------------------------------------
  // The methods and fields a class block produces

  /** The method names of a block of member lines. */
  function NamesIn(block: seq<Line>): set<string>
  {
    if block == [] then {} else NameOf(block[0]) + NamesIn(block[1..])
  }

  function NameOf(line: Line): set<string>
  {
    if line.MethodLine? then {line.name} else {}
  }

  /** The overloads named `n` in a block, in file order. */
  function MethodsNamed(block: seq<Line>, n: string, classMap: map<string, string>): seq<Method>
  {
    if block == [] then [] else MethodsFrom(block[0], n, classMap) + MethodsNamed(block[1..], n, classMap)
  }

  function MethodsFrom(line: Line, n: string, classMap: map<string, string>): seq<Method>
  {
    if line.MethodLine? && line.name == n then [MethodOf(line, classMap)] else []
  }

  /** Every method name of a block with its overloads in file order. */
  function Overloads(block: seq<Line>, classMap: map<string, string>): (r: map<string, seq<Method>>)
    ensures NonEmptyLists(r)
  {
    NamesNonEmpty(block, classMap);
    map n | n in NamesIn(block) :: MethodsNamed(block, n, classMap)
  }

  lemma NamesNonEmpty(block: seq<Line>, classMap: map<string, string>)
    ensures forall n :: n in NamesIn(block) ==> MethodsNamed(block, n, classMap) != []
  {
    forall n | n in NamesIn(block) ensures MethodsNamed(block, n, classMap) != [] {
      NamesInMeaning(block, n, classMap);
    }
  }

  /** The fields after a block's field lines, each overwriting its name. */
  function FieldsAfter(fields: map<string, Field>, block: seq<Line>): map<string, Field>
    decreases |block|
  {
    if block == [] then fields else FieldsAfter(FieldsFrom(fields, block[0]), block[1..])
  }

  function FieldsFrom(fields: map<string, Field>, line: Line): map<string, Field>
  {
    if line.FieldLine? then fields[line.name := Field(line.obfuscated)] else fields
  }

  /** A name is in the block exactly when some method line carries it, and
      then it has at least one overload. */
  lemma {:induction false} NamesInMeaning(block: seq<Line>, n: string, classMap: map<string, string>)
    ensures n in NamesIn(block) <==> exists j :: 0 <= j < |block| && block[j].MethodLine? && block[j].name == n
    ensures n in NamesIn(block) <==> MethodsNamed(block, n, classMap) != []
  {
    if block != [] {
      NamesInMeaning(block[1..], n, classMap);
      if exists j :: 0 <= j < |block| && block[j].MethodLine? && block[j].name == n {
        var j :| 0 <= j < |block| && block[j].MethodLine? && block[j].name == n;
        if j > 0 {
          assert block[1..][j - 1] == block[j];
        }
      }
      if exists j :: 0 <= j < |block[1..]| && block[1..][j].MethodLine? && block[1..][j].name == n {
        var j :| 0 <= j < |block[1..]| && block[1..][j].MethodLine? && block[1..][j].name == n;
        assert block[j + 1] == block[1..][j];
      }
    }
  }

  /** The last field line for a name decides its obfuscated name. */
  lemma {:induction false} LastFieldWins(fields: map<string, Field>, block: seq<Line>, i: nat)
    requires i < |block| && block[i].FieldLine?
    requires forall j :: i < j < |block| && block[j].FieldLine? ==> block[j].name != block[i].name
    ensures block[i].name in FieldsAfter(fields, block)
    ensures FieldsAfter(fields, block)[block[i].name] == Field(block[i].obfuscated)
    decreases |block|
  {
    var next := FieldsFrom(fields, block[0]);
    if i == 0 {
      FieldsUntouched(next, block[1..], block[0].name);
    } else {
      forall j | i - 1 < j < |block[1..]| && block[1..][j].FieldLine?
        ensures block[1..][j].name != block[1..][i - 1].name
      {
        assert block[1..][j] == block[j + 1];
      }
      LastFieldWins(next, block[1..], i - 1);
    }
  }

  /** A name no field line carries keeps its entry. */
  lemma {:induction false} FieldsUntouched(fields: map<string, Field>, block: seq<Line>, n: string)
    requires forall j :: 0 <= j < |block| && block[j].FieldLine? ==> block[j].name != n
    ensures (n in FieldsAfter(fields, block)) == (n in fields)
    ensures n in fields ==> FieldsAfter(fields, block)[n] == fields[n]
    decreases |block|
  {
    if block != [] {
      var next := FieldsFrom(fields, block[0]);
      forall j | 0 <= j < |block[1..]| && block[1..][j].FieldLine?
        ensures block[1..][j].name != n
      {
        assert block[1..][j] == block[j + 1];
      }
      FieldsUntouched(next, block[1..], n);
    }
  }

  // ---------------------------------------------------------------------
  // How the second pass treats one class's block

  /** Overloads are only ever gathered for a truthy current class, and the
      current class always has an entry. */
  predicate Consistent(st: Pass2State)
  {
    && (!Truthy(st.current) ==> st.overloads == map[])
    && (st.current.Some? ==> st.current.value in st.data)
  }

  predicate HeaderFree(xs: seq<Line>, c: string)
  {
    forall j :: 0 <= j < |xs| && xs[j].ClassHeader? ==> Slashed(xs[j].original) != c
  }

  predicate HeadersKnown(xs: seq<Line>, data: map<string, ClassEntry>)
  {
    forall j :: 0 <= j < |xs| && xs[j].ClassHeader? ==> Slashed(xs[j].original) in data
  }

  /** The first pass leaves a class untouched when no header names it. */
  lemma {:induction false} Pass1Avoiding(xs: seq<Line>, classMap: map<string, string>, data: map<string, ClassEntry>, c: string)
    requires HeaderFree(xs, c)
    ensures var r := Pass1(xs, classMap, data);
            (c in r.0 <==> c in classMap) && (c in classMap ==> r.0[c] == classMap[c])
            && (c in r.1 <==> c in data) && (c in data ==> r.1[c] == data[c])
    decreases |xs|
  {
    if xs != [] {
      assert HeaderFree(xs[1..], c) by {
        forall j | 0 <= j < |xs[1..]| && xs[1..][j].ClassHeader?
          ensures Slashed(xs[1..][j].original) != c
        {
          assert xs[1..][j] == xs[j + 1];
        }
      }
      match xs[0]
      case ClassHeader(o, ob) =>
        Pass1Avoiding(xs[1..], classMap[Slashed(o) := ob], data[Slashed(o) := ClassEntry(ob, map[], map[])], c);
      case _ => Pass1Avoiding(xs[1..], classMap, data, c);
    }
  }

  /** Every header's class has an entry after the first pass. */
  lemma {:induction false} Pass1Knows(xs: seq<Line>, classMap: map<string, string>, data: map<string, ClassEntry>)
    ensures data.Keys <= Pass1(xs, classMap, data).1.Keys
    ensures HeadersKnown(xs, Pass1(xs, classMap, data).1)
    decreases |xs|
  {
    if xs != [] {
      var r := Pass1(xs, classMap, data);
      match xs[0] {
        case ClassHeader(o, ob) =>
          Pass1Knows(xs[1..], classMap[Slashed(o) := ob], data[Slashed(o) := ClassEntry(ob, map[], map[])]);
        case _ => Pass1Knows(xs[1..], classMap, data);
      }
      forall j | 0 <= j < |xs| && xs[j].ClassHeader?
        ensures Slashed(xs[j].original) in r.1
      {
        if j > 0 {
          assert xs[1..][j - 1] == xs[j];
        }
      }
    }
  }

  lemma TailFacts(xs: seq<Line>, c: string, data: map<string, ClassEntry>)
    requires xs != []
    ensures HeaderFree(xs, c) ==> HeaderFree(xs[1..], c)
    ensures HeadersKnown(xs, data) ==> HeadersKnown(xs[1..], data)
    ensures NoHeaders(xs) ==> NoHeaders(xs[1..]) && !xs[0].ClassHeader?
  {
    forall j | 0 <= j < |xs[1..]|
      ensures xs[1..][j] == xs[j + 1]
    {
    }
  }

  /** Lines outside a class's block leave its entry alone. */
  lemma {:induction false} RunAvoiding(xs: seq<Line>, classMap: map<string, string>, st: Pass2State, c: string)
    requires NonEmptyLists(st.overloads) && Consistent(st)
    requires HeaderFree(xs, c) && HeadersKnown(xs, st.data)
    requires c in st.data && st.current != Some(c)
    ensures var r := Run(xs, classMap, st);
            Consistent(r) && r.current != Some(c) && c in r.data && r.data[c] == st.data[c]
    decreases |xs|
  {
    if xs != [] {
      TailFacts(xs, c, st.data);
      var next := Step(st, xs[0], classMap);
      assert Consistent(next) && next.current != Some(c) && next.data[c] == st.data[c];
      RunAvoiding(xs[1..], classMap, next, c);
    }
  }

  /** One member line while a class is current. */
  lemma MemberStep(st: Pass2State, line: Line, classMap: map<string, string>)
    requires NonEmptyLists(st.overloads) && !line.ClassHeader?
    requires Truthy(st.current) && st.current.value in st.data
    ensures var r := Step(st, line, classMap);
            var c := st.current.value;
            && r.current == st.current
            && r.overloads.Keys == st.overloads.Keys + NameOf(line)
            && (forall n :: Get(r.overloads, n) == Get(st.overloads, n) + MethodsFrom(line, n, classMap))
            && r.data == st.data[c := st.data[c].(fields := FieldsFrom(st.data[c].fields, line))]
  {
  }

  /** Over a block of member lines the current class stays, each method
      line appends to its name's overloads, and each field line writes the
      class's fields. */
  lemma {:induction false} RunBlock(block: seq<Line>, classMap: map<string, string>, st: Pass2State)
    requires NonEmptyLists(st.overloads) && NoHeaders(block)
    requires Truthy(st.current) && st.current.value in st.data
    ensures var r := Run(block, classMap, st);
            var c := st.current.value;
            && r.current == st.current
            && r.overloads.Keys == st.overloads.Keys + NamesIn(block)
            && (forall n :: Get(r.overloads, n) == Get(st.overloads, n) + MethodsNamed(block, n, classMap))
            && r.data == st.data[c := st.data[c].(fields := FieldsAfter(st.data[c].fields, block))]
    decreases |block|
  {
    var c := st.current.value;
    var e := st.data[c];
    if block == [] {
      assert st.data[c := e] == st.data;
      forall n ensures Get(st.overloads, n) + [] == Get(st.overloads, n) {
      }
    } else {
      TailFacts(block, c, st.data);
      var line := block[0];
      var next := Step(st, line, classMap);
      MemberStep(st, line, classMap);
      RunBlock(block[1..], classMap, next);
      var r := Run(block, classMap, st);
      assert r == Run(block[1..], classMap, next);
      forall n ensures Get(r.overloads, n) == Get(st.overloads, n) + MethodsNamed(block, n, classMap) {
        AppendAssoc(Get(st.overloads, n), MethodsFrom(line, n, classMap), MethodsNamed(block[1..], n, classMap));
      }
      MapOverwrite(st.data, c, e.(fields := FieldsFrom(e.fields, line)), e.(fields := FieldsAfter(e.fields, block)));
    }
  }

  /** With nothing gathered before it, a block's overloads are exactly the
      block's method lines grouped by name. */
  lemma BlockOverloads(block: seq<Line>, classMap: map<string, string>, st: Pass2State)
    requires NonEmptyLists(st.overloads) && NoHeaders(block) && st.overloads == map[]
    requires Truthy(st.current) && st.current.value in st.data
    ensures Run(block, classMap, st).overloads == Overloads(block, classMap)
  {
    RunBlock(block, classMap, st);
    var r := Run(block, classMap, st).overloads;
    forall n | n in r ensures r[n] == MethodsNamed(block, n, classMap) {
      assert Get(r, n) == Get(st.overloads, n) + MethodsNamed(block, n, classMap);
      assert Get(st.overloads, n) == [];
    }
  }

  /** A class header whose class is not the current one ends the previous
      block and starts an empty one. */
  lemma EnterClass(st: Pass2State, header: Line, classMap: map<string, string>)
    requires NonEmptyLists(st.overloads) && Consistent(st)
    requires header.ClassHeader? && Slashed(header.original) in st.data
    requires st.current != Some(Slashed(header.original))
    ensures var r := Step(st, header, classMap);
            var c := Slashed(header.original);
            && r.current == Some(c) && r.overloads == map[] && r.data[c] == st.data[c]
            && Consistent(r)
  {
  }

  /** What the flush writes into a class's entry. */
  function FlushedEntry(e: ClassEntry, overloads: map<string, seq<Method>>): ClassEntry
    requires NonEmptyLists(overloads)
  {
    if overloads == map[] then e else e.(methods := e.methods + Encoded(overloads))
  }

  /** The block ends at the next header or at the end of the file; either
      way the gathered overloads are written into the class. */
  lemma LeaveClass(post: seq<Line>, classMap: map<string, string>, st: Pass2State, c: string)
    requires NonEmptyLists(st.overloads) && Consistent(st)
    requires st.current == Some(c) && c != []
    requires HeaderFree(post, c) && HeadersKnown(post, st.data)
    requires post == [] || post[0].ClassHeader?
    ensures var r := Flushed(Run(post, classMap, st));
            c in r.data && r.data[c] == FlushedEntry(st.data[c], st.overloads)
  {
    if post != [] {
      TailFacts(post, c, st.data);
      var next := Step(st, post[0], classMap);
      assert next.data[c] == FlushedEntry(st.data[c], st.overloads);
      assert Consistent(next) && next.current != Some(c);
      RunAvoiding(post[1..], classMap, next, c);
    }
  }

  /** Reading the encoded overloads back gives them again. */
  lemma DecodedEncoded(overloads: map<string, seq<Method>>)
    requires NonEmptyLists(overloads)
    ensures Decoded(Encoded(overloads)) == overloads
  {
  }

  // ---------------------------------------------------------------------
  // One class, end to end

  /** The last header naming a class decides its renaming and starts its
      entry, wherever in the file the header stands. */
  lemma Pass1OfClass(pre: seq<Line>, o: string, ob: string, rest: seq<Line>)
    requires HeaderFree(rest, Slashed(o))
    ensures var r := Pass1(pre + [ClassHeader(o, ob)] + rest, map[], map[]);
            var c := Slashed(o);
            c in r.0 && r.0[c] == ob && c in r.1 && r.1[c] == ClassEntry(ob, map[], map[])
  {
    var h := ClassHeader(o, ob);
    Pass1Append(pre + [h], rest, map[], map[]);
    Pass1Append(pre, [h], map[], map[]);
    var m := Pass1(pre, map[], map[]);
    assert [h][1..] == [];
    var m' := Pass1([h], m.0, m.1);
    assert m' == (m.0[Slashed(o) := ob], m.1[Slashed(o) := ClassEntry(ob, map[], map[])]);
    Pass1Avoiding(rest, m'.0, m'.1, Slashed(o));
  }

  /** A type named anywhere in the file with the class's dotted name is
      renamed to the class's obfuscated name, even before its header. */
  lemma ForwardReference(pre: seq<Line>, o: string, ob: string, rest: seq<Line>, t: string)
    requires HeaderFree(rest, Slashed(o))
    requires '[' !in t && PrimitiveCode(t).None? && Slashed(t) == Slashed(o)
    ensures ConvertJavaType(t, ClassMapOf(pre + [ClassHeader(o, ob)] + rest)) == "L" + ob + ";"
  {
    Pass1OfClass(pre, o, ob, rest);
    ElementConversion(t, ClassMapOf(pre + [ClassHeader(o, ob)] + rest));
  }

  lemma HeadersKnownParts(pre: seq<Line>, h: Line, block: seq<Line>, post: seq<Line>, data: map<string, ClassEntry>)
    requires HeadersKnown(pre + [h] + block + post, data)
    ensures HeadersKnown(pre, data) && HeadersKnown(post, data)
  {
    var lines := pre + [h] + block + post;
    forall j | 0 <= j < |pre| ensures lines[j] == pre[j] {
    }
    forall j | 0 <= j < |post| ensures lines[|pre| + 1 + |block| + j] == post[j] {
    }
  }

  lemma HeaderFreeAppend(a: seq<Line>, b: seq<Line>, c: string)
    requires NoHeaders(a) && HeaderFree(b, c)
    ensures HeaderFree(a + b, c)
  {
    forall j | 0 <= j < |a + b| && (a + b)[j].ClassHeader?
      ensures Slashed((a + b)[j].original) != c
    {
      assert j >= |a| && (a + b)[j] == b[j - |a|];
    }
  }

  /** The second pass over a file with one header for class `c`: the entry
      it leaves for `c` holds the block's fields, and its `methods` object
      read back gives every method name of the block with its overloads in
      file order. */
  lemma SecondPassOfClass(pre: seq<Line>, h: Line, block: seq<Line>, post: seq<Line>,
                          classMap: map<string, string>, data: map<string, ClassEntry>)
    requires h.ClassHeader? && Slashed(h.original) != []
    requires var c := Slashed(h.original);
             HeaderFree(pre, c) && NoHeaders(block) && HeaderFree(post, c) && (post == [] || post[0].ClassHeader?)
    requires HeadersKnown(pre + [h] + block + post, data)
    ensures var c := Slashed(h.original);
            var r := Flushed(Run(pre + [h] + block + post, classMap, Pass2State(None, map[], data))).data;
            c in r && r[c] == FlushedEntry(data[c].(fields := FieldsAfter(data[c].fields, block)), Overloads(block, classMap))
  {
    var c := Slashed(h.original);
    var st0 := Pass2State(None, map[], data);
    HeadersKnownParts(pre, h, block, post, data);
    assert c in data by {
      assert (pre + [h] + block + post)[|pre|] == h;
    }
    RunAppend(pre + [h] + block, post, classMap, st0);
    RunAppend(pre + [h], block, classMap, st0);
    RunAppend(pre, [h], classMap, st0);
    var s1 := Run(pre, classMap, st0);
    RunAvoiding(pre, classMap, st0, c);
    assert [h][1..] == [];
    var s2 := Step(s1, h, classMap);
    assert Run([h], classMap, s1) == s2;
    EnterClass(s1, h, classMap);
    var s3 := Run(block, classMap, s2);
    BlockOverloads(block, classMap, s2);
    RunBlock(block, classMap, s2);
    LeaveClass(post, classMap, s3, c);
  }

  /** The converter's output for a class `c` whose one header is followed
      by a block of member lines: its name is the header's obfuscated name,
      its fields follow the block's field lines, and reading its `methods`
      object back gives every method name of the block with exactly its
      overloads, in file order, each with the descriptor built from the
      whole file's renaming. */
  lemma ClassRoundTrip(pre: seq<Line>, o: string, ob: string, block: seq<Line>, post: seq<Line>)
    requires Slashed(o) != []
    requires HeaderFree(pre, Slashed(o)) && NoHeaders(block) && HeaderFree(post, Slashed(o))
    requires post == [] || post[0].ClassHeader?
    ensures var lines := pre + [ClassHeader(o, ob)] + block + post;
            var c := Slashed(o);
            var m := MappingsOf(lines);
            && c in m && m[c].name == ob
            && Decoded(m[c].methods) == Overloads(block, ClassMapOf(lines))
            && m[c].fields == FieldsAfter(map[], block)
  {
    var h := ClassHeader(o, ob);
    var c := Slashed(o);
    var lines := pre + [h] + block + post;
    AppendAssoc(pre + [h], block, post);
    HeaderFreeAppend(block, post, c);
    Pass1OfClass(pre, o, ob, block + post);
    var first := Pass1(lines, map[], map[]);
    var ov := Overloads(block, first.0);
    var e := ClassEntry(ob, map[], map[]).(fields := FieldsAfter(map[], block));
    assert c in MappingsOf(lines) && MappingsOf(lines)[c] == FlushedEntry(e, ov) by {
      Pass1Knows(lines, map[], map[]);
      SecondPassOfClass(pre, h, block, post, first.0, first.1);
    }
    if ov != map[] {
      assert map[] + Encoded(ov) == Encoded(ov);
      DecodedEncoded(ov);
    }
  }

  /** Deserialising the converter's `methods` object for the class, in any
      member order, gives the block's overloads per name in file order. */
  lemma ConvertThenDeserialize(pre: seq<Line>, o: string, ob: string, block: seq<Line>, post: seq<Line>,
                               entries: seq<(string, MethodOrVec)>)
    requires Slashed(o) != []
    requires HeaderFree(pre, Slashed(o)) && NoHeaders(block) && HeaderFree(post, Slashed(o))
    requires post == [] || post[0].ClassHeader?
    requires var lines := pre + [ClassHeader(o, ob)] + block + post;
             var m := MappingsOf(lines);
             Slashed(o) in m && IsListing(entries, m[Slashed(o)].methods)
    ensures var lines := pre + [ClassHeader(o, ob)] + block + post;
            Decode(entries) == Overloads(block, ClassMapOf(lines))
  {
    var lines := pre + [ClassHeader(o, ob)] + block + post;
    ClassRoundTrip(pre, o, ob, block, post);
    DecodeListing(entries, MappingsOf(lines)[Slashed(o)].methods);
  }
}
