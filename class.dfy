/** A mapped game class (client/src/mapping/class.rs): its methods grouped
    into overload lists, its fields, the tokeniser for the parameter list of
    a method descriptor (section 4.3.3 of the Java Virtual Machine
    Specification, with field descriptors as in section 4.3.2), the grading
    of an argument against a parameter descriptor, and overload choice. */
module MappingClass {

  import opened Results
  import opened Strings

  datatype Method = Method(name: string, signature: string)

  datatype Field = Field(name: string)

  /** One value of a class's `methods` object in the mapping JSON: a single
      method object, or an array of them. */
  datatype MethodOrVec = Single(only: Method) | Multiple(methods: seq<Method>)

  /** `methods` maps an original method name to its overloads in file order. */
  datatype MinecraftClass = MinecraftClass(
    name: string,
    methods: map<string, seq<Method>>,
    fields: map<string, Field>)

  datatype SignatureMatch = Exact | Compatible | Incompatible

  /** An argument, by kind. Float and double payloads are not modelled. A
      non-null object is known only by a handle the JVM answers about. */
  datatype JValue = Bool | Byte | Char | Short | Int | Long | Float | Double | Void
                  | Object(isNull: bool, handle: nat)

  /** The answers of the attached JVM about non-null objects, by handle:
      whether the environment is attached, whether the object's class can
      be fetched, the name `Class.getName()` gives for it (dotted; None when
      a call fails), whether `find_class` finds a class name, and whether
      the object's class is that class or the object an instance of it. */
  datatype Jvm = Jvm(
    attached: bool,
    hasClass: nat -> bool,
    nameOf: nat -> Option<string>,
    found: string -> bool,
    sameClass: (nat, string) -> bool,
    instanceOf: (nat, string) -> bool)

  datatype SignatureError = MissingOpen | MissingClose | MalformedParentheses
                          | InvalidArray | UnknownType

  datatype LookupError = MethodNotFound(name: string)
                       | SignatureNotFound(name: string, signature: string)
                       | FieldNotFound(name: string)

  /** A lookup either returns, reports an error, or panics (an `unwrap` of
      nothing, or an index past the end). */
  datatype Outcome<T> = Found(value: T) | Failed(error: LookupError) | Panic

  // ---------------------------------------------------------------------
  // Descriptor tokens

  predicate IsPrimitive(c: char)
  {
    c == 'Z' || c == 'B' || c == 'C' || c == 'S' || c == 'I' || c == 'J' || c == 'F' || c == 'D'
  }

  predicate NoSemicolon(s: string)
  {
    forall i :: 0 <= i < |s| ==> s[i] != ';'
  }

  /** `L`, a class name without `;`, then `;`. */
  predicate ClosedObject(t: string)
  {
    |t| >= 2 && t[0] == 'L' && t[|t| - 1] == ';' && NoSemicolon(t[1..|t| - 1])
  }

  /** `L` and a class name the text ended before closing. */
  predicate OpenObject(t: string)
  {
    |t| >= 1 && t[0] == 'L' && NoSemicolon(t[1..])
  }

  /** A token that may stand anywhere in the list: a primitive, a closed
      object type, or one array level of either. */
  predicate CompleteToken(t: string)
  {
    || (|t| == 1 && IsPrimitive(t[0]))
    || ClosedObject(t)
    || (|t| == 2 && t[0] == '[' && IsPrimitive(t[1]))
    || (|t| >= 1 && t[0] == '[' && ClosedObject(t[1..]))
  }

  /** A token the tokeniser also accepts when the text ends inside it. */
  predicate TrailingToken(t: string)
  {
    OpenObject(t) || t == "[" || (|t| >= 1 && t[0] == '[' && OpenObject(t[1..]))
  }

  /** Every token complete, except that the last may be trailing. */
  predicate WellFormed(ts: seq<string>)
  {
    forall i :: 0 <= i < |ts| ==> CompleteToken(ts[i]) || (i == |ts| - 1 && TrailingToken(ts[i]))
  }

  function Concat(ts: seq<string>): string
  {
    if ts == [] then "" else ts[0] + Concat(ts[1..])
  }

  /** From a leading `L` up to and including the first `;`, or to the end. */
  function ObjectToken(s: string): (t: string)
    requires |s| >= 1 && s[0] == 'L'
    ensures 1 <= |t| <= |s| && t == s[..|t|]
  {
    match IndexOf(s, ';')
    case None => s
    case Some(k) => s[..k + 1]
  }

  /** The token at the front of a non-empty parameter list. */
  function FirstToken(p: string): (r: Result<string, SignatureError>)
    requires p != []
    ensures r.Ok? ==> 1 <= |r.value| <= |p| && r.value == p[..|r.value|]
  {
    if IsPrimitive(p[0]) then Ok(p[..1])
    else if p[0] == 'L' then Ok(ObjectToken(p))
    else if p[0] == '[' then
      if |p| == 1 then Ok("[")
      else if IsPrimitive(p[1]) then Ok(p[..2])
      else if p[1] == 'L' then
        var t := ObjectToken(p[1..]);
        assert [p[0]] + t == p[..1 + |t|];
        Ok("[" + t)
      else Err(InvalidArray)
    else Err(UnknownType)
  }

  /** Reference tokeniser of the text between the parentheses. */
  function Tokens(p: string): Result<seq<string>, SignatureError>
    decreases |p|
  {
    if p == [] then Ok([])
    else match FirstToken(p)
      case Err(e) => Err(e)
      case Ok(t) =>
        match Tokens(p[|t|..])
        case Err(e) => Err(e)
        case Ok(ts) => Ok([t] + ts)
  }

  /** The text between the first `(` and the first `)`. */
  function ParameterText(sig: string): (r: Result<string, SignatureError>)
    ensures r == Err(MissingOpen) <==> '(' !in sig
    ensures r == Err(MissingClose) <==> '(' in sig && ')' !in sig
    ensures r.Ok? ==> ')' !in r.value && |r.value| < |sig|
    ensures r.Ok? && |sig| >= 1 && sig[0] == '(' ==> sig == "(" + r.value + sig[|r.value| + 1..]
  {
    match IndexOf(sig, '(')
    case None => Err(MissingOpen)
    case Some(start) =>
      match IndexOf(sig, ')')
      case None => Err(MissingClose)
      case Some(end) =>
        if start >= end then Err(MalformedParentheses)
        else
          assert sig[start + 1..end] == sig[..end][start + 1..];
          Ok(sig[start + 1..end])
  }

  /** What `extract_parameter_types` returns for a method descriptor. */
  function ParameterTypes(sig: string): Result<seq<string>, SignatureError>
  {
    match ParameterText(sig)
    case Err(e) => Err(e)
    case Ok(p) => if p == [] then Ok([]) else Tokens(p)
  }

  function Prepend(ts: seq<string>, r: Result<seq<string>, SignatureError>): Result<seq<string>, SignatureError>
  {
    match r
    case Err(e) => Err(e)
    case Ok(rest) => Ok(ts + rest)
  }

  /** The tokeniser walks the parameter text, reading one token at a time
      and stopping at the first character it cannot place. */
  method ExtractParameterTypes(sig: string) returns (r: Result<seq<string>, SignatureError>)
    ensures r == ParameterTypes(sig)
  {
    var start := IndexOf(sig, '(');
    if start.None? { return Err(MissingOpen); }
    var end := IndexOf(sig, ')');
    if end.None? { return Err(MissingClose); }
    if start.value >= end.value { return Err(MalformedParentheses); }
    var params := sig[start.value + 1..end.value];
    assert ParameterText(sig) == Ok(params);
    if params == [] { return Ok([]); }

    var types: seq<string> := [];
    var i := 0;
    assert params[0..] == params;
    assert Tokens(params).Ok? ==> [] + Tokens(params).value == Tokens(params).value;
    while i < |params|
      invariant 0 <= i <= |params|
      invariant Tokens(params) == Prepend(types, Tokens(params[i..]))
    {
      var t, next := ReadToken(params, i);
      match t {
        case Err(e) =>
          TokensAtError(params, types, i);
          return Err(e);
        case Ok(token) =>
          TokensStep(params, types, i, next);
          types := types + [token];
          i := next;
      }
    }
    assert params[i..] == [];
    assert types + [] == types;
    return Ok(types);
  }

  /** One pass of the tokeniser's loop body from position `at`: a primitive;
      an object type scanned to its `;`; or `[` followed by a primitive, by
      a scanned object type, or by nothing. */
  method ReadToken(params: string, at: nat) returns (r: Result<string, SignatureError>, next: nat)
    requires at < |params|
    ensures r == FirstToken(params[at..])
    ensures r.Ok? ==> at < next <= |params| && r.value == params[at..next]
  {
    var ch := params[at];
    var i := at + 1;
    assert params[at..][..1] == [ch];
    if IsPrimitive(ch) {
      return Ok([ch]), i;
    } else if ch == 'L' {
      var obj;
      obj, i := ScanObject(params, at);
      return Ok(obj), i;
    } else if ch == '[' {
      var arrayType := "[";
      if i < |params| {
        var nextCh := params[i];
        if IsPrimitive(nextCh) {
          arrayType := arrayType + [nextCh];
          i := i + 1;
          assert params[at..][..2] == arrayType;
        } else if nextCh == 'L' {
          var obj;
          obj, i := ScanObject(params, i);
          assert params[at..][1..] == params[at + 1..];
          arrayType := arrayType + obj;
        } else {
          return Err(InvalidArray), i;
        }
      } else {
        assert |params[at..]| == 1;
      }
      assert arrayType == params[at..i];
      return Ok(arrayType), i;
    } else {
      return Err(UnknownType), i;
    }
  }

  /** The inner scan from an `L` at `at`: push characters up to and
      including the first `;`, or to the end of the text. */
  method ScanObject(params: string, at: nat) returns (obj: string, i: nat)
    requires at < |params| && params[at] == 'L'
    ensures obj == ObjectToken(params[at..]) && i == at + |obj|
  {
    obj := "L";
    i := at + 1;
    var closed := false;
    while i < |params| && !closed
      invariant at + 1 <= i <= |params|
      invariant obj == params[at..i]
      invariant closed ==> params[i - 1] == ';' && NoSemicolon(params[at..i - 1])
      invariant !closed ==> NoSemicolon(params[at..i])
    {
      var c := params[i];
      obj := obj + [c];
      i := i + 1;
      if c == ';' {
        closed := true;
      }
    }
    var s := params[at..];
    if closed {
      assert s[i - 1 - at] == ';';
      assert ';' !in s[..i - 1 - at] by { assert s[..i - 1 - at] == params[at..i - 1]; }
      assert IndexOf(s, ';') == Some(i - 1 - at);
    } else {
      assert s == params[at..i];
      assert IndexOf(s, ';') == None;
    }
  }

  /** One iteration of the tokeniser consumed exactly `FirstToken`. */
  lemma TokensStep(params: string, types: seq<string>, at: nat, i: nat)
    requires at < i <= |params|
    requires Tokens(params) == Prepend(types, Tokens(params[at..]))
    requires FirstToken(params[at..]) == Ok(params[at..i])
    ensures Tokens(params) == Prepend(types + [params[at..i]], Tokens(params[i..]))
  {
    var s := params[at..];
    var t := params[at..i];
    assert s[|t|..] == params[i..];
    match Tokens(params[i..])
    case Err(e) =>
    case Ok(rest) => assert types + ([t] + rest) == (types + [t]) + rest;
  }

  /** The tokeniser stopped on an error that `FirstToken` also reports. */
  lemma TokensAtError(params: string, types: seq<string>, at: nat)
    requires at < |params|
    requires Tokens(params) == Prepend(types, Tokens(params[at..]))
    requires FirstToken(params[at..]).Err?
    ensures Tokens(params) == Err(FirstToken(params[at..]).error)
  {
  }

  // ---------------------------------------------------------------------
  // What the tokeniser accepts

  lemma ConcatCons(t: string, ts: seq<string>)
    ensures Concat([t] + ts) == t + Concat(ts)
  {
    assert ([t] + ts)[1..] == ts;
  }

  lemma ObjectTokenShape(s: string)
    requires |s| >= 1 && s[0] == 'L'
    ensures ClosedObject(ObjectToken(s)) || (ObjectToken(s) == s && OpenObject(s))
  {
    match IndexOf(s, ';')
    case None =>
    case Some(k) =>
      assert ObjectToken(s)[1..k] == s[1..k];
  }

  /** The first token is well-formed, and complete unless it ends the text. */
  lemma FirstTokenShape(p: string)
    requires p != [] && FirstToken(p).Ok?
    ensures CompleteToken(FirstToken(p).value)
         || (FirstToken(p).value == p && TrailingToken(p))
  {
    var t := FirstToken(p).value;
    if p[0] == 'L' {
      ObjectTokenShape(p);
    } else if p[0] == '[' && |p| > 1 && !IsPrimitive(p[1]) {
      ObjectTokenShape(p[1..]);
      assert t[1..] == ObjectToken(p[1..]);
      if t[1..] == p[1..] {
        assert t == p;
      }
    }
  }

  /** Soundness: a successful tokenisation splits the text into well-formed
      tokens that concatenate back to it exactly. */
  lemma {:induction false} TokensSound(p: string)
    requires Tokens(p).Ok?
    ensures Concat(Tokens(p).value) == p
    ensures WellFormed(Tokens(p).value)
    decreases |p|
  {
    if p != [] {
      var t := FirstToken(p).value;
      TokensSound(p[|t|..]);
      var rest := Tokens(p[|t|..]).value;
      ConcatCons(t, rest);
      assert p == t + p[|t|..];
      FirstTokenShape(p);
      var ts := [t] + rest;
      forall i | 0 <= i < |ts|
        ensures CompleteToken(ts[i]) || (i == |ts| - 1 && TrailingToken(ts[i]))
      {
        if i == 0 {
          if !CompleteToken(t) {
            assert p[|t|..] == [];
            assert rest == [];
          }
        } else {
          assert ts[i] == rest[i - 1];
        }
      }
    }
  }

  lemma ObjectTokenOfClosed(t: string, rest: string)
    requires ClosedObject(t)
    ensures ObjectToken(t + rest) == t
  {
    var s := t + rest;
    var k := |t| - 1;
    assert s[k] == ';';
    assert s[..k] == t[..k];
    assert ';' !in s[..k] by {
      forall j | 1 <= j < k ensures s[j] != ';' { assert s[j] == t[1..|t| - 1][j - 1]; }
    }
    assert IndexOf(s, ';') == Some(k);
    assert s[..k + 1] == t;
  }

  lemma ObjectTokenOfOpen(t: string)
    requires OpenObject(t)
    ensures ObjectToken(t) == t
  {
    assert ';' !in t by {
      forall j | 1 <= j < |t| ensures t[j] != ';' { assert t[j] == t[1..][j - 1]; }
    }
  }

  /** The tokeniser reads a complete token back from the front of any text. */
  lemma FirstTokenOfComplete(t: string, rest: string)
    requires CompleteToken(t)
    ensures FirstToken(t + rest) == Ok(t)
  {
    var p := t + rest;
    if |t| == 1 && IsPrimitive(t[0]) {
      assert p[..1] == t;
    } else if ClosedObject(t) {
      ObjectTokenOfClosed(t, rest);
    } else if |t| == 2 && t[0] == '[' && IsPrimitive(t[1]) {
      assert p[..2] == t;
    } else {
      assert p[1..] == t[1..] + rest;
      ObjectTokenOfClosed(t[1..], rest);
      assert "[" + t[1..] == t;
    }
  }

  lemma FirstTokenOfTrailing(t: string)
    requires TrailingToken(t)
    ensures FirstToken(t) == Ok(t)
  {
    if OpenObject(t) {
      ObjectTokenOfOpen(t);
    } else if t != "[" {
      ObjectTokenOfOpen(t[1..]);
      assert "[" + t[1..] == t;
    }
  }

  /** Completeness: any well-formed list of tokens is exactly what the
      tokeniser returns for their concatenation. With soundness, the
      tokeniser accepts a text iff it splits into such a list, and that
      split is unique. */
  lemma {:induction false} TokensComplete(ts: seq<string>)
    requires WellFormed(ts)
    ensures Tokens(Concat(ts)) == Ok(ts)
  {
    if ts != [] {
      var t := ts[0];
      var rest := ts[1..];
      ConcatCons(t, rest);
      assert ts == [t] + rest;
      var p := Concat(ts);
      assert WellFormed(rest) by {
        forall i | 0 <= i < |rest|
          ensures CompleteToken(rest[i]) || (i == |rest| - 1 && TrailingToken(rest[i]))
        {
          assert rest[i] == ts[i + 1];
        }
      }
      TokensComplete(rest);
      assert t != [] by {
        assert CompleteToken(t) || TrailingToken(t);
      }
      if CompleteToken(t) {
        FirstTokenOfComplete(t, Concat(rest));
      } else {
        assert rest == [];
        assert p == t;
        FirstTokenOfTrailing(t);
      }
      assert p[|t|..] == Concat(rest);
    }
  }

  /** Two array levels are refused: the tokeniser never accepts `[[`. */
  lemma DoubleArrayRejected(pre: seq<string>, rest: string)
    requires forall i :: 0 <= i < |pre| ==> CompleteToken(pre[i])
    ensures Tokens(Concat(pre) + "[[" + rest).Err?
  {
    TokensAfterComplete(pre, "[[" + rest);
    assert Concat(pre) + "[[" + rest == Concat(pre) + ("[[" + rest);
  }

  /** Complete tokens in front are read off one by one; the verdict on the
      rest is unchanged. */
  lemma {:induction false} TokensAfterComplete(pre: seq<string>, rest: string)
    requires forall i :: 0 <= i < |pre| ==> CompleteToken(pre[i])
    requires |rest| >= 2 && rest[0] == '[' && rest[1] == '['
    ensures Tokens(Concat(pre) + rest).Err?
  {
    if pre == [] {
      assert Concat(pre) + rest == rest;
      assert FirstToken(rest) == Err(InvalidArray);
    } else {
      var t := pre[0];
      ConcatCons(t, pre[1..]);
      assert pre == [t] + pre[1..];
      var p := Concat(pre) + rest;
      assert p == t + (Concat(pre[1..]) + rest);
      FirstTokenOfComplete(t, Concat(pre[1..]) + rest);
      assert p[|t|..] == Concat(pre[1..]) + rest;
      TokensAfterComplete(pre[1..], rest);
    }
  }

  /** The parameter list of a descriptor `(p)ret` is the tokens of `p`. */
  lemma ParameterTypesOfDescriptor(p: string, ret: string)
    requires ')' !in p
    ensures ParameterTypes("(" + p + ")" + ret) == if p == [] then Ok([]) else Tokens(p)
  {
    var s := "(" + p + ")" + ret;
    IndexOfAt(s, '(', 0);
    assert s[..|p| + 1] == "(" + p;
    IndexOfAt(s, ')', |p| + 1);
    assert s[1..|p| + 1] == p;
  }

  // The cases written out beside the tokeniser in the source (`()V`,
  // `(I)V`, `([I)V`, `(ILjava/lang/String;F)V`), for any return type `ret`,
  // primitive `c` and class name `n`; with `ParameterTypesOfDescriptor` the
  // token lists below are the results for `(p)ret`.

  lemma NoParameters(ret: string)
    ensures ParameterTypes("()" + ret) == Ok([])
  {
    ParameterTypesOfDescriptor("", ret);
    assert "(" + "" + ")" + ret == "()" + ret;
  }

  lemma PrimitiveParameter(c: char)
    requires IsPrimitive(c)
    ensures Tokens([c]) == Ok([[c]])
  {
    assert [c][..1] == [c] && [c][1..] == [];
    assert [[c]] + [] == [[c]];
  }

  lemma PrimitiveArrayParameter(c: char)
    requires IsPrimitive(c)
    ensures Tokens("[" + [c]) == Ok(["[" + [c]])
  {
    var a := "[" + [c];
    assert a[..2] == a && a[2..] == [];
    assert [a] + [] == [a];
  }

  lemma ObjectBetweenPrimitives(n: string)
    requires NoSemicolon(n)
    ensures Tokens("I" + ("L" + n + ";") + "F") == Ok(["I", "L" + n + ";", "F"])
  {
    var o := "L" + n + ";";
    var ts := ["I", o, "F"];
    ConcatCons("I", ts[1..]);
    assert ts == ["I"] + ts[1..];
    ConcatCons(o, ["F"]);
    assert ts[1..] == [o] + ["F"];
    ConcatCons("F", []);
    assert ["F"] == ["F"] + [];
    assert o[1..|o| - 1] == n;
    assert WellFormed(ts);
    assert Concat(ts) == "I" + o + "F";
    TokensComplete(ts);
  }

  /** The descriptor errors: no `(`, no `)`, or `)` first. */
  lemma ParameterTypesErrors(sig: string)
    ensures '(' !in sig ==> ParameterTypes(sig) == Err(MissingOpen)
    ensures '(' in sig && ')' !in sig ==> ParameterTypes(sig) == Err(MissingClose)
    ensures '(' in sig && ')' in sig && IndexOf(sig, '(').value > IndexOf(sig, ')').value
            ==> ParameterTypes(sig) == Err(MalformedParentheses)
  {
  }

  lemma {:induction false} ConcatAppend(a: seq<string>, b: seq<string>)
    ensures Concat(a + b) == Concat(a) + Concat(b)
  {
    if a == [] {
      assert a + b == b;
    } else {
      assert (a + b)[1..] == a[1..] + b && (a + b)[0] == a[0];
      ConcatAppend(a[1..], b);
    }
  }

  lemma {:induction false} ConcatAvoids(ts: seq<string>, c: char)
    requires forall i :: 0 <= i < |ts| ==> c !in ts[i]
    ensures c !in Concat(ts)
  {
    if ts != [] {
      ConcatAvoids(ts[1..], c);
    }
  }

  /** A descriptor whose parameters are complete tokens without `)` gives
      those tokens back, in order. */
  lemma DescriptorRoundTrip(ps: seq<string>, ret: string)
    requires forall i :: 0 <= i < |ps| ==> CompleteToken(ps[i]) && ')' !in ps[i]
    ensures ParameterTypes("(" + Concat(ps) + ")" + ret) == Ok(ps)
  {
    ConcatAvoids(ps, ')');
    ParameterTypesOfDescriptor(Concat(ps), ret);
    assert WellFormed(ps);
    TokensComplete(ps);
    if ps != [] {
      assert ps[0] != [];
      ConcatCons(ps[0], ps[1..]);
      SeqCons(ps);
    }
  }

  /** A parameter starting with `[[` after complete ones makes the whole
      descriptor fail to parse. */
  lemma DescriptorDeepArray(ps: seq<string>, ret: string, i: nat)
    requires i < |ps| && |ps[i]| >= 2 && ps[i][0] == '[' && ps[i][1] == '['
    requires forall j :: 0 <= j < |ps| ==> ')' !in ps[j]
    requires forall j :: 0 <= j < i ==> CompleteToken(ps[j])
    ensures ParameterTypes("(" + Concat(ps) + ")" + ret).Err?
  {
    ConcatAvoids(ps, ')');
    ParameterTypesOfDescriptor(Concat(ps), ret);
    var d := ps[i];
    SeqAround(ps, i);
    ConcatAppend(ps[..i], [d] + ps[i + 1..]);
    ConcatCons(d, ps[i + 1..]);
    var rest := d + Concat(ps[i + 1..]);
    assert rest[0] == d[0] && rest[1] == d[1];
    TokensAfterComplete(ps[..i], rest);
  }

  // ---------------------------------------------------------------------
  // Argument grading

  /** The descriptor letter of a primitive kind. */
  function KindLetter(v: JValue): Option<char>
  {
    match v
    case Bool => Some('Z')
    case Byte => Some('B')
    case Char => Some('C')
    case Short => Some('S')
    case Int => Some('I')
    case Long => Some('J')
    case Float => Some('F')
    case Double => Some('D')
    case _ => None
  }

  /** `check_type_compatibility`: the primitive table, then the object,
      array and null arms, in the source's order. */
  function CheckTypeCompatibility(t: string, v: JValue, jvm: Jvm): SignatureMatch
  {
    if |t| == 1 && KindLetter(v) == Some(t[0]) then Exact
    else if t == "I" && (v.Byte? || v.Short? || v.Char?) then Compatible
    else if t == "J" && (v.Byte? || v.Short? || v.Char? || v.Int?) then Compatible
    else if t == "F" && (v.Byte? || v.Short? || v.Char? || v.Int?) then Compatible
    else if t == "D" && (v.Byte? || v.Short? || v.Char? || v.Int? || v.Long? || v.Float?) then Compatible
    else if v.Object? && |t| >= 1 && t[0] == 'L' && t[|t| - 1] == ';' then
      CheckObjectType(t, v, jvm)
    else if v.Object? && |t| >= 1 && t[0] == '[' then
      CheckArrayType(t, v, jvm)
    else if v.Object? && |t| >= 1 && t[0] == 'L' then
      if v.isNull then Compatible else Incompatible
    else Incompatible
  }

  /** `check_object_type_compatibility`: null and `java/lang/Object` are
      Compatible outright; then the same class is Exact, an instance
      Compatible, and a listed subtype pair by name Compatible. */
  function CheckObjectType(t: string, v: JValue, jvm: Jvm): SignatureMatch
    requires v.Object? && |t| >= 2 && t[0] == 'L' && t[|t| - 1] == ';'
  {
    var expected := t[1..|t| - 1];
    if v.isNull then Compatible
    else if expected == "java/lang/Object" then Compatible
    else if !jvm.attached || !jvm.hasClass(v.handle) then Incompatible
    else if jvm.found(expected) && jvm.sameClass(v.handle, expected) then Exact
    else if jvm.found(expected) && jvm.instanceOf(v.handle, expected) then Compatible
    else match jvm.nameOf(v.handle)
      case Some(n) => if AreCompatibleTypes(Slashed(n), expected) then Compatible else Incompatible
      case None => Incompatible
  }

  /** `check_array_type_compatibility`: null is Compatible; an array object
      whose class name is the descriptor is Exact, one with a compatible
      array type Compatible. */
  function CheckArrayType(t: string, v: JValue, jvm: Jvm): SignatureMatch
    requires v.Object?
  {
    if v.isNull then Compatible
    else if !jvm.attached || !jvm.hasClass(v.handle) then Incompatible
    else match jvm.nameOf(v.handle)
      case None => Incompatible
      case Some(n) =>
        var name := Slashed(n);
        if name == [] || name[0] != '[' then Incompatible
        else if name == t then Exact
        else if AreCompatibleArrayTypes(name, t) then Compatible
        else Incompatible
  }

  /** Rank along the widening chain byte < short < int < long < float <
      double; `char` sits beside `short`. */
  function Rank(c: char): nat
  {
    if c == 'B' then 1 else if c == 'S' || c == 'C' then 2 else if c == 'I' then 3
    else if c == 'J' then 4 else if c == 'F' then 5 else if c == 'D' then 6 else 0
  }

  /** Widening primitive conversion, section 5.1.2 of the Java Language
      Specification. */
  predicate JlsWidens(from: char, to: char)
  {
    IsPrimitive(from) && IsPrimitive(to) && from != 'Z' && to != 'Z' && to != 'C'
    && Rank(from) < Rank(to)
  }

  /** Grading of primitives: Exact iff the letters agree; Compatible exactly
      for the Java widenings other than byte to short and long to float,
      which the source's table omits; Incompatible otherwise. */
  lemma PrimitiveGrading(t: char, v: JValue, jvm: Jvm)
    requires IsPrimitive(t) && KindLetter(v).Some?
    ensures var g := CheckTypeCompatibility([t], v, jvm);
            var k := KindLetter(v).value;
            && (g == Exact <==> k == t)
            && (g == Compatible <==> JlsWidens(k, t) && !(k == 'B' && t == 'S') && !(k == 'J' && t == 'F'))
  {
  }

  /** The grading arms for object and void arguments. */
  lemma ObjectGrading(t: string, v: JValue, jvm: Jvm)
    ensures v.Void? ==> CheckTypeCompatibility(t, v, jvm) == Incompatible
    ensures v.Object? && v.isNull && |t| >= 1 && (t[0] == 'L' || t[0] == '[')
            ==> CheckTypeCompatibility(t, v, jvm) == Compatible
    ensures v.Object? && (|t| == 0 || (t[0] != 'L' && t[0] != '['))
            ==> CheckTypeCompatibility(t, v, jvm) == Incompatible
    ensures KindLetter(v).Some? && !(|t| == 1 && IsPrimitive(t[0]))
            ==> CheckTypeCompatibility(t, v, jvm) == Incompatible
  {
  }

  /** An object argument against `Ln;`: `java/lang/Object` takes anything;
      otherwise Exact exactly when the JVM finds `n` and it is the object's
      own class, and nothing fits while the JVM cannot be asked. */
  lemma ObjectClassGrading(n: string, v: JValue, jvm: Jvm)
    requires v.Object? && !v.isNull
    ensures var g := CheckTypeCompatibility("L" + n + ";", v, jvm);
            && (n == "java/lang/Object" ==> g == Compatible)
            && (n != "java/lang/Object" ==>
                  && (g == Exact <==> jvm.attached && jvm.hasClass(v.handle) && jvm.found(n) && jvm.sameClass(v.handle, n))
                  && (!jvm.attached ==> g == Incompatible))
  {
    var t := "L" + n + ";";
    assert t[1..|t| - 1] == n;
  }

  /** A non-null object against an array descriptor: Exact exactly when its
      class name is the descriptor; Compatible only for an array class
      whose type the component rule accepts. */
  lemma ArrayGrading(t: string, v: JValue, jvm: Jvm)
    requires v.Object? && !v.isNull && |t| >= 1 && t[0] == '['
    ensures var g := CheckTypeCompatibility(t, v, jvm);
            && (g == Exact <==>
                  jvm.attached && jvm.hasClass(v.handle) && jvm.nameOf(v.handle).Some?
                  && Slashed(jvm.nameOf(v.handle).value) == t)
            && (g == Compatible ==>
                  jvm.nameOf(v.handle).Some? && AreCompatibleArrayTypes(Slashed(jvm.nameOf(v.handle).value), t))
  {
  }

  /** The three grading cases written out beside the source. */
  lemma GradingExamples(jvm: Jvm)
    ensures CheckTypeCompatibility("I", Int, jvm) == Exact
    ensures CheckTypeCompatibility("I", Byte, jvm) == Compatible
    ensures CheckTypeCompatibility("I", Double, jvm) == Incompatible
  {
  }

  /** How well a descriptor fits an argument list: Incompatible if it does
      not parse, the counts differ, or one argument is Incompatible; Exact
      if every argument is Exact; Compatible otherwise. */
  function SignatureGrade(sig: string, args: seq<JValue>, jvm: Jvm): SignatureMatch
  {
    match ParameterTypes(sig)
    case Err(_) => Incompatible
    case Ok(ps) => if |ps| != |args| then Incompatible else Verdict(ArgumentGrades(ps, args, jvm))
  }

  /** The grade of each argument against its parameter type, in order. */
  function ArgumentGrades(ps: seq<string>, args: seq<JValue>, jvm: Jvm): (gs: seq<SignatureMatch>)
    requires |ps| == |args|
    ensures |gs| == |ps|
  {
    if ps == [] then [] else [CheckTypeCompatibility(ps[0], args[0], jvm)] + ArgumentGrades(ps[1..], args[1..], jvm)
  }

  lemma {:induction false} ArgumentGradeAt(ps: seq<string>, args: seq<JValue>, jvm: Jvm, i: nat)
    requires |ps| == |args| && i < |ps|
    ensures ArgumentGrades(ps, args, jvm)[i] == CheckTypeCompatibility(ps[i], args[i], jvm)
  {
    if i > 0 {
      ArgumentGradeAt(ps[1..], args[1..], jvm, i - 1);
    }
  }

  /** Incompatible if any grade is, else Exact if all are, else Compatible. */
  function Verdict(gs: seq<SignatureMatch>): SignatureMatch
  {
    if Incompatible in gs then Incompatible
    else if forall i :: 0 <= i < |gs| ==> gs[i] == Exact then Exact
    else Compatible
  }

  lemma TallyStep(gs: seq<SignatureMatch>, i: nat, exact: nat)
    requires i < |gs| && gs[i] != Incompatible && exact <= i
    requires forall j :: 0 <= j < i ==> gs[j] != Incompatible
    requires exact == i <==> forall j :: 0 <= j < i ==> gs[j] == Exact
    ensures forall j :: 0 <= j < i + 1 ==> gs[j] != Incompatible
    ensures (if gs[i] == Exact then exact + 1 else exact) == i + 1 <==> forall j :: 0 <= j < i + 1 ==> gs[j] == Exact
  {
  }

  /** `evaluate_signature_compatibility`: counts exact and compatible
      arguments and stops at the first incompatible one. */
  method EvaluateSignatureCompatibility(sig: string, args: seq<JValue>, jvm: Jvm)
    returns (r: SignatureMatch)
    ensures r == SignatureGrade(sig, args, jvm)
  {
    var parsed := ExtractParameterTypes(sig);
    if parsed.Err? { return Incompatible; }
    var paramTypes := parsed.value;
    if |paramTypes| != |args| { return Incompatible; }

    ghost var grades := ArgumentGrades(paramTypes, args, jvm);
    assert SignatureGrade(sig, args, jvm) == Verdict(grades);
    var exactMatches := 0;
    var compatibleMatches := 0;
    var i := 0;
    while i < |paramTypes|
      invariant 0 <= i <= |paramTypes|
      invariant exactMatches + compatibleMatches == i
      invariant forall j :: 0 <= j < i ==> grades[j] != Incompatible
      invariant exactMatches == i <==> forall j :: 0 <= j < i ==> grades[j] == Exact
    {
      ArgumentGradeAt(paramTypes, args, jvm, i);
      match CheckTypeCompatibility(paramTypes[i], args[i], jvm) {
        case Exact =>
          TallyStep(grades, i, exactMatches);
          exactMatches := exactMatches + 1;
        case Compatible =>
          TallyStep(grades, i, exactMatches);
          compatibleMatches := compatibleMatches + 1;
        case Incompatible => return Incompatible;
      }
      i := i + 1;
    }

    if exactMatches == |args| {
      r := Exact;
    } else if exactMatches + compatibleMatches == |args| {
      r := Compatible;
    } else {
      assert false;
      r := Incompatible;
    }
  }

  /** The grade spelled out argument by argument: Incompatible if the
      descriptor does not parse, the counts differ or some argument is
      Incompatible; Exact if every argument is Exact; Compatible otherwise. */
  lemma SignatureGradeMeaning(sig: string, args: seq<JValue>, jvm: Jvm)
    ensures SignatureGrade(sig, args, jvm) == Incompatible <==>
      (ParameterTypes(sig).Err? || |ParameterTypes(sig).value| != |args| ||
       exists i :: 0 <= i < |args| && CheckTypeCompatibility(ParameterTypes(sig).value[i], args[i], jvm) == Incompatible)
    ensures SignatureGrade(sig, args, jvm) == Exact <==>
      (ParameterTypes(sig).Ok? && |ParameterTypes(sig).value| == |args| &&
       forall i :: 0 <= i < |args| ==> CheckTypeCompatibility(ParameterTypes(sig).value[i], args[i], jvm) == Exact)
  {
    if ParameterTypes(sig).Ok? && |ParameterTypes(sig).value| == |args| {
      var ps := ParameterTypes(sig).value;
      var gs := ArgumentGrades(ps, args, jvm);
      forall i | 0 <= i < |args|
        ensures gs[i] == CheckTypeCompatibility(ps[i], args[i], jvm)
      {
        ArgumentGradeAt(ps, args, jvm, i);
      }
    }
  }

  /** Zero parameters against zero arguments is an exact fit. */
  lemma EmptySignatureExact(ret: string, jvm: Jvm)
    ensures SignatureGrade("()" + ret, [], jvm) == Exact
  {
    assert IndexOf("()" + ret, '(') == Some(0);
    assert IndexOf("()" + ret, ')') == Some(1);
  }

  // ---------------------------------------------------------------------
  // Lookups and overload choice

  function GetMethods(c: MinecraftClass, name: string): (r: Outcome<seq<Method>>)
    ensures r.Found? <==> name in c.methods
    ensures r.Found? ==> r.value == c.methods[name]
    ensures r.Failed? ==> r.error == MethodNotFound(name)
  {
    if name in c.methods then Found(c.methods[name]) else Failed(MethodNotFound(name))
  }

  /** `get_method` unwraps the lookup (a panic when the name is absent) and
      takes the first overload. */
  function GetMethod(c: MinecraftClass, name: string): (r: Outcome<Method>)
    ensures r.Panic? <==> name !in c.methods
    ensures r.Found? <==> name in c.methods && c.methods[name] != []
    ensures r.Found? ==> r.value == c.methods[name][0]
  {
    if name !in c.methods then Panic
    else if c.methods[name] == [] then Failed(MethodNotFound(name))
    else Found(c.methods[name][0])
  }

  /** The first overload whose signature is `sig`. */
  function FindBySignature(ms: seq<Method>, sig: string): (k: nat)
    ensures k <= |ms|
    ensures forall j :: 0 <= j < k ==> ms[j].signature != sig
    ensures k < |ms| ==> ms[k].signature == sig
  {
    if ms == [] then 0
    else if ms[0].signature == sig then 0
    else 1 + FindBySignature(ms[1..], sig)
  }

  function GetMethodBySignature(c: MinecraftClass, name: string, sig: string): (r: Outcome<Method>)
    ensures name !in c.methods ==> r == Failed(MethodNotFound(name))
    ensures r.Found? ==> exists k :: 0 <= k < |c.methods[name]| && c.methods[name][k] == r.value
                              && r.value.signature == sig
                              && forall j :: 0 <= j < k ==> c.methods[name][j].signature != sig
    ensures name in c.methods && r.Failed? ==>
              r.error == SignatureNotFound(name, sig) && forall m :: m in c.methods[name] ==> m.signature != sig
    ensures !r.Panic?
  {
    if name !in c.methods then Failed(MethodNotFound(name))
    else
      var ms := c.methods[name];
      var k := FindBySignature(ms, sig);
      if k < |ms| then Found(ms[k]) else Failed(SignatureNotFound(name, sig))
  }

  function GetField(c: MinecraftClass, name: string): (r: Outcome<Field>)
    ensures r.Found? <==> name in c.fields
    ensures r.Found? ==> r.value == c.fields[name]
    ensures r.Failed? ==> r.error == FieldNotFound(name)
  {
    if name in c.fields then Found(c.fields[name]) else Failed(FieldNotFound(name))
  }

  /** The grade of every overload against the arguments, in list order. */
  function Grades(ms: seq<Method>, args: seq<JValue>, jvm: Jvm): (g: seq<SignatureMatch>)
    ensures |g| == |ms|
  {
    if ms == [] then [] else [SignatureGrade(ms[0].signature, args, jvm)] + Grades(ms[1..], args, jvm)
  }

  lemma {:induction false} GradeOf(ms: seq<Method>, args: seq<JValue>, jvm: Jvm, i: nat)
    requires i < |ms|
    ensures Grades(ms, args, jvm)[i] == SignatureGrade(ms[i].signature, args, jvm)
  {
    if i > 0 {
      GradeOf(ms[1..], args, jvm, i - 1);
    }
  }

  /** The first position holding `x`, or `|g|`. */
  function FirstWith(g: seq<SignatureMatch>, x: SignatureMatch): (k: nat)
    ensures k <= |g| && (k < |g| ==> g[k] == x)
    ensures forall j :: 0 <= j < k ==> g[j] != x
  {
    if g == [] then 0 else if g[0] == x then 0 else 1 + FirstWith(g[1..], x)
  }

  /** The last position holding `x`, if any. */
  function LastWith(g: seq<SignatureMatch>, x: SignatureMatch): (k: Option<nat>)
    ensures k.Some? ==> k.value < |g| && g[k.value] == x
    ensures k.Some? ==> forall j :: k.value < j < |g| ==> g[j] != x
    ensures k.None? <==> x !in g
  {
    if g == [] then None
    else if g[|g| - 1] == x then Some(|g| - 1)
    else
      var k := LastWith(g[..|g| - 1], x);
      assert g == g[..|g| - 1] + [g[|g| - 1]];
      k
  }

  lemma {:induction false} FirstWithAt(g: seq<SignatureMatch>, x: SignatureMatch, i: nat)
    requires i < |g| && g[i] == x && x !in g[..i]
    ensures FirstWith(g, x) == i
  {
    if i > 0 {
      assert g[0] == g[..i][0];
      assert g[1..][..i - 1] == g[..i][1..];
      FirstWithAt(g[1..], x, i - 1);
    }
  }

  lemma LastWithSnoc(g: seq<SignatureMatch>, y: SignatureMatch, x: SignatureMatch)
    ensures LastWith(g + [y], x) == if y == x then Some(|g|) else LastWith(g, x)
  {
    assert (g + [y])[..|g|] == g;
  }

  /** The overload the source settles on: a lone overload always; otherwise
      the first Exact; otherwise the last Compatible; otherwise the first
      overload, which is a panic when there is none. */
  function ChooseOverload(ms: seq<Method>, args: seq<JValue>, jvm: Jvm): Outcome<Method>
  {
    var g := Grades(ms, args, jvm);
    if |ms| == 1 then Found(ms[0])
    else if Exact in g then Found(ms[FirstWith(g, Exact)])
    else if Compatible in g then Found(ms[LastWith(g, Compatible).value])
    else if ms == [] then Panic
    else Found(ms[0])
  }

  /** Whenever there is an overload, the choice is one of them. */
  lemma ChoiceIsOverload(ms: seq<Method>, args: seq<JValue>, jvm: Jvm)
    requires ms != []
    ensures ChooseOverload(ms, args, jvm).Found?
    ensures ChooseOverload(ms, args, jvm).value in ms
  {
  }

  /** With several overloads, an Exact one always beats every Compatible
      one, wherever they stand in the list. */
  lemma ExactBeatsCompatible(ms: seq<Method>, args: seq<JValue>, jvm: Jvm, e: nat)
    requires |ms| > 1 && e < |ms| && Grades(ms, args, jvm)[e] == Exact
    ensures exists k :: 0 <= k <= e && ChooseOverload(ms, args, jvm) == Found(ms[k])
                     && Grades(ms, args, jvm)[k] == Exact
  {
    var g := Grades(ms, args, jvm);
    assert g[e] in g;
    var k := FirstWith(g, Exact);
    assert k <= e;
  }

  /** With several overloads the choice is, by grade: the earliest Exact
      one; failing that the latest Compatible one; failing that the
      first overload. */
  lemma OverloadChoice(ms: seq<Method>, args: seq<JValue>, jvm: Jvm)
    requires |ms| > 1
    ensures var g := Grades(ms, args, jvm);
      exists k :: 0 <= k < |ms| && ChooseOverload(ms, args, jvm) == Found(ms[k])
        && (Exact in g ==> g[k] == Exact && forall j :: 0 <= j < k ==> g[j] != Exact)
        && (Exact !in g && Compatible in g ==>
              g[k] == Compatible && forall j :: k < j < |ms| ==> g[j] != Compatible)
        && (Exact !in g && Compatible !in g ==> k == 0)
  {
    var g := Grades(ms, args, jvm);
    var k := if Exact in g then FirstWith(g, Exact)
             else if Compatible in g then LastWith(g, Compatible).value
             else 0;
    assert ChooseOverload(ms, args, jvm) == Found(ms[k]);
  }

  /** The scan's exits: an Exact overload with none before it is the
      choice, and past the end the latest Compatible one or the first. */
  lemma ChooseExactAt(ms: seq<Method>, args: seq<JValue>, jvm: Jvm, i: nat)
    requires |ms| > 1 && i < |ms|
    requires Grades(ms, args, jvm)[i] == Exact && Exact !in Grades(ms, args, jvm)[..i]
    ensures ChooseOverload(ms, args, jvm) == Found(ms[i])
  {
    var g := Grades(ms, args, jvm);
    assert g[i] in g;
    FirstWithAt(g, Exact, i);
  }

  lemma ChooseAfterScan(ms: seq<Method>, args: seq<JValue>, jvm: Jvm, best: Option<nat>)
    requires |ms| != 1
    requires Exact !in Grades(ms, args, jvm) && best == LastWith(Grades(ms, args, jvm), Compatible)
    ensures ChooseOverload(ms, args, jvm) ==
      if best.Some? then Found(ms[best.value]) else if ms == [] then Panic else Found(ms[0])
  {
  }

  /** `get_method_by_args`: returns a lone overload at once; otherwise scans
      the list, returning the first Exact and remembering the latest
      Compatible. */
  method GetMethodByArgs(c: MinecraftClass, name: string, args: seq<JValue>, jvm: Jvm)
    returns (r: Outcome<Method>)
    ensures name !in c.methods ==> r == Failed(MethodNotFound(name))
    ensures name in c.methods ==> r == ChooseOverload(c.methods[name], args, jvm)
  {
    var found := GetMethods(c, name);
    if !found.Found? { return Failed(MethodNotFound(name)); }
    var methods := found.value;
    if |methods| == 1 { return Found(methods[0]); }

    ghost var g := Grades(methods, args, jvm);
    var bestMethod: Option<nat> := None;
    var bestMatchQuality := Incompatible;
    var i := 0;
    while i < |methods|
      invariant 0 <= i <= |methods|
      invariant Exact !in g[..i]
      invariant bestMethod == LastWith(g[..i], Compatible)
      invariant bestMatchQuality != Exact
    {
      var matchQuality := EvaluateSignatureCompatibility(methods[i].signature, args, jvm);
      GradeOf(methods, args, jvm, i);
      assert matchQuality == g[i];
      if matchQuality == Exact {
        ChooseExactAt(methods, args, jvm, i);
        return Found(methods[i]);
      }
      if matchQuality == Compatible && bestMatchQuality != Exact {
        bestMethod := Some(i);
        bestMatchQuality := matchQuality;
      }
      SliceSnoc(g, i);
      assert Exact !in g[..i] + [g[i]];
      LastWithSnoc(g[..i], g[i], Compatible);
      i := i + 1;
    }
    assert g[..i] == g;
    ChooseAfterScan(methods, args, jvm, bestMethod);
    match bestMethod {
      case Some(k) =>
        r := Found(methods[k]);
      case None =>
        if methods == [] {
          r := Panic;
        } else {
          r := Found(methods[0]);
        }
    }
  }

  // ---------------------------------------------------------------------
  // Class-name and array compatibility

  /** `are_compatible_types`: equal names, or one of the five listed
      subtype pairs. */
  function AreCompatibleTypes(actual: string, expected: string): (r: bool)
    ensures actual == expected ==> r
    ensures r && actual != expected ==>
      expected in {"java/lang/CharSequence", "java/util/List", "java/util/Set", "java/util/Map"}
  {
    actual == expected
    || (actual == "java/lang/String" && expected == "java/lang/CharSequence")
    || (actual == "java/util/ArrayList" && expected == "java/util/List")
    || (actual == "java/util/LinkedList" && expected == "java/util/List")
    || (actual == "java/util/HashSet" && expected == "java/util/Set")
    || (actual == "java/util/HashMap" && expected == "java/util/Map")
  }

  /** The component of an array descriptor: everything after a leading `[`. */
  function ExtractArrayComponentType(t: string): (r: Option<string>)
    ensures r.Some? <==> |t| > 1 && t[0] == '['
    ensures r.Some? ==> "[" + r.value == t && r.value != []
  {
    if |t| > 1 && t[0] == '[' then
      assert "[" + t[1..] == t;
      Some(t[1..])
    else None
  }

  /** `are_compatible_array_types` as written: when exactly one of two `L`
      components is the bare `L`, slicing `[1..len - 1]` of it panics
      (shown by `ArrayTypesPanic`). */
  function AreCompatibleArrayTypesAsWritten(actual: string, expected: string): (r: Option<bool>)
    ensures r.None? <==> exists a, e :: ExtractArrayComponentType(actual) == Some(a)
                                      && ExtractArrayComponentType(expected) == Some(e)
                                      && !(|a| == 1 && |e| == 1) && a[0] == 'L' && e[0] == 'L'
                                      && (|a| == 1 || |e| == 1)
  {
    match (ExtractArrayComponentType(actual), ExtractArrayComponentType(expected))
    case (Some(a), Some(e)) =>
      if |a| == 1 && |e| == 1 then Some(a == e)
      else if a[0] == 'L' && e[0] == 'L' then
        if |a| < 2 || |e| < 2 then None
        else Some(AreCompatibleTypes(a[1..|a| - 1], e[1..|e| - 1]))
      else Some(false)
    case _ => Some(false)
  }

  /** A JVM array class name against the descriptor `[L` (from the
      unterminated `([L)V`) makes the source panic. */
  lemma ArrayTypesPanic()
    ensures AreCompatibleArrayTypesAsWritten("[Ljava/lang/String;", "[L").None?
  {
    assert ExtractArrayComponentType("[Ljava/lang/String;") == Some("Ljava/lang/String;");
    assert ExtractArrayComponentType("[L") == Some("L");
  }

  /** Where the code panics, the model's grading goes on: a non-null
      array of objects (such as `java.lang.String[]`) graded against the
      bare `[L` of the signature `([L)V` is incompatible. */
  lemma GradingWherePanics(jvm: Jvm, h: nat, n: string)
    requires jvm.attached && jvm.hasClass(h) && jvm.nameOf(h) == Some(n)
    requires |n| > 2 && n[0] == '[' && n[1] == 'L'
    ensures AreCompatibleArrayTypesAsWritten(Slashed(n), "[L").None?
    ensures CheckTypeCompatibility("[L", Object(false, h), jvm) == Incompatible
  {
    var name := Slashed(n);
    assert name[0] == '[' && name[1] == 'L' && |name| > 2;
    assert name != "[L";
    assert ExtractArrayComponentType(name) == Some(name[1..]);
    assert ExtractArrayComponentType("[L") == Some("L");
  }

  /** `are_compatible_array_types` with the panicking slice read as "not
      compatible": one-character components must be equal; object
      components must have compatible class names; nothing else is
      compatible. */
  function AreCompatibleArrayTypes(actual: string, expected: string): bool
  {
    match (ExtractArrayComponentType(actual), ExtractArrayComponentType(expected))
    case (Some(a), Some(e)) =>
      if |a| == 1 && |e| == 1 then a == e
      else if a[0] == 'L' && e[0] == 'L' && |a| >= 2 && |e| >= 2 then
        AreCompatibleTypes(a[1..|a| - 1], e[1..|e| - 1])
      else false
    case _ => false
  }

  /** The tokeniser yields the bare `[L` from the unterminated `([L)V`. */
  lemma BareArrayObjectToken()
    ensures Tokens("[L") == Ok(["[L"])
  {
    assert ObjectToken("L") == "L";
    assert "[" + "L" == "[L";
    assert "[L"[2..] == [];
    assert ["[L"] + [] == ["[L"];
  }

  /** The corrected function agrees with the source wherever the source does
      not panic; it accepts only array descriptors, and a one-letter
      component only against the same one letter. */
  lemma ArrayTypesCompatibility(actual: string, expected: string)
    ensures AreCompatibleArrayTypesAsWritten(actual, expected).Some? ==>
            AreCompatibleArrayTypesAsWritten(actual, expected).value == AreCompatibleArrayTypes(actual, expected)
    ensures AreCompatibleArrayTypes(actual, expected) ==>
            |actual| >= 2 && actual[0] == '[' && |expected| >= 2 && expected[0] == '['
    ensures AreCompatibleArrayTypes(actual, expected) && (|actual| == 2 || |expected| == 2) ==>
            actual == expected
    ensures |actual| == 2 && actual[0] == '[' ==> AreCompatibleArrayTypes(actual, actual)
  {
    if |actual| > 1 && actual[0] == '[' && |expected| > 1 && expected[0] == '[' {
      assert ExtractArrayComponentType(actual) == Some(actual[1..]);
      assert ExtractArrayComponentType(expected) == Some(expected[1..]);
      if |actual| == 2 && |expected| == 2 {
        assert actual == "[" + actual[1..] && expected == "[" + expected[1..];
      }
    }
  }

  /** Arrays of classes are compatible exactly when their class names are. */
  lemma ObjectArrayTypes(x: string, y: string)
    ensures AreCompatibleArrayTypes("[L" + x + ";", "[L" + y + ";") <==> AreCompatibleTypes(x, y)
  {
    var actual, expected := "[L" + x + ";", "[L" + y + ";";
    assert actual[1..] == "L" + x + ";" && expected[1..] == "L" + y + ";";
    assert ("L" + x + ";")[1..|x| + 1] == x;
    assert ("L" + y + ";")[1..|y| + 1] == y;
  }

  // ---------------------------------------------------------------------
  // Reading the `methods` object

  function AsVec(v: MethodOrVec): seq<Method>
  {
    match v
    case Single(m) => [m]
    case Multiple(ms) => ms
  }

  /** Every member of a `methods` object read as a list of overloads. */
  function Decoded(obj: map<string, MethodOrVec>): map<string, seq<Method>>
  {
    map k | k in obj :: AsVec(obj[k])
  }

  /** Reading the members of the `methods` object in order, each one
      overwriting its key. */
  function Decode(entries: seq<(string, MethodOrVec)>): map<string, seq<Method>>
  {
    if entries == [] then map[]
    else
      var last := entries[|entries| - 1];
      Decode(entries[..|entries| - 1])[last.0 := AsVec(last.1)]
  }

  /** `deserialize_methods`: a single method becomes a one-element list, an
      array is taken as it is. */
  method DeserializeMethods(entries: seq<(string, MethodOrVec)>) returns (methods: map<string, seq<Method>>)
    ensures methods == Decode(entries)
  {
    methods := map[];
    var n := 0;
    while n < |entries|
      invariant 0 <= n <= |entries|
      invariant methods == Decode(entries[..n])
    {
      assert entries[..n + 1][..n] == entries[..n];
      var (key, value) := entries[n];
      match value {
        case Single(m) => methods := methods[key := [m]];
        case Multiple(methodVec) => methods := methods[key := methodVec];
      }
      n := n + 1;
    }
    assert entries[..n] == entries;
  }

  function KeysOf(entries: seq<(string, MethodOrVec)>): set<string>
  {
    set i | 0 <= i < |entries| :: entries[i].0
  }

  /** The decoded keys are exactly the keys read. */
  lemma {:induction false} DecodeKeys(entries: seq<(string, MethodOrVec)>)
    ensures Decode(entries).Keys == KeysOf(entries)
  {
    if entries != [] {
      var init := entries[..|entries| - 1];
      var last := entries[|entries| - 1];
      DecodeKeys(init);
      assert KeysOf(entries) == KeysOf(init) + {last.0} by {
        forall k | k in KeysOf(entries) ensures k in KeysOf(init) + {last.0} {
          var i :| 0 <= i < |entries| && entries[i].0 == k;
          if i < |init| { assert init[i] == entries[i]; }
        }
        forall k | k in KeysOf(init) ensures k in KeysOf(entries) {
          var i :| 0 <= i < |init| && init[i].0 == k;
          assert entries[i] == init[i];
        }
      }
    }
  }

  /** A repeated key keeps the value of its last occurrence. */
  lemma {:induction false} DecodeLastWins(entries: seq<(string, MethodOrVec)>, i: nat)
    requires i < |entries|
    requires forall j :: i < j < |entries| ==> entries[j].0 != entries[i].0
    ensures entries[i].0 in Decode(entries) && Decode(entries)[entries[i].0] == AsVec(entries[i].1)
  {
    if i < |entries| - 1 {
      var init := entries[..|entries| - 1];
      assert init[i] == entries[i];
      assert entries[|entries| - 1].0 != entries[i].0;
      DecodeLastWins(init, i);
    }
  }

  /** Keys that occur once decode to their own value. */
  lemma DecodeDistinct(entries: seq<(string, MethodOrVec)>, i: nat)
    requires forall a, b :: 0 <= a < b < |entries| ==> entries[a].0 != entries[b].0
    requires i < |entries|
    ensures entries[i].0 in Decode(entries) && Decode(entries)[entries[i].0] == AsVec(entries[i].1)
  {
    DecodeLastWins(entries, i);
  }

  /** The members of a JSON object written out in some order, each key once. */
  predicate IsListing(entries: seq<(string, MethodOrVec)>, obj: map<string, MethodOrVec>)
  {
    && (forall a, b :: 0 <= a < b < |entries| ==> entries[a].0 != entries[b].0)
    && obj.Keys == KeysOf(entries)
    && (forall i :: 0 <= i < |entries| ==> entries[i].0 in obj && obj[entries[i].0] == entries[i].1)
  }

  /** Reading any listing of a JSON object's members, each key once, gives
      every key's value as an overload list. */
  lemma DecodeListing(entries: seq<(string, MethodOrVec)>, obj: map<string, MethodOrVec>)
    requires IsListing(entries, obj)
    ensures Decode(entries) == Decoded(obj)
  {
    var r := Decode(entries);
    var m := Decoded(obj);
    assert r.Keys == m.Keys by { DecodeKeys(entries); }
    forall k | k in m ensures r[k] == m[k] {
      var i :| 0 <= i < |entries| && entries[i].0 == k;
      DecodeDistinct(entries, i);
    }
  }
}
