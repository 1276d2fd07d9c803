/** Game versions: three unsigned 32-bit components, ordered
    lexicographically, printed and parsed as `major.minor.patch`
    (client/src/mapping/minecraft_version.rs). */
module Version {

  import opened Results
  import opened Strings

  type U32 = n: nat | n <= U32Max

  datatype MinecraftVersion = MinecraftVersion(major: U32, minor: U32, patch: U32)

  /** The derived ordering: fields compared in declaration order. */
  predicate Less(a: MinecraftVersion, b: MinecraftVersion)
  {
    a.major < b.major
    || (a.major == b.major && a.minor < b.minor)
    || (a.major == b.major && a.minor == b.minor && a.patch < b.patch)
  }

  predicate AtMost(a: MinecraftVersion, b: MinecraftVersion)
  {
    Less(a, b) || a == b
  }

  /** `Less` is a strict total order. */
  lemma LessIsStrictTotalOrder(a: MinecraftVersion, b: MinecraftVersion, c: MinecraftVersion)
    ensures !Less(a, a)
    ensures Less(a, b) ==> !Less(b, a)
    ensures Less(a, b) && Less(b, c) ==> Less(a, c)
    ensures Less(a, b) || a == b || Less(b, a)
  {
  }

  /** `to_string`: the three decimal numerals joined by dots. */
  function ToString(v: MinecraftVersion): string
  {
    Decimal(v.major) + "." + Decimal(v.minor) + "." + Decimal(v.patch)
  }

  datatype ParseError =
    | BadFormat(text: string)
    | InvalidMajor
    | InvalidMinor
    | InvalidPatch

  /** The deserializer: exactly three dot-separated parts, each a `u32`,
      checked in order. */
  function Parse(s: string): Result<MinecraftVersion, ParseError>
  {
    var parts := Split(s, '.');
    if |parts| != 3 then Err(BadFormat(s))
    else match (ParseU32(parts[0]), ParseU32(parts[1]), ParseU32(parts[2]))
      case (None, _, _) => Err(InvalidMajor)
      case (Some(_), None, _) => Err(InvalidMinor)
      case (Some(_), Some(_), None) => Err(InvalidPatch)
      case (Some(a), Some(b), Some(c)) => Ok(MinecraftVersion(a, b, c))
  }

  /** The number of occurrences of a character. */
  function Count(s: string, c: char): nat
  {
    if s == [] then 0 else (if s[0] == c then 1 else 0) + Count(s[1..], c)
  }

  lemma {:induction false} CountAppend(a: string, b: string, c: char)
    ensures Count(a + b, c) == Count(a, c) + Count(b, c)
  {
    if a == [] {
      assert a + b == b;
    } else {
      assert (a + b)[1..] == a[1..] + b;
      CountAppend(a[1..], b, c);
    }
  }

  lemma {:induction false} CountAbsent(s: string, c: char)
    requires c !in s
    ensures Count(s, c) == 0
  {
    if s != [] {
      CountAbsent(s[1..], c);
    }
  }

  /** Splitting gives one piece more than there are separators. */
  lemma {:induction false} SplitCount(s: string, sep: char)
    ensures |Split(s, sep)| == Count(s, sep) + 1
    decreases |s|
  {
    match IndexOf(s, sep)
    case None =>
      CountAbsent(s, sep);
    case Some(k) =>
      SplitCount(s[k + 1..], sep);
      assert s == s[..k] + ([sep] + s[k + 1..]);
      CountAppend(s[..k], [sep] + s[k + 1..], sep);
      CountAppend([sep], s[k + 1..], sep);
      CountAbsent(s[..k], sep);
  }

  /** The format error is reported exactly for texts without two dots. */
  lemma BadFormatMeaning(s: string)
    ensures Parse(s) == Err(BadFormat(s)) <==> Count(s, '.') != 2
  {
    SplitCount(s, '.');
  }

  /** The first component that does not read as a `u32` decides the error. */
  lemma ComponentErrors(s: string)
    requires Count(s, '.') == 2
    ensures var parts := Split(s, '.');
      |parts| == 3
      && (Parse(s) == Err(InvalidMajor) <==> ParseU32(parts[0]).None?)
      && (Parse(s) == Err(InvalidMinor) <==> ParseU32(parts[0]).Some? && ParseU32(parts[1]).None?)
      && (Parse(s) == Err(InvalidPatch) <==>
            ParseU32(parts[0]).Some? && ParseU32(parts[1]).Some? && ParseU32(parts[2]).None?)
  {
    SplitCount(s, '.');
  }

  /** A parsed version's components are the values of the three parts. */
  lemma ParseSound(s: string)
    requires Parse(s).Ok?
    ensures var v := Parse(s).value; var parts := Split(s, '.');
      |parts| == 3 && Count(s, '.') == 2
      && ParseU32(parts[0]) == Some(v.major as nat)
      && ParseU32(parts[1]) == Some(v.minor as nat)
      && ParseU32(parts[2]) == Some(v.patch as nat)
  {
    SplitCount(s, '.');
  }

  /** Three dot-free pieces joined by dots split back into themselves. */
  lemma SplitThree(a: string, b: string, c: string)
    requires '.' !in a && '.' !in b && '.' !in c
    ensures Split(a + "." + b + "." + c, '.') == [a, b, c]
  {
    var parts := [a, b, c];
    assert Join(parts, '.') == a + "." + b + "." + c by {
      JoinCons(parts, '.');
      JoinCons(parts[1..], '.');
    }
    JoinSplit(parts, '.');
  }

  /** Printing a version and parsing it back gives the same version. */
  lemma ParseToString(v: MinecraftVersion)
    ensures Parse(ToString(v)) == Ok(v)
  {
    var a, b, c := Decimal(v.major), Decimal(v.minor), Decimal(v.patch);
    assert '.' !in a && '.' !in b && '.' !in c by {
      assert AllDigits(a) && AllDigits(b) && AllDigits(c);
    }
    SplitThree(a, b, c);
    ParseDecimal(v.major);
    ParseDecimal(v.minor);
    ParseDecimal(v.patch);
  }

  /** The converse fails: a leading zero on the major component is
      accepted, so a text that is not any version's printed form parses. */
  lemma LeadingZeroAccepted(v: MinecraftVersion)
    ensures Parse("0" + ToString(v)) == Ok(v)
    ensures "0" + ToString(v) != ToString(v)
  {
    var a, b, c := Decimal(v.major), Decimal(v.minor), Decimal(v.patch);
    assert '.' !in "0" + a && '.' !in b && '.' !in c by {
      assert AllDigits(a) && AllDigits(b) && AllDigits(c);
    }
    assert "0" + ToString(v) == ("0" + a) + "." + b + "." + c;
    SplitThree("0" + a, b, c);
    LeadingZero(a);
    DecimalValue(v.major);
    ParseDecimal(v.minor);
    ParseDecimal(v.patch);
  }

  /** For example `01.2.3` reads as version 1.2.3. */
  lemma LeadingZeroExample()
    ensures Parse("01.2.3") == Ok(MinecraftVersion(1, 2, 3))
  {
    var v := MinecraftVersion(1, 2, 3);
    assert Decimal(1) == "1" && Decimal(2) == "2" && Decimal(3) == "3";
    var t := "0" + ToString(v);
    assert t == "01.2.3";
    LeadingZeroAccepted(v);
  }
}
