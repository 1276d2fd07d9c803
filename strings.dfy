/** Text helpers shared by the models: the whitespace classes of Rust and
    Python, trimming, splitting at a separator, and decimal numerals. */
module Strings {

  import opened Results

  /** Rust's `char::is_whitespace` (the Unicode White_Space property). */
  predicate IsRustSpace(c: char)
  {
    ('\t' <= c <= '\r') || c == ' ' || c == '\U{85}' || c == '\U{A0}' || c == '\U{1680}'
    || ('\U{2000}' <= c <= '\U{200A}') || c == '\U{2028}' || c == '\U{2029}'
    || c == '\U{202F}' || c == '\U{205F}' || c == '\U{3000}'
  }

  /** The characters Python's `str.strip()` removes by default. */
  predicate IsPythonSpace(c: char)
  {
    ('\t' <= c <= '\r') || ('\U{1C}' <= c <= '\U{1F}') || IsRustSpace(c)
  }

  /** Drops the leading characters satisfying `ws`. */
  function TrimStart(s: string, ws: char -> bool): (r: string)
    ensures |r| <= |s| && r == s[|s| - |r|..]
    ensures r == [] || !ws(r[0])
    ensures forall i :: 0 <= i < |s| - |r| ==> ws(s[i])
  {
    if s == [] || !ws(s[0]) then s else TrimStart(s[1..], ws)
  }

  /** Drops the trailing characters satisfying `ws`. */
  function TrimEnd(s: string, ws: char -> bool): (r: string)
    ensures |r| <= |s| && r == s[..|r|]
    ensures r == [] || !ws(r[|r| - 1])
    ensures forall i :: |r| <= i < |s| ==> ws(s[i])
  {
    if s == [] || !ws(s[|s| - 1]) then s else TrimEnd(s[..|s| - 1], ws)
  }

  /** `str::trim` / `str.strip()`: both ends. */
  function Trim(s: string, ws: char -> bool): string
  {
    TrimEnd(TrimStart(s, ws), ws)
  }

  /** A string whose two ends are not whitespace is its own trim. */
  lemma TrimNoop(s: string, ws: char -> bool)
    requires s == [] || (!ws(s[0]) && !ws(s[|s| - 1]))
    ensures Trim(s, ws) == s
  {
  }

  /** A string ending in whitespace is shortened by trimming. */
  lemma TrimDropsLast(s: string, ws: char -> bool)
    requires s != [] && ws(s[|s| - 1])
    ensures |Trim(s, ws)| < |s|
  {
    var front := TrimStart(s, ws);
    if |front| == |s| {
      assert front == s;
    }
  }

  /** The index of the first `c` in `s`, as Rust's `str::find(char)`. */
  function IndexOf(s: string, c: char): (r: Option<nat>)
    ensures r.None? <==> c !in s
    ensures r.Some? ==> r.value < |s| && s[r.value] == c && c !in s[..r.value]
  {
    if s == [] then None
    else if s[0] == c then Some(0)
    else match IndexOf(s[1..], c)
      case None => None
      case Some(k) => Some(k + 1)
  }

  /** The first occurrence determines `IndexOf`. */
  lemma {:induction false} IndexOfAt(s: string, c: char, k: nat)
    requires k < |s| && s[k] == c && c !in s[..k]
    ensures IndexOf(s, c) == Some(k)
  {
    if k > 0 {
      assert s[..k][0] == s[0];
      assert s[1..][..k - 1] == s[..k][1..];
      IndexOfAt(s[1..], c, k - 1);
    }
  }

  /** Extending a prefix by one element. */
  lemma SliceSnoc<T>(s: seq<T>, i: nat)
    requires i < |s|
    ensures s[..i + 1] == s[..i] + [s[i]]
  {
  }

  lemma DropAppend<T>(a: seq<T>, b: seq<T>, i: nat)
    requires i <= |a|
    ensures (a + b)[i..] == a[i..] + b
  {
  }

  lemma SeqCons<T>(s: seq<T>)
    requires s != []
    ensures s == [s[0]] + s[1..]
  {
  }

  /** A sequence around one of its elements. */
  lemma SeqAround<T>(s: seq<T>, i: nat)
    requires i < |s|
    ensures s == s[..i] + ([s[i]] + s[i + 1..])
  {
  }

  lemma AppendAssoc<T>(a: seq<T>, b: seq<T>, c: seq<T>)
    ensures (a + b) + c == a + (b + c)
  {
  }

  lemma MapOverwrite<K, V>(m: map<K, V>, k: K, a: V, b: V)
    ensures m[k := a][k := b] == m[k := b]
  {
  }

  /** Every piece between separators, empties included: Rust `split(c)` and
      Python `split(c)` alike. */
  function Split(s: string, sep: char): (r: seq<string>)
    ensures |r| >= 1
    ensures forall i :: 0 <= i < |r| ==> sep !in r[i]
    decreases |s|
  {
    match IndexOf(s, sep)
    case None => [s]
    case Some(k) => [s[..k]] + Split(s[k + 1..], sep)
  }

  /** Glues pieces back with the separator between them. */
  function Join(parts: seq<string>, sep: char): string
  {
    if |parts| == 0 then ""
    else if |parts| == 1 then parts[0]
    else parts[0] + [sep] + Join(parts[1..], sep)
  }

  /** Joining a sequence of at least two pieces, one step. */
  lemma JoinCons(parts: seq<string>, sep: char)
    requires |parts| >= 2
    ensures Join(parts, sep) == parts[0] + [sep] + Join(parts[1..], sep)
  {
  }

  /** The first piece begins the joined text. */
  lemma JoinPrefix(parts: seq<string>, sep: char)
    requires |parts| >= 1
    ensures |parts[0]| <= |Join(parts, sep)| && Join(parts, sep)[..|parts[0]|] == parts[0]
  {
    if |parts| > 1 {
      JoinCons(parts, sep);
      assert (parts[0] + [sep] + Join(parts[1..], sep))[..|parts[0]|] == parts[0];
    }
  }

  lemma {:induction false} SplitJoin(s: string, sep: char)
    ensures Join(Split(s, sep), sep) == s
    decreases |s|
  {
    match IndexOf(s, sep)
    case None =>
    case Some(k) =>
      var rest := Split(s[k + 1..], sep);
      assert Split(s, sep) == [s[..k]] + rest;
      JoinCons([s[..k]] + rest, sep);
      assert ([s[..k]] + rest)[1..] == rest;
      SplitJoin(s[k + 1..], sep);
      assert s == s[..k] + [sep] + s[k + 1..];
  }

  lemma {:induction false} JoinSplit(parts: seq<string>, sep: char)
    requires |parts| >= 1
    requires forall i :: 0 <= i < |parts| ==> sep !in parts[i]
    ensures Split(Join(parts, sep), sep) == parts
  {
    if |parts| > 1 {
      var s := Join(parts, sep);
      var tail := Join(parts[1..], sep);
      JoinCons(parts, sep);
      assert s == parts[0] + [sep] + tail;
      assert IndexOf(s, sep) == Some(|parts[0]|) by {
        assert s[|parts[0]|] == sep;
        assert s[..|parts[0]|] == parts[0];
      }
      assert s[|parts[0]| + 1..] == tail;
      assert s[..|parts[0]|] == parts[0];
      JoinSplit(parts[1..], sep);
      assert Split(s, sep) == [parts[0]] + Split(tail, sep);
      assert parts == [parts[0]] + parts[1..];
    }
  }

  /** Rust `splitn(2, sep)`: the text before the first separator and, when
      there is one, everything after it. */
  function SplitOnce(s: string, sep: char): (r: seq<string>)
    ensures 1 <= |r| <= 2 && sep !in r[0]
    ensures |r| == 1 <==> sep !in s
    ensures |r| == 1 ==> r[0] == s
    ensures |r| == 2 ==> s == r[0] + [sep] + r[1]
  {
    match IndexOf(s, sep)
    case None => [s]
    case Some(k) =>
      assert s == s[..k] + [sep] + s[k + 1..];
      [s[..k], s[k + 1..]]
  }

  /** Splitting once at a separator the first piece does not contain. */
  lemma SplitOnceAt(w: string, sep: char, rest: string)
    requires sep !in w
    ensures SplitOnce(w + [sep] + rest, sep) == [w, rest]
  {
    var s := w + [sep] + rest;
    assert s[|w|] == sep && s[..|w|] == w;
    IndexOfAt(s, sep, |w|);
    assert s[|w| + 1..] == rest;
  }

  /** A dotted Java class name in the slashed internal form, as Rust's
      `replace('.', "/")` and Python's `replace('.', '/')`. */
  function Slashed(n: string): (r: string)
    ensures |r| == |n| && '.' !in r
    ensures forall i :: 0 <= i < |n| ==> r[i] == if n[i] == '.' then '/' else n[i]
  {
    seq(|n|, i requires 0 <= i < |n| => if n[i] == '.' then '/' else n[i])
  }

  /** A name without dots is already slashed. */
  lemma SlashedNoDots(n: string)
    requires '.' !in n
    ensures Slashed(n) == n
  {
  }

  // Decimal numerals

  predicate IsDigit(c: char) { '0' <= c <= '9' }

  predicate AllDigits(s: string)
  {
    forall i :: 0 <= i < |s| ==> IsDigit(s[i])
  }

  function DigitChar(d: nat): (c: char)
    requires d < 10
    ensures IsDigit(c) && (c as int) - ('0' as int) == d
  {
    (('0' as int) + d) as char
  }

  /** The value of a string of digits, most significant first. */
  function DigitsValue(s: string): nat
    requires AllDigits(s)
  {
    if s == [] then 0
    else 10 * DigitsValue(s[..|s| - 1]) + ((s[|s| - 1] as int) - ('0' as int))
  }

  /** Shortest decimal numeral of `n`, as Rust's `{}` and Python's `str`. */
  function Decimal(n: nat): (r: string)
    ensures |r| >= 1 && AllDigits(r)
    ensures n > 0 ==> r[0] != '0'
  {
    if n < 10 then [DigitChar(n)] else Decimal(n / 10) + [DigitChar(n % 10)]
  }

  lemma {:induction false} DecimalValue(n: nat)
    ensures DigitsValue(Decimal(n)) == n
  {
    if n >= 10 {
      var s := Decimal(n);
      assert s[..|s| - 1] == Decimal(n / 10);
      DecimalValue(n / 10);
    }
  }

  /** A leading zero does not change the value of a numeral. */
  lemma {:induction false} LeadingZero(s: string)
    requires AllDigits(s)
    ensures AllDigits("0" + s) && DigitsValue("0" + s) == DigitsValue(s)
  {
    var z := "0" + s;
    assert AllDigits(z) by {
      forall i | 0 <= i < |z|
        ensures IsDigit(z[i])
      {
        if i > 0 { assert z[i] == s[i - 1]; }
      }
    }
    if s == [] {
      assert z[..0] == [];
    } else {
      assert z[..|z| - 1] == "0" + s[..|s| - 1];
      LeadingZero(s[..|s| - 1]);
    }
  }

  const U32Max: nat := 0xFFFF_FFFF

  /** Rust `str::parse::<u32>`: an optional `+`, then at least one ASCII
      digit, with a value that fits in 32 bits. Leading zeros are accepted. */
  function ParseU32(s: string): (r: Option<nat>)
    ensures r.Some? ==> r.value <= U32Max
    ensures r.Some? ==> s != [] && (AllDigits(s) || (s[0] == '+' && AllDigits(s[1..])))
    ensures var digits := if s != [] && s[0] == '+' then s[1..] else s;
      && (r.Some? <==> digits != [] && AllDigits(digits) && DigitsValue(digits) <= U32Max)
      && (r.Some? ==> r.value == DigitsValue(digits))
  {
    var digits := if s != [] && s[0] == '+' then s[1..] else s;
    if digits == [] || !AllDigits(digits) then None
    else if DigitsValue(digits) > U32Max then None
    else Some(DigitsValue(digits))
  }

  /** Printing a 32-bit value and parsing it back gives the value again. */
  lemma ParseDecimal(n: nat)
    requires n <= U32Max
    ensures ParseU32(Decimal(n)) == Some(n)
  {
    DecimalValue(n);
  }
}
