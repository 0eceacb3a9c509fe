/** src/file_target.rs: location suffixes of path targets, and percent-decoding. */
module FileTarget {
  import opened Options
  import opened Splitting

  const USIZE_MAX: nat := 0xFFFF_FFFF_FFFF_FFFF

  predicate AllDigits(s: string) { forall k :: 0 <= k < |s| ==> IsDigit(s[k]) }

  function Value(s: string): nat
    requires AllDigits(s)
  {
    if s == [] then 0 else 10 * Value(s[..|s| - 1]) + (s[|s| - 1] as int - '0' as int)
  }

  predicate PositiveNumber(s: string) {
    s != [] && AllDigits(s) && 0 < Value(s) <= USIZE_MAX
  }

  /** `split_once`: at the first occurrence. */
  function SplitOnce(s: string, c: char): Option<(string, string)> {
    if s == [] then None
    else if s[0] == c then Some(([], s[1..]))
    else
      match SplitOnce(s[1..], c)
      case None => None
      case Some((a, b)) => Some(([s[0]] + a, b))
  }

  /** `rsplit_once`: at the last occurrence. */
  function RSplitOnce(s: string, c: char): Option<(string, string)> {
    if s == [] then None
    else if s[|s| - 1] == c then Some((s[..|s| - 1], []))
    else
      match RSplitOnce(s[..|s| - 1], c)
      case None => None
      case Some((a, b)) => Some((a, b + [s[|s| - 1]]))
  }

  /** What follows the `#` is a line, or a line and a column. */
  predicate IsLocation(fragment: string) {
    fragment != [] && fragment[0] == 'L' &&
    match SplitOnce(fragment[1..], 'C')
    case Some((line, column)) => PositiveNumber(line) && PositiveNumber(column)
    case None => PositiveNumber(fragment[1..])
  }

  function StripColons(target: string): string {
    match RSplitOnce(target, ':')
    case None => target
    case Some((path, last)) =>
      if !PositiveNumber(last) then target
      else
        match RSplitOnce(path, ':')
        case None => path
        case Some((shorter, line)) => if PositiveNumber(line) then shorter else path
  }

  function StripLocation(target: string): string {
    match RSplitOnce(target, '#')
    case None => StripColons(target)
    case Some((path, fragment)) => if IsLocation(fragment) then path else StripColons(target)
  }

  // ----- Splitting facts -----

  lemma {:induction false} RSplitAt(a: string, b: string, c: char)
    requires c !in b
    ensures RSplitOnce(a + [c] + b, c) == Some((a, b))
  {
    var s := a + [c] + b;
    if b == [] {
      assert s[..|s| - 1] == a;
    } else {
      assert s[..|s| - 1] == a + [c] + b[..|b| - 1];
      RSplitAt(a, b[..|b| - 1], c);
      assert b[..|b| - 1] + [b[|b| - 1]] == b;
    }
  }

  lemma {:induction false} RSplitFacts(s: string, c: char)
    ensures RSplitOnce(s, c).None? <==> c !in s
    ensures RSplitOnce(s, c).Some? ==>
      s == RSplitOnce(s, c).value.0 + [c] + RSplitOnce(s, c).value.1 && c !in RSplitOnce(s, c).value.1
  {
    if s != [] && s[|s| - 1] != c {
      var front := s[..|s| - 1];
      RSplitFacts(front, c);
      assert s == front + [s[|s| - 1]];
    }
  }

  lemma {:induction false} SplitAt(a: string, b: string, c: char)
    requires c !in a
    ensures SplitOnce(a + [c] + b, c) == Some((a, b))
  {
    var s := a + [c] + b;
    if a == [] {
      assert s[1..] == b;
    } else {
      assert s[1..] == a[1..] + [c] + b;
      SplitAt(a[1..], b, c);
      assert [a[0]] + a[1..] == a;
    }
  }

  lemma {:induction false} SplitFacts(s: string, c: char)
    ensures SplitOnce(s, c).None? <==> c !in s
    ensures SplitOnce(s, c).Some? ==> s == SplitOnce(s, c).value.0 + [c] + SplitOnce(s, c).value.1
  {
    if s != [] && s[0] != c {
      SplitFacts(s[1..], c);
      assert s == [s[0]] + s[1..];
    }
  }

  lemma NumberHasOnlyDigits(s: string, c: char)
    requires PositiveNumber(s) && !IsDigit(c)
    ensures c !in s
  {
  }

  /** A text with a colon is no location fragment. */
  lemma ColonIsNoLocation(fragment: string)
    requires ':' in fragment
    ensures !IsLocation(fragment)
  {
    if fragment[0] == 'L' {
      var location := fragment[1..];
      assert fragment == ['L'] + location;
      SplitFacts(location, 'C');
      match SplitOnce(location, 'C')
      case None => if PositiveNumber(location) { NumberHasOnlyDigits(location, ':'); }
      case Some((line, column)) =>
        if PositiveNumber(line) && PositiveNumber(column) {
          NumberHasOnlyDigits(line, ':');
          NumberHasOnlyDigits(column, ':');
        }
    }
  }

  lemma MarkComesBefore(p: string, suffix: string, k: nat)
    requires '#' !in suffix && k < |p + suffix| && (p + suffix)[k] == '#'
    ensures k < |p|
  {
  }

  /** A colon suffix keeps the `#` branch from matching. */
  lemma ColonSuffix(p: string, suffix: string)
    requires '#' !in suffix && ':' in suffix
    ensures StripLocation(p + suffix) == StripColons(p + suffix)
  {
    var target := p + suffix;
    RSplitFacts(target, '#');
    match RSplitOnce(target, '#')
    case None =>
    case Some((path, fragment)) =>
      assert target[|path|] == '#';
      MarkComesBefore(p, suffix, |path|);
      assert target[|path| + 1..] == fragment && target[|target| - |suffix|..] == suffix;
      assert fragment[|fragment| - |suffix|..] == suffix;
      ColonIsNoLocation(fragment);
  }

  // ----- Location suffixes are undone -----

  /** `path:line:column` gives the path, for every path. */
  lemma StripsLineAndColumn(p: string, line: string, column: string)
    requires PositiveNumber(line) && PositiveNumber(column)
    ensures StripLocation(p + ":" + line + ":" + column) == p
  {
    var suffix := ":" + line + ":" + column;
    NumberHasOnlyDigits(line, ':');
    NumberHasOnlyDigits(column, ':');
    NumberHasOnlyDigits(line, '#');
    NumberHasOnlyDigits(column, '#');
    assert p + ":" + line + ":" + column == p + suffix;
    ColonSuffix(p, suffix);
    RSplitAt(p + ":" + line, column, ':');
    RSplitAt(p, line, ':');
  }

  /** Whether a path ends in a colon and a positive numeral itself. */
  predicate EndsInNumber(p: string) {
    match RSplitOnce(p, ':')
    case None => false
    case Some((_, n)) => PositiveNumber(n)
  }

  /** `path:line` gives the path exactly when the path does not itself end that way. */
  lemma StripsLine(p: string, line: string)
    requires PositiveNumber(line)
    ensures StripLocation(p + ":" + line) == p <==> !EndsInNumber(p)
    ensures EndsInNumber(p) ==> StripLocation(p + ":" + line) == RSplitOnce(p, ':').value.0
  {
    var suffix := ":" + line;
    NumberHasOnlyDigits(line, ':');
    NumberHasOnlyDigits(line, '#');
    assert p + ":" + line == p + suffix;
    ColonSuffix(p, suffix);
    RSplitAt(p, line, ':');
    RSplitFacts(p, ':');
  }

  /** `path#Lline` and `path#LlineCcolumn` give the path, for every path. */
  lemma StripsFragment(p: string, line: string, column: string)
    requires PositiveNumber(line) && PositiveNumber(column)
    ensures StripLocation(p + "#" + ("L" + line)) == p
    ensures StripLocation(p + "#" + ("L" + line + "C" + column)) == p
  {
    NumberHasOnlyDigits(line, '#');
    NumberHasOnlyDigits(column, '#');
    NumberHasOnlyDigits(line, 'C');
    var one, two := "L" + line, "L" + line + "C" + column;
    RSplitAt(p, one, '#');
    RSplitAt(p, two, '#');
    assert one[1..] == line && two[1..] == line + "C" + column;
    SplitFacts(line, 'C');
    SplitAt(line, column, 'C');
  }

  /** The target ends in a location of one of the three forms. */
  ghost predicate HasLocation(target: string) {
    || (exists p, line :: PositiveNumber(line) && target == p + ":" + line)
    || (exists p, line :: PositiveNumber(line) && target == p + "#" + ("L" + line))
    || (exists p, line, column ::
          PositiveNumber(line) && PositiveNumber(column) && target == p + "#" + ("L" + line + "C" + column))
  }

  lemma LocationIsSuffix(path: string, fragment: string, target: string)
    requires target == path + ['#'] + fragment && IsLocation(fragment)
    ensures HasLocation(target)
  {
    var location := fragment[1..];
    SplitFacts(location, 'C');
    match SplitOnce(location, 'C')
    case Some((line, column)) =>
      assert fragment == "L" + line + "C" + column;
      assert target == path + "#" + ("L" + line + "C" + column);
    case None =>
      assert fragment == "L" + location;
      assert target == path + "#" + ("L" + location);
  }

  lemma ColonsLeave(target: string)
    ensures StripColons(target) == target || HasLocation(target)
  {
    RSplitFacts(target, ':');
    if RSplitOnce(target, ':').Some? {
      var path, last := RSplitOnce(target, ':').value.0, RSplitOnce(target, ':').value.1;
      if PositiveNumber(last) { assert target == path + ":" + last; }
    }
  }

  lemma LocationsShrink(target: string)
    requires HasLocation(target)
    ensures |StripLocation(target)| < |target|
  {
    if p, line :| PositiveNumber(line) && target == p + ":" + line {
      StripsLine(p, line);
      RSplitFacts(p, ':');
    } else if p, line :| PositiveNumber(line) && target == p + "#" + ("L" + line) {
      StripsFragment(p, line, line);
    } else {
      var p, line, column :|
        PositiveNumber(line) && PositiveNumber(column) && target == p + "#" + ("L" + line + "C" + column);
      StripsFragment(p, line, column);
    }
  }

  /** A target is left as it is exactly when it ends in no location. */
  lemma StripsNothingElse(target: string)
    ensures StripLocation(target) == target <==> !HasLocation(target)
  {
    RSplitFacts(target, '#');
    if HasLocation(target) {
      LocationsShrink(target);
    } else {
      ColonsLeave(target);
      if RSplitOnce(target, '#').Some? && IsLocation(RSplitOnce(target, '#').value.1) {
        LocationIsSuffix(RSplitOnce(target, '#').value.0, RSplitOnce(target, '#').value.1, target);
      }
    }
  }

  /** The decimal numeral of a number. */
  function Decimal(n: nat): string {
    if n < 10 then ["0123456789"[n]] else Decimal(n / 10) + ["0123456789"[n % 10]]
  }

  lemma {:induction false} DecimalValue(n: nat)
    ensures Decimal(n) != [] && AllDigits(Decimal(n)) && Value(Decimal(n)) == n
  {
    DigitValues(n % 10);
    if n >= 10 {
      DecimalValue(n / 10);
      var s := Decimal(n);
      assert s[..|s| - 1] == Decimal(n / 10) && s[|s| - 1] == "0123456789"[n % 10];
    } else {
      assert Decimal(n)[..0] == [] && Decimal(n)[0] == "0123456789"[n];
      assert Value([]) == 0;
    }
  }

  lemma DigitValues(d: nat)
    requires d < 10
    ensures IsDigit("0123456789"[d]) && "0123456789"[d] as int - '0' as int == d
  {
  }

  /** A numeral counts as a line or a column exactly from 1 to the largest 64-bit number. */
  lemma NumeralsExactly(n: nat)
    ensures PositiveNumber(Decimal(n)) <==> 1 <= n <= 18_446_744_073_709_551_615
  {
    DecimalValue(n);
  }

  /** Leading zeros make no difference. */
  lemma {:induction false} LeadingZeros(s: string)
    requires s != []
    ensures AllDigits("0" + s) <==> AllDigits(s)
    ensures AllDigits(s) ==> Value("0" + s) == Value(s)
    ensures PositiveNumber("0" + s) <==> PositiveNumber(s)
  {
    assert forall k :: 0 <= k < |s| ==> ("0" + s)[k + 1] == s[k];
    assert ("0" + s)[0] == '0';
    if AllDigits(s) { ZeroFirst(s); }
  }

  lemma {:induction false} ZeroFirst(s: string)
    requires AllDigits(s) && AllDigits("0" + s)
    ensures Value("0" + s) == Value(s)
  {
    if s == [] {
      assert ("0" + s)[..0] == [] && Value([]) == 0;
      assert "0" + s == "0";
    } else {
      assert ("0" + s)[..|s|] == "0" + s[..|s| - 1];
      ZeroFirst(s[..|s| - 1]);
    }
  }

  // ----- Percent-decoding (section 2.1 of RFC 3986) -----

  type Byte = b: int | 0 <= b < 256

  /** `to_digit(16)` */
  function DigitValue(b: Byte): Option<Byte> {
    if 48 <= b <= 57 then Some(b - 48)
    else if 65 <= b <= 70 then Some(b - 55)
    else if 97 <= b <= 102 then Some(b - 87)
    else None
  }

  const PERCENT: Byte := 37

  function Unescape(s: seq<Byte>): Option<seq<Byte>> {
    if s == [] then Some([])
    else if s[0] != PERCENT then
      match Unescape(s[1..])
      case None => None
      case Some(rest) => Some([s[0]] + rest)
    else if |s| < 3 then None
    else
      match (DigitValue(s[1]), DigitValue(s[2]), Unescape(s[3..]))
      case (Some(high), Some(low), Some(rest)) => Some([high * 16 + low] + rest)
      case _ => None
  }

  /**
   * `coded` spells `raw`: each byte as itself, unless it is a percent sign, or as a percent sign and two hex digits.
   */
  ghost predicate Spells(raw: seq<Byte>, coded: seq<Byte>)
    decreases |raw|
  {
    if raw == [] then coded == []
    else
      || (|coded| >= 1 && coded[0] == raw[0] && raw[0] != PERCENT && Spells(raw[1..], coded[1..]))
      || (|coded| >= 3 && coded[0] == PERCENT && DigitValue(coded[1]).Some? && DigitValue(coded[2]).Some?
          && raw[0] == DigitValue(coded[1]).value * 16 + DigitValue(coded[2]).value && Spells(raw[1..], coded[3..]))
  }

  lemma {:induction false} UnescapeSpelled(raw: seq<Byte>, coded: seq<Byte>)
    requires Spells(raw, coded)
    ensures Unescape(coded) == Some(raw)
    decreases |raw|
  {
    if raw != [] {
      assert raw == [raw[0]] + raw[1..];
      if |coded| >= 1 && coded[0] == raw[0] && raw[0] != PERCENT && Spells(raw[1..], coded[1..]) {
        UnescapeSpelled(raw[1..], coded[1..]);
      } else {
        UnescapeSpelled(raw[1..], coded[3..]);
      }
    }
  }

  lemma SpelledByUnescape(coded: seq<Byte>)
    ensures Unescape(coded).Some? ==> Spells(Unescape(coded).value, coded)
    ensures Unescape(coded).None? ==> forall raw :: !Spells(raw, coded)
  {
    if Unescape(coded).Some? {
      UnescapedIsSpelled(coded);
    } else {
      forall raw | Spells(raw, coded) ensures false { UnescapeSpelled(raw, coded); }
    }
  }

  lemma {:induction false} UnescapedIsSpelled(coded: seq<Byte>)
    requires Unescape(coded).Some?
    ensures Spells(Unescape(coded).value, coded)
    decreases |coded|
  {
    if coded != [] {
      var raw := Unescape(coded).value;
      if coded[0] != PERCENT {
        UnescapedIsSpelled(coded[1..]);
        assert raw[1..] == Unescape(coded[1..]).value;
      } else {
        UnescapedIsSpelled(coded[3..]);
        assert raw[1..] == Unescape(coded[3..]).value;
      }
    }
  }

  /** The loop of `decode`, consuming its iterator byte by byte. */
  method UnescapeLoop(value: seq<Byte>) returns (r: Option<seq<Byte>>)
    ensures r == Unescape(value)
  {
    var output: seq<Byte> := [];
    var i := 0;
    assert value[0..] == value;
    PrependNothing(value);
    while i < |value|
      invariant i <= |value|
      invariant Unescape(value) == Prepend(output, Unescape(value[i..]))
      decreases |value| - i
    {
      ghost var before := output;
      if value[i] == PERCENT {
        if i + 1 >= |value| { return None; }
        var high := DigitValue(value[i + 1]);
        if high.None? { return None; }
        if i + 2 >= |value| { return None; }
        var low := DigitValue(value[i + 2]);
        if low.None? { return None; }
        assert value[i..][3..] == value[i + 3..] && value[i..][1] == value[i + 1] && value[i..][2] == value[i + 2];
        output := output + [high.value * 16 + low.value];
        PrependOne(before, high.value * 16 + low.value, Unescape(value[i + 3..]));
        i := i + 3;
      } else {
        assert value[i..][1..] == value[i + 1..];
        output := output + [value[i]];
        PrependOne(before, value[i], Unescape(value[i + 1..]));
        i := i + 1;
      }
    }
    assert value[i..] == [] && output + [] == output;
    return Some(output);
  }

  ghost function Prepend(output: seq<Byte>, rest: Option<seq<Byte>>): Option<seq<Byte>> {
    if rest.None? then None else Some(output + rest.value)
  }

  lemma PrependNothing(value: seq<Byte>)
    ensures Prepend([], Unescape(value)) == Unescape(value)
  {
    if Unescape(value).Some? { assert [] + Unescape(value).value == Unescape(value).value; }
  }

  lemma PrependOne(output: seq<Byte>, b: Byte, rest: Option<seq<Byte>>)
    ensures Prepend(output, Prepend([b], rest)) == Prepend(output + [b], rest)
  {
    if rest.Some? { assert output + ([b] + rest.value) == (output + [b]) + rest.value; }
  }

  /** `String::from_utf8`, as given. */
  type Utf8 = seq<Byte> -> Option<string>

  /** `value` spells bytes that are the UTF-8 of `text`. */
  ghost predicate SpellsText(utf8: Utf8, value: seq<Byte>, text: string) {
    exists raw :: Spells(raw, value) && utf8(raw) == Some(text)
  }

  /** Decoding gives a text exactly on its spellings, and nothing where the input spells no text. */
  method Decode(utf8: Utf8, value: seq<Byte>) returns (r: Option<string>)
    ensures r.Some? ==> SpellsText(utf8, value, r.value)
    ensures forall text :: SpellsText(utf8, value, text) ==> r == Some(text)
  {
    var bytes := UnescapeLoop(value);
    r := if bytes.None? then None else utf8(bytes.value);
    SpelledByUnescape(value);
    forall text | SpellsText(utf8, value, text) ensures r == Some(text) {
      var raw :| Spells(raw, value) && utf8(raw) == Some(text);
      UnescapeSpelled(raw, value);
    }
  }

  const UPPER := "0123456789ABCDEF"
  const LOWER := "0123456789abcdef"

  /** A hexadecimal digit as an encoder may write it, in either case. */
  function HexByte(d: nat, upper: bool): Byte
    requires d < 16
  {
    HexDigitsAreBytes(d);
    (if upper then UPPER[d] else LOWER[d]) as int
  }

  lemma HexDigitsAreBytes(d: nat)
    requires d < 16
    ensures UPPER[d] as int < 256 && LOWER[d] as int < 256
    ensures DigitValue(UPPER[d] as int) == Some(d) && DigitValue(LOWER[d] as int) == Some(d)
  {
  }

  /** Digits of both cases are read, and nothing else is. */
  lemma DigitsExactly(b: Byte)
    ensures DigitValue(b).Some? <==> exists d: nat :: d < 16 && (UPPER[d] as int == b || LOWER[d] as int == b)
    ensures forall d: nat :: d < 16 && (UPPER[d] as int == b || LOWER[d] as int == b) ==> DigitValue(b) == Some(d)
  {
    forall d: nat | d < 16 && (UPPER[d] as int == b || LOWER[d] as int == b) ensures DigitValue(b) == Some(d) {
      HexDigitsAreBytes(d);
    }
    if DigitValue(b).Some? { DigitsCover(b); }
  }

  lemma DigitsCover(b: Byte)
    requires DigitValue(b).Some?
    ensures exists d: nat :: d < 16 && (UPPER[d] as int == b || LOWER[d] as int == b)
  {
    var d: nat := DigitValue(b).value;
    assert d < 16 && (UPPER[d] as int == b || LOWER[d] as int == b);
  }

  predicate Unreserved(b: Byte) {
    48 <= b <= 57 || 65 <= b <= 90 || 97 <= b <= 122 || b in {45, 46, 95, 126}
  }

  /** Unreserved bytes as they are, all others escaped, with digits of either case. */
  function PercentEncode(raw: seq<Byte>, upper: bool): seq<Byte> {
    if raw == [] then []
    else (if Unreserved(raw[0]) then [raw[0]] else Escape(raw[0], upper)) + PercentEncode(raw[1..], upper)
  }

  function Escape(b: Byte, upper: bool): seq<Byte> {
    [PERCENT, HexByte(b / 16, upper), HexByte(b % 16, upper)]
  }

  lemma {:induction false} EncodeSpells(raw: seq<Byte>, upper: bool)
    ensures Spells(raw, PercentEncode(raw, upper))
  {
    if raw != [] {
      EncodeSpells(raw[1..], upper);
      var coded := PercentEncode(raw, upper);
      if Unreserved(raw[0]) {
        assert coded[1..] == PercentEncode(raw[1..], upper);
      } else {
        assert coded[3..] == PercentEncode(raw[1..], upper);
        HexDigitsAreBytes(raw[0] / 16);
        HexDigitsAreBytes(raw[0] % 16);
        assert raw[0] == raw[0] / 16 * 16 + raw[0] % 16;
      }
    }
  }

  /** `decode` inverts percent-encoding in either case. */
  lemma DecodeInvertsEncode(raw: seq<Byte>, upper: bool)
    ensures Unescape(PercentEncode(raw, upper)) == Some(raw)
  {
    EncodeSpells(raw, upper);
    UnescapeSpelled(raw, PercentEncode(raw, upper));
  }
}
