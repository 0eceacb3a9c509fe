/**
 * The pre-image of `digest`: `json.dumps(value, sort_keys=True, separators=(',', ':'))`.
 * A parser in the manner of `json.loads` undoes the printer, so the pre-image is injective.
 */
module CanonicalJson {
  import opened Ordering
  import opened Paths
  import opened Splitting

  /** A JSON value; an object is a dictionary, so equality of values is Python's. */
  datatype Json =
    | Null
    | Bool(b: bool)
    | Int(i: int)
    | Str(s: string)
    | Arr(items: seq<Json>)
    | Obj(fields: map<string, Json>)

  /** One element of a Python `str`: any code point, lone surrogates included. */
  type Code = c: int | 0 <= c < 0x11_0000

  /** One element of the escaped form: a code unit below 0x1_0000. */
  type Unit = u: int | 0 <= u < 0x1_0000

  predicate High(c: Code) { 0xD800 <= c < 0xDC00 }

  predicate Low(c: Code) { 0xDC00 <= c < 0xE000 }

  /** No surrogates: what a Dafny `string` can hold. */
  predicate Scalar(codes: seq<Code>) {
    forall k :: 0 <= k < |codes| ==> !(0xD800 <= codes[k] < 0xE000)
  }

  function Codes(s: string): (r: seq<Code>)
    ensures |r| == |s| && Scalar(r)
    ensures forall k :: 0 <= k < |r| ==> r[k] == s[k] as int
  {
    if s == [] then [] else [s[0] as int] + Codes(s[1..])
  }

  /** The string of a surrogate-free code point sequence. */
  function Text(codes: seq<Code>): (r: string)
    requires Scalar(codes)
    ensures |r| == |codes| && forall k :: 0 <= k < |r| ==> r[k] as int == codes[k]
  {
    if codes == [] then [] else [codes[0] as char] + Text(codes[1..])
  }

  lemma TextOfCodes(s: string)
    ensures Text(Codes(s)) == s
  {
    var t := Text(Codes(s));
    assert forall k :: 0 <= k < |s| ==> t[k] as int == s[k] as int;
    assert forall k :: 0 <= k < |s| ==> t[k] == s[k];
  }

  // ----- Printing -----

  /** Code points above the basic plane are written as a surrogate pair. */
  function Expand(codes: seq<Code>): seq<Unit> {
    if codes == [] then []
    else
      var c := codes[0];
      (if c < 0x1_0000 then [c]
       else [0xD800 + (c - 0x1_0000) / 0x400, 0xDC00 + (c - 0x1_0000) % 0x400]) + Expand(codes[1..])
  }

  function HexDigit(d: nat): char
    requires d < 16
  {
    "0123456789abcdef"[d]
  }

  function Hex4(u: Unit): (r: string)
    ensures |r| == 4
  {
    [HexDigit(u / 4096), HexDigit(u / 256 % 16), HexDigit(u / 16 % 16), HexDigit(u % 16)]
  }

  /** Printable ASCII is kept; quotes, backslashes, controls, DEL and all else are escaped. */
  function EscapeUnit(u: Unit): string {
    if u == 34 then "\\\""
    else if u == 92 then "\\\\"
    else if u == 10 then "\\n"
    else if u == 13 then "\\r"
    else if u == 9 then "\\t"
    else if u == 12 then "\\f"
    else if u == 8 then "\\b"
    else if 32 <= u <= 126 then [u as char]
    else "\\u" + Hex4(u)
  }

  function EscapeUnits(units: seq<Unit>): string {
    if units == [] then [] else EscapeUnit(units[0]) + EscapeUnits(units[1..])
  }

  /** `json.dumps` of a `str` of any code points. */
  function PrintText(codes: seq<Code>): string {
    "\"" + EscapeUnits(Expand(codes)) + "\""
  }

  function Digits(n: nat): string {
    if n < 10 then [HexDigit(n)] else Digits(n / 10) + [HexDigit(n % 10)]
  }

  function PrintInt(i: int): string {
    if i < 0 then "-" + Digits(-i) else Digits(i)
  }

  function Print(v: Json): string
    decreases v, 0
  {
    match v
    case Null => "null"
    case Bool(b) => if b then "true" else "false"
    case Int(i) => PrintInt(i)
    case Str(s) => PrintText(Codes(s))
    case Arr(items) => if items == [] then "[]" else "[" + PrintItems(items)
    case Obj(fields) =>
      LeqIsLinear();
      var keys := InOrder(Leq, fields.Keys);
      if keys == [] then "{}" else "{" + PrintMembers(v, keys)
  }

  function PrintItems(items: seq<Json>): string
    requires items != []
    decreases items, 0
  {
    Print(items[0]) + (if |items| == 1 then "]" else "," + PrintItems(items[1..]))
  }

  function PrintMembers(v: Json, keys: seq<string>): string
    requires v.Obj? && keys != [] && forall k :: k in keys ==> k in v.fields
    decreases v, 0, |keys|
  {
    PrintText(Codes(keys[0])) + ":" + Print(v.fields[keys[0]])
    + (if |keys| == 1 then "}" else "," + PrintMembers(v, keys[1..]))
  }

  // ----- Parsing -----

  datatype Parsed<+T> = Fail | Got(value: T, rest: string)

  function HexValue(c: char): (r: int)
    ensures -1 <= r < 16
  {
    if '0' <= c <= '9' then c as int - 48
    else if 'a' <= c <= 'f' then c as int - 87
    else -1
  }

  function ParseUnit(s: string): (r: Parsed<Unit>)
    ensures r.Got? ==> |r.rest| < |s|
  {
    if s == [] || s[0] == '"' then Fail
    else if s[0] != '\\' then
      if s[0] as int < 0x1_0000 then Got(s[0] as int, s[1..]) else Fail
    else if |s| < 2 then Fail
    else if s[1] == '"' || s[1] == '\\' then Got(s[1] as int, s[2..])
    else if s[1] == 'n' then Got(10, s[2..])
    else if s[1] == 'r' then Got(13, s[2..])
    else if s[1] == 't' then Got(9, s[2..])
    else if s[1] == 'f' then Got(12, s[2..])
    else if s[1] == 'b' then Got(8, s[2..])
    else if s[1] == 'u' && |s| >= 6 then
      var a, b, c, d := HexValue(s[2]), HexValue(s[3]), HexValue(s[4]), HexValue(s[5]);
      if a < 0 || b < 0 || c < 0 || d < 0 then Fail
      else Got(4096 * a + 256 * b + 16 * c + d, s[6..])
    else Fail
  }

  /** Everything up to the closing quote. */
  function ParseUnits(s: string): (r: Parsed<seq<Unit>>)
    ensures r.Got? ==> |r.rest| < |s|
    decreases |s|
  {
    if s == [] then Fail
    else if s[0] == '"' then Got([], s[1..])
    else
      match ParseUnit(s)
      case Fail => Fail
      case Got(u, rest) =>
        match ParseUnits(rest)
        case Fail => Fail
        case Got(us, rest') => Got([u] + us, rest')
  }

  /** `json.loads` joins a high unit with a following low unit. */
  function Merge(units: seq<Unit>): (r: seq<Code>)
    ensures |r| <= |units|
  {
    if units == [] then []
    else if |units| >= 2 && High(units[0]) && Low(units[1]) then
      [0x1_0000 + (units[0] - 0xD800) * 0x400 + (units[1] - 0xDC00)] + Merge(units[2..])
    else [units[0]] + Merge(units[1..])
  }

  function ParseText(s: string): (r: Parsed<seq<Code>>)
    ensures r.Got? ==> |r.rest| < |s|
  {
    if s == [] || s[0] != '"' then Fail
    else
      match ParseUnits(s[1..])
      case Fail => Fail
      case Got(us, rest) => Got(Merge(us), rest)
  }

  /** Reads decimal digits onto `acc` as far as they go. */
  function ReadNat(acc: nat, s: string): (r: Parsed<nat>)
    ensures r.Got? && |r.rest| <= |s|
    decreases |s|
  {
    if s != [] && IsDigit(s[0]) then ReadNat(10 * acc + (s[0] as int - 48), s[1..]) else Got(acc, s)
  }

  function ParseInt(s: string): (r: Parsed<int>)
    ensures r.Got? ==> |r.rest| < |s|
  {
    if s != [] && IsDigit(s[0]) then
      var r := ReadNat(s[0] as int - 48, s[1..]);
      var i: int := r.value;
      Got(i, r.rest)
    else if |s| >= 2 && s[0] == '-' && IsDigit(s[1]) then
      var r := ReadNat(s[1] as int - 48, s[2..]);
      var i: int := 0 - r.value;
      Got(i, r.rest)
    else Fail
  }

  function ParseString(s: string): (r: Parsed<string>)
    ensures r.Got? ==> |r.rest| < |s|
  {
    match ParseText(s)
    case Fail => Fail
    case Got(codes, rest) =>
      if Scalar(codes) then Got(Text(codes), rest) else Fail
  }

  predicate StartsWith(s: string, c: char) { s != [] && s[0] == c }

  predicate StartsWithWord(s: string, word: string) { |s| >= |word| && s[..|word|] == word }

  function Parse(s: string): (r: Parsed<Json>)
    ensures r.Got? ==> |r.rest| < |s|
    decreases |s|, 0
  {
    if s == [] then Fail
    else if s[0] == 'n' then if StartsWithWord(s, "null") then Got(Null, s[4..]) else Fail
    else if s[0] == 't' then if StartsWithWord(s, "true") then Got(Bool(true), s[4..]) else Fail
    else if s[0] == 'f' then if StartsWithWord(s, "false") then Got(Bool(false), s[5..]) else Fail
    else if s[0] == '"' then
      match ParseString(s)
      case Fail => Fail
      case Got(text, rest) => Got(Str(text), rest)
    else if s[0] == '[' then
      if StartsWith(s[1..], ']') then Got(Arr([]), s[2..])
      else
        match ParseItems(s[1..])
        case Fail => Fail
        case Got(items, rest) => Got(Arr(items), rest)
    else if s[0] == '{' then
      if StartsWith(s[1..], '}') then Got(Obj(map[]), s[2..])
      else
        match ParseMembers(s[1..])
        case Fail => Fail
        case Got(fields, rest) => Got(Obj(fields), rest)
    else
      match ParseInt(s)
      case Fail => Fail
      case Got(i, rest) => Got(Int(i), rest)
  }

  function ParseItems(s: string): (r: Parsed<seq<Json>>)
    ensures r.Got? ==> |r.rest| < |s|
    decreases |s|, 1
  {
    match Parse(s)
    case Fail => Fail
    case Got(v, rest) =>
      if StartsWith(rest, ']') then Got([v], rest[1..])
      else if StartsWith(rest, ',') then
        match ParseItems(rest[1..])
        case Fail => Fail
        case Got(vs, rest') => Got([v] + vs, rest')
      else Fail
  }

  function ParseMembers(s: string): (r: Parsed<map<string, Json>>)
    ensures r.Got? ==> |r.rest| < |s|
    decreases |s|, 1
  {
    match ParseString(s)
    case Fail => Fail
    case Got(key, rest) =>
      if !StartsWith(rest, ':') then Fail
      else
        match Parse(rest[1..])
        case Fail => Fail
        case Got(v, rest') =>
          if StartsWith(rest', '}') then Got(map[key := v], rest'[1..])
          else if StartsWith(rest', ',') then
            match ParseMembers(rest'[1..])
            case Fail => Fail
            case Got(others, rest'') => Got(map[key := v] + others, rest'')
          else Fail
  }

  // ----- The parser undoes the printer -----

  lemma HexRoundTrip(d: nat)
    requires d < 16
    ensures HexValue(HexDigit(d)) == d
    ensures HexDigit(d) != '"' && HexDigit(d) != '\\'
    ensures IsDigit(HexDigit(d)) <==> d < 10
    ensures d < 10 ==> HexDigit(d) as int - 48 == d
  {
  }

  lemma Hex4RoundTrip(u: Unit, rest: string)
    ensures ParseUnit("\\u" + Hex4(u) + rest) == Got(u, rest)
  {
    var a, b, c, d := u / 4096, u / 256 % 16, u / 16 % 16, u % 16;
    HexRoundTrip(a); HexRoundTrip(b); HexRoundTrip(c); HexRoundTrip(d);
    FourDigits(u, a, b, c, d);
    ParseEscape(HexDigit(a), HexDigit(b), HexDigit(c), HexDigit(d), rest);
    assert "\\u" + Hex4(u) + rest == ['\\', 'u', HexDigit(a), HexDigit(b), HexDigit(c), HexDigit(d)] + rest;
  }

  lemma FourDigits(u: Unit, a: int, b: int, c: int, d: int)
    requires a == u / 4096 && b == u / 256 % 16 && c == u / 16 % 16 && d == u % 16
    ensures 4096 * a + 256 * b + 16 * c + d == u
  {
    var x, y := u / 16, u / 256;
    assert u == 16 * x + d && x == 16 * y + c && y == 16 * a + b;
  }

  lemma ParseEscape(a: char, b: char, c: char, d: char, rest: string)
    requires HexValue(a) >= 0 && HexValue(b) >= 0 && HexValue(c) >= 0 && HexValue(d) >= 0
    ensures ParseUnit(['\\', 'u', a, b, c, d] + rest)
      == Got(4096 * HexValue(a) + 256 * HexValue(b) + 16 * HexValue(c) + HexValue(d), rest)
  {
    var s := ['\\', 'u', a, b, c, d] + rest;
    assert s[6..] == rest;
    assert s[0] == '\\' && s[1] == 'u';
  }

  lemma UnitRoundTrip(u: Unit, rest: string)
    ensures ParseUnit(EscapeUnit(u) + rest) == Got(u, rest)
    ensures EscapeUnit(u) != [] && EscapeUnit(u)[0] != '"'
  {
    var s := EscapeUnit(u) + rest;
    if u in {34, 92, 10, 13, 9, 12, 8} {
      assert s[2..] == rest;
    } else if 32 <= u <= 126 {
      assert s[1..] == rest;
    } else {
      Hex4RoundTrip(u, rest);
    }
  }

  lemma {:induction false} UnitsRoundTrip(units: seq<Unit>, rest: string)
    ensures ParseUnits(EscapeUnits(units) + "\"" + rest) == Got(units, rest)
  {
    var s := EscapeUnits(units) + "\"" + rest;
    if units == [] {
      assert s[1..] == rest;
    } else {
      var more := EscapeUnits(units[1..]) + "\"" + rest;
      assert s == EscapeUnit(units[0]) + more;
      UnitRoundTrip(units[0], more);
      UnitsRoundTrip(units[1..], rest);
      assert units == [units[0]] + units[1..];
    }
  }

  /** Whether a lone high surrogate is directly followed by a lone low one. */
  predicate HasSplitPair(codes: seq<Code>) {
    |codes| >= 2 && ((High(codes[0]) && Low(codes[1])) || HasSplitPair(codes[1..]))
  }

  lemma {:induction false} MergeOfExpand(codes: seq<Code>)
    ensures |Merge(Expand(codes))| <= |codes|
    ensures HasSplitPair(codes) ==> |Merge(Expand(codes))| < |codes|
    ensures !HasSplitPair(codes) ==> Merge(Expand(codes)) == codes
    decreases |codes|
  {
    if codes != [] {
      var c, tail := codes[0], codes[1..];
      MergeOfExpand(tail);
      assert codes == [c] + tail;
      if c >= 0x1_0000 {
        assert Expand(codes)[2..] == Expand(tail);
      } else {
        MergeHead(c, tail);
        if High(c) && tail != [] && Low(tail[0]) {
          MergeOfExpand(tail[1..]);
        }
      }
    }
  }

  lemma MergeHead(c: Code, tail: seq<Code>)
    requires c < 0x1_0000
    ensures if High(c) && tail != [] && Low(tail[0])
      then |Merge(Expand([c] + tail))| == 1 + |Merge(Expand(tail[1..]))|
      else Merge(Expand([c] + tail)) == [c] + Merge(Expand(tail))
  {
    var e := Expand([c] + tail);
    assert ([c] + tail)[1..] == tail;
    assert e == [c] + Expand(tail);
    assert e[1..] == Expand(tail);
    if tail != [] {
      if tail[0] < 0x1_0000 {
        assert Expand(tail) == [tail[0]] + Expand(tail[1..]);
        assert e[2..] == Expand(tail[1..]);
      } else {
        assert High(Expand(tail)[0]);
      }
    }
  }

  lemma AfterQuote(body: string, rest: string)
    ensures var s := ("\"" + body + "\"") + rest; s[0] == '\"' && s[1..] == body + "\"" + rest
  {
  }

  lemma ParsePrinted(codes: seq<Code>, rest: string)
    ensures ParseText(PrintText(codes) + rest) == Got(Merge(Expand(codes)), rest)
  {
    AfterQuote(EscapeUnits(Expand(codes)), rest);
    UnitsRoundTrip(Expand(codes), rest);
  }

  /** What `json.loads` gives back for a printed `str`, and exactly when it is the same `str`. */
  lemma TextRoundTrip(codes: seq<Code>, rest: string)
    ensures ParseText(PrintText(codes) + rest) == Got(Merge(Expand(codes)), rest)
    ensures ParseText(PrintText(codes) + rest) == Got(codes, rest) <==> !HasSplitPair(codes)
  {
    ParsePrinted(codes, rest);
    MergeOfExpand(codes);
  }

  /**
   * Two `str` values have the same text exactly when they spell the same UTF-16 units; without split pairs they are
   * equal.
   */
  lemma TextCollidesExactly(a: seq<Code>, b: seq<Code>)
    ensures PrintText(a) == PrintText(b) <==> Expand(a) == Expand(b)
    ensures PrintText(a) == PrintText(b) && !HasSplitPair(a) && !HasSplitPair(b) ==> a == b
  {
    if PrintText(a) == PrintText(b) {
      AfterQuote(EscapeUnits(Expand(a)), "");
      AfterQuote(EscapeUnits(Expand(b)), "");
      UnitsRoundTrip(Expand(a), "");
      UnitsRoundTrip(Expand(b), "");
      MergeOfExpand(a);
      MergeOfExpand(b);
    }
  }

  /** Two different `str` values with the same pre-image: a split pair and the character it spells. */
  lemma SplitPairCollides()
    ensures PrintText([0xD83D, 0xDE00]) == PrintText([0x1F600])
  {
    var pair, one: seq<Code> := [0xD83D, 0xDE00], [0x1F600];
    assert pair[1..] == [0xDE00] && pair[1..][1..] == [] && one[1..] == [];
    assert Expand(pair) == [0xD83D] + Expand(pair[1..]) == [0xD83D, 0xDE00];
    assert Expand(one) == [0xD83D, 0xDE00] + Expand(one[1..]) == [0xD83D, 0xDE00];
  }

  lemma {:induction false} ScalarHasNoSplitPair(codes: seq<Code>)
    requires Scalar(codes)
    ensures !HasSplitPair(codes)
  {
    if codes != [] { ScalarHasNoSplitPair(codes[1..]); }
  }

  lemma StringRoundTrip(s: string, rest: string)
    ensures ParseString(PrintText(Codes(s)) + rest) == Got(s, rest)
  {
    TextRoundTrip(Codes(s), rest);
    ScalarHasNoSplitPair(Codes(s));
    TextOfCodes(s);
  }

  predicate StartsNumber(s: string) { s != [] && IsDigit(s[0]) }

  lemma ReadNatStep(acc: nat, d: nat, rest: string)
    requires d < 10
    ensures ReadNat(acc, [HexDigit(d)] + rest) == ReadNat(10 * acc + d, rest)
  {
    HexRoundTrip(d);
    assert ([HexDigit(d)] + rest)[1..] == rest;
  }

  lemma {:induction false} DigitsRoundTrip(n: nat, rest: string)
    ensures |Digits(n)| > 0 && IsDigit(Digits(n)[0])
    ensures ReadNat(Digits(n)[0] as int - 48, Digits(n)[1..] + rest) == ReadNat(n, rest)
  {
    HexRoundTrip(n % 10);
    if n < 10 {
      assert Digits(n)[1..] + rest == rest;
    } else {
      var last := [HexDigit(n % 10)];
      DigitsRoundTrip(n / 10, last + rest);
      DropFirst(Digits(n / 10), last, rest);
      ReadNatStep(n / 10, n % 10, rest);
    }
  }

  lemma DropFirst(digits: string, last: string, rest: string)
    requires digits != []
    ensures (digits + last)[0] == digits[0] && (digits + last)[1..] + rest == digits[1..] + (last + rest)
  {
  }

  lemma IntRoundTrip(i: int, rest: string)
    requires !StartsNumber(rest)
    ensures ParseInt(PrintInt(i) + rest) == Got(i, rest)
    ensures PrintInt(i)[0] == '-' || IsDigit(PrintInt(i)[0])
  {
    if i < 0 { NegativeRoundTrip(i, rest); } else { NatRoundTrip(i, rest); }
  }

  lemma ParsePlain(s: string, first: nat, tail: string)
    requires s != [] && IsDigit(s[0]) && first == s[0] as int - 48 && tail == s[1..]
    ensures var p, r := ParseInt(s), ReadNat(first, tail); p.Got? && p.value == r.value && p.rest == r.rest
  {
  }

  lemma ParseNegative(s: string, first: nat, tail: string)
    requires |s| > 1 && s[0] == '-' && IsDigit(s[1]) && first == s[1] as int - 48 && tail == s[2..]
    ensures var p, r := ParseInt(s), ReadNat(first, tail); p.Got? && p.value + r.value == 0 && p.rest == r.rest
  {
  }

  lemma ReadNatStops(acc: nat, rest: string)
    requires !StartsNumber(rest)
    ensures ReadNat(acc, rest).value == acc && ReadNat(acc, rest).rest == rest
  {
  }

  lemma NatRoundTrip(i: int, rest: string)
    requires !StartsNumber(rest) && i >= 0
    ensures ParseInt(Digits(i) + rest) == Got(i, rest)
    ensures Digits(i) != [] && IsDigit(Digits(i)[0])
  {
    var digits := Digits(i);
    DigitsRoundTrip(i, rest);
    ReadNatStops(i, rest);
    AfterFirst(digits, rest);
    ParsePlain(digits + rest, digits[0] as int - 48, digits[1..] + rest);
    assert ParseInt(digits + rest).value == i;
  }

  lemma NegativeRoundTrip(i: int, rest: string)
    requires !StartsNumber(rest) && i < 0
    ensures ParseInt("-" + Digits(-i) + rest) == Got(i, rest)
  {
    DigitsRoundTrip(-i, rest);
    ReadNatStops(-i, rest);
    NegativeOf(Digits(-i), rest, i);
  }

  lemma NegativeOf(digits: string, rest: string, i: int)
    requires digits != [] && IsDigit(digits[0]) && i < 0
    requires var r := ReadNat(digits[0] as int - 48, digits[1..] + rest); r.value == -i && r.rest == rest
    ensures ParseInt("-" + digits + rest) == Got(i, rest)
  {
    AfterSign(digits, rest);
    ParseNegative("-" + digits + rest, digits[0] as int - 48, digits[1..] + rest);
  }

  lemma AfterFirst(digits: string, rest: string)
    requires digits != []
    ensures var s := digits + rest; s[0] == digits[0] && s[1..] == digits[1..] + rest
  {
  }

  lemma AfterSign(digits: string, rest: string)
    requires digits != []
    ensures var s := "-" + digits + rest; |s| > 1 && s[0] == '-' && s[1] == digits[0] && s[2..] == digits[1..] + rest
  {
  }

  lemma WordRoundTrip(word: string, rest: string)
    requires word in {"null", "true", "false"}
    ensures (word + rest)[..|word|] == word && (word + rest)[|word|..] == rest
    ensures (word + rest)[0] == word[0] && StartsWithWord(word + rest, word)
  {
  }

  /** How `Parse` reads an array body, whatever the body was printed from. */
  lemma ParseArray(body: string)
    requires body != []
    ensures Parse("[" + body) ==
      if body[0] == ']' then Got(Arr([]), body[1..])
      else match ParseItems(body) case Fail => Fail case Got(items, rest) => Got(Arr(items), rest)
  {
    var s := "[" + body;
    assert s[0] == '[' && s[1..] == body && s[2..] == body[1..];
  }

  lemma ParseObject(body: string)
    requires body != []
    ensures Parse("{" + body) ==
      if body[0] == '}' then Got(Obj(map[]), body[1..])
      else match ParseMembers(body) case Fail => Fail case Got(fields, rest) => Got(Obj(fields), rest)
  {
    var s := "{" + body;
    assert s[0] == '{' && s[1..] == body && s[2..] == body[1..];
  }

  lemma ParseItemsStep(text: string, v: Json, more: string)
    requires Parse(text + more) == Got(v, more)
    ensures StartsWith(more, ']') ==> ParseItems(text + more) == Got([v], more[1..])
    ensures StartsWith(more, ',') && ParseItems(more[1..]).Got? ==>
      ParseItems(text + more) == Got([v] + ParseItems(more[1..]).value, ParseItems(more[1..]).rest)
  {
  }

  lemma ParseMembersStep(key: string, text: string, v: Json, more: string)
    requires Parse(text + more) == Got(v, more)
    ensures StartsWith(more, '}') ==>
      ParseMembers(PrintText(Codes(key)) + (":" + (text + more))) == Got(map[key := v], more[1..])
    ensures StartsWith(more, ',') && ParseMembers(more[1..]).Got? ==>
      ParseMembers(PrintText(Codes(key)) + (":" + (text + more)))
      == Got(map[key := v] + ParseMembers(more[1..]).value, ParseMembers(more[1..]).rest)
  {
    StringRoundTrip(key, ":" + (text + more));
    assert (":" + (text + more))[1..] == text + more;
  }

  lemma ParseScalarText(v: Json, rest: string)
    requires !StartsNumber(rest) && !v.Arr? && !v.Obj?
    ensures Parse(Print(v) + rest) == Got(v, rest)
    ensures Print(v) != [] && Print(v)[0] != ']'
  {
    match v
    case Null => WordRoundTrip("null", rest);
    case Bool(b) => WordRoundTrip(if b then "true" else "false", rest);
    case Int(i) => IntRoundTrip(i, rest);
    case Str(text) => StringRoundTrip(text, rest);
  }

  lemma PrintStart(v: Json)
    ensures Print(v) != [] && Print(v)[0] != ']'
  {
    if v.Int? { IntRoundTrip(v.i, ""); }
  }

  /** The central law of `digest`: its pre-image determines the value. */
  lemma {:induction false} RoundTrip(v: Json, rest: string)
    requires !StartsNumber(rest)
    ensures Parse(Print(v) + rest) == Got(v, rest)
    decreases v, 0
  {
    match v
    case Arr(items) =>
      if items != [] { ItemsRoundTrip(items, rest); }
      ArrayText(items, rest);
    case Obj(fields) =>
      LeqIsLinear();
      var keys := InOrder(Leq, fields.Keys);
      if keys != [] { MembersRoundTrip(v, keys, rest); }
      ObjectText(v, keys, rest);
    case _ => ParseScalarText(v, rest);
  }

  lemma ArrayText(items: seq<Json>, rest: string)
    requires items != [] ==> ParseItems(PrintItems(items) + rest) == Got(items, rest)
    requires items != [] ==> PrintItems(items) != [] && PrintItems(items)[0] != ']'
    ensures Parse(Print(Arr(items)) + rest) == Got(Arr(items), rest)
  {
    var body := (if items == [] then "]" else PrintItems(items)) + rest;
    ParseArray(body);
    Associate("[", if items == [] then "]" else PrintItems(items), rest);
    if items == [] { assert body[1..] == rest; }
  }

  lemma ObjectText(v: Json, keys: seq<string>, rest: string)
    requires v.Obj? && LinearOrder(Leq) && keys == InOrder(Leq, v.fields.Keys)
    requires keys != [] ==> ParseMembers(PrintMembers(v, keys) + rest) == Got(Select(v.fields, keys), rest)
    requires keys != [] ==> PrintMembers(v, keys) != [] && PrintMembers(v, keys)[0] == '"'
    ensures Parse(Print(v) + rest) == Got(v, rest)
  {
    var body := (if keys == [] then "}" else PrintMembers(v, keys)) + rest;
    ParseObject(body);
    ObjectShape(v, keys, rest);
    assert Select(v.fields, keys) == v.fields;
    if keys == [] {
      assert body[1..] == rest;
      assert v.fields == map[] by { assert forall k :: k in v.fields ==> k in keys; }
    }
  }

  lemma ObjectShape(v: Json, keys: seq<string>, rest: string)
    requires v.Obj? && LinearOrder(Leq) && keys == InOrder(Leq, v.fields.Keys)
    ensures Print(v) + rest == "{" + ((if keys == [] then "}" else PrintMembers(v, keys)) + rest)
  {
    var inner := if keys == [] then "}" else PrintMembers(v, keys);
    assert Print(v) == "{" + inner;
    Associate("{", inner, rest);
  }

  lemma Associate(a: string, b: string, c: string)
    ensures (a + b) + c == a + (b + c)
  {
  }

  function Select(fields: map<string, Json>, keys: seq<string>): map<string, Json>
    requires forall k :: k in keys ==> k in fields
  {
    map k | k in keys :: fields[k]
  }

  lemma SelectStep(fields: map<string, Json>, keys: seq<string>)
    requires keys != [] && forall k :: k in keys ==> k in fields
    ensures Select(fields, keys) == map[keys[0] := fields[keys[0]]] + Select(fields, keys[1..])
    ensures |keys| == 1 ==> Select(fields, keys) == map[keys[0] := fields[keys[0]]]
  {
  }

  lemma {:induction false} ItemsRoundTrip(items: seq<Json>, rest: string)
    requires items != []
    ensures ParseItems(PrintItems(items) + rest) == Got(items, rest)
    ensures PrintItems(items) != [] && PrintItems(items)[0] != ']'
    decreases items, 0
  {
    var tail := if |items| == 1 then "]" else "," + PrintItems(items[1..]);
    PrintStart(items[0]);
    Associate(Print(items[0]), tail, rest);
    RoundTrip(items[0], tail + rest);
    ParseItemsStep(Print(items[0]), items[0], tail + rest);
    assert items == [items[0]] + items[1..];
    if |items| == 1 {
      TailStep(tail, "", rest);
      assert items == [items[0]];
    } else {
      ItemsRoundTrip(items[1..], rest);
      TailStep(tail, PrintItems(items[1..]), rest);
    }
  }

  lemma {:induction false} MembersRoundTrip(v: Json, keys: seq<string>, rest: string)
    requires v.Obj? && keys != [] && forall k :: k in keys ==> k in v.fields
    ensures ParseMembers(PrintMembers(v, keys) + rest) == Got(Select(v.fields, keys), rest)
    ensures PrintMembers(v, keys) != [] && PrintMembers(v, keys)[0] == '"'
    decreases v, 0, |keys|
  {
    var more := MembersTail(v, keys) + rest;
    RoundTrip(v.fields[keys[0]], more);
    if |keys| > 1 { MembersRoundTrip(v, keys[1..], rest); }
    MembersStep(v, keys, rest);
  }

  function MembersTail(v: Json, keys: seq<string>): (r: string)
    requires v.Obj? && keys != [] && forall k :: k in keys ==> k in v.fields
    ensures r != [] && !IsDigit(r[0])
  {
    if |keys| == 1 then "}" else "," + PrintMembers(v, keys[1..])
  }

  lemma MembersShape(v: Json, keys: seq<string>)
    requires v.Obj? && keys != [] && forall k :: k in keys ==> k in v.fields
    ensures PrintMembers(v, keys) == PrintText(Codes(keys[0])) + ":" + Print(v.fields[keys[0]]) + MembersTail(v, keys)
    ensures PrintMembers(v, keys) != [] && PrintMembers(v, keys)[0] == '"'
  {
  }

  lemma MembersStep(v: Json, keys: seq<string>, rest: string)
    requires v.Obj? && keys != [] && forall k :: k in keys ==> k in v.fields
    requires Parse(Print(v.fields[keys[0]]) + (MembersTail(v, keys) + rest))
      == Got(v.fields[keys[0]], MembersTail(v, keys) + rest)
    requires |keys| > 1 ==> ParseMembers(PrintMembers(v, keys[1..]) + rest) == Got(Select(v.fields, keys[1..]), rest)
    ensures ParseMembers(PrintMembers(v, keys) + rest) == Got(Select(v.fields, keys), rest)
    ensures PrintMembers(v, keys) != [] && PrintMembers(v, keys)[0] == '"'
  {
    MembersShape(v, keys);
    SelectStep(v.fields, keys);
    var next := if |keys| == 1 then "" else PrintMembers(v, keys[1..]);
    Regroup(PrintText(Codes(keys[0])), Print(v.fields[keys[0]]), MembersTail(v, keys), rest);
    TailStep(MembersTail(v, keys), next, rest);
    ParseMembersStep(keys[0], Print(v.fields[keys[0]]), v.fields[keys[0]], MembersTail(v, keys) + rest);
  }

  lemma TailStep(tail: string, next: string, rest: string)
    requires tail != [] && tail[1..] == next
    ensures (tail + rest)[1..] == next + rest && (tail + rest)[0] == tail[0]
  {
  }

  lemma Regroup(key: string, value: string, tail: string, rest: string)
    ensures (key + ":" + value + tail) + rest == key + (":" + (value + (tail + rest)))
  {
  }

  lemma PrintIsInjective(v: Json, w: Json)
    requires Print(v) == Print(w)
    ensures v == w
  {
    RoundTrip(v, "");
    RoundTrip(w, "");
  }
}
