/** The text of JSON: ECMA-262 section 25.5.2.3 (QuoteJSONString) over UTF-16 code units, the printer of JSON trees
    without white space, and the encoding of the text as UTF-8 (RFC 3629 section 3); with the byte counter
    `jsonStringByteLength` of apps/server/src/secure-json-file.ts. */
module JsonText {

  const MAX_SECURE_JSON_BYTES := 1048576

  type Unit = n: nat | n < 0x10000
  type Byte = n: nat | n < 0x100

  predicate IsHigh(c: Unit) { 0xD800 <= c <= 0xDBFF }
  predicate IsLow(c: Unit) { 0xDC00 <= c <= 0xDFFF }

  predicate StartsPair(s: seq<Unit>) {
    |s| > 1 && IsHigh(s[0]) && IsLow(s[1])
  }

  // ---------------------------------------------------------------- UTF-8

  /** A lone surrogate becomes the replacement character. */
  function EncodeUnit(c: Unit): (r: seq<Byte>)
    ensures |r| == if c < 0x80 then 1 else if c < 0x800 then 2 else 3
  {
    if c < 0x80 then [c]
    else if c < 0x800 then [0xC0 + c / 0x40, 0x80 + c % 0x40]
    else if IsHigh(c) || IsLow(c) then [0xEF, 0xBF, 0xBD]
    else [0xE0 + c / 0x1000, 0x80 + c / 0x40 % 0x40, 0x80 + c % 0x40]
  }

  /** A high surrogate contributes its last ten bits and so does a low one. */
  function EncodePair(h: Unit, l: Unit): (r: seq<Byte>)
    ensures |r| == 4
  {
    var point := 0x10000 + h % 0x400 * 0x400 + l % 0x400;
    [0xF0 + point / 0x40000, 0x80 + point / 0x1000 % 0x40, 0x80 + point / 0x40 % 0x40, 0x80 + point % 0x40]
  }

  /** Surrogate pairs and other units, one after the other. */
  function Encoded(unit: Unit -> seq<Byte>, pair: (Unit, Unit) -> seq<Byte>, s: seq<Unit>): seq<Byte>
    decreases s
  {
    if s == [] then []
    else if StartsPair(s) then pair(s[0], s[1]) + Encoded(unit, pair, s[2..])
    else unit(s[0]) + Encoded(unit, pair, s[1..])
  }

  function Utf8(s: seq<Unit>): seq<Byte> {
    Encoded(EncodeUnit, EncodePair, s)
  }

  /** The boundary does not cut a surrogate pair. */
  predicate CleanCut(a: seq<Unit>, b: seq<Unit>) {
    a == [] || b == [] || !IsHigh(a[|a| - 1]) || !IsLow(b[0])
  }

  lemma {:induction false} EncodedConcat(unit: Unit -> seq<Byte>, pair: (Unit, Unit) -> seq<Byte>, a: seq<Unit>,
                                         b: seq<Unit>)
    requires CleanCut(a, b)
    ensures Encoded(unit, pair, a + b) == Encoded(unit, pair, a) + Encoded(unit, pair, b)
    decreases a
  {
    if a == [] {
      assert a + b == b;
    } else if StartsPair(a) {
      assert (a + b)[2..] == a[2..] + b;
      EncodedConcat(unit, pair, a[2..], b);
    } else {
      assert (a + b)[1..] == a[1..] + b;
      EncodedConcat(unit, pair, a[1..], b);
    }
  }

  lemma Utf8Concat(a: seq<Unit>, b: seq<Unit>)
    requires CleanCut(a, b)
    ensures Utf8(a + b) == Utf8(a) + Utf8(b)
  {
    EncodedConcat(EncodeUnit, EncodePair, a, b);
  }

  // ---------------------------------------------------------------- strings

  const QUOTE: Unit := 0x22
  const BACKSLASH: Unit := 0x5C

  function Hex(d: nat): Unit
    requires d < 16
  {
    if d < 10 then 0x30 + d else 0x61 + d - 10
  }

  /** The letter after the backslash of a two-character escape. */
  function ShortEscape(c: Unit): Unit {
    if c == 0x08 then 0x62 else if c == 0x09 then 0x74 else if c == 0x0A then 0x6E
    else if c == 0x0C then 0x66 else if c == 0x0D then 0x72 else c
  }

  predicate HasShortEscape(c: Unit) {
    c == QUOTE || c == BACKSLASH || c == 0x08 || c == 0x09 || c == 0x0A || c == 0x0C || c == 0x0D
  }

  /** The last `width` hexadecimal digits. */
  function HexDigits(n: nat, width: nat): (r: seq<Unit>)
    ensures |r| == width && forall i :: 0 <= i < |r| ==> r[i] < 0x80
    decreases width, n
  {
    if width == 0 then [] else HexDigits(n / 16, width - 1) + [Hex(n % 16)]
  }

  function QuoteUnit(c: Unit): (r: seq<Unit>)
    ensures |r| > 0 && forall i :: 0 <= i < |r| ==> !IsHigh(r[i]) && !IsLow(r[i])
  {
    if HasShortEscape(c) then [BACKSLASH, ShortEscape(c)]
    else if c < 0x20 || IsHigh(c) || IsLow(c) then
      [BACKSLASH, 0x75] + HexDigits(c, 4)
    else [c]
  }

  function QuoteBody(s: seq<Unit>): seq<Unit> {
    if s == [] then []
    else if StartsPair(s) then [s[0], s[1]] + QuoteBody(s[2..])
    else QuoteUnit(s[0]) + QuoteBody(s[1..])
  }

  function Quote(s: seq<Unit>): seq<Unit> {
    [QUOTE] + QuoteBody(s) + [QUOTE]
  }

  lemma {:induction false} QuoteBodyStartsClean(s: seq<Unit>)
    ensures QuoteBody(s) == [] || !IsLow(QuoteBody(s)[0])
  {
  }

  /** What the first character of the string adds to the number of bytes. */
  function UnitBytes(c: Unit): nat {
    if HasShortEscape(c) then 2
    else if c < 0x20 || IsHigh(c) || IsLow(c) then 6
    else if c < 0x80 then 1 else if c < 0x800 then 2 else 3
  }

  function BodyBytes(s: seq<Unit>): nat {
    if s == [] then 0
    else if StartsPair(s) then 4 + BodyBytes(s[2..])
    else UnitBytes(s[0]) + BodyBytes(s[1..])
  }

  /** The number of bytes of a quoted string, counted without quoting it. */
  function QuotedBytes(s: seq<Unit>): nat {
    2 + BodyBytes(s)
  }

  lemma EncodeOne(c: Unit)
    ensures Utf8([c]) == EncodeUnit(c)
  {
    assert [c][1..] == [];
    assert Encoded(EncodeUnit, EncodePair, [c]) == EncodeUnit(c) + Encoded(EncodeUnit, EncodePair, []);
    assert EncodeUnit(c) + [] == EncodeUnit(c);
  }

  lemma {:induction false} AsciiBytes(s: seq<Unit>)
    requires forall i :: 0 <= i < |s| ==> s[i] < 0x80
    ensures |Utf8(s)| == |s|
  {
    if s != [] {
      AsciiBytes(s[1..]);
    }
  }

  lemma QuoteUnitBytes(c: Unit)
    ensures |Utf8(QuoteUnit(c))| == UnitBytes(c)
  {
    if HasShortEscape(c) || c < 0x20 || IsHigh(c) || IsLow(c) {
      AsciiBytes(QuoteUnit(c));
    } else {
      EncodeOne(c);
    }
  }

  lemma {:induction false} BodyIsEncoded(s: seq<Unit>)
    ensures |Utf8(QuoteBody(s))| == BodyBytes(s)
  {
    if s == [] {
    } else if StartsPair(s) {
      var rest := QuoteBody(s[2..]);
      BodyIsEncoded(s[2..]);
      assert ([s[0], s[1]] + rest)[2..] == rest;
    } else {
      BodyIsEncoded(s[1..]);
      QuoteBodyStartsClean(s[1..]);
      Utf8Concat(QuoteUnit(s[0]), QuoteBody(s[1..]));
      QuoteUnitBytes(s[0]);
    }
  }

  /** The count is the length of the encoded quoted string. */
  lemma QuotedIsEncoded(s: seq<Unit>)
    ensures |Utf8(Quote(s))| == QuotedBytes(s)
  {
    BodyIsEncoded(s);
    QuoteBodyStartsClean(s);
    Utf8Concat([QUOTE], QuoteBody(s));
    Utf8Concat([QUOTE] + QuoteBody(s), [QUOTE]);
    assert Utf8([QUOTE]) == [QUOTE];
  }

  /** `jsonStringByteLength`: the number of bytes of the quoted string, or, if that exceeds the limit, perhaps a
      smaller number that exceeds it as well. */
  method JsonStringByteLength(s: seq<Unit>) returns (bytes: nat)
    ensures bytes <= QuotedBytes(s)
    ensures bytes == QuotedBytes(s) || bytes > MAX_SECURE_JSON_BYTES
  {
    assert s[0..] == s;
    bytes := 2;
    var index := 0;
    while index < |s|
      invariant index <= |s|
      invariant bytes + BodyBytes(s[index..]) == QuotedBytes(s)
    {
      assert s[index..][1..] == s[index + 1..];
      var code := s[index];
      if code == 0x22 || code == 0x5C || code == 0x08 || code == 0x09 || code == 0x0A || code == 0x0C || code == 0x0D {
        bytes := bytes + 2;
      } else if code < 0x20 {
        bytes := bytes + 6;
      } else if code < 0x80 {
        bytes := bytes + 1;
      } else if code < 0x800 {
        bytes := bytes + 2;
      } else if 0xD800 <= code <= 0xDBFF {
        if index + 1 < |s| && 0xDC00 <= s[index + 1] <= 0xDFFF {
          assert s[index..][2..] == s[index + 2..];
          bytes := bytes + 4;
          index := index + 1;
        } else {
          bytes := bytes + 6;
        }
      } else if 0xDC00 <= code <= 0xDFFF {
        bytes := bytes + 6;
      } else {
        bytes := bytes + 3;
      }
      index := index + 1;
      if bytes > MAX_SECURE_JSON_BYTES {
        return;
      }
    }
  }

  // ---------------------------------------------------------------- quoting loses nothing

  function Unhex(c: Unit): Unit {
    if 0x30 <= c <= 0x39 then c - 0x30 else if 0x61 <= c <= 0x66 then c - 0x61 + 10 else 0
  }

  function HexValue(digits: seq<Unit>): nat {
    if digits == [] then 0 else HexValue(digits[..|digits| - 1]) * 16 + Unhex(digits[|digits| - 1])
  }

  function LongEscape(s: seq<Unit>): Unit
    requires |s| >= 6
  {
    var code := HexValue(s[2..6]);
    if code < 0x10000 then code else 0
  }

  function Unescaped(c: Unit): Unit {
    if c == 0x62 then 0x08 else if c == 0x74 then 0x09 else if c == 0x6E then 0x0A
    else if c == 0x66 then 0x0C else if c == 0x72 then 0x0D else c
  }

  /** Reads the characters of a string literal up to the closing quote: the string, and the text after it. */
  function Unquote(s: seq<Unit>): (seq<Unit>, seq<Unit>) {
    if s == [] then ([], [])
    else if s[0] == QUOTE then ([], s[1..])
    else if s[0] == BACKSLASH && |s| >= 6 && s[1] == 0x75 then
      var rest := Unquote(s[6..]);
      ([LongEscape(s)] + rest.0, rest.1)
    else if s[0] == BACKSLASH && |s| >= 2 then
      var rest := Unquote(s[2..]);
      ([Unescaped(s[1])] + rest.0, rest.1)
    else
      var rest := Unquote(s[1..]);
      ([s[0]] + rest.0, rest.1)
  }

  function Power16(width: nat): nat
    decreases width, 0
  {
    if width == 0 then 1 else 16 * Power16(width - 1)
  }

  lemma {:induction false} HexRoundTrip(n: nat, width: nat)
    requires n < Power16(width)
    ensures HexValue(HexDigits(n, width)) == n
    decreases width
  {
    if width > 0 {
      HexRoundTrip(n / 16, width - 1);
      var digits := HexDigits(n / 16, width - 1);
      assert (digits + [Hex(n % 16)])[..width - 1] == digits;
      assert Unhex(Hex(n % 16)) == n % 16;
    }
  }

  lemma FourDigits(c: Unit)
    ensures HexValue(HexDigits(c, 4)) == c
  {
    assert Power16(1) == 16;
    assert Power16(2) == 0x100;
    assert Power16(3) == 0x1000;
    assert Power16(4) == 0x10000;
    HexRoundTrip(c, 4);
  }

  lemma UnquoteShort(c: Unit, rest: seq<Unit>)
    requires HasShortEscape(c)
    ensures Unquote([BACKSLASH, ShortEscape(c)] + rest) == ([c] + Unquote(rest).0, Unquote(rest).1)
  {
    var s := [BACKSLASH, ShortEscape(c)] + rest;
    assert s[2..] == rest;
    assert ShortEscape(c) != 0x75 && Unescaped(ShortEscape(c)) == c;
  }

  lemma UnquoteLong(c: Unit, digits: seq<Unit>, rest: seq<Unit>)
    requires |digits| == 4 && HexValue(digits) == c
    ensures Unquote([BACKSLASH, 0x75] + digits + rest) == ([c] + Unquote(rest).0, Unquote(rest).1)
  {
    var s := [BACKSLASH, 0x75] + digits + rest;
    assert s[6..] == rest && s[2..6] == digits;
  }

  lemma UnquoteUnit(c: Unit, rest: seq<Unit>)
    ensures Unquote(QuoteUnit(c) + rest) == ([c] + Unquote(rest).0, Unquote(rest).1)
  {
    if HasShortEscape(c) {
      UnquoteShort(c, rest);
    } else if c < 0x20 || IsHigh(c) || IsLow(c) {
      FourDigits(c);
      UnquoteLong(c, HexDigits(c, 4), rest);
    } else {
      UnquotePlain(c, rest);
    }
  }

  lemma UnquotePlain(c: Unit, rest: seq<Unit>)
    requires c != QUOTE && c != BACKSLASH
    ensures Unquote([c] + rest) == ([c] + Unquote(rest).0, Unquote(rest).1)
  {
    assert ([c] + rest)[1..] == rest;
  }

  lemma UnquotePrependUnit(c: Unit, body: seq<Unit>, tail: seq<Unit>)
    ensures Unquote(QuoteUnit(c) + body + tail) == ([c] + Unquote(body + tail).0, Unquote(body + tail).1)
  {
    UnquoteUnit(c, body + tail);
    assert QuoteUnit(c) + body + tail == QuoteUnit(c) + (body + tail);
  }

  lemma UnquotePrependPair(h: Unit, l: Unit, body: seq<Unit>, tail: seq<Unit>)
    requires IsHigh(h) && IsLow(l)
    ensures Unquote([h, l] + body + tail) == ([h, l] + Unquote(body + tail).0, Unquote(body + tail).1)
  {
    UnquotePlain(l, body + tail);
    UnquotePlain(h, [l] + (body + tail));
    assert [h, l] + body + tail == [h] + ([l] + (body + tail));
    assert [h] + ([l] + Unquote(body + tail).0) == [h, l] + Unquote(body + tail).0;
  }

  /** Reading a quoted string back gives the string, lone surrogates and control characters included, and stops right
      behind its closing quote. */
  lemma {:induction false} QuoteRoundTrip(s: seq<Unit>, after: seq<Unit>)
    ensures Unquote(QuoteBody(s) + ([QUOTE] + after)) == (s, after)
  {
    var tail := [QUOTE] + after;
    if s == [] {
      assert QuoteBody(s) + tail == tail && tail[1..] == after;
    } else if StartsPair(s) {
      QuoteRoundTrip(s[2..], after);
      UnquotePrependPair(s[0], s[1], QuoteBody(s[2..]), tail);
      assert [s[0], s[1]] + s[2..] == s;
    } else {
      QuoteRoundTrip(s[1..], after);
      UnquotePrependUnit(s[0], QuoteBody(s[1..]), tail);
      assert [s[0]] + s[1..] == s;
    }
  }

  /** The quoted text never contains a lone surrogate, so its encoding never replaces anything. */
  ghost predicate WellFormed(s: seq<Unit>)
    decreases |s|
  {
    s == [] || (if StartsPair(s) then WellFormed(s[2..]) else !IsHigh(s[0]) && !IsLow(s[0]) && WellFormed(s[1..]))
  }

  lemma {:induction false} QuoteIsWellFormed(s: seq<Unit>)
    ensures WellFormed(QuoteBody(s) + [QUOTE])
  {
    var text := QuoteBody(s) + [QUOTE];
    if s == [] {
      assert text == [QUOTE];
    } else if StartsPair(s) {
      QuoteIsWellFormed(s[2..]);
      assert text[2..] == QuoteBody(s[2..]) + [QUOTE];
    } else {
      QuoteIsWellFormed(s[1..]);
      assert text == QuoteUnit(s[0]) + (QuoteBody(s[1..]) + [QUOTE]);
      PlainPrefixWellFormed(QuoteUnit(s[0]), QuoteBody(s[1..]) + [QUOTE]);
    }
  }

  lemma {:induction false} PlainPrefixWellFormed(a: seq<Unit>, b: seq<Unit>)
    requires WellFormed(b) && forall i :: 0 <= i < |a| ==> !IsHigh(a[i]) && !IsLow(a[i])
    ensures WellFormed(a + b)
  {
    if a == [] {
      assert a + b == b;
    } else {
      PlainPrefixWellFormed(a[1..], b);
      assert (a + b)[1..] == a[1..] + b;
    }
  }

  // ---------------------------------------------------------------- trees

  type Ascii = s: seq<Unit> | s != [] && forall i :: 0 <= i < |s| ==> s[i] < 0x80 witness [0x30]

  datatype Primitive = Null | Bool(b: bool) | Number(text: Ascii) | Text(units: seq<Unit>)

  /** The members of a list have empty names. */
  datatype Json = Leaf(p: Primitive) | Branch(list: bool, members: seq<Member>)
  datatype Member = Member(name: seq<Unit>, value: Json)

  const NULL: seq<Unit> := [0x6E, 0x75, 0x6C, 0x6C]
  const TRUE: seq<Unit> := [0x74, 0x72, 0x75, 0x65]
  const FALSE: seq<Unit> := [0x66, 0x61, 0x6C, 0x73, 0x65]
  const COMMA: Unit := 0x2C
  const COLON: Unit := 0x3A

  function PrintPrimitive(p: Primitive): seq<Unit> {
    match p
    case Null => NULL
    case Bool(b) => if b then TRUE else FALSE
    case Number(text) => text
    case Text(units) => Quote(units)
  }

  function Print(t: Json): seq<Unit> {
    match t
    case Leaf(p) => PrintPrimitive(p)
    case Branch(list, members) =>
      [if list then 0x5B else 0x7B] + PrintMembers(list, members) + [if list then 0x5D else 0x7D]
  }

  function PrintMembers(list: bool, members: seq<Member>): seq<Unit>
    decreases members
  {
    if members == [] then []
    else
      (if list then [] else Quote(members[0].name) + [COLON]) + Print(members[0].value)
      + (if |members| == 1 then [] else [COMMA] + PrintMembers(list, members[1..]))
  }

  function PrimitiveBytes(p: Primitive): nat {
    match p
    case Null => 4
    case Bool(b) => if b then 4 else 5
    case Number(text) => |text|
    case Text(units) => QuotedBytes(units)
  }

  function Commas(n: nat): nat {
    if n == 0 then 0 else n - 1
  }

  /** The size of the tree and of its text, counted without printing. */
  function TreeNodes(t: Json): nat {
    match t
    case Leaf(_) => 1
    case Branch(_, members) => 1 + MemberNodes(members)
  }

  function MemberNodes(members: seq<Member>): nat {
    if members == [] then 0 else TreeNodes(members[0].value) + MemberNodes(members[1..])
  }

  function TreeBytes(t: Json): nat {
    match t
    case Leaf(p) => PrimitiveBytes(p)
    case Branch(list, members) => 2 + Commas(|members|) + MemberBytes(list, members)
  }

  function MemberBytes(list: bool, members: seq<Member>): nat
    decreases members
  {
    if members == [] then 0
    else (if list then 0 else QuotedBytes(members[0].name) + 1) + TreeBytes(members[0].value)
         + MemberBytes(list, members[1..])
  }

  ghost predicate AsciiEnds(s: seq<Unit>) {
    s != [] && s[0] < 0x80 && s[|s| - 1] < 0x80
  }

  lemma PrimitiveText(p: Primitive)
    ensures AsciiEnds(PrintPrimitive(p)) && |Utf8(PrintPrimitive(p))| == PrimitiveBytes(p)
  {
    match p
    case Null => AsciiBytes(NULL);
    case Bool(b) => AsciiBytes(PrintPrimitive(p));
    case Number(text) => AsciiBytes(text);
    case Text(units) => QuotedIsEncoded(units);
  }

  /** Joining two texts adds their bytes when the first ends, or the second starts, in ASCII. */
  lemma JoinedBytes(a: seq<Unit>, b: seq<Unit>)
    requires a == [] || b == [] || a[|a| - 1] < 0x80 || b[0] < 0x80
    ensures |Utf8(a + b)| == |Utf8(a)| + |Utf8(b)|
  {
    Utf8Concat(a, b);
  }

  lemma OneByte(c: Unit)
    requires c < 0x80
    ensures |Utf8([c])| == 1
  {
    EncodeOne(c);
  }

  /** The counted bytes are exactly the length of the UTF-8 encoding of the printed tree. */
  lemma {:induction false} PrintedBytes(t: Json)
    ensures AsciiEnds(Print(t)) && |Utf8(Print(t))| == TreeBytes(t)
  {
    match t
    case Leaf(p) => PrimitiveText(p);
    case Branch(list, members) =>
      PrintedMembers(list, members);
      var open: seq<Unit>, close: seq<Unit> := [if list then 0x5B else 0x7B], [if list then 0x5D else 0x7D];
      var inner := PrintMembers(list, members);
      OneByte(open[0]);
      OneByte(close[0]);
      JoinedBytes(open, inner);
      JoinedBytes(open + inner, close);
  }

  function NamePart(list: bool, name: seq<Unit>): seq<Unit> {
    if list then [] else Quote(name) + [COLON]
  }

  lemma NamePartBytes(list: bool, name: seq<Unit>)
    ensures |Utf8(NamePart(list, name))| == if list then 0 else QuotedBytes(name) + 1
    ensures list || AsciiEnds(NamePart(list, name))
  {
    if !list {
      OneByte(COLON);
      QuotedIsEncoded(name);
      JoinedBytes(Quote(name), [COLON]);
    }
  }

  lemma {:induction false} PrintedMembers(list: bool, members: seq<Member>)
    ensures |Utf8(PrintMembers(list, members))| == Commas(|members|) + MemberBytes(list, members)
    ensures members == [] || AsciiEnds(PrintMembers(list, members))
    decreases members
  {
    if members != [] {
      var name, value := NamePart(list, members[0].name), Print(members[0].value);
      PrintedBytes(members[0].value);
      NamePartBytes(list, members[0].name);
      JoinedBytes(name, value);
      if |members| > 1 {
        var rest := PrintMembers(list, members[1..]);
        PrintedMembers(list, members[1..]);
        OneByte(COMMA);
        JoinedBytes([COMMA], rest);
        JoinedBytes(name + value, [COMMA] + rest);
        assert PrintMembers(list, members) == name + value + ([COMMA] + rest);
      } else {
        assert members[1..] == [];
        assert PrintMembers(list, members) == name + value;
      }
    }
  }
}
