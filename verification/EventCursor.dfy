/** The text of an event cursor: base64url without padding (section 5 of RFC 4648) over
    "sequence|time|uuid", and its parser. */
module EventCursor {
  import opened Basics

  newtype Byte = n: int | 0 <= n < 256

  /** A Go string. */
  type Text = seq<Byte>

  const BAR: Byte := '|' as Byte
  const DASH: Byte := '-' as Byte
  const PLUS: Byte := '+' as Byte
  const UNDERSCORE: Byte := '_' as Byte
  const CR: Byte := '\r' as Byte
  const LF: Byte := '\n' as Byte

  /** The place of `c` in a run of `n` characters that starts at `first`. */
  function Place(c: Byte, first: char, n: nat): (k: Option<nat>)
    ensures k.Some? ==> k.value < n
  {
    if first as int <= c as int < first as int + n then Some(c as int - first as int) else None
  }

  // ----- Base64url ---------------------------------------------------------------------

  function Symbol(n: nat): Byte
    requires n < 64
  {
    if n < 26 then (n + 'A' as int) as Byte
    else if n < 52 then (n - 26 + 'a' as int) as Byte
    else if n < 62 then (n - 52 + '0' as int) as Byte
    else if n == 62 then DASH else UNDERSCORE
  }

  function Sextet(c: Byte): (n: Option<nat>)
    ensures n.Some? ==> n.value < 64
  {
    if Place(c, 'A', 26).Some? then Place(c, 'A', 26)
    else if Place(c, 'a', 26).Some? then Some(26 + Place(c, 'a', 26).value)
    else if Place(c, '0', 10).Some? then Some(52 + Place(c, '0', 10).value)
    else if c == DASH then Some(62)
    else if c == UNDERSCORE then Some(63)
    else None
  }

  // Three bytes a, b, c as four sextets w, x, y, z, and back.
  function SextetW(a: Byte): (n: nat) ensures n < 64 { a as int / 4 }
  function SextetX(a: Byte, b: Byte): (n: nat) ensures n < 64 { a as int % 4 * 16 + b as int / 16 }
  function SextetY(b: Byte, c: Byte): (n: nat) ensures n < 64 { b as int % 16 * 4 + c as int / 64 }
  function SextetZ(c: Byte): (n: nat) ensures n < 64 { c as int % 64 }
  function ByteA(w: nat, x: nat): Byte requires w < 64 && x < 64 { (w * 4 + x / 16) as Byte }
  function ByteB(x: nat, y: nat): Byte requires x < 64 && y < 64 { (x % 16 * 16 + y / 4) as Byte }
  function ByteC(y: nat, z: nat): Byte requires y < 64 && z < 64 { (y % 4 * 64 + z) as Byte }

  lemma {:induction false} Regroup(a: Byte, b: Byte, c: Byte)
    ensures var w, x, y, z := SextetW(a), SextetX(a, b), SextetY(b, c), SextetZ(c);
            ByteA(w, x) == a && ByteB(x, y) == b && ByteC(y, z) == c
  {
  }

  function Encode(s: Text): Text {
    if |s| == 0 then []
    else if |s| == 1 then [Symbol(SextetW(s[0])), Symbol(SextetX(s[0], 0))]
    else if |s| == 2 then [Symbol(SextetW(s[0])), Symbol(SextetX(s[0], s[1])), Symbol(SextetY(s[1], 0))]
    else
      [Symbol(SextetW(s[0])), Symbol(SextetX(s[0], s[1])), Symbol(SextetY(s[1], s[2])), Symbol(SextetZ(s[2]))]
      + Encode(s[3..])
  }

  /** The decoder skips line breaks. */
  function Unbroken(s: Text): Text {
    if s == [] then []
    else if s[0] == CR || s[0] == LF then Unbroken(s[1..])
    else [s[0]] + Unbroken(s[1..])
  }

  function DecodeSymbols(s: Text): Option<Text> {
    if |s| == 0 then Some([])
    else if |s| == 1 then None
    else
      var w, x := Sextet(s[0]), Sextet(s[1]);
      if w.None? || x.None? then None
      else if |s| == 2 then Some([ByteA(w.value, x.value)])
      else
        var y := Sextet(s[2]);
        if y.None? then None
        else if |s| == 3 then Some([ByteA(w.value, x.value), ByteB(x.value, y.value)])
        else
          var z, rest := Sextet(s[3]), DecodeSymbols(s[4..]);
          if z.None? || rest.None? then None
          else Some([ByteA(w.value, x.value), ByteB(x.value, y.value), ByteC(y.value, z.value)] + rest.value)
  }

  function Decode(s: Text): Option<Text> {
    DecodeSymbols(Unbroken(s))
  }

  lemma {:induction false} SymbolRoundTrip(n: nat)
    requires n < 64
    ensures Sextet(Symbol(n)) == Some(n) && Symbol(n) != CR && Symbol(n) != LF
  {
  }

  lemma {:induction false} PairRoundTrip(a: Byte, b: Byte)
    ensures DecodeSymbols([Symbol(SextetW(a)), Symbol(SextetX(a, b))]) == Some([a])
  {
    Regroup(a, b, b);
    SymbolRoundTrip(SextetW(a));
    SymbolRoundTrip(SextetX(a, b));
    hide Symbol, Sextet, SextetW, SextetX, SextetY, SextetZ, ByteA, ByteB, ByteC;
  }

  lemma {:induction false} TripleRoundTrip(a: Byte, b: Byte, c: Byte)
    ensures DecodeSymbols([Symbol(SextetW(a)), Symbol(SextetX(a, b)), Symbol(SextetY(b, c))]) == Some([a, b])
  {
    Regroup(a, b, c);
    SymbolRoundTrip(SextetW(a));
    SymbolRoundTrip(SextetX(a, b));
    SymbolRoundTrip(SextetY(b, c));
    hide Symbol, Sextet, SextetW, SextetX, SextetY, SextetZ, ByteA, ByteB, ByteC;
  }

  lemma {:induction false} JoinedParts(head: Text, t: Text)
    requires |head| == 4
    ensures |head + t| >= 4 && (head + t)[..4] == head && (head + t)[4..] == t
    ensures (head + t)[0] == head[0] && (head + t)[1] == head[1] && (head + t)[2] == head[2] && (head + t)[3] == head[3]
  {
  }

  lemma {:induction false} GroupRoundTrip(a: Byte, b: Byte, c: Byte, t: Text, rest: Text)
    requires DecodeSymbols(t) == Some(rest)
    ensures DecodeSymbols([Symbol(SextetW(a)), Symbol(SextetX(a, b)), Symbol(SextetY(b, c)), Symbol(SextetZ(c))] + t)
            == Some([a, b, c] + rest)
  {
    Regroup(a, b, c);
    SymbolRoundTrip(SextetW(a));
    SymbolRoundTrip(SextetX(a, b));
    SymbolRoundTrip(SextetY(b, c));
    SymbolRoundTrip(SextetZ(c));
    hide Symbol, Sextet, SextetW, SextetX, SextetY, SextetZ, ByteA, ByteB, ByteC;
    var head := [Symbol(SextetW(a)), Symbol(SextetX(a, b)), Symbol(SextetY(b, c)), Symbol(SextetZ(c))];
    JoinedParts(head, t);
  }

  lemma {:induction false} DecodeEncodedSymbols(s: Text)
    ensures DecodeSymbols(Encode(s)) == Some(s)
  {
    if s != [] {
      hide Symbol, SextetW, SextetX, SextetY, SextetZ, DecodeSymbols;
      if |s| == 1 {
        PairRoundTrip(s[0], 0);
        assert s == [s[0]];
      } else if |s| == 2 {
        TripleRoundTrip(s[0], s[1], 0);
        assert s == [s[0], s[1]];
      } else {
        DecodeEncodedSymbols(s[3..]);
        GroupRoundTrip(s[0], s[1], s[2], Encode(s[3..]), s[3..]);
        assert s == [s[0], s[1], s[2]] + s[3..];
      }
    }
  }

  predicate NoBreaks(s: Text) {
    CR !in s && LF !in s
  }

  lemma {:induction false} UnbrokenStays(s: Text)
    requires NoBreaks(s)
    ensures Unbroken(s) == s
  {
    if s != [] {
      UnbrokenStays(s[1..]);
    }
  }

  lemma {:induction false} EncodedHasNoBreaks(s: Text)
    ensures NoBreaks(Encode(s))
  {
    forall n: nat | n < 64 ensures Symbol(n) != CR && Symbol(n) != LF { SymbolRoundTrip(n); }
    hide Symbol;
    if |s| > 2 {
      EncodedHasNoBreaks(s[3..]);
    }
  }

  /** Decoding undoes encoding, for all byte strings. */
  lemma {:induction false} Base64RoundTrip(s: Text)
    ensures Decode(Encode(s)) == Some(s)
  {
    EncodedHasNoBreaks(s);
    UnbrokenStays(Encode(s));
    DecodeEncodedSymbols(s);
  }

  /** Table 2 of RFC 4648: A to Z, a to z, 0 to 9, minus and underline. */
  lemma {:induction false} SymbolsAreTheAlphabet(n: nat)
    ensures Symbol(0) == 'A' as Byte && Symbol(25) == 'Z' as Byte && Symbol(26) == 'a' as Byte && Symbol(51) == 'z' as Byte
    ensures Symbol(52) == '0' as Byte && Symbol(61) == '9' as Byte && Symbol(62) == '-' as Byte && Symbol(63) == '_' as Byte
    ensures n < 25 || 26 <= n < 51 || 52 <= n < 61 ==> Symbol(n + 1) == Symbol(n) + 1
  {
  }

  /** The four sextets spell the same 24 bits as the three bytes. */
  lemma {:induction false} SextetsSpellBytes(a: Byte, b: Byte, c: Byte)
    ensures ((SextetW(a) * 64 + SextetX(a, b)) * 64 + SextetY(b, c)) * 64 + SextetZ(c) == (a as int * 256 + b as int) * 256 + c as int
  {
  }

  // ----- Decimal -----------------------------------------------------------------------

  function Digit(n: nat): (c: Byte)
    requires n < 10
    ensures Place(c, '0', 10) == Some(n)
  {
    (n + '0' as int) as Byte
  }

  function Digits(n: nat): (s: Text)
    ensures s != [] && forall i :: 0 <= i < |s| ==> Place(s[i], '0', 10).Some?
  {
    if n < 10 then [Digit(n)] else Digits(n / 10) + [Digit(n % 10)]
  }

  function FormatInt(n: int): Text {
    if n < 0 then [DASH] + Digits(-n) else Digits(n)
  }

  function DigitsValue(s: Text): Option<nat> {
    if s == [] then Some(0)
    else
      var low, high := Place(s[|s| - 1], '0', 10), DigitsValue(s[..|s| - 1]);
      if high.None? || low.None? then None else Some(10 * high.value + low.value)
  }

  /** `strconv.ParseInt(s, 10, 64)` */
  function ParseInt(s: Text): Option<int> {
    if s == [] then None
    else
      var digits := if s[0] == PLUS || s[0] == DASH then s[1..] else s;
      var n := if digits == [] then None else DigitsValue(digits);
      if n.None? then None
      else if s[0] == DASH then (if n.value <= TWO_63 then Some(-n.value) else None)
      else if n.value < TWO_63 then Some(n.value) else None
  }

  lemma {:induction false} DigitsRoundTrip(n: nat)
    ensures DigitsValue(Digits(n)) == Some(n)
  {
    var s := Digits(n);
    if n < 10 {
      assert s[..0] == [];
    } else {
      DigitsRoundTrip(n / 10);
      assert s[..|s| - 1] == Digits(n / 10);
    }
  }

  /** Every 64-bit integer parses back. */
  lemma {:induction false} IntRoundTrip(n: int)
    requires -TWO_63 <= n < TWO_63
    ensures ParseInt(FormatInt(n)) == Some(n)
  {
    hide Digits, DigitsValue;
    if n < 0 {
      DigitsRoundTrip(-n);
      assert FormatInt(n)[1..] == Digits(-n);
    } else {
      DigitsRoundTrip(n);
    }
  }

  // ----- UUIDs -------------------------------------------------------------------------

  function HexDigit(n: nat): Byte
    requires n < 16
  {
    if n < 10 then Digit(n) else (n - 10 + 'a' as int) as Byte
  }

  function HexValue(c: Byte): (n: Option<nat>)
    ensures n.Some? ==> n.value < 16
  {
    if Place(c, '0', 10).Some? then Place(c, '0', 10)
    else if Place(c, 'a', 6).Some? then Some(10 + Place(c, 'a', 6).value)
    else if Place(c, 'A', 6).Some? then Some(10 + Place(c, 'A', 6).value)
    else None
  }

  function Hex(s: Text): (h: Text)
    ensures |h| == 2 * |s|
  {
    if s == [] then [] else [HexDigit(s[0] as int / 16), HexDigit(s[0] as int % 16)] + Hex(s[1..])
  }

  function Unhex(s: Text): Option<Text> {
    if s == [] then Some([])
    else if |s| == 1 then None
    else
      var high, low, rest := HexValue(s[0]), HexValue(s[1]), Unhex(s[2..]);
      if high.None? || low.None? || rest.None? then None
      else Some([(high.value * 16 + low.value) as Byte] + rest.value)
  }

  /** The 16 bytes of a uuid in five groups of hexadecimal digits. */
  function FormatUuid(id: Text): (s: Text)
    requires |id| == 16
    ensures |s| == 36
  {
    Hex(id[..4]) + [DASH] + Hex(id[4..6]) + [DASH] + Hex(id[6..8]) + [DASH] + Hex(id[8..10]) + [DASH] + Hex(id[10..])
  }

  /** The driver takes the digits by position, with or without the separators. */
  function ParseUuid(s: Text): Option<Text> {
    if |s| == 36 then Unhex(s[0..8] + s[9..13] + s[14..18] + s[19..23] + s[24..])
    else if |s| == 32 then Unhex(s)
    else None
  }

  lemma {:induction false} HexDigitRoundTrip(n: nat)
    requires n < 16
    ensures HexValue(HexDigit(n)) == Some(n)
  {
  }

  lemma {:induction false} UnhexHex(s: Text)
    ensures Unhex(Hex(s)) == Some(s)
  {
    if s != [] {
      HexDigitRoundTrip(s[0] as int / 16);
      HexDigitRoundTrip(s[0] as int % 16);
      hide HexDigit, HexValue;
      UnhexHex(s[1..]);
      assert Hex(s)[2..] == Hex(s[1..]);
      assert s == [s[0]] + s[1..];
    }
  }

  lemma {:induction false} HexAppend(s: Text, t: Text)
    ensures Hex(s + t) == Hex(s) + Hex(t)
  {
    hide HexDigit;
    if s == [] {
      assert s + t == t;
    } else {
      HexAppend(s[1..], t);
      assert (s + t)[1..] == s[1..] + t;
    }
  }

  lemma {:induction false} UuidRoundTrip(id: Text)
    requires |id| == 16
    ensures ParseUuid(FormatUuid(id)) == Some(id)
  {
    hide Hex, Unhex;
    var s := FormatUuid(id);
    assert s[0..8] == Hex(id[..4]) && s[9..13] == Hex(id[4..6]) && s[14..18] == Hex(id[6..8])
        && s[19..23] == Hex(id[8..10]) && s[24..] == Hex(id[10..]);
    GroupsJoin(id);
    UnhexHex(id);
  }

  lemma {:induction false} GroupsJoin(id: Text)
    requires |id| == 16
    ensures Hex(id[..4]) + Hex(id[4..6]) + Hex(id[6..8]) + Hex(id[8..10]) + Hex(id[10..]) == Hex(id)
  {
    hide Hex;
    HexAppend(id[..4], id[4..6]);
    assert id[..4] + id[4..6] == id[..6];
    HexAppend(id[..6], id[6..8]);
    assert id[..6] + id[6..8] == id[..8];
    HexAppend(id[..8], id[8..10]);
    assert id[..8] + id[8..10] == id[..10];
    HexAppend(id[..10], id[10..]);
    assert id[..10] + id[10..] == id;
  }

  // ----- Cursors -----------------------------------------------------------------------

  /** The time is given by its text. */
  datatype Cursor = Cursor(number: int, time: Text, id: Text)

  /** The text before and after the first separator. */
  function Cut(s: Text): Option<(Text, Text)> {
    if s == [] then None
    else if s[0] == BAR then Some(([], s[1..]))
    else
      var rest := Cut(s[1..]);
      if rest.None? then None else Some(([s[0]] + rest.value.0, rest.value.1))
  }

  lemma {:induction false} CutJoined(s: Text, t: Text)
    requires BAR !in s
    ensures Cut(s + [BAR] + t) == Some((s, t))
  {
    var joined := s + [BAR] + t;
    if s == [] {
      assert joined[1..] == t;
    } else {
      CutJoined(s[1..], t);
      assert joined[1..] == s[1..] + [BAR] + t;
      assert s == [s[0]] + s[1..];
    }
  }

  predicate Formattable(c: Cursor) {
    -TWO_63 <= c.number < TWO_63 && |c.id| == 16 && c.time != [] && BAR !in c.time
  }

  /** `formatEventCursor` */
  function Format(c: Cursor): Text
    requires Formattable(c)
  {
    Encode(FormatInt(c.number) + [BAR] + c.time + [BAR] + FormatUuid(c.id))
  }

  function ParseParts(number: Text, time: Text, id: Text, isTime: Text -> bool): Option<Cursor> {
    if number == [] || time == [] || id == [] then None
    else
      var n, uuid := ParseInt(number), ParseUuid(id);
      if n.None? || n.value < 1 || !isTime(time) || uuid.None? then None
      else Some(Cursor(n.value, time, uuid.value))
  }

  /** `parseEventCursor`, with the time parser as a parameter. */
  function Parse(s: Text, isTime: Text -> bool): Option<Cursor> {
    var decoded := Decode(s);
    var first := if decoded.None? then None else Cut(decoded.value);
    var second := if first.None? then None else Cut(first.value.1);
    if second.None? then None
    else ParseParts(first.value.0, second.value.0, second.value.1, isTime)
  }

  lemma {:induction false} TextSplits(c: Cursor)
    requires Formattable(c)
    ensures var number, id := FormatInt(c.number), FormatUuid(c.id);
            && Cut(number + [BAR] + c.time + [BAR] + id) == Some((number, c.time + [BAR] + id))
            && Cut(c.time + [BAR] + id) == Some((c.time, id))
  {
    var number, id := FormatInt(c.number), FormatUuid(c.id);
    assert BAR !in number;
    hide Cut, FormatInt, FormatUuid;
    CutJoined(number, c.time + [BAR] + id);
    assert number + [BAR] + (c.time + [BAR] + id) == number + [BAR] + c.time + [BAR] + id;
    CutJoined(c.time, id);
  }

  lemma {:induction false} PartsRoundTrip(c: Cursor, isTime: Text -> bool)
    requires Formattable(c) && isTime(c.time)
    ensures ParseParts(FormatInt(c.number), c.time, FormatUuid(c.id), isTime) == if c.number >= 1 then Some(c) else None
  {
    IntRoundTrip(c.number);
    UuidRoundTrip(c.id);
    hide ParseUuid, FormatUuid;
  }

  /** A formatted cursor parses back to the same sequence number, time and id; of all 64-bit
      sequence numbers exactly the positive ones are accepted. */
  lemma {:induction false} CursorRoundTrip(c: Cursor, isTime: Text -> bool)
    requires Formattable(c) && isTime(c.time)
    ensures Parse(Format(c), isTime) == if c.number >= 1 then Some(c) else None
  {
    hide Encode, Decode, Cut, FormatInt, FormatUuid, ParseParts;
    Base64RoundTrip(FormatInt(c.number) + [BAR] + c.time + [BAR] + FormatUuid(c.id));
    TextSplits(c);
    PartsRoundTrip(c, isTime);
  }

  /** What a cursor spells: sequence number, time and id, in this order. */
  lemma {:induction false} CursorSpells(c: Cursor)
    requires Formattable(c)
    ensures Decode(Format(c)) == Some(FormatInt(c.number) + [BAR] + c.time + [BAR] + FormatUuid(c.id))
  {
    Base64RoundTrip(FormatInt(c.number) + [BAR] + c.time + [BAR] + FormatUuid(c.id));
  }

  /** Separators stand after 8, 4, 4 and 4 digits, and all digits are in lower case. */
  lemma {:induction false} UuidLayout(id: Text)
    requires |id| == 16
    ensures var s := FormatUuid(id);
            forall i :: 0 <= i < 36 ==>
              if i in {8, 13, 18, 23} then s[i] == DASH else Place(s[i], '0', 10).Some? || Place(s[i], 'a', 6).Some?
  {
    HexIsLowerCase(id[..4]);
    HexIsLowerCase(id[4..6]);
    HexIsLowerCase(id[6..8]);
    HexIsLowerCase(id[8..10]);
    HexIsLowerCase(id[10..]);
    hide Hex;
  }

  lemma {:induction false} HexIsLowerCase(s: Text)
    ensures forall i :: 0 <= i < |Hex(s)| ==> Place(Hex(s)[i], '0', 10).Some? || Place(Hex(s)[i], 'a', 6).Some?
  {
    if s != [] { HexIsLowerCase(s[1..]); }
  }

  /** No cursor stands before the first event. */
  lemma {:induction false} CursorsArePositive(s: Text, isTime: Text -> bool)
    requires Parse(s, isTime).Some?
    ensures Parse(s, isTime).value.number >= 1
  {
    hide Decode, Cut, ParseInt, ParseUuid;
  }
}
