/**
 * Hexadecimal, binary and unicode-escape conversions (HexUtil.java). Java chars are UTF-16 code
 * units and bytes are signed, as in the original; the digit alphabet is that of section 8 of RFC 4648.
 */
module HexCodec {
  import opened Sequences

  newtype Byte = x: int | -0x80 <= x < 0x80
  newtype Unit = x: int | 0 <= x < 0x1_0000

  type Text = seq<Unit>

  const SPACE: Unit := 32
  const ZERO: Unit := 48

  // ----- bytes and digits ------------------------------------------------------------------

  /** `b & 0xFF` */
  function GetInt(b: Byte): (r: int)
    ensures 0 <= r < 256
  {
    if b < 0 then b as int + 256 else b as int
  }

  /** `(byte) n` */
  function ToByte(n: int): Byte {
    var m := n % 256;
    (if m >= 128 then m - 256 else m) as Byte
  }

  lemma ByteRoundTrip(b: Byte, n: int)
    ensures ToByte(GetInt(b)) == b
    ensures GetInt(ToByte(n)) == n % 256
  {
  }

  /** The digits of `Integer.toHexString`. */
  function LowerDigit(d: int): Unit
    requires 0 <= d < 16
  {
    if d < 10 then (48 + d) as Unit else (87 + d) as Unit
  }

  /** The table "0123456789ABCDEF". */
  function UpperDigit(d: int): Unit
    requires 0 <= d < 16
  {
    if d < 10 then (48 + d) as Unit else (55 + d) as Unit
  }

  function ToUpper(c: Unit): Unit {
    if 97 <= c <= 122 then c - 32 else c
  }

  function UpperText(s: Text): (r: Text)
    ensures |r| == |s| && forall i :: 0 <= i < |s| ==> r[i] == ToUpper(s[i])
  {
    seq(|s|, i requires 0 <= i < |s| => ToUpper(s[i]))
  }

  /** `Character.digit(c, 16)` on ASCII. */
  function DigitValue(c: Unit): (r: Option<int>)
    ensures r.Some? ==> 0 <= r.value < 16
  {
    if 48 <= c <= 57 then Some(c as int - 48)
    else if 65 <= c <= 70 then Some(c as int - 55)
    else if 97 <= c <= 102 then Some(c as int - 87)
    else None
  }

  predicate IsHexDigit(c: Unit) {
    DigitValue(c).Some?
  }

  ghost predicate AllHex(s: Text) {
    forall i :: 0 <= i < |s| ==> IsHexDigit(s[i])
  }

  /** `Integer.toHexString`: no leading zeros. */
  function ToHexString(n: int): (r: Text)
    requires 0 <= n
    ensures |r| > 0
  {
    if n < 16 then [LowerDigit(n)] else ToHexString(n / 16) + [LowerDigit(n % 16)]
  }

  function ParseDigits(s: Text): Option<int> {
    if s == [] then Some(0)
    else
      var high, d := ParseDigits(s[..|s| - 1]), DigitValue(s[|s| - 1]);
      if high.Some? && d.Some? then Some(16 * high.value + d.value) else None
  }

  /** `Integer.parseInt(s, 16)`: an optional sign, then at least one digit. `None` is a NumberFormatException. */
  function ParseInt(s: Text): Option<int> {
    if s == [] then None
    else if s[0] == 45 || s[0] == 43 then
      if |s| == 1 then None
      else
        var v := ParseDigits(s[1..]);
        if v == None then None else Some(if s[0] == 45 then -v.value else v.value)
    else ParseDigits(s)
  }

  lemma ParseDigitsAppend(s: Text, c: Unit)
    requires ParseDigits(s).Some? && IsHexDigit(c)
    ensures ParseDigits(s + [c]) == Some(16 * ParseDigits(s).value + DigitValue(c).value)
  {
    assert (s + [c])[..|s|] == s;
  }

  lemma ParseOne(c: Unit)
    requires IsHexDigit(c)
    ensures ParseDigits([c]) == ParseInt([c]) == DigitValue(c)
  {
    var none: Text := [];
    ParseDigitsAppend(none, c);
    assert none + [c] == [c];
  }

  lemma ParseTwo(c: Unit, d: Unit)
    requires IsHexDigit(c) && IsHexDigit(d)
    ensures ParseDigits([c, d]) == ParseInt([c, d]) == Some(16 * DigitValue(c).value + DigitValue(d).value)
  {
    ParseOne(c);
    ParseDigitsAppend([c], d);
    assert [c] + [d] == [c, d];
  }

  /** Quotient and remainder of a two-digit number. */
  lemma TwoDigits(a: int, b: int)
    requires 0 <= a && 0 <= b < 16
    ensures (16 * a + b) / 16 == a && (16 * a + b) % 16 == b
  {
  }

  // ----- the text of a byte array ----------------------------------------------------------

  function Pair(b: Byte): (r: Text)
    ensures |r| == 2
  {
    [UpperDigit(GetInt(b) / 16), UpperDigit(GetInt(b) % 16)]
  }

  /** Two upper-case digits per byte, single spaces between. */
  function HexText(bs: seq<Byte>): Text {
    if bs == [] then []
    else if |bs| == 1 then Pair(bs[0])
    else Pair(bs[0]) + [SPACE] + HexText(bs[1..])
  }

  /** The same with a space after every byte, as the loops build it. */
  function Spaced(bs: seq<Byte>): Text {
    if bs == [] then [] else Spaced(bs[..|bs| - 1]) + Pair(bs[|bs| - 1]) + [SPACE]
  }

  function TrimEnd(s: Text): Text {
    if s != [] && s[|s| - 1] <= SPACE then TrimEnd(s[..|s| - 1]) else s
  }

  function TrimStart(s: Text): Text {
    if s != [] && s[0] <= SPACE then TrimStart(s[1..]) else s
  }

  function Trim(s: Text): Text {
    TrimStart(TrimEnd(s))
  }

  lemma {:induction false} HexTextShape(bs: seq<Byte>)
    requires bs != []
    ensures var t := HexText(bs); t != [] && t[0] > SPACE && t[|t| - 1] > SPACE
  {
    if |bs| > 1 {
      HexTextShape(bs[1..]);
    }
  }

  lemma {:induction false} HexTextAppend(bs: seq<Byte>, b: Byte)
    requires bs != []
    ensures HexText(bs + [b]) == HexText(bs) + [SPACE] + Pair(b)
  {
    if |bs| == 1 {
      assert (bs + [b])[1..] == [b];
    } else {
      assert (bs + [b])[1..] == bs[1..] + [b];
      HexTextAppend(bs[1..], b);
    }
  }

  lemma {:induction false} SpacedIsText(bs: seq<Byte>)
    requires bs != []
    ensures Spaced(bs) == HexText(bs) + [SPACE]
  {
    var init, b := bs[..|bs| - 1], bs[|bs| - 1];
    assert bs == init + [b];
    if init != [] {
      SpacedIsText(init);
      HexTextAppend(init, b);
    }
  }

  lemma TrimmedIsText(bs: seq<Byte>)
    ensures Trim(Spaced(bs)) == HexText(bs)
  {
    if bs != [] {
      SpacedIsText(bs);
      HexTextShape(bs);
      var t := HexText(bs);
      assert (t + [SPACE])[..|t|] == t;
      assert TrimEnd(t + [SPACE]) == TrimEnd(t) == t;
    }
  }

  lemma HexDigitsOfByte(b: Byte)
    ensures var v := GetInt(b);
      UpperText(if |ToHexString(v)| == 1 then [ZERO] + ToHexString(v) else ToHexString(v)) == Pair(b)
  {
    var v := GetInt(b);
    if v >= 16 {
      assert ToHexString(v) == ToHexString(v / 16) + [LowerDigit(v % 16)];
    }
  }

  method Byte2HexStr(b: seq<Byte>) returns (r: Text)
    ensures r == HexText(b)
  {
    var sb: Text := [];
    for n := 0 to |b|
      invariant UpperText(sb) == Spaced(b[..n])
    {
      var stmp := ToHexString(GetInt(b[n]));
      var two := if |stmp| == 1 then [ZERO] + stmp else stmp;
      HexDigitsOfByte(b[n]);
      assert b[..n + 1][..n] == b[..n];
      assert UpperText(sb + two + [SPACE]) == UpperText(sb) + UpperText(two) + [SPACE];
      sb := sb + two + [SPACE];
    }
    assert b[..|b|] == b;
    TrimmedIsText(b);
    r := Trim(UpperText(sb));
  }

  /** The nibble-table loop of `str2HexStr`, on the bytes of the string: the same text. */
  method Str2HexStr(bs: seq<Byte>) returns (r: Text)
    ensures r == HexText(bs)
  {
    var sb: Text := [];
    for i := 0 to |bs|
      invariant sb == Spaced(bs[..i])
    {
      assert bs[..i + 1][..i] == bs[..i];
      var bit := GetInt(bs[i]) / 16;
      sb := sb + [UpperDigit(bit)];
      bit := GetInt(bs[i]) % 16;
      sb := sb + [UpperDigit(bit)];
      sb := sb + [SPACE];
    }
    assert bs[..|bs|] == bs;
    TrimmedIsText(bs);
    r := Trim(sb);
  }

  // ----- reading hexadecimal text ----------------------------------------------------------

  function Squeeze(s: Text): (r: Text) {
    if s == [] then [] else (if s[0] == SPACE then [] else [s[0]]) + Squeeze(s[1..])
  }

  function Padded(s: Text): (r: Text)
    ensures |r| % 2 == 0
  {
    if |s| % 2 == 0 then s else [ZERO] + s
  }

  /** Two characters per byte; `None` when some pair is not a number. */
  function DecodePairs(s: Text): (r: Option<seq<Byte>>)
    requires |s| % 2 == 0
  {
    if s == [] then Some([])
    else
      var v, rest := ParseInt(s[..2]), DecodePairs(s[2..]);
      if v.Some? && rest.Some? then Some([ToByte(v.value)] + rest.value) else None
  }

  function Decode(s: Text): Option<seq<Byte>> {
    DecodePairs(Padded(Squeeze(s)))
  }

  method HexStr2Bytes(src: Text) returns (r: Option<seq<Byte>>)
    ensures r == Decode(src)
  {
    var s := Padded(Squeeze(src));
    var len := |s|;
    var ret := new Byte[len / 2];
    var i := 0;
    assert s[0..] == s && ret[..0] == [];
    PrefixedNone(DecodePairs(s));
    while i < len
      invariant 0 <= i <= len && i % 2 == 0
      invariant DecodePairs(s) == Prefixed(ret[..i / 2], DecodePairs(s[i..]))
    {
      SliceTwo(s, i);
      var b := ParseInt(s[i..i + 2]);
      if b == None {
        return None;
      }
      ret[i / 2] := ToByte(b.value);
      assert ret[..i / 2 + 1] == ret[..i / 2] + [ToByte(b.value)];
      PrefixedStep(ret[..i / 2], ToByte(b.value), DecodePairs(s[i + 2..]));
      i := i + 2;
    }
    assert s[i..] == [];
    assert ret[..] == ret[..len / 2];
    assert ret[..] + [] == ret[..];
    assert DecodePairs(s[i..]) == Some([]);
    r := Some(ret[..]);
  }

  lemma SliceTwo(s: Text, i: int)
    requires 0 <= i && i + 2 <= |s|
    ensures s[i..][..2] == s[i..i + 2] && s[i..][2..] == s[i + 2..]
  {
  }

  ghost function Prefixed(done: seq<Byte>, rest: Option<seq<Byte>>): Option<seq<Byte>> {
    if rest.Some? then Some(done + rest.value) else None
  }

  lemma PrefixedNone(rest: Option<seq<Byte>>)
    ensures Prefixed([], rest) == rest
  {
    if rest.Some? {
      assert [] + rest.value == rest.value;
    }
  }

  lemma PrefixedStep(done: seq<Byte>, b: Byte, rest: Option<seq<Byte>>)
    ensures Prefixed(done, Prefixed([b], rest)) == Prefixed(done + [b], rest)
  {
    if rest.Some? {
      assert done + ([b] + rest.value) == done + [b] + rest.value;
    }
  }

  /** The digits of a byte array without spaces. */
  function Digits(bs: seq<Byte>): (r: Text)
    ensures |r| == 2 * |bs|
  {
    if bs == [] then [] else Pair(bs[0]) + Digits(bs[1..])
  }

  lemma {:induction false} SqueezeConcat(a: Text, b: Text)
    ensures Squeeze(a + b) == Squeeze(a) + Squeeze(b)
  {
    if a == [] {
      assert a + b == b;
    } else {
      assert (a + b)[1..] == a[1..] + b;
      SqueezeConcat(a[1..], b);
    }
  }

  lemma SqueezePair(b: Byte)
    ensures Squeeze(Pair(b)) == Pair(b) && Squeeze([SPACE]) == []
  {
    var p, q := UpperDigit(GetInt(b) / 16), UpperDigit(GetInt(b) % 16);
    SqueezeOne(SPACE);
    SqueezeOne(p);
    SqueezeOne(q);
    SqueezeConcat([p], [q]);
    assert Pair(b) == [p] + [q];
  }

  lemma SqueezeOne(c: Unit)
    ensures Squeeze([c]) == if c == SPACE then [] else [c]
  {
    assert [c][1..] == [];
  }

  lemma {:induction false} SqueezedText(bs: seq<Byte>)
    ensures Squeeze(HexText(bs)) == Digits(bs)
  {
    if bs != [] {
      SqueezePair(bs[0]);
      if |bs| == 1 {
        assert Digits(bs[1..]) == [];
      } else {
        SqueezedText(bs[1..]);
        SqueezeConcat(Pair(bs[0]) + [SPACE], HexText(bs[1..]));
        SqueezeConcat(Pair(bs[0]), [SPACE]);
      }
    }
  }

  lemma {:induction false} DecodeDigits(bs: seq<Byte>)
    ensures DecodePairs(Digits(bs)) == Some(bs)
  {
    if bs != [] {
      var d := Digits(bs);
      assert d[..2] == Pair(bs[0]) && d[2..] == Digits(bs[1..]);
      ParsePair(bs[0]);
      DecodeDigits(bs[1..]);
      assert [bs[0]] + bs[1..] == bs;
    }
  }

  lemma UpperDigitValue(d: int)
    requires 0 <= d < 16
    ensures DigitValue(UpperDigit(d)) == Some(d)
  {
  }

  lemma ParsePair(b: Byte)
    ensures ParseInt(Pair(b)) == Some(GetInt(b)) && ToByte(GetInt(b)) == b
  {
    UpperDigitValue(GetInt(b) / 16);
    UpperDigitValue(GetInt(b) % 16);
    ParseTwo(UpperDigit(GetInt(b) / 16), UpperDigit(GetInt(b) % 16));
    ByteRoundTrip(b, 0);
  }

  /** Reading back what `byte2HexStr` wrote gives the same bytes. */
  lemma {:induction false} BytesRoundTrip(bs: seq<Byte>)
    ensures Decode(HexText(bs)) == Some(bs)
  {
    SqueezedText(bs);
    EvenDigits(bs);
    DecodeDigits(bs);
  }

  lemma {:induction false} EvenDigits(bs: seq<Byte>)
    ensures Padded(Digits(bs)) == Digits(bs)
  {
    assert |Digits(bs)| == 2 * |bs|;
  }

  /** Upper case, a space between pairs. */
  function PairSpaced(s: Text): (r: Text)
    requires |s| % 2 == 0
  {
    if |s| <= 2 then UpperText(s) else UpperText(s[..2]) + [SPACE] + PairSpaced(s[2..])
  }

  lemma UpperPair(c: Unit, d: Unit)
    requires IsHexDigit(c) && IsHexDigit(d)
    ensures UpperText([c, d]) == Pair(ToByte(16 * DigitValue(c).value + DigitValue(d).value))
  {
    var a, b := DigitValue(c).value, DigitValue(d).value;
    ByteRoundTrip(0, 16 * a + b);
    TwoDigits(a, b);
    assert ToUpper(c) == UpperDigit(a) && ToUpper(d) == UpperDigit(b);
  }

  lemma {:induction false} DecodeHexText(s: Text)
    requires |s| % 2 == 0 && AllHex(s)
    ensures DecodePairs(s).Some? && HexText(DecodePairs(s).value) == PairSpaced(s)
  {
    DecodeTotal(s);
    if s != [] {
      DecodeHexText(s[2..]);
      var rest := DecodePairs(s[2..]).value;
      var b := FirstByte(s);
      assert UpperText(s[..2]) == Pair(b) by {
        assert s[..2] == [s[0], s[1]];
        UpperPair(s[0], s[1]);
      }
      assert ([b] + rest)[1..] == rest;
      if |s| == 2 {
        assert s[..2] == s;
      }
    }
  }

  ghost function FirstByte(s: Text): Byte
    requires |s| >= 2 && AllHex(s)
  {
    ToByte(16 * DigitValue(s[0]).value + DigitValue(s[1]).value)
  }

  /** Digits in pairs always decode, the first pair to the first byte. */
  lemma {:induction false} DecodeTotal(s: Text)
    requires |s| % 2 == 0 && AllHex(s)
    ensures DecodePairs(s).Some? && |DecodePairs(s).value| == |s| / 2
    ensures s != [] ==>
      && DecodePairs(s[2..]).Some? && |DecodePairs(s[2..]).value| == |s| / 2 - 1
      && DecodePairs(s).value == [FirstByte(s)] + DecodePairs(s[2..]).value
  {
    if s != [] {
      assert s[..2] == [s[0], s[1]];
      ParseTwo(s[0], s[1]);
      DecodeTotal(s[2..]);
    }
  }

  lemma {:induction false} SqueezeHex(s: Text)
    requires forall i :: 0 <= i < |s| ==> IsHexDigit(s[i]) || s[i] == SPACE
    ensures AllHex(Squeeze(s))
  {
    if s != [] {
      SqueezeHex(s[1..]);
    }
  }

  /** Any hex text, whatever its case, spaces or odd length, comes back in canonical form. */
  lemma {:induction false} TextRoundTrip(s: Text)
    requires forall i :: 0 <= i < |s| ==> IsHexDigit(s[i]) || s[i] == SPACE
    ensures Decode(s).Some? && HexText(Decode(s).value) == PairSpaced(Padded(Squeeze(s)))
  {
    SqueezeHex(s);
    DecodeHexText(Padded(Squeeze(s)));
  }

  // ----- the number behind the digits ------------------------------------------------------

  /** A byte array as one number, the first byte highest. */
  function Number(bs: seq<Byte>): int {
    if bs == [] then 0 else 256 * Number(bs[..|bs| - 1]) + GetInt(bs[|bs| - 1])
  }

  lemma {:induction false} DecodeSnoc(s: Text, c: Unit, d: Unit)
    requires |s| % 2 == 0 && AllHex(s) && IsHexDigit(c) && IsHexDigit(d)
    ensures DecodePairs(s).Some?
    ensures |s + [c, d]| % 2 == 0
    ensures DecodePairs(s + [c, d]) == Some(DecodePairs(s).value + [ToByte(16 * DigitValue(c).value + DigitValue(d).value)])
    decreases |s|
  {
    var b := ToByte(16 * DigitValue(c).value + DigitValue(d).value);
    var t := s + [c, d];
    assert AllHex(t);
    DecodeTotal(s);
    DecodeTotal(t);
    if s == [] {
      assert t[2..] == [] && FirstByte(t) == b;
      var none: seq<Byte> := [];
      assert DecodePairs(t[2..]) == Some(none) && DecodePairs(s) == Some(none);
      assert [b] + none == none + [b];
    } else {
      assert t[2..] == s[2..] + [c, d] && FirstByte(t) == FirstByte(s);
      DecodeSnoc(s[2..], c, d);
      BytesRegroup(FirstByte(s), DecodePairs(s[2..]).value, b);
    }
  }

  lemma BytesRegroup(a: Byte, rest: seq<Byte>, b: Byte)
    ensures [a] + (rest + [b]) == ([a] + rest) + [b]
  {
  }

  lemma {:induction false} PairsNumber(s: Text)
    requires |s| % 2 == 0 && AllHex(s)
    ensures DecodePairs(s).Some? && Some(Number(DecodePairs(s).value)) == ParseDigits(s)
    decreases |s|
  {
    if s != [] {
      var n := |s| - 2;
      var front, c, d := s[..n], s[n], s[n + 1];
      assert s == front + [c, d];
      PairsNumber(front);
      DecodeSnoc(front, c, d);
      NumberSnoc(DecodePairs(front).value, 16 * DigitValue(c).value + DigitValue(d).value);
      ParseDigitsTwo(front, c, d);
    }
  }

  lemma NumberSnoc(bs: seq<Byte>, v: int)
    requires 0 <= v < 256
    ensures Number(bs + [ToByte(v)]) == 256 * Number(bs) + v
  {
    SmallByte(v);
    assert (bs + [ToByte(v)])[..|bs|] == bs;
  }

  lemma ParseDigitsTwo(s: Text, c: Unit, d: Unit)
    requires ParseDigits(s).Some? && IsHexDigit(c) && IsHexDigit(d)
    ensures ParseDigits(s + [c, d]) == Some(256 * ParseDigits(s).value + 16 * DigitValue(c).value + DigitValue(d).value)
  {
    ParseDigitsAppend(s, c);
    ParseDigitsAppend(s + [c], d);
    assert s + [c] + [d] == s + [c, d];
  }

  lemma {:induction false} LeadingZero(s: Text)
    requires AllHex(s)
    ensures ParseDigits([ZERO] + s) == ParseDigits(s)
    decreases |s|
  {
    if s == [] {
      ParseOne(ZERO);
      assert [ZERO] + s == [ZERO];
    } else {
      var n := |s| - 1;
      assert ([ZERO] + s)[..|s|] == [ZERO] + s[..n];
      LeadingZero(s[..n]);
    }
  }

  /**
   * What `hexStr2Bytes` reads: as many bytes as the digits need, an odd digit alone in the first one, that
   * together make the number the digits spell, whatever the spaces and the case.
   */
  lemma {:induction false} DecodeNumber(s: Text)
    requires forall i :: 0 <= i < |s| ==> IsHexDigit(s[i]) || s[i] == SPACE
    ensures Decode(s).Some? && |Decode(s).value| == (|Squeeze(s)| + 1) / 2
    ensures Some(Number(Decode(s).value)) == ParseDigits(Squeeze(s))
  {
    var t := Squeeze(s);
    SqueezeHex(s);
    LeadingZero(t);
    PairsNumber(Padded(t));
    DecodeTotal(Padded(t));
  }

  /** What two characters `parseInt` accepts: two digits, or a sign and a digit. */
  predicate Readable(c: Unit, d: Unit) {
    IsHexDigit(d) && (IsHexDigit(c) || c == 43 || c == 45)
  }

  /** A sign in a pair is read as one; anything else that is no digit is an exception. */
  lemma ParsePairIff(c: Unit, d: Unit)
    ensures ParseInt([c, d]).Some? <==> Readable(c, d)
    ensures IsHexDigit(d) && c == 43 ==> ParseInt([c, d]) == DigitValue(d)
    ensures IsHexDigit(d) && c == 45 ==> ParseInt([c, d]) == Some(-DigitValue(d).value)
  {
    assert [c, d][1..] == [d] && [c, d][..1] == [c] && [d][..0] == [] && [c][..0] == [];
    assert ParseDigits([d]) == DigitValue(d) by {
      assert ParseDigits([]) == Some(0);
    }
    assert ParseDigits([c]) == DigitValue(c) by {
      assert ParseDigits([]) == Some(0);
    }
  }

  /** Decoding throws exactly if some pair is not readable. */
  lemma {:induction false} PairsFailIff(s: Text)
    requires |s| % 2 == 0
    ensures DecodePairs(s).Some? <==> forall j :: 0 <= j < |s| / 2 ==> Readable(s[2 * j], s[2 * j + 1])
    decreases |s|
  {
    if s != [] {
      var t := s[2..];
      assert s[..2] == [s[0], s[1]];
      ParsePairIff(s[0], s[1]);
      PairsFailIff(t);
      assert forall j :: 0 <= j < |t| / 2 ==> t[2 * j] == s[2 * (j + 1)] && t[2 * j + 1] == s[2 * (j + 1) + 1];
      if forall j :: 0 <= j < |t| / 2 ==> Readable(t[2 * j], t[2 * j + 1]) {
        forall j | 0 < j < |s| / 2 ensures Readable(s[2 * j], s[2 * j + 1]) {
          assert Readable(t[2 * (j - 1)], t[2 * (j - 1) + 1]);
        }
      }
      if forall j :: 0 <= j < |s| / 2 ==> Readable(s[2 * j], s[2 * j + 1]) {
        assert Readable(s[2 * 0], s[2 * 0 + 1]);
        forall j | 0 <= j < |t| / 2 ensures Readable(t[2 * j], t[2 * j + 1]) {
          assert Readable(s[2 * (j + 1)], s[2 * (j + 1) + 1]);
        }
      }
    }
  }

  // ----- the written text, character by character ------------------------------------------

  predicate IsUpperDigit(c: Unit) {
    48 <= c <= 57 || 65 <= c <= 70
  }

  predicate IsLowerDigit(c: Unit) {
    48 <= c <= 57 || 97 <= c <= 102
  }

  /** Byte `i` is written as two upper-case digits at `3 * i`, and a single space follows all but the last. */
  lemma {:induction false} HexTextAt(bs: seq<Byte>, i: int)
    requires 0 <= i < |bs|
    ensures var t := HexText(bs);
      && |t| == 3 * |bs| - 1 && IsUpperDigit(t[3 * i]) && IsUpperDigit(t[3 * i + 1])
      && GetInt(bs[i]) == 16 * DigitValue(t[3 * i]).value + DigitValue(t[3 * i + 1]).value
      && (i < |bs| - 1 ==> t[3 * i + 2] == 32)
    decreases |bs|
  {
    PairSpelled(bs[0]);
    if |bs| > 1 {
      HexTextAt(bs[1..], if i == 0 then 0 else i - 1);
      TextTail(bs, i);
    }
  }

  lemma PairSpelled(b: Byte)
    ensures var p := Pair(b);
      && IsUpperDigit(p[0]) && IsUpperDigit(p[1])
      && GetInt(b) == 16 * DigitValue(p[0]).value + DigitValue(p[1]).value
  {
    UpperDigitValue(GetInt(b) / 16);
    UpperDigitValue(GetInt(b) % 16);
  }

  lemma TextTail(bs: seq<Byte>, i: int)
    requires |bs| > 1 && 0 <= i < |bs| && |HexText(bs[1..])| == 3 * |bs| - 4
    ensures var t, u := HexText(bs), HexText(bs[1..]);
      && |t| == 3 * |bs| - 1 && t[0] == Pair(bs[0])[0] && t[1] == Pair(bs[0])[1] && t[2] == SPACE
      && (i > 0 ==> t[3 * i] == u[3 * (i - 1)] && t[3 * i + 1] == u[3 * (i - 1) + 1])
      && (0 < i < |bs| - 1 ==> t[3 * i + 2] == u[3 * (i - 1) + 2])
  {
  }

  // ----- the table decoder -----------------------------------------------------------------

  /** `indexOf` in the upper-case table: -1 for everything else, lower-case digits included. */
  function TableIndex(c: Unit): int {
    if 48 <= c <= 57 then c as int - 48 else if 65 <= c <= 70 then c as int - 55 else -1
  }

  function TableBytes(s: Text, n: nat): (r: seq<Byte>)
    requires 2 * n <= |s|
    ensures |r| == n
  {
    if n == 0 then []
    else TableBytes(s, n - 1) + [ToByte(16 * TableIndex(s[2 * n - 2]) + TableIndex(s[2 * n - 1]))]
  }

  /** `hexStr2Str` up to the final byte-to-string conversion; an odd last character is dropped. */
  method HexStr2Str(hexs: Text) returns (r: seq<Byte>)
    ensures r == TableBytes(hexs, |hexs| / 2)
  {
    var bytes := new Byte[|hexs| / 2];
    for i := 0 to bytes.Length
      invariant bytes[..i] == TableBytes(hexs, i)
    {
      var n := TableIndex(hexs[2 * i]) * 16;
      n := n + TableIndex(hexs[2 * i + 1]);
      bytes[i] := ToByte(n);
      assert bytes[..i + 1] == bytes[..i] + [ToByte(n)];
    }
    assert bytes[..] == bytes[..bytes.Length];
    r := bytes[..];
  }

  lemma {:induction false} TableDecodesDigits(bs: seq<Byte>, n: nat)
    requires n <= |bs|
    ensures TableBytes(Digits(bs), n) == bs[..n]
  {
    if n > 0 {
      TableDecodesDigits(bs, n - 1);
      DigitsAt(bs, n - 1);
      ByteRoundTrip(bs[n - 1], 0);
    }
  }

  lemma {:induction false} DigitsAt(bs: seq<Byte>, i: int)
    requires 0 <= i < |bs|
    ensures Digits(bs)[2 * i] == Pair(bs[i])[0] && Digits(bs)[2 * i + 1] == Pair(bs[i])[1]
  {
    if i > 0 {
      DigitsAt(bs[1..], i - 1);
    }
  }

  /** `hexStr2Str` undoes `str2HexStr` once the spaces are gone. */
  lemma {:induction false} TableRoundTrip(bs: seq<Byte>)
    ensures var s := Squeeze(HexText(bs)); TableBytes(s, |s| / 2) == bs
  {
    SqueezedText(bs);
    TableDecodesDigits(bs, |bs|);
    assert bs[..|bs|] == bs;
  }

  /** The table decoder does not know lower-case digits: "ab" reads as 0xEF, `hexStr2Bytes` reads 0xAB. */
  lemma TableMisreadsLowerCase()
    ensures TableBytes([97, 98], 1) == [ToByte(0xEF)] && Decode([97, 98]) == Some([ToByte(0xAB)])
  {
    var s: Text := [97, 98];
    assert TableBytes(s, 0) == [];
    assert TableBytes(s, 1) == [ToByte(16 * TableIndex(97) + TableIndex(98))];
    ParseTwo(97, 98);
    assert s[..2] == s && s[2..] == [] && s[1..] == [98] && s[1..][1..] == [];
    assert Squeeze(s[1..]) == [98] + Squeeze(s[1..][1..]) == [98];
    assert Squeeze(s) == [97] + Squeeze(s[1..]) == s;
    assert DecodePairs(s[2..]) == Some([]);
    assert Padded(s) == s;
    assert [ToByte(0xAB)] + [] == [ToByte(0xAB)];
    assert DecodePairs(s) == Some([ToByte(0xAB)]);
  }

  // ----- binary text -----------------------------------------------------------------------

  function ToBinaryString(n: int): Text
    requires 0 <= n
  {
    if n < 2 then [(48 + n) as Unit] else ToBinaryString(n / 2) + [(48 + n % 2) as Unit]
  }

  /** The four bits of a digit, highest first. */
  function Nibble(d: int): (r: Text)
    requires 0 <= d < 16
    ensures |r| == 4
  {
    [(48 + d / 8) as Unit, (48 + d / 4 % 2) as Unit, (48 + d / 2 % 2) as Unit, (48 + d % 2) as Unit]
  }

  lemma {:induction false} NibbleOfDigit(d: int)
    requires 0 <= d < 16
    ensures var t := [ZERO, ZERO, ZERO, ZERO] + ToBinaryString(d); |t| >= 4 && t[|t| - 4..] == Nibble(d)
  {
    BinaryShort(d);
    var n, t := |ToBinaryString(d)|, [ZERO, ZERO, ZERO, ZERO] + ToBinaryString(d);
    forall i | 0 <= i < 4 ensures t[n + i] == Nibble(d)[i] {
      if i >= 4 - n {
        assert t[n + i] == ToBinaryString(d)[n + i - 4] == Nibble(d)[4 - n..][n + i - 4];
      }
    }
    assert t[|t| - 4..] == Nibble(d);
  }

  /** The binary text is the nibble without its leading zeros. */
  lemma {:induction false} BinaryShort(d: int)
    requires 0 <= d < 16
    ensures var n := |ToBinaryString(d)|;
      && 1 <= n <= (if d < 2 then 1 else if d < 4 then 2 else if d < 8 then 3 else 4)
      && ToBinaryString(d) == Nibble(d)[4 - n..]
      && forall i :: 0 <= i < 4 - n ==> Nibble(d)[i] == ZERO
    decreases d
  {
    if d < 2 {
      assert d / 8 == 0 && d / 4 == 0 && d / 2 == 0 && d % 2 == d;
    } else {
      BinaryShort(d / 2);
      NibbleShift(d);
      NibbleTail(Nibble(d), Nibble(d / 2), |ToBinaryString(d)|);
    }
  }

  lemma NibbleTail(a: Text, b: Text, n: int)
    requires |a| == |b| == 4 && 2 <= n <= 4 && forall i :: 0 <= i < 3 ==> a[i] == b[i + 1]
    ensures a[4 - n..] == b[5 - n..] + [a[3]]
  {
    assert forall i :: 4 - n <= i < 3 ==> a[4 - n..][i - 4 + n] == a[i];
  }

  lemma NibbleShift(d: int)
    requires 2 <= d < 16
    ensures forall i :: 0 <= i < 3 ==> Nibble(d)[i] == Nibble(d / 2)[i + 1]
    ensures Nibble(d)[3] == (48 + d % 2) as Unit
  {
    assert d / 2 / 2 == d / 4 && d / 2 / 4 == d / 8 && d / 2 / 8 == 0;
    assert d / 8 % 2 == d / 8;
  }

  datatype Answer = Null | NumberFormat | Binary(text: Text)

  function Nibbles(s: Text): (r: Text)
    requires AllHex(s)
    ensures |r| == 4 * |s|
  {
    if s == [] then [] else Nibbles(s[..|s| - 1]) + Nibble(DigitValue(s[|s| - 1]).value)
  }

  method HexString2BinaryString(s: Text) returns (r: Answer)
    ensures r == Null <==> |s| % 2 != 0
    ensures r == NumberFormat <==> |s| % 2 == 0 && !AllHex(s)
    ensures r.Binary? ==> AllHex(s) && r.text == Nibbles(s)
  {
    if |s| % 2 != 0 {
      return Null;
    }
    var bString: Text := [];
    for i := 0 to |s|
      invariant AllHex(s[..i]) && bString == Nibbles(s[..i])
    {
      var v := ParseInt(s[i..i + 1]);
      assert s[i..i + 1] == [s[i]];
      if v == None {
        assert !IsHexDigit(s[i]) by {
          if IsHexDigit(s[i]) { ParseOne(s[i]); }
        }
        return NumberFormat;
      }
      assert IsHexDigit(s[i]) && v == DigitValue(s[i]) by { SingleDigit(s[i]); }
      var tmp := [ZERO, ZERO, ZERO, ZERO] + ToBinaryString(v.value);
      NibbleOfDigit(v.value);
      assert s[..i + 1][..i] == s[..i];
      bString := bString + tmp[|tmp| - 4..];
    }
    assert s[..|s|] == s;
    r := Binary(bString);
  }

  lemma SingleDigit(c: Unit)
    requires ParseInt([c]).Some?
    ensures IsHexDigit(c) && ParseInt([c]) == DigitValue(c)
  {
    assert [c][|[c]| - 1] == c;
    if IsHexDigit(c) {
      ParseOne(c);
    }
  }

  /** The number a text of binary digits stands for. */
  function BinaryValue(s: Text): int {
    if s == [] then 0 else 2 * BinaryValue(s[..|s| - 1]) + (s[|s| - 1] as int - 48)
  }

  lemma BinaryValueNibble(high: Text, d: int)
    requires 0 <= d < 16
    ensures BinaryValue(high + Nibble(d)) == 16 * BinaryValue(high) + d
  {
    var n := Nibble(d);
    var a := high + [n[0]];
    var b := a + [n[1]];
    var c := b + [n[2]];
    assert high + n == c + [n[3]];
    BinaryValueAppend(high, n[0]);
    BinaryValueAppend(a, n[1]);
    BinaryValueAppend(b, n[2]);
    BinaryValueAppend(c, n[3]);
    FourBits(d);
  }

  lemma FourBits(d: int)
    requires 0 <= d < 16
    ensures d == 8 * (d / 8) + 4 * (d / 4 % 2) + 2 * (d / 2 % 2) + d % 2
  {
  }

  lemma BinaryValueAppend(s: Text, c: Unit)
    ensures BinaryValue(s + [c]) == 2 * BinaryValue(s) + (c as int - 48)
  {
    assert (s + [c])[..|s|] == s;
  }

  /** Four bits per digit, and the same number. */
  lemma {:induction false} BinaryKeepsValue(s: Text)
    requires AllHex(s)
    ensures Some(BinaryValue(Nibbles(s))) == ParseDigits(s)
  {
    if s != [] {
      BinaryKeepsValue(s[..|s| - 1]);
      BinaryValueNibble(Nibbles(s[..|s| - 1]), DigitValue(s[|s| - 1]).value);
    }
  }

  /** `v >> k` for `v >= 0` */
  function Shift(v: int, k: int): (r: int)
    requires 0 <= v && 0 <= k
    ensures 0 <= r
    decreases k
  {
    if k == 0 then v else Shift(v / 2, k - 1)
  }

  /** `(getInt(b) >> index) % 2`; Java takes the shift count modulo 32. */
  function GetBit(b: Byte, index: int): int {
    Shift(GetInt(b), index % 32) % 2
  }

  /** Java takes a shift count modulo 32, so indices 32 apart read the same bit; bits beyond the byte are 0. */
  lemma {:induction false} GetBitPeriodic(b: Byte, index: int)
    ensures GetBit(b, index + 32) == GetBit(b, index)
    ensures 8 <= index < 32 ==> GetBit(b, index) == 0
  {
    assert (index + 32) % 32 == index % 32;
    if 8 <= index < 32 {
      ShiftTwice(GetInt(b), 8, index - 8);
      ByteShift(GetInt(b));
      ZeroShift(index - 8);
    }
  }

  lemma ByteShift(v: int)
    requires 0 <= v < 256
    ensures Shift(v, 8) == 0
  {
    ShiftTwice(v, 4, 4);
    SmallShifts(v);
    SmallShifts(v / 16);
  }

  lemma {:induction false} ZeroShift(k: int)
    requires 0 <= k
    ensures Shift(0, k) == 0
    decreases k
  {
    if k > 0 {
      ZeroShift(k - 1);
    }
  }

  lemma {:induction false} NibblesAt(s: Text, i: int)
    requires AllHex(s) && 0 <= i < |s|
    ensures Nibbles(s)[4 * i..4 * i + 4] == Nibble(DigitValue(s[i]).value)
  {
    var n := |s| - 1;
    if i < n {
      NibblesAt(s[..n], i);
      assert Nibbles(s)[4 * i..4 * i + 4] == Nibbles(s[..n])[4 * i..4 * i + 4];
    }
  }

  lemma SmallShifts(v: int)
    requires 0 <= v
    ensures Shift(v, 0) == v && Shift(v, 1) == v / 2 && Shift(v, 2) == v / 4 && Shift(v, 3) == v / 8 && Shift(v, 4) == v / 16
  {
    assert v / 2 / 2 == v / 4 && v / 4 / 2 == v / 8 && v / 8 / 2 == v / 16;
    assert Shift(v, 2) == Shift(v / 2, 1) && Shift(v / 2, 1) == Shift(v / 4, 0);
    assert Shift(v, 3) == Shift(v / 2, 2) && Shift(v / 2, 2) == Shift(v / 4, 1) && Shift(v / 4, 1) == Shift(v / 8, 0);
    assert Shift(v, 4) == Shift(v / 2, 3) && Shift(v / 2, 3) == Shift(v / 4, 2) && Shift(v / 4, 2) == Shift(v / 8, 1);
    assert Shift(v / 8, 1) == Shift(v / 16, 0);
  }

  lemma {:induction false} ShiftTwice(v: int, m: int, n: int)
    requires 0 <= v && 0 <= m && 0 <= n
    ensures Shift(v, m + n) == Shift(Shift(v, m), n)
    decreases m
  {
    if m > 0 {
      ShiftTwice(v / 2, m - 1, n);
    }
  }

  lemma LowBits(a: int, b: int)
    requires 0 <= a && 0 <= b < 16
    ensures (16 * a + b) / 8 % 2 == b / 8 && (16 * a + b) / 4 % 2 == b / 4 % 2
    ensures (16 * a + b) / 2 % 2 == b / 2 % 2 && (16 * a + b) % 2 == b % 2
  {
    OneBit(8 * a, b);
    OneBit(4 * a, b / 2);
    OneBit(2 * a, b / 4);
    OneBit(a, b / 8);
    var v := 16 * a + b;
    Halves(v);
    Halves(b);
  }

  /** An even number added changes neither the last bit nor, but for its half, the rest. */
  lemma OneBit(a: int, b: int)
    requires 0 <= a && 0 <= b
    ensures (2 * a + b) % 2 == b % 2 && (2 * a + b) / 2 == a + b / 2
  {
  }

  lemma Halves(v: int)
    requires 0 <= v
    ensures v / 2 / 2 == v / 4 && v / 4 / 2 == v / 8
  {
  }

  /** Bit `3 - k` of a number is bit `k`, counted from the left, of its last digit. */
  lemma {:induction false} NibbleLow(a: int, b: int, k: int)
    requires 0 <= a && 0 <= b < 16 && 0 <= k < 4
    ensures Nibble(b)[k] as int == 48 + Shift(16 * a + b, 3 - k) % 2
  {
    SmallShifts(16 * a + b);
    LowBits(a, b);
  }

  lemma NibbleHigh(a: int, b: int, k: int)
    requires 0 <= a < 16 && 0 <= b < 16 && 0 <= k < 4
    ensures Nibble(a)[k] as int == 48 + Shift(16 * a + b, 7 - k) % 2
  {
    SmallShifts(16 * a + b);
    TwoDigits(a, b);
    ShiftTwice(16 * a + b, 4, 3 - k);
    NibbleLow(0, a, k);
  }

  /** The number at digits `2 * j` and `2 * j + 1`. */
  function PairValue(s: Text, j: int): (r: int)
    requires AllHex(s) && 0 <= j && 2 * j + 1 < |s|
    ensures 0 <= r < 256
  {
    16 * DigitValue(s[2 * j]).value + DigitValue(s[2 * j + 1]).value
  }

  lemma {:induction false} DecodedByte(s: Text, j: int)
    requires |s| % 2 == 0 && AllHex(s) && 0 <= j < |s| / 2
    ensures DecodePairs(s).Some? && |DecodePairs(s).value| == |s| / 2
    ensures GetInt(DecodePairs(s).value[j]) == PairValue(s, j)
  {
    DecodeTotal(s);
    var v := 16 * DigitValue(s[0]).value + DigitValue(s[1]).value;
    SmallByte(v);
    if j > 0 {
      DecodedByte(s[2..], j - 1);
      PairValueTail(s, j);
    }
  }

  lemma PairValueTail(s: Text, j: int)
    requires AllHex(s) && 0 < j && 2 * j + 1 < |s|
    ensures AllHex(s[2..]) && PairValue(s[2..], j - 1) == PairValue(s, j)
  {
    var t := s[2..];
    assert forall i :: 0 <= i < |t| ==> t[i] == s[i + 2];
  }

  lemma SmallByte(v: int)
    requires 0 <= v < 256
    ensures GetInt(ToByte(v)) == v
  {
  }

  /** Character 8j+k of the binary text is bit 7-k of byte j: the two decoders and `getBit` agree. */
  lemma {:induction false} BinaryIsBits(s: Text, j: int, k: int)
    requires |s| % 2 == 0 && AllHex(s) && 0 <= j < |s| / 2 && 0 <= k < 8
    ensures Decode(s).Some? && |Decode(s).value| == |s| / 2
    ensures Nibbles(s)[8 * j + k] as int == 48 + GetBit(Decode(s).value[j], 7 - k)
  {
    PlainDecode(s);
    DecodedByte(s, j);
    BinaryDigit(s, j, k);
    GetBitIs(DecodePairs(s).value[j], 7 - k);
  }

  lemma {:induction false} SqueezePlain(s: Text)
    requires AllHex(s)
    ensures Squeeze(s) == s
  {
    if s != [] {
      assert IsHexDigit(s[0]);
      SqueezePlain(s[1..]);
      assert s == [s[0]] + s[1..];
    }
  }

  /** Digits in pairs are decoded as they stand. */
  lemma {:induction false} PlainDecode(s: Text)
    requires |s| % 2 == 0 && AllHex(s)
    ensures Decode(s) == DecodePairs(s)
  {
    SqueezePlain(s);
  }

  lemma GetBitIs(b: Byte, index: int)
    requires 0 <= index < 8
    ensures GetBit(b, index) == Shift(GetInt(b), index) % 2
  {
    assert index % 32 == index;
  }

  lemma BinaryDigit(s: Text, j: int, k: int)
    requires AllHex(s) && 0 <= j && 2 * j + 1 < |s| && 0 <= k < 8
    ensures Nibbles(s)[8 * j + k] as int == 48 + Shift(PairValue(s, j), 7 - k) % 2
  {
    var a, b := DigitValue(s[2 * j]).value, DigitValue(s[2 * j + 1]).value;
    if k < 4 {
      NibbleHigh(a, b, k);
      BinaryAt(s, 2 * j, k, 8 * j + k);
    } else {
      NibbleLow(a, b, k - 4);
      BinaryAt(s, 2 * j + 1, k - 4, 8 * j + k);
    }
  }

  lemma BinaryAt(s: Text, i: int, k: int, at: int)
    requires AllHex(s) && 0 <= i < |s| && 0 <= k < 4 && at == 4 * i + k
    ensures Nibbles(s)[at] == Nibble(DigitValue(s[i]).value)[k]
  {
    NibblesAt(s, i);
    SliceAt(Nibbles(s), 4 * i, 4 * i + 4, k);
  }

  lemma SliceAt(s: Text, a: int, b: int, k: int)
    requires 0 <= a && 0 <= k < b - a && b <= |s|
    ensures s[a..b][k] == s[a + k]
  {
  }

  // ----- when the two decoders agree -------------------------------------------------------

  /**
   * The table reads a pair right: both digits are in it, or by accident, since a missing digit counts
   * as -1: 'f' before a digit of the table, and "ef".
   */
  predicate TableReads(c: Unit, d: Unit) {
    (TableIndex(d) >= 0 && (TableIndex(c) >= 0 || c == 102)) || (c == 101 && d == 102)
  }

  lemma PairAgreesIff(c: Unit, d: Unit)
    requires IsHexDigit(c) && IsHexDigit(d)
    ensures GetInt(ToByte(16 * TableIndex(c) + TableIndex(d))) == 16 * DigitValue(c).value + DigitValue(d).value
       <==> TableReads(c, d)
  {
    var n := 16 * TableIndex(c) + TableIndex(d);
    ByteRoundTrip(0, n);
    if n < 0 {
      assert n % 256 == n + 256;
    } else {
      assert n % 256 == n;
    }
  }

  lemma {:induction false} TableByteAt(s: Text, n: nat, j: int)
    requires 2 * n <= |s| && 0 <= j < n
    ensures TableBytes(s, n)[j] == ToByte(16 * TableIndex(s[2 * j]) + TableIndex(s[2 * j + 1]))
  {
    if j < n - 1 {
      TableByteAt(s, n - 1, j);
    }
  }

  lemma {:induction false} ByteAgreesIff(s: Text, j: int)
    requires |s| % 2 == 0 && AllHex(s) && 0 <= j < |s| / 2
    ensures DecodePairs(s).Some? && |DecodePairs(s).value| == |s| / 2
    ensures TableBytes(s, |s| / 2)[j] == DecodePairs(s).value[j] <==> TableReads(s[2 * j], s[2 * j + 1])
  {
    DecodedByte(s, j);
    TableByteAt(s, |s| / 2, j);
    PairAgreesIff(s[2 * j], s[2 * j + 1]);
    ByteRoundTrip(TableBytes(s, |s| / 2)[j], 0);
    ByteRoundTrip(DecodePairs(s).value[j], 0);
  }

  /**
   * On hex text, `hexStr2Str` reads the same bytes as `hexStr2Bytes` exactly when every pair is one
   * that the upper-case table reads right.
   */
  lemma {:induction false} TableAgreesIff(s: Text)
    requires |s| % 2 == 0 && AllHex(s)
    ensures Decode(s) == Some(TableBytes(s, |s| / 2))
       <==> forall j :: 0 <= j < |s| / 2 ==> TableReads(s[2 * j], s[2 * j + 1])
  {
    PlainDecode(s);
    DecodeTotal(s);
    var t, d := TableBytes(s, |s| / 2), DecodePairs(s).value;
    forall j | 0 <= j < |s| / 2 ensures t[j] == d[j] <==> TableReads(s[2 * j], s[2 * j + 1]) {
      ByteAgreesIff(s, j);
    }
    if t != d {
      var j :| 0 <= j < |s| / 2 && t[j] != d[j];
    }
  }

  // ----- unicode escapes -------------------------------------------------------------------

  const ESCAPE: Text := [92, 117]

  function Escape(c: Unit): Text {
    if c > 128 then ESCAPE + ToHexString(c as int) else ESCAPE + [ZERO, ZERO] + ToHexString(c as int)
  }

  function Escapes(s: Text): Text {
    if s == [] then [] else Escapes(s[..|s| - 1]) + Escape(s[|s| - 1])
  }

  method StrToUnicode(text: Text) returns (r: Text)
    ensures r == Escapes(text)
  {
    r := [];
    for i := 0 to |text|
      invariant r == Escapes(text[..i])
    {
      assert text[..i + 1][..i] == text[..i];
      var c := text[i];
      var strHex := ToHexString(c as int);
      if c > 128 {
        r := r + (ESCAPE + strHex);
      } else {
        r := r + (ESCAPE + [ZERO, ZERO] + strHex);
      }
    }
    assert text[..|text|] == text;
  }

  /** One six-character group: two characters skipped, two high digits, two low digits. */
  function Unescape(s: Text): Option<Unit>
    requires |s| == 6
  {
    var high, low := ParseInt(s[2..4] + [ZERO, ZERO]), ParseInt(s[4..]);
    if high.Some? && low.Some? && 0 <= high.value + low.value < 0x1_0000
    then Some((high.value + low.value) as Unit) else None
  }

  function Unescapes(s: Text, n: nat): Option<Text>
    requires 6 * n <= |s|
  {
    if n == 0 then Some([])
    else
      var front, c := Unescapes(s, n - 1), Unescape(s[6 * n - 6..6 * n]);
      if front.Some? && c.Some? then Some(front.value + [c.value]) else None
  }

  /** `None` is an exception: a group that is no number, or a negative one. */
  method UnicodeToString(hex: Text) returns (r: Option<Text>)
    ensures r == Unescapes(hex, |hex| / 6)
  {
    var t := |hex| / 6;
    var str: Text := [];
    for i := 0 to t
      invariant Unescapes(hex, i) == Some(str)
    {
      var c := Unescape(hex[6 * i..6 * (i + 1)]);
      if c == None {
        UnescapesFail(hex, i + 1, t);
        return None;
      }
      str := str + [c.value];
    }
    r := Some(str);
  }

  lemma {:induction false} UnescapesFail(s: Text, n: nat, m: nat)
    requires n <= m && 6 * m <= |s| && Unescapes(s, n) == None
    ensures Unescapes(s, m) == None
    decreases m - n
  {
    if n < m {
      UnescapesFail(s, n, m - 1);
    }
  }

  lemma {:induction false} UnescapesLength(s: Text, n: nat)
    requires 6 * n <= |s| && Unescapes(s, n).Some?
    ensures |Unescapes(s, n).value| == n
  {
    if n > 0 {
      UnescapesLength(s, n - 1);
    }
  }

  /** Exactly these code units get an escape of six characters; the others get a shorter one. */
  predicate SixWide(c: Unit) {
    0x10 <= c <= 0x80 || 0x1000 <= c
  }

  lemma HexWidth(n: int)
    requires 0 <= n < 0x1_0000
    ensures |ToHexString(n)| == if n < 0x10 then 1 else if n < 0x100 then 2 else if n < 0x1000 then 3 else 4
  {
    if n >= 0x10 {
      assert ToHexString(n) == ToHexString(n / 16) + [LowerDigit(n % 16)];
      if n >= 0x100 {
        assert ToHexString(n / 16) == ToHexString(n / 256) + [LowerDigit(n / 16 % 16)];
        if n >= 0x1000 {
          assert ToHexString(n / 256) == ToHexString(n / 4096) + [LowerDigit(n / 256 % 16)];
        }
      }
    }
  }

  /** `Integer.toHexString`: lower-case digits of the number, the first one not 0 unless it is the only one. */
  lemma {:induction false} HexStringSpelled(n: int)
    requires 0 <= n
    ensures var t := ToHexString(n);
      && (forall i :: 0 <= i < |t| ==> IsLowerDigit(t[i])) && ParseDigits(t) == Some(n) && (n > 0 ==> t[0] != 48)
    decreases n
  {
    LowerDigitValue(n % 16);
    if n < 16 {
      LowerDigitValue(n);
      ParseOne(LowerDigit(n));
    } else {
      HexStringSpelled(n / 16);
      ParseDigitsAppend(ToHexString(n / 16), LowerDigit(n % 16));
    }
  }

  /** An escape is a backslash, the letter u and the character's number, with "00" before numbers up to 128. */
  lemma {:induction false} EscapeSpelled(c: Unit)
    ensures var e := Escape(c);
      && |e| >= 3 && e[0] == 92 && e[1] == 117
      && (forall i :: 2 <= i < |e| ==> IsLowerDigit(e[i])) && ParseDigits(e[2..]) == Some(c as int)
      && (c > 128 ==> e[2] != 48)
      && (c <= 128 ==> |e| >= 5 && e[2] == 48 && e[3] == 48 && (c > 0 ==> e[4] != 48))
  {
    var t := ToHexString(c as int);
    HexStringSpelled(c as int);
    LowerHex(t);
    if c > 128 {
      Spelled(ESCAPE, t);
    } else {
      LeadingZero(t);
      LeadingZero([ZERO] + t);
      assert [ZERO] + ([ZERO] + t) == [ZERO, ZERO] + t;
      assert ESCAPE + [ZERO, ZERO] + t == ESCAPE + ([ZERO, ZERO] + t);
      Spelled(ESCAPE, [ZERO, ZERO] + t);
    }
  }

  lemma Spelled(prefix: Text, digits: Text)
    requires |prefix| == 2
    ensures var e := prefix + digits;
      e[0] == prefix[0] && e[1] == prefix[1] && e[2..] == digits && forall i :: 2 <= i < |e| ==> e[i] == digits[i - 2]
  {
  }

  lemma LowerHex(t: Text)
    requires forall i :: 0 <= i < |t| ==> IsLowerDigit(t[i])
    ensures AllHex(t) && AllHex([ZERO] + t)
  {
  }

  /** Reading a group ignores its first two characters; the other four are two bytes. */
  lemma UnescapeReads(s: Text)
    requires |s| == 6 && IsHexDigit(s[2]) && IsHexDigit(s[3]) && IsHexDigit(s[4]) && IsHexDigit(s[5])
    ensures Unescape(s) == Some((4096 * DigitValue(s[2]).value + 256 * DigitValue(s[3]).value
                                 + 16 * DigitValue(s[4]).value + DigitValue(s[5]).value) as Unit)
  {
    assert s[2..4] + [ZERO, ZERO] == [s[2], s[3], ZERO, ZERO] && s[4..] == [s[4], s[5]];
    ParseFourHigh(s[2], s[3]);
    ParseTwo(s[4], s[5]);
  }

  lemma EscapeWidth(c: Unit)
    ensures |Escape(c)| <= 6 && (|Escape(c)| == 6 <==> SixWide(c))
  {
    HexWidth(c as int);
  }

  lemma LowerDigitValue(d: int)
    requires 0 <= d < 16
    ensures DigitValue(LowerDigit(d)) == Some(d) && LowerDigit(d) != 45 && LowerDigit(d) != 43
  {
  }

  lemma ParseFourHigh(c: Unit, d: Unit)
    requires IsHexDigit(c) && IsHexDigit(d)
    ensures ParseInt([c, d, ZERO, ZERO]) == Some(256 * (16 * DigitValue(c).value + DigitValue(d).value))
  {
    ParseTwo(c, d);
    ParseDigitsAppend([c, d], ZERO);
    assert [c, d] + [ZERO] == [c, d, ZERO];
    ParseDigitsAppend([c, d, ZERO], ZERO);
    assert [c, d, ZERO] + [ZERO] == [c, d, ZERO, ZERO];
  }

  lemma UnescapeEscape(c: Unit)
    requires SixWide(c)
    ensures |Escape(c)| == 6 && Unescape(Escape(c)) == Some(c)
  {
    var n, e := c as int, Escape(c);
    if c > 128 {
      var a, b, x, y := n / 4096, n / 256 % 16, n / 16 % 16, n % 16;
      FourHexDigits(n);
      assert e == ESCAPE + [LowerDigit(a), LowerDigit(b), LowerDigit(x), LowerDigit(y)];
      UnescapeDigits(e, a, b, x, y);
    } else {
      var x, y := n / 16, n % 16;
      assert ToHexString(n) == ToHexString(n / 16) + [LowerDigit(y)];
      assert e == ESCAPE + [LowerDigit(0), LowerDigit(0), LowerDigit(x), LowerDigit(y)];
      UnescapeDigits(e, 0, 0, x, y);
    }
  }

  lemma {:induction false} FourHexDigits(n: int)
    requires 0x1000 <= n < 0x1_0000
    ensures 0 < n / 4096 < 16 && n == 4096 * (n / 4096) + 256 * (n / 256 % 16) + 16 * (n / 16 % 16) + n % 16
    ensures ToHexString(n) == [LowerDigit(n / 4096), LowerDigit(n / 256 % 16), LowerDigit(n / 16 % 16), LowerDigit(n % 16)]
  {
    assert n / 16 / 16 == n / 256 && n / 256 / 16 == n / 4096;
    assert ToHexString(n) == ToHexString(n / 16) + [LowerDigit(n % 16)];
    assert ToHexString(n / 16) == ToHexString(n / 256) + [LowerDigit(n / 16 % 16)];
    assert ToHexString(n / 256) == ToHexString(n / 4096) + [LowerDigit(n / 256 % 16)];
  }

  lemma UnescapeDigits(e: Text, a: int, b: int, x: int, y: int)
    requires 0 <= a < 16 && 0 <= b < 16 && 0 <= x < 16 && 0 <= y < 16
    requires e == ESCAPE + [LowerDigit(a), LowerDigit(b), LowerDigit(x), LowerDigit(y)]
    ensures Unescape(e) == Some((4096 * a + 256 * b + 16 * x + y) as Unit)
  {
    LowerDigitValue(a);
    LowerDigitValue(b);
    LowerDigitValue(x);
    LowerDigitValue(y);
    assert e[2..4] + [ZERO, ZERO] == [LowerDigit(a), LowerDigit(b), ZERO, ZERO];
    assert e[4..] == [LowerDigit(x), LowerDigit(y)];
    ParseFourHigh(LowerDigit(a), LowerDigit(b));
    ParseTwo(LowerDigit(x), LowerDigit(y));
  }

  ghost predicate AllSixWide(s: Text) {
    forall i :: 0 <= i < |s| ==> SixWide(s[i])
  }

  lemma AllSixWideLast(s: Text)
    requires s != []
    ensures AllSixWide(s) <==> AllSixWide(s[..|s| - 1]) && SixWide(s[|s| - 1])
  {
  }

  lemma {:induction false} EscapesLength(s: Text)
    ensures |Escapes(s)| <= 6 * |s|
    ensures |Escapes(s)| == 6 * |s| <==> AllSixWide(s)
  {
    if s != [] {
      EscapesLength(s[..|s| - 1]);
      EscapeWidth(s[|s| - 1]);
      AllSixWideLast(s);
    }
  }

  lemma {:induction false} UnescapesPrefix(s: Text, t: Text, n: nat)
    requires 6 * n <= |s|
    ensures Unescapes(s + t, n) == Unescapes(s, n)
  {
    if n > 0 {
      UnescapesPrefix(s, t, n - 1);
      assert (s + t)[6 * n - 6..6 * n] == s[6 * n - 6..6 * n];
    }
  }

  lemma {:induction false} SixWideRoundTrip(s: Text)
    requires AllSixWide(s)
    ensures |Escapes(s)| == 6 * |s| && Unescapes(Escapes(s), |s|) == Some(s)
  {
    EscapesLength(s);
    if s != [] {
      var n := |s| - 1;
      assert s == s[..n] + [s[n]];
      AllSixWideLast(s);
      SixWideRoundTrip(s[..n]);
      var front, last := Escapes(s[..n]), Escape(s[n]);
      assert |last| == 6 && Unescape(last) == Some(s[n]) by {
        UnescapeEscape(s[n]);
      }
      OneMore(s[..n], front, s[n], last);
    }
  }

  lemma {:induction false} OneMore(t: Text, front: Text, c: Unit, last: Text)
    requires |front| == 6 * |t| && |last| == 6 && Unescapes(front, |t|) == Some(t) && Unescape(last) == Some(c)
    ensures Unescapes(front + last, |t| + 1) == Some(t + [c])
  {
    var n := |t|;
    UnescapesPrefix(front, last, n);
    assert (front + last)[6 * (n + 1) - 6..6 * (n + 1)] == last;
  }

  /** Escaping and unescaping gives the string back exactly when every escape is six characters wide. */
  lemma {:induction false} UnicodeRoundTripIff(s: Text)
    ensures var e := Escapes(s); Unescapes(e, |e| / 6) == Some(s) <==> AllSixWide(s)
  {
    var e := Escapes(s);
    var groups := |e| / 6;
    EscapesLength(s);
    if AllSixWide(s) {
      assert groups == |s|;
      SixWideRoundTrip(s);
    } else {
      assert groups < |s|;
      if Unescapes(e, groups).Some? {
        UnescapesLength(e, groups);
      }
    }
  }

  // ----- the check code --------------------------------------------------------------------

  /** Bytes as bit patterns. */
  function Xor(bs: seq<bv8>): bv8 {
    if bs == [] then 0 else Xor(bs[..|bs| - 1]) ^ bs[|bs| - 1]
  }

  /** `getCheckCode` reads the first `length` bytes, but always the first one; `None` is reading past the end. */
  method GetCheckCode(ret: seq<bv8>, length: int) returns (code: Option<bv8>)
    ensures code == None <==> |ret| == 0 || length > |ret|
    ensures code.Some? ==> code == Some(Xor(ret[..if length < 1 then 1 else length]))
  {
    if |ret| == 0 {
      return None;
    }
    var temp := ret[0];
    assert ret[..1] == [ret[0]] && [ret[0]][..0] == [];
    assert Xor(ret[..1]) == Xor([]) ^ ret[0];
    var i := 1;
    while i < length
      invariant 1 <= i <= |ret| && (i <= length || i == 1)
      invariant temp == Xor(ret[..i])
    {
      if i >= |ret| {
        return None;
      }
      assert ret[..i + 1][..i] == ret[..i];
      temp := temp ^ ret[i];
      i := i + 1;
    }
    return Some(temp);
  }

  lemma XorAssociative(x: bv8, y: bv8, z: bv8)
    ensures (x ^ y) ^ z == x ^ (y ^ z)
  {
  }

  lemma {:induction false} XorConcat(a: seq<bv8>, b: seq<bv8>)
    ensures Xor(a + b) == Xor(a) ^ Xor(b)
    decreases |b|
  {
    if b == [] {
      assert a + b == a;
    } else {
      var front, last := b[..|b| - 1], b[|b| - 1];
      XorConcat(a, front);
      assert (a + b)[..|a + b| - 1] == a + front;
      XorAssociative(Xor(a), Xor(front), last);
    }
  }

  lemma XorMiddle(x: bv8, y: bv8, z: bv8, w: bv8)
    ensures x ^ y ^ w == x ^ z ^ w <==> y == z
  {
  }

  /** No single-byte error goes unnoticed. */
  lemma CheckCodeDetects(front: seq<bv8>, a: bv8, b: bv8, back: seq<bv8>)
    ensures Xor(front + [a] + back) == Xor(front + [b] + back) <==> a == b
  {
    var p, q := Xor(front), Xor(back);
    var l, r := Xor(front + [a] + back), Xor(front + [b] + back);
    assert l == p ^ a ^ q by { XorFramed(front, a, back); }
    assert r == p ^ b ^ q by { XorFramed(front, b, back); }
    XorMiddle(p, a, b, q);
  }

  lemma XorFramed(front: seq<bv8>, a: bv8, back: seq<bv8>)
    ensures Xor(front + [a] + back) == Xor(front) ^ a ^ Xor(back)
  {
    XorConcat(front + [a], back);
    XorConcat(front, [a]);
    XorOne(a);
  }

  lemma XorOne(a: bv8)
    ensures Xor([a]) == a
  {
    assert [a][..0] == [];
  }

  /** A message followed by its own check code has check code 0. */
  lemma CheckCodeCloses(bs: seq<bv8>)
    ensures Xor(bs + [Xor(bs)]) == 0
  {
    assert (bs + [Xor(bs)])[..|bs|] == bs;
  }
}
