/** base64url without padding (section 5 of RFC 4648), as the wire and the
    database use it.  `Decode` follows the lenient decoder of the Python
    standard library: it accepts both alphabets, skips foreign characters and
    stops at sufficient padding. */
module Encoding {
  import opened Basics

  function Symbol(v: int): char
    requires 0 <= v < 64
  {
    if v < 26 then (65 + v) as char
    else if v < 52 then (71 + v) as char
    else if v < 62 then (v - 4) as char
    else if v == 62 then '-'
    else '_'
  }

  function SymbolValue(c: char): (v: Option<int>)
    ensures v.Some? ==> 0 <= v.value < 64
  {
    if IsUpperLetter(c) then Some(c as int - 65)
    else if IsLowerLetter(c) then Some(c as int - 71)
    else if IsDigit(c) then Some(c as int + 4)
    else if c == '-' || c == '+' then Some(62)
    else if c == '_' || c == '/' then Some(63)
    else None
  }

  function Encode(raw: Bytes): string {
    if |raw| == 0 then ""
    else if |raw| == 1 then [Symbol(raw[0] / 4), Symbol(raw[0] % 4 * 16)]
    else if |raw| == 2 then
      [Symbol(raw[0] / 4), Symbol(raw[0] % 4 * 16 + raw[1] / 16), Symbol(raw[1] % 16 * 4)]
    else EncodeGroup(raw[0], raw[1], raw[2]) + Encode(raw[3..])
  }

  function Padding(size: nat): string {
    var missing := (4 - size % 4) % 4;
    seq(missing, _ => '=')
  }

  /** The decoder's loop.  `quad` counts the symbols of the current group, `left`
      holds the bits not yet emitted, `pads` the padding characters in a row. */
  function Scan(s: string, quad: int, left: int, pads: nat): Option<Bytes>
    requires 0 <= quad < 4 && 0 <= left
    requires quad == 0 || (quad == 1 && left < 64) || (quad == 2 && left < 16) || (quad == 3 && left < 4)
  {
    if s == "" then
      if quad == 0 then Some([]) else None
    else if s[0] == '=' then
      if quad >= 2 && quad + pads + 1 >= 4 then Some([])
      else Scan(s[1..], quad, left, if quad >= 2 then pads + 1 else pads)
    else
      var v := SymbolValue(s[0]);
      if v.None? then Scan(s[1..], quad, left, pads)
      else if quad == 0 then Scan(s[1..], 1, v.value, 0)
      else if quad == 1 then Emit(left * 4 + v.value / 16, Scan(s[1..], 2, v.value % 16, 0))
      else if quad == 2 then Emit(left * 16 + v.value / 4, Scan(s[1..], 3, v.value % 4, 0))
      else Emit(left * 64 + v.value, Scan(s[1..], 0, 0, 0))
  }

  function Emit(b: byte, rest: Option<Bytes>): Option<Bytes> {
    if rest.None? then None else Some([b] + rest.value)
  }

  function Decode(text: string): Option<Bytes> {
    var value := Strip(text);
    if !IsAscii(value) then None else Scan(value + Padding(|value|), 0, 0, 0)
  }

  /** Text with anything but ASCII in it is refused, whatever else it holds. */
  lemma NonAsciiIsRefused(text: string)
    requires exists i :: 0 <= i < |Strip(text)| && Strip(text)[i] as int >= 128
    ensures Decode(text).None?
  {
    hide Strip, Scan;
  }

  lemma SymbolRoundTrip(v: int)
    requires 0 <= v < 64
    ensures SymbolValue(Symbol(v)) == Some(v)
    ensures Symbol(v) != '=' && !IsSpace(Symbol(v)) && Symbol(v) < 128 as char
  {
  }

  lemma {:induction false} EncodeShape(raw: Bytes)
    ensures IsAscii(Encode(raw))
    ensures forall i :: 0 <= i < |Encode(raw)| ==> !IsSpace(Encode(raw)[i])
  {
    if |raw| < 3 {
    } else {
      EncodeShape(raw[3..]);
    }
  }

  lemma ScanSymbol(v: int, rest: string, quad: int, left: int)
    requires 0 <= v < 64 && 0 <= quad < 4 && 0 <= left
    requires quad == 0 || (quad == 1 && left < 64) || (quad == 2 && left < 16) || (quad == 3 && left < 4)
    ensures Scan([Symbol(v)] + rest, quad, left, 0)
            == if quad == 0 then Scan(rest, 1, v, 0)
               else if quad == 1 then Emit(left * 4 + v / 16, Scan(rest, 2, v % 16, 0))
               else if quad == 2 then Emit(left * 16 + v / 4, Scan(rest, 3, v % 4, 0))
               else Emit(left * 64 + v, Scan(rest, 0, 0, 0))
  {
    SymbolRoundTrip(v);
    assert ([Symbol(v)] + rest)[1..] == rest;
  }

  /** Three bytes, as the four sextets that encode them. */
  lemma SextetArithmetic(a: byte, b: byte, c: byte)
    ensures 0 <= a / 4 < 64 && 0 <= a % 4 * 16 + b / 16 < 64
    ensures 0 <= b % 16 * 4 + c / 64 < 64 && 0 <= c % 64 < 64
    ensures a / 4 * 4 + (a % 4 * 16 + b / 16) / 16 == a
    ensures (a % 4 * 16 + b / 16) % 16 * 16 + (b % 16 * 4 + c / 64) / 4 == b
    ensures (b % 16 * 4 + c / 64) % 4 * 64 + c % 64 == c
  {
  }

  function EncodeGroup(a: byte, b: byte, c: byte): string {
    [Symbol(a / 4), Symbol(a % 4 * 16 + b / 16), Symbol(b % 16 * 4 + c / 64), Symbol(c % 64)]
  }

  lemma ScanGroup(a: byte, b: byte, c: byte, rest: string)
    ensures Scan(EncodeGroup(a, b, c) + rest, 0, 0, 0) == Emit(a, Emit(b, Emit(c, Scan(rest, 0, 0, 0))))
  {
    var v0, v1, v2, v3 := a / 4, a % 4 * 16 + b / 16, b % 16 * 4 + c / 64, c % 64;
    SextetArithmetic(a, b, c);
    var s3 := [Symbol(v3)] + rest;
    var s2 := [Symbol(v2)] + s3;
    var s1 := [Symbol(v1)] + s2;
    assert EncodeGroup(a, b, c) + rest == [Symbol(v0)] + s1;
    ScanSymbol(v0, s1, 0, 0);
    ScanSymbol(v1, s2, 1, v0);
    ScanSymbol(v2, s3, 2, v1 % 16);
    ScanSymbol(v3, rest, 3, v2 % 4);
  }

  lemma ScanOne(a: byte)
    ensures Scan(Encode([a]) + Padding(2), 0, 0, 0) == Some([a])
  {
    var v0, v1 := a / 4, a % 4 * 16;
    SextetArithmetic(a, 0, 0);
    var pad := ['=', '='];
    assert Scan(pad[1..], 2, v1 % 16, 1) == Some([]);
    assert Scan(pad, 2, v1 % 16, 0) == Some([]);
    assert Padding(2) == pad;
    assert Encode([a]) == [Symbol(v0), Symbol(v1)];
    assert Encode([a]) + Padding(2) == [Symbol(v0)] + ([Symbol(v1)] + pad);
    ScanSymbol(v0, [Symbol(v1)] + pad, 0, 0);
    ScanSymbol(v1, pad, 1, v0);
    assert [a] == [a] + [];
  }

  lemma ScanTwo(a: byte, b: byte)
    ensures Scan(Encode([a, b]) + Padding(3), 0, 0, 0) == Some([a, b])
  {
    var v0, v1, v2 := a / 4, a % 4 * 16 + b / 16, b % 16 * 4;
    SextetArithmetic(a, b, 0);
    var pad := ['='];
    assert Scan(pad, 3, v2 % 4, 0) == Some([]);
    assert Padding(3) == pad;
    assert Encode([a, b]) == [Symbol(v0), Symbol(v1), Symbol(v2)];
    assert Encode([a, b]) + Padding(3) == [Symbol(v0)] + ([Symbol(v1)] + ([Symbol(v2)] + pad));
    ScanSymbol(v0, [Symbol(v1)] + ([Symbol(v2)] + pad), 0, 0);
    ScanSymbol(v1, [Symbol(v2)] + pad, 1, v0);
    ScanSymbol(v2, pad, 2, v1 % 16);
    assert [a, b] == [a] + ([b] + []);
  }

  lemma PaddingRepeats(size: nat)
    ensures Padding(size + 4) == Padding(size)
  {
  }

  lemma {:induction false} ScanEncoded(raw: Bytes)
    ensures Scan(Encode(raw) + Padding(|Encode(raw)|), 0, 0, 0) == Some(raw)
  {
    if |raw| == 0 {
    } else if |raw| == 1 {
      ScanOne(raw[0]);
      assert raw == [raw[0]];
    } else if |raw| == 2 {
      ScanTwo(raw[0], raw[1]);
      assert raw == [raw[0], raw[1]];
    } else {
      var rest := raw[3..];
      ScanEncoded(rest);
      var tail := Encode(rest) + Padding(|Encode(rest)|);
      assert Encode(raw) == EncodeGroup(raw[0], raw[1], raw[2]) + Encode(rest);
      PaddingRepeats(|Encode(rest)|);
      assert Encode(raw) + Padding(|Encode(raw)|) == EncodeGroup(raw[0], raw[1], raw[2]) + tail;
      ScanGroup(raw[0], raw[1], raw[2], tail);
      assert raw == [raw[0]] + ([raw[1]] + ([raw[2]] + rest));
    }
  }

  /** Every byte string survives the trip through unpadded base64url text. */
  lemma RoundTrip(raw: Bytes)
    ensures Decode(Encode(raw)) == Some(raw)
  {
    EncodeShape(raw);
    ScanEncoded(raw);
  }
}
