/** Unpadded base64url, section 5 of RFC 4648. */
module Base64Url {
  import opened Prelude

  type Byte = b: int | 0 <= b < 256
  type Sextet = x: int | 0 <= x < 64

  predicate InAlphabet(c: char) {
    'A' <= c <= 'Z' || 'a' <= c <= 'z' || '0' <= c <= '9' || c == '-' || c == '_'
  }

  function ToChar(x: Sextet): (c: char)
    ensures InAlphabet(c)
  {
    if x < 26 then (65 + x) as char
    else if x < 52 then (71 + x) as char
    else if x < 62 then (x - 4) as char
    else if x == 62 then '-' else '_'
  }

  function ToSextet(c: char): Sextet
    requires InAlphabet(c)
  {
    if 'A' <= c <= 'Z' then c as int - 65
    else if 'a' <= c <= 'z' then c as int - 71
    else if '0' <= c <= '9' then c as int + 4
    else if c == '-' then 62 else 63
  }

  /** Table 2 of RFC 4648: three runs of consecutive characters, then minus and underscore. */
  lemma AlphabetIsTable2(x: Sextet)
    ensures ToChar(0) == 'A' && ToChar(25) == 'Z' && ToChar(26) == 'a' && ToChar(51) == 'z'
    ensures ToChar(52) == '0' && ToChar(61) == '9' && ToChar(62) == '-' && ToChar(63) == '_'
    ensures x !in {25, 51, 61, 62, 63} ==> ToChar(x + 1) as int == ToChar(x) as int + 1
  {
  }

  lemma CharRoundTrip(x: Sextet)
    ensures ToSextet(ToChar(x)) == x
  {
  }

  function Sextets(bytes: seq<Byte>): seq<Sextet> {
    if |bytes| == 0 then []
    else if |bytes| == 1 then [bytes[0] / 4, bytes[0] % 4 * 16]
    else if |bytes| == 2 then [bytes[0] / 4, bytes[0] % 4 * 16 + bytes[1] / 16, bytes[1] % 16 * 4]
    else
      [bytes[0] / 4, bytes[0] % 4 * 16 + bytes[1] / 16, bytes[1] % 16 * 4 + bytes[2] / 64, bytes[2] % 64]
      + Sextets(bytes[3..])
  }

  function InBase64(a: Sextet, b: Sextet, c: Sextet, d: Sextet): int {
    (a as int * 262144) + (b as int * 4096) + (c as int * 64) + d
  }

  function InBase256(a: Byte, b: Byte, c: Byte): int {
    (a as int * 65536) + (b as int * 256) + c
  }

  /** Three bytes and their four sextets are one number; a short last group is filled up with zero bits. */
  lemma GroupsKeepTheirBits(bytes: seq<Byte>)
    ensures var x := Sextets(bytes);
            match |bytes|
            case 0 => x == []
            case 1 => |x| == 2 && InBase64(x[0], x[1], 0, 0) == InBase256(bytes[0], 0, 0)
            case 2 => |x| == 3 && InBase64(x[0], x[1], x[2], 0) == InBase256(bytes[0], bytes[1], 0)
            case _ => |x| >= 4 && InBase64(x[0], x[1], x[2], x[3]) == InBase256(bytes[0], bytes[1], bytes[2])
                      && x[4..] == Sextets(bytes[3..])
  {
  }

  /** The bits of an incomplete last byte are dropped. A single trailing sextet holds no byte. */
  function Bytes(x: seq<Sextet>): seq<Byte> {
    if |x| <= 1 then []
    else
      var b0 := x[0] as int * 4 + x[1] as int / 16;
      if |x| == 2 then [b0]
      else
        var b1 := x[1] as int % 16 * 16 + x[2] as int / 4;
        if |x| == 3 then [b0, b1] else [b0, b1, x[2] as int % 4 * 64 + x[3] as int] + Bytes(x[4..])
  }

  lemma {:induction false} SextetsRoundTrip(bytes: seq<Byte>)
    ensures Bytes(Sextets(bytes)) == bytes
  {
    if |bytes| >= 3 {
      SextetsRoundTrip(bytes[3..]);
      assert Sextets(bytes)[4..] == Sextets(bytes[3..]);
    }
  }

  function Encode(bytes: seq<Byte>): (s: string)
    ensures forall i :: 0 <= i < |s| ==> InAlphabet(s[i])
  {
    var x := Sextets(bytes);
    seq(|x|, i requires 0 <= i < |x| => ToChar(x[i]))
  }

  function Decode(s: string): Option<seq<Byte>> {
    if forall i :: 0 <= i < |s| ==> InAlphabet(s[i]) then
      Some(Bytes(seq(|s|, i requires 0 <= i < |s| && InAlphabet(s[i]) => ToSextet(s[i]))))
    else
      None
  }

  /** Decoding inverts encoding, so encoding is injective. */
  lemma RoundTrip(bytes: seq<Byte>)
    ensures Decode(Encode(bytes)) == Some(bytes)
  {
    var s, x := Encode(bytes), Sextets(bytes);
    var y := seq(|s|, i requires 0 <= i < |s| && InAlphabet(s[i]) => ToSextet(s[i]));
    forall i | 0 <= i < |x|
      ensures y[i] == x[i]
    {
      CharRoundTrip(x[i]);
    }
    assert y == x;
    SextetsRoundTrip(bytes);
  }
}
