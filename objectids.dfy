/** The BSON ObjectID (`primitive.ObjectID` of the MongoDB Go driver) and the
    two conversions the saga uses: `id.Hex()` when an id is put into an event
    payload, and `primitive.ObjectIDFromHex` when it is read back. */
module ObjectIds {
  import opened Wrappers

  newtype byte = x: int | 0 <= x < 256

  /** Twelve bytes; the driver generates fresh ones for new documents. */
  type ObjectId = b: seq<byte> | |b| == 12 witness [0, 0, 0, 0, 0, 0, 0, 0, 0, 0, 0, 0]

  /** `primitive.NilObjectID`, the zero value of an ObjectID field. */
  const NilObjectId: ObjectId := [0, 0, 0, 0, 0, 0, 0, 0, 0, 0, 0, 0]

  /** `primitive.ErrInvalidHex`, returned for a string whose length in bytes is not 24. */
  const ErrInvalidHex := Error("the provided hex string is not a valid ObjectID")

  /** `hex.ErrLength`. */
  const ErrLength := Error("encoding/hex: odd length hex string")

  const HexDigits: string := "0123456789abcdef"
  const UpperHexDigits: string := "0123456789ABCDEF"

  /** Whether `strconv.IsPrint` holds for the rune with value `b`. */
  predicate IsPrintLatin1(b: byte) {
    0x20 <= b <= 0x7E || (0xA1 <= b && b != 0xAD)
  }

  predicate IsUpperHexChar(c: char) {
    '0' <= c <= '9' || 'A' <= c <= 'F'
  }

  /** The value of an upper-case hex digit. */
  function UpperHexValue(c: char): (v: int)
    requires IsUpperHexChar(c)
    ensures 0 <= v < 16
  {
    if c <= '9' then c as int - '0' as int else c as int - 'A' as int + 10
  }

  /** `fmt.Sprintf("%#U", rune(b))`: `U+` and four upper-case hex digits,
      then the character in single quotes when it is printable. */
  function FormatRune(b: byte): (s: string)
    ensures |s| == (if IsPrintLatin1(b) then 10 else 6)
    ensures s[..4] == "U+00"
    ensures IsUpperHexChar(s[4]) && IsUpperHexChar(s[5])
    ensures 16 * UpperHexValue(s[4]) + UpperHexValue(s[5]) == b as int
    ensures IsPrintLatin1(b) ==> s[6..] == " '" + [b as int as char] + "'"
  {
    UpperDigitValue(b as int / 16);
    UpperDigitValue(b as int % 16);
    "U+00" + [UpperHexDigits[b as int / 16], UpperHexDigits[b as int % 16]]
    + (if IsPrintLatin1(b) then " '" + [(b as int) as char] + "'" else "")
  }

  lemma UpperDigitValue(k: int)
    requires 0 <= k < 16
    ensures IsUpperHexChar(UpperHexDigits[k]) && UpperHexValue(UpperHexDigits[k]) == k
  {
  }

  /** `hex.InvalidByteError` for the offending byte, as its `Error()` prints it:
      the fixed prefix, then the byte's code point as `U+00` and two upper-case
      hex digits, then the character itself in quotes when it is printable. */
  function InvalidByte(b: byte): (e: Error)
    ensures |e.msg| == (if IsPrintLatin1(b) then 38 else 34)
    ensures e.msg[..32] == "encoding/hex: invalid byte: U+00"
    ensures IsUpperHexChar(e.msg[32]) && IsUpperHexChar(e.msg[33])
    ensures 16 * UpperHexValue(e.msg[32]) + UpperHexValue(e.msg[33]) == b as int
    ensures IsPrintLatin1(b) ==> e.msg[34..] == " '" + [b as int as char] + "'"
  {
    var f := FormatRune(b);
    var m := "encoding/hex: invalid byte: " + f;
    assert m[..32] == "encoding/hex: invalid byte: " + f[..4];
    assert m[32] == f[4] && m[33] == f[5];
    assert m[34..] == f[6..];
    Error(m)
  }

  predicate IsHexChar(c: char) {
    '0' <= c <= '9' || 'a' <= c <= 'f' || 'A' <= c <= 'F'
  }

  predicate IsHexString(s: string) {
    forall i | 0 <= i < |s| :: IsHexChar(s[i])
  }

  /** A byte that is the ASCII code of a hex digit. */
  predicate IsHexByte(b: byte) {
    IsHexChar((b as int) as char)
  }

  predicate IsHexBytes(b: seq<byte>) {
    forall i | 0 <= i < |b| :: IsHexByte(b[i])
  }

  function HexValue(b: byte): (v: int)
    requires IsHexByte(b)
    ensures 0 <= v < 16
  {
    if '0' as int <= b as int <= '9' as int then b as int - '0' as int
    else if 'a' as int <= b as int <= 'f' as int then b as int - 'a' as int + 10
    else b as int - 'A' as int + 10
  }

  /** The bytes of a Go string holding `c`: its UTF-8 encoding. Only ASCII
      characters take one byte; every byte of a longer encoding is 0x80 or
      above. */
  function Utf8Char(c: char): (b: seq<byte>)
    ensures 1 <= |b| <= 4
    ensures c as int < 0x80 ==> b == [c as int as byte]
    ensures c as int >= 0x80 ==> |b| >= 2 && forall i | 0 <= i < |b| :: b[i] >= 0x80
  {
    var n := c as int;
    if n < 0x80 then [n as byte]
    else if n < 0x800 then [(0xC0 + n / 0x40) as byte, (0x80 + n % 0x40) as byte]
    else if n < 0x1_0000 then [(0xE0 + n / 0x1000) as byte, (0x80 + n / 0x40 % 0x40) as byte, (0x80 + n % 0x40) as byte]
    else [(0xF0 + n / 0x4_0000) as byte, (0x80 + n / 0x1000 % 0x40) as byte, (0x80 + n / 0x40 % 0x40) as byte,
          (0x80 + n % 0x40) as byte]
  }

  /** `[]byte(s)`: the UTF-8 encoding of a string; Go's `len(s)` is its length. */
  function Utf8(s: string): (b: seq<byte>)
    ensures |b| >= |s|
    ensures (forall i | 0 <= i < |s| :: s[i] as int < 0x80) ==>
              |b| == |s| && forall i | 0 <= i < |s| :: b[i] as int == s[i] as int
  {
    if s == [] then [] else Utf8Char(s[0]) + Utf8(s[1..])
  }

  /** `hex.EncodeToString`: two lower-case digits per byte, high nibble first. */
  function EncodeHex(b: seq<byte>): (s: string)
    ensures |s| == 2 * |b|
    ensures forall i | 0 <= i < |s| :: s[i] in HexDigits
  {
    if b == [] then []
    else [HexDigits[b[0] as int / 16], HexDigits[b[0] as int % 16]] + EncodeHex(b[1..])
  }

  /** `hex.Decode`: pairs are decoded left to right and the first byte that
      is not a hex digit is reported; an odd trailing digit is a length error.
      Upper- and lower-case digits are both accepted. */
  function DecodeHex(s: seq<byte>): (r: Result<seq<byte>>)
    ensures r.Ok? <==> |s| % 2 == 0 && IsHexBytes(s)
    ensures r.Ok? ==> 2 * |r.value| == |s|
  {
    if s == [] then Ok([])
    else if !IsHexByte(s[0]) then Err(InvalidByte(s[0]))
    else if |s| == 1 then Err(ErrLength)
    else if !IsHexByte(s[1]) then Err(InvalidByte(s[1]))
    else
      match DecodeHex(s[2..])
      case Err(e) => Err(e)
      case Ok(rest) => Ok([(HexValue(s[0]) * 16 + HexValue(s[1])) as byte] + rest)
  }

  /** `id.Hex()`. */
  function Hex(id: ObjectId): (s: string)
    ensures |s| == 24 && IsHexString(s)
  {
    EncodeHex(id)
  }

  /** `primitive.ObjectIDFromHex`: the length in bytes is checked first, then
      the digits. A string parses exactly when it is 24 hex digits, but a
      string of 24 characters that are not all ASCII fails the length check. */
  function ObjectIdFromHex(s: string): (r: Result<ObjectId>)
    ensures r.Ok? <==> |s| == 24 && IsHexString(s)
    ensures |Utf8(s)| != 24 ==> r == Err(ErrInvalidHex)
  {
    Utf8Hex(s);
    var b := Utf8(s);
    if |b| != 24 then Err(ErrInvalidHex)
    else
      match DecodeHex(b)
      case Err(e) => Err(e)
      case Ok(id) => Ok(id)
  }

  /** The bytes of a string are hex digits exactly when its characters are,
      and then there is one byte per character. */
  lemma {:induction false} Utf8Hex(s: string)
    ensures IsHexBytes(Utf8(s)) <==> IsHexString(s)
    ensures IsHexString(s) ==> |Utf8(s)| == |s|
  {
    if s != [] {
      Utf8Hex(s[1..]);
      HexBytesConcat(Utf8Char(s[0]), Utf8(s[1..]));
      HexStringCons(s);
      CharBytesHex(s[0]);
    }
  }

  lemma HexBytesConcat(a: seq<byte>, b: seq<byte>)
    ensures IsHexBytes(a + b) <==> IsHexBytes(a) && IsHexBytes(b)
  {
    assert forall i | 0 <= i < |a| :: (a + b)[i] == a[i];
    assert forall i | 0 <= i < |b| :: (a + b)[|a| + i] == b[i];
    if IsHexBytes(a) && IsHexBytes(b) {
      forall i | 0 <= i < |a + b| ensures IsHexByte((a + b)[i]) {
        if i >= |a| {
          assert (a + b)[i] == b[i - |a|];
        }
      }
    }
  }

  lemma HexStringCons(s: string)
    requires s != []
    ensures IsHexString(s) <==> IsHexChar(s[0]) && IsHexString(s[1..])
  {
    assert forall i | 1 <= i < |s| :: s[i] == s[1..][i - 1];
  }

  /** A character's bytes are hex digits exactly when it is one. */
  lemma CharBytesHex(c: char)
    ensures IsHexBytes(Utf8Char(c)) <==> IsHexChar(c)
  {
    var b := Utf8Char(c);
    if c as int < 0x80 {
      assert b == [c as int as byte] && (b[0] as int) as char == c;
    } else {
      assert b[0] >= 0x80 && !IsHexByte(b[0]);
    }
  }

  /** The digit `HexDigits[d]` is one ASCII byte, which decodes to `d`. */
  lemma HexDigitValue(d: int)
    requires 0 <= d < 16
    ensures Utf8Char(HexDigits[d]) == [HexDigits[d] as int as byte]
    ensures IsHexByte(HexDigits[d] as int as byte) && HexValue(HexDigits[d] as int as byte) == d
  {
    assert HexDigits == ['0', '1', '2', '3', '4', '5', '6', '7', '8', '9', 'a', 'b', 'c', 'd', 'e', 'f'];
  }

  /** One step of `DecodeHex` on bytes that start with two digits. */
  lemma DecodeHexPair(x: byte, y: byte, rest: seq<byte>)
    requires IsHexByte(x) && IsHexByte(y)
    ensures DecodeHex([x, y] + rest) ==
      match DecodeHex(rest)
      case Err(e) => Err(e)
      case Ok(r) => Ok([(HexValue(x) * 16 + HexValue(y)) as byte] + r)
  {
    var s := [x, y] + rest;
    assert s[0] == x && s[1] == y && s[2..] == rest;
  }

  /** The encoding of a string is the encodings of its characters in turn. */
  lemma Utf8Pair(x: char, y: char, rest: string)
    ensures Utf8([x, y] + rest) == Utf8Char(x) + Utf8Char(y) + Utf8(rest)
  {
    var s := [x, y] + rest;
    assert s[0] == x && s[1..] == [y] + rest;
    assert ([y] + rest)[0] == y && ([y] + rest)[1..] == rest;
  }

  lemma NibblesOfByte(v: byte)
    ensures (v as int / 16) * 16 + v as int % 16 == v as int
  {
  }

  /** The bytes of the hex text of `b`: the two digit bytes of its first
      byte, then those of the rest. */
  lemma EncodeHexBytes(b: seq<byte>)
    requires b != []
    ensures var x, y := HexDigits[b[0] as int / 16], HexDigits[b[0] as int % 16];
            Utf8(EncodeHex(b)) == [x as int as byte, y as int as byte] + Utf8(EncodeHex(b[1..]))
  {
    var x, y := HexDigits[b[0] as int / 16], HexDigits[b[0] as int % 16];
    HexDigitValue(b[0] as int / 16);
    HexDigitValue(b[0] as int % 16);
    assert EncodeHex(b) == [x, y] + EncodeHex(b[1..]);
    Utf8Pair(x, y, EncodeHex(b[1..]));
  }

  /** Decoding the bytes of the hex text undoes encoding. */
  lemma {:induction false} DecodeEncodeHex(b: seq<byte>)
    ensures DecodeHex(Utf8(EncodeHex(b))) == Ok(b)
  {
    if b != [] {
      var hi, lo := b[0] as int / 16, b[0] as int % 16;
      var x, y := HexDigits[hi] as int as byte, HexDigits[lo] as int as byte;
      var rest := Utf8(EncodeHex(b[1..]));
      HexDigitValue(hi);
      HexDigitValue(lo);
      NibblesOfByte(b[0]);
      EncodeHexBytes(b);
      assert Utf8(EncodeHex(b)) == [x, y] + rest;
      DecodeHexPair(x, y, rest);
      DecodeEncodeHex(b[1..]);
      assert DecodeHex(rest) == Ok(b[1..]);
      assert (HexValue(x) * 16 + HexValue(y)) as byte == b[0];
      assert [b[0]] + b[1..] == b;
    }
  }

  /** A string with a character outside ASCII has more bytes than characters. */
  lemma {:induction false} Utf8LongerWithNonAscii(s: string, i: nat)
    requires i < |s| && s[i] as int >= 0x80
    ensures |Utf8(s)| > |s|
  {
    if i > 0 {
      assert s[1..][i - 1] == s[i];
      Utf8LongerWithNonAscii(s[1..], i - 1);
    }
  }

  /** Twenty-four characters that are not all ASCII are more than 24 bytes,
      so the length check rejects them before any digit is looked at. */
  lemma NonAsciiIsInvalidHex(s: string, i: nat)
    requires |s| == 24 && i < |s| && s[i] as int >= 0x80
    ensures ObjectIdFromHex(s) == Err(ErrInvalidHex)
  {
    Utf8LongerWithNonAscii(s, i);
  }

  /** Two messages written out: a printable ASCII letter and a printable
      Latin-1 character. */
  lemma InvalidByteMessage()
    ensures InvalidByte('g' as int as byte) == Error("encoding/hex: invalid byte: U+0067 'g'")
    ensures InvalidByte(0xC3) == Error("encoding/hex: invalid byte: U+00C3 '\U{C3}'")
  {
  }

  /** The id a handler puts into an event payload parses back to the same id. */
  lemma ObjectIdFromHexOfHex(id: ObjectId)
    ensures ObjectIdFromHex(Hex(id)) == Ok(id)
  {
    DecodeEncodeHex(id);
    Utf8Hex(Hex(id));
  }

  /** Distinct ids have distinct hex forms, so a payload names exactly one product. */
  lemma HexInjective(a: ObjectId, b: ObjectId)
    requires Hex(a) == Hex(b)
    ensures a == b
  {
    ObjectIdFromHexOfHex(a);
    ObjectIdFromHexOfHex(b);
  }
}
