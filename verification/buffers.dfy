/** The 32-bit codec over buffers of signed chars. */
module Buffers {
  import opened Messages

  datatype Endianness = Little | Big

  type uint32 = n: int | 0 <= n < 0x1_0000_0000

  /** `static_cast<uint8_t>(c)`. */
  function ToUint8(c: Char): (u: int)
    ensures 0 <= u < 256 && (u - c) % 256 == 0
  {
    if c < 0 then c + 256 else c
  }

  /** Narrowing of an unsigned value below 256 to `char`. */
  function ToChar(u: int): (c: Char)
    requires 0 <= u < 256
    ensures (c - u) % 256 == 0
  {
    if u < 128 then u else u - 256
  }

  /** Conversion of a `uint32_t` to a 32-bit `int`. */
  function ToInt32(n: uint32): (i: int)
    ensures -0x8000_0000 <= i < 0x8000_0000 && (i - n) % 0x1_0000_0000 == 0
  {
    if n < 0x8000_0000 then n else n - 0x1_0000_0000
  }

  function Reversed4(s: Bytes): Bytes
    requires |s| == 4
  {
    [s[3], s[2], s[1], s[0]]
  }

  /** The value of four cells: a base-256 numeral. */
  function Decode(s: Bytes, e: Endianness): uint32
    requires |s| == 4
  {
    match e
    case Big => ((ToUint8(s[0]) * 256 + ToUint8(s[1])) * 256 + ToUint8(s[2])) * 256 + ToUint8(s[3])
    case Little => ToUint8(s[0]) + 256 * (ToUint8(s[1]) + 256 * (ToUint8(s[2]) + 256 * ToUint8(s[3])))
  }

  /** The four cells that hold `value`: its base-256 digits. */
  function Encode(value: uint32, e: Endianness): (s: Bytes)
    ensures |s| == 4
  {
    var d0, d1, d2, d3 := value / 0x100_0000, value / 0x1_0000 % 256, value / 256 % 256, value % 256;
    match e
    case Big => [ToChar(d0), ToChar(d1), ToChar(d2), ToChar(d3)]
    case Little => [ToChar(d3), ToChar(d2), ToChar(d1), ToChar(d0)]
  }

  /** The number that four chars stand for, most significant first. */
  function Numeral(a: int, b: int, c: int, d: int): int {
    a % 256 * 0x100_0000 + b % 256 * 0x1_0000 + c % 256 * 0x100 + d % 256
  }

  lemma Residue(c: Char)
    ensures ToUint8(c) == c % 256
  {
  }

  /** `Decode` by arithmetic on the chars as they are, negative or not. */
  lemma DecodeIs(s: Bytes)
    requires |s| == 4
    ensures Decode(s, Big) == Numeral(s[0], s[1], s[2], s[3])
    ensures Decode(s, Little) == Numeral(s[3], s[2], s[1], s[0])
  {
    Residue(s[0]);
    Residue(s[1]);
    Residue(s[2]);
    Residue(s[3]);
  }

  lemma DigitsRebuild(value: uint32)
    ensures ((value / 0x100_0000 * 256 + value / 0x1_0000 % 256) * 256 + value / 256 % 256) * 256 + value % 256 == value
  {
    assert value / 0x1_0000 == value / 256 / 256 && value / 0x100_0000 == value / 256 / 256 / 256;
  }

  lemma DigitsAre(a: nat, b: nat, c: nat, d: nat)
    requires a < 256 && b < 256 && c < 256 && d < 256
    ensures var n := ((a * 256 + b) * 256 + c) * 256 + d;
            n / 0x100_0000 == a && n / 0x1_0000 % 256 == b && n / 256 % 256 == c && n % 256 == d
  {
    var n := ((a * 256 + b) * 256 + c) * 256 + d;
    assert n / 256 == (a * 256 + b) * 256 + c;
    assert n / 0x1_0000 == a * 256 + b;
    assert n / 0x100_0000 == a;
  }

  lemma ReadAfterWrite(value: uint32, e: Endianness)
    ensures Decode(Encode(value, e), e) == value
  {
    DigitsRebuild(value);
    var d0, d1, d2, d3 := value / 0x100_0000, value / 0x1_0000 % 256, value / 256 % 256, value % 256;
    assert ToUint8(ToChar(d0)) == d0 && ToUint8(ToChar(d1)) == d1 && ToUint8(ToChar(d2)) == d2 && ToUint8(ToChar(d3)) == d3;
  }

  /** `Encode` by the same arithmetic. */
  lemma EncodeIs(value: uint32)
    ensures var s := Encode(value, Big); Numeral(s[0], s[1], s[2], s[3]) == value
    ensures Encode(value, Little) == Reversed4(Encode(value, Big))
  {
    ReadAfterWrite(value, Big);
    DecodeIs(Encode(value, Big));
  }

  lemma WriteAfterRead(s: Bytes, e: Endianness)
    requires |s| == 4
    ensures Encode(Decode(s, e), e) == s
  {
    var t := if e.Big? then s else Reversed4(s);
    var a, b, c, d := ToUint8(t[0]), ToUint8(t[1]), ToUint8(t[2]), ToUint8(t[3]);
    DigitsAre(a, b, c, d);
    assert Decode(s, e) == ((a * 256 + b) * 256 + c) * 256 + d;
    assert forall i :: 0 <= i < 4 ==> ToChar(ToUint8(t[i])) == t[i];
  }

  /** Big-endian is little-endian of the reversed cells. */
  lemma EndiannessIsReversal(s: Bytes)
    requires |s| == 4
    ensures Decode(s, Big) == Decode(Reversed4(s), Little)
    ensures Decode(s, Little) == Decode(Reversed4(s), Big)
  {
    assert Reversed4(Reversed4(s)) == s;
  }

  /** Big-endian numerals compare as their unsigned cells compare, most significant cell first. */
  lemma BigEndianIsLexicographic(s: Bytes, t: Bytes, k: nat)
    requires |s| == |t| == 4 && k < 4 && s[..k] == t[..k]
    requires ToUint8(s[k]) < ToUint8(t[k])
    ensures Decode(s, Big) < Decode(t, Big)
  {
    assert forall j :: 0 <= j < k ==> s[..k][j] == s[j] && t[..k][j] == t[j];
  }

  method Clear(buffer: array<Char>)
    modifies buffer
    ensures buffer[..] == seq(buffer.Length, _ => 0)
  {
    var i := 0;
    while i < buffer.Length
      invariant 0 <= i <= buffer.Length
      invariant forall k :: 0 <= k < i ==> buffer[k] == 0
    {
      buffer[i] := 0;
      i := i + 1;
    }
  }

  /** `read_uint32`; the four shifted bytes occupy disjoint bits, so `|=` adds them. */
  method ReadUint32(buffer: array<Char>, e: Endianness, offset: nat) returns (result: uint32)
    requires offset + 4 <= buffer.Length
    ensures result == Decode(buffer[offset..offset + 4], e)
  {
    result := 0;
    if e == Big {
      result := result + ToUint8(buffer[offset]) * 0x100_0000;
      result := result + ToUint8(buffer[offset + 1]) * 0x1_0000;
      result := result + ToUint8(buffer[offset + 2]) * 0x100;
      result := result + ToUint8(buffer[offset + 3]);
    } else {
      result := result + ToUint8(buffer[offset]);
      result := result + ToUint8(buffer[offset + 1]) * 0x100;
      result := result + ToUint8(buffer[offset + 2]) * 0x1_0000;
      result := result + ToUint8(buffer[offset + 3]) * 0x100_0000;
    }
  }

  method WriteUint32(value: uint32, buffer: array<Char>, e: Endianness, offset: nat)
    requires offset + 4 <= buffer.Length
    modifies buffer
    ensures buffer[..] == old(buffer[..offset]) + Encode(value, e) + old(buffer[offset + 4..])
  {
    if e == Big {
      buffer[offset] := ToChar(value / 0x100_0000);
      buffer[offset + 1] := ToChar(value / 0x1_0000 % 256);
      buffer[offset + 2] := ToChar(value / 0x100 % 256);
      buffer[offset + 3] := ToChar(value % 256);
    } else {
      buffer[offset] := ToChar(value % 256);
      buffer[offset + 1] := ToChar(value / 0x100 % 256);
      buffer[offset + 2] := ToChar(value / 0x1_0000 % 256);
      buffer[offset + 3] := ToChar(value / 0x100_0000);
    }
  }
}
