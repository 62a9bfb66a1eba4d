/** Bytes, 32-bit unsigned integers and the little-endian encoding the sync protocol and AXML use. */
module Bytes {

  type byte = b: int | 0 <= b < 256

  const TWO_32: int := 0x1_0000_0000

  type uint32 = n: int | 0 <= n < 0x1_0000_0000

  /** Go's `uint32(x)` conversion of a wider integer: keep the low 32 bits (two's complement for negatives). */
  function ToUint32(x: int): (r: uint32)
    ensures 0 <= x < TWO_32 ==> r == x
  {
    x % TWO_32
  }

  /** The conversion changes its argument by a multiple of 2^32. */
  lemma ToUint32Wraps(x: int)
    ensures (ToUint32(x) - x) % TWO_32 == 0
  {
    assert x == (x / TWO_32) * TWO_32 + ToUint32(x);
  }

  /** `binary.LittleEndian.PutUint32` / `binary.Write(w, binary.LittleEndian, uint32(n))`. */
  function LE32(n: uint32): (r: seq<byte>)
    ensures |r| == 4
  {
    [n % 256, (n / 256) % 256, (n / 65536) % 256, n / 16777216]
  }

  /** `binary.LittleEndian.Uint32(b)`: the first four bytes, least significant first. */
  function DecodeLE32(b: seq<byte>): (r: uint32)
    requires |b| >= 4
  {
    b[0] as int + 256 * (b[1] as int) + 65536 * (b[2] as int) + 16777216 * (b[3] as int)
  }

  /** The first byte is the lowest, the fourth the highest. */
  lemma DecodeLE32Ends(b: seq<byte>)
    requires |b| >= 4
    ensures DecodeLE32(b) % 256 == b[0] && DecodeLE32(b) / 16777216 == b[3]
  {
  }

  lemma DecodeEncode(n: uint32)
    ensures DecodeLE32(LE32(n)) == n
  {
    assert n == n % 256 + 256 * (n / 256);
    assert n / 256 == (n / 256) % 256 + 256 * (n / 65536);
    assert n / 65536 == (n / 65536) % 256 + 256 * (n / 16777216);
  }

  lemma EncodeDecode(b: seq<byte>)
    requires |b| == 4
    ensures LE32(DecodeLE32(b)) == b
  {
    var n := DecodeLE32(b);
    assert n / 256 == b[1] as int + 256 * (b[2] as int) + 65536 * (b[3] as int);
    assert n / 65536 == b[2] as int + 256 * (b[3] as int);
  }

  /** The bytes of a Go string; the model writes a Go string as a Dafny string with one char per byte. */
  function Ascii(s: string): (r: seq<byte>)
    ensures |r| == |s|
    ensures forall i :: 0 <= i < |s| && (s[i] as int) < 256 ==> r[i] == s[i] as int
  {
    seq(|s|, i requires 0 <= i < |s| => (s[i] as int) % 256)
  }

  /** Go's `string(b)` for a byte slice: one char per byte. */
  function Text(b: seq<byte>): (r: string)
    ensures |r| == |b|
    ensures forall i :: 0 <= i < |b| ==> r[i] as int == b[i]
  {
    seq(|b|, i requires 0 <= i < |b| => b[i] as char)
  }

  /** A string every char of which is a byte value, the shape of every Go string in this model. */
  predicate IsByteString(s: string) {
    forall i :: 0 <= i < |s| ==> (s[i] as int) < 256
  }

  lemma TextAscii(s: string)
    requires IsByteString(s)
    ensures Text(Ascii(s)) == s
  {
    var t := Text(Ascii(s));
    assert forall i :: 0 <= i < |s| ==> t[i] as int == s[i] as int;
  }

  lemma AsciiText(b: seq<byte>)
    ensures Ascii(Text(b)) == b
  {
  }

  lemma AsciiConcat(s: string, t: string)
    ensures Ascii(s + t) == Ascii(s) + Ascii(t)
  {
    var l, r := Ascii(s + t), Ascii(s) + Ascii(t);
    assert forall i :: 0 <= i < |l| ==> l[i] == r[i] by {
      forall i | 0 <= i < |l| ensures l[i] == r[i] {
        if i < |s| { assert (s + t)[i] == s[i]; } else { assert (s + t)[i] == t[i - |s|]; }
      }
    }
  }
}
