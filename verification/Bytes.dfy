/** Little-endian fields of packed structures. */
module Bytes {
  newtype byte = x: int | 0 <= x < 256

  function Byte(n: nat): byte {
    (n % 256) as byte
  }

  // The n lowest bytes of a value, lowest first.
  function Encode(value: nat, n: nat): (s: seq<byte>)
    ensures |s| == n
  {
    if n == 0 then [] else [Byte(value)] + Encode(value / 256, n - 1)
  }

  function Decode(s: seq<byte>): nat {
    if s == [] then 0 else s[0] as nat + 256 * Decode(s[1..])
  }

  function Power256(n: nat): nat {
    if n == 0 then 1 else 256 * Power256(n - 1)
  }

  lemma {:induction false} DecodeEncode(value: nat, n: nat)
    requires value < Power256(n)
    ensures Decode(Encode(value, n)) == value
  {
    if n > 0 {
      DecodeEncode(value / 256, n - 1);
      assert Encode(value, n)[1..] == Encode(value / 256, n - 1);
    }
  }

  lemma {:induction false} EncodeDecode(s: seq<byte>)
    ensures Decode(s) < Power256(|s|) && Encode(Decode(s), |s|) == s
  {
    if s != [] {
      EncodeDecode(s[1..]);
    }
  }

  // The n-byte field at an offset.
  function Field(s: seq<byte>, at: nat, n: nat): nat
    requires at + n <= |s|
  {
    Decode(s[at..at + n])
  }

  lemma FieldIn(s: seq<byte>, x: seq<byte>, at: nat, n: nat)
    requires at + n <= |s|
    ensures Field(s + x, at, n) == Field(s, at, n)
  {
    assert (s + x)[at..at + n] == s[at..at + n];
  }

  lemma SmallPowers()
    ensures Power256(2) == 0x1_0000 && Power256(4) == 0x1_0000_0000 && Power256(8) == 0x1_0000_0000_0000_0000
  {
    assert Power256(1) == 256 && Power256(2) == 0x1_0000 && Power256(3) == 0x100_0000;
    assert Power256(4) == 0x1_0000_0000 && Power256(5) == 0x100_0000_0000 && Power256(6) == 0x1_0000_0000_0000;
    assert Power256(7) == 0x100_0000_0000_0000;
  }

  // A 16-bit field is read as such.
  lemma Field16(s: seq<byte>, at: nat)
    requires at + 2 <= |s|
    ensures Field(s, at, 2) < 0x1_0000
  {
    EncodeDecode(s[at..at + 2]);
    SmallPowers();
  }
}
