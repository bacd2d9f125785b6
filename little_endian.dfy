// Little-endian unsigned integers of a fixed number of bytes, the encoding
// every multi-byte field of a bitmap header uses.
module LittleEndian {

  /** An unsigned 8-bit value: one byte of the output file. */
  newtype byte = b: int | 0 <= b < 256

  /** 256 to the power n: the number of values an n-byte field can hold. */
  function Pow256(n: nat): (p: nat)
    ensures p >= 1
  {
    if n == 0 then 1 else 256 * Pow256(n - 1)
  }

  /** The n bytes of v, least significant first. */
  function Encode(v: nat, n: nat): (s: seq<byte>)
    requires v < Pow256(n)
    ensures |s| == n
  {
    if n == 0 then [] else [(v % 256) as byte] + Encode(v / 256, n - 1)
  }

  /** The value of the bytes s, read least significant first. */
  function Decode(s: seq<byte>): (v: nat)
    ensures v < Pow256(|s|)
  {
    if s == [] then 0 else s[0] as nat + 256 * Decode(s[1..])
  }

  /** Reading back an encoded value gives the value. */
  lemma {:induction false} DecodeEncode(v: nat, n: nat)
    requires v < Pow256(n)
    ensures Decode(Encode(v, n)) == v
  {
    if n > 0 {
      var s := Encode(v, n);
      assert s[0] == (v % 256) as byte && s[1..] == Encode(v / 256, n - 1);
      ByteRoundTrip(v % 256);
      DecodeEncode(v / 256, n - 1);
      DivModSplit(v);
    }
  }

  /** Encoding a decoded field at its own width gives back the same bytes. */
  lemma {:induction false} EncodeDecode(s: seq<byte>)
    ensures Encode(Decode(s), |s|) == s
  {
    if s != [] {
      var d := Decode(s[1..]);
      var v := Decode(s);
      DivModJoin(s[0] as nat, d);
      assert (v % 256) as byte == s[0];
      EncodeDecode(s[1..]);
      assert Encode(v, |s|) == [s[0]] + s[1..];
    }
  }

  lemma ByteRoundTrip(x: nat)
    requires x < 256
    ensures (x as byte) as nat == x
  {
  }

  lemma DivModSplit(v: nat)
    ensures v % 256 + 256 * (v / 256) == v
  {
  }

  lemma DivModJoin(a: nat, b: nat)
    requires a < 256
    ensures (a + 256 * b) % 256 == a && (a + 256 * b) / 256 == b
  {
  }
}
