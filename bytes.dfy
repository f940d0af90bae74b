/**
 * Byte-level building blocks shared by the two binary containers
 * (src/lib/file-format.ts and src/lib/brush-format.ts): repeating-key
 * XOR, little-endian 32-bit lengths, clamped sub-arrays, writes into a
 * fixed-size buffer, and the host's text encoder and decoder.
 */
module Bytes {
  type byte = bv8

  const TwoTo32: nat := 0x1_0000_0000

  /** What a decoder throws: an `Error` with a message, a `RangeError`
   *  from reading past the end of a `DataView`, or a `SyntaxError` from
   *  `JSON.parse`. */
  datatype Failure = Thrown(message: string) | RangeError | SyntaxError

  /** U+FEFF, the byte order mark. */
  const Bom: char := '\U{FEFF}'

  /** `s` without one leading byte order mark: a `TextDecoder` created
   *  without options consumes a BOM at the start of its input. */
  function StripBom(s: string): (r: string)
    ensures |s| > 0 && s[0] == Bom ==> r == s[1..]
    ensures (|s| == 0 || s[0] != Bom) ==> r == s
  {
    if |s| > 0 && s[0] == Bom then s[1..] else s
  }

  /** The UTF-8 text encoder and decoder of the host (`TextEncoder`,
   *  `TextDecoder`); their algorithm is not modelled. */
  datatype TextCodec = TextCodec(encode: string -> seq<byte>, decode: seq<byte> -> string)
  {
    /** Decoding undoes encoding except that a leading BOM is dropped, and
     *  the empty string has no bytes. */
    ghost predicate Lossless()
    {
      && encode("") == []
      && forall s :: decode(encode(s)) == StripBom(s)
    }
  }

  /** Text that does not start with a BOM comes back unchanged. */
  lemma DecodeEncodedText(codec: TextCodec, s: string)
    requires codec.Lossless()
    requires |s| == 0 || s[0] != Bom
    ensures codec.decode(codec.encode(s)) == s
  {
  }

  predicate IsAscii(s: string)
  {
    forall i :: 0 <= i < |s| ==> s[i] as int < 128
  }

  /** The UTF-8 encoding of a string of ASCII characters: one byte each. */
  function Ascii(s: string): (r: seq<byte>)
    requires IsAscii(s)
    ensures |r| == |s|
  {
    seq(|s|, i requires 0 <= i < |s| => (s[i] as int) as byte)
  }

  /** The key byte used at position `i`.  With an empty key `i % 0` is NaN
   *  in the source, the key byte is undefined and `x ^ undefined` is `x`. */
  function KeyByte(key: seq<byte>, i: nat): byte
  {
    if |key| == 0 then 0 else key[i % |key|]
  }

  /** Repeating-key XOR of `data` with `key`. */
  function Xored(data: seq<byte>, key: seq<byte>): seq<byte>
  {
    seq(|data|, i requires 0 <= i < |data| => data[i] ^ KeyByte(key, i))
  }

  /** `xor` (src/lib/file-format.ts:13-20, src/lib/brush-format.ts:9-16):
   *  fills a fresh buffer of the same length byte by byte. */
  method Xor(data: seq<byte>, key: seq<byte>) returns (result: seq<byte>)
    ensures |result| == |data|
    ensures forall i :: 0 <= i < |data| ==> result[i] == data[i] ^ KeyByte(key, i)
    ensures result == Xored(data, key)
  {
    var buffer := new byte[|data|];
    for i := 0 to |data|
      invariant forall j :: 0 <= j < i ==> buffer[j] == data[j] ^ KeyByte(key, j)
    {
      buffer[i] := data[i] ^ KeyByte(key, i);
    }
    result := buffer[..];
  }

  /** XOR with the same key twice gives the input back. */
  lemma XorInvolution(data: seq<byte>, key: seq<byte>)
    ensures Xored(Xored(data, key), key) == data
  {
    var once := Xored(data, key);
    forall i | 0 <= i < |data|
      ensures Xored(once, key)[i] == data[i]
    {
      assert once[i] == data[i] ^ KeyByte(key, i);
    }
  }

  /** `DataView.setUint32(_, n, true)`: four bytes, least significant first. */
  function U32LE(n: nat): (r: seq<byte>)
    requires n < TwoTo32
    ensures |r| == 4
  {
    [(n % 256) as byte, (n / 256 % 256) as byte, (n / 65536 % 256) as byte, (n / 16777216) as byte]
  }

  /** `DataView.getUint32(at, true)` on bytes that are there. */
  function ReadU32(s: seq<byte>, at: nat): (n: nat)
    requires at + 4 <= |s|
    ensures n < TwoTo32
  {
    var high := Value(s[at + 2]) + 256 * Value(s[at + 3]);
    assert high < 65536;
    var middle := Value(s[at + 1]) + 256 * high;
    assert middle < 16777216;
    Value(s[at]) + 256 * middle
  }

  /** The unsigned value of a byte. */
  function Value(b: byte): (n: nat)
    ensures n < 256
  {
    b as nat
  }

  lemma ValueOfByte(x: nat)
    requires x < 256
    ensures Value(x as byte) == x
  {
  }

  /** Reading back a written length gives the length. */
  lemma ReadWrittenU32(prefix: seq<byte>, n: nat, rest: seq<byte>)
    requires n < TwoTo32
    ensures ReadU32(prefix + U32LE(n) + rest, |prefix|) == n
  {
    var s := prefix + U32LE(n) + rest;
    var at := |prefix|;
    assert s[at] == U32LE(n)[0] && s[at + 1] == U32LE(n)[1];
    assert s[at + 2] == U32LE(n)[2] && s[at + 3] == U32LE(n)[3];
    var q := n / 256;
    var q2 := q / 256;
    ValueOfByte(n % 256);
    ValueOfByte(q % 256);
    ValueOfByte(q2 % 256);
    ValueOfByte(q2 / 256);
    assert n / 65536 == q2;
    assert n / 16777216 == q2 / 256;
    assert q2 == q2 % 256 + 256 * (q2 / 256);
    assert q == q % 256 + 256 * q2;
    assert n == n % 256 + 256 * q;
  }

  /** `Uint8Array.subarray(begin, end)`: both ends are clamped to the
   *  length, and an end before the beginning gives an empty array. */
  function Subarray(s: seq<byte>, begin: nat, end: nat): (r: seq<byte>)
    ensures begin <= end <= |s| ==> r == s[begin..end]
    ensures |r| <= |s|
  {
    var b := if begin <= |s| then begin else |s|;
    var e := if end <= |s| then end else |s|;
    if b <= e then s[b..e] else []
  }

  /** Copying `bytes` into `buffer` at `at` (`setUint8` in a loop, or
   *  `new Uint8Array(buffer, at).set(bytes)`). */
  method WriteBytes(buffer: array<byte>, at: nat, bytes: seq<byte>)
    requires at + |bytes| <= buffer.Length
    modifies buffer
    ensures buffer[..] == old(buffer[..])[..at] + bytes + old(buffer[..])[at + |bytes|..]
    ensures buffer[..at + |bytes|] == old(buffer[..at]) + bytes
  {
    forall i | 0 <= i < |bytes| {
      buffer[at + i] := bytes[i];
    }
  }

  /** `DataView.setUint32(at, n, true)`: `n` is first reduced modulo 2^32. */
  method WriteU32(buffer: array<byte>, at: nat, n: nat)
    requires at + 4 <= buffer.Length
    modifies buffer
    ensures buffer[..] == old(buffer[..])[..at] + U32LE(n % TwoTo32) + old(buffer[..])[at + 4..]
    ensures buffer[..at + 4] == old(buffer[..at]) + U32LE(n % TwoTo32)
  {
    WriteBytes(buffer, at, U32LE(n % TwoTo32));
  }

  /** A write at the end of what has been written so far, returning the
   *  offset just past it. */
  method Append(buffer: array<byte>, at: nat, bytes: seq<byte>, ghost written: seq<byte>) returns (next: nat)
    requires at + |bytes| <= buffer.Length
    requires buffer[..at] == written
    modifies buffer
    ensures next == at + |bytes|
    ensures buffer[..next] == written + bytes
  {
    WriteBytes(buffer, at, bytes);
    next := at + |bytes|;
  }

  /** A length field written at the end of what has been written so far. */
  method AppendU32(buffer: array<byte>, at: nat, n: nat, ghost written: seq<byte>) returns (next: nat)
    requires at + 4 <= buffer.Length
    requires buffer[..at] == written
    modifies buffer
    ensures next == at + 4
    ensures buffer[..next] == written + U32LE(n % TwoTo32)
  {
    WriteU32(buffer, at, n);
    next := at + 4;
  }

  /** Concatenation regrouped. */
  lemma Assoc(a: seq<byte>, b: seq<byte>, c: seq<byte>)
    ensures a + b + c == a + (b + c)
  {
  }
}
