/**
 * The `.penbrush` brush container (src/lib/brush-format.ts): the magic
 * `PENBRSH1`, a little-endian 32-bit length, then the brush as JSON,
 * XOR'd with the key "pencode-brush".
 *
 * JSON and UTF-8 conversions belong to the host and are given as functions
 * in `Host`.  The decoder's comparison of the first eight bytes, decoded as
 * UTF-8, with `PENBRSH1` is stated on the bytes: eight bytes decode to
 * those eight ASCII characters exactly when they are those bytes.
 */
module BrushFormat {
  import opened Wrappers
  import opened Bytes
  import opened ProjectTypes

  const MagicText := "PENBRSH1"
  const KeyText := "pencode-brush"

  /** The bytes of `MagicText`. */
  function Magic(): (r: seq<byte>)
    ensures |r| == 8
  {
    [0x50, 0x45, 0x4E, 0x42, 0x52, 0x53, 0x48, 0x31]
  }

  /** The bytes of `KeyText`. */
  function Key(): (r: seq<byte>)
    ensures |r| == 13
  {
    [0x70, 0x65, 0x6E, 0x63, 0x6F, 0x64, 0x65, 0x2D, 0x62, 0x72, 0x75, 0x73, 0x68]
  }

  /** The magic is the UTF-8 encoding of its text. */
  lemma MagicIsAscii()
    ensures Magic() == Ascii(MagicText)
  {
  }

  /** The key is the UTF-8 encoding of its text. */
  lemma KeyIsAscii()
    ensures Key() == Ascii(KeyText)
  {
  }

  /** The host's conversions. */
  datatype Host = Host(
    text: TextCodec,
    stringify: Brush -> string,
    parse: string -> Option<Brush>)
  {
    /** A brush survives JSON and UTF-8 conversion; `JSON.stringify` of an
     *  object starts with `{`, so no BOM is lost. */
    ghost predicate Faithful()
    {
      && text.Lossless()
      && (forall b :: |stringify(b)| > 0 && stringify(b)[0] == '{')
      && forall b :: parse(stringify(b)) == Some(b)
    }
  }

  const InvalidMessage := "Invalid file format. Not a valid .penbrush file."

  function DataBytes(host: Host, brush: Brush): seq<byte>
  {
    Xored(host.text.encode(host.stringify(brush)), Key())
  }

  /** The layout written by `encodePenbrush`. */
  function Encoded(host: Host, brush: Brush): seq<byte>
  {
    var d := DataBytes(host, brush);
    Magic() + U32LE(|d| % TwoTo32) + d
  }

  /** `encodePenbrush` (src/lib/brush-format.ts:23-50). */
  method EncodePenbrush(host: Host, brush: Brush) returns (out: array<byte>)
    ensures fresh(out)
    ensures out[..] == Encoded(host, brush)
  {
    var dataBytes := host.text.encode(host.stringify(brush));
    dataBytes := Xor(dataBytes, Key());
    var totalSize := 8 + 4 + |dataBytes|;
    var buffer := new byte[totalSize](_ => 0);
    var offset := 0;
    ghost var written := [];
    offset := Append(buffer, offset, Magic(), written);
    assert [] + Magic() == Magic();
    written := Magic();
    offset := AppendU32(buffer, offset, |dataBytes|, written);
    written := written + U32LE(|dataBytes| % TwoTo32);
    offset := Append(buffer, offset, dataBytes, written);
    written := written + dataBytes;
    assert offset == buffer.Length;
    assert buffer[..] == written == Encoded(host, brush);
    out := buffer;
  }

  /** The encoded size is the magic, the length and the data. */
  lemma EncodedSize(host: Host, brush: Brush)
    ensures |Encoded(host, brush)| == 8 + 4 + |DataBytes(host, brush)|
  {
  }

  /** What `decodePenbrush` returns or throws. */
  function Decoded(host: Host, data: seq<byte>): Result<Brush, Failure>
  {
    if |data| < 8 || data[..8] != Magic() then Err(Thrown(InvalidMessage))
    else if |data| < 12 then Err(RangeError)
    else
      var dataBytes := Subarray(data, 12, 12 + ReadU32(data, 8));
      match host.parse(host.text.decode(Xored(dataBytes, Key())))
      case Some(brush) => Ok(brush)
      case None => Err(SyntaxError)
  }

  /** `decodePenbrush` (src/lib/brush-format.ts:57-77), reading with a
   *  running offset. */
  method DecodePenbrush(host: Host, data: seq<byte>) returns (r: Result<Brush, Failure>)
    ensures r == Decoded(host, data)
  {
    var offset := 0;
    var magic := Subarray(data, offset, 8);
    offset := offset + 8;
    if magic != Magic() {
      assert |data| >= 8 ==> magic == data[..8];
      return Err(Thrown(InvalidMessage));
    }
    if offset + 4 > |data| {
      return Err(RangeError);
    }
    var dataLength := ReadU32(data, offset);
    offset := offset + 4;
    var dataBytes := Subarray(data, offset, offset + dataLength);
    dataBytes := Xor(dataBytes, Key());
    var brush := host.parse(host.text.decode(dataBytes));
    if brush.None? {
      return Err(SyntaxError);
    }
    r := Ok(brush.value);
  }

  /** Input whose first eight bytes are not `PENBRSH1` is refused with the
   *  invalid-format message, and only such input is. */
  lemma RejectsForeignMagic(host: Host, data: seq<byte>)
    ensures Decoded(host, data) == Err(Thrown(InvalidMessage)) <==> |data| < 8 || data[..8] != Magic()
  {
  }

  /** Decoding an encoded brush gives the same brush. */
  lemma {:induction false} DecodeEncoded(host: Host, brush: Brush)
    requires host.Faithful()
    requires |DataBytes(host, brush)| < TwoTo32
    ensures Decoded(host, Encoded(host, brush)) == Ok(brush)
  {
    var d := DataBytes(host, brush);
    var e := Encoded(host, brush);
    assert |d| % TwoTo32 == |d|;
    ReadWrittenU32(Magic(), |d|, d);
    Assoc(Magic(), U32LE(|d|), d);
    assert e[..8] == Magic();
    assert Subarray(e, 12, 12 + |d|) == d;
    XorInvolution(host.text.encode(host.stringify(brush)), Key());
    DecodeEncodedText(host.text, host.stringify(brush));
  }
}
