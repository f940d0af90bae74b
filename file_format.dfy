/**
 * The `.pencode` project container (src/lib/file-format.ts): the magic
 * `PENCODE1`, then three segments, each a little-endian 32-bit length
 * followed by its bytes: the project's metadata as JSON and its code, both
 * XOR'd with the key "pencode", and the canvas image, not XOR'd.  Files
 * that do not start with `PENCODE` are read as legacy plain JSON.
 *
 * JSON, UTF-8 and base64 conversions belong to the host and are given as
 * functions in `Host`.  A decoder's test of the first bytes against an
 * ASCII magic is stated on the bytes: a UTF-8 decoder yields an ASCII
 * character only from that same ASCII byte.
 */
module FileFormat {
  import opened Wrappers
  import opened Chars
  import opened Bytes
  import opened ProjectTypes

  const MagicText := "PENCODE1"
  const CurrentVersion: nat := 1
  const KeyText := "pencode"

  /** The bytes of `MagicText`. */
  function Magic(): (r: seq<byte>)
    ensures |r| == 8
  {
    [0x50, 0x45, 0x4E, 0x43, 0x4F, 0x44, 0x45, 0x31]
  }

  /** The bytes of `KeyText`. */
  function Key(): (r: seq<byte>)
    ensures |r| == 7
  {
    [0x70, 0x65, 0x6E, 0x63, 0x6F, 0x64, 0x65]
  }

  /** The magic is the UTF-8 encoding of its text. */
  lemma MagicIsAscii()
    ensures Magic() == Ascii(MagicText)
  {
  }

  /** The key is the UTF-8 encoding of its text. */
  lemma KeyIsAscii()
    ensures Key() == Ascii(KeyText)
  {
  }

  /** The part of a project written as JSON (src/lib/file-format.ts:64-71). */
  datatype Metadata = Metadata(
    id: string,
    title: string,
    canvasSize: CanvasSize,
    createdAt: string,
    lastModified: string,
    status: Status)

  /** The host's conversions. */
  datatype Host = Host(
    text: TextCodec,
    stringify: Metadata -> string,
    parseMetadata: string -> Option<Metadata>,
    parseProject: string -> Option<Project>,
    toBase64: seq<byte> -> string,
    fromBase64: string -> seq<byte>)
  {
    /** Text (but a leading BOM) and metadata survive a write and a read;
     *  `JSON.stringify` of an object starts with `{`. */
    ghost predicate Faithful()
    {
      && text.Lossless()
      && (forall m :: |stringify(m)| > 0 && stringify(m)[0] == '{')
      && forall m :: parseMetadata(stringify(m)) == Some(m)
    }
  }

  function MetadataOf(p: Project): Metadata
  {
    Metadata(p.id, p.title, p.canvasSize, p.createdAt, p.lastModified, p.status)
  }

  function MetadataBytes(host: Host, p: Project): seq<byte>
  {
    Xored(host.text.encode(host.stringify(MetadataOf(p))), Key())
  }

  /** Absent or empty code has no bytes; other code is XOR'd. */
  function CodeBytes(host: Host, p: Project): seq<byte>
  {
    var raw := if Truthy(p.code) then host.text.encode(p.code.value) else [];
    if |raw| > 0 then Xored(raw, Key()) else raw
  }

  function ImageBytes(host: Host, p: Project): seq<byte>
  {
    if Truthy(p.canvasImage) then host.fromBase64(p.canvasImage.value) else []
  }

  /** The layout written by `encodeProject`. */
  function Encoded(host: Host, p: Project): seq<byte>
  {
    var m := MetadataBytes(host, p);
    var c := CodeBytes(host, p);
    var i := ImageBytes(host, p);
    Magic() + U32LE(|m| % TwoTo32) + m + U32LE(|c| % TwoTo32) + c + U32LE(|i| % TwoTo32) + i
  }

  /** `encodeProject` (src/lib/file-format.ts:60-113). */
  method EncodeProject(host: Host, project: Project) returns (out: array<byte>)
    ensures fresh(out)
    ensures out[..] == Encoded(host, project)
  {
    var metadataBytes := host.text.encode(host.stringify(MetadataOf(project)));
    metadataBytes := Xor(metadataBytes, Key());
    var codeBytes := if Truthy(project.code) then host.text.encode(project.code.value) else [];
    if |codeBytes| > 0 {
      codeBytes := Xor(codeBytes, Key());
    }
    var imageBytes := if Truthy(project.canvasImage) then host.fromBase64(project.canvasImage.value) else [];
    var totalSize := 8 + 4 + |metadataBytes| + 4 + |codeBytes| + 4 + |imageBytes|;
    var buffer := new byte[totalSize](_ => 0);
    var offset := 0;
    ghost var written := [];
    offset := Append(buffer, offset, Magic(), written);
    assert [] + Magic() == Magic();
    written := Magic();
    offset := AppendU32(buffer, offset, |metadataBytes|, written);
    written := written + U32LE(|metadataBytes| % TwoTo32);
    offset := Append(buffer, offset, metadataBytes, written);
    written := written + metadataBytes;
    offset := AppendU32(buffer, offset, |codeBytes|, written);
    written := written + U32LE(|codeBytes| % TwoTo32);
    offset := Append(buffer, offset, codeBytes, written);
    written := written + codeBytes;
    offset := AppendU32(buffer, offset, |imageBytes|, written);
    written := written + U32LE(|imageBytes| % TwoTo32);
    offset := Append(buffer, offset, imageBytes, written);
    written := written + imageBytes;
    assert offset == buffer.Length;
    assert metadataBytes == MetadataBytes(host, project);
    assert codeBytes == CodeBytes(host, project);
    assert imageBytes == ImageBytes(host, project);
    assert buffer[..] == written == Encoded(host, project);
    out := buffer;
  }

  /** The encoded size is the magic, three lengths and three segments. */
  lemma EncodedSize(host: Host, p: Project)
    ensures |Encoded(host, p)|
         == 8 + 4 + |MetadataBytes(host, p)| + 4 + |CodeBytes(host, p)| + 4 + |ImageBytes(host, p)|
  {
  }

  /** Metadata and code are stored XOR'd with the key; the image is not. */
  lemma EncodedSegments(host: Host, p: Project)
    ensures MetadataBytes(host, p) == Xored(host.text.encode(host.stringify(MetadataOf(p))), Key())
    ensures Truthy(p.code) ==> CodeBytes(host, p) == Xored(host.text.encode(p.code.value), Key())
    ensures !Truthy(p.code) ==> CodeBytes(host, p) == []
    ensures ImageBytes(host, p) == if Truthy(p.canvasImage) then host.fromBase64(p.canvasImage.value) else []
  {
  }

  /** Nothing but the six metadata fields, the code and the image is
   *  written: the unsaved-changes flag, the file path and the brushes never
   *  reach the file. */
  lemma EncodingIgnoresLocalState(host: Host, p: Project, h: Option<bool>, f: Option<string>, b: Option<seq<Brush>>)
    ensures Encoded(host, p.(hasUnsavedChanges := h, filePath := f, brushes := b)) == Encoded(host, p)
  {
    assert MetadataOf(p.(hasUnsavedChanges := h, filePath := f, brushes := b)) == MetadataOf(p);
  }

  /** The first eight bytes start with `PENCODE`. */
  predicate HasPencodePrefix(data: seq<byte>)
  {
    |data| >= 7 && data[..7] == Magic()[..7]
  }

  /** `parseInt(magic.substring(7), 10)`: the digit at byte 7, or NaN
   *  (`None`), which no comparison accepts. */
  function Version(data: seq<byte>): Option<nat>
  {
    if |data| < 8 then None
    else
      var b := Value(data[7]);
      if 0x30 <= b <= 0x39 then Some(b - 0x30) else None
  }

  const NewerTail := " is newer than the application's supported version 1. Please update the application."

  function VersionMessage(version: nat): string
  {
    "File version " + NatToString(version) + NewerTail
  }

  const NotPencodeMessage := "Invalid file format. File is not a Pencode project."

  /** The project read back: the metadata, the code, the image if any, and
   *  no unsaved changes (src/lib/file-format.ts:154-159). */
  function Loaded(m: Metadata, code: string, canvasImage: Option<string>): Project
  {
    Project(m.id, m.title, Some(code), canvasImage, m.canvasSize, m.createdAt, m.lastModified,
            m.status, Some(false), None, None)
  }

  /** Reading a length-prefixed segment at `at`: `None` when the length
   *  field runs past the end (`getUint32` throws a `RangeError`), otherwise
   *  the bytes that are there (`subarray` clamps) and the offset just past
   *  the declared length. */
  function SegmentAt(data: seq<byte>, at: nat): Option<(seq<byte>, nat)>
  {
    if |data| < at + 4 then None
    else
      var next := at + 4 + ReadU32(data, at);
      Some((Subarray(data, at + 4, next), next))
  }

  /** A written segment reads back as itself, and the next offset is just
   *  past it. */
  lemma SegmentOfWritten(prefix: seq<byte>, bytes: seq<byte>, rest: seq<byte>)
    requires |bytes| < TwoTo32
    ensures SegmentAt(prefix + U32LE(|bytes|) + bytes + rest, |prefix|)
         == Some((bytes, |prefix| + 4 + |bytes|))
  {
    var data := prefix + U32LE(|bytes|) + bytes + rest;
    assert data == prefix + U32LE(|bytes|) + (bytes + rest);
    ReadWrittenU32(prefix, |bytes|, bytes + rest);
    assert data[|prefix| + 4..|prefix| + 4 + |bytes|] == bytes;
  }

  /** The last segment of a container reads back as itself. */
  lemma LastSegment(prefix: seq<byte>, bytes: seq<byte>)
    requires |bytes| < TwoTo32
    ensures SegmentAt(prefix + U32LE(|bytes|) + bytes, |prefix|) == Some((bytes, |prefix| + 4 + |bytes|))
  {
    SegmentOfWritten(prefix, bytes, []);
    assert prefix + U32LE(|bytes|) + bytes + [] == prefix + U32LE(|bytes|) + bytes;
  }

  /** The code segment's text: XOR'd only when it is not empty. */
  function CodeText(host: Host, codeBytes: seq<byte>): string
  {
    host.text.decode(if |codeBytes| > 0 then Xored(codeBytes, Key()) else codeBytes)
  }

  /** The image segment as base64, or absent when it is empty. */
  function ImageText(host: Host, imageBytes: seq<byte>): Option<string>
  {
    if |imageBytes| > 0 then Some(host.toBase64(imageBytes)) else None
  }

  /** What `decodeBinaryV1` returns or throws. */
  function DecodedV1(host: Host, data: seq<byte>): Result<Project, Failure>
  {
    var version := Version(data);
    if version.Some? && version.value > CurrentVersion then Err(Thrown(VersionMessage(version.value)))
    else if SegmentAt(data, 8).None? then Err(RangeError)
    else
      var (metadataBytes, codeAt) := SegmentAt(data, 8).value;
      var metadata := host.parseMetadata(host.text.decode(Xored(metadataBytes, Key())));
      if metadata.None? then Err(SyntaxError)
      else if SegmentAt(data, codeAt).None? then Err(RangeError)
      else
        var (codeBytes, imageAt) := SegmentAt(data, codeAt).value;
        if SegmentAt(data, imageAt).None? then Err(RangeError)
        else
          var imageBytes := SegmentAt(data, imageAt).value.0;
          Ok(Loaded(metadata.value, CodeText(host, codeBytes), ImageText(host, imageBytes)))
  }

  /** `decodeBinaryV1` (src/lib/file-format.ts:120-160), reading with a
   *  running offset. */
  method DecodeBinaryV1(host: Host, data: seq<byte>) returns (r: Result<Project, Failure>)
    requires HasPencodePrefix(data)
    ensures r == DecodedV1(host, data)
  {
    var offset := 0;
    var version := Version(data);
    offset := offset + 8;
    if version.Some? && version.value > CurrentVersion {
      return Err(Thrown(VersionMessage(version.value)));
    }
    var metadataSegment := SegmentAt(data, offset);
    if metadataSegment.None? {
      return Err(RangeError);
    }
    var metadataBytes;
    metadataBytes, offset := metadataSegment.value.0, metadataSegment.value.1;
    metadataBytes := Xor(metadataBytes, Key());
    var metadata := host.parseMetadata(host.text.decode(metadataBytes));
    if metadata.None? {
      return Err(SyntaxError);
    }
    var codeSegment := SegmentAt(data, offset);
    if codeSegment.None? {
      return Err(RangeError);
    }
    var codeBytes;
    codeBytes, offset := codeSegment.value.0, codeSegment.value.1;
    if |codeBytes| > 0 {
      codeBytes := Xor(codeBytes, Key());
    }
    var code := host.text.decode(codeBytes);
    var imageSegment := SegmentAt(data, offset);
    if imageSegment.None? {
      return Err(RangeError);
    }
    var imageBytes := imageSegment.value.0;
    var canvasImage := if |imageBytes| > 0 then Some(host.toBase64(imageBytes)) else None;
    r := Ok(Loaded(metadata.value, code, canvasImage));
  }

  /** What `decodePencodeFile` returns or throws. */
  function Decoded(host: Host, data: seq<byte>): Result<Project, Failure>
  {
    if HasPencodePrefix(data) then DecodedV1(host, data)
    else
      match host.parseProject(host.text.decode(data))
      case Some(p) => Ok(p)
      case None => Err(Thrown(NotPencodeMessage))
  }

  /** `decodePencodeFile` (src/lib/file-format.ts:167-184). */
  method DecodePencodeFile(host: Host, data: seq<byte>) returns (r: Result<Project, Failure>)
    ensures r == Decoded(host, data)
  {
    if HasPencodePrefix(data) {
      r := DecodeBinaryV1(host, data);
    } else {
      var legacy := host.parseProject(host.text.decode(data));
      if legacy.None? {
        return Err(Thrown(NotPencodeMessage));
      }
      r := Ok(legacy.value);
    }
  }

  /** The project that decoding an encoded project gives back: the written
   *  fields, the code (empty when there was none), the image when there
   *  was one, no unsaved changes, no file path and no brushes. */
  function Restored(p: Project): Project
  {
    Loaded(MetadataOf(p), if Truthy(p.code) then StripBom(p.code.value) else "",
           if Truthy(p.canvasImage) then p.canvasImage else None)
  }

  /** A canvas image that is absent, or that decodes to some bytes which
   *  re-encode to the same text. */
  predicate CanonicalImage(host: Host, p: Project)
  {
    Truthy(p.canvasImage) ==>
      && host.fromBase64(p.canvasImage.value) != []
      && host.toBase64(host.fromBase64(p.canvasImage.value)) == p.canvasImage.value
  }

  /** Each segment's length fits the 32-bit length field. */
  predicate Fits(host: Host, p: Project)
  {
    && |MetadataBytes(host, p)| < TwoTo32
    && |CodeBytes(host, p)| < TwoTo32
    && |ImageBytes(host, p)| < TwoTo32
  }

  /** The prefix tested by `HasPencodePrefix` is the encoding of `PENCODE`. */
  lemma PencodePrefixIsAscii()
    ensures Magic()[..7] == Ascii("PENCODE")
  {
  }

  /** Removing the XOR from a stored code segment gives the code's text
   *  back, without a leading BOM, and an absent code reads as "". */
  lemma CodeRestored(host: Host, p: Project)
    requires host.Faithful()
    ensures CodeText(host, CodeBytes(host, p)) == if Truthy(p.code) then StripBom(p.code.value) else ""
  {
    var raw := if Truthy(p.code) then host.text.encode(p.code.value) else [];
    if |raw| > 0 {
      XorInvolution(raw, Key());
    } else {
      assert host.text.decode(host.text.encode("")) == "";
    }
  }

  /** Code that starts with a BOM loses it: `"\uFEFFx"` is read back as `"x"`. */
  lemma LeadingBomDropped(host: Host, p: Project)
    requires host.Faithful()
    requires p.code == Some([Bom, 'x'])
    ensures CodeText(host, CodeBytes(host, p)) == "x"
    ensures Restored(p).code != p.code
  {
    CodeRestored(host, p);
    assert [Bom, 'x'][1..] == "x";
  }

  /** An image segment read back gives the image, or nothing when it was
   *  absent or empty. */
  lemma ImageRestored(host: Host, p: Project)
    requires CanonicalImage(host, p)
    ensures ImageText(host, ImageBytes(host, p)) == if Truthy(p.canvasImage) then p.canvasImage else None
  {
  }

  /** The bytes of a container with segments `m`, `c` and `i`. */
  function Container(m: seq<byte>, c: seq<byte>, i: seq<byte>): seq<byte>
    requires |m| < TwoTo32 && |c| < TwoTo32 && |i| < TwoTo32
  {
    Magic() + U32LE(|m|) + m + U32LE(|c|) + c + U32LE(|i|) + i
  }

  lemma ContainerHeader(m: seq<byte>, c: seq<byte>, i: seq<byte>)
    requires |m| < TwoTo32 && |c| < TwoTo32 && |i| < TwoTo32
    ensures HasPencodePrefix(Container(m, c, i)) && Version(Container(m, c, i)) == Some(1)
  {
    var e := Container(m, c, i);
    assert e == Magic() + (U32LE(|m|) + m + U32LE(|c|) + c + U32LE(|i|) + i);
    assert e[..8] == Magic();
  }

  lemma ContainerMetadata(m: seq<byte>, c: seq<byte>, i: seq<byte>)
    requires |m| < TwoTo32 && |c| < TwoTo32 && |i| < TwoTo32
    ensures SegmentAt(Container(m, c, i), 8) == Some((m, 12 + |m|))
  {
    var prefix := Magic() + U32LE(|m|) + m;
    Assoc(prefix, U32LE(|c|), c);
    Assoc(prefix, U32LE(|c|) + c, U32LE(|i|));
    Assoc(prefix, U32LE(|c|) + c + U32LE(|i|), i);
    SegmentOfWritten(Magic(), m, U32LE(|c|) + c + U32LE(|i|) + i);
  }

  lemma ContainerCode(m: seq<byte>, c: seq<byte>, i: seq<byte>)
    requires |m| < TwoTo32 && |c| < TwoTo32 && |i| < TwoTo32
    ensures SegmentAt(Container(m, c, i), 12 + |m|) == Some((c, 16 + |m| + |c|))
  {
    var prefix := Magic() + U32LE(|m|) + m;
    Assoc(prefix + U32LE(|c|) + c, U32LE(|i|), i);
    SegmentOfWritten(prefix, c, U32LE(|i|) + i);
  }

  lemma ContainerImage(m: seq<byte>, c: seq<byte>, i: seq<byte>)
    requires |m| < TwoTo32 && |c| < TwoTo32 && |i| < TwoTo32
    ensures SegmentAt(Container(m, c, i), 16 + |m| + |c|) == Some((i, 20 + |m| + |c| + |i|))
  {
    LastSegment(Magic() + U32LE(|m|) + m + U32LE(|c|) + c, i);
  }

  /** A well-formed container is read segment by segment: the metadata,
   *  the code's text and the image. */
  lemma DecodeContainer(host: Host, m: seq<byte>, c: seq<byte>, i: seq<byte>, metadata: Metadata)
    requires |m| < TwoTo32 && |c| < TwoTo32 && |i| < TwoTo32
    requires host.parseMetadata(host.text.decode(Xored(m, Key()))) == Some(metadata)
    ensures Decoded(host, Container(m, c, i)) == Ok(Loaded(metadata, CodeText(host, c), ImageText(host, i)))
  {
    ContainerHeader(m, c, i);
    ContainerMetadata(m, c, i);
    ContainerCode(m, c, i);
    ContainerImage(m, c, i);
    ReadSegments(host, Container(m, c, i), m, c, i, 12 + |m|, 16 + |m| + |c|, metadata);
  }

  /** Decoding a container whose three segments read as `m`, `c` and `i`. */
  lemma ReadSegments(host: Host, data: seq<byte>, m: seq<byte>, c: seq<byte>, i: seq<byte>,
                     codeAt: nat, imageAt: nat, metadata: Metadata)
    requires HasPencodePrefix(data) && Version(data) == Some(1)
    requires SegmentAt(data, 8) == Some((m, codeAt))
    requires SegmentAt(data, codeAt) == Some((c, imageAt))
    requires SegmentAt(data, imageAt).Some? && SegmentAt(data, imageAt).value.0 == i
    requires host.parseMetadata(host.text.decode(Xored(m, Key()))) == Some(metadata)
    ensures Decoded(host, data) == Ok(Loaded(metadata, CodeText(host, c), ImageText(host, i)))
  {
  }

  /** Decoding an encoded project gives back the restored project. */
  lemma {:induction false} DecodeEncoded(host: Host, p: Project)
    requires host.Faithful()
    requires Fits(host, p)
    requires CanonicalImage(host, p)
    ensures Decoded(host, Encoded(host, p)) == Ok(Restored(p))
  {
    var m := MetadataBytes(host, p);
    var c := CodeBytes(host, p);
    var i := ImageBytes(host, p);
    assert |m| % TwoTo32 == |m| && |c| % TwoTo32 == |c| && |i| % TwoTo32 == |i|;
    assert Encoded(host, p) == Container(m, c, i);
    XorInvolution(host.text.encode(host.stringify(MetadataOf(p))), Key());
    DecodeEncodedText(host.text, host.stringify(MetadataOf(p)));
    assert host.parseMetadata(host.text.decode(Xored(m, Key()))) == Some(MetadataOf(p));
    DecodeContainer(host, m, c, i, MetadataOf(p));
    CodeRestored(host, p);
    ImageRestored(host, p);
  }

  /** A version digit above 1 at byte 7 is refused with the version in the
   *  message, for instance an encoded project whose byte 7 is set to '2'. */
  lemma NewerVersionRejected(host: Host, p: Project)
    ensures Decoded(host, Encoded(host, p)[7 := 0x32]) == Err(Thrown(VersionMessage(2)))
  {
    var e := Encoded(host, p)[7 := 0x32];
    assert e[..7] == Encoded(host, p)[..7] == Magic()[..7];
    assert Version(e) == Some(2);
  }

  /** Input that does not start with `PENCODE` is legacy JSON: it is
   *  accepted exactly when it parses as a project, and otherwise refused
   *  with the invalid-format message. */
  lemma LegacyJson(host: Host, data: seq<byte>)
    requires !HasPencodePrefix(data)
    ensures Decoded(host, data).Ok? <==> host.parseProject(host.text.decode(data)).Some?
    ensures Decoded(host, data).Ok? ==> Decoded(host, data).value == host.parseProject(host.text.decode(data)).value
    ensures Decoded(host, data).Err? ==> Decoded(host, data).error == Thrown(NotPencodeMessage)
  {
  }

  /** A binary file with a newer version digit is refused before anything
   *  else is read. */
  lemma NewerVersionFirst(host: Host, data: seq<byte>)
    requires HasPencodePrefix(data)
    requires |data| >= 8 && 0x32 <= Value(data[7]) <= 0x39
    ensures Decoded(host, data) == Err(Thrown(VersionMessage(Value(data[7]) - 0x30)))
  {
  }
}
