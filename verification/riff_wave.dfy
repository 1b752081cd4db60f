/**
 * audioLoader_riffWave: the RIFF WAVE header parser, over the bytes of the file. It reads
 * the 12-byte RIFF header, the 24-byte `fmt ` chunk header (skipping any extra format bytes
 * as the chunk size says) and the 8-byte `data` chunk header, then the sample data, as laid
 * out in the Multimedia Programming Interface and Data Specifications 1.0 (IBM/Microsoft).
 * All fields are little-endian.
 */
module RiffWave {
  import opened Wrappers

  newtype byte = x: int | 0 <= x < 256

  /** The loader error codes; the function returns their negation, or 0 on success. */
  const FileNotFound: int := 1
  const InvalidContainer: int := 2
  const InvalidCodec: int := 3
  const InvalidFormat: int := 4

  /** OpenAL sample formats. */
  const AlFormatMono8: int := 0x1100
  const AlFormatMono16: int := 0x1101
  const AlFormatStereo8: int := 0x1102
  const AlFormatStereo16: int := 0x1103

  const TwoTo32: int := 0x1_0000_0000

  /**
   * The function's return value and its out-parameters: `frequency` and `format` are
   * Some when written, `samples` is the data handed to the OpenAL buffer.
   */
  datatype Outcome = Outcome(ret: int, frequency: Option<int>, format: Option<int>, samples: Option<seq<byte>>)

  function Failure(code: int): Outcome {
    Outcome(-code, None, None, None)
  }

  function U16(b: seq<byte>, at: int): (v: int)
    requires 0 <= at && at + 2 <= |b|
    ensures 0 <= v < 0x1_0000
  {
    b[at] as int + 256 * b[at + 1] as int
  }

  function U32(b: seq<byte>, at: int): (v: int)
    requires 0 <= at && at + 4 <= |b|
    ensures 0 <= v < TwoTo32
  {
    U16(b, at) + 0x1_0000 * U16(b, at + 2)
  }

  /** strncmp(field, tag, 4) == 0 for the four bytes at `at`. */
  predicate TagAt(b: seq<byte>, at: int, tag: string)
    requires 0 <= at && at + 4 <= |b| && |tag| == 4
  {
    forall k :: 0 <= k < 4 ==> b[at + k] as int == tag[k] as int
  }

  /** A 16-bit field of a buffer read from offset pos is the field of the file at pos + off. */
  lemma SliceU16(b: seq<byte>, pos: int, n: int, off: int)
    requires 0 <= pos && 0 <= off && off + 2 <= n && pos + n <= |b|
    ensures U16(b[pos..pos + n], off) == U16(b, pos + off)
  {
  }

  /** A 32-bit field of a buffer read from offset pos is the field of the file at pos + off. */
  lemma SliceU32(b: seq<byte>, pos: int, n: int, off: int)
    requires 0 <= pos && 0 <= off && off + 4 <= n && pos + n <= |b|
    ensures U32(b[pos..pos + n], off) == U32(b, pos + off)
  {
    SliceU16(b, pos, n, off);
    SliceU16(b, pos, n, off + 2);
  }

  /** A tag of a buffer read from offset pos is the tag of the file at pos + off. */
  lemma SliceTag(b: seq<byte>, pos: int, n: int, off: int, tag: string)
    requires 0 <= pos && 0 <= off && off + 4 <= n && pos + n <= |b| && |tag| == 4
    ensures TagAt(b[pos..pos + n], off, tag) <==> TagAt(b, pos + off, tag)
  {
  }

  /**
   * fread(buffer, n, 1, file) from offset `pos`: one whole item of n bytes, or nothing.
   * An item of size 0 is never read.
   */
  function Read(b: seq<byte>, pos: int, n: int): (r: Option<seq<byte>>)
    requires 0 <= pos && 0 <= n
    ensures r.Some? <==> 0 < n && pos + n <= |b|
    ensures r.Some? ==> r.value == b[pos..pos + n]
  {
    if 0 < n && pos + n <= |b| then Some(b[pos..pos + n]) else None
  }

  /** uint32_t to ALsizei (a 32-bit int): values of 2^31 and above become negative. */
  function Int32(u: int): (i: int)
    requires 0 <= u < TwoTo32
    ensures -0x8000_0000 <= i < 0x8000_0000 && (i - u) % TwoTo32 == 0
  {
    if u >= 0x8000_0000 then u - TwoTo32 else u
  }

  /** The format table: channels and bits per sample to an OpenAL format, 0 when unsupported. */
  function FormatOf(channels: int, bits: int): (f: int)
    ensures f != 0 <==> (channels == 1 || channels == 2) && (bits == 8 || bits == 16)
    ensures f == AlFormatMono8 <==> channels == 1 && bits == 8
    ensures f == AlFormatMono16 <==> channels == 1 && bits == 16
    ensures f == AlFormatStereo8 <==> channels == 2 && bits == 8
    ensures f == AlFormatStereo16 <==> channels == 2 && bits == 16
  {
    match channels
    case 1 => (match bits case 8 => AlFormatMono8 case 16 => AlFormatMono16 case _ => 0)
    case 2 => (match bits case 8 => AlFormatStereo8 case 16 => AlFormatStereo16 case _ => 0)
    case _ => 0
  }

  /**
   * The extra format bytes skipped: subChunkSize - 16 computed in 32-bit unsigned arithmetic,
   * so a chunk size below 16 wraps to nearly 4 GiB.
   */
  function ExtraSize(chunkSize: int): (e: int)
    requires 0 <= chunkSize < TwoTo32
    ensures 0 <= e < TwoTo32
    ensures chunkSize >= 16 ==> e == chunkSize - 16
    ensures chunkSize < 16 ==> e == chunkSize - 16 + TwoTo32
  {
    (chunkSize - 16) % TwoTo32
  }

  /** The RIFF header is present and names a RIFF container of WAVE form. */
  predicate HeaderOk(b: seq<byte>) {
    |b| >= 12 && TagAt(b, 0, "RIFF") && TagAt(b, 8, "WAVE")
  }

  /** The fmt chunk header follows the RIFF header. */
  predicate FmtOk(b: seq<byte>) {
    HeaderOk(b) && |b| >= 36 && TagAt(b, 12, "fmt ")
  }

  /** Where the data chunk header is read: after the fmt header and its extra bytes. */
  function DataAt(b: seq<byte>): (pos: int)
    requires FmtOk(b)
    ensures pos >= 36
  {
    36 + ExtraSize(U32(b, 16))
  }

  /** The data chunk header is present and tagged "data". */
  predicate DataHeaderOk(b: seq<byte>) {
    FmtOk(b) && DataAt(b) + 8 <= |b| && TagAt(b, DataAt(b), "data")
  }

  function DataSize(b: seq<byte>): int
    requires DataHeaderOk(b)
  {
    U32(b, DataAt(b) + 4)
  }

  /** The whole non-empty data chunk is present. */
  predicate DataOk(b: seq<byte>) {
    DataHeaderOk(b) && 0 < DataSize(b) && DataAt(b) + 8 + DataSize(b) <= |b|
  }

  /**
   * What audioLoader_riffWave returns for the file: each check fails with its own code, in the
   * order the headers are read; the format table is consulted only after the samples were
   * read, and by then `frequency` and `format` have been written.
   */
  function Loaded(file: Option<seq<byte>>): Outcome {
    if file.None? then Failure(FileNotFound)
    else
      var b := file.value;
      if |b| < 12 then Failure(InvalidFormat)
      else if !TagAt(b, 0, "RIFF") then Failure(InvalidContainer)
      else if !TagAt(b, 8, "WAVE") then Failure(InvalidCodec)
      else if !DataOk(b) then Failure(InvalidFormat)
      else
        var format := FormatOf(U16(b, 22), U16(b, 34));
        var start := DataAt(b) + 8;
        if format == 0 then Outcome(-InvalidFormat, Some(Int32(U32(b, 24))), Some(0), None)
        else Outcome(0, Some(Int32(U32(b, 24))), Some(format), Some(b[start..start + DataSize(b)]))
  }

  /**
   * The loader's outcomes, case by case: a missing file, each failed header check with its
   * code, and a readable file whose samples are the whole data chunk, handed over only when
   * the format table knows the channel count and sample width.
   */
  lemma LoadedCases(file: Option<seq<byte>>)
    ensures var out := Loaded(file);
      && (file.None? ==> out == Failure(FileNotFound))
      && (file.Some? ==> var b := file.value;
        && (|b| < 12 ==> out == Failure(InvalidFormat))
        && (|b| >= 12 && !TagAt(b, 0, "RIFF") ==> out == Failure(InvalidContainer))
        && (|b| >= 12 && TagAt(b, 0, "RIFF") && !TagAt(b, 8, "WAVE") ==> out == Failure(InvalidCodec))
        && (HeaderOk(b) && !FmtOk(b) ==> out == Failure(InvalidFormat))
        && (FmtOk(b) && !DataOk(b) ==> out == Failure(InvalidFormat))
        && (DataOk(b) ==>
              var format := FormatOf(U16(b, 22), U16(b, 34));
              out.frequency == Some(Int32(U32(b, 24))) && out.format == Some(format)
              && (out.ret == 0 <==> format != 0)
              && (format == 0 ==> out.ret == -InvalidFormat && out.samples.None?)
              && (format != 0 ==> out.samples == Some(b[DataAt(b) + 8..DataAt(b) + 8 + DataSize(b)]))))
  {
  }

  /** audioLoader_riffWave, reading the file through a cursor. `file` is None when the file cannot be opened. */
  method LoadRiffWave(file: Option<seq<byte>>) returns (out: Outcome)
    ensures out == Loaded(file)
  {
    if file.None? {
      return Failure(FileNotFound);
    }
    var b := file.value;
    var pos := 0;

    var riffHeader := Read(b, pos, 12);
    if riffHeader.None? {
      return Failure(InvalidFormat);
    }
    SliceTag(b, 0, 12, 0, "RIFF");
    SliceTag(b, 0, 12, 8, "WAVE");
    pos := pos + 12;
    if !TagAt(riffHeader.value, 0, "RIFF") {
      return Failure(InvalidContainer);
    }
    if !TagAt(riffHeader.value, 8, "WAVE") {
      return Failure(InvalidCodec);
    }

    var waveFormat := Read(b, pos, 24);
    if waveFormat.None? {
      assert !FmtOk(b);
      return Failure(InvalidFormat);
    }
    SliceTag(b, 12, 24, 0, "fmt ");
    pos := pos + 24;
    if !TagAt(waveFormat.value, 0, "fmt ") {
      assert !FmtOk(b);
      return Failure(InvalidFormat);
    }
    SliceU32(b, 12, 24, 4);
    var extraParameterSize := ExtraSize(U32(waveFormat.value, 4));
    if extraParameterSize > 0 {
      pos := pos + extraParameterSize;
    }
    assert pos == DataAt(b);

    out := ReadDataChunk(b, pos, waveFormat.value);
  }

  /**
   * The second half of audioLoader_riffWave: the data chunk header read at the cursor, the
   * samples, and the format table.
   */
  method ReadDataChunk(b: seq<byte>, pos: int, waveFormat: seq<byte>) returns (out: Outcome)
    requires FmtOk(b) && pos == DataAt(b) && waveFormat == b[12..36]
    ensures out == Loaded(Some(b))
  {
    var cursor := pos;
    var waveDataHeader := Read(b, cursor, 8);
    if waveDataHeader.None? {
      return Failure(InvalidFormat);
    }
    SliceTag(b, cursor, 8, 0, "data");
    SliceU32(b, cursor, 8, 4);
    cursor := cursor + 8;
    if !TagAt(waveDataHeader.value, 0, "data") {
      return Failure(InvalidFormat);
    }

    var size := U32(waveDataHeader.value, 4);
    var data := Read(b, cursor, size);
    if data.None? {
      return Failure(InvalidFormat);
    }

    SliceU32(b, 12, 24, 12);
    SliceU16(b, 12, 24, 10);
    SliceU16(b, 12, 24, 22);
    var frequency := Int32(U32(waveFormat, 12));
    var format := FormatOf(U16(waveFormat, 10), U16(waveFormat, 22));
    if format == 0 {
      return Outcome(-InvalidFormat, Some(frequency), Some(0), None);
    }
    return Outcome(0, Some(frequency), Some(format), Some(data.value));
  }

  /**
   * A fmt chunk that claims fewer than 16 bytes sends the cursor almost 4 GiB ahead, so in
   * any file shorter than that the data header cannot be read and the file is rejected.
   */
  lemma ShortFmtChunkRejected(b: seq<byte>)
    requires FmtOk(b) && U32(b, 16) < 16 && |b| < TwoTo32
    ensures !DataOk(b)
  {
  }

  /** There is no chunk skipping: whatever chunk follows fmt must be the data chunk. */
  lemma OnlyDataFollowsFmt(b: seq<byte>)
    requires FmtOk(b) && DataAt(b) + 8 <= |b| && !TagAt(b, DataAt(b), "data")
    ensures !DataOk(b)
  {
  }

  /** The four little-endian bytes of a 32-bit value. */
  function LE32(v: int): (s: seq<byte>)
    requires 0 <= v < TwoTo32
    ensures |s| == 4
  {
    [(v % 256) as byte, (v / 256 % 256) as byte, (v / 0x1_0000 % 256) as byte, (v / 0x100_0000) as byte]
  }

  function LE16(v: int): (s: seq<byte>)
    requires 0 <= v < 0x1_0000
    ensures |s| == 2
  {
    [(v % 256) as byte, (v / 256) as byte]
  }

  function Tag(tag: string): (s: seq<byte>)
    requires |tag| == 4 && forall k :: 0 <= k < 4 ==> tag[k] as int < 256
    ensures |s| == 4 && TagAt(s, 0, tag)
  {
    [tag[0] as int as byte, tag[1] as int as byte, tag[2] as int as byte, tag[3] as int as byte]
  }

  lemma U32OfLE32(v: int)
    requires 0 <= v < TwoTo32
    ensures U32(LE32(v), 0) == v
  {
    var s := LE32(v);
    assert U16(s, 0) == v % 0x1_0000;
    assert U16(s, 2) == v / 0x1_0000;
  }

  lemma U16OfLE16(v: int)
    requires 0 <= v < 0x1_0000
    ensures U16(LE16(v), 0) == v
  {
  }

  /** The RIFF header and the fmt chunk up to its channel count: 24 bytes. */
  function RiffFmtHead(channels: int, dataSize: int): (h: seq<byte>)
    requires channels == 1 || channels == 2
    requires 0 <= dataSize < 0x1000_0000
    ensures |h| == 24
  {
    Tag("RIFF") + LE32(36 + dataSize) + Tag("WAVE") + Tag("fmt ") + LE32(16) + LE16(1) + LE16(channels)
  }

  /** The rest of a 16-byte PCM fmt chunk: 12 bytes. */
  function FmtTail(channels: int, bits: int, rate: int): (h: seq<byte>)
    requires (channels == 1 || channels == 2) && (bits == 8 || bits == 16)
    requires 0 <= rate < 0x1000_0000
    ensures |h| == 12
  {
    var blockAlign := channels * bits / 8;
    assert rate * blockAlign <= rate * 4;
    LE32(rate) + LE32(rate * blockAlign) + LE16(blockAlign) + LE16(bits)
  }

  /** The canonical 44-byte header of a PCM wave file followed by its samples. */
  function EncodeWave(channels: int, bits: int, rate: int, samples: seq<byte>): (b: seq<byte>)
    requires (channels == 1 || channels == 2) && (bits == 8 || bits == 16)
    requires 0 <= rate < 0x1000_0000 && |samples| < 0x1000_0000
    ensures |b| == 44 + |samples|
  {
    RiffFmtHead(channels, |samples|) + FmtTail(channels, bits, rate) + Tag("data") + LE32(|samples|) + samples
  }

  /** Peeling the last field off a prefix of b. */
  lemma Peel(b: seq<byte>, pre: seq<byte>, field: seq<byte>)
    requires |pre| + |field| <= |b| && b[..|pre| + |field|] == pre + field
    ensures b[|pre|..|pre| + |field|] == field && b[..|pre|] == pre
  {
    assert b[|pre|..|pre| + |field|] == b[..|pre| + |field|][|pre|..];
    assert b[..|pre|] == b[..|pre| + |field|][..|pre|];
  }

  lemma RiffFmtHeadLayout(channels: int, dataSize: int)
    requires channels == 1 || channels == 2
    requires 0 <= dataSize < 0x1000_0000
    ensures var h := RiffFmtHead(channels, dataSize);
            && h[0..4] == Tag("RIFF") && h[8..12] == Tag("WAVE") && h[12..16] == Tag("fmt ")
            && h[16..20] == LE32(16) && h[22..24] == LE16(channels)
  {
    var h := RiffFmtHead(channels, dataSize);
    var p1 := Tag("RIFF");
    var p2 := p1 + LE32(36 + dataSize);
    var p3 := p2 + Tag("WAVE");
    var p4 := p3 + Tag("fmt ");
    var p5 := p4 + LE32(16);
    var p6 := p5 + LE16(1);
    assert h[..24] == p6 + LE16(channels);
    Peel(h, p6, LE16(channels));
    Peel(h, p5, LE16(1));
    Peel(h, p4, LE32(16));
    Peel(h, p3, Tag("fmt "));
    Peel(h, p2, Tag("WAVE"));
    Peel(h, p1, LE32(36 + dataSize));
    Peel(h, [], Tag("RIFF"));
  }

  lemma FmtTailLayout(channels: int, bits: int, rate: int)
    requires (channels == 1 || channels == 2) && (bits == 8 || bits == 16)
    requires 0 <= rate < 0x1000_0000
    ensures var h := FmtTail(channels, bits, rate);
            h[0..4] == LE32(rate) && h[10..12] == LE16(bits)
  {
    var h := FmtTail(channels, bits, rate);
    var blockAlign := channels * bits / 8;
    assert rate * blockAlign <= rate * 4;
    var p1 := LE32(rate);
    var p2 := p1 + LE32(rate * blockAlign);
    var p3 := p2 + LE16(blockAlign);
    assert h[..12] == p3 + LE16(bits);
    Peel(h, p3, LE16(bits));
    Peel(h, p2, LE16(blockAlign));
    Peel(h, p1, LE32(rate * blockAlign));
    Peel(h, [], LE32(rate));
  }

  /** Where each header field of the canonical file lies. */
  lemma EncodeWaveLayout(channels: int, bits: int, rate: int, samples: seq<byte>)
    requires (channels == 1 || channels == 2) && (bits == 8 || bits == 16)
    requires 0 <= rate < 0x1000_0000 && |samples| < 0x1000_0000
    ensures var b := EncodeWave(channels, bits, rate, samples);
            && b[0..4] == Tag("RIFF") && b[8..12] == Tag("WAVE") && b[12..16] == Tag("fmt ")
            && b[16..20] == LE32(16) && b[22..24] == LE16(channels) && b[24..28] == LE32(rate)
            && b[34..36] == LE16(bits) && b[36..40] == Tag("data") && b[40..44] == LE32(|samples|)
            && b[44..] == samples
  {
    var b := EncodeWave(channels, bits, rate, samples);
    var h1 := RiffFmtHead(channels, |samples|);
    var h2 := FmtTail(channels, bits, rate);
    RiffFmtHeadLayout(channels, |samples|);
    FmtTailLayout(channels, bits, rate);
    var p2 := h1 + h2;
    var p3 := p2 + Tag("data");
    var p4 := p3 + LE32(|samples|);
    assert b == p4 + samples;
    assert b[..44] == p4;
    Peel(b, p3, LE32(|samples|));
    Peel(b, p2, Tag("data"));
    Peel(b, h1, h2);
    Peel(b, [], h1);
    assert b[0..4] == h1[0..4] && b[8..12] == h1[8..12] && b[12..16] == h1[12..16];
    assert b[16..20] == h1[16..20] && b[22..24] == h1[22..24];
    assert b[24..28] == h2[0..4] && b[34..36] == h2[10..12];
  }

  /** Reading back a 32-bit field, a 16-bit field and a tag from where they were written. */
  lemma ReadU32(b: seq<byte>, at: int, v: int)
    requires 0 <= at && at + 4 <= |b| && 0 <= v < TwoTo32 && b[at..at + 4] == LE32(v)
    ensures U32(b, at) == v
  {
    U32OfLE32(v);
    assert U32(b, at) == U32(b[at..at + 4], 0);
  }

  lemma ReadU16(b: seq<byte>, at: int, v: int)
    requires 0 <= at && at + 2 <= |b| && 0 <= v < 0x1_0000 && b[at..at + 2] == LE16(v)
    ensures U16(b, at) == v
  {
    U16OfLE16(v);
    assert U16(b, at) == U16(b[at..at + 2], 0);
  }

  lemma ReadTag(b: seq<byte>, at: int, tag: string)
    requires 0 <= at && at + 4 <= |b| && |tag| == 4 && forall k :: 0 <= k < 4 ==> tag[k] as int < 256
    requires b[at..at + 4] == Tag(tag)
    ensures TagAt(b, at, tag)
  {
    forall k | 0 <= k < 4
      ensures b[at + k] as int == tag[k] as int
    {
      assert b[at + k] == b[at..at + 4][k];
    }
  }

  /**
   * Round trip: the loader reads back what a well-formed file encodes. The canonical file
   * passes every header check, and its channels, bits, sample rate and samples are the
   * ones encoded.
   */
  lemma EncodeWaveRoundTrip(channels: int, bits: int, rate: int, samples: seq<byte>)
    requires (channels == 1 || channels == 2) && (bits == 8 || bits == 16)
    requires 0 <= rate < 0x1000_0000 && 0 < |samples| < 0x1000_0000
    ensures var b := EncodeWave(channels, bits, rate, samples);
            && DataOk(b) && DataAt(b) == 36
            && U16(b, 22) == channels && U16(b, 34) == bits && U32(b, 24) == rate
            && b[44..44 + DataSize(b)] == samples
  {
    var b := EncodeWave(channels, bits, rate, samples);
    EncodeWaveLayout(channels, bits, rate, samples);
    ReadTag(b, 0, "RIFF");
    ReadTag(b, 8, "WAVE");
    ReadTag(b, 12, "fmt ");
    ReadU32(b, 16, 16);
    ReadU16(b, 22, channels);
    ReadU32(b, 24, rate);
    ReadU16(b, 34, bits);
    ReadTag(b, 36, "data");
    ReadU32(b, 40, |samples|);
  }

  /**
   * The loader hands back what the encoder wrote: success, the sample rate, the OpenAL format
   * of the channel count and sample width, and the samples themselves.
   */
  lemma LoadEncodedWave(channels: int, bits: int, rate: int, samples: seq<byte>)
    requires (channels == 1 || channels == 2) && (bits == 8 || bits == 16)
    requires 0 <= rate < 0x1000_0000 && 0 < |samples| < 0x1000_0000
    ensures Loaded(Some(EncodeWave(channels, bits, rate, samples)))
            == Outcome(0, Some(rate), Some(FormatOf(channels, bits)), Some(samples))
  {
    EncodeWaveRoundTrip(channels, bits, rate, samples);
  }
}
