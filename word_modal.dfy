// The pronunciation path of the word modal: the decoded base64 payload is
// copied into a byte buffer, reinterpreted as little-endian 16-bit samples and
// wrapped in a 44-byte RIFF/WAVE header before it is played.

module WordModal {

  import opened Types
  import opened JsText
  import GeminiService

  newtype byte = x: int | 0 <= x < 0x100

  /** One element of an `Int16Array`. */
  newtype int16 = x: int | -0x8000 <= x < 0x8000

  const TWO_16: int := 0x1_0000
  const TWO_32: int := 0x1_0000_0000

  /** Sample rate used when the MIME type carries no `rate=<digits>` parameter. */
  const DEFAULT_SAMPLE_RATE: nat := 24000

  /** Size of the RIFF/WAVE header in front of the samples. */
  const HEADER_SIZE: nat := 44

  // ------------------------------------------------------------ byte layout

  /** ToUint8: what `Uint8Array` element stores and `DataView.setUint8` keep of a number. */
  function Uint8(v: int): byte
  {
    (v % 0x100) as byte
  }

  /** Each character code reduced to a byte, as a `Uint8Array` stores it. */
  function ByteString(s: string): (b: seq<byte>)
    ensures |b| == |s|
    ensures forall i :: 0 <= i < |s| ==> b[i] == Uint8(s[i] as int)
  {
    seq(|s|, i requires 0 <= i < |s| => Uint8(s[i] as int))
  }

  /** The two bytes `setUint16`/`setInt16` write with littleEndian = true; the value wraps modulo 2^16. */
  function Le16(v: int): (b: seq<byte>)
    ensures |b| == 2
  {
    var u := v % TWO_16;
    [(u % 0x100) as byte, (u / 0x100) as byte]
  }

  /** The four bytes `setUint32` writes with littleEndian = true; the value wraps modulo 2^32. */
  function Le32(v: int): (b: seq<byte>)
    ensures |b| == 4
  {
    var u := v % TWO_32;
    [(u % 0x100) as byte, (u / 0x100 % 0x100) as byte, (u / 0x1_0000 % 0x100) as byte, (u / 0x100_0000) as byte]
  }

  function ReadUint16(b: seq<byte>, off: nat): int
    requires off + 2 <= |b|
  {
    b[off] as int + 0x100 * b[off + 1] as int
  }

  function ReadUint32(b: seq<byte>, off: nat): int
    requires off + 4 <= |b|
  {
    b[off] as int + 0x100 * b[off + 1] as int + 0x1_0000 * b[off + 2] as int + 0x100_0000 * b[off + 3] as int
  }

  /** A signed little-endian 16-bit value, as an `Int16Array` element reads it on a little-endian host. */
  function ReadInt16(b: seq<byte>, off: nat): int16
    requires off + 2 <= |b|
  {
    var u := ReadUint16(b, off);
    (if u >= 0x8000 then u - TWO_16 else u) as int16
  }

  lemma Le16Reads(v: int)
    ensures ReadUint16(Le16(v), 0) == v % TWO_16
  {
  }

  lemma Le32Reads(v: int)
    ensures ReadUint32(Le32(v), 0) == v % TWO_32
  {
    var u := v % TWO_32;
    var a := u / 0x100;
    var c := a / 0x100;
    assert u == u % 0x100 + 0x100 * a;
    assert a == a % 0x100 + 0x100 * c;
    assert c == c % 0x100 + 0x100 * (c / 0x100);
    assert u / 0x1_0000 == c;
    assert u / 0x100_0000 == c / 0x100;
  }

  /** A 16-bit sample written little-endian reads back as itself. */
  lemma Int16RoundTrip(v: int16)
    ensures ReadInt16(Le16(v as int), 0) == v
  {
    Le16Reads(v as int);
  }

  /** Reading a 32-bit field where `Le32(v)` was stored gives `v` modulo 2^32. */
  lemma ReadUint32At(b: seq<byte>, off: nat, v: int)
    requires off + 4 <= |b| && b[off..off + 4] == Le32(v)
    ensures ReadUint32(b, off) == v % TWO_32
  {
    Le32Reads(v);
    assert b[off] == Le32(v)[0] && b[off + 1] == Le32(v)[1];
    assert b[off + 2] == Le32(v)[2] && b[off + 3] == Le32(v)[3];
  }

  lemma ReadUint16At(b: seq<byte>, off: nat, v: int)
    requires off + 2 <= |b| && b[off..off + 2] == Le16(v)
    ensures ReadUint16(b, off) == v % TWO_16
  {
    Le16Reads(v);
    assert b[off] == Le16(v)[0] && b[off + 1] == Le16(v)[1];
  }

  lemma ReadInt16At(b: seq<byte>, off: nat, v: int16)
    requires off + 2 <= |b| && b[off..off + 2] == Le16(v as int)
    ensures ReadInt16(b, off) == v
  {
    Int16RoundTrip(v);
    assert b[off] == Le16(v as int)[0] && b[off + 1] == Le16(v as int)[1];
  }

  // ------------------------------------------------------------ the WAV file

  /** The RIFF descriptor: tag, size of the rest of the file, form type. */
  function RiffDescriptor(n: nat): (d: seq<byte>)
    ensures |d| == 12
  {
    ByteString("RIFF") + Le32(36 + n * 2) + ByteString("WAVE")
  }

  /** The "fmt " sub-chunk of a 16-bit linear PCM file. */
  function FmtChunk(numChannels: int, sampleRate: int): (f: seq<byte>)
    ensures |f| == 24
  {
    ByteString("fmt ") + Le32(16) + Le16(1) + Le16(numChannels)
    + Le32(sampleRate) + Le32(sampleRate * (numChannels * 2)) + Le16(numChannels * 2) + Le16(16)
  }

  /** The header of the "data" sub-chunk: tag and byte length of the samples. */
  function DataChunkHeader(n: nat): (d: seq<byte>)
    ensures |d| == 8
  {
    ByteString("data") + Le32(n * 2)
  }

  /** The canonical 44-byte PCM header for `n` samples. */
  function WavHeader(n: nat, numChannels: int, sampleRate: int): (h: seq<byte>)
    ensures |h| == HEADER_SIZE
  {
    RiffDescriptor(n) + FmtChunk(numChannels, sampleRate) + DataChunkHeader(n)
  }

  /** The samples as consecutive little-endian 16-bit values. */
  function PcmBytes(pcm: seq<int16>): (b: seq<byte>)
    ensures |b| == 2 * |pcm|
  {
    if pcm == [] then [] else Le16(pcm[0] as int) + PcmBytes(pcm[1..])
  }

  /** The buffer `pcmToWav` fills: header, then samples. */
  function WavFile(pcm: seq<int16>, numChannels: int, sampleRate: int): (w: seq<byte>)
    ensures |w| == HEADER_SIZE + 2 * |pcm|
  {
    WavHeader(|pcm|, numChannels, sampleRate) + PcmBytes(pcm)
  }

  /**
   * `new Int16Array(buffer)`: consecutive byte pairs read as signed
   * little-endian values; a buffer of odd length is refused (a RangeError).
   */
  function DecodePcm(bytes: seq<byte>): (r: Option<seq<int16>>)
    ensures r.Some? <==> |bytes| % 2 == 0
    ensures r.Some? ==> |r.value| == |bytes| / 2
  {
    if |bytes| % 2 != 0 then None
    else Some(seq(|bytes| / 2, i requires 0 <= i < |bytes| / 2 => ReadInt16(bytes, 2 * i)))
  }

  lemma {:induction false} PcmBytesSnoc(pcm: seq<int16>, x: int16)
    ensures PcmBytes(pcm + [x]) == PcmBytes(pcm) + Le16(x as int)
  {
    if pcm != [] {
      assert (pcm + [x])[1..] == pcm[1..] + [x];
      PcmBytesSnoc(pcm[1..], x);
    }
  }

  /** Sample `i` occupies bytes `2i` and `2i + 1` of the data section. */
  lemma {:induction false} PcmBytesAt(pcm: seq<int16>, i: nat)
    requires i < |pcm|
    ensures PcmBytes(pcm)[2 * i..2 * i + 2] == Le16(pcm[i] as int)
  {
    if i > 0 {
      PcmBytesAt(pcm[1..], i - 1);
      assert PcmBytes(pcm)[2 * i..2 * i + 2] == PcmBytes(pcm[1..])[2 * (i - 1)..2 * (i - 1) + 2];
    }
  }

  /** Decoding the data section gives back the samples. */
  lemma DecodePcmBytes(pcm: seq<int16>)
    ensures DecodePcm(PcmBytes(pcm)) == Some(pcm)
  {
    var b := PcmBytes(pcm);
    forall i | 0 <= i < |pcm| ensures ReadInt16(b, 2 * i) == pcm[i] {
      PcmBytesAt(pcm, i);
      ReadInt16At(b, 2 * i, pcm[i]);
    }
    assert |b| / 2 == |pcm|;
    assert DecodePcm(b).value == pcm;
  }

  /** Encoding decoded samples gives back the bytes, for any even-length buffer. */
  lemma {:induction false} PcmBytesDecode(bytes: seq<byte>)
    requires |bytes| % 2 == 0
    ensures PcmBytes(DecodePcm(bytes).value) == bytes
  {
    if bytes != [] {
      var pcm := DecodePcm(bytes).value;
      var rest := bytes[2..];
      PcmBytesDecode(rest);
      assert DecodePcm(rest).value == pcm[1..];
      var u := ReadUint16(bytes, 0);
      assert Le16(pcm[0] as int) == bytes[..2] by {
        assert (pcm[0] as int) % TWO_16 == u;
      }
      assert bytes == bytes[..2] + rest;
    }
  }

  /** The four-character tags of the header as bytes. */
  lemma TagBytes()
    ensures ByteString("RIFF") == [0x52, 0x49, 0x46, 0x46]
    ensures ByteString("WAVE") == [0x57, 0x41, 0x56, 0x45]
    ensures ByteString("fmt ") == [0x66, 0x6d, 0x74, 0x20]
    ensures ByteString("data") == [0x64, 0x61, 0x74, 0x61]
  {
  }

  /** The RIFF descriptor read back: tag, size of the rest of the file, form type. */
  lemma RiffFields(n: nat)
    ensures var d := RiffDescriptor(n);
      && d[0..4] == [0x52, 0x49, 0x46, 0x46]     // "RIFF"
      && ReadUint32(d, 4) == (36 + 2 * n) % TWO_32
      && d[8..12] == [0x57, 0x41, 0x56, 0x45]    // "WAVE"
  {
    var d := RiffDescriptor(n);
    TagBytes();
    assert d[0..4] == ByteString("RIFF") && d[8..12] == ByteString("WAVE");
    assert d[4..8] == Le32(36 + n * 2);
    ReadUint32At(d, 4, 36 + n * 2);
  }

  /** The first half of the "fmt " sub-chunk: tag, sub-chunk size 16, format tag 1 (linear PCM), channels. */
  lemma FmtTagFields(numChannels: int, sampleRate: int)
    ensures var f := FmtChunk(numChannels, sampleRate);
      && f[0..4] == [0x66, 0x6d, 0x74, 0x20]   // "fmt "
      && ReadUint32(f, 4) == 16
      && ReadUint16(f, 8) == 1
      && ReadUint16(f, 10) == numChannels % TWO_16
  {
    var f := FmtChunk(numChannels, sampleRate);
    TagBytes();
    assert f[0..4] == ByteString("fmt ");
    assert f[4..8] == Le32(16);
    ReadUint32At(f, 4, 16);
    assert f[8..10] == Le16(1);
    ReadUint16At(f, 8, 1);
    assert f[10..12] == Le16(numChannels);
    ReadUint16At(f, 10, numChannels);
  }

  /** The second half of the "fmt " sub-chunk: sample rate, byte rate, block alignment, bits per sample. */
  lemma FmtRateFields(numChannels: int, sampleRate: int)
    ensures var f := FmtChunk(numChannels, sampleRate);
      && ReadUint32(f, 12) == sampleRate % TWO_32
      && ReadUint32(f, 16) == (sampleRate * numChannels * 2) % TWO_32
      && ReadUint16(f, 20) == (numChannels * 2) % TWO_16
      && ReadUint16(f, 22) == 16
  {
    var f := FmtChunk(numChannels, sampleRate);
    var byteRate := sampleRate * (numChannels * 2);
    assert f[12..16] == Le32(sampleRate);
    ReadUint32At(f, 12, sampleRate);
    assert f[16..20] == Le32(byteRate);
    ReadUint32At(f, 16, byteRate);
    assert byteRate == sampleRate * numChannels * 2;
    assert f[20..22] == Le16(numChannels * 2);
    ReadUint16At(f, 20, numChannels * 2);
    assert f[22] == Le16(16)[0] && f[23] == Le16(16)[1];
    assert f[22..24] == Le16(16);
    ReadUint16At(f, 22, 16);
  }

  /** The "data" sub-chunk header read back: tag and the byte length of the samples. */
  lemma DataFields(n: nat)
    ensures var d := DataChunkHeader(n);
      && d[0..4] == [0x64, 0x61, 0x74, 0x61]   // "data"
      && ReadUint32(d, 4) == (2 * n) % TWO_32
  {
    var d := DataChunkHeader(n);
    TagBytes();
    assert d[0..4] == ByteString("data");
    assert d[4..8] == Le32(n * 2);
    ReadUint32At(d, 4, n * 2);
  }

  /** Offsets, sizes and format fields of the header, read back as a decoder reads them. */
  lemma WavHeaderFields(pcm: seq<int16>, numChannels: int, sampleRate: int)
    ensures var w := WavFile(pcm, numChannels, sampleRate);
      && w[0..4] == [0x52, 0x49, 0x46, 0x46]     // "RIFF"
      && ReadUint32(w, 4) == (36 + 2 * |pcm|) % TWO_32
      && w[8..12] == [0x57, 0x41, 0x56, 0x45]    // "WAVE"
      && w[12..16] == [0x66, 0x6d, 0x74, 0x20]   // "fmt "
      && ReadUint32(w, 16) == 16
      && ReadUint16(w, 20) == 1
      && ReadUint16(w, 22) == numChannels % TWO_16
      && ReadUint32(w, 24) == sampleRate % TWO_32
      && ReadUint32(w, 28) == (sampleRate * numChannels * 2) % TWO_32
      && ReadUint16(w, 32) == (numChannels * 2) % TWO_16
      && ReadUint16(w, 34) == 16
      && w[36..40] == [0x64, 0x61, 0x74, 0x61]   // "data"
      && ReadUint32(w, 40) == (2 * |pcm|) % TWO_32
  {
    var n := |pcm|;
    var w := WavFile(pcm, numChannels, sampleRate);
    var d := RiffDescriptor(n);
    var f := FmtChunk(numChannels, sampleRate);
    var e := DataChunkHeader(n);
    assert forall k :: 0 <= k < 12 ==> w[k] == d[k];
    assert forall k :: 0 <= k < 24 ==> w[12 + k] == f[k];
    assert forall k :: 0 <= k < 8 ==> w[36 + k] == e[k];
    RiffFields(n);
    FmtTagFields(numChannels, sampleRate);
    FmtRateFields(numChannels, sampleRate);
    DataFields(n);
  }

  /**
   * For the mono file the pronunciation player builds, with a sample rate and
   * a length that fit the 32-bit fields, nothing wraps: every field holds its
   * exact value.
   */
  lemma MonoHeaderExact(pcm: seq<int16>, sampleRate: int)
    requires 0 <= sampleRate < 0x8000_0000 && 36 + 2 * |pcm| < TWO_32
    ensures var w := WavFile(pcm, 1, sampleRate);
      && ReadUint32(w, 4) == 36 + 2 * |pcm|
      && ReadUint16(w, 22) == 1
      && ReadUint32(w, 24) == sampleRate
      && ReadUint32(w, 28) == 2 * sampleRate
      && ReadUint16(w, 32) == 2
      && ReadUint32(w, 40) == 2 * |pcm|
  {
    WavHeaderFields(pcm, 1, sampleRate);
    assert sampleRate * 1 * 2 == 2 * sampleRate;
    ModBelow(36 + 2 * |pcm|, TWO_32);
    ModBelow(1, TWO_16);
    ModBelow(sampleRate, TWO_32);
    ModBelow(2 * sampleRate, TWO_32);
    ModBelow(2, TWO_16);
    ModBelow(2 * |pcm|, TWO_32);
  }

  lemma ModBelow(x: int, m: int)
    requires 0 <= x < m
    ensures x % m == x
  {
  }

  /** Every sample reads back, as a signed 16-bit little-endian value, at offset 44 + 2i. */
  lemma WavSamplesRoundTrip(pcm: seq<int16>, numChannels: int, sampleRate: int)
    ensures forall i :: 0 <= i < |pcm| ==> ReadInt16(WavFile(pcm, numChannels, sampleRate), HEADER_SIZE + 2 * i) == pcm[i]
    ensures DecodePcm(WavFile(pcm, numChannels, sampleRate)[HEADER_SIZE..]) == Some(pcm)
  {
    var w := WavFile(pcm, numChannels, sampleRate);
    assert w[HEADER_SIZE..] == PcmBytes(pcm);
    forall i | 0 <= i < |pcm| ensures ReadInt16(w, HEADER_SIZE + 2 * i) == pcm[i] {
      PcmBytesAt(pcm, i);
      assert w[HEADER_SIZE + 2 * i..HEADER_SIZE + 2 * i + 2] == PcmBytes(pcm)[2 * i..2 * i + 2];
      ReadInt16At(w, HEADER_SIZE + 2 * i, pcm[i]);
    }
    DecodePcmBytes(pcm);
  }

  /** The header depends on the number of samples, never on their values. */
  lemma WavHeaderIgnoresSamples(p: seq<int16>, q: seq<int16>, numChannels: int, sampleRate: int)
    requires |p| == |q|
    ensures WavFile(p, numChannels, sampleRate)[..HEADER_SIZE] == WavFile(q, numChannels, sampleRate)[..HEADER_SIZE]
  {
    assert WavFile(p, numChannels, sampleRate)[..HEADER_SIZE] == WavHeader(|p|, numChannels, sampleRate);
    assert WavFile(q, numChannels, sampleRate)[..HEADER_SIZE] == WavHeader(|q|, numChannels, sampleRate);
  }

  // ------------------------------------------------------------ DataView writes

  /** `s` with the bytes from `off` on replaced by `b`. */
  function Overwrite(s: seq<byte>, off: nat, b: seq<byte>): (r: seq<byte>)
    requires off + |b| <= |s|
    ensures |r| == |s|
  {
    s[..off] + b + s[off + |b|..]
  }

  lemma OverwriteAt(s: seq<byte>, off: nat, b: seq<byte>)
    requires off + |b| <= |s|
    ensures forall k :: 0 <= k < |s| ==> Overwrite(s, off, b)[k] == if off <= k < off + |b| then b[k - off] else s[k]
  {
  }

  /** Two writes side by side are one write of the two byte strings joined. */
  lemma OverwriteAdjacent(s: seq<byte>, off: nat, a: seq<byte>, b: seq<byte>)
    requires off + |a| + |b| <= |s|
    ensures Overwrite(Overwrite(s, off, a), off + |a|, b) == Overwrite(s, off, a + b)
  {
    OverwriteAt(s, off, a);
    OverwriteAt(Overwrite(s, off, a), off + |a|, b);
    OverwriteAt(s, off, a + b);
  }

  /** `writeString`: one `setUint8(offset + i, s.charCodeAt(i))` per character. */
  method WriteString(view: array<byte>, offset: nat, s: string)
    requires offset + |s| <= view.Length
    modifies view
    ensures view[..] == Overwrite(old(view[..]), offset, ByteString(s))
  {
    for i := 0 to |s|
      invariant forall k :: 0 <= k < view.Length ==>
        view[k] == if offset <= k < offset + i then Uint8(s[k - offset] as int) else old(view[k])
    {
      view[offset + i] := Uint8(s[i] as int);
    }
    OverwriteAt(old(view[..]), offset, ByteString(s));
  }

  /** `view.setUint16(off, v, true)`. */
  method SetUint16(view: array<byte>, off: nat, v: int)
    requires off + 2 <= view.Length
    modifies view
    ensures view[..] == Overwrite(old(view[..]), off, Le16(v))
  {
    var b := Le16(v);
    view[off] := b[0];
    view[off + 1] := b[1];
    OverwriteAt(old(view[..]), off, b);
  }

  /** `view.setInt16(off, v, true)`: ToInt16 and ToUint16 store the same two's-complement bytes. */
  method SetInt16(view: array<byte>, off: nat, v: int16)
    requires off + 2 <= view.Length
    modifies view
    ensures view[..] == Overwrite(old(view[..]), off, Le16(v as int))
  {
    SetUint16(view, off, v as int);
  }

  /** `view.setUint32(off, v, true)`. */
  method SetUint32(view: array<byte>, off: nat, v: int)
    requires off + 4 <= view.Length
    modifies view
    ensures view[..] == Overwrite(old(view[..]), off, Le32(v))
  {
    var b := Le32(v);
    view[off] := b[0];
    view[off + 1] := b[1];
    view[off + 2] := b[2];
    view[off + 3] := b[3];
    OverwriteAt(old(view[..]), off, b);
  }

  /** The first three header writes of `pcmToWav`. */
  method WriteRiffDescriptor(view: array<byte>, n: nat)
    requires HEADER_SIZE <= view.Length
    modifies view
    ensures view[..] == Overwrite(old(view[..]), 0, RiffDescriptor(n))
  {
    ghost var start := view[..];
    WriteString(view, 0, "RIFF");
    SetUint32(view, 4, 36 + n * 2);
    OverwriteAdjacent(start, 0, ByteString("RIFF"), Le32(36 + n * 2));
    WriteString(view, 8, "WAVE");
    OverwriteAdjacent(start, 0, ByteString("RIFF") + Le32(36 + n * 2), ByteString("WAVE"));
  }

  /** The eight "fmt " writes of `pcmToWav`, with blockAlign = numChannels * 2. */
  method WriteFmtChunk(view: array<byte>, numChannels: int, sampleRate: int)
    requires HEADER_SIZE <= view.Length
    modifies view
    ensures view[..] == Overwrite(old(view[..]), 12, FmtChunk(numChannels, sampleRate))
  {
    ghost var start := view[..];
    var blockAlign := numChannels * 2;
    WriteString(view, 12, "fmt ");
    ghost var done := ByteString("fmt ");
    SetUint32(view, 16, 16);
    OverwriteAdjacent(start, 12, done, Le32(16));
    done := done + Le32(16);
    SetUint16(view, 20, 1);
    OverwriteAdjacent(start, 12, done, Le16(1));
    done := done + Le16(1);
    SetUint16(view, 22, numChannels);
    OverwriteAdjacent(start, 12, done, Le16(numChannels));
    done := done + Le16(numChannels);
    SetUint32(view, 24, sampleRate);
    OverwriteAdjacent(start, 12, done, Le32(sampleRate));
    done := done + Le32(sampleRate);
    SetUint32(view, 28, sampleRate * blockAlign);
    OverwriteAdjacent(start, 12, done, Le32(sampleRate * blockAlign));
    done := done + Le32(sampleRate * blockAlign);
    SetUint16(view, 32, blockAlign);
    OverwriteAdjacent(start, 12, done, Le16(blockAlign));
    done := done + Le16(blockAlign);
    SetUint16(view, 34, 16);
    OverwriteAdjacent(start, 12, done, Le16(16));
  }

  /** The last two header writes of `pcmToWav`. */
  method WriteDataChunkHeader(view: array<byte>, n: nat)
    requires HEADER_SIZE <= view.Length
    modifies view
    ensures view[..] == Overwrite(old(view[..]), 36, DataChunkHeader(n))
  {
    ghost var start := view[..];
    WriteString(view, 36, "data");
    SetUint32(view, 40, n * 2);
    OverwriteAdjacent(start, 36, ByteString("data"), Le32(n * 2));
  }

  /** The ten header writes of `pcmToWav`, in order. */
  method WriteWavHeader(view: array<byte>, n: nat, numChannels: int, sampleRate: int)
    requires HEADER_SIZE <= view.Length
    modifies view
    ensures view[..] == Overwrite(old(view[..]), 0, WavHeader(n, numChannels, sampleRate))
  {
    ghost var start := view[..];
    WriteRiffDescriptor(view, n);
    WriteFmtChunk(view, numChannels, sampleRate);
    OverwriteAdjacent(start, 0, RiffDescriptor(n), FmtChunk(numChannels, sampleRate));
    WriteDataChunkHeader(view, n);
    OverwriteAdjacent(start, 0, RiffDescriptor(n) + FmtChunk(numChannels, sampleRate), DataChunkHeader(n));
  }

  /** One iteration of the sample loop: `setInt16(44 + 2i, pcm[i], true)` extends the written prefix by one sample. */
  method WriteSample(view: array<byte>, ghost zeros: seq<byte>, ghost header: seq<byte>, pcm: seq<int16>, i: nat)
    requires |header| == HEADER_SIZE && i < |pcm| && |zeros| == view.Length == HEADER_SIZE + 2 * |pcm|
    requires view[..] == Overwrite(zeros, 0, header + PcmBytes(pcm[..i]))
    modifies view
    ensures view[..] == Overwrite(zeros, 0, header + PcmBytes(pcm[..i + 1]))
  {
    SetInt16(view, HEADER_SIZE + i * 2, pcm[i]);
    OverwriteAdjacent(zeros, 0, header + PcmBytes(pcm[..i]), Le16(pcm[i] as int));
    PcmBytesSnoc(pcm[..i], pcm[i]);
    assert pcm[..i + 1] == pcm[..i] + [pcm[i]];
  }

  /** `pcmToWav`: a fresh zeroed buffer of 44 + 2n bytes, the header fields in order, then the samples. */
  method PcmToWav(pcmData: seq<int16>, numChannels: int, sampleRate: int) returns (wav: array<byte>)
    ensures wav[..] == WavFile(pcmData, numChannels, sampleRate)
  {
    var n := |pcmData|;
    wav := new byte[HEADER_SIZE + n * 2](_ => 0);
    ghost var zeros := wav[..];
    WriteWavHeader(wav, n, numChannels, sampleRate);
    ghost var header := WavHeader(n, numChannels, sampleRate);
    assert pcmData[..0] == [];
    for i := 0 to n
      invariant wav[..] == Overwrite(zeros, 0, header + PcmBytes(pcmData[..i]))
    {
      WriteSample(wav, zeros, header, pcmData, i);
    }
    assert pcmData[..n] == pcmData;
  }

  /** `base64ToArrayBuffer`, given the string `atob` decoded: one byte per character. */
  method Base64ToArrayBuffer(binaryString: string) returns (bytes: array<byte>)
    ensures bytes.Length == |binaryString|
    ensures forall i :: 0 <= i < |binaryString| && binaryString[i] as int < 0x100 ==>
      bytes[i] as int == binaryString[i] as int
    ensures bytes[..] == ByteString(binaryString)
  {
    var len := |binaryString|;
    bytes := new byte[len](_ => 0);
    for i := 0 to len
      invariant forall k :: 0 <= k < i ==> bytes[k] == Uint8(binaryString[k] as int)
    {
      bytes[i] := Uint8(binaryString[i] as int);
    }
  }

  // ------------------------------------------------------------ playback

  /** `/rate=(\d+)/` can match at position `p`: "rate=" followed by at least one digit. */
  predicate RateMatchAt(s: string, p: nat)
  {
    p + 6 <= |s| && s[p..p + 5] == "rate=" && IsDecimalDigit(s[p + 5])
  }

  /** The leftmost position at or after `from` where the rate pattern matches. */
  function FirstRateMatch(s: string, from: nat): (r: Option<nat>)
    decreases |s| - from
    ensures r.Some? ==> from <= r.value && RateMatchAt(s, r.value)
    ensures r.Some? ==> forall q: nat :: from <= q < r.value ==> !RateMatchAt(s, q)
    ensures r.None? ==> forall q: nat :: from <= q ==> !RateMatchAt(s, q)
  {
    if from + 6 > |s| then None
    else if RateMatchAt(s, from) then Some(from)
    else FirstRateMatch(s, from + 1)
  }

  /**
   * The sample rate `playPronunciation` uses: the decimal value of the digit
   * run after the first "rate=<digits>" in the MIME type, else 24000.
   */
  function SampleRate(mimeType: string): (rate: nat)
    ensures (forall p: nat :: !RateMatchAt(mimeType, p)) ==> rate == DEFAULT_SAMPLE_RATE
    ensures forall p: nat :: RateMatchAt(mimeType, p) && (forall q: nat :: q < p ==> !RateMatchAt(mimeType, q)) ==>
      rate == DigitsValue(DigitRun(mimeType[p + 5..], 10), 10)
  {
    match FirstRateMatch(mimeType, 0)
    case None => DEFAULT_SAMPLE_RATE
    case Some(p) => DigitsValue(DigitRun(mimeType[p + 5..], 10), 10)
  }

  /** `audioData && mimeType.startsWith("audio/")`: the gate in front of decoding. */
  predicate ShouldPlay(clip: GeminiService.AudioClip)
  {
    clip.audioData != "" && StartsWith(clip.mimeType, "audio/")
  }

  /**
   * A clip is decoded exactly when it has data and its type begins with
   * "audio/": the relay's PCM type passes, an empty payload or a type such as
   * "application/octet-stream" does not.
   */
  lemma ShouldPlayGate(clip: GeminiService.AudioClip)
    ensures ShouldPlay(clip) <==> clip.audioData != "" && |clip.mimeType| >= 6 && clip.mimeType[..6] == "audio/"
    ensures clip.audioData != "" ==> ShouldPlay(GeminiService.AudioClip(clip.audioData, "audio/L16;codec=pcm;rate=24000"))
    ensures !ShouldPlay(GeminiService.AudioClip("", clip.mimeType))
    ensures !ShouldPlay(GeminiService.AudioClip(clip.audioData, "application/octet-stream"))
  {
    assert "audio/L16;codec=pcm;rate=24000"[..6] == "audio/";
    assert "application/octet-stream"[..6][1] != "audio/"[1];
  }

  /**
   * The WAV file `playPronunciation` plays, if any: `audio` is what `getAudio`
   * settled with, `binaryString` what `atob` made of the payload (`None` when
   * it threw). Every failure is caught and nothing is played.
   */
  function PlaybackWav(audio: Result<GeminiService.AudioClip>, binaryString: Option<string>): (r: Option<seq<byte>>)
    ensures r.Some? ==> audio.Ok? && ShouldPlay(audio.value)
    ensures r.Some? ==> binaryString.Some? && |binaryString.value| % 2 == 0
    ensures r.Some? ==> |r.value| == HEADER_SIZE + |binaryString.value|
    ensures r.Some? ==> ReadUint16(r.value, 22) == 1
    ensures r.Some? ==> ReadUint32(r.value, 24) == SampleRate(audio.value.mimeType) % TWO_32
    ensures r.Some? ==> r.value[HEADER_SIZE..] == ByteString(binaryString.value)
    ensures audio.Ok? && ShouldPlay(audio.value) && binaryString.Some? && |binaryString.value| % 2 == 0 ==> r.Some?
  {
    if audio.Err? || !ShouldPlay(audio.value) || binaryString.None? then None
    else
      match DecodePcm(ByteString(binaryString.value))
      case None => None
      case Some(pcm) =>
        var rate := SampleRate(audio.value.mimeType);
        WavHeaderFields(pcm, 1, rate);
        PcmBytesDecode(ByteString(binaryString.value));
        assert WavFile(pcm, 1, rate)[HEADER_SIZE..] == PcmBytes(pcm);
        Some(WavFile(pcm, 1, rate))
  }

  /** The loading flag of the modal's play button. */
  class PronunciationPlayer {
    var isAudioLoading: bool

    constructor()
      ensures !isAudioLoading
    {
      isAudioLoading := false;
    }

    /** The click handler up to its first await: the button is disabled and the spinner shown. */
    method BeginPlayback()
      modifies this
      ensures isAudioLoading
    {
      isAudioLoading := true;
    }

    /** The rest of the handler once the speech reply has settled; `finally` clears the flag on every path. */
    method FinishPlayback(audio: Result<GeminiService.AudioClip>, binaryString: Option<string>) returns (played: Option<seq<byte>>)
      requires isAudioLoading
      modifies this
      ensures !isAudioLoading
      ensures played == PlaybackWav(audio, binaryString)
    {
      played := None;
      if audio.Ok? && ShouldPlay(audio.value) && binaryString.Some? {
        var sampleRate := SampleRate(audio.value.mimeType);
        var bytes := Base64ToArrayBuffer(binaryString.value);
        var pcm16 := DecodePcm(bytes[..]);
        if pcm16.Some? {
          var wav := PcmToWav(pcm16.value, 1, sampleRate);
          played := Some(wav[..]);
        }
      }
      isAudioLoading := false;
    }
  }
}
