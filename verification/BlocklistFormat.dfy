/** The binary format of blocklist.bin: crates/nilbox-blocklist/src/format.rs.
    SHA-256 is any function from byte strings to 32 bytes. */
module BlocklistFormat {
  import opened Bytes

  datatype Header = Header(
    magic: seq<byte>,
    formatVersion: u16,
    categoryFlags: byte,
    reserved: byte,
    domainCount: u32,
    fpRateMillionths: u32,
    numHashFunctions: u32,
    bitArrayLenBytes: u32,
    buildTimestamp: u64,
    contentSha256: seq<byte>)

  datatype Result<T> = Ok(value: T) | Err

  datatype File = File(header: Header, bits: seq<byte>, signature: seq<byte>)

  const MAGIC: seq<byte> := [78, 66, 76, 75]
  const FORMAT_VERSION := 1
  const HEADER_SIZE := 64
  const SIG_SIZE := 64

  type Sha = seq<byte> -> seq<byte>

  /** The fixed-size arrays of the header have their sizes. */
  predicate Shaped(h: Header) { |h.magic| == 4 && |h.contentSha256| == 32 }

  function ToBytes(h: Header): (b: seq<byte>)
    requires Shaped(h)
    ensures |b| == HEADER_SIZE
  {
    h.magic + Le(h.formatVersion, 2) + [h.categoryFlags] + [h.reserved] + Le(h.domainCount, 4)
    + Le(h.fpRateMillionths, 4) + Le(h.numHashFunctions, 4) + Le(h.bitArrayLenBytes, 4)
    + Le(h.buildTimestamp, 8) + h.contentSha256
  }

  function U16At(b: seq<byte>, i: nat): u16
    requires i + 2 <= |b|
  {
    LeValBound(b[i..i + 2]);
    FieldBounds();
    LeVal(b[i..i + 2])
  }

  function U32At(b: seq<byte>, i: nat): u32
    requires i + 4 <= |b|
  {
    LeValBound(b[i..i + 4]);
    FieldBounds();
    LeVal(b[i..i + 4])
  }

  function U64At(b: seq<byte>, i: nat): u64
    requires i + 8 <= |b|
  {
    LeValBound(b[i..i + 8]);
    FieldBounds();
    LeVal(b[i..i + 8])
  }

  function FromBytes(b: seq<byte>): Result<Header> {
    if |b| < HEADER_SIZE then Err
    else if b[0..4] != MAGIC then Err
    else if U16At(b, 4) != FORMAT_VERSION then Err
    else Ok(Header(b[0..4], U16At(b, 4), b[6], b[7], U32At(b, 8), U32At(b, 12), U32At(b, 16), U32At(b, 20),
                   U64At(b, 24), b[32..64]))
  }

  function SignableBytes(h: Header, bits: seq<byte>): seq<byte>
    requires Shaped(h)
  {
    ToBytes(h) + bits
  }

  function Serialize(f: File): seq<byte>
    requires Shaped(f.header)
  {
    ToBytes(f.header) + f.bits + f.signature
  }

  function Deserialize(sha: Sha, data: seq<byte>): Result<File> {
    if |data| < HEADER_SIZE + SIG_SIZE then Err
    else match FromBytes(data[..HEADER_SIZE])
      case Err => Err
      case Ok(header) =>
        var bitLen := header.bitArrayLenBytes;
        if |data| != HEADER_SIZE + bitLen + SIG_SIZE then Err
        else
          var bits := data[HEADER_SIZE..HEADER_SIZE + bitLen];
          if sha(bits) != header.contentSha256 then Err
          else Ok(File(header, bits, data[HEADER_SIZE + bitLen..]))
  }

  // ----- headers -----

  lemma HeaderLayout(h: Header)
    requires Shaped(h)
    ensures var b := ToBytes(h);
      && b[0..4] == h.magic && b[4..6] == Le(h.formatVersion, 2) && b[6] == h.categoryFlags && b[7] == h.reserved
      && b[8..12] == Le(h.domainCount, 4) && b[12..16] == Le(h.fpRateMillionths, 4)
      && b[16..20] == Le(h.numHashFunctions, 4) && b[20..24] == Le(h.bitArrayLenBytes, 4)
      && b[24..32] == Le(h.buildTimestamp, 8) && b[32..64] == h.contentSha256
  {
    Layout(h.magic, Le(h.formatVersion, 2), h.categoryFlags, h.reserved, Le(h.domainCount, 4), Le(h.fpRateMillionths, 4),
           Le(h.numHashFunctions, 4), Le(h.bitArrayLenBytes, 4), Le(h.buildTimestamp, 8), h.contentSha256);
  }

  lemma Layout(m: seq<byte>, v: seq<byte>, flags: byte, res: byte, c: seq<byte>, f: seq<byte>, n: seq<byte>, l: seq<byte>,
               t: seq<byte>, d: seq<byte>)
    requires |m| == |c| == |f| == |n| == |l| == 4 && |v| == 2 && |t| == 8 && |d| == 32
    ensures var b := m + v + [flags] + [res] + c + f + n + l + t + d;
      && |b| == HEADER_SIZE && b[0..4] == m && b[4..6] == v && b[6] == flags && b[7] == res && b[8..12] == c
      && b[12..16] == f && b[16..20] == n && b[20..24] == l && b[24..32] == t && b[32..64] == d
  {
  }

  /** A header is read back from its bytes exactly when its magic and version are right. */
  lemma HeaderRoundTrip(h: Header)
    requires Shaped(h)
    ensures FromBytes(ToBytes(h)) == Ok(h) <==> h.magic == MAGIC && h.formatVersion == FORMAT_VERSION
  {
    HeaderLayout(h);
    FieldBounds();
    LeRoundTrip(h.formatVersion, 2);
    LeRoundTrip(h.domainCount, 4);
    LeRoundTrip(h.fpRateMillionths, 4);
    LeRoundTrip(h.numHashFunctions, 4);
    LeRoundTrip(h.bitArrayLenBytes, 4);
    LeRoundTrip(h.buildTimestamp, 8);
  }

  /** An accepted header re-serialises to the same 64 bytes. */
  lemma HeaderBytesKept(b: seq<byte>)
    requires |b| == HEADER_SIZE && FromBytes(b).Ok?
    ensures Shaped(FromBytes(b).value) && ToBytes(FromBytes(b).value) == b
  {
    LeOfVal(b[4..6]);
    LeOfVal(b[8..12]);
    LeOfVal(b[12..16]);
    LeOfVal(b[16..20]);
    LeOfVal(b[20..24]);
    LeOfVal(b[24..32]);
    Pieces(b);
  }

  lemma Pieces(b: seq<byte>)
    requires |b| == HEADER_SIZE
    ensures b == b[0..4] + b[4..6] + [b[6]] + [b[7]] + b[8..12] + b[12..16] + b[16..20] + b[20..24] + b[24..32] + b[32..64]
  {
  }

  // ----- files -----

  /** What the builder establishes: the header describes the bit array. */
  predicate Consistent(sha: Sha, f: File) {
    && f.header.magic == MAGIC && f.header.formatVersion == FORMAT_VERSION
    && f.header.bitArrayLenBytes == |f.bits| && f.header.contentSha256 == sha(f.bits)
    && |f.signature| == SIG_SIZE
  }

  /** A file is read back exactly when it is consistent. */
  lemma FileRoundTrip(sha: Sha, f: File)
    requires Shaped(f.header)
    ensures Deserialize(sha, Serialize(f)) == Ok(f) <==> Consistent(sha, f)
  {
    var data := Serialize(f);
    HeaderRoundTrip(f.header);
    assert data[..HEADER_SIZE] == ToBytes(f.header);
    if f.header.bitArrayLenBytes == |f.bits| {
      assert data[HEADER_SIZE..HEADER_SIZE + |f.bits|] == f.bits;
      assert data[HEADER_SIZE + |f.bits|..] == f.signature;
    }
  }

  /** Any accepted file re-serialises to the same bytes, and the bytes its signature covers
      are the file without the signature. */
  lemma AcceptedFileKept(sha: Sha, data: seq<byte>)
    requires Deserialize(sha, data).Ok?
    ensures var f := Deserialize(sha, data).value;
      && Shaped(f.header) && Consistent(sha, f) && Serialize(f) == data
      && SignableBytes(f.header, f.bits) == data[..|data| - SIG_SIZE]
  {
    var f := Deserialize(sha, data).value;
    HeaderBytesKept(data[..HEADER_SIZE]);
    ThreeParts(data, HEADER_SIZE, |data| - SIG_SIZE);
  }

  lemma ThreeParts(data: seq<byte>, a: nat, b: nat)
    requires a <= b <= |data|
    ensures data == data[..a] + data[a..b] + data[b..] && data[..b] == data[..a] + data[a..b]
  {
  }
}
