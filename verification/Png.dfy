/**
 The PNG framing check `_is_valid_png` of scripts/release-security.py, against the chunk layout of
 sections 5.2 and 5.3 of the PNG specification. The checksum is a function.
 */
module Png {
  import opened Octets
  import opened Wrappers

  const SIGNATURE: Bytes := [0x89, 0x50, 0x4E, 0x47, 0x0D, 0x0A, 0x1A, 0x0A]
  const IHDR: Bytes := [0x49, 0x48, 0x44, 0x52]
  const IEND: Bytes := [0x49, 0x45, 0x4E, 0x44]

  const WORD: int := 0x1_0000_0000

  /** `int.from_bytes(bytes, "big")`. */
  function FromBig(bytes: Bytes): (n: nat)
    requires |bytes| == 4
    ensures n < WORD
  {
    ((bytes[0] as int * 256 + bytes[1] as int) * 256 + bytes[2] as int) * 256 + bytes[3] as int
  }

  function Big4(n: nat): (bytes: Bytes)
    requires n < WORD
    ensures |bytes| == 4
  {
    [(n / 256 / 256 / 256) as Byte, (n / 256 / 256 % 256) as Byte, (n / 256 % 256) as Byte, (n % 256) as Byte]
  }

  lemma {:induction false} BigRoundTrip(n: nat)
    requires n < WORD
    ensures FromBig(Big4(n)) == n
  {
  }

  lemma {:induction false} BigUnique(b: Bytes)
    requires |b| == 4
    ensures Big4(FromBig(b)) == b
  {
    var high := b[0] as int * 256 + b[1] as int;
    assert FromBig(b) / 256 == high * 256 + b[2] as int;
    assert FromBig(b) / 256 / 256 == high;
  }

  datatype Chunk = Chunk(kind: Bytes, data: Bytes)

  /** The chunk can be written: its length fits a word and its kind has four bytes. */
  predicate Writable(chunk: Chunk) {
    |chunk.kind| == 4 && |chunk.data| < WORD
  }

  function Checksum(chunk: Chunk, crc: Bytes -> nat): (n: nat)
    ensures n < WORD
  {
    crc(chunk.kind + chunk.data) % WORD
  }

  function EncodeChunk(chunk: Chunk, crc: Bytes -> nat): Bytes
    requires Writable(chunk)
  {
    Big4(|chunk.data|) + chunk.kind + chunk.data + Big4(Checksum(chunk, crc))
  }

  predicate AllWritable(chunks: seq<Chunk>) {
    forall c | c in chunks :: Writable(c)
  }

  function Encode(chunks: seq<Chunk>, crc: Bytes -> nat): Bytes
    requires AllWritable(chunks)
  {
    if chunks == [] then [] else EncodeChunk(chunks[0], crc) + Encode(chunks[1..], crc)
  }

  /** Width and height are not zero. */
  predicate HeaderOk(data: Bytes) {
    |data| == 13 && FromBig(data[..4]) != 0 && FromBig(data[4..8]) != 0
  }

  /** One end, the empty last chunk; one header, a valid one, or none if one was `saw` before. */
  ghost predicate Framed(chunks: seq<Chunk>, saw: bool) {
    && chunks != []
    && chunks[|chunks| - 1] == Chunk(IEND, [])
    && (forall i | 0 <= i < |chunks| - 1 :: chunks[i].kind != IEND)
    && if saw then NoHeader(chunks) else exists h | 0 <= h < |chunks| :: OnlyHeader(chunks, h)
  }

  predicate OnlyHeader(chunks: seq<Chunk>, h: nat)
    requires h < |chunks|
  {
    && chunks[h].kind == IHDR && HeaderOk(chunks[h].data)
    && forall i | 0 <= i < |chunks| && chunks[i].kind == IHDR :: i == h
  }

  /** The file is the signature and these chunks. */
  ghost predicate Frames(data: Bytes, chunks: seq<Chunk>, crc: Bytes -> nat) {
    AllWritable(chunks) && data == SIGNATURE + Encode(chunks, crc) && Framed(chunks, false)
  }

  // ---- The walk ----

  /** The chunk at a position; none if it does not fit or its checksum differs. */
  function ReadAt(data: Bytes, position: nat, crc: Bytes -> nat): (chunk: Option<Chunk>)
    requires position <= |data|
    ensures chunk.Some? ==> Writable(chunk.value) && position + 12 + |chunk.value.data| <= |data|
  {
    if position + 12 > |data| || position + 12 + FromBig(data[position..position + 4]) > |data| then None
    else
      var chunk := ChunkAt(data, position);
      var end := position + 12 + |chunk.data|;
      if Checksum(chunk, crc) == FromBig(data[end - 4..end]) then Some(chunk) else None
  }

  function ChunkAt(data: Bytes, position: nat): (chunk: Chunk)
    requires position + 12 <= |data| && position + 12 + FromBig(data[position..position + 4]) <= |data|
    ensures Writable(chunk) && |chunk.data| == FromBig(data[position..position + 4])
  {
    Chunk(data[position + 4..position + 8], data[position + 8..position + 8 + FromBig(data[position..position + 4])])
  }

  function Reader(data: Bytes, crc: Bytes -> nat): nat -> Option<Chunk> {
    (position: nat) => if position <= |data| then ReadAt(data, position, crc) else None
  }

  /** The loop from a position on; `saw` says that a header came before. */
  predicate Accepts(read: nat -> Option<Chunk>, size: nat, position: nat, saw: bool)
    decreases size - position
  {
    read(position).Some? && position + 12 + |read(position).value.data| <= size &&
    var chunk := read(position).value;
    var end := position + 12 + |chunk.data|;
    if chunk.kind == IHDR then !saw && HeaderOk(chunk.data) && Accepts(read, size, end, true)
    else if chunk.kind == IEND then saw && chunk.data == [] && end == size
    else Accepts(read, size, end, saw)
  }

  /** A chunk is encoded where it was read. */
  lemma {:induction false} ChunkEncodes(data: Bytes, position: nat, crc: Bytes -> nat)
    requires position <= |data| && ReadAt(data, position, crc).Some?
    ensures var c := ReadAt(data, position, crc).value;
            data[position..] == EncodeChunk(c, crc) + data[position + 12 + |c.data|..]
  {
    var n := FromBig(data[position..position + 4]);
    BigUnique(data[position..position + 4]);
    BigUnique(data[position + 8 + n..position + 12 + n]);
    assert data[position..]
           == data[position..position + 4] + data[position + 4..position + 8] + data[position + 8..position + 8 + n]
                               + data[position + 8 + n..position + 12 + n] + data[position + 12 + n..];
  }

  /** An encoded chunk is read where it was encoded. */
  lemma {:induction false} EncodedChunkReads(data: Bytes, position: nat, c: Chunk, tail: Bytes, crc: Bytes -> nat)
    requires Writable(c) && position <= |data| && data[position..] == EncodeChunk(c, crc) + tail
    ensures ReadAt(data, position, crc) == Some(c)
    ensures data[position + 12 + |c.data|..] == tail
  {
    var rest, n := data[position..], |c.data|;
    BigRoundTrip(n);
    BigRoundTrip(Checksum(c, crc));
    assert data[position..position + 4] == rest[..4] == Big4(n);
    assert data[position + 4..position + 8] == rest[4..8] == c.kind;
    assert data[position + 8..position + 8 + n] == rest[8..8 + n] == c.data;
    assert data[position + 8 + n..position + 12 + n] == rest[8 + n..12 + n] == Big4(Checksum(c, crc));
    assert data[position + 12 + n..] == rest[12 + n..] == tail;
  }

  /** The same walk over a list of chunks. */
  predicate EndsWell(chunks: seq<Chunk>, saw: bool) {
    chunks != [] &&
    if chunks[0].kind == IEND then saw && chunks[0].data == [] && |chunks| == 1
    else if chunks[0].kind == IHDR then !saw && HeaderOk(chunks[0].data) && EndsWell(chunks[1..], true)
    else EndsWell(chunks[1..], saw)
  }

  /** The reader finds these chunks one behind the other, and then the end. */
  predicate Reads(read: nat -> Option<Chunk>, size: nat, position: nat, chunks: seq<Chunk>)
    decreases |chunks|
  {
    if chunks == [] then position == size
    else
      && read(position) == Some(chunks[0]) && position + 12 + |chunks[0].data| <= size
      && Reads(read, size, position + 12 + |chunks[0].data|, chunks[1..])
  }

  lemma {:induction false} AcceptedReads(
      read: nat -> Option<Chunk>, size: nat, position: nat, saw: bool)
    returns (chunks: seq<Chunk>)
    requires Accepts(read, size, position, saw)
    ensures Reads(read, size, position, chunks) && EndsWell(chunks, saw)
    decreases size - position
  {
    var c := read(position).value;
    if c.kind == IEND {
      chunks := [c];
      assert Reads(read, size, size, chunks[1..]);
    } else {
      var others := AcceptedReads(read, size, position + 12 + |c.data|, saw || c.kind == IHDR);
      chunks := [c] + others;
      assert chunks[1..] == others;
    }
  }

  lemma {:induction false} ReadsEncode(data: Bytes, position: nat, chunks: seq<Chunk>, crc: Bytes -> nat)
    requires position <= |data| && Reads(Reader(data, crc), |data|, position, chunks)
    ensures AllWritable(chunks) && data[position..] == Encode(chunks, crc)
    decreases |chunks|
  {
    if chunks != [] {
      var end := position + 12 + |chunks[0].data|;
      ReadsEncode(data, end, chunks[1..], crc);
      ChunkEncodes(data, position, crc);
      assert chunks == [chunks[0]] + chunks[1..];
    }
  }

  lemma {:induction false} EncodedReads(data: Bytes, position: nat, chunks: seq<Chunk>, crc: Bytes -> nat)
    requires AllWritable(chunks) && position <= |data| && data[position..] == Encode(chunks, crc)
    ensures Reads(Reader(data, crc), |data|, position, chunks)
    decreases |chunks|
  {
    if chunks != [] {
      EncodedChunkReads(data, position, chunks[0], Encode(chunks[1..], crc), crc);
      EncodedReads(data, position + 12 + |chunks[0].data|, chunks[1..], crc);
    }
  }

  lemma {:induction false} ReadAccepted(
      read: nat -> Option<Chunk>, size: nat, position: nat, chunks: seq<Chunk>, saw: bool)
    requires Reads(read, size, position, chunks) && EndsWell(chunks, saw)
    ensures Accepts(read, size, position, saw)
    decreases |chunks|
  {
    var end := position + 12 + |chunks[0].data|;
    if chunks[0].kind == IHDR {
      ReadAccepted(read, size, end, chunks[1..], true);
    } else if chunks[0].kind != IEND {
      ReadAccepted(read, size, end, chunks[1..], saw);
    }
  }

  predicate NoHeader(chunks: seq<Chunk>) {
    forall i | 0 <= i < |chunks| :: chunks[i].kind != IHDR
  }

  lemma {:induction false} EndsWellMeans(chunks: seq<Chunk>, saw: bool)
    ensures EndsWell(chunks, saw) <==> Framed(chunks, saw)
  {
    if |chunks| >= 2 && chunks[0].kind != IEND {
      EndsWellMeans(chunks[1..], saw || chunks[0].kind == IHDR);
      FramedShifts(chunks, saw);
    } else if chunks != [] && chunks[0].kind == IEND {
      assert Framed(chunks, saw) ==> |chunks| == 1;
    }
  }

  lemma {:induction false} FramedShifts(chunks: seq<Chunk>, saw: bool)
    requires |chunks| >= 2 && chunks[0].kind != IEND
    ensures Framed(chunks, saw) <==>
            if chunks[0].kind == IHDR then !saw && HeaderOk(chunks[0].data) && Framed(chunks[1..], true)
            else Framed(chunks[1..], saw)
  {
    var rest := chunks[1..];
    assert forall i | 0 < i < |chunks| :: chunks[i] == rest[i - 1];
    assert forall i | 0 <= i < |rest| :: rest[i] == chunks[i + 1];
    if chunks[0].kind == IHDR {
      assert forall h | 0 < h < |chunks| :: !OnlyHeader(chunks, h);
      assert OnlyHeader(chunks, 0) <==> HeaderOk(chunks[0].data) && NoHeader(rest);
    } else {
      assert NoHeader(chunks) <==> NoHeader(rest);
      if h :| 0 <= h < |chunks| && OnlyHeader(chunks, h) {
        assert OnlyHeader(rest, h - 1);
      }
      if h :| 0 <= h < |rest| && OnlyHeader(rest, h) {
        assert OnlyHeader(chunks, h + 1);
      }
    }
  }

  /**
   `_is_valid_png`. It accepts exactly the byte strings that are the signature followed by well framed
   chunks with matching checksums.
   */
  method IsValidPng(data: Bytes, crc: Bytes -> nat) returns (valid: bool)
    ensures valid <==> exists chunks: seq<Chunk> :: Frames(data, chunks, crc)
  {
    AcceptsExactly(data, crc);
    if !(SIGNATURE <= data) { return false; }
    valid := WalkChunks(|data|, Reader(data, crc));
  }

  /** The loop over the chunks, which are read at their positions. */
  method WalkChunks(size: nat, read: nat -> Option<Chunk>) returns (valid: bool)
    requires size >= 8
    ensures valid == Accepts(read, size, 8, false)
  {
    var position := 8;
    var sawIhdr := false;
    while position < size
      invariant 8 <= position <= size
      invariant Accepts(read, size, 8, false) == Accepts(read, size, position, sawIhdr)
    {
      var chunk := read(position);
      if chunk.None? { return false; }
      var end := position + 12 + |chunk.value.data|;
      if end > size { return false; }
      if chunk.value.kind == IHDR {
        if sawIhdr || !HeaderOk(chunk.value.data) { return false; }
        sawIhdr := true;
      }
      if chunk.value.kind == IEND { return sawIhdr && chunk.value.data == [] && end == size; }
      position := end;
    }
    return false;
  }

  lemma {:induction false} AcceptsExactly(data: Bytes, crc: Bytes -> nat)
    ensures (exists chunks: seq<Chunk> :: Frames(data, chunks, crc)) <==>
            SIGNATURE <= data && Accepts(Reader(data, crc), |data|, 8, false)
  {
    if exists chunks: seq<Chunk> :: Frames(data, chunks, crc) {
      var chunks: seq<Chunk> :| Frames(data, chunks, crc);
      EndsWellMeans(chunks, false);
      assert data[8..] == Encode(chunks, crc);
      EncodedReads(data, 8, chunks, crc);
      ReadAccepted(Reader(data, crc), |data|, 8, chunks, false);
    }
    if SIGNATURE <= data && Accepts(Reader(data, crc), |data|, 8, false) {
      var chunks := AcceptedReads(Reader(data, crc), |data|, 8, false);
      ReadsEncode(data, 8, chunks, crc);
      EndsWellMeans(chunks, false);
      assert data == SIGNATURE + data[8..];
      assert Frames(data, chunks, crc);
    }
  }

  // ---- The bytes of an accepted file ----

  /** Where the k-th chunk starts when the first one starts at `position`. */
  function Start(position: nat, chunks: seq<Chunk>, k: nat): nat
    requires k <= |chunks|
    decreases k
  {
    if k == 0 then position else Start(position + 12 + |chunks[0].data|, chunks[1..], k - 1)
  }

  lemma {:induction false} ReadsEach(read: nat -> Option<Chunk>, size: nat, position: nat, chunks: seq<Chunk>, k: nat)
    requires Reads(read, size, position, chunks) && k < |chunks|
    ensures read(Start(position, chunks, k)) == Some(chunks[k])
    ensures Start(position, chunks, k) + 12 + |chunks[k].data| == Start(position, chunks, k + 1) <= size
    ensures k + 1 == |chunks| ==> Start(position, chunks, k + 1) == size
    decreases k
  {
    if k > 0 { ReadsEach(read, size, position + 12 + |chunks[0].data|, chunks[1..], k - 1); }
  }

  /** The number that four bytes spell, most significant first. */
  function WordAt(data: Bytes, position: nat): int
    requires position + 4 <= |data|
  {
    0x100_0000 * data[position] as int + 0x1_0000 * data[position + 1] as int
    + 0x100 * data[position + 2] as int + data[position + 3] as int
  }

  /**
   The bytes of one chunk: the length of its data, four bytes of type, the data, and the low 32 bits of the
   checksum of type and data.
   */
  predicate IsChunkAt(data: Bytes, start: nat, chunk: Chunk, crc: Bytes -> nat) {
    var n := |chunk.data|;
    && start + 12 + n <= |data| && WordAt(data, start) == n
    && data[start + 4..start + 8] == chunk.kind && data[start + 8..start + 8 + n] == chunk.data
    && WordAt(data, start + 8 + n) == crc(data[start + 4..start + 8 + n]) % 0x1_0000_0000
  }

  /** The chunks of an accepted file lie one behind the other, and every one is what its bytes say. */
  lemma {:induction false} AcceptedBytes(data: Bytes, chunks: seq<Chunk>, crc: Bytes -> nat, k: nat)
    requires Frames(data, chunks, crc) && k < |chunks|
    ensures IsChunkAt(data, Start(8, chunks, k), chunks[k], crc)
    ensures Start(8, chunks, k) + 12 + |chunks[k].data| == Start(8, chunks, k + 1) <= |data|
  {
    AcceptedReadsEach(data, chunks, crc, k);
    ChunkBytes(data, Start(8, chunks, k), chunks[k], crc);
  }

  /**
   An accepted file starts with the signature. A header has 13 bytes of data, with width and height not zero; the
   end is the last chunk, without data, and the file ends with it.
   */
  lemma {:induction false} AcceptedKinds(data: Bytes, chunks: seq<Chunk>, crc: Bytes -> nat, k: nat)
    requires Frames(data, chunks, crc) && k < |chunks|
    ensures data[..8] == [137, 80, 78, 71, 13, 10, 26, 10]
    ensures chunks[k].kind == [73, 72, 68, 82] ==>
              |chunks[k].data| == 13 && WordAt(chunks[k].data, 0) != 0 && WordAt(chunks[k].data, 4) != 0
    ensures k == |chunks| - 1 <==> chunks[k].kind == [73, 69, 78, 68]
    ensures k == |chunks| - 1 ==> chunks[k].data == [] && Start(8, chunks, k) + 12 == |data|
  {
    AcceptedReadsEach(data, chunks, crc, k);
    FramedKinds(chunks, k);
    if |chunks[k].data| == 13 {
      WordsAgree(chunks[k].data, 0);
      WordsAgree(chunks[k].data, 4);
    }
    assert data[..8] == SIGNATURE;
  }

  lemma {:induction false} AcceptedReadsEach(data: Bytes, chunks: seq<Chunk>, crc: Bytes -> nat, k: nat)
    requires Frames(data, chunks, crc) && k < |chunks|
    ensures Start(8, chunks, k) + 12 + |chunks[k].data| == Start(8, chunks, k + 1) <= |data|
    ensures ReadAt(data, Start(8, chunks, k), crc) == Some(chunks[k])
    ensures k + 1 == |chunks| ==> Start(8, chunks, k + 1) == |data|
  {
    assert data[8..] == Encode(chunks, crc);
    EncodedReads(data, 8, chunks, crc);
    ReadsEach(Reader(data, crc), |data|, 8, chunks, k);
  }

  lemma {:induction false} FramedKinds(chunks: seq<Chunk>, k: nat)
    requires Framed(chunks, false) && k < |chunks|
    ensures chunks[k].kind == IHDR ==> HeaderOk(chunks[k].data)
    ensures k == |chunks| - 1 <==> chunks[k].kind == IEND
    ensures k == |chunks| - 1 ==> chunks[k].data == []
  {
  }

  lemma {:induction false} ChunkBytes(data: Bytes, start: nat, chunk: Chunk, crc: Bytes -> nat)
    requires start <= |data| && ReadAt(data, start, crc) == Some(chunk)
    ensures IsChunkAt(data, start, chunk, crc)
  {
    WordsAgree(data, start);
    WordsAgree(data, start + 8 + |chunk.data|);
    assert data[start + 4..start + 8 + |chunk.data|] == chunk.kind + chunk.data;
  }

  lemma {:induction false} WordsAgree(data: Bytes, position: nat)
    requires position + 4 <= |data|
    ensures FromBig(data[position..position + 4]) == WordAt(data, position)
  {
  }

  /** An accepted file decodes in one way only. */
  lemma {:induction false} DecodingUnique(data: Bytes, a: seq<Chunk>, b: seq<Chunk>, crc: Bytes -> nat)
    requires Frames(data, a, crc) && Frames(data, b, crc)
    ensures a == b
  {
    assert Encode(a, crc) == data[8..] == Encode(b, crc);
    EncodeInjective(data, 8, a, b, crc);
  }

  lemma {:induction false} EncodeInjective(data: Bytes, position: nat, a: seq<Chunk>, b: seq<Chunk>, crc: Bytes -> nat)
    requires AllWritable(a) && AllWritable(b) && position <= |data|
    requires data[position..] == Encode(a, crc) == Encode(b, crc)
    ensures a == b
    decreases |a|
  {
    if a != [] && b != [] {
      EncodedChunkReads(data, position, a[0], Encode(a[1..], crc), crc);
      EncodedChunkReads(data, position, b[0], Encode(b[1..], crc), crc);
      EncodeInjective(data, position + 12 + |a[0].data|, a[1..], b[1..], crc);
      assert a == [a[0]] + a[1..] && b == [b[0]] + b[1..];
    }
  }

  /** Unlike section 5.6 of the PNG specification, the check does not ask for the header to come first. */
  lemma {:induction false} HeaderMayComeLate(other: Chunk, header: Chunk, crc: Bytes -> nat)
    requires Writable(other) && other.kind != IHDR && other.kind != IEND
    requires header.kind == IHDR && HeaderOk(header.data)
    ensures var chunks := [other, header, Chunk(IEND, [])];
            AllWritable(chunks) && Frames(SIGNATURE + Encode(chunks, crc), chunks, crc)
  {
    assert OnlyHeader([other, header, Chunk(IEND, [])], 1);
  }
}
