/** The structural check on uploaded PNG files (imageValidation.ts, validateImage): signature, chunk
    boundaries, no animation, nothing after the end.

    The grammar is that of sections 5.2 and 5.3 of the W3C PNG specification, with one difference the code
    makes: chunk types are read as ASCII text, and that decoding drops the top bit of every byte. */
module Png {
  type byte = x: int | 0 <= x < 256

  // ---------- The grammar ----------

  const SIGNATURE: seq<byte> := [137, 80, 78, 71, 13, 10, 26, 10]
  const WORD: int := 0x1_0000_0000

  /** A chunk as section 5.3 lays it out, without its length field, which is that of the data. */
  datatype Chunk = Chunk(ctype: seq<byte>, data: seq<byte>, crc: seq<byte>)

  predicate ChunkOk(c: Chunk) {
    |c.ctype| == 4 && |c.crc| == 4 && |c.data| < WORD
  }

  function WordOf(b0: byte, b1: byte, b2: byte, b3: byte): (n: int)
    ensures 0 <= n < WORD
  {
    b0 * 0x100_0000 + b1 * 0x1_0000 + b2 * 0x100 + b3
  }

  function BigEndian(n: int): (bytes: seq<byte>)
    requires 0 <= n < WORD
    ensures |bytes| == 4 && WordOf(bytes[0], bytes[1], bytes[2], bytes[3]) == n
  {
    var high, low := n / 0x1_0000, n % 0x1_0000;
    [high / 0x100, high % 0x100, low / 0x100, low % 0x100]
  }

  function Encode(c: Chunk): seq<byte>
    requires ChunkOk(c)
  {
    BigEndian(|c.data|) + c.ctype + c.data + c.crc
  }

  predicate AllOk(cs: seq<Chunk>) {
    forall i :: 0 <= i < |cs| ==> ChunkOk(cs[i])
  }

  function EncodeAll(cs: seq<Chunk>): seq<byte>
    requires AllOk(cs)
  {
    if cs == [] then [] else Encode(cs[0]) + EncodeAll(cs[1..])
  }

  /** A chunk type as text: the top bit of each byte is lost. */
  function Ascii(bytes: seq<byte>): (text: seq<byte>)
    ensures |text| == |bytes| && forall i :: 0 <= i < |bytes| ==> text[i] == bytes[i] % 128
  {
    seq(|bytes|, i requires 0 <= i < |bytes| => bytes[i] % 128)
  }

  const IEND: seq<byte> := [73, 69, 78, 68]
  const ACTL: seq<byte> := [97, 99, 84, 76]
  const FCTL: seq<byte> := [102, 99, 84, 76]
  const FDAT: seq<byte> := [102, 100, 65, 84]

  predicate IsEnd(c: Chunk) {
    Ascii(c.ctype) == IEND
  }

  predicate IsAnimation(c: Chunk) {
    Ascii(c.ctype) in {ACTL, FCTL, FDAT}
  }

  /** A static datastream after its signature: well-formed chunks, none of them animated, the first IEND
      last and empty. */
  predicate IsStatic(cs: seq<Chunk>) {
    && cs != [] && AllOk(cs)
    && (forall i :: 0 <= i < |cs| ==> !IsAnimation(cs[i]))
    && (forall i :: 0 <= i < |cs| - 1 ==> !IsEnd(cs[i]))
    && IsEnd(cs[|cs| - 1]) && cs[|cs| - 1].data == []
  }

  ghost predicate IsStaticPng(buffer: seq<byte>) {
    exists cs :: IsStatic(cs) && buffer == SIGNATURE + EncodeAll(cs)
  }

  /** Chunks the loop may have passed: well-formed, not animated, not the end. */
  predicate Passed(cs: seq<Chunk>) {
    AllOk(cs) && forall i :: 0 <= i < |cs| ==> !IsAnimation(cs[i]) && !IsEnd(cs[i])
  }

  // ---------- The check ----------

  /** All reads are in bounds, and each turn consumes at least the 12 bytes of a chunk without data. */
  method ValidatePng(buffer: seq<byte>) returns (ok: bool)
    ensures ok <==> IsStaticPng(buffer)
  {
    hide Encode, EncodeAll, BigEndian, WordOf, IsStaticPng, Passed;
    StartsWithSignature(buffer);
    if |buffer| < 8 || buffer[..8] != SIGNATURE {
      return false;
    }
    var offset := 8;
    ghost var cs: seq<Chunk> := [];
    NothingPassed(buffer);
    while offset + 12 <= |buffer|
      invariant 8 <= offset <= |buffer|
      invariant AllOk(cs) && Passed(cs) && buffer[8..offset] == EncodeAll(cs)
      decreases |buffer| - offset
    {
      HeadFacts(buffer, cs, offset);
      var length := WordOf(buffer[offset], buffer[offset + 1], buffer[offset + 2], buffer[offset + 3]);
      var ctype := Ascii(buffer[offset + 4..offset + 8]);
      if length > |buffer| - offset - 12 || ctype == ACTL || ctype == FCTL || ctype == FDAT {
        return false;
      }
      ghost var start := offset;
      offset := offset + length + 12;
      ghost var c := ChunkAt(buffer, start, length);
      ReadChunk(buffer, start, c);
      if ctype == IEND {
        EndDecides(buffer, cs, c, start, offset);
        return length == 0 && offset == |buffer|;
      }
      PassOne(buffer, cs, c, start, offset);
      cs := cs + [c];
    }
    HeadFacts(buffer, cs, offset);
    return false;
  }

  // ---------- Reading and writing chunks ----------

  ghost function ChunkAt(buffer: seq<byte>, start: nat, length: nat): Chunk
    requires start + 12 + length <= |buffer|
  {
    Chunk(buffer[start + 4..start + 8], buffer[start + 8..start + 8 + length],
        buffer[start + 8 + length..start + 12 + length])
  }

  lemma ReadChunk(buffer: seq<byte>, start: nat, c: Chunk)
    requires start + 12 + |c.data| <= |buffer| && c == ChunkAt(buffer, start, |c.data|)
    requires WordOf(buffer[start], buffer[start + 1], buffer[start + 2], buffer[start + 3]) == |c.data|
    ensures ChunkOk(c) && buffer[start..start + 12 + |c.data|] == Encode(c)
  {
    WordsAreUnique(buffer[start], buffer[start + 1], buffer[start + 2], buffer[start + 3], BigEndian(|c.data|));
    hide WordOf, BigEndian;
    var end := start + 12 + |c.data|;
    assert buffer[start..start + 4] == BigEndian(|c.data|);
    FourParts(buffer, start, start + 4, start + 8, end - 4, end);
  }

  lemma FourParts(buffer: seq<byte>, a: nat, b: nat, c: nat, d: nat, e: nat)
    requires a <= b <= c <= d <= e <= |buffer|
    ensures buffer[a..e] == buffer[a..b] + buffer[b..c] + buffer[c..d] + buffer[d..e]
  {
    assert buffer[a..c] == buffer[a..b] + buffer[b..c];
    assert buffer[a..d] == buffer[a..c] + buffer[c..d];
    assert buffer[a..e] == buffer[a..d] + buffer[d..e];
  }

  lemma WordsAreUnique(b0: byte, b1: byte, b2: byte, b3: byte, c: seq<byte>)
    requires |c| == 4 && WordOf(b0, b1, b2, b3) == WordOf(c[0], c[1], c[2], c[3])
    ensures [b0, b1, b2, b3] == c
  {
  }

  lemma EncodeOne(c: Chunk)
    requires ChunkOk(c)
    ensures EncodeAll([c]) == Encode(c)
  {
  }

  lemma {:induction false} EncodeAllAppend(cs: seq<Chunk>, ds: seq<Chunk>)
    requires AllOk(cs) && AllOk(ds)
    ensures AllOk(cs + ds) && EncodeAll(cs + ds) == EncodeAll(cs) + EncodeAll(ds)
  {
    hide Encode;
    if cs == [] {
      assert cs + ds == ds;
      assert EncodeAll(cs) + EncodeAll(ds) == EncodeAll(ds);
    } else {
      EncodeAllAppend(cs[1..], ds);
      assert (cs + ds)[1..] == cs[1..] + ds;
      assert EncodeAll(cs + ds) == Encode(cs[0]) + EncodeAll(cs[1..] + ds);
      assert Encode(cs[0]) + (EncodeAll(cs[1..]) + EncodeAll(ds)) ==
          (Encode(cs[0]) + EncodeAll(cs[1..])) + EncodeAll(ds);
    }
  }

  /** What a chunk at the head of some bytes tells about them. */
  lemma HeadChunk(bytes: seq<byte>, c: Chunk, rest: seq<byte>)
    requires ChunkOk(c) && bytes == Encode(c) + rest
    ensures |bytes| == 12 + |c.data| + |rest|
    ensures WordOf(bytes[0], bytes[1], bytes[2], bytes[3]) == |c.data|
    ensures bytes[4..8] == c.ctype && bytes[8..8 + |c.data|] == c.data && bytes[8 + |c.data|..12 + |c.data|] == c.crc
    ensures bytes[12 + |c.data|..] == rest
  {
  }

  lemma SameHead(bytes: seq<byte>, c: Chunk, r: seq<byte>, d: Chunk, s: seq<byte>)
    requires ChunkOk(c) && ChunkOk(d) && bytes == Encode(c) + r && bytes == Encode(d) + s
    ensures c == d && r == s
  {
    hide Encode, WordOf;
    HeadChunk(bytes, c, r);
    HeadChunk(bytes, d, s);
  }

  lemma EncodedLength(cs: seq<Chunk>)
    requires AllOk(cs)
    ensures cs == [] <==> |EncodeAll(cs)| == 0
  {
  }

  /** The chunk list is determined by the bytes. */
  lemma {:induction false} DecodingIsUnique(cs: seq<Chunk>, ds: seq<Chunk>)
    requires AllOk(cs) && AllOk(ds) && EncodeAll(cs) == EncodeAll(ds)
    ensures cs == ds
  {
    hide Encode;
    EncodedLength(cs);
    EncodedLength(ds);
    if cs != [] {
      SameHead(EncodeAll(cs), cs[0], EncodeAll(cs[1..]), ds[0], EncodeAll(ds[1..]));
      DecodingIsUnique(cs[1..], ds[1..]);
      assert cs == [cs[0]] + cs[1..] && ds == [ds[0]] + ds[1..];
    }
  }

  /** A static list whose bytes begin like those of some passed chunks begins with these chunks. */
  lemma {:induction false} StaticBeginsWith(all: seq<Chunk>, cs: seq<Chunk>, rest: seq<byte>)
    requires IsStatic(all) && Passed(cs) && EncodeAll(all) == EncodeAll(cs) + rest
    ensures |cs| < |all| && all[..|cs|] == cs && rest == EncodeAll(all[|cs|..])
  {
    hide Encode, Ascii;
    if cs == [] {
      assert EncodeAll(cs) + rest == rest;
      assert all[0..] == all;
    } else {
      var bytes := EncodeAll(all);
      assert bytes == Encode(cs[0]) + (EncodeAll(cs[1..]) + rest);
      SameHead(bytes, all[0], EncodeAll(all[1..]), cs[0], EncodeAll(cs[1..]) + rest);
      TailIsStatic(all);
      StaticBeginsWith(all[1..], cs[1..], rest);
      assert all[..|cs|] == [all[0]] + all[1..][..|cs| - 1];
      assert all[|cs|..] == all[1..][|cs| - 1..];
    }
  }

  lemma TailIsStatic(all: seq<Chunk>)
    requires IsStatic(all) && !IsEnd(all[0])
    ensures IsStatic(all[1..])
  {
  }

  // ---------- Why each exit of the loop is right ----------

  lemma StartsWithSignature(buffer: seq<byte>)
    ensures IsStaticPng(buffer) ==> |buffer| >= 8 && buffer[..8] == SIGNATURE
  {
  }

  lemma NothingPassed(buffer: seq<byte>)
    requires |buffer| >= 8
    ensures Passed([]) && buffer[8..8] == EncodeAll([])
  {
  }

  lemma PassOne(buffer: seq<byte>, cs: seq<Chunk>, c: Chunk, start: nat, offset: nat)
    requires 8 <= start <= offset <= |buffer| && AllOk(cs) && Passed(cs) && ChunkOk(c) && !IsAnimation(c) && !IsEnd(c)
    requires buffer[8..start] == EncodeAll(cs) && buffer[start..offset] == Encode(c)
    ensures Passed(cs + [c]) && AllOk(cs + [c]) && buffer[8..offset] == EncodeAll(cs + [c])
  {
    hide Encode, IsAnimation, IsEnd;
    EncodeAllAppend(cs, [c]);
    EncodeOne(c);
    assert buffer[8..offset] == buffer[8..start] + buffer[start..offset];
  }

  /** If the buffer is a static PNG and `cs` are its leading chunks up to `offset`, what follows is a
      complete chunk and the encoding of the rest. */
  lemma NextChunk(buffer: seq<byte>, cs: seq<Chunk>, offset: nat) returns (c: Chunk, rest: seq<Chunk>)
    requires IsStaticPng(buffer) && 8 <= offset <= |buffer| && AllOk(cs) && Passed(cs)
        && buffer[8..offset] == EncodeAll(cs)
    ensures IsStatic([c] + rest) && ChunkOk(c) && AllOk(rest)
    ensures buffer[offset..] == Encode(c) + EncodeAll(rest)
  {
    hide Encode, EncodeAll, Ascii;
    var all :| IsStatic(all) && buffer == SIGNATURE + EncodeAll(all);
    assert buffer[8..] == EncodeAll(all);
    assert buffer[8..] == buffer[8..offset] + buffer[offset..];
    StaticBeginsWith(all, cs, buffer[offset..]);
    c, rest := all[|cs|], all[|cs| + 1..];
    assert all[|cs|..] == [c] + rest;
    EncodeCons(c, rest);
  }

  lemma EncodeCons(c: Chunk, rest: seq<Chunk>)
    requires ChunkOk(c) && AllOk(rest)
    ensures AllOk([c] + rest) && EncodeAll([c] + rest) == Encode(c) + EncodeAll(rest)
  {
  }

  /** Where a static PNG goes on, a chunk starts: its length fits and its type is not an animation's. */
  lemma HeadFacts(buffer: seq<byte>, cs: seq<Chunk>, offset: nat)
    requires 8 <= offset <= |buffer| && AllOk(cs) && Passed(cs) && buffer[8..offset] == EncodeAll(cs)
    ensures IsStaticPng(buffer) ==>
      && offset + 12 <= |buffer|
      && WordOf(buffer[offset], buffer[offset + 1], buffer[offset + 2], buffer[offset + 3]) <= |buffer| - offset - 12
      && Ascii(buffer[offset + 4..offset + 8]) !in {ACTL, FCTL, FDAT}
  {
    hide Encode, EncodeAll, WordOf, IsStaticPng, Ascii;
    if IsStaticPng(buffer) {
      var c, rest := NextChunk(buffer, cs, offset);
      HeadChunk(buffer[offset..], c, EncodeAll(rest));
      assert buffer[offset..][4..8] == buffer[offset + 4..offset + 8];
      assert ([c] + rest)[0] == c;
    }
  }

  /** At the first IEND the answer is known. */
  lemma EndDecides(buffer: seq<byte>, cs: seq<Chunk>, c: Chunk, start: nat, offset: nat)
    requires 8 <= start && start + 12 + |c.data| == offset <= |buffer|
    requires AllOk(cs) && Passed(cs) && ChunkOk(c) && IsEnd(c) && !IsAnimation(c)
    requires buffer[..8] == SIGNATURE && buffer[8..start] == EncodeAll(cs) && buffer[start..offset] == Encode(c)
    ensures IsStaticPng(buffer) <==> c.data == [] && offset == |buffer|
  {
    hide Encode, Ascii;
    if c.data == [] && offset == |buffer| {
      EndCompletes(buffer, cs, c, start);
    }
    if IsStaticPng(buffer) {
      hide IsStaticPng, EncodeAll;
      var d, rest := NextChunk(buffer, cs, start);
      assert buffer[start..] == Encode(c) + buffer[offset..];
      SameHead(buffer[start..], d, EncodeAll(rest), c, buffer[offset..]);
      assert rest == [] by { assert ([c] + rest)[0] == c; }
      EncodedLength(rest);
      assert ([c] + rest) == [c];
    }
  }

  lemma EndCompletes(buffer: seq<byte>, cs: seq<Chunk>, c: Chunk, start: nat)
    requires AllOk(cs) && Passed(cs) && ChunkOk(c) && IsEnd(c) && !IsAnimation(c) && c.data == []
    requires 8 <= start <= |buffer| && buffer[..8] == SIGNATURE && buffer[8..start] == EncodeAll(cs)
        && buffer[start..] == Encode(c)
    ensures IsStaticPng(buffer)
  {
    hide Encode, Ascii;
    EncodeAllAppend(cs, [c]);
    EncodeOne(c);
    assert IsStatic(cs + [c]);
    assert buffer == buffer[..8] + buffer[8..start] + buffer[start..];
    assert buffer == SIGNATURE + EncodeAll(cs + [c]);
  }

  // ---------- The top bit ----------

  /** A chunk list as the specification has it: types are compared byte for byte. */
  predicate IsStrictlyStatic(cs: seq<Chunk>) {
    && cs != []
    && AllOk(cs)
    && (forall i :: 0 <= i < |cs| ==>
          cs[i].ctype !in {[97, 99, 84, 76], [102, 99, 84, 76], [102, 100, 65, 84]})
    && (forall i :: 0 <= i < |cs| - 1 ==> cs[i].ctype != [73, 69, 78, 68])
    && cs[|cs| - 1].ctype == [73, 69, 78, 68] && cs[|cs| - 1].data == []
  }

  predicate SevenBit(cs: seq<Chunk>) {
    forall i, j :: 0 <= i < |cs| && 0 <= j < |cs[i].ctype| ==> cs[i].ctype[j] < 128
  }

  /** On chunk types within ASCII, as the specification requires them, the check reads them exactly. */
  lemma SevenBitTypesReadExactly(cs: seq<Chunk>)
    requires SevenBit(cs)
    ensures IsStatic(cs) <==> IsStrictlyStatic(cs)
  {
    forall i | 0 <= i < |cs| ensures Ascii(cs[i].ctype) == cs[i].ctype {
    }
  }

  /** A file that is static to the letter. */
  ghost predicate IsStrictPng(buffer: seq<byte>) {
    exists cs :: IsStrictlyStatic(cs) && buffer == [137, 80, 78, 71, 13, 10, 26, 10] + EncodeAll(cs)
  }

  /** Does some chunk read as an animation chunk, or one before the last as the end? */
  predicate MisreadsEarly(cs: seq<Chunk>) {
    || (exists i :: 0 <= i < |cs| && IsAnimation(cs[i]))
    || (exists i :: 0 <= i < |cs| - 1 && IsEnd(cs[i]))
  }

  lemma ExactTypesReadAsThemselves()
    ensures Ascii(IEND) == IEND && Ascii(ACTL) == ACTL && Ascii(FCTL) == FCTL && Ascii(FDAT) == FDAT
  {
  }

  /** An accepted list meets the specification exactly when its last chunk is IEND to the letter. */
  lemma AcceptedIsStrictIffIend(cs: seq<Chunk>)
    requires IsStatic(cs)
    ensures IsStrictlyStatic(cs) <==> cs[|cs| - 1].ctype == [73, 69, 78, 68]
  {
    ExactTypesReadAsThemselves();
    hide Ascii;
  }

  /** A list that meets the specification is accepted exactly when no chunk is misread. */
  lemma StrictIsAcceptedIffNotMisread(cs: seq<Chunk>)
    requires IsStrictlyStatic(cs)
    ensures IsStatic(cs) <==> !MisreadsEarly(cs)
  {
    ExactTypesReadAsThemselves();
    hide Ascii;
  }

  /** The chunks of a file. */
  ghost predicate IsChunking(buffer: seq<byte>, cs: seq<Chunk>) {
    AllOk(cs) && buffer == SIGNATURE + EncodeAll(cs)
  }

  lemma ChunkingIsUnique(buffer: seq<byte>, cs: seq<Chunk>, ds: seq<Chunk>)
    requires IsChunking(buffer, cs) && IsChunking(buffer, ds)
    ensures cs == ds
  {
    hide EncodeAll;
    assert EncodeAll(cs) == buffer[8..] == EncodeAll(ds);
    DecodingIsUnique(cs, ds);
  }

  /** The same of files: where the check and the specification agree, and where they do not. */
  lemma CheckMeetsSpecification(buffer: seq<byte>, cs: seq<Chunk>)
    requires IsChunking(buffer, cs) && cs != []
    ensures IsStaticPng(buffer) ==> (IsStrictPng(buffer) <==> cs[|cs| - 1].ctype == [73, 69, 78, 68])
    ensures IsStrictPng(buffer) ==> (IsStaticPng(buffer) <==> !MisreadsEarly(cs))
  {
    hide EncodeAll, Ascii;
    OnlyTheseChunks(buffer, cs);
    if IsStatic(cs) {
      AcceptedIsStrictIffIend(cs);
    }
    if IsStrictlyStatic(cs) {
      StrictIsAcceptedIffNotMisread(cs);
    }
  }

  lemma OnlyTheseChunks(buffer: seq<byte>, cs: seq<Chunk>)
    requires IsChunking(buffer, cs)
    ensures IsStaticPng(buffer) <==> IsStatic(cs)
    ensures IsStrictPng(buffer) <==> IsStrictlyStatic(cs)
  {
    hide EncodeAll, Ascii;
    if IsStaticPng(buffer) {
      var ds :| IsStatic(ds) && buffer == SIGNATURE + EncodeAll(ds);
      ChunkingIsUnique(buffer, cs, ds);
    }
    if IsStrictPng(buffer) {
      var ds :| IsStrictlyStatic(ds) && buffer == SIGNATURE + EncodeAll(ds);
      ChunkingIsUnique(buffer, cs, ds);
    }
  }

  /** They do differ: this file holds no IEND chunk, yet the check takes it for complete. */
  lemma TopBitIsIgnored() returns (buffer: seq<byte>, cs: seq<Chunk>)
    ensures IsChunking(buffer, cs) && IsStaticPng(buffer) && !IsStrictPng(buffer)
  {
    hide Encode;
    var c := Chunk([73 + 128, 69, 78, 68], [], [0, 0, 0, 0]);
    cs := [c];
    assert Ascii(c.ctype) == IEND;
    assert c.ctype[0] != IEND[0];
    buffer := SIGNATURE + EncodeAll(cs);
    hide EncodeAll;
    OnlyTheseChunks(buffer, cs);
  }
}
