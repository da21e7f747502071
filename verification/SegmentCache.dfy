/**
 The chunk side of blockfiles.BlockFiles: files by chunk index, and up to 64 unpacked segments kept
 by (chunk, offset). Reading through the cache is reading the file, except after a chunk was saved with
 other bytes than before while a segment of it is cached: deleting a chunk does not clear the cache.
 */
module SegmentCache {
  import opened Types
  import opened ChunkFile
  import Codec
  import Encoding

  /** One cached segment; `length` is the stored length it was read with. */
  datatype Segment = Segment(chunk: nat, offset: nat, length: nat, blocks: seq<Bytes>)

  const CACHED_SEGMENTS: nat := 64

  class BlockFiles {
    const z: Tools
    var files: map<nat, Bytes>
    var segments: seq<Segment>  // least recently used first
    ghost var saved: map<nat, Bytes>  // the bytes last saved for each chunk, deleted since or not

    ghost predicate Valid()
      reads this
    {
      && |segments| <= CACHED_SEGMENTS
      && forall i, j :: 0 <= i < j < |segments| ==>
        (segments[i].chunk, segments[i].offset) != (segments[j].chunk, segments[j].offset)
    }

    /** A cached segment is what the file holds there. */
    ghost predicate Agrees(s: Segment, file: Bytes) {
      s.offset + s.length <= |file| &&
        Unpacked(z, file[s.offset..s.offset + s.length], MAX_SEGMENT_BYTES) == Ok(s.blocks)
    }

    /** Every cached segment is what was last saved there, and so is every file. */
    ghost predicate Fresh()
      reads this
    {
      && (forall s :: s in segments ==> s.chunk in saved && Agrees(s, saved[s.chunk]))
      && (forall index :: index in files ==> index in saved && files[index] == saved[index])
    }

    constructor (z: Tools)
      ensures this.z == z && Valid() && Fresh() && files == map[] && segments == [] && saved == map[]
    {
      this.z, files, segments, saved := z, map[], [], map[];
    }

    predicate Caches(index: nat)
      reads this
    {
      exists s :: s in segments && s.chunk == index
    }

    /** save_chunk_bytes, and the end of write_chunk. The cache stays right if no segment of this chunk is
        cached or the chunk had the same bytes before, and in general exactly if the cached segments agree
        with the new bytes. */
    method SaveChunk(index: nat, data: Bytes)
      requires Valid()
      modifies this`files, this`saved
      ensures files == old(files)[index := data] && saved == old(saved)[index := data] && Valid()
      ensures old(Fresh()) && (!Caches(index) || (index in old(saved) && old(saved)[index] == data)) ==> Fresh()
      ensures old(Fresh()) ==> (Fresh() <==> forall s :: s in segments && s.chunk == index ==> Agrees(s, data))
    {
      files := files[index := data];
      saved := saved[index := data];
    }

    /** delete_chunk */
    method DeleteChunk(index: nat)
      requires Valid()
      modifies this`files
      ensures files == old(files) - {index} && Valid() && (old(Fresh()) ==> Fresh())
    {
      files := files - {index};
    }

    /** A location of a stored file, of the length its segment was ever read with. */
    ghost predicate Proper(l: ChunkLocation)
      reads this
    {
      && l.chunk in files && l.segmentOffset + l.segmentLength <= |files[l.chunk]|
      && forall s :: s in segments && s.chunk == l.chunk && s.offset == l.segmentOffset ==> s.length == l.segmentLength
    }

    method Find(l: ChunkLocation) returns (found: Option<nat>)
      ensures found.Some? ==> found.value < |segments|
      ensures found.Some? ==>
        segments[found.value].chunk == l.chunk && segments[found.value].offset == l.segmentOffset
      ensures found.None? ==> forall s :: s in segments ==> s.chunk != l.chunk || s.offset != l.segmentOffset
    {
      for i := 0 to |segments|
        invariant forall j :: 0 <= j < i ==> segments[j].chunk != l.chunk || segments[j].offset != l.segmentOffset
      {
        if segments[i].chunk == l.chunk && segments[i].offset == l.segmentOffset { return Some(i); }
      }
      found := None;
    }

    function Picked(blocks: seq<Bytes>, position: nat): Option<Bytes> {
      if position < |blocks| then Some(blocks[position]) else None
    }

    /** read_from_chunk: a cached segment answers, whatever is in the file now; while the cache is right, that
        is what the file holds. */
    method ReadFromChunk(l: ChunkLocation) returns (r: Option<Bytes>)
      requires Valid()
      modifies this`segments
      ensures Valid() && (old(Fresh()) ==> Fresh())
      ensures old(Fresh() && Proper(l)) ==> Proper(l) && r == ReadAt(z, files[l.chunk], l)
      ensures forall s :: s in old(segments) && s.chunk == l.chunk && s.offset == l.segmentOffset ==>
        r == Picked(s.blocks, l.position)
      ensures r.Some? ==> exists s :: s in segments && s.chunk == l.chunk && s.offset == l.segmentOffset
                                      && r == Picked(s.blocks, l.position)
    {
      hide Unpacked;
      var found := Find(l);
      if found.Some? {
        var s := segments[found.value];
        assert s in segments;
        ghost var was := segments;
        segments := segments[..found.value] + segments[found.value + 1..] + [s];
        MovedToEnd(was, found.value, segments);
        return Picked(s.blocks, l.position);
      }
      if l.chunk !in files { return None; }
      var data := files[l.chunk];
      if l.segmentOffset + l.segmentLength > |data| { return None; }
      var group := UnpackSegment(z, data[l.segmentOffset..l.segmentOffset + l.segmentLength], MAX_SEGMENT_BYTES);
      if group.Err? { return None; }
      var s := Segment(l.chunk, l.segmentOffset, l.segmentLength, group.value);
      segments := segments + [s];
      assert s in segments;
      if |segments| > CACHED_SEGMENTS { segments := segments[1..]; }
      r := Picked(s.blocks, l.position);
    }
  }

  /** The first block's location depends on the number of blocks only, but for the length of its segment. */
  lemma FirstLocation(z: Tools, s: Source)
    requires s.blocks != []
    ensures var ls := ChunkOf(z, s.networkId, s.index, s.firstHeight, s.blocks).locations;
      |ls| > 0 && ls[0].chunk == s.index && ls[0].position == 0
      && ls[0].segmentOffset == HEADER_BYTES + 12 * ((|s.blocks| + SEGMENT_BLOCKS - 1) / SEGMENT_BLOCKS)
  {
    hide PackSegment;
    GroupsFacts(s.blocks);
    RowsCount(Segments(z, Groups(s.blocks)), HEADER_BYTES + 12 * |Groups(s.blocks)|);
  }

  function FileOf(z: Tools, s: Source): Bytes { Sealed(z, BodyOf(z, s.networkId, s.index, s.firstHeight, s.blocks)) }

  /** A chunk is saved, its first block read, the chunk deleted and saved again with other blocks, as many of them:
      reading the first block, at its location in the new file, gives the old one. */
  method RewriteIsStale(z: Tools, was: Source, now: Source) returns (c: BlockFiles, l: ChunkLocation, r: Option<Bytes>)
    requires GoodTools(z) && Worthy(z, was, None) && Worthy(z, now, None)
    requires was.index == now.index && |was.blocks| == |now.blocks| && was.blocks[0] != now.blocks[0]
    ensures fresh(c) && c.Valid() && c.files == map[now.index := FileOf(z, now)] && l.chunk == now.index
    ensures l in ChunkOf(z, now.networkId, now.index, now.firstHeight, now.blocks).locations
    ensures ReadAt(z, FileOf(z, now), l) == Some(now.blocks[0])
    ensures r == Some(was.blocks[0])
  {
    hide Worthy, GoodTools, ReadAt, Unpacked, BodyOf, ChunkOf, Linked, FramesFit, Sealed;
    var first := Verified(z, was);
    var second := Verified(z, now);
    FirstLocation(z, was);
    FirstLocation(z, now);
    c := new BlockFiles(z);
    c.SaveChunk(was.index, first.0);
    var got := c.ReadFromChunk(first.1);
    c.DeleteChunk(was.index);
    c.SaveChunk(now.index, second.0);
    l := second.1;
    r := c.ReadFromChunk(l);
  }

  /** Encode a chunk and check the file, as a peer's is checked before it is saved. */
  method Verified(z: Tools, s: Source) returns (r: (Bytes, ChunkLocation))
    requires GoodTools(z) && Worthy(z, s, None)
    ensures r.0 == FileOf(z, s)
    ensures var ls := ChunkOf(z, s.networkId, s.index, s.firstHeight, s.blocks).locations; |ls| > 0 && r.1 == ls[0]
    ensures ReadAt(z, r.0, r.1) == Some(s.blocks[0]) && r.1.segmentOffset + r.1.segmentLength <= |r.0|
  {
    hide GoodTools, Unpacked, BodyOf, Linked, FramesFit, Sealed, WidthsHold;
    var data := EncodeChunk(z, s.networkId, s.index, s.firstHeight, s.blocks);
    var chunk := DecodeChunk(z, data.value.0, None, None, Some(s));
    assert AllRead(z, data.value.0, chunk.value.blocks, chunk.value.locations);
    r := (data.value.0, chunk.value.locations[0]);
  }

  // --- tools and chunks to show it on ---------------------------------------------------------------------------

  /** Compression that puts one byte in front. */
  function Prefixed(raw: Bytes): Bytes { [0] + raw }

  function Stripped(data: Bytes, limit: nat): Option<(Bytes, bool)> {
    if data == [] then None
    else Some((if |data| - 1 <= limit then data[1..] else data[1..limit + 1], |data| - 1 <= limit))
  }

  function SimpleTools(): (z: Tools)
    ensures z.compress == Prefixed && z.inflate == Stripped
    ensures (forall b :: |z.sha256(b)| == 32) && (forall ids :: |z.merkleRoot(ids)| == 32)
  {
    var zeros: Bytes := seq(32, i => 0);
    Tools(b => zeros, ids => zeros, Prefixed, Stripped)
  }

  lemma SimpleToolsAreGood()
    ensures GoodTools(SimpleTools())
  {
    var z := SimpleTools();
    forall raw: Bytes, limit: nat
      ensures Inflates(z, raw, limit)
    {
      assert Prefixed(raw)[1..] == raw;
      if |raw| > limit { assert Prefixed(raw)[1..limit + 1] == raw[..limit]; }
    }
  }

  /** A chunk of one block that is a header alone, with this nonce. */
  function HeaderChunk(nonce: nat): Source {
    var zeros: Bytes := seq(32, i => 0);
    Source(0, 0, 0, [Codec.EncodeHeader(Header(0, 0, zeros, zeros, zeros, 0, 0, nonce))])
  }

  lemma PowersAreLarge()
    ensures Encoding.Pow256(1) > 0 && Encoding.Pow256(4) > 1000 && Encoding.Pow256(8) > 1000
    ensures Encoding.Pow256(32) > 0
  {
    assert Encoding.Pow256(4) == 256 * (256 * (256 * (256 * Encoding.Pow256(0))));
    Positive(28);
    Positive(32);
    Grows(4);
  }

  lemma {:induction false} Positive(n: nat)
    ensures Encoding.Pow256(n) >= 1
  {
    if n > 0 { Positive(n - 1); }
  }

  lemma Grows(n: nat)
    ensures Encoding.Pow256(n + 4) >= Encoding.Pow256(n)
  {
    Positive(n);
    Positive(n + 1);
    Positive(n + 2);
    Positive(n + 3);
  }

  lemma HeaderChunkIsWorthy(nonce: nat)
    requires nonce < 256
    ensures Worthy(SimpleTools(), HeaderChunk(nonce), None)
  {
    hide Encoding.Pow256, Codec.EncodeHeader;
    PowersAreLarge();
    var z, s := SimpleTools(), HeaderChunk(nonce);
    var zeros: Bytes := seq(32, i => 0);
    var h := Header(0, 0, zeros, zeros, zeros, 0, 0, nonce);
    var b := Codec.EncodeHeader(h);
    assert Codec.HeaderFits(h);
    Codec.HeaderSizeIsLength(h);
    assert b[..HEADER_SIZE] == b;
    assert HeaderIs(b, h);
    assert LinkedAt(z, 0, s.blocks, 0);
    assert Groups(s.blocks) == [s.blocks];
    assert s.blocks[1..] == [] && Frames(s.blocks) == Frame(b) + Frames([]);
    var segments := Segments(z, Groups(s.blocks));
    assert segments[1..] == [] && Rows(segments[1..], HEADER_BYTES + 12 + |segments[0]|) == [];
    assert |Groups(s.blocks)| == 1;
    assert RowsOf(z, s.blocks) == [(HEADER_BYTES + 12, |segments[0]|)];
  }

  /** There are such tools, and two such chunks for RewriteIsStale. */
  lemma StaleRewriteExists() returns (z: Tools, was: Source, now: Source)
    ensures GoodTools(z) && Worthy(z, was, None) && Worthy(z, now, None)
    ensures was.index == now.index && |was.blocks| == |now.blocks| && was.blocks[0] != now.blocks[0]
  {
    hide Worthy, GoodTools, Codec.EncodeHeader;
    z, was, now := SimpleTools(), HeaderChunk(0), HeaderChunk(1);
    SimpleToolsAreGood();
    HeaderChunkIsWorthy(0);
    HeaderChunkIsWorthy(1);
    NoncesDiffer();
  }

  lemma NoncesDiffer()
    ensures HeaderChunk(0).blocks[0] != HeaderChunk(1).blocks[0]
  {
    hide Encoding.Pow256, Codec.EncodeHeader;
    PowersAreLarge();
    var zeros: Bytes := seq(32, i => 0);
    var x, y := Header(0, 0, zeros, zeros, zeros, 0, 0, 0), Header(0, 0, zeros, zeros, zeros, 0, 0, 1);
    if Codec.EncodeHeader(x) == Codec.EncodeHeader(y) {
      Codec.PeelHeader(x, [], y, []);
    }
  }

  lemma MovedToEnd(was: seq<Segment>, i: nat, now: seq<Segment>)
    requires i < |was| && now == was[..i] + was[i + 1..] + [was[i]]
    ensures |now| == |was| && forall s :: s in now <==> s in was
    ensures (forall a, b :: 0 <= a < b < |was| ==> (was[a].chunk, was[a].offset) != (was[b].chunk, was[b].offset)) ==>
      (forall a, b :: 0 <= a < b < |now| ==> (now[a].chunk, now[a].offset) != (now[b].chunk, now[b].offset))
  {
    assert was == was[..i] + [was[i]] + was[i + 1..];
    forall a | 0 <= a < |now|
      ensures now[a] == if a < i then was[a] else if a < |was| - 1 then was[a + 1] else was[i]
    {
    }
  }
}
