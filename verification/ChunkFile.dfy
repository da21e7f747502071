/**
 blockfiles.py: a chunk file holds a day of blocks in compressed groups of 64. Decoding an encoded
 chunk gives the blocks back, and every location reads its block. SHA-256, the Merkle root of ids
 and zlib are parameters.
 */
module ChunkFile {
  import opened Types
  import opened Encoding
  import Codec

  /** `inflate` decompresses up to a limit: what came out, and whether that was one complete stream and nothing else. */
  datatype Tools = Tools(sha256: Bytes -> Bytes, merkleRoot: seq<Bytes> -> Bytes,
                         compress: Bytes -> Bytes, inflate: (Bytes, nat) -> Option<(Bytes, bool)>)

  /** What was compressed comes out again, as far as the limit goes. */
  ghost predicate Inflates(z: Tools, raw: Bytes, limit: nat) {
    && z.inflate(z.compress(raw), limit).Some?
    && var out := z.inflate(z.compress(raw), limit).value;
       if |raw| < limit then out == (raw, true) else out.0 == raw[..limit]
  }

  /** A stream that ended within one limit ends the same within a larger one. */
  ghost predicate Settles(z: Tools, data: Bytes, limit: nat, more: nat) {
    z.inflate(data, limit).Some? && z.inflate(data, limit).value.1 ==> z.inflate(data, more) == z.inflate(data, limit)
  }

  ghost predicate GoodTools(z: Tools) {
    && (forall b :: |z.sha256(b)| == 32)
    && (forall ids :: |z.merkleRoot(ids)| == 32)
    && (forall raw, limit :: Inflates(z, raw, limit))
    && (forall data, limit, more :: limit <= more ==> Settles(z, data, limit, more))
    && (forall raw :: z.compress(raw) != [])
  }

  const MAGIC: Bytes := [84, 67, 67, 72, 85, 78, 75, 49]
  const SEGMENT_BLOCKS: nat := 64
  const HEADER_BYTES: nat := 61
  const MAX_BLOCK_BYTES: nat := 1_000_000
  const MAX_SEGMENT_BYTES: nat := 64_000_256

  datatype ChunkLocation = ChunkLocation(chunk: nat, segmentOffset: nat, segmentLength: nat, position: nat)

  datatype Chunk = Chunk(networkId: nat, index: nat, firstHeight: nat, blocks: seq<Bytes>,
                         locations: seq<ChunkLocation>, root: Bytes)

  // --- one segment: blocks as (length u32, bytes) -----------------------------------------------------------

  function Frame(b: Bytes): Bytes { Big(|b|, 4) + b }

  function Frames(blocks: seq<Bytes>): Bytes {
    if blocks == [] then [] else Frame(blocks[0]) + Frames(blocks[1..])
  }

  predicate FramesFit(blocks: seq<Bytes>) {
    forall b :: b in blocks ==> 1 <= |b| <= MAX_BLOCK_BYTES
  }

  /** The frames from this offset on, when so many blocks came before. */
  function SplitFrom(raw: Bytes, offset: nat, count: nat): Result<seq<Bytes>>
    requires offset <= |raw|
    decreases |raw| - offset
  {
    if offset == |raw| then Ok([])
    else if count >= SEGMENT_BLOCKS || |raw| - offset < 4 then Err(BadData)
    else
      var length := FromBig(raw[offset..offset + 4]);
      if !(1 <= length <= MAX_BLOCK_BYTES) || offset + 4 + length > |raw| then Err(BadData)
      else
        var rest :- SplitFrom(raw, offset + 4 + length, count + 1);
        Ok([raw[offset + 4..offset + 4 + length]] + rest)
  }

  lemma {:induction false} SplitIsBad(raw: Bytes, offset: nat, count: nat)
    requires offset <= |raw|
    ensures SplitFrom(raw, offset, count) != Err(TooLarge)
    decreases |raw| - offset
  {
    hide FromBig;
    if |raw| - offset >= 4 {
      var length := FromBig(raw[offset..offset + 4]);
      if offset + 4 + length <= |raw| { SplitIsBad(raw, offset + 4 + length, count + 1); }
    }
  }

  /** Splitting what was framed gives it back. */
  lemma {:induction false} SplitsFrames(raw: Bytes, offset: nat, count: nat, blocks: seq<Bytes>)
    requires offset <= |raw| && raw[offset..] == Frames(blocks) && FramesFit(blocks)
    requires count + |blocks| <= SEGMENT_BLOCKS
    ensures SplitFrom(raw, offset, count) == Ok(blocks)
    decreases |blocks|
  {
    hide Big, FromBig, Frame;
    if blocks != [] {
      var b := blocks[0];
      assert b in blocks && forall c :: c in blocks[1..] ==> c in blocks;
      FirstFrame(raw, offset, b, Frames(blocks[1..]));
      SplitsFrames(raw, offset + 4 + |b|, count + 1, blocks[1..]);
      assert blocks == [b] + blocks[1..];
    }
  }

  /** The first frame of some data, as the splitter looks at it. */
  lemma FirstFrame(raw: Bytes, offset: nat, b: Bytes, rest: Bytes)
    requires offset <= |raw| && raw[offset..] == Frame(b) + rest && |b| <= MAX_BLOCK_BYTES
    ensures offset + 4 + |b| <= |raw| && FromBig(raw[offset..offset + 4]) == |b|
    ensures raw[offset + 4..offset + 4 + |b|] == b && raw[offset + 4 + |b|..] == rest
  {
    hide Big, FromBig, Pow256;
    assert StartsAt(raw, offset, Frame(b) + rest);
    Splits(raw, offset, Frame(b), rest);
    Splits(raw, offset, Big(|b|, 4), b);
    FourBytes();
    BigIsRead(|b|, 4);
    var tail := raw[offset..];
    assert raw[offset + 4 + |b|..] == tail[4 + |b|..];
  }

  lemma FourBytes()
    ensures Pow256(4) > MAX_BLOCK_BYTES
  {
    assert Pow256(4) == 256 * (256 * (256 * (256 * Pow256(0))));
  }

  /** The bytes of the frames split off. */
  lemma {:induction false} SplitSize(raw: Bytes, offset: nat, count: nat)
    requires offset <= |raw| && SplitFrom(raw, offset, count).Ok?
    ensures FrameBytes(SplitFrom(raw, offset, count).value) == |raw| - offset
    ensures FramesFit(SplitFrom(raw, offset, count).value)
    decreases |raw| - offset
  {
    if offset < |raw| {
      var length := FromBig(raw[offset..offset + 4]);
      SplitSize(raw, offset + 4 + length, count + 1);
    }
  }

  function FrameBytes(blocks: seq<Bytes>): nat {
    if blocks == [] then 0 else |blocks[0]| + 4 + FrameBytes(blocks[1..])
  }

  lemma {:induction false} FramesSize(blocks: seq<Bytes>)
    ensures |Frames(blocks)| == FrameBytes(blocks)
  {
    if blocks != [] { FramesSize(blocks[1..]); }
  }

  lemma {:induction false} FrameBytesBound(blocks: seq<Bytes>)
    requires FramesFit(blocks)
    ensures FrameBytes(blocks) <= |blocks| * (MAX_BLOCK_BYTES + 4)
  {
    if blocks != [] {
      assert blocks[0] in blocks && forall b :: b in blocks[1..] ==> b in blocks;
      FrameBytesBound(blocks[1..]);
    }
  }

  /** blockfiles._pack_segment */
  function PackSegment(z: Tools, blocks: seq<Bytes>): Bytes { z.compress(Frames(blocks)) }

  /** blockfiles._unpack_segment: no more is decompressed than one byte above the limits. */
  function Unpacked(z: Tools, data: Bytes, maxBytes: nat): Result<seq<Bytes>> {
    match z.inflate(data, Least(maxBytes, MAX_SEGMENT_BYTES) + 1)
    case None => Err(BadData)
    case Some(out) =>
      if |out.0| > MAX_SEGMENT_BYTES then Err(BadData)
      else if |out.0| > maxBytes then Err(TooLarge)
      else if !out.1 then Err(BadData)
      else SplitFrom(out.0, 0, 0)
  }

  method UnpackSegment(z: Tools, data: Bytes, maxBytes: nat) returns (r: Result<seq<Bytes>>)
    ensures r == Unpacked(z, data, maxBytes)
    ensures maxBytes >= MAX_SEGMENT_BYTES ==> r != Err(TooLarge)
  {
    hide FromBig;
    var stream := z.inflate(data, Least(maxBytes, MAX_SEGMENT_BYTES) + 1);
    if stream.None? { return Err(BadData); }
    var raw := stream.value.0;
    if |raw| > MAX_SEGMENT_BYTES { return Err(BadData); }
    if |raw| > maxBytes { return Err(TooLarge); }
    if !stream.value.1 { return Err(BadData); }
    SplitIsBad(raw, 0, 0);
    var blocks: seq<Bytes>, offset := [], 0;
    if SplitFrom(raw, 0, 0).Ok? { assert [] + SplitFrom(raw, 0, 0).value == SplitFrom(raw, 0, 0).value; }
    while offset < |raw|
      invariant offset <= |raw|
      invariant SplitFrom(raw, 0, 0) == match SplitFrom(raw, offset, |blocks|)
                                        case Ok(rest) => Ok(blocks + rest)
                                        case Err(e) => Err(e)
    {
      if |blocks| >= SEGMENT_BLOCKS || |raw| - offset < 4 { return Err(BadData); }
      var length := FromBig(raw[offset..offset + 4]);
      if !(1 <= length <= MAX_BLOCK_BYTES) || offset + 4 + length > |raw| { return Err(BadData); }
      ghost var was := blocks;
      blocks := blocks + [raw[offset + 4..offset + 4 + length]];
      assert forall rest: seq<Bytes> :: was + ([raw[offset + 4..offset + 4 + length]] + rest) == blocks + rest;
      offset := offset + 4 + length;
    }
    assert blocks + [] == blocks;
    r := Ok(blocks);
  }

  /** Unpacking what was packed gives it back, or says that the budget is exceeded exactly if it is. */
  lemma UnpacksPacked(z: Tools, blocks: seq<Bytes>, maxBytes: nat)
    requires GoodTools(z) && FramesFit(blocks) && |blocks| <= SEGMENT_BLOCKS
    ensures Unpacked(z, PackSegment(z, blocks), maxBytes) ==
      if FrameBytes(blocks) <= maxBytes then Ok(blocks) else Err(TooLarge)
  {
    hide SplitFrom, FrameBytes, Frames;
    FramesSize(blocks);
    FrameBytesBound(blocks);
    assert Inflates(z, Frames(blocks), Least(maxBytes, MAX_SEGMENT_BYTES) + 1);
    SplitsFrames(Frames(blocks), 0, 0, blocks) by { assert Frames(blocks)[0..] == Frames(blocks); }
  }

  // --- the whole file ---------------------------------------------------------------------------------------

  function Groups(blocks: seq<Bytes>): seq<seq<Bytes>> {
    if |blocks| <= SEGMENT_BLOCKS then (if blocks == [] then [] else [blocks])
    else [blocks[..SEGMENT_BLOCKS]] + Groups(blocks[SEGMENT_BLOCKS..])
  }

  function Segments(z: Tools, groups: seq<seq<Bytes>>): (r: seq<Bytes>)
    ensures |r| == |groups|
  {
    seq(|groups|, i requires 0 <= i < |groups| => PackSegment(z, groups[i]))
  }

  /** Where each segment starts, and how long it is. */
  type Row = (nat, nat)

  function Rows(segments: seq<Bytes>, offset: nat): seq<Row> {
    if segments == [] then [] else [(offset, |segments[0]|)] + Rows(segments[1..], offset + |segments[0]|)
  }

  function EncodeRows(rows: seq<Row>): Bytes {
    if rows == [] then [] else (Big(rows[0].0, 8) + Big(rows[0].1, 4)) + EncodeRows(rows[1..])
  }

  function Concat(segments: seq<Bytes>): Bytes {
    if segments == [] then [] else segments[0] + Concat(segments[1..])
  }

  function LocationsAt(index: nat, row: Row, count: nat): seq<ChunkLocation> {
    seq(count, position requires 0 <= position < count => ChunkLocation(index, row.0, row.1, position))
  }

  function Locations(index: nat, groups: seq<seq<Bytes>>, rows: seq<Row>): seq<ChunkLocation>
    requires |groups| == |rows|
  {
    if groups == [] then [] else LocationsAt(index, rows[0], |groups[0]|) + Locations(index, groups[1..], rows[1..])
  }

  /** blockfiles.block_id_of */
  function BlockIdOf(z: Tools, b: Bytes): Bytes {
    z.sha256(if |b| >= HEADER_SIZE then b[..HEADER_SIZE] else b)
  }

  function BlockIds(z: Tools, blocks: seq<Bytes>): seq<Bytes> {
    seq(|blocks|, i requires 0 <= i < |blocks| => BlockIdOf(z, blocks[i]))
  }

  function EncodeHead(networkId: nat, index: nat, firstHeight: nat, count: nat, root: Bytes, segmentCount: nat): Bytes {
    MAGIC + (Big(networkId, 1)
             + (Big(index, 4) + (Big(firstHeight, 8) + (Big(count, 4) + (root + Big(segmentCount, 4))))))
  }

  function RowsOf(z: Tools, blocks: seq<Bytes>): seq<Row> {
    Rows(Segments(z, Groups(blocks)), HEADER_BYTES + 12 * |Groups(blocks)|)
  }

  /** Everything but the checksum. */
  function BodyOf(z: Tools, networkId: nat, index: nat, firstHeight: nat, blocks: seq<Bytes>): Bytes {
    EncodeHead(networkId, index, firstHeight, |blocks|, z.merkleRoot(BlockIds(z, blocks)), |Groups(blocks)|) +
      (EncodeRows(RowsOf(z, blocks)) + Concat(Segments(z, Groups(blocks))))
  }

  /** With the checksum at the end. */
  function Sealed(z: Tools, body: Bytes): Bytes { body + z.sha256(body) }

  /** What a chunk file of these blocks decodes to. */
  function ChunkOf(z: Tools, networkId: nat, index: nat, firstHeight: nat, blocks: seq<Bytes>): Chunk {
    RowsCount(Segments(z, Groups(blocks)), HEADER_BYTES + 12 * |Groups(blocks)|);
    Chunk(networkId, index, firstHeight, blocks, Locations(index, Groups(blocks), RowsOf(z, blocks)),
          z.merkleRoot(BlockIds(z, blocks)))
  }

  lemma {:induction false} RowsCount(segments: seq<Bytes>, offset: nat)
    ensures |Rows(segments, offset)| == |segments|
  {
    if segments != [] { RowsCount(segments[1..], offset + |segments[0]|); }
  }

  /** The numbers fit the widths they are written in. */
  ghost predicate WidthsHold(z: Tools, networkId: nat, index: nat, firstHeight: nat, blocks: seq<Bytes>) {
    && networkId < Pow256(1) && index < Pow256(4) && firstHeight < Pow256(8) && |blocks| < Pow256(4)
    && |Groups(blocks)| < Pow256(4)
    && (forall b :: b in blocks ==> |b| < Pow256(4))
    && RowsFit(RowsOf(z, blocks))
  }

  ghost predicate RowsFit(rows: seq<Row>) {
    forall row :: row in rows ==> row.0 < Pow256(8) && row.1 < Pow256(4)
  }

  // --- facts about the layout ----------------------------------------------------------------------------------

  lemma {:induction false} GroupsFacts(blocks: seq<Bytes>)
    ensures |Groups(blocks)| == (|blocks| + SEGMENT_BLOCKS - 1) / SEGMENT_BLOCKS
    ensures forall g :: g in Groups(blocks) ==> 1 <= |g| <= SEGMENT_BLOCKS && forall b :: b in g ==> b in blocks
    decreases |blocks|
  {
    if |blocks| > SEGMENT_BLOCKS {
      var rest := blocks[SEGMENT_BLOCKS..];
      GroupsFacts(rest);
      assert forall b :: b in rest ==> b in blocks;
      assert forall b :: b in blocks[..SEGMENT_BLOCKS] ==> b in blocks;
    } else if blocks != [] {
      assert (|blocks| + SEGMENT_BLOCKS - 1) / SEGMENT_BLOCKS == 1;
    }
  }

  lemma {:induction false} EncodeRowsSize(rows: seq<Row>)
    ensures |EncodeRows(rows)| == 12 * |rows|
  {
    if rows != [] { EncodeRowsSize(rows[1..]); }
  }

  /** Each segment lies in the body where its row says. */
  lemma {:induction false} SegmentsLie(body: Bytes, offset: nat, segments: seq<Bytes>, i: nat)
    requires StartsAt(body, offset, Concat(segments)) && i < |segments|
    ensures |Rows(segments, offset)| == |segments|
    ensures StartsAt(body, Rows(segments, offset)[i].0, segments[i]) && Rows(segments, offset)[i].1 == |segments[i]|
    decreases i
  {
    RowsCount(segments, offset);
    Splits(body, offset, segments[0], Concat(segments[1..]));
    if i > 0 { SegmentsLie(body, offset + |segments[0]|, segments[1..], i - 1); }
  }

  /** The rows follow one another from `start` to `end`, none empty. */
  predicate LaidOut(rows: seq<Row>, start: nat, end: nat)
    decreases |rows|
  {
    if rows == [] then start == end
    else rows[0].0 == start && rows[0].1 > 0 && start + rows[0].1 <= end && LaidOut(rows[1..], start + rows[0].1, end)
  }

  lemma {:induction false} RowsAreLaidOut(segments: seq<Bytes>, start: nat)
    requires forall s :: s in segments ==> s != []
    ensures LaidOut(Rows(segments, start), start, start + |Concat(segments)|)
  {
    if segments != [] {
      var rest, next := segments[1..], start + |segments[0]|;
      assert segments[0] in segments && forall s :: s in rest ==> s in segments;
      RowsAreLaidOut(rest, next);
      var rows := Rows(segments, start);
      assert rows[1..] == Rows(rest, next);
      assert next + |Concat(rest)| == start + |Concat(segments)|;
    }
  }

  lemma {:induction false} RowsInside(rows: seq<Row>, start: nat, end: nat, i: nat)
    requires LaidOut(rows, start, end) && i < |rows|
    ensures start <= rows[i].0 && rows[i].0 + rows[i].1 <= end
  {
    if i > 0 { RowsInside(rows[1..], start + rows[0].1, end, i - 1); }
  }

  // --- encoding ---------------------------------------------------------------------------------------------

  method WriteHead(w: Writer, networkId: nat, index: nat, firstHeight: nat, count: nat, root: Bytes, segmentCount: nat)
    returns (s: Status)
    requires |root| == 32 && w.Value() == []
    modifies w
    ensures s.Done? <==> networkId < Pow256(1) && index < Pow256(4) && firstHeight < Pow256(8) && count < Pow256(4)
                         && segmentCount < Pow256(4)
    ensures s.Done? ==> w.Value() == EncodeHead(networkId, index, firstHeight, count, root, segmentCount)
  {
    hide Big, Pow256;
    w.Raw(MAGIC);
    s := w.Uint(networkId, 1);
    if s.Refused? { return; }
    s := w.Uint(index, 4);
    if s.Refused? { return; }
    s := w.Uint(firstHeight, 8);
    if s.Refused? { return; }
    s := w.Uint(count, 4);
    if s.Refused? { return; }
    s := w.Fixed(root, 32);
    s := w.Uint(segmentCount, 4);
    HeadAssociates(networkId, index, firstHeight, count, root, segmentCount);
  }

  lemma HeadAssociates(networkId: nat, index: nat, firstHeight: nat, count: nat, root: Bytes, segmentCount: nat)
    ensures [] + MAGIC + Big(networkId, 1) + Big(index, 4) + Big(firstHeight, 8) + Big(count, 4) + root
            + Big(segmentCount, 4)
         == EncodeHead(networkId, index, firstHeight, count, root, segmentCount)
  {
    hide Big;
    var tail := root + Big(segmentCount, 4);
    Codec.FourParts([], MAGIC, Big(networkId, 1), Big(index, 4), Big(firstHeight, 8));
    var head := [] + MAGIC + Big(networkId, 1) + Big(index, 4) + Big(firstHeight, 8);
    Codec.Associate(head + Big(count, 4), root, Big(segmentCount, 4));
    Codec.Associate(head, Big(count, 4), tail);
    var rest := Big(count, 4) + tail;
    Codec.FourParts(MAGIC, Big(networkId, 1), Big(index, 4), Big(firstHeight, 8), rest);
    assert head == MAGIC + Big(networkId, 1) + Big(index, 4) + Big(firstHeight, 8);
  }

  lemma SnocRows(rows: seq<Row>, row: Row)
    ensures EncodeRows(rows + [row]) == EncodeRows(rows) + (Big(row.0, 8) + Big(row.1, 4))
  {
    hide Big;
    if rows == [] {
      assert [row][1..] == [];
    } else {
      assert (rows + [row])[1..] == rows[1..] + [row];
      SnocRows(rows[1..], row);
      Codec.Associate(Big(rows[0].0, 8) + Big(rows[0].1, 4), EncodeRows(rows[1..]), Big(row.0, 8) + Big(row.1, 4));
    }
  }

  /** The table and the locations after the first i segments. */
  ghost predicate TableSoFar(index: nat, groups: seq<seq<Bytes>>, segments: seq<Bytes>, all: seq<Row>, i: nat,
                             offset: nat, written: Bytes, locations: seq<ChunkLocation>)
  {
    && |all| == |groups| == |segments| && i <= |all|
    && all[i..] == Rows(segments[i..], offset)
    && written == EncodeRows(all[..i])
    && locations + Locations(index, groups[i..], all[i..]) == Locations(index, groups, all)
  }

  lemma TableStarts(index: nat, groups: seq<seq<Bytes>>, segments: seq<Bytes>, start: nat)
    requires |groups| == |segments|
    ensures TableSoFar(index, groups, segments, Rows(segments, start), 0, start, [], [])
  {
    RowsCount(segments, start);
    var all := Rows(segments, start);
    assert segments[0..] == segments && groups[0..] == groups && all[0..] == all && all[..0] == [];
    assert [] + Locations(index, groups, all) == Locations(index, groups, all);
  }

  lemma TableStep(index: nat, groups: seq<seq<Bytes>>, segments: seq<Bytes>, all: seq<Row>, i: nat,
                  offset: nat, written: Bytes, locations: seq<ChunkLocation>)
    requires TableSoFar(index, groups, segments, all, i, offset, written, locations) && i < |groups|
    ensures all[i] == (offset, |segments[i]|)
    ensures TableSoFar(index, groups, segments, all, i + 1, offset + |segments[i]|,
                       written + Big(offset, 8) + Big(|segments[i]|, 4),
                       locations + LocationsAt(index, all[i], |groups[i]|))
  {
    hide Big, LocationsAt;
    var row := (offset, |segments[i]|);
    assert segments[i..][1..] == segments[i + 1..] && all[i..][1..] == all[i + 1..] &&
      groups[i..][1..] == groups[i + 1..];
    assert all[i..][0] == row;
    SnocRows(all[..i], row);
    assert all[..i + 1] == all[..i] + [row];
    Codec.Associate(EncodeRows(all[..i]), Big(row.0, 8), Big(row.1, 4));
    var these, later := LocationsAt(index, row, |groups[i]|), Locations(index, groups[i + 1..], all[i + 1..]);
    assert Locations(index, groups[i..], all[i..]) == these + later;
    assert locations + (these + later) == (locations + these) + later;
  }

  lemma TableEnds(index: nat, groups: seq<seq<Bytes>>, segments: seq<Bytes>, all: seq<Row>,
                  offset: nat, written: Bytes, locations: seq<ChunkLocation>)
    requires TableSoFar(index, groups, segments, all, |groups|, offset, written, locations)
    ensures written == EncodeRows(all) && locations == Locations(index, groups, all)
  {
    assert all[..|all|] == all && groups[|groups|..] == [];
    assert locations + [] == locations;
  }

  /** The loop of encode_chunk: the segment table and the locations. */
  method WriteTable(index: nat, groups: seq<seq<Bytes>>, segments: seq<Bytes>, start: nat)
    returns (s: Status, table: Bytes, locations: seq<ChunkLocation>)
    requires |groups| == |segments|
    ensures |Rows(segments, start)| == |groups|
    ensures s.Done? <==> RowsFit(Rows(segments, start))
    ensures s.Done? ==> table == EncodeRows(Rows(segments, start))
    ensures s.Done? ==> locations == Locations(index, groups, Rows(segments, start))
  {
    hide Big, Pow256, Rows, EncodeRows, Locations, LocationsAt, TableSoFar, Join, Concat;
    var w := new Writer();
    var offset: nat := start;
    table, locations := [], [];
    ghost var all := Rows(segments, start);
    RowsCount(segments, start);
    TableStarts(index, groups, segments, start);
    for i := 0 to |groups|
      invariant TableSoFar(index, groups, segments, all, i, offset, w.Value(), locations)
      invariant forall j :: 0 <= j < i ==> all[j].0 < Pow256(8) && all[j].1 < Pow256(4)
    {
      TableStep(index, groups, segments, all, i, offset, w.Value(), locations);
      assert all[i] in all;
      s := w.Uint(offset, 8);
      if s.Refused? { return; }
      s := w.Uint(|segments[i]|, 4);
      if s.Refused? { return; }
      locations := locations + LocationsAt(index, (offset, |segments[i]|), |groups[i]|);
      offset := offset + |segments[i]|;
    }
    TableEnds(index, groups, segments, all, offset, w.Value(), locations);
    s, table := Done, w.Value();
  }

  /** blockfiles.encode_chunk */
  method EncodeChunk(z: Tools, networkId: nat, index: nat, firstHeight: nat, blocks: seq<Bytes>)
    returns (r: Result<(Bytes, seq<ChunkLocation>)>)
    requires GoodTools(z)
    ensures r.Ok? <==> WidthsHold(z, networkId, index, firstHeight, blocks)
    ensures r.Ok? ==> r.value.0 == Sealed(z, BodyOf(z, networkId, index, firstHeight, blocks))
    ensures r.Ok? ==> r.value.1 == ChunkOf(z, networkId, index, firstHeight, blocks).locations
  {
    hide Big, Pow256, Groups, Rows, RowsFit, EncodeHead;
    if exists b :: b in blocks && |b| >= Pow256(4) { return Err(DoesNotFit); }
    var groups := Groups(blocks);
    var segments := Segments(z, groups);
    var root := z.merkleRoot(BlockIds(z, blocks));
    var s, table, locations := WriteTable(index, groups, segments, HEADER_BYTES + 12 * |segments|);
    if s.Refused? { return Err(DoesNotFit); }
    var w := new Writer();
    s := WriteHead(w, networkId, index, firstHeight, |blocks|, root, |segments|);
    if s.Refused? { return Err(DoesNotFit); }
    var body := w.Value() + (table + Concat(segments));
    r := Ok((Sealed(z, body), locations));
  }

  // --- decoding ---------------------------------------------------------------------------------------------

  /** What a block's header bytes say. */
  ghost predicate HeaderIs(b: Bytes, h: Codec.WireHeader) {
    |b| >= HEADER_SIZE && Codec.HeaderFits(h) && b[..HEADER_SIZE] == Codec.EncodeHeader(h)
  }

  /** Block i stands at its height and links to the one before it. */
  ghost predicate LinkedAt(z: Tools, firstHeight: nat, blocks: seq<Bytes>, i: nat)
    requires i < |blocks|
  {
    exists h :: HeaderIs(blocks[i], h) && h.height == firstHeight + i
                && (i > 0 ==> h.prevId == BlockIdOf(z, blocks[i - 1]))
  }

  ghost predicate Linked(z: Tools, firstHeight: nat, blocks: seq<Bytes>) {
    forall i :: 0 <= i < |blocks| ==> LinkedAt(z, firstHeight, blocks, i)
  }

  /** The last loop of decode_chunk. */
  method CheckLinks(z: Tools, firstHeight: nat, blocks: seq<Bytes>) returns (ok: bool)
    ensures ok <==> Linked(z, firstHeight, blocks)
  {
    hide Codec.HeaderFits, Codec.EncodeHeader;
    for i := 0 to |blocks|
      invariant forall j :: 0 <= j < i ==> LinkedAt(z, firstHeight, blocks, j)
    {
      if |blocks[i]| < HEADER_SIZE {
        assert !LinkedAt(z, firstHeight, blocks, i);
        return false;
      }
      var header := Codec.HeaderFromBytes(blocks[i][..HEADER_SIZE]);
      var h := header.value;
      OneHeader(blocks[i], h);
      if h.height != firstHeight + i || (i > 0 && h.prevId != BlockIdOf(z, blocks[i - 1])) {
        assert !LinkedAt(z, firstHeight, blocks, i);
        return false;
      }
      assert HeaderIs(blocks[i], h);
    }
    return true;
  }

  lemma OneHeader(b: Bytes, h: Codec.WireHeader)
    requires HeaderIs(b, h)
    ensures forall g :: HeaderIs(b, g) ==> g == h
  {
    hide Codec.HeaderFits, Codec.EncodeHeader;
    forall g | HeaderIs(b, g)
      ensures g == h
    {
      assert Codec.EncodeHeader(g) + [] == Codec.EncodeHeader(h) + [];
      Codec.PeelHeader(g, [], h, []);
    }
  }

  /** The rows of the segment table. */
  method ReadRows(r: Reader, count: nat, ghost want: Option<seq<Row>>, ghost tail: Bytes)
    returns (rows: Result<seq<Row>>)
    requires r.Valid()
    requires want.Some? ==> |want.value| == count && RowsFit(want.value)
    requires want.Some? ==> StartsAt(r.data, r.pos, EncodeRows(want.value) + tail)
    modifies r
    ensures r.Valid() && (rows.Ok? ==> |rows.value| == count) && rows != Err(TooLarge)
    ensures want.Some? ==> rows == Ok(want.value)
  {
    hide Big, Pow256;
    var list: seq<Row> := [];
    if want.Some? { assert want.value[0..] == want.value; }
    for i := 0 to count
      invariant r.Valid() && |list| == i
      invariant want.Some? ==> list == want.value[..i] && StartsAt(r.data, r.pos, EncodeRows(want.value[i..]) + tail)
    {
      ghost var at := r.pos;
      if want.Some? { RowStarts(r.data, at, want.value, i, tail); }
      var offset :- r.Uint(8);
      if want.Some? { ReadsBack(r.data, at, offset, want.value[i].0, 8); }
      var length :- r.Uint(4);
      if want.Some? { ReadsBack(r.data, at + 8, length, want.value[i].1, 4); }
      list := list + [(offset, length)];
    }
    if want.Some? { assert want.value[..count] == want.value; }
    rows := Ok(list);
  }

  lemma RowStarts(data: Bytes, at: nat, rows: seq<Row>, i: nat, tail: Bytes)
    requires i < |rows| && RowsFit(rows) && StartsAt(data, at, EncodeRows(rows[i..]) + tail)
    ensures rows[i].0 < Pow256(8) && rows[i].1 < Pow256(4)
    ensures StartsAt(data, at, Big(rows[i].0, 8)) && StartsAt(data, at + 8, Big(rows[i].1, 4))
    ensures StartsAt(data, at + 12, EncodeRows(rows[i + 1..]) + tail)
  {
    hide Big, Pow256;
    assert rows[i] in rows && rows[i..][0] == rows[i] && rows[i..][1..] == rows[i + 1..];
    var a, b := Big(rows[i].0, 8), Big(rows[i].1, 4);
    Codec.Associate(a + b, EncodeRows(rows[i + 1..]), tail);
    Splits(data, at, a + b, EncodeRows(rows[i + 1..]) + tail);
    Splits(data, at, a, b);
  }

  /** The layout check: repeated or overlapping segments are refused before anything is unpacked. */
  method CheckLayout(rows: seq<Row>, start: nat, end: nat) returns (ok: bool)
    requires start <= end
    ensures ok <==> LaidOut(rows, start, end)
  {
    var expected: nat := start;
    assert rows[0..] == rows;
    for i := 0 to |rows|
      invariant expected <= end && (LaidOut(rows, start, end) <==> LaidOut(rows[i..], expected, end))
    {
      assert rows[i..][0] == rows[i] && rows[i..][1..] == rows[i + 1..];
      if rows[i].0 != expected || rows[i].1 == 0 || rows[i].0 + rows[i].1 > end { return false; }
      expected := expected + rows[i].1;
    }
    assert rows[|rows|..] == [];
    ok := expected == end;
  }

  /** blockfiles.read_from_chunk, without its cache: unpack the segment and pick the block. */
  function ReadAt(z: Tools, file: Bytes, l: ChunkLocation): Option<Bytes> {
    if l.segmentOffset + l.segmentLength > |file| then None
    else
      var group := Unpacked(z, file[l.segmentOffset..l.segmentOffset + l.segmentLength], MAX_SEGMENT_BYTES);
      if group.Ok? && l.position < |group.value| then Some(group.value[l.position]) else None
  }

  /** Each location reads its block. */
  ghost predicate AllRead(z: Tools, file: Bytes, blocks: seq<Bytes>, locations: seq<ChunkLocation>) {
    |locations| == |blocks| && forall i :: 0 <= i < |blocks| ==> ReadAt(z, file, locations[i]) == Some(blocks[i])
  }

  function Least(a: nat, b: nat): nat { if a <= b then a else b }

  lemma GroupNext(blocks: seq<Bytes>, n: nat, groups: seq<seq<Bytes>>, i: nat)
    requires n <= |blocks| && i <= |groups| && Groups(blocks[n..]) == groups[i..]
    ensures i < |groups| <==> n < |blocks|
    ensures var m := n + Least(SEGMENT_BLOCKS, |blocks| - n);
      n < |blocks| ==> groups[i] == blocks[n..m] && Groups(blocks[m..]) == groups[i + 1..]
  {
    var rest := blocks[n..];
    if n < |blocks| {
      assert groups[i..][0] == groups[i] && groups[i..][1..] == groups[i + 1..];
      if |rest| > SEGMENT_BLOCKS {
        assert rest[..SEGMENT_BLOCKS] == blocks[n..n + SEGMENT_BLOCKS];
        assert rest[SEGMENT_BLOCKS..] == blocks[n + SEGMENT_BLOCKS..];
      } else {
        assert blocks[n..|blocks|] == rest && blocks[|blocks|..] == [];
        assert groups[i..] == [rest];
      }
    }
  }

  lemma {:induction false} FrameBytesAppend(a: seq<Bytes>, b: seq<Bytes>)
    ensures FrameBytes(a + b) == FrameBytes(a) + FrameBytes(b)
  {
    if a == [] {
      assert a + b == b;
    } else {
      assert (a + b)[1..] == a[1..] + b;
      FrameBytesAppend(a[1..], b);
    }
  }

  /** What the file holds, if it was encoded from these blocks. */
  ghost predicate EncodedAs(z: Tools, body: Bytes, start: nat, rows: seq<Row>, blocks: seq<Bytes>) {
    && FramesFit(blocks) && rows == Rows(Segments(z, Groups(blocks)), start)
    && StartsAt(body, start, Concat(Segments(z, Groups(blocks))))
  }

  /** The i-th segment of an encoded file unpacks to its blocks, within what is left of the budget. */
  lemma SegmentUnpacks(z: Tools, body: Bytes, start: nat, rows: seq<Row>, blocks: seq<Bytes>, n: nat, i: nat,
                       budget: nat)
    requires GoodTools(z) && EncodedAs(z, body, start, rows, blocks) && n < |blocks| && i <= |Groups(blocks)|
    requires Groups(blocks[n..]) == Groups(blocks)[i..]
    ensures i < |rows| == |Groups(blocks)| && rows[i].0 + rows[i].1 <= |body|
    ensures var m := n + Least(SEGMENT_BLOCKS, |blocks| - n);
      && Groups(blocks)[i] == blocks[n..m] && Groups(blocks[m..]) == Groups(blocks)[i + 1..]
      && Unpacked(z, body[rows[i].0..rows[i].0 + rows[i].1], budget) ==
         (if FrameBytes(blocks[n..m]) <= budget then Ok(blocks[n..m]) else Err(TooLarge))
      && FrameBytes(blocks[n..]) == FrameBytes(blocks[n..m]) + FrameBytes(blocks[m..])
      && FrameBytes(blocks[n..m]) <= MAX_SEGMENT_BYTES
  {
    hide Groups, Rows, Unpacked, FrameBytes, Concat, FramesFit, GoodTools;
    var m := n + Least(SEGMENT_BLOCKS, |blocks| - n);
    GroupNext(blocks, n, Groups(blocks), i);
    SegmentsLie(body, start, Segments(z, Groups(blocks)), i);
    assert blocks[n..] == blocks[n..m] + blocks[m..];
    FrameBytesAppend(blocks[n..m], blocks[m..]);
    SliceFits(blocks, n, m);
    UnpacksPacked(z, blocks[n..m], budget);
  }

  lemma SliceFits(blocks: seq<Bytes>, n: nat, m: nat)
    requires FramesFit(blocks) && n <= m <= |blocks|
    ensures FramesFit(blocks[n..m])
    ensures m - n <= SEGMENT_BLOCKS ==> FrameBytes(blocks[n..m]) <= MAX_SEGMENT_BYTES
  {
    assert forall b :: b in blocks[n..m] ==> b in blocks;
    FrameBytesBound(blocks[n..m]);
  }

  lemma ReadsOne(z: Tools, body: Bytes, index: nat, row: Row, budget: nat, p: nat)
    requires GoodTools(z) && row.0 + row.1 <= |body| && Unpacked(z, body[row.0..row.0 + row.1], budget).Ok?
    requires p < |Unpacked(z, body[row.0..row.0 + row.1], budget).value|
    ensures ReadAt(z, body, ChunkLocation(index, row.0, row.1, p)) ==
      Some(Unpacked(z, body[row.0..row.0 + row.1], budget).value[p])
  {
    hide SplitFrom;
    var limit := Least(budget, MAX_SEGMENT_BYTES) + 1;
    assert Settles(z, body[row.0..row.0 + row.1], limit, MAX_SEGMENT_BYTES + 1);
  }

  /** One segment more: its blocks are read by its locations. */
  lemma AllReadMore(z: Tools, body: Bytes, blocks: seq<Bytes>, locations: seq<ChunkLocation>, index: nat, row: Row,
                    budget: nat)
    requires GoodTools(z) && AllRead(z, body, blocks, locations)
    requires row.0 + row.1 <= |body| && Unpacked(z, body[row.0..row.0 + row.1], budget).Ok?
    ensures var group := Unpacked(z, body[row.0..row.0 + row.1], budget).value;
      AllRead(z, body, blocks + group, locations + LocationsAt(index, row, |group|))
  {
    hide ReadAt, Unpacked, GoodTools;
    var group := Unpacked(z, body[row.0..row.0 + row.1], budget).value;
    var bs, ls := blocks + group, locations + LocationsAt(index, row, |group|);
    forall i | 0 <= i < |bs|
      ensures ReadAt(z, body, ls[i]) == Some(bs[i])
    {
      if i >= |blocks| {
        ReadsOne(z, body, index, row, budget, i - |blocks|);
      }
    }
  }

  lemma UnpackedSize(z: Tools, data: Bytes, budget: nat)
    requires Unpacked(z, data, budget).Ok?
    ensures FrameBytes(Unpacked(z, data, budget).value) <= budget && FramesFit(Unpacked(z, data, budget).value)
  {
    SplitSize(z.inflate(data, Least(budget, MAX_SEGMENT_BYTES) + 1).value.0, 0, 0);
  }

  /** How far decoding an encoded file has come: these blocks, and their locations, after i segments. */
  ghost predicate Decoding(index: nat, rows: seq<Row>, all: seq<Bytes>, i: nat, blocks: seq<Bytes>,
                           locations: seq<ChunkLocation>) {
    var groups := Groups(all);
    && |groups| == |rows| && i <= |rows| && |blocks| <= |all| && blocks == all[..|blocks|]
    && Groups(all[|blocks|..]) == groups[i..]
    && FrameBytes(blocks) + FrameBytes(all[|blocks|..]) == FrameBytes(all)
    && locations + Locations(index, groups[i..], rows[i..]) == Locations(index, groups, rows)
  }

  lemma DecodingStarts(z: Tools, body: Bytes, start: nat, index: nat, rows: seq<Row>, all: seq<Bytes>)
    requires EncodedAs(z, body, start, rows, all)
    ensures Decoding(index, rows, all, 0, [], []) && |Groups(all)| == |rows|
  {
    hide FrameBytes, Groups;
    RowsCount(Segments(z, Groups(all)), start);
    assert all[..0] == [] && all[0..] == all && Groups(all)[0..] == Groups(all) && rows[0..] == rows;
    FrameBytesAppend([], all);
    assert [] + all == all;
    assert [] + Locations(index, Groups(all), rows) == Locations(index, Groups(all), rows);
  }

  lemma DecodingStep(z: Tools, body: Bytes, start: nat, index: nat, rows: seq<Row>, all: seq<Bytes>, i: nat,
                     blocks: seq<Bytes>, locations: seq<ChunkLocation>, budget: nat)
    requires GoodTools(z) && EncodedAs(z, body, start, rows, all) && i < |rows|
    requires Decoding(index, rows, all, i, blocks, locations)
    ensures |blocks| < |all| && rows[i].0 + rows[i].1 <= |body|
    ensures var n := Least(SEGMENT_BLOCKS, |all| - |blocks|);
      var group := all[|blocks|..|blocks| + n];
      && Unpacked(z, body[rows[i].0..rows[i].0 + rows[i].1], budget) ==
         (if FrameBytes(group) <= budget then Ok(group) else Err(TooLarge))
      && |group| == n && FrameBytes(group) <= MAX_SEGMENT_BYTES
      && FrameBytes(blocks) + FrameBytes(group) <= FrameBytes(all)
      && Decoding(index, rows, all, i + 1, blocks + group, locations + LocationsAt(index, rows[i], |group|))
  {
    hide FrameBytes, Groups, Unpacked, LocationsAt, EncodedAs, GoodTools;
    GroupNext(all, |blocks|, Groups(all), i);
    SegmentUnpacks(z, body, start, rows, all, |blocks|, i, budget);
    var m := |blocks| + Least(SEGMENT_BLOCKS, |all| - |blocks|);
    var group := all[|blocks|..m];
    assert blocks + group == all[..m];
    FrameBytesAppend(blocks, group);
    var groups := Groups(all);
    assert groups[i..][0] == groups[i] && groups[i..][1..] == groups[i + 1..];
    assert rows[i..][0] == rows[i] && rows[i..][1..] == rows[i + 1..];
    var these, later := LocationsAt(index, rows[i], |group|), Locations(index, groups[i + 1..], rows[i + 1..]);
    assert Locations(index, groups[i..], rows[i..]) == these + later;
    assert locations + (these + later) == (locations + these) + later;
  }

  lemma DecodingEnds(index: nat, rows: seq<Row>, all: seq<Bytes>, blocks: seq<Bytes>, locations: seq<ChunkLocation>)
    requires Decoding(index, rows, all, |rows|, blocks, locations)
    ensures blocks == all && |Groups(all)| == |rows| && locations == Locations(index, Groups(all), rows)
  {
    GroupNext(all, |blocks|, Groups(all), |rows|);
    assert Groups(all)[|rows|..] == [];
    assert locations + [] == locations;
  }

  /** The middle loop of decode_chunk. */
  method DecodeSegments(z: Tools, body: Bytes, rows: seq<Row>, index: nat, count: nat, maxDecoded: Option<nat>,
                        ghost start: nat, ghost want: Option<seq<Bytes>>)
    returns (r: Result<(seq<Bytes>, seq<ChunkLocation>)>)
    requires GoodTools(z) && LaidOut(rows, start, |body|)
    requires want.Some? ==> EncodedAs(z, body, start, rows, want.value) && |want.value| == count
    ensures r.Ok? ==> AllRead(z, body, r.value.0, r.value.1) && FramesFit(r.value.0) && |r.value.0| <= count
    ensures r.Ok? && maxDecoded.Some? ==> FrameBytes(r.value.0) <= maxDecoded.value
    ensures want.Some? ==> |Groups(want.value)| == |rows|
    ensures maxDecoded.None? ==> r != Err(TooLarge)
    ensures want.Some? ==>
      r == if maxDecoded.Some? && FrameBytes(want.value) > maxDecoded.value then Err(TooLarge)
           else Ok((want.value, Locations(index, Groups(want.value), rows)))
  {
    hide Groups, Rows, Unpacked, FrameBytes, Locations, LocationsAt, LaidOut, GoodTools, EncodedAs, AllRead, Decoding;
    var blocks: seq<Bytes>, locations: seq<ChunkLocation> := [], [];
    NothingRead(z, body);
    if want.Some? { DecodingStarts(z, body, start, index, rows, want.value); }
    for i := 0 to |rows|
      invariant FramesFit(blocks) && |blocks| <= count
      invariant maxDecoded.Some? ==> FrameBytes(blocks) <= maxDecoded.value
      invariant AllRead(z, body, blocks, locations)
      invariant want.Some? ==> Decoding(index, rows, want.value, i, blocks, locations)
    {
      var left := if maxDecoded.None? then MAX_SEGMENT_BYTES else maxDecoded.value - FrameBytes(blocks);
      RowsInside(rows, start, |body|, i);
      if want.Some? { DecodingStep(z, body, start, index, rows, want.value, i, blocks, locations, left); }
      var group :- UnpackSegment(z, body[rows[i].0..rows[i].0 + rows[i].1], left);
      UnpackedSize(z, body[rows[i].0..rows[i].0 + rows[i].1], left);
      FrameBytesAppend(blocks, group);
      AllReadMore(z, body, blocks, locations, index, rows[i], left);
      if |group| != Least(SEGMENT_BLOCKS, count - |blocks|) { return Err(BadData); }
      blocks := blocks + group;
      locations := locations + LocationsAt(index, rows[i], |group|);
    }
    if want.Some? { DecodingEnds(index, rows, want.value, blocks, locations); }
    r := Ok((blocks, locations));
  }

  lemma NothingRead(z: Tools, body: Bytes)
    ensures AllRead(z, body, [], []) && FrameBytes([]) == 0
  {
  }

  // --- the whole file, decoded --------------------------------------------------------------------------------

  datatype Head = Head(networkId: nat, index: nat, firstHeight: nat, count: nat, root: Bytes, segmentCount: nat)

  ghost predicate HeadFits(h: Head) {
    && h.networkId < Pow256(1) && h.index < Pow256(4) && h.firstHeight < Pow256(8) && h.count < Pow256(4)
    && |h.root| == 32 && h.segmentCount < Pow256(4)
  }

  function HeadBytes(h: Head): Bytes {
    EncodeHead(h.networkId, h.index, h.firstHeight, h.count, h.root, h.segmentCount)
  }

  lemma HeadStarts(data: Bytes, h: Head)
    requires HeadFits(h) && StartsAt(data, 0, HeadBytes(h))
    ensures |HeadBytes(h)| == HEADER_BYTES
    ensures StartsAt(data, 0, MAGIC) && StartsAt(data, 8, Big(h.networkId, 1)) && StartsAt(data, 9, Big(h.index, 4))
    ensures StartsAt(data, 13, Big(h.firstHeight, 8)) && StartsAt(data, 21, Big(h.count, 4))
    ensures StartsAt(data, 25, h.root) && StartsAt(data, 57, Big(h.segmentCount, 4))
  {
    hide Big, Pow256;
    var t5 := h.root + Big(h.segmentCount, 4);
    var t4 := Big(h.count, 4) + t5;
    var t3 := Big(h.firstHeight, 8) + t4;
    var t2 := Big(h.index, 4) + t3;
    Splits(data, 0, MAGIC, Big(h.networkId, 1) + t2);
    Splits(data, 8, Big(h.networkId, 1), t2);
    Splits(data, 9, Big(h.index, 4), t3);
    Splits(data, 13, Big(h.firstHeight, 8), t4);
    Splits(data, 21, Big(h.count, 4), t5);
    Splits(data, 25, h.root, Big(h.segmentCount, 4));
  }

  method ReadHead(r: Reader, ghost want: Option<Head>) returns (h: Result<Head>)
    requires r.Valid() && r.pos == 0
    requires want.Some? ==> HeadFits(want.value) && StartsAt(r.data, 0, HeadBytes(want.value))
    modifies r
    ensures r.Valid() && (h.Ok? ==> r.pos == HEADER_BYTES && |h.value.root| == 32) && h != Err(TooLarge)
    ensures want.Some? ==> h == Ok(want.value)
  {
    hide Big, Pow256, HeadBytes;
    if want.Some? { HeadStarts(r.data, want.value); }
    var magic :- r.Take(8);
    var networkId :- r.Uint(1);
    var index :- r.Uint(4);
    var firstHeight :- r.Uint(8);
    var count :- r.Uint(4);
    var root :- r.Take(32);
    var segmentCount :- r.Uint(4);
    h := Ok(Head(networkId, index, firstHeight, count, root, segmentCount));
    if want.Some? {
      ReadsBack(r.data, 8, networkId, want.value.networkId, 1);
      ReadsBack(r.data, 9, index, want.value.index, 4);
      ReadsBack(r.data, 13, firstHeight, want.value.firstHeight, 8);
      ReadsBack(r.data, 21, count, want.value.count, 4);
      ReadsBack(r.data, 57, segmentCount, want.value.segmentCount, 4);
    }
  }

  lemma AllReadInFile(z: Tools, body: Bytes, checksum: Bytes, blocks: seq<Bytes>, locations: seq<ChunkLocation>)
    requires AllRead(z, body, blocks, locations)
    ensures AllRead(z, body + checksum, blocks, locations)
  {
    hide Unpacked;
    forall i | 0 <= i < |blocks|
      ensures ReadAt(z, body + checksum, locations[i]) == Some(blocks[i])
    {
      var l := locations[i];
      assert (body + checksum)[l.segmentOffset..l.segmentOffset + l.segmentLength]
          == body[l.segmentOffset..l.segmentOffset + l.segmentLength];
    }
  }

  /** A chunk worth encoding: what chain sealing hands over. */
  datatype Source = Source(networkId: nat, index: nat, firstHeight: nat, blocks: seq<Bytes>)

  ghost predicate Worthy(z: Tools, s: Source, maxBlocks: Option<nat>) {
    && WidthsHold(z, s.networkId, s.index, s.firstHeight, s.blocks)
    && s.blocks != [] && FramesFit(s.blocks) && Linked(z, s.firstHeight, s.blocks)
    && (maxBlocks.Some? ==> |s.blocks| <= maxBlocks.value)
  }

  function HeadOf(z: Tools, s: Source): Head {
    Head(s.networkId, s.index, s.firstHeight, |s.blocks|, z.merkleRoot(BlockIds(z, s.blocks)), |Groups(s.blocks)|)
  }

  lemma HeadPart(z: Tools, s: Source, body: Bytes)
    requires GoodTools(z) && WidthsHold(z, s.networkId, s.index, s.firstHeight, s.blocks)
    requires body == BodyOf(z, s.networkId, s.index, s.firstHeight, s.blocks)
    ensures HeadFits(HeadOf(z, s)) && StartsAt(body, 0, HeadBytes(HeadOf(z, s)))
    ensures StartsAt(body, HEADER_BYTES, EncodeRows(RowsOf(z, s.blocks)) + Concat(Segments(z, Groups(s.blocks))))
    ensures |body| == HEADER_BYTES + |EncodeRows(RowsOf(z, s.blocks))| + |Concat(Segments(z, Groups(s.blocks)))|
  {
    hide Big, Pow256, EncodeHead, Rows, EncodeRows, Concat, RowsFit, Groups, BlockIds, Segments;
    var head := HeadBytes(HeadOf(z, s));
    var rest := EncodeRows(RowsOf(z, s.blocks)) + Concat(Segments(z, Groups(s.blocks)));
    assert body == head + rest;
    assert body[0..|body|] == body;
    Splits(body, 0, head, rest);
    HeadStarts(body, HeadOf(z, s));
  }

  lemma PackedNotEmpty(z: Tools, groups: seq<seq<Bytes>>)
    requires GoodTools(z)
    ensures forall g :: g in Segments(z, groups) ==> g != []
  {
    hide Frames;
  }

  /** The parts of an encoded body, where decoding looks for them. */
  lemma BodyParts(z: Tools, s: Source, body: Bytes)
    requires GoodTools(z) && WidthsHold(z, s.networkId, s.index, s.firstHeight, s.blocks)
    requires FramesFit(s.blocks)
    requires body == BodyOf(z, s.networkId, s.index, s.firstHeight, s.blocks)
    ensures var rows, start := RowsOf(z, s.blocks), HEADER_BYTES + 12 * |Groups(s.blocks)|;
      && HeadFits(HeadOf(z, s)) && StartsAt(body, 0, HeadBytes(HeadOf(z, s)))
      && |rows| == |Groups(s.blocks)| == (|s.blocks| + SEGMENT_BLOCKS - 1) / SEGMENT_BLOCKS
      && RowsFit(rows) && StartsAt(body, HEADER_BYTES, EncodeRows(rows) + Concat(Segments(z, Groups(s.blocks))))
      && EncodedAs(z, body, start, rows, s.blocks) && LaidOut(rows, start, |body|) && start <= |body|
  {
    hide *;
    assert RowsFit(RowsOf(z, s.blocks)) by { WidthsMean(z, s); }
    var segments := Segments(z, Groups(s.blocks));
    var start := HEADER_BYTES + 12 * |segments|;
    var rows := RowsOf(z, s.blocks);
    HeadPart(z, s, body);
    Splits(body, HEADER_BYTES, EncodeRows(rows), Concat(segments));
    EncodeRowsSize(rows);
    RowsCount(segments, start);
    GroupsFacts(s.blocks);
    PackedNotEmpty(z, Groups(s.blocks));
    RowsAreLaidOut(segments, start);
    RowsOfIs(z, s.blocks, body);
  }

  lemma WidthsMean(z: Tools, s: Source)
    requires WidthsHold(z, s.networkId, s.index, s.firstHeight, s.blocks)
    ensures RowsFit(RowsOf(z, s.blocks))
  {
    hide RowsFit;
  }

  lemma RowsOfIs(z: Tools, blocks: seq<Bytes>, body: Bytes)
    ensures |Segments(z, Groups(blocks))| == |Groups(blocks)|
    ensures RowsOf(z, blocks) == Rows(Segments(z, Groups(blocks)), HEADER_BYTES + 12 * |Groups(blocks)|)
    ensures (FramesFit(blocks)
             && StartsAt(body, HEADER_BYTES + 12 * |Groups(blocks)|, Concat(Segments(z, Groups(blocks))))) ==>
      EncodedAs(z, body, HEADER_BYTES + 12 * |Groups(blocks)|, RowsOf(z, blocks), blocks)
  {
    hide Rows, Concat, FramesFit;
  }

  /** blockfiles.decode_chunk: everything it accepts is consistent, and whatever was encoded from linked blocks, not too
      many, decodes to exactly those blocks and the locations the encoder gave, unless they exceed the budget of bytes:
      then, and for no other such file, it is that which it says. */
  method DecodeChunk(z: Tools, data: Bytes, maxBlocks: Option<nat>, maxDecoded: Option<nat>, ghost want: Option<Source>)
    returns (r: Result<Chunk>)
    requires GoodTools(z)
    requires want.Some? ==> Worthy(z, want.value, maxBlocks)
    requires want.Some? ==>
      data == Sealed(z, BodyOf(z, want.value.networkId, want.value.index, want.value.firstHeight, want.value.blocks))
    ensures r.Ok? ==>
      && r.value.blocks != [] && FramesFit(r.value.blocks) && Linked(z, r.value.firstHeight, r.value.blocks)
      && r.value.root == z.merkleRoot(BlockIds(z, r.value.blocks))
      && AllRead(z, data, r.value.blocks, r.value.locations)
      && (maxBlocks.Some? ==> |r.value.blocks| <= maxBlocks.value)
      && (maxDecoded.Some? ==> FrameBytes(r.value.blocks) <= maxDecoded.value)
    ensures maxDecoded.None? ==> r != Err(TooLarge)
    ensures want.Some? ==>
      r == if maxDecoded.Some? && FrameBytes(want.value.blocks) > maxDecoded.value then Err(TooLarge)
           else Ok(ChunkOf(z, want.value.networkId, want.value.index, want.value.firstHeight, want.value.blocks))
  {
    hide Big, Pow256, EncodeHead, Rows, EncodeRows, Concat, RowsFit, Groups, FramesFit, AllRead, LaidOut, EncodedAs,
      Linked, FrameBytes, Locations, BodyOf, WidthsHold, HeadFits, HeadBytes;
    if want.Some? {
      BodyParts(z, want.value,
                BodyOf(z, want.value.networkId, want.value.index, want.value.firstHeight, want.value.blocks));
      SealedLength(z, want.value);
    }
    if |data| < HEADER_BYTES + 32 || data[..8] != MAGIC { return Err(BadData); }
    var body, checksum := data[..|data| - 32], data[|data| - 32..];
    if z.sha256(body) != checksum { return Err(BadData); }
    assert data == body + checksum;
    var reader := new Reader(body);
    var h :- ReadHead(reader, if want.Some? then Some(HeadOf(z, want.value)) else None);
    if h.count == 0 || (maxBlocks.Some? && h.count > maxBlocks.value) { return Err(BadData); }
    if h.segmentCount != (h.count + SEGMENT_BLOCKS - 1) / SEGMENT_BLOCKS { return Err(BadData); }
    if HEADER_BYTES + 12 * h.segmentCount > |body| { return Err(BadData); }
    var rows :- ReadRows(reader, h.segmentCount, if want.Some? then Some(RowsOf(z, want.value.blocks)) else None,
                         if want.Some? then Concat(Segments(z, Groups(want.value.blocks))) else []);
    var start := HEADER_BYTES + 12 * h.segmentCount;
    var laidOut := CheckLayout(rows, start, |body|);
    if !laidOut { return Err(BadData); }
    var decoded :- DecodeSegments(z, body, rows, h.index, h.count, maxDecoded, start,
                                  if want.Some? then Some(want.value.blocks) else None);
    if |decoded.0| != h.count { return Err(BadData); }
    if z.merkleRoot(BlockIds(z, decoded.0)) != h.root { return Err(BadData); }
    var linked := CheckLinks(z, h.firstHeight, decoded.0);
    if !linked { return Err(BadData); }
    AllReadInFile(z, body, checksum, decoded.0, decoded.1);
    r := Ok(Chunk(h.networkId, h.index, h.firstHeight, decoded.0, decoded.1, h.root));
  }

  lemma SealedLength(z: Tools, s: Source)
    requires GoodTools(z)
    requires var body := BodyOf(z, s.networkId, s.index, s.firstHeight, s.blocks);
      HeadFits(HeadOf(z, s)) && StartsAt(body, 0, HeadBytes(HeadOf(z, s)))
    ensures var body := BodyOf(z, s.networkId, s.index, s.firstHeight, s.blocks);
      && |Sealed(z, body)| == |body| + 32 >= HEADER_BYTES + 32 && Sealed(z, body)[..8] == MAGIC
      && Sealed(z, body)[..|body|] == body && Sealed(z, body)[|body|..] == z.sha256(body)
  {
    var body := BodyOf(z, s.networkId, s.index, s.firstHeight, s.blocks);
    HeadStarts(body, HeadOf(z, s));
    assert Sealed(z, body)[..8] == body[0..8];
  }
}
