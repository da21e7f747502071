/**
 The documented byte layouts: what stands at which offset of a number, a header, a transaction and a chunk file.
 */
module Layouts {
  import opened Types
  import opened Encoding
  import opened Codec
  import opened ChunkFile

  /** Big-endian: the number is what stands above place `i`, the byte there and what stands below it, counted in powers
      of 256, the last byte in ones. */
  lemma {:induction false} BigDigits(value: nat, size: nat, i: nat) returns (above: nat, below: nat)
    requires i < size
    ensures 0 <= Big(value, size)[i] < 256 && below < Pow256(size - 1 - i)
    ensures value == (above * 256 + Big(value, size)[i]) * Pow256(size - 1 - i) + below
  {
    if i == size - 1 {
      above, below := value / 256, 0;
      assert Pow256(0) == 1;
    } else {
      var a, b := BigDigits(value / 256, size - 1, i);
      var unit := Pow256(size - 2 - i);
      above, below := a, b * 256 + value % 256;
      assert Pow256(size - 1 - i) == 256 * unit;
      OneByteMore(value, (a * 256 + Big(value, size)[i]), unit, b);
    }
  }

  lemma OneByteMore(value: nat, digits: nat, unit: nat, b: nat)
    requires value / 256 == digits * unit + b && b < unit
    ensures value == digits * (256 * unit) + (b * 256 + value % 256) && b * 256 + value % 256 < 256 * unit
  {
    assert digits * (256 * unit) == 256 * (digits * unit);
  }

  // --- a header -----------------------------------------------------------------------------------------------

  lemma FiveParts(pos: nat, data: Bytes, a: Bytes, b: Bytes, c: Bytes, d: Bytes, e: Bytes)
    requires StartsAt(data, pos, a + (b + (c + (d + e))))
    ensures StartsAt(data, pos, a) && StartsAt(data, pos + |a|, b) && StartsAt(data, pos + |a| + |b|, c)
    ensures StartsAt(data, pos + |a| + |b| + |c|, d) && StartsAt(data, pos + |a| + |b| + |c| + |d|, e)
  {
    hide StartsAt;
    Splits(data, pos, a, b + (c + (d + e)));
    Splits(data, pos + |a|, b, c + (d + e));
    Splits(data, pos + |a| + |b|, c, d + e);
    Splits(data, pos + |a| + |b| + |c|, d, e);
  }

  lemma ItStartsAt(data: Bytes)
    ensures StartsAt(data, 0, data)
  {
  }

  lemma NumberAt(data: Bytes, pos: nat, value: nat, size: nat)
    requires StartsAt(data, pos, Big(value, size)) && value < Pow256(size)
    ensures pos + size <= |data| && FromBig(data[pos..pos + size]) == value
  {
    BigIsRead(value, size);
  }

  /** The layout block.py documents. */
  lemma HeaderLayout(h: WireHeader)
    requires Codec.HeaderFits(h)
    ensures var d := EncodeHeader(h);
      && |d| == 156
      && FromBig(d[0..4]) == h.version && FromBig(d[4..12]) == h.height
      && d[12..44] == h.prevId && d[44..76] == h.merkleRoot && d[76..108] == h.snapshotRoot
      && FromBig(d[108..116]) == h.timestamp && FromBig(d[116..148]) == h.target && FromBig(d[148..156]) == h.nonce
  {
    hide Big, Pow256, FromBig;
    var d := EncodeHeader(h);
    HeaderSizeIsLength(h);
    ItStartsAt(d);
    Splits(d, 0, Big(h.version, 4), Big(h.height, 8) + (EncodeRoots(h) + EncodeMining(h)));
    Splits(d, 4, Big(h.height, 8), EncodeRoots(h) + EncodeMining(h));
    Splits(d, 12, EncodeRoots(h), EncodeMining(h));
    Splits(d, 12, h.prevId, h.merkleRoot + h.snapshotRoot);
    Splits(d, 44, h.merkleRoot, h.snapshotRoot);
    Splits(d, 108, Big(h.timestamp, 8), Big(h.target, 32) + Big(h.nonce, 8));
    Splits(d, 116, Big(h.target, 32), Big(h.nonce, 8));
    NumberAt(d, 0, h.version, 4);
    NumberAt(d, 4, h.height, 8);
    NumberAt(d, 108, h.timestamp, 8);
    NumberAt(d, 116, h.target, 32);
    NumberAt(d, 148, h.nonce, 8);
  }

  // --- transactions -------------------------------------------------------------------------------------------

  lemma {:induction false} OutputsLayout(outputs: seq<Output>, i: nat)
    requires i < |outputs| && OutputFits(outputs[i])
    ensures var d := EncodeOutputs(outputs);
      && |d| == 29 * |outputs|
      && FromBig(d[29 * i..29 * i + 21]) == outputs[i].address
      && FromBig(d[29 * i + 21..29 * i + 29]) == outputs[i].amount
  {
    hide Big, Pow256, FromBig;
    var d, rest := EncodeOutputs(outputs), EncodeOutputs(outputs[1..]);
    OutputsLength(outputs);
    if i == 0 {
      ItStartsAt(d);
      Splits(d, 0, EncodeOutput(outputs[0]), rest);
      Splits(d, 0, Big(outputs[0].address, 21), Big(outputs[0].amount, 8));
      NumberAt(d, 0, outputs[0].address, 21);
      NumberAt(d, 21, outputs[0].amount, 8);
    } else {
      OutputsLayout(outputs[1..], i - 1);
      OutputsLength(outputs[1..]);
      assert d[29 * i..29 * i + 21] == rest[29 * (i - 1)..29 * (i - 1) + 21];
      assert d[29 * i + 21..29 * i + 29] == rest[29 * (i - 1) + 21..29 * (i - 1) + 29];
    }
  }

  lemma {:induction false} OutputsLength(outputs: seq<Output>)
    ensures |EncodeOutputs(outputs)| == 29 * |outputs|
  {
    if outputs != [] { OutputsLength(outputs[1..]); }
  }

  /** Version, network and type, then the fields in order, the signature last. */
  lemma TransferLayout(tx: Transaction)
    requires TxFits(tx) && tx.Transfer?
    ensures var d, n, m := EncodeTx(tx), 29 * |tx.outputs|, |tx.memo|;
      && |d| == 52 + n + 1 + m + 64
      && d[0] == 1 && d[1] == tx.networkId && d[2] == 1 && d[3..35] == tx.publicKey
      && FromBig(d[35..43]) == tx.nonce && FromBig(d[43..51]) == tx.fee
      && d[51] == |tx.outputs| && d[52..52 + n] == EncodeOutputs(tx.outputs)
      && d[52 + n] == m && d[53 + n..53 + n + m] == tx.memo && d[53 + n + m..] == tx.signature
  {
    hide *;
    var d, n, m := EncodeTx(tx), 29 * |tx.outputs|, |tx.memo|;
    TransferHead(tx);
    PayloadLayout(d, 51, tx.outputs, tx.memo, tx.signature);
    assert d[53 + n + m..] == d[53 + n + m..53 + n + m + 64];
  }

  lemma TransferHead(tx: Transaction)
    requires TxFits(tx) && tx.Transfer?
    ensures var d, payload := EncodeTx(tx), EncodePayload(tx.outputs, tx.memo, tx.signature);
      && |d| == 51 + |payload| && StartsAt(d, 51, payload) && PayloadFits(tx.outputs, tx.memo, tx.signature)
      && d[0] == 1 && d[1] == tx.networkId && d[2] == 1 && d[3..35] == tx.publicKey
      && FromBig(d[35..43]) == tx.nonce && FromBig(d[43..51]) == tx.fee
  {
    hide Big, Pow256, FromBig, EncodeTx, EncodePayload, PayloadFits;
    var d, payload := EncodeTx(tx), EncodePayload(tx.outputs, tx.memo, tx.signature);
    InParts(tx);
    OneByte(TX_VERSION);
    OneByte(tx.networkId) by { PowerOfOne(); }
    OneByte(TYPE_TRANSFER);
    ItStartsAt(d);
    FiveParts(0, d, Big(TX_VERSION, 1), Big(tx.networkId, 1), Big(TYPE_TRANSFER, 1), tx.publicKey,
              Big(tx.nonce, 8) + (Big(tx.fee, 8) + payload));
    Splits(d, 35, Big(tx.nonce, 8), Big(tx.fee, 8) + payload);
    Splits(d, 43, Big(tx.fee, 8), payload);
    NumberAt(d, 35, tx.nonce, 8);
    NumberAt(d, 43, tx.fee, 8);
  }

  lemma PayloadLayout(d: Bytes, pos: nat, outputs: seq<Output>, memo: Bytes, signature: Bytes)
    requires PayloadFits(outputs, memo, signature) && StartsAt(d, pos, EncodePayload(outputs, memo, signature))
    ensures var n, m := 29 * |outputs|, |memo|;
      && |EncodePayload(outputs, memo, signature)| == 1 + n + 1 + m + 64 && pos + 66 + n + m <= |d|
      && d[pos] == |outputs| && d[pos + 1..pos + 1 + n] == EncodeOutputs(outputs) && d[pos + 1 + n] == m
      && d[pos + 2 + n..pos + 2 + n + m] == memo && d[pos + 2 + n + m..pos + 2 + n + m + 64] == signature
  {
    hide Big, Pow256, EncodeOutputs, OutputFits;
    var n, m := 29 * |outputs|, |memo|;
    OneByte(|outputs|) by { PowerOfOne(); }
    OneByte(m);
    OutputsLength(outputs);
    Splits(d, pos, Big(|outputs|, 1), EncodeOutputs(outputs) + (EncodeVar8(memo) + signature));
    Splits(d, pos + 1, EncodeOutputs(outputs), EncodeVar8(memo) + signature);
    Splits(d, pos + 1 + n, EncodeVar8(memo), signature);
    Splits(d, pos + 1 + n, Big(m, 1), memo);
  }

  lemma InParts(tx: Transaction)
    requires tx.Transfer?
    ensures EncodeTx(tx) == Big(TX_VERSION, 1) + (Big(tx.networkId, 1) + (Big(TYPE_TRANSFER, 1) + (tx.publicKey +
      (Big(tx.nonce, 8) + (Big(tx.fee, 8) + EncodePayload(tx.outputs, tx.memo, tx.signature))))))
  {
    hide Big, EncodePayload;
  }

  lemma PowerOfOne()
    ensures Pow256(1) == 256
  {
    assert Pow256(1) == 256 * Pow256(0);
  }

  lemma OneByte(value: nat)
    requires value < 256
    ensures Big(value, 1) == [value]
  {
    assert Big(value / 256, 0) == [];
  }

  /** Version, network and type, then height, address, amount and memo. */
  lemma CoinbaseLayout(tx: Transaction)
    requires TxFits(tx) && tx.Coinbase?
    ensures var d := EncodeTx(tx);
      && |d| == 41 + |tx.memo| && d[0] == 1 && d[1] == tx.networkId && d[2] == 0
      && FromBig(d[3..11]) == tx.height && FromBig(d[11..32]) == tx.address && FromBig(d[32..40]) == tx.amount
      && d[40] == |tx.memo| && d[41..] == tx.memo
  {
    hide Big, Pow256, FromBig;
    var d := EncodeTx(tx);
    OneByte(TX_VERSION);
    OneByte(tx.networkId) by { PowerOfOne(); }
    OneByte(TYPE_COINBASE);
    OneByte(|tx.memo|);
    ItStartsAt(d);
    FiveParts(0, d, Big(TX_VERSION, 1), Big(tx.networkId, 1), Big(TYPE_COINBASE, 1), Big(tx.height, 8),
              Big(tx.address, 21) + (Big(tx.amount, 8) + EncodeVar8(tx.memo)));
    Splits(d, 11, Big(tx.address, 21), Big(tx.amount, 8) + EncodeVar8(tx.memo));
    Splits(d, 32, Big(tx.amount, 8), EncodeVar8(tx.memo));
    Splits(d, 40, Big(|tx.memo|, 1), tx.memo);
    NumberAt(d, 3, tx.height, 8);
    NumberAt(d, 11, tx.address, 21);
    NumberAt(d, 32, tx.amount, 8);
  }

  // --- a chunk file -------------------------------------------------------------------------------------------

  /** The layout blockfiles.py documents: the fields of the head, the table after it, and a checksum of everything
      before at the end. */
  lemma ChunkLayout(z: Tools, networkId: nat, index: nat, firstHeight: nat, blocks: seq<Bytes>)
    requires WidthsHold(z, networkId, index, firstHeight, blocks)
    requires |z.merkleRoot(BlockIds(z, blocks))| == 32
    ensures var body := BodyOf(z, networkId, index, firstHeight, blocks);
      var d := ChunkFile.Sealed(z, body);
      && |body| >= 61 && d[..|body|] == body && d[|body|..] == z.sha256(body)
      && d[..8] == MAGIC && d[8] == networkId && FromBig(d[9..13]) == index && FromBig(d[13..21]) == firstHeight
      && FromBig(d[21..25]) == |blocks| && d[25..57] == z.merkleRoot(BlockIds(z, blocks))
      && FromBig(d[57..61]) == |Groups(blocks)| && StartsAt(d, 61, EncodeRows(RowsOf(z, blocks)))
  {
    hide Big, Pow256, FromBig, RowsOf, EncodeRows, Concat, Segments, Groups, BlockIds, RowsFit, EncodeHead, StartsAt;
    var root, n := z.merkleRoot(BlockIds(z, blocks)), |Groups(blocks)|;
    var head := Head(networkId, index, firstHeight, |blocks|, root, n);
    var rows, tail := EncodeRows(RowsOf(z, blocks)), Concat(Segments(z, Groups(blocks)));
    var body := BodyOf(z, networkId, index, firstHeight, blocks);
    var d := ChunkFile.Sealed(z, body);
    Prefix(body, z.sha256(body));
    assert HeadBytes(head) + (rows + tail) == body;
    ItStartsHere(d, body, HeadBytes(head), rows + tail);
    HeadStarts(d, head);
    HeadLayout(d, head);
    Splits(d, 61, rows, tail);
  }

  lemma Prefix(body: Bytes, more: Bytes)
    ensures (body + more)[..|body|] == body && (body + more)[|body|..] == more
  {
  }

  lemma ItStartsHere(d: Bytes, body: Bytes, a: Bytes, b: Bytes)
    requires |body| <= |d| && d[..|body|] == body == a + b
    ensures StartsAt(d, 0, a) && StartsAt(d, |a|, b)
  {
    Splits(d, 0, a, b);
  }

  /** What stands where in the head. */
  lemma HeadLayout(d: Bytes, h: Head)
    requires ChunkFile.HeadFits(h) && StartsAt(d, 0, HeadBytes(h))
    ensures 61 <= |d| && d[..8] == MAGIC && d[8] == h.networkId && FromBig(d[9..13]) == h.index
    ensures FromBig(d[13..21]) == h.firstHeight && FromBig(d[21..25]) == h.count && d[25..57] == h.root
    ensures FromBig(d[57..61]) == h.segmentCount
  {
    hide Big, Pow256, FromBig, EncodeHead;
    HeadStarts(d, h);
    OneByte(h.networkId) by { PowerOfOne(); }
    NumberAt(d, 9, h.index, 4);
    NumberAt(d, 13, h.firstHeight, 8);
    NumberAt(d, 21, h.count, 4);
    NumberAt(d, 57, h.segmentCount, 4);
  }
}
